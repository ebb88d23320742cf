/**
 * `handler(job)` of handler.py: reads the untyped job input, applies the
 * defaults, calls the text generator once inside a `try`, and returns a
 * success or an error dictionary.
 *
 * The generator (the transformers pipeline) is a parameter: it receives
 * the prompt, `max_new_tokens` and `temperature` and either produces the
 * first output's text or raises an exception with a message. Python's
 * parsing of strings by `int()` and `float()` is a parameter as well.
 * The coercions and the `prompt[:80]` slice run before the `try`, so a
 * failure there escapes the handler: `Handle` returns `Raised` for it.
 */
module Handler {
  import opened Wrappers

  /** A Python value as a JSON job input can carry it. */
  datatype Value =
    | VNone
    | VBool(b: bool)
    | VInt(i: int)
    | VFloat(f: real)
    | VStr(s: string)
    | VList(items: seq<Value>)
    | VDict(entries: map<string, Value>)

  /** Python truthiness, as `x or {}` tests it: the falsy values are exactly
      `None`, `False`, the zeros and the empty string, list and dict. */
  predicate Truthy(v: Value)
    ensures !Truthy(v) <==>
              v in {VNone, VBool(false), VInt(0), VFloat(0.0), VStr(""), VList([]), VDict(map[])}
  {
    match v
    case VNone => false
    case VBool(b) => b
    case VInt(i) => i != 0
    case VFloat(f) => f != 0.0
    case VStr(s) => s != ""
    case VList(items) => items != []
    case VDict(m) => m != map[]
  }

  /** `d.get(key, default)` */
  function Get(d: map<string, Value>, key: string, default: Value): Value {
    if key in d then d[key] else default
  }

  const DefaultPrompt: string := "Hello!"
  const DefaultMaxTokens: int := 256
  const DefaultTemperature: real := 0.7

  /** `int(f)` for a float: the integer part, truncated toward zero. */
  function TruncateTowardZero(f: real): (r: int)
    ensures 0.0 <= f ==> 0 <= r && r as real <= f < r as real + 1.0
    ensures f < 0.0 ==> r <= 0 && r as real - 1.0 < f <= r as real
  {
    if f >= 0.0 then f.Floor else -((-f).Floor)
  }

  /** `int(v)`, or `None` where Python raises: an int is kept, a bool is 0
      or 1, a float is truncated toward zero, a string is parsed, and `None`,
      a list or a dict raise `TypeError`. */
  function IntOf(v: Value, parseInt: string -> Option<int>): (r: Option<int>)
    ensures r.None? <==> v.VNone? || v.VList? || v.VDict? || (v.VStr? && parseInt(v.s).None?)
    ensures v.VInt? ==> r == Some(v.i)
    ensures v.VBool? ==> r == Some(if v.b then 1 else 0)
    ensures v.VFloat? && 0.0 <= v.f ==> 0 <= r.value && r.value as real <= v.f < r.value as real + 1.0
    ensures v.VFloat? && v.f < 0.0 ==> r.value <= 0 && r.value as real - 1.0 < v.f <= r.value as real
    ensures v.VStr? ==> r == parseInt(v.s)
  {
    match v
    case VInt(i) => Some(i)
    case VBool(b) => Some(if b then 1 else 0)
    case VFloat(f) => Some(TruncateTowardZero(f))
    case VStr(s) => parseInt(s)
    case _ => None
  }

  /** `float(v)`, or `None` where Python raises: a float is kept, an int or
      a bool is converted exactly, a string is parsed, and `None`, a list or
      a dict raise `TypeError`. */
  function FloatOf(v: Value, parseFloat: string -> Option<real>): (r: Option<real>)
    ensures r.None? <==> v.VNone? || v.VList? || v.VDict? || (v.VStr? && parseFloat(v.s).None?)
    ensures v.VFloat? ==> r == Some(v.f)
    ensures v.VInt? ==> r == Some(v.i as real)
    ensures v.VBool? ==> r == Some(if v.b then 1.0 else 0.0)
    ensures v.VStr? ==> r == parseFloat(v.s)
  {
    match v
    case VFloat(f) => Some(f)
    case VInt(i) => Some(i as real)
    case VBool(b) => Some(if b then 1.0 else 0.0)
    case VStr(s) => parseFloat(s)
    case _ => None
  }

  /** `v[:80]`: the first 80 characters of a string or items of a list (all
      of them when there are fewer), or `None` where Python raises. */
  function Head80(v: Value): (r: Option<Value>)
    ensures r.Some? <==> v.VStr? || v.VList?
    ensures v.VStr? ==> r.Some? && r.value.VStr? && r.value.s <= v.s
                        && |r.value.s| == if |v.s| < 80 then |v.s| else 80
    ensures v.VList? ==> r.Some? && r.value.VList? && r.value.items <= v.items
                         && |r.value.items| == if |v.items| < 80 then |v.items| else 80
  {
    match v
    case VStr(s) => Some(VStr(if |s| < 80 then s else s[..80]))
    case VList(items) => Some(VList(if |items| < 80 then items else items[..80]))
    case _ => None
  }

  /** `v[:80]` does not raise. */
  predicate Sliceable(v: Value) {
    Head80(v).Some?
  }

  /** For every value but a string, `int(v)` succeeds exactly when
      `float(v)` does, and then equals `int(float(v))`; in particular `int`
      gives back the integer that `float` converted. */
  lemma IntOfAgreesWithFloatOf(v: Value, parseInt: string -> Option<int>,
                               parseFloat: string -> Option<real>)
    requires !v.VStr?
    ensures IntOf(v, parseInt).Some? <==> FloatOf(v, parseFloat).Some?
    ensures FloatOf(v, parseFloat).Some? ==>
              IntOf(v, parseInt) == IntOf(VFloat(FloatOf(v, parseFloat).value), parseInt)
    ensures v.VInt? ==> IntOf(VFloat(FloatOf(v, parseFloat).value), parseInt) == Some(v.i)
  {
    if v.VInt? {
      var f := v.i as real;
      assert FloatOf(v, parseFloat) == Some(f);
      if 0 <= v.i {
        assert f.Floor == v.i;
      } else {
        assert (-f).Floor == -v.i by { assert -f == (-v.i) as real; }
      }
      assert TruncateTowardZero(f) == v.i;
    }
  }

  /** What the generator is called with. */
  datatype TextRequest = TextRequest(prompt: Value, maxTokens: int, temperature: real)

  /** An exception raised before the `try`, which the handler does not catch. */
  datatype Escape =
    | InputNotDict(input: Value)           // `.get` on a non-dict: AttributeError
    | MaxTokensNotInt(maxTokens: Value)    // `int(...)` raised
    | TemperatureNotFloat(temperature: Value)  // `float(...)` raised
    | PromptNotSliceable(prompt: Value)    // `prompt[:80]` raised

  datatype Prepared = Ready(request: TextRequest) | Escaped(escape: Escape)

  /** What the generator call inside the `try` yields: the first output's
      `generated_text`, or the message `str(e)` of the exception raised. */
  datatype GenResult = Generated(text: string) | GenError(message: string)

  /** What a call of `handler(job)` does: returns a dictionary, or raises. */
  datatype Outcome = Returned(response: map<string, Value>) | Raised(escape: Escape)

  /** `job.get("input", {}) or {}`: a missing or falsy input is `{}`. */
  function JobInput(job: map<string, Value>): (r: Value)
    ensures "input" !in job || !Truthy(job["input"]) ==> r == VDict(map[])
    ensures "input" in job && Truthy(job["input"]) ==> r == job["input"]
  {
    var v := Get(job, "input", VDict(map[]));
    if Truthy(v) then v else VDict(map[])
  }

  /** A field passes the step that reads it when it is absent (the
      default is used) or present and accepted by that step. */
  predicate MaxTokensAccepted(d: map<string, Value>, parseInt: string -> Option<int>) {
    "max_tokens" !in d || IntOf(d["max_tokens"], parseInt).Some?
  }

  predicate TemperatureAccepted(d: map<string, Value>, parseFloat: string -> Option<real>) {
    "temperature" !in d || FloatOf(d["temperature"], parseFloat).Some?
  }

  predicate PromptAccepted(d: map<string, Value>) {
    "prompt" !in d || Sliceable(d["prompt"])
  }

  /** Lines 98-103: the defaulted and coerced request, or the exception
      that escapes. The fields are read in the source's order, so the first
      failing step decides the exception. */
  function Prepare(job: map<string, Value>, parseInt: string -> Option<int>,
                   parseFloat: string -> Option<real>): (r: Prepared)
    ensures !JobInput(job).VDict? ==> r == Escaped(InputNotDict(JobInput(job)))
    ensures JobInput(job).VDict? ==>
              var d := JobInput(job).entries;
              && ("max_tokens" in d && IntOf(d["max_tokens"], parseInt).None? ==>
                    r == Escaped(MaxTokensNotInt(d["max_tokens"])))
              && (MaxTokensAccepted(d, parseInt)
                  && "temperature" in d && FloatOf(d["temperature"], parseFloat).None? ==>
                    r == Escaped(TemperatureNotFloat(d["temperature"])))
              && (MaxTokensAccepted(d, parseInt)
                  && TemperatureAccepted(d, parseFloat)
                  && "prompt" in d && !Sliceable(d["prompt"]) ==>
                    r == Escaped(PromptNotSliceable(d["prompt"])))
              && ((MaxTokensAccepted(d, parseInt) && TemperatureAccepted(d, parseFloat)
                   && PromptAccepted(d)) ==> r.Ready?)
    ensures r.Ready? ==>
              && JobInput(job).VDict?
              && var d := JobInput(job).entries;
              && r.request.prompt == (if "prompt" in d then d["prompt"] else VStr(DefaultPrompt))
              && ("max_tokens" !in d ==> r.request.maxTokens == DefaultMaxTokens)
              && ("max_tokens" in d ==> IntOf(d["max_tokens"], parseInt) == Some(r.request.maxTokens))
              && ("temperature" !in d ==> r.request.temperature == DefaultTemperature)
              && ("temperature" in d ==> FloatOf(d["temperature"], parseFloat) == Some(r.request.temperature))
  {
    var input := JobInput(job);
    if !input.VDict? then Escaped(InputNotDict(input))
    else
      var d := input.entries;
      var prompt := Get(d, "prompt", VStr(DefaultPrompt));
      match IntOf(Get(d, "max_tokens", VInt(DefaultMaxTokens)), parseInt)
      case None => Escaped(MaxTokensNotInt(d["max_tokens"]))
      case Some(maxTokens) =>
        match FloatOf(Get(d, "temperature", VFloat(DefaultTemperature)), parseFloat)
        case None => Escaped(TemperatureNotFloat(d["temperature"]))
        case Some(temperature) =>
          if !Sliceable(prompt) then Escaped(PromptNotSliceable(prompt))
          else Ready(TextRequest(prompt, maxTokens, temperature))
  }

  /** Lines 106-126: the dictionary for the generator's outcome. It always
      has a status, and exactly one of `output` and `error`. */
  function Respond(g: GenResult): (r: map<string, Value>)
    ensures r.Keys == {"status", "output"} || r.Keys == {"status", "error"}
    ensures ("output" in r <==> g.Generated?) && ("error" in r <==> g.GenError?)
    ensures r["status"] == VStr(if g.Generated? then "success" else "error")
    ensures g.Generated? ==> r["output"] == VStr(g.text)
    ensures g.GenError? ==> r["error"] == VStr(g.message)
  {
    match g
    case Generated(text) => map["status" := VStr("success"), "output" := VStr(text)]
    case GenError(message) => map["status" := VStr("error"), "error" := VStr(message)]
  }

  /** How a caller reads a response dictionary back: the generator outcome
      it reports, if it is one of the two shapes. */
  function Classify(r: map<string, Value>): Option<GenResult> {
    if "status" in r && r["status"] == VStr("success") && "output" in r && r["output"].VStr? then
      Some(Generated(r["output"].s))
    else if "status" in r && r["status"] == VStr("error") && "error" in r && r["error"].VStr? then
      Some(GenError(r["error"].s))
    else
      None
  }

  /** The response determines the generator's outcome. */
  lemma RespondRoundTrip(g: GenResult)
    ensures Classify(Respond(g)) == Some(g)
  {
  }

  /** `handler(job)`. The generator is consulted (once) only when the
      preparation did not raise; whatever it does, a dictionary is returned. */
  function Handle(job: map<string, Value>, parseInt: string -> Option<int>,
                  parseFloat: string -> Option<real>,
                  generate: TextRequest -> GenResult): (r: Outcome)
    ensures r.Raised? <==> Prepare(job, parseInt, parseFloat).Escaped?
    ensures r.Raised? ==> r.escape == Prepare(job, parseInt, parseFloat).escape
    ensures r.Returned? ==> r.response == Respond(generate(Prepare(job, parseInt, parseFloat).request))
  {
    match Prepare(job, parseInt, parseFloat)
    case Escaped(e) => Raised(e)
    case Ready(request) => Returned(Respond(generate(request)))
  }

  /** Inside the `try`: a generated text gives the success dictionary and a
      raised exception gives the error dictionary with its message. */
  lemma EngineOutcomeDecidesEnvelope(job: map<string, Value>, parseInt: string -> Option<int>,
                                     parseFloat: string -> Option<real>,
                                     generate: TextRequest -> GenResult)
    requires Prepare(job, parseInt, parseFloat).Ready?
    ensures var request := Prepare(job, parseInt, parseFloat).request;
            var r := Handle(job, parseInt, parseFloat, generate);
            && (generate(request).Generated? ==>
                  r == Returned(map["status" := VStr("success"), "output" := VStr(generate(request).text)]))
            && (generate(request).GenError? ==>
                  r == Returned(map["status" := VStr("error"), "error" := VStr(generate(request).message)]))
  {
  }

  /** The generator is consulted on the prepared request alone: two
      generators that agree on it give the same outcome. */
  lemma OnlyThePreparedRequestMatters(job: map<string, Value>, parseInt: string -> Option<int>,
                                      parseFloat: string -> Option<real>,
                                      g1: TextRequest -> GenResult, g2: TextRequest -> GenResult)
    requires Prepare(job, parseInt, parseFloat).Ready?
    requires g1(Prepare(job, parseInt, parseFloat).request) == g2(Prepare(job, parseInt, parseFloat).request)
    ensures Handle(job, parseInt, parseFloat, g1) == Handle(job, parseInt, parseFloat, g2)
  {
  }

  /** When the preparation raises, the generator is not consulted at all. */
  lemma EscapeSkipsEngine(job: map<string, Value>, parseInt: string -> Option<int>,
                          parseFloat: string -> Option<real>,
                          g1: TextRequest -> GenResult, g2: TextRequest -> GenResult)
    requires Prepare(job, parseInt, parseFloat).Escaped?
    ensures Handle(job, parseInt, parseFloat, g1) == Handle(job, parseInt, parseFloat, g2)
    ensures Handle(job, parseInt, parseFloat, g1) == Raised(Prepare(job, parseInt, parseFloat).escape)
  {
  }

  /** A missing or falsy input makes every field take its default. */
  lemma FalsyInputUsesDefaults(job: map<string, Value>, parseInt: string -> Option<int>,
                               parseFloat: string -> Option<real>,
                               generate: TextRequest -> GenResult)
    requires "input" !in job || !Truthy(job["input"])
    ensures Prepare(job, parseInt, parseFloat)
              == Ready(TextRequest(VStr(DefaultPrompt), DefaultMaxTokens, DefaultTemperature))
    ensures Handle(job, parseInt, parseFloat, generate)
              == Returned(Respond(generate(TextRequest(VStr(DefaultPrompt), DefaultMaxTokens, DefaultTemperature))))
  {
  }

  /** The input schema the handler expects (a string prompt, an integer
      `max_tokens`, a numeric `temperature`, each optional) never makes it
      raise, whatever the string parsers and the generator do. */
  lemma WellTypedInputNeverRaises(job: map<string, Value>, parseInt: string -> Option<int>,
                                  parseFloat: string -> Option<real>,
                                  generate: TextRequest -> GenResult)
    requires JobInput(job).VDict?
    requires "prompt" in JobInput(job).entries ==> JobInput(job).entries["prompt"].VStr?
    requires "max_tokens" in JobInput(job).entries ==> JobInput(job).entries["max_tokens"].VInt?
    requires "temperature" in JobInput(job).entries ==>
               JobInput(job).entries["temperature"].VInt? || JobInput(job).entries["temperature"].VFloat?
    ensures Handle(job, parseInt, parseFloat, generate).Returned?
  {
  }

  /** An escape happens exactly when the input is not a dictionary, or a
      field that is present cannot be coerced, or the prompt cannot be
      sliced. */
  lemma RaisesExactlyWhen(job: map<string, Value>, parseInt: string -> Option<int>,
                          parseFloat: string -> Option<real>,
                          generate: TextRequest -> GenResult)
    ensures Handle(job, parseInt, parseFloat, generate).Raised? <==>
              || !JobInput(job).VDict?
              || !MaxTokensAccepted(JobInput(job).entries, parseInt)
              || !TemperatureAccepted(JobInput(job).entries, parseFloat)
              || !PromptAccepted(JobInput(job).entries)
  {
  }

  /** A text job with all three fields and a generator that answers that
      request with "Hello world" gives the success dictionary. */
  lemma HelloWorldScenario(parseInt: string -> Option<int>, parseFloat: string -> Option<real>)
    ensures var job := map["input" := VDict(map["prompt" := VStr("Hello"), "max_tokens" := VInt(50),
                                                "temperature" := VFloat(0.2)])];
            var stub := (request: TextRequest) =>
              if request == TextRequest(VStr("Hello"), 50, 0.2) then Generated("Hello world")
              else GenError("unexpected request");
            Handle(job, parseInt, parseFloat, stub)
              == Returned(map["status" := VStr("success"), "output" := VStr("Hello world")])
  {
  }
}
