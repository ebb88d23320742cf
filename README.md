# Snapshot resolution and request handling of a serverless text-generation worker

This project models the deterministic part of `handler.py`, a RunPod
serverless worker that serves a Hugging Face causal language model from a
local, offline cache.

* **Snapshot resolution** (`resolve_snapshot_path`). The model id `org/name`
  is split on its first `/`. The cache entry is
  `<cacheRoot>/models--<org>--<name>`. If `refs/main` is a regular file,
  its contents are stripped of surrounding whitespace. When they name an
  existing directory under `snapshots`, that directory is the answer.
  Otherwise the answer is the smallest directory entry of `snapshots` in
  Python string order. Listing entries that are plain files do not count.
  There are three failure exits: an id without `/`, a missing `snapshots`
  directory, and a `snapshots` directory with no directory entry.
  All three are raised and never caught.
* **Request handling** (`handler`). The job's `input` is read, and a
  missing or falsy one becomes `{}`. The defaults are `"Hello!"`, `256`
  and `0.7`. `max_tokens` and `temperature` are coerced with `int()` and
  `float()`, and the prompt is sliced for logging. The generator is then
  called once inside a `try`. The handler returns
  `{"status": "success", "output": text}` or `{"status": "error", "error": str(e)}`.

Modules (one per concern, all of them imported by name):

* `Wrappers` (`wrappers.dfy`): `Option` and `Result`.
* `Text` (`text.dfy`): Python's `str.strip()` and its whitespace set, the first
  `/`, `split("/", 1)`, and string order (`LexLe`), proved to be a total order.
* `Sorting` (`sorting.dfy`): `list.sort()` as insertion sort. A proof that a
  sorted permutation is unique makes the choice of sorting algorithm irrelevant.
* `Paths` (`paths.dfy`): POSIX `os.path.join`.
* `SnapshotStore` (`snapshot_store.dfy`): the filesystem as a value, the cache
  layout, and `ResolveSnapshotPath`. This is a method with the source's early
  returns and its list-building loop.
* `Handler` (`handler.dfy`): JSON values, Python truthiness, the coercions and
  `Handle`. `Handle` is a pure function whose outcome is `Returned(dict)` or
  `Raised(escape)`.

The filesystem is a `map` from path to `File(contents)` or `Dir(entries)`.
The order of `entries` is whatever `os.listdir` reports. The cache root is a
parameter; handler.py uses `/runpod-volume/huggingface-cache/hub`
(`SnapshotStore.HfCacheRoot`). The model id is a parameter too; handler.py
reads it from the `MODEL_NAME` environment variable. The text generator is a
parameter `TextRequest -> GenResult`. It yields the first output's
`generated_text`, or the message of any exception raised inside the `try`.
Python's parsing of strings by `int()` and `float()` is also a parameter.

Behaviour of `handler.py` the model keeps:

* Id check. The code only checks that the id contains a `/` and splits on the
  first one. `name` may contain more `/` characters, and either part may be empty.
* Defaults. A default replaces a field only when the field is absent.
  A present `null` prompt or `max_tokens` is used as is, and then raises.
* Escapes. `handler` can raise: the coercions and `prompt[:80]` run before the
  `try`, and so does `.get` on a non-dict input. `Handle` returns
  `Raised(...)` in exactly these cases (`Handler.RaisesExactlyWhen`).
* Modality. `handler.py` handles text prompts only and contains no image code.

## Model

| member | source | states |
|---|---|---|
| `SnapshotStore.ResolveSnapshotPath` | handler.py:13-57 | An id without `/` fails with `NotOrgName`, and only such an id does. If `refs/main` is a file whose stripped contents name an existing directory below `snapshots`, that path is the result, whatever else `snapshots` holds. Otherwise a missing `snapshots` directory fails with `SnapshotsDirNotFound`. Otherwise the call fails with `NoSnapshotDirs` exactly when no entry is a directory. Any other result is `snapshots` joined with the least directory entry. |
| `SnapshotStore.FallbackSnapshot` | handler.py:47-55 | The fallback branch returns `None` exactly when no entry of `snapshots` is a directory. Otherwise it returns an entry that is a directory and is not greater than any other directory entry. Plain files are ignored. |
| `SnapshotStore.LeastSnapshotUnique` | handler.py:54-55 | At most one entry is least, so the fallback result is determined by the filesystem and not by listing order. |
| `SnapshotStore.ModelRootLayout` | handler.py:27 | Below a non-empty cache root that does not end in `/`, the model root is exactly `<cacheRoot>/models--<org>--<name>`. It ends in `/` only if `name` does. |
| `SnapshotStore.HfCacheRootLayout` | handler.py:6-27 | Below the fixed cache root `/runpod-volume/huggingface-cache/hub`, the model root of `org/name` is exactly `/runpod-volume/huggingface-cache/hub/models--<org>--<name>`. |
| `SnapshotStore.ModelDirsLayout` | handler.py:28-29 | Below such a model root, the refs file is `<root>/refs/main` and the snapshots directory is `<root>/snapshots`. |
| `SnapshotStore.PreferredScenario` | handler.py:35-41 | Resolving `o/n` below the cache root `/runpod-volume/huggingface-cache/hub` returns `.../models--o--n/snapshots/h1` when `refs/main` holds `"h1\n"` and `snapshots` holds the directories `a` and `h1`, although `a` sorts first. |
| `SnapshotStore.ResolveError.Message` | handler.py:24-52 | The exception texts of lines 24, 45 and 52: the id error quotes the rejected id after `MODEL_ID '`, and the two directory errors end with the path they report. |
| `SnapshotStore.ChildrenDistinct` | handler.py:48 | Distinct relative entry names give distinct paths below one directory, so each listed entry is tested at its own path. |
| `Text.IsSpace` | handler.py:37 | The whitespace `str.strip()` removes: among ASCII characters exactly tab, line feed, vertical tab, form feed, carriage return, the four separators `\x1c`-`\x1f` and space. It also has non-ASCII members, none above U+3000. |
| `Text.Strip` | handler.py:37 | `str.strip()`: the result is a contiguous piece of the input, all that is cut off is whitespace, and the result has no whitespace at either end. |
| `Text.StripSurroundingSpace` | handler.py:37 | Stripping whitespace + `h` + whitespace gives back `h` when `h` has no whitespace at its ends. |
| `Text.StripIdempotent` | handler.py:37 | Stripping twice is the same as stripping once. |
| `Text.FirstIndex` | handler.py:23 | Returns `None` exactly when the character does not occur. Otherwise it returns an index holding it, with no earlier occurrence. |
| `Text.SplitOnFirst` | handler.py:26 | `split("/", 1)`: `org + "/" + name` is the id and `org` contains no `/`. |
| `Text.SplitOnFirstUnique` | handler.py:26 | Any decomposition of the id into a `/`-free head, the `/` and a tail is the one `SplitOnFirst` returns. |
| `Text.LexLeReflexive` | handler.py:54 | Python's string order is reflexive. |
| `Text.LexLeAntisymmetric` | handler.py:54 | The string order is antisymmetric. |
| `Text.LexLeTransitive` | handler.py:54 | The string order is transitive. |
| `Text.LexLeTotal` | handler.py:54 | Any two strings are comparable. |
| `Sorting.Sort` | handler.py:54 | `versions.sort()`: the result is sorted and is a permutation of the input. |
| `Sorting.SortedHeadIsLeast` | handler.py:54-55 | `versions[0]` of a sorted non-empty list is not greater than any element. |
| `Sorting.SortedPermutationUnique` | handler.py:54 | Two sorted lists with the same elements are equal, so Python's sort and `Sort` give the same list. |
| `Paths.Join` | handler.py:27-29 | `os.path.join` (POSIX) adds at most one character to its two parts: the result is at least as long as the last component and at most one longer than both together. |
| `Paths.JoinShape` | handler.py:27-29 | `os.path.join` keeps the last component as a suffix. An absolute component replaces the path. A relative one gives exactly `path + component` when the path is empty or ends in `/`, and exactly `path + "/" + component` otherwise. |
| `Paths.JoinBelow` | handler.py:27-29 | A relative component below a non-empty path not ending in `/` gives `path + "/" + component`. |
| `Handler.Truthy` | handler.py:98 | The values `x or {}` treats as false are exactly `None`, `False`, `0`, `0.0`, `""`, `[]` and `{}`. |
| `Handler.IntOf` | handler.py:100 | `int()`: an int is kept, a bool gives 0 or 1, a float is truncated toward zero, a string goes to the parser, and `None`, a list or a dict raise. |
| `Handler.FloatOf` | handler.py:101 | `float()`: a float is kept, an int or a bool is converted exactly, a string goes to the parser, and `None`, a list or a dict raise. |
| `Handler.IntOfAgreesWithFloatOf` | handler.py:100-101 | For any value other than a string, `int(v)` succeeds exactly when `float(v)` does, and then equals `int(float(v))`. `int(float(i))` gives back the integer `i`. All of this holds over the model's exact reals, not over 64-bit floats. |
| `Handler.Head80` | handler.py:103 | `prompt[:80]` raises unless the prompt is a string or a list. For those it gives the prefix of length `min(80, len)`. |
| `Handler.JobInput` | handler.py:98 | A missing or falsy `input` becomes `{}`. A truthy one is used as is. |
| `Handler.TruncateTowardZero` | handler.py:100 | `int()` of a float truncates toward zero. |
| `Handler.Prepare` | handler.py:98-103 | A non-dict input escapes. Otherwise a present `max_tokens` that `int()` rejects escapes first. Next a present `temperature` that `float()` rejects escapes. Last, a present prompt that cannot be sliced escapes. When every field passes its step, nothing escapes. Absent fields then take `"Hello!"`, `256` and `0.7`, and present fields are used, coerced. |
| `Handler.Respond` | handler.py:116-126 | The envelope always has `status`. It has exactly one of `output` and `error`; `output` exactly on success and `error` exactly on failure. It carries the generated text or the exception message. |
| `Handler.RespondRoundTrip` | handler.py:116-126 | Reading the envelope back recovers the generator's outcome. |
| `Handler.Handle` | handler.py:88-126 | The handler raises exactly when preparation raises, and raises that same escape. Generator failures never escape. A returned dictionary is the envelope of the generator's answer to the prepared request. |
| `Handler.EngineOutcomeDecidesEnvelope` | handler.py:106-126 | A generated text gives the success dictionary. A generator exception gives the error dictionary with its message. |
| `Handler.OnlyThePreparedRequestMatters` | handler.py:107-113 | The outcome depends on the generator only through its answer to the prepared request. |
| `Handler.EscapeSkipsEngine` | handler.py:98-106 | When preparation raises, the generator is not consulted, and the outcome is that escape. |
| `Handler.FalsyInputUsesDefaults` | handler.py:98-101 | A missing or falsy input yields the request (`"Hello!"`, 256, 0.7) and the envelope for it. |
| `Handler.WellTypedInputNeverRaises` | handler.py:98-103 | A dict input with an optional string prompt, an optional integer `max_tokens` and an optional numeric `temperature` never raises, whatever the parsers and the generator do. |
| `Handler.RaisesExactlyWhen` | handler.py:98-103 | The handler raises iff the input is not a dict, or a present field fails its coercion, or a present prompt is neither a string nor a list. |
| `Handler.HelloWorldScenario` | handler.py:106-119 | The job `{prompt: "Hello", max_tokens: 50, temperature: 0.2}` with a generator answering that request with `"Hello world"` returns `{"status": "success", "output": "Hello world"}`. |

## Left out

- Filesystem I/O: `isfile`, `isdir`, `listdir` and `open` read a filesystem value. Paths are literal keys. The model does not normalise paths (`a//b`, a trailing `/`, `..`) or follow symbolic links. One reachable case follows from this: when `refs/main` holds only whitespace, the candidate (handler.py:37-38) is `snapshots` followed by `/`. `os.path.isdir` is true for that path whenever `snapshots` is a directory, so the source returns the snapshots directory itself. The model looks `snapshots/` up as a key distinct from `snapshots`, and so falls back to listing `snapshots` instead, unless that key is present. `os.listdir` failing (for example with `PermissionError`) is not modelled either: a directory node always lists its entries.
- Reading `refs/main`: `open` failures (permissions, decoding errors) and newline translation are not modelled. The file's contents are given as decoded text.
- Diagnostics: the `print` calls only observe, so they are left out. The `prompt[:80]` slice inside one can raise, so that slice is kept.
- Configuration: the environment variables (`MODEL_NAME` and the offline flags) are not modelled. The model id and the cache root are parameters.
- Startup: the module-level call `resolve_snapshot_path(MODEL_ID)` is not modelled, and neither is the loading of tokenizer, model and pipeline. The loading steps are calls into libraries.
- Generator: text generation is an opaque parameter, including extracting `outputs[0]["generated_text"]` and the `len()` inside the `try`. Any such failure is one of its `GenError` outcomes. A successful outcome always carries a string. For a list (chat-style) prompt, which `Head80` accepts, the library's `generated_text` can be a list of messages rather than a string; the model does not represent that response shape. `do_sample=True` is a constant of the call and is not carried.
- Exceptions outside `Exception`: `except Exception` does not catch `BaseException` subclasses such as `KeyboardInterrupt`. The generator parameter has no such outcome.
- String parsing: `int()` and `float()` of strings are parameters. `float()` of an integer beyond the double range raises `OverflowError` in Python; the model accepts it. Floating-point rounding, infinities and NaN are not modelled; `temperature` is carried as a real.
- Prompt slicing errors: slicing a dict prompt raises `TypeError` or `KeyError` depending on the Python version. The model has one escape, `PromptNotSliceable`, for every non-sliceable prompt.
- Host runtime: `runpod.serverless.start` and the runtime's per-job invocation are not modelled.
- Handler.Handle: "the generator is called once" is stated as dependence on one request value (`OnlyThePreparedRequestMatters`, `EscapeSkipsEngine`), because a pure function cannot count calls.
