/** `os.path.join` as the POSIX implementation (posixpath.join) defines it. */
module Paths {

  predicate IsAbsolute(p: string) {
    p != [] && p[0] == '/'
  }

  predicate EndsWithSep(p: string) {
    p != [] && p[|p| - 1] == '/'
  }

  /** `os.path.join(a, b)`: an absolute `b` discards `a`; otherwise `b` is
      appended to `a`, with a `/` between them unless `a` is empty or
      already ends with one. The result is at most one character longer
      than the two parts together; its exact shape is stated by `JoinShape`
      below, kept out of this contract so that the path computations of the
      resolver stay cheap to verify. */
  function Join(a: string, b: string): (r: string)
    ensures |b| <= |r| <= |a| + |b| + 1
  {
    if IsAbsolute(b) then b
    else if a == [] || EndsWithSep(a) then a + b
    else a + "/" + b
  }

  /** The joined path always ends with the last component; a relative one
      is appended to `a`, either directly or after exactly one added
      separator, and the separator is added exactly when `a` is non-empty and
      does not end in one. */
  lemma JoinShape(a: string, b: string)
    ensures var r := Join(a, b);
            && |b| <= |r| && r[|r| - |b|..] == b
            && (IsAbsolute(b) ==> r == b)
            && (!IsAbsolute(b) ==>
                  && r[..|a|] == a
                  && (a == [] || EndsWithSep(a) ==> r == a + b)
                  && (a != [] && !EndsWithSep(a) ==> r == a + "/" + b && r[|a|] == '/'))
  {
  }

  /** The case the cache layout relies on: a relative component below a
      directory path that does not already end in `/`. */
  lemma JoinBelow(a: string, b: string)
    requires a != [] && !EndsWithSep(a) && !IsAbsolute(b)
    ensures Join(a, b) == a + "/" + b
    ensures b != [] && !EndsWithSep(b) ==> !EndsWithSep(Join(a, b))
  {
  }
}
