/** The two path manipulations of the source: forcing a leading '/' before a
    path is signed or requested, and removing the trailing '/'s of the
    configured base URL. */
module Paths {
  import opened Text

  predicate EndsWithSlash(s: string) {
    |s| > 0 && s[|s| - 1] == '/'
  }

  predicate AllSlashes(s: string) {
    forall i :: 0 <= i < |s| ==> s[i] == '/'
  }

  /** `path.startsWith('/')`. */
  predicate HasLeadingSlash(path: string) {
    |path| > 0 && path[0] == '/'
  }

  /** `path.startsWith('/') ? path : '/' + path`: the result starts with '/'
      and ends with the whole of `path`, adding at most that one character. */
  function NormalizePath(path: string): (r: string)
    ensures HasLeadingSlash(r)
    ensures |r| == |path| || |r| == |path| + 1
    ensures r[|r| - |path|..] == path
    ensures HasLeadingSlash(path) <==> r == path
  {
    if HasLeadingSlash(path) then path else "/" + path
  }

  /** Normalising twice is normalising once. */
  lemma NormalizePathIdempotent(path: string)
    ensures NormalizePath(NormalizePath(path)) == NormalizePath(path)
  {
  }

  /** A path and the same path with one leading '/' normalise alike. */
  lemma NormalizePathLeadingSlash(path: string)
    requires !HasLeadingSlash(path)
    ensures NormalizePath(path) == NormalizePath("/" + path) == "/" + path
  {
  }

  /** `s.replace(/\/+$/, '')`: the longest prefix of `s` that does not end in
      '/', all that is cut off being slashes. */
  function StripTrailingSlashes(s: string): (r: string)
    ensures |r| <= |s| && s[..|r|] == r
    ensures AllSlashes(s[|r|..])
    ensures !EndsWithSlash(r)
    decreases |s|
  {
    if EndsWithSlash(s) then
      var r := StripTrailingSlashes(s[..|s| - 1]);
      assert s[|r|..] == s[..|s| - 1][|r|..] + [s[|s| - 1]];
      r
    else s
  }

  /** The three properties of `StripTrailingSlashes` single out its result:
      any prefix that keeps them is that result. */
  lemma StripTrailingSlashesUnique(s: string, r: string)
    requires |r| <= |s| && s[..|r|] == r
    requires AllSlashes(s[|r|..])
    requires !EndsWithSlash(r)
    ensures r == StripTrailingSlashes(s)
  {
  }

  lemma StripTrailingSlashesIdempotent(s: string)
    ensures StripTrailingSlashes(StripTrailingSlashes(s)) == StripTrailingSlashes(s)
  {
  }
}
