/** String rules the crawler applies to links (src/crawl.py).

    Three rules appear in the code:
    - a feed href matching `^http` is already absolute;
    - a service href matching `^\/.+` is root-relative and gets the host prepended;
    - any other feed or history href replaces the base URL's last path
      segment, i.e. `re.sub(r'\/[^\/]+$', '/' + href, base)`. */
module Urls {
  import opened Results

  const DOC_HOST: string := "https://docs.aws.amazon.com"
  const DOC_URL: string := DOC_HOST + "/index.html"

  predicate HasPrefix(s: string, p: string) {
    |p| <= |s| && s[..|p|] == p
  }

  /** `re.match(r'^http', href)`: a prefix test, so "httpx" counts too. */
  predicate IsAbsolute(href: string) {
    HasPrefix(href, "http")
  }

  /** `re.match(r'^\/.+', href)`: a slash followed by at least one
      character, where `.` does not match a newline. */
  predicate IsRootRelative(href: string) {
    |href| >= 2 && href[0] == '/' && href[1] != '\n'
  }

  /** The regex `\/[^\/]+$` matches `s` starting at index `i`: a slash,
      then a non-empty run of non-slash characters reaching the end. */
  predicate SegmentMatchAt(s: string, i: int) {
    0 <= i < |s| - 1 && s[i] == '/' && forall j :: i < j < |s| ==> s[j] != '/'
  }

  /** Index of the last '/' in `s`, if any. */
  function LastSlash(s: string): (r: Option<nat>)
    ensures r.Some? ==> r.value < |s| && s[r.value] == '/'
    ensures r.Some? ==> forall j :: r.value < j < |s| ==> s[j] != '/'
    ensures r.None? ==> forall j :: 0 <= j < |s| ==> s[j] != '/'
  {
    if |s| == 0 then None
    else if s[|s| - 1] == '/' then Some(|s| - 1)
    else LastSlash(s[..|s| - 1])
  }

  /** `re.sub(r'\/[^\/]+$', '/' + href, base)`. The pattern can match at
      one position at most, so the substitution replaces that match, and
      leaves `base` alone when there is none. */
  function ReplaceLastSegment(base: string, href: string): (r: string)
    ensures forall i :: SegmentMatchAt(base, i) ==> r == base[..i] + "/" + href
    ensures (forall i :: !SegmentMatchAt(base, i)) ==> r == base
    ensures base != "" ==> r != ""
  {
    match LastSlash(base)
    case Some(k) =>
      if k < |base| - 1 then
        assert SegmentMatchAt(base, k);
        assert forall i :: SegmentMatchAt(base, i) ==> i == k;
        assert base[..k + 1] == base[..k] + "/";
        base[..k + 1] + href
      else base
    case None => base
  }

  /** The three shapes of the last-segment rule: a base ending in '/' or
      without any '/' is returned unchanged; otherwise the result is the
      base up to and including its last '/', followed by `href`. */
  lemma ReplaceLastSegmentShapes(base: string, href: string)
    ensures |base| > 0 && base[|base| - 1] == '/' ==> ReplaceLastSegment(base, href) == base
    ensures (forall j :: 0 <= j < |base| ==> base[j] != '/') ==> ReplaceLastSegment(base, href) == base
    ensures forall k :: 0 <= k < |base| - 1 && base[k] == '/' && (forall j :: k < j < |base| ==> base[j] != '/')
                     ==> ReplaceLastSegment(base, href) == base[..k + 1] + href
  {
  }
}
