/** Feed-URL discovery for one document page (src/crawl.py:188-237).

    The direct stage reads the page's RSS anchor. The history stage finds
    the "Document History" side-navigation entry, renders that page and
    runs the direct stage on it, still resolving against the document's
    own URL. */
module Feed {
  import opened Results
  import opened Urls
  import opened Pages

  const HISTORY_LABEL: string := "Document History"

  /** `get_doc_rss_url`: the first RSS anchor's href, passed through when
      absolute and otherwise put in place of `docUrl`'s last segment; ""
      when the page has no RSS anchor. An anchor without `href` raises. */
  function DirectFeed(page: Page, docUrl: string): (r: Result<string>)
    ensures r.Err? <==> |page.rssAnchors| > 0 && page.rssAnchors[0].href.None?
    ensures r.Err? ==> r.error == MissingAttribute("href")
    ensures |page.rssAnchors| == 0 ==> r == Ok("")
    ensures r.Ok? && docUrl != "" ==> (r.value == "" <==> |page.rssAnchors| == 0)
    ensures |page.rssAnchors| > 0 && page.rssAnchors[0].href.Some? && IsAbsolute(page.rssAnchors[0].href.value)
            ==> r == Ok(page.rssAnchors[0].href.value)
    ensures forall k :: |page.rssAnchors| > 0 && page.rssAnchors[0].href.Some?
                     && !IsAbsolute(page.rssAnchors[0].href.value) && SegmentMatchAt(docUrl, k)
                     ==> r == Ok(docUrl[..k] + "/" + page.rssAnchors[0].href.value)
    ensures |page.rssAnchors| > 0 && page.rssAnchors[0].href.Some? && !IsAbsolute(page.rssAnchors[0].href.value)
            && (forall k :: !SegmentMatchAt(docUrl, k))
            ==> r == Ok(docUrl)
  {
    if |page.rssAnchors| == 0 then Ok("")
    else match page.rssAnchors[0].href
      case None => Err(MissingAttribute("href"))
      case Some(href) =>
        if IsAbsolute(href) then Ok(href)
        else Ok(ReplaceLastSegment(docUrl, href))
  }

  /** An absolute feed href is returned as is, whatever the base URL. */
  lemma AbsoluteFeedIgnoresBase(page: Page, base1: string, base2: string)
    requires |page.rssAnchors| > 0 && page.rssAnchors[0].href.Some?
    requires IsAbsolute(page.rssAnchors[0].href.value)
    ensures DirectFeed(page, base1) == DirectFeed(page, base2) == Ok(page.rssAnchors[0].href.value)
  {
  }

  predicate IsHistoryEntry(a: Anchor) {
    a.text == Some(HISTORY_LABEL)
  }

  /** Entry `i` is a "Document History" entry and no later entry is. */
  predicate IsLastHistoryEntry(nav: seq<Anchor>, i: int) {
    0 <= i < |nav| && IsHistoryEntry(nav[i]) && forall j :: i < j < |nav| ==> !IsHistoryEntry(nav[j])
  }

  /** `list.reverse()`. */
  function Reverse<T>(s: seq<T>): (r: seq<T>)
    ensures |r| == |s|
    ensures forall i :: 0 <= i < |s| ==> r[i] == s[|s| - 1 - i]
  {
    if |s| == 0 then [] else [s[|s| - 1]] + Reverse(s[..|s| - 1])
  }

  /** The `for ... if ... break` scan: index of the first history entry. */
  function FirstHistoryEntry(nav: seq<Anchor>): (r: Option<nat>)
    ensures r.Some? ==> r.value < |nav| && IsHistoryEntry(nav[r.value])
    ensures r.Some? ==> forall j :: 0 <= j < r.value ==> !IsHistoryEntry(nav[j])
    ensures r.None? ==> forall j :: 0 <= j < |nav| ==> !IsHistoryEntry(nav[j])
  {
    if |nav| == 0 then None
    else if IsHistoryEntry(nav[0]) then Some(0)
    else match FirstHistoryEntry(nav[1..])
      case None => None
      case Some(k) => Some(k + 1)
  }

  /** Scanning the reversed list front to back finds the last entry of the
      original list. */
  lemma {:induction false} ReversedScanFindsLast(nav: seq<Anchor>)
    ensures FirstHistoryEntry(Reverse(nav)).None? ==> forall i :: 0 <= i < |nav| ==> !IsHistoryEntry(nav[i])
    ensures FirstHistoryEntry(Reverse(nav)).Some? ==>
              IsLastHistoryEntry(nav, |nav| - 1 - FirstHistoryEntry(Reverse(nav)).value)
  {
    var reversed := Reverse(nav);
    var n := |nav|;
    match FirstHistoryEntry(reversed)
    case None =>
      forall i | 0 <= i < n ensures !IsHistoryEntry(nav[i]) {
        assert nav[i] == reversed[n - 1 - i];
      }
    case Some(k) =>
      assert nav[n - 1 - k] == reversed[k];
      forall j | n - 1 - k < j < n ensures !IsHistoryEntry(nav[j]) {
        assert nav[j] == reversed[n - 1 - j];
      }
  }

  lemma LastHistoryEntryUnique(nav: seq<Anchor>, i: int, j: int)
    requires IsLastHistoryEntry(nav, i) && IsLastHistoryEntry(nav, j)
    ensures i == j
  {
  }

  /** `get_document_history_url`: reverse the side navigation, take the
      first "Document History" entry and resolve its href against the
      document URL. The result stays "" when no entry matches, and also
      when the matching entry has no `href` (the KeyError is caught before
      the variable is assigned). Reversal makes the LAST entry win. */
  function HistoryUrl(page: Page, docUrl: string): (r: string)
    ensures forall i :: IsLastHistoryEntry(page.sideNav, i) ==>
              r == (match page.sideNav[i].href
                    case Some(h) => ReplaceLastSegment(docUrl, h)
                    case None => "")
    ensures (forall i :: 0 <= i < |page.sideNav| ==> !IsHistoryEntry(page.sideNav[i])) ==> r == ""
  {
    var reversed := Reverse(page.sideNav);
    ReversedScanFindsLast(page.sideNav);
    match FirstHistoryEntry(reversed)
    case None => ""
    case Some(k) =>
      var n := |page.sideNav|;
      assert reversed[k] == page.sideNav[n - 1 - k];
      assert forall i :: IsLastHistoryEntry(page.sideNav, i) ==> i == n - 1 - k by {
        forall i | IsLastHistoryEntry(page.sideNav, i) ensures i == n - 1 - k {
          LastHistoryEntryUnique(page.sideNav, i, n - 1 - k);
        }
      }
      match reversed[k].href
      case None => ""
      case Some(h) => ReplaceLastSegment(docUrl, h)
  }

  /** `get_doc_rss_url_from_doc_history_page`: render the history page only
      when its URL is non-empty, then run the direct stage there against
      the DOCUMENT's URL. A failing render or an RSS anchor without href
      on the history page is not caught here. */
  function HistoryStage(fetch: Fetch, page: Page, docUrl: string): (r: Traced<Result<string>>)
    ensures |r.fetches| <= 1
    ensures r.fetches == [] <==> HistoryUrl(page, docUrl) == ""
    ensures r.fetches != [] ==> r.fetches == [HistoryUrl(page, docUrl)]
    ensures r.fetches == [] ==> r.value == Ok("")
    ensures (forall i :: 0 <= i < |page.sideNav| ==> !IsHistoryEntry(page.sideNav[i])) ==> r == Traced(Ok(""), [])
    ensures r.fetches != [] ==>
              (match fetch(r.fetches[0])
               case None => r.value == Err(FetchFailed(r.fetches[0]))
               case Some(history) => r.value == DirectFeed(history, docUrl))
  {
    var url := HistoryUrl(page, docUrl);
    if url == "" then Traced(Ok(""), [])
    else match fetch(url)
      case None => Traced(Err(FetchFailed(url)), [url])
      case Some(history) => Traced(DirectFeed(history, docUrl), [url])
  }
}
