/** The three-level extraction: category, service, document
    (src/crawl.py:88-185 and the loop at 246-254).

    Documents may fail, and a failure stops the service's document loop.
    Services and categories never fail: they catch and return the node as
    populated so far. */
module Crawl {
  import opened Results
  import opened Urls
  import opened Pages
  import opened Feed

  datatype DocNode = DocNode(menuTitle: string, htmlUrl: string, rssUrl: string)
  datatype ServiceNode = ServiceNode(title: string, indexUrl: string, docs: seq<DocNode>)
  /** `title` is `None` when the heading's `.string` is `None`. */
  datatype CategoryNode = CategoryNode(title: Option<string>, services: seq<ServiceNode>)
  datatype CrawlResult = CrawlResult(categories: seq<CategoryNode>)

  /** A service's document list as far as the loop got, and the error that
      stopped it, if any. */
  datatype DocsSoFar = DocsSoFar(docs: seq<DocNode>, failure: Option<Error>)

  /** `get_service_doc_item`: read `label` and `href`, render
      DOC_HOST + href, try the direct stage, and fall back to the history
      stage only when the direct stage found nothing. Errors propagate. */
  function DocItem(fetch: Fetch, e: DocElem): (r: Traced<Result<DocNode>>)
    ensures e.labelAttr.None? ==> r == Traced(Err(MissingAttribute("label")), [])
    ensures e.labelAttr.Some? && e.href.None? ==> r == Traced(Err(MissingAttribute("href")), [])
    ensures |r.fetches| <= 2
    ensures r.fetches != [] ==> e.href.Some? && r.fetches[0] == DOC_HOST + e.href.value
    ensures r.value.Ok? ==> e.labelAttr.Some? && e.href.Some?
                            && r.value.value.menuTitle == e.labelAttr.value
                            && r.value.value.htmlUrl == DOC_HOST + e.href.value
                            && |r.fetches| >= 1 && fetch(r.fetches[0]).Some?
    ensures e.labelAttr.Some? && e.href.Some? && fetch(DOC_HOST + e.href.value).None?
            ==> r == Traced(Err(FetchFailed(DOC_HOST + e.href.value)), [DOC_HOST + e.href.value])
  {
    match e.labelAttr
    case None => Traced(Err(MissingAttribute("label")), [])
    case Some(name) =>
      match e.href
      case None => Traced(Err(MissingAttribute("href")), [])
      case Some(href) =>
        var link := DOC_HOST + href;
        match fetch(link)
        case None => Traced(Err(FetchFailed(link)), [link])
        case Some(page) =>
          match DirectFeed(page, link)
          case Err(err) => Traced(Err(err), [link])
          case Ok(direct) =>
            if direct != "" then Traced(Ok(DocNode(name, link, direct)), [link])
            else
              var history := HistoryStage(fetch, page, link);
              match history.value
              case Err(err) => Traced(Err(err), [link] + history.fetches)
              case Ok(rss) => Traced(Ok(DocNode(name, link, rss)), [link] + history.fetches)
  }

  /** Once the document page is rendered, the node follows the two feed
      stages: a direct-stage error propagates; a non-empty direct result is
      the rss URL; an empty one hands over to the history stage, whose
      error propagates and whose value becomes the rss URL. */
  lemma DocItemFollowsStages(fetch: Fetch, e: DocElem, page: Page)
    requires e.labelAttr.Some? && e.href.Some?
    requires fetch(DOC_HOST + e.href.value) == Some(page)
    ensures DirectFeed(page, DOC_HOST + e.href.value).Err?
            ==> DocItem(fetch, e) == Traced(Err(DirectFeed(page, DOC_HOST + e.href.value).error), [DOC_HOST + e.href.value])
    ensures DirectFeed(page, DOC_HOST + e.href.value).Ok? && DirectFeed(page, DOC_HOST + e.href.value).value != ""
            ==> DocItem(fetch, e).value.Ok?
                && DocItem(fetch, e).value.value.rssUrl == DirectFeed(page, DOC_HOST + e.href.value).value
    ensures DirectFeed(page, DOC_HOST + e.href.value) == Ok("")
            ==> (DocItem(fetch, e).value.Err? <==> HistoryStage(fetch, page, DOC_HOST + e.href.value).value.Err?)
                && DocItem(fetch, e).fetches == [DOC_HOST + e.href.value] + HistoryStage(fetch, page, DOC_HOST + e.href.value).fetches
    ensures DirectFeed(page, DOC_HOST + e.href.value) == Ok("") && DocItem(fetch, e).value.Err?
            ==> DocItem(fetch, e).value.error == HistoryStage(fetch, page, DOC_HOST + e.href.value).value.error
    ensures DirectFeed(page, DOC_HOST + e.href.value) == Ok("") && DocItem(fetch, e).value.Ok?
            ==> DocItem(fetch, e).value.value.rssUrl == HistoryStage(fetch, page, DOC_HOST + e.href.value).value.value
  {
  }

  /** A direct feed link means the document page is the only page
      rendered, and the node carries that link, never "". */
  lemma DirectLinkSkipsHistory(fetch: Fetch, e: DocElem, page: Page)
    requires e.labelAttr.Some? && e.href.Some?
    requires fetch(DOC_HOST + e.href.value) == Some(page)
    requires |page.rssAnchors| > 0 && page.rssAnchors[0].href.Some?
    ensures DocItem(fetch, e).fetches == [DOC_HOST + e.href.value]
    ensures DocItem(fetch, e).value
            == Ok(DocNode(e.labelAttr.value, DOC_HOST + e.href.value, DirectFeed(page, DOC_HOST + e.href.value).value))
    ensures DocItem(fetch, e).value.value.rssUrl != ""
  {
  }

  /** Without a direct link, a "Document History" entry leads to exactly
      one more render, of the history URL, and the feed found there is
      resolved against the document's URL. */
  lemma HistoryFallback(fetch: Fetch, e: DocElem, page: Page, historyPage: Page)
    requires e.labelAttr.Some? && e.href.Some?
    requires fetch(DOC_HOST + e.href.value) == Some(page)
    requires |page.rssAnchors| == 0
    requires HistoryUrl(page, DOC_HOST + e.href.value) != ""
    requires fetch(HistoryUrl(page, DOC_HOST + e.href.value)) == Some(historyPage)
    ensures DocItem(fetch, e).fetches == [DOC_HOST + e.href.value, HistoryUrl(page, DOC_HOST + e.href.value)]
    ensures DocItem(fetch, e).value
            == (match DirectFeed(historyPage, DOC_HOST + e.href.value)
                case Ok(rss) => Ok(DocNode(e.labelAttr.value, DOC_HOST + e.href.value, rss))
                case Err(err) => Err(err))
  {
  }

  /** With no direct link and no usable "Document History" entry (none at
      all, or the last one has no href) the document is still produced,
      with rss_url "", after a single render. */
  lemma NoFeedGivesEmptyRss(fetch: Fetch, e: DocElem, page: Page)
    requires e.labelAttr.Some? && e.href.Some?
    requires fetch(DOC_HOST + e.href.value) == Some(page)
    requires |page.rssAnchors| == 0
    requires HistoryUrl(page, DOC_HOST + e.href.value) == ""
    ensures DocItem(fetch, e) == Traced(Ok(DocNode(e.labelAttr.value, DOC_HOST + e.href.value, "")), [DOC_HOST + e.href.value])
  {
  }

  /** `docs` is the documents of `elems`, in order, up to the first
      document whose extraction raised. */
  predicate TruncatedAtFirstFailure(fetch: Fetch, elems: seq<DocElem>, docs: seq<DocNode>) {
    && |docs| <= |elems|
    && (forall i :: 0 <= i < |docs| ==> DocItem(fetch, elems[i]).value == Ok(docs[i]))
    && (|docs| < |elems| ==> DocItem(fetch, elems[|docs|]).value.Err?)
  }

  /** The renders made by extracting each of `elems`, one after another. */
  function DocRenders(fetch: Fetch, elems: seq<DocElem>): seq<string>
    decreases |elems|
  {
    if |elems| == 0 then [] else DocItem(fetch, elems[0]).fetches + DocRenders(fetch, elems[1..])
  }

  /** Renders of a non-empty prefix: the first document's, then the rest's. */
  lemma DocRendersOfPrefix(fetch: Fetch, elems: seq<DocElem>, n: nat)
    requires 0 < n <= |elems|
    ensures DocRenders(fetch, elems[..n]) == DocItem(fetch, elems[0]).fetches + DocRenders(fetch, elems[1..][..n - 1])
  {
    assert elems[..n][0] == elems[0];
    assert elems[..n][1..] == elems[1..][..n - 1];
  }

  /** How many documents the loop tried, given `kept` successes out of
      `total`: one more than kept when a failure stopped it. */
  function Attempted(kept: nat, total: nat): nat {
    if kept < total then kept + 1 else kept
  }

  /** The `for doc in service_docs` loop of `get_service_item`: append each
      document in order; the first exception leaves the loop. */
  function CollectDocs(fetch: Fetch, elems: seq<DocElem>): (r: Traced<DocsSoFar>)
    ensures TruncatedAtFirstFailure(fetch, elems, r.value.docs)
    ensures r.value.failure.None? <==> |r.value.docs| == |elems|
    ensures r.value.failure.Some? ==> DocItem(fetch, elems[|r.value.docs|]).value == Err(r.value.failure.value)
    decreases |elems|
  {
    if |elems| == 0 then Traced(DocsSoFar([], None), [])
    else
      var first := DocItem(fetch, elems[0]);
      match first.value
      case Err(err) => Traced(DocsSoFar([], Some(err)), first.fetches)
      case Ok(doc) =>
        var rest := CollectDocs(fetch, elems[1..]);
        assert forall i :: 1 <= i < |elems| ==> elems[i] == elems[1..][i - 1];
        Traced(DocsSoFar([doc] + rest.value.docs, rest.value.failure), first.fetches + rest.fetches)
  }

  /** The loop renders exactly the pages of the documents it tried: every
      successful one and the failing one, in order, and none after it. */
  lemma {:induction false} CollectDocsRenders(fetch: Fetch, elems: seq<DocElem>)
    ensures CollectDocs(fetch, elems).fetches
            == DocRenders(fetch, elems[..Attempted(|CollectDocs(fetch, elems).value.docs|, |elems|)])
    decreases |elems|
  {
    if |elems| > 0 {
      var first := DocItem(fetch, elems[0]);
      match first.value
      case Err(err) =>
        DocRendersOfPrefix(fetch, elems, 1);
        assert elems[1..][..0] == [];
      case Ok(doc) =>
        var rest := CollectDocs(fetch, elems[1..]);
        CollectDocsRenders(fetch, elems[1..]);
        DocRendersOfPrefix(fetch, elems, Attempted(|rest.value.docs|, |elems| - 1) + 1);
    }
  }

  /** Only one document list satisfies the truncation shape. */
  lemma TruncationIsUnique(fetch: Fetch, elems: seq<DocElem>, docs1: seq<DocNode>, docs2: seq<DocNode>)
    requires TruncatedAtFirstFailure(fetch, elems, docs1)
    requires TruncatedAtFirstFailure(fetch, elems, docs2)
    ensures docs1 == docs2
  {
  }

  /** The service title: `f'{prefix} {name}'`, or the name alone when the
      prefix span's `.string` is `None`. */
  function ServiceTitle(prefix: Option<string>, name: string): (t: string)
    ensures prefix.None? ==> t == name
    ensures prefix.Some? ==> |t| == |prefix.value| + 1 + |name|
                             && t[..|prefix.value|] == prefix.value
                             && t[|prefix.value|] == ' '
                             && t[|prefix.value| + 1..] == name
  {
    match prefix
    case None => name
    case Some(p) => p + " " + name
  }

  /** `get_service_item`. The node starts as ("", "", []); title and
      index URL are set together only after the prefix span, the name span
      and `href` were all read. A root-relative href is prefixed with
      DOC_HOST and its index page crawled; any other href is kept as is and
      no page is rendered. */
  function ServiceItem(fetch: Fetch, s: ServiceElem): (r: Traced<ServiceNode>)
    ensures |s.prefixes| == 0 || |s.names| == 0 || s.href.None? ==> r == Traced(ServiceNode("", "", []), [])
    ensures |s.prefixes| > 0 && |s.names| > 0 && s.href.Some? ==> r.value.title == ServiceTitle(s.prefixes[0], s.names[0])
    ensures |s.prefixes| > 0 && |s.names| > 0 && s.href.Some? && IsRootRelative(s.href.value)
            ==> r.fetches != [] && r.fetches[0] == r.value.indexUrl == DOC_HOST + s.href.value
    ensures |s.prefixes| > 0 && |s.names| > 0 && s.href.Some? && !IsRootRelative(s.href.value)
            ==> r.value.indexUrl == s.href.value && r.value.docs == [] && r.fetches == []
    ensures r.fetches != [] ==> s.href.Some? && IsRootRelative(s.href.value)
                                && r.fetches[0] == r.value.indexUrl == DOC_HOST + s.href.value
    ensures r.value.docs != [] ==> r.fetches != []
    ensures r.fetches != [] ==>
              (match fetch(r.fetches[0])
               case None => r.value.docs == [] && r.fetches == [r.value.indexUrl]
               case Some(index) =>
                 && TruncatedAtFirstFailure(fetch, index.docLinks, r.value.docs)
                 && r.fetches == [r.value.indexUrl]
                                 + DocRenders(fetch, index.docLinks[..Attempted(|r.value.docs|, |index.docLinks|)]))
  {
    if |s.prefixes| == 0 || |s.names| == 0 then Traced(ServiceNode("", "", []), [])
    else
      var title := ServiceTitle(s.prefixes[0], s.names[0]);
      match s.href
      case None => Traced(ServiceNode("", "", []), [])
      case Some(href) =>
        if !IsRootRelative(href) then Traced(ServiceNode(title, href, []), [])
        else
          var indexUrl := DOC_HOST + href;
          match fetch(indexUrl)
          case None => Traced(ServiceNode(title, indexUrl, []), [indexUrl])
          case Some(index) =>
            var collected := CollectDocs(fetch, index.docLinks);
            CollectDocsRenders(fetch, index.docLinks);
            Traced(ServiceNode(title, indexUrl, collected.value.docs), [indexUrl] + collected.fetches)
  }

  /** Apply an extractor that never fails to each element, in order,
      concatenating the renderer requests. */
  function MapInOrder<E, N>(extract: E -> Traced<N>, elems: seq<E>): (r: Traced<seq<N>>)
    ensures |r.value| == |elems|
    ensures forall i :: 0 <= i < |elems| ==> r.value[i] == extract(elems[i]).value
    decreases |elems|
  {
    if |elems| == 0 then Traced([], [])
    else
      var first := extract(elems[0]);
      var rest := MapInOrder(extract, elems[1..]);
      assert forall i :: 1 <= i < |elems| ==> elems[i] == elems[1..][i - 1];
      Traced([first.value] + rest.value, first.fetches + rest.fetches)
  }

  /** `get_category_item`: never fails. Without a title heading the node
      is ("", []); otherwise every service element yields one node, in
      order, failing services included. */
  function CategoryItem(fetch: Fetch, c: CategoryElem): (r: Traced<CategoryNode>)
    ensures |c.titles| == 0 ==> r == Traced(CategoryNode(Some(""), []), [])
    ensures |c.titles| > 0 ==> r.value.title == c.titles[0] && |r.value.services| == |c.services|
    ensures |c.titles| > 0 ==> forall i :: 0 <= i < |c.services| ==> r.value.services[i] == ServiceItem(fetch, c.services[i]).value
  {
    if |c.titles| == 0 then Traced(CategoryNode(Some(""), []), [])
    else
      var services := MapInOrder((s: ServiceElem) => ServiceItem(fetch, s), c.services);
      Traced(CategoryNode(c.titles[0], services.value), services.fetches)
  }

  /** The `__main__` block: render the landing page once, then one
      category node per category section, in order. A landing page that
      cannot be rendered ends the crawl without a result. */
  function Run(fetch: Fetch): (r: Traced<Result<CrawlResult>>)
    ensures |r.fetches| >= 1 && r.fetches[0] == DOC_URL
    ensures r.value.Ok? <==> fetch(DOC_URL).Some?
    ensures r.value.Err? ==> r == Traced(Err(FetchFailed(DOC_URL)), [DOC_URL])
    ensures r.value.Ok? ==> |r.value.value.categories| == |fetch(DOC_URL).value.categorySections|
    ensures r.value.Ok? ==> forall i :: 0 <= i < |r.value.value.categories| ==>
              r.value.value.categories[i] == CategoryItem(fetch, fetch(DOC_URL).value.categorySections[i]).value
  {
    match fetch(DOC_URL)
    case None => Traced(Err(FetchFailed(DOC_URL)), [DOC_URL])
    case Some(landing) =>
      var categories := MapInOrder((c: CategoryElem) => CategoryItem(fetch, c), landing.categorySections);
      Traced(Ok(CrawlResult(categories.value)), [DOC_URL] + categories.fetches)
  }
}
