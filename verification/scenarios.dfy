/** Concrete crawls: the URL rule on sample inputs, the last "Document
    History" entry winning, a failing service kept as a default node, and
    a small two-category site crawled end to end. */
module Scenarios {
  import opened Results
  import opened Urls
  import opened Pages
  import opened Feed
  import opened Crawl

  lemma SiblingFileExample()
    ensures ReplaceLastSegment("https://h/a/b/c.html", "d.html") == "https://h/a/b/d.html"
  {
    var base := "https://h/a/b/c.html";
    assert SegmentMatchAt(base, 13);
    assert base[..13] + "/" + "d.html" == "https://h/a/b/d.html";
  }

  /** A base ending in '/' has no last segment to replace. */
  lemma TrailingSlashExample()
    ensures ReplaceLastSegment("https://h/a/", "d.html") == "https://h/a/"
  {
  }

  /** Of two "Document History" entries the later one is used. */
  lemma LaterHistoryEntryWins()
    ensures HistoryUrl(Page([], [], [], [Anchor(Some(HISTORY_LABEL), Some("old.html")),
                                         Anchor(Some("Next"), None),
                                         Anchor(Some(HISTORY_LABEL), Some("new.html"))]),
                       "https://h/a/doc.html")
            == "https://h/a/new.html"
  {
    var nav := [Anchor(Some(HISTORY_LABEL), Some("old.html")),
                Anchor(Some("Next"), None),
                Anchor(Some(HISTORY_LABEL), Some("new.html"))];
    var base := "https://h/a/doc.html";
    assert IsLastHistoryEntry(nav, 2);
    assert SegmentMatchAt(base, 11);
    assert base[..11] + "/" + "new.html" == "https://h/a/new.html";
  }

  /** The last history entry lacking an href gives "", even though an
      earlier entry has one. */
  lemma LastHistoryEntryWithoutHref()
    ensures HistoryUrl(Page([], [], [], [Anchor(Some(HISTORY_LABEL), Some("old.html")),
                                         Anchor(Some(HISTORY_LABEL), None)]),
                       "https://h/a/doc.html")
            == ""
  {
    assert IsLastHistoryEntry([Anchor(Some(HISTORY_LABEL), Some("old.html")), Anchor(Some(HISTORY_LABEL), None)], 1);
  }

  /** A category with three services whose second has no href: all three
      nodes are kept, in order, the second with its default fields. */
  lemma FailingServiceIsKept(fetch: Fetch)
    ensures CategoryItem(fetch, CategoryElem([Some("Tools")], [
              ServiceElem([None], ["One"], Some("https://one.example")),
              ServiceElem([None], ["Two"], None),
              ServiceElem([Some("AWS")], ["Three"], Some("https://three.example"))])).value
            == CategoryNode(Some("Tools"), [
              ServiceNode("One", "https://one.example", []),
              ServiceNode("", "", []),
              ServiceNode("AWS Three", "https://three.example", [])])
  {
    var s1 := ServiceElem([None], ["One"], Some("https://one.example"));
    var s2 := ServiceElem([None], ["Two"], None);
    var s3 := ServiceElem([Some("AWS")], ["Three"], Some("https://three.example"));
    assert !IsRootRelative("https://one.example");
    assert !IsRootRelative("https://three.example");
    assert ServiceItem(fetch, s1).value == ServiceNode("One", "https://one.example", []);
    assert ServiceItem(fetch, s2).value == ServiceNode("", "", []);
    assert ServiceTitle(Some("AWS"), "Three") == "AWS Three";
    assert ServiceItem(fetch, s3).value == ServiceNode("AWS Three", "https://three.example", []);
  }

  /** `^http` is a prefix test; `^\/.+` needs a second character that is
      not a newline. */
  lemma LinkPatternExamples()
    ensures IsAbsolute("https://a") && IsAbsolute("httpx") && !IsAbsolute("htt") && !IsAbsolute("feed.xml")
    ensures IsRootRelative("/x") && !IsRootRelative("/") && !IsRootRelative("/\nx") && !IsRootRelative("x/y")
  {
    assert "feed.xml"[0] != "http"[0];
    assert "https://a"[..4] == "http";
    assert "httpx"[..4] == "http";
  }

  /** An href of "/" alone is not root-relative for `^\/.+`: it becomes
      the index URL as is and nothing is rendered. */
  lemma SlashAloneIsNotCrawled(fetch: Fetch)
    ensures ServiceItem(fetch, ServiceElem([None], ["Docs"], Some("/"))) == Traced(ServiceNode("Docs", "/", []), [])
  {
  }

  /** A feed href starting with '/' is not prefixed with the host: it goes
      through the last-segment rule like any other non-http href. */
  lemma RootFeedHrefReplacesSegment()
    ensures DirectFeed(Page([], [], [Anchor(Some("RSS"), Some("/feed.xml"))], []), "https://h/a/b.html")
            == Ok("https://h/a//feed.xml")
  {
    var base := "https://h/a/b.html";
    assert !IsAbsolute("/feed.xml") by {
      assert "/feed.xml"[0] != "http"[0];
    }
    assert SegmentMatchAt(base, 11);
    assert base[..11] + "/" + "/feed.xml" == "https://h/a//feed.xml";
  }

  const ec2Href: string := "/ec2/index.html"
  const guideHref: string := "/ug.html"

  const ec2: ServiceElem := ServiceElem([None], ["EC2"], Some(ec2Href))
  const landing: Page := Page([CategoryElem([Some("Compute")], [ec2]), CategoryElem([Some("Storage")], [])], [], [], [])
  const ec2Index: Page := Page([], [DocElem(Some("User Guide"), Some(guideHref))], [], [])
  const guidePage: Page := Page([], [], [Anchor(Some("RSS"), Some("feed.xml"))], [])

  function SiteFetch(url: string): Option<Page> {
    if url == DOC_URL then Some(landing)
    else if url == DOC_HOST + ec2Href then Some(ec2Index)
    else if url == DOC_HOST + guideHref then Some(guidePage)
    else None
  }

  lemma GuideFeedResolves()
    ensures DirectFeed(guidePage, DOC_HOST + guideHref) == Ok(DOC_HOST + "/feed.xml")
  {
    var base := DOC_HOST + guideHref;
    assert SegmentMatchAt(base, |DOC_HOST|);
    assert base[..|DOC_HOST|] == DOC_HOST;
    assert DOC_HOST + "/" + "feed.xml" == DOC_HOST + "/feed.xml";
    assert !IsAbsolute("feed.xml") by {
      assert "feed.xml"[0] != "http"[0];
    }
  }

  /** Landing page with "Compute" (one service, one document with a
      direct feed link) and an empty "Storage". */
  lemma EndToEnd()
    ensures Run(SiteFetch).value == Ok(CrawlResult([
              CategoryNode(Some("Compute"), [
                ServiceNode("EC2", DOC_HOST + ec2Href, [
                  DocNode("User Guide", DOC_HOST + guideHref, DOC_HOST + "/feed.xml")])]),
              CategoryNode(Some("Storage"), [])]))
    ensures DocItem(SiteFetch, DocElem(Some("User Guide"), Some(guideHref))).fetches == [DOC_HOST + guideHref]
  {
    assert DOC_HOST + ec2Href != DOC_URL by {
      assert (DOC_HOST + ec2Href)[|DOC_HOST| + 1] != DOC_URL[|DOC_HOST| + 1];
    }
    assert DOC_HOST + guideHref != DOC_URL by {
      assert (DOC_HOST + guideHref)[|DOC_HOST| + 1] != DOC_URL[|DOC_HOST| + 1];
    }
    assert DOC_HOST + guideHref != DOC_HOST + ec2Href by {
      assert (DOC_HOST + guideHref)[|DOC_HOST| + 1] != (DOC_HOST + ec2Href)[|DOC_HOST| + 1];
    }
    assert IsRootRelative(ec2Href);
    GuideFeedResolves();
    var doc := DocItem(SiteFetch, DocElem(Some("User Guide"), Some(guideHref)));
    assert doc == Traced(Ok(DocNode("User Guide", DOC_HOST + guideHref, DOC_HOST + "/feed.xml")), [DOC_HOST + guideHref]);
    assert ec2Index.docLinks[1..] == [];
    var docs := CollectDocs(SiteFetch, ec2Index.docLinks);
    assert docs.value.docs == [doc.value.value];
    var service := ServiceItem(SiteFetch, ec2);
    assert service.value == ServiceNode("EC2", DOC_HOST + ec2Href, [doc.value.value]);
    var sections := landing.categorySections;
    assert CategoryItem(SiteFetch, sections[0]).value == CategoryNode(Some("Compute"), [service.value]);
    assert CategoryItem(SiteFetch, sections[1]).value == CategoryNode(Some("Storage"), []);
    var run := Run(SiteFetch);
    assert SiteFetch(DOC_URL) == Some(landing);
    assert |run.value.value.categories| == 2;
    assert run.value.value.categories[0] == CategoryNode(Some("Compute"), [service.value]);
    assert run.value.value.categories[1] == CategoryNode(Some("Storage"), []);
    assert run.value.value.categories == [CategoryNode(Some("Compute"), [service.value]), CategoryNode(Some("Storage"), [])];
  }
}
