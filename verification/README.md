# AWS documentation crawler: verified model of the crawl core

This project models the decision logic of a crawler that walks the AWS
documentation portal (`src/crawl.py`). The crawler builds a three-level tree
(category → service → document) and finds, for each document, the URL of its
RSS feed. The model covers two parts:

- **Feed-URL resolution.** The direct stage reads the document page's RSS
  anchor. An href starting with `http` is kept as is. Any other href replaces
  the last `/segment` of the document URL, which is the regex `\/[^\/]+$`.
  When the direct stage finds nothing, the history stage runs. It scans the
  side navigation from the end for a "Document History" entry and resolves
  that entry's href the same way. It then renders the history page and runs
  the direct stage there, still against the document URL.
- **Tree assembly with failure isolation.** Categories and services catch
  every error and return the node as populated so far. A failing document
  stops its service's document loop. Documents collected before the failure
  are kept, in order.

Pages are values of an abstract `Page` datatype. Each field holds the elements
that one CSS selector of the crawler returns. Missing attributes are `Option`s.
Rendering a URL is the function parameter `fetch: string -> Option<Page>`, and
`None` stands for a renderer call that raised. Each extractor returns a
`Traced` value: the node, plus the URLs it asked the renderer for, in order.
The traces state properties such as "a direct feed link means no
history-page render".

Files: `results.dfy` (Option, Result, Error, Traced), `urls.dfy` (link
rules), `pages.dfy` (page and element datatypes), `feed.dfy` (feed
resolution), `crawl.dfy` (extractors and the top-level loop), and
`scenarios.dfy` (concrete inputs).

Behaviour of the code that is easy to miss:
- The history stage does not catch everything. Only
  `get_document_history_url` has a `try`. A failure to render the history
  page propagates to the service loop, and so does an RSS anchor without
  `href` on that page (src/crawl.py:199-202).
- A failing service is not dropped. Its partially filled node is still
  appended to the category (src/crawl.py:110-111, 158-161).
- A feed href starting with `/` is not prefixed with the host. It goes
  through the last-segment rule (`Scenarios.RootFeedHrefReplacesSegment`).
- An absent service prefix span raises IndexError, which leaves the service
  node at `("", "", [])`. The prefix is omitted from the title only when the
  span exists and its `.string` is `None`.
- A category title is whatever `.string` returned, and that can be `None`.
  `CategoryNode.title` is therefore an `Option`.

## Model

| member | source | states |
|---|---|---|
| Urls.IsAbsolute | src/crawl.py:212 | `re.match(r'^http', href)`: true exactly when href starts with the four characters "http". "httpx" counts, "htt" does not. |
| Urls.IsRootRelative | src/crawl.py:143 | `re.match(r'^\/.+', href)`: a '/' followed by at least one more character, where that character is not a newline, because `.` excludes newlines. So "/" alone does not qualify. |
| Urls.ReplaceLastSegment | src/crawl.py:215-216 | Agrees with the regex substitution: where `\/[^\/]+$` matches at index i, the result is base[..i] + "/" + href. With no match, base comes back unchanged. A non-empty base never gives "". |
| Urls.ReplaceLastSegmentShapes | src/crawl.py:215-216 | A base ending in '/' or containing no '/' is returned unchanged. Otherwise the result is the base up to and including its last '/', followed by href. |
| Feed.DirectFeed | src/crawl.py:207-218 | No RSS anchor gives "". An anchor without href is the only error, and it is the missing `href` attribute. An href starting with "http" is returned unchanged. Any other href goes in place of the document URL's last segment. When the document URL has no last segment (it ends in '/' or has no '/'), the document URL itself is returned. With a non-empty document URL, "" means no anchor was found. |
| Feed.AbsoluteFeedIgnoresBase | src/crawl.py:212-213 | An absolute feed href gives the same result whatever base URL is passed. |
| Feed.Reverse | src/crawl.py:228 | `doc_nav.reverse()`: same length, and element i of the result is element n-1-i of the input. |
| Feed.FirstHistoryEntry | src/crawl.py:229-233 | The scan with `break` returns the first "Document History" entry, and no earlier entry is one. It returns nothing when no entry matches. |
| Feed.ReversedScanFindsLast | src/crawl.py:227-233 | The first match in the reversed navigation list is the last "Document History" entry of the original list. |
| Feed.HistoryUrl | src/crawl.py:221-237 | Returns the href of the last "Document History" entry, resolved by the last-segment rule against the document URL. Gives "" when that entry has no href (earlier entries are not consulted) and "" when no entry matches. Never raises. |
| Feed.HistoryStage | src/crawl.py:193-204 | Renders at most one page: the history URL, and only when that URL is non-empty; otherwise the result is "". The feed is read from the rendered page and resolved against the document URL, not the history URL. A render failure is returned as an error. |
| Crawl.DocItem | src/crawl.py:164-185 | A missing `label` or `href` fails with no render. A successful node has menu title = label and html URL = DOC_HOST + href. The first render is of that URL, and there are at most two renders. A failed render of the document page is returned as that error, after one render. |
| Crawl.DocItemFollowsStages | src/crawl.py:176-202 | Once the document page is rendered, a direct-stage error (an RSS anchor without href) propagates. A non-empty direct result becomes the rss URL. An empty direct result hands over to the history stage. That stage's error propagates (a failed history render, or an RSS anchor without href on the history page), its value otherwise becomes the rss URL, and its renders follow the document render. |
| Crawl.DirectLinkSkipsHistory | src/crawl.py:176-179 | When the document page has an RSS anchor with an href, the only render is the document page. The node carries that resolved link, which is never "". |
| Crawl.HistoryFallback | src/crawl.py:176-204 | With no direct link and a non-empty history URL, the renders are exactly [document URL, history URL]. The node's rss URL is the history page's feed resolved against the document URL. |
| Crawl.NoFeedGivesEmptyRss | src/crawl.py:177-204 | With no direct link and an empty history URL (no "Document History" entry, or the last one has no href), the document is still produced, with rss URL "", after a single render. |
| Crawl.CollectDocs | src/crawl.py:153-161 | The document list holds the successfully extracted documents in input order, up to the first failing document. It stops exactly there, and the error reported is that document's. The list is complete exactly when nothing failed. |
| Crawl.CollectDocsRenders | src/crawl.py:155-161 | The loop renders exactly the pages of the documents it tried, in order: every document before the first failure, then the failing one. No page of a later document is rendered. |
| Crawl.TruncationIsUnique | src/crawl.py:155-157 | The truncated-at-first-failure shape fixes the document list uniquely. |
| Crawl.ServiceTitle | src/crawl.py:136-140 | The title is prefix, one space, then name when the prefix text is present, and the name alone otherwise. |
| Crawl.ServiceItem | src/crawl.py:118-161 | A missing prefix span, name span or href leaves ("", "", []) with no render. An href that is not `^\/.+` is kept as the index URL, with no docs and no render. When prefix span, name span and a root-relative href are all present, the index URL is DOC_HOST + href, and that URL is always rendered first. The docs are the index page's documents truncated at the first failure, or empty when the index page cannot be rendered. After the index page, the renders are exactly those of the documents tried, up to and including the failing one. |
| Crawl.MapInOrder | src/crawl.py:109-111 | One output per input element, in the same order. Element i of the output is the extractor applied to element i of the input. |
| Crawl.CategoryItem | src/crawl.py:88-115 | Never fails. Without a title heading the node is ("", []) and nothing is rendered. Otherwise the title is the heading text and there is exactly one service node per service element, in order, failing services included. |
| Crawl.Run | src/crawl.py:246-254 | The landing page is rendered first. The crawl fails exactly when that render fails. Otherwise there is exactly one category node per category section, in order. |
| Scenarios.SiblingFileExample | src/crawl.py:215-216 | ("https://h/a/b/c.html", "d.html") resolves to "https://h/a/b/d.html". |
| Scenarios.TrailingSlashExample | src/crawl.py:215-216 | A base ending in '/' is returned unchanged. |
| Scenarios.LaterHistoryEntryWins | src/crawl.py:227-233 | Of two "Document History" entries, the later one's href is used. |
| Scenarios.LastHistoryEntryWithoutHref | src/crawl.py:229-237 | A last history entry without an href gives "", even though an earlier entry has one. |
| Scenarios.FailingServiceIsKept | src/crawl.py:109-111 | Three services, the second without an href, give three nodes in order, the second being ("", "", []). |
| Scenarios.LinkPatternExamples | src/crawl.py:143 | "https://a" and "httpx" are absolute, and "htt" and "feed.xml" are not. "/x" is root-relative; "/", "/" followed by a newline, and "x/y" are not. |
| Scenarios.SlashAloneIsNotCrawled | src/crawl.py:143-147 | A service href "/" is kept as the index URL, with no docs and no render. |
| Scenarios.RootFeedHrefReplacesSegment | src/crawl.py:212-216 | The feed href "/feed.xml" against "https://h/a/b.html" gives "https://h/a//feed.xml". |
| Scenarios.EndToEnd | src/crawl.py:246-254 | A landing page with "Compute" (service EC2 with one guide that has a direct feed link) and an empty "Storage" crawls to the expected two-category tree. The guide needs a single render. |

## Left out

- Browser session and rendering (`get_soup`, the Chrome driver, the `time.sleep` delays and the final `close`): replaced by the `fetch` parameter.
- CSS selector evaluation, `.string` and attribute lookup: these are BeautifulSoup calls. Their results are the fields of the `Page`, `Anchor`, `DocElem`, `ServiceElem` and `CategoryElem` datatypes.
- The regex that scrapes a service's name from its serialised markup (src/crawl.py:138-139): the scraped name is an opaque string in `ServiceElem.names`.
- `save_as_json` and JSON formatting: file I/O.
- `print` and `traceback` progress output.
- `finally: return` also swallowing exceptions that are not `Exception`s (e.g. KeyboardInterrupt): the model has a single error kind.
- Urls.ReplaceLastSegment: `re.sub` processes backslash escapes in the replacement `'/' + href`. The model inserts href literally, so an href containing '\' is not modelled. Python's `$` also matching before a trailing newline makes no difference for this pattern: the greedy `[^\/]+` already reaches the end.
- Crawl.Run: the renderer requests of the whole crawl are computed, but only their first entry (the landing page) is stated. Crawl.MapInOrder and Crawl.CategoryItem state the nodes and not the concatenated request list.
