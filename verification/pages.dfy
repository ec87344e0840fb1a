/** Rendered pages as the crawler sees them through its CSS selectors.

    Each page field is the element list one selector of src/crawl.py
    returns on that page, in document order. An attribute that may be
    missing (`element['href']` raising KeyError) is an `Option`; a text
    node that BeautifulSoup's `.string` may report as `None` is an
    `Option` too. Rendering itself is the `Fetch` parameter: `None` stands
    for a renderer call that raised. */
module Pages {
  import opened Results

  /** An `<a>` element: its `.string` and its `href` attribute. */
  datatype Anchor = Anchor(text: Option<string>, href: Option<string>)

  /** An `awsdocs-link` on a service index page: `label` and `href`. */
  datatype DocElem = DocElem(labelAttr: Option<string>, href: Option<string>)

  /** An `awsdocs-service-link`: the `.string` of each prefix span, the
      name scraped from each name span (taken as given), and `href`. */
  datatype ServiceElem = ServiceElem(prefixes: seq<Option<string>>, names: seq<string>, href: Option<string>)

  /** A category card on the landing page: the `.string` of each title
      heading and the service links inside it. */
  datatype CategoryElem = CategoryElem(titles: seq<Option<string>>, services: seq<ServiceElem>)

  datatype Page = Page(
    categorySections: seq<CategoryElem>, // SELECTOR_CATEGORY_SECTION
    docLinks: seq<DocElem>,              // SELECTOR_AWS_DOC
    rssAnchors: seq<Anchor>,             // awsdocs-link[label="RSS"] a
    sideNav: seq<Anchor>                 // SELECTOR_AWS_DOC_NAV
  )

  /** The shared renderer session: URL to rendered page, or a failure. */
  type Fetch = string -> Option<Page>
}
