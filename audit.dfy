/** The audit: classify the requested address, copy the HTTP fields of the fetched response,
    run the extractors over its parsed page and assemble the report, or give the empty
    report (None) when the fetch failed or any extractor raised. */
module Audit {
  import opened Wrappers
  import opened Strings
  import opened Dom
  import opened TagText
  import opened Metadata
  import opened Headings
  import opened WordCount
  import opened Links
  import opened Images

  datatype InputType = Domain | UrlWithPath

  /** What the fetch returned: the response's fields and the page parsed from its body. */
  datatype Response = Response(
    url: string, statusCode: int, headers: map<string, string>, encoding: Option<string>,
    isRedirect: bool, document: Document)

  datatype InputInfo = InputInfo(url: string, inputType: InputType)

  datatype HttpInfo = HttpInfo(
    statusCode: int, headers: map<string, string>, encoding: Option<string>,
    isRedirect: bool, url: string)

  datatype AuditReport = AuditReport(
    input: InputInfo, http: HttpInfo, title: TextReport, metaDescription: TextReport,
    metadata: MetadataInfo, headings: HeadingsSummary, wordCount: WordCountReport,
    links: LinksSummary, images: ImagesAnalysis)

  /** `"Domain" if path.strip("/") == "" else "URL with path"`, on the path of the requested
      address: a domain exactly when the path is nothing but slashes. */
  function ClassifyInput(path: string): (t: InputType)
    ensures t == Domain <==> forall i :: 0 <= i < |path| ==> path[i] == '/'
  {
    if StripBy(IsSlash, path) == [] then Domain else UrlWithPath
  }

  /** The "http" section: the response's fields, copied. */
  function HttpInfoOf(response: Response): (h: HttpInfo)
    ensures h.url == response.url && h.statusCode == response.statusCode
    ensures h.headers == response.headers && h.encoding == response.encoding
    ensures h.isRedirect == response.isRedirect
  {
    HttpInfo(response.statusCode, response.headers, response.encoding, response.isRedirect, response.url)
  }

  /** Some extractor raises on this page: a first `title` without `.string`, a first
      description `meta` without `content`, or a metadata lookup whose element lacks the
      attribute read from it. */
  predicate ExtractionFails(doc: Document) {
    || (Find(doc, TitleQuery).Some? && StringOf(Find(doc, TitleQuery).value).None?)
    || (Find(doc, DescriptionQuery).Some? && "content" !in Find(doc, DescriptionQuery).value.attrs)
    || FoundWithout(Find(doc, CanonicalQuery), "href")
    || FoundWithout(FaviconTag(doc), "href")
    || FoundWithout(Find(doc, ViewportQuery), "content")
    || FoundWithout(Find(doc, KeywordsQuery), "content")
  }

  /** The audit, all or nothing: None exactly when the fetch failed or an extractor raised;
      otherwise every section is present and is what its extractor computes. */
  function AuditOf(url: string, path: string, fetched: Option<Response>): (r: Option<AuditReport>)
    ensures r.None? <==> fetched.None? || ExtractionFails(fetched.value.document)
    ensures r.Some? ==> r.value.input == InputInfo(url, ClassifyInput(path))
    ensures r.Some? ==> r.value.http == HttpInfoOf(fetched.value)
    ensures r.Some? ==>
      var doc := fetched.value.document;
      && TitleSection(doc) == Ok(r.value.title)
      && DescriptionSection(doc) == Ok(r.value.metaDescription)
      && MetadataSection(doc) == Ok(r.value.metadata)
      && r.value.headings == HeadingsSection(doc)
      && r.value.wordCount == WordCountSection(doc)
      && r.value.links == LinksSection(doc)
      && r.value.images == ImagesSection(doc)
  {
    match fetched
    case None => None
    case Some(response) =>
      var doc := response.document;
      var title := TitleSection(doc);
      var description := DescriptionSection(doc);
      var metadata := MetadataSection(doc);
      if title.Err? || description.Err? || metadata.Err? then None
      else Some(AuditReport(
        InputInfo(url, ClassifyInput(path)), HttpInfoOf(response),
        title.value, description.value, metadata.value, HeadingsSection(doc),
        WordCountSection(doc), LinksSection(doc), ImagesSection(doc)))
  }

  /** The report built up section by section, leaving with the empty report at the first
      fault. */
  method FullSeoAudit(url: string, path: string, fetched: Option<Response>) returns (result: Option<AuditReport>)
    ensures result == AuditOf(url, path, fetched)
  {
    if fetched.None? {
      return None;
    }
    var response := fetched.value;
    var input := InputInfo(url, ClassifyInput(path));
    var http := HttpInfoOf(response);
    var doc := response.document;
    var title := TitleSection(doc);
    if title.Err? {
      return None;
    }
    var description := DescriptionSection(doc);
    if description.Err? {
      return None;
    }
    var metadata := MetadataSection(doc);
    if metadata.Err? {
      return None;
    }
    var counts := CountHeadings(doc);
    var headings := HeadingsSummary(counts, Count(doc, Named("h1")), H1Content(doc));
    var wordCount := WordCountSection(doc);
    var links := LinksSection(doc);
    var images := ImagesSection(doc);
    result := Some(AuditReport(input, http, title.value, description.value, metadata.value,
                               headings, wordCount, links, images));
  }

  /** The input type depends on the requested address only, not on where redirects led. */
  lemma InputTypeIgnoresFinalUrl(url: string, path: string, response: Response, finalUrl: string)
    ensures var r1 := AuditOf(url, path, Some(response));
      var r2 := AuditOf(url, path, Some(response.(url := finalUrl)));
      && r1.Some? == r2.Some?
      && (r1.Some? ==> (r1.value.input == r2.value.input && r1.value.(http := r2.value.http) == r2.value))
  {
  }

  /** An empty page audits without fault: nothing found, every count zero. */
  lemma EmptyPage(url: string, path: string, response: Response)
    requires response.document == []
    ensures var r := AuditOf(url, path, Some(response));
      && r.Some? && !r.value.title.found && r.value.title.length == 0
      && !r.value.metaDescription.found
      && r.value.headings.counts == map["H1" := 0, "H2" := 0, "H3" := 0, "H4" := 0, "H5" := 0, "H6" := 0]
      && r.value.links.total == 0 && r.value.images.total == 0 && r.value.wordCount.total == 0
  {
    EmptyPageSections();
  }

  lemma EmptyPageSections()
    ensures !ExtractionFails([])
    ensures TitleSection([]).Ok? && !TitleSection([]).value.found && TitleSection([]).value.length == 0
    ensures DescriptionSection([]).Ok? && !DescriptionSection([]).value.found
    ensures HeadingsSection([]).counts == map["H1" := 0, "H2" := 0, "H3" := 0, "H4" := 0, "H5" := 0, "H6" := 0]
    ensures LinksSection([]).total == 0 && ImagesSection([]).total == 0 && WordCountSection([]).total == 0
  {
    EmptyFindsNothing([], TitleQuery);
    EmptyFindsNothing([], DescriptionQuery);
    EmptyFindsNothing([], AnchorQuery);
    EmptyFindsNothing([], Images.ImageQuery);
    EmptyMetadata([]);
    EmptyHeadings([]);
    EmptyWordCount([]);
  }

  lemma EmptyFindsNothing(doc: Document, q: Query)
    requires doc == []
    ensures FindAll(doc, q) == [] && Find(doc, q) == None && Count(doc, q) == 0
  {
    assert Elements(doc) == [];
  }

  lemma EmptyMetadata(doc: Document)
    requires doc == []
    ensures !FoundWithout(Find(doc, CanonicalQuery), "href")
    ensures !FoundWithout(FaviconTag(doc), "href")
    ensures !FoundWithout(Find(doc, ViewportQuery), "content")
    ensures !FoundWithout(Find(doc, KeywordsQuery), "content")
  {
    EmptyFindsNothing(doc, CanonicalQuery);
    EmptyFindsNothing(doc, IconQuery);
    EmptyFindsNothing(doc, ShortcutIconQuery);
    EmptyFindsNothing(doc, ViewportQuery);
    EmptyFindsNothing(doc, KeywordsQuery);
  }

  /** A page without heading elements has every heading count at zero. */
  lemma NoHeadings(doc: Document)
    requires Count(doc, Named("h1")) == 0 && Count(doc, Named("h2")) == 0 && Count(doc, Named("h3")) == 0
    requires Count(doc, Named("h4")) == 0 && Count(doc, Named("h5")) == 0 && Count(doc, Named("h6")) == 0
    ensures HeadingsSection(doc).counts == map["H1" := 0, "H2" := 0, "H3" := 0, "H4" := 0, "H5" := 0, "H6" := 0]
  {
    HeadingCountsByLevel(doc);
    ZeroHeadingCounts(HeadingCounts(doc));
  }

  /** A heading dictionary with the six keys, each at zero, is the initial one. */
  lemma ZeroHeadingCounts(c: map<string, nat>)
    requires c.Keys == {"H1", "H2", "H3", "H4", "H5", "H6"}
    requires c["H1"] == 0 && c["H2"] == 0 && c["H3"] == 0 && c["H4"] == 0 && c["H5"] == 0 && c["H6"] == 0
    ensures c == map["H1" := 0, "H2" := 0, "H3" := 0, "H4" := 0, "H5" := 0, "H6" := 0]
  {
  }

  lemma EmptyHeadings(doc: Document)
    requires doc == []
    ensures HeadingsSection(doc).counts == map["H1" := 0, "H2" := 0, "H3" := 0, "H4" := 0, "H5" := 0, "H6" := 0]
  {
    assert forall q :: Count(doc, q) == 0 by {
      assert Elements(doc) == [];
    }
  }

  /** A page without text has no words. */
  lemma NoTextNoWords(doc: Document)
    requires Texts(doc) == []
    ensures WordCountSection(doc).total == 0
  {
    assert Lower(JoinSpace(StrippedStrings(Texts(doc)))) == [];
  }

  lemma EmptyWordCount(doc: Document)
    requires doc == []
    ensures WordCountSection(doc).total == 0
  {
    assert Texts(doc) == [];
    NoTextNoWords(doc);
  }

  /** A search finds nothing on a page none of whose elements carries the searched name. */
  lemma UnnamedFindsNothing(doc: Document, q: Query)
    requires forall i :: 0 <= i < |Elements(doc)| ==> Elements(doc)[i].name != q.tag
    ensures FindAll(doc, q) == [] && Find(doc, q) == None && Count(doc, q) == 0
  {
    FindIsFirstOfFindAll(doc, q);
  }

  /** The bare page `<html><head></head><body></body></html>` audits without fault, and
      every section reports nothing found. */
  lemma SkeletonPage(url: string, path: string, response: Response)
    requires response.document == [Element("html", map[], [], [Element("head", map[], [], []), Element("body", map[], [], [])])]
    ensures var r := AuditOf(url, path, Some(response));
      && r.Some? && !r.value.title.found && r.value.title.length == 0
      && !r.value.metaDescription.found
      && r.value.headings.counts == map["H1" := 0, "H2" := 0, "H3" := 0, "H4" := 0, "H5" := 0, "H6" := 0]
      && r.value.links.total == 0 && r.value.images.total == 0 && r.value.wordCount.total == 0
  {
    SkeletonSections(response.document);
  }

  lemma SkeletonSections(doc: Document)
    requires doc == [Element("html", map[], [], [Element("head", map[], [], []), Element("body", map[], [], [])])]
    ensures !ExtractionFails(doc)
    ensures TitleSection(doc).Ok? && !TitleSection(doc).value.found && TitleSection(doc).value.length == 0
    ensures DescriptionSection(doc).Ok? && !DescriptionSection(doc).value.found
    ensures HeadingsSection(doc).counts == map["H1" := 0, "H2" := 0, "H3" := 0, "H4" := 0, "H5" := 0, "H6" := 0]
    ensures LinksSection(doc).total == 0 && ImagesSection(doc).total == 0 && WordCountSection(doc).total == 0
  {
    SkeletonTagText(doc);
    SkeletonMetadata(doc);
    SkeletonHeadings(doc);
    SkeletonCounts(doc);
  }

  lemma SkeletonTagText(doc: Document)
    requires doc == [Element("html", map[], [], [Element("head", map[], [], []), Element("body", map[], [], [])])]
    ensures TitleSection(doc).Ok? && !TitleSection(doc).value.found && TitleSection(doc).value.length == 0
    ensures DescriptionSection(doc).Ok? && !DescriptionSection(doc).value.found
  {
    SkeletonElements(doc);
    UnnamedFindsNothing(doc, TitleQuery);
    UnnamedFindsNothing(doc, DescriptionQuery);
  }

  lemma SkeletonMetadata(doc: Document)
    requires doc == [Element("html", map[], [], [Element("head", map[], [], []), Element("body", map[], [], [])])]
    ensures !FoundWithout(Find(doc, CanonicalQuery), "href")
    ensures !FoundWithout(FaviconTag(doc), "href")
    ensures !FoundWithout(Find(doc, ViewportQuery), "content")
    ensures !FoundWithout(Find(doc, KeywordsQuery), "content")
  {
    SkeletonElements(doc);
    UnnamedFindsNothing(doc, CanonicalQuery);
    UnnamedFindsNothing(doc, IconQuery);
    UnnamedFindsNothing(doc, ShortcutIconQuery);
    UnnamedFindsNothing(doc, ViewportQuery);
    UnnamedFindsNothing(doc, KeywordsQuery);
  }

  lemma SkeletonHeadings(doc: Document)
    requires doc == [Element("html", map[], [], [Element("head", map[], [], []), Element("body", map[], [], [])])]
    ensures HeadingsSection(doc).counts == map["H1" := 0, "H2" := 0, "H3" := 0, "H4" := 0, "H5" := 0, "H6" := 0]
  {
    SkeletonElements(doc);
    UnnamedFindsNothing(doc, Named("h1"));
    UnnamedFindsNothing(doc, Named("h2"));
    UnnamedFindsNothing(doc, Named("h3"));
    UnnamedFindsNothing(doc, Named("h4"));
    UnnamedFindsNothing(doc, Named("h5"));
    UnnamedFindsNothing(doc, Named("h6"));
    NoHeadings(doc);
  }

  lemma SkeletonCounts(doc: Document)
    requires doc == [Element("html", map[], [], [Element("head", map[], [], []), Element("body", map[], [], [])])]
    ensures LinksSection(doc).total == 0 && ImagesSection(doc).total == 0 && WordCountSection(doc).total == 0
  {
    SkeletonElements(doc);
    UnnamedFindsNothing(doc, AnchorQuery);
    UnnamedFindsNothing(doc, Images.ImageQuery);
    NoTextNoWords(doc);
  }

  /** The bare page holds three elements, `html`, `head` and `body`, and no text. */
  lemma SkeletonElements(doc: Document)
    requires doc == [Element("html", map[], [], [Element("head", map[], [], []), Element("body", map[], [], [])])]
    ensures forall i :: 0 <= i < |Elements(doc)| ==> Elements(doc)[i].name in {"html", "head", "body"}
    ensures Texts(doc) == []
  {
    var head := Element("head", map[], [], []);
    var body := Element("body", map[], [], []);
    LeafPair(head, body);
    assert doc[1..] == [];
    assert Elements(doc) == [doc[0]] + Elements([head, body]);
    assert Texts(doc) == Texts([head, body]);
  }

  /** Two childless elements side by side are their own preorder listing and hold no text. */
  lemma LeafPair(a: Node, b: Node)
    requires a.Element? && a.children == [] && b.Element? && b.children == []
    ensures Elements([a, b]) == [a, b] && Texts([a, b]) == []
  {
    assert [b][1..] == [] && [a, b][1..] == [b];
    assert Elements([b]) == [b] && Texts([b]) == [];
  }

  /** An empty `<title></title>` has no `.string`, `len(None)` raises, and the whole audit is
      the empty report. */
  lemma EmptyTitleFailsAudit(url: string, path: string, response: Response)
    requires response.document == [Element("title", map[], [], [])]
    ensures AuditOf(url, path, Some(response)).None?
  {
    var doc := response.document;
    assert Elements(doc) == doc;
    assert Find(doc, TitleQuery) == Some(doc[0]);
    assert StringOf(doc[0]) == None;
    assert ExtractionFails(doc);
  }

  /** A description `meta` without `content` makes the subscript raise, and the whole audit is
      the empty report. */
  lemma DescriptionWithoutContentFailsAudit(url: string, path: string, response: Response)
    requires response.document == [Element("meta", map["name" := "description"], [], [])]
    ensures AuditOf(url, path, Some(response)).None?
  {
    var doc := response.document;
    assert Elements(doc) == doc;
    assert Find(doc, DescriptionQuery) == Some(doc[0]);
    assert ExtractionFails(doc);
  }

  /** A failed fetch gives the empty report, whatever the address. */
  lemma FetchFailureIsEmpty(url: string, path: string)
    ensures AuditOf(url, path, None) == None
  {
  }
}
