/** The "metadata_info" section: charset, canonical link, favicon, viewport and keywords,
    each taken from the first matching element, or None when there is none. */
module Metadata {
  import opened Wrappers
  import opened Strings
  import opened Dom

  datatype MetadataInfo = MetadataInfo(
    charset: Option<string>, canonical: Option<string>, favicon: Option<string>,
    viewport: Option<string>, keywords: Option<string>)

  const CharsetQuery := HasAttr("meta", "charset")
  const CanonicalQuery := WithRel("link", "canonical")
  const IconQuery := WithRel("link", "icon")
  const ShortcutIconQuery := WithRel("link", "shortcut icon")
  const ViewportQuery := WithAttr("meta", "name", "viewport")
  const KeywordsQuery := WithAttr("meta", "name", "keywords")

  /** `tag[attr] if tag else None`: None when nothing was found, the attribute's value when
      the found element has it, and a `KeyError` when it does not. */
  function ValueIfFound(tag: Option<Node>, attr: string): (r: Result<Option<string>, Fault>)
    ensures r.Err? <==> tag.Some? && Attr(tag.value, attr).None?
    ensures r.Ok? ==> r.value == if tag.None? then None else Attr(tag.value, attr)
  {
    match tag
    case None => Ok(None)
    case Some(t) =>
      if t.Element? && attr in t.attrs then Ok(Some(t.attrs[attr])) else Err(KeyError(attr))
  }

  /** `soup.find("link", {"rel": "icon"}) or soup.find("link", {"rel": "shortcut icon"})` */
  function FaviconTag(doc: Document): Option<Node> {
    var icon := Find(doc, IconQuery);
    if icon.Some? then icon else Find(doc, ShortcutIconQuery)
  }

  /** A found element that lacks the attribute the source subscripts. */
  predicate FoundWithout(tag: Option<Node>, attr: string) {
    tag.Some? && Attr(tag.value, attr).None?
  }

  /** The section fails exactly when a canonical link or favicon link lacks `href`, or a
      viewport or keywords `meta` lacks `content`; the charset lookup never fails. Each
      field is the attribute of the first matching element, None when nothing matches. */
  function MetadataSection(doc: Document): (r: Result<MetadataInfo, Fault>)
    ensures r.Err? <==>
      || FoundWithout(Find(doc, CanonicalQuery), "href")
      || FoundWithout(FaviconTag(doc), "href")
      || FoundWithout(Find(doc, ViewportQuery), "content")
      || FoundWithout(Find(doc, KeywordsQuery), "content")
    ensures r.Ok? ==> (r.value.charset.Some? <==> Count(doc, CharsetQuery) >= 1)
    ensures r.Ok? && r.value.charset.Some? ==>
      r.value.charset == Attr(FindAll(doc, CharsetQuery)[0], "charset")
    ensures r.Ok? ==> (r.value.canonical.Some? <==> Count(doc, CanonicalQuery) >= 1)
    ensures r.Ok? && r.value.canonical.Some? ==>
      r.value.canonical == Attr(FindAll(doc, CanonicalQuery)[0], "href")
    ensures r.Ok? ==> (r.value.favicon.Some? <==> FaviconTag(doc).Some?)
    ensures r.Ok? && r.value.favicon.Some? ==> r.value.favicon == Attr(FaviconTag(doc).value, "href")
    ensures r.Ok? ==> (r.value.viewport.Some? <==> Count(doc, ViewportQuery) >= 1)
    ensures r.Ok? && r.value.viewport.Some? ==>
      r.value.viewport == Attr(FindAll(doc, ViewportQuery)[0], "content")
    ensures r.Ok? ==> (r.value.keywords.Some? <==> Count(doc, KeywordsQuery) >= 1)
    ensures r.Ok? && r.value.keywords.Some? ==>
      r.value.keywords == Attr(FindAll(doc, KeywordsQuery)[0], "content")
  {
    FindIsFirstOfFindAll(doc, CharsetQuery);
    FindIsFirstOfFindAll(doc, CanonicalQuery);
    FindIsFirstOfFindAll(doc, ViewportQuery);
    FindIsFirstOfFindAll(doc, KeywordsQuery);
    var charset := ValueIfFound(Find(doc, CharsetQuery), "charset");
    var canonical := ValueIfFound(Find(doc, CanonicalQuery), "href");
    var favicon := ValueIfFound(FaviconTag(doc), "href");
    var viewport := ValueIfFound(Find(doc, ViewportQuery), "content");
    var keywords := ValueIfFound(Find(doc, KeywordsQuery), "content");
    if canonical.Err? then Err(canonical.error)
    else if favicon.Err? then Err(favicon.error)
    else if viewport.Err? then Err(viewport.error)
    else if keywords.Err? then Err(keywords.error)
    else Ok(MetadataInfo(charset.value, canonical.value, favicon.value, viewport.value, keywords.value))
  }

  predicate NoSpaceIn(s: string) {
    forall k :: 0 <= k < |s| ==> !IsSpace(s[k])
  }

  /** A space-joined list of two or more non-empty tokens holds a space. */
  lemma JoinOfSeveralHasSpace(rel: seq<string>)
    requires |rel| >= 2
    ensures !NoSpaceIn(JoinSpace(rel))
  {
    var j := JoinSpace(rel);
    assert j == rel[0] + " " + JoinSpace(rel[1..]);
    assert j[|rel[0]|] == ' ';
  }

  /** Under well-formed tokens, every `rel` that matches "shortcut icon" also matches "icon". */
  lemma ShortcutIconMatchesIcon(rel: seq<string>)
    requires WellFormedRel(rel)
    requires RelMatches(rel, "shortcut icon")
    ensures RelMatches(rel, "icon")
  {
    var s := "shortcut icon";
    assert s[8] == ' ';
    assert !NoSpaceIn(s);
    if s !in rel {
      assert JoinSpace(rel) == s;
      assert |rel| >= 2;
      var t := rel[0];
      var rest := JoinSpace(rel[1..]);
      assert s == t + " " + rest;
      assert NoSpaceIn(t);
      assert s[|t|] == ' ';
      assert |t| == 8;
      assert rest == s[9..] == "icon";
      assert NoSpaceIn("icon");
      if |rel[1..]| >= 2 {
        JoinOfSeveralHasSpace(rel[1..]);
        assert false;
      }
      assert rel[1..] == [rel[1]];
      assert rel[1] == "icon";
    }
  }

  /** When nothing matches "icon", nothing in es matches "shortcut icon" either. */
  lemma {:induction false} NoIconNoShortcutIcon(es: seq<Node>)
    requires forall i :: 0 <= i < |es| ==> es[i].Element? && WellFormedRel(es[i].rel) && !Matches(es[i], IconQuery)
    ensures FirstMatch(es, ShortcutIconQuery).None?
  {
    if es != [] {
      if Matches(es[0], ShortcutIconQuery) {
        ShortcutIconMatchesIcon(es[0].rel);
        assert false;
      }
      NoIconNoShortcutIcon(es[1..]);
    }
  }

  /** The `shortcut icon` fallback never changes the favicon: on a well-formed page the
      favicon is the first `icon` link. */
  lemma FaviconIsFirstIconLink(doc: Document)
    requires WellFormed(doc)
    ensures FaviconTag(doc) == Find(doc, IconQuery)
  {
    if Find(doc, IconQuery).None? {
      NoIconNoShortcutIcon(Elements(doc));
    }
  }
}
