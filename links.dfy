/** The "links_summary" section: every anchor counted, split into external and internal by
    its `href` prefix, the `nofollow` anchors counted, and a listing of the anchors that
    carry a non-empty `href`. */
module Links {
  import opened Seqs
  import opened Strings
  import opened Dom

  datatype LinkRecord = LinkRecord(href: string, text: string)

  /** `internal` is an `int`: the source computes it as a difference. */
  datatype LinksSummary = LinksSummary(
    total: nat, external: nat, internal: int, nofollow: nat, links: seq<LinkRecord>)

  /** `link.get("href", "").startswith(("http", "https"))` */
  predicate IsExternal(a: Node) {
    var href := AttrOr(a, "href", "");
    StartsWith(href, "http") || StartsWith(href, "https")
  }

  predicate IsInternal(a: Node) { !IsExternal(a) }

  /** `"nofollow" in link.get("rel", [])` */
  predicate IsNofollow(a: Node) { a.Element? && "nofollow" in a.rel }

  /** `link.get("href")` is truthy: present and non-empty. */
  predicate HasHref(a: Node) { Attr(a, "href").Some? && Attr(a, "href").value != [] }

  /** `{"href": link["href"], "text": link.text.strip()}`, for an anchor with an `href`. */
  function RecordOf(a: Node): LinkRecord {
    LinkRecord(AttrOr(a, "href", ""), Strip(TextOf(a)))
  }

  /** The `links` list comprehension. */
  function LinkListing(anchors: seq<Node>): (r: seq<LinkRecord>)
    ensures |r| == CountIf(HasHref, anchors)
    ensures forall i :: 0 <= i < |r| ==> r[i].href != []
  {
    if anchors == [] then []
    else
      var head := if HasHref(anchors[0]) then [LinkRecord(anchors[0].attrs["href"], Strip(TextOf(anchors[0])))] else [];
      head + LinkListing(anchors[1..])
  }

  function LinksSection(doc: Document): (r: LinksSummary)
    ensures r.total == Count(doc, AnchorQuery)
    ensures r.external <= r.total && r.nofollow <= r.total && |r.links| <= r.total
    ensures r.internal >= 0 && r.total == r.external + r.internal
    ensures r.external == CountIf(IsExternal, FindAll(doc, AnchorQuery))
    ensures r.nofollow == CountIf(IsNofollow, FindAll(doc, AnchorQuery))
    ensures r.links == Map(RecordOf, Filter(HasHref, FindAll(doc, AnchorQuery)))
  {
    var anchors := FindAll(doc, AnchorQuery);
    LinkListingIsHrefAnchors(anchors);
    var total := |anchors|;
    var external := CountIf(IsExternal, anchors);
    LinksSummary(total, external, total - external, CountIf(IsNofollow, anchors), LinkListing(anchors))
  }

  /** An anchor is external exactly when its `href`, or "" without one, starts with "http";
      so an anchor without `href` is internal. */
  lemma ExternalIffHttpPrefix(a: Node)
    ensures IsExternal(a) <==> StartsWith(AttrOr(a, "href", ""), "http")
    ensures Attr(a, "href").None? ==> IsInternal(a)
  {
    HttpsStartsWithHttp(AttrOr(a, "href", ""));
  }

  /** `internal` counts exactly the anchors that are not external. */
  lemma InternalCountsNonExternal(doc: Document)
    ensures LinksSection(doc).internal == CountIf(IsInternal, FindAll(doc, AnchorQuery))
  {
    CountIfComplement(IsExternal, IsInternal, FindAll(doc, AnchorQuery));
  }

  /** The listing is, in document order, the record of each anchor with a non-empty `href`. */
  lemma {:induction false} LinkListingIsHrefAnchors(anchors: seq<Node>)
    ensures LinkListing(anchors) == Map(RecordOf, Filter(HasHref, anchors))
  {
    if anchors != [] {
      LinkListingIsHrefAnchors(anchors[1..]);
      var head := if HasHref(anchors[0]) then [anchors[0]] else [];
      assert Filter(HasHref, anchors) == head + Filter(HasHref, anchors[1..]);
      MapAppend(RecordOf, head, Filter(HasHref, anchors[1..]));
    }
  }

  /** Anchors without a usable `href` are left out of the listing yet counted in the total,
      and all of them are internal. */
  lemma HreflessAnchorsCounted(doc: Document)
    ensures var r := LinksSection(doc);
      r.total == |r.links| + CountIf(LacksHref, FindAll(doc, AnchorQuery))
    ensures CountIf(LacksHref, FindAll(doc, AnchorQuery)) <= LinksSection(doc).internal
  {
    var anchors := FindAll(doc, AnchorQuery);
    CountIfComplement(HasHref, LacksHref, anchors);
    forall a | LacksHref(a) ensures IsInternal(a) {
      ExternalIffHttpPrefix(a);
    }
    CountIfMonotone(LacksHref, IsInternal, anchors);
    InternalCountsNonExternal(doc);
  }

  predicate LacksHref(a: Node) { !HasHref(a) }

  /** Two anchors, one external with `rel="nofollow"` and one local: two links, one of each
      kind, one nofollow, both listed with their text. */
  lemma ExternalAndLocalAnchors(a: Node, b: Node)
    requires a == Element("a", map["href" := "http://x.com"], ["nofollow"], [Text("click")])
    requires b == Element("a", map["href" := "/local"], [], [Text("here")])
    ensures var r := LinksSection([a, b]);
      r.total == 2 && r.external == 1 && r.internal == 1 && r.nofollow == 1
      && r.links == [LinkRecord("http://x.com", "click"), LinkRecord("/local", "here")]
  {
    AnchorsAreFound(a, b);
    ClickAnchor(a);
    LocalAnchor(b);
    TwoAnchorsSummary(a, b);
  }

  lemma ClickAnchor(a: Node)
    requires a == Element("a", map["href" := "http://x.com"], ["nofollow"], [Text("click")])
    ensures IsExternal(a) && IsNofollow(a) && HasHref(a)
    ensures RecordOf(a) == LinkRecord("http://x.com", "click")
  {
    LeafText(a, "click");
    PlainWordStrips("click");
    assert "http://x.com"[..4] == "http";
  }

  lemma LocalAnchor(b: Node)
    requires b == Element("a", map["href" := "/local"], [], [Text("here")])
    ensures !IsExternal(b) && !IsNofollow(b) && HasHref(b)
    ensures RecordOf(b) == LinkRecord("/local", "here")
  {
    LeafText(b, "here");
    PlainWordStrips("here");
    assert "/local"[..4][0] == '/' && "/local"[..5][0] == '/';
  }

  /** The summary of a page whose anchors are exactly a then b, the first external and
      nofollow, the second neither, both with an `href`. */
  lemma TwoAnchorsSummary(a: Node, b: Node)
    requires FindAll([a, b], AnchorQuery) == [a, b]
    requires IsExternal(a) && IsNofollow(a) && HasHref(a)
    requires !IsExternal(b) && !IsNofollow(b) && HasHref(b)
    ensures var r := LinksSection([a, b]);
      r.total == 2 && r.external == 1 && r.internal == 1 && r.nofollow == 1
      && r.links == [RecordOf(a), RecordOf(b)]
  {
    TwoAnchorCounts([a, b], a, b);
    LinkListingIsHrefAnchors([a, b]);
  }

  /** The counts and the listing of an external nofollow anchor followed by a local one. */
  lemma TwoAnchorCounts(anchors: seq<Node>, a: Node, b: Node)
    requires anchors == [a, b]
    requires IsExternal(a) && IsNofollow(a) && HasHref(a)
    requires !IsExternal(b) && !IsNofollow(b) && HasHref(b)
    ensures CountIf(IsExternal, anchors) == 1 && CountIf(IsNofollow, anchors) == 1
    ensures LinkListing(anchors) == [RecordOf(a), RecordOf(b)]
  {
    assert anchors[1..] == [b] && [b][1..] == [];
    assert CountIf(IsExternal, [b]) == 0 && CountIf(IsNofollow, [b]) == 0;
    assert LinkListing([b]) == [RecordOf(b)];
    assert LinkListing(anchors) == [RecordOf(a)] + LinkListing([b]);
  }

  /** Two top-level anchors with text children are what `find_all("a")` lists. */
  lemma AnchorsAreFound(a: Node, b: Node)
    requires a.Element? && a.name == "a" && |a.children| == 1 && a.children[0].Text?
    requires b.Element? && b.name == "a" && |b.children| == 1 && b.children[0].Text?
    ensures FindAll([a, b], AnchorQuery) == [a, b]
  {
    var doc := [a, b];
    assert Elements(a.children) == [] by { assert a.children[1..] == []; }
    assert Elements(b.children) == [] by { assert b.children[1..] == []; }
    assert Elements(doc) == doc by {
      assert doc[1..] == [b];
      assert Elements([b]) == [b] + Elements(b.children) + Elements([]);
      assert Elements(doc) == [a] + Elements(a.children) + Elements([b]);
    }
    assert Select([b], AnchorQuery) == [b] + Select([], AnchorQuery);
    assert Select(doc, AnchorQuery) == [a] + Select([b], AnchorQuery);
  }

  /** The `.text` of an element whose one child is the text t is t. */
  lemma LeafText(n: Node, t: string)
    requires n.Element? && n.children == [Text(t)]
    ensures TextOf(n) == t
  {
    assert [Text(t)][1..] == [];
    assert Texts(n.children) == [t];
    assert Concat([t]) == t + Concat([]);
  }

  /** A string without whitespace at either end is its own `strip()`. */
  lemma PlainWordStrips(s: string)
    requires s != [] && !IsSpace(s[0]) && !IsSpace(s[|s| - 1])
    ensures Strip(s) == s
  {
    assert LeadCount(IsSpace, s) == 0;
    assert TrailCount(IsSpace, s) == 0;
  }
}
