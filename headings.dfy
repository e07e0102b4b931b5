/** The "Page Headings summary" section: how many `h1` … `h6` elements the page holds at any
    depth, the number of `h1` elements again, and the text of the first one. */
module Headings {
  import opened Strings
  import opened Dom

  /** The keys of the headings dictionary, in its insertion order. */
  const HeadingKeys: seq<string> := ["H1", "H2", "H3", "H4", "H5", "H6"]

  datatype HeadingsSummary = HeadingsSummary(counts: map<string, nat>, h1Count: nat, h1Content: string)

  /** The dictionary for the given keys once filled: each key maps to the number of elements
      named by the key in lower case. */
  function CountsFor(doc: Document, keys: seq<string>): map<string, nat> {
    map k | k in keys :: Count(doc, Named(Lower(k)))
  }

  function HeadingCounts(doc: Document): map<string, nat> {
    CountsFor(doc, HeadingKeys)
  }

  /** The loop of the headings analysis: every key starts at 0 and is then set, in order, to
      the number of elements its lower-cased name matches. */
  method FillCounts(doc: Document, keys: seq<string>) returns (counts: map<string, nat>)
    ensures counts == CountsFor(doc, keys)
  {
    counts := map k | k in keys :: 0;
    var i := 0;
    while i < |keys|
      invariant 0 <= i <= |keys|
      invariant counts.Keys == set k | k in keys
      invariant forall k :: k in keys[..i] ==> counts[k] == Count(doc, Named(Lower(k)))
    {
      var key := keys[i];
      counts := counts[key := Count(doc, Named(Lower(key)))];
      assert keys[..i + 1] == keys[..i] + [key];
      i := i + 1;
    }
    assert keys[..i] == keys;
  }

  /** `headings = {"H1": 0, ..., "H6": 0}` followed by the loop over its keys. */
  method CountHeadings(doc: Document) returns (headings: map<string, nat>)
    ensures headings == HeadingCounts(doc)
  {
    headings := FillCounts(doc, HeadingKeys);
  }

  /** `key.lower()` for each key. */
  lemma HeadingTagNames()
    ensures Lower("H1") == "h1" && Lower("H2") == "h2" && Lower("H3") == "h3"
    ensures Lower("H4") == "h4" && Lower("H5") == "h5" && Lower("H6") == "h6"
  {
  }

  lemma HeadingKeySet()
    ensures (set k | k in HeadingKeys) == {"H1", "H2", "H3", "H4", "H5", "H6"}
  {
    var keys := HeadingKeys;
    assert keys[0] == "H1" && keys[1] == "H2" && keys[2] == "H3";
    assert keys[3] == "H4" && keys[4] == "H5" && keys[5] == "H6";
  }

  /** The entry of the key at position `i` counts the elements named by its lower case. */
  lemma HeadingCountAt(doc: Document, i: nat, key: string, tag: string)
    requires i < |HeadingKeys| && HeadingKeys[i] == key && Lower(key) == tag
    ensures key in HeadingCounts(doc) && HeadingCounts(doc)[key] == Count(doc, Named(tag))
  {
  }

  /** Each key of the headings dictionary counts its own level's elements. */
  lemma HeadingCountsByLevel(doc: Document)
    ensures HeadingCounts(doc).Keys == {"H1", "H2", "H3", "H4", "H5", "H6"}
    ensures HeadingCounts(doc)["H1"] == Count(doc, Named("h1")) && HeadingCounts(doc)["H2"] == Count(doc, Named("h2"))
    ensures HeadingCounts(doc)["H3"] == Count(doc, Named("h3")) && HeadingCounts(doc)["H4"] == Count(doc, Named("h4"))
    ensures HeadingCounts(doc)["H5"] == Count(doc, Named("h5")) && HeadingCounts(doc)["H6"] == Count(doc, Named("h6"))
  {
    HeadingKeySet();
    HeadingTagNames();
    HeadingCountAt(doc, 0, "H1", "h1");
    HeadingCountAt(doc, 1, "H2", "h2");
    HeadingCountAt(doc, 2, "H3", "h3");
    HeadingCountAt(doc, 3, "H4", "h4");
    HeadingCountAt(doc, 4, "H5", "h5");
    HeadingCountAt(doc, 5, "H6", "h6");
  }

  /** `soup.find("h1").text if soup.find("h1") else ""` */
  function H1Content(doc: Document): string {
    match Find(doc, Named("h1"))
    case Some(h) => TextOf(h)
    case None => ""
  }

  /** Each key counts the elements of its own level, wherever they are; "H1 count" repeats
      the H1 entry; the content is the text of the first `h1`, or empty without one. */
  function HeadingsSection(doc: Document): (r: HeadingsSummary)
    ensures r.counts.Keys == {"H1", "H2", "H3", "H4", "H5", "H6"}
    ensures r.counts["H1"] == Count(doc, Named("h1")) && r.counts["H2"] == Count(doc, Named("h2"))
    ensures r.counts["H3"] == Count(doc, Named("h3")) && r.counts["H4"] == Count(doc, Named("h4"))
    ensures r.counts["H5"] == Count(doc, Named("h5")) && r.counts["H6"] == Count(doc, Named("h6"))
    ensures r.h1Count == r.counts["H1"]
    ensures r.h1Count == 0 ==> r.h1Content == []
    ensures r.h1Count > 0 ==> r.h1Content == TextOf(FindAll(doc, Named("h1"))[0])
  {
    FindIsFirstOfFindAll(doc, Named("h1"));
    HeadingCountsByLevel(doc);
    HeadingsSummary(HeadingCounts(doc), Count(doc, Named("h1")), H1Content(doc))
  }
}
