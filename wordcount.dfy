/** The "word_count" section: `\w` word runs in the page's visible text, whitespace tokens in
    its anchor texts, and the anchor share as an exact percentage. */
module WordCount {
  import opened Seqs
  import opened Strings
  import opened Dom

  datatype WordCountReport = WordCountReport(
    total: nat, corrected: nat, anchorTextWords: nat, anchorPercentage: real)

  /** `soup.stripped_strings` over the given strings: each stripped, the empty ones dropped. */
  function StrippedStrings(texts: seq<string>): (r: seq<string>)
    ensures forall i :: 0 <= i < |r| ==> r[i] != []
  {
    if texts == [] then []
    else (if Strip(texts[0]) != [] then [Strip(texts[0])] else []) + StrippedStrings(texts[1..])
  }

  /** `" ".join(soup.stripped_strings)` */
  function TextContent(doc: Document): string {
    JoinSpace(StrippedStrings(Texts(doc)))
  }

  /** `len(re.findall(r"\b\w+\b", text_content.lower()))` */
  function TotalWords(doc: Document): nat {
    WordRuns(Lower(TextContent(doc)))
  }

  /** `[a.text for a in anchors if a.text.strip()]` */
  function NonBlankTexts(anchors: seq<Node>): seq<string> {
    if anchors == [] then []
    else (if Strip(TextOf(anchors[0])) != [] then [TextOf(anchors[0])] else []) + NonBlankTexts(anchors[1..])
  }

  /** `len(" ".join(...).split())` over the non-blank anchor texts. */
  function AnchorTextWords(doc: Document): nat {
    SplitCount(JoinSpace(NonBlankTexts(FindAll(doc, AnchorQuery))))
  }

  /** `anchor_text_words / word_count_total * 100`, exactly, or 0 without any word. */
  function Percentage(part: nat, whole: nat): (p: real)
    ensures whole == 0 ==> p == 0.0
    ensures whole > 0 ==> p * (whole as real) == 100.0 * (part as real)
    ensures p >= 0.0
    ensures part == 0 ==> p == 0.0
  {
    if whole > 0 then (part as real) / (whole as real) * 100.0 else 0.0
  }

  /** The section's fields from its two counts. */
  function Report(total: nat, anchorWords: nat): (r: WordCountReport)
    ensures r.total == total && r.corrected == total && r.anchorTextWords == anchorWords
    ensures total == 0 ==> r.anchorPercentage == 0.0
    ensures total > 0 ==> r.anchorPercentage * (total as real) == 100.0 * (anchorWords as real)
    ensures anchorWords == 0 ==> r.anchorPercentage == 0.0
  {
    WordCountReport(total, total, anchorWords, Percentage(anchorWords, total))
  }

  /** The "word_count" section; the percentage relation is `Report`'s. */
  function WordCountSection(doc: Document): (r: WordCountReport)
    ensures r.total == TotalWords(doc) && r.corrected == r.total
    ensures r.anchorTextWords == AnchorTextWords(doc)
    ensures r.total == 0 ==> r.anchorPercentage == 0.0
    ensures r == Report(r.total, r.anchorTextWords)
  {
    Report(TotalWords(doc), AnchorTextWords(doc))
  }

  /** Stripping and dropping blank strings loses no word run. */
  lemma {:induction false} StrippedStringsKeepWords(texts: seq<string>)
    ensures SumRuns(IsWordChar, StrippedStrings(texts)) == SumRuns(IsWordChar, texts)
  {
    if texts != [] {
      var head := if Strip(texts[0]) != [] then [Strip(texts[0])] else [];
      StrippedStringsKeepWords(texts[1..]);
      RunsStrip(IsWordChar, IsSpace, texts[0]);
      SumRunsAppend(IsWordChar, head, StrippedStrings(texts[1..]));
      assert SumRuns(IsWordChar, head) == Runs(IsWordChar, texts[0]) by {
        if head != [] { assert head[1..] == []; }
      }
    }
  }

  /** The total is the sum, over the page's text nodes, of their `\w` word runs: joining with
      spaces never merges two runs, and neither stripping nor lowering changes one. */
  lemma TotalWordsIsSumOverTexts(doc: Document)
    ensures TotalWords(doc) == SumRuns(IsWordChar, Texts(doc))
  {
    WordRunsLower(TextContent(doc));
    RunsJoinSpace(IsWordChar, StrippedStrings(Texts(doc)));
    StrippedStringsKeepWords(Texts(doc));
  }

  /** Dropping the blank anchors loses no token. */
  lemma {:induction false} NonBlankTextsKeepTokens(anchors: seq<Node>)
    ensures SumRuns(NotSpace, NonBlankTexts(anchors)) == SumRuns(NotSpace, Map(TextOf, anchors))
  {
    if anchors != [] {
      var text := TextOf(anchors[0]);
      var head := if Strip(text) != [] then [text] else [];
      NonBlankTextsKeepTokens(anchors[1..]);
      SplitCountZeroIffBlank(text);
      SumRunsAppend(NotSpace, head, NonBlankTexts(anchors[1..]));
      assert SumRuns(NotSpace, head) == Runs(NotSpace, text) by {
        if head != [] { assert head[1..] == []; }
      }
      assert Map(TextOf, anchors)[1..] == Map(TextOf, anchors[1..]);
    }
  }

  /** The anchor word count is the sum, over all anchors, of their whitespace tokens. */
  lemma AnchorWordsIsSumOverAnchors(doc: Document)
    ensures AnchorTextWords(doc) == SumRuns(NotSpace, Map(TextOf, FindAll(doc, AnchorQuery)))
  {
    RunsJoinSpace(NotSpace, NonBlankTexts(FindAll(doc, AnchorQuery)));
    NonBlankTextsKeepTokens(FindAll(doc, AnchorQuery));
  }

  /** A page without anchors has no anchor words and a zero percentage. */
  lemma NoAnchorsNoPercentage(doc: Document)
    requires Count(doc, AnchorQuery) == 0
    ensures WordCountSection(doc).anchorTextWords == 0
    ensures WordCountSection(doc).anchorPercentage == 0.0
  {
    assert NonBlankTexts(FindAll(doc, AnchorQuery)) == [];
    assert AnchorTextWords(doc) == 0 by {
      assert JoinSpace([]) == [];
    }
  }

  /** The percentage is not bounded by 100: the two counts tokenize differently, so the
      page `<p>hi</p><a>- - -</a>` has one word in all and three anchor words. */
  lemma AnchorPercentageCanExceed100()
    ensures var doc := [Element("p", map[], [], [Text("hi")]), Element("a", map[], [], [Text("- - -")])];
      WordCountSection(doc).anchorPercentage == 300.0
  {
    var p := Element("p", map[], [], [Text("hi")]);
    var a := Element("a", map[], [], [Text("- - -")]);
    var doc := [p, a];
    assert Elements(doc) == doc by {
      assert Elements([Text("hi")]) == [] by { assert [Text("hi")][1..] == []; }
      assert Elements([Text("- - -")]) == [] by { assert [Text("- - -")][1..] == []; }
      assert doc[1..] == [a];
      assert Elements([a]) == [a] + Elements([Text("- - -")]) + Elements([]);
      assert Elements(doc) == [p] + Elements([Text("hi")]) + Elements([a]);
    }
    assert Texts(doc) == ["hi", "- - -"] by {
      assert Texts([Text("hi")]) == ["hi"] by { assert [Text("hi")][1..] == []; }
      assert Texts([Text("- - -")]) == ["- - -"] by { assert [Text("- - -")][1..] == []; }
      assert Texts([a]) == Texts([Text("- - -")]) + Texts([]);
      assert Texts(doc) == Texts([Text("hi")]) + Texts([a]);
    }
    assert FindAll(doc, AnchorQuery) == [a] by {
      assert Select([a], AnchorQuery) == [a] + Select([], AnchorQuery);
      assert Select(doc, AnchorQuery) == [] + Select([a], AnchorQuery);
    }
    assert TextOf(a) == "- - -" by {
      assert Texts([Text("- - -")]) == ["- - -"] by { assert [Text("- - -")][1..] == []; }
      assert Concat(["- - -"]) == "- - -" + Concat([]);
    }
    TotalWordsIsSumOverTexts(doc);
    HiDashesCounts();
    AnchorWordsIsSumOverAnchors(doc);
    assert Map(TextOf, [a]) == ["- - -"];
  }

  lemma HiDashesCounts()
    ensures SumRuns(IsWordChar, ["hi", "- - -"]) == 1
    ensures SumRuns(NotSpace, ["- - -"]) == 3
  {
    RunsOfBlock(IsWordChar, "hi");
    assert Runs(IsWordChar, "- - -") == 0;
    assert ["hi", "- - -"][1..] == ["- - -"];
    assert ["- - -"][1..] == [];
    DashesAreThreeTokens();
  }

  lemma DashesAreThreeTokens()
    ensures Runs(NotSpace, "- - -") == 3
  {
    var d := "- - -";
    assert d == "- -" + " " + "-";
    assert "- -" == "-" + " " + "-";
    RunsAppend(NotSpace, "-", " ");
    RunsAppend(NotSpace, "- ", "-");
    RunsAppend(NotSpace, "- -", " ");
    RunsAppend(NotSpace, "- - ", "-");
  }
}
