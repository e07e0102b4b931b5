/** The title and meta-description sections: the text of the first matching element and its
    length, token count, characters per token and the number of matching elements. */
module TagText {
  import opened Wrappers
  import opened Strings
  import opened Dom

  /** The shared shape of the "title" and "meta_description" sections; the source calls the
      last field "tag number" in one and "number" in the other. `charPerWord` is exact. */
  datatype TextReport = TextReport(
    found: bool, data: string, length: nat, characters: nat, words: nat,
    charPerWord: real, number: nat)

  /** `len(data) / len(data.split())`, exactly. */
  function Ratio(length: nat, words: nat): (q: real)
    requires words > 0
    ensures q * (words as real) == length as real
    ensures words <= length ==> q >= 1.0
  {
    (length as real) / (words as real)
  }

  /** The fields both sections derive from their text. */
  function Stats(found: bool, data: string, number: nat): (r: TextReport)
    ensures r.found == found && r.data == data && r.number == number
    ensures r.length == r.characters == |data|
    ensures r.words == SplitCount(data)
    ensures r.words == 0 <==> forall i :: 0 <= i < |data| ==> IsSpace(data[i])
    ensures r.words == 0 ==> r.charPerWord == 0.0
    ensures r.words > 0 ==> r.charPerWord * (r.words as real) == r.length as real
    ensures r.words > 0 ==> r.charPerWord >= 1.0
  {
    var words := if data != [] then SplitCount(data) else 0;
    var perWord := if data != [] && SplitCount(data) > 0 then Ratio(|data|, SplitCount(data)) else 0.0;
    TextReport(found, data, |data|, |data|, words, perWord, number)
  }

  const TitleQuery := Named("title")

  const DescriptionQuery := WithAttr("meta", "name", "description")

  /** The "title" section. The first `title` element's `.string` is its data; an element
      whose `.string` is None (no child, or several) makes `len` raise. */
  function TitleSection(doc: Document): (r: Result<TextReport, Fault>)
    ensures r.Err? <==> Find(doc, TitleQuery).Some? && StringOf(Find(doc, TitleQuery).value).None?
    ensures r.Ok? ==> r.value.number == Count(doc, TitleQuery)
    ensures r.Ok? ==> (r.value.found <==> r.value.number >= 1)
    ensures r.Ok? && r.value.found ==> Some(r.value.data) == StringOf(FindAll(doc, TitleQuery)[0])
    ensures r.Ok? && !r.value.found ==>
      r.value.data == [] && r.value.length == 0 && r.value.words == 0 && r.value.charPerWord == 0.0
    ensures r.Ok? ==> r.value == Stats(r.value.found, r.value.data, r.value.number)
  {
    FindIsFirstOfFindAll(doc, TitleQuery);
    var tag := Find(doc, TitleQuery);
    if tag.None? then Ok(Stats(false, [], Count(doc, TitleQuery)))
    else match StringOf(tag.value)
      case None => Err(NoneHasNoLength("title"))
      case Some(data) => Ok(Stats(true, data, Count(doc, TitleQuery)))
  }

  /** The "meta_description" section. The first `meta name="description"` element's
      `content` is its data; such an element without `content` makes the subscript raise. */
  function DescriptionSection(doc: Document): (r: Result<TextReport, Fault>)
    ensures r.Err? <==> Find(doc, DescriptionQuery).Some? && "content" !in Find(doc, DescriptionQuery).value.attrs
    ensures r.Ok? ==> r.value.number == Count(doc, DescriptionQuery)
    ensures r.Ok? ==> (r.value.found <==> r.value.number >= 1)
    ensures r.Ok? && r.value.found ==>
      var tag := FindAll(doc, DescriptionQuery)[0];
      "content" in tag.attrs && r.value.data == tag.attrs["content"]
    ensures r.Ok? && !r.value.found ==>
      r.value.data == [] && r.value.length == 0 && r.value.words == 0 && r.value.charPerWord == 0.0
    ensures r.Ok? ==> r.value == Stats(r.value.found, r.value.data, r.value.number)
  {
    FindIsFirstOfFindAll(doc, DescriptionQuery);
    var tag := Find(doc, DescriptionQuery);
    if tag.None? then Ok(Stats(false, [], Count(doc, DescriptionQuery)))
    else if "content" !in tag.value.attrs then Err(KeyError("content"))
    else Ok(Stats(true, tag.value.attrs["content"], Count(doc, DescriptionQuery)))
  }

  lemma HelloWorldHasTwoTokens()
    ensures SplitCount("Hello World") == 2
  {
    var hello, world := "Hello", "World";
    assert "Hello World" == hello + " " + world;
    RunsOfBlock(NotSpace, hello);
    RunsOfBlock(NotSpace, world);
    RunsAppend(NotSpace, hello, " ");
    RunsAppend(NotSpace, hello + " ", world);
  }

  /** A page whose only title is `<title>Hello World</title>`: found, 11 characters, two
      words, 5.5 characters per word. */
  lemma HelloWorldTitle()
    ensures var r := TitleSection([Element("title", map[], [], [Text("Hello World")])]);
      r.Ok? && r.value.found && r.value.length == 11 && r.value.words == 2
      && r.value.charPerWord == 5.5 && r.value.number == 1
  {
    var s := "Hello World";
    var title := Element("title", map[], [], [Text(s)]);
    var doc := [title];
    assert Elements([Text(s)]) == [] by {
      assert [Text(s)][1..] == [];
    }
    assert Elements(doc) == doc by {
      assert doc[1..] == [];
      assert Elements(doc) == [title] + Elements([Text(s)]) + Elements([]);
    }
    assert Find(doc, TitleQuery) == Some(title);
    assert Count(doc, TitleQuery) == 1 by {
      assert FindAll(doc, TitleQuery) == [title] + Select([], TitleQuery);
    }
    assert StringOf(title) == Some(s);
    HelloWorldHasTwoTokens();
    assert TitleSection(doc) == Ok(Stats(true, s, 1));
  }

  /** With two description elements the count is two and the data is the first one's. */
  lemma TwoDescriptions(first: string, second: string)
    ensures var doc := [
        Element("meta", map["name" := "description", "content" := first], [], []),
        Element("meta", map["name" := "description", "content" := second], [], [])];
      var r := DescriptionSection(doc);
      r.Ok? && r.value.number == 2 && r.value.data == first
  {
    var a := Element("meta", map["name" := "description", "content" := first], [], []);
    var b := Element("meta", map["name" := "description", "content" := second], [], []);
    var doc := [a, b];
    assert Elements(doc) == doc by {
      assert doc[1..] == [b];
      assert Elements([b]) == [b] + Elements([]) + Elements([]);
      assert Elements(doc) == [a] + Elements([]) + Elements([b]);
    }
    assert FindAll(doc, DescriptionQuery) == doc by {
      assert Select([b], DescriptionQuery) == [b] + Select([], DescriptionQuery);
      assert Select(doc, DescriptionQuery) == [a] + Select([b], DescriptionQuery);
    }
  }
}
