/** The parsed document the audit reads, in place of BeautifulSoup's tree: text and element
    nodes, the preorder walk that `find` and `find_all` search, and the `.text`, `.string`
    and `.get` accessors. */
module Dom {
  import opened Wrappers
  import opened Strings

  /** A node of the parsed page. `attrs` holds the single-valued attributes; `rel` holds the
      whitespace-separated tokens of the multi-valued `rel` attribute (empty when absent). */
  datatype Node =
    | Text(value: string)
    | Element(name: string, attrs: map<string, string>, rel: seq<string>, children: seq<Node>)

  /** The top-level nodes of the parsed page (the children of the soup object). */
  type Document = seq<Node>

  /** The element nodes of ns and all their descendants, in document order (preorder). */
  function Elements(ns: seq<Node>): (r: seq<Node>)
    ensures forall i :: 0 <= i < |r| ==> r[i].Element?
    decreases ns
  {
    if ns == [] then []
    else
      var head := match ns[0]
        case Text(_) => []
        case Element(_, _, _, cs) => [ns[0]] + Elements(cs);
      head + Elements(ns[1..])
  }

  /** The strings of all text nodes of ns and their descendants, in document order. */
  function Texts(ns: seq<Node>): seq<string>
    decreases ns
  {
    if ns == [] then []
    else
      var head := match ns[0]
        case Text(v) => [v]
        case Element(_, _, _, cs) => Texts(cs);
      head + Texts(ns[1..])
  }

  function Concat(parts: seq<string>): string {
    if parts == [] then [] else parts[0] + Concat(parts[1..])
  }

  /** `node.text`: the concatenation of every string below the node. */
  function TextOf(n: Node): string {
    match n
    case Text(v) => v
    case Element(_, _, _, cs) => Concat(Texts(cs))
  }

  /** `node.string`: the one string of a node with exactly one child, looked for through
      single-child elements; None for an element with zero or several children. */
  function StringOf(n: Node): Option<string> {
    match n
    case Text(v) => Some(v)
    case Element(_, _, _, cs) => if |cs| != 1 then None else StringOf(cs[0])
  }

  /** The exceptions the extraction code can raise on the tree: `KeyError` from `tag[attr]` on
      an absent attribute, and `TypeError` from `len(None)` when a `.string` is None. */
  datatype Fault = KeyError(attr: string) | NoneHasNoLength(tag: string)

  /** `tag.get(attr)` */
  function Attr(n: Node, attr: string): Option<string> {
    if n.Element? && attr in n.attrs then Some(n.attrs[attr]) else None
  }

  /** `tag.get(attr, default)` */
  function AttrOr(n: Node, attr: string, default: string): string {
    match Attr(n, attr)
    case Some(v) => v
    case None => default
  }

  /** The searches the audit makes: `find_all(tag)`, `find_all(tag, {attr: value})`,
      `find_all(tag, {attr: True})` and `find_all(tag, {"rel": value})`. */
  datatype Query =
    | Named(tag: string)
    | WithAttr(tag: string, attr: string, value: string)
    | HasAttr(tag: string, attr: string)
    | WithRel(tag: string, value: string)

  /** `find_all('a')`, shared by the word count and the links sections. */
  const AnchorQuery := Named("a")

  /** A `rel` token list matches a value when one token is the value or when the tokens
      joined by single spaces are the value. */
  predicate RelMatches(rel: seq<string>, value: string) {
    value in rel || JoinSpace(rel) == value
  }

  predicate Matches(n: Node, q: Query) {
    && n.Element?
    && n.name == q.tag
    && match q
       case Named(_) => true
       case WithAttr(_, a, v) => a in n.attrs && n.attrs[a] == v
       case HasAttr(_, a) => a in n.attrs
       case WithRel(_, v) => RelMatches(n.rel, v)
  }

  /** The elements of es that match q, in order. */
  function Select(es: seq<Node>, q: Query): (r: seq<Node>)
    ensures |r| <= |es|
    ensures forall i :: 0 <= i < |r| ==> Matches(r[i], q) && r[i] in es
    ensures forall n :: n in es && Matches(n, q) ==> n in r
  {
    if es == [] then []
    else (if Matches(es[0], q) then [es[0]] else []) + Select(es[1..], q)
  }

  /** The first element of es that matches q. */
  function FirstMatch(es: seq<Node>, q: Query): (r: Option<Node>)
    ensures r.Some? ==> Matches(r.value, q) && r.value in es
    ensures r.None? <==> forall i :: 0 <= i < |es| ==> !Matches(es[i], q)
  {
    if es == [] then None
    else if Matches(es[0], q) then Some(es[0])
    else FirstMatch(es[1..], q)
  }

  /** `soup.find_all(...)` */
  function FindAll(doc: Document, q: Query): seq<Node> {
    Select(Elements(doc), q)
  }

  /** `soup.find(...)` */
  function Find(doc: Document, q: Query): Option<Node> {
    FirstMatch(Elements(doc), q)
  }

  /** `len(soup.find_all(...))` */
  function Count(doc: Document, q: Query): nat {
    |FindAll(doc, q)|
  }

  /** The element a search stops at is the first of those the full search lists. */
  lemma {:induction false} FirstMatchIsFirstSelected(es: seq<Node>, q: Query)
    ensures FirstMatch(es, q) == if Select(es, q) == [] then None else Some(Select(es, q)[0])
  {
    if es != [] && !Matches(es[0], q) {
      FirstMatchIsFirstSelected(es[1..], q);
    }
  }

  /** `find` is `find_all(...)[0]`, or None when that is empty; in particular it finds
      something exactly when the count is at least one. */
  lemma FindIsFirstOfFindAll(doc: Document, q: Query)
    ensures Find(doc, q) == if FindAll(doc, q) == [] then None else Some(FindAll(doc, q)[0])
    ensures Find(doc, q).Some? <==> Count(doc, q) >= 1
  {
    FirstMatchIsFirstSelected(Elements(doc), q);
  }

  /** When `.string` is present it is the node's `.text`. */
  lemma {:induction false} StringIsText(n: Node)
    ensures StringOf(n).Some? ==> StringOf(n).value == TextOf(n)
  {
    match n
    case Text(_) =>
    case Element(_, _, _, cs) =>
      if |cs| == 1 {
        StringIsText(cs[0]);
        assert cs[1..] == [];
        match cs[0]
        case Text(v) =>
          assert Concat(Texts(cs)) == v + Concat([]);
        case Element(_, _, _, gs) =>
          assert Texts(cs) == Texts(gs) + Texts([]) == Texts(gs);
      }
  }

  /** An element with no children has no `.string`: `<title></title>` gives None. */
  lemma EmptyElementHasNoString(name: string, attrs: map<string, string>, rel: seq<string>)
    ensures StringOf(Element(name, attrs, rel, [])) == None
  {
  }

  /** A well-formed `rel` token list: no token is empty or holds whitespace. */
  predicate WellFormedRel(rel: seq<string>) {
    forall i :: 0 <= i < |rel| ==> rel[i] != [] && forall k :: 0 <= k < |rel[i]| ==> !IsSpace(rel[i][k])
  }

  /** Every element's `rel` tokens are well-formed, as the parser's whitespace split makes them. */
  predicate WellFormed(doc: Document) {
    var es := Elements(doc);
    forall i :: 0 <= i < |es| ==> WellFormedRel(es[i].rel)
  }
}
