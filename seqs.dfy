/** Counting, filtering and summing over sequences: Python's `sum(1 for x in s if p(x))`,
    list comprehensions with an `if`, and `sum(...)`. */
module Seqs {

  /** `sum(1 for x in s if p(x))` */
  function CountIf<T>(p: T -> bool, s: seq<T>): (n: nat)
    ensures n <= |s|
    ensures n == 0 <==> forall i :: 0 <= i < |s| ==> !p(s[i])
  {
    if s == [] then 0
    else (if p(s[0]) then 1 else 0) + CountIf(p, s[1..])
  }

  /** `[x for x in s if p(x)]` */
  function Filter<T>(p: T -> bool, s: seq<T>): (r: seq<T>)
    ensures |r| == CountIf(p, s)
    ensures forall i :: 0 <= i < |r| ==> p(r[i]) && r[i] in s
  {
    if s == [] then []
    else (if p(s[0]) then [s[0]] else []) + Filter(p, s[1..])
  }

  /** `[f(x) for x in s]` */
  function Map<A, B>(f: A -> B, s: seq<A>): (r: seq<B>)
    ensures |r| == |s|
    ensures forall i :: 0 <= i < |s| ==> r[i] == f(s[i])
  {
    if s == [] then [] else [f(s[0])] + Map(f, s[1..])
  }

  /** Elements satisfying p and elements satisfying its negation make up the whole sequence. */
  lemma {:induction false} CountIfComplement<T>(p: T -> bool, q: T -> bool, s: seq<T>)
    requires forall x :: q(x) == !p(x)
    ensures CountIf(p, s) + CountIf(q, s) == |s|
  {
    if s != [] {
      CountIfComplement(p, q, s[1..]);
    }
  }

  /** If p implies q elementwise, fewer elements satisfy p than q. */
  lemma {:induction false} CountIfMonotone<T>(p: T -> bool, q: T -> bool, s: seq<T>)
    requires forall x :: p(x) ==> q(x)
    ensures CountIf(p, s) <= CountIf(q, s)
  {
    if s != [] {
      CountIfMonotone(p, q, s[1..]);
    }
  }

  /** Counting over the image of a map is counting the composed predicate. */
  lemma {:induction false} CountIfMap<A, B>(p: B -> bool, f: A -> B, q: A -> bool, s: seq<A>)
    requires forall x :: q(x) == p(f(x))
    ensures CountIf(p, Map(f, s)) == CountIf(q, s)
  {
    if s != [] {
      assert Map(f, s)[1..] == Map(f, s[1..]);
      CountIfMap(p, f, q, s[1..]);
    }
  }

  /** Mapping distributes over concatenation. */
  lemma {:induction false} MapAppend<A, B>(f: A -> B, a: seq<A>, b: seq<A>)
    ensures Map(f, a + b) == Map(f, a) + Map(f, b)
  {
    if a != [] {
      assert (a + b)[1..] == a[1..] + b;
      MapAppend(f, a[1..], b);
    }
  }
}
