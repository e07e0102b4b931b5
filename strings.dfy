/** The string operations the audit relies on: Python's `str.isspace`, `str.split()` counted,
    `str.strip`, `str.startswith`, `" ".join`, ASCII `str.lower` and the `\w` word runs
    found by `re.findall(r"\b\w+\b", ...)`. Strings are sequences of Unicode scalar values,
    as Python's `str` is, so `len` is `|s|`. */
module Strings {

  /** Python's `str.isspace()` on one character: the characters `str.split()` and
      `str.strip()` (without an argument) treat as whitespace. */
  predicate IsSpace(c: char) {
    var n := c as int;
    (9 <= n <= 13) || (28 <= n <= 32) || n == 0x85 || n == 0xA0 || n == 0x1680
    || (0x2000 <= n <= 0x200A) || n == 0x2028 || n == 0x2029 || n == 0x202F
    || n == 0x205F || n == 0x3000
  }

  predicate NotSpace(c: char) { !IsSpace(c) }

  /** The regular-expression class `\w`, restricted to ASCII: letters, digits and `_`. */
  predicate IsWordChar(c: char) {
    ('a' <= c <= 'z') || ('A' <= c <= 'Z') || ('0' <= c <= '9') || c == '_'
  }

  predicate IsSlash(c: char) { c == '/' }

  /** Number of maximal runs of characters satisfying p; each run is counted at its last
      character. */
  function Runs(p: char -> bool, s: string): (n: nat)
    ensures n <= |s|
    ensures n == 0 <==> forall i :: 0 <= i < |s| ==> !p(s[i])
  {
    if s == [] then 0
    else if p(s[0]) && (|s| == 1 || !p(s[1])) then 1 + Runs(p, s[1..])
    else Runs(p, s[1..])
  }

  /** `len(s.split())`: the number of whitespace-separated tokens. */
  function SplitCount(s: string): nat { Runs(NotSpace, s) }

  /** `len(re.findall(r"\b\w+\b", s))`: a match of `\b\w+\b` is exactly a maximal run of
      word characters. */
  function WordRuns(s: string): nat { Runs(IsWordChar, s) }

  /** Number of leading characters satisfying p. */
  function LeadCount(p: char -> bool, s: string): (n: nat)
    ensures n <= |s|
    ensures forall i :: 0 <= i < n ==> p(s[i])
    ensures n < |s| ==> !p(s[n])
  {
    if s == [] || !p(s[0]) then 0 else 1 + LeadCount(p, s[1..])
  }

  /** Number of trailing characters satisfying p. */
  function TrailCount(p: char -> bool, s: string): (n: nat)
    ensures n <= |s|
    ensures forall i :: |s| - n <= i < |s| ==> p(s[i])
    ensures n < |s| ==> !p(s[|s| - 1 - n])
  {
    if s == [] || !p(s[|s| - 1]) then 0 else 1 + TrailCount(p, s[..|s| - 1])
  }

  /** `s.strip(chars)` where p tells the stripped characters: drop the leading, then the
      trailing characters satisfying p. */
  function StripBy(p: char -> bool, s: string): (r: string)
    ensures |r| <= |s|
    ensures r == [] || (!p(r[0]) && !p(r[|r| - 1]))
    ensures r == [] <==> forall i :: 0 <= i < |s| ==> p(s[i])
  {
    var t := s[LeadCount(p, s)..];
    t[..|t| - TrailCount(p, t)]
  }

  /** `s.strip()` */
  function Strip(s: string): string { StripBy(IsSpace, s) }

  /** `s.startswith(prefix)` */
  predicate StartsWith(s: string, prefix: string) {
    |prefix| <= |s| && s[..|prefix|] == prefix
  }

  /** `" ".join(parts)` */
  function JoinSpace(parts: seq<string>): string {
    if parts == [] then []
    else if |parts| == 1 then parts[0]
    else parts[0] + " " + JoinSpace(parts[1..])
  }

  /** `str.lower()` on one character, for the ASCII letters. */
  function LowerChar(c: char): char {
    if 'A' <= c <= 'Z' then (c as int + 32) as char else c
  }

  /** `s.lower()`, for the ASCII letters. */
  function Lower(s: string): (r: string)
    ensures |r| == |s|
    ensures forall i :: 0 <= i < |s| ==> r[i] == LowerChar(s[i])
  {
    if s == [] then [] else [LowerChar(s[0])] + Lower(s[1..])
  }

  /** Sum of the run counts of several strings. */
  function SumRuns(p: char -> bool, parts: seq<string>): nat {
    if parts == [] then 0 else Runs(p, parts[0]) + SumRuns(p, parts[1..])
  }

  lemma {:induction false} SumRunsAppend(p: char -> bool, a: seq<string>, b: seq<string>)
    ensures SumRuns(p, a + b) == SumRuns(p, a) + SumRuns(p, b)
  {
    if a == [] {
      assert a + b == b;
    } else {
      assert (a + b)[1..] == a[1..] + b;
      SumRunsAppend(p, a[1..], b);
    }
  }

  /** Runs do not join across a boundary where one side is not in the class. */
  lemma {:induction false} RunsAppend(p: char -> bool, a: string, b: string)
    requires a == [] || b == [] || !p(a[|a| - 1]) || !p(b[0])
    ensures Runs(p, a + b) == Runs(p, a) + Runs(p, b)
  {
    if a == [] {
      assert a + b == b;
    } else if |a| == 1 {
      assert (a + b)[1..] == b;
    } else {
      assert (a + b)[1..] == a[1..] + b;
      RunsAppend(p, a[1..], b);
    }
  }

  /** A non-empty string entirely in the class is one run. */
  lemma {:induction false} RunsOfBlock(p: char -> bool, s: string)
    requires s != [] && forall i :: 0 <= i < |s| ==> p(s[i])
    ensures Runs(p, s) == 1
  {
    if |s| > 1 {
      RunsOfBlock(p, s[1..]);
    }
  }

  /** Joining with single spaces neither creates nor merges runs of a class without the space. */
  lemma {:induction false} RunsJoinSpace(p: char -> bool, parts: seq<string>)
    requires !p(' ')
    ensures Runs(p, JoinSpace(parts)) == SumRuns(p, parts)
  {
    if |parts| > 1 {
      RunsJoinSpace(p, parts[1..]);
      RunsAppend(p, parts[0], " ");
      RunsAppend(p, parts[0] + " ", JoinSpace(parts[1..]));
    }
  }

  /** `StripBy(p, s)` is the slice of s between a prefix and a suffix made of p-characters. */
  lemma StripBySlice(p: char -> bool, s: string) returns (i: nat, j: nat)
    ensures i <= j <= |s| && StripBy(p, s) == s[i..j]
    ensures forall k :: 0 <= k < i ==> p(s[k])
    ensures forall k :: j <= k < |s| ==> p(s[k])
  {
    i := LeadCount(p, s);
    var t := s[i..];
    var n := TrailCount(p, t);
    j := i + |t| - n;
    assert StripBy(p, s) == t[..|t| - n];
    assert t[..|t| - n] == s[i..j];
    forall k | j <= k < |s|
      ensures p(s[k])
    {
      assert s[k] == t[k - i];
    }
  }

  /** Stripping characters outside the class keeps every run. */
  lemma RunsStrip(q: char -> bool, p: char -> bool, s: string)
    requires forall c :: p(c) ==> !q(c)
    ensures Runs(q, StripBy(p, s)) == Runs(q, s)
  {
    var i, j := StripBySlice(p, s);
    var lead, mid, trail := s[..i], s[i..j], s[j..];
    assert s == lead + (mid + trail);
    forall k | 0 <= k < |lead|
      ensures !q(lead[k])
    {
      assert p(s[k]);
    }
    forall k | 0 <= k < |trail|
      ensures !q(trail[k])
    {
      assert p(s[j + k]);
    }
    assert Runs(q, lead) == 0 && Runs(q, trail) == 0;
    RunsAppend(q, mid, trail);
    RunsAppend(q, lead, mid + trail);
    assert Runs(q, lead + (mid + trail)) == Runs(q, mid);
  }

  /** `str.lower()` maps word characters to word characters and the rest to the rest, so the
      `\w` run count of the lowered text is that of the text. */
  lemma {:induction false} WordRunsLower(s: string)
    ensures WordRuns(Lower(s)) == WordRuns(s)
  {
    if s != [] {
      assert Lower(s)[1..] == Lower(s[1..]);
      WordRunsLower(s[1..]);
    }
  }

  /** `s.split()` is empty exactly when `s.strip()` is. */
  lemma SplitCountZeroIffBlank(s: string)
    ensures SplitCount(s) == 0 <==> Strip(s) == []
  {
  }

  /** The `"https"` alternative of `startswith(("http", "https"))` adds nothing. */
  lemma HttpsStartsWithHttp(s: string)
    ensures StartsWith(s, "https") ==> StartsWith(s, "http")
  {
    if StartsWith(s, "https") {
      assert s[..4] == s[..5][..4];
    }
  }
}
