/** Substring search over any sequence, as the strings package defines it. */
module Search {
  predicate OccursAt<T(==)>(s: seq<T>, sub: seq<T>, i: nat) {
    i + |sub| <= |s| && s[i..i + |sub|] == sub
  }

  ghost predicate Absent<T>(s: seq<T>, sub: seq<T>) {
    forall i: nat :: !OccursAt(s, sub, i)
  }

  /** No occurrence starts in from..to. */
  ghost predicate NoneIn<T>(s: seq<T>, sub: seq<T>, from: nat, to: nat) {
    forall i: nat | from <= i < to :: !OccursAt(s, sub, i)
  }

  /** strings.Index: the first occurrence, or -1. */
  function Index<T(==)>(s: seq<T>, sub: seq<T>): (r: int)
    ensures r >= -1 && (r >= 0 ==> r + |sub| <= |s|)
  {
    IndexFrom(s, sub, 0)
  }

  /** The first occurrence at or after `from`, or -1. */
  function IndexFrom<T(==)>(s: seq<T>, sub: seq<T>, from: nat): (r: int)
    ensures r >= -1 && (r >= 0 ==> from <= r && r + |sub| <= |s|)
    decreases |s| - from, 1
  {
    HereOrLater(s, sub, from)
  }

  function HereOrLater<T(==)>(s: seq<T>, sub: seq<T>, from: nat): (r: int)
    ensures r >= -1 && (r >= 0 ==> from <= r && r + |sub| <= |s|)
    decreases |s| - from, 0
  {
    if OccursAt(s, sub, from) then from
    else if from >= |s| then -1
    else IndexFrom(s, sub, from + 1)
  }

  lemma {:induction false} IndexFromMeaning<T>(s: seq<T>, sub: seq<T>, from: nat)
    ensures var r := IndexFrom(s, sub, from);
      if r < 0 then forall i: nat | from <= i :: !OccursAt(s, sub, i)
      else OccursAt(s, sub, r) && NoneIn(s, sub, from, r)
    decreases |s| - from
  {
    assert IndexFrom(s, sub, from) == HereOrLater(s, sub, from);
    if !OccursAt(s, sub, from) && from < |s| { IndexFromMeaning(s, sub, from + 1); }
  }

  lemma IndexMeaning<T>(s: seq<T>, sub: seq<T>)
    ensures var r := Index(s, sub); if r < 0 then Absent(s, sub) else OccursAt(s, sub, r) && NoneIn(s, sub, 0, r)
  {
    IndexFromMeaning(s, sub, 0);
  }

  /** The first occurrence is what Index finds. */
  lemma FirstIsIndexFrom<T>(s: seq<T>, sub: seq<T>, from: nat, i: nat)
    requires from <= i && OccursAt(s, sub, i) && NoneIn(s, sub, from, i)
    ensures IndexFrom(s, sub, from) == i
  {
    IndexFromMeaning(s, sub, from);
  }

  lemma SliceOfSlice<T>(s: seq<T>, i: nat, j: nat, a: nat, b: nat)
    requires i <= j <= |s| && a <= b <= j - i
    ensures s[i..j][a..b] == s[i + a..i + b]
  {
    var p, q := s[i..j][a..b], s[i + a..i + b];
    assert |p| == |q| && forall x | 0 <= x < |p| :: p[x] == s[i + a + x] == q[x];
  }

  lemma OccursInSlice<T>(s: seq<T>, i: nat, j: nat, sub: seq<T>, k: nat)
    requires i <= j <= |s|
    ensures OccursAt(s[i..j], sub, k) <==> i + k + |sub| <= j && OccursAt(s, sub, i + k)
  {
    if k + |sub| <= j - i {
      SliceOfSlice(s, i, j, k, k + |sub|);
    }
  }
}
