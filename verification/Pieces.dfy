/** Non-overlapping occurrences of a text in another, and what the strings package does with them. */
module Pieces {
  import opened ByteText
  import opened Search

  // ----- the occurrences, left to right

  /** Occurrences from `from` on: the first one, then the first one after its end, and so on. */
  function Scan(s: bytes, sub: bytes, from: nat): (ps: seq<nat>)
    requires sub != [] && from <= |s|
    decreases |s| - from
  {
    var i := IndexFrom(s, sub, from);
    if i < 0 then [] else [i] + Scan(s, sub, i + |sub|)
  }

  /** Position j is inside the occurrence at p. */
  predicate Within(j: nat, p: nat, sub: bytes) {
    p <= j < p + |sub|
  }

  /** An occurrence starts at j, at or after `from`, and inside none of these. */
  ghost predicate Missed(s: bytes, sub: bytes, from: nat, ps: seq<nat>, j: nat) {
    from <= j && OccursAt(s, sub, j) && forall i | 0 <= i < |ps| :: !Within(j, ps[i], sub)
  }

  /** From `from` on: the positions are disjoint occurrences in order, and every occurrence starts inside one. */
  ghost predicate Claims(s: bytes, sub: bytes, from: nat, ps: seq<nat>) {
    && (forall i | 0 <= i < |ps| :: from <= ps[i] && OccursAt(s, sub, ps[i]))
    && (forall i, k | 0 <= i < k < |ps| :: ps[i] + |sub| <= ps[k])
    && (forall j: nat :: !Missed(s, sub, from, ps, j))
  }

  lemma {:induction false} ScanClaims(s: bytes, sub: bytes, from: nat)
    requires sub != [] && from <= |s|
    ensures Claims(s, sub, from, Scan(s, sub, from))
    decreases |s| - from
  {
    IndexFromMeaning(s, sub, from);
    var i := IndexFrom(s, sub, from);
    if i >= 0 {
      ScanClaims(s, sub, i + |sub|);
      ClaimsFirst(s, sub, from, i, Scan(s, sub, i + |sub|));
    }
  }

  lemma MissedStep(s: bytes, sub: bytes, from: nat, i: nat, rest: seq<nat>, j: nat)
    requires sub != [] && from <= i && NoneIn(s, sub, from, i)
    ensures Missed(s, sub, from, [i] + rest, j) <==> Missed(s, sub, i + |sub|, rest, j)
  {
    var ps := [i] + rest;
    forall k | 0 <= k < |rest| ensures rest[k] == ps[k + 1] { }
    assert Missed(s, sub, from, ps, j) ==> !Within(j, ps[0], sub);
    if Missed(s, sub, i + |sub|, rest, j) {
      forall k | 0 <= k < |ps| ensures !Within(j, ps[k], sub) {
        if k > 0 { assert !Within(j, rest[k - 1], sub); }
      }
    }
  }

  lemma ClaimsFirst(s: bytes, sub: bytes, from: nat, i: nat, rest: seq<nat>)
    requires sub != [] && from <= i && OccursAt(s, sub, i) && NoneIn(s, sub, from, i)
    requires Claims(s, sub, i + |sub|, rest)
    ensures Claims(s, sub, from, [i] + rest)
  {
    forall j: nat ensures !Missed(s, sub, from, [i] + rest, j) { MissedStep(s, sub, from, i, rest, j); }
  }

  lemma ClaimsRest(s: bytes, sub: bytes, from: nat, i: nat, ps: seq<nat>)
    requires sub != [] && from <= i && OccursAt(s, sub, i) && NoneIn(s, sub, from, i)
    requires Claims(s, sub, from, ps)
    ensures ps != [] && ps[0] == i && Claims(s, sub, i + |sub|, ps[1..])
  {
    assert !Missed(s, sub, from, ps, i);
    var k :| 0 <= k < |ps| && Within(i, ps[k], sub);
    assert OccursAt(s, sub, ps[k]) && OccursAt(s, sub, ps[0]) && ps[k] == i && ps[0] >= i;
    var next, rest := i + |sub|, ps[1..];
    assert ps == [i] + rest;
    forall j: nat ensures !Missed(s, sub, next, rest, j) { MissedStep(s, sub, from, i, rest, j); }
  }

  /** Nothing but the scan claims the occurrences. */
  lemma {:induction false} ScanIsUnique(s: bytes, sub: bytes, from: nat, ps: seq<nat>)
    requires sub != [] && from <= |s| && Claims(s, sub, from, ps)
    ensures ps == Scan(s, sub, from)
    decreases |s| - from
  {
    IndexFromMeaning(s, sub, from);
    var i := IndexFrom(s, sub, from);
    assert ps != [] ==> OccursAt(s, sub, ps[0]);
    if i >= 0 {
      ClaimsRest(s, sub, from, i, ps);
      ScanIsUnique(s, sub, i + |sub|, ps[1..]);
    }
  }

  // ----- Count, Split, Join and ReplaceAll

  /** strings.Count for a non-empty text: the non-overlapping occurrences. */
  function Count(s: bytes, sub: bytes): nat
    requires sub != []
  {
    |Scan(s, sub, 0)|
  }

  /** strings.Split for a non-empty separator. */
  function Split(s: bytes, sep: bytes): seq<bytes>
    requires sep != []
  {
    SplitFrom(s, sep, 0)
  }

  function SplitFrom(s: bytes, sep: bytes, from: nat): (ps: seq<bytes>)
    requires sep != [] && from <= |s|
    ensures ps != []
    decreases |s| - from
  {
    var i := IndexFrom(s, sep, from);
    if i < 0 then [s[from..]] else [s[from..i]] + SplitFrom(s, sep, i + |sep|)
  }

  /** strings.Join. */
  function Join(ps: seq<bytes>, sep: bytes): bytes {
    if ps == [] then [] else if |ps| == 1 then ps[0] else ps[0] + sep + Join(ps[1..], sep)
  }

  /** strings.ReplaceAll for a non-empty old text. */
  function ReplaceAll(s: bytes, was: bytes, now: bytes): bytes
    requires was != []
  {
    ReplaceFrom(s, was, now, 0)
  }

  function ReplaceFrom(s: bytes, was: bytes, now: bytes, from: nat): bytes
    requires was != [] && from <= |s|
    decreases |s| - from
  {
    var i := IndexFrom(s, was, from);
    if i < 0 then s[from..] else s[from..i] + now + ReplaceFrom(s, was, now, i + |was|)
  }

  lemma SplitAt(s: bytes, sub: bytes, from: nat, i: nat)
    requires from <= i && OccursAt(s, sub, i)
    ensures s[from..] == s[from..i] + sub + s[i + |sub|..]
  {
  }

  lemma {:induction false} JoinSplitFrom(s: bytes, sep: bytes, from: nat)
    requires sep != [] && from <= |s|
    ensures Join(SplitFrom(s, sep, from), sep) == s[from..]
    decreases |s| - from
  {
    IndexFromMeaning(s, sep, from);
    var i := IndexFrom(s, sep, from);
    if i >= 0 {
      JoinSplitFrom(s, sep, i + |sep|);
      SplitAt(s, sep, from, i);
      JoinFirst(s[from..i], SplitFrom(s, sep, i + |sep|), sep);
    }
  }

  lemma JoinFirst(p: bytes, ps: seq<bytes>, sep: bytes)
    requires ps != []
    ensures Join([p] + ps, sep) == p + sep + Join(ps, sep)
  {
    assert ([p] + ps)[1..] == ps;
  }

  /** Splitting and joining again changes nothing. */
  lemma JoinSplit(s: bytes, sep: bytes)
    requires sep != []
    ensures Join(Split(s, sep), sep) == s
  {
    JoinSplitFrom(s, sep, 0);
  }

  lemma {:induction false} ReplaceFromJoins(s: bytes, was: bytes, now: bytes, from: nat)
    requires was != [] && from <= |s|
    ensures ReplaceFrom(s, was, now, from) == Join(SplitFrom(s, was, from), now)
    decreases |s| - from
  {
    var i := IndexFrom(s, was, from);
    if i >= 0 {
      ReplaceFromJoins(s, was, now, i + |was|);
      JoinFirst(s[from..i], SplitFrom(s, was, i + |was|), now);
    }
  }

  lemma {:induction false} PiecesFrom(s: bytes, sep: bytes, from: nat)
    requires sep != [] && from <= |s|
    ensures |SplitFrom(s, sep, from)| == |Scan(s, sep, from)| + 1
    decreases |s| - from
  {
    var i := IndexFrom(s, sep, from);
    if i >= 0 { PiecesFrom(s, sep, i + |sep|); }
  }

  lemma {:induction false} ReplaceFromLength(s: bytes, was: bytes, now: bytes, from: nat)
    requires was != [] && from <= |s|
    ensures |ReplaceFrom(s, was, now, from)| == |s| - from + |Scan(s, was, from)| * (|now| - |was|)
    decreases |s| - from
  {
    var i := IndexFrom(s, was, from);
    if i >= 0 {
      ReplaceFromLength(s, was, now, i + |was|);
      OneMore(|Scan(s, was, i + |was|)|, |now| - |was|);
    }
  }

  lemma OneMore(n: int, d: int)
    ensures (1 + n) * d == d + n * d
  {
  }

  /** Looking in what is left of a text is looking from there on. */
  lemma IndexInRest(s: bytes, sub: bytes, from: nat)
    requires sub != [] && from <= |s|
    ensures Index(s[from..], sub) == if IndexFrom(s, sub, from) < 0 then -1 else IndexFrom(s, sub, from) - from
  {
    assert s[from..] == s[from..|s|];
    IndexMeaning(s[from..], sub);
    IndexFromMeaning(s, sub, from);
    var i, r := Index(s[from..], sub), IndexFrom(s, sub, from);
    if i >= 0 {
      OccursInSlice(s, from, |s|, sub, i);
      forall k: nat | from <= k < from + i ensures !OccursAt(s, sub, k) {
        OccursInSlice(s, from, |s|, sub, k - from);
        assert !OccursAt(s[from..], sub, k - from);
      }
      FirstIsIndexFrom(s, sub, from, from + i);
    }
    if r >= 0 { OccursInSlice(s, from, |s|, sub, r - from); }
  }

  // ----- lines

  const NEWLINE: byte := 10
  const NL: bytes := [NEWLINE]

  ghost predicate NoNewlines(ls: seq<bytes>) {
    forall i | 0 <= i < |ls| :: NEWLINE !in ls[i]
  }

  lemma {:induction false} SplitFromHasNone(s: bytes, from: nat)
    requires from <= |s|
    ensures NoNewlines(SplitFrom(s, NL, from))
    decreases |s| - from
  {
    IndexFromMeaning(s, NL, from);
    var i := IndexFrom(s, NL, from);
    if i >= 0 {
      SplitFromHasNone(s, i + 1);
      NoneBetween(s, from, i);
    } else {
      NoneBetween(s, from, |s|);
    }
  }

  lemma NoneBetween(s: bytes, from: nat, to: nat)
    requires from <= to <= |s| && NoneIn(s, NL, from, to)
    ensures NEWLINE !in s[from..to]
  {
    forall k | from <= k < to ensures s[k] != NEWLINE {
      assert !OccursAt(s, NL, k);
      assert s[k..k + 1] == [s[k]];
    }
  }

  lemma FirstNewline(pre: bytes, line: bytes, post: bytes)
    requires NEWLINE !in line
    ensures IndexFrom(pre + line + NL + post, NL, |pre|) == |pre + line|
    ensures IndexFrom(pre + line, NL, |pre|) == -1
  {
    var s, end := pre + line + NL + post, |pre + line|;
    forall i: nat | |pre| <= i < end ensures !OccursAt(s, NL, i) && !OccursAt(pre + line, NL, i) {
      assert s[i..i + 1] == [line[i - |pre|]] == (pre + line)[i..i + 1];
    }
    assert s[end..end + 1] == NL && OccursAt(s, NL, end);
    FirstIsIndexFrom(s, NL, |pre|, end);
    IndexFromMeaning(pre + line, NL, |pre|);
  }

  lemma {:induction false} SplitJoinFrom(pre: bytes, ls: seq<bytes>)
    requires ls != [] && NoNewlines(ls)
    ensures SplitFrom(pre + Join(ls, NL), NL, |pre|) == ls
    decreases |ls|
  {
    if |ls| == 1 {
      FirstNewline(pre, ls[0], []);
    } else {
      var rest := Join(ls[1..], NL);
      var s := pre + Join(ls, NL);
      assert s == pre + ls[0] + NL + rest && s == (pre + ls[0] + NL) + rest;
      SplitJoinFrom(pre + ls[0] + NL, ls[1..]);
      FirstNewline(pre, ls[0], rest);
      assert s[|pre|..|pre + ls[0]|] == ls[0];
    }
  }

  /** The lines of joined lines are those lines. */
  lemma SplitJoin(ls: seq<bytes>)
    requires ls != [] && NoNewlines(ls)
    ensures Split(Join(ls, NL), NL) == ls
  {
    SplitJoinFrom([], ls);
    assert [] + Join(ls, NL) == Join(ls, NL);
  }

  lemma {:induction false} JoinAppend(ps: seq<bytes>, qs: seq<bytes>, sep: bytes)
    requires ps != [] && qs != []
    ensures Join(ps + qs, sep) == Join(ps, sep) + sep + Join(qs, sep)
  {
    var rest := ps[1..];
    assert ps == [ps[0]] + rest && ps + qs == [ps[0]] + (rest + qs);
    JoinFirst(ps[0], rest + qs, sep);
    if rest == [] {
      assert rest + qs == qs;
    } else {
      JoinAppend(rest, qs, sep);
      JoinFirst(ps[0], rest, sep);
      Regrouped(ps[0], sep, Join(rest, sep), Join(qs, sep));
    }
  }

  lemma Regrouped(a: bytes, sep: bytes, b: bytes, c: bytes)
    ensures a + sep + (b + sep + c) == (a + sep + b) + sep + c
  {
  }

  /** The bytes of some lines, each with its newline. */
  function Width(ls: seq<bytes>): nat {
    if ls == [] then 0 else Width(ls[..|ls| - 1]) + |ls[|ls| - 1]| + 1
  }

  lemma {:induction false} JoinWidth(ls: seq<bytes>)
    requires ls != []
    ensures |Join(ls, NL)| + 1 == Width(ls)
  {
    var init, last := ls[..|ls| - 1], ls[|ls| - 1];
    assert ls == init + [last];
    if init != [] {
      JoinAppend(init, [last], NL);
      JoinWidth(init);
    } else {
      assert Width(init) == 0;
    }
  }
}
