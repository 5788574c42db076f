/** A batch of exact-string replacements in a file, in order and all or nothing. */
module EditTool {
  import opened ByteText
  import opened Search
  import opened Pieces

  datatype Edit = Edit(was: bytes, now: bytes, all: bool)

  datatype Applied = Applied(line: nat, count: nat, was: bytes, now: bytes, all: bool)

  datatype Failure = Empty | Identical | NotFound | Ambiguous(count: nat, lines: seq<nat>)

  /** What one edit comes to. */
  datatype Change = Changed(text: bytes, record: Applied) | Refused(why: Failure)

  /** What a batch comes to; `at` is the index of the edit that failed. */
  datatype Batch = Done(text: bytes, applied: seq<Applied>) | Failed(at: nat, why: Failure)

  /** The 1-based line a byte offset is on. */
  function LineOf(src: bytes, idx: int): nat
    requires idx <= |src|
  {
    if idx < 0 then 0 else 1 + Count(src[..idx], NL)
  }

  /** The lines on which the occurrences from `from` on start. */
  function HitLines(src: bytes, sub: bytes, from: nat): seq<nat>
    requires sub != [] && from <= |src|
    decreases |src| - from
  {
    var i := IndexFrom(src, sub, from);
    if i < 0 then [] else [LineOf(src, i)] + HitLines(src, sub, i + |sub|)
  }

  /** They are the lines of the occurrences that are counted and replaced. */
  lemma {:induction false} HitLinesOfScan(src: bytes, sub: bytes, from: nat)
    requires sub != [] && from <= |src|
    ensures var ps, lines := Scan(src, sub, from), HitLines(src, sub, from);
      |lines| == |ps| && forall k | 0 <= k < |ps| :: ps[k] <= |src| && lines[k] == LineOf(src, ps[k])
    decreases |src| - from
  {
    var i := IndexFrom(src, sub, from);
    if i >= 0 { HitLinesOfScan(src, sub, i + |sub|); }
  }

  /** The loop that looks on from the end of each match reports exactly the occurrences that are counted. */
  method LineHits(src: bytes, sub: bytes) returns (lines: seq<nat>)
    ensures lines == if sub == [] then [] else HitLines(src, sub, 0)
  {
    if sub == [] { return []; }
    lines := [];
    var off := 0;
    while true
      invariant 0 <= off <= |src|
      invariant HitLines(src, sub, 0) == lines + HitLines(src, sub, off)
      decreases |src| - off
    {
      var rel := Index(src[off..], sub);
      IndexInRest(src, sub, off);
      if rel < 0 { break; }
      var pos := off + rel;
      var line := LineOf(src, pos);
      Associate(lines, [line], HitLines(src, sub, pos + |sub|));
      lines := lines + [line];
      off := pos + |sub|;
    }
  }

  // ----- one edit

  function EditOne(src: bytes, e: Edit): Change {
    if e.was == [] then Refused(Empty)
    else if e.was == e.now then Refused(Identical)
    else
      var n := Count(src, e.was);
      if n == 0 then Refused(NotFound)
      else if n > 1 && !e.all then Refused(Ambiguous(n, HitLines(src, e.was, 0)))
      else Changed(ReplaceAll(src, e.was, e.now), Applied(LineOf(src, Index(src, e.was)), n, e.was, e.now, e.all))
  }

  /** Replacing the only match is replacing all of them. */
  lemma OnlyMatch(src: bytes, was: bytes, now: bytes)
    requires was != [] && Count(src, was) == 1
    ensures var p := Index(src, was);
      p >= 0 && Scan(src, was, 0) == [p] && ReplaceAll(src, was, now) == src[..p] + now + src[p + |was|..]
  {
    var p := Index(src, was);
    assert Scan(src, was, 0) == [p] + Scan(src, was, p + |was|);
    assert ReplaceAll(src, was, now) == src[0..p] + now + ReplaceFrom(src, was, now, p + |was|);
  }

  /** A text occurs once in the scan exactly when some occurrence overlaps every other from the left. */
  lemma CountedOnce(src: bytes, was: bytes)
    requires was != []
    ensures Count(src, was) == 1
      <==> exists p: nat :: OccursAt(src, was, p) && forall j: nat | OccursAt(src, was, j) :: Within(j, p, was)
  {
    ScanClaims(src, was, 0);
    var ps := Scan(src, was, 0);
    if |ps| == 1 {
      var p := ps[0];
      forall j: nat | OccursAt(src, was, j) ensures Within(j, p, was) { assert !Missed(src, was, 0, ps, j); }
      assert OccursAt(src, was, p);
    }
    if p: nat :| OccursAt(src, was, p) && forall j: nat | OccursAt(src, was, j) :: Within(j, p, was) {
      forall j: nat ensures !Missed(src, was, 0, [p], j) { assert [p][0] == p; }
      ScanIsUnique(src, was, 0, [p]);
    }
  }

  /** A single edit is accepted exactly when its text is there once, up to overlap. It then changes
      only that match, and any other place the text occurs at overlaps it. */
  lemma SingleEdit(src: bytes, e: Edit)
    requires !e.all && e.was != [] && e.was != e.now
    ensures EditOne(src, e).Changed?
      <==> exists p: nat :: OccursAt(src, e.was, p) && forall j: nat | OccursAt(src, e.was, j) :: Within(j, p, e.was)
    ensures EditOne(src, e).Changed? ==>
      exists p: nat :: OccursAt(src, e.was, p) && EditOne(src, e).text == src[..p] + e.now + src[p + |e.was|..]
                       && EditOne(src, e).record == Applied(LineOf(src, p), 1, e.was, e.now, false)
                       && forall j: nat | OccursAt(src, e.was, j) :: Within(j, p, e.was)
  {
    CountedOnce(src, e.was);
    if Count(src, e.was) == 1 {
      OnlyMatch(src, e.was, e.now);
      ScanClaims(src, e.was, 0);
      var ps := Scan(src, e.was, 0);
      var p := ps[0];
      forall j: nat | OccursAt(src, e.was, j) ensures Within(j, p, e.was) { assert !Missed(src, e.was, 0, ps, j); }
      assert OccursAt(src, e.was, p);
    }
  }

  /** The text occurs in two places that do not overlap. */
  ghost predicate TwoApart(src: bytes, was: bytes) {
    exists i: nat, j: nat :: OccursAt(src, was, i) && OccursAt(src, was, j) && i + |was| <= j
  }

  /** The scan has none, or two and more, exactly when the text occurs nowhere, or in two places apart. */
  lemma CountsOccurrences(src: bytes, was: bytes)
    requires was != []
    ensures Count(src, was) == 0 <==> Absent(src, was)
    ensures Count(src, was) >= 2 <==> TwoApart(src, was)
  {
    ScanClaims(src, was, 0);
    var ps := Scan(src, was, 0);
    if |ps| == 0 {
      forall i: nat ensures !OccursAt(src, was, i) { assert !Missed(src, was, 0, ps, i); }
    } else {
      assert OccursAt(src, was, ps[0]);
    }
    if |ps| >= 2 { assert OccursAt(src, was, ps[1]); }
    if i: nat, j: nat :| OccursAt(src, was, i) && OccursAt(src, was, j) && i + |was| <= j {
      assert !Missed(src, was, 0, ps, i) && !Missed(src, was, 0, ps, j);
      assert exists k | 0 <= k < |ps| :: Within(i, ps[k], was);
    }
  }

  /** These are the lines on which the disjoint occurrences that cover all others start. */
  ghost predicate LinesOfAll(src: bytes, was: bytes, lines: seq<nat>) {
    exists ps: seq<nat> ::
      && Claims(src, was, 0, ps) && |lines| == |ps|
      && forall k | 0 <= k < |ps| :: ps[k] <= |src| && lines[k] == LineOf(src, ps[k])
  }

  /** Why an edit is refused, told by where its old text occurs: it is empty, or the new text again, or
      occurs nowhere, or, when only one place was meant, occurs in two apart. The last reason counts
      the occurrences and lists their lines. */
  lemma RefusedExactly(src: bytes, e: Edit)
    ensures EditOne(src, e) == Refused(Empty) <==> e.was == []
    ensures EditOne(src, e) == Refused(Identical) <==> e.was != [] && e.was == e.now
    ensures EditOne(src, e) == Refused(NotFound) <==> e.was != [] && e.was != e.now && Absent(src, e.was)
    ensures (EditOne(src, e).Refused? && EditOne(src, e).why.Ambiguous?)
      <==> e.was != [] && e.was != e.now && !e.all && TwoApart(src, e.was)
    ensures EditOne(src, e).Refused? && EditOne(src, e).why.Ambiguous? ==>
      && EditOne(src, e).why.count == |EditOne(src, e).why.lines|
      && LinesOfAll(src, e.was, EditOne(src, e).why.lines)
  {
    if e.was != [] && e.was != e.now {
      CountsOccurrences(src, e.was);
      ScanClaims(src, e.was, 0);
      HitLinesOfScan(src, e.was, 0);
    }
  }

  /** So an edit of every occurrence is accepted exactly when there is one; its record has the line of
      the first and counts the disjoint ones that cover all others. */
  lemma ReplaceAllExactly(src: bytes, e: Edit)
    requires e.all && e.was != [] && e.was != e.now
    ensures EditOne(src, e).Changed? <==> exists p: nat :: OccursAt(src, e.was, p)
    ensures EditOne(src, e).Changed? ==>
      exists ps: seq<nat> ::
        && Claims(src, e.was, 0, ps) && |ps| >= 1 && ps[0] <= |src|
        && EditOne(src, e).record == Applied(LineOf(src, ps[0]), |ps|, e.was, e.now, true)
  {
    CountsOccurrences(src, e.was);
    ScanClaims(src, e.was, 0);
    if EditOne(src, e).Changed? {
      var ps := Scan(src, e.was, 0);
      assert ps[0] == Index(src, e.was);
    }
  }

  /** An accepted edit joins the pieces between the old texts with the new one; nothing else changes,
      and splitting at the old text gave those pieces. */
  lemma EditKeepsPieces(src: bytes, e: Edit)
    requires EditOne(src, e).Changed?
    ensures var ps := Split(src, e.was);
      && Join(ps, e.was) == src && Join(ps, e.now) == EditOne(src, e).text && |ps| == EditOne(src, e).record.count + 1
  {
    JoinSplit(src, e.was);
    ReplaceFromJoins(src, e.was, e.now, 0);
    PiecesFrom(src, e.was, 0);
  }

  method ApplyEdit(src: bytes, e: Edit) returns (c: Change)
    ensures c == EditOne(src, e)
  {
    if e.was == [] { return Refused(Empty); }
    if e.was == e.now { return Refused(Identical); }
    var n := Count(src, e.was);
    if n == 0 { return Refused(NotFound); }
    if n > 1 && !e.all {
      var lines := LineHits(src, e.was);
      return Refused(Ambiguous(n, lines));
    }
    var idx := Index(src, e.was);
    var line := LineOf(src, idx);
    if e.all { return Changed(ReplaceAll(src, e.was, e.now), Applied(line, n, e.was, e.now, true)); }
    OnlyMatch(src, e.was, e.now);
    return Changed(src[..idx] + e.now + src[idx + |e.was|..], Applied(line, 1, e.was, e.now, false));
  }

  // ----- a batch

  /** The next edit on what those before left. */
  function Then(b: Batch, e: Edit, i: nat): Batch {
    match b
    case Failed(_, _) => b
    case Done(text, applied) =>
      match EditOne(text, e)
      case Refused(why) => Failed(i, why)
      case Changed(text', record) => Done(text', applied + [record])
  }

  /** The first k edits, folded from the left. */
  function Fold(src: bytes, edits: seq<Edit>, k: nat): Batch
    requires k <= |edits|
  {
    if k == 0 then Done(src, []) else Then(Fold(src, edits, k - 1), edits[k - 1], k - 1)
  }

  method ApplyEdits(src0: bytes, edits: seq<Edit>) returns (b: Batch)
    ensures b == Fold(src0, edits, |edits|)
  {
    var src, applied := src0, [];
    for i := 0 to |edits|
      invariant Fold(src0, edits, i) == Done(src, applied)
    {
      var c := ApplyEdit(src, edits[i]);
      if c.Refused? {
        FailedStays(src0, edits, i + 1, |edits|);
        return Failed(i, c.why);
      }
      src, applied := c.text, applied + [c.record];
    }
    return Done(src, applied);
  }

  lemma {:induction false} FailedStays(src: bytes, edits: seq<Edit>, k: nat, m: nat)
    requires k <= m <= |edits| && Fold(src, edits, k).Failed?
    ensures Fold(src, edits, m) == Fold(src, edits, k)
  {
    if k < m { FailedStays(src, edits, k, m - 1); }
  }

  lemma {:induction false} FailedAt(src: bytes, edits: seq<Edit>, k: nat)
    requires k <= |edits|
    ensures var b := Fold(src, edits, k);
      && (b.Failed? ==> b.at < k && Fold(src, edits, b.at).Done?
                        && EditOne(Fold(src, edits, b.at).text, edits[b.at]) == Refused(b.why))
      && (b.Done? ==> |b.applied| == k)
  {
    if k > 0 { FailedAt(src, edits, k - 1); }
  }

  /** A batch fails at an edit exactly when that edit fails on the text the edits before it left. */
  lemma BatchFailsExactly(src: bytes, edits: seq<Edit>, at: nat, why: Failure)
    requires at < |edits|
    ensures Fold(src, edits, |edits|) == Failed(at, why)
      <==> Fold(src, edits, at).Done? && EditOne(Fold(src, edits, at).text, edits[at]) == Refused(why)
  {
    FailedAt(src, edits, |edits|);
    if Fold(src, edits, at).Done? && EditOne(Fold(src, edits, at).text, edits[at]) == Refused(why) {
      assert Fold(src, edits, at + 1) == Failed(at, why);
      FailedStays(src, edits, at + 1, |edits|);
    }
  }

  /** How much longer the text got by one applied edit. */
  function Gain(a: Applied): int {
    a.count * (|a.now| - |a.was|)
  }

  function Growth(applied: seq<Applied>): int {
    if applied == [] then 0 else Growth(applied[..|applied| - 1]) + Gain(applied[|applied| - 1])
  }

  lemma OneEdit(src: bytes, e: Edit)
    requires EditOne(src, e).Changed?
    ensures var c := EditOne(src, e);
      |c.text| == |src| + Gain(c.record) && c.record.was == e.was && c.record.now == e.now && c.record.all == e.all
  {
    ReplaceFromLength(src, e.was, e.now, 0);
  }

  lemma GrowthStep(applied: seq<Applied>, a: Applied)
    ensures Growth(applied + [a]) == Growth(applied) + Gain(a)
  {
    assert (applied + [a])[..|applied|] == applied;
  }

  /** A batch that is done grew the text by count times the difference of each edit. */
  lemma {:induction false} BatchLength(src: bytes, edits: seq<Edit>, k: nat)
    requires k <= |edits| && Fold(src, edits, k).Done?
    ensures var b := Fold(src, edits, k); |b.text| == |src| + Growth(b.applied)
  {
    if k > 0 {
      BatchLength(src, edits, k - 1);
      var b := Fold(src, edits, k - 1);
      OneEdit(b.text, edits[k - 1]);
      GrowthStep(b.applied, EditOne(b.text, edits[k - 1]).record);
    }
  }

  /** It records every edit, in order, as it was asked. */
  lemma {:induction false} BatchRecords(src: bytes, edits: seq<Edit>, k: nat)
    requires k <= |edits| && Fold(src, edits, k).Done?
    ensures var applied := Fold(src, edits, k).applied;
      && |applied| == k
      && forall i | 0 <= i < k ::
           applied[i].was == edits[i].was && applied[i].now == edits[i].now && applied[i].all == edits[i].all
  {
    if k > 0 {
      BatchRecords(src, edits, k - 1);
      OneEdit(Fold(src, edits, k - 1).text, edits[k - 1]);
    }
  }

  // ----- the file

  class TargetFile {
    var data: bytes

    constructor (data: bytes)
      ensures this.data == data
    {
      this.data := data;
    }
  }

  datatype Reply = Edited(applied: seq<Applied>) | NoEdits | BadEdit(at: nat, why: Failure) | Cancelled | WriteError

  /** runEdits from the file's contents on; a write that fails leaves the file, since it is renamed into place. */
  method RunEdits(file: TargetFile, edits: seq<Edit>, cancelled: bool, writeFails: bool) returns (reply: Reply)
    modifies file
    ensures var b := Fold(old(file.data), edits, |edits|);
      && (reply.Edited? <==> edits != [] && b.Done? && !cancelled && !writeFails)
      && file.data == (if reply.Edited? then b.text else old(file.data))
      && (reply.Edited? ==> reply.applied == b.applied)
      && (edits == [] ==> reply == NoEdits)
      && (edits != [] && b.Failed? ==> reply == BadEdit(b.at, b.why))
      && (edits != [] && b.Done? && cancelled ==> reply == Cancelled)
      && (edits != [] && b.Done? && !cancelled && writeFails ==> reply == WriteError)
  {
    if edits == [] { return NoEdits; }
    var b := ApplyEdits(file.data, edits);
    if b.Failed? { return BadEdit(b.at, b.why); }
    if cancelled { return Cancelled; }
    if writeFails { return WriteError; }
    file.data := b.text;
    return Edited(b.applied);
  }

  // ----- line numbers

  /** The line reported for an offset is the line of the text that holds it. */
  lemma LineHoldsOffset(src: bytes, idx: nat)
    requires idx <= |src|
    ensures var k, ls := LineOf(src, idx), Split(src, NL);
      1 <= k <= |ls| && Width(ls[..k - 1]) <= idx <= Width(ls[..k - 1]) + |ls[k - 1]|
  {
    var head, rest := src[..idx], src[idx..];
    var hs := Split(head, NL);
    PiecesFrom(head, NL, 0);
    JoinSplit(head, NL);
    SplitFromHasNone(head, 0);
    var init, last := hs[..|hs| - 1], hs[|hs| - 1];
    assert hs == init + [last];
    var ts := Split(last + rest, NL);
    JoinSplit(last + rest, NL);
    SplitFromHasNone(last + rest, 0);
    SplitJoin(init + ts);
    StartsWithLine(last, rest);
    JoinWidth(hs);
    if init == [] {
      assert init + ts == ts && hs == [last];
      assert src == last + rest;
    } else {
      JoinAppend(init, [last], NL);
      JoinAppend(init, ts, NL);
      assert src == head + rest == Join(init, NL) + NL + (last + rest);
    }
    assert (init + ts)[..|init|] == init;
  }

  lemma StartsWithLine(line: bytes, rest: bytes)
    requires NEWLINE !in line
    ensures |line| <= |Split(line + rest, NL)[0]|
  {
    var s := line + rest;
    IndexFromMeaning(s, NL, 0);
    forall i: nat | i < |line| ensures !OccursAt(s, NL, i) { assert s[i..i + 1] == [line[i]]; }
  }
}
