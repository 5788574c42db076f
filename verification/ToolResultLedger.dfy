/** The ledger of tool results in the conversation, and elision: moving old results out of history
    to files, behind a high-water mark. */
module ToolResultLedger {
  import opened ByteText
  import opened Decimals

  // ----- policy

  /** Byte limits; zero or less disables the first two. */
  datatype Policy = Policy(resultMax: int, budget: int, low: int, keepRecent: int)

  predicate ElisionEnabled(cp: Policy) {
    cp.budget > 0
  }

  /** loadContextPolicy on the integers read from the environment: whatever they are, an enabled
      policy drains strictly below its budget. */
  function LoadPolicy(resultMax: int, budget: int, low: int, keepRecent: int): (cp: Policy)
    ensures cp.resultMax >= 0 && cp.keepRecent >= 0 && cp.budget >= 0
    ensures resultMax >= 0 ==> cp.resultMax == resultMax
    ensures keepRecent >= 0 ==> cp.keepRecent == keepRecent
    ensures cp.budget > 0 <==> budget > 0
    ensures cp.budget > 0 ==> cp.budget == budget && 0 <= cp.low < cp.budget
    ensures 0 < low < budget ==> cp.low == low
    ensures budget > 0 && !(0 < low < budget) ==> 2 * cp.low <= budget < 2 * (cp.low + 1)
  {
    var b := if budget < 0 then 0 else budget;
    Policy(if resultMax < 0 then 0 else resultMax,
           b,
           if b > 0 && (low <= 0 || low >= b) then b / 2 else low,
           if keepRecent < 0 then 0 else keepRecent)
  }

  // ----- entries and placeholders

  datatype Entry = Entry(callID: string, tool: string, size: nat, round: int, elided: bool, content: bytes)

  function BareStub(tool: string, size: nat): bytes {
    Utf8("[earlier " + tool + " result elided ")
    + Utf8("to reclaim context " + "— " + Decimal(size) + " bytes. Re-run the tool " + "if you still need " + "this output.]")
  }

  function SpilledStub(tool: string, size: nat, path: string): bytes {
    Utf8("[earlier " + tool + " result elided ")
    + Utf8("— " + Decimal(size) + " bytes saved to " + path + "; read_file to recover.]")
  }

  /** A bare placeholder never reads as one that names a file. */
  lemma StubsDiffer(tool: string, size: nat, path: string)
    ensures BareStub(tool, size) != SpilledStub(tool, size, path)
  {
    var head := Utf8("[earlier " + tool + " result elided ");
    var bare :=
      "to reclaim context " + "— " + Decimal(size) + " bytes. Re-run the tool " + "if you still need " + "this output.]";
    var spilled := "— " + Decimal(size) + " bytes saved to " + path + "; read_file to recover.]";
    if BareStub(tool, size) == SpilledStub(tool, size, path) {
      assert BareStub(tool, size)[|head|..] == Utf8(bare);
      assert SpilledStub(tool, size, path)[|head|..] == Utf8(spilled);
      Utf8Injective(bare, spilled);
    }
  }

  /** The file of the seq-th entry. `dir` is the cleaned spill directory, ending in a slash. */
  function SpillPath(dir: string, seqNo: nat): string {
    dir + Pad4(seqNo) + ".txt"
  }

  /** Two entries never share a file. */
  lemma SpillPathInjective(dir: string, i: nat, j: nat)
    requires SpillPath(dir, i) == SpillPath(dir, j)
    ensures i == j
  {
    var p, q := SpillPath(dir, i), SpillPath(dir, j);
    assert p[|dir|..|p| - 4] == Pad4(i);
    assert q[|dir|..|q| - 4] == Pad4(j);
    Pad4Injective(i, j);
  }

  // ----- sizes

  function SumSizes(es: seq<Entry>): nat {
    if es == [] then 0 else SumSizes(es[..|es| - 1]) + es[|es| - 1].size
  }

  lemma {:induction false} SumSizesUpdate(es: seq<Entry>, i: nat, e: Entry)
    requires i < |es|
    ensures SumSizes(es[i := e]) == SumSizes(es) - es[i].size + e.size
  {
    var fs := es[i := e];
    if i < |es| - 1 {
      SumSizesUpdate(es[..|es| - 1], i, e);
      assert fs[..|es| - 1] == es[..|es| - 1][i := e];
    } else {
      assert fs[..|es| - 1] == es[..|es| - 1];
    }
  }

  predicate DistinctIds(es: seq<Entry>) {
    forall i, j | 0 <= i < j < |es| :: es[i].callID != es[j].callID
  }

  // ----- the protected window

  /** Where the newest round starts: the suffix of entries of the last entry's round. */
  function RoundStart(es: seq<Entry>, at: nat): (r: nat)
    requires at <= |es|
    ensures r <= at
    ensures forall i | r <= i < at :: es[i].round == es[|es| - 1].round
    ensures r > 0 ==> es[r - 1].round != es[|es| - 1].round
  {
    if at > 0 && es[at - 1].round == es[|es| - 1].round then RoundStart(es, at - 1) else at
  }

  /** Entries below this index may be elided: older than the newest `keepRecent` and than the newest round. */
  function ProtectedCutoff(es: seq<Entry>, keepRecent: int): (cutoff: int)
    ensures cutoff <= RoundStart(es, |es|)
    ensures es != [] ==> cutoff <= |es| - keepRecent
  {
    if es == [] then 0
    else
      var start := RoundStart(es, |es|);
      if start < |es| - keepRecent then start else |es| - keepRecent
  }

  /** Entry i is older than the newest `keepRecent` and than the newest round: from it on, some entry
      is of another round than the last. */
  ghost predicate Eligible(es: seq<Entry>, keepRecent: int, i: nat) {
    && i < |es| && i + keepRecent < |es|
    && exists j | i <= j < |es| :: es[j].round != es[|es| - 1].round
  }

  /** The entries below the cutoff are exactly those. */
  lemma CutoffExactly(es: seq<Entry>, keepRecent: int, i: nat)
    ensures i < ProtectedCutoff(es, keepRecent) <==> Eligible(es, keepRecent, i)
  {
    var start := RoundStart(es, |es|);
    if i < start { assert es[start - 1].round != es[|es| - 1].round; }
  }

  /** With rounds in insertion order: those older than the newest `keepRecent` whose round is not the
      newest. */
  lemma EligibleInOrder(es: seq<Entry>, keepRecent: int, i: nat)
    requires forall a, b | 0 <= a < b < |es| :: es[a].round <= es[b].round
    ensures Eligible(es, keepRecent, i)
      <==> i < |es| && i + keepRecent < |es| && es[i].round < es[|es| - 1].round
  {
    if i < |es| && es[i].round == es[|es| - 1].round {
      forall j | i <= j < |es| ensures es[j].round == es[|es| - 1].round {
        assert es[i].round <= es[j].round <= es[|es| - 1].round;
      }
    }
  }

  /** With rounds in insertion order, nothing of the newest round is below the cutoff. */
  lemma NewestRoundProtected(es: seq<Entry>, keepRecent: int, i: nat)
    requires forall a, b | 0 <= a < b < |es| :: es[a].round <= es[b].round
    requires i < |es| && i < ProtectedCutoff(es, keepRecent)
    ensures es[i].round < es[|es| - 1].round
  {
    var start := RoundStart(es, |es|);
    assert es[i].round <= es[start - 1].round <= es[|es| - 1].round;
  }

  // ----- one elision pass

  /** A file write succeeds, or fails and may leave anything at its path. */
  datatype Write = Wrote | Failed(left: Option<bytes>)

  datatype Pass = Pass(
    entries: seq<Entry>, live: int, files: map<string, bytes>, repl: map<string, bytes>, reclaimed: int)

  /** How results are spilled: nowhere, or to files under a directory, with the given write outcomes. */
  datatype Spill = Nowhere | Dir(dir: string)

  function StubFor(e: Entry, i: nat, spill: Spill): bytes {
    if spill.Nowhere? then BareStub(e.tool, e.size) else SpilledStub(e.tool, e.size, SpillPath(spill.dir, i))
  }

  function Shrink(p: Pass, i: nat, stub: bytes): Pass
    requires i < |p.entries|
  {
    var e := p.entries[i];
    p.(entries := p.entries[i := e.(elided := true, size := |stub|, content := [])],
       live := p.live - (e.size - |stub|),
       repl := p.repl[e.callID := stub],
       reclaimed := p.reclaimed + (e.size - |stub|))
  }

  function ElideOne(p: Pass, i: nat, spill: Spill, writes: nat -> Write): (q: Pass)
    requires i < |p.entries|
    ensures |q.entries| == |p.entries|
  {
    var e := p.entries[i];
    var stub := StubFor(e, i, spill);
    if e.elided || |stub| >= e.size then p
    else if spill.Nowhere? then Shrink(p, i, stub)
    else
      var path := SpillPath(spill.dir, i);
      match writes(i)
      case Wrote => Shrink(p.(files := p.files[path := e.content]), i, stub)
      case Failed(left) =>
        var q := if left.Some? then p.(files := p.files[path := left.value]) else p;
        var bare := BareStub(e.tool, e.size);
        if |bare| >= e.size then q else Shrink(q, i, bare)
  }

  function ElideFrom(p: Pass, i: nat, cutoff: int, low: int, spill: Spill, writes: nat -> Write): (q: Pass)
    requires cutoff <= |p.entries|
    ensures |q.entries| == |p.entries|
    decreases cutoff - i, 0
  {
    if i >= cutoff || p.live <= low then p else ElideNext(p, i, cutoff, low, spill, writes)
  }

  function ElideNext(p: Pass, i: nat, cutoff: int, low: int, spill: Spill, writes: nat -> Write): (q: Pass)
    requires i < cutoff <= |p.entries|
    ensures |q.entries| == |p.entries|
    decreases cutoff - i - 1, 1
  {
    ElideFrom(ElideOne(p, i, spill, writes), i + 1, cutoff, low, spill, writes)
  }

  lemma ElideStep(p: Pass, i: nat, cutoff: int, low: int, spill: Spill, writes: nat -> Write)
    requires i < cutoff <= |p.entries| && p.live > low
    ensures ElideFrom(p, i, cutoff, low, spill, writes)
      == ElideFrom(ElideOne(p, i, spill, writes), i + 1, cutoff, low, spill, writes)
  {
    assert ElideFrom(p, i, cutoff, low, spill, writes) == ElideNext(p, i, cutoff, low, spill, writes);
  }

  predicate Fires(es: seq<Entry>, live: int, cp: Policy) {
    ElisionEnabled(cp) && live > cp.budget
  }

  /** selectForElision: the ledger, the files and the replacements after one pass. */
  function Select(es: seq<Entry>, live: int, files: map<string, bytes>, cp: Policy, spill: Spill, writes: nat -> Write)
    : (q: Pass)
    requires cp.keepRecent >= 0
    ensures |q.entries| == |es|
  {
    var p := Pass(es, live, files, map[], 0);
    if !Fires(es, live, cp) then p
    else ElideFrom(p, 0, ProtectedCutoff(es, cp.keepRecent), cp.low, spill, writes)
  }

  // ----- the mutable ledger

  class Disk {
    var files: map<string, bytes>

    constructor ()
      ensures files == map[]
    {
      files := map[];
    }

    method WriteFile(path: string, content: bytes, outcome: Write) returns (ok: bool)
      modifies this
      ensures ok == outcome.Wrote?
      ensures files == match outcome
        case Wrote => old(files)[path := content]
        case Failed(left) => if left.Some? then old(files)[path := left.value] else old(files)
    {
      match outcome
      case Wrote => files := files[path := content]; ok := true;
      case Failed(left) =>
        if left.Some? { files := files[path := left.value]; }
        ok := false;
    }
  }

  class Ledger {
    var entries: seq<Entry>
    var live: int
    const spill: Spill
    var spillFailed: bool

    constructor (spill: Spill)
      ensures entries == [] && live == 0 && this.spill == spill
    {
      entries, live, spillFailed := [], 0, false;
      this.spill := spill;
    }

    method Add(callID: string, tool: string, content: bytes, round: int)
      modifies this
      ensures entries == old(entries) + [Entry(callID, tool, |content|, round, false, content)]
      ensures live == old(live) + |content|
    {
      entries := entries + [Entry(callID, tool, |content|, round, false, content)];
      live := live + |content|;
    }

    method Cutoff(cp: Policy) returns (cutoff: int)
      ensures cutoff == ProtectedCutoff(entries, cp.keepRecent)
      ensures forall i: nat :: i < cutoff <==> Eligible(entries, cp.keepRecent, i)
    {
      forall i: nat ensures i < ProtectedCutoff(entries, cp.keepRecent) <==> Eligible(entries, cp.keepRecent, i) {
        CutoffExactly(entries, cp.keepRecent, i);
      }
      if |entries| == 0 { return 0; }
      cutoff := |entries| - cp.keepRecent;
      var newest := entries[|entries| - 1].round;
      var roundStart := |entries|;
      while roundStart > 0 && entries[roundStart - 1].round == newest
        invariant 0 <= roundStart <= |entries|
        invariant RoundStart(entries, |entries|) == RoundStart(entries, roundStart)
      {
        roundStart := roundStart - 1;
      }
      if roundStart < cutoff {
        cutoff := roundStart;
      }
    }

    ghost function PassSoFar(disk: Disk, repl: map<string, bytes>, reclaimed: int): Pass
      reads this, disk
    {
      Pass(entries, live, disk.files, repl, reclaimed)
    }

    method SelectForElision(cp: Policy, disk: Disk, writes: nat -> Write)
      returns (repl: map<string, bytes>, reclaimed: int)
      requires cp.keepRecent >= 0
      modifies this, disk
      ensures PassSoFar(disk, repl, reclaimed)
        == old(Select(entries, live, disk.files, cp, spill, writes))
    {
      repl, reclaimed := map[], 0;
      if !ElisionEnabled(cp) || live <= cp.budget { return; }
      var cutoff := Cutoff(cp);
      if cutoff <= 0 { return; }
      var i := 0;
      while i < cutoff && live > cp.low
        invariant 0 <= i && cutoff <= |entries|
        invariant old(Select(entries, live, disk.files, cp, spill, writes))
          == ElideFrom(PassSoFar(disk, repl, reclaimed), i, cutoff, cp.low, spill, writes)
        decreases cutoff - i
      {
        ElideStep(PassSoFar(disk, repl, reclaimed), i, cutoff, cp.low, spill, writes);
        repl, reclaimed := ElideEntry(i, disk, writes, repl, reclaimed);
        i := i + 1;
      }
    }

    /** One turn of the elision loop. */
    method ElideEntry(i: nat, disk: Disk, writes: nat -> Write, repl0: map<string, bytes>, reclaimed0: int)
      returns (repl: map<string, bytes>, reclaimed: int)
      requires i < |entries|
      modifies this, disk
      ensures PassSoFar(disk, repl, reclaimed)
        == old(ElideOne(PassSoFar(disk, repl0, reclaimed0), i, spill, writes))
    {
      repl, reclaimed := repl0, reclaimed0;
      var e := entries[i];
      if e.elided { return; }
      var path := "";
      var stub := BareStub(e.tool, e.size);
      if spill.Dir? {
        path := SpillPath(spill.dir, i);
        stub := SpilledStub(e.tool, e.size, path);
      }
      if |stub| >= e.size { return; }
      if spill.Dir? {
        var ok := disk.WriteFile(path, e.content, writes(i));
        if !ok {
          spillFailed := true;
          stub := BareStub(e.tool, e.size);
          if |stub| >= e.size { return; }
        }
      }
      repl := repl[e.callID := stub];
      reclaimed := reclaimed + (e.size - |stub|);
      live := live - (e.size - |stub|);
      entries := entries[i := e.(elided := true, size := |stub|, content := [])];
    }
  }
}
