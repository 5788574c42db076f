/** Which entries an elision pass takes, told from the ledger before it: the oldest that can shrink,
    one after the other, for as long as live bytes are over the low mark. */
module GreedyPass {
  import opened ByteText
  import opened ToolResultLedger
  import opened Elision
  import opened StubLengths

  // ----- the ledger before a pass

  /** What a pass with these write outcomes shrinks an entry to, if it can. */
  function ShrinksTo(e: Entry, i: nat, spill: Spill, writes: nat -> Write): (stub: Option<bytes>)
    ensures stub.Some? <==> !Stuck(e, i, spill, writes)
  {
    if Stuck(e, i, spill, writes) then None
    else if spill.Dir? && writes(i).Failed? then Some(BareStub(e.tool, e.size))
    else Some(StubFor(e, i, spill))
  }

  /** Told by its size and the two placeholders: elided entries stay; without a directory it is the bare
      one, if that is shorter; under a directory the one that names the file, if that is shorter and the
      write succeeds, and the bare one after a failed write, if that is shorter as well. */
  lemma ShrinksToExactly(e: Entry, i: nat, spill: Spill, writes: nat -> Write)
    ensures e.elided ==> ShrinksTo(e, i, spill, writes) == None
    ensures var bare := BareStub(e.tool, e.size);
      !e.elided && spill.Nowhere? ==> ShrinksTo(e, i, spill, writes) == if |bare| < e.size then Some(bare) else None
    ensures !e.elided && spill.Dir? ==>
      var bare, named := BareStub(e.tool, e.size), SpilledStub(e.tool, e.size, SpillPath(spill.dir, i));
      ShrinksTo(e, i, spill, writes)
      == if |named| >= e.size then None
         else if writes(i).Wrote? then Some(named)
         else if |bare| < e.size then Some(bare) else None
  {
  }

  /** A ledger about to be passed over: the first `limit` entries may be looked at, and `stub` says
      what each would shrink to. */
  datatype Plan = Plan(es: seq<Entry>, live: int, low: int, limit: nat, stub: nat -> Option<bytes>)

  predicate Valid(pl: Plan) {
    pl.limit <= |pl.es|
  }

  function Stubs(es: seq<Entry>, spill: Spill, writes: nat -> Write): nat -> Option<bytes> {
    (i: nat) => if i < |es| then ShrinksTo(es[i], i, spill, writes) else None
  }

  predicate StubIs(pl: Plan, j: nat, spill: Spill, writes: nat -> Write)
    requires j < |pl.es|
  {
    pl.stub(j) == ShrinksTo(pl.es[j], j, spill, writes)
  }

  predicate StubsAre(pl: Plan, spill: Spill, writes: nat -> Write) {
    forall j | 0 <= j < |pl.es| :: StubIs(pl, j, spill, writes)
  }

  function PlanFor(es: seq<Entry>, live: int, cp: Policy, spill: Spill, writes: nat -> Write): (pl: Plan)
    requires cp.keepRecent >= 0
    ensures Valid(pl) && StubsAre(pl, spill, writes)
  {
    var cutoff := ProtectedCutoff(es, cp.keepRecent);
    Plan(es, live, cp.low, if Fires(es, live, cp) && cutoff > 0 then cutoff else 0, Stubs(es, spill, writes))
  }

  function Saving(pl: Plan, j: nat): int
    requires j < |pl.es|
  {
    match pl.stub(j)
    case None => 0
    case Some(stub) => if |stub| < pl.es[j].size then pl.es[j].size - |stub| else 0
  }

  /** The bytes the entries below j would save. */
  function SavedBelow(pl: Plan, j: nat): int
    requires j <= |pl.es|
  {
    if j == 0 then 0
    else SavedBelow(pl, j - 1) + Saving(pl, j - 1)
  }

  /** A pass gets to entry j: it may be looked at, and saving all it can below leaves too much. */
  predicate Reaches(pl: Plan, j: nat)
    requires Valid(pl)
  {
    j < pl.limit && pl.live - SavedBelow(pl, j) > pl.low
  }

  predicate Takes(pl: Plan, j: nat)
    requires Valid(pl)
  {
    Reaches(pl, j) && pl.stub(j).Some?
  }

  lemma {:induction false} SavingsGrow(pl: Plan, i: nat, j: nat)
    requires i <= j <= |pl.es|
    ensures SavedBelow(pl, i) <= SavedBelow(pl, j)
  {
    if i < j { SavingsGrow(pl, i, j - 1); }
  }

  /** A pass gets to every entry before one it gets to: it goes oldest first. */
  lemma ReachesInOrder(pl: Plan, i: nat, j: nat)
    requires Valid(pl) && i <= j && Reaches(pl, j)
    ensures Reaches(pl, i)
  {
    SavingsGrow(pl, i, j);
  }

  // ----- the entries after a pass

  function Shrunk(e: Entry, stub: bytes): Entry {
    e.(elided := true, size := |stub|, content := [])
  }

  /** What looking at an entry does, told from the entry. */
  lemma OneLook(e: Entry, q: Pass, i: nat, spill: Spill, writes: nat -> Write)
    requires i < |q.entries| && q.entries[i] == e
    ensures var r, stub := ElideOne(q, i, spill, writes), ShrinksTo(e, i, spill, writes);
      if stub.Some? then
        && |stub.value| < e.size && r.entries == q.entries[i := Shrunk(e, stub.value)]
        && r.live == q.live - (e.size - |stub.value|) && r.repl == q.repl[e.callID := stub.value]
      else r.entries == q.entries && r.live == q.live && r.repl == q.repl
  {
  }

  function EntryAfter(pl: Plan, j: nat): Entry
    requires Valid(pl) && j < |pl.es|
  {
    if Takes(pl, j) then Shrunk(pl.es[j], pl.stub(j).value) else pl.es[j]
  }

  /** The newest entry below k that a pass takes for this call. */
  function LastTaken(pl: Plan, id: string, k: nat): (j: Option<nat>)
    requires Valid(pl) && k <= pl.limit
    ensures j.Some? ==> j.value < k && Takes(pl, j.value) && pl.es[j.value].callID == id
    ensures j.None? ==> forall i | 0 <= i < k && Takes(pl, i) :: pl.es[i].callID != id
  {
    if k == 0 then None
    else if Takes(pl, k - 1) && pl.es[k - 1].callID == id then Some(k - 1)
    else LastTaken(pl, id, k - 1)
  }

  function Find<K(==), V>(m: map<K, V>, k: K): Option<V> {
    if k in m then Some(m[k]) else None
  }

  function ReplacementAt(pl: Plan, id: string, k: nat): Option<bytes>
    requires Valid(pl) && k <= pl.limit
  {
    match LastTaken(pl, id, k)
    case None => None
    case Some(j) => pl.stub(j)
  }

  /** A pass that has looked at the entries below i. */
  ghost predicate Looked(pl: Plan, q: Pass, i: nat)
    requires Valid(pl) && i <= pl.limit
  {
    && |q.entries| == |pl.es|
    && (forall j | 0 <= j < |pl.es| :: q.entries[j] == if j < i then EntryAfter(pl, j) else pl.es[j])
    && (if q.live > pl.low then q.live == pl.live - SavedBelow(pl, i) else pl.live - SavedBelow(pl, i) <= pl.low)
    && (forall id :: Find(q.repl, id) == ReplacementAt(pl, id, i))
  }

  lemma LookedStep(pl: Plan, q: Pass, i: nat, spill: Spill, writes: nat -> Write)
    requires Valid(pl) && i < pl.limit && Looked(pl, q, i) && q.live > pl.low
    requires StubsAre(pl, spill, writes)
    ensures Looked(pl, ElideOne(q, i, spill, writes), i + 1)
  {
    assert StubIs(pl, i, spill, writes);
    OneLook(pl.es[i], q, i, spill, writes);
    LookedStepOn(pl, q, i, ElideOne(q, i, spill, writes));
  }

  lemma LookedStepOn(pl: Plan, q: Pass, i: nat, r: Pass)
    requires Valid(pl) && i < pl.limit && Looked(pl, q, i) && q.live > pl.low
    requires var e, stub := pl.es[i], pl.stub(i);
      if stub.Some? then
        && |stub.value| < e.size && r.entries == q.entries[i := Shrunk(e, stub.value)]
        && r.live == q.live - (e.size - |stub.value|) && r.repl == q.repl[e.callID := stub.value]
      else r.entries == q.entries && r.live == q.live && r.repl == q.repl
    ensures Looked(pl, r, i + 1)
  {
    assert Reaches(pl, i);
    forall id ensures Find(r.repl, id) == ReplacementAt(pl, id, i + 1) {
      assert Find(q.repl, id) == ReplacementAt(pl, id, i);
    }
  }

  /** At the low mark a pass gets to nothing more. */
  lemma LookedOn(pl: Plan, q: Pass, i: nat)
    requires Valid(pl) && i < pl.limit && Looked(pl, q, i) && q.live <= pl.low
    ensures !Reaches(pl, i) && Looked(pl, q, i + 1)
  {
    SavingsGrow(pl, i, i + 1);
    forall id ensures Find(q.repl, id) == ReplacementAt(pl, id, i + 1) {
      assert Find(q.repl, id) == ReplacementAt(pl, id, i);
    }
  }

  /** A pass after k looks; at the low mark it looks no more. */
  function PassAt(p: Pass, k: nat, low: int, spill: Spill, writes: nat -> Write): (q: Pass)
    requires k <= |p.entries|
    ensures |q.entries| == |p.entries|
    decreases k, 0
  {
    if k == 0 then p else NextLook(p, k - 1, low, spill, writes)
  }

  function NextLook(p: Pass, k: nat, low: int, spill: Spill, writes: nat -> Write): (q: Pass)
    requires k < |p.entries|
    ensures |q.entries| == |p.entries|
    decreases k, 1
  {
    var q := PassAt(p, k, low, spill, writes);
    if q.live > low then ElideOne(q, k, spill, writes) else q
  }

  lemma PassAtStep(p: Pass, k: nat, low: int, spill: Spill, writes: nat -> Write)
    requires k < |p.entries|
    ensures var q, r := PassAt(p, k, low, spill, writes), PassAt(p, k + 1, low, spill, writes);
      if q.live > low then r == ElideOne(q, k, spill, writes) else r == q
  {
    assert PassAt(p, k + 1, low, spill, writes) == NextLook(p, k, low, spill, writes);
  }

  /** The loop from k looks on ends where all its looks do. */
  lemma {:induction false} LoopIsLooks(p: Pass, k: nat, limit: nat, low: int, spill: Spill, writes: nat -> Write)
    requires k <= limit <= |p.entries|
    ensures ElideFrom(PassAt(p, k, low, spill, writes), k, limit, low, spill, writes) == PassAt(p, limit, low, spill, writes)
    decreases limit - k
  {
    if k < limit {
      var q := PassAt(p, k, low, spill, writes);
      PassAtStep(p, k, low, spill, writes);
      LoopIsLooks(p, k + 1, limit, low, spill, writes);
      if q.live > low { ElideStep(q, k, limit, low, spill, writes); }
    }
  }

  lemma LookedNext(pl: Plan, p: Pass, k: nat, spill: Spill, writes: nat -> Write)
    requires Valid(pl) && k < pl.limit && |p.entries| == |pl.es| && StubsAre(pl, spill, writes)
    requires Looked(pl, PassAt(p, k, pl.low, spill, writes), k)
    ensures Looked(pl, PassAt(p, k + 1, pl.low, spill, writes), k + 1)
  {
    PassAtStep(p, k, pl.low, spill, writes);
    var q := PassAt(p, k, pl.low, spill, writes);
    if q.live > pl.low { LookedStep(pl, q, k, spill, writes); } else { LookedOn(pl, q, k); }
  }

  lemma LookedAt(pl: Plan, p: Pass, k: nat, spill: Spill, writes: nat -> Write)
    requires Valid(pl) && k <= pl.limit && Looked(pl, p, 0) && StubsAre(pl, spill, writes)
    ensures Looked(pl, PassAt(p, k, pl.low, spill, writes), k)
  {
    for i := 0 to k
      invariant Looked(pl, PassAt(p, i, pl.low, spill, writes), i)
    {
      LookedNext(pl, p, i, spill, writes);
    }
  }

  /** The pass over a plan. */
  lemma SelectFollowsPlan(es: seq<Entry>, live: int, files: map<string, bytes>, cp: Policy, spill: Spill, writes: nat -> Write)
    requires cp.keepRecent >= 0
    ensures var pl := PlanFor(es, live, cp, spill, writes);
      Select(es, live, files, cp, spill, writes)
      == PassAt(Pass(es, live, files, map[], 0), pl.limit, pl.low, spill, writes)
  {
    var pl, p := PlanFor(es, live, cp, spill, writes), Pass(es, live, files, map[], 0);
    assert Select(es, live, files, cp, spill, writes) == ElideFrom(p, 0, pl.limit, pl.low, spill, writes);
    LoopIsLooks(p, 0, pl.limit, pl.low, spill, writes);
  }

  /** Whatever the call IDs and the write outcomes, a pass takes exactly the entries that can shrink
      and that it gets to before live bytes are at the low mark; each call's replacement is the
      placeholder of the newest entry taken for it. */
  lemma PassTakesExactly(es: seq<Entry>, live: int, files: map<string, bytes>, cp: Policy, spill: Spill, writes: nat -> Write)
    requires cp.keepRecent >= 0
    ensures var q, pl := Select(es, live, files, cp, spill, writes), PlanFor(es, live, cp, spill, writes);
      && |q.entries| == |es| && (forall j | 0 <= j < |es| :: q.entries[j] == EntryAfter(pl, j))
      && (q.live > cp.low ==> q.live == live - SavedBelow(pl, pl.limit))
      && (forall id :: Find(q.repl, id) == ReplacementAt(pl, id, pl.limit))
  {
    var pl, p := PlanFor(es, live, cp, spill, writes), Pass(es, live, files, map[], 0);
    assert SavedBelow(pl, 0) == 0 && Looked(pl, p, 0);
    SelectFollowsPlan(es, live, files, cp, spill, writes);
    LookedAt(pl, p, pl.limit, spill, writes);
  }

  /** Which entries those are, told from the ledger before the pass: live bytes are over an enabled
      budget, the entry is older than the newest ones kept and than the newest round, it can shrink,
      and saving all that the entries before it can leaves live bytes over the low mark. */
  lemma TakesWhen(es: seq<Entry>, live: int, cp: Policy, spill: Spill, writes: nat -> Write, j: nat)
    requires cp.keepRecent >= 0 && j < |es|
    ensures var pl := PlanFor(es, live, cp, spill, writes);
      Takes(pl, j)
      <==> && cp.budget > 0 && live > cp.budget && Eligible(es, cp.keepRecent, j)
           && !Stuck(es[j], j, spill, writes) && live - SavedBelow(pl, j) > cp.low
  {
    CutoffExactly(es, cp.keepRecent, j);
    assert StubIs(PlanFor(es, live, cp, spill, writes), j, spill, writes);
  }

  // ----- the files after a pass

  /** A pass tries to write entry j's file: it gets to the entry, which has a shorter placeholder. */
  predicate Tries(pl: Plan, spill: Spill, j: nat)
    requires Valid(pl)
  {
    Reaches(pl, j) && spill.Dir? && !pl.es[j].elided && |StubFor(pl.es[j], j, spill)| < pl.es[j].size
  }

  /** What a write leaves at its path. */
  function Left(files: map<string, bytes>, path: string, content: bytes, w: Write): Option<bytes> {
    match w
    case Wrote => Some(content)
    case Failed(Some(part)) => Some(part)
    case Failed(None) => Find(files, path)
  }

  /** The file at entry j's path after a pass. */
  function FileAfter(pl: Plan, files: map<string, bytes>, dir: string, writes: nat -> Write, j: nat): Option<bytes>
    requires Valid(pl)
  {
    if Tries(pl, Dir(dir), j) then Left(files, SpillPath(dir, j), pl.es[j].content, writes(j))
    else Find(files, SpillPath(dir, j))
  }

  /** What looking at an entry writes. */
  lemma OneWrite(e: Entry, q: Pass, i: nat, dir: string, writes: nat -> Write, path: string)
    requires i < |q.entries| && q.entries[i] == e
    ensures Find(ElideOne(q, i, Dir(dir), writes).files, path)
      == if path == SpillPath(dir, i) && !e.elided && |StubFor(e, i, Dir(dir))| < e.size
         then Left(q.files, path, e.content, writes(i)) else Find(q.files, path)
  {
  }

  /** The file at entry j's path when a pass has looked at the entries below i. */
  ghost predicate FileSoFar(pl: Plan, q: Pass, i: nat, dir: string, writes: nat -> Write, files: map<string, bytes>, j: nat)
    requires Valid(pl)
  {
    Find(q.files, SpillPath(dir, j)) == if j < i then FileAfter(pl, files, dir, writes, j) else Find(files, SpillPath(dir, j))
  }

  lemma FileNext(pl: Plan, p: Pass, k: nat, dir: string, writes: nat -> Write, files: map<string, bytes>, j: nat)
    requires Valid(pl) && k < pl.limit && |p.entries| == |pl.es|
    requires Looked(pl, PassAt(p, k, pl.low, Dir(dir), writes), k)
    requires FileSoFar(pl, PassAt(p, k, pl.low, Dir(dir), writes), k, dir, writes, files, j)
    ensures FileSoFar(pl, PassAt(p, k + 1, pl.low, Dir(dir), writes), k + 1, dir, writes, files, j)
  {
    PassAtStep(p, k, pl.low, Dir(dir), writes);
    var q := PassAt(p, k, pl.low, Dir(dir), writes);
    if q.live > pl.low {
      OneWrite(pl.es[k], q, k, dir, writes, SpillPath(dir, j));
      if k != j && SpillPath(dir, k) == SpillPath(dir, j) { SpillPathInjective(dir, k, j); }
    } else {
      LookedOn(pl, q, k);
    }
  }

  lemma FileAt(pl: Plan, p: Pass, k: nat, dir: string, writes: nat -> Write, j: nat)
    requires Valid(pl) && k <= pl.limit && Looked(pl, p, 0) && StubsAre(pl, Dir(dir), writes)
    ensures FileSoFar(pl, PassAt(p, k, pl.low, Dir(dir), writes), k, dir, writes, p.files, j)
  {
    for i := 0 to k
      invariant FileSoFar(pl, PassAt(p, i, pl.low, Dir(dir), writes), i, dir, writes, p.files, j)
    {
      LookedAt(pl, p, i, Dir(dir), writes);
      FileNext(pl, p, i, dir, writes, p.files, j);
    }
  }

  /** A file under the spill directory, whoever wrote it before, is changed by a pass only when the
      pass gets to the unelided entry of the file's own index and that entry has a shorter
      placeholder; then it is what the write leaves. Otherwise it stays as it was. */
  lemma PassWritesExactly(es: seq<Entry>, live: int, files: map<string, bytes>, cp: Policy, dir: string,
                          writes: nat -> Write, j: nat)
    requires cp.keepRecent >= 0
    ensures Find(Select(es, live, files, cp, Dir(dir), writes).files, SpillPath(dir, j))
      == FileAfter(PlanFor(es, live, cp, Dir(dir), writes), files, dir, writes, j)
  {
    var pl, p := PlanFor(es, live, cp, Dir(dir), writes), Pass(es, live, files, map[], 0);
    assert SavedBelow(pl, 0) == 0 && Looked(pl, p, 0);
    SelectFollowsPlan(es, live, files, cp, Dir(dir), writes);
    FileAt(pl, p, pl.limit, dir, writes, j);
  }

  // ----- a second pass

  /** The first write failed, the second does not, and only the bare placeholder is too long. */
  predicate Retried(e: Entry, j: nat, spill: Spill, writes: nat -> Write, again: nat -> Write) {
    && spill.Dir? && !e.elided && writes(j).Failed? && again(j).Wrote?
    && |StubFor(e, j, spill)| < e.size <= |BareStub(e.tool, e.size)|
  }

  /** What a pass left in place is shrunk by another exactly when its write is retried with success. */
  lemma LeftOver(e: Entry, f: Entry, j: nat, spill: Spill, writes: nat -> Write, again: nat -> Write)
    requires Stuck(f, j, spill, writes) && (f == e || (f.elided && !Stuck(e, j, spill, writes)))
    ensures !Stuck(f, j, spill, again) <==> Retried(e, j, spill, writes, again)
  {
  }

  /** A second pass over an unchanged ledger rewrites history exactly when live bytes are still over
      the budget and some entry left below the cutoff had a failed write, has a write that now
      succeeds, and is too small for the bare placeholder only. */
  lemma SecondPassExactly(es: seq<Entry>, live: int, files: map<string, bytes>, cp: Policy, spill: Spill,
                          writes: nat -> Write, again: nat -> Write)
    requires cp.keepRecent >= 0 && (ElisionEnabled(cp) ==> cp.low < cp.budget)
    ensures var q := Select(es, live, files, cp, spill, writes);
      Select(q.entries, q.live, q.files, cp, spill, again).repl != map[]
      <==> && cp.budget > 0 && q.live > cp.budget
           && exists j | 0 <= j < |es| :: Eligible(es, cp.keepRecent, j) && Retried(es[j], j, spill, writes, again)
  {
    var q := Select(es, live, files, cp, spill, writes);
    PassTakesExactly(es, live, files, cp, spill, writes);
    PassRewritesWhen(q.entries, q.live, q.files, cp, spill, again);
    forall j: nat ensures Eligible(q.entries, cp.keepRecent, j) <==> Eligible(es, cp.keepRecent, j) {
      SameEligible(es, q.entries, cp.keepRecent, j);
    }
    if cp.budget > 0 && q.live > cp.budget {
      assert Fires(es, live, cp);
      PassSettles(es, live, files, cp, spill, writes);
      forall j | 0 <= j < |es| && Eligible(es, cp.keepRecent, j)
        ensures !Stuck(q.entries[j], j, spill, again) <==> Retried(es[j], j, spill, writes, again)
      {
        LeftOver(es[j], q.entries[j], j, spill, writes, again);
      }
    }
  }

  // ----- a ledger on which a second pass does rewrite history

  /** Two results of one tool, the older as long as its bare placeholder. */
  function TwoResults(tool: string, older: bytes, newest: byte): seq<Entry> {
    [Entry("a", tool, |older|, 1, false, older), Entry("b", tool, 1, 2, false, [newest])]
  }

  function FailAll(i: nat): Write {
    Failed(None)
  }

  function WriteAll(i: nat): Write {
    Wrote
  }

  /** Under any directory of less than 26 bytes, as the default one of 22, for any tool: a pass whose
      write fails leaves this ledger as it is, and a second one whose write succeeds rewrites it. */
  lemma SecondPassCanRewrite(dir: string, tool: string, older: bytes, newest: byte)
    requires |Utf8(dir)| < 26 && |Utf8(tool)| < 895 && |older| == TightSize(tool)
    ensures var cp, es, spill, live := Policy(0, 1, 0, 0), TwoResults(tool, older, newest), Dir(dir), |older| + 1;
      var q := Select(es, live, map[], cp, spill, FailAll);
      && q.repl == map[] && q.entries == es && q.live == live
      && Select(q.entries, q.live, q.files, cp, spill, WriteAll).repl != map[]
  {
    FirstPathLength(dir);
    TightFits(tool, SpillPath(dir, 0));
    SecondPassRewrites(dir, tool, older, newest);
  }

  lemma SecondPassRewrites(dir: string, tool: string, older: bytes, newest: byte)
    requires |SpilledStub(tool, |older|, SpillPath(dir, 0))| < |older| <= |BareStub(tool, |older|)|
    ensures var cp, es, spill, live := Policy(0, 1, 0, 0), TwoResults(tool, older, newest), Dir(dir), |older| + 1;
      var q := Select(es, live, map[], cp, spill, FailAll);
      && q.repl == map[] && q.entries == es && q.live == live
      && Select(q.entries, q.live, q.files, cp, spill, WriteAll).repl != map[]
  {
    var cp, es, spill, live := Policy(0, 1, 0, 0), TwoResults(tool, older, newest), Dir(dir), |older| + 1;
    assert RoundStart(es, 1) == 1 && ProtectedCutoff(es, 0) == 1 && es[1].round == 2;
    assert Stuck(es[0], 0, spill, FailAll) && Retried(es[0], 0, spill, FailAll, WriteAll);
    PassRewritesWhen(es, live, map[], cp, spill, FailAll);
    PassTakesExactly(es, live, map[], cp, spill, FailAll);
    var q, pl := Select(es, live, map[], cp, spill, FailAll), PlanFor(es, live, cp, spill, FailAll);
    assert StubIs(pl, 0, spill, FailAll) && SavedBelow(pl, 1) == SavedBelow(pl, 0);
    assert q.entries == es;
    SecondPassExactly(es, live, map[], cp, spill, FailAll, WriteAll);
  }

  /** Under a longer directory no entry is too small for the bare placeholder only, so a second pass
      over an unchanged ledger rewrites nothing, whatever was written before or is now. */
  lemma LongDirsSettle(es: seq<Entry>, live: int, files: map<string, bytes>, cp: Policy, dir: string,
                       writes: nat -> Write, again: nat -> Write)
    requires cp.keepRecent >= 0 && (ElisionEnabled(cp) ==> cp.low < cp.budget) && |Utf8(dir)| >= 26
    ensures var q := Select(es, live, files, cp, Dir(dir), writes);
      Select(q.entries, q.live, q.files, cp, Dir(dir), again).repl == map[]
  {
    SecondPassExactly(es, live, files, cp, Dir(dir), writes, again);
    forall j | 0 <= j < |es| ensures !Retried(es[j], j, Dir(dir), writes, again) {
      PathLength(dir, j);
      BareIsLongerExactly(es[j].tool, es[j].size, SpillPath(dir, j));
    }
  }
}
