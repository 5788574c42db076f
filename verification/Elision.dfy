/** What one elision pass guarantees: it shrinks, it accounts exactly, it settles, and it loses nothing. */
module Elision {
  import opened ByteText
  import opened ToolResultLedger

  /** `f` is `e` with its content replaced by a strictly shorter placeholder, which is the
      replacement recorded for its call; a placeholder naming a file names one holding the content. */
  predicate Elided(e: Entry, f: Entry, i: nat, q: Pass, spill: Spill) {
    && !e.elided && e.callID in q.repl
    && var stub := q.repl[e.callID];
    && f == e.(elided := true, size := |stub|, content := [])
    && |stub| < e.size
    && (stub == BareStub(e.tool, e.size) || stub == StubFor(e, i, spill))
    && (spill.Dir? && stub == StubFor(e, i, spill) ==>
        SpillPath(spill.dir, i) in q.files && q.files[SpillPath(spill.dir, i)] == e.content)
  }

  /** Every entry is as it was, or was properly elided; replacements are for the elided ones only. */
  ghost predicate EntriesSoFar(p: Pass, q: Pass, i: nat, spill: Spill) {
    && |q.entries| == |p.entries|
    && (forall j | 0 <= j < |p.entries| ::
        q.entries[j] == p.entries[j] || (j < i && Elided(p.entries[j], q.entries[j], j, q, spill)))
    && (forall j | 0 <= j < |p.entries| && p.entries[j].callID in q.repl :: q.entries[j] != p.entries[j])
  }

  /** The reclaimed total is exactly the fall in live bytes, and live keeps tracking the sizes. */
  ghost predicate AccountsSoFar(p: Pass, q: Pass) {
    && q.live - SumSizes(q.entries) == p.live - SumSizes(p.entries)
    && q.reclaimed == p.live - q.live >= |q.repl|
  }

  /** Only files of entries not yet elided are written, and only below i. */
  ghost predicate TouchedPath(p: Pass, path: string, i: nat, spill: Spill) {
    spill.Dir? && exists j | 0 <= j < i && j < |p.entries| :: !p.entries[j].elided && path == SpillPath(spill.dir, j)
  }

  ghost predicate FilesSoFar(p: Pass, q: Pass, i: nat, spill: Spill) {
    forall path | path in p.files && !TouchedPath(p, path, i, spill) :: path in q.files && q.files[path] == p.files[path]
  }

  /** A pass from `p` has done `q`, having looked at entries below i only. */
  ghost predicate Progress(p: Pass, q: Pass, i: nat, spill: Spill) {
    EntriesSoFar(p, q, i, spill) && FilesSoFar(p, q, i, spill)
  }

  lemma ElidedKept(e: Entry, f: Entry, j: nat, q: Pass, r: Pass, spill: Spill)
    requires Elided(e, f, j, q, spill)
    requires e.callID in r.repl && r.repl[e.callID] == q.repl[e.callID]
    requires spill.Dir? && SpillPath(spill.dir, j) in q.files ==>
      SpillPath(spill.dir, j) in r.files && r.files[SpillPath(spill.dir, j)] == q.files[SpillPath(spill.dir, j)]
    ensures Elided(e, f, j, r, spill)
  {
  }

  /** Looking at one entry overwrites at most its own file. */
  lemma OneFile(q: Pass, i: nat, spill: Spill, writes: nat -> Write)
    requires i < |q.entries|
    ensures var r := ElideOne(q, i, spill, writes); var e := q.entries[i];
      forall path | path in q.files && !(spill.Dir? && !e.elided && path == SpillPath(spill.dir, i)) ::
        path in r.files && r.files[path] == q.files[path]
  {
  }

  /** Nothing to entry i, or a proper elision of it. */
  ghost predicate Stepped(q: Pass, r: Pass, i: nat, spill: Spill)
    requires i < |q.entries|
  {
    var e := q.entries[i];
    && ((r.entries == q.entries && r.repl == q.repl && r.live == q.live && r.reclaimed == q.reclaimed)
        || (|r.entries| == |q.entries| && r.entries == q.entries[i := r.entries[i]]
            && r.repl.Keys == q.repl.Keys + {e.callID} && Elided(e, r.entries[i], i, r, spill)
            && r.live == q.live - (e.size - r.entries[i].size)
            && r.reclaimed == q.reclaimed + (e.size - r.entries[i].size)))
    && (forall k | k in q.repl && k != e.callID :: r.repl[k] == q.repl[k])
  }

  lemma NowhereStep(q: Pass, i: nat, writes: nat -> Write)
    requires i < |q.entries|
    ensures Stepped(q, ElideOne(q, i, Nowhere, writes), i, Nowhere)
  {
  }

  lemma DirStep(q: Pass, i: nat, dir: string, writes: nat -> Write)
    requires i < |q.entries|
    ensures Stepped(q, ElideOne(q, i, Dir(dir), writes), i, Dir(dir))
  {
    StubsDiffer(q.entries[i].tool, q.entries[i].size, SpillPath(dir, i));
  }

  /** What looking at one entry does. */
  lemma OneStep(q: Pass, i: nat, spill: Spill, writes: nat -> Write)
    requires i < |q.entries|
    ensures Stepped(q, ElideOne(q, i, spill, writes), i, spill)
  {
    match spill
    case Nowhere => NowhereStep(q, i, writes);
    case Dir(dir) => DirStep(q, i, dir, writes);
  }

  lemma EntriesStep(p: Pass, q: Pass, i: nat, spill: Spill, writes: nat -> Write)
    requires EntriesSoFar(p, q, i, spill) && i < |p.entries| && DistinctIds(p.entries)
    ensures EntriesSoFar(p, ElideOne(q, i, spill, writes), i + 1, spill)
  {
    var r := ElideOne(q, i, spill, writes);
    OneStep(q, i, spill, writes);
    OneFile(q, i, spill, writes);
    forall j | 0 <= j < |p.entries|
      ensures r.entries[j] == p.entries[j] || (j < i + 1 && Elided(p.entries[j], r.entries[j], j, r, spill))
    {
      if j != i && q.entries[j] != p.entries[j] {
        if spill.Dir? && SpillPath(spill.dir, j) == SpillPath(spill.dir, i) { SpillPathInjective(spill.dir, i, j); }
        ElidedKept(p.entries[j], q.entries[j], j, q, r, spill);
      }
    }
  }

  lemma AccountsStep(p: Pass, q: Pass, i: nat, spill: Spill, writes: nat -> Write)
    requires AccountsSoFar(p, q) && i < |q.entries|
    ensures AccountsSoFar(p, ElideOne(q, i, spill, writes))
  {
    var r, id := ElideOne(q, i, spill, writes), q.entries[i].callID;
    OneStep(q, i, spill, writes);
    SumSizesUpdate(q.entries, i, r.entries[i]);
    if r.repl.Keys == q.repl.Keys + {id} {
      assert |r.repl.Keys| <= |q.repl.Keys| + 1;
    }
  }

  lemma FilesStep(p: Pass, q: Pass, i: nat, spill: Spill, writes: nat -> Write)
    requires FilesSoFar(p, q, i, spill) && i < |p.entries| == |q.entries| && q.entries[i] == p.entries[i]
    ensures FilesSoFar(p, ElideOne(q, i, spill, writes), i + 1, spill)
  {
    var r := ElideOne(q, i, spill, writes);
    OneFile(q, i, spill, writes);
    forall path | path in p.files && !TouchedPath(p, path, i + 1, spill)
      ensures path in r.files && r.files[path] == p.files[path]
    {
      assert !TouchedPath(p, path, i, spill);
    }
  }

  lemma Weaken(p: Pass, q: Pass, i: nat, k: nat, spill: Spill)
    requires Progress(p, q, i, spill) && i <= k
    ensures Progress(p, q, k, spill)
  {
    forall path | TouchedPath(p, path, i, spill) ensures TouchedPath(p, path, k, spill) {}
  }

  lemma ProgressStep(p: Pass, q: Pass, i: nat, spill: Spill, writes: nat -> Write)
    requires Progress(p, q, i, spill) && i < |p.entries| && DistinctIds(p.entries)
    ensures Progress(p, ElideOne(q, i, spill, writes), i + 1, spill)
  {
    EntriesStep(p, q, i, spill, writes);
    FilesStep(p, q, i, spill, writes);
  }

  lemma {:induction false} ProgressFrom(p: Pass, q: Pass, i: nat, cutoff: int, low: int, spill: Spill, writes: nat -> Write)
    requires Progress(p, q, i, spill) && cutoff <= |p.entries| && DistinctIds(p.entries)
    ensures Progress(p, ElideFrom(q, i, cutoff, low, spill, writes), if i < cutoff then cutoff else i, spill)
    decreases cutoff - i
  {
    if i >= cutoff {
    } else if q.live <= low {
      Weaken(p, q, i, cutoff, spill);
    } else {
      ProgressStep(p, q, i, spill, writes);
      ElideStep(q, i, cutoff, low, spill, writes);
      ProgressFrom(p, ElideOne(q, i, spill, writes), i + 1, cutoff, low, spill, writes);
    }
  }

  /** A whole pass over distinct calls is such progress, confined to entries below the cutoff. */
  lemma SelectProgress(es: seq<Entry>, live: int, files: map<string, bytes>, cp: Policy, spill: Spill, writes: nat -> Write)
    requires DistinctIds(es) && cp.keepRecent >= 0
    ensures var q := Select(es, live, files, cp, spill, writes); var cutoff := ProtectedCutoff(es, cp.keepRecent);
      Progress(Pass(es, live, files, map[], 0), q, if cutoff < 0 then 0 else cutoff, spill)
  {
    var p := Pass(es, live, files, map[], 0);
    var cutoff := ProtectedCutoff(es, cp.keepRecent);
    assert Progress(p, p, 0, spill);
    if Fires(es, live, cp) {
      ProgressFrom(p, p, 0, cutoff, cp.low, spill, writes);
    } else {
      Weaken(p, p, 0, if cutoff < 0 then 0 else cutoff, spill);
    }
  }

  lemma {:induction false} AccountsFrom(p: Pass, q: Pass, i: nat, cutoff: int, low: int, spill: Spill, writes: nat -> Write)
    requires AccountsSoFar(p, q) && cutoff <= |q.entries|
    ensures AccountsSoFar(p, ElideFrom(q, i, cutoff, low, spill, writes))
    decreases cutoff - i
  {
    if i < cutoff && q.live > low {
      ElideStep(q, i, cutoff, low, spill, writes);
      AccountsStep(p, q, i, spill, writes);
      AccountsFrom(p, ElideOne(q, i, spill, writes), i + 1, cutoff, low, spill, writes);
    }
  }

  /** Whatever the call IDs, a pass accounts exactly. */
  lemma SelectAccounts(es: seq<Entry>, live: int, files: map<string, bytes>, cp: Policy, spill: Spill, writes: nat -> Write)
    requires cp.keepRecent >= 0
    ensures AccountsSoFar(Pass(es, live, files, map[], 0), Select(es, live, files, cp, spill, writes))
  {
    var p := Pass(es, live, files, map[], 0);
    if Fires(es, live, cp) {
      AccountsFrom(p, p, 0, ProtectedCutoff(es, cp.keepRecent), cp.low, spill, writes);
    }
  }

  // ----- greed and settling

  /** No pass with these write outcomes can shrink the entry. */
  predicate Stuck(e: Entry, i: nat, spill: Spill, writes: nat -> Write) {
    || e.elided
    || |StubFor(e, i, spill)| >= e.size
    || (spill.Dir? && writes(i).Failed? && |BareStub(e.tool, e.size)| >= e.size)
  }

  lemma ElideOneShrinksUnlessStuck(q: Pass, i: nat, spill: Spill, writes: nat -> Write)
    requires i < |q.entries|
    ensures var r := ElideOne(q, i, spill, writes);
      && Stuck(r.entries[i], i, spill, writes)
      && (forall j | 0 <= j < |q.entries| && j != i :: r.entries[j] == q.entries[j])
      && (if Stuck(q.entries[i], i, spill, writes) then r.repl == q.repl && r.live == q.live && r.entries == q.entries
          else r.repl != map[] && r.live < q.live)
      && (q.repl != map[] ==> r.repl != map[])
  {
    var id := q.entries[i].callID;
    var r := ElideOne(q, i, spill, writes);
    assert Stuck(q.entries[i], i, spill, writes) || id in r.repl;
    assert r.repl == q.repl || id in r.repl;
  }

  /** Afterwards live bytes are at or below the low mark, or nothing below the cutoff can shrink. */
  lemma {:induction false} ElideFromSettles(q: Pass, i: nat, cutoff: int, low: int, spill: Spill, writes: nat -> Write)
    requires cutoff <= |q.entries|
    ensures var r := ElideFrom(q, i, cutoff, low, spill, writes);
      && (forall j | 0 <= j < |q.entries| && j < i :: r.entries[j] == q.entries[j])
      && (r.live <= low || forall j | i <= j < cutoff :: Stuck(r.entries[j], j, spill, writes))
    decreases cutoff - i
  {
    if i < cutoff && q.live > low {
      ElideStep(q, i, cutoff, low, spill, writes);
      ElideOneShrinksUnlessStuck(q, i, spill, writes);
      ElideFromSettles(ElideOne(q, i, spill, writes), i + 1, cutoff, low, spill, writes);
    }
  }

  lemma {:induction false} ElideFromKeepsReplacements(q: Pass, i: nat, cutoff: int, low: int, spill: Spill, writes: nat -> Write)
    requires cutoff <= |q.entries| && q.repl != map[]
    ensures ElideFrom(q, i, cutoff, low, spill, writes).repl != map[]
    decreases cutoff - i
  {
    if i < cutoff && q.live > low {
      ElideStep(q, i, cutoff, low, spill, writes);
      ElideOneShrinksUnlessStuck(q, i, spill, writes);
      ElideFromKeepsReplacements(ElideOne(q, i, spill, writes), i + 1, cutoff, low, spill, writes);
    }
  }

  lemma {:induction false} ElideFromElides(q: Pass, i: nat, cutoff: int, low: int, spill: Spill, writes: nat -> Write)
    requires cutoff <= |q.entries| && q.repl == map[] && q.live > low
    ensures ElideFrom(q, i, cutoff, low, spill, writes).repl != map[]
      <==> exists j | i <= j < cutoff :: !Stuck(q.entries[j], j, spill, writes)
    ensures ElideFrom(q, i, cutoff, low, spill, writes).repl == map[]
      ==> ElideFrom(q, i, cutoff, low, spill, writes).entries == q.entries
    decreases cutoff - i
  {
    if i < cutoff {
      ElideStep(q, i, cutoff, low, spill, writes);
      ElideOneShrinksUnlessStuck(q, i, spill, writes);
      var r := ElideOne(q, i, spill, writes);
      if Stuck(q.entries[i], i, spill, writes) {
        ElideFromElides(r, i + 1, cutoff, low, spill, writes);
      } else {
        ElideFromKeepsReplacements(r, i + 1, cutoff, low, spill, writes);
      }
    }
  }

  /** A pass rewrites history exactly when live bytes are over an enabled budget and some entry, older
      than the newest ones kept and than the newest round, can shrink. */
  lemma PassRewritesWhen(es: seq<Entry>, live: int, files: map<string, bytes>, cp: Policy, spill: Spill, writes: nat -> Write)
    requires cp.keepRecent >= 0 && (ElisionEnabled(cp) ==> cp.low < cp.budget)
    ensures Select(es, live, files, cp, spill, writes).repl != map[]
      <==> && cp.budget > 0 && live > cp.budget
           && exists j | 0 <= j < |es| :: Eligible(es, cp.keepRecent, j) && !Stuck(es[j], j, spill, writes)
  {
    var cutoff := ProtectedCutoff(es, cp.keepRecent);
    forall j: nat ensures j < cutoff <==> Eligible(es, cp.keepRecent, j) { CutoffExactly(es, cp.keepRecent, j); }
    if Fires(es, live, cp) {
      ElideFromElides(Pass(es, live, files, map[], 0), 0, cutoff, cp.low, spill, writes);
    }
  }

  /** A pass that fired leaves live at the low mark or nothing to shrink. */
  lemma PassSettles(es: seq<Entry>, live: int, files: map<string, bytes>, cp: Policy, spill: Spill, writes: nat -> Write)
    requires cp.keepRecent >= 0 && cp.budget > 0 && live > cp.budget
    ensures var q := Select(es, live, files, cp, spill, writes);
      q.live <= cp.low || forall j | 0 <= j < |es| && Eligible(es, cp.keepRecent, j) :: Stuck(q.entries[j], j, spill, writes)
  {
    var cutoff := ProtectedCutoff(es, cp.keepRecent);
    ElideFromSettles(Pass(es, live, files, map[], 0), 0, cutoff, cp.low, spill, writes);
    var q := Select(es, live, files, cp, spill, writes);
    assert q == ElideFrom(Pass(es, live, files, map[], 0), 0, cutoff, cp.low, spill, writes);
    forall j: nat | Eligible(es, cp.keepRecent, j) ensures j < cutoff { CutoffExactly(es, cp.keepRecent, j); }
  }

  lemma SameEligible(es: seq<Entry>, fs: seq<Entry>, keepRecent: int, i: nat)
    requires |es| == |fs| && forall i | 0 <= i < |es| :: es[i].round == fs[i].round
    ensures Eligible(es, keepRecent, i) <==> Eligible(fs, keepRecent, i)
  {
  }
}
