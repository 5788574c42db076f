/** What every reachable state of an agent loop keeps. */
module LoopSafety {
  import opened ByteText
  import opened Conversation
  import opened Providers
  import opened ToolResultLedger
  import opened Elision
  import opened GreedyPass
  import opened AgentLoop

  // ----- the shape of the conversation, for any run

  /** The history a run leaves is the seed followed by its turns, with unanswered calls at the end
      only after a budget halt. */
  ghost predicate WellShaped(run: Run, seed: History) {
    && (forall k | 0 <= k < |run.requests| :: Follows(run.requests[k].history, seed, run.requests[k].turns))
    && (run.stop.BudgetHalt? || Follows(run.history, seed, run.turns))
  }

  lemma LayoutOfResults(env: Env, n: nat, calls: seq<Call>)
    ensures Skeleton([Assistant(calls)] + ResultMsgs(RoundResults(env, n, calls))) == Layout(Round(calls))
  {
  }

  lemma RequestRecorded(before: Run, run: Run, seed: History)
    requires WellShaped(before, seed) && before.stop.Running?
    requires run.requests == before.requests + [Request(before.history, before.turns)]
    requires run.stop.BudgetHalt? || Follows(run.history, seed, run.turns)
    ensures WellShaped(run, seed)
  {
  }

  lemma RoundKeepsShape(env: Env, run: Run, n: nat, seed: History, next: Run)
    requires env.policy.keepRecent >= 0 && run.stop.Running? && WellShaped(run, seed)
    requires next == RunRound(env, run, n)
    ensures WellShaped(next, seed)
  {
    var chatted := Chatted(env, run, n);
    if chatted.stop.Running? && ReplyAt(env, n).ChatDone? {
      var calls := ReplyAt(env, n).calls;
      var recorded := AfterResults(env, chatted, n, calls);
      RecordedFollows(env, run, n, seed, calls);
      assert recorded.history == WithRound(env, run, n, calls);
      FollowsReplaced(recorded.history, seed, recorded.turns, ElisionPass(env, recorded, n).repl);
    }
    RequestRecorded(run, next, seed);
  }

  function WithRound(env: Env, run: Run, n: nat, calls: seq<Call>): History {
    run.history + [Assistant(calls)] + ResultMsgs(RoundResults(env, n, calls))
  }

  lemma RecordedFollows(env: Env, run: Run, n: nat, seed: History, calls: seq<Call>)
    requires Follows(run.history, seed, run.turns)
    ensures Follows(WithRound(env, run, n, calls), seed, run.turns + [Round(calls)])
  {
    var results := ResultMsgs(RoundResults(env, n, calls));
    LayoutOfResults(env, n, calls);
    FollowsNext(run.history, seed, run.turns, [Assistant(calls)] + results, Round(calls));
    Associate(run.history, [Assistant(calls)], results);
  }

  /** At every request of every run, whatever the replies and outputs, the history is exactly the
      seed followed by call rounds, each answered by one result a call in order. */
  lemma RunKeepsShape(env: Env, start: Run, n: nat, seed: History)
    requires env.policy.keepRecent >= 0 && start.stop.Running? && WellShaped(start, seed)
    ensures WellShaped(Rounds(env, start, n), seed)
  {
    assert Rounds(env, start, 0) == start;
    for i := 0 to n
      invariant WellShaped(Rounds(env, start, i), seed)
    {
      NextKeepsShape(env, start, i, seed);
    }
  }

  lemma NextKeepsShape(env: Env, start: Run, n: nat, seed: History)
    requires env.policy.keepRecent >= 0 && WellShaped(Rounds(env, start, n), seed)
    ensures WellShaped(Rounds(env, start, n + 1), seed)
  {
    RoundsStep(env, start, n);
    if Rounds(env, start, n).stop.Running? {
      RoundKeepsShape(env, Rounds(env, start, n), n, seed, Rounds(env, start, n + 1));
    }
  }

  /** For a run that returns without error, the budget test on the returned totals says whether it
      was the budget that stopped it. */
  lemma HaltedExactlyOnBudget(env: Env, start: Run, n: nat)
    requires env.policy.keepRecent >= 0 && StoppedByBudget(env, start)
    ensures StoppedByBudget(env, Rounds(env, start, n))
  {
    assert Rounds(env, start, 0) == start;
    for i := 0 to n
      invariant StoppedByBudget(env, Rounds(env, start, i))
    {
      NextStoppedByBudget(env, start, i);
    }
  }

  predicate StoppedByBudget(env: Env, run: Run) {
    run.stop.BudgetHalt? <==> Halts(env.budget, run.inTok, run.outTok)
  }

  lemma NextStoppedByBudget(env: Env, start: Run, n: nat)
    requires env.policy.keepRecent >= 0 && StoppedByBudget(env, Rounds(env, start, n))
    ensures StoppedByBudget(env, Rounds(env, start, n + 1))
  {
    RoundsStep(env, start, n);
  }

  // ----- the ledger, the history and the files agree

  /** A recorded result and its ledger entry: verbatim until elided; afterwards a placeholder, and
      one that names a file names a file holding all of what was inserted. */
  predicate Agrees(m: Msg, e: Entry, inserted: bytes, j: nat, files: map<string, bytes>, spill: Spill) {
    && m.Result? && m.callID == e.callID && |m.content| == e.size
    && (!e.elided ==> m.content == e.content == inserted)
    && (e.elided ==>
        || m.content == BareStub(e.tool, |inserted|)
        || (spill.Dir? && m.content == SpilledStub(e.tool, |inserted|, SpillPath(spill.dir, j))
            && FileHas(files, SpillPath(spill.dir, j), inserted)))
  }

  predicate FileHas(files: map<string, bytes>, path: string, content: bytes) {
    path in files && files[path] == content
  }

  /** The results of the loop whose conversation started with `base` results. */
  function Own(h: History, base: nat): History {
    if base <= |Results(h)| then Results(h)[base..] else []
  }

  lemma OwnAppend(h: History, rs: History, base: nat)
    requires base <= |Results(h)| && forall i | 0 <= i < |rs| :: rs[i].Result?
    ensures base <= |Results(h + rs)| && Own(h + rs, base) == Own(h, base) + rs
  {
    ResultsAppend(h, rs);
    ResultsOfResults(rs);
  }

  lemma OwnReplaced(h: History, repl: map<string, bytes>, base: nat)
    requires base <= |Results(h)|
    ensures base <= |Results(Replaced(h, repl))| && Own(Replaced(h, repl), base) == Replaced(Own(h, base), repl)
  {
    ResultsReplaced(h, repl);
  }

  ghost predicate AllAgree(rs: History, es: seq<Entry>, inserted: seq<bytes>, from: nat,
                           files: map<string, bytes>, spill: Spill) {
    && |rs| == |es| == |inserted|
    && forall j | 0 <= j < |rs| :: Agrees(rs[j], es[j], inserted[j], from + j, files, spill)
  }

  ghost predicate Aligned(run: Run, base: nat, spill: Spill) {
    base <= |Results(run.history)| && AllAgree(Own(run.history, base), run.entries, run.inserted, 0, run.files, spill)
  }

  /** The ledger's count is the sum of its entries' sizes. */
  predicate Counted(run: Run) {
    run.live == SumSizes(run.entries)
  }

  lemma ChatKeepsAligned(env: Env, run: Run, n: nat, base: nat)
    requires Aligned(run, base, env.spill)
    ensures Aligned(Chatted(env, run, n), base, env.spill)
  {
    var h := AfterChat(run.history, ReplyAt(env, n));
    if h != run.history {
      var last := [Assistant(ReplyAt(env, n).calls)];
      ResultsAppend(run.history, last);
      assert Results(last) == Results(last[..0]);
    }
    assert Results(h) == Results(run.history);
  }

  lemma ResultsKeepAligned(env: Env, run: Run, n: nat, base: nat, calls: seq<Call>)
    requires Aligned(run, base, env.spill)
    ensures Aligned(AfterResults(env, run, n, calls), base, env.spill)
  {
    var results := ResultMsgs(RoundResults(env, n, calls));
    OwnAppend(run.history, results, base);
    forall k | 0 <= k < |calls|
      ensures Agrees(results[k], RoundEntries(env, n, calls)[k], RoundContents(env, n, calls)[k],
                     |run.entries| + k, run.files, env.spill)
    {
      InsertedAgrees(env, n, calls, k, |run.entries| + k, run.files);
    }
    AgreeAppend(Own(run.history, base), run.entries, run.inserted,
                results, RoundEntries(env, n, calls), RoundContents(env, n, calls), run.files, env.spill);
  }

  lemma AgreeAppend(rs: History, es: seq<Entry>, ins: seq<bytes>, rs': History, es': seq<Entry>, ins': seq<bytes>,
                    files: map<string, bytes>, spill: Spill)
    requires AllAgree(rs, es, ins, 0, files, spill) && AllAgree(rs', es', ins', |rs|, files, spill)
    ensures AllAgree(rs + rs', es + es', ins + ins', 0, files, spill)
  {
    forall j | 0 <= j < |rs + rs'|
      ensures Agrees((rs + rs')[j], (es + es')[j], (ins + ins')[j], j, files, spill)
    {
      if j >= |rs| { assert Agrees(rs'[j - |rs|], es'[j - |rs|], ins'[j - |rs|], |rs| + (j - |rs|), files, spill); }
    }
  }

  lemma InsertedAgrees(env: Env, n: nat, calls: seq<Call>, k: nat, j: nat, files: map<string, bytes>)
    requires k < |calls|
    ensures Agrees(ResultMsgs(RoundResults(env, n, calls))[k], RoundEntries(env, n, calls)[k],
                   RoundContents(env, n, calls)[k], j, files, env.spill)
  {
  }

  /** The files of results elided earlier are not written again. */
  lemma OldFilesStay(p: Pass, path: string, i: nat, spill: Spill, j: nat)
    requires spill.Dir? && j < |p.entries| && p.entries[j].elided && path == SpillPath(spill.dir, j)
    ensures !TouchedPath(p, path, i, spill)
  {
    if TouchedPath(p, path, i, spill) {
      var k :| 0 <= k < i && k < |p.entries| && !p.entries[k].elided && path == SpillPath(spill.dir, k);
      SpillPathInjective(spill.dir, j, k);
    }
  }

  /** A result a pass did not elide. */
  lemma UntouchedAgrees(m: Msg, p: Pass, q: Pass, i: nat, j: nat, spill: Spill, inserted: bytes)
    requires Progress(p, q, i, spill) && j < |p.entries| && q.entries[j] == p.entries[j]
    requires Agrees(m, p.entries[j], inserted, j, p.files, spill)
    ensures ReplaceMsg(m, q.repl) == m && Agrees(m, p.entries[j], inserted, j, q.files, spill)
  {
    if p.entries[j].elided && spill.Dir? { OldFilesStay(p, SpillPath(spill.dir, j), i, spill, j); }
  }

  /** A result a pass elided. */
  lemma ElidedAgrees(m: Msg, e: Entry, f: Entry, j: nat, q: Pass, spill: Spill, inserted: bytes, files: map<string, bytes>)
    requires Elided(e, f, j, q, spill) && Agrees(m, e, inserted, j, files, spill)
    ensures Agrees(ReplaceMsg(m, q.repl), f, inserted, j, q.files, spill)
  {
  }

  lemma ReplacedAgrees(m: Msg, p: Pass, q: Pass, i: nat, j: nat, spill: Spill, inserted: bytes)
    requires Progress(p, q, i, spill) && j < |p.entries|
    requires Agrees(m, p.entries[j], inserted, j, p.files, spill)
    ensures Agrees(ReplaceMsg(m, q.repl), q.entries[j], inserted, j, q.files, spill)
  {
    if q.entries[j] == p.entries[j] {
      UntouchedAgrees(m, p, q, i, j, spill, inserted);
    } else {
      ElidedAgrees(m, p.entries[j], q.entries[j], j, q, spill, inserted, p.files);
    }
  }

  /** What an elision pass does to the entries of a run. */
  lemma PassOverRun(env: Env, run: Run, n: nat) returns (i: nat)
    requires env.policy.keepRecent >= 0 && DistinctIds(run.entries)
    ensures var p, q := Pass(run.entries, run.live, run.files, map[], 0), ElisionPass(env, run, n);
      Progress(p, q, i, env.spill)
    ensures i == 0 || i == ProtectedCutoff(run.entries, env.policy.keepRecent)
    ensures AfterElision(env, run, n).history == Replaced(run.history, ElisionPass(env, run, n).repl)
  {
    var cutoff := ProtectedCutoff(run.entries, env.policy.keepRecent);
    i := if cutoff < 0 then 0 else cutoff;
    SelectProgress(run.entries, run.live, run.files, env.policy, env.spill, env.writes(n));
    assert Replaced(run.history, map[]) == run.history;
  }

  lemma AgreeReplaced(own: History, p: Pass, q: Pass, i: nat, inserted: seq<bytes>, spill: Spill)
    requires Progress(p, q, i, spill) && AllAgree(own, p.entries, inserted, 0, p.files, spill)
    ensures AllAgree(Replaced(own, q.repl), q.entries, inserted, 0, q.files, spill)
  {
    forall j | 0 <= j < |own|
      ensures Agrees(ReplaceMsg(own[j], q.repl), q.entries[j], inserted[j], 0 + j, q.files, spill)
    {
      assert Agrees(own[j], p.entries[j], inserted[j], 0 + j, p.files, spill);
      ReplacedAgrees(own[j], p, q, i, j, spill, inserted[j]);
    }
  }

  lemma ElisionKeepsAligned(env: Env, run: Run, n: nat, base: nat)
    requires env.policy.keepRecent >= 0 && DistinctIds(run.entries) && Aligned(run, base, env.spill)
    ensures Aligned(AfterElision(env, run, n), base, env.spill)
  {
    var p, q := Pass(run.entries, run.live, run.files, map[], 0), ElisionPass(env, run, n);
    var i := PassOverRun(env, run, n);
    OwnReplaced(run.history, q.repl, base);
    AgreeReplaced(Own(run.history, base), p, q, i, run.inserted, env.spill);
  }

  /** A pass keeps every entry's call, tool and round. */
  lemma PassKeepsIds(es: seq<Entry>, live: int, files: map<string, bytes>, cp: Policy, spill: Spill, writes: nat -> Write)
    requires cp.keepRecent >= 0
    ensures var q := Select(es, live, files, cp, spill, writes);
      forall j | 0 <= j < |es| ::
        q.entries[j].callID == es[j].callID && q.entries[j].tool == es[j].tool && q.entries[j].round == es[j].round
  {
    PassTakesExactly(es, live, files, cp, spill, writes);
  }

  // ----- over whole runs

  lemma NextCounted(env: Env, start: Run, n: nat)
    requires env.policy.keepRecent >= 0 && Counted(Rounds(env, start, n))
    ensures Counted(Rounds(env, start, n + 1))
  {
    RoundsStep(env, start, n);
    var run := Rounds(env, start, n);
    if run.stop.Running? { RoundCounted(env, run, n, Rounds(env, start, n + 1)); }
  }

  lemma RoundCounted(env: Env, run: Run, n: nat, next: Run)
    requires env.policy.keepRecent >= 0 && Counted(run) && next == RunRound(env, run, n)
    ensures Counted(next)
  {
    var chatted := Chatted(env, run, n);
    if chatted.stop.Running? && ReplyAt(env, n).ChatDone? {
      var recorded := AfterResults(env, chatted, n, ReplyAt(env, n).calls);
      SumSizesAppend(chatted.entries, RoundEntries(env, n, ReplyAt(env, n).calls));
      SelectAccounts(recorded.entries, recorded.live, recorded.files, env.policy, env.spill, env.writes(n));
    }
  }

  /** The ledger's count is exact in every reachable state, whatever the call IDs. */
  lemma LedgerCounts(env: Env, start: Run, n: nat)
    requires env.policy.keepRecent >= 0 && Counted(start)
    ensures Counted(Rounds(env, start, n))
  {
    assert Rounds(env, start, 0) == start;
    for i := 0 to n
      invariant Counted(Rounds(env, start, i))
    {
      NextCounted(env, start, i);
    }
  }

  /** Of a run with distinct call IDs, history, ledger and files agree. */
  ghost predicate AlignedIfDistinct(run: Run, base: nat, spill: Spill) {
    DistinctIds(run.entries) ==> Aligned(run, base, spill)
  }

  /** The results of a round and its pass. */
  lemma RecordKeepsAligned(env: Env, run: Run, n: nat, base: nat, calls: seq<Call>)
    requires env.policy.keepRecent >= 0 && (DistinctIds(run.entries) ==> Aligned(run, base, env.spill))
    ensures AlignedIfDistinct(AfterElision(env, AfterResults(env, run, n, calls), n), base, env.spill)
  {
    var recorded := AfterResults(env, run, n, calls);
    PassKeepsIds(recorded.entries, recorded.live, recorded.files, env.policy, env.spill, env.writes(n));
    if DistinctIds(recorded.entries) {
      DistinctPrefix(run.entries, RoundEntries(env, n, calls));
      ResultsKeepAligned(env, run, n, base, calls);
      ElisionKeepsAligned(env, recorded, n, base);
    }
  }

  lemma RoundKeepsAligned(env: Env, run: Run, n: nat, base: nat, next: Run)
    requires env.policy.keepRecent >= 0 && next == RunRound(env, run, n) && AlignedIfDistinct(run, base, env.spill)
    ensures AlignedIfDistinct(next, base, env.spill)
  {
    var chatted := Chatted(env, run, n);
    if DistinctIds(run.entries) { ChatKeepsAligned(env, run, n, base); }
    if chatted.stop.Running? && ReplyAt(env, n).ChatDone? {
      RecordKeepsAligned(env, chatted, n, base, ReplyAt(env, n).calls);
    }
  }

  lemma DistinctPrefix(es: seq<Entry>, fs: seq<Entry>)
    requires DistinctIds(es + fs)
    ensures DistinctIds(es)
  {
    forall i, j | 0 <= i < j < |es| ensures es[i].callID != es[j].callID {
      assert (es + fs)[i] == es[i] && (es + fs)[j] == es[j];
    }
  }

  lemma NextAligned(env: Env, start: Run, n: nat, base: nat)
    requires env.policy.keepRecent >= 0 && AlignedIfDistinct(Rounds(env, start, n), base, env.spill)
    ensures AlignedIfDistinct(Rounds(env, start, n + 1), base, env.spill)
  {
    RoundsStep(env, start, n);
    var run := Rounds(env, start, n);
    if run.stop.Running? { RoundKeepsAligned(env, run, n, base, Rounds(env, start, n + 1)); }
  }

  lemma RunStaysAligned(env: Env, start: Run, n: nat, base: nat)
    requires env.policy.keepRecent >= 0 && AlignedIfDistinct(start, base, env.spill)
    ensures AlignedIfDistinct(Rounds(env, start, n), base, env.spill)
  {
    assert Rounds(env, start, 0) == start;
    for i := 0 to n
      invariant AlignedIfDistinct(Rounds(env, start, i), base, env.spill)
    {
      NextAligned(env, start, i, base);
    }
  }

  lemma FreshRunAligned(h: History, files: map<string, bytes>, requests: seq<Request>, turns: seq<Turn>, spill: Spill)
    ensures AlignedIfDistinct(Start(h, files, requests, turns), |Results(h)|, spill)
    ensures Counted(Start(h, files, requests, turns))
  {
  }

  function TotalContent(rs: History): nat {
    if rs == [] then 0
    else TotalContent(rs[..|rs| - 1]) + if rs[|rs| - 1].Result? then |rs[|rs| - 1].content| else 0
  }

  lemma {:induction false} AgreeingSizes(rs: History, es: seq<Entry>, ins: seq<bytes>, files: map<string, bytes>, spill: Spill)
    requires AllAgree(rs, es, ins, 0, files, spill)
    ensures TotalContent(rs) == SumSizes(es)
  {
    if rs != [] {
      var k := |rs| - 1;
      assert Agrees(rs[k], es[k], ins[k], 0 + k, files, spill);
      forall j | 0 <= j < k ensures Agrees(rs[..k][j], es[..k][j], ins[..k][j], 0 + j, files, spill) {
        assert Agrees(rs[j], es[j], ins[j], 0 + j, files, spill);
      }
      AgreeingSizes(rs[..k], es[..k], ins[..k], files, spill);
    }
  }

  /** With distinct call IDs, the live count is the content this loop's results have in the conversation. */
  lemma LiveIsContentInHistory(env: Env, h: History, files: map<string, bytes>, requests: seq<Request>, turns: seq<Turn>, n: nat)
    requires env.policy.keepRecent >= 0
    requires DistinctIds(Rounds(env, Start(h, files, requests, turns), n).entries)
    ensures var run := Rounds(env, Start(h, files, requests, turns), n);
      run.live == SumSizes(run.entries) == TotalContent(Own(run.history, |Results(h)|))
  {
    FreshRunAligned(h, files, requests, turns, env.spill);
    var start := Start(h, files, requests, turns);
    RunStaysAligned(env, start, n, |Results(h)|);
    LedgerCounts(env, start, n);
    var run := Rounds(env, start, n);
    AgreeingSizes(Own(run.history, |Results(h)|), run.entries, run.inserted, run.files, env.spill);
  }

  /** With distinct call IDs, whatever writes failed, an elided result reads as a bare placeholder, or
      as one that names its own file, and that file has the result in full. */
  lemma ElisionIsRecoverable(env: Env, h: History, files: map<string, bytes>, requests: seq<Request>, turns: seq<Turn>,
                             n: nat, j: nat)
    requires env.policy.keepRecent >= 0
    requires var run := Rounds(env, Start(h, files, requests, turns), n);
      DistinctIds(run.entries) && j < |run.entries| && run.entries[j].elided
    ensures var run := Rounds(env, Start(h, files, requests, turns), n); var own := Own(run.history, |Results(h)|);
      && j < |own| && j < |run.inserted| && own[j].Result?
      && (|| own[j].content == BareStub(run.entries[j].tool, |run.inserted[j]|)
          || (&& env.spill.Dir?
              && own[j].content == SpilledStub(run.entries[j].tool, |run.inserted[j]|, SpillPath(env.spill.dir, j))
              && FileHas(run.files, SpillPath(env.spill.dir, j), run.inserted[j])))
  {
    FreshRunAligned(h, files, requests, turns, env.spill);
    RunStaysAligned(env, Start(h, files, requests, turns), n, |Results(h)|);
    var run := Rounds(env, Start(h, files, requests, turns), n);
    assert Agrees(Own(run.history, |Results(h)|)[j], run.entries[j], run.inserted[j], 0 + j, run.files, env.spill);
  }
}
