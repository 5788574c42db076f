/** Elision passes over whole runs and chains: what is left to shrink whenever a request goes out, and
    how long the file that a placeholder names holds the result. */
module RunPasses {
  import opened ByteText
  import opened Conversation
  import opened ToolResultLedger
  import opened Elision
  import opened GreedyPass
  import opened AgentLoop
  import opened LoopSafety
  import opened SentFirst
  import opened GateChain

  // ----- live bytes

  /** Elision is off, live bytes are within the budget, or no entry older than the newest ones kept and
      than the newest round could have shrunk in round n. */
  ghost predicate Settled(env: Env, run: Run, n: nat) {
    || env.policy.budget <= 0 || run.live <= env.policy.budget
    || forall j | 0 <= j < |run.entries| && Eligible(run.entries, env.policy.keepRecent, j) ::
         Stuck(run.entries[j], j, env.spill, env.writes(n))
  }

  lemma PassLeavesSettled(env: Env, recorded: Run, next: Run, n: nat)
    requires env.policy.keepRecent >= 0 && (env.policy.budget > 0 ==> env.policy.low < env.policy.budget)
    requires next == AfterElision(env, recorded, n)
    ensures Settled(env, next, n)
  {
    var es, live, files, cp := recorded.entries, recorded.live, recorded.files, env.policy;
    if cp.budget > 0 && live > cp.budget {
      PassSettles(es, live, files, cp, env.spill, env.writes(n));
      PassTakesExactly(es, live, files, cp, env.spill, env.writes(n));
      forall j: nat | Eligible(next.entries, cp.keepRecent, j) ensures Eligible(es, cp.keepRecent, j) {
        SameEligible(es, next.entries, cp.keepRecent, j);
      }
    }
  }

  /** A run that goes on after round n ran its calls. */
  lemma GoesOnByCalls(env: Env, start: Run, n: nat)
    requires env.policy.keepRecent >= 0 && Rounds(env, start, n + 1).stop.Running?
    ensures RunsCalls(env, Rounds(env, start, n), n)
  {
    RoundsStep(env, start, n);
  }

  lemma NextInOrder(env: Env, start: Run, n: nat)
    requires env.policy.keepRecent >= 0 && RoundsInOrder(Rounds(env, start, n).entries, n)
    ensures RoundsInOrder(Rounds(env, start, n + 1).entries, n + 1)
  {
    RoundsStep(env, start, n);
    var run := Rounds(env, start, n);
    if RunsCalls(env, run, n) {
      NextIsAfterElision(env, start, n);
      RecordedInOrder(env, run, Recorded(env, run, n), Rounds(env, start, n + 1), n);
    }
  }

  lemma RecordedInOrder(env: Env, run: Run, recorded: Run, next: Run, n: nat)
    requires env.policy.keepRecent >= 0 && RoundsInOrder(run.entries, n) && RunsCalls(env, run, n)
    requires recorded == Recorded(env, run, n) && next == AfterElision(env, recorded, n)
    ensures RoundsInOrder(next.entries, n + 1)
  {
    AppendInOrder(run.entries, RoundEntries(env, n, ReplyAt(env, n).calls), n);
    PassKeepsIds(recorded.entries, recorded.live, recorded.files, env.policy, env.spill, env.writes(n));
  }

  lemma RunInOrder(env: Env, start: Run, n: nat)
    requires env.policy.keepRecent >= 0 && RoundsInOrder(start.entries, 0)
    ensures RoundsInOrder(Rounds(env, start, n).entries, n)
  {
    assert Rounds(env, start, 0) == start;
    for i := 0 to n
      invariant RoundsInOrder(Rounds(env, start, i).entries, i)
    {
      NextInOrder(env, start, i);
    }
  }

  /** Whenever another request goes out, whatever the call IDs and the write outcomes, live bytes are
      within the budget, or no result that is neither among the newest kept nor of the newest round
      could have shrunk. */
  lemma EveryRequestSettled(env: Env, start: Run, n: nat)
    requires env.policy.keepRecent >= 0 && (env.policy.budget > 0 ==> env.policy.low < env.policy.budget)
    requires Rounds(env, start, n + 1).stop.Running?
    ensures Settled(env, Rounds(env, start, n + 1), n)
    ensures RoundsInOrder(start.entries, 0) ==> SettledInOrder(env, Rounds(env, start, n + 1), n)
  {
    GoesOnByCalls(env, start, n);
    NextIsAfterElision(env, start, n);
    var next := Rounds(env, start, n + 1);
    PassLeavesSettled(env, Recorded(env, Rounds(env, start, n), n), next, n);
    if RoundsInOrder(start.entries, 0) {
      RunInOrder(env, start, n + 1);
      InOrderSettled(env, next, n);
    }
  }

  /** The same, by the numbers of the rounds. */
  ghost predicate SettledInOrder(env: Env, run: Run, n: nat) {
    var es := run.entries;
    || env.policy.budget <= 0 || run.live <= env.policy.budget
    || forall j | 0 <= j < |es| && j + env.policy.keepRecent < |es| && es[j].round < es[|es| - 1].round ::
         Stuck(es[j], j, env.spill, env.writes(n))
  }

  lemma InOrderSettled(env: Env, run: Run, n: nat)
    requires RoundsInOrder(run.entries, n + 1) && Settled(env, run, n)
    ensures SettledInOrder(env, run, n)
  {
    var es := run.entries;
    forall j: nat | j < |es| && j + env.policy.keepRecent < |es| && es[j].round < es[|es| - 1].round
      ensures Eligible(es, env.policy.keepRecent, j)
    {
      EligibleInOrder(es, env.policy.keepRecent, j);
    }
  }

  // ----- a spill file over the rounds of a run

  /** The file of a ledger's j-th entry has this content. */
  predicate Has(files: map<string, bytes>, dir: string, j: nat, content: bytes) {
    Find(files, SpillPath(dir, j)) == Some(content)
  }

  /** A write of `mine` over a file with other content leaves something else there. */
  predicate LeavesOther(w: Write, mine: bytes, content: bytes) {
    match w
    case Wrote => mine != content
    case Failed(Some(part)) => part != content
    case Failed(None) => false
  }

  /** Round n's pass tries to write entry j, and what it leaves is not `content`. */
  predicate Disturbs(env: Env, run: Run, n: nat, j: nat, content: bytes)
    requires env.policy.keepRecent >= 0
  {
    RunsCalls(env, run, n) &&
    var pl := RoundPlan(env, Recorded(env, run, n), n);
    Tries(pl, env.spill, j) && LeavesOther(env.writes(n)(j), pl.es[j].content, content)
  }

  lemma PassKeepsFileExactly(env: Env, recorded: Run, next: Run, n: nat, dir: string, j: nat, content: bytes)
    requires env.policy.keepRecent >= 0 && env.spill == Dir(dir) && Has(recorded.files, dir, j, content)
    requires next == AfterElision(env, recorded, n)
    ensures var pl := RoundPlan(env, recorded, n);
      Has(next.files, dir, j, content)
      <==> !(Tries(pl, env.spill, j) && LeavesOther(env.writes(n)(j), pl.es[j].content, content))
  {
    PassWritesExactly(recorded.entries, recorded.live, recorded.files, env.policy, dir, env.writes(n), j);
  }

  lemma NextFiles(env: Env, start: Run, n: nat)
    requires env.policy.keepRecent >= 0 && !RunsCalls(env, Rounds(env, start, n), n)
    ensures Rounds(env, start, n + 1).files == Rounds(env, start, n).files
  {
    RoundsStep(env, start, n);
  }

  lemma RoundKeepsFileExactly(env: Env, start: Run, n: nat, dir: string, j: nat, content: bytes)
    requires env.policy.keepRecent >= 0 && env.spill == Dir(dir) && Has(Rounds(env, start, n).files, dir, j, content)
    ensures Has(Rounds(env, start, n + 1).files, dir, j, content)
      <==> !Disturbs(env, Rounds(env, start, n), n, j, content)
  {
    if RunsCalls(env, Rounds(env, start, n), n) {
      NextIsAfterElision(env, start, n);
      PassKeepsFileExactly(env, Recorded(env, Rounds(env, start, n), n), Rounds(env, start, n + 1), n, dir, j, content);
    } else {
      NextFiles(env, start, n);
    }
  }

  ghost predicate HasAllAlong(env: Env, start: Run, n: nat, dir: string, j: nat, content: bytes)
    requires env.policy.keepRecent >= 0
  {
    forall t: nat | t <= n :: Has(Rounds(env, start, t).files, dir, j, content)
  }

  ghost predicate Undisturbed(env: Env, start: Run, n: nat, j: nat, content: bytes)
    requires env.policy.keepRecent >= 0
  {
    forall t: nat | t < n :: !Disturbs(env, Rounds(env, start, t), t, j, content)
  }

  lemma NextAllAlong(env: Env, start: Run, n: nat, dir: string, j: nat, content: bytes)
    requires env.policy.keepRecent >= 0
    ensures HasAllAlong(env, start, n + 1, dir, j, content)
      <==> HasAllAlong(env, start, n, dir, j, content) && Has(Rounds(env, start, n + 1).files, dir, j, content)
  {
  }

  lemma NextUndisturbed(env: Env, start: Run, n: nat, j: nat, content: bytes)
    requires env.policy.keepRecent >= 0
    ensures Undisturbed(env, start, n + 1, j, content)
      <==> Undisturbed(env, start, n, j, content) && !Disturbs(env, Rounds(env, start, n), n, j, content)
  {
  }

  lemma NextKeepsFileExactly(env: Env, start: Run, n: nat, dir: string, j: nat, content: bytes)
    requires env.policy.keepRecent >= 0 && env.spill == Dir(dir)
    requires HasAllAlong(env, start, n, dir, j, content) <==> Undisturbed(env, start, n, j, content)
    ensures HasAllAlong(env, start, n + 1, dir, j, content) <==> Undisturbed(env, start, n + 1, j, content)
  {
    NextAllAlong(env, start, n, dir, j, content);
    NextUndisturbed(env, start, n, j, content);
    if HasAllAlong(env, start, n, dir, j, content) {
      assert Has(Rounds(env, start, n).files, dir, j, content);
      RoundKeepsFileExactly(env, start, n, dir, j, content);
    }
  }

  /** Over a run, a spill file with some content keeps it exactly as long as no pass gets to the entry
      of the file's index and leaves anything else. */
  lemma RunKeepsFileExactly(env: Env, start: Run, n: nat, dir: string, j: nat, content: bytes)
    requires env.policy.keepRecent >= 0 && env.spill == Dir(dir) && Has(start.files, dir, j, content)
    ensures HasAllAlong(env, start, n, dir, j, content) <==> Undisturbed(env, start, n, j, content)
  {
    assert Rounds(env, start, 0) == start;
    for i := 0 to n
      invariant HasAllAlong(env, start, i, dir, j, content) <==> Undisturbed(env, start, i, j, content)
    {
      NextKeepsFileExactly(env, start, i, dir, j, content);
    }
  }

  // ----- and over the attempts of a chain

  /** Every attempt spills under this directory. */
  ghost predicate SpillsTo(env: ChainEnv, dir: string) {
    forall k: nat :: env.loops(k).spill == Dir(dir)
  }

  /** Attempt k's run before its first round. */
  function Begun(c: Chain): Run {
    Start(c.history, c.files, c.requests, c.turns)
  }

  /** The file has this content all through attempt k, if the chain makes one. */
  ghost predicate HasThrough(env: ChainEnv, c: Chain, k: nat, dir: string, j: nat, content: bytes)
    requires Uniform(env)
  {
    c.ended.Going? ==> HasAllAlong(env.loops(k), Begun(c), env.loops(k).maxRounds, dir, j, content)
  }

  /** No pass of attempt k gets to its own j-th entry and leaves anything else in the file. */
  ghost predicate LeftAlone(env: ChainEnv, c: Chain, k: nat, j: nat, content: bytes)
    requires Uniform(env)
  {
    c.ended.Going? ==> Undisturbed(env.loops(k), Begun(c), env.loops(k).maxRounds, j, content)
  }

  lemma AttemptKeepsFileExactly(env: ChainEnv, c: Chain, k: nat, dir: string, j: nat, content: bytes)
    requires Uniform(env) && SpillsTo(env, dir) && Has(c.files, dir, j, content)
    ensures HasThrough(env, c, k, dir, j, content) <==> LeftAlone(env, c, k, j, content)
  {
    RunKeepsFileExactly(env.loops(k), Begun(c), env.loops(k).maxRounds, dir, j, content);
  }

  lemma NextAttemptFiles(env: ChainEnv, start: Chain, n: nat)
    requires Uniform(env)
    ensures var c := Attempts(env, start, n);
      Attempts(env, start, n + 1).files == if c.ended.Going? then RunOf(env, c, n).files else c.files
  {
    AttemptsStep(env, start, n);
  }

  lemma NextHas(env: ChainEnv, start: Chain, n: nat, dir: string, j: nat, content: bytes)
    requires Uniform(env) && Has(Attempts(env, start, n).files, dir, j, content)
    requires HasThrough(env, Attempts(env, start, n), n, dir, j, content)
    ensures Has(Attempts(env, start, n + 1).files, dir, j, content)
  {
    NextAttemptFiles(env, start, n);
    var c := Attempts(env, start, n);
    if c.ended.Going? {
      assert RunOf(env, c, n) == Rounds(env.loops(n), Begun(c), env.loops(n).maxRounds);
    }
  }

  ghost predicate HasBetween(env: ChainEnv, start: Chain, a: nat, b: nat, dir: string, j: nat, content: bytes)
    requires Uniform(env)
  {
    forall k: nat | a <= k < b :: HasThrough(env, Attempts(env, start, k), k, dir, j, content)
  }

  ghost predicate LeftAloneBetween(env: ChainEnv, start: Chain, a: nat, b: nat, j: nat, content: bytes)
    requires Uniform(env)
  {
    forall k: nat | a <= k < b :: LeftAlone(env, Attempts(env, start, k), k, j, content)
  }

  lemma NextBetween(env: ChainEnv, start: Chain, a: nat, b: nat, dir: string, j: nat, content: bytes)
    requires Uniform(env) && a <= b
    ensures HasBetween(env, start, a, b + 1, dir, j, content)
      <==> HasBetween(env, start, a, b, dir, j, content) && HasThrough(env, Attempts(env, start, b), b, dir, j, content)
  {
  }

  lemma NextLeftAlone(env: ChainEnv, start: Chain, a: nat, b: nat, j: nat, content: bytes)
    requires Uniform(env) && a <= b
    ensures LeftAloneBetween(env, start, a, b + 1, j, content)
      <==> LeftAloneBetween(env, start, a, b, j, content) && LeftAlone(env, Attempts(env, start, b), b, j, content)
  {
  }

  /** From attempt a up to attempt b. */
  ghost predicate KeptExactly(env: ChainEnv, start: Chain, a: nat, b: nat, dir: string, j: nat, content: bytes)
    requires Uniform(env)
  {
    && (HasBetween(env, start, a, b, dir, j, content) <==> LeftAloneBetween(env, start, a, b, j, content))
    && (HasBetween(env, start, a, b, dir, j, content) ==> Has(Attempts(env, start, b).files, dir, j, content))
  }

  lemma NextKeptExactly(env: ChainEnv, start: Chain, a: nat, b: nat, dir: string, j: nat, content: bytes)
    requires Uniform(env) && SpillsTo(env, dir) && a <= b && KeptExactly(env, start, a, b, dir, j, content)
    ensures KeptExactly(env, start, a, b + 1, dir, j, content)
  {
    NextBetween(env, start, a, b, dir, j, content);
    NextLeftAlone(env, start, a, b, j, content);
    if HasBetween(env, start, a, b, dir, j, content) {
      AttemptKeepsFileExactly(env, Attempts(env, start, b), b, dir, j, content);
      if HasThrough(env, Attempts(env, start, b), b, dir, j, content) { NextHas(env, start, b, dir, j, content); }
    }
  }

  /** Over the attempts of a chain, likewise. */
  lemma ChainKeepsFileExactly(env: ChainEnv, start: Chain, a: nat, b: nat, dir: string, j: nat, content: bytes)
    requires Uniform(env) && SpillsTo(env, dir) && a <= b && Has(Attempts(env, start, a).files, dir, j, content)
    ensures KeptExactly(env, start, a, b, dir, j, content)
  {
    for k := a to b
      invariant KeptExactly(env, start, a, k, dir, j, content)
    {
      NextKeptExactly(env, start, a, k, dir, j, content);
    }
  }

  /** The result of attempt a's j-th call reads, when the attempt is over, as the placeholder that names
      its file. */
  ghost predicate NamesItsFile(run: Run, base: nat, dir: string, j: nat) {
    && DistinctIds(run.entries) && j < |run.entries| == |run.inserted| == |Own(run.history, base)|
    && run.entries[j].elided
    && var m := Own(run.history, base)[j];
    m.Result? && m.content == SpilledStub(run.entries[j].tool, |run.inserted[j]|, SpillPath(dir, j))
  }

  /** What an attempt's placeholder names is there when the attempt is over. */
  lemma AttemptLeavesFile(env: ChainEnv, c: Chain, a: nat, dir: string, j: nat, run: Run)
    requires Uniform(env) && SpillsTo(env, dir) && run == RunOf(env, c, a)
    requires NamesItsFile(run, |Results(c.history)|, dir, j)
    ensures Has(run.files, dir, j, run.inserted[j])
  {
    ElisionIsRecoverable(env.loops(a), c.history, c.files, c.requests, c.turns, env.loops(a).maxRounds, j);
    StubsDiffer(run.entries[j].tool, |run.inserted[j]|, SpillPath(dir, j));
  }

  /** Along a chain, the file that a placeholder of one attempt names holds the whole result when that
      attempt is over, and from then on for exactly as long as no later attempt's pass gets to its own
      entry of the same index and leaves anything else. */
  lemma PlaceholderHoldsExactly(env: ChainEnv, start: Chain, a: nat, b: nat, dir: string, j: nat)
    requires Uniform(env) && SpillsTo(env, dir) && a < b && Attempts(env, start, a).ended.Going?
    requires var c := Attempts(env, start, a); NamesItsFile(RunOf(env, c, a), |Results(c.history)|, dir, j)
    ensures var content := RunOf(env, Attempts(env, start, a), a).inserted[j];
      && Has(Attempts(env, start, a + 1).files, dir, j, content)
      && (HasBetween(env, start, a + 1, b, dir, j, content) <==> LeftAloneBetween(env, start, a + 1, b, j, content))
  {
    var c := Attempts(env, start, a);
    var run := RunOf(env, c, a);
    AttemptLeavesFile(env, c, a, dir, j, run);
    NextAttemptFiles(env, start, a);
    ChainKeepsFileExactly(env, start, a + 1, b, dir, j, run.inserted[j]);
  }
}
