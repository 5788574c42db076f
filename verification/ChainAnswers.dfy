/** What a chain comes to, told by its attempts: which text it returns, why it ends, and what it publishes. */
module ChainAnswers {
  import opened ByteText
  import opened Conversation
  import opened AgentLoop
  import opened LoopSafety
  import opened RunAnswers
  import opened GateChain

  // ----- what ends a chain and what does not

  /** Attempt i had its last word, and another is permitted. */
  predicate HasNext(env: ChainEnv, i: nat, run: Run) {
    run.stop.Finished? && (env.maxAttempts <= 0 || env.first + i < env.maxAttempts)
  }

  function Verdicts(env: ChainEnv, i: nat): Waited {
    Wait(Park(env, i), env.first + i, [], env.read)
  }

  /** The chain goes on from attempt i: its result was published and a verdict said to continue. */
  predicate Continued(env: ChainEnv, i: nat, run: Run) {
    HasNext(env, i, run) && !env.publishFails(i) && Verdicts(env, i).Got? && Verdicts(env, i).v.action.Continue?
  }

  /** Attempt i, the last, ended the chain for this reason. */
  predicate EndedBy(env: ChainEnv, i: nat, run: Run, why: Ended) {
    match why
    case Going => false
    case LoopFailed => run.stop.ChatError? || run.stop.Running?
    case OverBudget => run.stop.BudgetHalt?
    case LastPermitted => run.stop.Finished? && env.maxAttempts > 0 && env.first + i >= env.maxAttempts
    case PublishFailed => HasNext(env, i, run) && env.publishFails(i)
    case NoVerdict => HasNext(env, i, run) && !env.publishFails(i) && Verdicts(env, i).GaveUp?
    case VerdictEnds =>
      HasNext(env, i, run) && !env.publishFails(i) && Verdicts(env, i).Got? && !Verdicts(env, i).v.action.Continue?
  }

  /** Attempt i's result is published. */
  predicate Publishes(env: ChainEnv, i: nat, run: Run) {
    HasNext(env, i, run) && !env.publishFails(i)
  }

  function MarkerOf(env: ChainEnv, i: nat, run: Run): Marker {
    Marker(env.first + i, ReturnedText(env, i, run), run.inTok, run.outTok, run.toolCalls)
  }

  /** Every attempt but the last was continued, and the last one too while the chain goes on; otherwise
      it ended the chain. Published results are those of the attempts that publish, in order. */
  ghost predicate AttemptsTold(env: ChainEnv, c: Chain) {
    && (forall i: nat | i < |c.runs| && (i < |c.runs| - 1 || c.ended.Going?) :: Continued(env, i, c.runs[i]))
    && (!c.ended.Going? ==> |c.runs| > 0 && EndedBy(env, |c.runs| - 1, c.runs[|c.runs| - 1], c.ended))
    && (forall i: nat | i < |c.runs| :: i < |c.markers| <==> Publishes(env, i, c.runs[i]))
    && |c.markers| <= |c.runs| && forall i: nat | i < |c.markers| :: c.markers[i] == MarkerOf(env, i, c.runs[i])
  }

  /** What attempt k adds to a chain. */
  predicate AddsAttempt(env: ChainEnv, c: Chain, k: nat, run: Run, next: Chain) {
    && next.runs == c.runs + [run]
    && (if next.ended.Going? then Continued(env, k, run) else EndedBy(env, k, run, next.ended))
    && next.markers == c.markers + (if Publishes(env, k, run) then [MarkerOf(env, k, run)] else [])
    && var text := ReturnedText(env, k, run); next.lastText == if text != "" then text else c.lastText
  }

  lemma AttemptAdds(env: ChainEnv, c: Chain, k: nat, run: Run, next: Chain)
    requires c.ended.Going? && next == AfterRun(env, c, k, run)
    requires run.stop.BudgetHalt? <==> Halts(env.budget, run.inTok, run.outTok)
    ensures AddsAttempt(env, c, k, run, next)
  {
  }

  /** While a chain goes on every attempt has published. */
  lemma MarkersFull(env: ChainEnv, c: Chain)
    requires AttemptsTold(env, c) && c.ended.Going?
    ensures |c.markers| == |c.runs|
  {
    if |c.runs| > 0 { assert Continued(env, |c.runs| - 1, c.runs[|c.runs| - 1]); }
  }

  lemma NextAttemptsTold(env: ChainEnv, c: Chain, run: Run, next: Chain)
    requires AttemptsTold(env, c) && c.ended.Going? && AddsAttempt(env, c, |c.runs|, run, next)
    ensures AttemptsTold(env, next)
  {
    MarkersFull(env, c);
    forall i: nat | i < |c.runs| ensures next.runs[i] == c.runs[i] {}
  }

  // ----- the text a chain returns

  /** `last` is the last of the texts that is not empty, or empty when all are. */
  ghost predicate LastSaid(texts: seq<string>, last: string) {
    || (last == "" && forall i | 0 <= i < |texts| :: texts[i] == "")
    || (last != "" && exists i | 0 <= i < |texts| :: texts[i] == last && forall j | i < j < |texts| :: texts[j] == "")
  }

  lemma LastSaidNext(texts: seq<string>, last: string, text: string)
    requires LastSaid(texts, last)
    ensures LastSaid(texts + [text], if text != "" then text else last)
  {
    var all := texts + [text];
    if text != "" {
      assert all[|texts|] == text;
    } else if last != "" {
      var i :| 0 <= i < |texts| && texts[i] == last && forall j | i < j < |texts| :: texts[j] == "";
      assert all[i] == last;
    }
  }

  function TextsReturned(env: ChainEnv, runs: seq<Run>): seq<string> {
    seq(|runs|, i requires 0 <= i < |runs| => ReturnedText(env, i, runs[i]))
  }

  lemma TextsReturnedNext(env: ChainEnv, runs: seq<Run>, run: Run)
    ensures TextsReturned(env, runs + [run]) == TextsReturned(env, runs) + [ReturnedText(env, |runs|, run)]
  {
  }

  // ----- every reachable chain

  /** Attempt i is the loop run on what the attempts before it and their cards left. */
  ghost predicate RunsOfChain(env: ChainEnv, start: Chain, c: Chain)
    requires Uniform(env)
  {
    forall i: nat | i < |c.runs| ::
      Attempts(env, start, i).ended.Going? && c.runs[i] == RunOf(env, Attempts(env, start, i), i)
  }

  ghost predicate ChainTold(env: ChainEnv, start: Chain, c: Chain, n: nat)
    requires Uniform(env)
  {
    && RunsOfChain(env, start, c) && AttemptsTold(env, c) && LastSaid(TextsReturned(env, c.runs), c.lastText)
    && (c.ended.Going? ==> |c.runs| == n)
  }

  lemma RunOfStops(env: ChainEnv, c: Chain, k: nat, run: Run)
    requires Uniform(env) && run == RunOf(env, c, k)
    ensures run.stop.BudgetHalt? <==> Halts(env.budget, run.inTok, run.outTok)
  {
    HaltedExactlyOnBudget(env.loops(k), Start(c.history, c.files, c.requests, c.turns), env.loops(k).maxRounds);
  }

  lemma AttemptTold(env: ChainEnv, start: Chain, c: Chain, next: Chain, n: nat, run: Run)
    requires Uniform(env) && ChainTold(env, start, c, n) && c.ended.Going? && c == Attempts(env, start, n)
    requires run == RunOf(env, c, n) && AddsAttempt(env, c, n, run, next)
    ensures ChainTold(env, start, next, n + 1)
  {
    NextAttemptsTold(env, c, run, next);
    TextsReturnedNext(env, c.runs, run);
    LastSaidNext(TextsReturned(env, c.runs), c.lastText, ReturnedText(env, n, run));
  }

  lemma NextChainTold(env: ChainEnv, start: Chain, c: Chain, next: Chain, n: nat)
    requires Uniform(env) && ChainTold(env, start, c, n) && c == Attempts(env, start, n)
    requires next == if c.ended.Going? then AfterRun(env, c, n, RunOf(env, c, n)) else c
    ensures ChainTold(env, start, next, n + 1)
  {
    if c.ended.Going? {
      var run := RunOf(env, c, n);
      RunOfStops(env, c, n, run);
      AttemptAdds(env, c, n, run, next);
      AttemptTold(env, start, c, next, n, run);
    }
  }

  lemma FirstTold(env: ChainEnv, start: Chain, seed: History, files: map<string, bytes>)
    requires Uniform(env) && start == NewChain(seed, files)
    ensures ChainTold(env, start, start, 0)
  {
  }

  lemma ChainStepTold(env: ChainEnv, start: Chain, n: nat)
    requires Uniform(env) && ChainTold(env, start, Attempts(env, start, n), n)
    ensures ChainTold(env, start, Attempts(env, start, n + 1), n + 1)
  {
    AttemptsStep(env, start, n);
    NextChainTold(env, start, Attempts(env, start, n), Attempts(env, start, n + 1), n);
  }

  lemma ChainToldFrom(env: ChainEnv, start: Chain, n: nat)
    requires Uniform(env) && ChainTold(env, start, start, 0)
    ensures ChainTold(env, start, Attempts(env, start, n), n)
  {
    assert Attempts(env, start, 0) == start;
    for i := 0 to n
      invariant ChainTold(env, start, Attempts(env, start, i), i)
    {
      ChainStepTold(env, start, i);
    }
  }

  /** In every reachable state of a chain, its text is what the last attempt that returned any returned;
      every attempt but the last was answered, within budget and bound, published and continued by a
      verdict; the last one ended the chain for the reason it has; and each attempt is the loop run on
      what the attempts before it left. */
  lemma ChainIsTold(env: ChainEnv, seed: History, files: map<string, bytes>, n: nat)
    requires Uniform(env)
    ensures ChainTold(env, NewChain(seed, files), Attempts(env, NewChain(seed, files), n), n)
  {
    FirstTold(env, NewChain(seed, files), seed, files);
    ChainToldFrom(env, NewChain(seed, files), n);
  }

  /** What an attempt returns is told by its replies. */
  lemma ReturnedIsTold(env: ChainEnv, c: Chain, i: nat)
    requires Uniform(env)
    ensures var e := env.loops(i); var text := ReturnedText(env, i, RunOf(env, c, i));
      if GoesOnFor(e, e.maxRounds) then text == ""
      else exists k: nat :: k < e.maxRounds && GoesOnFor(e, k) && !GoesOn(e, k) && text == AnswerTold(e, k)
  {
    LoopIsTold(env.loops(i), c.history, c.files, c.requests, c.turns);
  }
}
