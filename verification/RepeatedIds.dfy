/** When call IDs repeat across rounds: a run that loses a result before any request carried it. */
module RepeatedIds {
  import opened ByteText
  import opened Conversation
  import opened Providers
  import opened ToolResultLedger
  import opened AgentLoop
  import opened LoopSafety
  import opened SentFirst

  function RepeatingEnv(call: Call, first: bytes, second: bytes): Env {
    Env(OpenAIKind, Policy(0, 1, 0, 0), Nowhere, TokenBudget(0, "halt"), 2, MESSAGES,
        n => Chosen("", "", [], [call], 0, 0), (n, k) => if n == 0 then first else second, n => (i => Wrote))
  }

  /** Calls recovered from reasoning text are numbered from zero in every reply. When two rounds
      recover a call, eliding the first round's result overwrites the second round's, which no
      request has carried and the ledger still counts in full. */
  lemma RepeatedIdsLoseAResult(call: Call, first: bytes, second: bytes)
    requires |BareStub(call.name, |first|)| < |first| && second != BareStub(call.name, |first|) && |first| > 1
    ensures var env := RepeatingEnv(call, first, second); var run := Rounds(env, Start([], map[], [], []), 2);
      var lost := Result(call.id, BareStub(call.name, |first|));
      && |run.entries| == |run.inserted| == 2 && !run.entries[1].elided && run.inserted[1] == second
      && Own(run.history, 0) == [lost, lost]
      && !SentVerbatim(run, 0, 1)
  {
    var env, start := RepeatingEnv(call, first, second), Start([], map[], [], []);
    var one := Rounds(env, start, 1);
    FirstRepeatingRound(call, first, second, one);
    RoundsStep(env, start, 1);
    var two := Rounds(env, start, 2);
    SecondRepeatingRound(call, first, second, one, two);
    NotSent(call, first, two, Result(call.id, BareStub(call.name, |first|)), one.turns);
  }

  lemma FirstRepeatingRound(call: Call, first: bytes, second: bytes, one: Run)
    requires |first| > 1 && one == Rounds(RepeatingEnv(call, first, second), Start([], map[], [], []), 1)
    ensures one.stop.Running? && one.history == [Assistant([call]), Result(call.id, first)]
    ensures one.entries == [Entry(call.id, call.name, |first|, 1, false, first)] && one.live == |first|
    ensures one.inserted == [first] && one.requests == [Request([], [])] && one.files == map[]
  {
    var env, start := RepeatingEnv(call, first, second), Start([], map[], [], []);
    RoundsStep(env, start, 0);
    var chatted := Chatted(env, start, 0);
    var recorded := AfterResults(env, chatted, 0, [call]);
    OneRepeatingRound(env, chatted, 0, call, first);
    assert recorded.entries == [Entry(call.id, call.name, |first|, 1, false, first)];
    assert ProtectedCutoff(recorded.entries, 0) == 0;
    assert AfterElision(env, recorded, 0) == recorded;
  }

  lemma OneRepeatingRound(env: Env, run: Run, n: nat, call: Call, out: bytes)
    requires env.policy.resultMax == 0 && env.outputs(n, 0) == out
    ensures var next := AfterResults(env, run, n, [call]);
      && next.history == run.history + [Result(call.id, out)]
      && next.entries == run.entries + [Entry(call.id, call.name, |out|, n + 1, false, out)]
      && next.live == run.live + |out| && next.inserted == run.inserted + [out]
  {
    var es := RoundEntries(env, n, [call]);
    assert es == [Entry(call.id, call.name, |out|, n + 1, false, out)];
    assert SumSizes(es) == SumSizes(es[..0]) + |out|;
    assert RoundContents(env, n, [call]) == [out];
    assert ResultMsgs(RoundResults(env, n, [call])) == [Result(call.id, out)];
  }

  lemma SecondRepeatingRound(call: Call, first: bytes, second: bytes, one: Run, two: Run)
    requires |BareStub(call.name, |first|)| < |first| && second != BareStub(call.name, |first|) && |first| > 1
    requires one.stop.Running? && one.history == [Assistant([call]), Result(call.id, first)]
    requires one.entries == [Entry(call.id, call.name, |first|, 1, false, first)] && one.live == |first|
    requires one.inserted == [first] && one.requests == [Request([], [])] && one.files == map[]
    requires two == RunRound(RepeatingEnv(call, first, second), one, 1)
    ensures var lost := Result(call.id, BareStub(call.name, |first|));
      two.history == [Assistant([call]), lost, Assistant([call]), lost]
    ensures |two.entries| == |two.inserted| == 2 && !two.entries[1].elided && two.inserted[1] == second
    ensures two.requests == [Request([], []), Request(one.history, one.turns)]
  {
    var env := RepeatingEnv(call, first, second);
    var chatted := Chatted(env, one, 1);
    var recorded := AfterResults(env, chatted, 1, [call]);
    SecondRecorded(call, first, second, one, recorded);
    SecondElided(env, recorded, call, first, second);
  }

  lemma SecondRecorded(call: Call, first: bytes, second: bytes, one: Run, recorded: Run)
    requires one.stop.Running? && one.history == [Assistant([call]), Result(call.id, first)]
    requires one.entries == [Entry(call.id, call.name, |first|, 1, false, first)] && one.live == |first|
    requires one.inserted == [first]
    requires var env := RepeatingEnv(call, first, second); recorded == AfterResults(env, Chatted(env, one, 1), 1, [call])
    ensures recorded.history == [Assistant([call]), Result(call.id, first), Assistant([call]), Result(call.id, second)]
    ensures recorded.entries
      == [Entry(call.id, call.name, |first|, 1, false, first), Entry(call.id, call.name, |second|, 2, false, second)]
    ensures recorded.inserted == [first, second] && recorded.live == |first| + |second|
    ensures recorded.files == one.files && recorded.stop.Running?
    ensures recorded.requests == one.requests + [Request(one.history, one.turns)]
  {
    var env := RepeatingEnv(call, first, second);
    OneRepeatingRound(env, Chatted(env, one, 1), 1, call, second);
  }

  lemma SecondElided(env: Env, recorded: Run, call: Call, first: bytes, second: bytes)
    requires env == RepeatingEnv(call, first, second) && |first| > 1 && |BareStub(call.name, |first|)| < |first|
    requires recorded.history == [Assistant([call]), Result(call.id, first), Assistant([call]), Result(call.id, second)]
    requires recorded.entries
      == [Entry(call.id, call.name, |first|, 1, false, first), Entry(call.id, call.name, |second|, 2, false, second)]
    requires recorded.live == |first| + |second| && recorded.files == map[]
    ensures var two := AfterElision(env, recorded, 1); var lost := Result(call.id, BareStub(call.name, |first|));
      && two.history == [Assistant([call]), lost, Assistant([call]), lost]
      && |two.entries| == 2 && two.entries[1] == recorded.entries[1]
  {
    PassOverTwo(recorded.entries, recorded.live, call, first, second, env.writes(1));
    var repl, h := map[call.id := BareStub(call.name, |first|)], recorded.history;
    var lost := Result(call.id, BareStub(call.name, |first|));
    assert ElisionPass(env, recorded, 1).repl == repl && call.id in repl;
    assert ReplaceMsg(h[0], repl) == h[0] && ReplaceMsg(h[1], repl) == lost;
    assert ReplaceMsg(h[2], repl) == h[0] && ReplaceMsg(h[3], repl) == lost;
    assert Replaced(h, repl) == [h[0], lost, h[0], lost];
  }

  lemma NotSent(call: Call, first: bytes, two: Run, lost: Msg, turns: seq<Turn>)
    requires two.requests == [Request([], []), Request([Assistant([call]), Result(call.id, first)], turns)]
    requires two.history == [Assistant([call]), lost, Assistant([call]), lost] && lost.Result?
    requires |two.entries| == |two.inserted| == 2
    ensures Own(two.history, 0) == [lost, lost] && !SentVerbatim(two, 0, 1)
  {
    var r := Result(call.id, first);
    ResultsOfFour(Assistant([call]), lost, lost);
    ResultsOfFour(Assistant([call]), r, r);
    assert two.requests[1].history == [Assistant([call]), r, Assistant([call]), r][..2];
    assert |Own(two.requests[0].history, 0)| == 0 && |Own(two.requests[1].history, 0)| == 1;
  }

  lemma ResultsOfFour(a: Msg, r: Msg, s: Msg)
    requires !a.Result? && r.Result? && s.Result?
    ensures Results([a, r, a, s]) == [r, s] && Results([a, r, a, s][..2]) == [r]
  {
    var h := [a, r, a, s];
    assert h[..3][..2] == h[..2] && h[..2][..1] == h[..1] && h[..1][..0] == [];
    assert Results(h[..1]) == [];
    assert Results(h[..2]) == [r];
    assert Results(h[..3]) == [r];
  }

  lemma PassOverTwo(es: seq<Entry>, live: int, call: Call, first: bytes, second: bytes, writes: nat -> Write)
    requires es == [Entry(call.id, call.name, |first|, 1, false, first), Entry(call.id, call.name, |second|, 2, false, second)]
    requires live == |first| + |second| && |first| > 1 && |BareStub(call.name, |first|)| < |first|
    ensures var q := Select(es, live, map[], Policy(0, 1, 0, 0), Nowhere, writes);
      q.repl == map[call.id := BareStub(call.name, |first|)] && |q.entries| == 2 && q.entries[1] == es[1]
  {
    var p := Pass(es, live, map[], map[], 0);
    assert RoundStart(es, 1) == 1;
    assert ProtectedCutoff(es, 0) == 1;
    ElideStep(p, 0, 1, 0, Nowhere, writes);
  }
}
