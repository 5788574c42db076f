/** The agent loop: chat, run the tools, record the results, elide old ones, and chat again. */
module AgentLoop {
  import opened ByteText
  import opened TextCut
  import opened Conversation
  import opened Providers
  import opened ToolResultLedger
  import Decimals

  // ----- budget

  datatype TokenBudget = TokenBudget(max: int, action: string)

  predicate Halts(b: TokenBudget, inTok: int, outTok: int) {
    b.max > 0 && b.action == "halt" && inTok + outTok >= b.max
  }

  // ----- one run of the loop, step by step

  /** Everything outside the loop: the backend's replies, the tools' outputs and the outcomes of
      file writes, each by round (and by call or ledger index), together with the run's settings. */
  datatype Env = Env(
    kind: Kind,
    policy: Policy,
    spill: Spill,
    budget: TokenBudget,
    maxRounds: nat,
    messages: Messages,
    completions: nat -> Completion,
    outputs: (nat, nat) -> bytes,
    writes: nat -> nat -> Write)

  function ReplyAt(env: Env, n: nat): ChatResult {
    Understood(env.kind, env.completions(n))
  }

  datatype Stop = Running | ChatError | BudgetHalt | Finished

  /** A request as sent: the history, and what had happened since the seed. */
  datatype Request = Request(history: History, turns: seq<Turn>)

  /** The state of a run after some rounds. `requests`, `turns` and `inserted` (each result as it
      was recorded) are its past; the rest is what the program holds. */
  datatype Run = Run(
    history: History,
    entries: seq<Entry>,
    live: int,
    files: map<string, bytes>,
    inTok: int,
    outTok: int,
    toolCalls: int,
    said: seq<string>,
    stop: Stop,
    answer: Answer,
    requests: seq<Request>,
    turns: seq<Turn>,
    inserted: seq<bytes>)

  function Start(history: History, files: map<string, bytes>, requests: seq<Request>, turns: seq<Turn>): Run {
    Run(history, [], 0, files, 0, 0, 0, [], Running, NoAnswer, requests, turns, [])
  }

  /** The k-th result of round n, as inserted. */
  function Inserted(env: Env, n: nat, call: Call, k: nat): bytes {
    Clamped(env.policy.resultMax, call.name, env.outputs(n, k))
  }

  const ERROR_PREFIX := "Error:"

  function RoundResults(env: Env, n: nat, calls: seq<Call>): (rs: seq<ToolResult>)
    ensures |rs| == |calls|
  {
    seq(|calls|, k requires 0 <= k < |calls| =>
      ToolResult(calls[k].id, Inserted(env, n, calls[k], k), Utf8(ERROR_PREFIX) <= env.outputs(n, k)))
  }

  function RoundEntries(env: Env, n: nat, calls: seq<Call>): (es: seq<Entry>)
    ensures |es| == |calls|
  {
    seq(|calls|, k requires 0 <= k < |calls| => EntryFor(env, n, calls[k], k))
  }

  function EntryFor(env: Env, n: nat, call: Call, k: nat): Entry {
    var c := Inserted(env, n, call, k);
    Entry(call.id, call.name, |c|, n + 1, false, c)
  }

  function RoundContents(env: Env, n: nat, calls: seq<Call>): (cs: seq<bytes>)
    ensures |cs| == |calls|
  {
    seq(|calls|, k requires 0 <= k < |calls| => Inserted(env, n, calls[k], k))
  }

  /** The text of the turns so far, trimmed, blank ones left out, joined by blank lines. */
  function Accumulated(said: seq<string>): string {
    if said == [] then ""
    else
      var before, trimmed := Accumulated(said[..|said| - 1]), TrimSpace(said[|said| - 1]);
      if trimmed == "" then before else if before == "" then trimmed else before + "\n\n" + trimmed
  }

  /** What a run answers with: nothing, what a budget halt leaves of the turns before and the last
      reply, or the last reply of a run whose turns all count. */
  datatype Answer = NoAnswer | Halted(said: seq<string>, text: string, used: int, max: int) | Final(said: seq<string>)

  function AnswerText(own: Messages, a: Answer): string {
    match a
    case NoAnswer => ""
    case Halted(said, text, used, max) =>
      if TrimSpace(text) != "" then TrimSpace(text)
      else if Accumulated(said) != "" then Accumulated(said)
      else own.overBudget(used, max)
    case Final(said) =>
      if said != [] && TrimSpace(said[|said| - 1]) != "" then said[|said| - 1]
      else if Accumulated(said) != "" then own.noSummary
      else ""
  }

  /** The loop's own messages. */
  datatype Messages = Messages(overBudget: (int, int) -> string, noSummary: string)

  const MESSAGES := Messages(
    (used: int, max: int) =>
      "Per-run token budget exceeded (" + Decimals.Integer(used) + "/" + Decimals.Integer(max) + " tokens used)",
    "(Agent completed its task via tool calls but did not produce a final text summary.)")

  /** The second part of a round: the results join the conversation and the ledger. */
  function AfterResults(env: Env, run: Run, n: nat, calls: seq<Call>): Run {
    run.(history := run.history + ResultMsgs(RoundResults(env, n, calls)),
         entries := run.entries + RoundEntries(env, n, calls),
         live := run.live + SumSizes(RoundEntries(env, n, calls)),
         toolCalls := run.toolCalls + |calls|,
         turns := run.turns + [Round(calls)],
         inserted := run.inserted + RoundContents(env, n, calls))
  }

  function ElisionPass(env: Env, run: Run, n: nat): Pass
    requires env.policy.keepRecent >= 0
  {
    Select(run.entries, run.live, run.files, env.policy, env.spill, env.writes(n))
  }

  /** The third part: an elision pass, and its replacements in the conversation when there are any. */
  function AfterElision(env: Env, run: Run, n: nat): Run
    requires env.policy.keepRecent >= 0
  {
    var q := ElisionPass(env, run, n);
    run.(history := if q.repl == map[] then run.history else Replaced(run.history, q.repl),
         entries := q.entries, live := q.live, files := q.files)
  }

  /** The first half: one request and its reply. */
  function Chatted(env: Env, before: Run, n: nat): Run {
    var run := before.(requests := before.requests + [Request(before.history, before.turns)]);
    match ReplyAt(env, n)
    case ChatFailed => run.(stop := ChatError)
    case ChatDone(text, calls, inTok, outTok) =>
      var chatted := run.(history := AfterChat(run.history, ReplyAt(env, n)),
                          inTok := run.inTok + inTok, outTok := run.outTok + outTok);
      if Halts(env.budget, chatted.inTok, chatted.outTok) then
        chatted.(stop := BudgetHalt,
                 answer := Halted(run.said, text, chatted.inTok + chatted.outTok, env.budget.max))
      else
        var said := run.said + [text];
        if calls == [] then chatted.(said := said, stop := Finished, answer := Final(said)) else chatted.(said := said)
  }

  /** One round, the n-th counting from zero. */
  function RunRound(env: Env, before: Run, n: nat): Run
    requires env.policy.keepRecent >= 0
  {
    var run := Chatted(env, before, n);
    if run.stop.Running? && ReplyAt(env, n).ChatDone? then
      AfterElision(env, AfterResults(env, run, n, ReplyAt(env, n).calls), n)
    else run
  }

  /** The run after n rounds, or where it stopped before. */
  function Rounds(env: Env, start: Run, n: nat): Run
    requires env.policy.keepRecent >= 0
    decreases n, 0
  {
    if n == 0 then start else NextRound(env, start, n - 1)
  }

  function NextRound(env: Env, start: Run, n: nat): Run
    requires env.policy.keepRecent >= 0
    decreases n, 1
  {
    var run := Rounds(env, start, n);
    if run.stop.Running? then RunRound(env, run, n) else run
  }

  lemma RoundsStep(env: Env, start: Run, n: nat)
    requires env.policy.keepRecent >= 0
    ensures Rounds(env, start, n + 1)
      == if Rounds(env, start, n).stop.Running? then RunRound(env, Rounds(env, start, n), n) else Rounds(env, start, n)
  {
    assert Rounds(env, start, n + 1) == NextRound(env, start, n);
  }

  /** The whole loop; a run still going after the last round has exceeded its iterations. */
  function Loop(env: Env, start: Run): Run
    requires env.policy.keepRecent >= 0
  {
    Rounds(env, start, env.maxRounds)
  }

  // ----- the loop as the program runs it

  lemma {:induction false} StoppedStays(env: Env, start: Run, n: nat, m: nat)
    requires env.policy.keepRecent >= 0 && n <= m && !Rounds(env, start, n).stop.Running?
    ensures Rounds(env, start, m) == Rounds(env, start, n)
  {
    if n < m {
      StoppedStays(env, start, n, m - 1);
      assert Rounds(env, start, m) == NextRound(env, start, m - 1);
    }
  }

  lemma {:induction false} SumSizesAppend(es: seq<Entry>, fs: seq<Entry>)
    ensures SumSizes(es + fs) == SumSizes(es) + SumSizes(fs)
  {
    if fs == [] {
      assert es + fs == es;
    } else {
      assert (es + fs)[..|es + fs| - 1] == es + fs[..|fs| - 1];
      SumSizesAppend(es, fs[..|fs| - 1]);
    }
  }

  /** What the program's variables hold of a run. */
  ghost predicate Holds(run: Run, p: LLMProvider, ledger: Ledger, disk: Disk, inTok: int, outTok: int,
                        toolCalls: int, accumulated: string)
    reads p.Ref(), ledger, disk
  {
    && run.history == p.View() && run.entries == ledger.entries && run.live == ledger.live
    && run.files == disk.files && run.inTok == inTok && run.outTok == outTok
    && run.toolCalls == toolCalls && Accumulated(run.said) == accumulated
  }

  /** One call: run, clamp, record. */
  method RunTool(env: Env, ledger: Ledger, n: nat, call: Call, k: nat) returns (result: ToolResult)
    modifies ledger
    ensures result == ToolResult(call.id, Inserted(env, n, call, k), Utf8(ERROR_PREFIX) <= env.outputs(n, k))
    ensures ledger.entries == old(ledger.entries) + [EntryFor(env, n, call, k)]
    ensures ledger.live == old(ledger.live) + EntryFor(env, n, call, k).size
  {
    var out := env.outputs(n, k);
    var isError := Utf8(ERROR_PREFIX) <= out;
    var clamped, dropped := ClampToolResult(env.policy.resultMax, call.name, out);
    result := ToolResult(call.id, clamped, isError);
    ledger.Add(call.id, call.name, clamped, n + 1);
  }

  /** Executes one round's calls in order, recording each in the ledger. */
  method RunTools(env: Env, ledger: Ledger, n: nat, calls: seq<Call>) returns (results: seq<ToolResult>)
    modifies ledger
    ensures results == RoundResults(env, n, calls)
    ensures |results| == |calls| && forall k | 0 <= k < |calls| ::
      && results[k].callID == calls[k].id
      && results[k].content == Clamped(env.policy.resultMax, calls[k].name, env.outputs(n, k))
      && (results[k].isError <==> Utf8("Error:") <= env.outputs(n, k))
    ensures ledger.entries == old(ledger.entries) + RoundEntries(env, n, calls)
    ensures ledger.live == old(ledger.live) + SumSizes(RoundEntries(env, n, calls))
  {
    ghost var es, rs := RoundEntries(env, n, calls), RoundResults(env, n, calls);
    results := [];
    for k := 0 to |calls|
      invariant results == rs[..k]
      invariant ledger.entries == old(ledger.entries) + es[..k]
      invariant ledger.live == old(ledger.live) + SumSizes(es[..k])
    {
      var result := RunTool(env, ledger, n, calls[k], k);
      results := results + [result];
      assert result == rs[k] && EntryFor(env, n, calls[k], k) == es[k];
      TakeOne(rs, k);
      TakeOne(es, k);
      SumSizesTake(es, k);
    }
    assert es[..|es|] == es && rs[..|rs|] == rs;
  }

  lemma SumSizesTake(es: seq<Entry>, k: nat)
    requires k < |es|
    ensures SumSizes(es[..k + 1]) == SumSizes(es[..k]) + es[k].size
  {
    assert es[..k + 1][..k] == es[..k];
  }

  lemma TakeOne<T>(s: seq<T>, k: nat)
    requires k < |s|
    ensures s[..k + 1] == s[..k] + [s[k]] && s[..k + 1][..k] == s[..k]
  {
  }

  method RecordRound(p: LLMProvider, ledger: Ledger, disk: Disk, env: Env, n: nat, calls: seq<Call>,
                     toolCalls0: int, ghost run: Run) returns (toolCalls: int)
    requires p.Ref() != disk && p.Ref() != ledger
    requires Holds(run, p, ledger, disk, run.inTok, run.outTok, toolCalls0, Accumulated(run.said))
    modifies p.Ref(), ledger
    ensures Holds(AfterResults(env, run, n, calls), p, ledger, disk, run.inTok, run.outTok, toolCalls, Accumulated(run.said))
  {
    var results := RunTools(env, ledger, n, calls);
    toolCalls := toolCalls0 + |calls|;
    p.AddToolResults(results);
  }

  method ElideRound(p: LLMProvider, ledger: Ledger, disk: Disk, env: Env, n: nat, ghost run: Run)
    requires env.policy.keepRecent >= 0 && p.Ref() != disk && p.Ref() != ledger && ledger.spill == env.spill
    requires Holds(run, p, ledger, disk, run.inTok, run.outTok, run.toolCalls, Accumulated(run.said))
    modifies p.Ref(), ledger, disk
    ensures Holds(AfterElision(env, run, n), p, ledger, disk, run.inTok, run.outTok, run.toolCalls, Accumulated(run.said))
  {
    var repl, reclaimed := ledger.SelectForElision(env.policy, disk, env.writes(n));
    if |repl| > 0 {
      p.ReplaceToolResults(repl);
    }
  }

  method ChatRound(p: LLMProvider, env: Env, n: nat, ghost before: Run, inTok0: int, outTok0: int, accumulated0: string)
    returns (res: ChatResult, inTok: int, outTok: int, accumulated: string, stop: Stop, text: string)
    requires p.Kind() == env.kind && before.stop.Running? && before.answer == NoAnswer && before.history == p.View()
    requires before.inTok == inTok0 && before.outTok == outTok0 && Accumulated(before.said) == accumulated0
    modifies p.Ref()
    ensures res == ReplyAt(env, n)
    ensures var run := Chatted(env, before, n);
      && run.history == p.View() && run.inTok == inTok && run.outTok == outTok && Accumulated(run.said) == accumulated
      && run.stop == stop && AnswerText(env.messages, run.answer) == text
      && (stop.Running? ==> res.ChatDone? && run.answer == NoAnswer)
  {
    res, inTok, outTok, stop := Ask(p, env, n, before, inTok0, outTok0);
    accumulated, text := accumulated0, "";
    if stop.BudgetHalt? {
      text := HaltText(env.messages, accumulated, before.said, res.text, inTok + outTok, env.budget.max);
    } else if !stop.ChatError? {
      accumulated, text := Accumulate(env.messages, accumulated, before.said, res.text);
      if stop.Running? { text := ""; }
    }
  }

  /** One request: its tokens, and whether the loop stops on it. */
  method Ask(p: LLMProvider, env: Env, n: nat, ghost before: Run, inTok0: int, outTok0: int)
    returns (res: ChatResult, inTok: int, outTok: int, stop: Stop)
    requires p.Kind() == env.kind && before.stop.Running? && before.answer == NoAnswer && before.history == p.View()
    requires before.inTok == inTok0 && before.outTok == outTok0
    modifies p.Ref()
    ensures res == ReplyAt(env, n)
    ensures var run := Chatted(env, before, n);
      && run.history == p.View() && run.inTok == inTok && run.outTok == outTok && run.stop == stop
      && (stop.ChatError? || stop.BudgetHalt? ==> run.said == before.said)
      && (stop.ChatError? ==> run.answer == NoAnswer)
      && (!stop.ChatError? ==> res.ChatDone?)
      && (stop.BudgetHalt? ==> run.answer == Halted(before.said, res.text, inTok + outTok, env.budget.max))
      && (stop.Running? || stop.Finished? ==> run.said == before.said + [res.text])
      && (stop.Running? ==> run.answer == NoAnswer)
      && (stop.Finished? ==> run.answer == Final(before.said + [res.text]))
  {
    inTok, outTok, stop := inTok0, outTok0, Running;
    res := p.Chat(env.completions(n));
    if res.ChatFailed? { return res, inTok, outTok, ChatError; }
    inTok := inTok + res.inTok;
    outTok := outTok + res.outTok;
    if env.budget.max > 0 && inTok + outTok >= env.budget.max {
      if Halts(env.budget, inTok, outTok) { return res, inTok, outTok, BudgetHalt; }
    }
    if |res.calls| == 0 { stop := Finished; }
  }

  /** What a budget halt answers with. */
  method HaltText(own: Messages, accumulated: string, ghost said: seq<string>, reply: string, used: int, max: int)
    returns (text: string)
    requires accumulated == Accumulated(said)
    ensures text == AnswerText(own, Halted(said, reply, used, max))
  {
    text := accumulated;
    if TrimSpace(reply) != "" {
      text := TrimSpace(reply);
    }
    if text == "" {
      text := own.overBudget(used, max);
    }
  }

  /** Adds a turn's text, and says what the run answers with should this be the last turn. */
  method Accumulate(own: Messages, accumulated0: string, ghost said: seq<string>, reply: string)
    returns (accumulated: string, text: string)
    requires accumulated0 == Accumulated(said)
    ensures accumulated == Accumulated(said + [reply]) && text == AnswerText(own, Final(said + [reply]))
  {
    accumulated := accumulated0;
    var trimmed := TrimSpace(reply);
    if trimmed != "" {
      if accumulated != "" {
        accumulated := accumulated + "\n\n";
      }
      accumulated := accumulated + trimmed;
    }
    assert (said + [reply])[..|said|] == said;
    text := if trimmed != "" then reply else if accumulated != "" then own.noSummary else "";
  }

  /** One turn of the loop. */
  method PlayRound(p: LLMProvider, ledger: Ledger, disk: Disk, env: Env, n: nat, ghost before: Run,
                   inTok0: int, outTok0: int, toolCalls0: int, accumulated0: string)
    returns (inTok: int, outTok: int, toolCalls: int, accumulated: string, stop: Stop, text: string, ghost run: Run)
    requires env.policy.keepRecent >= 0 && p.Ref() != disk && p.Ref() != ledger && ledger.spill == env.spill
    requires p.Kind() == env.kind && before.stop.Running? && before.answer == NoAnswer
    requires Holds(before, p, ledger, disk, inTok0, outTok0, toolCalls0, accumulated0)
    modifies p.Ref(), ledger, disk
    ensures run == RunRound(env, before, n)
    ensures Holds(run, p, ledger, disk, inTok, outTok, toolCalls, accumulated)
    ensures run.stop == stop && AnswerText(env.messages, run.answer) == text && (stop.Running? ==> run.answer == NoAnswer)
  {
    var res;
    toolCalls := toolCalls0;
    res, inTok, outTok, accumulated, stop, text := ChatRound(p, env, n, before, inTok0, outTok0, accumulated0);
    run := Chatted(env, before, n);
    if stop.Running? {
      toolCalls := RecordRound(p, ledger, disk, env, n, res.calls, toolCalls, run);
      run := AfterResults(env, run, n, res.calls);
      ElideRound(p, ledger, disk, env, n, run);
      run := AfterElision(env, run, n);
    }
  }

  /** runAgentLoop: the text and totals it returns and the conversation it leaves are those of the
      stepwise run, and it fails exactly when a chat did or the rounds ran out. */
  method RunAgentLoop(p: LLMProvider, disk: Disk, env: Env, ghost requests: seq<Request>, ghost turns: seq<Turn>)
    returns (text: string, inTok: int, outTok: int, toolCalls: int, failed: bool, ghost run: Run)
    requires env.policy.keepRecent >= 0 && p.Kind() == env.kind && p.Ref() != disk
    modifies p.Ref(), disk
    ensures run == Loop(env, Start(old(p.View()), old(disk.files), requests, turns))
    ensures p.View() == run.history && disk.files == run.files
    ensures inTok == run.inTok && outTok == run.outTok && toolCalls == run.toolCalls
    ensures failed <==> run.stop.ChatError? || run.stop.Running?
    ensures text == if failed then "" else AnswerText(env.messages, run.answer)
  {
    ghost var start := Start(p.View(), disk.files, requests, turns);
    run := start;
    inTok, outTok, toolCalls, text := 0, 0, 0, "";
    var accumulated, stop := "", Running;
    var ledger := new Ledger(env.spill);
    var i := 0;
    while i < env.maxRounds
      invariant 0 <= i <= env.maxRounds
      invariant run == Rounds(env, start, i) && run.stop.Running? && run.answer == NoAnswer
      invariant Holds(run, p, ledger, disk, inTok, outTok, toolCalls, accumulated)
      invariant fresh(ledger) && ledger.spill == env.spill
    {
      inTok, outTok, toolCalls, accumulated, stop, text, run :=
        PlayRound(p, ledger, disk, env, i, run, inTok, outTok, toolCalls, accumulated);
      RoundsStep(env, start, i);
      if !stop.Running? {
        StoppedStays(env, start, i + 1, env.maxRounds);
        return if stop.ChatError? then "" else text, inTok, outTok, toolCalls, stop.ChatError?, run;
      }
      i := i + 1;
    }
    text, failed := "", true;
  }
}
