/** What a run comes to, told by the replies and the tools' outputs alone: which replies it goes on
    from, its totals, the calls and results it recorded, and the text it returns. */
module RunAnswers {
  import opened ByteText
  import opened TextCut
  import opened Conversation
  import opened Providers
  import opened ToolResultLedger
  import opened AgentLoop
  import opened LoopSafety

  // ----- one reply

  /** The n-th request got a reply of its provider's kind. */
  predicate Answered(env: Env, n: nat) {
    match env.completions(n)
    case Chosen(_, _, _, _, _, _) => env.kind.OpenAIKind?
    case Blocks(_, _, _, _) => env.kind.AnthropicKind?
    case _ => false
  }

  function InTokens(c: Completion): int {
    match c
    case Chosen(_, _, _, _, inTok, _) => inTok
    case Blocks(_, _, inTok, _) => inTok
    case _ => 0
  }

  function OutTokens(c: Completion): int {
    match c
    case Chosen(_, _, _, _, _, outTok) => outTok
    case Blocks(_, _, _, outTok) => outTok
    case _ => 0
  }

  /** The calls a reply asks for: the structured ones; those recovered from the reasoning only when the
      reply has neither structured calls nor content; content blocks' only when it stopped for tools. */
  function CallsOf(c: Completion): seq<Call> {
    match c
    case Chosen(content, _, structured, recovered, _, _) =>
      if |structured| > 0 then structured else if |content| > 0 then [] else recovered
    case Blocks(blocks, stopForTools, _, _) => if stopForTools then ToolUses(blocks) else []
    case _ => []
  }

  /** Its text: the content, or the reasoning when there is none; or all text blocks. */
  function TextOf(c: Completion): string {
    match c
    case Chosen(content, reasoning, _, _, _, _) => if |content| > 0 then content else reasoning
    case Blocks(blocks, _, _, _) => Texts(blocks)
    case _ => ""
  }

  lemma ReplyTold(env: Env, n: nat)
    ensures var c := env.completions(n);
      ReplyAt(env, n)
      == if Answered(env, n) then ChatDone(TextOf(c), CallsOf(c), InTokens(c), OutTokens(c)) else ChatFailed
  {
  }

  // ----- the first n replies

  function TotalIn(env: Env, n: nat): int {
    if n == 0 then 0 else TotalIn(env, n - 1) + InTokens(env.completions(n - 1))
  }

  function TotalOut(env: Env, n: nat): int {
    if n == 0 then 0 else TotalOut(env, n - 1) + OutTokens(env.completions(n - 1))
  }

  function CallCount(env: Env, n: nat): nat {
    if n == 0 then 0 else CallCount(env, n - 1) + |CallsOf(env.completions(n - 1))|
  }

  function TextsOf(env: Env, n: nat): seq<string> {
    seq(n, k requires 0 <= k < n => TextOf(env.completions(k)))
  }

  function RoundsOf(env: Env, n: nat): seq<Turn> {
    seq(n, k requires 0 <= k < n => Round(CallsOf(env.completions(k))))
  }

  /** The outputs of the first n replies' calls, clamped, in order. */
  function ResultsOf(env: Env, n: nat): seq<bytes> {
    if n == 0 then []
    else
      var calls := CallsOf(env.completions(n - 1));
      ResultsOf(env, n - 1)
      + seq(|calls|, k requires 0 <= k < |calls| => Clamped(env.policy.resultMax, calls[k].name, env.outputs(n - 1, k)))
  }

  datatype Label = Label(callID: string, tool: string, round: int)

  /** Whose results those are; rounds count from one. */
  function LabelsOf(env: Env, n: nat): seq<Label> {
    if n == 0 then []
    else
      var calls := CallsOf(env.completions(n - 1));
      LabelsOf(env, n - 1) + seq(|calls|, k requires 0 <= k < |calls| => Label(calls[k].id, calls[k].name, n))
  }

  function EntryLabels(es: seq<Entry>): (ls: seq<Label>)
    ensures |ls| == |es|
  {
    seq(|es|, j requires 0 <= j < |es| => Label(es[j].callID, es[j].tool, es[j].round))
  }

  /** A budget that halts is used up by the first n replies. */
  predicate UsedUp(env: Env, n: nat) {
    env.budget.max > 0 && env.budget.action == "halt" && TotalIn(env, n) + TotalOut(env, n) >= env.budget.max
  }

  /** A run goes on from its n-th reply: that there is, which asks for calls, with budget left. */
  predicate GoesOn(env: Env, n: nat) {
    Answered(env, n) && CallsOf(env.completions(n)) != [] && !UsedUp(env, n + 1)
  }

  ghost predicate GoesOnFor(env: Env, n: nat) {
    forall k: nat | k < n :: GoesOn(env, k)
  }

  // ----- what a run's state is by then

  /** The rounds and results of the first n replies are recorded. */
  ghost predicate HasRecorded(env: Env, start: Run, run: Run, n: nat) {
    && run.turns == start.turns + RoundsOf(env, n)
    && run.toolCalls == CallCount(env, n)
    && run.inserted == ResultsOf(env, n)
    && EntryLabels(run.entries) == LabelsOf(env, n)
  }

  /** It went on from the first n replies. */
  ghost predicate StillGoing(env: Env, start: Run, run: Run, n: nat) {
    && run.stop.Running? && run.answer == NoAnswer && HasRecorded(env, start, run, n)
    && run.inTok == TotalIn(env, n) && run.outTok == TotalOut(env, n)
    && run.said == TextsOf(env, n)
    && |run.requests| == |start.requests| + n
  }

  /** It stopped on reply n, after going on from all before: without a reply it failed, and otherwise
      the reply's tokens count and it was halted or had its last word. */
  ghost predicate StoppedOn(env: Env, start: Run, run: Run, n: nat) {
    && HasRecorded(env, start, run, n)
    && |run.requests| == |start.requests| + n + 1
    && if !Answered(env, n) then
         run.stop.ChatError? && run.inTok == TotalIn(env, n) && run.outTok == TotalOut(env, n)
         && run.answer == NoAnswer
       else
         && run.inTok == TotalIn(env, n + 1) && run.outTok == TotalOut(env, n + 1)
         && (if UsedUp(env, n + 1) then
               run.stop.BudgetHalt?
               && run.answer == Halted(TextsOf(env, n), TextOf(env.completions(n)),
                                       TotalIn(env, n + 1) + TotalOut(env, n + 1), env.budget.max)
             else
               run.stop.Finished? && CallsOf(env.completions(n)) == [] && run.answer == Final(TextsOf(env, n + 1)))
  }

  lemma FirstIsGoing(env: Env, start: Run, h: History, files: map<string, bytes>, requests: seq<Request>, turns: seq<Turn>)
    requires start == Start(h, files, requests, turns)
    ensures StillGoing(env, start, start, 0)
  {
  }

  /** The parts of a run that one request and its reply leave alone. */
  predicate SameRecord(run: Run, next: Run) {
    && next.turns == run.turns && next.toolCalls == run.toolCalls && next.inserted == run.inserted
    && next.entries == run.entries && |next.requests| == |run.requests| + 1
  }

  lemma NoReply(env: Env, run: Run, n: nat, next: Run)
    requires next == Chatted(env, run, n) && !Answered(env, n)
    ensures SameRecord(run, next) && next.stop.ChatError? && next.answer == run.answer
    ensures next.inTok == run.inTok && next.outTok == run.outTok
  {
    ReplyTold(env, n);
  }

  /** What a reply with these fields adds. */
  predicate Adds(env: Env, run: Run, next: Run, text: string, calls: seq<Call>, inTok: int, outTok: int) {
    && SameRecord(run, next) && next.inTok == run.inTok + inTok && next.outTok == run.outTok + outTok
    && var used, max := next.inTok + next.outTok, env.budget.max;
    if max > 0 && env.budget.action == "halt" && used >= max then
      next.stop.BudgetHalt? && next.answer == Halted(run.said, text, used, max)
    else
      && next.said == run.said + [text]
      && if calls == [] then next.stop.Finished? && next.answer == Final(run.said + [text])
         else next.stop == run.stop && next.answer == run.answer
  }

  lemma ReplyAdds(env: Env, run: Run, n: nat, next: Run, text: string, calls: seq<Call>, inTok: int, outTok: int)
    requires next == Chatted(env, run, n) && ReplyAt(env, n) == ChatDone(text, calls, inTok, outTok)
    ensures Adds(env, run, next, text, calls, inTok, outTok)
  {
  }

  lemma TextsOfNext(env: Env, n: nat)
    ensures TextsOf(env, n + 1) == TextsOf(env, n) + [TextOf(env.completions(n))]
  {
  }

  /** The n-th request and its reply. */
  lemma AfterReply(env: Env, start: Run, run: Run, n: nat, next: Run)
    requires StillGoing(env, start, run, n) && next == Chatted(env, run, n)
    ensures if GoesOn(env, n) then RepliedTo(env, start, next, n) else StoppedOn(env, start, next, n)
  {
    ReplyTold(env, n);
    if Answered(env, n) {
      var c := env.completions(n);
      ReplyAdds(env, run, n, next, TextOf(c), CallsOf(c), InTokens(c), OutTokens(c));
      AfterAnswer(env, start, run, n, next);
    } else {
      NoReply(env, run, n, next);
    }
  }

  /** It goes on from reply n, whose calls are still to run. */
  ghost predicate RepliedTo(env: Env, start: Run, run: Run, n: nat) {
    && run.stop.Running? && run.answer == NoAnswer && HasRecorded(env, start, run, n)
    && run.inTok == TotalIn(env, n + 1) && run.outTok == TotalOut(env, n + 1)
    && run.said == TextsOf(env, n + 1)
    && |run.requests| == |start.requests| + n + 1
  }

  lemma AfterAnswer(env: Env, start: Run, run: Run, n: nat, next: Run)
    requires StillGoing(env, start, run, n) && Answered(env, n)
    requires var c := env.completions(n); Adds(env, run, next, TextOf(c), CallsOf(c), InTokens(c), OutTokens(c))
    ensures if GoesOn(env, n) then RepliedTo(env, start, next, n) else StoppedOn(env, start, next, n)
  {
    TextsOfNext(env, n);
  }

  /** What its calls add, when it goes on. */
  lemma CallsAdd(env: Env, run: Run, n: nat, calls: seq<Call>, next: Run)
    requires next == AfterResults(env, run, n, calls)
    ensures next.turns == run.turns + [Round(calls)] && next.toolCalls == run.toolCalls + |calls|
    ensures next.inserted == run.inserted + RoundContents(env, n, calls)
    ensures next.entries == run.entries + RoundEntries(env, n, calls)
  {
  }

  lemma RoundsOfNext(env: Env, n: nat, before: seq<Turn>)
    ensures before + RoundsOf(env, n + 1) == before + RoundsOf(env, n) + [Round(CallsOf(env.completions(n)))]
  {
    assert RoundsOf(env, n + 1) == RoundsOf(env, n) + [Round(CallsOf(env.completions(n)))];
  }

  lemma RecordedNext(env: Env, start: Run, run: Run, next: Run, n: nat, calls: seq<Call>, contents: seq<bytes>, es: seq<Entry>)
    requires HasRecorded(env, start, run, n) && calls == CallsOf(env.completions(n))
    requires next.turns == run.turns + [Round(calls)] && next.toolCalls == run.toolCalls + |calls|
    requires next.inserted == run.inserted + contents && next.entries == run.entries + es
    requires ResultsOf(env, n + 1) == ResultsOf(env, n) + contents
    requires LabelsOf(env, n + 1) == LabelsOf(env, n) + EntryLabels(es)
    ensures HasRecorded(env, start, next, n + 1)
  {
    RoundsOfNext(env, n, start.turns);
    assert EntryLabels(run.entries + es) == EntryLabels(run.entries) + EntryLabels(es);
  }

  lemma AfterCalls(env: Env, start: Run, run: Run, n: nat, calls: seq<Call>, next: Run)
    requires HasRecorded(env, start, run, n) && calls == CallsOf(env.completions(n))
    requires next == AfterResults(env, run, n, calls)
    ensures HasRecorded(env, start, next, n + 1)
  {
    CallsAdd(env, run, n, calls, next);
    NewResults(env, n, calls);
    RecordedNext(env, start, run, next, n, calls, RoundContents(env, n, calls), RoundEntries(env, n, calls));
  }

  lemma NewResults(env: Env, n: nat, calls: seq<Call>)
    requires calls == CallsOf(env.completions(n))
    ensures ResultsOf(env, n + 1) == ResultsOf(env, n) + RoundContents(env, n, calls)
    ensures LabelsOf(env, n + 1) == LabelsOf(env, n) + EntryLabels(RoundEntries(env, n, calls))
  {
    var cs := seq(|calls|, k requires 0 <= k < |calls| => Clamped(env.policy.resultMax, calls[k].name, env.outputs(n, k)));
    assert cs == RoundContents(env, n, calls);
    var ls := seq(|calls|, k requires 0 <= k < |calls| => Label(calls[k].id, calls[k].name, n + 1));
    assert ls == EntryLabels(RoundEntries(env, n, calls));
  }

  /** And its pass, which relabels nothing. */
  lemma AfterPass(env: Env, start: Run, run: Run, n: nat, m: nat, next: Run)
    requires env.policy.keepRecent >= 0 && HasRecorded(env, start, run, n) && next == AfterElision(env, run, m)
    ensures HasRecorded(env, start, next, n)
  {
    PassKeepsIds(run.entries, run.live, run.files, env.policy, env.spill, env.writes(m));
    assert EntryLabels(next.entries) == EntryLabels(run.entries);
  }

  /** The rest of a round leaves totals and texts as the reply did. */
  lemma RestKeeps(env: Env, chatted: Run, n: nat, calls: seq<Call>, next: Run)
    requires env.policy.keepRecent >= 0 && next == AfterElision(env, AfterResults(env, chatted, n, calls), n)
    ensures next.stop == chatted.stop && next.answer == chatted.answer && next.said == chatted.said
    ensures next.inTok == chatted.inTok && next.outTok == chatted.outTok && next.requests == chatted.requests
  {
  }

  lemma RestRecords(env: Env, start: Run, chatted: Run, n: nat, calls: seq<Call>, next: Run)
    requires env.policy.keepRecent >= 0 && HasRecorded(env, start, chatted, n) && calls == CallsOf(env.completions(n))
    requires next == AfterElision(env, AfterResults(env, chatted, n, calls), n)
    ensures HasRecorded(env, start, next, n + 1)
  {
    var recorded := AfterResults(env, chatted, n, calls);
    AfterCalls(env, start, chatted, n, calls, recorded);
    AfterPass(env, start, recorded, n + 1, n, next);
  }

  lemma RoundIs(env: Env, run: Run, n: nat, chatted: Run, next: Run)
    requires env.policy.keepRecent >= 0 && chatted == Chatted(env, run, n) && next == RunRound(env, run, n)
    ensures if chatted.stop.Running? && ReplyAt(env, n).ChatDone?
            then next == AfterElision(env, AfterResults(env, chatted, n, ReplyAt(env, n).calls), n)
            else next == chatted
  {
  }

  lemma AfterRound(env: Env, start: Run, run: Run, n: nat, chatted: Run, next: Run)
    requires env.policy.keepRecent >= 0 && StillGoing(env, start, run, n) && next == RunRound(env, run, n)
    requires chatted == Chatted(env, run, n)
    ensures if GoesOn(env, n) then StillGoing(env, start, next, n + 1) else StoppedOn(env, start, next, n)
  {
    AfterReply(env, start, run, n, chatted);
    RoundIs(env, run, n, chatted, next);
    if GoesOn(env, n) {
      ReplyTold(env, n);
      RestKeeps(env, chatted, n, ReplyAt(env, n).calls, next);
      RestRecords(env, start, chatted, n, ReplyAt(env, n).calls, next);
    }
  }

  /** After n rounds a run has gone on from the first n replies, or has stopped on the first that it
      does not go on from; which, and all it holds then, is told by replies and outputs alone. */
  ghost predicate Told(env: Env, start: Run, run: Run, n: nat) {
    if GoesOnFor(env, n) then StillGoing(env, start, run, n)
    else exists k: nat :: k < n && GoesOnFor(env, k) && !GoesOn(env, k) && StoppedOn(env, start, run, k)
  }

  lemma ToldAfterGoing(env: Env, start: Run, next: Run, n: nat)
    requires GoesOnFor(env, n)
    requires if GoesOn(env, n) then StillGoing(env, start, next, n + 1) else StoppedOn(env, start, next, n)
    ensures Told(env, start, next, n + 1)
  {
    if !GoesOn(env, n) { assert !GoesOnFor(env, n + 1); }
  }

  lemma ToldAfterStop(env: Env, start: Run, run: Run, n: nat)
    requires !GoesOnFor(env, n) && Told(env, start, run, n)
    ensures !run.stop.Running? && Told(env, start, run, n + 1)
  {
    assert !GoesOnFor(env, n + 1);
  }

  lemma NextTold(env: Env, start: Run, n: nat, run: Run, next: Run)
    requires env.policy.keepRecent >= 0 && Told(env, start, run, n)
    requires next == if run.stop.Running? then RunRound(env, run, n) else run
    ensures Told(env, start, next, n + 1)
  {
    if GoesOnFor(env, n) {
      AfterRound(env, start, run, n, Chatted(env, run, n), next);
      ToldAfterGoing(env, start, next, n);
    } else {
      ToldAfterStop(env, start, run, n);
    }
  }

  lemma StepTold(env: Env, start: Run, n: nat)
    requires env.policy.keepRecent >= 0 && Told(env, start, Rounds(env, start, n), n)
    ensures Told(env, start, Rounds(env, start, n + 1), n + 1)
  {
    RoundsStep(env, start, n);
    NextTold(env, start, n, Rounds(env, start, n), Rounds(env, start, n + 1));
  }

  lemma ToldFrom(env: Env, start: Run, n: nat)
    requires env.policy.keepRecent >= 0 && Told(env, start, start, 0)
    ensures Told(env, start, Rounds(env, start, n), n)
  {
    assert Rounds(env, start, 0) == start;
    for i := 0 to n
      invariant Told(env, start, Rounds(env, start, i), i)
    {
      StepTold(env, start, i);
    }
  }

  lemma RunIsTold(env: Env, h: History, files: map<string, bytes>, requests: seq<Request>, turns: seq<Turn>, n: nat)
    requires env.policy.keepRecent >= 0
    ensures var start := Start(h, files, requests, turns); Told(env, start, Rounds(env, start, n), n)
  {
    var start := Start(h, files, requests, turns);
    FirstIsGoing(env, start, h, files, requests, turns);
    ToldFrom(env, start, n);
  }

  /** Under a budget that halts, every request but the first is made with budget left: the replies
      before it have used less than the maximum. */
  lemma RequestsWithinBudget(env: Env, h: History, files: map<string, bytes>, requests: seq<Request>, turns: seq<Turn>,
                             n: nat, m: nat)
    requires env.policy.keepRecent >= 0 && env.budget.max > 0 && env.budget.action == "halt"
    requires 0 < m < |Rounds(env, Start(h, files, requests, turns), n).requests| - |requests|
    ensures TotalIn(env, m) + TotalOut(env, m) < env.budget.max
  {
    RunIsTold(env, h, files, requests, turns, n);
    assert GoesOn(env, m - 1);
  }

  // ----- the text it returns

  /** The texts that are not blank, trimmed. */
  function Paragraphs(ts: seq<string>): seq<string> {
    if ts == [] then []
    else (if AllSpace(ts[0]) then [] else [TrimSpace(ts[0])]) + Paragraphs(ts[1..])
  }

  /** With a blank line between one and the next. */
  function Spaced(ps: seq<string>): string {
    if ps == [] then "" else if |ps| == 1 then ps[0] else ps[0] + ("\n\n" + Spaced(ps[1..]))
  }

  lemma {:induction false} ParagraphsAppend(ts: seq<string>, us: seq<string>)
    ensures Paragraphs(ts + us) == Paragraphs(ts) + Paragraphs(us)
  {
    if ts == [] {
      assert ts + us == us;
    } else {
      assert (ts + us)[1..] == ts[1..] + us;
      ParagraphsAppend(ts[1..], us);
    }
  }

  lemma {:induction false} SpacedSnoc(ps: seq<string>, p: string)
    requires ps != []
    ensures Spaced(ps + [p]) == Spaced(ps) + "\n\n" + p
  {
    if |ps| > 1 {
      assert (ps + [p])[1..] == ps[1..] + [p];
      SpacedSnoc(ps[1..], p);
    }
  }

  lemma {:induction false} ParagraphsNotEmpty(ts: seq<string>)
    ensures forall i | 0 <= i < |Paragraphs(ts)| :: Paragraphs(ts)[i] != ""
  {
    if ts != [] {
      var i, j := TrimExactly(ts[0]);
      ParagraphsNotEmpty(ts[1..]);
    }
  }

  lemma SpacedNotEmpty(ps: seq<string>)
    requires forall i | 0 <= i < |ps| :: ps[i] != ""
    ensures Spaced(ps) == "" <==> ps == []
  {
  }

  lemma ParagraphsSnoc(ts: seq<string>, t: string)
    ensures Paragraphs(ts + [t]) == if AllSpace(t) then Paragraphs(ts) else Paragraphs(ts) + [TrimSpace(t)]
  {
    ParagraphsAppend(ts, [t]);
    assert [t][1..] == [];
  }

  /** One more text, accumulated. */
  lemma AccumulatedSnoc(ts: seq<string>, t: string)
    ensures Accumulated(ts + [t])
      == if AllSpace(t) then Accumulated(ts)
         else if Accumulated(ts) == "" then TrimSpace(t) else Accumulated(ts) + "\n\n" + TrimSpace(t)
  {
    assert (ts + [t])[..|ts|] == ts;
    var i, j := TrimExactly(t);
  }

  lemma SpacedOneMore(ps: seq<string>, p: string)
    requires forall i | 0 <= i < |ps| :: ps[i] != ""
    ensures Spaced(ps + [p]) == if Spaced(ps) == "" then p else Spaced(ps) + "\n\n" + p
  {
    SpacedNotEmpty(ps);
    if ps != [] { SpacedSnoc(ps, p); }
  }

  /** What the loop accumulates is the paragraphs said so far. */
  lemma {:induction false} AccumulatedIsSpaced(ts: seq<string>)
    ensures Accumulated(ts) == Spaced(Paragraphs(ts))
  {
    if ts != [] {
      var init, last := ts[..|ts| - 1], ts[|ts| - 1];
      assert ts == init + [last];
      AccumulatedIsSpaced(init);
      AccumulatedSnoc(init, last);
      ParagraphsSnoc(init, last);
      ParagraphsNotEmpty(init);
      SpacedOneMore(Paragraphs(init), TrimSpace(last));
    }
  }

  /** What a run that stopped on reply k answers. Halted, it answers with the last reply, trimmed; if
      that is blank, with all that was said before; and if nothing was, that the budget is used up.
      Finished, it answers with the last reply as it is; if that is blank, it says so when something
      was said before, and nothing otherwise. */
  function AnswerTold(env: Env, k: nat): string {
    var text, before := TextOf(env.completions(k)), Paragraphs(TextsOf(env, k));
    if !Answered(env, k) then ""
    else if UsedUp(env, k + 1) then
      if !AllSpace(text) then TrimSpace(text)
      else if before != [] then Spaced(before)
      else env.messages.overBudget(TotalIn(env, k + 1) + TotalOut(env, k + 1), env.budget.max)
    else if !AllSpace(text) then text
    else if before != [] then env.messages.noSummary
    else ""
  }

  lemma AnswerIsTold(env: Env, start: Run, run: Run, k: nat)
    requires StoppedOn(env, start, run, k)
    ensures AnswerText(env.messages, run.answer) == AnswerTold(env, k)
  {
    var text, texts := TextOf(env.completions(k)), TextsOf(env, k);
    var i, j := TrimExactly(text);
    AccumulatedIsSpaced(texts);
    AccumulatedSnoc(texts, text);
    ParagraphsNotEmpty(texts);
    SpacedNotEmpty(Paragraphs(texts));
    TextsOfNext(env, k);
  }

  /** The loop that stopped on reply k. */
  ghost predicate LoopStoppedOn(env: Env, start: Run, run: Run, k: nat) {
    && GoesOnFor(env, k) && !GoesOn(env, k) && StoppedOn(env, start, run, k)
    && AnswerText(env.messages, run.answer) == AnswerTold(env, k)
  }

  /** The whole loop runs out of rounds exactly when it goes on from every reply it is allowed; or it
      stops on the first reply it does not go on from. Totals, calls, results and text are told by the
      replies up to there and the outputs of their calls. */
  lemma LoopIsTold(env: Env, h: History, files: map<string, bytes>, requests: seq<Request>, turns: seq<Turn>)
    requires env.policy.keepRecent >= 0
    ensures var start := Start(h, files, requests, turns); var run := Loop(env, start);
      if GoesOnFor(env, env.maxRounds) then StillGoing(env, start, run, env.maxRounds)
      else exists k: nat :: k < env.maxRounds && LoopStoppedOn(env, start, run, k)
  {
    RunIsTold(env, h, files, requests, turns, env.maxRounds);
    var start := Start(h, files, requests, turns);
    if !GoesOnFor(env, env.maxRounds) {
      var k: nat :| k < env.maxRounds && GoesOnFor(env, k) && !GoesOn(env, k) && StoppedOn(env, start, Loop(env, start), k);
      AnswerIsTold(env, start, Loop(env, start), k);
      assert LoopStoppedOn(env, start, Loop(env, start), k);
    }
  }
}
