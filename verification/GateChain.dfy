/** In-place gate retry: attempts on one live provider, parked between on a signed verdict. */
module GateChain {
  import opened ByteText
  import opened Conversation
  import opened Providers
  import opened ToolResultLedger
  import opened AgentLoop

  // ----- waiting for a verdict

  datatype Action = Continue | Stop | Other(name: string)

  datatype Verdict = Verdict(attempt: int, action: Action, feedback: string)

  /** One wake-up of the wait: the context ended, or a tick that found the verdict file (or not), the
      done sentinel (or not) and the deadline passed (or not). */
  datatype Poll = Cancelled | Tick(data: Option<bytes>, done: bool, late: bool)

  datatype Waited = Got(v: Verdict) | GaveUp

  /** Reads a file as a verdict signed for this run, or not at all. */
  type Reader = bytes -> Option<Verdict>

  /** What the wait comes to; a script that ends is a cancelled context. */
  function Wait(polls: seq<Poll>, attempt: int, rejected: bytes, read: Reader): Waited {
    if polls == [] then GaveUp
    else
      match polls[0]
      case Cancelled => GaveUp
      case Tick(data, done, late) =>
        if data.Some? && data.value != rejected then
          match read(data.value)
          case None => Wait(polls[1..], attempt, data.value, read)
          case Some(v) => if v.attempt != attempt then GaveUp else Got(v)
        else if done || late then GaveUp
        else Wait(polls[1..], attempt, rejected, read)
  }

  method WaitForGateVerdict(polls: seq<Poll>, attempt: int, read: Reader) returns (w: Waited)
    ensures w == Wait(polls, attempt, [], read)
  {
    var rejected: bytes := [];
    for i := 0 to |polls|
      invariant Wait(polls, attempt, [], read) == Wait(polls[i..], attempt, rejected, read)
    {
      if polls[i].Cancelled? { return GaveUp; }
      var data := polls[i].data;
      if data.Some? && data.value != rejected {
        var v := read(data.value);
        if v.None? {
          rejected := data.value;
          continue;
        }
        if v.value.attempt != attempt { return GaveUp; }
        return Got(v.value);
      }
      if polls[i].done { return GaveUp; }
      if polls[i].late { return GaveUp; }
    }
    return GaveUp;
  }

  predicate Verified(p: Poll, read: Reader) {
    p.Tick? && p.data.Some? && read(p.data.value).Some?
  }

  predicate Junk(p: Poll, read: Reader) {
    p.Tick? && p.data.Some? && read(p.data.value).None?
  }

  /** The last unusable file seen; nothing seen reads as an empty file. */
  function LastJunk(polls: seq<Poll>, read: Reader): bytes {
    if polls == [] then []
    else
      var last := polls[|polls| - 1];
      if Junk(last, read) then last.data.value else LastJunk(polls[..|polls| - 1], read)
  }

  /** Poll i ends the wait: a verified verdict always does; the sentinel and the deadline do, unless
      this very tick found unusable contents other than the last. */
  predicate Ends(polls: seq<Poll>, i: nat, read: Reader)
    requires i < |polls|
  {
    var p := polls[i];
    || p.Cancelled?
    || Verified(p, read)
    || ((p.done || p.late) && !(Junk(p, read) && p.data.value != LastJunk(polls[..i], read)))
  }

  lemma {:induction false} WaitFrom(polls: seq<Poll>, i: nat, attempt: int, read: Reader, v: Verdict)
    requires i <= |polls| && read([]).None?
    ensures Wait(polls[i..], attempt, LastJunk(polls[..i], read), read) == Got(v)
      <==> DecidedFrom(polls, i, attempt, read, v)
    decreases |polls| - i
  {
    if i < |polls| {
      WaitOne(polls, i, attempt, read);
      assert DecidedAt(polls, i, i, attempt, read, v)
        <==> Verified(polls[i], read) && read(polls[i].data.value) == Some(v) && v.attempt == attempt;
      if Ends(polls, i, read) {
        if k :| i <= k < |polls| && DecidedAt(polls, i, k, attempt, read, v) {
          assert k == i;
        }
      } else {
        WaitFrom(polls, i + 1, attempt, read, v);
        LaterDecision(polls, i, attempt, read, v);
      }
    }
  }

  lemma LaterDecision(polls: seq<Poll>, i: nat, attempt: int, read: Reader, v: Verdict)
    requires i < |polls| && !Ends(polls, i, read)
    ensures DecidedFrom(polls, i, attempt, read, v) <==> DecidedFrom(polls, i + 1, attempt, read, v)
  {
    var next := i + 1;
    if k :| i <= k < |polls| && DecidedAt(polls, i, k, attempt, read, v) {
      assert DecidedAt(polls, next, k, attempt, read, v);
    }
    if k :| next <= k < |polls| && DecidedAt(polls, next, k, attempt, read, v) {
      assert DecidedAt(polls, i, k, attempt, read, v);
    }
  }

  /** One wake-up: it ends the wait, with its verdict if it carries one for this attempt, or changes
      at most what was last rejected. */
  lemma WaitOne(polls: seq<Poll>, i: nat, attempt: int, read: Reader)
    requires i < |polls| && read([]).None?
    ensures Wait(polls[i..], attempt, LastJunk(polls[..i], read), read)
      == if !Ends(polls, i, read) then Wait(polls[i + 1..], attempt, LastJunk(polls[..i + 1], read), read)
         else if Verified(polls[i], read) && read(polls[i].data.value).value.attempt == attempt
         then Got(read(polls[i].data.value).value)
         else GaveUp
  {
    var p, rejected := polls[i], LastJunk(polls[..i], read);
    assert polls[i..][0] == p && polls[i..][1..] == polls[i + 1..];
    assert polls[..i + 1][..i] == polls[..i];
    assert LastJunk(polls[..i + 1], read) == if Junk(p, read) then p.data.value else rejected;
    JunkIsUnreadable(polls[..i], read);
  }

  lemma {:induction false} JunkIsUnreadable(polls: seq<Poll>, read: Reader)
    requires read([]).None?
    ensures read(LastJunk(polls, read)).None?
  {
    if polls != [] { JunkIsUnreadable(polls[..|polls| - 1], read); }
  }

  /** Poll k carries this verdict, signed for this run and attempt, and nothing from i on ended the wait before. */
  predicate DecidedAt(polls: seq<Poll>, i: nat, k: nat, attempt: int, read: Reader, v: Verdict)
    requires k < |polls|
  {
    && Verified(polls[k], read) && read(polls[k].data.value) == Some(v) && v.attempt == attempt
    && forall j | i <= j < k :: !Ends(polls, j, read)
  }

  ghost predicate DecidedFrom(polls: seq<Poll>, i: nat, attempt: int, read: Reader, v: Verdict) {
    exists k | i <= k < |polls| :: DecidedAt(polls, i, k, attempt, read, v)
  }

  /** A verdict comes out of the wait exactly when some poll finds it, verified and for this attempt,
      before anything else ends the wait. Files for other attempts and unsigned files never count. */
  lemma WaitMeaning(polls: seq<Poll>, attempt: int, read: Reader, v: Verdict)
    requires read([]).None?
    ensures Wait(polls, attempt, [], read) == Got(v)
      <==> exists k | 0 <= k < |polls| :: DecidedAt(polls, 0, k, attempt, read, v)
  {
    WaitFrom(polls, 0, attempt, read, v);
    assert polls[0..] == polls && LastJunk(polls[..0], read) == [];
  }

  // ----- the chain

  datatype ChainEnv = ChainEnv(
    loops: nat -> Env,
    budget: TokenBudget,
    first: int,
    maxAttempts: int,
    parks: seq<seq<Poll>>,
    read: Reader,
    publishFails: nat -> bool,
    card: (Verdict, int) -> string)

  datatype Ended = Going | LoopFailed | OverBudget | LastPermitted | PublishFailed | NoVerdict | VerdictEnds

  datatype Marker = Marker(attempt: int, text: string, inTok: int, outTok: int, toolCalls: int)

  /** A chain after some attempts. `runs`, `markers`, `verdicts` and `cards` are what it did so far. */
  datatype Chain = Chain(
    history: History,
    files: map<string, bytes>,
    requests: seq<Request>,
    turns: seq<Turn>,
    inTok: int,
    outTok: int,
    toolCalls: int,
    lastText: string,
    ended: Ended,
    runs: seq<Run>,
    markers: seq<Marker>,
    verdicts: seq<Verdict>,
    cards: seq<string>)

  function NewChain(h: History, files: map<string, bytes>): Chain {
    Chain(h, files, [], [], 0, 0, 0, "", Going, [], [], [], [])
  }

  ghost predicate Uniform(env: ChainEnv) {
    forall k: nat :: env.loops(k).policy.keepRecent >= 0 && env.loops(k).budget == env.budget
  }

  function Park(env: ChainEnv, k: nat): seq<Poll> {
    if k < |env.parks| then env.parks[k] else []
  }

  predicate RunFailed(run: Run) {
    run.stop.ChatError? || run.stop.Running?
  }

  function ReturnedText(env: ChainEnv, k: nat, run: Run): string {
    if RunFailed(run) then "" else AnswerText(env.loops(k).messages, run.answer)
  }

  /** The k-th attempt's run on this chain. */
  function RunOf(env: ChainEnv, c: Chain, k: nat): Run
    requires Uniform(env)
  {
    Loop(env.loops(k), Start(c.history, c.files, c.requests, c.turns))
  }

  /** The chain with that run, which returned that text, added to its totals. */
  function WithRun(c: Chain, run: Run, text: string): Chain {
    c.(history := run.history, files := run.files, requests := run.requests, turns := run.turns,
       inTok := c.inTok + run.inTok, outTok := c.outTok + run.outTok, toolCalls := c.toolCalls + run.toolCalls,
       lastText := if text != "" then text else c.lastText, runs := c.runs + [run])
  }

  /** What follows an attempt: the end of the chain, or a retry card. */
  function AfterAttempt(env: ChainEnv, c: Chain, k: nat, run: Run, text: string): Chain {
    var number := env.first + k;
    if RunFailed(run) then c.(ended := LoopFailed)
    else if Halts(env.budget, run.inTok, run.outTok) then c.(ended := OverBudget)
    else if env.maxAttempts > 0 && number >= env.maxAttempts then c.(ended := LastPermitted)
    else if env.publishFails(k) then c.(ended := PublishFailed)
    else
      var published := c.(markers := c.markers + [Marker(number, text, run.inTok, run.outTok, run.toolCalls)]);
      match Wait(Park(env, k), number, [], env.read)
      case GaveUp => published.(ended := NoVerdict)
      case Got(v) =>
        if !v.action.Continue? then published.(ended := VerdictEnds)
        else
          var card := env.card(v, number + 1);
          published.(history := AfterUser(c.history, card), turns := c.turns + [Card(card)],
                     verdicts := c.verdicts + [v], cards := c.cards + [card])
  }

  /** The chain after its k-th attempt went this way. */
  function AfterRun(env: ChainEnv, c: Chain, k: nat, run: Run): Chain {
    var text := ReturnedText(env, k, run);
    AfterAttempt(env, WithRun(c, run, text), k, run, text)
  }

  function Attempts(env: ChainEnv, start: Chain, n: nat): Chain
    requires Uniform(env)
    decreases n, 0
  {
    if n == 0 then start else NextAttempt(env, start, n - 1)
  }

  function NextAttempt(env: ChainEnv, start: Chain, n: nat): Chain
    requires Uniform(env)
    decreases n, 1
  {
    var c := Attempts(env, start, n);
    if c.ended.Going? then AfterRun(env, c, n, RunOf(env, c, n)) else c
  }

  lemma AttemptsStep(env: ChainEnv, start: Chain, n: nat)
    requires Uniform(env)
    ensures var c, run := Attempts(env, start, n), RunOf(env, Attempts(env, start, n), n);
      Attempts(env, start, n + 1) == if c.ended.Going? then AfterRun(env, c, n, run) else c
  {
    assert Attempts(env, start, n + 1) == NextAttempt(env, start, n);
  }

  lemma {:induction false} EndedStays(env: ChainEnv, start: Chain, n: nat, m: nat)
    requires Uniform(env) && n <= m && !Attempts(env, start, n).ended.Going?
    ensures Attempts(env, start, m) == Attempts(env, start, n)
  {
    if n < m {
      EndedStays(env, start, n, m - 1);
      AttemptsStep(env, start, m - 1);
    }
  }

  /** The chain has ended after n attempts, and is the same for every larger number of them. */
  ghost predicate EndedFor(env: ChainEnv, start: Chain, n: nat)
    requires Uniform(env)
  {
    && !Attempts(env, start, n).ended.Going?
    && forall m: nat | m >= n :: Attempts(env, start, m) == Attempts(env, start, n)
  }

  lemma EndedForGood(env: ChainEnv, start: Chain, n: nat)
    requires Uniform(env) && !Attempts(env, start, n).ended.Going?
    ensures EndedFor(env, start, n)
  {
    forall m: nat | m >= n ensures Attempts(env, start, m) == Attempts(env, start, n) {
      EndedStays(env, start, n, m);
    }
  }

  /** What the program's variables hold of a chain. */
  ghost predicate HoldsChain(c: Chain, p: LLMProvider, disk: Disk, inTok: int, outTok: int, toolCalls: int, lastText: string)
    reads p.Ref(), disk
  {
    && c.history == p.View() && c.files == disk.files && c.inTok == inTok && c.outTok == outTok
    && c.toolCalls == toolCalls && c.lastText == lastText
  }

  /** One attempt of the chain; says whether the chain goes on. */
  method PlayAttempt(p: LLMProvider, disk: Disk, env: ChainEnv, k: nat, ghost c: Chain,
                     inTok0: int, outTok0: int, toolCalls0: int, lastText0: string)
    returns (inTok: int, outTok: int, toolCalls: int, lastText: string, ended: Ended, ghost next: Chain)
    requires Uniform(env) && p.Ref() != disk && p.Kind() == env.loops(k).kind && c.ended.Going?
    requires HoldsChain(c, p, disk, inTok0, outTok0, toolCalls0, lastText0)
    modifies p.Ref(), disk
    ensures next == AfterRun(env, c, k, RunOf(env, c, k))
    ensures HoldsChain(next, p, disk, inTok, outTok, toolCalls, lastText) && next.ended == ended
    ensures ended.Going? ==> k < |env.parks|
  {
    ghost var run;
    var text, i, o, calls, failed;
    text, i, o, calls, failed, run := RunAgentLoop(p, disk, env.loops(k), c.requests, c.turns);
    inTok, outTok, toolCalls := inTok0 + i, outTok0 + o, toolCalls0 + calls;
    lastText := if text != "" then text else lastText0;
    ghost var played := WithRun(c, run, text);
    assert HoldsChain(played, p, disk, inTok, outTok, toolCalls, lastText) && played.ended.Going?;
    ended, next := FinishAttempt(p, env, k, failed, i, o, played, run, text);
  }

  /** What follows an attempt: end the chain, or park and take a verdict's card as the next user turn. */
  method FinishAttempt(p: LLMProvider, env: ChainEnv, k: nat, failed: bool, inTok: int, outTok: int,
                       ghost c: Chain, ghost run: Run, ghost text: string) returns (ended: Ended, ghost next: Chain)
    requires c.ended.Going? && c.history == p.View()
    requires failed == RunFailed(run) && inTok == run.inTok && outTok == run.outTok
    modifies p.Ref()
    ensures next == AfterAttempt(env, c, k, run, text) && next.ended == ended && next.history == p.View()
    ensures next.files == c.files && next.lastText == c.lastText
    ensures next.inTok == c.inTok && next.outTok == c.outTok && next.toolCalls == c.toolCalls
    ensures ended.Going? ==> k < |env.parks|
  {
    next := AfterAttempt(env, c, k, run, text);
    if failed { return LoopFailed, next; }
    if Halts(env.budget, inTok, outTok) { return OverBudget, next; }
    if env.maxAttempts > 0 && env.first + k >= env.maxAttempts { return LastPermitted, next; }
    if env.publishFails(k) { return PublishFailed, next; }
    var waited := WaitForGateVerdict(Park(env, k), env.first + k, env.read);
    if waited.GaveUp? { return NoVerdict, next; }
    if !waited.v.action.Continue? { return VerdictEnds, next; }
    p.AddUserMessage(env.card(waited.v, env.first + k + 1));
    ended := Going;
  }

  /** driveInPlaceGate. The environment's script of parks is finite; past its end the context is cancelled. */
  method DriveInPlaceGate(p: LLMProvider, disk: Disk, env: ChainEnv)
    returns (text: string, inTok: int, outTok: int, toolCalls: int, failed: bool, ghost attempts: nat)
    requires Uniform(env) && p.Ref() != disk && forall k: nat :: env.loops(k).kind == p.Kind()
    modifies p.Ref(), disk
    ensures EndedFor(env, NewChain(old(p.View()), old(disk.files)), attempts)
    ensures var c := Attempts(env, NewChain(old(p.View()), old(disk.files)), attempts);
      && HoldsChain(c, p, disk, inTok, outTok, toolCalls, text)
      && (failed <==> c.ended.LoopFailed? || c.ended.PublishFailed?)
  {
    ghost var start := NewChain(p.View(), disk.files);
    ghost var c := start;
    inTok, outTok, toolCalls, text, attempts := 0, 0, 0, "", 0;
    var ended := Going;
    var k := 0;
    while ended.Going?
      invariant 0 <= k && c == Attempts(env, start, k) && c.ended == ended
      invariant ended.Going? ==> k <= |env.parks|
      invariant HoldsChain(c, p, disk, inTok, outTok, toolCalls, text)
      decreases ended.Going?, |env.parks| - k
    {
      AttemptsStep(env, start, k);
      inTok, outTok, toolCalls, text, ended, c :=
        PlayAttempt(p, disk, env, k, c, inTok, outTok, toolCalls, text);
      k := k + 1;
    }
    attempts := k;
    EndedForGood(env, start, k);
    failed := ended.LoopFailed? || ended.PublishFailed?;
  }
}
