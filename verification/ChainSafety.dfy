/** What every reachable state of a gate chain keeps. */
module ChainSafety {
  import opened ByteText
  import opened Conversation
  import opened Providers
  import opened ToolResultLedger
  import opened AgentLoop
  import opened LoopSafety
  import opened GateChain

  // ----- what one attempt changes

  /** A verdict that let attempt i + 1 start: it was found in attempt i's park, signed, for that attempt, and says continue. */
  ghost predicate Allowed(env: ChainEnv, i: nat, v: Verdict) {
    Wait(Park(env, i), env.first + i, [], env.read) == Got(v) && v.action.Continue?
  }

  /** Going on took a verdict that allows it, under the bound, and added one of everything. */
  lemma GoingOn(env: ChainEnv, c: Chain, k: nat, run: Run, text: string)
    requires c.ended.Going? && AfterAttempt(env, c, k, run, text).ended.Going?
    ensures var next := AfterAttempt(env, c, k, run, text); var w := Wait(Park(env, k), env.first + k, [], env.read);
      && w.Got? && Allowed(env, k, w.v) && (env.maxAttempts > 0 ==> env.first + k < env.maxAttempts)
      && next.runs == c.runs && next.requests == c.requests && next.verdicts == c.verdicts + [w.v]
      && next.history == AfterUser(c.history, env.card(w.v, env.first + k + 1))
      && next.cards == c.cards + [env.card(w.v, env.first + k + 1)]
      && next.turns == c.turns + [Card(env.card(w.v, env.first + k + 1))]
      && |next.markers| == |c.markers| + 1 && next.markers[..|c.markers|] == c.markers
      && next.markers[|c.markers|].attempt == env.first + k
  {
  }

  /** Ending added a marker at most. */
  lemma Ending(env: ChainEnv, c: Chain, k: nat, run: Run, text: string)
    requires c.ended.Going? && !AfterAttempt(env, c, k, run, text).ended.Going?
    ensures var next := AfterAttempt(env, c, k, run, text);
      && next.runs == c.runs && next.requests == c.requests && next.turns == c.turns
      && next.verdicts == c.verdicts && next.cards == c.cards
      && |c.markers| <= |next.markers| <= |c.markers| + 1 && next.markers[..|c.markers|] == c.markers
      && (|next.markers| > |c.markers| ==> next.markers[|c.markers|].attempt == env.first + k)
  {
  }

  // ----- the conversation

  /** Every request so far was the seed and its turns; a chain that goes on still is. */
  ghost predicate ChainShaped(c: Chain, seed: History) {
    && (forall k | 0 <= k < |c.requests| :: Follows(c.requests[k].history, seed, c.requests[k].turns))
    && (c.ended.Going? ==> Follows(c.history, seed, c.turns))
  }

  lemma AfterAttemptFollows(env: ChainEnv, c: Chain, k: nat, run: Run, text: string, seed: History)
    requires c.ended.Going?
    requires !Halts(env.budget, run.inTok, run.outTok) && !RunFailed(run) ==> Follows(c.history, seed, c.turns)
    ensures AfterAttempt(env, c, k, run, text).requests == c.requests
    ensures AfterAttempt(env, c, k, run, text).ended.Going? ==>
      Follows(AfterAttempt(env, c, k, run, text).history, seed, AfterAttempt(env, c, k, run, text).turns)
  {
    var next := AfterAttempt(env, c, k, run, text);
    if next.ended.Going? {
      GoingOn(env, c, k, run, text);
      var v := Wait(Park(env, k), env.first + k, [], env.read).v;
      CardFollows(c.history, seed, c.turns, env.card(v, env.first + k + 1));
    } else {
      Ending(env, c, k, run, text);
    }
  }

  lemma CardFollows(h: History, seed: History, ts: seq<Turn>, card: string)
    requires Follows(h, seed, ts)
    ensures Follows(AfterUser(h, card), seed, ts + [Card(card)])
  {
    var added := if card == "" then [] else [User(card)];
    assert Skeleton(added) == Layout(Card(card));
    FollowsNext(h, seed, ts, added, Card(card));
    assert AfterUser(h, card) == h + added;
  }

  lemma NextChainShaped(env: ChainEnv, start: Chain, n: nat, seed: History)
    requires Uniform(env) && ChainShaped(Attempts(env, start, n), seed)
    ensures ChainShaped(Attempts(env, start, n + 1), seed)
  {
    AttemptsStep(env, start, n);
    var c := Attempts(env, start, n);
    if c.ended.Going? {
      var run := RunOf(env, c, n);
      AttemptShaped(env, c, n, seed, run);
      var text := ReturnedText(env, n, run);
      AfterAttemptFollows(env, WithRun(c, run, text), n, run, text, seed);
    }
  }

  lemma AttemptShaped(env: ChainEnv, c: Chain, k: nat, seed: History, run: Run)
    requires Uniform(env) && c.ended.Going? && ChainShaped(c, seed) && run == RunOf(env, c, k)
    ensures WellShaped(run, seed) && StoppedByBudget(env.loops(k), run)
    ensures !Halts(env.budget, run.inTok, run.outTok) ==> Follows(run.history, seed, run.turns)
  {
    var begin := Start(c.history, c.files, c.requests, c.turns);
    RunKeepsShape(env.loops(k), begin, env.loops(k).maxRounds, seed);
    HaltedExactlyOnBudget(env.loops(k), begin, env.loops(k).maxRounds);
  }

  lemma ShapeFrom(env: ChainEnv, start: Chain, n: nat, seed: History)
    requires Uniform(env) && ChainShaped(start, seed)
    ensures ChainShaped(Attempts(env, start, n), seed)
  {
    assert Attempts(env, start, 0) == start;
    for i := 0 to n
      invariant ChainShaped(Attempts(env, start, i), seed)
    {
      NextChainShaped(env, start, i, seed);
    }
  }

  /** Over a whole chain, whatever the replies, outputs, failed writes and verdicts, every request's
      history is exactly the seed followed by call rounds, each call answered in order, and retry cards. */
  lemma ChainKeepsShape(env: ChainEnv, seed: History, files: map<string, bytes>, n: nat)
    requires Uniform(env)
    ensures ChainShaped(Attempts(env, NewChain(seed, files), n), seed)
  {
    assert Skeleton(seed) + Layouts([]) == Skeleton(seed);
    ShapeFrom(env, NewChain(seed, files), n, seed);
  }

  // ----- the turns: one card between attempts, rounds otherwise

  function CardsIn(ts: seq<Turn>): seq<string> {
    if ts == [] then []
    else CardsIn(ts[..|ts| - 1]) + if ts[|ts| - 1].Card? then [ts[|ts| - 1].text] else []
  }

  /** Every round of calls has a call. */
  predicate RoundsNonEmpty(ts: seq<Turn>) {
    forall i | 0 <= i < |ts| && ts[i].Round? :: ts[i].calls != []
  }

  predicate TurnsOk(ts: seq<Turn>, cards: seq<string>) {
    CardsIn(ts) == cards && RoundsNonEmpty(ts)
  }

  lemma TurnAdded(ts: seq<Turn>, t: Turn)
    ensures CardsIn(ts + [t]) == CardsIn(ts) + if t.Card? then [t.text] else []
  {
    assert (ts + [t])[..|ts|] == ts;
  }

  /** A request made when these turns had happened, among those that have by now. */
  predicate RequestOk(r: Request, turns: seq<Turn>, cards: seq<string>) {
    r.turns <= turns && TurnsOk(r.turns, cards)
  }

  /** A run that started after these requests adds rounds only, and its requests have the cards it started with. */
  ghost predicate RunOk(run: Run, before: seq<Request>, cards: seq<string>) {
    && before <= run.requests && TurnsOk(run.turns, cards)
    && forall k | |before| <= k < |run.requests| :: RequestOk(run.requests[k], run.turns, cards)
  }

  lemma ChatOk(env: Env, run: Run, n: nat, before: seq<Request>, cards: seq<string>)
    requires RunOk(run, before, cards)
    ensures RunOk(Chatted(env, run, n), before, cards) && Chatted(env, run, n).turns == run.turns
  {
    var next := Chatted(env, run, n);
    assert next.requests == run.requests + [Request(run.history, run.turns)];
    forall k | |before| <= k < |next.requests| ensures RequestOk(next.requests[k], next.turns, cards) {
      if k < |run.requests| { assert next.requests[k] == run.requests[k]; }
    }
  }

  lemma RoundTurnOk(run: Run, next: Run, before: seq<Request>, cards: seq<string>, calls: seq<Call>)
    requires RunOk(run, before, cards) && calls != []
    requires next.requests == run.requests && next.turns == run.turns + [Round(calls)]
    ensures RunOk(next, before, cards)
  {
    TurnAdded(run.turns, Round(calls));
    forall k | |before| <= k < |next.requests| ensures RequestOk(next.requests[k], next.turns, cards) {
      assert RequestOk(run.requests[k], run.turns, cards);
    }
  }

  lemma NextRunOk(env: Env, start: Run, n: nat, before: seq<Request>, cards: seq<string>)
    requires env.policy.keepRecent >= 0 && RunOk(Rounds(env, start, n), before, cards)
    ensures RunOk(Rounds(env, start, n + 1), before, cards)
  {
    RoundsStep(env, start, n);
    var run := Rounds(env, start, n);
    if run.stop.Running? {
      ChatOk(env, run, n, before, cards);
      var chatted := Chatted(env, run, n);
      if chatted.stop.Running? && ReplyAt(env, n).ChatDone? {
        RoundTurnOk(chatted, Rounds(env, start, n + 1), before, cards, ReplyAt(env, n).calls);
      }
    }
  }

  lemma RunStaysOk(env: Env, start: Run, n: nat, before: seq<Request>, cards: seq<string>)
    requires env.policy.keepRecent >= 0 && RunOk(start, before, cards)
    ensures RunOk(Rounds(env, start, n), before, cards)
  {
    assert Rounds(env, start, 0) == start;
    for i := 0 to n
      invariant RunOk(Rounds(env, start, i), before, cards)
    {
      NextRunOk(env, start, i, before, cards);
    }
  }

  /** The requests made before attempt i. */
  function RequestsBefore(c: Chain, i: nat): nat
    requires i <= |c.runs|
  {
    if i == 0 then 0 else |c.runs[i - 1].requests|
  }

  /** The requests of a chain are those of its attempts, one attempt after the other. Those of attempt
      i have seen exactly the first i cards, with non-empty rounds, and the chain has gone on from there. */
  ghost predicate RequestsOk(c: Chain) {
    && RequestsBefore(c, |c.runs|) == |c.requests| && |c.runs| <= |c.cards| + 1
    && (forall i | 0 <= i < |c.runs| :: RequestsBefore(c, i) <= |c.runs[i].requests| <= |c.requests|)
    && forall i, k | 0 <= i < |c.runs| && RequestsBefore(c, i) <= k < |c.runs[i].requests| ::
         RequestOk(c.requests[k], c.turns, c.cards[..i])
  }

  /** Requests made before stay fine. */
  lemma OldRequestOk(r: Request, turns: seq<Turn>, more: seq<Turn>, cards: seq<string>, all: seq<string>, i: nat)
    requires i <= |cards| && RequestOk(r, turns, cards[..i]) && turns <= more && cards <= all
    ensures RequestOk(r, more, all[..i])
  {
    assert cards[..i] == all[..i];
  }

  /** One more attempt, whose run was fine, and at most a card. */
  lemma AttemptRequestsOk(c: Chain, next: Chain, run: Run)
    requires RequestsOk(c) && |c.cards| == |c.runs| && RunOk(run, c.requests, c.cards) && c.turns <= run.turns
    requires next.runs == c.runs + [run] && next.requests == run.requests
    requires run.turns <= next.turns && c.cards <= next.cards
    ensures RequestsOk(next)
  {
    forall i | 0 <= i < |next.runs| ensures RequestsBefore(next, i) <= |next.runs[i].requests| <= |next.requests| {
      assert i < |c.runs| ==> RequestsBefore(next, i) == RequestsBefore(c, i) && next.runs[i] == c.runs[i];
    }
    forall i, k | 0 <= i < |next.runs| && RequestsBefore(next, i) <= k < |next.runs[i].requests|
      ensures RequestOk(next.requests[k], next.turns, next.cards[..i])
    {
      if i < |c.runs| {
        assert RequestsBefore(next, i) == RequestsBefore(c, i) && next.runs[i] == c.runs[i];
        OldRequestOk(c.requests[k], c.turns, next.turns, c.cards, next.cards, i);
      } else {
        assert c.cards[..i] == c.cards;
        OldRequestOk(run.requests[k], run.turns, next.turns, c.cards, next.cards, i);
      }
    }
  }

  // ----- attempts, markers, verdicts and totals

  datatype Tally = Tally(inTok: int, outTok: int, toolCalls: int)

  function Sum(rs: seq<Run>): Tally {
    if rs == [] then Tally(0, 0, 0)
    else
      var before, last := Sum(rs[..|rs| - 1]), rs[|rs| - 1];
      Tally(before.inTok + last.inTok, before.outTok + last.outTok, before.toolCalls + last.toolCalls)
  }

  /** The totals are the sums over the attempts. */
  predicate Totalled(c: Chain) {
    Tally(c.inTok, c.outTok, c.toolCalls) == Sum(c.runs)
  }

  predicate Numbered(ms: seq<Marker>, first: int) {
    forall i | 0 <= i < |ms| :: ms[i].attempt == first + i
  }

  ghost predicate AllAllowed(env: ChainEnv, vs: seq<Verdict>, cards: seq<string>) {
    && |vs| == |cards| && (env.maxAttempts > 0 && vs != [] ==> env.first + |vs| - 1 < env.maxAttempts)
    && forall i | 0 <= i < |vs| :: Allowed(env, i, vs[i]) && cards[i] == env.card(vs[i], env.first + i + 1)
  }

  /** A chain that goes on has, for each attempt made, a marker with its number, a verdict that
      continues it and a card; an ended chain lacks at most the last of each. */
  ghost predicate Paced(env: ChainEnv, c: Chain) {
    && |c.verdicts| == (if c.ended.Going? then |c.runs| else |c.runs| - 1)
    && |c.verdicts| <= |c.markers| <= |c.runs|
    && AllAllowed(env, c.verdicts, c.cards)
    && Numbered(c.markers, env.first)
    && TurnsOk(c.turns, c.cards)
  }

  lemma NumberedNext(ms: seq<Marker>, ns: seq<Marker>, first: int)
    requires Numbered(ms, first) && |ms| <= |ns| <= |ms| + 1 && ns[..|ms|] == ms
    requires |ns| > |ms| ==> ns[|ms|].attempt == first + |ms|
    ensures Numbered(ns, first)
  {
    forall i | 0 <= i < |ms| ensures ns[i].attempt == first + i { assert ns[i] == ns[..|ms|][i]; }
  }

  lemma PacedNext(env: ChainEnv, c: Chain, k: nat, run: Run, text: string)
    requires Paced(env, c) && c.ended.Going? && |c.runs| == k
    requires TurnsOk(run.turns, c.cards)
    ensures var next := AfterAttempt(env, WithRun(c, run, text), k, run, text);
      Paced(env, next) && |next.runs| == k + 1
  {
    var played := WithRun(c, run, text);
    var next := AfterAttempt(env, played, k, run, text);
    if next.ended.Going? {
      GoingOn(env, played, k, run, text);
      NumberedNext(c.markers, next.markers, env.first);
      TurnAdded(run.turns, next.turns[|run.turns|]);
    } else {
      Ending(env, played, k, run, text);
      NumberedNext(c.markers, next.markers, env.first);
    }
  }

  lemma RequestsNext(env: ChainEnv, c: Chain, k: nat, run: Run, text: string)
    requires RequestsOk(c) && c.ended.Going? && |c.cards| == |c.runs|
    requires RunOk(run, c.requests, c.cards) && c.turns <= run.turns
    ensures RequestsOk(AfterAttempt(env, WithRun(c, run, text), k, run, text))
  {
    var played := WithRun(c, run, text);
    var next := AfterAttempt(env, played, k, run, text);
    if next.ended.Going? { GoingOn(env, played, k, run, text); } else { Ending(env, played, k, run, text); }
    AttemptRequestsOk(c, next, run);
  }

  lemma TotalledNext(env: ChainEnv, c: Chain, k: nat, run: Run, text: string)
    requires Totalled(c)
    ensures var next := AfterAttempt(env, WithRun(c, run, text), k, run, text);
      Totalled(next) && next.runs == c.runs + [run]
  {
    assert (c.runs + [run])[..|c.runs|] == c.runs;
  }

  /** After n attempts, or fewer once ended. */
  ghost predicate Sound(env: ChainEnv, c: Chain, n: nat) {
    Paced(env, c) && Totalled(c) && RequestsOk(c) && (c.ended.Going? ==> |c.runs| == n)
  }

  lemma RunOfIsOk(env: ChainEnv, c: Chain, n: nat, run: Run)
    requires Uniform(env) && TurnsOk(c.turns, c.cards) && run == RunOf(env, c, n)
    ensures RunOk(run, c.requests, c.cards) && c.turns <= run.turns
  {
    var start := Start(c.history, c.files, c.requests, c.turns);
    RunStaysOk(env.loops(n), start, env.loops(n).maxRounds, c.requests, c.cards);
    RunExtendsTurns(env.loops(n), start, env.loops(n).maxRounds);
  }

  lemma NextExtendsTurns(env: Env, start: Run, n: nat)
    requires env.policy.keepRecent >= 0
    ensures Rounds(env, start, n).turns <= Rounds(env, start, n + 1).turns
  {
    RoundsStep(env, start, n);
    var run := Rounds(env, start, n);
    if run.stop.Running? { RoundExtendsTurns(env, run, n, Chatted(env, run, n), Rounds(env, start, n + 1)); }
  }

  lemma RoundExtendsTurns(env: Env, run: Run, n: nat, chatted: Run, next: Run)
    requires env.policy.keepRecent >= 0 && chatted == Chatted(env, run, n) && next == RunRound(env, run, n)
    ensures run.turns <= next.turns
  {
    assert chatted.turns == run.turns;
  }

  lemma RunExtendsTurns(env: Env, start: Run, n: nat)
    requires env.policy.keepRecent >= 0
    ensures start.turns <= Rounds(env, start, n).turns
  {
    assert Rounds(env, start, 0) == start;
    for i := 0 to n
      invariant start.turns <= Rounds(env, start, i).turns
    {
      NextExtendsTurns(env, start, i);
    }
  }

  lemma NextSound(env: ChainEnv, start: Chain, n: nat)
    requires Uniform(env) && Sound(env, Attempts(env, start, n), n)
    ensures Sound(env, Attempts(env, start, n + 1), n + 1)
  {
    AttemptsStep(env, start, n);
    var c := Attempts(env, start, n);
    if c.ended.Going? {
      var run := RunOf(env, c, n);
      RunOfIsOk(env, c, n, run);
      PacedNext(env, c, n, run, ReturnedText(env, n, run));
      TotalledNext(env, c, n, run, ReturnedText(env, n, run));
      RequestsNext(env, c, n, run, ReturnedText(env, n, run));
    }
  }

  /** Every reachable chain state is paced by verified verdicts and totals its attempts. */
  lemma ChainIsSound(env: ChainEnv, seed: History, files: map<string, bytes>, n: nat)
    requires Uniform(env)
    ensures Sound(env, Attempts(env, NewChain(seed, files), n), n)
  {
    var start := NewChain(seed, files);
    assert Attempts(env, start, 0) == start;
    for i := 0 to n
      invariant Sound(env, Attempts(env, start, i), i)
    {
      NextSound(env, start, i);
    }
  }

  /** In any chain state, every request of attempt i is the seed followed by non-empty, answered rounds
      and exactly the first i retry cards, and the chain's turns go on from there. */
  lemma RequestsOfAttempts(env: ChainEnv, seed: History, files: map<string, bytes>, n: nat, i: nat, k: nat)
    requires Uniform(env) && i < |Attempts(env, NewChain(seed, files), n).runs|
    requires var c := Attempts(env, NewChain(seed, files), n); RequestsBefore(c, i) <= k < |c.runs[i].requests|
    ensures var c := Attempts(env, NewChain(seed, files), n);
      && k < |c.requests| && i <= |c.cards|
      && Follows(c.requests[k].history, seed, c.requests[k].turns)
      && c.requests[k].turns <= c.turns && CardsIn(c.requests[k].turns) == c.cards[..i]
      && RoundsNonEmpty(c.requests[k].turns)
  {
    ChainKeepsShape(env, seed, files, n);
    ChainIsSound(env, seed, files, n);
    var c := Attempts(env, NewChain(seed, files), n);
    assert RequestOk(c.requests[k], c.turns, c.cards[..i]);
  }

  /** With a positive bound, a chain makes at most max(1, bound - first + 1) attempts. */
  lemma AttemptsBounded(env: ChainEnv, seed: History, files: map<string, bytes>, n: nat)
    requires Uniform(env) && env.maxAttempts > 0
    ensures var made := |Attempts(env, NewChain(seed, files), n).runs|;
      made <= 1 || made <= env.maxAttempts - env.first + 1
  {
    ChainIsSound(env, seed, files, n);
    var c := Attempts(env, NewChain(seed, files), n);
  }

  // ----- the role of a retry card

  /** The next message is the model's: the history is empty or ends with input to it. */
  predicate EndsWithInput(h: History) {
    h == [] || !h[|h| - 1].Assistant?
  }

  /** A turn the Anthropic format sends as the user's: a user message or a tool result. */
  predicate AsUser(m: Msg) {
    m.User? || m.Result?
  }

  predicate EndsAsUser(h: History) {
    h != [] && AsUser(h[|h| - 1])
  }

  lemma {:induction false} LayoutsEndAsUser(ts: seq<Turn>)
    requires RoundsNonEmpty(ts)
    ensures Layouts(ts) == [] || EndsAsUser(Layouts(ts))
  {
    if ts != [] { LayoutsEndAsUser(ts[..|ts| - 1]); }
  }

  lemma SkeletonEndsAlike(h: History)
    ensures EndsWithInput(h) <==> EndsWithInput(Skeleton(h))
    ensures EndsAsUser(h) <==> EndsAsUser(Skeleton(h))
  {
    if h != [] { assert Skeleton(h)[|h| - 1] == BlankMsg(h[|h| - 1]); }
  }

  /** A turn left a message: calls were made and answered, or a card had text. */
  predicate Spoke(ts: seq<Turn>) {
    exists i | 0 <= i < |ts| :: ts[i].Round? || ts[i].text != ""
  }

  lemma {:induction false} SpokeExactly(ts: seq<Turn>)
    ensures Spoke(ts) <==> Layouts(ts) != []
  {
    if ts != [] {
      var before, last := ts[..|ts| - 1], ts[|ts| - 1];
      SpokeExactly(before);
      if i :| 0 <= i < |ts| && (ts[i].Round? || ts[i].text != "") {
        assert i < |before| ==> before[i] == ts[i];
      }
      if i :| 0 <= i < |before| && (before[i].Round? || before[i].text != "") {
        assert ts[i] == before[i];
      }
    }
  }

  /** What a conversation ends with, told from its seed and its turns. */
  lemma FollowsEnds(h: History, seed: History, ts: seq<Turn>)
    requires Follows(h, seed, ts) && RoundsNonEmpty(ts)
    ensures EndsWithInput(h) <==> EndsWithInput(seed) || Spoke(ts)
    ensures EndsAsUser(h) <==> EndsAsUser(seed) || Spoke(ts)
  {
    SpokeExactly(ts);
    LayoutsEndAsUser(ts);
    SkeletonEndsAlike(h);
    SkeletonEndsAlike(seed);
  }

  /** The chain went on with a card from a run that left `before`: that ends with input to the model,
      and with a user turn, exactly when the seed does or a turn left a message; and the card is all
      that was added. */
  ghost predicate CardJoined(before: History, ts: seq<Turn>, next: Chain, seed: History, n: nat) {
    && (EndsWithInput(before) <==> EndsWithInput(seed) || Spoke(ts))
    && (EndsAsUser(before) <==> EndsAsUser(seed) || Spoke(ts))
    && |next.cards| == n + 1 && next.history == AfterUser(before, next.cards[n])
  }

  /** A chain goes on from a history without the answer the gate judged: it ends with input to the
      model unless it is still a seed that does not. The next attempt starts from it and the retry
      card. A comment in the Anthropic provider takes an assistant turn to be there before the card;
      with a seed that ends in input it never is. */
  lemma CardFollowsInput(env: ChainEnv, seed: History, files: map<string, bytes>, n: nat)
    requires Uniform(env)
    ensures var c, next := Attempts(env, NewChain(seed, files), n), Attempts(env, NewChain(seed, files), n + 1);
      next.ended.Going? ==> c.ended.Going? && CardJoined(RunOf(env, c, n).history, RunOf(env, c, n).turns, next, seed, n)
  {
    var start := NewChain(seed, files);
    var c, next := Attempts(env, start, n), Attempts(env, start, n + 1);
    if next.ended.Going? {
      WasGoing(env, start, n);
      ChainKeepsShape(env, seed, files, n);
      ChainIsSound(env, seed, files, n);
      ChainIsSound(env, seed, files, n + 1);
      var run := RunOf(env, c, n);
      AttemptsStep(env, start, n);
      AttemptShaped(env, c, n, seed, run);
      RunOfIsOk(env, c, n, run);
      GoingOn(env, WithRun(c, run, ReturnedText(env, n, run)), n, run, ReturnedText(env, n, run));
      FollowsEnds(run.history, seed, run.turns);
    }
  }

  lemma WasGoing(env: ChainEnv, start: Chain, n: nat)
    requires Uniform(env) && Attempts(env, start, n + 1).ended.Going?
    ensures Attempts(env, start, n).ended.Going?
  {
    AttemptsStep(env, start, n);
  }

  /** A conversation that ends with this card right after a user turn or a result. */
  predicate TwoUserTurns(h: History, card: string) {
    card != "" && |h| >= 2 && AsUser(h[|h| - 2]) && h[|h| - 1] == User(card)
  }

  lemma JoinedTwice(before: History, ts: seq<Turn>, next: Chain, seed: History, n: nat)
    requires CardJoined(before, ts, next, seed, n)
    ensures TwoUserTurns(next.history, next.cards[n]) <==> next.cards[n] != "" && (EndsAsUser(seed) || Spoke(ts))
  {
  }

  /** So a retry card makes two user turns in a row exactly when it has text, and the seed ends with a
      user turn or some turn since has left a message. */
  lemma CardMakesTwoUserTurns(env: ChainEnv, seed: History, files: map<string, bytes>, n: nat)
    requires Uniform(env) && Attempts(env, NewChain(seed, files), n + 1).ended.Going?
    ensures var c, next := Attempts(env, NewChain(seed, files), n), Attempts(env, NewChain(seed, files), n + 1);
      && |next.cards| == n + 1
      && (TwoUserTurns(next.history, next.cards[n])
          <==> next.cards[n] != "" && (EndsAsUser(seed) || Spoke(RunOf(env, c, n).turns)))
  {
    var c, next := Attempts(env, NewChain(seed, files), n), Attempts(env, NewChain(seed, files), n + 1);
    CardFollowsInput(env, seed, files, n);
    JoinedTwice(RunOf(env, c, n).history, RunOf(env, c, n).turns, next, seed, n);
  }

  // ----- an Anthropic chain that goes on

  /** Every attempt answers at once; the first park finds this file. */
  function AnswersAtOnce(answer: string, read: Reader, file: bytes, card: string): ChainEnv {
    ChainEnv(k => AnswerEnv(answer), TokenBudget(0, "halt"), 1, 0,
             [[Tick(Some(file), false, false)]], read, k => false, (v, i) => card)
  }

  function AnswerEnv(answer: string): Env {
    Env(AnthropicKind, Policy(0, 0, 0, 0), Nowhere, TokenBudget(0, "halt"), 1, MESSAGES,
        n => Blocks([TextBlock(answer)], false, 0, 0), (n, k) => [], n => i => Wrote)
  }

  lemma AnswerRun(answer: string, h: History, files: map<string, bytes>, run: Run)
    requires run == Loop(AnswerEnv(answer), Start(h, files, [], []))
    ensures run.stop.Finished? && run.history == h && run.inTok == 0 && run.outTok == 0
  {
    var env, start := AnswerEnv(answer), Start(h, files, [], []);
    RoundsStep(env, start, 0);
    assert Rounds(env, start, 0) == start;
  }

  /** On the Anthropic provider, one message, an answer to it and a continue verdict leave two user turns
      in a row: the message and the card, with the answer nowhere in between. */
  lemma AnthropicMessageThenCard(message: string, answer: string, read: Reader, file: bytes, feedback: string, card: string)
    requires message != "" && card != "" && file != [] && read(file) == Some(Verdict(1, Continue, feedback))
    ensures Uniform(AnswersAtOnce(answer, read, file, card))
    ensures var next := Attempts(AnswersAtOnce(answer, read, file, card), NewChain([User(message)], map[]), 1);
      next.ended.Going? && next.history == [User(message), User(card)]
  {
    var env, start := AnswersAtOnce(answer, read, file, card), NewChain([User(message)], map[]);
    forall k: nat ensures env.loops(k).policy.keepRecent >= 0 && env.loops(k).budget == env.budget {
      assert env.loops(k) == AnswerEnv(answer);
    }
    AttemptsStep(env, start, 0);
    assert Attempts(env, start, 0) == start;
    AnswerRun(answer, [User(message)], map[], RunOf(env, start, 0));
    assert Wait(Park(env, 0), 1, [], read) == Got(Verdict(1, Continue, feedback));
  }
}
