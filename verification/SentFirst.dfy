/** Which results can be lost before any request has carried them: none when call IDs repeat at most
    within a round, and otherwise exactly those that share the ID of an older entry a pass takes. */
module SentFirst {
  import opened ByteText
  import opened Conversation
  import opened Providers
  import opened ToolResultLedger
  import opened GreedyPass
  import opened AgentLoop
  import opened LoopSafety

  // ----- places of results, whatever the call IDs

  /** Some request carried the j-th result verbatim. */
  ghost predicate SentVerbatim(run: Run, base: nat, j: nat)
    requires j < |run.entries| == |run.inserted|
  {
    exists k | 0 <= k < |run.requests| ::
      j < |Own(run.requests[k].history, base)| && Own(run.requests[k].history, base)[j] == Verbatim(run, j)
  }

  /** The j-th result as it was inserted. */
  function Verbatim(run: Run, j: nat): Msg
    requires j < |run.entries| == |run.inserted|
  {
    Result(run.entries[j].callID, run.inserted[j])
  }

  predicate RoundsInOrder(es: seq<Entry>, n: nat) {
    && (forall i, j | 0 <= i < j < |es| :: es[i].round <= es[j].round)
    && (forall j | 0 <= j < |es| :: es[j].round <= n)
  }

  /** One result for each entry, in order. */
  predicate InPlace(own: History, es: seq<Entry>) {
    |own| == |es| && forall j | 0 <= j < |es| :: own[j].Result? && own[j].callID == es[j].callID
  }

  /** The history has one result for each entry, in order; rounds are in order and at most n. */
  ghost predicate Placed(run: Run, base: nat, n: nat) {
    && base <= |Results(run.history)| && InPlace(Own(run.history, base), run.entries)
    && |run.inserted| == |run.entries| && RoundsInOrder(run.entries, n)
  }

  /** No request has more of this loop's results than there are entries. */
  ghost predicate Short(run: Run, base: nat) {
    forall k | 0 <= k < |run.requests| :: |Own(run.requests[k].history, base)| <= |run.entries|
  }

  lemma ChatPlaced(env: Env, run: Run, n: nat, base: nat)
    requires Placed(run, base, n)
    ensures Results(Chatted(env, run, n).history) == Results(run.history) && Placed(Chatted(env, run, n), base, n)
  {
    var h := AfterChat(run.history, ReplyAt(env, n));
    if h != run.history {
      var last := [Assistant(ReplyAt(env, n).calls)];
      ResultsAppend(run.history, last);
      assert Results(last) == Results(last[..0]);
    }
  }

  lemma ResultsPlaced(env: Env, run: Run, n: nat, base: nat, calls: seq<Call>)
    requires Placed(run, base, n)
    ensures var next := AfterResults(env, run, n, calls);
      && Placed(next, base, n + 1)
      && Own(next.history, base) == Own(run.history, base) + ResultMsgs(RoundResults(env, n, calls))
  {
    var rs, es := ResultMsgs(RoundResults(env, n, calls)), RoundEntries(env, n, calls);
    OwnAppend(run.history, rs, base);
    forall k | 0 <= k < |calls| ensures rs[k].Result? && rs[k].callID == es[k].callID && es[k].round == n + 1 {
      RoundEntryPlaced(env, n, calls, k);
    }
    AppendInPlace(Own(run.history, base), run.entries, rs, es);
    AppendInOrder(run.entries, es, n);
  }

  lemma RoundEntryPlaced(env: Env, n: nat, calls: seq<Call>, k: nat)
    requires k < |calls|
    ensures ResultMsgs(RoundResults(env, n, calls))[k] == Result(calls[k].id, Inserted(env, n, calls[k], k))
    ensures var e := RoundEntries(env, n, calls)[k]; e.callID == calls[k].id && e.round == n + 1 && !e.elided
    ensures RoundContents(env, n, calls)[k] == Inserted(env, n, calls[k], k)
  {
  }

  lemma AppendInPlace(own: History, es: seq<Entry>, rs: History, fs: seq<Entry>)
    requires InPlace(own, es) && InPlace(rs, fs)
    ensures InPlace(own + rs, es + fs)
  {
  }

  lemma AppendInOrder(es: seq<Entry>, fs: seq<Entry>, n: nat)
    requires RoundsInOrder(es, n) && forall k | 0 <= k < |fs| :: fs[k].round == n + 1
    ensures RoundsInOrder(es + fs, n + 1)
  {
  }

  lemma ReplacedInPlace(own: History, es: seq<Entry>, fs: seq<Entry>, repl: map<string, bytes>)
    requires InPlace(own, es) && |fs| == |es| && forall j | 0 <= j < |es| :: fs[j].callID == es[j].callID
    ensures InPlace(Replaced(own, repl), fs)
  {
  }

  lemma AfterElisionHistory(env: Env, run: Run, n: nat)
    requires env.policy.keepRecent >= 0
    ensures AfterElision(env, run, n).history == Replaced(run.history, ElisionPass(env, run, n).repl)
  {
    assert Replaced(run.history, map[]) == run.history;
  }

  lemma ElisionPlaced(env: Env, run: Run, n: nat, base: nat, m: nat)
    requires env.policy.keepRecent >= 0 && Placed(run, base, m)
    ensures var next := AfterElision(env, run, n);
      && Placed(next, base, m)
      && Own(next.history, base) == Replaced(Own(run.history, base), ElisionPass(env, run, n).repl)
      && forall j | 0 <= j < |run.entries| ::
           next.entries[j].callID == run.entries[j].callID && next.entries[j].round == run.entries[j].round
  {
    var q := ElisionPass(env, run, n);
    PassKeepsIds(run.entries, run.live, run.files, env.policy, env.spill, env.writes(n));
    AfterElisionHistory(env, run, n);
    OwnReplaced(run.history, q.repl, base);
    ReplacedInPlace(Own(run.history, base), run.entries, q.entries, q.repl);
  }

  // ----- a round's own results, told from the ledger before its pass

  /** The plan of round n's pass. */
  function RoundPlan(env: Env, run: Run, n: nat): (pl: Plan)
    requires env.policy.keepRecent >= 0
    ensures Valid(pl)
  {
    PlanFor(run.entries, run.live, env.policy, env.spill, env.writes(n))
  }

  /** What an elision pass leaves of each result: the placeholder of the newest entry it takes that
      has the result's ID, or else the result. */
  lemma ResultAfterPass(env: Env, run: Run, n: nat, base: nat, m: nat, j: nat)
    requires env.policy.keepRecent >= 0 && Placed(run, base, m) && j < |run.entries|
    ensures var pl, next := RoundPlan(env, run, n), AfterElision(env, run, n);
      && j < |Own(next.history, base)|
      && Own(next.history, base)[j]
         == match ReplacementAt(pl, run.entries[j].callID, pl.limit)
            case None => Own(run.history, base)[j]
            case Some(stub) => Result(run.entries[j].callID, stub)
  {
    ElisionPlaced(env, run, n, base, m);
    PassTakesExactly(run.entries, run.live, run.files, env.policy, env.spill, env.writes(n));
    var repl := ElisionPass(env, run, n).repl;
    assert Find(repl, run.entries[j].callID)
      == ReplacementAt(RoundPlan(env, run, n), run.entries[j].callID, RoundPlan(env, run, n).limit);
  }

  /** A pass takes entries of older rounds only. */
  lemma TakenIsOlder(es: seq<Entry>, live: int, cp: Policy, spill: Spill, writes: nat -> Write, n: nat, i: nat)
    requires cp.keepRecent >= 0 && RoundsInOrder(es, n) && Takes(PlanFor(es, live, cp, spill, writes), i)
    ensures es[i].round < es[|es| - 1].round
  {
    NewestRoundProtected(es, cp.keepRecent, i);
  }

  // ----- call IDs that repeat at most within a round

  predicate RoundsApart(es: seq<Entry>) {
    forall i, j | 0 <= i < |es| && 0 <= j < |es| && es[i].callID == es[j].callID :: es[i].round == es[j].round
  }

  /** Older results were sent; the newest round's are in the history as they were inserted. */
  ghost predicate SeenFirst(run: Run, base: nat, n: nat) {
    && Placed(run, base, n)
    && forall j | 0 <= j < |run.entries| ::
         if run.entries[j].round < n then SentVerbatim(run, base, j)
         else !run.entries[j].elided && Own(run.history, base)[j] == Verbatim(run, j)
  }

  /** Being sent is for good. */
  lemma SentStays(run: Run, next: Run, base: nat, j: nat)
    requires j < |run.entries| == |run.inserted| && j < |next.entries| == |next.inserted|
    requires SentVerbatim(run, base, j) && run.requests <= next.requests && Verbatim(next, j) == Verbatim(run, j)
    ensures SentVerbatim(next, base, j)
  {
    var k :| 0 <= k < |run.requests|
      && j < |Own(run.requests[k].history, base)| && Own(run.requests[k].history, base)[j] == Verbatim(run, j);
    assert next.requests[k] == run.requests[k];
  }

  /** A request carries what the history holds. */
  lemma SentNow(run: Run, next: Run, base: nat, j: nat)
    requires j < |run.entries| == |run.inserted| && next.entries == run.entries && next.inserted == run.inserted
    requires next.requests == run.requests + [Request(run.history, run.turns)]
    requires j < |Own(run.history, base)| && Own(run.history, base)[j] == Verbatim(run, j)
    ensures SentVerbatim(next, base, j)
  {
    var k := |run.requests|;
    assert next.requests[k].history == run.history;
    assert Own(next.requests[k].history, base)[j] == Verbatim(next, j);
  }

  lemma ChatAdds(env: Env, run: Run, n: nat, next: Run)
    requires next == Chatted(env, run, n)
    ensures next.requests == run.requests + [Request(run.history, run.turns)]
    ensures next.entries == run.entries && next.inserted == run.inserted
  {
  }

  lemma ChatSendsAll(env: Env, run: Run, n: nat, base: nat)
    requires SeenFirst(run, base, n)
    ensures SeenFirst(Chatted(env, run, n), base, n + 1)
    ensures var next := Chatted(env, run, n); forall j | 0 <= j < |next.entries| :: next.entries[j].round <= n
  {
    var next := Chatted(env, run, n);
    ChatPlaced(env, run, n, base);
    ChatAdds(env, run, n, next);
    RequestSendsAll(run, n, base, next);
  }

  lemma RequestSendsAll(run: Run, n: nat, base: nat, next: Run)
    requires SeenFirst(run, base, n) && Placed(next, base, n)
    requires next.requests == run.requests + [Request(run.history, run.turns)]
    requires next.entries == run.entries && next.inserted == run.inserted
    ensures SeenFirst(next, base, n + 1) && forall j | 0 <= j < |next.entries| :: next.entries[j].round <= n
  {
    forall j | 0 <= j < |run.entries| ensures SentVerbatim(next, base, j) {
      if run.entries[j].round < n { SentStays(run, next, base, j); } else { SentNow(run, next, base, j); }
    }
  }

  lemma AfterFirst<T>(s: seq<T>, t: seq<T>, k: nat)
    requires k < |t|
    ensures (s + t)[|s| + k] == t[k]
  {
  }

  /** The k-th result of a round just run. */
  lemma NewVerbatim(env: Env, run: Run, n: nat, base: nat, calls: seq<Call>, k: nat)
    requires Placed(run, base, n) && k < |calls|
    ensures var next, j := AfterResults(env, run, n, calls), |run.entries| + k;
      && j < |next.entries| == |next.inserted| && next.entries[j].round == n + 1 && !next.entries[j].elided
      && next.entries[j].callID == calls[k].id && next.inserted[j] == Inserted(env, n, calls[k], k)
      && j < |Own(next.history, base)| && Own(next.history, base)[j] == Verbatim(next, j)
  {
    ResultsPlaced(env, run, n, base, calls);
    RoundEntryPlaced(env, n, calls, k);
    AfterFirst(run.entries, RoundEntries(env, n, calls), k);
    AfterFirst(run.inserted, RoundContents(env, n, calls), k);
    AfterFirst(Own(run.history, base), ResultMsgs(RoundResults(env, n, calls)), k);
  }

  lemma ResultsKeepSeen(env: Env, run: Run, n: nat, base: nat, calls: seq<Call>)
    requires Placed(run, base, n) && SeenFirst(run, base, n + 1)
    ensures SeenFirst(AfterResults(env, run, n, calls), base, n + 1)
  {
    var next := AfterResults(env, run, n, calls);
    ResultsPlaced(env, run, n, base, calls);
    forall j | 0 <= j < |next.entries|
      ensures if next.entries[j].round < n + 1 then SentVerbatim(next, base, j)
              else !next.entries[j].elided && Own(next.history, base)[j] == Verbatim(next, j)
    {
      if j < |run.entries| {
        assert next.entries[j] == run.entries[j] && next.inserted[j] == run.inserted[j];
        SentStays(run, next, base, j);
      } else {
        NewVerbatim(env, run, n, base, calls, j - |run.entries|);
      }
    }
  }

  lemma ElisionKeepsSeen(env: Env, run: Run, n: nat, base: nat)
    requires env.policy.keepRecent >= 0 && RoundsApart(run.entries) && SeenFirst(run, base, n + 1)
    requires run.entries != [] ==> run.entries[|run.entries| - 1].round == n + 1
    ensures SeenFirst(AfterElision(env, run, n), base, n + 1)
  {
    var next, pl := AfterElision(env, run, n), RoundPlan(env, run, n);
    ElisionPlaced(env, run, n, base, n + 1);
    PassTakesExactly(run.entries, run.live, run.files, env.policy, env.spill, env.writes(n));
    forall j | 0 <= j < |next.entries|
      ensures if next.entries[j].round < n + 1 then SentVerbatim(next, base, j)
              else !next.entries[j].elided && Own(next.history, base)[j] == Verbatim(next, j)
    {
      if next.entries[j].round < n + 1 {
        SentStays(run, next, base, j);
      } else {
        NewestUntouched(env, run, n, base, n + 1, j);
      }
    }
  }

  /** With call IDs that repeat at most within a round, a pass takes nothing of the newest round's IDs. */
  lemma NewestNotTaken(es: seq<Entry>, live: int, cp: Policy, spill: Spill, writes: nat -> Write, n: nat, j: nat)
    requires cp.keepRecent >= 0 && RoundsInOrder(es, n) && RoundsApart(es)
    requires j < |es| && es[j].round == es[|es| - 1].round
    ensures var pl := PlanFor(es, live, cp, spill, writes);
      !Takes(pl, j) && ReplacementAt(pl, es[j].callID, pl.limit) == None
  {
    var pl := PlanFor(es, live, cp, spill, writes);
    var last := LastTaken(pl, es[j].callID, pl.limit);
    if Takes(pl, j) { TakenIsOlder(es, live, cp, spill, writes, n, j); }
    if last.Some? { TakenIsOlder(es, live, cp, spill, writes, n, last.value); }
  }

  lemma NewestUntouched(env: Env, run: Run, n: nat, base: nat, m: nat, j: nat)
    requires env.policy.keepRecent >= 0 && RoundsApart(run.entries) && Placed(run, base, m)
    requires j < |run.entries| && run.entries[j].round == run.entries[|run.entries| - 1].round
    ensures var next := AfterElision(env, run, n);
      && next.entries[j] == run.entries[j]
      && j < |Own(next.history, base)| && Own(next.history, base)[j] == Own(run.history, base)[j]
  {
    NewestNotTaken(run.entries, run.live, env.policy, env.spill, env.writes(n), m, j);
    PassTakesExactly(run.entries, run.live, run.files, env.policy, env.spill, env.writes(n));
    ResultAfterPass(env, run, n, base, m, j);
    assert AfterElision(env, run, n).entries[j] == EntryAfter(RoundPlan(env, run, n), j);
  }

  // ----- over whole runs

  /** A stopped run has nothing unsent. */
  predicate AllOld(run: Run, n: nat) {
    run.stop.Running? || forall j | 0 <= j < |run.entries| :: run.entries[j].round < n
  }

  ghost predicate Safe(run: Run, base: nat, n: nat) {
    Placed(run, base, n) && Short(run, base) && AllOld(run, n) && SeenIfApart(run, base, n)
  }

  ghost predicate SeenIfApart(run: Run, base: nat, n: nat) {
    RoundsApart(run.entries) ==> SeenFirst(run, base, n)
  }

  lemma ApartPrefix(es: seq<Entry>, fs: seq<Entry>)
    requires RoundsApart(es + fs)
    ensures RoundsApart(es)
  {
    forall i, j | 0 <= i < |es| && 0 <= j < |es| && es[i].callID == es[j].callID ensures es[i].round == es[j].round {
      assert (es + fs)[i] == es[i] && (es + fs)[j] == es[j];
    }
  }

  lemma ApartAlike(es: seq<Entry>, fs: seq<Entry>)
    requires RoundsApart(fs) && |es| == |fs|
    requires forall j | 0 <= j < |es| :: fs[j].callID == es[j].callID && fs[j].round == es[j].round
    ensures RoundsApart(es)
  {
  }

  /** One request: every result of the rounds before has been sent. */
  lemma ChatKeepsSafe(env: Env, run: Run, n: nat, base: nat)
    requires Safe(run, base, n)
    ensures var next := Chatted(env, run, n);
      && Placed(next, base, n) && Short(next, base) && AllOld(next, n + 1)
      && (RoundsApart(next.entries) ==> SeenFirst(next, base, n + 1))
  {
    ChatPlaced(env, run, n, base);
    if RoundsApart(run.entries) { ChatSendsAll(env, run, n, base); }
    assert Chatted(env, run, n).requests == run.requests + [Request(run.history, run.turns)];
  }

  lemma RoundKeepsSafe(env: Env, run: Run, n: nat, base: nat, next: Run)
    requires env.policy.keepRecent >= 0 && run.stop.Running? && next == RunRound(env, run, n) && Safe(run, base, n)
    ensures Safe(next, base, n + 1)
  {
    var chatted := Chatted(env, run, n);
    ChatKeepsSafe(env, run, n, base);
    if chatted.stop.Running? && ReplyAt(env, n).ChatDone? { RecordKeepsSafe(env, chatted, n, base, ReplyAt(env, n).calls); }
  }

  lemma RecordKeepsSafe(env: Env, run: Run, n: nat, base: nat, calls: seq<Call>)
    requires env.policy.keepRecent >= 0 && calls != [] && run.stop.Running?
    requires Placed(run, base, n) && Short(run, base) && (RoundsApart(run.entries) ==> SeenFirst(run, base, n + 1))
    ensures Safe(AfterElision(env, AfterResults(env, run, n, calls), n), base, n + 1)
  {
    var recorded := AfterResults(env, run, n, calls);
    var next := AfterElision(env, recorded, n);
    ResultsPlaced(env, run, n, base, calls);
    ElisionPlaced(env, recorded, n, base, n + 1);
    if RoundsApart(next.entries) {
      ApartAlike(recorded.entries, next.entries);
      ApartPrefix(run.entries, RoundEntries(env, n, calls));
      ResultsKeepSeen(env, run, n, base, calls);
      NewVerbatim(env, run, n, base, calls, |calls| - 1);
      ElisionKeepsSeen(env, recorded, n, base);
    }
  }

  lemma NextSafe(env: Env, start: Run, n: nat, base: nat)
    requires env.policy.keepRecent >= 0 && Safe(Rounds(env, start, n), base, n)
    ensures Safe(Rounds(env, start, n + 1), base, n + 1)
  {
    RoundsStep(env, start, n);
    var run := Rounds(env, start, n);
    if run.stop.Running? { RoundKeepsSafe(env, run, n, base, Rounds(env, start, n + 1)); }
  }

  lemma RunIsSafe(env: Env, start: Run, n: nat, base: nat)
    requires env.policy.keepRecent >= 0 && Safe(start, base, 0)
    ensures Safe(Rounds(env, start, n), base, n)
  {
    assert Rounds(env, start, 0) == start;
    for i := 0 to n
      invariant Safe(Rounds(env, start, i), base, i)
    {
      NextSafe(env, start, i, base);
    }
  }

  /** Requests made before a loop have no more results than its history starts with. */
  ghost predicate Earlier(requests: seq<Request>, h: History) {
    forall k | 0 <= k < |requests| :: |Results(requests[k].history)| <= |Results(h)|
  }

  lemma FreshRunIsSafe(h: History, files: map<string, bytes>, requests: seq<Request>, turns: seq<Turn>)
    requires Earlier(requests, h)
    ensures Safe(Start(h, files, requests, turns), |Results(h)|, 0)
  {
  }

  /** A result that reads in the conversation as anything but what was inserted, or that the ledger has
      as elided, was carried verbatim by some request. */
  ghost predicate LostOnlyAfterSent(run: Run, base: nat) {
    && |run.inserted| == |run.entries| == |Own(run.history, base)|
    && forall j | 0 <= j < |run.entries| && (run.entries[j].elided || Own(run.history, base)[j] != Verbatim(run, j)) ::
         SentVerbatim(run, base, j)
  }

  /** With call IDs that repeat at most within a round, no result is lost before some request carried
      it, however many calls a round makes and whatever the policy. */
  lemma ElidedOnlyAfterSent(env: Env, h: History, files: map<string, bytes>, requests: seq<Request>, turns: seq<Turn>, n: nat)
    requires env.policy.keepRecent >= 0 && Earlier(requests, h)
    ensures var run := Rounds(env, Start(h, files, requests, turns), n);
      RoundsApart(run.entries) ==> LostOnlyAfterSent(run, |Results(h)|)
  {
    FreshRunIsSafe(h, files, requests, turns);
    RunIsSafe(env, Start(h, files, requests, turns), n, |Results(h)|);
  }

  /** A pass takes some entry of this call. */
  ghost predicate TakesFor(pl: Plan, id: string)
    requires Valid(pl)
  {
    exists i: nat :: i < pl.limit && Takes(pl, i) && pl.es[i].callID == id
  }

  lemma ReplacedExactly(pl: Plan, id: string)
    requires Valid(pl)
    ensures ReplacementAt(pl, id, pl.limit).Some? <==> TakesFor(pl, id)
  {
  }

  /** The j-th result has not been sent, and reads as inserted, or as the placeholder of the newest
      entry the pass takes for its call if the pass takes any. */
  ghost predicate OverwrittenExactly(next: Run, base: nat, pl: Plan, j: nat)
    requires Valid(pl)
  {
    && j < |next.entries| == |next.inserted| == |Own(next.history, base)| && !SentVerbatim(next, base, j)
    && var id := next.entries[j].callID;
    && (TakesFor(pl, id) ==> ReplacementAt(pl, id, pl.limit).Some?)
    && Own(next.history, base)[j]
       == if TakesFor(pl, id) then Result(id, ReplacementAt(pl, id, pl.limit).value) else Verbatim(next, j)
  }

  ghost predicate TakesOlderOnly(pl: Plan, n: nat)
    requires Valid(pl)
  {
    forall i: nat | i < pl.limit && Takes(pl, i) :: pl.es[i].round <= n
  }

  lemma TakenOlderOnly(es: seq<Entry>, live: int, cp: Policy, spill: Spill, writes: nat -> Write, n: nat)
    requires cp.keepRecent >= 0 && RoundsInOrder(es, n + 1)
    ensures TakesOlderOnly(PlanFor(es, live, cp, spill, writes), n)
  {
    var pl := PlanFor(es, live, cp, spill, writes);
    forall i: nat | i < pl.limit && Takes(pl, i) ensures pl.es[i].round <= n {
      TakenIsOlder(es, live, cp, spill, writes, n + 1, i);
    }
  }

  /** No request has got as far as this result. */
  ghost predicate Unseen(run: Run, base: nat, j: nat) {
    forall k | 0 <= k < |run.requests| :: |Own(run.requests[k].history, base)| <= j
  }

  /** The j-th result is in the history as inserted, and no request has had it. */
  ghost predicate Pending(run: Run, base: nat, n: nat, j: nat) {
    Placed(run, base, n) && j < |run.entries| && Unseen(run, base, j) && Own(run.history, base)[j] == Verbatim(run, j)
  }

  lemma RecordedPending(env: Env, run: Run, recorded: Run, n: nat, base: nat, calls: seq<Call>, k: nat)
    requires Placed(run, base, n) && Short(run, base) && recorded == AfterResults(env, run, n, calls) && k < |calls|
    ensures Pending(recorded, base, n + 1, |run.entries| + k)
  {
    ResultsPlaced(env, run, n, base, calls);
    NewVerbatim(env, run, n, base, calls, k);
  }

  lemma PendingAfterPass(env: Env, recorded: Run, next: Run, pl: Plan, n: nat, base: nat, j: nat)
    requires env.policy.keepRecent >= 0 && Pending(recorded, base, n + 1, j)
    requires next == AfterElision(env, recorded, n) && pl == RoundPlan(env, recorded, n)
    ensures OverwrittenExactly(next, base, pl, j) && TakesOlderOnly(pl, n)
  {
    ElisionPlaced(env, recorded, n, base, n + 1);
    ResultAfterPass(env, recorded, n, base, n + 1, j);
    ReplacedExactly(pl, recorded.entries[j].callID);
    TakenOlderOnly(recorded.entries, recorded.live, env.policy, env.spill, env.writes(n), n);
  }

  /** Round n goes on to run its calls. */
  predicate RunsCalls(env: Env, run: Run, n: nat) {
    run.stop.Running? && Chatted(env, run, n).stop.Running? && ReplyAt(env, n).ChatDone?
  }

  /** The run with round n's results recorded, before its pass. */
  function Recorded(env: Env, run: Run, n: nat): Run
    requires RunsCalls(env, run, n)
  {
    AfterResults(env, Chatted(env, run, n), n, ReplyAt(env, n).calls)
  }

  /** If round n ran calls, the k-th result has not been sent, and the round's pass overwrote it exactly
      when the pass took an entry with the result's ID, which is an older one. */
  ghost predicate OverwritesExactly(env: Env, run: Run, next: Run, n: nat, base: nat, k: nat)
    requires env.policy.keepRecent >= 0
  {
    RunsCalls(env, run, n) && k < |ReplyAt(env, n).calls| ==>
      var pl := RoundPlan(env, Recorded(env, run, n), n);
      OverwrittenExactly(next, base, pl, |run.entries| + k) && TakesOlderOnly(pl, n)
  }

  lemma ChatKeepsPlaced(env: Env, run: Run, chatted: Run, n: nat, base: nat)
    requires Placed(run, base, n) && Short(run, base) && chatted == Chatted(env, run, n)
    ensures Placed(chatted, base, n) && Short(chatted, base) && |chatted.entries| == |run.entries|
  {
    ChatPlaced(env, run, n, base);
    assert chatted.requests == run.requests + [Request(run.history, run.turns)];
  }

  lemma NextIsAfterElision(env: Env, start: Run, n: nat)
    requires env.policy.keepRecent >= 0 && RunsCalls(env, Rounds(env, start, n), n)
    ensures Rounds(env, start, n + 1) == AfterElision(env, Recorded(env, Rounds(env, start, n), n), n)
  {
    RoundsStep(env, start, n);
  }

  lemma RoundPending(env: Env, run: Run, chatted: Run, recorded: Run, n: nat, base: nat, calls: seq<Call>, k: nat)
    requires Placed(run, base, n) && Short(run, base) && k < |calls|
    requires chatted == Chatted(env, run, n) && recorded == AfterResults(env, chatted, n, calls)
    ensures Pending(recorded, base, n + 1, |run.entries| + k)
  {
    ChatKeepsPlaced(env, run, chatted, n, base);
    RecordedPending(env, chatted, recorded, n, base, calls, k);
  }

  lemma RoundOverwrites(env: Env, run: Run, recorded: Run, next: Run, n: nat, base: nat, k: nat)
    requires env.policy.keepRecent >= 0 && Placed(run, base, n) && Short(run, base)
    requires RunsCalls(env, run, n) && k < |ReplyAt(env, n).calls|
    requires recorded == Recorded(env, run, n) && next == AfterElision(env, recorded, n)
    ensures OverwrittenExactly(next, base, RoundPlan(env, recorded, n), |run.entries| + k)
    ensures TakesOlderOnly(RoundPlan(env, recorded, n), n)
  {
    RoundPending(env, run, Chatted(env, run, n), recorded, n, base, ReplyAt(env, n).calls, k);
    PendingAfterPass(env, recorded, next, RoundPlan(env, recorded, n), n, base, |run.entries| + k);
  }

  lemma RoundOverwritesExactly(env: Env, run: Run, next: Run, n: nat, base: nat, k: nat)
    requires env.policy.keepRecent >= 0 && Placed(run, base, n) && Short(run, base)
    requires RunsCalls(env, run, n) ==> next == AfterElision(env, Recorded(env, run, n), n)
    ensures OverwritesExactly(env, run, next, n, base, k)
  {
    if RunsCalls(env, run, n) && k < |ReplyAt(env, n).calls| {
      RoundOverwrites(env, run, Recorded(env, run, n), next, n, base, k);
    }
  }

  lemma NextOverwrites(env: Env, start: Run, n: nat, base: nat, k: nat)
    requires env.policy.keepRecent >= 0 && Placed(Rounds(env, start, n), base, n) && Short(Rounds(env, start, n), base)
    ensures OverwritesExactly(env, Rounds(env, start, n), Rounds(env, start, n + 1), n, base, k)
  {
    if RunsCalls(env, Rounds(env, start, n), n) { NextIsAfterElision(env, start, n); }
    RoundOverwritesExactly(env, Rounds(env, start, n), Rounds(env, start, n + 1), n, base, k);
  }

  /** Whatever the call IDs, no result of a round just run has been sent, and the round's pass
      overwrites it exactly when the pass takes an entry with the result's ID, which is an older one:
      one that can shrink, with live bytes over the low mark even when all before it have shrunk. */
  lemma UnsentOverwrittenExactly(env: Env, h: History, files: map<string, bytes>, requests: seq<Request>,
                                 turns: seq<Turn>, n: nat, k: nat)
    requires env.policy.keepRecent >= 0 && Earlier(requests, h)
    ensures var start := Start(h, files, requests, turns);
      OverwritesExactly(env, Rounds(env, start, n), Rounds(env, start, n + 1), n, |Results(h)|, k)
  {
    FreshRunIsSafe(h, files, requests, turns);
    RunIsSafe(env, Start(h, files, requests, turns), n, |Results(h)|);
    NextOverwrites(env, Start(h, files, requests, turns), n, |Results(h)|, k);
  }
}
