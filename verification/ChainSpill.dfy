/** Spill files along a chain: every attempt has a new ledger, and files are named by its indexes, so
    a later attempt can overwrite the file that a placeholder of an earlier one still names. */
module ChainSpill {
  import opened ByteText
  import opened Conversation
  import opened Providers
  import opened ToolResultLedger
  import opened GreedyPass
  import opened AgentLoop
  import opened RepeatedIds
  import opened GateChain

  // ----- one attempt: two calls, one a round, and an answer

  /** The calls of an attempt and their outputs, with the spill directory. */
  datatype Work = Work(dir: string, first: Call, second: Call, out: bytes, newest: bytes)

  /** The first output is longer than the placeholder that names its file. */
  predicate WorkOk(w: Work) {
    |StubOf(w)| < |w.out| && |w.out| > 1 && w.newest != [] && w.first.id != w.second.id
  }

  /** The file of a ledger's first entry. */
  function FileOf(dir: string): string {
    SpillPath(dir, 0)
  }

  /** What the first result becomes. */
  function StubOf(w: Work): bytes {
    SpilledStub(w.first.name, |w.out|, FileOf(w.dir))
  }

  function SpillEnv(w: Work): Env {
    Env(OpenAIKind, Policy(0, 1, 0, 0), Dir(w.dir), TokenBudget(0, "halt"), 3, MESSAGES,
        n => Chosen("", "", if n == 0 then [w.first] else if n == 1 then [w.second] else [], [], 0, 0),
        (n, k) => if n == 0 then w.out else w.newest, n => WriteAll)
  }

  function EntriesOf(w: Work): seq<Entry> {
    [Entry(w.first.id, w.first.name, |w.out|, 1, false, w.out),
     Entry(w.second.id, w.second.name, |w.newest|, 2, false, w.newest)]
  }

  /** The messages an attempt adds, before its pass. */
  function Added(w: Work): History {
    [Assistant([w.first]), Result(w.first.id, w.out), Assistant([w.second]), Result(w.second.id, w.newest)]
  }

  lemma FirstRound(w: Work, start: Run, one: Run)
    requires WorkOk(w) && start.stop.Running? && start.entries == [] && start.live == 0
    requires one == RunRound(SpillEnv(w), start, 0)
    ensures one.stop.Running? && one.entries == EntriesOf(w)[..1] && one.live == |w.out| && one.files == start.files
    ensures one.history == start.history + [Assistant([w.first]), Result(w.first.id, w.out)]
    ensures one.inTok == start.inTok && one.outTok == start.outTok
  {
    var recorded := AfterResults(SpillEnv(w), Chatted(SpillEnv(w), start, 0), 0, [w.first]);
    FirstRoundRecorded(w, start, recorded);
    assert Chatted(SpillEnv(w), start, 0).stop.Running?;
    FirstPass(w, recorded);
  }

  lemma FirstRoundRecorded(w: Work, start: Run, recorded: Run)
    requires start.stop.Running? && start.entries == [] && start.live == 0
    requires recorded == AfterResults(SpillEnv(w), Chatted(SpillEnv(w), start, 0), 0, [w.first])
    ensures recorded.stop.Running? && recorded.entries == EntriesOf(w)[..1] && recorded.live == |w.out|
    ensures recorded.history == start.history + [Assistant([w.first]), Result(w.first.id, w.out)]
    ensures recorded.files == start.files && recorded.inTok == start.inTok && recorded.outTok == start.outTok
  {
    OneRepeatingRound(SpillEnv(w), Chatted(SpillEnv(w), start, 0), 0, w.first, w.out);
    assert recorded.entries == EntriesOf(w)[..1];
    TwoMessages(start.history, Assistant([w.first]), Result(w.first.id, w.out));
  }

  lemma TwoMessages(h: History, a: Msg, r: Msg)
    ensures h + [a] + [r] == h + [a, r]
  {
  }

  /** The pass of the first round does nothing: the only result is the newest round's. */
  lemma FirstPass(w: Work, recorded: Run)
    requires recorded.entries == EntriesOf(w)[..1]
    ensures AfterElision(SpillEnv(w), recorded, 0) == recorded
  {
    assert ProtectedCutoff(recorded.entries, 0) == 0;
  }

  /** The pass of the second round spills the first round's result. */
  lemma SecondPass(w: Work, files: map<string, bytes>)
    requires WorkOk(w)
    ensures var q := Select(EntriesOf(w), |w.out| + |w.newest|, files, Policy(0, 1, 0, 0), Dir(w.dir), WriteAll);
      q.repl == map[w.first.id := StubOf(w)] && Find(q.files, FileOf(w.dir)) == Some(w.out)
  {
    var es, cp, spill := EntriesOf(w), Policy(0, 1, 0, 0), Dir(w.dir);
    assert RoundStart(es, 1) == 1 && ProtectedCutoff(es, 0) == 1;
    PassTakesExactly(es, |w.out| + |w.newest|, files, cp, spill, WriteAll);
    PassWritesExactly(es, |w.out| + |w.newest|, files, cp, w.dir, WriteAll, 0);
    var q, pl := Select(es, |w.out| + |w.newest|, files, cp, spill, WriteAll), PlanFor(es, |w.out| + |w.newest|, cp, spill, WriteAll);
    assert StubIs(pl, 0, spill, WriteAll) && pl.stub(0) == Some(StubOf(w)) && Takes(pl, 0);
    forall id ensures Find(q.repl, id) == if id == w.first.id then Some(StubOf(w)) else None {
      assert Find(q.repl, id) == ReplacementAt(pl, id, 1);
      assert LastTaken(pl, id, 1) == if id == w.first.id then Some(0) else LastTaken(pl, id, 0);
    }
    assert Find(q.repl, w.first.id) == Some(StubOf(w));
    forall id | id in q.repl ensures id == w.first.id { assert Find(q.repl, id).Some?; }
  }

  lemma FourMessages(h: History, a: Msg, r: Msg, b: Msg, s: Msg)
    ensures h + [a, r] + [b] + [s] == h + [a, r, b, s]
  {
  }

  lemma SecondRoundRecorded(w: Work, one: Run, h: History, recorded: Run)
    requires one.stop.Running? && one.entries == EntriesOf(w)[..1] && one.live == |w.out|
    requires one.history == h + [Assistant([w.first]), Result(w.first.id, w.out)]
    requires recorded == AfterResults(SpillEnv(w), Chatted(SpillEnv(w), one, 1), 1, [w.second])
    ensures recorded.stop.Running? && recorded.entries == EntriesOf(w) && recorded.live == |w.out| + |w.newest|
    ensures recorded.history == h + Added(w) && recorded.inTok == one.inTok && recorded.outTok == one.outTok
  {
    OneRepeatingRound(SpillEnv(w), Chatted(SpillEnv(w), one, 1), 1, w.second, w.newest);
    FourMessages(h, Assistant([w.first]), Result(w.first.id, w.out), Assistant([w.second]), Result(w.second.id, w.newest));
  }

  lemma AfterSecondPass(w: Work, recorded: Run, two: Run)
    requires WorkOk(w) && recorded.entries == EntriesOf(w) && recorded.live == |w.out| + |w.newest|
    requires two == AfterElision(SpillEnv(w), recorded, 1)
    ensures Find(two.files, FileOf(w.dir)) == Some(w.out)
    ensures two.history == Replaced(recorded.history, map[w.first.id := StubOf(w)])
    ensures two.stop == recorded.stop && two.inTok == recorded.inTok && two.outTok == recorded.outTok
  {
    SecondPass(w, recorded.files);
  }

  lemma SecondRound(w: Work, one: Run, two: Run, h: History)
    requires WorkOk(w) && one.stop.Running? && one.entries == EntriesOf(w)[..1] && one.live == |w.out|
    requires one.history == h + [Assistant([w.first]), Result(w.first.id, w.out)]
    requires two == RunRound(SpillEnv(w), one, 1)
    ensures two.stop.Running? && Find(two.files, FileOf(w.dir)) == Some(w.out)
    ensures two.history == Replaced(h + Added(w), map[w.first.id := StubOf(w)])
    ensures two.inTok == one.inTok && two.outTok == one.outTok
  {
    var recorded := AfterResults(SpillEnv(w), Chatted(SpillEnv(w), one, 1), 1, [w.second]);
    SecondRoundRecorded(w, one, h, recorded);
    assert Chatted(SpillEnv(w), one, 1).stop.Running?;
    AfterSecondPass(w, recorded, two);
  }

  lemma LastRound(w: Work, two: Run, three: Run)
    requires two.stop.Running? && three == RunRound(SpillEnv(w), two, 2)
    ensures three.stop.Finished? && three.history == two.history && three.files == two.files
    ensures three.inTok == two.inTok && three.outTok == two.outTok
  {
  }

  /** An attempt on any history and files. */
  lemma OneAttempt(w: Work, h: History, files: map<string, bytes>, requests: seq<Request>, turns: seq<Turn>, run: Run)
    requires WorkOk(w) && run == Loop(SpillEnv(w), Start(h, files, requests, turns))
    ensures run.stop.Finished? && run.inTok == 0 && run.outTok == 0
    ensures run.history == Replaced(h + Added(w), map[w.first.id := StubOf(w)]) && Find(run.files, FileOf(w.dir)) == Some(w.out)
  {
    var env, start := SpillEnv(w), Start(h, files, requests, turns);
    RoundsStep(env, start, 0);
    RoundsStep(env, start, 1);
    RoundsStep(env, start, 2);
    assert Rounds(env, start, 0) == start;
    FirstRound(w, start, Rounds(env, start, 1));
    SecondRound(w, Rounds(env, start, 1), Rounds(env, start, 2), h);
    LastRound(w, Rounds(env, start, 2), Rounds(env, start, 3));
  }

  // ----- a chain of two

  function ReadVerdict(data: bytes): Option<Verdict> {
    if data == [1] then Some(Verdict(1, Continue, "")) else None
  }

  /** Attempt 1 does `v` and gets a continue verdict; attempt 2 does `w` and gets none. */
  function TwoAttempts(v: Work, w: Work, card: string): ChainEnv {
    ChainEnv(k => SpillEnv(if k == 0 then v else w), TokenBudget(0, "halt"), 1, 0,
             [[Tick(Some([1]), false, false)]], ReadVerdict, k => false, (x, i) => card)
  }

  lemma TwoAttemptsUniform(v: Work, w: Work, card: string)
    ensures Uniform(TwoAttempts(v, w, card))
  {
    var env := TwoAttempts(v, w, card);
    forall k: nat ensures env.loops(k).policy.keepRecent >= 0 && env.loops(k).budget == env.budget {
      assert env.loops(k) == SpillEnv(if k == 0 then v else w);
    }
  }

  /** An attempt 1 that answers without error is followed by attempt 2. */
  lemma ContinueAfterOne(v: Work, w: Work, card: string, c: Chain, run: Run)
    requires c.ended.Going? && run.stop.Finished? && run.inTok == 0 && run.outTok == 0
    ensures var next := AfterRun(TwoAttempts(v, w, card), c, 0, run);
      next.ended.Going? && next.files == run.files && next.history == AfterUser(run.history, card)
  {
    var env := TwoAttempts(v, w, card);
    assert Wait(Park(env, 0), 1, [], env.read) == Got(Verdict(1, Continue, ""));
  }

  lemma AttemptOne(v: Work, w: Work, card: string, one: Chain)
    requires WorkOk(v) && Uniform(TwoAttempts(v, w, card))
    requires one == Attempts(TwoAttempts(v, w, card), NewChain([], map[]), 1)
    ensures one.ended.Going? && Find(one.files, FileOf(v.dir)) == Some(v.out)
    ensures one.history == AfterUser(Replaced(Added(v), map[v.first.id := StubOf(v)]), card)
  {
    var env, start := TwoAttempts(v, w, card), NewChain([], map[]);
    AttemptsStep(env, start, 0);
    assert Attempts(env, start, 0) == start;
    var run := RunOf(env, start, 0);
    OneAttempt(v, [], map[], [], [], run);
    assert [] + Added(v) == Added(v);
    ContinueAfterOne(v, w, card, start, run);
  }

  lemma AttemptTwo(v: Work, w: Work, card: string, one: Chain, two: Chain)
    requires WorkOk(w) && Uniform(TwoAttempts(v, w, card)) && one.ended.Going?
    requires one == Attempts(TwoAttempts(v, w, card), NewChain([], map[]), 1)
    requires two == Attempts(TwoAttempts(v, w, card), NewChain([], map[]), 2)
    ensures Find(two.files, FileOf(w.dir)) == Some(w.out)
    ensures two.history == Replaced(one.history + Added(w), map[w.first.id := StubOf(w)])
  {
    var env, start := TwoAttempts(v, w, card), NewChain([], map[]);
    AttemptsStep(env, start, 1);
    var run := RunOf(env, one, 1);
    OneAttempt(w, one.history, one.files, one.requests, one.turns, run);
    assert Wait(Park(env, 1), 2, [], env.read) == GaveUp;
  }

  lemma SecondMessageStays(v: Work, w: Work, card: string, stub: bytes, other: bytes)
    requires v.first.id != w.first.id
    ensures var h := Replaced(AfterUser(Replaced(Added(v), map[v.first.id := stub]), card) + Added(w), map[w.first.id := other]);
      |h| >= 2 && h[1] == Result(v.first.id, stub)
  {
    var placed := Replaced(Added(v), map[v.first.id := stub]);
    assert placed[1] == Result(v.first.id, stub);
    assert (AfterUser(placed, card) + Added(w))[1] == placed[1];
  }

  /** Under any directory, after two attempts with all call IDs distinct and no failed write, the placeholder of the first
      attempt's result still names a file, which holds the second attempt's result. */
  lemma LaterAttemptOverwritesFile(v: Work, w: Work, card: string)
    requires WorkOk(v) && WorkOk(w) && v.dir == w.dir && v.out != w.out
    requires v.first.id != w.first.id && v.first.id != w.second.id && v.second.id != w.first.id && v.second.id != w.second.id
    ensures Uniform(TwoAttempts(v, w, card))
    ensures var c := Attempts(TwoAttempts(v, w, card), NewChain([], map[]), 2);
      && |c.history| >= 2 && c.history[1] == Result(v.first.id, SpilledStub(v.first.name, |v.out|, FileOf(v.dir)))
      && Find(c.files, FileOf(v.dir)) == Some(w.out) && w.out != v.out
  {
    var env := TwoAttempts(v, w, card);
    TwoAttemptsUniform(v, w, card);
    var one, two := Attempts(env, NewChain([], map[]), 1), Attempts(env, NewChain([], map[]), 2);
    AttemptOne(v, w, card, one);
    AttemptTwo(v, w, card, one, two);
    SecondMessageStays(v, w, card, StubOf(v), StubOf(w));
  }
}
