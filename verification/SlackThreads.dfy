/** A thread's state as a function of the messages handled so far, one at a time and without eviction. */
module SlackThreads {
  import opened Search
  import opened SlashKeys
  import opened SlackGate

  // ----- what one message means to one thread

  /** The sender is not denied, and is listed, as the chat is, where there are lists. */
  predicate HasAccess(cfg: Config, m: Inbound) {
    && m.sender !in cfg.deniedSenders
    && (cfg.allowedSenders != {} ==> m.sender in cfg.allowedSenders)
    && (cfg.allowedChats != {} ==> m.chat in cfg.allowedChats)
  }

  /** The text mentions the bot somewhere. */
  predicate Mentions(m: Inbound) {
    m.botID != "" && exists i | 0 <= i <= |m.text| :: OccursAt(m.text, "<@" + m.botID + ">", i)
  }

  /** The kind of message, direct, mentioning the bot or any other, is one that triggers it. */
  predicate Addressed(cfg: Config, m: Inbound) {
    cfg.allowedTriggers != {} ==>
      (if m.channelType == "im" then "dm" else if Mentions(m) then "mention" else "channel") in cfg.allowedTriggers
  }

  lemma GateRules(cfg: Config, m: Inbound)
    ensures Allowed(cfg, m) <==> HasAccess(cfg, m)
    ensures Triggers(cfg, m) <==> Addressed(cfg, m)
  {
    IndexMeaning(m.text, "<@" + m.botID + ">");
  }

  /** The message is in this thread, and threads are sticky. */
  predicate InThread(cfg: Config, m: Inbound, key: string) {
    cfg.threading && cfg.stickiness && m.threadTS != "" && Joined(m.chat, m.threadTS) == key
  }

  /** The message is in this thread or would start it. */
  predicate Related(cfg: Config, m: Inbound, key: string) {
    var at := if m.threadTS != "" then m.threadTS else m.ts;
    cfg.threading && cfg.stickiness && at != "" && Joined(m.chat, at) == key
  }

  /** The message could make its sender the owner. */
  predicate Opens(cfg: Config, m: Inbound, key: string) {
    Related(cfg, m, key) && HasAccess(cfg, m) && Addressed(cfg, m) && m.sender != ""
  }

  /** The thread after one message. */
  function Seen(cfg: Config, t: Thread, m: Inbound, key: string): Thread {
    if InThread(cfg, m, key) && t.owner != "" && t.owner != m.sender then t.(interrupted := true)
    else if Opens(cfg, m, key) then Claim(t, m.sender)
    else t
  }

  /** A message changes no thread but its own, and that one as told. */
  lemma EvaluateOneThread(cfg: Config, ts: Threads, m: Inbound, key: string)
    ensures Lookup(Evaluate(cfg, ts, m).0, key) == Seen(cfg, Lookup(ts, key), m, key)
  {
    GateRules(cfg, m);
  }

  // ----- traces

  /** The threads after the first n messages. */
  function After(cfg: Config, ms: seq<Inbound>, n: nat): Threads
    requires n <= |ms|
  {
    if n == 0 then map[] else Evaluate(cfg, After(cfg, ms, n - 1), ms[n - 1]).0
  }

  function ThreadAfter(cfg: Config, ms: seq<Inbound>, n: nat, key: string): Thread
    requires n <= |ms|
  {
    Lookup(After(cfg, ms, n), key)
  }

  lemma ThreadStep(cfg: Config, ms: seq<Inbound>, n: nat, key: string)
    requires n < |ms|
    ensures ThreadAfter(cfg, ms, n + 1, key) == Seen(cfg, ThreadAfter(cfg, ms, n, key), ms[n], key)
  {
    EvaluateOneThread(cfg, After(cfg, ms, n), ms[n], key);
  }

  /** Message i is the first that opens the thread. */
  ghost predicate FirstOpens(cfg: Config, ms: seq<Inbound>, key: string, i: nat)
    requires i < |ms|
  {
    Opens(cfg, ms[i], key) && forall j | 0 <= j < i :: !Opens(cfg, ms[j], key)
  }

  ghost predicate Unopened(cfg: Config, ms: seq<Inbound>, key: string, n: nat)
    requires n <= |ms|
  {
    forall j | 0 <= j < n :: !Opens(cfg, ms[j], key)
  }

  /** The owner is the sender of the first message that opens the thread; until then there is none. */
  lemma {:induction false} OwnerIsFirstOpener(cfg: Config, ms: seq<Inbound>, n: nat, key: string)
    requires n <= |ms|
    ensures Unopened(cfg, ms, key, n) ==> ThreadAfter(cfg, ms, n, key) == UNSEEN
    ensures forall i | 0 <= i < n && FirstOpens(cfg, ms, key, i) :: ThreadAfter(cfg, ms, n, key).owner == ms[i].sender
  {
    if n > 0 {
      OwnerIsFirstOpener(cfg, ms, n - 1, key);
      ThreadStep(cfg, ms, n - 1, key);
    }
  }

  /** Either no message opened the thread or one was the first to. */
  lemma {:induction false} SomeFirst(cfg: Config, ms: seq<Inbound>, n: nat, key: string)
    requires n <= |ms|
    ensures Unopened(cfg, ms, key, n) || exists i | 0 <= i < n :: FirstOpens(cfg, ms, key, i)
  {
    if n > 0 {
      SomeFirst(cfg, ms, n - 1, key);
      assert Unopened(cfg, ms, key, n - 1) && Opens(cfg, ms[n - 1], key) ==> FirstOpens(cfg, ms, key, n - 1);
    }
  }

  lemma OwnerFollowsTrace(cfg: Config, ms: seq<Inbound>, n: nat, key: string, sender: string)
    requires n <= |ms| && sender != ""
    ensures ThreadAfter(cfg, ms, n, key).owner == sender
      <==> exists i | 0 <= i < n :: FirstOpens(cfg, ms, key, i) && ms[i].sender == sender
  {
    OwnerIsFirstOpener(cfg, ms, n, key);
    SomeFirst(cfg, ms, n, key);
  }

  lemma SeenKeeps(cfg: Config, t: Thread, m: Inbound, key: string)
    ensures t.owner != "" ==> Seen(cfg, t, m, key).owner == t.owner
    ensures t.interrupted ==> Seen(cfg, t, m, key).interrupted
  {
  }

  /** An owner never changes, and an interrupted thread stays so. */
  lemma {:induction false} OwnerStays(cfg: Config, ms: seq<Inbound>, n: nat, m: nat, key: string)
    requires n <= m <= |ms| && ThreadAfter(cfg, ms, n, key).owner != ""
    ensures ThreadAfter(cfg, ms, m, key).owner == ThreadAfter(cfg, ms, n, key).owner
    ensures ThreadAfter(cfg, ms, n, key).interrupted ==> ThreadAfter(cfg, ms, m, key).interrupted
  {
    if n < m {
      OwnerStays(cfg, ms, n, m - 1, key);
      ThreadStep(cfg, ms, m - 1, key);
      SeenKeeps(cfg, ThreadAfter(cfg, ms, m - 1, key), ms[m - 1], key);
    }
  }

  /** Message j came into the thread from another sender than the one who opened it with message i. */
  ghost predicate Intrudes(cfg: Config, ms: seq<Inbound>, key: string, i: nat, j: nat)
    requires i < |ms| && j < |ms|
  {
    FirstOpens(cfg, ms, key, i) && i < j && InThread(cfg, ms[j], key) && ms[j].sender != ms[i].sender
  }

  ghost predicate Intruded(cfg: Config, ms: seq<Inbound>, key: string, n: nat)
    requires n <= |ms|
  {
    exists i, j | 0 <= i < n && 0 <= j < n :: Intrudes(cfg, ms, key, i, j)
  }

  lemma IntrudedStep(cfg: Config, ms: seq<Inbound>, key: string, n: nat)
    requires n < |ms|
    ensures Intruded(cfg, ms, key, n + 1)
      <==> Intruded(cfg, ms, key, n) || exists i | 0 <= i < n :: Intrudes(cfg, ms, key, i, n)
  {
  }

  lemma LatestIntrudes(cfg: Config, ms: seq<Inbound>, n: nat, key: string)
    requires n < |ms|
    ensures var t := ThreadAfter(cfg, ms, n, key);
      InThread(cfg, ms[n], key) && t.owner != "" && t.owner != ms[n].sender
      <==> exists i | 0 <= i < n :: Intrudes(cfg, ms, key, i, n)
  {
    OwnerIsFirstOpener(cfg, ms, n, key);
    SomeFirst(cfg, ms, n, key);
    if i :| 0 <= i < n && FirstOpens(cfg, ms, key, i) {
      assert Intrudes(cfg, ms, key, i, n) <==> InThread(cfg, ms[n], key) && ms[n].sender != ms[i].sender;
    }
  }

  /** A thread is interrupted exactly when some message in it came, after it was opened, from another
      sender: even one that access control dropped. */
  lemma {:induction false} InterruptedExactly(cfg: Config, ms: seq<Inbound>, n: nat, key: string)
    requires n <= |ms|
    ensures ThreadAfter(cfg, ms, n, key).interrupted <==> Intruded(cfg, ms, key, n)
  {
    if n > 0 {
      InterruptedExactly(cfg, ms, n - 1, key);
      ThreadStep(cfg, ms, n - 1, key);
      IntrudedStep(cfg, ms, key, n - 1);
      LatestIntrudes(cfg, ms, n - 1, key);
    }
  }

  /** The n-th message, counting from zero, on the threads those before it left. */
  function OutcomeOf(cfg: Config, ms: seq<Inbound>, n: nat): Outcome
    requires n < |ms|
  {
    Evaluate(cfg, After(cfg, ms, n), ms[n]).1
  }

  /** The sender opened the thread and nobody else came in since. */
  ghost predicate FreeFlow(cfg: Config, ms: seq<Inbound>, n: nat, key: string)
    requires n < |ms|
  {
    && (exists i | 0 <= i < n :: FirstOpens(cfg, ms, key, i) && ms[i].sender == ms[n].sender)
    && !Intruded(cfg, ms, key, n)
  }

  /** Told by the trace alone: a message in a thread passes exactly when its sender has access and
      either the message satisfies the trigger rules or its sender has the thread to themself; one
      outside threads needs both access and trigger. */
  lemma AcceptedExactly(cfg: Config, ms: seq<Inbound>, n: nat)
    requires n < |ms|
    ensures var m := ms[n]; var key := Joined(m.chat, m.threadTS);
      OutcomeOf(cfg, ms, n).decision.Allow?
      <==> HasAccess(cfg, m) && (Addressed(cfg, m) || (InThread(cfg, m, key) && FreeFlow(cfg, ms, n, key)))
  {
    ReasonExactly(cfg, ms, n);
  }

  /** The reason a message passes or is dropped for, told by the trace alone. */
  ghost predicate ReasonTold(cfg: Config, ms: seq<Inbound>, n: nat, why: Reason)
    requires n < |ms|
  {
    var m := ms[n];
    var key := Joined(m.chat, m.threadTS);
    var inThread, owned := InThread(cfg, m, key), !Unopened(cfg, ms, key, n);
    match why
    case AccessDenied => !HasAccess(cfg, m)
    case NoTrigger => HasAccess(cfg, m) && !Addressed(cfg, m) && !(inThread && owned)
    case Plain => HasAccess(cfg, m) && Addressed(cfg, m) && !inThread
    case Claimed => HasAccess(cfg, m) && Addressed(cfg, m) && inThread && !owned
    case OwnerFreeFlow => HasAccess(cfg, m) && inThread && FreeFlow(cfg, ms, n, key)
    case StickyTrigger =>
      HasAccess(cfg, m) && Addressed(cfg, m) && inThread && owned && !FreeFlow(cfg, ms, n, key)
    case StickyNoTrigger =>
      HasAccess(cfg, m) && !Addressed(cfg, m) && inThread && owned && !FreeFlow(cfg, ms, n, key)
  }

  /** The thread a message finds, told by the trace. */
  lemma ThreadFound(cfg: Config, ms: seq<Inbound>, n: nat, key: string)
    requires n < |ms|
    ensures var t := ThreadAfter(cfg, ms, n, key);
      && (t.owner == "" <==> Unopened(cfg, ms, key, n))
      && (t.owner != "" && t.owner == ms[n].sender && !t.interrupted <==> FreeFlow(cfg, ms, n, key))
  {
    OwnerIsFirstOpener(cfg, ms, n, key);
    SomeFirst(cfg, ms, n, key);
    InterruptedExactly(cfg, ms, n, key);
  }

  lemma ReasonExactly(cfg: Config, ms: seq<Inbound>, n: nat)
    requires n < |ms|
    ensures ReasonTold(cfg, ms, n, OutcomeOf(cfg, ms, n).reason)
    ensures OutcomeOf(cfg, ms, n).decision.Drop? <==> OutcomeOf(cfg, ms, n).reason in {AccessDenied, NoTrigger, StickyNoTrigger}
  {
    GateRules(cfg, ms[n]);
    ThreadFound(cfg, ms, n, Joined(ms[n].chat, ms[n].threadTS));
  }

  // ----- threads do not affect each other

  function Only(cfg: Config, ms: seq<Inbound>, key: string): (own: seq<Inbound>) {
    if ms == [] then []
    else Only(cfg, ms[..|ms| - 1], key) + if Related(cfg, ms[|ms| - 1], key) then [ms[|ms| - 1]] else []
  }

  lemma {:induction false} AfterPrefix(cfg: Config, ms: seq<Inbound>, k: nat, n: nat)
    requires n <= k <= |ms|
    ensures After(cfg, ms[..k], n) == After(cfg, ms, n)
  {
    if n > 0 { AfterPrefix(cfg, ms, k, n - 1); }
  }

  /** A thread's state is what it would be had the bot seen the thread's own messages only. */
  lemma {:induction false} ThreadsIndependent(cfg: Config, ms: seq<Inbound>, key: string)
    ensures ThreadAfter(cfg, ms, |ms|, key) == ThreadAfter(cfg, Only(cfg, ms, key), |Only(cfg, ms, key)|, key)
  {
    if ms != [] {
      var k := |ms| - 1;
      ThreadsIndependent(cfg, ms[..k], key);
      AfterPrefix(cfg, ms, k, k);
      ThreadStep(cfg, ms, k, key);
      if Related(cfg, ms[k], key) {
        var before := Only(cfg, ms[..k], key);
        var own := before + [ms[k]];
        assert Only(cfg, ms, key) == own && own[..|before|] == before;
        AfterPrefix(cfg, own, |before|, |before|);
        ThreadStep(cfg, own, |before|, key);
      } else {
        assert Only(cfg, ms, key) == Only(cfg, ms[..k], key);
      }
    }
  }
}
