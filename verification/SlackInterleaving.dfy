/** Handlers of the Slack gate running at once: each locked section and each read of a thread's fields
    is one step, in any order across handlers, without eviction. */
module SlackInterleaving {
  import opened SlackGate
  import opened SlackThreads

  // ----- one handler, step by step

  /** Where a handler is. The reads of `owner` and `interrupted` happen outside the lock. */
  datatype Place =
    | FirstGet | FirstOwnerSet | FirstOwnerOther | Interrupting
    | Checking
    | SecondGet | SecondOwnerSet | SecondOwnerOther | SecondInterrupted
    | Unowned | Claiming | NeedTrigger | Touching | Anchoring
    | Finished(outcome: Outcome)

  datatype Handler = Handler(m: Inbound, at: Place)

  predicate StickyIn(cfg: Config, m: Inbound) {
    Sticky(cfg) && m.threadTS != ""
  }

  function Begin(cfg: Config, m: Inbound): Handler {
    Handler(m, if StickyIn(cfg, m) then FirstGet else Checking)
  }

  /** The key a handler's thread is under. */
  function KeyOf(m: Inbound): string {
    ThreadKey(m.chat, Anchor(m))
  }

  function Updated(ts: Threads, key: string, c: Change): Threads {
    ts[key := AfterChange(Lookup(ts, key), c)]
  }

  /** The shared threads after a handler's next step; only locked updates change them. */
  function ThreadsAfterStep(cfg: Config, ts: Threads, h: Handler): Threads {
    match h.at
    case Interrupting => Updated(ts, KeyOf(h.m), Interrupt)
    case Claiming => Updated(ts, KeyOf(h.m), TakeOver(h.m.sender))
    case Anchoring => Updated(ts, KeyOf(h.m), TakeOver(h.m.sender))
    case Touching => Updated(ts, KeyOf(h.m), Touch)
    case _ => ts
  }

  /** Where the handler is after its next step on these threads. */
  function NextPlace(cfg: Config, ts: Threads, h: Handler): Place {
    var t := Lookup(ts, KeyOf(h.m));
    match h.at
    case FirstGet => if KeyOf(h.m) in ts then FirstOwnerSet else Checking
    case FirstOwnerSet => if t.owner != "" then FirstOwnerOther else Checking
    case FirstOwnerOther => if t.owner != h.m.sender then Interrupting else Checking
    case Interrupting => Checking
    case Checking =>
      if !Allowed(cfg, h.m) then Finished(Outcome(Drop, AccessDenied))
      else if StickyIn(cfg, h.m) then SecondGet
      else if !Triggers(cfg, h.m) then Finished(Outcome(Drop, NoTrigger))
      else if Sticky(cfg) && Anchor(h.m) != "" then Anchoring
      else Finished(Outcome(Allow, Plain))
    case SecondGet => if KeyOf(h.m) in ts then SecondOwnerSet else Unowned
    case SecondOwnerSet => if t.owner == "" then Unowned else SecondOwnerOther
    case SecondOwnerOther => if t.owner != h.m.sender then NeedTrigger else SecondInterrupted
    case SecondInterrupted => if t.interrupted then NeedTrigger else Touching
    case Unowned => if !Triggers(cfg, h.m) then Finished(Outcome(Drop, NoTrigger)) else Claiming
    case Claiming => Finished(Outcome(Allow, Claimed))
    case NeedTrigger =>
      Finished(if Triggers(cfg, h.m) then Outcome(Allow, StickyTrigger) else Outcome(Drop, StickyNoTrigger))
    case Touching => Finished(Outcome(Allow, OwnerFreeFlow))
    case Anchoring => Finished(Outcome(Allow, Plain))
    case Finished(_) => h.at
  }

  // ----- a handler that runs alone is the sequential gate

  function Rank(p: Place): nat {
    match p
    case FirstGet => 10
    case FirstOwnerSet => 9
    case FirstOwnerOther => 8
    case Interrupting => 7
    case Checking => 6
    case SecondGet => 5
    case SecondOwnerSet => 4
    case SecondOwnerOther => 3
    case SecondInterrupted => 2
    case Unowned => 2
    case Claiming => 1
    case NeedTrigger => 1
    case Touching => 1
    case Anchoring => 1
    case Finished(_) => 0
  }

  /** The handler runs to its end with no other in between. */
  function Alone(cfg: Config, ts: Threads, h: Handler): (Threads, Outcome)
    decreases Rank(h.at), 1
  {
    if h.at.Finished? then (ts, h.at.outcome) else AloneNext(cfg, ts, h)
  }

  function AloneNext(cfg: Config, ts: Threads, h: Handler): (Threads, Outcome)
    requires !h.at.Finished?
    decreases Rank(h.at), 0
  {
    Alone(cfg, ThreadsAfterStep(cfg, ts, h), h.(at := NextPlace(cfg, ts, h)))
  }

  lemma AloneStep(cfg: Config, ts: Threads, m: Inbound, at: Place)
    requires !at.Finished?
    ensures var h := Handler(m, at);
      Alone(cfg, ts, h) == Alone(cfg, ThreadsAfterStep(cfg, ts, h), Handler(m, NextPlace(cfg, ts, h)))
  {
    assert Alone(cfg, ts, Handler(m, at)) == AloneNext(cfg, ts, Handler(m, at));
  }

  lemma AloneUnowned(cfg: Config, ts: Threads, m: Inbound)
    ensures Alone(cfg, ts, Handler(m, Unowned)) ==
      if !Triggers(cfg, m) then (ts, Outcome(Drop, NoTrigger))
      else (ts[KeyOf(m) := Claim(Lookup(ts, KeyOf(m)), m.sender)], Outcome(Allow, Claimed))
  {
    AloneStep(cfg, ts, m, Unowned);
    AloneStep(cfg, ts, m, Claiming);
  }

  lemma AloneOwned(cfg: Config, ts: Threads, m: Inbound)
    ensures Alone(cfg, ts, Handler(m, SecondOwnerOther)) ==
      var t := Lookup(ts, KeyOf(m));
      if t.owner != m.sender || t.interrupted then
        if !Triggers(cfg, m) then (ts, Outcome(Drop, StickyNoTrigger)) else (ts, Outcome(Allow, StickyTrigger))
      else (ts[KeyOf(m) := t], Outcome(Allow, OwnerFreeFlow))
  {
    AloneStep(cfg, ts, m, SecondOwnerOther);
    AloneStep(cfg, ts, m, SecondInterrupted);
    AloneStep(cfg, ts, m, NeedTrigger);
    AloneStep(cfg, ts, m, Touching);
  }

  lemma AloneFromChecking(cfg: Config, ts: Threads, m: Inbound)
    requires StickyIn(cfg, m)
    ensures Alone(cfg, ts, Handler(m, Checking)) ==
      if !Allowed(cfg, m) then (ts, Outcome(Drop, AccessDenied))
      else if Lookup(ts, KeyOf(m)).owner == "" then Alone(cfg, ts, Handler(m, Unowned))
      else Alone(cfg, ts, Handler(m, SecondOwnerOther))
  {
    AloneStep(cfg, ts, m, Checking);
    AloneStep(cfg, ts, m, SecondGet);
    AloneStep(cfg, ts, m, SecondOwnerSet);
  }

  /** Run one at a time, the steps come to what the sequential gate does. */
  lemma AloneIsEvaluate(cfg: Config, ts: Threads, m: Inbound)
    ensures Alone(cfg, ts, Begin(cfg, m)) == Evaluate(cfg, ts, m)
  {
    if StickyIn(cfg, m) {
      var latched := Latched(ts, KeyOf(m), m.sender);
      AloneStep(cfg, ts, m, FirstGet);
      AloneStep(cfg, ts, m, FirstOwnerSet);
      AloneStep(cfg, ts, m, FirstOwnerOther);
      AloneStep(cfg, ts, m, Interrupting);
      AloneFromChecking(cfg, latched, m);
      AloneUnowned(cfg, latched, m);
      AloneOwned(cfg, latched, m);
    } else {
      AloneStep(cfg, ts, m, Checking);
      AloneStep(cfg, ts, m, Anchoring);
    }
  }

  // ----- many handlers

  datatype World = World(threads: Threads, handlers: seq<Handler>)

  function Opening(cfg: Config, ms: seq<Inbound>): World {
    World(map[], seq(|ms|, i requires 0 <= i < |ms| => Begin(cfg, ms[i])))
  }

  /** Handler i takes a step. */
  function Step(cfg: Config, w: World, i: nat): World {
    if i >= |w.handlers| then w
    else
      var h := w.handlers[i];
      World(ThreadsAfterStep(cfg, w.threads, h), w.handlers[i := h.(at := NextPlace(cfg, w.threads, h))])
  }

  /** The world after n steps of a schedule, which says whose turn it is. */
  function Worlds(cfg: Config, w: World, schedule: nat -> nat, n: nat): World {
    if n == 0 then w else Step(cfg, Worlds(cfg, w, schedule, n - 1), schedule(n - 1))
  }

  function OwnerOf(w: World, key: string): string {
    Lookup(w.threads, key).owner
  }

  /** What a step of any handler keeps of a thread. */
  predicate Keeps(t: Thread, u: Thread) {
    && (t.owner != "" ==> u.owner == t.owner)
    && (t.interrupted ==> u.interrupted)
  }

  lemma StepKeeps(cfg: Config, w: World, i: nat, key: string)
    ensures Keeps(Lookup(w.threads, key), Lookup(Step(cfg, w, i).threads, key))
  {
  }

  /** However handlers interleave, an owner once written is never overwritten, and a thread once
      interrupted stays interrupted. */
  lemma {:induction false} NeverOverwritten(cfg: Config, w: World, schedule: nat -> nat, n: nat, m: nat, key: string)
    requires n <= m
    ensures Keeps(Lookup(Worlds(cfg, w, schedule, n).threads, key), Lookup(Worlds(cfg, w, schedule, m).threads, key))
  {
    if n < m {
      NeverOverwritten(cfg, w, schedule, n, m - 1, key);
      StepKeeps(cfg, Worlds(cfg, w, schedule, m - 1), schedule(m - 1), key);
    }
  }

  // ----- what a handler's place says about its thread

  /** Facts a handler can rely on at its place, since no other handler can undo them. */
  predicate Sound(cfg: Config, ts: Threads, h: Handler) {
    var t := Lookup(ts, KeyOf(h.m));
    match h.at
    case FirstGet => StickyIn(cfg, h.m)
    case FirstOwnerSet => StickyIn(cfg, h.m) && KeyOf(h.m) in ts
    case FirstOwnerOther => StickyIn(cfg, h.m) && t.owner != ""
    case Interrupting => StickyIn(cfg, h.m) && t.owner != "" && t.owner != h.m.sender
    case Checking => true
    case SecondGet => StickyIn(cfg, h.m) && Allowed(cfg, h.m)
    case SecondOwnerSet => StickyIn(cfg, h.m) && Allowed(cfg, h.m)
    case SecondOwnerOther => StickyIn(cfg, h.m) && Allowed(cfg, h.m) && t.owner != ""
    case SecondInterrupted => StickyIn(cfg, h.m) && Allowed(cfg, h.m) && t.owner == h.m.sender != ""
    case Unowned => StickyIn(cfg, h.m) && Allowed(cfg, h.m)
    case Claiming => StickyIn(cfg, h.m) && Allowed(cfg, h.m) && Triggers(cfg, h.m)
    case NeedTrigger => Allowed(cfg, h.m) && t.owner != ""
    case Touching => Allowed(cfg, h.m) && t.owner == h.m.sender != ""
    case Anchoring => Sticky(cfg) && Anchor(h.m) != "" && Allowed(cfg, h.m) && Triggers(cfg, h.m)
    case Finished(o) =>
      && (o.decision.Allow? <==> Allowed(cfg, h.m) && (Triggers(cfg, h.m) || o.reason.OwnerFreeFlow?))
      && (o.reason.OwnerFreeFlow? ==> o.decision.Allow? && t.owner == h.m.sender != "")
      && (o.reason.AccessDenied? ==> !Allowed(cfg, h.m))
  }

  lemma OwnStepSound(cfg: Config, ts: Threads, h: Handler)
    requires Sound(cfg, ts, h)
    ensures Sound(cfg, ThreadsAfterStep(cfg, ts, h), h.(at := NextPlace(cfg, ts, h)))
  {
  }

  lemma OtherStepSound(cfg: Config, ts: Threads, us: Threads, h: Handler)
    requires Sound(cfg, ts, h) && Keeps(Lookup(ts, KeyOf(h.m)), Lookup(us, KeyOf(h.m)))
    requires KeyOf(h.m) in ts ==> KeyOf(h.m) in us
    ensures Sound(cfg, us, h)
  {
  }

  predicate AllSound(cfg: Config, w: World) {
    forall i | 0 <= i < |w.handlers| :: Sound(cfg, w.threads, w.handlers[i])
  }

  lemma StepSound(cfg: Config, w: World, i: nat)
    requires AllSound(cfg, w)
    ensures AllSound(cfg, Step(cfg, w, i))
  {
    var next := Step(cfg, w, i);
    forall j | 0 <= j < |next.handlers| ensures Sound(cfg, next.threads, next.handlers[j]) {
      if j == i {
        OwnStepSound(cfg, w.threads, w.handlers[i]);
      } else {
        StepKeeps(cfg, w, i, KeyOf(w.handlers[j].m));
        OtherStepSound(cfg, w.threads, next.threads, w.handlers[j]);
      }
    }
  }

  /** Whatever the interleaving, a message is accepted exactly when it has access, and satisfies the
      trigger rules or is let through as its thread's owner's. */
  lemma {:induction false} AlwaysSound(cfg: Config, ms: seq<Inbound>, schedule: nat -> nat, n: nat)
    ensures AllSound(cfg, Worlds(cfg, Opening(cfg, ms), schedule, n))
  {
    if n > 0 {
      AlwaysSound(cfg, ms, schedule, n - 1);
      StepSound(cfg, Worlds(cfg, Opening(cfg, ms), schedule, n - 1), schedule(n - 1));
    }
  }

  // ----- after an interruption

  /** The handler has found its sender to own a thread that nobody interrupted. */
  predicate Free(h: Handler) {
    h.at.Touching? || (h.at.Finished? && h.at.outcome.reason.OwnerFreeFlow?)
  }

  /** Handler k has a thread that is interrupted, and did not find it otherwise. */
  predicate Bound(w: World, k: nat) {
    k < |w.handlers| && Lookup(w.threads, KeyOf(w.handlers[k].m)).interrupted && !Free(w.handlers[k])
  }

  lemma StepBound(cfg: Config, w: World, i: nat, k: nat)
    requires Bound(w, k)
    ensures Bound(Step(cfg, w, i), k) && Step(cfg, w, i).handlers[k].m == w.handlers[k].m
  {
    StepKeeps(cfg, w, i, KeyOf(w.handlers[k].m));
  }

  lemma {:induction false} StaysBound(cfg: Config, w: World, schedule: nat -> nat, n: nat, m: nat, k: nat)
    requires n <= m && Bound(Worlds(cfg, w, schedule, n), k)
    ensures Bound(Worlds(cfg, w, schedule, m), k)
    ensures Worlds(cfg, w, schedule, m).handlers[k].m == Worlds(cfg, w, schedule, n).handlers[k].m
  {
    if n < m {
      StaysBound(cfg, w, schedule, n, m - 1, k);
      StepBound(cfg, Worlds(cfg, w, schedule, m - 1), schedule(m - 1), k);
    }
  }

  /** Whatever the interleaving, once a thread is interrupted a message whose handler has not yet found
      it uninterrupted is accepted exactly when it has access and satisfies the trigger rules, the
      owner's included. */
  lemma InterruptedNeedsTrigger(cfg: Config, ms: seq<Inbound>, schedule: nat -> nat, n: nat, m: nat, k: nat)
    requires n <= m && Bound(Worlds(cfg, Opening(cfg, ms), schedule, n), k)
    ensures k < |Worlds(cfg, Opening(cfg, ms), schedule, m).handlers|
    ensures var g, h := Worlds(cfg, Opening(cfg, ms), schedule, n).handlers[k], Worlds(cfg, Opening(cfg, ms), schedule, m).handlers[k];
      && h.m == g.m
      && (h.at.Finished? ==> (h.at.outcome.decision.Allow? <==> HasAccess(cfg, h.m) && Addressed(cfg, h.m)))
  {
    StaysBound(cfg, Opening(cfg, ms), schedule, n, m, k);
    AlwaysSound(cfg, ms, schedule, m);
    var u := Worlds(cfg, Opening(cfg, ms), schedule, m);
    assert Sound(cfg, u.threads, u.handlers[k]);
    GateRules(cfg, u.handlers[k].m);
  }

  // ----- where an owner comes from

  /** This handler's message opens the thread, and it was let through. */
  predicate Opener(cfg: Config, h: Handler, key: string, owner: string) {
    h.at.Finished? && h.at.outcome.decision.Allow? && h.m.sender == owner && Opens(cfg, h.m, key)
  }

  ghost predicate OwnerExplained(cfg: Config, w: World, key: string) {
    OwnerOf(w, key) != "" ==> exists i | 0 <= i < |w.handlers| :: Opener(cfg, w.handlers[i], key, OwnerOf(w, key))
  }

  lemma StepExplainsOwner(cfg: Config, w: World, i: nat, key: string)
    requires AllSound(cfg, w) && OwnerExplained(cfg, w, key)
    ensures OwnerExplained(cfg, Step(cfg, w, i), key)
  {
    var next := Step(cfg, w, i);
    var was, now := OwnerOf(w, key), OwnerOf(next, key);
    StepKeeps(cfg, w, i, key);
    if was != "" {
      var k :| 0 <= k < |w.handlers| && Opener(cfg, w.handlers[k], key, was);
      assert next.handlers[k] == w.handlers[k];
    } else if now != "" {
      assert Sound(cfg, w.threads, w.handlers[i]);
      GateRules(cfg, w.handlers[i].m);
      assert Opener(cfg, next.handlers[i], key, now);
    }
  }

  /** Whatever the interleaving, a thread's owner is the sender of an accepted message that satisfied
      access and trigger rules. */
  lemma {:induction false} AlwaysExplained(cfg: Config, ms: seq<Inbound>, schedule: nat -> nat, n: nat, key: string)
    ensures OwnerExplained(cfg, Worlds(cfg, Opening(cfg, ms), schedule, n), key)
  {
    if n > 0 {
      AlwaysExplained(cfg, ms, schedule, n - 1, key);
      AlwaysSound(cfg, ms, schedule, n - 1);
      StepExplainsOwner(cfg, Worlds(cfg, Opening(cfg, ms), schedule, n - 1), schedule(n - 1), key);
    }
  }

  // ----- which intrusions are noticed

  /** The handler has not looked yet, is on its way to interrupt its thread, or has. */
  predicate WillLatch(ts: Threads, h: Handler) {
    var t := Lookup(ts, KeyOf(h.m));
    || h.at in {FirstGet, FirstOwnerSet, FirstOwnerOther, Interrupting}
    || t.interrupted
  }

  lemma StepLatches(cfg: Config, w: World, i: nat, k: nat)
    requires k < |w.handlers| && WillLatch(w.threads, w.handlers[k])
    requires OwnerOf(w, KeyOf(w.handlers[k].m)) !in {"", w.handlers[k].m.sender}
    ensures var next := Step(cfg, w, i);
      |next.handlers| == |w.handlers| && next.handlers[k].m == w.handlers[k].m && WillLatch(next.threads, next.handlers[k])
  {
    StepKeeps(cfg, w, i, KeyOf(w.handlers[k].m));
  }

  /** Whatever the interleaving, a message in an owned thread from another sender that has not been
      past the first look at the owner has interrupted the thread by the time it is decided. */
  lemma {:induction false} IntruderLatches(cfg: Config, w: World, schedule: nat -> nat, n: nat, m: nat, k: nat)
    requires n <= m && var v := Worlds(cfg, w, schedule, n);
      && k < |v.handlers| && WillLatch(v.threads, v.handlers[k])
      && OwnerOf(v, KeyOf(v.handlers[k].m)) !in {"", v.handlers[k].m.sender}
    ensures var v, u := Worlds(cfg, w, schedule, n), Worlds(cfg, w, schedule, m);
      && |u.handlers| == |v.handlers| && u.handlers[k].m == v.handlers[k].m && WillLatch(u.threads, u.handlers[k])
      && (u.handlers[k].at.Finished? ==> Lookup(u.threads, KeyOf(v.handlers[k].m)).interrupted)
  {
    if n < m {
      IntruderLatches(cfg, w, schedule, n, m - 1, k);
      NeverOverwritten(cfg, w, schedule, n, m - 1, KeyOf(Worlds(cfg, w, schedule, n).handlers[k].m));
      StepLatches(cfg, Worlds(cfg, w, schedule, m - 1), schedule(m - 1), k);
    }
  }

  /** At step t, handler i looks whether its thread has an owner, and it has. */
  ghost predicate ReadsOwner(cfg: Config, w: World, schedule: nat -> nat, t: nat, i: nat) {
    var v := Worlds(cfg, w, schedule, t);
    && schedule(t) == i < |v.handlers| && v.handlers[i].at.FirstOwnerSet?
    && OwnerOf(v, KeyOf(v.handlers[i].m)) != ""
  }

  ghost predicate HasRead(cfg: Config, w: World, schedule: nat -> nat, n: nat, i: nat) {
    exists t: nat :: t < n && ReadsOwner(cfg, w, schedule, t, i)
  }

  /** Only a handler that read an owner is on its way to interrupt. */
  ghost predicate ReadersOnly(cfg: Config, w: World, schedule: nat -> nat, n: nat) {
    var v := Worlds(cfg, w, schedule, n);
    forall i | 0 <= i < |v.handlers| && v.handlers[i].at in {FirstOwnerOther, Interrupting} :: HasRead(cfg, w, schedule, n, i)
  }

  lemma HasReadStays(cfg: Config, w: World, schedule: nat -> nat, n: nat, i: nat)
    requires HasRead(cfg, w, schedule, n, i)
    ensures HasRead(cfg, w, schedule, n + 1, i)
  {
    var t: nat :| t < n && ReadsOwner(cfg, w, schedule, t, i);
    assert t < n + 1 && ReadsOwner(cfg, w, schedule, t, i);
  }

  lemma StepReadersOnly(cfg: Config, w: World, schedule: nat -> nat, n: nat)
    requires ReadersOnly(cfg, w, schedule, n)
    ensures ReadersOnly(cfg, w, schedule, n + 1)
  {
    var v, u := Worlds(cfg, w, schedule, n), Worlds(cfg, w, schedule, n + 1);
    forall i | 0 <= i < |u.handlers| && u.handlers[i].at in {FirstOwnerOther, Interrupting}
      ensures HasRead(cfg, w, schedule, n + 1, i)
    {
      if v.handlers[i].at in {FirstOwnerOther, Interrupting} {
        HasReadStays(cfg, w, schedule, n, i);
      } else {
        assert ReadsOwner(cfg, w, schedule, n, i);
      }
    }
  }

  /** Handler i, of another sender than the thread's owner, read the owner. */
  ghost predicate Noticed(cfg: Config, ms: seq<Inbound>, schedule: nat -> nat, n: nat, i: nat, key: string)
    requires i < |ms|
  {
    var w := Opening(cfg, ms);
    && HasRead(cfg, w, schedule, n, i) && StickyIn(cfg, ms[i]) && KeyOf(ms[i]) == key
    && ms[i].sender != OwnerOf(Worlds(cfg, w, schedule, n), key)
  }

  /** Handlers keep their messages, only readers are on their way to interrupt, and an interrupted
      thread has an owner and was noticed. */
  ghost predicate Accounted(cfg: Config, ms: seq<Inbound>, schedule: nat -> nat, n: nat, key: string) {
    var w := Opening(cfg, ms); var v := Worlds(cfg, w, schedule, n);
    && |v.handlers| == |ms| && (forall i | 0 <= i < |ms| :: v.handlers[i].m == ms[i])
    && ReadersOnly(cfg, w, schedule, n)
    && (Lookup(v.threads, key).interrupted ==>
          OwnerOf(v, key) != "" && exists i | 0 <= i < |ms| :: Noticed(cfg, ms, schedule, n, i, key))
  }

  lemma StepAccounted(cfg: Config, ms: seq<Inbound>, schedule: nat -> nat, n: nat, key: string)
    requires Accounted(cfg, ms, schedule, n, key)
    ensures Accounted(cfg, ms, schedule, n + 1, key)
  {
    var w := Opening(cfg, ms);
    var v, u := Worlds(cfg, w, schedule, n), Worlds(cfg, w, schedule, n + 1);
    StepReadersOnly(cfg, w, schedule, n);
    StepKeeps(cfg, v, schedule(n), key);
    AlwaysSound(cfg, ms, schedule, n);
    if Lookup(v.threads, key).interrupted {
      var i :| 0 <= i < |ms| && Noticed(cfg, ms, schedule, n, i, key);
      HasReadStays(cfg, w, schedule, n, i);
      assert Noticed(cfg, ms, schedule, n + 1, i, key);
    } else if Lookup(u.threads, key).interrupted {
      var i := schedule(n);
      assert Sound(cfg, v.threads, v.handlers[i]) && v.handlers[i].at.Interrupting?;
      HasReadStays(cfg, w, schedule, n, i);
      assert Noticed(cfg, ms, schedule, n + 1, i, key);
    }
  }

  lemma AlwaysAccounted(cfg: Config, ms: seq<Inbound>, schedule: nat -> nat, n: nat, key: string)
    ensures Accounted(cfg, ms, schedule, n, key)
  {
    assert Worlds(cfg, Opening(cfg, ms), schedule, 0) == Opening(cfg, ms);
    for i := 0 to n
      invariant Accounted(cfg, ms, schedule, i, key)
    {
      StepAccounted(cfg, ms, schedule, i, key);
    }
  }

  /** Whatever the interleaving, once all handlers have finished a thread is interrupted exactly when a
      handler of another sender than its owner looked for the owner after the claim. */
  lemma InterruptedExactlyWhenNoticed(cfg: Config, ms: seq<Inbound>, schedule: nat -> nat, n: nat, key: string)
    requires var v := Worlds(cfg, Opening(cfg, ms), schedule, n); forall i | 0 <= i < |v.handlers| :: v.handlers[i].at.Finished?
    ensures Lookup(Worlds(cfg, Opening(cfg, ms), schedule, n).threads, key).interrupted
      <==> exists i | 0 <= i < |ms| :: Noticed(cfg, ms, schedule, n, i, key)
  {
    AlwaysAccounted(cfg, ms, schedule, n, key);
    if i :| 0 <= i < |ms| && Noticed(cfg, ms, schedule, n, i, key) {
      var w := Opening(cfg, ms);
      var t: nat :| t < n && ReadsOwner(cfg, w, schedule, t, i);
      AlwaysAccounted(cfg, ms, schedule, t, key);
      NeverOverwritten(cfg, w, schedule, t, n, key);
      IntruderLatches(cfg, w, schedule, t, n, i);
    }
  }

  // ----- an intrusion that is not noticed

  function Alternate(t: nat): nat {
    t % 2
  }

  /** Two handlers take a step each. */
  lemma BothStep(cfg: Config, w: World, n: nat, ts: Threads, g: Handler, h: Handler)
    requires Worlds(cfg, w, Alternate, 2 * n) == World(ts, [g, h])
    ensures var us := ThreadsAfterStep(cfg, ts, g);
      Worlds(cfg, w, Alternate, 2 * n + 2)
      == World(ThreadsAfterStep(cfg, us, h), [g.(at := NextPlace(cfg, ts, g)), h.(at := NextPlace(cfg, us, h))])
  {
    assert Alternate(2 * n) == 0 && Alternate(2 * n + 1) == 1;
    assert Worlds(cfg, w, Alternate, 2 * n + 1) == Step(cfg, World(ts, [g, h]), 0);
  }

  /** Two senders may open a new thread, and their handlers take turns. */
  predicate Race(cfg: Config, a: Inbound, b: Inbound) {
    && StickyIn(cfg, a) && StickyIn(cfg, b) && KeyOf(a) == KeyOf(b)
    && Allowed(cfg, a) && Allowed(cfg, b) && Triggers(cfg, a) && Triggers(cfg, b)
    && a.sender != "" && b.sender != "" && a.sender != b.sender
  }

  lemma OneAfterTheOther(cfg: Config, a: Inbound, b: Inbound)
    requires Race(cfg, a, b)
    ensures SequentiallyInterrupted(cfg, a, b)
  {
  }

  /** Both are let through as if they had claimed the thread, which stays uninterrupted with the first
      as its owner. In either order one after the other, the thread would be interrupted. */
  lemma RaceGoesUnnoticed(cfg: Config, a: Inbound, b: Inbound)
    requires Race(cfg, a, b)
    ensures Worlds(cfg, Opening(cfg, [a, b]), Alternate, 10)
      == World(map[KeyOf(a) := Thread(a.sender, false)],
               [Handler(a, Finished(Outcome(Allow, Claimed))), Handler(b, Finished(Outcome(Allow, Claimed)))])
    ensures SequentiallyInterrupted(cfg, a, b) && SequentiallyInterrupted(cfg, b, a)
  {
    OneAfterTheOther(cfg, a, b);
    OneAfterTheOther(cfg, b, a);
    RaceRuns(cfg, a, b);
  }

  /** A handler that may open its thread and finds nobody there gets as far as claiming it. */
  lemma PlacesUnowned(cfg: Config, m: Inbound)
    requires StickyIn(cfg, m) && Allowed(cfg, m) && Triggers(cfg, m)
    ensures NextPlace(cfg, map[], Handler(m, FirstGet)) == Checking
    ensures NextPlace(cfg, map[], Handler(m, Checking)) == SecondGet
    ensures NextPlace(cfg, map[], Handler(m, SecondGet)) == Unowned
    ensures NextPlace(cfg, map[], Handler(m, Unowned)) == Claiming
  {
  }

  lemma BothLook(cfg: Config, w: World, n: nat, a: Inbound, b: Inbound, p: Place, q: Place)
    requires Worlds(cfg, w, Alternate, 2 * n) == World(map[], [Handler(a, p), Handler(b, p)])
    requires p in {FirstGet, Checking, SecondGet, Unowned}
    requires NextPlace(cfg, map[], Handler(a, p)) == q == NextPlace(cfg, map[], Handler(b, p))
    ensures Worlds(cfg, w, Alternate, 2 * n + 2) == World(map[], [Handler(a, q), Handler(b, q)])
  {
    BothStep(cfg, w, n, map[], Handler(a, p), Handler(b, p));
  }

  lemma BothClaim(cfg: Config, w: World, n: nat, a: Inbound, b: Inbound)
    requires Worlds(cfg, w, Alternate, 2 * n) == World(map[], [Handler(a, Claiming), Handler(b, Claiming)])
    requires KeyOf(a) == KeyOf(b) && a.sender != ""
    ensures Worlds(cfg, w, Alternate, 2 * n + 2)
      == World(map[KeyOf(a) := Thread(a.sender, false)],
               [Handler(a, Finished(Outcome(Allow, Claimed))), Handler(b, Finished(Outcome(Allow, Claimed)))])
  {
    BothStep(cfg, w, n, map[], Handler(a, Claiming), Handler(b, Claiming));
  }

  lemma RaceRuns(cfg: Config, a: Inbound, b: Inbound)
    requires Race(cfg, a, b)
    ensures Worlds(cfg, Opening(cfg, [a, b]), Alternate, 10)
      == World(map[KeyOf(a) := Thread(a.sender, false)],
               [Handler(a, Finished(Outcome(Allow, Claimed))), Handler(b, Finished(Outcome(Allow, Claimed)))])
  {
    var w := Opening(cfg, [a, b]);
    assert w == World(map[], [Handler(a, FirstGet), Handler(b, FirstGet)]) == Worlds(cfg, w, Alternate, 0);
    PlacesUnowned(cfg, a);
    PlacesUnowned(cfg, b);
    BothLook(cfg, w, 0, a, b, FirstGet, Checking);
    BothLook(cfg, w, 1, a, b, Checking, SecondGet);
    BothLook(cfg, w, 2, a, b, SecondGet, Unowned);
    BothLook(cfg, w, 3, a, b, Unowned, Claiming);
    BothClaim(cfg, w, 4, a, b);
  }

  predicate SequentiallyInterrupted(cfg: Config, a: Inbound, b: Inbound) {
    var (ts, first) := Evaluate(cfg, map[], a);
    var (us, second) := Evaluate(cfg, ts, b);
    Lookup(us, KeyOf(b)).interrupted && first.reason.Claimed? && second.reason.StickyTrigger?
  }
}
