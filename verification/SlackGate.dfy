/** The Slack gate: who may address the bot, and whose thread it is. */
module SlackGate {
  import opened Search
  import opened SlashKeys

  datatype Config = Config(
    threading: bool,
    stickiness: bool,
    allowedTriggers: set<string>,
    allowedSenders: set<string>,
    deniedSenders: set<string>,
    allowedChats: set<string>)

  /** One inbound message; `threadTS` is empty outside threads. */
  datatype Inbound = Inbound(botID: string, sender: string, chat: string, threadTS: string, ts: string,
                             channelType: string, text: string)

  datatype Kind = DM | Mention | Channel

  function KindName(k: Kind): string {
    match k
    case DM => "dm"
    case Mention => "mention"
    case Channel => "channel"
  }

  predicate Contains(s: string, sub: string) {
    Index(s, sub) >= 0
  }

  function Classify(channelType: string, text: string, botID: string): Kind {
    if channelType == "im" then DM
    else if botID != "" && Contains(text, "<@" + botID + ">") then Mention
    else Channel
  }

  predicate AccessAllowed(cfg: Config, sender: string, chat: string) {
    && (cfg.allowedChats == {} || chat in cfg.allowedChats)
    && (cfg.allowedSenders == {} || sender in cfg.allowedSenders)
    && sender !in cfg.deniedSenders
  }

  predicate TriggerAllowed(cfg: Config, k: Kind) {
    cfg.allowedTriggers == {} || KindName(k) in cfg.allowedTriggers
  }

  function ThreadKey(chat: string, ts: string): string {
    Joined(chat, ts)
  }

  // ----- the threads and one message

  datatype Thread = Thread(owner: string, interrupted: bool)

  type Threads = map<string, Thread>

  const UNSEEN := Thread("", false)

  /** A thread without an entry is as one never seen. */
  function Lookup(ts: Threads, key: string): Thread {
    if key in ts then ts[key] else UNSEEN
  }

  datatype Decision = Allow | Drop

  datatype Reason = AccessDenied | NoTrigger | Claimed | StickyNoTrigger | StickyTrigger | OwnerFreeFlow | Plain

  datatype Outcome = Outcome(decision: Decision, reason: Reason)

  predicate Sticky(cfg: Config) {
    cfg.threading && cfg.stickiness
  }

  /** The thread a message is in, or would start. */
  function Anchor(m: Inbound): string {
    if m.threadTS != "" then m.threadTS else m.ts
  }

  function KindOf(m: Inbound): Kind {
    Classify(m.channelType, m.text, m.botID)
  }

  predicate Allowed(cfg: Config, m: Inbound) {
    AccessAllowed(cfg, m.sender, m.chat)
  }

  predicate Triggers(cfg: Config, m: Inbound) {
    TriggerAllowed(cfg, KindOf(m))
  }

  function Claim(t: Thread, sender: string): Thread {
    if t.owner == "" then t.(owner := sender) else t
  }

  /** The first thing an in-thread message does: one from another sender than the owner interrupts. */
  function Latched(ts: Threads, key: string, sender: string): Threads {
    var t := Lookup(ts, key);
    if t.owner != "" && t.owner != sender then ts[key := t.(interrupted := true)] else ts
  }

  /** What a message does to the threads, and whether it is let through. */
  function Evaluate(cfg: Config, ts: Threads, m: Inbound): (Threads, Outcome) {
    if Sticky(cfg) && m.threadTS != "" then
      var key := ThreadKey(m.chat, m.threadTS);
      var latched := Latched(ts, key, m.sender);
      var t := Lookup(latched, key);
      if !Allowed(cfg, m) then (latched, Outcome(Drop, AccessDenied))
      else if t.owner == "" then
        if !Triggers(cfg, m) then (latched, Outcome(Drop, NoTrigger))
        else (latched[key := Claim(t, m.sender)], Outcome(Allow, Claimed))
      else if t.owner != m.sender || t.interrupted then
        if !Triggers(cfg, m) then (latched, Outcome(Drop, StickyNoTrigger))
        else (latched, Outcome(Allow, StickyTrigger))
      else (latched[key := t], Outcome(Allow, OwnerFreeFlow))
    else if !Allowed(cfg, m) then (ts, Outcome(Drop, AccessDenied))
    else if !Triggers(cfg, m) then (ts, Outcome(Drop, NoTrigger))
    else if Sticky(cfg) && Anchor(m) != "" then
      var key := ThreadKey(m.chat, Anchor(m));
      (ts[key := Claim(Lookup(ts, key), m.sender)], Outcome(Allow, Plain))
    else (ts, Outcome(Allow, Plain))
  }

  // ----- the gate as the program runs it

  class ThreadState {
    var owner: string
    var interrupted: bool

    constructor ()
      ensures owner == "" && !interrupted
    {
      owner, interrupted := "", false;
    }
  }

  datatype Change = Interrupt | TakeOver(sender: string) | Touch

  function AfterChange(t: Thread, c: Change): Thread {
    match c
    case Interrupt => t.(interrupted := true)
    case TakeOver(sender) => Claim(t, sender)
    case Touch => t
  }

  class ThreadEngagement {
    var entries: map<string, ThreadState>

    /** No two keys share a state. */
    ghost predicate Valid()
      reads this
    {
      forall k, l | k in entries && l in entries && entries[k] == entries[l] :: k == l
    }

    ghost function View(): Threads
      reads this, entries.Values
    {
      map k | k in entries :: Thread(entries[k].owner, entries[k].interrupted)
    }

    constructor ()
      ensures Valid() && View() == map[] && entries == map[]
    {
      entries := map[];
    }

    method Get(chat: string, ts: string) returns (st: ThreadState?)
      ensures var key := ThreadKey(chat, ts);
        if key in entries then st == entries[key] else st == null
    {
      var key := ThreadKey(chat, ts);
      if key in entries { return entries[key]; }
      return null;
    }

    method Update(chat: string, ts: string, c: Change)
      requires Valid()
      modifies this, entries.Values
      ensures Valid() && fresh(entries.Values - old(entries.Values))
      ensures var key := ThreadKey(chat, ts); View() == old(View()[key := AfterChange(Lookup(View(), key), c)])
    {
      var key := ThreadKey(chat, ts);
      if key !in entries {
        var st := new ThreadState();
        entries := entries[key := st];
      }
      Apply(entries[key], c);
      assert View()[key] == AfterChange(old(Lookup(View(), key)), c);
    }

    method Apply(st: ThreadState, c: Change)
      modifies st
      ensures Thread(st.owner, st.interrupted) == AfterChange(old(Thread(st.owner, st.interrupted)), c)
    {
      match c
      case Interrupt => st.interrupted := true;
      case TakeOver(sender) => if st.owner == "" { st.owner := sender; }
      case Touch =>
    }
  }

  method EvaluateInbound(cfg: Config, te: ThreadEngagement, m: Inbound) returns (o: Outcome)
    requires te.Valid()
    modifies te, te.entries.Values
    ensures te.Valid() && fresh(te.entries.Values - old(te.entries.Values))
    ensures (te.View(), o) == old(Evaluate(cfg, te.View(), m))
  {
    var kind := Classify(m.channelType, m.text, m.botID);
    var sticky := cfg.threading && cfg.stickiness && m.threadTS != "";
    if sticky {
      var st := te.Get(m.chat, m.threadTS);
      if st != null && st.owner != "" && st.owner != m.sender {
        te.Update(m.chat, m.threadTS, Interrupt);
      }
    }
    if !AccessAllowed(cfg, m.sender, m.chat) { return Outcome(Drop, AccessDenied); }
    if sticky {
      var st := te.Get(m.chat, m.threadTS);
      if st == null || st.owner == "" {
        if !TriggerAllowed(cfg, kind) { return Outcome(Drop, NoTrigger); }
        te.Update(m.chat, m.threadTS, TakeOver(m.sender));
        return Outcome(Allow, Claimed);
      } else if st.owner != m.sender || st.interrupted {
        if !TriggerAllowed(cfg, kind) { return Outcome(Drop, StickyNoTrigger); }
        return Outcome(Allow, StickyTrigger);
      }
      te.Update(m.chat, m.threadTS, Touch);
      return Outcome(Allow, OwnerFreeFlow);
    }
    if !TriggerAllowed(cfg, kind) { return Outcome(Drop, NoTrigger); }
    if cfg.threading && cfg.stickiness {
      var anchor := m.threadTS;
      if anchor == "" { anchor := m.ts; }
      if anchor != "" { te.Update(m.chat, anchor, TakeOver(m.sender)); }
    }
    return Outcome(Allow, Plain);
  }
}
