/** The model budget ledger: idempotent reservations under a cap for the run and one for each turn. */
module ReservationLedger {
  import opened SlashKeys

  datatype Cap = Cap(requests: int, output: int)

  const ZERO := Cap(0, 0)

  const TWO_63: int := 0x8000_0000_0000_0000
  const MAX_INT64: int := TWO_63 - 1

  /** A sum of two 64-bit integers wraps around. */
  function Wrap(x: int): int {
    if x > MAX_INT64 then x - 2 * TWO_63 else if x < -TWO_63 then x + 2 * TWO_63 else x
  }

  datatype Call = Call(turnID: string, id: string, digest: string, out: int)

  datatype Answer = Recover | RequestConflict | BudgetExhausted | Accept

  datatype State = State(run: Cap, turn: Cap, usedRun: Cap, usedTurns: map<string, Cap>, reservations: map<string, string>)

  function New(run: Cap, turn: Cap): State {
    State(run, turn, ZERO, map[], map[])
  }

  function Key(c: Call): string {
    Joined(c.turnID, c.id)
  }

  /** A turn's usage; a turn never seen has used nothing. */
  function TurnUse(used: map<string, Cap>, turnID: string): Cap {
    if turnID in used then used[turnID] else ZERO
  }

  function Charge(u: Cap, out: int): Cap {
    Cap(Wrap(u.requests + 1), Wrap(u.output + out))
  }

  predicate Within(u: Cap, cap: Cap) {
    u.requests <= cap.requests && u.output <= cap.output
  }

  function AnswerTo(s: State, c: Call): Answer {
    if Key(c) in s.reservations then
      if s.reservations[Key(c)] == c.digest then Recover else RequestConflict
    else if Within(Charge(s.usedRun, c.out), s.run) && Within(Charge(TurnUse(s.usedTurns, c.turnID), c.out), s.turn) then Accept
    else BudgetExhausted
  }

  function AfterCall(s: State, c: Call): State {
    if AnswerTo(s, c) != Accept then s
    else
      s.(usedRun := Charge(s.usedRun, c.out),
         usedTurns := s.usedTurns[c.turnID := Charge(TurnUse(s.usedTurns, c.turnID), c.out)],
         reservations := s.reservations[Key(c) := c.digest])
  }

  class ModelLedger {
    const run: Cap
    const turn: Cap
    var usedRun: Cap
    var usedTurns: map<string, Cap>
    var reservations: map<string, string>

    constructor (run: Cap, turn: Cap)
      ensures View() == New(run, turn)
    {
      this.run, this.turn := run, turn;
      usedRun, usedTurns, reservations := ZERO, map[], map[];
    }

    ghost function View(): State
      reads this
    {
      State(run, turn, usedRun, usedTurns, reservations)
    }

    method Reserve(turnID: string, id: string, digest: string, out: int) returns (answer: Answer)
      modifies this
      ensures var c := Call(turnID, id, digest, out);
        answer == old(AnswerTo(View(), c)) && View() == old(AfterCall(View(), c))
    {
      var key := turnID + "/" + id;
      if key in reservations {
        if reservations[key] == digest { return Recover; }
        return RequestConflict;
      }
      var u := if turnID in usedTurns then usedTurns[turnID] else ZERO;
      if Wrap(usedRun.requests + 1) > run.requests || Wrap(u.requests + 1) > turn.requests
         || Wrap(usedRun.output + out) > run.output || Wrap(u.output + out) > turn.output {
        return BudgetExhausted;
      }
      reservations := reservations[key := digest];
      usedRun := usedRun.(requests := Wrap(usedRun.requests + 1));
      usedRun := usedRun.(output := Wrap(usedRun.output + out));
      u := u.(requests := Wrap(u.requests + 1));
      u := u.(output := Wrap(u.output + out));
      usedTurns := usedTurns[turnID := u];
      return Accept;
    }
  }

  // ----- sums over turns

  function Plus(u: Cap, v: Cap): Cap {
    Cap(u.requests + v.requests, u.output + v.output)
  }

  ghost function Sum(used: map<string, Cap>): Cap {
    if used == map[] then ZERO else Plus(used[Pick(used)], Sum(used - {Pick(used)}))
  }

  ghost function Pick(used: map<string, Cap>): (t: string)
    requires used != map[]
    ensures t in used
  {
    var t :| t in used;
    t
  }

  lemma {:induction false} SumWithout(used: map<string, Cap>, t: string)
    requires t in used
    ensures Sum(used) == Plus(used[t], Sum(used - {t}))
    decreases used
  {
    var k := Pick(used);
    if k != t {
      var less := used - {k};
      SumWithout(less, t);
      SumWithout(used - {t}, k);
      assert less - {t} == used - {t} - {k};
      assert less[t] == used[t] && (used - {t})[k] == used[k];
    }
  }

  /** Charging one turn adds to the sum what it adds to the turn. */
  lemma SumCharged(used: map<string, Cap>, t: string, u: Cap)
    ensures Plus(Sum(used[t := u]), TurnUse(used, t)) == Plus(Sum(used), u)
  {
    SumWithout(used[t := u], t);
    assert used[t := u] - {t} == used - {t};
    if t in used { SumWithout(used, t); } else { assert used - {t} == used; }
  }

  // ----- every state that calls can reach

  predicate CapFits(cap: Cap) {
    0 <= cap.requests < MAX_INT64 && 0 <= cap.output <= MAX_INT64
  }

  /** An output that no sum with a usage within the caps wraps around. */
  predicate Fits(run: Cap, turn: Cap, out: int) {
    0 <= out <= MAX_INT64 - run.output && out <= MAX_INT64 - turn.output
  }

  predicate Spent(u: Cap, cap: Cap) {
    0 <= u.requests <= cap.requests && 0 <= u.output <= cap.output
  }

  /** Neither cap is exceeded, the run used what its turns used, and one request for each reservation. */
  ghost predicate Balanced(s: State) {
    && CapFits(s.run) && CapFits(s.turn)
    && Spent(s.usedRun, s.run) && (forall t | t in s.usedTurns :: Spent(s.usedTurns[t], s.turn))
    && s.usedRun == Sum(s.usedTurns)
    && s.usedRun.requests == |s.reservations|
  }

  /** A usage within its cap does not wrap. */
  lemma ChargeExact(u: Cap, cap: Cap, out: int)
    requires Spent(u, cap) && CapFits(cap) && 0 <= out <= MAX_INT64 - cap.output
    ensures Charge(u, out) == Plus(u, Cap(1, out))
  {
  }

  lemma OneMoreKey(m: map<string, string>, key: string, digest: string)
    requires key !in m
    ensures |m[key := digest]| == |m| + 1
  {
    assert m[key := digest].Keys == m.Keys + {key};
  }

  lemma AcceptKeepsBalance(s: State, c: Call, u: Cap)
    requires Balanced(s) && Fits(s.run, s.turn, c.out) && AnswerTo(s, c) == Accept && u == TurnUse(s.usedTurns, c.turnID)
    ensures Balanced(AfterCall(s, c))
  {
    assert Spent(u, s.turn);
    ChargeExact(s.usedRun, s.run, c.out);
    ChargeExact(u, s.turn, c.out);
    SumCharged(s.usedTurns, c.turnID, Plus(u, Cap(1, c.out)));
    OneMoreKey(s.reservations, Key(c), c.digest);
  }

  lemma CallKeepsBalance(s: State, c: Call)
    requires Balanced(s) && Fits(s.run, s.turn, c.out)
    ensures Balanced(AfterCall(s, c))
  {
    if AnswerTo(s, c) == Accept { AcceptKeepsBalance(s, c, TurnUse(s.usedTurns, c.turnID)); }
  }

  /** The state after the first n calls. */
  function After(s: State, cs: seq<Call>, n: nat): State
    requires n <= |cs|
    decreases n, 0
  {
    if n == 0 then s else AfterNext(s, cs, n - 1)
  }

  function AfterNext(s: State, cs: seq<Call>, n: nat): State
    requires n < |cs|
    decreases n, 1
  {
    AfterCall(After(s, cs, n), cs[n])
  }

  lemma AfterStep(s: State, cs: seq<Call>, n: nat)
    requires n < |cs|
    ensures After(s, cs, n + 1) == AfterCall(After(s, cs, n), cs[n])
  {
    assert After(s, cs, n + 1) == AfterNext(s, cs, n);
  }

  predicate AllFit(run: Cap, turn: Cap, cs: seq<Call>) {
    forall i | 0 <= i < |cs| :: Fits(run, turn, cs[i].out)
  }

  lemma {:induction false} CapsStay(s: State, cs: seq<Call>, n: nat)
    requires n <= |cs|
    ensures After(s, cs, n).run == s.run && After(s, cs, n).turn == s.turn
  {
    if n > 0 {
      AfterStep(s, cs, n - 1);
      CapsStay(s, cs, n - 1);
    }
  }

  /** Whatever is asked, in every state the caps hold and the books balance. */
  lemma {:induction false} AlwaysBalanced(run: Cap, turn: Cap, cs: seq<Call>, n: nat)
    requires n <= |cs| && CapFits(run) && CapFits(turn) && AllFit(run, turn, cs)
    ensures Balanced(After(New(run, turn), cs, n))
    ensures After(New(run, turn), cs, n).run == run && After(New(run, turn), cs, n).turn == turn
  {
    if n > 0 {
      AfterStep(New(run, turn), cs, n - 1);
      AlwaysBalanced(run, turn, cs, n - 1);
      CapsStay(New(run, turn), cs, n - 1);
      CallKeepsBalance(After(New(run, turn), cs, n - 1), cs[n - 1]);
    }
  }

  // ----- the accepted calls

  predicate Accepts(s: State, cs: seq<Call>, i: nat)
    requires i < |cs|
  {
    AnswerTo(After(s, cs, i), cs[i]) == Accept
  }

  /** The calls accepted among the first n, in order. */
  function Accepted(s: State, cs: seq<Call>, n: nat): seq<Call>
    requires n <= |cs|
  {
    if n == 0 then [] else Accepted(s, cs, n - 1) + if Accepts(s, cs, n - 1) then [cs[n - 1]] else []
  }

  lemma {:induction false} AfterPrefix(s: State, cs: seq<Call>, k: nat, n: nat)
    requires n <= k <= |cs|
    ensures After(s, cs[..k], n) == After(s, cs, n)
  {
    if n > 0 {
      AfterStep(s, cs, n - 1);
      AfterStep(s, cs[..k], n - 1);
      AfterPrefix(s, cs, k, n - 1);
    }
  }

  /** Leaving out every call that was not accepted changes nothing: the same state results. */
  lemma {:induction false} OnlyAcceptedMatter(s: State, cs: seq<Call>, n: nat)
    requires n <= |cs|
    ensures After(s, Accepted(s, cs, n), |Accepted(s, cs, n)|) == After(s, cs, n)
  {
    if n > 0 {
      OnlyAcceptedMatter(s, cs, n - 1);
      AfterStep(s, cs, n - 1);
      var before, now := Accepted(s, cs, n - 1), Accepted(s, cs, n);
      if Accepts(s, cs, n - 1) {
        assert now[..|before|] == before;
        AfterPrefix(s, now, |before|, |before|);
        AfterStep(s, now, |before|);
      } else {
        assert now == before;
      }
    }
  }

  /** What these calls use together: one request each, and their outputs. */
  function Total(cs: seq<Call>): (u: Cap)
    ensures u.requests == |cs|
  {
    if cs == [] then ZERO else Plus(Total(cs[..|cs| - 1]), Cap(1, cs[|cs| - 1].out))
  }

  function OfTurn(cs: seq<Call>, turnID: string): seq<Call> {
    if cs == [] then []
    else OfTurn(cs[..|cs| - 1], turnID) + if cs[|cs| - 1].turnID == turnID then [cs[|cs| - 1]] else []
  }

  lemma TotalStep(cs: seq<Call>, c: Call)
    ensures Total(cs + [c]) == Plus(Total(cs), Cap(1, c.out))
  {
    assert (cs + [c])[..|cs|] == cs;
  }

  lemma OfTurnStep(cs: seq<Call>, c: Call, turnID: string)
    ensures OfTurn(cs + [c], turnID) == if c.turnID == turnID then OfTurn(cs, turnID) + [c] else OfTurn(cs, turnID)
  {
    assert (cs + [c])[..|cs|] == cs;
  }

  lemma TurnCharged(used: map<string, Cap>, turnID: string, u: Cap, t: string)
    ensures TurnUse(used[turnID := u], t) == if t == turnID then u else TurnUse(used, t)
  {
  }

  /** An accepted call adds a request and its output to the run and to its turn. */
  lemma CallUses(s: State, c: Call, t: string)
    requires CapFits(s.run) && CapFits(s.turn) && Fits(s.run, s.turn, c.out) && AnswerTo(s, c) == Accept
    requires Spent(s.usedRun, s.run) && Spent(TurnUse(s.usedTurns, c.turnID), s.turn)
    ensures var next := AfterCall(s, c);
      && next.usedRun == Plus(s.usedRun, Cap(1, c.out))
      && TurnUse(next.usedTurns, t)
         == if t == c.turnID then Plus(TurnUse(s.usedTurns, t), Cap(1, c.out)) else TurnUse(s.usedTurns, t)
  {
    ChargeExact(s.usedRun, s.run, c.out);
    ChargeExact(TurnUse(s.usedTurns, c.turnID), s.turn, c.out);
    TurnCharged(s.usedTurns, c.turnID, Charge(TurnUse(s.usedTurns, c.turnID), c.out), t);
  }

  lemma CallOfRun(run: Cap, turn: Cap, cs: seq<Call>, n: nat)
    requires n < |cs| && CapFits(run) && CapFits(turn) && AllFit(run, turn, cs)
    ensures var s := After(New(run, turn), cs, n);
      && Balanced(s) && Spent(TurnUse(s.usedTurns, cs[n].turnID), s.turn) && Fits(s.run, s.turn, cs[n].out)
      && After(New(run, turn), cs, n + 1) == AfterCall(s, cs[n])
  {
    AfterStep(New(run, turn), cs, n);
    AlwaysBalanced(run, turn, cs, n);
    CapsStay(New(run, turn), cs, n);
  }

  /** Usage is the accepted calls, counted and summed: over the run, and over each turn. */
  lemma {:induction false} UsageIsAccepted(run: Cap, turn: Cap, cs: seq<Call>, n: nat, t: string)
    requires n <= |cs| && CapFits(run) && CapFits(turn) && AllFit(run, turn, cs)
    ensures var s, accepted := After(New(run, turn), cs, n), Accepted(New(run, turn), cs, n);
      s.usedRun == Total(accepted) && TurnUse(s.usedTurns, t) == Total(OfTurn(accepted, t))
  {
    if n > 0 {
      UsageIsAccepted(run, turn, cs, n - 1, t);
      CallOfRun(run, turn, cs, n - 1);
      var before, now := Accepted(New(run, turn), cs, n - 1), Accepted(New(run, turn), cs, n);
      if Accepts(New(run, turn), cs, n - 1) {
        CallUses(After(New(run, turn), cs, n - 1), cs[n - 1], t);
        TotalStep(before, cs[n - 1]);
        OfTurnStep(before, cs[n - 1], t);
        TotalStep(OfTurn(before, t), cs[n - 1]);
        assert now == before + [cs[n - 1]];
      } else {
        assert now == before;
      }
    }
  }

  // ----- idempotence

  /** A key's digest, once reserved, is fixed. */
  lemma {:induction false} DigestFixed(s: State, cs: seq<Call>, n: nat, m: nat, key: string)
    requires n <= m <= |cs| && key in After(s, cs, n).reservations
    ensures key in After(s, cs, m).reservations && After(s, cs, m).reservations[key] == After(s, cs, n).reservations[key]
  {
    if n < m {
      DigestFixed(s, cs, n, m - 1, key);
      AfterStep(s, cs, m - 1);
    }
  }

  /** Call j was accepted under this key. */
  predicate Reserved(s: State, cs: seq<Call>, j: nat, key: string)
    requires j < |cs|
  {
    Accepts(s, cs, j) && Key(cs[j]) == key
  }

  lemma {:induction false} ReservedByAccepted(run: Cap, turn: Cap, cs: seq<Call>, n: nat, key: string, digest: string)
    requires n <= |cs|
    ensures var s := After(New(run, turn), cs, n);
      key in s.reservations && s.reservations[key] == digest
      <==> exists j | 0 <= j < n :: Reserved(New(run, turn), cs, j, key) && cs[j].digest == digest
  {
    if n > 0 {
      ReservedByAccepted(run, turn, cs, n - 1, key, digest);
      ReservedStep(run, turn, cs, n - 1, key);
    }
  }

  lemma ReservedStep(run: Cap, turn: Cap, cs: seq<Call>, n: nat, key: string)
    requires n < |cs|
    ensures var s, next := After(New(run, turn), cs, n), After(New(run, turn), cs, n + 1);
      next.reservations == if Accepts(New(run, turn), cs, n) then s.reservations[Key(cs[n]) := cs[n].digest] else s.reservations
    ensures Reserved(New(run, turn), cs, n, key) ==> key !in After(New(run, turn), cs, n).reservations
  {
    AfterStep(New(run, turn), cs, n);
  }

  /** A repeat is recovered exactly when an earlier call was accepted under its key with its digest,
      and is a conflict exactly when one was with another digest. */
  lemma RepeatsExactly(run: Cap, turn: Cap, cs: seq<Call>, n: nat)
    requires n < |cs|
    ensures var s0 := New(run, turn); var answer := AnswerTo(After(s0, cs, n), cs[n]);
      && (answer == Recover
          <==> exists j | 0 <= j < n :: Reserved(s0, cs, j, Key(cs[n])) && cs[j].digest == cs[n].digest)
      && (answer == RequestConflict
          <==> exists j | 0 <= j < n :: Reserved(s0, cs, j, Key(cs[n])) && cs[j].digest != cs[n].digest)
  {
    var s, key := After(New(run, turn), cs, n), Key(cs[n]);
    ReservedByAccepted(run, turn, cs, n, key, cs[n].digest);
    if key in s.reservations { ReservedByAccepted(run, turn, cs, n, key, s.reservations[key]); }
    if j :| 0 <= j < n && Reserved(New(run, turn), cs, j, key) { ReservedByAccepted(run, turn, cs, n, key, cs[j].digest); }
  }

  // ----- refusals are final

  /** Usage never falls. */
  lemma {:induction false} UsageGrows(run: Cap, turn: Cap, cs: seq<Call>, n: nat, m: nat, t: string)
    requires n <= m <= |cs| && CapFits(run) && CapFits(turn) && AllFit(run, turn, cs)
    ensures var s, later := After(New(run, turn), cs, n), After(New(run, turn), cs, m);
      Within(s.usedRun, later.usedRun) && Within(TurnUse(s.usedTurns, t), TurnUse(later.usedTurns, t))
  {
    if n < m {
      UsageGrows(run, turn, cs, n, m - 1, t);
      CallOfRun(run, turn, cs, m - 1);
      if Accepts(New(run, turn), cs, m - 1) { CallUses(After(New(run, turn), cs, m - 1), cs[m - 1], t); }
    }
  }

  /** From a balanced state, a call under a new key is refused exactly when it would break a cap. */
  lemma RefusalExactly(s: State, c: Call)
    requires Balanced(s) && Fits(s.run, s.turn, c.out) && Key(c) !in s.reservations
    ensures var u := TurnUse(s.usedTurns, c.turnID);
      AnswerTo(s, c) == BudgetExhausted
      <==> || s.usedRun.requests + 1 > s.run.requests || s.usedRun.output + c.out > s.run.output
           || u.requests + 1 > s.turn.requests || u.output + c.out > s.turn.output
  {
    assert Spent(TurnUse(s.usedTurns, c.turnID), s.turn);
  }

  /** A call refused for the budget is never accepted later, nor is any other of its turn that asks for as much. */
  lemma ExhaustedIsFinal(run: Cap, turn: Cap, cs: seq<Call>, n: nat, m: nat)
    requires n <= m < |cs| && CapFits(run) && CapFits(turn) && AllFit(run, turn, cs)
    requires AnswerTo(After(New(run, turn), cs, n), cs[n]) == BudgetExhausted
    requires cs[m].turnID == cs[n].turnID && cs[m].out >= cs[n].out
    ensures AnswerTo(After(New(run, turn), cs, m), cs[m]) != Accept
  {
    UsageGrows(run, turn, cs, n, m, cs[n].turnID);
    CallOfRun(run, turn, cs, n);
    CallOfRun(run, turn, cs, m);
    CapsStay(New(run, turn), cs, n);
    CapsStay(New(run, turn), cs, m);
    RefusalExactly(After(New(run, turn), cs, n), cs[n]);
    if Key(cs[m]) !in After(New(run, turn), cs, m).reservations {
      RefusalExactly(After(New(run, turn), cs, m), cs[m]);
    }
  }

  // ----- where 64 bits are too few

  /** The sum of a usage and an output is in range and over the cap. */
  predicate Over(used: int, out: int, cap: int) {
    cap < used + out <= MAX_INT64
  }

  predicate Overflows(used: int, out: int) {
    used + out > MAX_INT64
  }

  /** From a balanced state, a call is accepted that breaks a cap exactly when its key is new, requests
      are left, some sum overflows, and the other is not over its cap. */
  lemma BreaksCapExactly(s: State, c: Call)
    requires Balanced(s) && 0 <= c.out <= MAX_INT64
    ensures var u := TurnUse(s.usedTurns, c.turnID);
      AnswerTo(s, c) == Accept && (s.usedRun.output + c.out > s.run.output || u.output + c.out > s.turn.output)
      <==> && Key(c) !in s.reservations && s.usedRun.requests < s.run.requests && u.requests < s.turn.requests
           && (Overflows(s.usedRun.output, c.out) || Overflows(u.output, c.out))
           && !Over(s.usedRun.output, c.out, s.run.output) && !Over(u.output, c.out, s.turn.output)
  {
    assert Spent(TurnUse(s.usedTurns, c.turnID), s.turn);
  }

  /** Two calls are enough: after one token, an output of the largest 64-bit integer is accepted. */
  lemma OverflowIsAccepted()
    ensures var cs := [Call("t", "1", "d", 1), Call("t", "2", "d", MAX_INT64)];
      var s := After(New(Cap(5, 10), Cap(5, 10)), cs, 2);
      Accepts(New(Cap(5, 10), Cap(5, 10)), cs, 1) && s.usedRun.output < 0
  {
    var cs := [Call("t", "1", "d", 1), Call("t", "2", "d", MAX_INT64)];
    var s0 := New(Cap(5, 10), Cap(5, 10));
    var s1 := After(s0, cs, 1);
    assert After(s0, cs, 0) == s0 && Key(cs[0]) != Key(cs[1]) by { assert Key(cs[0])[2] == '1' && Key(cs[1])[2] == '2'; }
    assert s1.usedRun == Cap(1, 1) && s1.usedTurns == map["t" := Cap(1, 1)] && s1.reservations == map[Key(cs[0]) := "d"];
  }
}
