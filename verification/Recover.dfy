/**
Pulling trades back from the Core: go/v1/recover.go, and the loop it shares with
ReconcileRepair.
*/
module Recovery {
  import opened Options
  import opened Errors
  import opened Store
  import opened Invariants
  import opened Calendar
  import opened Slots
  import opened Acceptance
  import opened Pulls
  import opened Histories
  import opened Clients

  /** A GetTrades request; `reconcile` widens it from one partner to everything the SDK key traded. */
  datatype TradesRequest = TradesRequest(partner: string, day: string, from: string, to: string, reconcile: bool)

  /** The Core's side of GetTrades: a list, or no answer. */
  type CoreTrades = TradesRequest -> Option<seq<TradeMsg>>

  /** What became of one pulled trade. */
  datatype Turn = NotStored | AlreadySettled | NowSettled | SettleFailed

  datatype Tally = Tally(failed: nat, recovered: nat, settled: nat, settleFailed: nat)

  const ZERO := Tally(0, 0, 0, 0)

  function Count(t: Tally, turn: Turn, inserted: bool): Tally {
    var u := if inserted then t.(recovered := t.recovered + 1) else t;
    match turn
    case NotStored => u.(failed := u.failed + 1)
    case AlreadySettled => u
    case NowSettled => u.(settled := u.settled + 1)
    case SettleFailed => u.(settleFailed := u.settleFailed + 1)
  }

  /** Every trade pulled is in exactly one of four classes, and only those now stored reached the handler. */
  predicate Conserves(t: Tally, already: nat, pulled: nat) {
    t.failed + t.settled + t.settleFailed + already == pulled && t.recovered <= t.settled + t.settleFailed
  }

  /** Messages of the list that cannot be stored. */
  function Refusals(s: State, raw: seq<TradeMsg>): nat {
    if raw == [] then 0 else Refusals(s, raw[..|raw| - 1]) + (if Acceptable(s, raw[|raw| - 1]) then 0 else 1)
  }

  lemma RefusalsSnoc(s: State, front: seq<TradeMsg>, m: TradeMsg)
    ensures Refusals(s, front + [m]) == Refusals(s, front) + (if Acceptable(s, m) then 0 else 1)
  {
    hide Acceptable;
    assert (front + [m])[..|front|] == front;
  }

  // ---------------------------------------------------------------- turns in the run

  /** A turn: what became of the trade, the place in the run it was looked at, and the client's own events. */
  datatype Deed = Deed(turn: Turn, inserted: bool, at: nat, acts: seq<Act>)

  /**
  What the outcome of a turn means in the run. Refused: no event, and the tables could not
  take the message. Otherwise one delivery of the message, the first exactly if the turn
  says inserted; no call of the handler exactly if the trade was settled by then; and else
  one call, that went well exactly if the turn says settled.
  */
  ghost predicate TurnIs(d: Deed, trace: seq<Event>, a: nat, faulty: bool, handler: Handler, m: TradeMsg) {
    && d.at <= |trace|
    && if d.turn.NotStored? then d.acts == [] && !d.inserted && (!faulty ==> !Accepts(StateAt(trace, d.at), m))
       else Delivers(d, trace, a, m) && (d.turn.AlreadySettled? <==> WasSettled(trace, d.at, KeyOf(m)))
            && if d.turn.AlreadySettled? then |d.acts| == 2 && d.acts[1].e == Drop(a)
               else SettleActs(d.acts[1..], trace, a, faulty, handler, KeyOf(m), d.turn.SettleFailed?)
  }

  ghost predicate Delivers(d: Deed, trace: seq<Event>, a: nat, m: TradeMsg) {
    && d.acts != [] && d.at < |trace| && d.acts[0].at == d.at && IsPersist(d.acts[0].e, a, m)
    && Accepts(StateAt(trace, d.at), m) && HandOf(StateAt(trace, d.at), a) == Free
    && (d.inserted <==> FirstDelivery(StateAt(trace, d.at), d.acts[0].e))
  }

  /** One turn per message, in places from `from` on that never run back. */
  ghost predicate Turns(deeds: seq<Deed>, trace: seq<Event>, from: nat, a: nat, faulty: bool, handler: Handler,
                        raw: seq<TradeMsg>) {
    && |deeds| == |raw|
    && (forall i :: 0 <= i < |deeds| ==> TurnIs(deeds[i], trace, a, faulty, handler, raw[i]) && from <= deeds[i].at)
    && forall i, j :: 0 <= i < j < |deeds| ==> deeds[i].at <= deeds[j].at
  }

  /** The counters of a list of turns. */
  function TallyOf(deeds: seq<Deed>): Tally {
    if deeds == [] then ZERO else
    var d := deeds[|deeds| - 1];
    Count(TallyOf(deeds[..|deeds| - 1]), d.turn, d.inserted)
  }

  /** The turns that found their trade settled: the source does not report them. */
  function AlreadyOf(deeds: seq<Deed>): nat {
    if deeds == [] then 0 else
    AlreadyOf(deeds[..|deeds| - 1]) + (if deeds[|deeds| - 1].turn.AlreadySettled? then 1 else 0)
  }

  /** All the client did over some turns. */
  function ActsOf(deeds: seq<Deed>): seq<Act> {
    if deeds == [] then [] else ActsOf(deeds[..|deeds| - 1]) + deeds[|deeds| - 1].acts
  }

  lemma DeedsSnoc(deeds: seq<Deed>, d: Deed)
    ensures TallyOf(deeds + [d]) == Count(TallyOf(deeds), d.turn, d.inserted)
    ensures AlreadyOf(deeds + [d]) == AlreadyOf(deeds) + (if d.turn.AlreadySettled? then 1 else 0)
    ensures ActsOf(deeds + [d]) == ActsOf(deeds) + d.acts
  {
    assert (deeds + [d])[..|deeds|] == deeds;
  }

  lemma {:induction false} DeedsJoin(a: seq<Deed>, b: seq<Deed>)
    ensures TallyOf(a + b) == Plus(TallyOf(a), TallyOf(b))
    ensures AlreadyOf(a + b) == AlreadyOf(a) + AlreadyOf(b) && ActsOf(a + b) == ActsOf(a) + ActsOf(b)
  {
    hide TallyOf, AlreadyOf, ActsOf, Count, Plus;
    if b == [] {
      assert a + b == a;
      NoDeeds();
      PlusNothing(TallyOf(a));
    } else {
      var front, d := b[..|b| - 1], b[|b| - 1];
      assert a + b == (a + front) + [d] && b == front + [d];
      DeedsJoin(a, front);
      DeedsSnoc(a + front, d);
      DeedsSnoc(front, d);
      CountPlus(TallyOf(a), TallyOf(front), d.turn, d.inserted);
      assert ActsOf(a) + ActsOf(front) + d.acts == ActsOf(a) + (ActsOf(front) + d.acts);
    }
  }

  lemma NoDeeds()
    ensures TallyOf([]) == ZERO && AlreadyOf([]) == 0 && ActsOf([]) == []
  {
  }

  lemma PlusNothing(t: Tally)
    ensures Plus(t, ZERO) == t
  {
  }

  lemma CountPlus(t: Tally, u: Tally, turn: Turn, inserted: bool)
    ensures Count(Plus(t, u), turn, inserted) == Plus(t, Count(u, turn, inserted))
  {
  }

  lemma TurnStays(d: Deed, trace: seq<Event>, longer: seq<Event>, a: nat, faulty: bool, handler: Handler, m: TradeMsg)
    requires TurnIs(d, trace, a, faulty, handler, m) && trace <= longer
    ensures TurnIs(d, longer, a, faulty, handler, m)
  {
    StateStays(trace, longer, d.at);
    if d.turn.NowSettled? { StateStays(trace, longer, d.acts[2].at); }
    hide StateAt, Accepts, FirstDelivery, HandOf;
  }

  lemma TurnsStay(deeds: seq<Deed>, trace: seq<Event>, longer: seq<Event>, from: nat, a: nat, faulty: bool,
                  handler: Handler, raw: seq<TradeMsg>)
    requires Turns(deeds, trace, from, a, faulty, handler, raw) && trace <= longer
    ensures Turns(deeds, longer, from, a, faulty, handler, raw)
  {
    hide TurnIs;
    forall i | 0 <= i < |deeds| ensures TurnIs(deeds[i], longer, a, faulty, handler, raw[i]) {
      TurnStays(deeds[i], trace, longer, a, faulty, handler, raw[i]);
    }
  }

  lemma TurnsJoin(x: seq<Deed>, y: seq<Deed>, trace: seq<Event>, longer: seq<Event>, from: nat, a: nat,
                  faulty: bool, handler: Handler, raw: seq<TradeMsg>, more: seq<TradeMsg>)
    requires Turns(x, trace, from, a, faulty, handler, raw) && trace <= longer && from <= |trace|
    requires Turns(y, longer, |trace|, a, faulty, handler, more)
    ensures Turns(x + y, longer, from, a, faulty, handler, raw + more)
  {
    TurnsStay(x, trace, longer, from, a, faulty, handler, raw);
    forall i | 0 <= i < |x| ensures x[i].at <= |trace| { assert TurnIs(x[i], trace, a, faulty, handler, raw[i]); }
    hide TurnIs;
    var all, list := x + y, raw + more;
    forall i | 0 <= i < |all| ensures TurnIs(all[i], longer, a, faulty, handler, list[i]) && from <= all[i].at {
      if i >= |x| { assert all[i] == y[i - |x|] && list[i] == more[i - |x|]; }
    }
    forall i, j | 0 <= i < j < |all| ensures all[i].at <= all[j].at {
      if j < |x| {
        assert all[i] == x[i] && all[j] == x[j];
      } else if i < |x| {
        assert all[i] == x[i] && all[j] == y[j - |x|];
      } else {
        assert all[i] == y[i - |x|] && all[j] == y[j - |x|];
      }
    }
  }

  lemma NoTurns(trace: seq<Event>, from: nat, a: nat, faulty: bool, handler: Handler)
    ensures Turns([], trace, from, a, faulty, handler, []) && TallyOf([]) == ZERO && AlreadyOf([]) == 0
    ensures ActsOf([]) == []
  {
  }

  lemma OneTurn(d: Deed, trace: seq<Event>, from: nat, a: nat, faulty: bool, handler: Handler, m: TradeMsg)
    requires TurnIs(d, trace, a, faulty, handler, m) && from <= d.at
    ensures Turns([d], trace, from, a, faulty, handler, [m])
  {
    hide TurnIs;
  }

  lemma TurnCounts(d: Deed, trace: seq<Event>, a: nat, faulty: bool, handler: Handler, m: TradeMsg)
    requires TurnIs(d, trace, a, faulty, handler, m)
    ensures d.inserted ==> d.turn.NowSettled? || d.turn.SettleFailed?
    ensures d.turn.SettleFailed? ==> handler.Unreliable?
  {
    hide StateAt, Accepts;
  }

  /** Every trade pulled is in exactly one of four classes, and only those now stored reached the handler. */
  lemma {:induction false} TurnsConserve(deeds: seq<Deed>, trace: seq<Event>, from: nat, a: nat, faulty: bool,
                                         handler: Handler, raw: seq<TradeMsg>)
    requires Turns(deeds, trace, from, a, faulty, handler, raw)
    ensures Conserves(TallyOf(deeds), AlreadyOf(deeds), |raw|)
    ensures !handler.Unreliable? ==> TallyOf(deeds).settleFailed == 0
  {
    hide TurnIs, Turns, TallyOf, AlreadyOf, Conserves;
    if deeds == [] {
      NoTurns(trace, from, a, faulty, handler);
      NothingCounts(deeds, trace, from, a, faulty, handler, raw);
    } else {
      var n := |deeds| - 1;
      TurnsFront(deeds, trace, from, a, faulty, handler, raw);
      assert deeds == deeds[..n] + [deeds[n]];
      TurnsConserve(deeds[..n], trace, from, a, faulty, handler, raw[..n]);
      TurnCounts(deeds[n], trace, a, faulty, handler, raw[n]);
      DeedsSnoc(deeds[..n], deeds[n]);
      OneMoreCounts(TallyOf(deeds[..n]), AlreadyOf(deeds[..n]), n, deeds[n].turn, deeds[n].inserted);
    }
  }

  lemma NothingCounts(deeds: seq<Deed>, trace: seq<Event>, from: nat, a: nat, faulty: bool, handler: Handler,
                      raw: seq<TradeMsg>)
    requires deeds == [] && Turns(deeds, trace, from, a, faulty, handler, raw)
    ensures |raw| == 0 && Conserves(ZERO, 0, 0)
  {
    hide TurnIs;
  }

  lemma TurnsFront(deeds: seq<Deed>, trace: seq<Event>, from: nat, a: nat, faulty: bool, handler: Handler,
                   raw: seq<TradeMsg>)
    requires deeds != [] && Turns(deeds, trace, from, a, faulty, handler, raw)
    ensures |raw| == |deeds| && TurnIs(deeds[|deeds| - 1], trace, a, faulty, handler, raw[|deeds| - 1])
    ensures Turns(deeds[..|deeds| - 1], trace, from, a, faulty, handler, raw[..|deeds| - 1])
  {
    hide TurnIs;
  }

  lemma OneMoreCounts(t: Tally, already: nat, n: nat, turn: Turn, inserted: bool)
    requires Conserves(t, already, n) && (inserted ==> turn.NowSettled? || turn.SettleFailed?)
    ensures Conserves(Count(t, turn, inserted), already + (if turn.AlreadySettled? then 1 else 0), n + 1)
    ensures Count(t, turn, inserted).settleFailed == t.settleFailed + (if turn.SettleFailed? then 1 else 0)
  {
  }

  // What moved, told by the client's own events alone.

  /** The event stores a trade, or the handler settled one, or there was none to ask. */
  ghost predicate MovesAt(trace: seq<Event>, j: nat)
    requires j < |trace|
  {
    FirstDelivery(StateAt(trace, j), trace[j]) || (trace[j].CallHandler? && trace[j].ok) || trace[j].Waive?
  }

  ghost predicate OwnMoves(trace: seq<Event>, from: nat, a: nat) {
    exists j :: from <= j < |trace| && ActorOf(trace[j]) == Some(a) && MovesAt(trace, j)
  }

  /** Nothing was stored and nothing settled. */
  predicate Idled(t: Tally) { t.recovered == 0 && t.settled == 0 }

  predicate Works(d: Deed) { d.inserted || d.turn.NowSettled? }

  lemma {:induction false} IdledByTurns(deeds: seq<Deed>)
    ensures Idled(TallyOf(deeds)) <==> forall i :: 0 <= i < |deeds| ==> !Works(deeds[i])
  {
    if deeds != [] {
      var n := |deeds| - 1;
      IdledByTurns(deeds[..n]);
      assert forall i :: 0 <= i < n ==> deeds[..n][i] == deeds[i];
      assert Idled(TallyOf(deeds)) <==> Idled(TallyOf(deeds[..n])) && !Works(deeds[n]);
    }
  }

  lemma {:induction false} WhoseAct(deeds: seq<Deed>, x: Act)
    ensures x in ActsOf(deeds) <==> exists i :: 0 <= i < |deeds| && x in deeds[i].acts
  {
    if deeds != [] {
      var n := |deeds| - 1;
      WhoseAct(deeds[..n], x);
      assert forall i :: 0 <= i < n ==> deeds[..n][i] == deeds[i];
      if x in ActsOf(deeds[..n]) {
        var i :| 0 <= i < n && x in deeds[..n][i].acts;
        assert x in deeds[i].acts;
      }
    }
  }

  /** The turn's own events move something exactly if its outcome says so. */
  lemma TurnWorks(d: Deed, trace: seq<Event>, a: nat, faulty: bool, handler: Handler, m: TradeMsg, x: Act)
    requires TurnIs(d, trace, a, faulty, handler, m) && x in d.acts && x.at < |trace| && trace[x.at] == x.e
    requires MovesAt(trace, x.at)
    ensures Works(d)
  {
    hide StateAt, Accepts, FirstDelivery, HandOf;
    if x == d.acts[0] {
    } else {
      assert x in d.acts[1..];
      NotFirst(trace, x);
    }
  }

  lemma NotFirst(trace: seq<Event>, x: Act)
    requires x.at < |trace| && trace[x.at] == x.e
    ensures FirstDelivery(StateAt(trace, x.at), x.e) ==> x.e.Persist?
  {
  }

  lemma WorkIsThere(d: Deed, trace: seq<Event>, a: nat, faulty: bool, handler: Handler, m: TradeMsg)
    requires TurnIs(d, trace, a, faulty, handler, m) && Works(d)
    requires forall x :: x in d.acts ==> x.at < |trace| && trace[x.at] == x.e
    ensures exists x :: x in d.acts && x.at < |trace| && MovesAt(trace, x.at)
  {
    hide StateAt, Accepts, FirstDelivery, HandOf;
    assert d.acts[0] in d.acts;
    if d.inserted {
      assert MovesAt(trace, d.acts[0].at);
    } else {
      assert d.acts[1] == d.acts[1..][0] && d.acts[1] in d.acts;
      assert MovesAt(trace, d.acts[1].at);
    }
  }

  /** The counters show nothing moved exactly when none of the client's own events since `from` moved anything. */
  lemma IdledIff(deeds: seq<Deed>, trace: seq<Event>, from: nat, a: nat, faulty: bool, handler: Handler,
                 raw: seq<TradeMsg>)
    requires from <= |trace| && Turns(deeds, trace, from, a, faulty, handler, raw)
    requires Acts(trace, a) == Acts(trace[..from], a) + ActsOf(deeds)
    ensures Idled(TallyOf(deeds)) <==> !OwnMoves(trace, from, a)
  {
    hide TurnIs, Works, MovesAt, Acts, ActsOf, TallyOf, Idled;
    IdledByTurns(deeds);
    ActsAre(trace, a);
    ActsSince(trace, from, a);
    assert Acts(trace, a)[|Acts(trace[..from], a)|..] == ActsOf(deeds);
    if OwnMoves(trace, from, a) {
      var j :| from <= j < |trace| && ActorOf(trace[j]) == Some(a) && MovesAt(trace, j);
      var x := Act(j, trace[j]);
      WhoseAct(deeds, x);
      var i :| 0 <= i < |deeds| && x in deeds[i].acts;
      TurnWorks(deeds[i], trace, a, faulty, handler, raw[i], x);
    }
    if i :| 0 <= i < |deeds| && Works(deeds[i]) {
      forall x | x in deeds[i].acts ensures x in ActsOf(deeds) { WhoseAct(deeds, x); }
      WorkIsThere(deeds[i], trace, a, faulty, handler, raw[i]);
      var x :| x in deeds[i].acts && x.at < |trace| && MovesAt(trace, x.at);
    }
  }

  // ---------------------------------------------------------------- the loop

  /** One turn of the loop: store the trade if it is missing, settle it if it is not settled. */
  method PullOne(c: Client, m: TradeMsg, handler: Handler) returns (turn: Turn, inserted: bool, ghost d: Deed)
    requires c.Valid() && c.Idle()
    modifies c`st, c`trace
    ensures c.Onward() && c.Idle() && d.turn == turn && d.inserted == inserted
    ensures TurnIs(d, c.trace, c.me, c.faulty, handler, m) && |old(c.trace)| <= d.at
    ensures c.Mine() == old(c.Mine()) + d.acts
    ensures inserted ==> turn.NowSettled? || turn.SettleFailed?
    ensures turn.SettleFailed? ==> handler.Unreliable?
    ensures !c.shared ==>
              |c.st.calls| == old(|c.st.calls|)
                  + (if !handler.NoHandler? && (turn.NowSettled? || turn.SettleFailed?) then 1 else 0)
    ensures c.Calm() ==> (turn.NotStored? <==> !Accepts(old(c.st), m))
    ensures !c.faulty && Acceptable(old(c.st), m) && RawOf(m) >= 0 ==> Done(c.st, KeyOf(m), handler, false)
    ensures c.Calm() ==> Pulled(old(c.st), c.st, [m], if inserted then 1 else 0)
    ensures c.Calm() ==> SettledKeys(c.st) == SettledKeys(old(c.st)) + (if turn.NowSettled? then {KeyOf(m)} else {})
    ensures c.Calm() && turn.NowSettled? ==> KeyOf(m) !in SettledKeys(old(c.st))
  {
    hide Grows, Bookkeeping, Accepts, Acceptable, RawOf, Pulled, Inv, Step, HandOf, SettledKeys, Acts, StateAt,
         TurnIs, SettleActs, RowAfter, Filed;
    ghost var start, trace := c.st, c.trace;
    var k := KeyOf(m);
    var event, settled;
    ghost var found, act, rest;
    event, inserted, settled, found, act := c.PersistTrade(m);
    if event == null {
      turn, d, inserted := NotStored, Deed(NotStored, false, act.at, []), false;
      RefusedTurn(d, c.trace, c.me, c.faulty, handler, m);
      if c.Calm() { RefusedCalmly(start, m, trace); }
      return;
    }
    ghost var stored, persisted := c.st, c.trace;
    c.Standing();
    HandTellsTruth(stored, c.me);
    var refusal;
    refusal, rest := c.SettleIfDue(handler, event, k, settled);
    turn := if settled then AlreadySettled else if refusal.Some? then SettleFailed else NowSettled;
    d := Deed(turn, inserted, act.at, [act] + rest);
    StateStays(persisted, c.trace, act.at);
    StoredTurn(d, c.trace, c.me, c.faulty, handler, m, act, rest);
    GrowsTrans(start, stored, c.st);
    StillStored(stored, c.st, k);
    if c.Calm() { TurnCalmly(start, stored, c.st, c.me, m, act.e, settled, refusal, trace); }
  }

  /** What one turn leaves when nothing else touches the tables. */
  lemma TurnCalmly(s: State, u: State, v: State, a: nat, m: TradeMsg, e: Event, settled: bool,
                   refusal: Option<string>, trace: seq<Event>)
    requires s == Protocol.After(trace) && HandOf(s, a) == Free && Accepts(s, m) && IsPersist(e, a, m)
    requires u == Step(s, e)
    requires Bookkeeping(u, v) && KeyOf(m) in u.trades
    requires (settled <==> KeyOf(m) in s.trades && s.trades[KeyOf(m)].settled)
    requires v.trades == if settled then u.trades else u.trades[KeyOf(m) := RowAfter(u.trades[KeyOf(m)], refusal)]
    ensures Pulled(s, v, [m], if KeyOf(m) in s.trades then 0 else 1)
    ensures SettledKeys(v) == SettledKeys(s) + (if !settled && refusal.None? then {KeyOf(m)} else {})
    ensures settled <==> KeyOf(m) in SettledKeys(s)
  {
    PersistedCalmly(s, u, a, m, e, trace);
    PersistedSettled(s, u, a, m, e);
    InSettled(s, KeyOf(m));
    hide *;
    if settled { SameSettled(u, v); } else { SettledAfter(u, v, KeyOf(m), refusal); }
    PulledBook(s, u, v, [m], if KeyOf(m) in s.trades then 0 else 1);
  }

  lemma InSettled(s: State, k: TradeKey)
    ensures k in SettledKeys(s) <==> k in s.trades && s.trades[k].settled
  {
  }

  lemma RefusedTurn(d: Deed, trace: seq<Event>, a: nat, faulty: bool, handler: Handler, m: TradeMsg)
    requires d == Deed(NotStored, false, d.at, []) && d.at <= |trace| && (!faulty ==> !Accepts(StateAt(trace, d.at), m))
    ensures TurnIs(d, trace, a, faulty, handler, m)
  {
    hide StateAt, Accepts;
  }

  lemma StoredTurn(d: Deed, trace: seq<Event>, a: nat, faulty: bool, handler: Handler, m: TradeMsg, act: Act,
                   rest: seq<Act>)
    requires d.at == act.at < |trace| && d.acts == [act] + rest && !d.turn.NotStored? && IsPersist(act.e, a, m)
    requires var found := StateAt(trace, act.at);
             Accepts(found, m) && HandOf(found, a) == Free && (d.inserted <==> KeyOf(m) !in found.trades)
    requires d.turn.AlreadySettled? <==> WasSettled(trace, d.at, KeyOf(m))
    requires if d.turn.AlreadySettled? then |rest| == 1 && rest[0].e == Drop(a)
             else SettleActs(rest, trace, a, faulty, handler, KeyOf(m), d.turn.SettleFailed?)
    ensures TurnIs(d, trace, a, faulty, handler, m)
  {
    hide StateAt, Accepts, SettleActs, HandOf;
    assert d.acts[0] == act && d.acts[1..] == rest;
  }

  lemma SameSettled(s: State, u: State)
    requires u.trades == s.trades
    ensures SettledKeys(u) == SettledKeys(s)
  {
  }

  /**
  The account of an undisturbed pull: the table grew by the recovered, the refused failed,
  and as many rows became settled as were counted.
  */
  ghost predicate Accounted(s: State, u: State, raw: seq<TradeMsg>, t: Tally) {
    && Pulled(s, u, raw, t.recovered)
    && (NonNegative(raw) ==> t.failed == Refusals(s, raw))
    && |SettledKeys(u)| == |SettledKeys(s)| + t.settled
  }

  lemma NothingAccounted(s: State)
    ensures Accounted(s, s, [], ZERO)
  {
    BookkeepingRefl(s);
    PulledNothing(s, s);
    hide Pulled;
  }

  lemma AccountThen(s: State, u: State, v: State, front: seq<TradeMsg>, m: TradeMsg, t: Tally, turn: Turn,
                    inserted: bool)
    requires Inv(u) && Accounted(s, u, front, t) && Pulled(u, v, [m], if inserted then 1 else 0)
    requires turn.NotStored? <==> !Accepts(u, m)
    requires SettledKeys(v) == SettledKeys(u) + (if turn.NowSettled? then {KeyOf(m)} else {})
    requires turn.NowSettled? ==> KeyOf(m) !in SettledKeys(u)
    ensures Accounted(s, v, front + [m], Count(t, turn, inserted))
  {
    hide Pulled, Inv, Accepts, Acceptable, RawOf, Refusals, SettledKeys;
    PulledThen(s, u, v, front, [m], t.recovered, if inserted then 1 else 0);
    RefusalsSnoc(s, front, m);
    assert m in front + [m] && forall x :: x in front ==> x in front + [m];
    if RawOf(m) >= 0 { RefusedIff(s, u, m, front, t.recovered); }
  }

  lemma RefusedIff(s: State, u: State, m: TradeMsg, front: seq<TradeMsg>, n: nat)
    requires Pulled(s, u, front, n) && Inv(u) && RawOf(m) >= 0
    ensures Accepts(u, m) <==> Acceptable(s, m)
  {
    hide Acceptable, Accepts, RawOf, NewAreFrom, AllStored, TradesOk, RemainingOk, FlagsOk, SinceOk, OrdersOk, Grows;
    AcceptableKept(s, u, m);
    AcceptsIff(u, m);
  }

  /**
  The loop over a pulled list. The counters are those of its turns. Without failing
  statements every trade that can be stored ends up stored, and settled unless the handler
  may refuse, whatever others do. On an undisturbed database the table grows by exactly the
  recovered trades and exactly the refused ones fail.
  */
  method PullTrades(c: Client, raw: seq<TradeMsg>, handler: Handler) returns (t: Tally, ghost deeds: seq<Deed>)
    requires c.Valid() && c.Idle()
    modifies c`st, c`trace
    ensures c.Onward() && c.Idle()
    ensures Turns(deeds, c.trace, |old(c.trace)|, c.me, c.faulty, handler, raw)
    ensures t == TallyOf(deeds) && c.Mine() == old(c.Mine()) + ActsOf(deeds)
    ensures Conserves(t, AlreadyOf(deeds), |raw|)
    ensures !handler.Unreliable? ==> t.settleFailed == 0
    ensures !c.shared && !handler.NoHandler? ==> |c.st.calls| == old(|c.st.calls|) + t.settled + t.settleFailed
    ensures !c.faulty ==> AllDone(old(c.st), c.st, raw, handler, false)
    ensures c.Calm() ==> Accounted(old(c.st), c.st, raw, t)
  {
    hide Grows, Pulled, Inv, HandOf, Accepts, Acceptable, RawOf, AllDone, Accounted, SettledKeys, Acts, TurnIs,
         Turns, TallyOf, ActsOf, AlreadyOf;
    ghost var start, trace, mine := c.st, c.trace, c.Mine();
    GrowsRefl(start);
    NothingAccounted(start);
    NoneDone(start, handler, false);
    NoTurns(c.trace, |trace|, c.me, c.faulty, handler);
    t, deeds := ZERO, [];
    for i := 0 to |raw|
      invariant c.Onward() && c.Idle()
      invariant Turns(deeds, c.trace, |trace|, c.me, c.faulty, handler, raw[..i])
      invariant t == TallyOf(deeds) && c.Mine() == mine + ActsOf(deeds)
      invariant !c.shared && !handler.NoHandler? ==> |c.st.calls| == old(|c.st.calls|) + t.settled + t.settleFailed
      invariant !c.faulty ==> AllDone(start, c.st, raw[..i], handler, false)
      invariant c.Calm() ==> Accounted(start, c.st, raw[..i], t)
    {
      ghost var before, run := c.st, c.trace;
      c.Standing();
      var turn, inserted;
      ghost var d;
      turn, inserted, d := PullOne(c, raw[i], handler);
      assert raw[..i + 1] == raw[..i] + [raw[i]];
      OneTurn(d, c.trace, |run|, c.me, c.faulty, handler, raw[i]);
      TurnsJoin(deeds, [d], run, c.trace, |trace|, c.me, c.faulty, handler, raw[..i], [raw[i]]);
      DeedsSnoc(deeds, d);
      deeds := deeds + [d];
      if !c.faulty { DoneThen(start, before, c.st, raw[..i], raw[i], handler, false); }
      if c.Calm() { AccountThen(start, before, c.st, raw[..i], raw[i], t, turn, inserted); }
      GrowsTrans(start, before, c.st);
      t := Count(t, turn, inserted);
    }
    assert raw[..|raw|] == raw;
    TurnsConserve(deeds, c.trace, |trace|, c.me, c.faulty, handler, raw);
  }

  // ---------------------------------------------------------------- RecoverTrades

  datatype RecoverParams = RecoverParams(partner: string, dayFrom: string, dayTo: string)

  datatype RecoverResult = RecoverResult(days: seq<string>, coreTrades: nat, tally: Tally)

  /** A whole day of one partner's trades, midnight to midnight. */
  function DayRequest(partner: string, d: Date): TradesRequest
    requires ValidDate(d)
  {
    TradesRequest(partner, DateText(d), DateText(d) + " 00:00:00", DateText(Next(d)) + " 00:00:00", false)
  }

  /** The Core's answer for a day text. */
  function DayAnswer(core: CoreTrades, partner: string, day: string): Option<seq<TradeMsg>> {
    match ParseDate(day) case None => None case Some(d) => core(DayRequest(partner, d))
  }

  /** The lists of several days, one after the other. */
  function Listed(core: CoreTrades, partner: string, days: seq<string>): seq<TradeMsg> {
    if days == [] then [] else
    Listed(core, partner, days[..|days| - 1]) +
    (match DayAnswer(core, partner, days[|days| - 1]) case None => [] case Some(raw) => raw)
  }

  lemma ListedSnoc(core: CoreTrades, partner: string, days: seq<string>, day: string)
    requires DayAnswer(core, partner, day).Some?
    ensures Listed(core, partner, days + [day]) == Listed(core, partner, days) + DayAnswer(core, partner, day).value
  {
    hide DayAnswer;
    assert (days + [day])[..|days|] == days;
  }

  function Plus(t: Tally, u: Tally): Tally {
    Tally(t.failed + u.failed, t.recovered + u.recovered, t.settled + u.settled, t.settleFailed + u.settleFailed)
  }

  /** Two accounts, the second pulled after the first, add up. */
  lemma AccountJoin(s: State, u: State, v: State, a: seq<TradeMsg>, b: seq<TradeMsg>, t: Tally, w: Tally)
    requires Accounted(s, u, a, t) && Accounted(u, v, b, w)
    ensures Accounted(s, v, a + b, Plus(t, w))
  {
    hide Grows, Acceptable, RawOf, NewAreFrom, AllStored, Refusals, SettledKeys;
    PulledThen(s, u, v, a, b, t.recovered, w.recovered);
    RefusalsJoin(s, u, a, b);
    assert forall x :: x in a || x in b ==> x in a + b;
  }

  lemma NoRefusals(s: State)
    ensures Refusals(s, []) == 0
  {
  }

  lemma {:induction false} RefusalsJoin(s: State, u: State, a: seq<TradeMsg>, b: seq<TradeMsg>)
    requires Grows(s, u) && u.orders.Keys == s.orders.Keys
    ensures Refusals(s, a + b) == Refusals(s, a) + Refusals(u, b)
  {
    hide Acceptable, Grows, Refusals;
    if b == [] {
      assert a + b == a;
      NoRefusals(u);
    } else {
      var front, m := b[..|b| - 1], b[|b| - 1];
      RefusalsJoin(s, u, a, front);
      assert a + b == (a + front) + [m] && b == front + [m];
      RefusalsSnoc(s, a + front, m);
      RefusalsSnoc(u, front, m);
      AcceptableKept(s, u, m);
    }
  }

  /** Pulls day after day, oldest first, until one gets no answer; `done` counts the days processed. */
  method PullDays(c: Client, partner: string, days: seq<string>, core: CoreTrades, handler: Handler)
    returns (coreTrades: nat, t: Tally, done: nat, ghost deeds: seq<Deed>)
    requires c.Valid() && c.Idle() && forall i :: 0 <= i < |days| ==> ParseDate(days[i]).Some?
    modifies c`st, c`trace
    ensures c.Onward() && c.Idle()
    ensures done <= |days| && forall i :: 0 <= i < done ==> DayAnswer(core, partner, days[i]).Some?
    ensures done < |days| ==> DayAnswer(core, partner, days[done]).None?
    ensures coreTrades == |Listed(core, partner, days[..done])|
    ensures Turns(deeds, c.trace, |old(c.trace)|, c.me, c.faulty, handler, Listed(core, partner, days[..done]))
    ensures t == TallyOf(deeds) && c.Mine() == old(c.Mine()) + ActsOf(deeds)
    ensures !c.faulty ==> AllDone(old(c.st), c.st, Listed(core, partner, days[..done]), handler, false)
    ensures c.Calm() ==> Accounted(old(c.st), c.st, Listed(core, partner, days[..done]), t)
  {
    hide Grows, Accounted, AllDone, Inv, HandOf, Bookkeeping, ParseDate, DateText, Next, Listed, DayAnswer, Turns,
         TallyOf, AlreadyOf, ActsOf, Acts, Conserves;
    ghost var start, trace, mine := c.st, c.trace, c.Mine();
    GrowsRefl(start);
    NothingAccounted(start);
    NoneDone(start, handler, false);
    NothingListed(core, partner);
    NoTurns(c.trace, |trace|, c.me, c.faulty, handler);
    coreTrades, t, done, deeds := 0, ZERO, 0, [];
    while done < |days|
      invariant c.Onward() && c.Idle() && done <= |days|
      invariant forall i :: 0 <= i < done ==> DayAnswer(core, partner, days[i]).Some?
      invariant coreTrades == |Listed(core, partner, days[..done])|
      invariant Turns(deeds, c.trace, |trace|, c.me, c.faulty, handler, Listed(core, partner, days[..done]))
      invariant t == TallyOf(deeds) && c.Mine() == mine + ActsOf(deeds)
      invariant !c.faulty ==> AllDone(start, c.st, Listed(core, partner, days[..done]), handler, false)
      invariant c.Calm() ==> Accounted(start, c.st, Listed(core, partner, days[..done]), t)
    {
      ghost var before, run := c.st, c.trace;
      var day := days[done];
      var date := ParseDate(day).value;
      var raw := core(TradesRequest(partner, day, day + " 00:00:00", DateText(Next(date)) + " 00:00:00", false));
      AnswerIs(core, partner, day);
      if raw.None? { return; }
      var w;
      ghost var more;
      w, more := PullTrades(c, raw.value, handler);
      assert days[..done + 1] == days[..done] + [day];
      ListedSnoc(core, partner, days[..done], day);
      TurnsJoin(deeds, more, run, c.trace, |trace|, c.me, c.faulty, handler, Listed(core, partner, days[..done]),
                raw.value);
      DeedsJoin(deeds, more);
      deeds := deeds + more;
      if !c.faulty { DoneJoin(start, before, c.st, Listed(core, partner, days[..done]), raw.value, handler, false); }
      if c.Calm() { AccountJoin(start, before, c.st, Listed(core, partner, days[..done]), raw.value, t, w); }
      GrowsTrans(start, before, c.st);
      coreTrades, t, done := coreTrades + |raw.value|, Plus(t, w), done + 1;
    }
  }

  lemma AnswerIs(core: CoreTrades, partner: string, day: string)
    requires ParseDate(day).Some?
    ensures DayAnswer(core, partner, day) ==
              core(TradesRequest(partner, day, day + " 00:00:00", DateText(Next(ParseDate(day).value)) + " 00:00:00",
                  false))
  {
    TextOfParsedDate(day);
    hide ParseDate, DateText, Next;
  }

  lemma NothingListed(core: CoreTrades, partner: string)
    ensures Listed(core, partner, []) == []
  {
  }

  /**
  RecoverTrades: a parameter error touches nothing. Otherwise the result reports exactly
  the `done` days that were processed; it is an error exactly when that is not all.
  */
  method RecoverTrades(c: Client, p: Option<RecoverParams>, core: CoreTrades, handler: Handler)
    returns (res: Option<RecoverResult>, err: Option<SdkError>, ghost done: nat, ghost deeds: seq<Deed>)
    requires c.Valid() && c.Idle()
    modifies c`st, c`trace
    ensures c.Onward() && c.Idle()
    ensures p.None? || p.value.partner == "" ==> res == None && err == Some(PartnerIDRequired)
    ensures p.Some? && p.value.partner != "" && DaysOf(p.value.dayFrom, p.value.dayTo).Err? ==>
              res == None && err == Some(DaysOf(p.value.dayFrom, p.value.dayTo).error)
    ensures res == None ==> c.st == old(c.st) && c.trace == old(c.trace)
    ensures p.Some? && p.value.partner != "" && DaysOf(p.value.dayFrom, p.value.dayTo).Ok? ==>
              var days, partner := DaysOf(p.value.dayFrom, p.value.dayTo).value, p.value.partner;
              res.Some? && res.value.days == days && done <= |days|
              && (forall i :: 0 <= i < done ==> DayAnswer(core, partner, days[i]).Some?)
              && (if done == |days| then err == None
                  else err == Some(CoreFailed) && DayAnswer(core, partner, days[done]).None?)
              && Recovered(res.value, deeds, Listed(core, partner, days[..done]))
              && var raw := Listed(core, partner, days[..done]);
                 Turns(deeds, c.trace, |old(c.trace)|, c.me, c.faulty, handler, raw)
                     && c.Mine() == old(c.Mine()) + ActsOf(deeds)
                 && (!handler.Unreliable? ==> res.value.tally.settleFailed == 0)
                 && (!c.faulty ==> AllDone(old(c.st), c.st, raw, handler, false))
                 && (c.Calm() ==> Accounted(old(c.st), c.st, raw, res.value.tally))
  {
    hide Grows, Accounted, AllDone, HandOf, DaysOf, ParseDate, Listed, Conserves, DayAnswer, Turns, TallyOf,
         AlreadyOf, ActsOf, Acts;
    res, err, done, deeds := None, None, 0, [];
    GrowsRefl(c.st);
    ghost var from := |c.trace|;
    if p.None? || p.value.partner == "" { err := Some(PartnerIDRequired); return; }
    var range := Days(p.value.dayFrom, p.value.dayTo);
    if range.Err? { err := Some(range.error); return; }
    DaysAreConsecutive(p.value.dayFrom, p.value.dayTo);
    var coreTrades, tally, pulled;
    coreTrades, tally, pulled, deeds := PullDays(c, p.value.partner, range.value, core, handler);
    done := pulled;
    res := Some(RecoverResult(range.value, coreTrades, tally));
    TurnsConserve(deeds, c.trace, from, c.me, c.faulty, handler, Listed(core, p.value.partner, range.value[..pulled]));
    if pulled < |range.value| { err := Some(CoreFailed); }
  }

  /** The result reports the turns over a list, each trade in exactly one class. */
  ghost predicate Recovered(r: RecoverResult, deeds: seq<Deed>, raw: seq<TradeMsg>) {
    r.coreTrades == |raw| && r.tally == TallyOf(deeds) && Conserves(r.tally, AlreadyOf(deeds), |raw|)
  }

  /** Recovering the same lists twice in a row stores nothing the second time and changes no order. */
  lemma SecondRecoveryIsIdle(s: State, u: State, v: State, raw: seq<TradeMsg>, t: Tally, w: Tally)
    requires Inv(v) && NonNegative(raw) && Accounted(s, u, raw, t) && Accounted(u, v, raw, w)
    ensures w.recovered == 0 && w.failed == t.failed && v.orders == u.orders && v.trades.Keys == u.trades.Keys
  {
    hide Inv, Pulled, Refusals, NonNegative, SettledKeys;
    RepeatRecoversNothing(s, u, v, raw, t.recovered, w.recovered);
    SameRefusals(s, u, raw, t.recovered);
  }

  lemma SameRefusals(s: State, u: State, raw: seq<TradeMsg>, n: nat)
    requires Pulled(s, u, raw, n)
    ensures Refusals(u, raw) == Refusals(s, raw)
  {
    hide Grows, NewAreFrom, AllStored;
    RefusalsJoin(s, u, [], raw);
    assert [] + raw == raw;
  }
}
