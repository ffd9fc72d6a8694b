/**
ReconcileRepair of go/v1/reconcile.go: what it does for an hour when it is alone, and what
it does, and says it did, when other actors are about.
*/
module Repairs {
  import opened Options
  import opened Errors
  import opened Decimals
  import opened Clock
  import opened Store
  import opened Invariants
  import opened Ledger
  import opened Checksums
  import opened Slots
  import opened Hours
  import opened Acceptance
  import opened Pulls
  import opened Histories
  import opened Clients
  import opened Recovery
  import opened Reconciliation

  /** coreTrades and the counters describe the pull; after is the re-check, if one was made. */
  datatype RepairResult = RepairResult(before: ReconcileResult, after: Option<ReconcileResult>, coreTrades: nat,
      tally: Tally)
  {
    predicate Resolved() { before.matched || (after.Some? && after.value.matched) }
  }

  /** The check a repair made last. */
  function Latest(res: RepairResult): ReconcileResult {
    match res.after case Some(check) => check case None => res.before
  }

  /** A Core that holds still: its checksums cover exactly the list it returns. */
  ghost predicate Steady(h1: int -> Hash, h2: string -> Hash, core: CoreSums, request: SumRequest, raw: seq<TradeMsg>) {
    core(request) == Some(Report(h1, h2, CoreRows(raw), true))
        || core(request) == Some(Report(h1, h2, CoreRows(raw), false))
  }

  /** The Core answers every question a repair asks. */
  predicate Answers(p: ReconcileParams, w: Window, early: CoreSums, list: CoreTrades, late: CoreSums) {
    early(SumsFor(p, w)).Some? && list(TradesFor(p, w)).Some? && late(SumsFor(p, w)).Some?
  }

  /** The hour lacks only trades the Core lists, and the Core holds still during the repair. */
  ghost predicate Mendable(s: State, p: ReconcileParams, w: Window, h1: int -> Hash, h2: string -> Hash,
                           early: CoreSums, raw: seq<TradeMsg>, late: CoreSums) {
    && MissingOnly(s, raw, DayOf(p), p.hour)
    && Steady(h1, h2, early, SumsFor(p, w), raw) && Steady(h1, h2, late, SumsFor(p, w), raw)
  }

  /** A check of the Core's own rows matches. */
  lemma SameRowsMatch(r: ReconcileResult, trades: map<TradeKey, TradeRow>, p: ReconcileParams, w: Window,
                      h1: int -> Hash, h2: string -> Hash, core: CoreSums, raw: seq<TradeMsg>)
    requires Checks(r, trades, p, w, h1, h2, core) && Steady(h1, h2, core, SumsFor(p, w), raw)
    requires HourRows(trades, DayOf(p), p.hour) == CoreRows(raw)
    ensures r.matched
  {
    hide HourRows, CoreRows, CompareWith, Report, DayOf, SumsFor;
    EqualSetsMatch(h1, h2, CoreRows(raw), true);
    EqualSetsMatch(h1, h2, CoreRows(raw), false);
  }

  /** A pull that recovered nothing leaves the hour as the first check read it. */
  lemma StillCurrent(s: State, u: State, raw: seq<TradeMsg>, t: Tally, day: int, hour: int)
    requires Accounted(s, u, raw, t) && t.recovered == 0
    ensures HourRows(u.trades, day, hour) == HourRows(s.trades, day, hour)
  {
    hide Pulled, HourRows;
    NothingRecoveredNothingChanged(s, u, raw, day, hour);
  }

  /** When the hour lacks only trades the Core lists, the repair resolves it. */
  lemma RepairResolves(s: State, u: State, p: ReconcileParams, w: Window, h1: int -> Hash, h2: string -> Hash,
                       early: CoreSums, raw: seq<TradeMsg>, late: CoreSums, res: RepairResult)
    requires Inv(u) && Accounted(s, u, raw, res.tally) && Mendable(s, p, w, h1, h2, early, raw, late)
    requires Checks(res.before, s.trades, p, w, h1, h2, early)
    requires if res.after.Some? then Checks(res.after.value, u.trades, p, w, h1, h2, late) else res.tally.recovered == 0
    ensures res.Resolved()
  {
    assert Pulled(s, u, raw, res.tally.recovered);
    assert MissingOnly(s, raw, DayOf(p), p.hour);
    assert Steady(h1, h2, early, SumsFor(p, w), raw) && Steady(h1, h2, late, SumsFor(p, w), raw);
    hide *;
    PullConverges(s, u, raw, res.tally.recovered, DayOf(p), p.hour);
    if res.after.Some? {
      SameRowsMatch(res.after.value, u.trades, p, w, h1, h2, late, raw);
    } else {
      StillCurrent(s, u, raw, res.tally, DayOf(p), p.hour);
      SameRowsMatch(res.before, s.trades, p, w, h1, h2, early, raw);
    }
    Settles(res);
  }

  lemma Settles(res: RepairResult)
    ensures res.before.matched || (res.after.Some? && res.after.value.matched) ==> res.Resolved()
  {
  }

  // ---------------------------------------------------------------- what others did meanwhile

  /** The event in place `j` marks trade `k` as settled. */
  ghost predicate SettlesAt(trace: seq<Event>, j: nat, k: TradeKey)
    requires j < |trace|
  {
    trace[j].MarkSettled? && HandOf(StateAt(trace, j), trace[j].actor) == Paid(k)
  }

  ghost predicate StoredByOther(trace: seq<Event>, from: nat, a: nat, k: TradeKey) {
    exists j :: from <= j < |trace| && ActorOf(trace[j]) != Some(a) && StoresAt(trace, j, k)
  }

  ghost predicate SettledByOther(trace: seq<Event>, from: nat, a: nat, k: TradeKey) {
    exists j :: from <= j < |trace| && ActorOf(trace[j]) != Some(a) && SettlesAt(trace, j, k)
  }

  /** Another actor stored the trade and, unless the handler may have refused it here, another one settled it. */
  ghost predicate Overtaken(trace: seq<Event>, from: nat, a: nat, k: TradeKey, handler: Handler) {
    StoredByOther(trace, from, a, k) && (handler.Unreliable? || SettledByOther(trace, from, a, k))
  }

  /** Some listed trade that was missing then has not been. */
  ghost predicate SomeNotOvertaken(trace: seq<Event>, from: nat, a: nat, raw: seq<TradeMsg>, handler: Handler)
    requires from <= |trace|
  {
    exists m :: m in raw && KeyOf(m) !in StateAt(trace, from).trades && !Overtaken(trace, from, a, KeyOf(m), handler)
  }

  lemma StoringStep(s: State, e: Event, k: TradeKey)
    requires Inv(s) && k !in s.trades && k in Step(s, e).trades
    ensures e.Persist? && KeyOf(e.msg) == k && FirstDelivery(s, e)
  {
    TradesAfter(s, e);
    FirstIsPersist(s, e);
    hide Step, Inv, FirstDelivery;
  }

  /** A trade that has come into the table was first delivered in between. */
  lemma {:induction false} StoredSince(trace: seq<Event>, i: nat, n: nat, k: TradeKey)
    requires i <= n <= |trace| && k !in StateAt(trace, i).trades && k in StateAt(trace, n).trades
    ensures exists j :: i <= j < n && StoresAt(trace, j, k)
    decreases n
  {
    hide StateAt, Step, Inv, FirstDelivery;
    if i < n {
      StateNext(trace, n - 1);
      StatesGrow(trace, n - 1, n - 1);
      if k in StateAt(trace, n - 1).trades {
        StoredSince(trace, i, n - 1, k);
      } else {
        StoringStep(StateAt(trace, n - 1), trace[n - 1], k);
        assert StoresAt(trace, n - 1, k);
      }
    }
  }

  predicate IsSettled(s: State, k: TradeKey) { k in s.trades && s.trades[k].settled }

  lemma DeliverySettlesNothing(s: State, e: Event, k: TradeKey)
    requires TradesOk(s) && SinceOk(s) && RemainingOk(s) && FirstDelivery(s, e) && IsSettled(Step(s, e), k)
    ensures IsSettled(s, k)
  {
    FirstIsPersist(s, e);
    hide *;
    DeliveryHistory(s, e);
    NewRowUnflagged(s, e);
    OnlyNewRow(s, Step(s, e), KeyOf(e.msg), k);
  }

  lemma OnlyNewRow(s: State, u: State, n: TradeKey, k: TradeKey)
    requires u.trades.Keys == s.trades.Keys + {n} && forall j :: j in s.trades ==> u.trades[j] == s.trades[j]
    requires n in u.trades && !u.trades[n].settled && IsSettled(u, k)
    ensures IsSettled(s, k)
  {
  }

  lemma SettlingStep(s: State, e: Event, k: TradeKey)
    requires Inv(s) && !IsSettled(s, k) && IsSettled(Step(s, e), k)
    ensures e.MarkSettled? && HandOf(s, e.actor) == Paid(k)
  {
    InvParts(s);
    hide Inv, TradesOk, SinceOk, RemainingOk, FlagsOk, OrdersOk;
    if FirstDelivery(s, e) {
      DeliverySettlesNothing(s, e, k);
    } else {
      OtherSettling(s, e, k);
    }
  }

  lemma OtherSettling(s: State, e: Event, k: TradeKey)
    requires !FirstDelivery(s, e) && !IsSettled(s, k) && IsSettled(Step(s, e), k)
    ensures e.MarkSettled? && HandOf(s, e.actor) == Paid(k)
  {
    if e.Persist? || OrderEvent(e) || e.Pick? {
      TradesUntouched(s, e);
      hide Step, FirstDelivery;
    }
  }

  lemma TradesUntouched(s: State, e: Event)
    requires !FirstDelivery(s, e) && (e.Persist? || OrderEvent(e) || e.Pick?)
    ensures Step(s, e).trades == s.trades
  {
    hide RowFor, PayFor, Decrement, Fits, Replied, StoredPay;
  }

  /** A trade that has become settled was marked so in between. */
  lemma {:induction false} SettledSince(trace: seq<Event>, i: nat, n: nat, k: TradeKey)
    requires i <= n <= |trace| && !WasSettled(trace, i, k) && WasSettled(trace, n, k)
    ensures exists j :: i <= j < n && SettlesAt(trace, j, k)
    decreases n
  {
    hide StateAt, Step, Inv;
    if i < n {
      StateNext(trace, n - 1);
      StatesGrow(trace, n - 1, n - 1);
      if WasSettled(trace, n - 1, k) {
        SettledSince(trace, i, n - 1, k);
      } else {
        SettlingStep(StateAt(trace, n - 1), trace[n - 1], k);
        assert SettlesAt(trace, n - 1, k);
      }
    }
  }

  // ---------------------------------------------------------------- what the client did meanwhile

  /** The client's own events from place `from` on are those of the turns. */
  ghost predicate OwnAre(trace: seq<Event>, from: nat, a: nat, deeds: seq<Deed>) {
    from <= |trace| && Acts(trace, a) == Acts(trace[..from], a) + ActsOf(deeds)
  }

  /** So each of them belongs to a turn. */
  lemma OwnTurn(trace: seq<Event>, from: nat, a: nat, deeds: seq<Deed>, j: nat)
    requires OwnAre(trace, from, a, deeds) && from <= j < |trace| && ActorOf(trace[j]) == Some(a)
    ensures exists i :: 0 <= i < |deeds| && Act(j, trace[j]) in deeds[i].acts
  {
    hide Acts, ActsOf, ActorOf;
    ActsAre(trace, a);
    ActsSince(trace, from, a);
    assert Acts(trace, a)[|Acts(trace[..from], a)|..] == ActsOf(deeds);
    WhoseAct(deeds, Act(j, trace[j]));
  }

  lemma TurnPersists(d: Deed, trace: seq<Event>, a: nat, faulty: bool, handler: Handler, m: TradeMsg, x: Act)
    requires TurnIs(d, trace, a, faulty, handler, m) && x in d.acts
    ensures x.e.Persist? ==> x.e.msg == m
    ensures x.e.MarkSettled? ==> Works(d)
  {
    hide StateAt, Accepts, FirstDelivery, HandOf;
    if x != d.acts[0] { assert x in d.acts[1..]; }
  }

  /** A client that moved nothing marked nothing as settled either. */
  lemma IdleMarksNothing(trace: seq<Event>, from: nat, a: nat, deeds: seq<Deed>, faulty: bool, handler: Handler,
                         raw: seq<TradeMsg>, j: nat)
    requires OwnAre(trace, from, a, deeds) && Turns(deeds, trace, from, a, faulty, handler, raw)
    requires Idled(TallyOf(deeds))
    requires from <= j < |trace| && trace[j].MarkSettled?
    ensures ActorOf(trace[j]) != Some(a)
  {
    hide TurnIs, Works, OwnAre, TallyOf, Idled;
    if ActorOf(trace[j]) == Some(a) {
      OwnTurn(trace, from, a, deeds, j);
      var i :| 0 <= i < |deeds| && Act(j, trace[j]) in deeds[i].acts;
      TurnPersists(deeds[i], trace, a, faulty, handler, raw[i], Act(j, trace[j]));
      IdledByTurns(deeds);
      assert false;
    }
  }

  /**
  For a trade that was missing at the first check, what decides whether its turn moves
  anything is only what has been stored and settled when its place comes.
  */
  lemma MovesUnlessOvertaken(trace: seq<Event>, mark: nat, d: Deed, a: nat, handler: Handler, m: TradeMsg, day: int,
                             hour: int)
    requires mark <= d.at && TurnIs(d, trace, a, false, handler, m) && mark <= |trace|
    requires Repairable(StateAt(trace, mark), m, day, hour)
    ensures !d.turn.NotStored?
    ensures Works(d) <==>
              !(KeyOf(m) in StateAt(trace, d.at).trades && (WasSettled(trace, d.at, KeyOf(m)) || d.turn.SettleFailed?))
  {
    StillAccepted(trace, mark, d.at, m, day, hour);
    TurnOutcome(d, trace, a, handler, m);
    hide *;
  }

  lemma StillAccepted(trace: seq<Event>, mark: nat, at: nat, m: TradeMsg, day: int, hour: int)
    requires mark <= at <= |trace| && Repairable(StateAt(trace, mark), m, day, hour)
    ensures Accepts(StateAt(trace, at), m)
  {
    hide *;
    StatesGrow(trace, mark, at);
    InvParts(StateAt(trace, at));
    RepairableIs(StateAt(trace, mark), m, day, hour);
    AcceptableLater(StateAt(trace, mark), StateAt(trace, at), m);
    AcceptsIff(StateAt(trace, at), m);
  }

  lemma TurnOutcome(d: Deed, trace: seq<Event>, a: nat, handler: Handler, m: TradeMsg)
    requires TurnIs(d, trace, a, false, handler, m) && Accepts(StateAt(trace, d.at), m)
    ensures !d.turn.NotStored? && (d.turn.AlreadySettled? <==> WasSettled(trace, d.at, KeyOf(m)))
    ensures d.at < |trace| && (d.inserted ==> KeyOf(m) !in StateAt(trace, d.at).trades)
    ensures KeyOf(m) !in StateAt(trace, d.at).trades ==> d.inserted
  {
    hide StateAt, Accepts, SettleActs;
  }

  lemma RepairableIs(s: State, m: TradeMsg, day: int, hour: int)
    requires Repairable(s, m, day, hour)
    ensures Acceptable(s, m) && RawOf(m) >= 0
  {
    hide Acceptable, RawOf, InSlot, SixPlaceText;
  }

  /** When nothing moved, every trade missing at the first check was overtaken by other actors' events. */
  lemma OvertakenByOthers(trace: seq<Event>, mark: nat, a: nat, deeds: seq<Deed>, handler: Handler,
                          raw: seq<TradeMsg>, i: nat, day: int, hour: int)
    requires OwnAre(trace, mark, a, deeds) && Turns(deeds, trace, mark, a, false, handler, raw) && Idled(TallyOf(deeds))
    requires i < |raw| && KeyOf(raw[i]) !in StateAt(trace, mark).trades
    requires Repairable(StateAt(trace, mark), raw[i], day, hour)
    ensures Overtaken(trace, mark, a, KeyOf(raw[i]), handler)
  {
    var d, k := deeds[i], KeyOf(raw[i]);
    TurnFrom(deeds, trace, mark, a, handler, raw, i);
    OwnIdle(trace, mark, a, deeds, handler, raw);
    hide *;
    MovesUnlessOvertaken(trace, mark, d, a, handler, raw[i], day, hour);
    StoredSince(trace, mark, d.at, k);
    var j :| mark <= j < d.at && StoresAt(trace, j, k);
    OtherStores(trace, mark, a, j, k);
    if !handler.Unreliable? {
      SettledSince(trace, mark, d.at, k);
      var n :| mark <= n < d.at && SettlesAt(trace, n, k);
      MarksSettle(trace, n, k);
      IdleMarksNothing(trace, mark, a, deeds, false, handler, raw, n);
      OtherSettles(trace, mark, a, n, k);
    }
    BothOvertake(trace, mark, a, k, handler);
  }

  lemma TurnFrom(deeds: seq<Deed>, trace: seq<Event>, mark: nat, a: nat, handler: Handler, raw: seq<TradeMsg>, i: nat)
    requires Turns(deeds, trace, mark, a, false, handler, raw) && i < |raw| && Idled(TallyOf(deeds))
    ensures i < |deeds| && TurnIs(deeds[i], trace, a, false, handler, raw[i]) && mark <= deeds[i].at <= |trace|
    ensures !Works(deeds[i])
    ensures deeds[i].turn.SettleFailed? ==> handler.Unreliable?
  {
    assert TurnIs(deeds[i], trace, a, false, handler, raw[i]);
    TurnCounts(deeds[i], trace, a, false, handler, raw[i]);
    IdledByTurns(deeds);
    assert deeds[i].at <= |trace|;
    hide TurnIs, TallyOf, Works, Idled;
  }

  lemma OtherStores(trace: seq<Event>, mark: nat, a: nat, j: nat, k: TradeKey)
    requires !OwnMoves(trace, mark, a) && mark <= j < |trace| && StoresAt(trace, j, k)
    ensures StoredByOther(trace, mark, a, k)
  {
    hide StateAt, FirstDelivery, ActorOf;
    assert MovesAt(trace, j);
  }

  lemma OtherSettles(trace: seq<Event>, mark: nat, a: nat, n: nat, k: TradeKey)
    requires mark <= n < |trace| && SettlesAt(trace, n, k) && ActorOf(trace[n]) != Some(a)
    ensures SettledByOther(trace, mark, a, k)
  {
    hide SettlesAt, ActorOf;
  }

  lemma BothOvertake(trace: seq<Event>, mark: nat, a: nat, k: TradeKey, handler: Handler)
    requires StoredByOther(trace, mark, a, k) && (handler.Unreliable? || SettledByOther(trace, mark, a, k))
    ensures Overtaken(trace, mark, a, k, handler)
  {
    hide StoredByOther, SettledByOther;
  }

  /** The event in that place is a settling mark. */
  lemma MarksSettle(trace: seq<Event>, n: nat, k: TradeKey)
    requires n < |trace| && SettlesAt(trace, n, k)
    ensures trace[n].MarkSettled?
  {
  }

  // ---------------------------------------------------------------- rows after the pull

  /** A stretch of a run, as the state it leads to from the state it starts in. */
  lemma StretchRuns(trace: seq<Event>, i: nat, j: nat)
    requires i <= j <= |trace|
    ensures StateAt(trace, j) == Run(StateAt(trace, i), trace[i..j])
  {
    assert trace[..i] + trace[i..j] == trace[..j];
    Append(trace[..i], trace[i..j]);
    hide Run;
  }

  /** After a pull without failing statements the hour's rows are the Core's, whoever stored them. */
  lemma RowsAreCore(trace: seq<Event>, mark: nat, now: nat, raw: seq<TradeMsg>, handler: Handler, day: int, hour: int)
    requires mark <= now <= |trace| && MissingOnly(StateAt(trace, mark), raw, day, hour)
    requires AllDone(StateAt(trace, mark), StateAt(trace, now), raw, handler, false)
    requires OnlyListed(trace[mark..], raw, day, hour)
    ensures HourRows(StateAt(trace, now).trades, day, hour) == CoreRows(raw)
  {
    DoneStores(StateAt(trace, mark), StateAt(trace, now), raw, handler, day, hour);
    assert OnlyListed(trace[mark..now], raw, day, hour) by {
      hide Touches, Copies;
      assert forall e :: e in trace[mark..now] ==> e in trace[mark..];
    }
    hide *;
    StretchRuns(trace, mark, now);
    StatesGrow(trace, mark, now);
    RunFromList(StateAt(trace, mark), trace[mark..now], raw, day, hour);
    HourConverges(StateAt(trace, mark), StateAt(trace, now), raw, day, hour);
  }

  lemma DoneStores(s: State, u: State, raw: seq<TradeMsg>, handler: Handler, day: int, hour: int)
    requires AllDone(s, u, raw, handler, false)
    ensures MissingStored(s, u, raw, day, hour)
  {
    hide Acceptable, RawOf, InSlot, SixPlaceText;
  }

  /** Whatever other actors deliver into the hour over some events carries listed values. */
  ghost predicate OthersListed(evs: seq<Event>, me: nat, raw: seq<TradeMsg>, day: int, hour: int) {
    forall e :: e in evs && e.Persist? && e.actor != me && Touches(e.msg, raw, day, hour) ==> Copies(e.msg, raw)
  }

  /** The client itself persists nothing but the list. */
  lemma AllListed(trace: seq<Event>, mark: nat, a: nat, deeds: seq<Deed>, faulty: bool, handler: Handler,
                  raw: seq<TradeMsg>, day: int, hour: int)
    requires mark <= |trace| && OwnAre(trace, mark, a, deeds) && Turns(deeds, trace, mark, a, faulty, handler, raw)
    requires OthersListed(trace[mark..], a, raw, day, hour)
    ensures OnlyListed(trace[mark..], raw, day, hour)
  {
    hide Touches, SameTrade, OwnAre, TurnIs;
    var rest := trace[mark..];
    forall e | e in rest && e.Persist? && Touches(e.msg, raw, day, hour) ensures Copies(e.msg, raw) {
      if e.actor == a {
        var j :| 0 <= j < |rest| && rest[j] == e;
        assert trace[mark + j] == e;
        OwnTurn(trace, mark, a, deeds, mark + j);
        var i :| 0 <= i < |deeds| && Act(mark + j, e) in deeds[i].acts;
        TurnPersists(deeds[i], trace, a, faulty, handler, raw[i], Act(mark + j, e));
        ItselfCopies(e.msg, raw);
      }
    }
  }

  lemma ItselfCopies(m: TradeMsg, raw: seq<TradeMsg>)
    requires m in raw
    ensures Copies(m, raw)
  {
    hide Parse;
    assert SameTrade(m, m);
  }

  // ---------------------------------------------------------------- what the result says

  /**
  A repair that went as far as pulling the list: the first check in place `mark`, the
  turns, the re-check in place `again`.
  */
  ghost predicate Course(trace: seq<Event>, mark: nat, again: nat, a: nat, deeds: seq<Deed>, handler: Handler,
                         raw: seq<TradeMsg>, p: ReconcileParams, w: Window, h1: int -> Hash, h2: string -> Hash,
                         late: CoreSums, res: RepairResult) {
    && OwnAre(trace, mark, a, deeds) && Turns(deeds, trace, mark, a, false, handler, raw)
    && AllDone(StateAt(trace, mark), StateAt(trace, |trace|), raw, handler, false)
    && res.tally == TallyOf(deeds) && !res.before.matched && (res.after.None? <==> Idled(res.tally))
    && (res.after.Some? ==>
          mark <= again <= |trace| && AllDone(StateAt(trace, mark), StateAt(trace, again), raw, handler, false)
          && Checks(res.after.value, StateAt(trace, again).trades, p, w, h1, h2, late))
  }

  /**
  Without failing statements, a repair of an hour that lacked only listed trades ends with
  the Core's rows, and reports the hour resolved exactly when one of the client's own events
  since the first check still stored or settled something. It does so whenever some trade
  missing at that check was not overtaken by other actors' events.
  */
  lemma ResolvesUnlessOvertaken(trace: seq<Event>, mark: nat, again: nat, a: nat, deeds: seq<Deed>,
                                handler: Handler, raw: seq<TradeMsg>, p: ReconcileParams, w: Window,
                                h1: int -> Hash, h2: string -> Hash, early: CoreSums, late: CoreSums,
                                res: RepairResult)
    requires Course(trace, mark, again, a, deeds, handler, raw, p, w, h1, h2, late, res)
    requires Mendable(StateAt(trace, mark), p, w, h1, h2, early, raw, late)
    requires OthersListed(trace[mark..], a, raw, DayOf(p), p.hour)
    ensures HourRows(StateAt(trace, |trace|).trades, DayOf(p), p.hour) == CoreRows(raw)
    ensures res.Resolved() <==> OwnMoves(trace, mark, a)
    ensures SomeNotOvertaken(trace, mark, a, raw, handler) ==> res.Resolved()
  {
    var day, hour := DayOf(p), p.hour;
    assert MissingOnly(StateAt(trace, mark), raw, day, hour) && Steady(h1, h2, late, SumsFor(p, w), raw);
    hide OnlyListed, OthersListed, MissingOnly, Steady, HourRows, CoreRows, AllDone, Checks, DayOf, StateAt,
         SumsFor, Mendable, Turns, OwnAre, TallyOf, Idled, OwnMoves, Overtaken;
    AllListed(trace, mark, a, deeds, false, handler, raw, day, hour);
    OwnIdle(trace, mark, a, deeds, handler, raw);
    RowsAreCore(trace, mark, |trace|, raw, handler, day, hour);
    if res.after.Some? {
      RowsAreCore(trace, mark, again, raw, handler, day, hour);
      SameRowsMatch(res.after.value, StateAt(trace, again).trades, p, w, h1, h2, late, raw);
    }
    if m :| m in raw && KeyOf(m) !in StateAt(trace, mark).trades && !Overtaken(trace, mark, a, KeyOf(m), handler) {
      if res.after.None? { AllOvertaken(trace, mark, a, deeds, handler, raw, day, hour, m); }
    }
  }

  lemma OwnIdle(trace: seq<Event>, mark: nat, a: nat, deeds: seq<Deed>, handler: Handler, raw: seq<TradeMsg>)
    requires OwnAre(trace, mark, a, deeds) && Turns(deeds, trace, mark, a, false, handler, raw)
    ensures Idled(TallyOf(deeds)) <==> !OwnMoves(trace, mark, a)
  {
    hide Turns, OwnMoves, Idled, TallyOf, ActsOf, Acts;
    IdledIff(deeds, trace, mark, a, false, handler, raw);
  }

  lemma AllOvertaken(trace: seq<Event>, mark: nat, a: nat, deeds: seq<Deed>, handler: Handler, raw: seq<TradeMsg>,
                     day: int, hour: int, m: TradeMsg)
    requires OwnAre(trace, mark, a, deeds) && Turns(deeds, trace, mark, a, false, handler, raw) && Idled(TallyOf(deeds))
    requires MissingOnly(StateAt(trace, mark), raw, day, hour) && m in raw && KeyOf(m) !in StateAt(trace, mark).trades
    ensures Overtaken(trace, mark, a, KeyOf(m), handler)
  {
    assert Repairable(StateAt(trace, mark), m, day, hour) by {
      hide Repairable, StateAt, CoreTuple, TupleOf, InHour, Turns, OwnAre, TallyOf, Idled;
    }
    var i :| 0 <= i < |raw| && raw[i] == m;
    hide *;
    OvertakenByOthers(trace, mark, a, deeds, handler, raw, i, day, hour);
  }

  // ---------------------------------------------------------------- ReconcileRepair

  /** What the result of a repair reports of the run. */
  ghost predicate Accounts(trace: seq<Event>, mark: nat, a: nat, faulty: bool, p: ReconcileParams, w: Window,
                           h1: int -> Hash, h2: string -> Hash, early: CoreSums, list: CoreTrades, handler: Handler,
                           deeds: seq<Deed>, res: RepairResult, err: Option<SdkError>)
    requires mark <= |trace|
  {
    var raw := list(TradesFor(p, w));
    && Checks(res.before, StateAt(trace, mark).trades, p, w, h1, h2, early)
    && (res.Resolved() <==> Latest(res).matched)
    && res.tally == TallyOf(deeds) && Conserves(res.tally, AlreadyOf(deeds), res.coreTrades)
    && if res.before.matched then err == None && res.after == None && res.coreTrades == 0 && deeds == []
       else if raw.None? then err == Some(CoreFailed) && res.after == None && res.coreTrades == 0 && deeds == []
       else
         && res.coreTrades == |raw.value| && Turns(deeds, trace, mark, a, faulty, handler, raw.value)
         && (err == None ==> (res.after.None? <==> Idled(res.tally)))
         && (!faulty ==> AllDone(StateAt(trace, mark), StateAt(trace, |trace|), raw.value, handler, false))
  }

  /** The hour as it stands compares equal with what a Core answers. */
  ghost predicate MatchesNow(u: State, p: ReconcileParams, w: Window, h1: int -> Hash, h2: string -> Hash,
                             core: CoreSums) {
    core(SumsFor(p, w)).Some?
    && CompareWith(h1, h2, HourRows(u.trades, DayOf(p), p.hour), core(SumsFor(p, w)).value).matched
  }

  /** A check that read the hour as it stands says so. */
  lemma CheckMatches(r: ReconcileResult, s: State, u: State, p: ReconcileParams, w: Window, h1: int -> Hash,
                     h2: string -> Hash, core: CoreSums)
    requires Checks(r, s.trades, p, w, h1, h2, core)
    requires HourRows(u.trades, DayOf(p), p.hour) == HourRows(s.trades, DayOf(p), p.hour)
    ensures r.matched <==> MatchesNow(u, p, w, h1, h2, core)
  {
    hide HourRows, CompareWith, DayOf, SumsFor;
  }

  /** What it says besides when the client is alone and no statement fails. */
  ghost predicate Undisturbed(s: State, u: State, p: ReconcileParams, w: Window, h1: int -> Hash,
                              h2: string -> Hash, early: CoreSums, list: CoreTrades, late: CoreSums,
                              res: RepairResult, err: Option<SdkError>) {
    var raw := list(TradesFor(p, w));
    && (!res.before.matched && raw.Some? ==> Accounted(s, u, raw.value, res.tally))
    && (res.after.Some? ==> Checks(res.after.value, u.trades, p, w, h1, h2, late))
    && (err == None && res.after.None? ==> HourRows(u.trades, DayOf(p), p.hour) == HourRows(s.trades, DayOf(p), p.hour))
    && (err == None ==> (res.Resolved() <==> MatchesNow(u, p, w, h1, h2, if res.after.Some? then late else early)))
    && (Answers(p, w, early, list, late) && Mendable(s, p, w, h1, h2, early, raw.value, late) ==> res.Resolved())
  }

  /** The second half of a repair: pull the list, and check again unless nothing moved. */
  method PullAndRecheck(c: Client, p: ReconcileParams, h1: int -> Hash, h2: string -> Hash, raw: seq<TradeMsg>,
                        late: CoreSums, handler: Handler)
    returns (tally: Tally, after: Result<Option<ReconcileResult>, SdkError>, ghost deeds: seq<Deed>, ghost again: nat)
    requires c.Valid() && c.Idle() && Scope(Some(p)).Ok?
    modifies c`st, c`trace, c`recs
    ensures c.Onward() && c.Idle() && Sticky(old(c.recs), c.recs)
    ensures Turns(deeds, c.trace, |old(c.trace)|, c.me, c.faulty, handler, raw)
    ensures tally == TallyOf(deeds) && c.Mine() == old(c.Mine()) + ActsOf(deeds)
    ensures Conserves(tally, AlreadyOf(deeds), |raw|) && (after == Ok(None) <==> Idled(tally))
    ensures !c.faulty ==> AllDone(old(c.st), c.st, raw, handler, false)
    ensures !c.faulty && late(SumsFor(p, Scope(Some(p)).value)).Some? ==> after.Ok?
    ensures after.Ok? && after.value.Some? ==>
              |old(c.trace)| <= again <= |c.trace|
              && Checks(after.value.value, StateAt(c.trace, again).trades, p, Scope(Some(p)).value, h1, h2, late)
              && (!c.faulty ==> AllDone(old(c.st), StateAt(c.trace, again), raw, handler, false))
              && (!c.shared ==> StateAt(c.trace, again) == c.st)
    ensures c.Calm() ==> Accounted(old(c.st), c.st, raw, tally)
  {
    hide Grows, Scope, HandOf, Checks, Accounted, AllDone, SumsFor, StateAt, Conserves, Acts, Turns, TallyOf,
         AlreadyOf, ActsOf;
    ghost var start, trace := c.st, c.trace;
    tally, deeds := PullTrades(c, raw, handler);
    after, again := Ok(None), 0;
    if tally.recovered == 0 && tally.settled == 0 { return; }
    ghost var pulled, run, reread := c.st, c.trace, c.st;
    var r;
    r, reread, again := Reconcile(c, Some(p), h1, h2, late);
    TurnsStay(deeds, run, c.trace, |trace|, c.me, c.faulty, handler, raw);
    GrowsRefl(start);
    DoneBetween(start, start, pulled, c.st, raw, handler, false);
    DoneBetween(start, start, pulled, reread, raw, handler, false);
    GrowsTrans(start, pulled, c.st);
    after := match r case Err(e) => Err(e) case Ok(v) => Ok(Some(v));
  }

  /** A repair from the first, mismatched check on; `mark` is the place that check read. */
  method MendHour(c: Client, p: ReconcileParams, w: Window, h1: int -> Hash, h2: string -> Hash, early: CoreSums,
                  list: CoreTrades, late: CoreSums, handler: Handler, before: ReconcileResult, ghost mark: nat)
    returns (res: RepairResult, err: Option<SdkError>, ghost deeds: seq<Deed>)
    requires c.Valid() && c.Idle() && Scope(Some(p)) == Ok(w) && list(TradesFor(p, w)).Some? && !before.matched
    requires mark <= |c.trace| && Grows(StateAt(c.trace, mark), c.st) && c.Mine() == Acts(c.trace[..mark], c.me)
    requires Checks(before, StateAt(c.trace, mark).trades, p, w, h1, h2, early)
    requires !c.shared ==> StateAt(c.trace, mark) == c.st
    modifies c`st, c`trace, c`recs
    ensures c.Onward() && c.Idle() && Sticky(old(c.recs), c.recs)
    ensures c.Mine() == old(c.Mine()) + ActsOf(deeds) && old(c.Mine()) == Acts(c.trace[..mark], c.me)
    ensures StateAt(c.trace, mark) == old(StateAt(c.trace, mark))
    ensures Accounts(c.trace, mark, c.me, c.faulty, p, w, h1, h2, early, list, handler, deeds, res, err)
    ensures !c.faulty && Answers(p, w, early, list, late) ==>
              err == None && Reported(c.trace, mark, c.me, p, w, h1, h2, early, list, late, handler, res)
    ensures c.Calm() ==> Undisturbed(old(c.st), c.st, p, w, h1, h2, early, list, late, res, err)
    ensures res.before == before
  {
    hide Grows, Scope, HandOf, Checks, Accounted, AllDone, SumsFor, TradesFor, DayOf, HourRows, Mendable, StateAt,
         Conserves, OthersListed, CoreRows, Idled, Acts, Turns, TallyOf, AlreadyOf, ActsOf, Reported, OwnMoves,
         Overtaken, Accounts, Undisturbed;
    ghost var checked, trace, read := c.st, c.trace, StateAt(c.trace, mark);
    var raw := list(TradesFor(p, w)).value;
    var tally, after;
    ghost var again;
    tally, after, deeds, again := PullAndRecheck(c, p, h1, h2, raw, late, handler);
    assert c.trace[..mark] == trace[..mark];
    StateStays(trace, c.trace, mark);
    StateNow(c.trace);
    TurnsFrom(deeds, c.trace, mark, |trace|, c.me, c.faulty, handler, raw);
    GrowsRefl(c.st);
    DoneBetween(read, checked, c.st, c.st, raw, handler, false);
    res := RepairResult(before, if after.Ok? then after.value else None, |raw|, tally);
    err := if after.Err? then Some(after.error) else None;
    WasPulled(c.trace, mark, c.me, c.faulty, p, w, h1, h2, early, list, handler, deeds, res, err);
    ConcludeCalm(c, checked, p, w, h1, h2, early, list, late, res, err);
    if after.Err? { return; }
    if after.value.Some? {
      GrowsRefl(StateAt(c.trace, again));
      DoneBetween(read, checked, StateAt(c.trace, again), StateAt(c.trace, again), raw, handler, false);
    }
    ConcludeLive(c, mark, again, deeds, handler, p, w, h1, h2, early, list, late, res);
  }

  /**
  ReconcileRepair: check, and on a mismatch pull the hour and check again unless nothing
  moved. `early` and `late` are the Core's checksums at the two checks, `mark` the place in
  the run the first one read, and `deeds` the turns of the pull. With other actors about, an
  hour that lacks only listed trades ends with the Core's rows, but is reported resolved only
  if it matched at first or an event of this client still moved something.
  */
  method ReconcileRepair(c: Client, p: Option<ReconcileParams>, h1: int -> Hash, h2: string -> Hash,
                         early: CoreSums, list: CoreTrades, late: CoreSums, handler: Handler)
    returns (res: Option<RepairResult>, err: Option<SdkError>, ghost mark: nat, ghost deeds: seq<Deed>)
    requires c.Valid() && c.Idle()
    modifies c`st, c`trace, c`recs
    ensures c.Onward() && c.Idle() && Sticky(old(c.recs), c.recs)
    ensures |old(c.trace)| <= mark <= |c.trace|
    ensures c.Mine() == old(c.Mine()) + ActsOf(deeds) && old(c.Mine()) == Acts(c.trace[..mark], c.me)
    ensures Scope(p).Err? ==> res == None && err == Some(Scope(p).error)
    ensures res == None ==> err.Some? && deeds == [] && (!c.shared ==> c.st == old(c.st))
    ensures res.Some? ==>
              p.Some? && Scope(p).Ok? && (!c.shared ==> StateAt(c.trace, mark) == old(c.st))
              && Accounts(c.trace, mark, c.me, c.faulty, p.value, Scope(p).value, h1, h2, early, list, handler,
                  deeds, res.value, err)
    ensures res.Some? && res.value.before.matched ==> !c.shared ==> c.st == old(c.st)
    ensures !c.faulty && Scope(p).Ok? && Answers(p.value, Scope(p).value, early, list, late) ==>
              res.Some? && err == None
              && Reported(c.trace, mark, c.me, p.value, Scope(p).value, h1, h2, early, list, late, handler, res.value)
    ensures c.Calm() && res.Some? ==>
              Undisturbed(old(c.st), c.st, p.value, Scope(p).value, h1, h2, early, list, late, res.value, err)
  {
    hide Grows, Scope, HandOf, Checks, Accounted, AllDone, SumsFor, TradesFor, DayOf, HourRows, Mendable, StateAt,
         Conserves, OthersListed, CoreRows, Idled, Acts, Turns, TallyOf, AlreadyOf, ActsOf, Reported, OwnMoves,
         Overtaken, Accounts, Undisturbed;
    res, err, deeds := None, None, [];
    ghost var start := c.st;
    var before;
    ghost var read;
    before, read, mark := Reconcile(c, p, h1, h2, early);
    NoTurns(c.trace, mark, c.me, c.faulty, handler);
    GrowsTrans(start, read, c.st);
    if before.Err? { err := Some(before.error); return; }
    res := Some(RepairResult(before.value, None, 0, ZERO));
    NothingConserved();
    var w := Scope(p).value;
    var raw := list(TradesFor(p.value, w));
    if before.value.matched {
      NotPulled(c.trace, mark, c.me, c.faulty, p.value, w, h1, h2, early, list, late, handler, start, c.st, res.value,
                None);
      if Answers(p.value, Scope(p).value, early, list, late) {
        MatchedAtOnce(c.trace, mark, c.me, p.value, Scope(p).value, h1, h2, early, list, late, handler, res.value);
      }
      return;
    }
    if raw.None? {
      err := Some(CoreFailed);
      NotPulled(c.trace, mark, c.me, c.faulty, p.value, w, h1, h2, early, list, late, handler, start, c.st, res.value,
                err);
      return;
    }
    ghost var checked := c.st;
    var mended;
    mended, err, deeds := MendHour(c, p.value, w, h1, h2, early, list, late, handler, before.value, mark);
    res := Some(mended);
    GrowsTrans(start, checked, c.st);
  }

  /**
  What the result of a repair says when no statement fails, the Core answers and holds
  still, and others deliver into the hour only what is listed.
  */
  ghost predicate Reported(trace: seq<Event>, mark: nat, a: nat, p: ReconcileParams, w: Window, h1: int -> Hash,
                           h2: string -> Hash, early: CoreSums, list: CoreTrades, late: CoreSums, handler: Handler,
                           res: RepairResult)
    requires Answers(p, w, early, list, late) && mark <= |trace|
  {
    var raw, day, hour := list(TradesFor(p, w)).value, DayOf(p), p.hour;
    Mendable(StateAt(trace, mark), p, w, h1, h2, early, raw, late) && OthersListed(trace[mark..], a, raw, day, hour) ==>
      && (!res.before.matched ==> HourRows(StateAt(trace, |trace|).trades, day, hour) == CoreRows(raw))
      && (res.Resolved() <==> res.before.matched || OwnMoves(trace, mark, a))
      && (SomeNotOvertaken(trace, mark, a, raw, handler) ==> res.Resolved())
  }

  lemma MatchedAtOnce(trace: seq<Event>, mark: nat, a: nat, p: ReconcileParams, w: Window, h1: int -> Hash,
                      h2: string -> Hash, early: CoreSums, list: CoreTrades, late: CoreSums, handler: Handler,
                      res: RepairResult)
    requires Answers(p, w, early, list, late) && mark <= |trace| && res.before.matched
    ensures Reported(trace, mark, a, p, w, h1, h2, early, list, late, handler, res)
  {
    hide Mendable, OthersListed, StateAt, HourRows, CoreRows, OwnMoves, Overtaken, TradesFor, DayOf;
  }

  lemma NothingConserved()
    ensures Conserves(ZERO, 0, 0) && Idled(ZERO)
  {
  }

  lemma TurnsFrom(deeds: seq<Deed>, trace: seq<Event>, mark: nat, from: nat, a: nat, faulty: bool, handler: Handler,
                  raw: seq<TradeMsg>)
    requires Turns(deeds, trace, from, a, faulty, handler, raw) && mark <= from
    ensures Turns(deeds, trace, mark, a, faulty, handler, raw)
  {
    hide TurnIs;
  }

  lemma ConcludeLive(c: Client, mark: nat, again: nat, deeds: seq<Deed>, handler: Handler, p: ReconcileParams,
                     w: Window, h1: int -> Hash, h2: string -> Hash, early: CoreSums, list: CoreTrades,
                     late: CoreSums, res: RepairResult)
    requires c.Valid() && mark <= |c.trace| && list(TradesFor(p, w)).Some? && !res.before.matched
    requires c.Mine() == Acts(c.trace[..mark], c.me) + ActsOf(deeds) && res.tally == TallyOf(deeds)
    requires Turns(deeds, c.trace, mark, c.me, c.faulty, handler, list(TradesFor(p, w)).value)
    requires !c.faulty ==> AllDone(StateAt(c.trace, mark), c.st, list(TradesFor(p, w)).value, handler, false)
    requires res.after.None? <==> Idled(res.tally)
    requires res.after.Some? ==>
               mark <= again <= |c.trace| && Checks(res.after.value, StateAt(c.trace, again).trades, p, w, h1, h2, late)
               && (!c.faulty ==> AllDone(StateAt(c.trace, mark), StateAt(c.trace, again),
                   list(TradesFor(p, w)).value, handler, false))
    ensures !c.faulty && Answers(p, w, early, list, late) ==>
              Reported(c.trace, mark, c.me, p, w, h1, h2, early, list, late, handler, res)
  {
    StateNow(c.trace);
    hide AllDone, Checks, Mendable, OthersListed, DayOf, HourRows, CoreRows, StateAt, Acts, ActsOf, Turns, TallyOf,
         Idled, OwnMoves, Overtaken, TradesFor;
    var raw := list(TradesFor(p, w)).value;
    if !c.faulty && Mendable(StateAt(c.trace, mark), p, w, h1, h2, early, raw, late)
        && OthersListed(c.trace[mark..], c.me, raw, DayOf(p), p.hour) {
      ResolvesUnlessOvertaken(c.trace, mark, again, c.me, deeds, handler, raw, p, w, h1, h2, early, late, res);
    }
  }

  lemma NotPulled(trace: seq<Event>, mark: nat, a: nat, faulty: bool, p: ReconcileParams, w: Window,
                  h1: int -> Hash, h2: string -> Hash, early: CoreSums, list: CoreTrades, late: CoreSums,
                  handler: Handler, s: State, u: State, res: RepairResult, err: Option<SdkError>)
    requires mark <= |trace| && Checks(res.before, StateAt(trace, mark).trades, p, w, h1, h2, early)
    requires res == RepairResult(res.before, None, 0, ZERO)
    requires if res.before.matched then err == None else list(TradesFor(p, w)).None? && err == Some(CoreFailed)
    ensures Accounts(trace, mark, a, faulty, p, w, h1, h2, early, list, handler, [], res, err)
    ensures u == s == StateAt(trace, mark) ==> Undisturbed(s, u, p, w, h1, h2, early, list, late, res, err)
  {
    hide Checks, Turns, StateAt, AllDone, Accounted, Mendable, HourRows, DayOf, TradesFor, SumsFor, TallyOf,
         AlreadyOf, Conserves, Undisturbed;
    NoTurns(trace, mark, a, faulty, handler);
    NothingConserved();
    if u == s == StateAt(trace, mark) { AtRest(s, p, w, h1, h2, early, list, late, res, err); }
  }

  lemma AtRest(s: State, p: ReconcileParams, w: Window, h1: int -> Hash, h2: string -> Hash, early: CoreSums,
               list: CoreTrades, late: CoreSums, res: RepairResult, err: Option<SdkError>)
    requires res.after.None? && (!res.before.matched ==> list(TradesFor(p, w)).None?)
    requires Checks(res.before, s.trades, p, w, h1, h2, early)
    ensures Undisturbed(s, s, p, w, h1, h2, early, list, late, res, err)
  {
    CheckMatches(res.before, s, s, p, w, h1, h2, early);
    hide MatchesNow, Checks, Accounted, Mendable, HourRows, DayOf, TradesFor, SumsFor;
  }

  lemma WasPulled(trace: seq<Event>, mark: nat, a: nat, faulty: bool, p: ReconcileParams, w: Window,
                  h1: int -> Hash, h2: string -> Hash, early: CoreSums, list: CoreTrades, handler: Handler,
                  deeds: seq<Deed>, res: RepairResult, err: Option<SdkError>)
    requires mark <= |trace| && Checks(res.before, StateAt(trace, mark).trades, p, w, h1, h2, early)
    requires !res.before.matched
    requires list(TradesFor(p, w)).Some? && res.coreTrades == |list(TradesFor(p, w)).value|
    requires res.tally == TallyOf(deeds) && Conserves(res.tally, AlreadyOf(deeds), res.coreTrades)
    requires Turns(deeds, trace, mark, a, faulty, handler, list(TradesFor(p, w)).value)
    requires err == None ==> (res.after.None? <==> Idled(res.tally))
    requires !faulty ==>
              AllDone(StateAt(trace, mark), StateAt(trace, |trace|), list(TradesFor(p, w)).value, handler, false)
    ensures Accounts(trace, mark, a, faulty, p, w, h1, h2, early, list, handler, deeds, res, err)
  {
    hide Checks, Turns, StateAt, AllDone, TradesFor, TallyOf, AlreadyOf, Conserves, Idled;
  }

  lemma ConcludeCalm(c: Client, s: State, p: ReconcileParams, w: Window, h1: int -> Hash, h2: string -> Hash,
                     early: CoreSums, list: CoreTrades, late: CoreSums, res: RepairResult, err: Option<SdkError>)
    requires c.Valid() && !res.before.matched && list(TradesFor(p, w)).Some?
    requires c.Calm() ==>
               Accounted(s, c.st, list(TradesFor(p, w)).value, res.tally)
                   && Checks(res.before, s.trades, p, w, h1, h2, early)
               && (res.after.Some? ==> Checks(res.after.value, c.st.trades, p, w, h1, h2, late))
               && (err == None && res.after.None? ==> Idled(res.tally))
    requires !c.faulty && Answers(p, w, early, list, late) ==> err == None
    ensures c.Calm() ==> Undisturbed(s, c.st, p, w, h1, h2, early, list, late, res, err)
  {
    c.Standing();
    hide Inv, Accounted, Checks, Mendable, HourRows, TradesFor, DayOf, MatchesNow;
    var raw := list(TradesFor(p, w)).value;
    if c.Calm() {
      if err == None && res.after.None? {
        StillCurrent(s, c.st, raw, res.tally, DayOf(p), p.hour);
        CheckMatches(res.before, s, c.st, p, w, h1, h2, early);
      }
      if res.after.Some? { CheckMatches(res.after.value, c.st, c.st, p, w, h1, h2, late); }
      if Answers(p, w, early, list, late) && Mendable(s, p, w, h1, h2, early, raw, late) {
        RepairResolves(s, c.st, p, w, h1, h2, early, raw, late, res);
      }
    }
  }
}
