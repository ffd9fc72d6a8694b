/**
What pulling a list of trades through persistTrade does when nothing else touches the
tables: the loop RecoverTrades and ReconcileRepair share.
*/
module Pulls {
  import opened Options
  import opened Decimals
  import opened Clock
  import opened Store
  import opened Invariants
  import opened Ledger
  import opened Hours
  import opened Acceptance

  /**
  `u` is what pulling `raw` makes of `s`: the trade table grew by exactly `recovered`,
  every new row was first delivered by a message of the list, every acceptable message is
  stored, and when nothing was recovered no order changed.
  */
  ghost predicate Pulled(s: State, u: State, raw: seq<TradeMsg>, recovered: nat) {
    && Grows(s, u) && u.orders.Keys == s.orders.Keys
    && |u.trades| == |s.trades| + recovered
    && NewAreFrom(s, u, raw) && AllStored(s, u, raw)
    && (recovered == 0 ==> u.orders == s.orders)
  }

  lemma PulledNothing(s: State, u: State)
    requires Bookkeeping(s, u)
    ensures Pulled(s, u, [], 0)
  {
    BookkeepingGrows(s, u);
    assert |s.trades.Keys| == |s.trades| && |u.trades.Keys| == |u.trades|;
    hide Acceptable, RawOf, SameFill, Grows;
  }

  /** A message persistTrade refused or recognised. */
  lemma PulledSeen(s: State, m: TradeMsg)
    requires RawOf(m) >= 0 && Acceptable(s, m) ==> KeyOf(m) in s.trades
    ensures Pulled(s, s, [m], 0)
  {
    GrowsRefl(s);
    hide Acceptable, RawOf, Grows;
  }

  lemma PulledFirst(s: State, e: Event)
    requires Inv(s) && FirstDelivery(s, e)
    ensures Pulled(s, Step(s, e), [e.msg], 1)
  {
    StepInv(s, e);
    DeliveryHistory(s, e);
    DeliveredOrder(s, e);
    AcceptedIsAcceptable(s, e.msg);
    var u := Step(s, e);
    hide *;
    OneMore(s, u, e.msg);
  }

  lemma OneMore(s: State, u: State, m: TradeMsg)
    requires Grows(s, u) && u.orders.Keys == s.orders.Keys && Acceptable(s, m) && KeyOf(m) !in s.trades
    requires u.origin == s.origin[KeyOf(m) := m] && u.trades.Keys == s.trades.Keys + {KeyOf(m)}
    ensures Pulled(s, u, [m], 1)
  {
    hide Acceptable, RawOf, Grows;
    assert |u.trades| == |u.trades.Keys| && |s.trades| == |s.trades.Keys|;
  }

  /** Flag changes after a pull are part of it. */
  lemma PulledBook(s: State, u: State, v: State, raw: seq<TradeMsg>, n: nat)
    requires Pulled(s, u, raw, n) && Bookkeeping(u, v)
    ensures Pulled(s, v, raw, n)
  {
    hide *;
    PulledNothing(u, v);
    PulledThen(s, u, v, raw, [], n, 0);
    assert raw + [] == raw;
  }

  /** What persistTrade did with one message. */
  lemma PersistPulled(s: State, e: Event)
    requires Inv(s) && e.Persist? && HandOf(s, e.actor) == Free && Accepts(s, e.msg)
    ensures Pulled(s, Step(s, e), [e.msg], if KeyOf(e.msg) in s.trades then 0 else 1)
  {
    WhichDelivery(s, e);
    hide *;
    if KeyOf(e.msg) in s.trades {
      PulledSeen(s, e.msg);
      ActorStepBookkeeps(s, e);
      PulledBook(s, s, Step(s, e), [e.msg], 0);
    } else {
      PulledFirst(s, e);
    }
  }

  lemma WhichDelivery(s: State, e: Event)
    requires e.Persist? && HandOf(s, e.actor) == Free && Accepts(s, e.msg)
    ensures FirstDelivery(s, e) <==> KeyOf(e.msg) !in s.trades
    ensures !OrderEvent(e)
  {
    hide Accepts, HandOf;
  }

  /** A message persistTrade refused. */
  lemma RefusedPulled(s: State, m: TradeMsg)
    requires OrdersOk(s) && !Accepts(s, m)
    ensures Pulled(s, s, [m], 0)
  {
    if RawOf(m) >= 0 { AcceptsIff(s, m); }
    hide Accepts, Acceptable, RawOf;
    PulledSeen(s, m);
  }

  ghost predicate NewAreFrom(s: State, u: State, raw: seq<TradeMsg>) {
    forall t :: t in u.trades && t !in s.trades ==> t in u.origin && u.origin[t] in raw && Acceptable(s, u.origin[t])
  }

  ghost predicate AllStored(s: State, u: State, raw: seq<TradeMsg>) {
    forall m :: m in raw && RawOf(m) >= 0 && Acceptable(s, m) ==> KeyOf(m) in u.trades
  }

  lemma NewThen(s: State, u: State, v: State, a: seq<TradeMsg>, b: seq<TradeMsg>)
    requires Grows(s, u) && Grows(u, v) && u.orders.Keys == s.orders.Keys && NewAreFrom(s, u, a) && NewAreFrom(u, v, b)
    ensures NewAreFrom(s, v, a + b)
  {
    OriginsKept(u, v);
    hide Acceptable, Grows;
    forall t | t in v.trades && t !in s.trades
        ensures t in v.origin && v.origin[t] in a + b && Acceptable(s, v.origin[t]) {
      if t in u.trades {
        assert u.origin[t] in a;
      } else {
        assert v.origin[t] in b;
        AcceptableKept(s, u, v.origin[t]);
      }
    }
  }

  lemma StoredThen(s: State, u: State, v: State, a: seq<TradeMsg>, b: seq<TradeMsg>)
    requires Grows(s, u) && Grows(u, v) && u.orders.Keys == s.orders.Keys && AllStored(s, u, a) && AllStored(u, v, b)
    ensures AllStored(s, v, a + b)
  {
    OriginsKept(u, v);
    hide Acceptable, Grows, RawOf;
    forall m | m in a + b && RawOf(m) >= 0 && Acceptable(s, m) ensures KeyOf(m) in v.trades {
      if m in a { assert KeyOf(m) in u.trades; } else { AcceptableKept(s, u, m); }
    }
  }

  lemma PulledThen(s: State, u: State, v: State, a: seq<TradeMsg>, b: seq<TradeMsg>, p: nat, q: nat)
    requires Pulled(s, u, a, p) && Pulled(u, v, b, q)
    ensures Pulled(s, v, a + b, p + q)
  {
    hide Grows, NewAreFrom, AllStored;
    GrowsTrans(s, u, v);
    NewThen(s, u, v, a, b);
    StoredThen(s, u, v, a, b);
  }

  /** `u` is what pulling `raw` makes of `s`, whatever was recovered. */
  ghost predicate Taken(s: State, u: State, raw: seq<TradeMsg>) { exists n :: Pulled(s, u, raw, n) }

  lemma IsTaken(s: State, u: State, raw: seq<TradeMsg>, n: nat)
    requires Pulled(s, u, raw, n)
    ensures Taken(s, u, raw)
  {
    hide Pulled;
  }

  lemma TakenBook(s: State, u: State, v: State, raw: seq<TradeMsg>)
    requires Taken(s, u, raw) && Bookkeeping(u, v)
    ensures Taken(s, v, raw)
  {
    var n :| Pulled(s, u, raw, n);
    hide Pulled, Bookkeeping;
    PulledBook(s, u, v, raw, n);
  }

  lemma NothingTaken(s: State)
    ensures Taken(s, s, [])
  {
    hide Pulled, Bookkeeping;
    BookkeepingRefl(s);
    PulledNothing(s, s);
  }

  lemma TakenThen(s: State, u: State, v: State, a: seq<TradeMsg>, b: seq<TradeMsg>)
    requires Taken(s, u, a) && Taken(u, v, b)
    ensures Taken(s, v, a + b)
  {
    var p :| Pulled(s, u, a, p);
    var q :| Pulled(u, v, b, q);
    hide Pulled;
    PulledThen(s, u, v, a, b, p, q);
  }

  lemma OriginsKept(u: State, v: State)
    requires Grows(u, v)
    ensures forall t :: t in u.origin ==> t in v.origin && v.origin[t] == u.origin[t]
    ensures forall t :: t in u.trades ==> t in v.trades
  {
  }

  /** Pulling the same list again recovers nothing and changes no order. */
  lemma RepeatRecoversNothing(s: State, u: State, v: State, raw: seq<TradeMsg>, first: nat, second: nat)
    requires Inv(v) && Pulled(s, u, raw, first) && Pulled(u, v, raw, second) && NonNegative(raw)
    ensures second == 0 && v.orders == u.orders && v.trades.Keys == u.trades.Keys
  {
    hide Inv, Grows;
    OriginsKept(u, v);
    forall t | t in v.trades ensures t in u.trades {
      if t !in u.trades { RepeatIsKnown(s, u, v, raw, t); }
    }
    hide Pulled, NewAreFrom, AllStored;
    SizesSame(u, v);
  }

  lemma SizesSame(u: State, v: State)
    requires forall t :: t in v.trades <==> t in u.trades
    ensures v.trades.Keys == u.trades.Keys && |v.trades| == |u.trades|
  {
    assert v.trades.Keys == u.trades.Keys;
    assert |v.trades| == |v.trades.Keys| && |u.trades| == |u.trades.Keys|;
  }

  lemma RepeatIsKnown(s: State, u: State, v: State, raw: seq<TradeMsg>, t: TradeKey)
    requires Inv(v) && Grows(s, u) && u.orders.Keys == s.orders.Keys && AllStored(s, u, raw) && NewAreFrom(u, v, raw)
    requires NonNegative(raw)
    requires t in v.trades
    ensures t in u.trades
  {
    if t !in u.trades {
      assert RowOk(v, t);
      hide Inv, Grows, Acceptable, RawOf, RowFor, PayFor;
      AcceptableKept(s, u, v.origin[t]);
    }
  }

  // ---------------------------------------------------------------- convergence of a repair

  /** A message a repair can turn into the local row the Core's checksum expects. */
  predicate Repairable(s: State, m: TradeMsg, day: int, hour: int) {
    && Acceptable(s, m) && RawOf(m) >= 0
    && s.orders[ParentOf(m)].side == m.side
    && m.executedAt.Some? && InSlot(m.executedAt.value, day, hour)
    && SixPlaceText(m.filled) && SixPlaceText(m.rate)
  }

  /** The hour differs only by trades of the Core that are nowhere in the local table. */
  ghost predicate MissingOnly(s: State, core: seq<TradeMsg>, day: int, hour: int) {
    && Distinct(core)
    && (forall t :: t in HourKeys(s.trades, day, hour) ==> exists m :: m in core && KeyOf(m) == t)
    && (forall m :: m in core ==>
          m.tradingDay == day
          && if KeyOf(m) in HourKeys(s.trades, day, hour) then CoreTuple(m) == TupleOf(KeyOf(m), s.trades[KeyOf(m)])
             else KeyOf(m) !in s.trades && Repairable(s, m, day, hour))
  }

  /** The row a repairable message becomes, whoever delivered it. */
  lemma RepairedRow(s: State, u: State, m: TradeMsg, day: int, hour: int)
    requires Inv(u) && Grows(s, u) && KeyOf(m) in u.trades && KeyOf(m) in u.origin && SameTrade(u.origin[KeyOf(m)], m)
    requires Repairable(s, m, day, hour) && m.tradingDay == day
    ensures InHour(KeyOf(m), u.trades[KeyOf(m)], day, hour) && TupleOf(KeyOf(m), u.trades[KeyOf(m)]) == CoreTuple(m)
  {
    var t := KeyOf(m);
    RowSource(u, t);
    RowDated(u, t);
    assert u.orders[ParentOf(m)].side == s.orders[ParentOf(m)].side;
    MillionthsOfColumn(m.filled, u.trades[t].filled);
    MillionthsOfColumn(m.rate, u.trades[t].rate);
    hide Inv, Parse, Numeric, PayFor, RowFor, Millionths, Grows, SixPlaceText, Acceptable, RawOf, InSlot;
  }

  lemma MillionthsOfColumn(text: string, u: int)
    requires Parse(text).Some? && SixPlaceText(text) && Numeric(Parse(text).value) == Some(u)
    ensures Millionths(text) == u
  {
    hide Parse, HalfAway;
  }

  lemma RowDated(u: State, t: TradeKey)
    requires Inv(u) && t in u.trades && t in u.origin && u.origin[t].executedAt.Some?
    ensures u.trades[t].executedAt == u.origin[t].executedAt.value
  {
    assert RowOk(u, t);
    hide OrdersOk, SinceOk, RemainingOk, FlagsOk, TradesOk, Numeric, PayFor, Parse;
  }

  lemma HourKept(s: State, u: State, t: TradeKey, day: int, hour: int)
    requires Grows(s, u) && t in s.trades
    ensures t in u.trades && TupleOf(t, u.trades[t]) == TupleOf(t, s.trades[t])
    ensures t in HourKeys(u.trades, day, hour) <==> t in HourKeys(s.trades, day, hour)
  {
    hide InSlot;
  }

  /** The message that stored a newly pulled key is the Core's only one for it. */
  lemma OnlyMessage(core: seq<TradeMsg>, m: TradeMsg, x: TradeMsg)
    requires Distinct(core) && m in core && x in core && KeyOf(m) == KeyOf(x)
    ensures m == x
  {
    var i :| 0 <= i < |core| && core[i] == m;
    var j :| 0 <= j < |core| && core[j] == x;
    assert IdsOf(core[i]) == IdsOf(core[j]);
  }

  /** The message carries a listed trade. */
  ghost predicate Copies(m: TradeMsg, core: seq<TradeMsg>) { exists x :: x in core && SameTrade(m, x) }

  predicate Listing(core: seq<TradeMsg>, t: TradeKey) { exists x :: x in core && KeyOf(x) == t }

  /** Every trade stored between two states that is of the hour, or listed, carries listed values. */
  ghost predicate NewFromList(s: State, u: State, core: seq<TradeMsg>, day: int, hour: int) {
    forall t :: t in u.trades && t !in s.trades && (InHour(t, u.trades[t], day, hour) || Listing(core, t)) ==>
      t in u.origin && Copies(u.origin[t], core)
  }

  /** Every listed trade that was nowhere in the table has been stored. */
  ghost predicate MissingStored(s: State, u: State, core: seq<TradeMsg>, day: int, hour: int) {
    forall m :: m in core && Repairable(s, m, day, hour) ==> KeyOf(m) in u.trades
  }

  lemma NewKeyOf(u: State, t: TradeKey)
    requires Inv(u) && t in u.trades
    ensures t in u.origin && KeyOf(u.origin[t]) == t
  {
    hide OrdersOk, SinceOk, RemainingOk, FlagsOk, RowFor, PayFor;
    assert RowOk(u, t);
  }

  lemma HourIsCore(s: State, u: State, core: seq<TradeMsg>, day: int, hour: int, t: TradeKey)
    requires Inv(u) && Grows(s, u) && NewFromList(s, u, core, day, hour) && MissingOnly(s, core, day, hour)
    requires t in HourKeys(u.trades, day, hour)
    ensures TupleOf(t, u.trades[t]) in CoreRows(core)
  {
    hide Inv, Repairable, CoreTuple, InHour, TupleOf, Grows, Listing, SameTrade;
    if t in s.trades {
      HourKept(s, u, t, day, hour);
      var m :| m in core && KeyOf(m) == t;
    } else {
      NewKeyOf(u, t);
      var x :| x in core && SameTrade(u.origin[t], x);
      SameTradeKey(u.origin[t], x);
      RepairedRow(s, u, x, day, hour);
    }
  }

  lemma SameTradeKey(m: TradeMsg, x: TradeMsg)
    requires SameTrade(m, x)
    ensures KeyOf(m) == KeyOf(x)
  {
  }

  lemma CoreIsHour(s: State, u: State, core: seq<TradeMsg>, day: int, hour: int, m: TradeMsg)
    requires Inv(u) && Grows(s, u) && NewFromList(s, u, core, day, hour) && MissingOnly(s, core, day, hour)
    requires MissingStored(s, u, core, day, hour) && m in core
    ensures CoreTuple(m) in HourRows(u.trades, day, hour)
  {
    hide Inv, Repairable, CoreTuple, InHour, TupleOf, Grows, SameTrade;
    var t := KeyOf(m);
    if t in HourKeys(s.trades, day, hour) {
      HourKept(s, u, t, day, hour);
    } else {
      assert Listing(core, t);
      NewKeyOf(u, t);
      var x :| x in core && SameTrade(u.origin[t], x);
      SameTradeKey(u.origin[t], x);
      OnlyMessage(core, m, x);
      RepairedRow(s, u, m, day, hour);
    }
    assert t in HourKeys(u.trades, day, hour);
  }

  /**
  Whoever stored them: once the missing trades of the list are there, and nothing but listed
  trades has come into the hour, its rows are the Core's.
  */
  lemma HourConverges(s: State, u: State, core: seq<TradeMsg>, day: int, hour: int)
    requires Inv(u) && Grows(s, u) && NewFromList(s, u, core, day, hour) && MissingOnly(s, core, day, hour)
    requires MissingStored(s, u, core, day, hour)
    ensures HourRows(u.trades, day, hour) == CoreRows(core)
  {
    hide Inv, Grows, NewFromList, MissingStored, MissingOnly, CoreTuple, InHour, TupleOf;
    forall t | t in HourKeys(u.trades, day, hour) ensures TupleOf(t, u.trades[t]) in CoreRows(core) {
      HourIsCore(s, u, core, day, hour, t);
    }
    forall m | m in core ensures CoreTuple(m) in HourRows(u.trades, day, hour) {
      CoreIsHour(s, u, core, day, hour, m);
    }
  }

  /** After an undisturbed pull the hour's rows are the Core's. */
  lemma PullConverges(s: State, u: State, core: seq<TradeMsg>, n: nat, day: int, hour: int)
    requires Inv(u) && Pulled(s, u, core, n) && MissingOnly(s, core, day, hour)
    ensures HourRows(u.trades, day, hour) == CoreRows(core)
  {
    PulledFromList(s, u, core, n, day, hour);
    hide *;
    HourConverges(s, u, core, day, hour);
  }

  lemma PulledFromList(s: State, u: State, core: seq<TradeMsg>, n: nat, day: int, hour: int)
    requires Pulled(s, u, core, n)
    ensures Grows(s, u) && NewFromList(s, u, core, day, hour) && MissingStored(s, u, core, day, hour)
  {
    hide Grows, Acceptable, RawOf, InHour, Listing, InSlot, SixPlaceText;
    assert forall m: TradeMsg :: SameTrade(m, m);
  }

  // ---------------------------------------------------------------- deliveries by others meanwhile

  /**
  The message may put a trade into the hour, or is of a listed one; without an execution
  time it is stored under the store time.
  */
  predicate Touches(m: TradeMsg, core: seq<TradeMsg>, day: int, hour: int) {
    (m.tradingDay == day && (m.executedAt.None? || InSlot(m.executedAt.value, day, hour))) || Listing(core, KeyOf(m))
  }

  /** Whatever the events deliver into the hour carries listed values. */
  ghost predicate OnlyListed(evs: seq<Event>, core: seq<TradeMsg>, day: int, hour: int) {
    forall e :: e in evs && e.Persist? && Touches(e.msg, core, day, hour) ==> Copies(e.msg, core)
  }

  /** What came into the hour over such a stretch of a run carries listed values. */
  lemma {:induction false} RunFromList(s: State, evs: seq<Event>, core: seq<TradeMsg>, day: int, hour: int)
    requires Inv(s) && OnlyListed(evs, core, day, hour)
    ensures NewFromList(s, Run(s, evs), core, day, hour)
  {
    if evs != [] {
      var front, e := Protocol.Front(evs), Protocol.Last(evs);
      assert (forall x :: x in front ==> x in evs) && e in evs;
      assert Run(s, evs) == Step(Run(s, front), e);
      hide Inv, NewFromList, Grows, Step, Run, Touches, Copies;
      RunFromList(s, front, core, day, hour);
      RunInv(s, front);
      StepInv(Run(s, front), e);
      StepFromList(s, Run(s, front), e, core, day, hour);
    }
  }

  lemma StepFromList(s: State, u: State, e: Event, core: seq<TradeMsg>, day: int, hour: int)
    requires Inv(u) && Inv(Step(u, e)) && Grows(u, Step(u, e)) && NewFromList(s, u, core, day, hour)
    requires e.Persist? && Touches(e.msg, core, day, hour) ==> Copies(e.msg, core)
    ensures NewFromList(s, Step(u, e), core, day, hour)
  {
    var v := Step(u, e);
    hide *;
    TradesAfter(u, e);
    forall t | t in v.trades && t !in s.trades && (InHour(t, v.trades[t], day, hour) || Listing(core, t))
      ensures t in v.origin && Copies(v.origin[t], core)
    {
      if t in u.trades {
        OldFromList(s, u, v, core, day, hour, t);
      } else {
        FirstIsPersist(u, e);
        NewOrigin(u, e);
        NewKeyOf(v, t);
        NewTouches(v, t, core, day, hour);
      }
    }
    IsFromList(s, v, core, day, hour);
  }

  lemma IsFromList(s: State, u: State, core: seq<TradeMsg>, day: int, hour: int)
    requires forall t :: t in u.trades && t !in s.trades && (InHour(t, u.trades[t], day, hour) || Listing(core, t)) ==>
               t in u.origin && Copies(u.origin[t], core)
    ensures NewFromList(s, u, core, day, hour)
  {
    hide InHour, Listing, Copies;
  }

  lemma OldFromList(s: State, u: State, v: State, core: seq<TradeMsg>, day: int, hour: int, t: TradeKey)
    requires Inv(u) && Grows(u, v) && NewFromList(s, u, core, day, hour)
    requires t in u.trades && t in v.trades && t !in s.trades && (InHour(t, v.trades[t], day, hour) || Listing(core, t))
    ensures t in v.origin && Copies(v.origin[t], core)
  {
    hide Inv, InHour, Copies, Listing, Grows;
    OriginsKept(u, v);
    HourKept(u, v, t, day, hour);
    InHourIff(u, v, t, day, hour);
    NewKeyOf(u, t);
  }

  lemma InHourIff(u: State, v: State, t: TradeKey, day: int, hour: int)
    requires t in u.trades && t in v.trades
    requires (t in HourKeys(v.trades, day, hour) <==> t in HourKeys(u.trades, day, hour))
    ensures InHour(t, v.trades[t], day, hour) <==> InHour(t, u.trades[t], day, hour)
  {
    hide InHour;
  }

  lemma NewOrigin(u: State, e: Event)
    requires Inv(u) && FirstDelivery(u, e)
    ensures KeyOf(e.msg) in Step(u, e).origin && Step(u, e).origin[KeyOf(e.msg)] == e.msg
  {
    assert e.Persist?;
    hide *;
    InvParts(u);
    DeliveryHistory(u, e);
  }

  lemma NewTouches(v: State, t: TradeKey, core: seq<TradeMsg>, day: int, hour: int)
    requires Inv(v) && t in v.trades && t in v.origin && KeyOf(v.origin[t]) == t
    requires InHour(t, v.trades[t], day, hour) || Listing(core, t)
    ensures Touches(v.origin[t], core, day, hour)
  {
    if v.origin[t].executedAt.Some? { RowDated(v, t); }
    hide Inv, Listing, InSlot;
  }

  /** A pull that recovered nothing leaves every hour's checksum rows as they were, so no re-check is needed. */
  lemma NothingRecoveredNothingChanged(s: State, u: State, raw: seq<TradeMsg>, day: int, hour: int)
    requires Pulled(s, u, raw, 0)
    ensures HourRows(u.trades, day, hour) == HourRows(s.trades, day, hour)
  {
    OriginsKept(s, u);
    assert |u.trades.Keys| == |u.trades| && |s.trades.Keys| == |s.trades|;
    SameSizeSame(s.trades.Keys, u.trades.Keys);
    forall t | t in s.trades
      ensures t in u.trades && TupleOf(t, u.trades[t]) == TupleOf(t, s.trades[t])
      ensures t in HourKeys(u.trades, day, hour) <==> t in HourKeys(s.trades, day, hour)
    {
      HourKept(s, u, t, day, hour);
    }
    hide Grows, Acceptable, InHour, TupleOf, Pulled;
  }

  /** In general a checked hour still reads the same exactly when no trade has been filed in it since. */
  lemma StillReadsIff(s: State, u: State, day: int, hour: int)
    requires Grows(s, u)
    ensures HourRows(u.trades, day, hour) == HourRows(s.trades, day, hour) <==>
              HourKeys(u.trades, day, hour) == HourKeys(s.trades, day, hour)
  {
    forall t | t in s.trades
      ensures t in u.trades && TupleOf(t, u.trades[t]) == TupleOf(t, s.trades[t])
      ensures t in HourKeys(u.trades, day, hour) <==> t in HourKeys(s.trades, day, hour)
    {
      HourKept(s, u, t, day, hour);
    }
    HourCount(s.trades, day, hour);
    HourCount(u.trades, day, hour);
    hide Grows, InHour, TupleOf;
    if HourRows(u.trades, day, hour) == HourRows(s.trades, day, hour) {
      SameSizeSame(HourKeys(s.trades, day, hour), HourKeys(u.trades, day, hour));
    }
  }

  lemma SameSizeSame(a: set<TradeKey>, b: set<TradeKey>)
    requires a <= b && |a| == |b|
    ensures a == b
  {
    assert b == a + (b - a);
  }
}
