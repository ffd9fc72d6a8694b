/**
One short run that meets the premises of the main results: an order, a trade of the
Core against it, and its way from missing to settled.
*/
module Witnesses {
  import opened Options
  import opened Decimals
  import opened Money
  import opened Clock
  import opened Store
  import opened Invariants
  import opened Ledger
  import opened Checksums
  import opened Hours
  import opened Quantities
  import opened Division
  import opened Acceptance
  import opened Pulls
  import opened Histories
  import opened Recovery
  import opened Reconciliation
  import opened Repairs
  import opened Calendar
  import opened Slots
  import opened Clients

  const DRAFT := Draft("partner", "client", BUY, "USD/TJS", 1, 5, Some(1), Some("account"), FeeConfig(Some(NumText(0))))
  const PARENT := OrderKey(0, 1)
  /** One millionth filled at a rate of one millionth, in hour 10 of day 0. */
  const TRADE := TradeMsg("partner", 7, 9, 2, 0, 0, 1, BUY, NumText(1), NumText(1), Some(SlotStart(0, 10)), 1)

  /** The order as the insert leaves it. */
  function Placed(): State { Step(Init(), Insert(DRAFT, 0)) }

  lemma PlacedIs()
    ensures Placed().orders == map[PARENT := RowOfDraft(DRAFT, 0)] && Placed().trades == map[]
    ensures Placed().hands == map[]
    ensures Placed().calls == []
  {
    hide NumText;
  }

  lemma PlacedIsReached()
    ensures Protocol.After([Insert(DRAFT, 0)]) == Placed() && Inv(Placed())
  {
    Clients.RunOne(Init(), Insert(DRAFT, 0));
    Protocol.Reachable([Insert(DRAFT, 0)]);
    hide Step, Inv, Run;
  }

  lemma TradeParses()
    ensures Parse(TRADE.filled) == Some(MICRO) && Parse(TRADE.rate) == Some(MICRO)
    ensures FeePercent(DRAFT.fee.fixed) == Some(0)
    ensures RawOf(TRADE) == MICRO
  {
    ParseOfNumText(1);
    ParseOfNumText(0);
    hide Parse, NumText;
  }

  /** Its amounts: the exact value, ten millionths of a millionth, rounds to nothing. */
  lemma TradePays()
    ensures PayFor(RowOfDraft(DRAFT, 0), TRADE.filled, TRADE.rate) ==
        Some(Pay(BUY, "USD/TJS", "account", "client", 0, 0))
  {
    TradeParses();
    hide Parse, NumText, FeePercent;
    assert Mul(MICRO, MICRO) == 10_000_000;
    assert Percentage(10_000_000, 0) == 0;
  }

  lemma TradeAcceptable()
    ensures Acceptable(Placed(), TRADE)
  {
    PlacedIs();
    TradePays();
    TradeParses();
    hide Parse, NumText, PayFor, Placed;
  }

  lemma TradeRepairable()
    ensures Repairable(Placed(), TRADE, 0, 10)
  {
    TradeAcceptable();
    TradeParses();
    PlacedIs();
    hide Parse, NumText, RawOf, Acceptable, Placed;
  }

  lemma EmptyHour(trades: map<TradeKey, TradeRow>, day: int, hour: int)
    requires trades == map[]
    ensures HourKeys(trades, day, hour) == {} && HourRows(trades, day, hour) == {}
  {
    hide InHour, TupleOf;
  }

  lemma OneRepairable(s: State, m: TradeMsg, day: int, hour: int)
    requires s.trades == map[] && Repairable(s, m, day, hour) && m.tradingDay == day
    ensures MissingOnly(s, [m], day, hour) && CoreTuple(m) in CoreRows([m])
  {
    EmptyHour(s.trades, day, hour);
    hide Repairable, CoreTuple, TupleOf, HourKeys;
    assert m in [m];
  }

  /** An hour can lack exactly one of the Core's trades, and then the two sides differ. */
  lemma HourCanLackATrade()
    ensures Inv(Placed()) && MissingOnly(Placed(), [TRADE], 0, 10)
    ensures HourRows(Placed().trades, 0, 10) != CoreRows([TRADE])
  {
    PlacedIsReached();
    PlacedIs();
    TradeRepairable();
    assert TRADE.tradingDay == 0;
    hide *;
    OneRepairable(Placed(), TRADE, 0, 10);
    EmptyHour(Placed().trades, 0, 10);
  }

  // ---------------------------------------------------------------- and its settlement

  const DELIVERY := Persist(0, TRADE, 0)
  const RUN: seq<Event> := [Insert(DRAFT, 0), DELIVERY, CallHandler(0, true, ""), MarkSettled(0)]
  const BOOK: Book := map[KeyOf(TRADE) := TRADE]

  lemma DeliveryAccepted()
    ensures PARENT in Placed().orders && PARENT == ParentOf(TRADE) && KeyOf(TRADE) !in Placed().trades
    ensures Accepts(Placed(), TRADE) && HandOf(Placed(), 0) == Free && Placed().calls == []
    ensures PayOf(Placed(), TRADE) == Pay(BUY, "USD/TJS", "account", "client", 0, 0)
    ensures Decrement(Placed().orders[PARENT].remaining, RawOf(TRADE)) == 4
  {
    PlacedIs();
    TradeAcceptable();
    TradePays();
    TradeParses();
    assert Decrement(5, MICRO) == 4;
    hide RowFor, PayFor, NumText, Parse, Placed, RawOf, Decrement;
  }

  lemma FirstStores(s: State, m: TradeMsg)
    requires Accepts(s, m) && HandOf(s, 0) == Free && KeyOf(m) !in s.trades
    ensures var u := Step(s, Persist(0, m, 0));
            KeyOf(m) in u.trades && HandOf(u, 0) == Stored(KeyOf(m), false, PayOf(s, m)) && u.calls == s.calls
            && ParentOf(m) in u.orders
                && u.orders[ParentOf(m)].remaining == Decrement(s.orders[ParentOf(m)].remaining, RawOf(m))
  {
    hide RowFor, PayFor, RawOf, Decrement;
  }

  lemma DeliveryStores()
    ensures var s := Step(Placed(), DELIVERY);
            KeyOf(TRADE) in s.trades && HandOf(s, 0) ==
                Stored(KeyOf(TRADE), false, Pay(BUY, "USD/TJS", "account", "client", 0, 0))
            && PARENT in s.orders && s.orders[PARENT].remaining == 4 && s.calls == []
  {
    DeliveryAccepted();
    assert DELIVERY == Persist(0, TRADE, 0);
    hide *;
    FirstStores(Placed(), TRADE);
  }

  lemma SettlesInTwo(s: State, k: TradeKey, pay: Pay)
    requires k in s.trades && HandOf(s, 0) == Stored(k, false, pay) && s.calls == []
    ensures var u := Step(Step(s, CallHandler(0, true, "")), MarkSettled(0));
            k in u.trades && u.trades[k].settled && u.calls == [Call(k, pay, true)] && u.orders == s.orders
  {
  }

  lemma RunIs()
    ensures Protocol.After(RUN) == Step(Step(Step(Placed(), DELIVERY), CallHandler(0, true, "")), MarkSettled(0))
  {
    assert RUN == [Insert(DRAFT, 0)] + [DELIVERY] + [CallHandler(0, true, "")] + [MarkSettled(0)];
    hide *;
    PlacedIsReached();
    ThreeMore([Insert(DRAFT, 0)], DELIVERY, CallHandler(0, true, ""), MarkSettled(0));
  }

  lemma ThreeMore(evs: seq<Event>, a: Event, b: Event, c: Event)
    ensures Protocol.After(evs + [a] + [b] + [c]) == Step(Step(Step(Protocol.After(evs), a), b), c)
  {
    hide *;
    Clients.Snoc(evs, a);
    Clients.Snoc(evs + [a], b);
    Clients.Snoc(evs + [a] + [b], c);
  }

  lemma RunIsFaithful()
    ensures Faithful(RUN, BOOK) && SixPlaceBook(BOOK)
  {
    TradeParses();
    hide Parse, NumText;
  }

  /** A run faithful to a six-place book settles a trade with one handler call and takes its fill off the order. */
  lemma TradeCanSettle()
    ensures Faithful(RUN, BOOK) && SixPlaceBook(BOOK)
    ensures var s := Protocol.After(RUN);
            KeyOf(TRADE) in s.trades && s.trades[KeyOf(TRADE)].settled && |s.calls| == 1
            && PARENT in s.orders && s.orders[PARENT].remaining == 4
  {
    RunIs();
    RunIsFaithful();
    DeliveryStores();
    hide *;
    SettlesInTwo(Step(Placed(), DELIVERY), KeyOf(TRADE), Pay(BUY, "USD/TJS", "account", "client", 0, 0));
  }

  // ---------------------------------------------------------------- a repair overtaken by the stream

  /** What the stream does between the first check of a repair and the trade's turn. */
  const MEANWHILE: seq<Event> := [DELIVERY, CallHandler(0, true, ""), MarkSettled(0)]

  lemma MeanwhileIsListed()
    ensures OnlyListed(MEANWHILE, [TRADE], 0, 10)
  {
    hide Touches, SameTrade, NumText;
    TradeCopiesItself();
  }

  lemma TradeCopiesItself()
    ensures Copies(TRADE, [TRADE])
  {
    hide Parse, NumText;
    assert TRADE in [TRADE] && SameTrade(TRADE, TRADE);
  }

  /** The repair's client, actor 1, then delivers the trade once more and puts it down again. */
  const AFTERWARDS: seq<Event> := RUN + [Persist(1, TRADE, 0)] + [Drop(1)]

  const TURN := Deed(AlreadySettled, false, 4, [Act(4, Persist(1, TRADE, 0)), Act(5, Drop(1))])

  const DAY0 := Date(0, 1, 1)
  const HOUR := ReconcileParams("partner", DateText(DAY0), 10)

  lemma HourIsNamed()
    ensures DayOf(HOUR) == 0 && HOUR.hour == 10
  {
    assert ValidDate(DAY0) && DayNumber(DAY0) == 0;
    ParseOfDateText(DAY0);
    hide DateText, ParseDate, DayNumber;
  }

  lemma Places()
    ensures |AFTERWARDS| == 6 && RUN <= AFTERWARDS && |RUN| == 4
    ensures AFTERWARDS[4] == Persist(1, TRADE, 0) && AFTERWARDS[5] == Drop(1)
    ensures StateAt(AFTERWARDS, 1) == Placed() && StateAt(AFTERWARDS, 4) == Protocol.After(RUN)
  {
    assert RUN == [Insert(DRAFT, 0)] + MEANWHILE;
    assert AFTERWARDS[..1] == [Insert(DRAFT, 0)] && AFTERWARDS[..4] == RUN;
    hide Protocol.After, Placed, DRAFT, TRADE;
    PlacedIsReached();
  }

  lemma OnlyTheTurn()
    ensures OwnAre(AFTERWARDS, 1, 1, [TURN])
  {
    Places();
    assert AFTERWARDS[..1] == [Insert(DRAFT, 0)];
    assert ActsOf([TURN]) == [] + TURN.acts by { assert [TURN][..0] == []; }
    assert forall e :: e in RUN ==> ActorOf(e) != Some(1);
    assert forall e :: e in [Insert(DRAFT, 0)] ==> ActorOf(e) != Some(1);
    assert [] + RUN == RUN && [] + [Insert(DRAFT, 0)] == [Insert(DRAFT, 0)];
    hide Acts, DRAFT, TRADE;
    OthersAddNone([], RUN, 1);
    OthersAddNone([], [Insert(DRAFT, 0)], 1);
    ActsOne(RUN, Persist(1, TRADE, 0), 1);
    ActsOne(RUN + [Persist(1, TRADE, 0)], Drop(1), 1);
  }

  lemma HandIsFree()
    ensures HandOf(Protocol.After(RUN), 1) == Free
  {
    RunIs();
    PlacedIs();
    hide Placed;
    OtherHands(Placed(), DELIVERY);
    OtherHands(Step(Placed(), DELIVERY), CallHandler(0, true, ""));
    OtherHands(Step(Step(Placed(), DELIVERY), CallHandler(0, true, "")), MarkSettled(0));
    hide Step, TRADE;
  }

  lemma OtherHands(s: State, e: Event)
    requires ActorOf(e) == Some(0)
    ensures HandOf(Step(s, e), 1) == HandOf(s, 1)
  {
    Clients.OtherStep(s, e, 1);
    hide Step, HandOf;
  }

  lemma TheTurnIs(handler: Handler)
    ensures Turns([TURN], AFTERWARDS, 1, 1, false, handler, [TRADE])
    ensures Idled(TallyOf([TURN]))
  {
    assert TURN.at == 4 && TURN.turn == AlreadySettled && !TURN.inserted;
    var act, rest := Act(4, Persist(1, TRADE, 0)), [Act(5, Drop(1))];
    assert TURN.acts == [act] + rest && IsPersist(act.e, 1, TRADE);
    NothingCounted();
    hide *;
    Places();
    HandIsFree();
    TradeRepairable();
    TradeCanSettle();
    StillAccepted(AFTERWARDS, 1, 4, TRADE, 0, 10);
    SettledThere(AFTERWARDS, 4, TRADE);
    StoredTurn(TURN, AFTERWARDS, 1, false, handler, TRADE, act, rest);
    OneTurn(TURN, AFTERWARDS, 1, 1, false, handler, TRADE);
  }

  lemma NothingCounted()
    ensures Idled(TallyOf([TURN]))
  {
    assert [TURN][..0] == [];
    assert TallyOf([TURN][..0]) == ZERO;
    hide TallyOf;
  }

  lemma SettledThere(trace: seq<Event>, n: nat, m: TradeMsg)
    requires n <= |trace| && KeyOf(m) in StateAt(trace, n).trades && StateAt(trace, n).trades[KeyOf(m)].settled
    ensures WasSettled(trace, n, KeyOf(m)) && KeyOf(m) in StateAt(trace, n).trades
  {
    hide StateAt;
  }

  /** What the first check and the turn leave, and what another check would read now. */
  lemma OvertakenHour(handler: Handler)
    ensures MissingOnly(StateAt(AFTERWARDS, 1), [TRADE], 0, 10) && OthersListed(AFTERWARDS[1..], 1, [TRADE], 0, 10)
    ensures AllDone(StateAt(AFTERWARDS, 1), StateAt(AFTERWARDS, |AFTERWARDS|), [TRADE], handler, false)
    ensures HourRows(StateAt(AFTERWARDS, |AFTERWARDS|).trades, 0, 10) == CoreRows([TRADE])
  {
    Places();
    HourCanLackATrade();
    TradeCanSettle();
    DeliveredAsListed();
    StatesGrow(AFTERWARDS, 4, 6);
    hide *;
    DoneByThen(StateAt(AFTERWARDS, 1), StateAt(AFTERWARDS, 4), StateAt(AFTERWARDS, 6), TRADE, handler);
    OnlyTheTurn();
    TheTurnIs(handler);
    AllListed(AFTERWARDS, 1, 1, [TURN], false, handler, [TRADE], 0, 10);
    RowsAreCore(AFTERWARDS, 1, 6, [TRADE], handler, 0, 10);
  }

  lemma DoneByThen(s: State, u: State, v: State, m: TradeMsg, handler: Handler)
    requires Grows(u, v) && KeyOf(m) in u.trades && u.trades[KeyOf(m)].settled
    ensures AllDone(s, v, [m], handler, false)
  {
    hide Acceptable, RawOf, SameFill, SameTerms;
  }

  lemma DeliveredAsListed()
    ensures OthersListed(AFTERWARDS[1..], 1, [TRADE], 0, 10)
  {
    assert AFTERWARDS[1..] == MEANWHILE + [Persist(1, TRADE, 0)] + [Drop(1)];
    hide *;
    MeanwhileIsListed();
    OwnTail(MEANWHILE, 1, TRADE, [TRADE], 0, 10);
  }

  lemma OwnTail(evs: seq<Event>, a: nat, m: TradeMsg, core: seq<TradeMsg>, day: int, hour: int)
    requires OnlyListed(evs, core, day, hour)
    ensures OthersListed(evs + [Persist(a, m, 0)] + [Drop(a)], a, core, day, hour)
  {
    hide Touches, Copies;
    var all := evs + [Persist(a, m, 0)] + [Drop(a)];
    assert forall e :: e in all ==> e in evs || e == Persist(a, m, 0) || e == Drop(a);
  }

  /**
  The first check of an hour found it short of one trade; the stream stores and settles it
  before its turn in the pull, by a delivery of the very trade the Core lists. The turn then
  moves nothing, so the repair ends without a re-check and reports the hour unresolved,
  although by then it holds the Core's rows and a check would match.
  */
  lemma StreamOvertakesRepair(h1: int -> Hash, h2: string -> Hash, w: Window, early: CoreSums, late: CoreSums,
                              handler: Handler, before: ReconcileResult)
    requires early(SumsFor(HOUR, w)) == Some(Report(h1, h2, CoreRows([TRADE]), true)) == late(SumsFor(HOUR, w))
    requires Checks(before, Placed().trades, HOUR, w, h1, h2, early)
    ensures OvertakenRepair(AFTERWARDS, 1, 1, TURN, TRADE, HOUR, w, h1, h2, early, late, handler, before)
  {
    HourIsNamed();
    hide *;
    OvertakenHour(handler);
    OnlyTheTurn();
    TheTurnIs(handler);
    Places();
    EqualSetsMatch(h1, h2, CoreRows([TRADE]), true);
    Unmatched(h1, h2, w, early, before);
    IsOvertaken(AFTERWARDS, 1, 1, TURN, TRADE, HOUR, w, h1, h2, early, late, handler, before);
  }

  /**
  A repair that kept to the source, of an hour that lacked only the listed trade, with
  nothing but listed deliveries by others and a Core that held still: it ends unresolved,
  and yet the hour holds the Core's rows and would match.
  */
  ghost predicate OvertakenRepair(trace: seq<Event>, mark: nat, a: nat, d: Deed, m: TradeMsg, p: ReconcileParams,
                                  w: Window, h1: int -> Hash, h2: string -> Hash, early: CoreSums, late: CoreSums,
                                  handler: Handler, before: ReconcileResult) {
    var res := RepairResult(before, None, 1, TallyOf([d]));
    && mark <= |trace| && Mendable(StateAt(trace, mark), p, w, h1, h2, early, [m], late)
    && OthersListed(trace[mark..], a, [m], DayOf(p), p.hour)
    && Checks(before, StateAt(trace, mark).trades, p, w, h1, h2, early)
    && Course(trace, mark, 0, a, [d], handler, [m], p, w, h1, h2, late, res)
    && !res.Resolved()
    && var rows := HourRows(StateAt(trace, |trace|).trades, DayOf(p), p.hour);
       rows == CoreRows([m]) && CompareWith(h1, h2, rows, Report(h1, h2, CoreRows([m]), true)).matched
  }

  lemma IsOvertaken(trace: seq<Event>, mark: nat, a: nat, d: Deed, m: TradeMsg, p: ReconcileParams, w: Window,
                    h1: int -> Hash, h2: string -> Hash, early: CoreSums, late: CoreSums, handler: Handler,
                    before: ReconcileResult)
    requires mark <= |trace| && MissingOnly(StateAt(trace, mark), [m], DayOf(p), p.hour)
    requires early(SumsFor(p, w)) == Some(Report(h1, h2, CoreRows([m]), true)) == late(SumsFor(p, w))
    requires OthersListed(trace[mark..], a, [m], DayOf(p), p.hour)
    requires Checks(before, StateAt(trace, mark).trades, p, w, h1, h2, early) && !before.matched
    requires OwnAre(trace, mark, a, [d]) && Turns([d], trace, mark, a, false, handler, [m]) && Idled(TallyOf([d]))
    requires AllDone(StateAt(trace, mark), StateAt(trace, |trace|), [m], handler, false)
    requires HourRows(StateAt(trace, |trace|).trades, DayOf(p), p.hour) == CoreRows([m])
    requires CompareWith(h1, h2, CoreRows([m]), Report(h1, h2, CoreRows([m]), true)).matched
    ensures OvertakenRepair(trace, mark, a, d, m, p, w, h1, h2, early, late, handler, before)
  {
    hide MissingOnly, StateAt, Report, CoreRows, OthersListed, Checks, OwnAre, Turns, Idled, TallyOf, AllDone,
         HourRows, CompareWith, SumsFor, DayOf;
  }

  lemma Unmatched(h1: int -> Hash, h2: string -> Hash, w: Window, early: CoreSums, before: ReconcileResult)
    requires early(SumsFor(HOUR, w)) == Some(Report(h1, h2, CoreRows([TRADE]), true))
    requires Checks(before, Placed().trades, HOUR, w, h1, h2, early)
    ensures !before.matched
  {
    HourIsNamed();
    HourCanLackATrade();
    PlacedIs();
    EmptyHour(Placed().trades, 0, 10);
    StrictlyLess(HourRows(Placed().trades, 0, 10), CoreRows([TRADE]));
    LossIsSeen(h1, h2, HourRows(Placed().trades, 0, 10), CoreRows([TRADE]));
    hide HourRows, CoreRows, Report, CompareWith, SumsFor, DayOf, Placed, TRADE, HOUR, MissingOnly, Inv;
  }

  lemma StrictlyLess(a: set<Tuple>, b: set<Tuple>)
    requires a == {} && a != b
    ensures a < b
  {
  }

  // ---------------------------------------------------------------- runs that end with another quantity than promised

  /** The trade with another id and another quantity. */
  function Fill(id: int, text: string): TradeMsg { TRADE.(tradeId := id, filled := text) }

  predicate Small(raw: Dec) { -10 * MICRO <= raw <= 10 * MICRO }

  /** Amounts this small come to nothing at a rate of one millionth. */
  lemma FillPays(text: string, raw: Dec)
    requires Parse(text) == Some(raw) && Small(raw)
    ensures PayFor(RowOfDraft(DRAFT, 0), text, NumText(1)) == Some(Pay(BUY, "USD/TJS", "account", "client", 0, 0))
  {
    TradeParses();
    SmallAmount(raw);
    assert TRADE.rate == NumText(1) && DRAFT.fee == FeeConfig(Some(NumText(0)));
    var o := RowOfDraft(DRAFT, 0);
    assert Readable(o) && o.side == BUY && o.pair == "USD/TJS" && o.account == Some("account") && o.client == "client";
    assert o.fee.fixed == DRAFT.fee.fixed;
    hide *;
    FreePay(o, text, NumText(1), raw, MICRO);
  }

  /** Without a fee, and with an amount that rounds to nothing. */
  lemma FreePay(o: OrderRow, q: string, r: string, x: Dec, y: Dec)
    requires Readable(o) && o.side == BUY && Parse(q) == Some(x) && Parse(r) == Some(y)
    requires FeePercent(o.fee.fixed) == Some(0)
    requires Percentage(Mul(x, y), 0) == 0 && RoundBank6(Mul(x, y) + 0) == 0
    ensures PayFor(o, q, r) == Some(Pay(BUY, o.pair, o.account.value, o.client, 0, 0))
  {
    hide Parse, FeePercent, Mul, Percentage, RoundBank6;
  }

  lemma SmallAmount(raw: Dec)
    requires Small(raw)
    ensures Percentage(Mul(raw, MICRO), 0) == 0 && RoundBank6(Mul(raw, MICRO) + 0) == 0
  {
    var m := Mul(raw, MICRO);
    assert -100_000_000 <= m <= 100_000_000;
    assert Mul(m, 0) == 0 && DivHundred(0) == 0 && RoundBank6(0) == 0;
    hide Mul;
    if m >= 0 { QuotientIs(m, MICRO, 0, m); } else { QuotientIs(m, MICRO, -1, m + MICRO); }
  }

  /** The order of the example, whatever became of its status and quantity. */
  predicate Ours(s: State) {
    PARENT in s.orders && SameTerms(RowOfDraft(DRAFT, 0), s.orders[PARENT]) && 0 <= s.orders[PARENT].remaining <= 10
  }

  lemma FillIs(id: int, text: string, raw: Dec)
    requires Parse(text) == Some(raw)
    ensures ParentOf(Fill(id, text)) == PARENT && KeyOf(Fill(id, text)) == TradeKey(id, 9, 0)
    ensures RawOf(Fill(id, text)) == raw
    ensures Fill(id, text).filled == text && Fill(id, text).rate == NumText(1)
  {
    hide Parse, NumText;
  }

  lemma FillRow(s: State, id: int, text: string, raw: Dec)
    requires Ours(s) && Parse(text) == Some(raw) && Small(raw)
    ensures RowFor(s.orders[PARENT], Fill(id, text), 0).Some?
  {
    FillIs(id, text, raw);
    FillPays(text, raw);
    RowForTerms(RowOfDraft(DRAFT, 0), s.orders[PARENT], Fill(id, text), 0);
    ParseOfNumText(1);
    SmallColumn(raw);
    SmallColumn(MICRO);
    SmallColumn(0);
    hide *;
    PricedRow(s.orders[PARENT], Fill(id, text), Pay(BUY, "USD/TJS", "account", "client", 0, 0), raw, MICRO);
  }

  lemma PricedRow(o: OrderRow, m: TradeMsg, pay: Pay, q: Dec, r: Dec)
    requires PayFor(o, m.filled, m.rate) == Some(pay) && Parse(m.filled) == Some(q) && Parse(m.rate) == Some(r)
    requires Numeric(q).Some? && Numeric(r).Some? && Numeric(pay.settlement).Some? && Numeric(pay.fee).Some?
    ensures RowFor(o, m, 0).Some?
  {
    hide Parse, PayFor, Numeric;
  }

  lemma SmallColumn(raw: Dec)
    requires Small(raw)
    ensures Numeric(raw).Some?
  {
  }

  lemma FillAccepted(s: State, id: int, text: string, raw: Dec)
    requires Ours(s) && Parse(text) == Some(raw) && Small(raw)
    ensures Accepts(s, Fill(id, text)) && ParentOf(Fill(id, text)) == PARENT && RawOf(Fill(id, text)) == raw
  {
    FillRow(s, id, text, raw);
    FillIs(id, text, raw);
    SmallLeft(s.orders[PARENT].remaining, raw);
    hide Fill, RowFor, RawOf, Decrement, Fits, Parse, SameTerms;
  }

  lemma SmallLeft(remaining: int, raw: Dec)
    requires 0 <= remaining <= 10 && Small(raw)
    ensures Fits(Decrement(remaining, raw))
  {
  }

  /** Its first delivery, by an idle actor. */
  lemma FillStored(s: State, id: int, text: string, raw: Dec)
    requires Ours(s) && Parse(text) == Some(raw) && Small(raw) && HandOf(s, 0) == Free
    requires TradeKey(id, 9, 0) !in s.trades
    ensures var u := Step(s, Persist(0, Fill(id, text), 0));
            PARENT in u.orders && SameTerms(RowOfDraft(DRAFT, 0), u.orders[PARENT])
            && u.orders[PARENT].remaining == Decrement(s.orders[PARENT].remaining, raw)
            && u.trades.Keys == s.trades.Keys + {TradeKey(id, 9, 0)}
                && u.trades[TradeKey(id, 9, 0)].filled == HalfAway(raw, MICRO)
  {
    var m := Fill(id, text);
    FillIs(id, text, raw);
    FillAccepted(s, id, text, raw);
    hide Fill, NumText;
    assert FirstDelivery(s, Persist(0, m, 0));
    NewRowFilled(s, Persist(0, m, 0));
    StoredTerms(s, m);
  }

  lemma StoredTerms(s: State, m: TradeMsg)
    requires FirstDelivery(s, Persist(0, m, 0))
    ensures var u := Step(s, Persist(0, m, 0));
            ParentOf(m) in u.orders && SameTerms(s.orders[ParentOf(m)], u.orders[ParentOf(m)])
                && u.trades.Keys == s.trades.Keys + {KeyOf(m)}
  {
    hide RowFor, PayFor, RawOf, Decrement;
  }

  /** The run's own account of such a delivery. */
  lemma FillAccount(evs: seq<Event>, id: int, text: string, raw: Dec)
    requires Ours(Protocol.After(evs)) && Parse(text) == Some(raw) && Small(raw)
    requires HandOf(Protocol.After(evs), 0) == Free && TradeKey(id, 9, 0) !in Protocol.After(evs).trades
    ensures var all := evs + [Persist(0, Fill(id, text), 0)];
            Protocol.After(all) == Step(Protocol.After(evs), Persist(0, Fill(id, text), 0))
            && Protocol.LastWrite(all, PARENT) == Protocol.LastWrite(evs, PARENT)
            && Protocol.FillsSince(all, PARENT) == Protocol.FillsSince(evs, PARENT) + [raw]
  {
    var e := Persist(0, Fill(id, text), 0);
    var all := evs + [e];
    assert Protocol.Front(all) == evs && Protocol.Last(all) == e;
    FillIs(id, text, raw);
    FillAccepted(Protocol.After(evs), id, text, raw);
    Clients.Snoc(evs, e);
    hide Protocol.After, Step, Fill, Accepts, Ours, Parse;
    assert Protocol.NewFill(Protocol.After(evs), e, PARENT) == Some(raw);
    Protocol.AccountStep(all, PARENT);
  }

  lemma PlacedAccount()
    ensures var evs := [Insert(DRAFT, 0)];
            Protocol.LastWrite(evs, PARENT) == 5 && Protocol.FillsSince(evs, PARENT) == []
            && Ours(Protocol.After(evs)) && Protocol.After(evs).orders[PARENT].remaining == 5
            && HandOf(Protocol.After(evs), 0) == Free && Protocol.After(evs).trades == map[]
  {
    var evs := [Insert(DRAFT, 0)];
    PlacedIsReached();
    PlacedIs();
    assert Protocol.Front(evs) == [] && Protocol.Last(evs) == evs[0] && Protocol.After([]) == Init();
    assert Protocol.Written(Init(), evs[0], PARENT) == Some(5);
    hide Step, Placed, NumText, Protocol.Written;
  }

  const HALF_MILLIONTH := "0.0000005"

  lemma HalfMillionthReads()
    ensures Parse(HALF_MILLIONTH) == Some(MICRO / 2)
  {
    HalfMillionthParts();
    PowersOfTen();
    assert Pow10(12) == 1_000_000_000_000;
    hide Padded, Value, Pow10, IndexOf;
  }

  lemma HalfMillionthParts()
    ensures IndexOf(HALF_MILLIONTH, '.') == 1 && AllDigits(HALF_MILLIONTH[..1]) && AllDigits(HALF_MILLIONTH[2..])
    ensures Value(HALF_MILLIONTH[..1]) == 0 && Value(HALF_MILLIONTH[2..]) == 5
  {
    var whole, frac := Padded(0, 1), Padded(5, 7);
    ValueOfPadded(0, 1);
    assert Pow10(3) == 1000;
    ValueOfPadded(5, 7);
    PaddedTexts();
    hide Padded, Value, Pow10;
    assert HALF_MILLIONTH == whole + "." + frac;
    IndexAfter(whole, '.', frac);
    assert HALF_MILLIONTH[..1] == whole && HALF_MILLIONTH[2..] == frac;
  }

  lemma PaddedTexts()
    ensures Padded(0, 1) == "0" && Padded(5, 7) == "0000005"
  {
    assert Padded(0, 2) == "00" && Padded(0, 4) == "0000" && Padded(0, 6) == "000000";
  }

  /** Half a millionth filled: the table stores one millionth, and the order keeps all its five instead of four. */
  lemma HalfMillionthRemains()
    ensures var evs := [Insert(DRAFT, 0)] + [Persist(0, Fill(7, HALF_MILLIONTH), 0)];
            var s := Protocol.After(evs);
            Accepts(Placed(), Fill(7, HALF_MILLIONTH)) && TradeKey(7, 9, 0) in s.trades
                && s.trades[TradeKey(7, 9, 0)].filled == 1
            && PARENT in s.orders && s.orders[PARENT].remaining == 5
            && Promised(Protocol.LastWrite(evs, PARENT), Protocol.FillsSince(evs, PARENT)) == 4
  {
    var placed: seq<Event> := [Insert(DRAFT, 0)];
    HalfMillionthReads();
    PlacedAccount();
    PlacedIsReached();
    HalfNumbers();
    hide *;
    FillAccount(placed, 7, HALF_MILLIONTH, MICRO / 2);
    FillStored(Protocol.After(placed), 7, HALF_MILLIONTH, MICRO / 2);
    FillAccepted(Placed(), 7, HALF_MILLIONTH, MICRO / 2);
    OneFill(5, MICRO / 2);
  }

  lemma HalfNumbers()
    ensures Small(MICRO / 2) && HalfAway(MICRO / 2, MICRO) == 1 && Decrement(5, MICRO / 2) == 5 && Max(4, 0) == 4
  {
  }

  lemma OneFill(base: int, raw: Dec)
    ensures [] + [raw] == [raw] && Promised(base, [raw]) == Max(base - HalfAway(raw, MICRO), 0)
  {
    hide HalfAway;
    assert [raw][..0] == [];
    assert Total([raw]) == Total([]) + HalfAway(raw, MICRO);
  }

  const FILLED: seq<Event> := [Insert(DRAFT, 0)] + [Persist(0, Fill(7, NumText(7)), 0)]

  /** Seven millionths filled against five leave nothing. */
  lemma OrderRunsOut()
    ensures var s := Protocol.After(FILLED);
            PARENT in s.orders && SameTerms(RowOfDraft(DRAFT, 0), s.orders[PARENT]) && s.orders[PARENT].remaining == 0
            && TradeKey(8, 9, 0) !in s.trades
    ensures Protocol.LastWrite(FILLED, PARENT) == 5 && Protocol.FillsSince(FILLED, PARENT) == [] + [7 * MICRO]
  {
    var placed: seq<Event> := [Insert(DRAFT, 0)];
    assert FILLED == placed + [Persist(0, Fill(7, NumText(7)), 0)];
    assert TradeKey(8, 9, 0) != TradeKey(7, 9, 0);
    hide *;
    ParseOfNumText(7);
    PlacedAccount();
    RefundNumbers();
    FillAccount(placed, 7, NumText(7), 7 * MICRO);
    FillStored(Protocol.After(placed), 7, NumText(7), 7 * MICRO);
  }

  /** One put back then remains, where the difference is nothing. */
  lemma RefundRemains()
    ensures var evs := FILLED + [Drop(0)] + [Persist(0, Fill(8, NumText(-1)), 0)];
            var s := Protocol.After(evs);
            PARENT in s.orders && s.orders[PARENT].remaining == 1
            && Promised(Protocol.LastWrite(evs, PARENT), Protocol.FillsSince(evs, PARENT)) == 0
  {
    hide *;
    OrderRunsOut();
    LetGo(FILLED);
    RefundAfter(FILLED + [Drop(0)]);
    TwoFills();
  }

  lemma RefundAfter(evs: seq<Event>)
    requires HandOf(Protocol.After(evs), 0) == Free && TradeKey(8, 9, 0) !in Protocol.After(evs).trades
    requires var s := Protocol.After(evs);
             PARENT in s.orders && SameTerms(RowOfDraft(DRAFT, 0), s.orders[PARENT]) && s.orders[PARENT].remaining == 0
    ensures var all := evs + [Persist(0, Fill(8, NumText(-1)), 0)];
            PARENT in Protocol.After(all).orders && Protocol.After(all).orders[PARENT].remaining == 1
            && Protocol.LastWrite(all, PARENT) == Protocol.LastWrite(evs, PARENT)
            && Protocol.FillsSince(all, PARENT) == Protocol.FillsSince(evs, PARENT) + [-MICRO]
  {
    assert Ours(Protocol.After(evs)) by { hide SameTerms, RowOfDraft, Protocol.After; }
    hide *;
    ParseOfNumText(-1);
    RefundNumbers();
    FillAccount(evs, 8, NumText(-1), -MICRO);
    FillStored(Protocol.After(evs), 8, NumText(-1), -MICRO);
  }

  lemma RefundNumbers()
    ensures Small(7 * MICRO) && Small(-MICRO) && Decrement(5, 7 * MICRO) == 0 && Decrement(0, -MICRO) == 1
  {
  }

  lemma LetGo(evs: seq<Event>)
    ensures var all := evs + [Drop(0)];
            HandOf(Protocol.After(all), 0) == Free && Protocol.After(all).orders == Protocol.After(evs).orders
            && Protocol.After(all).trades == Protocol.After(evs).trades
            && Protocol.LastWrite(all, PARENT) == Protocol.LastWrite(evs, PARENT)
            && Protocol.FillsSince(all, PARENT) == Protocol.FillsSince(evs, PARENT)
  {
    var all := evs + [Drop(0)];
    assert Protocol.Front(all) == evs && Protocol.Last(all) == Drop(0);
    Clients.Snoc(evs, Drop(0));
    hide Protocol.After;
    Protocol.AccountStep(all, PARENT);
  }

  lemma TwoFills()
    ensures [] + [7 * MICRO] + [-MICRO] == [7 * MICRO, -MICRO] && Promised(5, [7 * MICRO, -MICRO]) == 0
  {
    var fills := [7 * MICRO, -MICRO];
    assert fills[..1] == [7 * MICRO] && fills[..1][..0] == [];
    assert Total(fills[..1]) == 7;
  }
}
