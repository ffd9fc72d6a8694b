/**
The local database and everything the SDK's actors do to it, one atomic statement or
transaction at a time: go/v1/trade.go, go/v1/order.go and the tables of go/db.sql.

A state holds the two tables, what each running actor has in hand between two
statements, and the history a reader of the tables cannot see: which trades were acked
to the Core, which handler calls were made, and what each order's remaining quantity was
last set to. A disabled event leaves the state as it is, so every sequence of events is
a run and every interleaving, redelivery and crash is one of them.
*/
module Store {
  import opened Options
  import opened Decimals
  import opened Money
  import opened Clock

  // ---------------------------------------------------------------- rows

  /** JSONB fee column: unreadable as a map of strings, or a configuration whose "fixed" entry may be absent. */
  datatype FeeColumn = Unreadable | FeeConfig(fixed: Option<string>)

  datatype OrderKey = OrderKey(day: int, ref: int)

  /** client_orders; account is absent when the column is not a map of strings. */
  datatype OrderRow = OrderRow(
    submittedAt: int, partner: string, client: string, side: int, pair: string, orderType: int,
    quantity: int, limitRate: Option<int>, account: Option<string>, fee: FeeColumn,
    status: int, orderId: Option<int>, remaining: int)

  datatype TradeKey = TradeKey(tradeId: int, orderId: int, day: int)

  /** client_trades; amounts in millionths. */
  datatype TradeRow = TradeRow(
    executedAt: int, ref: int, side: int, filled: int, rate: int, settlement: int, fee: int,
    partner: string, client: string, tradeType: int,
    ack: bool, settled: bool, attempts: int, settleError: Option<string>)

  /** A trade as the Core sends it; executedAt is the parsed instant, absent when it does not parse. */
  datatype TradeMsg = TradeMsg(
    partner: string, tradeId: int, orderId: int, orderStatus: int, orderDay: int, tradingDay: int, ref: int,
    side: int, filled: string, rate: string, executedAt: Option<int>, tradeType: int)

  function KeyOf(m: TradeMsg): TradeKey { TradeKey(m.tradeId, m.orderId, m.tradingDay) }

  function ParentOf(m: TradeMsg): OrderKey { OrderKey(m.orderDay, m.ref) }

  /** What the partner's handler is asked to move. */
  datatype Pay = Pay(side: int, pair: string, account: string, client: string, settlement: Dec, fee: Dec)

  datatype Call = Call(key: TradeKey, pay: Pay, ok: bool)

  /** What an actor holds between two statements. */
  datatype Hand =
    | Free
    | Stored(key: TradeKey, settled: bool, pay: Pay)
    | Acked(key: TradeKey, settled: bool, pay: Pay)
    | Owed(key: TradeKey, pay: Pay)
    | Paid(key: TradeKey)
    | Refused(key: TradeKey, why: string)

  datatype State = State(
    orders: map<OrderKey, OrderRow>,
    trades: map<TradeKey, TradeRow>,
    nextRef: int,
    clock: int,
    hands: map<nat, Hand>,
    base: map<OrderKey, int>,
    since: map<OrderKey, seq<TradeKey>>,
    origin: map<TradeKey, TradeMsg>,
    acks: set<TradeKey>,
    waived: set<TradeKey>,
    calls: seq<Call>)

  function Init(): State { State(map[], map[], 1, 0, map[], map[], map[], map[], {}, {}, []) }

  function HandOf(s: State, a: nat): Hand { if a in s.hands then s.hands[a] else Free }

  function WithHand(s: State, a: nat, h: Hand): State { s.(hands := s.hands[a := h]) }

  // ---------------------------------------------------------------- derived values

  /** The columns nothing ever rewrites. */
  predicate SameTerms(a: OrderRow, b: OrderRow) {
    a.(status := b.status, orderId := b.orderId, remaining := b.remaining) == b
  }

  /** Everything of a trade row but the bookkeeping flags. */
  predicate SameFill(a: TradeRow, b: TradeRow) {
    a.(ack := b.ack, settled := b.settled, attempts := b.attempts, settleError := b.settleError) == b
  }

  predicate Readable(o: OrderRow) { o.account.Some? && o.fee.FeeConfig? }

  /** Enrichment from the parent order followed by Cal. */
  function PayFor(o: OrderRow, filled: string, rate: string): Option<Pay> {
    if !Readable(o) then None else
    match Calc(filled, rate, o.side, o.fee.fixed)
    case None => None
    case Some(r) => Some(Pay(o.side, o.pair, o.account.value, o.client, r.settlement, r.fee))
  }

  /** The row the INSERT writes for a priced trade; absent when a value overflows its column. */
  function InsertedRow(o: OrderRow, m: TradeMsg, pay: Pay, now: int): Option<TradeRow> {
    match (Parse(m.filled), Parse(m.rate))
    case (Some(rawQ), Some(rawR)) =>
      (match (Numeric(rawQ), Numeric(rawR), Numeric(pay.settlement), Numeric(pay.fee))
       case (Some(q), Some(r), Some(t), Some(f)) =>
         Some(TradeRow(if m.executedAt.Some? then m.executedAt.value else now, m.ref, o.side, q, r, t, f,
                       m.partner, o.client, m.tradeType, false, false, 0, None))
       case _ => None)
    case _ => None
  }

  /** The row of a message under its parent order; absent when Cal fails or a value overflows. */
  function RowFor(o: OrderRow, m: TradeMsg, now: int): Option<TradeRow> {
    match PayFor(o, m.filled, m.rate)
    case None => None
    case Some(pay) => InsertedRow(o, m, pay, now)
  }

  function RawOf(m: TradeMsg): Dec {
    match Parse(m.filled) case Some(d) => d case None => 0
  }

  function Max(a: int, b: int): int { if a >= b then a else b }

  /** GREATEST(remaining_quantity - $2::numeric, 0): the cast keeps every place, the column rounds the result. */
  function Decrement(remaining: int, raw: Dec): int { HalfAway(Max(remaining * MICRO - raw, 0), MICRO) }

  /** Whether the persist transaction commits for this message, the database willing. */
  predicate Accepts(s: State, m: TradeMsg) {
    && ParentOf(m) in s.orders
    && RowFor(s.orders[ParentOf(m)], m, 0).Some?
    && (KeyOf(m) !in s.trades ==> Fits(Decrement(s.orders[ParentOf(m)].remaining, RawOf(m))))
  }

  /** What RetryUnsettled computes from a stored row and the order its ref_id leads to. */
  function StoredPay(o: OrderRow, row: TradeRow): Option<Pay> {
    match PayFor(o, NumText(row.filled), NumText(row.rate))
    case None => None
    case Some(p) => Some(p.(client := row.client))
  }

  // ---------------------------------------------------------------- events

  /** What SubmitOrder writes, its decimals already in millionths. */
  datatype Draft = Draft(
    partner: string, client: string, side: int, pair: string, orderType: int,
    quantity: int, limitRate: Option<int>, account: Option<string>, fee: FeeColumn)

  const PENDING := 1
  const DUPLICATE := 10
  const UNKNOWN := 0
  /** Largest SMALLINT. */
  const MAX_ATTEMPTS := 32767

  datatype Event =
    | Insert(draft: Draft, at: int)
    | Reply(order: OrderKey, status: int, orderId: int)
    | Overwrite(order: OrderKey, status: int, remaining: int)
    | Persist(actor: nat, msg: TradeMsg, now: int)
    | SendAck(actor: nat)
    | MarkAck(actor: nat)
    | CallHandler(actor: nat, ok: bool, why: string)
    | Waive(actor: nat)
    | MarkSettled(actor: nat)
    | RecordFailure(actor: nat)
    | Pick(actor: nat, key: TradeKey, parent: OrderKey)
    | Drop(actor: nat)

  function RowOfDraft(d: Draft, at: int): OrderRow {
    OrderRow(at, d.partner, d.client, d.side, d.pair, d.orderType, d.quantity, d.limitRate, d.account, d.fee,
             PENDING, None, d.quantity)
  }

  /** Both decimals fit their columns. */
  predicate Insertable(d: Draft) { Fits(d.quantity) && (d.limitRate.Some? ==> Fits(d.limitRate.value)) }

  /** SubmitOrder's INSERT: the day and the reference come from the database. */
  function DoInsert(s: State, d: Draft, at: int): State {
    var k := OrderKey(LocalDay(at), s.nextRef);
    if !Insertable(d) then s else
    s.(orders := s.orders[k := RowOfDraft(d, at)], nextRef := s.nextRef + 1, clock := Max(s.clock, at),
       base := s.base[k := d.quantity], since := s.since[k := []])
  }

  /** The row after the Core's answer to a submit. */
  function Replied(o: OrderRow, status: int, orderId: int): OrderRow {
    var id := if orderId == 0 then None else Some(orderId);
    if status == DUPLICATE || status == UNKNOWN then o
    else if status == PENDING then (if orderId == 0 then o else o.(orderId := id))
    else o.(status := status, orderId := id)
  }

  function DoReply(s: State, k: OrderKey, status: int, orderId: int): State {
    if k !in s.orders then s else s.(orders := s.orders[k := Replied(s.orders[k], status, orderId)])
  }

  /** The absolute write of a cancel reply or an order event. */
  function DoOverwrite(s: State, k: OrderKey, status: int, remaining: int): State {
    if k !in s.orders || !Fits(remaining) then s else
    s.(orders := s.orders[k := s.orders[k].(status := status, remaining := remaining)],
       base := s.base[k := remaining], since := s.since[k := []])
  }

  /** First delivery: the trade row and the decremented parent, together. */
  function StoreNew(s: State, m: TradeMsg, now: int): State
    requires Accepts(s, m) && KeyOf(m) !in s.trades
  {
    var k, o := KeyOf(m), s.orders[ParentOf(m)];
    var left := Decrement(o.remaining, RawOf(m));
    s.(trades := s.trades[k := RowFor(o, m, now).value],
       orders := s.orders[ParentOf(m) := o.(status := m.orderStatus, remaining := left)],
       origin := s.origin[k := m],
       since := s.since[ParentOf(m) := (if ParentOf(m) in s.since then s.since[ParentOf(m)] else []) + [k]])
  }

  /** The event persistTrade hands on. */
  function PayOf(s: State, m: TradeMsg): Pay
    requires Accepts(s, m)
  {
    PayFor(s.orders[ParentOf(m)], m.filled, m.rate).value
  }

  /** persistTrade's transaction: a redelivery only reports the settled flag. */
  function DoPersist(s: State, a: nat, m: TradeMsg, now: int): State {
    var k := KeyOf(m);
    if HandOf(s, a) != Free || !Accepts(s, m) then s
    else if k in s.trades then WithHand(s, a, Stored(k, s.trades[k].settled, PayOf(s, m)))
    else WithHand(StoreNew(s, m, now), a, Stored(k, false, PayOf(s, m)))
  }

  function DoSendAck(s: State, a: nat): State {
    match HandOf(s, a)
    case Stored(k, settled, pay) => WithHand(s, a, Acked(k, settled, pay)).(acks := s.acks + {k})
    case _ => s
  }

  function DoMarkAck(s: State, a: nat): State {
    match HandOf(s, a)
    case Acked(k, _, _) => if k in s.trades then s.(trades := s.trades[k := s.trades[k].(ack := true)]) else s
    case _ => s
  }

  /** The settlement an actor is about to run, if it holds one. */
  function Due(h: Hand): Option<(TradeKey, Pay)> {
    match h
    case Stored(k, settled, pay) => if settled then None else Some((k, pay))
    case Acked(k, settled, pay) => if settled then None else Some((k, pay))
    case Owed(k, pay) => Some((k, pay))
    case _ => None
  }

  function DoCallHandler(s: State, a: nat, ok: bool, why: string): State {
    match Due(HandOf(s, a))
    case Some((k, pay)) =>
      WithHand(s, a, if ok then Paid(k) else Refused(k, why)).(calls := s.calls + [Call(k, pay, ok)])
    case None => s
  }

  function DoWaive(s: State, a: nat): State {
    match Due(HandOf(s, a))
    case Some((k, _)) => WithHand(s, a, Paid(k)).(waived := s.waived + {k})
    case None => s
  }

  function DoMarkSettled(s: State, a: nat): State {
    match HandOf(s, a)
    case Paid(k) =>
      if k !in s.trades then s else
      WithHand(s, a, Free).(trades := s.trades[k := s.trades[k].(settled := true, settleError := None)])
    case _ => s
  }

  /** settle_attempts is a SMALLINT: at its limit the UPDATE fails and records nothing. */
  function DoRecordFailure(s: State, a: nat): State {
    match HandOf(s, a)
    case Refused(k, why) =>
      if k !in s.trades || s.trades[k].attempts >= MAX_ATTEMPTS then s else
      WithHand(s, a, Free).(trades := s.trades[k := s.trades[k].(attempts := s.trades[k].attempts + 1,
          settleError := Some(why))])
    case _ => s
  }

  /**
  RetryUnsettled takes up a row it read as unsettled, with the order the lookup by
  ref_id returned; by now another actor may have settled it.
  */
  function DoPick(s: State, a: nat, k: TradeKey, parent: OrderKey): State {
    if HandOf(s, a) != Free || k !in s.trades || parent !in s.orders || parent.ref != s.trades[k].ref then s else
    match StoredPay(s.orders[parent], s.trades[k])
    case None => s
    case Some(pay) => WithHand(s, a, Owed(k, pay))
  }

  function Step(s: State, e: Event): State {
    match e
    case Insert(d, at) => DoInsert(s, d, at)
    case Reply(k, status, orderId) => DoReply(s, k, status, orderId)
    case Overwrite(k, status, remaining) => DoOverwrite(s, k, status, remaining)
    case Persist(a, m, now) => DoPersist(s, a, m, now)
    case SendAck(a) => DoSendAck(s, a)
    case MarkAck(a) => DoMarkAck(s, a)
    case CallHandler(a, ok, why) => DoCallHandler(s, a, ok, why)
    case Waive(a) => DoWaive(s, a)
    case MarkSettled(a) => DoMarkSettled(s, a)
    case RecordFailure(a) => DoRecordFailure(s, a)
    case Pick(a, k, parent) => DoPick(s, a, k, parent)
    case Drop(a) => WithHand(s, a, Free)
  }

  function Run(s: State, evs: seq<Event>): State {
    if evs == [] then s else Step(Run(s, evs[..|evs| - 1]), evs[|evs| - 1])
  }

  lemma {:induction false} RunConcat(s: State, a: seq<Event>, b: seq<Event>)
    ensures Run(s, a + b) == Run(Run(s, a), b)
  {
    if b == [] {
      assert a + b == a;
    } else {
      assert (a + b)[..|a + b| - 1] == a + b[..|b| - 1];
      RunConcat(s, a, b[..|b| - 1]);
    }
  }
}
