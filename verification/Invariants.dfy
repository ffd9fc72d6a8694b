/**
What every run keeps.

Each conjunct of Inv is preserved by every event, so it holds after any sequence of
events: any interleaving of streams, recoveries, repairs, retries, submits, cancels and
order events, with crashes anywhere.
*/
module Invariants {
  import opened Options
  import opened Decimals
  import opened Money
  import opened Clock
  import opened Store
  import opened Quantities

  // ---------------------------------------------------------------- fills counted against an order

  function RawAt(origin: map<TradeKey, TradeMsg>, t: TradeKey): Dec { if t in origin then RawOf(origin[t]) else 0 }

  /** The fills of some trades, in the order the trades were stored. */
  function RawsOf(origin: map<TradeKey, TradeMsg>, ts: seq<TradeKey>): seq<Dec> {
    if ts == [] then [] else RawsOf(origin, ts[..|ts| - 1]) + [RawAt(origin, ts[|ts| - 1])]
  }

  lemma {:induction false} RawsFrame(a: map<TradeKey, TradeMsg>, b: map<TradeKey, TradeMsg>, ts: seq<TradeKey>)
    requires forall t :: t in ts ==> t in a && t in b && a[t] == b[t]
    ensures RawsOf(a, ts) == RawsOf(b, ts)
  {
    hide RawOf;
    if ts != [] {
      assert ts[|ts| - 1] in ts;
      RawsFrame(a, b, ts[..|ts| - 1]);
    }
  }

  lemma RawsSnoc(origin: map<TradeKey, TradeMsg>, ts: seq<TradeKey>, t: TradeKey)
    requires t in origin
    ensures RawsOf(origin, ts + [t]) == RawsOf(origin, ts) + [RawOf(origin[t])]
  {
    hide RawOf;
    assert (ts + [t])[..|ts|] == ts;
  }

  // ---------------------------------------------------------------- the invariant

  ghost predicate OrdersOk(s: State) {
    && s.base.Keys == s.orders.Keys && s.since.Keys == s.orders.Keys
    && (forall k :: k in s.orders ==>
          k.ref < s.nextRef && k.day == LocalDay(s.orders[k].submittedAt)
          && s.orders[k].submittedAt <= s.clock && Fits(s.orders[k].remaining))
    && UniqueRefs(s.orders.Keys)
  }

  /** ref_id alone identifies an order. */
  ghost predicate UniqueRefs(ks: set<OrderKey>) { forall k, j :: k in ks && j in ks && k.ref == j.ref ==> k == j }

  /** A stored row is what the first delivery and its parent order determine. */
  ghost predicate RowOk(s: State, t: TradeKey)
    requires t in s.trades
  {
    && t in s.origin && KeyOf(s.origin[t]) == t
    && ParentOf(s.origin[t]) in s.orders
    && var o, m := s.orders[ParentOf(s.origin[t])], s.origin[t];
       RowFor(o, m, s.trades[t].executedAt).Some? && SameFill(RowFor(o, m, s.trades[t].executedAt).value, s.trades[t])
  }

  ghost predicate TradesOk(s: State) {
    && s.origin.Keys == s.trades.Keys
    && forall t :: t in s.trades ==> RowOk(s, t)
  }

  /** Fills counted against an order are stored trades of that order, none of them counted twice. */
  ghost predicate SinceOk(s: State) {
    && (forall k, t :: k in s.since && t in s.since[k] ==> t in s.trades && t in s.origin && ParentOf(s.origin[t]) == k)
    && forall k :: k in s.since ==> Unrepeated(s.since[k])
  }

  predicate Unrepeated(ts: seq<TradeKey>) { forall i, j :: 0 <= i < j < |ts| ==> ts[i] != ts[j] }

  /**
  The remaining quantity of an order is its last absolute value with the fills of the
  trades first delivered since that write taken off one by one.
  */
  ghost predicate Balanced(s: State, k: OrderKey)
    requires k in s.orders && k in s.base && k in s.since
  {
    s.orders[k].remaining == Drawn(s.base[k], RawsOf(s.origin, s.since[k]))
  }

  ghost predicate RemainingOk(s: State) {
    && s.base.Keys == s.orders.Keys && s.since.Keys == s.orders.Keys
    && forall k :: k in s.orders ==> Balanced(s, k)
  }

  function Succeeded(calls: seq<Call>): set<TradeKey> { set c | c in calls && c.ok :: c.key }

  /** A handler call for this trade succeeded, or there was no handler to run. */
  ghost predicate Vouched(s: State, t: TradeKey) { t in Succeeded(s.calls) || t in s.waived }

  ghost predicate HandOk(s: State, h: Hand) {
    match h
    case Free => true
    case Stored(k, settled, _) => k in s.trades && (settled ==> s.trades[k].settled)
    case Acked(k, settled, _) => k in s.trades && k in s.acks && (settled ==> s.trades[k].settled)
    case Owed(k, _) => k in s.trades
    case Paid(k) => k in s.trades && Vouched(s, k)
    case Refused(k, _) => k in s.trades
  }

  ghost predicate FlagsOk(s: State) {
    && s.acks <= s.trades.Keys
    && s.waived <= s.trades.Keys
    && (forall c :: c in s.calls ==> c.key in s.trades)
    && (forall t :: t in s.trades && s.trades[t].ack ==> t in s.acks)
    && (forall t :: t in s.trades && s.trades[t].settled ==> Vouched(s, t))
    && (forall a :: a in s.hands ==> HandOk(s, s.hands[a]))
  }

  ghost predicate Inv(s: State) {
    OrdersOk(s) && TradesOk(s) && SinceOk(s) && RemainingOk(s) && FlagsOk(s)
  }

  lemma InvParts(s: State)
    requires Inv(s)
    ensures OrdersOk(s) && TradesOk(s) && SinceOk(s) && RemainingOk(s) && FlagsOk(s)
  {
  }

  // ---------------------------------------------------------------- growth: what no event takes back

  /** Later states keep every order's terms, every stored fill, every flag, ack and call. */
  ghost predicate Grows(s: State, u: State) {
    && (forall k :: k in s.orders ==> k in u.orders && SameTerms(s.orders[k], u.orders[k]))
    && (forall t :: t in s.trades ==>
          t in u.trades && SameFill(s.trades[t], u.trades[t])
          && (s.trades[t].ack ==> u.trades[t].ack) && (s.trades[t].settled ==> u.trades[t].settled))
    && (forall t :: t in s.origin ==> t in u.origin && u.origin[t] == s.origin[t])
    && s.acks <= u.acks && s.waived <= u.waived
    && s.calls <= u.calls && s.nextRef <= u.nextRef && s.clock <= u.clock
  }

  lemma GrowsRefl(s: State)
    ensures Grows(s, s)
  {
  }

  lemma GrowsTrans(s: State, u: State, v: State)
    requires Grows(s, u) && Grows(u, v)
    ensures Grows(s, v)
  {
  }

  /** A change of flags, hands and history only: no order and no fill is touched. */
  ghost predicate Bookkeeping(s: State, u: State) {
    && u.orders == s.orders && u.base == s.base && u.since == s.since && u.origin == s.origin
    && u.nextRef == s.nextRef && u.clock == s.clock && u.trades.Keys == s.trades.Keys
    && (forall t :: t in s.trades ==>
          SameFill(s.trades[t], u.trades[t])
          && (s.trades[t].ack ==> u.trades[t].ack) && (s.trades[t].settled ==> u.trades[t].settled))
    && s.acks <= u.acks && s.waived <= u.waived && s.calls <= u.calls
  }

  lemma BookkeepingRefl(s: State)
    ensures Bookkeeping(s, s)
  {
  }

  lemma BookkeepingTrans(s: State, u: State, v: State)
    requires Bookkeeping(s, u) && Bookkeeping(u, v)
    ensures Bookkeeping(s, v)
  {
  }

  /** The event that stores a new trade. */
  ghost predicate FirstDelivery(s: State, e: Event) {
    e.Persist? && HandOf(s, e.actor) == Free && Accepts(s, e.msg) && KeyOf(e.msg) !in s.trades
  }

  predicate OrderEvent(e: Event) { e.Insert? || e.Reply? || e.Overwrite? }

  /** Rewriting the flags of one row, with whatever hand and history change goes with it. */
  lemma FlagEditBookkeeps(s: State, u: State, k: TradeKey, row: TradeRow)
    requires k in s.trades && SameFill(s.trades[k], row)
    requires (s.trades[k].ack ==> row.ack) && (s.trades[k].settled ==> row.settled)
    requires u == s.(trades := s.trades[k := row], hands := u.hands)
    ensures Bookkeeping(s, u)
  {
  }

  lemma AckBookkeeps(s: State, a: nat)
    ensures Bookkeeping(s, DoMarkAck(s, a))
  {
    match HandOf(s, a)
    case Acked(k, _, _) =>
      if k in s.trades {
        hide Bookkeeping;
        FlagEditBookkeeps(s, DoMarkAck(s, a), k, s.trades[k].(ack := true));
      }
    case _ =>
  }

  lemma SendBookkeeps(s: State, a: nat)
    ensures Bookkeeping(s, DoSendAck(s, a))
  {
  }

  lemma SettledBookkeeps(s: State, a: nat)
    ensures Bookkeeping(s, DoMarkSettled(s, a))
  {
    match HandOf(s, a)
    case Paid(k) =>
      if k in s.trades {
        hide Bookkeeping;
        FlagEditBookkeeps(s, DoMarkSettled(s, a), k, s.trades[k].(settled := true, settleError := None));
      }
    case _ =>
  }

  lemma FailureBookkeeps(s: State, a: nat)
    ensures Bookkeeping(s, DoRecordFailure(s, a))
  {
    match HandOf(s, a)
    case Refused(k, why) =>
      if k in s.trades && s.trades[k].attempts < MAX_ATTEMPTS {
        hide Bookkeeping;
        FlagEditBookkeeps(s, DoRecordFailure(s, a), k,
                          s.trades[k].(attempts := s.trades[k].attempts + 1, settleError := Some(why)));
      }
    case _ =>
  }

  lemma WaiveBookkeeps(s: State, a: nat)
    ensures Bookkeeping(s, DoWaive(s, a))
  {
  }

  lemma HandsOnly(s: State, u: State)
    requires u == s.(hands := u.hands, calls := u.calls) && s.calls <= u.calls
    ensures Bookkeeping(s, u)
  {
  }

  lemma HandStepsBookkeep(s: State, e: Event)
    requires e.CallHandler? || e.Pick? || e.Drop? || (e.Persist? && !FirstDelivery(s, e))
    ensures Bookkeeping(s, Step(s, e))
  {
    hide RowFor, PayFor, Decrement, Calc, Bookkeeping, Fits;
    HandsOnly(s, Step(s, e));
  }

  lemma ActorStepBookkeeps(s: State, e: Event)
    requires !OrderEvent(e) && !FirstDelivery(s, e)
    ensures Bookkeeping(s, Step(s, e))
  {
    hide Bookkeeping, FirstDelivery;
    if e.CallHandler? || e.Pick? || e.Drop? || e.Persist? {
      HandStepsBookkeep(s, e);
    } else {
      AckBookkeeps(s, e.actor);
      SendBookkeeps(s, e.actor);
      SettledBookkeeps(s, e.actor);
      FailureBookkeeps(s, e.actor);
      WaiveBookkeeps(s, e.actor);
    }
  }

  lemma InsertGrows(s: State, d: Draft, at: int)
    requires OrdersOk(s)
    ensures Grows(s, DoInsert(s, d, at))
  {
    assert OrderKey(LocalDay(at), s.nextRef) !in s.orders;
    hide LocalDay, Fits, Insertable, RowOfDraft, OrdersOk;
  }

  /** Rewriting one order's changeable columns. */
  lemma EditGrows(s: State, u: State, k: OrderKey)
    requires k in s.orders && k in u.orders && SameTerms(s.orders[k], u.orders[k])
    requires u == s.(orders := s.orders[k := u.orders[k]], base := u.base, since := u.since)
    ensures Grows(s, u)
  {
  }

  lemma ReplyGrows(s: State, k: OrderKey, status: int, orderId: int)
    ensures Grows(s, DoReply(s, k, status, orderId))
  {
    GrowsRefl(s);
    hide Grows;
    if k in s.orders { EditGrows(s, DoReply(s, k, status, orderId), k); }
  }

  lemma OverwriteGrows(s: State, k: OrderKey, status: int, remaining: int)
    ensures Grows(s, DoOverwrite(s, k, status, remaining))
  {
    GrowsRefl(s);
    hide Grows, Fits;
    if k in s.orders && Fits(remaining) { EditGrows(s, DoOverwrite(s, k, status, remaining), k); }
  }

  lemma OrderStepGrows(s: State, e: Event)
    requires OrdersOk(s) && OrderEvent(e)
    ensures Grows(s, Step(s, e))
  {
    hide Grows, OrdersOk;
    match e
    case Insert(d, at) => InsertGrows(s, d, at);
    case Reply(k, status, orderId) => ReplyGrows(s, k, status, orderId);
    case Overwrite(k, status, remaining) => OverwriteGrows(s, k, status, remaining);
  }

  lemma DeliveryGrows(s: State, e: Event)
    requires TradesOk(s) && FirstDelivery(s, e)
    ensures Grows(s, Step(s, e))
  {
    hide RowFor, PayFor, Decrement, Calc, RowOk;
  }

  lemma StepGrows(s: State, e: Event)
    requires OrdersOk(s) && TradesOk(s)
    ensures Grows(s, Step(s, e))
  {
    if OrderEvent(e) {
      OrderStepGrows(s, e);
    } else if FirstDelivery(s, e) {
      DeliveryGrows(s, e);
    } else {
      ActorStepBookkeeps(s, e);
      BookkeepingGrows(s, Step(s, e));
    }
  }

  lemma BookkeepingGrows(s: State, u: State)
    requires Bookkeeping(s, u)
    ensures Grows(s, u)
  {
  }

  lemma SucceededGrows(a: seq<Call>, b: seq<Call>)
    requires a <= b
    ensures Succeeded(a) <= Succeeded(b)
  {
    forall t | t in Succeeded(a) ensures t in Succeeded(b) {
      var i :| 0 <= i < |a| && a[i].ok && a[i].key == t;
      assert b[i] == a[i] && b[i] in b;
    }
  }

  // ---------------------------------------------------------------- preservation

  // Bookkeeping events.

  lemma BookkeepingKeepsOrders(s: State, u: State)
    requires Bookkeeping(s, u) && OrdersOk(s)
    ensures OrdersOk(u)
  {
  }

  lemma BookkeepingKeepsTrades(s: State, u: State)
    requires Bookkeeping(s, u) && TradesOk(s)
    ensures TradesOk(u)
  {
    hide RowOk;
    BookkeepingGrows(s, u);
    forall t | t in u.trades ensures RowOk(u, t) { RowKept(s, u, t); }
  }

  lemma BookkeepingKeepsRemaining(s: State, u: State)
    requires Bookkeeping(s, u) && RemainingOk(s) && SinceOk(s) && Grows(s, u)
    ensures RemainingOk(u)
  {
    hide Balanced, SinceOk, Grows, SameFill;
    forall k | k in u.orders ensures Balanced(u, k) { BalanceKept(s, u, k); }
  }

  lemma BookkeepingKeepsSince(s: State, u: State)
    requires Bookkeeping(s, u) && SinceOk(s)
    ensures SinceOk(u)
  {
    hide SameFill;
  }

  /** A row stays what its first delivery determined as long as its parent keeps its terms. */
  lemma RowKept(s: State, u: State, t: TradeKey)
    requires t in s.trades && RowOk(s, t) && Grows(s, u)
    ensures RowOk(u, t)
  {
    RowForTerms(s.orders[ParentOf(s.origin[t])], u.orders[ParentOf(s.origin[t])], s.origin[t], s.trades[t].executedAt);
    hide RowFor;
  }

  lemma RowForTerms(o: OrderRow, p: OrderRow, m: TradeMsg, now: int)
    requires SameTerms(o, p)
    ensures RowFor(o, m, now) == RowFor(p, m, now) && PayFor(o, m.filled, m.rate) == PayFor(p, m.filled, m.rate)
  {
    hide Calc, Numeric, Parse;
  }

  /** An event that neither stores a trade of an order nor writes its quantity leaves its balance alone. */
  lemma BalanceKept(s: State, u: State, k: OrderKey)
    requires SinceOk(s) && Grows(s, u)
    requires k in s.orders && k in s.base && k in s.since && Balanced(s, k)
    requires k in u.since && u.since[k] == s.since[k] && k in u.base && u.base[k] == s.base[k]
    requires u.orders[k].remaining == s.orders[k].remaining
    ensures Balanced(u, k)
  {
    hide SameFill, SameTerms, RawOf, Drawn, Unrepeated;
    RawsFrame(s.origin, u.origin, s.since[k]);
  }

  // Events on orders.

  lemma InsertKeepsOrders(s: State, d: Draft, at: int)
    requires OrdersOk(s)
    ensures OrdersOk(DoInsert(s, d, at))
  {
    hide LocalDay, Fits, UniqueRefs;
    if Insertable(d) {
      var k := OrderKey(LocalDay(at), s.nextRef);
      NewRefIsUnique(s.orders.Keys, k);
      assert DoInsert(s, d, at).orders.Keys == s.orders.Keys + {k};
    }
  }

  lemma NewRefIsUnique(ks: set<OrderKey>, k: OrderKey)
    requires UniqueRefs(ks) && forall j :: j in ks ==> j.ref != k.ref
    ensures UniqueRefs(ks + {k})
  {
  }

  lemma ReplyKeepsOrders(s: State, k: OrderKey, status: int, orderId: int)
    requires OrdersOk(s)
    ensures OrdersOk(DoReply(s, k, status, orderId))
  {
    hide OrdersOk;
    if k in s.orders { EditedOrders(s, DoReply(s, k, status, orderId), k, Replied(s.orders[k], status, orderId)); }
  }

  lemma OverwriteKeepsOrders(s: State, k: OrderKey, status: int, remaining: int)
    requires OrdersOk(s)
    ensures OrdersOk(DoOverwrite(s, k, status, remaining))
  {
    hide LocalDay, Fits, UniqueRefs;
    if k in s.orders && Fits(remaining) {
      EditedOrders(s, DoOverwrite(s, k, status, remaining), k, s.orders[k].(status := status, remaining := remaining));
    }
  }

  lemma EditedOrders(s: State, u: State, p: OrderKey, row: OrderRow)
    requires OrdersOk(s) && p in s.orders && u.orders == s.orders[p := row]
    requires (Fits(s.orders[p].remaining) ==> Fits(row.remaining)) && row.submittedAt == s.orders[p].submittedAt
    requires u.base.Keys == s.base.Keys && u.since.Keys == s.since.Keys && u.nextRef == s.nextRef && u.clock == s.clock
    ensures OrdersOk(u)
  {
    hide Fits, LocalDay, UniqueRefs;
    assert u.orders.Keys == s.orders.Keys;
  }

  lemma OrderStepKeepsOrders(s: State, e: Event)
    requires OrdersOk(s) && OrderEvent(e)
    ensures OrdersOk(Step(s, e))
  {
    hide OrdersOk;
    match e
    case Insert(d, at) => InsertKeepsOrders(s, d, at);
    case Reply(k, status, orderId) => ReplyKeepsOrders(s, k, status, orderId);
    case Overwrite(k, status, remaining) => OverwriteKeepsOrders(s, k, status, remaining);
  }

  lemma OrderStepKeepsTrades(s: State, e: Event)
    requires OrdersOk(s) && TradesOk(s) && OrderEvent(e)
    ensures TradesOk(Step(s, e))
  {
    hide RowOk, Grows;
    var u := Step(s, e);
    OrderStepGrows(s, e);
    assert u.trades == s.trades && u.origin == s.origin;
    forall t | t in u.trades ensures RowOk(u, t) { RowKept(s, u, t); }
  }

  /** An absolute write starts a fresh account. */
  lemma FreshBalance(u: State, k: OrderKey)
    requires k in u.orders && k in u.base && k in u.since
    requires u.since[k] == [] && u.orders[k].remaining == u.base[k]
    ensures Balanced(u, k)
  {
  }

  lemma InsertKeepsRemaining(s: State, d: Draft, at: int)
    requires OrdersOk(s) && SinceOk(s) && RemainingOk(s) && Grows(s, DoInsert(s, d, at))
    ensures RemainingOk(DoInsert(s, d, at))
  {
    var u, j := DoInsert(s, d, at), OrderKey(LocalDay(at), s.nextRef);
    hide Balanced, Grows, SinceOk, LocalDay, Fits, OrdersOk;
    forall k | k in u.orders ensures Balanced(u, k) {
      if k == j && u != s { FreshBalance(u, k); } else { BalanceKept(s, u, k); }
    }
  }

  lemma RepliedKeepsRemaining(o: OrderRow, status: int, orderId: int)
    ensures Replied(o, status, orderId).remaining == o.remaining
  {
  }

  lemma ReplyTouchesNoAccount(s: State, j: OrderKey, status: int, orderId: int)
    ensures var u := DoReply(s, j, status, orderId);
            u.base == s.base && u.since == s.since && u.orders.Keys == s.orders.Keys
            && forall k :: k in s.orders ==> u.orders[k].remaining == s.orders[k].remaining
  {
    if j in s.orders { RepliedKeepsRemaining(s.orders[j], status, orderId); }
    hide Replied;
  }

  lemma AccountsKept(s: State, u: State)
    requires SinceOk(s) && RemainingOk(s) && Grows(s, u)
    requires u.base == s.base && u.since == s.since && u.orders.Keys == s.orders.Keys
    requires forall k :: k in s.orders ==> k in u.orders && u.orders[k].remaining == s.orders[k].remaining
    ensures RemainingOk(u)
  {
    hide Balanced, Grows, SinceOk;
    forall k | k in u.orders ensures Balanced(u, k) { BalanceKept(s, u, k); }
  }

  lemma ReplyKeepsRemaining(s: State, j: OrderKey, status: int, orderId: int)
    requires SinceOk(s) && RemainingOk(s) && Grows(s, DoReply(s, j, status, orderId))
    ensures RemainingOk(DoReply(s, j, status, orderId))
  {
    hide *;
    ReplyTouchesNoAccount(s, j, status, orderId);
    AccountsKept(s, DoReply(s, j, status, orderId));
  }

  lemma OverwriteKeepsRemaining(s: State, j: OrderKey, status: int, remaining: int)
    requires SinceOk(s) && RemainingOk(s) && Grows(s, DoOverwrite(s, j, status, remaining))
    ensures RemainingOk(DoOverwrite(s, j, status, remaining))
  {
    var u := DoOverwrite(s, j, status, remaining);
    hide Balanced, Grows, SinceOk, Fits;
    forall k | k in u.orders ensures Balanced(u, k) {
      if k == j && u != s { FreshBalance(u, k); } else { BalanceKept(s, u, k); }
    }
  }

  lemma OrderStepKeepsRemaining(s: State, e: Event)
    requires OrdersOk(s) && SinceOk(s) && RemainingOk(s) && OrderEvent(e)
    requires Grows(s, Step(s, e))
    ensures RemainingOk(Step(s, e))
  {
    hide RemainingOk, Grows, OrdersOk, SinceOk;
    match e
    case Insert(d, at) => InsertKeepsRemaining(s, d, at);
    case Reply(k, status, orderId) => ReplyKeepsRemaining(s, k, status, orderId);
    case Overwrite(k, status, remaining) => OverwriteKeepsRemaining(s, k, status, remaining);
  }

  lemma OrderStepKeepsSince(s: State, e: Event)
    requires OrdersOk(s) && SinceOk(s) && OrderEvent(e)
    ensures SinceOk(Step(s, e))
  {
    hide Fits, Insertable, Replied, OrdersOk, LocalDay;
  }

  // First deliveries.

  lemma DeliveryKeepsOrders(s: State, e: Event)
    requires OrdersOk(s) && FirstDelivery(s, e)
    ensures OrdersOk(Step(s, e))
  {
    DeliveredOrder(s, e);
    hide *;
    EditedOrders(s, Step(s, e), ParentOf(e.msg), Step(s, e).orders[ParentOf(e.msg)]);
  }

  /** What a first delivery does to its parent order, and that it touches no other. */
  lemma DeliveredOrder(s: State, e: Event)
    requires FirstDelivery(s, e) && OrdersOk(s)
    ensures ParentOf(e.msg) in s.orders
    ensures var u, o, left := Step(s, e), s.orders[ParentOf(e.msg)],
        Decrement(s.orders[ParentOf(e.msg)].remaining, RawOf(e.msg));
            Fits(left) && u.orders == s.orders[ParentOf(e.msg) := o.(status := e.msg.orderStatus, remaining := left)]
            && u.base == s.base && u.since.Keys == s.since.Keys && u.nextRef == s.nextRef && u.clock == s.clock
  {
    hide RowFor, PayFor, Decrement, Fits, LocalDay;
  }

  lemma DeliveryKeepsTrades(s: State, e: Event)
    requires TradesOk(s) && FirstDelivery(s, e)
    ensures TradesOk(Step(s, e))
  {
    hide RowOk, Grows;
    var u := Step(s, e);
    DeliveryGrows(s, e);
    NewRowOk(s, e);
    assert u.trades.Keys == s.trades.Keys + {KeyOf(e.msg)} == u.origin.Keys;
    forall t | t in u.trades ensures RowOk(u, t) {
      if t in s.trades { RowKept(s, u, t); }
    }
  }

  lemma NewRowOk(s: State, e: Event)
    requires FirstDelivery(s, e)
    ensures KeyOf(e.msg) in Step(s, e).trades && RowOk(Step(s, e), KeyOf(e.msg))
  {
    hide Calc, Numeric, Parse, Decrement;
  }

  /** A first delivery adds its fill to the parent's account and takes it off the parent's quantity. */
  lemma DeliveryBalances(s: State, e: Event)
    requires TradesOk(s) && SinceOk(s) && RemainingOk(s) && FirstDelivery(s, e)
    ensures var u, k := Step(s, e), ParentOf(e.msg);
            k in s.orders && k in u.orders && k in u.base && k in u.since && Balanced(u, k)
            && u.orders[k].remaining == Max(s.orders[k].remaining - TakenBy(RawOf(e.msg)), 0)
  {
    assert e.Persist?;
    hide *;
    DeliveryHistory(s, e);
    NewRowFilled(s, e);
    DecrementTakes(s.orders[ParentOf(e.msg)].remaining, RawOf(e.msg));
    OneMoreBalances(s, Step(s, e), ParentOf(e.msg), KeyOf(e.msg), e.msg);
  }

  lemma OneMoreBalances(s: State, u: State, k: OrderKey, t: TradeKey, m: TradeMsg)
    requires SinceOk(s) && RemainingOk(s) && k in s.orders && k in s.since && t !in s.origin
    requires u.origin == s.origin[t := m]
    requires k in u.orders && u.base == s.base && k in u.base && k in u.since && u.since[k] == s.since[k] + [t]
    requires u.orders[k].remaining == Decrement(s.orders[k].remaining, RawOf(m))
    ensures Balanced(u, k)
  {
    hide *;
    CountedThere(s, k);
    RawsFrame(s.origin, u.origin, s.since[k]);
    RawsSnoc(u.origin, s.since[k], t);
    DrawnMore(s.base[k], RawsOf(s.origin, s.since[k]), RawOf(m));
    IsBalanced(u, k);
  }

  lemma CountedThere(s: State, k: OrderKey)
    requires SinceOk(s) && RemainingOk(s) && k in s.orders && k in s.since
    ensures forall x :: x in s.since[k] ==> x in s.origin
    ensures k in s.base && s.orders[k].remaining == Drawn(s.base[k], RawsOf(s.origin, s.since[k]))
  {
    hide RawsOf, Drawn, Unrepeated;
    assert Balanced(s, k);
  }

  lemma IsBalanced(s: State, k: OrderKey)
    requires k in s.orders && k in s.base && k in s.since
    requires s.orders[k].remaining == Drawn(s.base[k], RawsOf(s.origin, s.since[k]))
    ensures Balanced(s, k)
  {
  }

  lemma DrawnMore(base: int, fills: seq<Dec>, raw: Dec)
    ensures Drawn(base, fills + [raw]) == Decrement(Drawn(base, fills), raw)
  {
    hide Decrement;
    assert (fills + [raw])[..|fills|] == fills;
  }

  lemma DeliveryHistory(s: State, e: Event)
    requires TradesOk(s) && SinceOk(s) && RemainingOk(s) && FirstDelivery(s, e)
    ensures var u, k, t := Step(s, e), ParentOf(e.msg), KeyOf(e.msg);
            k in s.orders && k in u.orders && k in s.since && u.base == s.base && k in u.since && k in u.base
            && u.since == s.since[k := s.since[k] + [t]] && t !in s.since[k] && t !in s.origin
            && u.origin == s.origin[t := e.msg] && u.trades.Keys == s.trades.Keys + {t}
            && forall j :: j in s.trades ==> u.trades[j] == s.trades[j]
  {
    hide RowFor, PayFor, Decrement, RowOk, Balanced;
    assert ParentOf(e.msg) in s.since;
    assert KeyOf(e.msg) !in s.since[ParentOf(e.msg)];
  }

  lemma NewRowFilled(s: State, e: Event)
    requires FirstDelivery(s, e)
    ensures KeyOf(e.msg) in Step(s, e).trades && ParentOf(e.msg) in Step(s, e).orders
    ensures Step(s, e).trades[KeyOf(e.msg)].filled == HalfAway(RawOf(e.msg), MICRO)
    ensures Step(s, e).orders[ParentOf(e.msg)].remaining == Decrement(s.orders[ParentOf(e.msg)].remaining, RawOf(e.msg))
  {
    hide Parse, HalfAway, Decrement;
  }

  lemma DeliveryKeepsSince(s: State, e: Event)
    requires TradesOk(s) && SinceOk(s) && RemainingOk(s) && FirstDelivery(s, e)
    ensures SinceOk(Step(s, e))
  {
    assert e.Persist?;
    hide *;
    DeliveryHistory(s, e);
    OneMoreSince(s, Step(s, e), ParentOf(e.msg), KeyOf(e.msg), e.msg);
  }

  lemma OneMoreSince(s: State, u: State, k: OrderKey, t: TradeKey, m: TradeMsg)
    requires SinceOk(s) && k in s.since && u.since == s.since[k := s.since[k] + [t]] && t !in s.since[k]
    requires ParentOf(m) == k
    requires u.origin == s.origin[t := m] && u.trades.Keys == s.trades.Keys + {t}
    requires t !in s.origin
    ensures SinceOk(u)
  {
    UnrepeatedMore(s.since[k], t);
    hide Unrepeated;
    forall j, x | j in u.since && x in u.since[j] ensures x in u.trades && x in u.origin && ParentOf(u.origin[x]) == j {
      if x in s.since[j] { assert x in s.trades && x in s.origin; }
    }
  }

  lemma UnrepeatedMore(ts: seq<TradeKey>, t: TradeKey)
    requires Unrepeated(ts) && t !in ts
    ensures Unrepeated(ts + [t])
  {
  }

  lemma DeliveryKeepsRemaining(s: State, e: Event)
    requires OrdersOk(s) && TradesOk(s) && SinceOk(s) && RemainingOk(s) && FirstDelivery(s, e)
    requires Grows(s, Step(s, e))
    ensures RemainingOk(Step(s, e))
  {
    hide Balanced, RowFor, PayFor, Decrement, RowOk, TradesOk, SinceOk, Grows;
    var u := Step(s, e);
    forall k | k in u.orders ensures Balanced(u, k) {
      if k == ParentOf(e.msg) { DeliveryBalances(s, e); } else { BalanceKept(s, u, k); }
    }
  }

  /** The trades one event adds to the table. */
  lemma TradesAfter(u: State, e: Event)
    requires Inv(u)
    ensures Step(u, e).trades.Keys == u.trades.Keys + (if FirstDelivery(u, e) then {KeyOf(e.msg)} else {})
  {
    hide FirstDelivery, SameFill, Balanced, RowOk, OrdersOk, FlagsOk;
    if OrderEvent(e) {
      hide Fits, Insertable;
      assert !FirstDelivery(u, e) by { assert !e.Persist?; NotPersist(u, e); }
    } else if FirstDelivery(u, e) {
      DeliveryHistory(u, e);
      hide Step;
    } else {
      ActorStepBookkeeps(u, e);
      hide Step;
    }
  }

  lemma FirstIsPersist(u: State, e: Event)
    ensures FirstDelivery(u, e) ==> e.Persist?
  {
  }

  lemma NotPersist(u: State, e: Event)
    requires !e.Persist?
    ensures !FirstDelivery(u, e)
  {
  }

  // Acks, settled flags and handler calls.

  /** Facts about a trade that later states keep. */
  lemma HandKept(s: State, u: State, h: Hand)
    requires HandOk(s, h) && Grows(s, u)
    ensures HandOk(u, h)
  {
    SucceededGrows(s.calls, u.calls);
  }

  lemma VouchedKept(s: State, u: State, t: TradeKey)
    requires Vouched(s, t) && Grows(s, u)
    ensures Vouched(u, t)
  {
    SucceededGrows(s.calls, u.calls);
  }

  /** An event changes one hand at most; the tables' own flags are checked apart. */
  lemma FlagsFromParts(s: State, u: State, a: nat)
    requires FlagsOk(s) && Grows(s, u)
    requires HandOk(u, HandOf(u, a)) && forall b :: b in u.hands && b != a ==> b in s.hands && u.hands[b] == s.hands[b]
    requires u.acks <= u.trades.Keys && u.waived <= u.trades.Keys && forall c :: c in u.calls ==> c.key in u.trades
    requires forall t :: t in u.trades && u.trades[t].ack ==> t in u.acks
    requires forall t :: t in u.trades && u.trades[t].settled ==>
              (t in s.trades && s.trades[t].settled) || Vouched(u, t)
    ensures FlagsOk(u)
  {
    hide Grows, HandOk, Vouched;
    forall b | b in u.hands ensures HandOk(u, u.hands[b]) {
      if b != a { HandKept(s, u, s.hands[b]); }
    }
    forall t | t in u.trades && u.trades[t].settled ensures Vouched(u, t) {
      if t in s.trades && s.trades[t].settled { VouchedKept(s, u, t); }
    }
  }

  lemma CallKeepsFlags(s: State, e: Event)
    requires FlagsOk(s) && e.CallHandler?
    ensures FlagsOk(Step(s, e))
  {
    var u, h := Step(s, e), HandOf(s, e.actor);
    HandStepsBookkeep(s, e);
    BookkeepingGrows(s, u);
    if Due(h).Some? {
      var c := Call(Due(h).value.0, Due(h).value.1, e.ok);
      assert u.calls == s.calls + [c];
      assert c in u.calls;
      FlagsFromParts(s, u, e.actor);
    }
  }

  lemma SendKeepsFlags(s: State, e: Event)
    requires FlagsOk(s) && e.SendAck? && Grows(s, Step(s, e))
    ensures FlagsOk(Step(s, e))
  {
    assert HandOk(s, HandOf(s, e.actor));
    HandKept(s, Step(s, e), HandOf(s, e.actor));
    hide Grows, Succeeded;
    FlagsFromParts(s, Step(s, e), e.actor);
  }

  lemma AckKeepsFlags(s: State, e: Event)
    requires FlagsOk(s) && e.MarkAck? && Grows(s, Step(s, e))
    ensures FlagsOk(Step(s, e))
  {
    assert HandOk(s, HandOf(s, e.actor));
    HandKept(s, Step(s, e), HandOf(s, e.actor));
    hide Grows, Succeeded;
    FlagsFromParts(s, Step(s, e), e.actor);
  }

  lemma WaiveKeepsFlags(s: State, e: Event)
    requires FlagsOk(s) && (e.Waive?) && Grows(s, Step(s, e))
    ensures FlagsOk(Step(s, e))
  {
    assert HandOk(s, HandOf(s, e.actor));
    hide Grows, Succeeded;
    if Due(HandOf(s, e.actor)).Some? { FlagsFromParts(s, Step(s, e), e.actor); }
  }

  lemma SettledKeepsFlags(s: State, e: Event)
    requires FlagsOk(s) && (e.MarkSettled?) && Grows(s, Step(s, e))
    ensures FlagsOk(Step(s, e))
  {
    assert HandOk(s, HandOf(s, e.actor));
    HandKept(s, Step(s, e), HandOf(s, e.actor));
    hide Grows, Succeeded;
    FlagsFromParts(s, Step(s, e), e.actor);
  }

  lemma FailureKeepsFlags(s: State, e: Event)
    requires FlagsOk(s) && (e.RecordFailure?) && Grows(s, Step(s, e))
    ensures FlagsOk(Step(s, e))
  {
    assert HandOk(s, HandOf(s, e.actor));
    HandKept(s, Step(s, e), HandOf(s, e.actor));
    hide Grows, Succeeded;
    FlagsFromParts(s, Step(s, e), e.actor);
  }

  lemma NewRowUnflagged(s: State, e: Event)
    requires FirstDelivery(s, e)
    ensures var u := Step(s, e);
            KeyOf(e.msg) in u.trades && !u.trades[KeyOf(e.msg)].ack && !u.trades[KeyOf(e.msg)].settled
  {
    hide Calc, Numeric, Parse, Decrement;
  }

  lemma PersistKeepsFlags(s: State, e: Event)
    requires FlagsOk(s) && e.Persist? && Grows(s, Step(s, e))
    ensures FlagsOk(Step(s, e))
  {
    hide RowFor, PayFor, Decrement, Grows, Vouched;
    if FirstDelivery(s, e) {
      NewRowUnflagged(s, e);
    }
    HandKept(s, Step(s, e), HandOf(s, e.actor));
    FlagsFromParts(s, Step(s, e), e.actor);
  }

  lemma PickKeepsFlags(s: State, e: Event)
    requires FlagsOk(s) && (e.Pick? || e.Drop?) && Grows(s, Step(s, e))
    ensures FlagsOk(Step(s, e))
  {
    hide RowFor, PayFor, Decrement, Grows, Vouched;
    HandKept(s, Step(s, e), HandOf(s, e.actor));
    FlagsFromParts(s, Step(s, e), e.actor);
  }

  lemma OrderEventKeepsFlags(s: State, e: Event)
    requires FlagsOk(s) && OrderEvent(e) && Grows(s, Step(s, e))
    ensures FlagsOk(Step(s, e))
  {
    hide Grows;
    HandKept(s, Step(s, e), HandOf(s, 0));
    FlagsFromParts(s, Step(s, e), 0);
  }

  lemma StepFlags(s: State, e: Event)
    requires FlagsOk(s) && Grows(s, Step(s, e))
    ensures FlagsOk(Step(s, e))
  {
    hide FlagsOk, Grows;
    if OrderEvent(e) { OrderEventKeepsFlags(s, e); }
    else if e.CallHandler? { CallKeepsFlags(s, e); }
    else if e.Persist? { PersistKeepsFlags(s, e); }
    else if e.Pick? || e.Drop? { PickKeepsFlags(s, e); }
    else if e.Waive? { WaiveKeepsFlags(s, e); }
    else if e.MarkSettled? { SettledKeepsFlags(s, e); }
    else if e.RecordFailure? { FailureKeepsFlags(s, e); }
    else if e.MarkAck? { AckKeepsFlags(s, e); }
    else { SendKeepsFlags(s, e); }
  }

  lemma StepInv(s: State, e: Event)
    requires Inv(s)
    ensures Inv(Step(s, e)) && Grows(s, Step(s, e))
  {
    hide OrdersOk, TradesOk, SinceOk, RemainingOk, FlagsOk, Grows, Bookkeeping, FirstDelivery, OrderEvent;
    StepGrows(s, e);
    StepFlags(s, e);
    if OrderEvent(e) {
      OrderStepKeepsOrders(s, e);
      OrderStepKeepsTrades(s, e);
      OrderStepKeepsRemaining(s, e);
      OrderStepKeepsSince(s, e);
    } else if FirstDelivery(s, e) {
      DeliveryKeepsOrders(s, e);
      DeliveryKeepsTrades(s, e);
      DeliveryKeepsRemaining(s, e);
      DeliveryKeepsSince(s, e);
    } else {
      ActorStepBookkeeps(s, e);
      BookkeepingKeepsOrders(s, Step(s, e));
      BookkeepingKeepsTrades(s, Step(s, e));
      BookkeepingKeepsRemaining(s, Step(s, e));
      BookkeepingKeepsSince(s, Step(s, e));
    }
  }

  /** The invariant holds after every run. */
  lemma {:induction false} RunInv(s: State, evs: seq<Event>)
    requires Inv(s)
    ensures Inv(Run(s, evs)) && Grows(s, Run(s, evs))
  {
    GrowsRefl(s);
    if evs != [] {
      hide Inv, Grows, Step;
      var front := evs[..|evs| - 1];
      RunInv(s, front);
      StepInv(Run(s, front), evs[|evs| - 1]);
      GrowsTrans(s, Run(s, front), Run(s, evs));
    }
  }

  lemma InitInv()
    ensures Inv(Init())
  {
  }
}
