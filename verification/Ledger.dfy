/**
What the partner's handler is asked to move.

`book` is the Core's own record: one message per trade. A run is faithful to it when
every delivery, from whichever path, carries the recorded values.
*/
module Ledger {
  import opened Options
  import opened Decimals
  import opened Money
  import opened Store
  import opened Invariants
  import Protocol

  type Book = map<TradeKey, TradeMsg>

  /** Two deliveries of one trade; the texts may be written differently. */
  predicate SameTrade(m: TradeMsg, b: TradeMsg) {
    && KeyOf(m) == KeyOf(b) && ParentOf(m) == ParentOf(b)
    && Parse(m.filled) == Parse(b.filled) && Parse(m.rate) == Parse(b.rate)
    && m.partner == b.partner && m.tradeType == b.tradeType && m.executedAt == b.executedAt
  }

  predicate FromBook(m: TradeMsg, book: Book) { KeyOf(m) in book && SameTrade(m, book[KeyOf(m)]) }

  predicate FaithfulEvent(e: Event, book: Book) { e.Persist? ==> FromBook(e.msg, book) }

  predicate Faithful(evs: seq<Event>, book: Book) { forall e :: e in evs ==> FaithfulEvent(e, book) }

  predicate SixPlaceText(text: string) { Parse(text).Some? ==> SixPlaces(Parse(text).value) }

  /** Every quantity and rate in the book fits six places. */
  predicate SixPlaceBook(book: Book) {
    forall t :: t in book ==> SixPlaceText(book[t].filled) && SixPlaceText(book[t].rate)
  }

  // ---------------------------------------------------------------- the row of a first delivery

  /** The columns of a trade row that name the trade and say whose it is. */
  predicate Named(row: TradeRow, t: TradeKey, p: OrderKey, o: OrderRow, m: TradeMsg, now: int) {
    && t == TradeKey(m.tradeId, m.orderId, m.tradingDay) && p == OrderKey(m.orderDay, m.ref)
    && row.ref == m.ref && row.partner == m.partner && row.tradeType == m.tradeType
    && row.side == o.side && row.client == o.client
    && row.executedAt == match m.executedAt case Some(at) => at case None => now
  }

  /** Its amounts: quantity and rate as the columns keep them, and what Cal makes of their full values. */
  ghost predicate Valued(row: TradeRow, o: OrderRow, m: TradeMsg) {
    && o.fee.FeeConfig? && Priceable(m.filled, m.rate, o.fee.fixed)
    && KeptAs(Parse(m.filled).value, row.filled) && KeptAs(Parse(m.rate).value, row.rate)
    && Priced(Parse(m.filled).value, Parse(m.rate).value, PercentOf(o.fee.fixed), o.side,
              Amounts(row.settlement * MICRO, row.fee * MICRO))
    && Fits(row.settlement) && Fits(row.fee)
  }

  /** The row that message `m`, first delivered at `now` under the order `o` of key `p`, leaves as trade `t`. */
  ghost predicate Files(row: TradeRow, t: TradeKey, p: OrderKey, o: OrderRow, m: TradeMsg, now: int) {
    o.account.Some? && Named(row, t, p, o, m, now) && Valued(row, o, m)
  }

  predicate Unflagged(row: TradeRow) { !row.ack && !row.settled && row.attempts == 0 && row.settleError == None }

  /** What the handler is asked to move for a priced trade. */
  ghost predicate Asked(pay: Pay, o: OrderRow, filled: string, rate: string) {
    && o.fee.FeeConfig? && Priceable(filled, rate, o.fee.fixed)
    && pay.side == o.side && pay.pair == o.pair && o.account == Some(pay.account) && pay.client == o.client
    && Priced(Parse(filled).value, Parse(rate).value, PercentOf(o.fee.fixed), o.side, Amounts(pay.settlement, pay.fee))
  }

  lemma PayForIs(o: OrderRow, filled: string, rate: string, pay: Pay)
    ensures PayFor(o, filled, rate) == Some(pay) <==> Asked(pay, o, filled, rate)
  {
    if Readable(o) { CalcIs(filled, rate, o.side, o.fee.fixed, Amounts(pay.settlement, pay.fee)); }
    hide Calc, Priced, Priceable, PercentOf;
  }

  lemma SixPlacesKept(d: Dec, u: int)
    requires SixPlaces(d)
    ensures Numeric(d) == Some(u) <==> d == u * MICRO && Fits(u)
  {
    NumericIs(d, u);
    hide Numeric, KeptAs, SixPlaces;
  }

  lemma PricedIsSixPlaces(q: Dec, r: Dec, percent: Dec, side: int, a: Amounts)
    requires Priced(q, r, percent, side, a)
    ensures SixPlaces(a.settlement) && SixPlaces(a.fee)
  {
    hide NearestEven, Product, Hundredth, SixPlaces;
  }

  /** The INSERT's row, without its flags: every column that says what the trade is. */
  lemma InsertedRowIs(o: OrderRow, m: TradeMsg, pay: Pay, now: int, row: TradeRow)
    requires Asked(pay, o, m.filled, m.rate)
    ensures InsertedRow(o, m, pay, now) == Some(row) <==>
              Named(row, KeyOf(m), ParentOf(m), o, m, now) && Unflagged(row)
              && KeptAs(Parse(m.filled).value, row.filled) && KeptAs(Parse(m.rate).value, row.rate)
              && pay.settlement == row.settlement * MICRO && Fits(row.settlement)
              && pay.fee == row.fee * MICRO && Fits(row.fee)
  {
    NumericIs(Parse(m.filled).value, row.filled);
    NumericIs(Parse(m.rate).value, row.rate);
    PricedIsSixPlaces(Parse(m.filled).value, Parse(m.rate).value, PercentOf(o.fee.fixed), o.side,
                      Amounts(pay.settlement, pay.fee));
    SixPlacesKept(pay.settlement, row.settlement);
    SixPlacesKept(pay.fee, row.fee);
    hide Numeric, KeptAs, Parse, Priced, PercentOf, SixPlaces, Fits;
  }

  /**
  The row persistTrade stores for a message under its parent order, and that it can store
  one at all, written out column by column.
  */
  lemma RowForIs(o: OrderRow, m: TradeMsg, now: int, row: TradeRow)
    ensures RowFor(o, m, now) == Some(row) <==>
              Files(row, KeyOf(m), ParentOf(m), o, m, now) && Unflagged(row)
  {
    var due := if o.account.Some? then Pay(o.side, o.pair, o.account.value, o.client, row.settlement * MICRO,
                                           row.fee * MICRO)
    else Pay(0, "", "", "", 0, 0);
    PayForIs(o, m.filled, m.rate, due);
    if PayFor(o, m.filled, m.rate).Some? {
      var pay := PayFor(o, m.filled, m.rate).value;
      PayForIs(o, m.filled, m.rate, pay);
      InsertedRowIs(o, m, pay, now, row);
    }
    hide PayFor, InsertedRow, KeptAs, Parse, Priced, PercentOf, Fits, Named, Unflagged, Priceable;
  }

  /** A row keeps what it was filed with while its flags and its parent's status and quantity move. */
  lemma FilesKept(s: State, u: State, t: TradeKey, p: OrderKey, m: TradeMsg, now: int)
    requires Grows(s, u) && t in s.trades && p in s.orders && Files(s.trades[t], t, p, s.orders[p], m, now)
    ensures t in u.trades && p in u.orders && Files(u.trades[t], t, p, u.orders[p], m, now)
  {
    hide Priced, KeptAs, Parse, PercentOf, Priceable, Fits;
  }

  /** A first delivery files its row, unflagged, and moves its parent to the Core's status. */
  lemma DeliveryFiles(s: State, e: Event)
    requires FirstDelivery(s, e) && OrdersOk(s)
    ensures var u, t, p := Step(s, e), KeyOf(e.msg), ParentOf(e.msg);
            t in u.trades && p in u.orders && Files(u.trades[t], t, p, u.orders[p], e.msg, e.now)
            && Unflagged(u.trades[t]) && u.orders[p].status == e.msg.orderStatus
  {
    var o := s.orders[ParentOf(e.msg)];
    DeliveredOrder(s, e);
    DeliveredRow(s, e);
    hide *;
    RowForIs(o, e.msg, e.now, Step(s, e).trades[KeyOf(e.msg)]);
    FilesTerms(Step(s, e).trades[KeyOf(e.msg)], KeyOf(e.msg), ParentOf(e.msg), o,
               Step(s, e).orders[ParentOf(e.msg)], e.msg, e.now);
  }

  lemma DeliveredRow(s: State, e: Event)
    requires FirstDelivery(s, e)
    ensures KeyOf(e.msg) in Step(s, e).trades && ParentOf(e.msg) in s.orders
    ensures RowFor(s.orders[ParentOf(e.msg)], e.msg, e.now) == Some(Step(s, e).trades[KeyOf(e.msg)])
  {
    RowForNow(s.orders[ParentOf(e.msg)], e.msg, e.now);
    hide RowFor, Decrement, Fits, PayFor;
  }

  /** Whether there is a row does not depend on the time. */
  lemma RowForNow(o: OrderRow, m: TradeMsg, now: int)
    ensures RowFor(o, m, now).Some? <==> RowFor(o, m, 0).Some?
  {
    hide PayFor, Parse, Numeric;
  }

  lemma FilesTerms(row: TradeRow, t: TradeKey, p: OrderKey, o: OrderRow, o': OrderRow, m: TradeMsg, now: int)
    requires Files(row, t, p, o, m, now) && SameTerms(o, o')
    ensures Files(row, t, p, o', m, now)
  {
    hide Priced, KeptAs, Parse, PercentOf, Priceable, Fits;
  }

  // ---------------------------------------------------------------- settlement recomputed from the tables

  /** What the first delivery of a stored trade asked to move. */
  ghost function FirstPay(s: State, t: TradeKey): Option<Pay>
    requires t in s.origin && ParentOf(s.origin[t]) in s.orders
  {
    PayFor(s.orders[ParentOf(s.origin[t])], s.origin[t].filled, s.origin[t].rate)
  }

  lemma PayForValues(o: OrderRow, q: string, r: string, q': string, r': string)
    requires Parse(q) == Parse(q') && Parse(r) == Parse(r')
    ensures PayFor(o, q, r) == PayFor(o, q', r')
  {
    hide Parse, Mul, Percentage;
  }

  lemma PayForParses(o: OrderRow, q: string, r: string, q': string, r': string)
    requires PayFor(o, q, r).Some? && Parse(q').Some? && Parse(r').Some?
    ensures PayFor(o, q', r').Some?
  {
    hide Parse, Mul, Percentage;
  }

  lemma RowForParts(o: OrderRow, m: TradeMsg, now: int)
    requires RowFor(o, m, now).Some?
    ensures PayFor(o, m.filled, m.rate).Some? && Parse(m.filled).Some? && Parse(m.rate).Some?
    ensures var row, pay := RowFor(o, m, now).value, PayFor(o, m.filled, m.rate).value;
            row.ref == m.ref && row.side == o.side && row.client == o.client == pay.client
            && Numeric(Parse(m.filled).value) == Some(row.filled) && Numeric(Parse(m.rate).value) == Some(row.rate)
            && Numeric(pay.settlement) == Some(row.settlement) && Numeric(pay.fee) == Some(row.fee)
  {
    hide Parse, Numeric, Mul, Percentage;
  }

  /** What a stored row was built from. */
  lemma RowSource(s: State, t: TradeKey)
    requires Inv(s) && t in s.trades
    ensures t in s.origin && KeyOf(s.origin[t]) == t && ParentOf(s.origin[t]) in s.orders && FirstPay(s, t).Some?
    ensures var o, m, row, pay := s.orders[ParentOf(s.origin[t])], s.origin[t], s.trades[t], FirstPay(s, t).value;
            row.ref == m.ref && row.side == o.side && row.client == o.client == pay.client
            && Parse(m.filled).Some? && Numeric(Parse(m.filled).value) == Some(row.filled)
            && Parse(m.rate).Some? && Numeric(Parse(m.rate).value) == Some(row.rate)
            && Numeric(pay.settlement) == Some(row.settlement) && Numeric(pay.fee) == Some(row.fee)
  {
    hide OrdersOk, SinceOk, RemainingOk, FlagsOk, RowFor, PayFor, Parse, Numeric;
    assert RowOk(s, t);
    RowForParts(s.orders[ParentOf(s.origin[t])], s.origin[t], s.trades[t].executedAt);
  }

  /** The lookup by ref_id finds the order a stored row was first enriched from, and no other. */
  lemma ParentFound(s: State, t: TradeKey)
    requires Inv(s) && t in s.trades
    ensures t in s.origin && ParentOf(s.origin[t]) in s.orders && ParentOf(s.origin[t]).ref == s.trades[t].ref
    ensures forall k :: k in s.orders && k.ref == s.trades[t].ref ==> k == ParentOf(s.origin[t])
  {
    RowSource(s, t);
    hide TradesOk, SinceOk, RemainingOk, FlagsOk, Numeric, Parse, PayFor;
  }

  /** RetryUnsettled can price every stored trade: an order is found and Cal succeeds on it. */
  lemma RetryNeverSkips(s: State, t: TradeKey)
    requires Inv(s) && t in s.trades
    ensures exists k :: k in s.orders && k.ref == s.trades[t].ref
    ensures forall k :: k in s.orders && k.ref == s.trades[t].ref ==> StoredPay(s.orders[k], s.trades[t]).Some?
  {
    ParentFound(s, t);
    RowSource(s, t);
    ParseOfNumText(s.trades[t].filled);
    ParseOfNumText(s.trades[t].rate);
    hide Inv, PayFor, Numeric, Parse;
    PayForParses(s.orders[ParentOf(s.origin[t])], s.origin[t].filled, s.origin[t].rate, NumText(s.trades[t].filled),
                 NumText(s.trades[t].rate));
  }

  /** ... and when quantity and rate fit six places it asks for exactly what the first delivery asked for. */
  lemma RetryPaysTheSame(s: State, t: TradeKey, k: OrderKey)
    requires Inv(s) && t in s.trades && t in s.origin && k in s.orders && k.ref == s.trades[t].ref
    requires SixPlaceText(s.origin[t].filled) && SixPlaceText(s.origin[t].rate)
    ensures ParentOf(s.origin[t]) in s.orders && StoredPay(s.orders[k], s.trades[t]) == FirstPay(s, t)
  {
    ParentFound(s, t);
    RowSource(s, t);
    ParseOfNumText(s.trades[t].filled);
    ParseOfNumText(s.trades[t].rate);
    hide Inv, PayFor, Parse;
    PayForValues(s.orders[k], s.origin[t].filled, s.origin[t].rate, NumText(s.trades[t].filled),
                 NumText(s.trades[t].rate));
  }

  // ---------------------------------------------------------------- every handler call asks for the same

  ghost predicate OriginsFaithful(s: State, book: Book) {
    forall t :: t in s.origin ==> FromBook(s.origin[t], book)
  }

  ghost predicate PayAgrees(s: State, t: TradeKey, pay: Pay) {
    t in s.origin && ParentOf(s.origin[t]) in s.orders && FirstPay(s, t) == Some(pay)
  }

  ghost predicate HandAgrees(s: State, h: Hand) {
    match h
    case Stored(k, _, pay) => PayAgrees(s, k, pay)
    case Acked(k, _, pay) => PayAgrees(s, k, pay)
    case Owed(k, pay) => PayAgrees(s, k, pay)
    case _ => true
  }

  ghost predicate HandsAgree(s: State) { forall a :: a in s.hands ==> HandAgrees(s, s.hands[a]) }

  ghost predicate CallsAgree(s: State) { forall c :: c in s.calls ==> PayAgrees(s, c.key, c.pay) }

  lemma PayAgreesKept(s: State, u: State, t: TradeKey, pay: Pay)
    requires PayAgrees(s, t, pay) && Grows(s, u)
    ensures PayAgrees(u, t, pay)
  {
    hide PayFor, RowFor;
    RowForTerms(s.orders[ParentOf(s.origin[t])], u.orders[ParentOf(s.origin[t])], s.origin[t], 0);
  }

  lemma OriginsStep(s: State, e: Event, book: Book)
    requires OriginsFaithful(s, book) && FaithfulEvent(e, book)
    ensures OriginsFaithful(Step(s, e), book)
  {
    hide FromBook, PayFor, RowFor, Decrement, Fits;
  }

  lemma RedeliveryAgrees(s: State, m: TradeMsg, book: Book)
    requires Inv(s) && OriginsFaithful(s, book) && FromBook(m, book) && Accepts(s, m) && KeyOf(m) in s.trades
    ensures PayAgrees(s, KeyOf(m), PayOf(s, m))
  {
    RowSource(s, KeyOf(m));
    var b := s.origin[KeyOf(m)];
    hide Inv, PayFor, RowFor, Parse, Decrement;
    assert FromBook(b, book);
    assert SameTrade(m, b);
    PayForValues(s.orders[ParentOf(b)], m.filled, m.rate, b.filled, b.rate);
  }

  lemma DeliveryAgrees(s: State, e: Event)
    requires FirstDelivery(s, e) && Grows(s, Step(s, e))
    ensures PayAgrees(Step(s, e), KeyOf(e.msg), PayOf(s, e.msg))
  {
    var u, m := Step(s, e), e.msg;
    hide PayFor, RowFor, Parse, Decrement;
    assert ParentOf(m) in u.orders;
    RowForTerms(s.orders[ParentOf(m)], u.orders[ParentOf(m)], m, 0);
  }

  /** The pay persistTrade hands on is the first delivery's, also on a redelivery. */
  lemma PersistAgrees(s: State, e: Event, book: Book)
    requires Inv(s) && OriginsFaithful(s, book) && e.Persist? && FromBook(e.msg, book)
    requires HandOf(s, e.actor) == Free && Accepts(s, e.msg) && Grows(s, Step(s, e))
    ensures PayAgrees(Step(s, e), KeyOf(e.msg), PayOf(s, e.msg))
  {
    hide Inv, OriginsFaithful, FromBook, Grows, PayAgrees, PayOf, Accepts, Step;
    if KeyOf(e.msg) in s.trades {
      RedeliveryAgrees(s, e.msg, book);
      PayAgreesKept(s, Step(s, e), KeyOf(e.msg), PayOf(s, e.msg));
    } else {
      DeliveryAgrees(s, e);
    }
  }

  lemma PickAgrees(s: State, e: Event, book: Book)
    requires Inv(s) && OriginsFaithful(s, book) && SixPlaceBook(book) && e.Pick? && Step(s, e) != s
    ensures HandOf(Step(s, e), e.actor).Owed? && PayAgrees(s, e.key, HandOf(Step(s, e), e.actor).pay)
    ensures HandOf(Step(s, e), e.actor).key == e.key
  {
    PickedHand(s, e);
    hide Parse, PayFor, StoredPay, SixPlaces, Inv, Step, HandOf;
    ParentFound(s, e.key);
    assert FromBook(s.origin[e.key], book);
    RetryPaysTheSame(s, e.key, e.parent);
  }

  /** What taking up a row puts in hand. */
  lemma PickedHand(s: State, e: Event)
    requires e.Pick? && Step(s, e) != s
    ensures e.key in s.trades && e.parent in s.orders && e.parent.ref == s.trades[e.key].ref
    ensures StoredPay(s.orders[e.parent], s.trades[e.key]).Some?
    ensures HandOf(Step(s, e), e.actor) == Owed(e.key, StoredPay(s.orders[e.parent], s.trades[e.key]).value)
  {
    hide StoredPay;
  }

  lemma HandAgreesKept(s: State, u: State, h: Hand)
    requires HandAgrees(s, h) && Grows(s, u)
    ensures HandAgrees(u, h)
  {
    hide PayAgrees, Grows;
    match h
    case Stored(k, _, pay) => PayAgreesKept(s, u, k, pay);
    case Acked(k, _, pay) => PayAgreesKept(s, u, k, pay);
    case Owed(k, pay) => PayAgreesKept(s, u, k, pay);
    case _ =>
  }

  /** The hand of the acting actor after an event. */
  lemma ActorAgrees(s: State, e: Event, book: Book)
    requires Inv(s) && OriginsFaithful(s, book) && SixPlaceBook(book) && FaithfulEvent(e, book)
    requires !OrderEvent(e) && HandsAgree(s) && Grows(s, Step(s, e))
    ensures HandAgrees(Step(s, e), HandOf(Step(s, e), e.actor))
  {
    var u := Step(s, e);
    assert HandAgrees(s, HandOf(s, e.actor));
    HandAgreesKept(s, u, HandOf(s, e.actor));
    if e.Persist? && HandOf(s, e.actor) == Free && Accepts(s, e.msg) {
      PersistAgrees(s, e, book);
      PersistHand(s, e);
    } else if e.Pick? && u != s {
      PickAgrees(s, e, book);
      PayAgreesKept(s, u, e.key, HandOf(u, e.actor).pay);
    } else {
      OtherHand(s, e);
    }
  }

  lemma PersistHand(s: State, e: Event)
    requires e.Persist? && HandOf(s, e.actor) == Free && Accepts(s, e.msg)
    ensures HandOf(Step(s, e), e.actor).Stored? && HandOf(Step(s, e), e.actor).key == KeyOf(e.msg)
    ensures HandOf(Step(s, e), e.actor).pay == PayOf(s, e.msg)
  {
    hide PayFor, RowFor, Decrement;
  }

  /** Every other event passes on the trade and pay in hand, or lets go of them. */
  lemma OtherHand(s: State, e: Event)
    requires !OrderEvent(e) && !(e.Persist? && HandOf(s, e.actor) == Free && Accepts(s, e.msg))
    requires !(e.Pick? && Step(s, e) != s)
    ensures var h, h' := HandOf(s, e.actor), HandOf(Step(s, e), e.actor);
            h' == h || (h.Stored? && h' == Acked(h.key, h.settled, h.pay)) || h'.Paid? || h'.Refused? || h' == Free
  {
    hide PayFor, RowFor, Decrement;
  }

  lemma OnlyActorMoves(s: State, e: Event)
    ensures forall b :: b in Step(s, e).hands && (OrderEvent(e) || b != e.actor) ==>
              b in s.hands && Step(s, e).hands[b] == s.hands[b]
  {
    hide PayFor, RowFor, Decrement, Fits;
  }

  lemma HandsStep(s: State, e: Event, book: Book)
    requires Inv(s) && OriginsFaithful(s, book) && SixPlaceBook(book) && FaithfulEvent(e, book)
    requires HandsAgree(s) && Grows(s, Step(s, e))
    ensures HandsAgree(Step(s, e))
  {
    var u := Step(s, e);
    OnlyActorMoves(s, e);
    if !OrderEvent(e) { ActorAgrees(s, e, book); }
    hide Step, Inv, PayAgrees, Grows, OriginsFaithful, SixPlaceBook, FaithfulEvent;
    forall a | a in u.hands ensures HandAgrees(u, u.hands[a]) {
      if OrderEvent(e) || a != e.actor { HandAgreesKept(s, u, s.hands[a]); }
    }
  }

  lemma CallsStep(s: State, e: Event)
    requires HandsAgree(s) && CallsAgree(s) && Grows(s, Step(s, e))
    ensures CallsAgree(Step(s, e))
  {
    var u := Step(s, e);
    NewCall(s, e);
    hide Step, PayAgrees, Grows;
    forall c | c in u.calls ensures PayAgrees(u, c.key, c.pay) {
      if c in s.calls {
        PayAgreesKept(s, u, c.key, c.pay);
      } else {
        assert HandAgrees(s, HandOf(s, e.actor));
        PayAgreesKept(s, u, c.key, c.pay);
      }
    }
  }

  lemma NewCall(s: State, e: Event)
    ensures forall c :: c in Step(s, e).calls ==>
              c in s.calls || (e.CallHandler? && Due(HandOf(s, e.actor)) == Some((c.key, c.pay)))
  {
    hide PayFor, RowFor, Decrement, Fits;
  }

  lemma {:induction false} RunAgrees(evs: seq<Event>, book: Book)
    requires Faithful(evs, book) && SixPlaceBook(book)
    ensures var s := Protocol.After(evs); OriginsFaithful(s, book) && HandsAgree(s) && CallsAgree(s)
  {
    if evs != [] {
      var front, e := Protocol.Front(evs), Protocol.Last(evs);
      assert forall x :: x in front ==> x in evs;
      assert e in evs;
      RunAgrees(front, book);
      Protocol.Reachable(front);
      var s := Protocol.After(front);
      assert Protocol.After(evs) == Step(s, e);
      hide Step, Inv, HandsAgree, CallsAgree, OriginsFaithful, Grows, FaithfulEvent, SixPlaceBook;
      StepInv(s, e);
      OriginsStep(s, e, book);
      HandsStep(s, e, book);
      CallsStep(s, e);
    }
  }

  // ---------------------------------------------------------------- an idempotent handler

  /** The calls at which a handler that acts once per trade actually moves money. */
  function Applied(calls: seq<Call>): seq<Call> {
    if calls == [] then [] else
    var before, c := Applied(calls[..|calls| - 1]), calls[|calls| - 1];
    if c.ok && !Has(before, c.key) then before + [c] else before
  }

  predicate Has(calls: seq<Call>, t: TradeKey) { exists c :: c in calls && c.key == t }

  lemma {:induction false} AppliedOnce(calls: seq<Call>)
    ensures forall i, j :: 0 <= i < j < |Applied(calls)| ==> Applied(calls)[i].key != Applied(calls)[j].key
    ensures forall c :: c in Applied(calls) ==> c in calls && c.ok
    ensures forall c :: c in calls && c.ok ==> Has(Applied(calls), c.key)
  {
    if calls != [] {
      var front := calls[..|calls| - 1];
      AppliedOnce(front);
      assert calls == front + [calls[|calls| - 1]];
      assert Has([calls[|calls| - 1]], calls[|calls| - 1].key) by { assert calls[|calls| - 1] in [calls[|calls| - 1]]; }
      forall c | c in calls && c.ok ensures Has(Applied(calls), c.key) {
        if Has(Applied(front), c.key) {
          var d :| d in Applied(front) && d.key == c.key;
          assert d in Applied(calls);
        } else {
          assert c in Applied(calls);
        }
      }
    }
  }

  /**
  With a handler that acts once per trade, over any run each trade moves money at most
  once, every settled trade exactly once unless there was no handler, and only stored
  trades do. When the Core keeps its word, what moves is what the trade's row says.
  */
  lemma MoneyMovesOnce(evs: seq<Event>, book: Book)
    ensures var s := Protocol.After(evs); var moved := Applied(s.calls);
            (forall i, j :: 0 <= i < j < |moved| ==> moved[i].key != moved[j].key)
            && (forall t :: t in s.trades && s.trades[t].settled && t !in s.waived ==> Has(moved, t))
            && (forall c :: c in moved ==> c.key in s.trades)
            && (Faithful(evs, book) && SixPlaceBook(book) ==> forall c :: c in moved ==> OnFile(s, c))
  {
    hide *;
    var s := Protocol.After(evs);
    Protocol.Reachable(evs);
    AppliedOnce(s.calls);
    SettledWereCalled(s);
    CalledAreStored(s);
    if Faithful(evs, book) && SixPlaceBook(book) {
      RunAgrees(evs, book);
      forall c | c in Applied(s.calls) ensures OnFile(s, c) { CallIsOnFile(s, c); }
    }
  }

  /** A call asked for what the trade's row says, on the pair and account of the order it was stored under. */
  ghost predicate OnFile(s: State, c: Call) {
    && c.key in s.trades && s.trades[c.key].side == c.pay.side && s.trades[c.key].client == c.pay.client
    && (exists p :: p in s.orders && p.ref == s.trades[c.key].ref
                    && s.orders[p].pair == c.pay.pair && s.orders[p].account == Some(c.pay.account))
    && c.pay.settlement == s.trades[c.key].settlement * MICRO && c.pay.fee == s.trades[c.key].fee * MICRO
  }

  lemma CalledAreStored(s: State)
    requires Inv(s)
    ensures forall c :: c in s.calls ==> c.key in s.trades
  {
    hide OrdersOk, TradesOk, SinceOk, RemainingOk;
  }

  lemma SettledWereCalled(s: State)
    requires Inv(s)
    ensures forall t :: t in s.trades && s.trades[t].settled && t !in s.waived ==>
              exists c :: c in s.calls && c.ok && c.key == t
  {
    hide OrdersOk, TradesOk, SinceOk, RemainingOk;
  }

  lemma CallIsOnFile(s: State, c: Call)
    requires Inv(s) && CallsAgree(s) && c in s.calls
    ensures OnFile(s, c)
  {
    assert c.key in s.trades by { hide OrdersOk, TradesOk, SinceOk, RemainingOk, CallsAgree; }
    RowSource(s, c.key);
    PaySixPlaces(s.orders[ParentOf(s.origin[c.key])], s.origin[c.key].filled, s.origin[c.key].rate);
    assert PayAgrees(s, c.key, c.pay);
    var p := ParentOf(s.origin[c.key]);
    PayForIs(s.orders[p], s.origin[c.key].filled, s.origin[c.key].rate, c.pay);
    hide Inv, PayFor, SixPlaces, Parse, Priced, Priceable, PercentOf, Numeric;
    assert p.ref == s.trades[c.key].ref;
    assert c.pay.side == s.orders[ParentOf(s.origin[c.key])].side;
  }

  lemma PaySixPlaces(o: OrderRow, q: string, r: string)
    requires PayFor(o, q, r).Some?
    ensures var p := PayFor(o, q, r).value;
            SixPlaces(p.settlement) && SixPlaces(p.fee) && p.side == o.side && p.client == o.client
  {
    AmountsAreSixPlaces(q, r, o.side, o.fee.fixed);
    hide Calc, SixPlaces;
  }
}
