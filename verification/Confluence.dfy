/**
Order, duplication and split of deliveries do not matter.

Whatever two faithful runs do from one state, the trades both of them store have the same
values. If they also deliver the same trades, through whatever mixture of streams,
recoveries and repairs, they leave the same trades stored, and the same remaining quantity
on every order that neither overwrites.
*/
module Confluence {
  import opened Options
  import opened Decimals
  import opened Store
  import opened Quantities
  import opened Invariants
  import opened Ledger
  import opened Acceptance

  // ---------------------------------------------------------------- stored values

  /** A row without its flags, and without the store time when the Core sent no execution time. */
  function Values(row: TradeRow, dated: bool): TradeRow {
    row.(ack := false, settled := false, attempts := 0, settleError := None,
         executedAt := if dated then row.executedAt else 0)
  }

  lemma {:induction false} RunOrigins(s: State, evs: seq<Event>, book: Book)
    requires OriginsFaithful(s, book) && Faithful(evs, book)
    ensures OriginsFaithful(Run(s, evs), book)
  {
    if evs != [] {
      var front, e := Protocol.Front(evs), Protocol.Last(evs);
      assert (forall x :: x in front ==> x in evs) && e in evs;
      RunOrigins(s, front, book);
      OriginsStep(Run(s, front), e, book);
      hide OriginsFaithful, FaithfulEvent, Step;
    }
  }

  lemma RowForSame(o: OrderRow, m: TradeMsg, b: TradeMsg, now: int)
    requires SameTrade(m, b)
    ensures RowFor(o, m, now) == RowFor(o, b, now)
  {
    PayForValues(o, m.filled, m.rate, b.filled, b.rate);
    hide PayFor, Parse, Numeric;
  }

  lemma RowDates(o: OrderRow, m: TradeMsg, now: int)
    ensures RowFor(o, m, now).Some? == RowFor(o, m, 0).Some?
    ensures RowFor(o, m, now).Some? ==>
              Values(RowFor(o, m, now).value, m.executedAt.Some?) == Values(RowFor(o, m, 0).value, m.executedAt.Some?)
  {
    hide PayFor, Parse, Numeric;
  }

  /** A stored row holds what the book and the terms of its parent determine. */
  lemma ValuesFromBook(s: State, u: State, book: Book, t: TradeKey)
    requires Grows(s, u) && Inv(u) && OriginsFaithful(u, book) && t in u.trades
    ensures t in book
    ensures ParentOf(book[t]) in s.orders ==>
              RowFor(s.orders[ParentOf(book[t])], book[t], 0).Some?
              && Values(u.trades[t], book[t].executedAt.Some?) ==
                 Values(RowFor(s.orders[ParentOf(book[t])], book[t], 0).value, book[t].executedAt.Some?)
  {
    assert RowOk(u, t);
    var m := u.origin[t];
    assert FromBook(m, book) && SameTrade(m, book[t]);
    var k := ParentOf(m);
    if k in s.orders {
      RowForSame(u.orders[k], m, book[t], u.trades[t].executedAt);
      RowForTerms(s.orders[k], u.orders[k], book[t], u.trades[t].executedAt);
      RowDates(s.orders[k], book[t], u.trades[t].executedAt);
      hide Inv, RowFor, SameTrade, OriginsFaithful;
    }
  }

  lemma StoredAlike(s: State, u: State, v: State, book: Book, t: TradeKey)
    requires Grows(s, u) && Grows(s, v) && Inv(u) && Inv(v) && OriginsFaithful(u, book) && OriginsFaithful(v, book)
    requires t in u.trades && t in v.trades && t in book && (t in s.trades || ParentOf(book[t]) in s.orders)
    ensures Values(u.trades[t], t in s.trades || book[t].executedAt.Some?) ==
        Values(v.trades[t], t in s.trades || book[t].executedAt.Some?)
  {
    hide Inv, RowFor, OriginsFaithful;
    if t !in s.trades {
      ValuesFromBook(s, u, book, t);
      ValuesFromBook(s, v, book, t);
    }
  }

  /**
  However two faithful runs go on from one state, with submits, cancels, order events,
  crashes and half-way or negative fills anywhere, a trade stored in both holds the same
  values in both, if its parent order was there when they parted.
  */
  lemma StoredValuesAgree(s: State, a: seq<Event>, b: seq<Event>, book: Book, t: TradeKey)
    requires Inv(s) && OriginsFaithful(s, book) && Faithful(a, book) && Faithful(b, book)
    requires t in Run(s, a).trades && t in Run(s, b).trades && t in book
    requires (t in s.trades || ParentOf(book[t]) in s.orders)
    ensures var dated := t in s.trades || book[t].executedAt.Some?;
            Values(Run(s, a).trades[t], dated) == Values(Run(s, b).trades[t], dated)
  {
    hide *;
    RunOrigins(s, a, book);
    RunOrigins(s, b, book);
    RunInv(s, a);
    RunInv(s, b);
    StoredAlike(s, Run(s, a), Run(s, b), book, t);
  }

  // ---------------------------------------------------------------- deliveries and quantities

  /** No cancel reply and no order event writes one of the orders `ks`. */
  predicate Spares(evs: seq<Event>, ks: set<OrderKey>) { forall e :: e in evs && e.Overwrite? ==> e.order !in ks }

  predicate NonNegativeBook(book: Book) { forall t :: t in book ==> RawOf(book[t]) >= 0 }

  /** The trade an event tries to store. */
  ghost function Attempt(u: State, e: Event): set<TradeKey> {
    if e.Persist? && HandOf(u, e.actor) == Free then {KeyOf(e.msg)} else {}
  }

  /** Trades whose delivery some actor actually processed. */
  ghost function Delivered(s: State, evs: seq<Event>): set<TradeKey> {
    if evs == [] then {} else
    var front, e := Protocol.Front(evs), Protocol.Last(evs);
    Delivered(s, front) + Attempt(Run(s, front), e)
  }

  /** Whether a trade of the book can be stored under an order of the state. */
  ghost predicate Storable(s: State, book: Book, t: TradeKey) { t in book && Acceptable(s, book[t]) }

  /** The trades a run adds to the orders it started with. */
  ghost function Added(s: State, evs: seq<Event>, book: Book): set<TradeKey> {
    set t | t in Delivered(s, evs) && t !in s.trades && Storable(s, book, t)
  }

  /** Those of the trades `d` that belong to one order. */
  ghost function Under(d: set<TradeKey>, book: Book, k: OrderKey): (ks: set<TradeKey>)
    ensures ks <= book.Keys
  {
    set t | t in d && t in book && ParentOf(book[t]) == k
  }

  lemma UnderOneMore(d: set<TradeKey>, t: TradeKey, book: Book, k: OrderKey)
    requires t in book
    ensures Under(d + {t}, book, k) == Under(d, book, k) + (if ParentOf(book[t]) == k then {t} else {})
  {
  }

  /** What a set of trades takes off an order that covers them. */
  ghost function SumTaken(book: Book, ks: set<TradeKey>): int
    requires ks <= book.Keys
    decreases |ks|
  {
    if ks == {} then 0 else
    var t :| t in ks;
    TakenBy(RawOf(book[t])) + SumTaken(book, ks - {t})
  }

  /** The sum does not depend on the order the set is walked in. */
  lemma {:induction false} SumPick(book: Book, ks: set<TradeKey>, t: TradeKey)
    requires ks <= book.Keys && t in ks
    ensures SumTaken(book, ks) == TakenBy(RawOf(book[t])) + SumTaken(book, ks - {t})
    decreases |ks|
  {
    hide TakenBy, RawOf;
    var j :| j in ks && SumTaken(book, ks) == TakenBy(RawOf(book[j])) + SumTaken(book, ks - {j});
    if j != t {
      SumPick(book, ks - {j}, t);
      SumPick(book, ks - {t}, j);
      assert ks - {j} - {t} == ks - {t} - {j};
    }
  }

  /** What a set of trades leaves of a quantity. */
  ghost function Spent(quantity: int, book: Book, ks: set<TradeKey>): int
    requires ks <= book.Keys
  {
    if ks == {} then quantity else Max(quantity - SumTaken(book, ks), 0)
  }

  lemma SpentOneMore(quantity: int, book: Book, ks: set<TradeKey>, t: TradeKey)
    requires ks <= book.Keys && t in book && t !in ks && RawOf(book[t]) >= 0
    ensures Spent(quantity, book, ks + {t}) == Max(Spent(quantity, book, ks) - TakenBy(RawOf(book[t])), 0)
  {
    TakenByFill(RawOf(book[t]));
    SumPick(book, ks + {t}, t);
    assert ks + {t} - {t} == ks;
    hide TakenBy, RawOf;
  }

  /** `u` is what storing the trades `d` makes of the orders of `s`. */
  ghost predicate Extended(s: State, u: State, book: Book, d: set<TradeKey>, ks: set<OrderKey>) {
    && Grows(s, u)
    && (forall t :: t in book && ParentOf(book[t]) in s.orders ==> (t in u.trades <==> t in s.trades || t in d))
    && (forall k :: k in ks && k in s.orders ==>
        u.orders[k].remaining == Spent(s.orders[k].remaining, book, Under(d, book, k)))
  }

  lemma NothingExtends(s: State, book: Book, ks: set<OrderKey>)
    ensures Extended(s, s, book, {}, ks)
  {
    GrowsRefl(s);
    hide Grows;
    assert forall k :: Under({}, book, k) == {};
  }

  /** Whether a delivery to an order of `s` is accepted depends only on `s`. */
  lemma AcceptedAnywhere(s: State, u: State, m: TradeMsg, book: Book)
    requires OrdersOk(u) && Grows(s, u) && FromBook(m, book) && NonNegativeBook(book) && ParentOf(m) in s.orders
    ensures Accepts(u, m) <==> Storable(s, book, KeyOf(m))
  {
    var b, k := book[KeyOf(m)], ParentOf(m);
    RowForSame(u.orders[k], m, b, 0);
    RowForTerms(s.orders[k], u.orders[k], b, 0);
    assert RawOf(m) == RawOf(b);
    AcceptsIff(u, m);
    hide RowFor, Parse, Accepts, OrdersOk, SameTerms, SameFill;
  }

  /** The event stores a trade of an order of `s`. */
  ghost predicate Stores(s: State, u: State, e: Event) { FirstDelivery(u, e) && ParentOf(e.msg) in s.orders }

  lemma StoresIff(s: State, u: State, e: Event, book: Book)
    requires OrdersOk(u) && Grows(s, u) && FaithfulEvent(e, book) && NonNegativeBook(book)
    ensures Stores(s, u, e) <==>
              e.Persist? && HandOf(u, e.actor) == Free && Storable(s, book, KeyOf(e.msg)) && KeyOf(e.msg) !in u.trades
  {
    hide Accepts, RowFor, Grows, NonNegativeBook, OrdersOk, HandOf;
    if e.Persist? {
      assert ParentOf(e.msg) == ParentOf(book[KeyOf(e.msg)]);
      if ParentOf(e.msg) in s.orders { AcceptedAnywhere(s, u, e.msg, book); }
    }
  }

  lemma StoreExtends(s: State, u: State, e: Event, book: Book, d: set<TradeKey>, ks: set<OrderKey>)
    requires Extended(s, u, book, d, ks) && Inv(u) && Grows(u, Step(u, e)) && NonNegativeBook(book)
    requires Stores(s, u, e) && FaithfulEvent(e, book)
    ensures Extended(s, Step(u, e), book, d + {KeyOf(e.msg)}, ks)
  {
    hide *;
    ExtendedGrows(s, u, book, d, ks);
    StoresFirst(s, u, e);
    StoredMsg(s, u, e, e.msg, book, d, ks);
  }

  lemma StoredMsg(s: State, u: State, e: Event, m: TradeMsg, book: Book, d: set<TradeKey>, ks: set<OrderKey>)
    requires Extended(s, u, book, d, ks) && Inv(u) && Grows(u, Step(u, e)) && NonNegativeBook(book) && Grows(s, u)
    requires FirstDelivery(u, e) && FaithfulEvent(e, book) && e.Persist? && e.msg == m && ParentOf(m) in s.orders
    ensures Extended(s, Step(u, e), book, d + {KeyOf(m)}, ks)
  {
    hide *;
    NewlyStored(u, e, book);
    GrowsTrans(s, u, Step(u, e));
    StoreEffect(u, e);
    OneMoreExtends(s, u, Step(u, e), book, d, ParentOf(m), KeyOf(m), ks);
  }

  /** What storing a trade does to both tables. */
  lemma StoreEffect(u: State, e: Event)
    requires Inv(u) && FirstDelivery(u, e)
    ensures var v, p := Step(u, e), ParentOf(e.msg);
            v.trades.Keys == u.trades.Keys + {KeyOf(e.msg)} && p in u.orders && p in v.orders
                && v.orders == u.orders[p := v.orders[p]]
            && v.orders[p].remaining == Max(u.orders[p].remaining - TakenBy(RawOf(e.msg)), 0)
  {
    assert e.Persist?;
    hide *;
    InvParts(u);
    TradesAfter(u, e);
    DeliveryBalances(u, e);
    DeliveredOrder(u, e);
  }

  lemma ExtendedGrows(s: State, u: State, book: Book, d: set<TradeKey>, ks: set<OrderKey>)
    requires Extended(s, u, book, d, ks)
    ensures Grows(s, u)
  {
  }

  lemma StoresFirst(s: State, u: State, e: Event)
    requires Stores(s, u, e)
    ensures e.Persist? && FirstDelivery(u, e) && ParentOf(e.msg) in s.orders
  {
  }

  lemma NewlyStored(u: State, e: Event, book: Book)
    requires FirstDelivery(u, e) && FaithfulEvent(e, book) && NonNegativeBook(book)
    ensures var t := KeyOf(e.msg);
            t !in u.trades && t in book && ParentOf(book[t]) == ParentOf(e.msg) && RawOf(e.msg) == RawOf(book[t]) >= 0
  {
    hide Accepts, Parse;
  }

  lemma OneMoreExtends(s: State, u: State, v: State, book: Book, d: set<TradeKey>, p: OrderKey, t: TradeKey,
                       ks: set<OrderKey>)
    requires Extended(s, u, book, d, ks) && Grows(s, v) && v.trades.Keys == u.trades.Keys + {t} && t !in u.trades
    requires t in book && ParentOf(book[t]) == p && p in s.orders && RawOf(book[t]) >= 0
    requires p in u.orders && p in v.orders && v.orders == u.orders[p := v.orders[p]]
    requires v.orders[p].remaining == Max(u.orders[p].remaining - TakenBy(RawOf(book[t])), 0)
    ensures Extended(s, v, book, d + {t}, ks)
  {
    hide Grows, Under, Spent, RawOf, TakenBy;
    assert t !in d;
    forall k | k in ks && k in s.orders
      ensures k in v.orders && v.orders[k].remaining == Spent(s.orders[k].remaining, book, Under(d + {t}, book, k))
    {
      StillOrdered(s, v, k);
      UnderOneMore(d, t, book, k);
      if k == p {
        NotUnder(d, t, book, k);
        SpentOneMore(s.orders[k].remaining, book, Under(d, book, k), t);
      } else {
        assert Under(d, book, k) + {} == Under(d, book, k);
      }
    }
  }

  lemma NotUnder(d: set<TradeKey>, t: TradeKey, book: Book, k: OrderKey)
    requires t !in d
    ensures t !in Under(d, book, k)
  {
  }

  lemma StillOrdered(s: State, u: State, k: OrderKey)
    requires Grows(s, u) && k in s.orders
    ensures k in u.orders
  {
    hide SameFill;
  }

  lemma OthersExtend(s: State, u: State, e: Event, book: Book, d: set<TradeKey>, ks: set<OrderKey>)
    requires Extended(s, u, book, d, ks) && Inv(u) && Grows(u, Step(u, e))
    requires !Stores(s, u, e) && (e.Overwrite? ==> e.order !in ks) && FaithfulEvent(e, book)
    ensures Extended(s, Step(u, e), book, d, ks)
  {
    var v := Step(u, e);
    hide *;
    InvParts(u);
    ExtendedGrows(s, u, book, d, ks);
    if FirstDelivery(u, e) { NotOurs(s, u, e, book); }
    GrowsTrans(s, u, v);
    TradesAfter(u, e);
    forall k | k in ks && k in s.orders
        ensures k in u.orders && k in v.orders && v.orders[k].remaining == u.orders[k].remaining {
      QuantityStays(s, u, e, k);
    }
    SameExtends(s, u, v, book, d, ks);
  }

  lemma NotOurs(s: State, u: State, e: Event, book: Book)
    requires !Stores(s, u, e) && FaithfulEvent(e, book) && FirstDelivery(u, e)
    ensures KeyOf(e.msg) in book && ParentOf(book[KeyOf(e.msg)]) !in s.orders
  {
    hide Accepts, Parse;
  }

  lemma SameExtends(s: State, u: State, v: State, book: Book, d: set<TradeKey>, ks: set<OrderKey>)
    requires Extended(s, u, book, d, ks) && Grows(s, v)
    requires forall t :: t in book && ParentOf(book[t]) in s.orders ==> (t in v.trades <==> t in u.trades)
    requires forall k :: k in ks && k in s.orders ==>
              k in u.orders && k in v.orders && v.orders[k].remaining == u.orders[k].remaining
    ensures Extended(s, v, book, d, ks)
  {
    hide Grows, Spent, Under;
  }

  lemma QuantityStays(s: State, u: State, e: Event, k: OrderKey)
    requires Grows(s, u) && OrdersOk(u) && !Stores(s, u, e) && (e.Overwrite? ==> e.order != k) && k in s.orders
    ensures k in u.orders && k in Step(u, e).orders && Step(u, e).orders[k].remaining == u.orders[k].remaining
  {
    assert k in u.orders && Protocol.Written(u, e, k).None? && Protocol.NewFill(u, e, k).None? by {
      hide FirstDelivery, Insertable, SameTerms, SameFill;
    }
    hide *;
    Protocol.RemainingUntouched(u, e, k);
  }

  /**
  A faithful run adds exactly the storable trades it delivers, and takes exactly their
  fills off the orders it does not overwrite.
  */
  lemma {:induction false} RunExtends(s: State, evs: seq<Event>, book: Book, ks: set<OrderKey>)
    requires Inv(s) && Spares(evs, ks) && Faithful(evs, book) && NonNegativeBook(book)
    ensures Extended(s, Run(s, evs), book, Added(s, evs, book), ks)
  {
    if evs == [] {
      NothingExtends(s, book, ks);
      hide Inv, Extended;
      assert Added(s, evs, book) == {};
    } else {
      var front, e := Protocol.Front(evs), Protocol.Last(evs);
      assert (forall x :: x in front ==> x in evs) && e in evs;
      assert Run(s, evs) == Step(Run(s, front), e);
      hide Inv, Extended, FaithfulEvent, NonNegativeBook, Grows, Step, Added, Run, Stores;
      RunExtends(s, front, book, ks);
      RunInv(s, front);
      StepInv(Run(s, front), e);
      AddedStep(s, front, evs, e, book, ks);
      if Stores(s, Run(s, front), e) {
        StoreExtends(s, Run(s, front), e, book, Added(s, front, book), ks);
      } else {
        OthersExtend(s, Run(s, front), e, book, Added(s, front, book), ks);
      }
    }
  }

  lemma AddedStep(s: State, front: seq<Event>, evs: seq<Event>, e: Event, book: Book, ks: set<OrderKey>)
    requires evs != [] && front == Protocol.Front(evs) && e == Protocol.Last(evs) && FaithfulEvent(e, book)
    requires NonNegativeBook(book)
    requires Inv(Run(s, front)) && Extended(s, Run(s, front), book, Added(s, front, book), ks)
    ensures Added(s, evs, book) ==
              if Stores(s, Run(s, front), e) then Added(s, front, book) + {KeyOf(e.msg)} else Added(s, front, book)
  {
    var u := Run(s, front);
    hide *;
    InvParts(u);
    ExtendedGrows(s, u, book, Added(s, front, book), ks);
    DeliveredStep(s, front, evs, e);
    StoresIff(s, u, e, book);
    AddedMore(s, front, evs, book, Attempt(u, e));
    AttemptAdds(s, u, e, book, Added(s, front, book), ks);
  }

  lemma DeliveredStep(s: State, front: seq<Event>, evs: seq<Event>, e: Event)
    requires evs != [] && front == Protocol.Front(evs) && e == Protocol.Last(evs)
    ensures Delivered(s, evs) == Delivered(s, front) + Attempt(Run(s, front), e)
  {
    hide Run;
  }

  lemma AddedMore(s: State, front: seq<Event>, evs: seq<Event>, book: Book, x: set<TradeKey>)
    requires Delivered(s, evs) == Delivered(s, front) + x
    ensures Added(s, evs, book) == Added(s, front, book) + (set t | t in x && t !in s.trades && Storable(s, book, t))
  {
    hide Delivered, Storable;
  }

  lemma AttemptAdds(s: State, u: State, e: Event, book: Book, d: set<TradeKey>, ks: set<OrderKey>)
    requires Extended(s, u, book, d, ks)
    requires Stores(s, u, e) <==>
               e.Persist? && HandOf(u, e.actor) == Free && Storable(s, book, KeyOf(e.msg)) && KeyOf(e.msg) !in u.trades
    ensures d + (set t | t in Attempt(u, e) && t !in s.trades && Storable(s, book, t)) ==
              if Stores(s, u, e) then d + {KeyOf(e.msg)} else d
  {
    hide Stores, HandOf, RowFor, Grows, Spent, Under;
  }

  // ---------------------------------------------------------------- two runs

  lemma ExtensionsAgree(s: State, u: State, v: State, book: Book, d: set<TradeKey>, ks: set<OrderKey>)
    requires Extended(s, u, book, d, ks) && Extended(s, v, book, d, ks)
    ensures forall t :: t in book && ParentOf(book[t]) in s.orders ==> (t in u.trades <==> t in v.trades)
    ensures forall k :: k in ks && k in s.orders ==>
              k in u.orders && k in v.orders && u.orders[k].remaining == v.orders[k].remaining
  {
    hide Under, Spent, SameFill;
  }

  /**
  Two faithful runs that deliver the same storable trades, in whatever order, repetition and
  split and with anything else in between, store the same trades of the orders they started
  with, and leave the same quantity on each of those orders that neither overwrites. The
  stored values agree by StoredValuesAgree.
  */
  lemma DeliveriesCommute(s: State, a: seq<Event>, b: seq<Event>, book: Book)
    requires Inv(s) && NonNegativeBook(book) && Faithful(a, book) && Faithful(b, book)
    requires forall t :: Storable(s, book, t) ==> (t in Delivered(s, a) <==> t in Delivered(s, b))
    ensures var u, v := Run(s, a), Run(s, b);
            (forall t :: t in book && ParentOf(book[t]) in s.orders ==> (t in u.trades <==> t in v.trades))
            && (forall k :: k in s.orders && Spares(a, {k}) && Spares(b, {k}) ==>
                  k in u.orders && k in v.orders && u.orders[k].remaining == v.orders[k].remaining)
  {
    var ks := set k | k in s.orders && Spares(a, {k}) && Spares(b, {k});
    assert Spares(a, ks) by { AllSpared(a, ks); }
    assert Spares(b, ks) by { AllSpared(b, ks); }
    RunExtends(s, a, book, ks);
    RunExtends(s, b, book, ks);
    SameAdded(s, a, b, book);
    hide Run, Extended, Inv, NonNegativeBook, Faithful, Delivered, Storable, Added, Spares;
    ExtensionsAgree(s, Run(s, a), Run(s, b), book, Added(s, a, book), ks);
  }

  lemma AllSpared(evs: seq<Event>, ks: set<OrderKey>)
    requires forall k :: k in ks ==> Spares(evs, {k})
    ensures Spares(evs, ks)
  {
    forall k | k in ks ensures forall e :: e in evs && e.Overwrite? ==> e.order != k {
      assert Spares(evs, {k}) && k in {k};
    }
  }

  lemma SameAdded(s: State, a: seq<Event>, b: seq<Event>, book: Book)
    requires forall t :: Storable(s, book, t) ==> (t in Delivered(s, a) <==> t in Delivered(s, b))
    ensures Added(s, a, book) == Added(s, b, book)
  {
    hide Delivered, Storable;
  }
}
