/**
The duplicate probe of SubmitOrder over whole runs.
*/
module Submits {
  import opened Decimals
  import opened Clock
  import opened Store
  import opened Invariants
  import Protocol

  /** The columns the probe compares; both decimals are exact at six places. */
  predicate SameTicket(o: OrderRow, d: Draft) {
    && o.partner == d.partner && o.client == d.client && o.side == d.side && o.pair == d.pair
    && o.orderType == d.orderType && o.quantity == d.quantity && o.limitRate == d.limitRate
  }

  /** What a stored order was submitted as. */
  function DraftOf(o: OrderRow): Draft {
    Draft(o.partner, o.client, o.side, o.pair, o.orderType, o.quantity, o.limitRate, o.account, o.fee)
  }

  predicate Twins(o: OrderRow, p: OrderRow) { SameTicket(o, DraftOf(p)) }

  /** SELECT EXISTS: the same order, filed under the day of `at`, less than a minute old. */
  predicate RecentTwin(orders: map<OrderKey, OrderRow>, d: Draft, at: int) {
    exists k :: k in orders && k.day == LocalDay(at) && orders[k].submittedAt > at - MINUTE && SameTicket(orders[k], d)
  }

  /** An insert that came straight after its own probe found nothing, at clock readings that do not run back. */
  ghost predicate Probed(s: State, e: Event) {
    e.Insert? ==> exists probe :: s.clock <= probe <= e.at && !RecentTwin(s.orders, e.draft, probe)
  }

  /** Every submit of the run ran from probe to insert before the next one began. */
  ghost predicate Serial(evs: seq<Event>) {
    evs == [] || (Serial(Protocol.Front(evs)) && Probed(Protocol.After(Protocol.Front(evs)), Protocol.Last(evs)))
  }

  /** Equal orders of one day are at least a minute apart. */
  ghost predicate Spaced(s: State) {
    forall k, j :: k in s.orders && j in s.orders && k != j && k.day == j.day && Twins(s.orders[k], s.orders[j]) ==>
      s.orders[k].submittedAt - s.orders[j].submittedAt >= MINUTE
          || s.orders[j].submittedAt - s.orders[k].submittedAt >= MINUTE
  }

  lemma DayBetween(a: int, b: int, c: int)
    requires a <= b <= c && LocalDay(a) == LocalDay(c)
    ensures LocalDay(b) == LocalDay(a)
  {
  }

  lemma InsertSpaces(s: State, d: Draft, at: int, probe: int, j: OrderKey)
    requires OrdersOk(s) && j in s.orders && j.day == LocalDay(at) && SameTicket(s.orders[j], d)
    requires s.clock <= probe <= at && !RecentTwin(s.orders, d, probe)
    ensures at - s.orders[j].submittedAt >= MINUTE
  {
    DayBetween(s.orders[j].submittedAt, probe, at);
    hide LocalDay, SameTicket;
  }

  lemma InsertKeepsSpacing(s: State, e: Event)
    requires OrdersOk(s) && Spaced(s) && e.Insert? && Probed(s, e)
    ensures Spaced(Step(s, e))
  {
    var n, row := OrderKey(LocalDay(e.at), s.nextRef), RowOfDraft(e.draft, e.at);
    var probe :| s.clock <= probe <= e.at && !RecentTwin(s.orders, e.draft, probe);
    forall j | j in s.orders && j.day == n.day && Twins(s.orders[j], row)
      ensures e.at - s.orders[j].submittedAt >= MINUTE
    {
      InsertSpaces(s, e.draft, e.at, probe, j);
    }
    assert n !in s.orders;
    var u := Step(s, e);
    assert u != s ==> u.orders == s.orders[n := row];
    hide *;
    if u != s { SpacedMore(s, u, n, row); }
  }

  lemma SpacedMore(s: State, u: State, n: OrderKey, row: OrderRow)
    requires Spaced(s) && n !in s.orders && u.orders == s.orders[n := row]
    requires forall j :: j in s.orders && j.day == n.day && Twins(s.orders[j], row) ==>
              row.submittedAt - s.orders[j].submittedAt >= MINUTE
    ensures Spaced(u)
  {
    TwinsSymmetric();
    hide Twins;
  }

  lemma TwinsSymmetric()
    ensures forall o, p :: Twins(o, p) ==> Twins(p, o)
  {
  }

  /** Any other event keeps the set of orders and their terms. */
  lemma OthersKeepOrders(s: State, e: Event)
    requires !e.Insert?
    ensures Step(s, e).orders.Keys == s.orders.Keys
  {
    hide RowFor, PayFor, Decrement, Fits;
  }

  lemma SpacingKept(s: State, u: State)
    requires Spaced(s) && Grows(s, u) && u.orders.Keys == s.orders.Keys
    ensures Spaced(u)
  {
    hide SameFill;
  }

  /** In every run whose submits do not overlap, equal orders of one day are at least one minute apart. */
  lemma {:induction false} DuplicatesAreSpaced(evs: seq<Event>)
    requires Serial(evs)
    ensures Spaced(Protocol.After(evs))
  {
    if evs != [] {
      var front, e := Protocol.Front(evs), Protocol.Last(evs);
      DuplicatesAreSpaced(front);
      Protocol.Reachable(front);
      var s := Protocol.After(front);
      assert Protocol.After(evs) == Step(s, e);
      hide Step, Spaced, Probed, Grows, OrdersOk, TradesOk, SinceOk, RemainingOk, FlagsOk;
      if e.Insert? {
        InsertKeepsSpacing(s, e);
      } else {
        StepInv(s, e);
        OthersKeepOrders(s, e);
        SpacingKept(s, Step(s, e));
      }
    }
  }
}
