/**
What holds after every run of the protocol, read off the run itself.
*/
module Protocol {
  import opened Options
  import opened Decimals
  import opened Store
  import opened Quantities
  import opened Invariants

  ghost function After(evs: seq<Event>): State { Run(Init(), evs) }

  lemma Reachable(evs: seq<Event>)
    ensures Inv(After(evs))
  {
    InitInv();
    RunInv(Init(), evs);
  }

  // ---------------------------------------------------------------- remaining quantity along a run

  function Front(evs: seq<Event>): seq<Event>
    requires evs != []
  {
    evs[..|evs| - 1]
  }

  function Last(evs: seq<Event>): Event
    requires evs != []
  {
    evs[|evs| - 1]
  }

  /** The absolute value an event writes on an order: a submit's quantity, or a cancel's or order event's remainder. */
  ghost function Written(s: State, e: Event, k: OrderKey): Option<int> {
    match e
    case Insert(d, at) => if Insertable(d) && k == OrderKey(Clock.LocalDay(at), s.nextRef) then Some(d.quantity)
        else None
    case Overwrite(j, _, remaining) => if j == k && j in s.orders && Fits(remaining) then Some(remaining) else None
    case _ => None
  }

  /** The fill an event newly stores against an order. */
  ghost function NewFill(s: State, e: Event, k: OrderKey): Option<Dec> {
    if FirstDelivery(s, e) && ParentOf(e.msg) == k then Some(RawOf(e.msg)) else None
  }

  /** The last absolute value a run wrote on an order. */
  ghost function LastWrite(evs: seq<Event>, k: OrderKey): int {
    if evs == [] then 0 else
    match Written(After(Front(evs)), Last(evs), k)
    case Some(v) => v
    case None => LastWrite(Front(evs), k)
  }

  /** The fills newly stored against an order since that write, oldest first. */
  ghost function FillsSince(evs: seq<Event>, k: OrderKey): seq<Dec> {
    if evs == [] then [] else
    var s := After(Front(evs));
    if Written(s, Last(evs), k).Some? then []
    else FillsSince(Front(evs), k) + (match NewFill(s, Last(evs), k) case Some(q) => [q] case None => [])
  }

  /** The columns `base` and `since` hold what the run itself says. */
  ghost predicate Tracked(s: State, evs: seq<Event>, k: OrderKey) {
    && k in s.orders && k in s.base && k in s.since
    && s.base[k] == LastWrite(evs, k) && RawsOf(s.origin, s.since[k]) == FillsSince(evs, k)
  }

  /** After any run the history columns are what the run says they are. */
  lemma {:induction false} HistoryTracksRun(evs: seq<Event>, k: OrderKey)
    requires k in After(evs).orders
    ensures Tracked(After(evs), evs, k)
  {
    if evs != [] {
      Reachable(Front(evs));
      var s, e := After(Front(evs)), Last(evs);
      assert After(evs) == Step(s, e);
      StepInv(s, e);
      hide Step, Run, Written, NewFill, Tracked, Inv, Grows;
      if Written(s, e, k).Some? {
        WriteTracked(evs, k);
      } else {
        StillThere(s, e, k);
        HistoryTracksRun(Front(evs), k);
        if NewFill(s, e, k).Some? { FillTracked(evs, k); } else { OthersTracked(evs, k); }
      }
    }
  }

  lemma StillThere(s: State, e: Event, k: OrderKey)
    requires k in Step(s, e).orders && Written(s, e, k).None?
    ensures k in s.orders
  {
    hide PayFor, RowFor, Decrement;
  }

  lemma WriteTracked(evs: seq<Event>, k: OrderKey)
    requires evs != [] && k in After(evs).orders && Written(After(Front(evs)), Last(evs), k).Some?
    ensures Tracked(After(evs), evs, k)
  {
    hide Fits;
    assert After(evs) == Step(After(Front(evs)), Last(evs));
    assert After(evs).since[k] == [];
  }

  /** How the run's own account moves with its last event. */
  lemma AccountStep(evs: seq<Event>, k: OrderKey)
    requires evs != [] && Written(After(Front(evs)), Last(evs), k).None?
    ensures LastWrite(evs, k) == LastWrite(Front(evs), k)
    ensures match NewFill(After(Front(evs)), Last(evs), k)
            case None => FillsSince(evs, k) == FillsSince(Front(evs), k)
            case Some(q) => FillsSince(evs, k) == FillsSince(Front(evs), k) + [q]
  {
    hide Written, NewFill, Run;
  }

  lemma FillTracked(evs: seq<Event>, k: OrderKey)
    requires evs != [] && Inv(After(Front(evs))) && NewFill(After(Front(evs)), Last(evs), k).Some?
    requires Written(After(Front(evs)), Last(evs), k).None? && Tracked(After(Front(evs)), Front(evs), k)
    ensures Tracked(After(evs), evs, k)
  {
    var s, e := After(Front(evs)), Last(evs);
    DeliveryHistory(s, e);
    AccountStep(evs, k);
    assert After(evs) == Step(s, e) && k == ParentOf(e.msg) && NewFill(s, e, k) == Some(RawOf(e.msg));
    hide *;
    InvParts(s);
    TrackOneMore(s, After(evs), Front(evs), evs, k, e.msg);
  }

  lemma TrackOneMore(s: State, u: State, front: seq<Event>, evs: seq<Event>, k: OrderKey, m: TradeMsg)
    requires SinceOk(s) && Tracked(s, front, k) && KeyOf(m) !in s.origin && u.origin == s.origin[KeyOf(m) := m]
    requires LastWrite(evs, k) == LastWrite(front, k) && FillsSince(evs, k) == FillsSince(front, k) + [RawOf(m)]
    requires k in u.orders && u.base == s.base && k in u.since && u.since[k] == s.since[k] + [KeyOf(m)]
    ensures Tracked(u, evs, k)
  {
    hide RawOf, LastWrite, FillsSince, Unrepeated;
    RawsFrame(s.origin, u.origin, s.since[k]);
    RawsSnoc(u.origin, s.since[k], KeyOf(m));
  }

  lemma OthersTracked(evs: seq<Event>, k: OrderKey)
    requires evs != [] && Inv(After(Front(evs))) && NewFill(After(Front(evs)), Last(evs), k).None?
    requires Written(After(Front(evs)), Last(evs), k).None? && Tracked(After(Front(evs)), Front(evs), k)
    requires Grows(After(Front(evs)), Step(After(Front(evs)), Last(evs)))
    ensures Tracked(After(evs), evs, k)
  {
    assert After(evs) == Step(After(Front(evs)), Last(evs));
    AccountUntouched(After(Front(evs)), Last(evs), k);
    AccountStep(evs, k);
    assert SinceOk(After(Front(evs)));
    hide *;
    TrackSame(After(Front(evs)), After(evs), Front(evs), evs, k);
  }

  lemma TrackSame(s: State, u: State, front: seq<Event>, evs: seq<Event>, k: OrderKey)
    requires Tracked(s, front, k) && LastWrite(evs, k) == LastWrite(front, k)
    requires FillsSince(evs, k) == FillsSince(front, k)
    requires k in u.orders && k in u.base && k in u.since && u.base[k] == s.base[k] && u.since[k] == s.since[k]
    requires SinceOk(s) && Grows(s, u)
    ensures Tracked(u, evs, k)
  {
    hide LastWrite, FillsSince, RawOf, SameFill, SameTerms, Unrepeated;
    RawsFrame(s.origin, u.origin, s.since[k]);
  }

  lemma AccountUntouched(s: State, e: Event, k: OrderKey)
    requires k in s.orders && k in s.base && k in s.since
    requires NewFill(s, e, k).None? && Written(s, e, k).None?
    ensures var u := Step(s, e);
            k in u.orders && k in u.base && k in u.since && u.base[k] == s.base[k] && u.since[k] == s.since[k]
  {
    if OrderEvent(e) {
      OrderAccountUntouched(s, e, k);
    } else if FirstDelivery(s, e) {
      hide PayFor, RowFor, Decrement, Fits;
    } else {
      ActorStepBookkeeps(s, e);
      hide Step, FirstDelivery, Written, NewFill, SameFill;
    }
  }

  lemma OrderAccountUntouched(s: State, e: Event, k: OrderKey)
    requires k in s.orders && k in s.base && k in s.since && OrderEvent(e) && Written(s, e, k).None?
    ensures var u := Step(s, e);
            k in u.orders && k in u.base && k in u.since && u.base[k] == s.base[k] && u.since[k] == s.since[k]
  {
    hide Fits;
  }

  lemma BalancedNow(s: State, k: OrderKey)
    requires Inv(s) && k in s.orders
    ensures k in s.base && k in s.since && Balanced(s, k)
  {
    hide TradesOk, SinceOk, FlagsOk;
  }

  /** After any run whatsoever, the quantity is the last absolute value with the fills since taken off one by one. */
  lemma RemainingFolds(evs: seq<Event>, k: OrderKey)
    requires k in After(evs).orders
    ensures After(evs).orders[k].remaining == Drawn(LastWrite(evs, k), FillsSince(evs, k))
  {
    Reachable(evs);
    HistoryTracksRun(evs, k);
    hide Inv, After, LastWrite, FillsSince, Drawn;
    BalancedNow(After(evs), k);
  }

  /**
  ... in one formula: the higher of that value and the most the fills ever took, less all
  they took. With no refund among them that is the value less what they took, stopped at
  zero; and what each takes is its stored quantity unless it slips.
  */
  lemma RemainingQuantity(evs: seq<Event>, k: OrderKey)
    requires k in After(evs).orders
    ensures var base, fills, left := LastWrite(evs, k), FillsSince(evs, k), After(evs).orders[k].remaining;
            left == Closed(base, fills)
            && (NonNegativeFills(fills) ==>
                left == if fills == [] then base else Max(base - (Total(fills) - Slipped(fills)), 0))
  {
    hide *;
    RemainingFolds(evs, k);
    LeftByFills(LastWrite(evs, k), FillsSince(evs, k));
  }

  /**
  Over any run an order's quantity is the last absolute value less the stored fills,
  stopped at zero, exactly when no fill slipped and no more had been taken at any point
  than both that value and the final total; or when, slips or not, the fills end at their
  peak with at least the whole value taken.
  */
  lemma QuantityIsDifferenceIff(evs: seq<Event>, k: OrderKey)
    requires k in After(evs).orders
    ensures var base, fills := LastWrite(evs, k), FillsSince(evs, k);
            After(evs).orders[k].remaining == Promised(base, fills) <==>
              fills == []
              || (Slipped(fills) == 0 && forall i :: 0 < i <= |fills| ==> Taken(fills[..i]) <= Max(base, Total(fills)))
              || (base <= Taken(fills) && forall i :: 0 < i <= |fills| ==> Taken(fills[..i]) <= Taken(fills))
  {
    hide *;
    RemainingFolds(evs, k);
    PromiseKeptIff(LastWrite(evs, k), FillsSince(evs, k));
  }

  /**
  For fills that are not negative: exactly when none lay half-way past the sixth place,
  or the order ran out even so.
  */
  lemma FilledQuantityIff(evs: seq<Event>, k: OrderKey)
    requires k in After(evs).orders && NonNegativeFills(FillsSince(evs, k))
    ensures var base, fills := LastWrite(evs, k), FillsSince(evs, k);
            After(evs).orders[k].remaining == Promised(base, fills) <==>
              (forall q :: q in fills ==> !HalfWay(q)) || base + Slipped(fills) <= Total(fills)
  {
    hide *;
    RemainingFolds(evs, k);
    PromiseKeptByFillsIff(LastWrite(evs, k), FillsSince(evs, k));
  }

  // ---------------------------------------------------------------- events and one order's quantity

  /** An event that neither writes the order's quantity nor first delivers a trade of it leaves the quantity alone. */
  lemma RemainingUntouched(s: State, e: Event, k: OrderKey)
    requires OrdersOk(s) && k in s.orders && Written(s, e, k).None? && NewFill(s, e, k).None?
    ensures k in Step(s, e).orders && Step(s, e).orders[k].remaining == s.orders[k].remaining
  {
    if OrderEvent(e) {
      OtherOrderKept(s, e, k);
    } else if FirstDelivery(s, e) {
      DeliveredOrder(s, e);
      hide Step, FirstDelivery, OrdersOk;
    } else {
      ActorStepBookkeeps(s, e);
      hide Step, FirstDelivery, Written, NewFill, SameFill;
    }
  }

  lemma OtherOrderKept(s: State, e: Event, k: OrderKey)
    requires k in s.orders && OrderEvent(e) && Written(s, e, k).None?
    ensures k in Step(s, e).orders && Step(s, e).orders[k].remaining == s.orders[k].remaining
  {
    hide Fits, Clock.LocalDay;
  }

  // ---------------------------------------------------------------- acks, settlement, handler calls

  /** Acked implies stored; settled implies a successful call or no handler; the handler only ever saw stored trades. */
  lemma StoredBeforeAckedBeforeSettled(evs: seq<Event>)
    ensures var s := After(evs);
            s.acks <= s.trades.Keys
            && (forall t :: t in s.trades && s.trades[t].ack ==> t in s.acks)
            && (forall c :: c in s.calls ==> c.key in s.trades)
            && (forall t :: t in s.trades && s.trades[t].settled ==> t in Succeeded(s.calls) || t in s.waived)
  {
    Reachable(evs);
  }

  /** Whatever happens next, no flag, ack or call is taken back and no stored amount or order term changes. */
  lemma NothingReverts(evs: seq<Event>, more: seq<Event>)
    ensures Grows(After(evs), After(evs + more))
  {
    Reachable(evs);
    RunInv(After(evs), more);
    RunConcat(Init(), evs, more);
  }
}
