/**
Which messages persistTrade can store, apart from everything that moves: a known parent,
and values that price and fit their columns.
*/
module Acceptance {
  import opened Decimals
  import opened Store
  import opened Invariants
  import opened Ledger

  /** Known parent, and values that price and fit their columns. */
  predicate Acceptable(s: State, m: TradeMsg) {
    ParentOf(m) in s.orders && RowFor(s.orders[ParentOf(m)], m, 0).Some?
  }

  predicate NonNegative(raw: seq<TradeMsg>) { forall m :: m in raw ==> RawOf(m) >= 0 }

  /** A fill that is not negative never overflows the quantity it is taken from. */
  lemma FillFits(remaining: int, raw: Dec)
    requires Fits(remaining) && raw >= 0
    ensures Fits(Decrement(remaining, raw))
  {
  }

  /** For such fills acceptance does not depend on the remaining quantity. */
  lemma AcceptsIff(s: State, m: TradeMsg)
    requires OrdersOk(s) && RawOf(m) >= 0
    ensures Accepts(s, m) <==> Acceptable(s, m)
  {
    if Acceptable(s, m) {
      RowForParts(s.orders[ParentOf(m)], m, 0);
      assert RawOf(m) == Parse(m.filled).value;
      hide RowFor, Parse, Decrement, Fits;
      FillFits(s.orders[ParentOf(m)].remaining, RawOf(m));
    }
  }

  lemma AcceptableKept(s: State, u: State, m: TradeMsg)
    requires Grows(s, u) && u.orders.Keys == s.orders.Keys
    ensures Acceptable(u, m) <==> Acceptable(s, m)
  {
    if ParentOf(m) in s.orders { RowForTerms(s.orders[ParentOf(m)], u.orders[ParentOf(m)], m, 0); }
    hide RowFor;
  }

  /** What is acceptable stays so. */
  lemma AcceptableLater(s: State, u: State, m: TradeMsg)
    requires Grows(s, u) && Acceptable(s, m)
    ensures Acceptable(u, m)
  {
    RowForTerms(s.orders[ParentOf(m)], u.orders[ParentOf(m)], m, 0);
    hide RowFor;
  }

  /** A refusal, however much later, means the message never was acceptable, or fills a negative quantity. */
  lemma RefusalMeans(s: State, u: State, m: TradeMsg)
    requires Grows(s, u) && OrdersOk(u) && !Accepts(u, m)
    ensures !(Acceptable(s, m) && RawOf(m) >= 0)
  {
    if Acceptable(s, m) && RawOf(m) >= 0 {
      hide *;
      AcceptableLater(s, u, m);
      AcceptsIff(u, m);
    }
  }

  lemma AcceptedIsAcceptable(s: State, m: TradeMsg)
    requires Accepts(s, m)
    ensures Acceptable(s, m)
  {
    hide RowFor, Decrement, Fits;
  }
}
