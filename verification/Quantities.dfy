/**
What a list of fills leaves of an order's quantity, taken off one by one the way the
UPDATE of persistTrade does it, and how that compares with the stored quantities.
*/
module Quantities {
  import opened Decimals
  import opened Division
  import opened Store

  // ---------------------------------------------------------------- one fill

  /** Exactly half-way between two six-place values. */
  predicate HalfWay(raw: Dec) { raw % MICRO == MICRO / 2 }

  /** A fill the column rounds up and the UPDATE rounds down. */
  predicate Slips(raw: Dec) { raw >= 0 && HalfWay(raw) }

  /** What one fill takes off an order that can cover it: its stored quantity, but half-way values go down. */
  function TakenBy(raw: Dec): int { HalfAway(raw, MICRO) - (if Slips(raw) then 1 else 0) }

  /** Rounding a value of whole and fractional millionths. */
  lemma HalfAwayOf(q: nat, f: int)
    requires 0 <= f < MICRO
    ensures HalfAway(q * MICRO + f, MICRO) == if 2 * f >= MICRO then q + 1 else q
  {
    var a := 2 * (q * MICRO + f) + MICRO;
    if 2 * f >= MICRO {
      QuotientIs(a, 2 * MICRO, q + 1, 2 * f - MICRO);
    } else {
      QuotientIs(a, 2 * MICRO, q, 2 * f + MICRO);
    }
  }

  /** A fill that is not negative, in whole millionths. */
  lemma TakenByFill(raw: Dec)
    requires raw >= 0
    ensures HalfAway(raw, MICRO) == raw / MICRO + (if 2 * (raw % MICRO) >= MICRO then 1 else 0)
    ensures TakenBy(raw) == raw / MICRO + (if 2 * (raw % MICRO) > MICRO then 1 else 0) >= 0
  {
    HalfAwayOf(raw / MICRO, raw % MICRO);
    hide HalfAway;
  }

  /** Rounding what such a fill leaves of `n` millionths: the fraction that goes up here is the one the fill lost. */
  lemma RestOfFill(n: int, raw: Dec)
    requires 0 <= raw <= n * MICRO
    ensures HalfAway(n * MICRO - raw, MICRO) == n - TakenBy(raw)
  {
    var q, f := raw / MICRO, raw % MICRO;
    TakenByFill(raw);
    if f == 0 {
      HalfAwayOf(n - q, 0);
    } else {
      HalfAwayOf(n - q - 1, MICRO - f);
    }
    hide HalfAway, TakenBy;
  }

  /** A negative fill is put back as it is stored. */
  lemma RestOfRefund(n: int, raw: Dec)
    requires raw < 0 && raw <= n * MICRO
    ensures HalfAway(n * MICRO - raw, MICRO) == n - TakenBy(raw) >= 0
  {
    var q, f := -raw / MICRO, -raw % MICRO;
    HalfAwayOf(q, f);
    HalfAwayOf(n + q, f);
    assert HalfAway(raw, MICRO) == -HalfAway(-raw, MICRO);
  }

  /** A fill that is not covered, or a refund that does not lift the order above zero, takes at least what is left. */
  lemma Overdrawn(n: int, raw: Dec)
    requires raw > n * MICRO
    ensures TakenBy(raw) >= n
  {
    if raw >= 0 {
      TakenByFill(raw);
    } else {
      HalfAwayOf(-raw / MICRO, -raw % MICRO);
    }
  }

  /** The UPDATE, for any quantity and any fill: it takes that much off, stopping at zero. */
  lemma DecrementTakes(remaining: int, raw: Dec)
    ensures Decrement(remaining, raw) == Max(remaining - TakenBy(raw), 0)
  {
    if raw > remaining * MICRO {
      Overdrawn(remaining, raw);
      HalfAwayOf(0, 0);
    } else if raw >= 0 {
      RestOfFill(remaining, raw);
      TakenByFill(raw);
      Uncovered(remaining, raw);
    } else {
      RestOfRefund(remaining, raw);
    }
    hide HalfAway, TakenBy;
  }

  lemma Uncovered(n: int, raw: Dec)
    requires 0 <= raw <= n * MICRO
    ensures TakenBy(raw) <= n
  {
    TakenByFill(raw);
    hide HalfAway, TakenBy;
  }

  /**
  Exactly when one UPDATE takes the stored quantity off an order, stopping at zero:
  always, except for a fill the order can cover that lies half-way past the sixth place.
  That one is stored rounded up, but the remainder is rounded up as well.
  */
  lemma DecrementAgreesIff(remaining: int, raw: Dec)
    ensures Decrement(remaining, raw) == Max(remaining - HalfAway(raw, MICRO), 0) <==>
              !(0 <= raw <= remaining * MICRO && HalfWay(raw))
  {
    DecrementTakes(remaining, raw);
    if Slips(raw) { TakenByFill(raw); }
    hide Decrement, HalfAway;
  }

  // ---------------------------------------------------------------- a list of fills

  /** A quantity after taking fills off it one by one, as the UPDATE does. */
  function Drawn(base: int, fills: seq<Dec>): int {
    if fills == [] then base else Decrement(Drawn(base, fills[..|fills| - 1]), fills[|fills| - 1])
  }

  /** The stored quantities of the fills, each rounded to its column. */
  function Total(fills: seq<Dec>): int {
    if fills == [] then 0 else Total(fills[..|fills| - 1]) + HalfAway(fills[|fills| - 1], MICRO)
  }

  /** What the fills take off an order that covers them all. */
  function Taken(fills: seq<Dec>): int {
    if fills == [] then 0 else Taken(fills[..|fills| - 1]) + TakenBy(fills[|fills| - 1])
  }

  /** How many of the fills slip. */
  function Slipped(fills: seq<Dec>): nat {
    if fills == [] then 0 else Slipped(fills[..|fills| - 1]) + (if Slips(fills[|fills| - 1]) then 1 else 0)
  }

  /** The highest that Taken stood after any of the fills. */
  function Peak(fills: seq<Dec>): int
    requires fills != []
  {
    if |fills| == 1 then Taken(fills) else Max(Peak(fills[..|fills| - 1]), Taken(fills))
  }

  lemma {:induction false} TakenIsTotal(fills: seq<Dec>)
    ensures Taken(fills) == Total(fills) - Slipped(fills)
  {
    if fills != [] { TakenIsTotal(fills[..|fills| - 1]); }
  }

  /** Peak is the largest Taken over all prefixes but the empty one. */
  lemma {:induction false} PeakBounds(fills: seq<Dec>, x: int)
    requires fills != []
    ensures Peak(fills) <= x <==> forall i :: 0 < i <= |fills| ==> Taken(fills[..i]) <= x
  {
    hide Taken;
    var n := |fills|;
    assert fills[..n] == fills;
    if n > 1 {
      var front := fills[..n - 1];
      PeakBounds(front, x);
      assert forall i :: 0 < i < n ==> front[..i] == fills[..i];
      assert Peak(fills) <= x <==> Peak(front) <= x && Taken(fills[..n]) <= x;
    }
  }

  predicate NonNegativeFills(fills: seq<Dec>) { forall q :: q in fills ==> q >= 0 }

  /** Fills that are not negative end at their peak. */
  lemma {:induction false} PeakIsLast(fills: seq<Dec>)
    requires fills != [] && NonNegativeFills(fills)
    ensures Peak(fills) == Taken(fills) >= 0
  {
    var front, q := fills[..|fills| - 1], fills[|fills| - 1];
    assert q in fills && forall x :: x in front ==> x in fills;
    TakenByFill(q);
    hide TakenBy, HalfAway;
    if |fills| > 1 { PeakIsLast(front); }
  }

  /** What any fills leave of any quantity: the higher of the quantity and the peak, less all that was taken. */
  function Closed(base: int, fills: seq<Dec>): int {
    if fills == [] then base else Max(base, Peak(fills)) - Taken(fills)
  }

  lemma {:induction false} DrawnIsClosed(base: int, fills: seq<Dec>)
    ensures Drawn(base, fills) == Closed(base, fills)
  {
    hide Decrement, TakenBy, Drawn, Taken, Peak;
    if fills == [] {
      DrawnNothing(base);
    } else {
      var front, q := fills[..|fills| - 1], fills[|fills| - 1];
      assert fills == front + [q];
      DrawnSnoc(base, front, q);
      DecrementTakes(Drawn(base, front), q);
      if front == [] {
        DrawnNothing(base);
        PeakOfOne(q);
        assert fills == [q];
      } else {
        DrawnIsClosed(base, front);
        PeakSnoc(front, q);
      }
    }
  }

  lemma DrawnNothing(base: int)
    ensures Drawn(base, []) == base && Taken([]) == 0
  {
  }

  lemma DrawnSnoc(base: int, front: seq<Dec>, q: Dec)
    ensures Drawn(base, front + [q]) == Decrement(Drawn(base, front), q)
    ensures Taken(front + [q]) == Taken(front) + TakenBy(q)
  {
    hide Decrement, TakenBy;
    assert (front + [q])[..|front|] == front;
  }

  lemma PeakOfOne(q: Dec)
    ensures Peak([q]) == Taken([q]) == TakenBy(q)
  {
    hide TakenBy;
    assert [q][..0] == [];
    assert Taken([q]) == Taken([]) + TakenBy(q);
  }

  lemma PeakSnoc(front: seq<Dec>, q: Dec)
    requires front != []
    ensures Peak(front + [q]) == Max(Peak(front), Taken(front + [q]))
  {
    hide Taken;
    assert (front + [q])[..|front|] == front;
  }

  /** What is promised: the quantity less the stored fills, stopped at zero; with no fill the quantity as it stands. */
  function Promised(base: int, fills: seq<Dec>): int {
    if fills == [] then base else Max(base - Total(fills), 0)
  }

  /**
  Exactly when fills leave what is promised: none of them slips and at no point had more
  been taken than both the quantity and the final total; or, slips or not, they end at
  their peak with at least the whole quantity taken.
  */
  lemma PromiseKeptIff(base: int, fills: seq<Dec>)
    ensures Drawn(base, fills) == Promised(base, fills) <==>
              fills == []
              || (Slipped(fills) == 0 && forall i :: 0 < i <= |fills| ==> Taken(fills[..i]) <= Max(base, Total(fills)))
              || (base <= Taken(fills) && forall i :: 0 < i <= |fills| ==> Taken(fills[..i]) <= Taken(fills))
  {
    DrawnIsClosed(base, fills);
    if fills != [] {
      TakenIsTotal(fills);
      PeakBounds(fills, Max(base, Total(fills)));
      PeakBounds(fills, Taken(fills));
      hide Drawn, Taken, Total, Slipped, Peak;
    }
  }

  /** For fills that are not negative: none slips, or the order runs out even so. */
  lemma PromiseKeptByFillsIff(base: int, fills: seq<Dec>)
    requires NonNegativeFills(fills)
    ensures Drawn(base, fills) == (if fills == [] then base else Max(base - (Total(fills) - Slipped(fills)), 0))
    ensures Drawn(base, fills) == Promised(base, fills) <==>
              (forall q :: q in fills ==> !HalfWay(q)) || base + Slipped(fills) <= Total(fills)
  {
    DrawnIsClosed(base, fills);
    NoneSlips(fills);
    TakenIsTotal(fills);
    if fills != [] { PeakIsLast(fills); }
    hide Drawn, Taken, Total, Slipped, Peak, HalfWay;
  }

  /** Both closed forms at once. */
  lemma LeftByFills(base: int, fills: seq<Dec>)
    ensures Drawn(base, fills) == Closed(base, fills)
    ensures NonNegativeFills(fills) ==>
              Drawn(base, fills) == if fills == [] then base else Max(base - (Total(fills) - Slipped(fills)), 0)
  {
    hide *;
    DrawnIsClosed(base, fills);
    if NonNegativeFills(fills) { PromiseKeptByFillsIff(base, fills); }
  }

  lemma {:induction false} NoneSlips(fills: seq<Dec>)
    ensures Slipped(fills) == 0 <==> forall q :: q in fills ==> !Slips(q)
    ensures NonNegativeFills(fills) ==> (Slipped(fills) == 0 <==> forall q :: q in fills ==> !HalfWay(q))
  {
    if fills != [] {
      hide HalfWay;
      var front, q := fills[..|fills| - 1], fills[|fills| - 1];
      NoneSlips(front);
      assert fills == front + [q] && q in fills && forall x :: x in front ==> x in fills;
      assert forall x :: x in fills ==> x in front || x == q;
    }
  }
}
