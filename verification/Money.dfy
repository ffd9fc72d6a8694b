/**
Fee and settlement of one fill: go/pkg/fee.go and TradeEvent.Cal.
*/
module Money {
  import opened Options
  import opened Decimals
  import opened Division

  const BUY := 1
  const SELL := 2

  /** Decimal product, cut at nineteen places. */
  function Mul(a: Dec, b: Dec): Dec { TruncDiv(a * b, ONE) }

  /** Decimal division by one hundred, cut at nineteen places. */
  function DivHundred(a: Dec): Dec { TruncDiv(a, 100) }

  function RoundBank6(d: Dec): Dec { HalfEven(d, MICRO) * MICRO }

  function Percentage(amount: Dec, percentage: Dec): Dec {
    RoundBank6(DivHundred(Mul(amount, percentage)))
  }

  /** What a fill comes to: both values already at six places. */
  datatype Amounts = Amounts(settlement: Dec, fee: Dec)

  function Settle(amount: Dec, fee: Dec, side: int): Amounts {
    Amounts(RoundBank6(if side == BUY then amount + fee else amount - fee), fee)
  }

  /** The percentage configured on an order: absent means no fee. */
  function FeePercent(fixed: Option<string>): Option<Dec> {
    Parse(match fixed case Some(text) => text case None => "0")
  }

  /** The outcome of TradeEvent.Cal: nothing when one of the three texts does not parse. */
  function Calc(filled: string, rate: string, side: int, fixed: Option<string>): Option<Amounts> {
    match (Parse(filled), Parse(rate), FeePercent(fixed))
    case (Some(q), Some(r), Some(p)) => Some(Settle(Mul(q, r), Percentage(Mul(q, r), p), side))
    case _ => None
  }

  // ---------------------------------------------------------------- what Cal comes to

  /** `x` is `d` rounded to six places, halves to even. */
  predicate RoundedSix(d: Dec, x: Dec) { SixPlaces(x) && NearestEven(d, x / MICRO, MICRO) }

  /** `m` is the product at nineteen places. */
  predicate Product(a: Dec, b: Dec, m: Dec) { CutTo(a * b, m, ONE) }

  predicate Hundredth(a: Dec, b: Dec) { CutTo(a, b, 100) }

  /** The fee percentage an order asks for; without one there is none. */
  function PercentOf(fixed: Option<string>): Dec {
    if fixed.Some? && Parse(fixed.value).Some? then Parse(fixed.value).value else 0
  }

  /** The three texts Cal reads. */
  predicate Priceable(filled: string, rate: string, fixed: Option<string>) {
    Parse(filled).Some? && Parse(rate).Some? && (fixed.Some? ==> Parse(fixed.value).Some?)
  }

  /**
  The fee is the percentage of the amount, rounded once, and the settlement the amount with
  that fee added on a buy, side 1, and taken off otherwise, rounded once.
  */
  ghost predicate Priced(q: Dec, r: Dec, percent: Dec, side: int, a: Amounts) {
    exists m, x, base ::
      Product(q, r, m) && Product(m, percent, x) && Hundredth(x, base) && RoundedSix(base, a.fee)
      && RoundedSix(if side == 1 then m + a.fee else m - a.fee, a.settlement)
  }

  lemma RoundedSixIs(d: Dec, x: Dec)
    ensures RoundedSix(d, x) <==> x == RoundBank6(d)
  {
    HalfEvenIs(d, x / MICRO, MICRO);
    hide NearestEven, HalfEven;
  }

  lemma NoFee()
    ensures Parse("0") == Some(0)
  {
    assert Written("0", "", "0", "");
    ParseReads("0", "", "0", "");
    assert Value("0" + "") == 0;
  }

  lemma FeePercentIs(fixed: Option<string>)
    ensures FeePercent(fixed) == if fixed.Some? && Parse(fixed.value).None? then None else Some(PercentOf(fixed))
  {
    NoFee();
    hide Parse;
  }

  lemma PricedIs(q: Dec, r: Dec, percent: Dec, side: int, a: Amounts)
    ensures Priced(q, r, percent, side, a) <==> a == Settle(Mul(q, r), Percentage(Mul(q, r), percent), side)
  {
    var m := Mul(q, r);
    var x := Mul(m, percent);
    var base := DivHundred(x);
    forall n { TruncDivIs(q * r, n, ONE); }
    forall n { TruncDivIs(m * percent, n, ONE); }
    forall n { TruncDivIs(x, n, 100); }
    hide TruncDiv, CutTo;
    RoundedSixIs(base, a.fee);
    RoundedSixIs(if side == BUY then m + a.fee else m - a.fee, a.settlement);
    hide RoundedSix, RoundBank6;
    if a == Settle(m, Percentage(m, percent), side) {
      assert Product(q, r, m) && Product(m, percent, x) && Hundredth(x, base);
    }
  }

  /** Cal succeeds exactly when the three texts parse, and comes to exactly these amounts. */
  lemma CalcIs(filled: string, rate: string, side: int, fixed: Option<string>, a: Amounts)
    ensures Calc(filled, rate, side, fixed).Some? <==> Priceable(filled, rate, fixed)
    ensures Calc(filled, rate, side, fixed) == Some(a) <==>
              Priceable(filled, rate, fixed)
              && Priced(Parse(filled).value, Parse(rate).value, PercentOf(fixed), side, a)
  {
    FeePercentIs(fixed);
    if Priceable(filled, rate, fixed) {
      PricedIs(Parse(filled).value, Parse(rate).value, PercentOf(fixed), side, a);
    }
    hide Parse, FeePercent, PercentOf, Mul, Percentage, Settle, Priced;
  }

  /** The steps of Cal. */
  lemma CalcParts(filled: string, rate: string, side: int, fixed: Option<string>)
    ensures FeePercent(fixed).Some? <==> (fixed.Some? ==> Parse(fixed.value).Some?)
    ensures Priceable(filled, rate, fixed) <==> Parse(filled).Some? && Parse(rate).Some? && FeePercent(fixed).Some?
    ensures !Priceable(filled, rate, fixed) ==> Calc(filled, rate, side, fixed) == None
    ensures Priceable(filled, rate, fixed) ==>
              var m := Mul(Parse(filled).value, Parse(rate).value);
              var fee := Percentage(m, FeePercent(fixed).value);
              var a := Amounts(RoundBank6(if side == BUY then m + fee else m - fee), fee);
              Calc(filled, rate, side, fixed) == Some(a)
              && Priced(Parse(filled).value, Parse(rate).value, PercentOf(fixed), side, a)
  {
    FeePercentIs(fixed);
    if Calc(filled, rate, side, fixed).Some? {
      CalcIs(filled, rate, side, fixed, Calc(filled, rate, side, fixed).value);
    }
    hide Parse, FeePercent, PercentOf, Mul, Percentage, RoundBank6, Priced;
  }

  // ---------------------------------------------------------------- rounding facts

  lemma HalfEvenShift(a: int, k: int, unit: int)
    requires unit > 0
    ensures HalfEven(a + 2 * k * unit, unit) == HalfEven(a, unit) + 2 * k
  {
    var b := a + 2 * k * unit;
    var q, r := a / unit, a % unit;
    assert b == (q + 2 * k) * unit + r;
    QuotientIs(b, unit, q + 2 * k, r);
  }

  /** Rounding moves a value by at most half a unit. */
  lemma HalfEvenNear(a: int, unit: int)
    requires unit > 0
    ensures -unit <= 2 * (HalfEven(a, unit) * unit - a) <= unit
  {
    HalfEvenIs(a, HalfEven(a, unit), unit);
  }

  /** Buy settlement minus sell settlement is exactly twice the stored fee, whatever was rounded. */
  lemma BuySellSpread(filled: string, rate: string, fixed: Option<string>)
    requires Calc(filled, rate, BUY, fixed).Some?
    ensures Calc(filled, rate, SELL, fixed).Some?
    ensures var buy, sell := Calc(filled, rate, BUY, fixed).value, Calc(filled, rate, SELL, fixed).value;
            buy.fee == sell.fee && buy.settlement - sell.settlement == 2 * buy.fee
  {
    hide Parse, FeePercent, Mul, Percentage, RoundBank6;
    Spread(Mul(Parse(filled).value, Parse(rate).value), FeePercent(fixed).value);
  }

  lemma Spread(m: Dec, percentage: Dec)
    ensures var fee := Percentage(m, percentage); RoundBank6(m + fee) - RoundBank6(m - fee) == 2 * fee
  {
    hide Mul, DivHundred, HalfEven;
    SpreadOf(m, HalfEven(DivHundred(Mul(m, percentage)), MICRO));
  }

  /** A fee of `k` millionths, added and subtracted before rounding. */
  lemma SpreadOf(m: Dec, k: int)
    ensures RoundBank6(m + k * MICRO) - RoundBank6(m - k * MICRO) == 2 * (k * MICRO)
  {
    HalfEvenShift(m - k * MICRO, k, MICRO);
    hide HalfEven;
    assert m - k * MICRO + 2 * k * MICRO == m + k * MICRO;
  }

  lemma HalfEvenMono(a: int, b: int, unit: int)
    requires unit > 0 && a <= b
    ensures HalfEven(a, unit) <= HalfEven(b, unit)
  {
    DivMono(a, b, unit);
    var p, q := a / unit, b / unit;
    assert a == p * unit + a % unit && b == q * unit + b % unit;
  }

  /** With a percentage between 0 and 100 the truncated fee base never exceeds the amount. */
  lemma FeeBaseBounded(m: Dec, p: Dec)
    requires m >= 0 && 0 <= p <= 100 * ONE
    ensures 0 <= DivHundred(Mul(m, p)) <= m
  {
    assert 0 <= m * p <= m * (100 * ONE);
    DivMono(0, m * p, ONE);
    DivMono(m * p, m * (100 * ONE), ONE);
    QuotientIs(m * (100 * ONE), ONE, 100 * m, 0);
    DivMono(0, Mul(m, p), 100);
    DivMono(Mul(m, p), 100 * m, 100);
  }

  /** A sell settlement is never negative for a non-negative amount and a percentage within 0..100. */
  lemma SellNeverNegative(filled: string, rate: string, fixed: Option<string>)
    requires Calc(filled, rate, SELL, fixed).Some?
    requires Mul(Parse(filled).value, Parse(rate).value) >= 0
    requires 0 <= FeePercent(fixed).value <= 100 * ONE
    ensures 0 <= Calc(filled, rate, SELL, fixed).value.settlement
  {
    var m := Mul(Parse(filled).value, Parse(rate).value);
    FeeBaseBounded(m, FeePercent(fixed).value);
    FeeLeavesRest(m, DivHundred(Mul(m, FeePercent(fixed).value)));
    hide Parse, Mul, DivHundred, HalfEven;
  }

  /** Subtracting a rounded fee that does not exceed the amount never rounds below zero. */
  lemma FeeLeavesRest(m: Dec, base: Dec)
    requires 0 <= base <= m
    ensures RoundBank6(m - RoundBank6(base)) >= 0
  {
    HalfEvenMono(base, m, MICRO);
    HalfEvenNear(m, MICRO);
    MulMono(HalfEven(base, MICRO), HalfEven(m, MICRO), MICRO);
    HalfEvenMono(-(MICRO / 2), m - RoundBank6(base), MICRO);
  }

  // ---------------------------------------------------------------- exactness

  /** With at most six places in quantity and rate and five in the percentage, nothing is cut before rounding. */
  lemma NothingIsTruncated(i: int, j: int, k: int)
    ensures Mul(i * MICRO, j * MICRO) == i * j * 10_000_000
    ensures DivHundred(Mul(i * j * 10_000_000, k * 100_000_000_000_000)) == i * j * k
  {
    var n := i * j;
    assert (i * MICRO) * (j * MICRO) == n * (MICRO * MICRO);
    TruncExact(n, 10_000_000, ONE);
    assert n * (MICRO * MICRO) == (n * 10_000_000) * ONE;
    var p := n * k;
    assert (n * 10_000_000) * (k * 100_000_000_000_000) == p * 100 * ONE;
    TruncExact(p, 100, ONE);
    TruncExact(p, 1, 100);
  }

  lemma TruncExact(n: int, c: int, unit: int)
    requires unit > 0
    ensures TruncDiv((n * c) * unit, unit) == n * c
  {
    var a := n * c;
    if a >= 0 {
      QuotientIs(a * unit, unit, a, 0);
    } else {
      assert -(a * unit) == (-a) * unit;
      QuotientIs((-a) * unit, unit, -a, 0);
      assert a * unit <= 0;
    }
  }

  /**
  For i and j millionths and k hundred-thousandths of a percent the exact fee is i*j*k
  units of 10^-19 and the exact amount i*j*10^7. The stored fee is the half-even
  rounding of the former, the settlement is within one millionth of the exact amount
  plus or minus the exact fee, itself rounded half-even once, and the columns store both
  without rounding again.
  */
  lemma CalIsExactWithinPlaces(filled: string, rate: string, side: int, fixed: Option<string>, i: int, j: int, k: int)
    requires Parse(filled) == Some(i * MICRO) && Parse(rate) == Some(j * MICRO)
    requires FeePercent(fixed) == Some(k * 100_000_000_000_000)
    ensures var exact := i * j * 10_000_000 + (if side == BUY then 1 else -1) * (i * j * k);
            var r := Calc(filled, rate, side, fixed);
            r.Some? && RoundedSix(i * j * k, r.value.fee)
            && RoundedSix(i * j * 10_000_000 + (if side == BUY then r.value.fee else -r.value.fee), r.value.settlement)
            && -MICRO <= r.value.settlement - exact <= MICRO
            && HalfAway(r.value.fee, MICRO) * MICRO == r.value.fee
            && HalfAway(r.value.settlement, MICRO) * MICRO == r.value.settlement
  {
    var m, base := i * j * 10_000_000, i * j * k;
    CalcExact(filled, rate, side, fixed, i, j, k);
    SettleIsNear(m, base, side);
    SettleRounds(m, base, side);
    hide Calc, Settle, HalfAway, RoundBank6, RoundedSix, FeePercent, Parse;
  }

  lemma CalcExact(filled: string, rate: string, side: int, fixed: Option<string>, i: int, j: int, k: int)
    requires Parse(filled) == Some(i * MICRO) && Parse(rate) == Some(j * MICRO)
    requires FeePercent(fixed) == Some(k * 100_000_000_000_000)
    ensures Calc(filled, rate, side, fixed) == Some(Settle(i * j * 10_000_000, RoundBank6(i * j * k), side))
  {
    NothingIsTruncated(i, j, k);
    hide Parse, FeePercent, Mul, DivHundred, RoundBank6, Settle;
  }

  lemma SettleRounds(m: Dec, base: Dec, side: int)
    ensures var r := Settle(m, RoundBank6(base), side);
            RoundedSix(base, r.fee) && RoundedSix(m + (if side == BUY then r.fee else -r.fee), r.settlement)
  {
    var fee := RoundBank6(base);
    var total := if side == BUY then m + fee else m - fee;
    RoundedSixIs(base, fee);
    RoundedSixIs(total, RoundBank6(total));
    hide RoundBank6, RoundedSix;
    assert total == m + (if side == BUY then fee else -fee);
  }

  lemma SettleIsNear(m: Dec, base: Dec, side: int)
    ensures var exact := if side == BUY then m + base else m - base;
            var r := Settle(m, RoundBank6(base), side);
            -MICRO <= r.settlement - exact <= MICRO
            && HalfAway(r.fee, MICRO) * MICRO == r.fee
            && HalfAway(r.settlement, MICRO) * MICRO == r.settlement
  {
    var fee := RoundBank6(base);
    var total := if side == BUY then m + fee else m - fee;
    HalfEvenNear(base, MICRO);
    HalfEvenNear(total, MICRO);
    WholeMicros(HalfEven(base, MICRO));
    WholeMicros(HalfEven(total, MICRO));
    StorageIsExactOnSixPlaces(fee);
    StorageIsExactOnSixPlaces(RoundBank6(total));
  }

  lemma WholeMicros(n: int)
    ensures SixPlaces(n * MICRO)
  {
  }

  /** Whatever the inputs, Cal yields six-place values. */
  lemma AmountsAreSixPlaces(filled: string, rate: string, side: int, fixed: Option<string>)
    requires Calc(filled, rate, side, fixed).Some?
    ensures SixPlaces(Calc(filled, rate, side, fixed).value.settlement)
    ensures SixPlaces(Calc(filled, rate, side, fixed).value.fee)
  {
    CalcParts(filled, rate, side, fixed);
    hide Calc, Parse, FeePercent, Mul, DivHundred, HalfEven, Priced, SixPlaces;
    var m := Mul(Parse(filled).value, Parse(rate).value);
    var base := DivHundred(Mul(m, FeePercent(fixed).value));
    var fee := RoundBank6(base);
    WholeMicros(HalfEven(base, MICRO));
    WholeMicros(HalfEven(if side == BUY then m + fee else m - fee, MICRO));
  }
}
