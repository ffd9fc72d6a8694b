/** Facts about integer division that the decimal and calendar arithmetic share. */
module Division {

  lemma MulMono(p: int, q: int, unit: int)
    requires unit > 0 && p <= q
    ensures p * unit <= q * unit
  {
    assert (q - p) * unit >= 0;
  }

  lemma MulCancel(p: int, q: int, unit: int)
    requires unit > 0 && p * unit < q * unit
    ensures p < q
  {
    if q <= p { MulMono(q, p, unit); }
  }

  lemma DivMono(a: int, b: int, unit: int)
    requires unit > 0 && a <= b
    ensures a / unit <= b / unit
  {
    var p, q := a / unit, b / unit;
    assert p * unit <= a && b < q * unit + unit == (q + 1) * unit;
    MulCancel(p, q + 1, unit);
  }

  lemma QuotientIs(a: int, unit: int, q: int, r: int)
    requires unit > 0 && 0 <= r < unit && a == q * unit + r
    ensures a / unit == q && a % unit == r
  {
    var p := a / unit;
    var t := a % unit;
    assert a == p * unit + t;
    assert p * unit < (q + 1) * unit && q * unit < (p + 1) * unit;
    MulCancel(p, q + 1, unit);
    MulCancel(q, p + 1, unit);
  }
}
