/**
Decimal values and their texts.

A parsed decimal is an integer count of 10^-19, the finest place the decimal library
keeps; a NUMERIC(28,6) column is an integer count of millionths.
*/
module Decimals {
  import opened Options
  import opened Division

  /** A decimal value in units of 10^-19. */
  type Dec = int

  const ONE := 10_000_000_000_000_000_000
  /** One millionth, in units of 10^-19. */
  const MICRO := 10_000_000_000_000
  const MILLION := 1_000_000
  /** NUMERIC(28,6) holds values strictly below 10^28 millionths. */
  const COLUMN_LIMIT := 10_000_000_000_000_000_000_000_000_000

  // ---------------------------------------------------------------- digits

  predicate IsDigit(c: char) { '0' <= c <= '9' }

  predicate AllDigits(s: string) { forall i :: 0 <= i < |s| ==> IsDigit(s[i]) }

  function DigitChar(d: nat): (c: char)
    requires d < 10
    ensures IsDigit(c) && DigitValue(c) == d
  {
    '0' + d as char
  }

  function DigitValue(c: char): nat
    requires IsDigit(c)
  {
    (c - '0') as nat
  }

  function Pow10(n: nat): (p: nat)
    ensures p > 0
  {
    if n == 0 then 1 else 10 * Pow10(n - 1)
  }

  /** The number a run of digits denotes. */
  function Value(s: string): nat
    requires AllDigits(s)
  {
    if s == "" then 0 else 10 * Value(s[..|s| - 1]) + DigitValue(s[|s| - 1])
  }

  /** `n` in base ten without leading zeros. */
  function Digits(n: nat): (s: string)
    ensures s != "" && AllDigits(s)
  {
    if n < 10 then [DigitChar(n)] else Digits(n / 10) + [DigitChar(n % 10)]
  }

  /** The last `width` digits of `n`, zero-padded. */
  function Padded(n: nat, width: nat): (s: string)
    ensures |s| == width && AllDigits(s)
  {
    if width == 0 then "" else Padded(n / 10, width - 1) + [DigitChar(n % 10)]
  }

  lemma {:induction false} ValueOfDigits(n: nat)
    ensures Value(Digits(n)) == n
  {
    if n >= 10 {
      ValueOfDigits(n / 10);
      assert Digits(n)[..|Digits(n)| - 1] == Digits(n / 10);
    }
  }

  lemma {:induction false} ValueOfPadded(n: nat, width: nat)
    requires n < Pow10(width)
    ensures Value(Padded(n, width)) == n
  {
    if width > 0 {
      assert n / 10 < Pow10(width - 1);
      ValueOfPadded(n / 10, width - 1);
      assert Padded(n, width) == Padded(n / 10, width - 1) + [DigitChar(n % 10)];
      hide Padded, Pow10;
      ValueSnoc(Padded(n / 10, width - 1), DigitChar(n % 10));
    }
  }

  lemma ValueSnoc(s: string, c: char)
    requires AllDigits(s) && IsDigit(c)
    ensures AllDigits(s + [c]) && Value(s + [c]) == 10 * Value(s) + DigitValue(c)
  {
    assert (s + [c])[..|s|] == s;
  }

  // ---------------------------------------------------------------- parsing

  /** Position of the first `c` in `s`, or |s|. */
  function IndexOf(s: string, c: char): (i: nat)
    ensures i <= |s| && (i < |s| ==> s[i] == c)
    ensures forall j :: 0 <= j < i ==> s[j] != c
  {
    if s == "" || s[0] == c then 0 else 1 + IndexOf(s[1..], c)
  }

  /** The first `c` after a text without one is found where that text ends. */
  lemma IndexAfter(a: string, c: char, b: string)
    requires c !in a
    ensures IndexOf(a + [c] + b, c) == |a|
  {
    var s := a + [c] + b;
    assert s[|a|] == c;
    assert forall j :: 0 <= j < |a| ==> s[j] == a[j];
  }

  lemma DigitsHaveNo(s: string, c: char)
    requires AllDigits(s) && !IsDigit(c)
    ensures c !in s
  {
  }

  function Signed(negative: bool, n: int): int { if negative then -n else n }

  /** Unsigned part: digits, optionally a point and one to nineteen more digits. */
  function ParseUnsigned(s: string): Option<nat> {
    var i := IndexOf(s, '.');
    if i == |s| then
      if s != "" && AllDigits(s) then Some(Value(s) * ONE) else None
    else
      var whole, frac := s[..i], s[i + 1..];
      if whole != "" && frac != "" && AllDigits(whole) && AllDigits(frac) && |frac| <= 19 then
        Some(Value(whole) * ONE + Value(frac) * Pow10(19 - |frac|))
      else None
  }

  predicate HasSign(s: string) { s != "" && (s[0] == '-' || s[0] == '+') }

  /** The decimal library's Parse: an optional sign, digits, optionally a point and digits. */
  function Parse(s: string): Option<Dec> {
    match ParseUnsigned(if HasSign(s) then s[1..] else s)
    case None => None
    case Some(n) => Some(Signed(HasSign(s) && s[0] == '-', n))
  }

  // ---------------------------------------------------------------- rounding

  /** Division toward zero, as the library truncates. */
  function TruncDiv(a: int, unit: int): int
    requires unit > 0
  {
    if a >= 0 then a / unit else -(-a / unit)
  }

  /** Half-to-even rounding of a / unit. */
  function HalfEven(a: int, unit: int): int
    requires unit > 0
  {
    var q, r := a / unit, a % unit;
    if 2 * r < unit || (2 * r == unit && q % 2 == 0) then q else q + 1
  }

  /** Half-away-from-zero rounding of a / unit, the mode PostgreSQL stores a NUMERIC with. */
  function HalfAway(a: int, unit: int): int
    requires unit > 0
  {
    if a >= 0 then (2 * a + unit) / (2 * unit) else -((-2 * a + unit) / (2 * unit))
  }

  predicate SixPlaces(d: Dec) { d % MICRO == 0 }

  /** The value a NUMERIC(28,6) column keeps for `d`, or nothing when it overflows. */
  function Numeric(d: Dec): (u: Option<int>)
    ensures u.Some? && SixPlaces(d) ==> u.value * MICRO == d
  {
    var u := HalfAway(d, MICRO);
    if -COLUMN_LIMIT < u < COLUMN_LIMIT then Some(u) else None
  }

  predicate Fits(u: int) { -COLUMN_LIMIT < u < COLUMN_LIMIT }

  /** Storing a six-place value rounds nothing, and only such values survive storage unchanged. */
  lemma StorageIsExactOnSixPlaces(d: Dec)
    ensures HalfAway(d, MICRO) * MICRO == d <==> SixPlaces(d)
    ensures TruncDiv(d, MICRO) * MICRO == d <==> SixPlaces(d)
  {
  }

  // ---------------------------------------------------------------- what the roundings mean

  /** No multiple of `unit` is nearer to `a` than `h` times it, and of two equally near ones `h` is even. */
  predicate NearestEven(a: int, h: int, unit: int) {
    var off := 2 * (h * unit - a);
    -unit <= off <= unit && (off == unit || off == -unit ==> h % 2 == 0)
  }

  /** ... and of two equally near ones it is the one farther from zero. */
  predicate NearestAway(a: int, h: int, unit: int) {
    var off := 2 * (h * unit - a);
    -unit <= off <= unit && (off == unit ==> a >= 0) && (off == -unit ==> a < 0)
  }

  /** `a` counted in whole units, with what is left over dropped toward zero. */
  predicate CutTo(a: int, t: int, unit: int) {
    if a >= 0 then t * unit <= a < (t + 1) * unit else (t - 1) * unit < a <= t * unit
  }

  lemma NearBy(a: int, h: int, k: int, unit: int)
    requires unit > 0 && -unit <= 2 * (h * unit - a) <= unit && -unit <= 2 * (k * unit - a) <= unit
    ensures h == k || (h == k + 1 && 2 * (h * unit - a) == unit && 2 * (k * unit - a) == -unit)
            || (k == h + 1 && 2 * (k * unit - a) == unit && 2 * (h * unit - a) == -unit)
  {
    Apart(h, k, unit);
    Apart(k, h, unit);
  }

  lemma Apart(h: int, k: int, unit: int)
    requires unit > 0
    ensures h > k ==> h * unit >= k * unit + unit
    ensures h > k + 1 ==> h * unit >= k * unit + 2 * unit
    ensures h == k + 1 ==> h * unit == k * unit + unit
  {
    MoreUnits(k, 1, unit);
    MoreUnits(k, 2, unit);
    if h > k { MulMono(k + 1, h, unit); }
    if h > k + 1 { MulMono(k + 2, h, unit); }
  }

  lemma MoreUnits(k: int, n: int, unit: int)
    ensures (k + n) * unit == k * unit + n * unit
  {
  }

  /** Half-even rounding is exactly that. */
  lemma HalfEvenIs(a: int, h: int, unit: int)
    requires unit > 0
    ensures NearestEven(a, h, unit) <==> h == HalfEven(a, unit)
  {
    var q, r := a / unit, a % unit;
    assert a == q * unit + r && (q + 1) * unit == q * unit + unit;
    var e := HalfEven(a, unit);
    assert NearestEven(a, e, unit);
    if NearestEven(a, h, unit) { NearBy(a, h, e, unit); }
  }

  /** So is the rounding of the columns. */
  lemma HalfAwayIs(a: int, h: int, unit: int)
    requires unit > 0
    ensures NearestAway(a, h, unit) <==> h == HalfAway(a, unit)
  {
    var e := HalfAway(a, unit);
    HalfAwayNear(a, unit);
    if NearestAway(a, h, unit) { NearBy(a, h, e, unit); }
  }

  lemma HalfAwayNear(a: int, unit: int)
    requires unit > 0
    ensures NearestAway(a, HalfAway(a, unit), unit)
  {
    var b := if a >= 0 then 2 * a + unit else -2 * a + unit;
    HalfUp(b, unit);
    var q := b / (2 * unit);
    hide HalfAway;
    assert HalfAway(a, unit) == if a >= 0 then q else -q by { AwayIs(a, unit); }
    assert -q * unit == -(q * unit);
  }

  lemma AwayIs(a: int, unit: int)
    requires unit > 0
    ensures HalfAway(a, unit) == if a >= 0 then (2 * a + unit) / (2 * unit) else -((-2 * a + unit) / (2 * unit))
  {
  }

  lemma HalfUp(b: int, unit: int)
    requires unit > 0
    ensures 2 * (b / (2 * unit) * unit) <= b < 2 * (b / (2 * unit) * unit) + 2 * unit
  {
    var q := b / (2 * unit);
    assert b == q * (2 * unit) + b % (2 * unit);
    assert q * (2 * unit) == 2 * (q * unit);
  }

  /** And the cut of a product or quotient. */
  lemma TruncDivIs(a: int, t: int, unit: int)
    requires unit > 0
    ensures CutTo(a, t, unit) <==> t == TruncDiv(a, unit)
  {
    var e := TruncDiv(a, unit);
    var q := (if a >= 0 then a else -a) / unit;
    assert CutTo(a, e, unit) by {
      assert (if a >= 0 then a else -a) == q * unit + (if a >= 0 then a else -a) % unit;
      assert (q + 1) * unit == q * unit + unit && (-q) * unit == -(q * unit) && (-q - 1) * unit == -(q * unit) - unit;
    }
    if CutTo(a, t, unit) && t != e { CutOnce(a, t, e, unit); }
  }

  lemma CutOnce(a: int, t: int, e: int, unit: int)
    requires unit > 0 && CutTo(a, t, unit) && CutTo(a, e, unit)
    ensures t == e
  {
    Apart(t, e, unit);
    Apart(e, t, unit);
    Apart(t + 1, t, unit);
    Apart(t, t - 1, unit);
    Apart(e + 1, e, unit);
    Apart(e, e - 1, unit);
  }

  /** A NUMERIC(28,6) column stores `d` as `u` millionths. */
  predicate KeptAs(d: Dec, u: int) { NearestAway(d, u, MICRO) && Fits(u) }

  /** The values it takes; a statement fails on any other. */
  predicate InRange(d: Dec) { 2 * Abs(d) < (2 * COLUMN_LIMIT - 1) * MICRO }

  lemma NumericIs(d: Dec, u: int)
    ensures Numeric(d) == Some(u) <==> KeptAs(d, u)
    ensures Numeric(d).Some? <==> InRange(d)
    ensures SixPlaces(d) ==> (KeptAs(d, u) <==> d == u * MICRO && Fits(u))
  {
    HalfAwayIs(d, u, MICRO);
    HalfAwayIs(d, HalfAway(d, MICRO), MICRO);
    StorageIsExactOnSixPlaces(d);
    hide HalfAway;
  }

  // ---------------------------------------------------------------- what parsing reads

  /** A decimal as it is written: a sign or none, digits, and a point with more digits or none. */
  predicate Written(s: string, sign: string, whole: string, frac: string) {
    && sign in ["", "+", "-"] && whole != "" && AllDigits(whole) && AllDigits(frac) && |frac| <= 19
    && s == sign + whole + (if frac == "" then "" else "." + frac)
  }

  /** It stands for its digits without the point, times a power of ten. */
  lemma ParseReads(s: string, sign: string, whole: string, frac: string)
    requires Written(s, sign, whole, frac)
    ensures AllDigits(whole + frac)
    ensures Parse(s) == Some((if sign == "-" then -1 else 1) * (Value(whole + frac) * Pow10(19 - |frac|)))
  {
    var rest := if frac == "" then "" else "." + frac;
    UnsignedReads(whole, frac);
    hide Parse, ParseUnsigned, Value, Pow10;
    Parts(sign, whole, rest);
    Sign(sign, whole + rest, Value(whole + frac) * Pow10(19 - |frac|));
  }

  lemma Parts(sign: string, whole: string, rest: string)
    requires whole != "" && AllDigits(whole)
    ensures sign + whole + rest == sign + (whole + rest) && IsDigit((whole + rest)[0])
  {
  }

  lemma Sign(sign: string, body: string, n: nat)
    requires sign in ["", "+", "-"] && body != "" && IsDigit(body[0]) && ParseUnsigned(body) == Some(n)
    ensures Parse(sign + body) == Some((if sign == "-" then -1 else 1) * n)
  {
    hide ParseUnsigned;
    var s := sign + body;
    if sign == "" { assert s == body; } else { assert s[1..] == body && s[0] == sign[0]; }
  }

  lemma UnsignedReads(whole: string, frac: string)
    requires whole != "" && AllDigits(whole) && AllDigits(frac) && |frac| <= 19
    ensures ParseUnsigned(whole + (if frac == "" then "" else "." + frac)) ==
              Some(Value(whole + frac) * Pow10(19 - |frac|))
  {
    hide Value, Pow10, ParseUnsigned;
    DigitsHaveNo(whole, '.');
    PowerNineteen();
    if frac == "" {
      assert whole + "" == whole && whole + frac == whole;
      WholeReads(whole);
    } else {
      assert whole + ("." + frac) == whole + "." + frac;
      PointReads(whole, frac);
      JoinedScales(whole, frac);
    }
  }

  lemma JoinedScales(whole: string, frac: string)
    requires AllDigits(whole) && AllDigits(frac) && |frac| <= 19
    ensures AllDigits(whole + frac)
    ensures Value(whole + frac) * Pow10(19 - |frac|) == Value(whole) * ONE + Value(frac) * Pow10(19 - |frac|)
  {
    hide Value, Pow10;
    ValueOfJoined(whole, frac);
    PowersMultiply(|frac|, 19 - |frac|);
    PowerNineteen();
    Scale(Value(whole), Value(frac), Pow10(|frac|), Pow10(19 - |frac|));
  }

  lemma Scale(w: int, f: int, a: int, b: int)
    ensures (w * a + f) * b == w * (a * b) + f * b
  {
  }

  lemma WholeReads(whole: string)
    requires whole != "" && AllDigits(whole) && '.' !in whole
    ensures ParseUnsigned(whole) == Some(Value(whole) * ONE)
  {
    hide Value;
    assert IndexOf(whole, '.') == |whole|;
  }

  lemma PointReads(whole: string, frac: string)
    requires whole != "" && frac != "" && AllDigits(whole) && AllDigits(frac) && |frac| <= 19 && '.' !in whole
    ensures ParseUnsigned(whole + "." + frac) == Some(Value(whole) * ONE + Value(frac) * Pow10(19 - |frac|))
  {
    hide Value, Pow10;
    var body := whole + "." + frac;
    IndexAfter(whole, '.', frac);
    assert body[..|whole|] == whole && body[|whole| + 1..] == frac;
  }

  lemma {:induction false} ValueOfJoined(a: string, b: string)
    requires AllDigits(a) && AllDigits(b)
    ensures AllDigits(a + b) && Value(a + b) == Value(a) * Pow10(|b|) + Value(b)
  {
    if b == "" {
      assert a + b == a;
    } else {
      var front, c := b[..|b| - 1], b[|b| - 1];
      ValueOfJoined(a, front);
      assert a + b == (a + front) + [c];
      assert b == front + [c] && Pow10(|b|) == 10 * Pow10(|front|);
      hide Value, Pow10;
      ValueSnoc(a + front, c);
      ValueSnoc(front, c);
      Tenfold(Value(a), Pow10(|front|));
    }
  }

  lemma Tenfold(v: int, p: int)
    ensures v * (10 * p) == 10 * (v * p)
  {
  }

  lemma {:induction false} PowersMultiply(m: nat, n: nat)
    ensures Pow10(m) * Pow10(n) == Pow10(m + n)
  {
    if m > 0 {
      PowersMultiply(m - 1, n);
      var a, b := Pow10(m - 1), Pow10(n);
      assert (10 * a) * b == 10 * (a * b);
    }
  }

  lemma PowerNineteen()
    ensures Pow10(19) == ONE
  {
    PowersOfTen();
    PowersMultiply(6, 13);
    hide Pow10;
  }

  /** Twenty-eight digits, six of them after the point. */
  lemma FitsIff(u: int)
    ensures Fits(u) <==> Abs(u) < Pow10(28)
    ensures ONE == MICRO * Pow10(6)
  {
    PowersOfTen();
    PowerNineteen();
    PowersMultiply(6, 3);
    PowersMultiply(9, 19);
    assert Pow10(3) == 1000;
    hide Pow10;
  }

  /** Nothing else parses. */
  lemma ParsedIsWritten(s: string)
    requires Parse(s).Some?
    ensures exists sign, whole, frac :: Written(s, sign, whole, frac)
  {
    var sign, body := if HasSign(s) then s[..1] else "", if HasSign(s) then s[1..] else s;
    assert s == sign + body && ParseUnsigned(body).Some?;
    assert HasSign(s) ==> sign == [s[0]];
    UnsignedParts(body);
    hide *;
    var whole, frac :| Halves(body, whole, frac);
    AllWritten(s, sign, body, whole, frac);
  }

  predicate Halves(body: string, whole: string, frac: string) {
    && whole != "" && AllDigits(whole) && AllDigits(frac) && |frac| <= 19
    && body == whole + (if frac == "" then "" else "." + frac)
  }

  lemma UnsignedParts(body: string)
    requires ParseUnsigned(body).Some?
    ensures exists whole, frac :: Halves(body, whole, frac)
  {
    hide Value, Pow10;
    var i := IndexOf(body, '.');
    if i == |body| {
      assert Halves(body, body, "");
    } else {
      assert body == body[..i] + ("." + body[i + 1..]);
      assert Halves(body, body[..i], body[i + 1..]);
    }
  }

  lemma AllWritten(s: string, sign: string, body: string, whole: string, frac: string)
    requires s == sign + body && sign in ["", "+", "-"] && Halves(body, whole, frac)
    ensures Written(s, sign, whole, frac)
  {
    var rest := if frac == "" then "" else "." + frac;
    assert sign + (whole + rest) == sign + whole + rest;
  }

  // ---------------------------------------------------------------- column text

  function Abs(i: int): nat { if i < 0 then -i else i }

  function SignText(i: int): string { if i < 0 then "-" else "" }

  /** The ::text form of an integer column. */
  function IntText(i: int): string { SignText(i) + Digits(Abs(i)) }

  /** The ::text form of a NUMERIC(28,6) column: always six places. */
  function NumText(u: int): string {
    SignText(u) + Digits(Abs(u) / MILLION) + "." + Padded(Abs(u) % MILLION, 6)
  }

  lemma {:induction false} PowersOfTen()
    ensures Pow10(6) == MILLION && Pow10(13) == MICRO
  {
    assert Pow10(3) == 1000;
    assert Pow10(6) == 1_000_000;
    assert Pow10(9) == 1_000_000_000;
    assert Pow10(13) == MICRO;
  }

  lemma ParseUnsignedColumn(n: nat)
    ensures ParseUnsigned(ColumnDigits(n)) == Some(n * MICRO)
  {
    var whole, frac := Digits(n / MILLION), Padded(n % MILLION, 6);
    var body := whole + "." + frac;
    DigitsHaveNo(whole, '.');
    PowersOfTen();
    ValueOfDigits(n / MILLION);
    ValueOfPadded(n % MILLION, 6);
    hide Digits, Padded, Value, Pow10, ParseUnsigned;
    ParsePointed(whole, frac);
    assert MILLION * (n / MILLION) + n % MILLION == n;
  }

  /** Digits, a point, and six more. */
  lemma ParsePointed(whole: string, frac: string)
    requires whole != "" && AllDigits(whole) && |frac| == 6 && AllDigits(frac) && '.' !in whole && Pow10(13) == MICRO
    ensures ParseUnsigned(whole + "." + frac) == Some(Value(whole) * ONE + Value(frac) * MICRO)
  {
    hide Value, Pow10;
    var body := whole + "." + frac;
    IndexAfter(whole, '.', frac);
    assert body[..|whole|] == whole && body[|whole| + 1..] == frac;
  }

  lemma ParseSigned(u: int, body: string, n: nat)
    requires body != "" && IsDigit(body[0]) && ParseUnsigned(body) == Some(n)
    ensures Parse(SignText(u) + body) == Some(Signed(u < 0, n))
  {
    var s := SignText(u) + body;
    if u < 0 {
      assert s[0] == '-' && s[1..] == body;
    } else {
      assert s == body;
    }
  }

  /** Reading a stored column back gives the value that was stored. */
  lemma ParseOfNumText(u: int)
    ensures Parse(NumText(u)) == Some(u * MICRO)
  {
    hide *;
    NumTextIs(u);
    ParseUnsignedColumn(Abs(u));
    ParseSigned(u, ColumnDigits(Abs(u)), Abs(u) * MICRO);
    SignedAbs(u);
  }

  /** The digits of a column without the sign. */
  function ColumnDigits(n: nat): string { Digits(n / MILLION) + "." + Padded(n % MILLION, 6) }

  lemma NumTextIs(u: int)
    ensures NumText(u) == SignText(u) + ColumnDigits(Abs(u))
    ensures ColumnDigits(Abs(u)) != "" && IsDigit(ColumnDigits(Abs(u))[0])
  {
    var whole, frac := Digits(Abs(u) / MILLION), Padded(Abs(u) % MILLION, 6);
    SignFirst(SignText(u), whole, ".", frac);
    hide Digits, Padded, SignText;
    assert ColumnDigits(Abs(u))[0] == whole[0];
  }

  lemma SignedAbs(u: int)
    ensures Signed(u < 0, Abs(u) * MICRO) == u * MICRO
  {
  }

  lemma SignFirst(a: string, b: string, c: string, d: string)
    ensures a + b + c + d == a + (b + c + d)
  {
  }

  // ---------------------------------------------------------------- decimal.go

  datatype DecimalError = Unparseable | TooPrecise

  /** checkDecimal: refuses a value with a significant digit past the sixth place. */
  function CheckDecimal(value: string): (r: Result<Dec, DecimalError>) {
    match Parse(value)
    case None => Err(Unparseable)
    case Some(d) => if TruncDiv(d, MICRO) * MICRO == d then Ok(d) else Err(TooPrecise)
  }

  /** checkDecimal accepts exactly the texts whose value six-place storage keeps unchanged. */
  lemma CheckDecimalIsStorageExact(value: string)
    ensures CheckDecimal(value).Ok? <==>
              Parse(value).Some? && HalfAway(Parse(value).value, MICRO) * MICRO == Parse(value).value
    ensures CheckDecimal(value) == Err(TooPrecise) <==>
              Parse(value).Some? && HalfAway(Parse(value).value, MICRO) * MICRO != Parse(value).value
  {
    if Parse(value).Some? { StorageIsExactOnSixPlaces(Parse(value).value); }
  }

  // ---------------------------------------------------------------- reconcile.go, sameDecimal

  /** sameDecimal: equal values, or equal texts when one of them does not parse. */
  predicate SameDecimal(a: string, b: string) {
    if Parse(a).None? || Parse(b).None? then a == b else Parse(a).value == Parse(b).value
  }

  /** Against a stored column, sameDecimal decides equality of value: an unparsable text never passes. */
  lemma SameDecimalOfColumn(a: string, u: int)
    ensures SameDecimal(a, NumText(u)) <==> Parse(a) == Some(u * MICRO)
  {
    ParseOfNumText(u);
  }
}
