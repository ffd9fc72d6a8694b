/**
The proleptic Gregorian calendar and the date texts of the SDK.

Day numbers count from 1 January of year 0, the origin of Clock.
*/
module Calendar {
  import opened Options
  import opened Decimals
  import opened Division

  datatype Date = Date(year: nat, month: nat, day: nat)

  predicate Leap(y: nat) { (y % 4 == 0 && y % 100 != 0) || y % 400 == 0 }

  function YearLength(y: nat): nat { if Leap(y) then 366 else 365 }

  function MonthLength(y: nat, m: nat): nat {
    if m == 2 then (if Leap(y) then 29 else 28)
    else if m == 4 || m == 6 || m == 9 || m == 11 then 30 else 31
  }

  predicate ValidDate(d: Date) { 1 <= d.month <= 12 && 1 <= d.day <= MonthLength(d.year, d.month) }

  function DaysBeforeYear(y: nat): nat { if y == 0 then 0 else DaysBeforeYear(y - 1) + YearLength(y - 1) }

  function DaysBeforeMonth(y: nat, m: nat): nat
    requires 1 <= m <= 13
  {
    if m == 1 then 0 else DaysBeforeMonth(y, m - 1) + MonthLength(y, m - 1)
  }

  function DayNumber(d: Date): nat
    requires ValidDate(d)
  {
    DaysBeforeYear(d.year) + DaysBeforeMonth(d.year, d.month) + d.day - 1
  }

  /** The calendar's successor: AddDate(0, 0, 1). */
  function Next(d: Date): (n: Date)
    requires ValidDate(d)
    ensures ValidDate(n)
  {
    if d.day < MonthLength(d.year, d.month) then Date(d.year, d.month, d.day + 1)
    else if d.month < 12 then Date(d.year, d.month + 1, 1)
    else Date(d.year + 1, 1, 1)
  }

  lemma MonthsFillYear(y: nat)
    ensures DaysBeforeMonth(y, 13) == YearLength(y)
  {
    assert DaysBeforeMonth(y, 2) == 31;
    assert DaysBeforeMonth(y, 3) == (if Leap(y) then 60 else 59);
    assert DaysBeforeMonth(y, 5) == DaysBeforeMonth(y, 3) + 61;
    assert DaysBeforeMonth(y, 7) == DaysBeforeMonth(y, 5) + 61;
    assert DaysBeforeMonth(y, 9) == DaysBeforeMonth(y, 7) + 62;
    assert DaysBeforeMonth(y, 11) == DaysBeforeMonth(y, 9) + 61;
  }

  /** Across month ends, leap days and year ends, the next date is the next day number. */
  lemma NextIsNextDay(d: Date)
    requires ValidDate(d)
    ensures DayNumber(Next(d)) == DayNumber(d) + 1
  {
    MonthsFillYear(d.year);
  }

  lemma {:induction false} YearsMonotone(y: nat, z: nat)
    requires y < z
    ensures DaysBeforeYear(y) + YearLength(y) <= DaysBeforeYear(z)
  {
    if y + 1 < z { YearsMonotone(y, z - 1); }
  }

  lemma {:induction false} MonthsMonotone(y: nat, m: nat, n: nat)
    requires 1 <= m < n <= 13
    ensures DaysBeforeMonth(y, m) + MonthLength(y, m) <= DaysBeforeMonth(y, n)
  {
    if m + 1 < n { MonthsMonotone(y, m, n - 1); }
  }

  predicate Before(d: Date, e: Date) {
    d.year < e.year || (d.year == e.year && (d.month < e.month || (d.month == e.month && d.day < e.day)))
  }

  /** Dates and their numbers are ordered alike. */
  lemma NumberOrdersDates(d: Date, e: Date)
    requires ValidDate(d) && ValidDate(e)
    ensures Before(d, e) <==> DayNumber(d) < DayNumber(e)
    ensures d == e <==> DayNumber(d) == DayNumber(e)
  {
    MonthsFillYear(d.year);
    MonthsFillYear(e.year);
    Within(d);
    Within(e);
    if d.year < e.year { YearsMonotone(d.year, e.year); }
    else if e.year < d.year { YearsMonotone(e.year, d.year); }
    else if d.month < e.month { MonthsMonotone(d.year, d.month, e.month); }
    else if e.month < d.month { MonthsMonotone(d.year, e.month, d.month); }
  }

  lemma Within(d: Date)
    requires ValidDate(d)
    ensures DaysBeforeYear(d.year) <= DayNumber(d) < DaysBeforeYear(d.year) + YearLength(d.year)
  {
    MonthsFillYear(d.year);
    MonthsMonotone(d.year, d.month, 13);
  }

  // ---------------------------------------------------------------- the Gregorian rule

  /** Every fourth year has a 29 February, but of the hundredth ones only every fourth. */
  lemma {:induction false} YearsCount(y: nat)
    ensures DaysBeforeYear(y) == 365 * y + (y + 3) / 4 - (y + 99) / 100 + (y + 399) / 400
  {
    if y > 0 {
      YearsCount(y - 1);
      LeapYears(y - 1);
      hide Leap;
      assert DaysBeforeYear(y) == DaysBeforeYear(y - 1) + 365 + (if Leap(y - 1) then 1 else 0);
      hide DaysBeforeYear;
      MoreMultiples(y - 1);
    }
  }

  lemma MoreMultiples(k: nat)
    ensures (k + 4) / 4 - (k + 100) / 100 + (k + 400) / 400 ==
              (k + 3) / 4 - (k + 99) / 100 + (k + 399) / 400
              + (if k % 4 == 0 then 1 else 0) - (if k % 100 == 0 then 1 else 0) + (if k % 400 == 0 then 1 else 0)
  {
    OneMoreMultiple(k, 4);
    OneMoreMultiple(k, 100);
    OneMoreMultiple(k, 400);
  }

  lemma LeapYears(y: nat)
    ensures (if Leap(y) then 1 else 0) ==
              (if y % 4 == 0 then 1 else 0) - (if y % 100 == 0 then 1 else 0) + (if y % 400 == 0 then 1 else 0)
  {
    if y % 100 == 0 { QuotientIs(y, 4, 25 * (y / 100), 0); }
    if y % 400 == 0 { QuotientIs(y, 100, 4 * (y / 400), 0); }
  }

  lemma OneMoreMultiple(k: nat, n: nat)
    requires n > 0
    ensures (k + n) / n == (k + n - 1) / n + (if k % n == 0 then 1 else 0)
  {
    var q, r := k / n, k % n;
    assert k == q * n + r && (q + 1) * n == q * n + n;
    QuotientIs(k + n, n, q + 1, r);
    if r == 0 { QuotientIs(k + n - 1, n, q, n - 1); } else { QuotientIs(k + n - 1, n, q + 1, r - 1); }
  }

  /** From March on, five months have 153 days. */
  lemma {:induction false} MonthsCount(y: nat, m: nat)
    requires 1 <= m <= 12
    ensures DaysBeforeMonth(y, m) ==
              if m <= 2 then 31 * (m - 1)
              else 59 + (153 * (m - 3) + 2) / 5 + (if y % 4 == 0 && (y % 100 != 0 || y % 400 == 0) then 1 else 0)
  {
    if m > 1 {
      MonthsCount(y, m - 1);
      assert DaysBeforeMonth(y, m) == DaysBeforeMonth(y, m - 1) + MonthLength(y, m - 1);
      hide DaysBeforeMonth, Leap;
      assert Leap(y) <==> y % 4 == 0 && (y % 100 != 0 || y % 400 == 0) by { LeapIs(y); }
      if m > 3 { FiveMonths(y, m - 1); }
    }
  }

  lemma LeapIs(y: nat)
    ensures Leap(y) <==> y % 4 == 0 && (y % 100 != 0 || y % 400 == 0)
  {
    if y % 400 == 0 { QuotientIs(y, 4, 100 * (y / 400), 0); }
  }

  lemma FiveMonths(y: nat, m: nat)
    requires 3 <= m <= 11
    ensures (153 * (m - 2) + 2) / 5 == (153 * (m - 3) + 2) / 5 + MonthLength(y, m)
  {
    hide Leap;
    if m <= 7 {
      assert m == 3 || m == 4 || m == 5 || m == 6 || m == 7;
    } else {
      assert m == 8 || m == 9 || m == 10 || m == 11;
    }
  }

  /** The number of a date, in closed form. */
  lemma DayNumberIs(d: Date)
    requires ValidDate(d)
    ensures var y, m := d.year, d.month;
            DayNumber(d) ==
              365 * y + (y + 3) / 4 - (y + 99) / 100 + (y + 399) / 400 + d.day - 1
              + (if m <= 2 then 31 * (m - 1)
                 else 59 + (153 * (m - 3) + 2) / 5 + (if y % 4 == 0 && (y % 100 != 0 || y % 400 == 0) then 1 else 0))
  {
    YearsCount(d.year);
    MonthsCount(d.year, d.month);
    hide DaysBeforeYear, DaysBeforeMonth;
  }

  // ---------------------------------------------------------------- day number to date

  function YearFrom(n: nat, y: nat): nat
    decreases n
  {
    if n < YearLength(y) then y else YearFrom(n - YearLength(y), y + 1)
  }

  function MonthFrom(y: nat, n: nat, m: nat): nat
    decreases 12 - m
  {
    if m >= 12 || n < MonthLength(y, m) then m else MonthFrom(y, n - MonthLength(y, m), m + 1)
  }

  lemma {:induction false} YearFound(n: nat, y: nat)
    ensures y <= YearFrom(n, y)
    ensures var z := YearFrom(n, y);
            DaysBeforeYear(z) <= DaysBeforeYear(y) + n < DaysBeforeYear(z) + YearLength(z)
    decreases n
  {
    if n >= YearLength(y) { YearFound(n - YearLength(y), y + 1); }
  }

  lemma {:induction false} MonthFound(y: nat, n: nat, m: nat)
    requires 1 <= m <= 12 && DaysBeforeMonth(y, m) + n < YearLength(y)
    ensures m <= MonthFrom(y, n, m) <= 12
    ensures var k := MonthFrom(y, n, m);
            DaysBeforeMonth(y, k) <= DaysBeforeMonth(y, m) + n < DaysBeforeMonth(y, k) + MonthLength(y, k)
    decreases 12 - m
  {
    if m < 12 && n >= MonthLength(y, m) { MonthFound(y, n - MonthLength(y, m), m + 1); }
    else if m == 12 { MonthsFillYear(y); }
  }

  /** The date with a given day number. */
  function DateOf(n: nat): (d: Date)
    ensures ValidDate(d) && DayNumber(d) == n
  {
    YearFound(n, 0);
    var y := YearFrom(n, 0);
    var r := n - DaysBeforeYear(y);
    MonthFound(y, r, 1);
    var m := MonthFrom(y, r, 1);
    Date(y, m, r - DaysBeforeMonth(y, m) + 1)
  }

  lemma DateOfNumber(d: Date)
    requires ValidDate(d)
    ensures DateOf(DayNumber(d)) == d
  {
    NumberOrdersDates(DateOf(DayNumber(d)), d);
  }

  // ---------------------------------------------------------------- YYYY-MM-DD

  /** Go pads a year to four digits and prints a longer one whole. */
  function YearText(y: nat): string { if y < 10_000 then Padded(y, 4) else Digits(y) }

  function DateText(d: Date): string { YearText(d.year) + "-" + Padded(d.month, 2) + "-" + Padded(d.day, 2) }

  /** time.Parse with the layout 2006-01-02: exactly four, two and two digits, and a real date. */
  function ParseDate(s: string): (r: Option<Date>)
    ensures r.Some? ==> ValidDate(r.value)
  {
    if |s| == 10 && s[4] == '-' && s[7] == '-' && AllDigits(s[..4]) && AllDigits(s[5..7]) && AllDigits(s[8..]) then
      var d := Date(Value(s[..4]), Value(s[5..7]), Value(s[8..]));
      if ValidDate(d) then Some(d) else None
    else None
  }

  lemma {:induction false} PaddedOfValue(s: string)
    requires AllDigits(s)
    ensures Padded(Value(s), |s|) == s && Value(s) < Pow10(|s|)
  {
    if s != "" {
      var front, c := s[..|s| - 1], s[|s| - 1];
      PaddedOfValue(front);
      assert Value(s) / 10 == Value(front) && Value(s) % 10 == DigitValue(c);
      assert DigitChar(DigitValue(c)) == c;
      assert s == front + [c];
    }
  }

  lemma SmallPowers()
    ensures Pow10(2) == 100 && Pow10(4) == 10_000
  {
    assert Pow10(1) == 10;
    assert Pow10(3) == 1000;
  }

  /** Dates of four-digit years survive the round trip through text. */
  lemma ParseOfDateText(d: Date)
    requires ValidDate(d) && d.year < 10_000
    ensures ParseDate(DateText(d)) == Some(d)
  {
    SmallPowers();
    var y, m, t := Padded(d.year, 4), Padded(d.month, 2), Padded(d.day, 2);
    ValueOfPadded(d.year, 4);
    ValueOfPadded(d.month, 2);
    ValueOfPadded(d.day, 2);
    assert d == Date(Value(y), Value(m), Value(t));
    assert DateText(d) == y + "-" + m + "-" + t;
    hide Padded, Value, Pow10, MonthLength, DateText;
    PartsParse(DateText(d), y, m, t);
  }

  lemma PartsParse(s: string, y: string, m: string, t: string)
    requires s == y + "-" + m + "-" + t && |y| == 4 && |m| == 2 && |t| == 2
    requires AllDigits(y) && AllDigits(m) && AllDigits(t) && ValidDate(Date(Value(y), Value(m), Value(t)))
    ensures ParseDate(s) == Some(Date(Value(y), Value(m), Value(t)))
  {
    hide Value, ValidDate;
    assert s[..4] == y && s[5..7] == m && s[8..] == t && s[4] == '-' && s[7] == '-';
  }

  /** A text that parses is the text of its date. */
  lemma TextOfParsedDate(s: string)
    requires ParseDate(s).Some?
    ensures DateText(ParseDate(s).value) == s && ParseDate(s).value.year < 10_000
  {
    ParsedParts(s);
    PaddedOfValue(s[..4]);
    PaddedOfValue(s[5..7]);
    PaddedOfValue(s[8..]);
    SmallPowers();
    hide Padded, Value, Pow10, ParseDate;
    assert s == s[..4] + "-" + s[5..7] + "-" + s[8..];
  }

  lemma ParsedParts(s: string)
    requires ParseDate(s).Some?
    ensures |s| == 10 && s[4] == '-' && s[7] == '-' && AllDigits(s[..4]) && AllDigits(s[5..7]) && AllDigits(s[8..])
    ensures ParseDate(s).value == Date(Value(s[..4]), Value(s[5..7]), Value(s[8..]))
  {
    hide Value, MonthLength;
  }
}
