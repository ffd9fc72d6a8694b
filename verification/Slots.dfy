/**
Hour slots and day ranges: ReconcileParams.window, previousHour and today of
go/v1/timezone.go, and RecoverParams.days.
*/
module Slots {
  import opened Options
  import opened Errors
  import opened Decimals
  import opened Clock
  import opened Division
  import opened Calendar

  datatype Window = Window(from: string, to: string)

  /** Time of day of a wall clock reading, as HH:MM:SS. */
  function TimeText(t: int): string {
    var s := t % DAY / SECOND;
    Padded(s / 3600, 2) + ":" + Padded(s / 60 % 60, 2) + ":" + Padded(s % 60, 2)
  }

  /** An instant in the form the Core expects, in +05. */
  function TimestampText(t: int): string
    requires Local(t) >= 0
  {
    DateText(DateOf(LocalDay(t))) + " " + TimeText(Local(t))
  }

  /** Number of the day a text names. */
  function ParseDay(day: string): Option<nat> {
    match ParseDate(day) case None => None case Some(d) => Some(DayNumber(d))
  }

  /** The bounds of an hour of a day, as sent to the Core. */
  function WindowAt(day: nat, hour: nat): Window
    requires hour < 24
  {
    var start := SlotStart(day, hour);
    Window(TimestampText(start), TimestampText(start + HOUR))
  }

  /** ReconcileParams.window: the bounds sent to the Core. */
  function WindowOf(day: string, hour: int): Result<Window, SdkError> {
    if hour < 0 || hour > 23 then Err(InvalidHour) else
    match ParseDay(day)
    case None => Err(InvalidDay)
    case Some(d) => Ok(WindowAt(d, hour))
  }

  /** The three parts of a time of day are its hours, minutes and seconds. */
  lemma TimeTextIs(t: int, h: nat, m: nat, x: nat)
    requires m < 60 && x < 60 && h * 3600 + m * 60 + x == t % DAY / SECOND
    ensures TimeText(t) == Padded(h, 2) + ":" + Padded(m, 2) + ":" + Padded(x, 2)
  {
    hide Padded;
    var s := t % DAY / SECOND;
    QuotientIs(s, 3600, h, m * 60 + x);
    QuotientIs(s, 60, h * 60 + m, x);
    QuotientIs(h * 60 + m, 60, h, m);
  }

  lemma TwoZeros()
    ensures Padded(0, 2) == "00"
  {
    assert Padded(0, 1) == "0";
  }

  lemma HourSeconds(h: int)
    requires 0 <= h < 24
    ensures var s := h * HOUR % DAY / SECOND; s / 3600 == h && s / 60 % 60 == 0 && s % 60 == 0
  {
    assert h * HOUR % DAY / SECOND == h * 3600;
  }

  lemma HourReads(h: int)
    requires 0 <= h < 24
    ensures TimeText(h * HOUR) == Padded(h, 2) + ":00:00"
  {
    hide Padded;
    TwoZeros();
    HourSeconds(h);
    assert TimeText(h * HOUR) == Padded(h, 2) + ":" + "00" + ":" + "00";
    Colons(Padded(h, 2));
  }

  lemma Colons(a: string)
    ensures a + ":" + "00" + ":" + "00" == a + ":00:00"
  {
  }

  lemma SlotStartLocal(d: nat, h: int)
    requires 0 <= h < 24
    ensures Local(SlotStart(d, h)) >= 0 && LocalDay(SlotStart(d, h)) == d
    ensures Local(SlotStart(d, h)) % DAY == h * HOUR % DAY
  {
    QuotientIs(d * DAY + h * HOUR, DAY, d, h * HOUR);
    QuotientIs(h * HOUR, DAY, 0, h * HOUR);
  }

  lemma SlotStartReads(d: nat, h: int)
    requires 0 <= h < 24
    ensures Local(SlotStart(d, h)) >= 0 && LocalDay(SlotStart(d, h)) == d
    ensures TimeText(Local(SlotStart(d, h))) == Padded(h, 2) + ":00:00"
  {
    SlotStartLocal(d, h);
    HourReads(h);
    hide *;
    SameTime(Local(SlotStart(d, h)), h * HOUR);
  }

  lemma SameTime(t: int, u: int)
    requires t % DAY == u % DAY
    ensures TimeText(t) == TimeText(u)
  {
    hide Padded;
  }

  /** The start of an hour of a date, as sent to the Core. */
  lemma SlotTimestamp(d: Date, h: int)
    requires ValidDate(d) && 0 <= h < 24
    ensures Local(SlotStart(DayNumber(d), h)) >= 0
    ensures TimestampText(SlotStart(DayNumber(d), h)) == DateText(d) + " " + Padded(h, 2) + ":00:00"
  {
    hide DateText, TimeText, Padded, DayNumber, SlotStart, LocalDay, Local, DateOf;
    SlotStartReads(DayNumber(d), h);
    DateOfNumber(d);
    Reassociate(DateText(d), " ", Padded(h, 2), ":00:00");
  }

  lemma Reassociate(a: string, b: string, c: string, d: string)
    ensures a + b + (c + d) == a + b + c + d
  {
  }

  /** The text of an hour's end: the next hour, or midnight of the next date. */
  function EndText(d: Date, hour: int): string
    requires ValidDate(d) && 0 <= hour < 24
  {
    if hour < 23 then DateText(d) + " " + Padded(hour + 1, 2) + ":00:00" else DateText(Next(d)) + " " + "00" + ":00:00"
  }

  lemma SlotEndTimestamp(d: Date, h: int)
    requires ValidDate(d) && 0 <= h < 24
    ensures Local(SlotStart(DayNumber(d), h + 1)) >= 0
    ensures TimestampText(SlotStart(DayNumber(d), h + 1)) == EndText(d, h)
  {
    if h < 23 {
      hide TimestampText, DateText, Padded, DayNumber, SlotStart, Local;
      SlotTimestamp(d, h + 1);
    } else {
      LastSlotRollsOver(DayNumber(d));
      NextIsNextDay(d);
      TwoZeros();
      hide TimestampText, DateText, Padded, DayNumber, SlotStart, Local, Next;
      SlotTimestamp(Next(d), 0);
    }
  }

  /**
  The bounds are the hour's start and end as written texts; hour 23 ends on the next
  calendar date, across month ends, leap days and year ends. They denote the instants
  of the SQL bounds of the hour.
  */
  lemma WindowTexts(day: string, hour: int)
    requires WindowOf(day, hour).Ok?
    ensures ParseDate(day).Some? && 0 <= hour < 24
    ensures var w, d := WindowOf(day, hour).value, ParseDate(day).value;
            Local(SlotStart(DayNumber(d), hour)) >= 0 && Local(SlotStart(DayNumber(d), hour + 1)) >= 0
            && w.from == day + " " + Padded(hour, 2) + ":00:00"
            && w.from == TimestampText(SlotStart(DayNumber(d), hour))
            && w.to == TimestampText(SlotStart(DayNumber(d), hour + 1))
            && w.to == EndText(d, hour)
  {
    var d := ParseDate(day).value;
    TextOfParsedDate(day);
    WindowInstants(day, hour);
    hide TimestampText, DateText, Padded, DayNumber, SlotStart, Local, ParseDate, WindowOf, EndText;
    SlotTimestamp(d, hour);
    SlotEndTimestamp(d, hour);
  }

  lemma WindowInstants(day: string, hour: int)
    requires WindowOf(day, hour).Ok?
    ensures ParseDate(day).Some? && 0 <= hour < 24
    ensures var n := DayNumber(ParseDate(day).value);
            Local(SlotStart(n, hour)) >= 0 && Local(SlotStart(n, hour + 1)) >= 0
            && WindowOf(day, hour).value ==
                Window(TimestampText(SlotStart(n, hour)), TimestampText(SlotStart(n, hour + 1)))
  {
    hide ParseDate, TimestampText, DayNumber;
    NextSlot(DayNumber(ParseDate(day).value), hour);
  }

  lemma NextSlot(n: nat, hour: nat)
    ensures SlotStart(n, hour) + HOUR == SlotStart(n, hour + 1)
    ensures Local(SlotStart(n, hour)) >= 0 && Local(SlotStart(n, hour + 1)) >= 0
  {
  }

  /** today: the +05 calendar date of an instant. */
  function Today(now: int): string
    requires Local(now) >= 0
  {
    DateText(DateOf(LocalDay(now)))
  }

  /** previousHour: the +05 day and hour one hour before an instant. */
  function PreviousHour(now: int): (string, int)
    requires Local(now) >= HOUR
  {
    (Today(now - HOUR), LocalHour(now - HOUR))
  }

  /**
  In any year the texts can name, previousHour yields a slot window accepts, and it is
  the last completed one: it ended at most now, and less than an hour before now.
  */
  lemma PreviousHourIsLastClosed(now: int)
    requires Local(now) >= HOUR && DateOf(LocalDay(now - HOUR)).year < 10_000
    ensures LastClosed(now, PreviousHour(now).0, PreviousHour(now).1)
  {
    hide *;
    PreviousHourIs(now);
    DayTextReads(LocalDay(now - HOUR));
    SlotCloses(now);
    WindowAccepts(PreviousHour(now).0, PreviousHour(now).1);
    ClosedBy(now, PreviousHour(now).0, PreviousHour(now).1, LocalDay(now - HOUR));
  }

  /** window accepts the slot, and it ended at most `now`, less than an hour before. */
  predicate LastClosed(now: int, day: string, hour: int) {
    WindowOf(day, hour).Ok? && ParseDay(day).Some? && EndsBefore(now, ParseDay(day).value, hour)
  }

  predicate EndsBefore(now: int, day: int, hour: int) {
    SlotStart(day, hour + 1) <= now < SlotStart(day, hour + 1) + HOUR
  }

  lemma ClosedBy(now: int, day: string, hour: int, n: nat)
    requires WindowOf(day, hour).Ok? && ParseDay(day) == Some(n) && EndsBefore(now, n, hour)
    ensures LastClosed(now, day, hour)
  {
    hide WindowOf, ParseDay, EndsBefore;
  }

  lemma PreviousHourIs(now: int)
    requires Local(now) >= HOUR
    ensures LocalDay(now - HOUR) >= 0 && 0 <= LocalHour(now - HOUR) < 24
    ensures PreviousHour(now) == (DateText(DateOf(LocalDay(now - HOUR))), LocalHour(now - HOUR))
  {
    hide DateText, DateOf, LocalHour;
  }

  lemma WindowAccepts(day: string, hour: int)
    requires ParseDay(day).Some? && 0 <= hour < 24
    ensures WindowOf(day, hour).Ok?
  {
    hide ParseDay, WindowAt;
  }

  /** The slot of the instant an hour ago has ended, less than an hour ago. */
  lemma SlotCloses(now: int)
    ensures EndsBefore(now, LocalDay(now - HOUR), LocalHour(now - HOUR))
  {
    SlotsTile(now - HOUR, LocalDay(now - HOUR), LocalHour(now - HOUR));
    hide LocalDay, LocalHour;
  }

  lemma DayTextReads(n: nat)
    requires DateOf(n).year < 10_000
    ensures ParseDay(DateText(DateOf(n))) == Some(n)
  {
    ParseOfDateText(DateOf(n));
    hide ParseDate, DayNumber, DateText, ValidDate;
  }

  // ---------------------------------------------------------------- RecoverParams.days

  const MAX_RECOVER_DAYS := 31

  /** The dates a pair of texts delimits; an empty second text means the first day alone. */
  function RangeOf(dayFrom: string, dayTo: string): Option<(Date, Date)> {
    match (ParseDate(dayFrom), ParseDate(if dayTo == "" then dayFrom else dayTo))
    case (Some(a), Some(b)) => Some((a, b))
    case _ => None
  }

  function DayText(day: nat): string { DateText(DateOf(day)) }

  /** The texts of `n` consecutive days from day number `first`. */
  function DayTexts(first: nat, n: nat): (texts: seq<string>)
    ensures |texts| == n && forall i :: 0 <= i < n ==> texts[i] == DayText(first + i)
  {
    seq(n, i requires 0 <= i => DayText(first + i))
  }

  /** The days a pair of texts stands for, or why it stands for none. */
  function DaysOf(dayFrom: string, dayTo: string): Result<seq<string>, SdkError> {
    match RangeOf(dayFrom, dayTo)
    case None => Err(InvalidDay)
    case Some((a, b)) =>
      if DayNumber(b) < DayNumber(a) || DayNumber(b) - DayNumber(a) >= MAX_RECOVER_DAYS then Err(InvalidRecoverRange)
      else Ok(DayTexts(DayNumber(a), DayNumber(b) - DayNumber(a) + 1))
  }

  /** Dates up to a parsable one read back from their texts. */
  lemma EarlierDateReads(n: nat, last: Date)
    requires ValidDate(last) && last.year < 10_000 && n <= DayNumber(last)
    ensures ParseDate(DateText(DateOf(n))) == Some(DateOf(n))
  {
    hide DayNumber, DateText, ParseDate, ValidDate;
    NumberOrdersDates(last, DateOf(n));
    ParseOfDateText(DateOf(n));
  }

  /**
  The days are real dates from the first text to the last, each the calendar successor of
  the one before, at most 31 of them; there are none exactly when a text is no date, the
  last comes before the first, or more than 31 would be needed.
  */
  lemma DaysAreConsecutive(dayFrom: string, dayTo: string)
    ensures DaysOf(dayFrom, dayTo).Ok? <==>
              RangeOf(dayFrom, dayTo).Some?
              && var (a, b) := RangeOf(dayFrom, dayTo).value;
                 !Before(b, a) && DayNumber(b) < DayNumber(a) + 31
    ensures DaysOf(dayFrom, dayTo).Ok? ==>
              var days := DaysOf(dayFrom, dayTo).value;
              1 <= |days| <= 31
              && days[0] == dayFrom && days[|days| - 1] == (if dayTo == "" then dayFrom else dayTo)
              && (forall i :: 0 <= i < |days| ==> ParseDate(days[i]).Some?)
              && (forall i :: 0 <= i < |days| - 1 ==> ParseDate(days[i + 1]).value == Next(ParseDate(days[i]).value))
  {
    hide DayNumber, DateText, ParseDate, ValidDate, Next, DateOf, Before;
    if RangeOf(dayFrom, dayTo).Some? {
      var (a, b) := RangeOf(dayFrom, dayTo).value;
      NumberOrdersDates(b, a);
      if DaysOf(dayFrom, dayTo).Ok? {
        TextOfParsedDate(dayFrom);
        TextOfParsedDate(if dayTo == "" then dayFrom else dayTo);
        DateOfNumber(a);
        DateOfNumber(b);
        var days, m := DaysOf(dayFrom, dayTo).value, DayNumber(a);
        forall i | 0 <= i < |days| ensures ParseDate(days[i]) == Some(DateOf(m + i)) { EarlierDateReads(m + i, b); }
        forall i | 0 <= i < |days| - 1 ensures ParseDate(days[i + 1]).value == Next(ParseDate(days[i]).value) {
          SuccessorOf(m + i);
        }
      }
    }
  }

  /** Each error is true of the texts. */
  lemma RangeErrorsAreTrue(dayFrom: string, dayTo: string)
    ensures DaysOf(dayFrom, dayTo).Err? ==>
              if DaysOf(dayFrom, dayTo).error == InvalidDay then
                ParseDate(dayFrom).None? || (dayTo != "" && ParseDate(dayTo).None?)
              else
                DaysOf(dayFrom, dayTo).error == InvalidRecoverRange
                && ParseDate(dayFrom).Some? && (dayTo != "" ==> ParseDate(dayTo).Some?)
  {
    hide ParseDate, DayNumber, DayTexts;
  }

  lemma SuccessorOf(n: nat)
    ensures Next(DateOf(n)) == DateOf(n + 1)
  {
    hide DayNumber, Next;
    NextIsNextDay(DateOf(n));
    DateOfNumber(Next(DateOf(n)));
  }

  /**
  RecoverParams.days: the range of texts, walked one calendar date at a time. The loop's
  measure starts at 31, so it runs at most 32 times whatever the range.
  */
  method Days(dayFrom: string, dayTo: string) returns (r: Result<seq<string>, SdkError>)
    ensures r == DaysOf(dayFrom, dayTo)
  {
    hide DayNumber, Next, DateText, DateOf, ParseDate, Before, ValidDate;
    var from := ParseDate(dayFrom);
    if from.None? { return Err(InvalidDay); }
    var to := from;
    if dayTo != "" {
      to := ParseDate(dayTo);
      if to.None? { return Err(InvalidDay); }
    }
    NumberOrdersDates(to.value, from.value);
    if Before(to.value, from.value) { return Err(InvalidRecoverRange); }
    var days: seq<string> := [];
    var d := from.value;
    while !Before(to.value, d)
      invariant ValidDate(d) && |days| <= MAX_RECOVER_DAYS
      invariant DayNumber(d) == DayNumber(from.value) + |days| <= DayNumber(to.value) + 1
      invariant days == DayTexts(DayNumber(from.value), |days|)
      decreases MAX_RECOVER_DAYS - |days|
    {
      NumberOrdersDates(to.value, d);
      if |days| == MAX_RECOVER_DAYS { return Err(InvalidRecoverRange); }
      DateOfNumber(d);
      days := days + [DateText(d)];
      NextIsNextDay(d);
      d := Next(d);
    }
    NumberOrdersDates(to.value, d);
    return Ok(days);
  }
}
