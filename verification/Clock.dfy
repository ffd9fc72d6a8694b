/**
Instants and the fixed UTC+05:00 wall clock of go/v1/timezone.go.

An instant counts microseconds from the start of year 0 UTC; days count from the same point.
*/
module Clock {
  import opened Division

  const SECOND := 1_000_000
  const MINUTE := 60 * SECOND
  const HOUR := 60 * MINUTE
  const DAY := 24 * HOUR
  /** The fixed offset east of UTC. */
  const OFFSET := 5 * HOUR

  /** Wall clock reading of an instant, as microseconds from the same origin. */
  function Local(t: int): int { t + OFFSET }

  /** Number of the +05 calendar day an instant falls on. */
  function LocalDay(t: int): int { Local(t) / DAY }

  /** Hour of that day. */
  function LocalHour(t: int): (h: int)
    ensures 0 <= h < 24
  {
    Local(t) % DAY / HOUR
  }

  /** Instant at which hour `h` of day `d` begins in +05. */
  function SlotStart(d: int, h: int): int { d * DAY + h * HOUR - OFFSET }

  /** The SQL bounds on executed_at: from the slot's start, up to the start of the next. */
  predicate InSlot(t: int, d: int, h: int) { SlotStart(d, h) <= t < SlotStart(d, h + 1) }

  /** The 24 slots of a day tile it: an instant lies in slot (d, h) exactly when d and h are its +05 day and hour. */
  lemma SlotsTile(t: int, d: int, h: int)
    requires 0 <= h < 24
    ensures InSlot(t, d, h) <==> LocalDay(t) == d && LocalHour(t) == h
    ensures InSlot(t, d, h) <==> 24 * d + h == t / 3_600_000_000 + 5
  {
    HourOfUtc(t);
    if InSlot(t, d, h) {
      var into := t - SlotStart(d, h);
      QuotientIs(Local(t), DAY, d, h * HOUR + into);
      QuotientIs(h * HOUR + into, HOUR, h, into);
    }
  }

  /** In UTC the clock shows five hours less. */
  lemma HourOfUtc(t: int)
    ensures 24 * LocalDay(t) + LocalHour(t) == t / 3_600_000_000 + 5
  {
  }

  /** Hour 23 ends where the next day's hour 0 begins. */
  lemma LastSlotRollsOver(d: int)
    ensures SlotStart(d, 24) == SlotStart(d + 1, 0)
  {
  }
}
