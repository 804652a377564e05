/** The part of Python's `datetime` the scheduler relies on. */
module Calendar {

  /** A date as its proleptic Gregorian ordinal, as `date.toordinal()` gives it
      (0001-01-01, a Monday, is day 1). Adding `timedelta(days=k)` adds k. */
  type Date = int

  const MinutesPerDay: int := 1440

  /** `date.weekday()`: Monday is 0 and Sunday is 6. */
  function Weekday(d: Date): (w: nat)
    ensures w < 7
  {
    (d + 6) % 7
  }

  /** A naive `datetime` to the minute (seconds are always 0 here), as minutes
      counted from the start of ordinal day 0: two datetimes are equal exactly
      when these counts are. */
  type DateTime = int

  /** `t.date()`. */
  function DateOf(t: DateTime): Date
  {
    t / MinutesPerDay
  }

  /** The minute of the day, `t.hour * 60 + t.minute`. */
  function MinuteOf(t: DateTime): (m: int)
    ensures 0 <= m < MinutesPerDay
  {
    t % MinutesPerDay
  }

  /** `datetime.combine(date, time(hour=hour)) + timedelta(minutes=offset)`;
      `time(hour=h)` raises unless 0 <= h <= 23. The offset may carry into
      another date, as `timedelta` arithmetic does. */
  function Combine(date: Date, hour: int, offset: int): DateTime
    requires 0 <= hour <= 23
  {
    date * 1440 + hour * 60 + offset
  }

  /** An offset that keeps the time inside the day gives that date, at that
      minute of the day. */
  lemma CombineWithinDay(date: Date, hour: int, offset: int)
    requires 0 <= hour <= 23 && 0 <= hour * 60 + offset < MinutesPerDay
    ensures DateOf(Combine(date, hour, offset)) == date
    ensures MinuteOf(Combine(date, hour, offset)) == hour * 60 + offset
  {
    var t := Combine(date, hour, offset);
    assert t == date * MinutesPerDay + (hour * 60 + offset);
  }
}
