/** How many review events a schedule asks for in one week
    (`calculate_total_events_and_daily_counts` in core/scheduling.py). */
module Totals {
  import opened Common
  import opened ScheduleModel
  import opened SchedulePolicy
  import opened Randomness

  /** The week's total, and the per-day counts drawn for a times-per-day range. */
  datatype Totals = Totals(total: int, daily: Option<seq<int>>)

  /** One `randint(lo, hi)` per allowed day, read from the stream at `pos` on. */
  function DailyDraws(stream: nat -> int, pos: nat, n: nat, lo: int, hi: int): (ds: seq<int>)
    requires lo <= hi
    ensures |ds| == n
    ensures forall i :: 0 <= i < n ==> lo <= ds[i] <= hi && ds[i] == Between(stream, pos + i, lo, hi)
  {
    if n == 0 then [] else DailyDraws(stream, pos, n - 1, lo, hi) + [Between(stream, pos + n - 1, lo, hi)]
  }

  /** Whether the schedule draws its daily counts at random. */
  predicate DrawsDaily(s: Schedule)
  {
    s.frequencyMode == Some(TimesPerDay) && s.minTimesPerDay.Some? && s.maxTimesPerDay.Some?
    && s.minTimesPerDay.value < s.maxTimesPerDay.value
  }

  const TimesPerWeekMissing: string := "Times per week schedule must have times_per_week set"
  const TimesPerDayMissing: string := "Times Per Day schedule must have min_times_per_day and max_times_per_day set"
  const IntervalMissing: string := "Fixed interval schedule must have interval_minutes set"
  /** `randint` with its bounds the wrong way round. */
  const EmptyRange: string := "empty range in randrange"
  /** `//` by a zero interval. */
  const DivisionByZero: string := "integer floor division by zero"

  /** The result of `calculate_total_events_and_daily_counts` when the random
      draws come from `stream` at `pos`. */
  function TotalsOf(s: Schedule, stream: nat -> int, pos: nat): (r: Result<Totals>)
    requires NotNullColumnsPresent(s)
    ensures s.frequencyMode == Some(TimesPerWeek) ==>
      r == if s.timesPerWeek.None? then Err(TimesPerWeekMissing) else Ok(Totals(s.timesPerWeek.value, None))
    ensures s.frequencyMode == Some(TimesPerDay) && (s.minTimesPerDay.None? || s.maxTimesPerDay.None?) ==>
      r == Err(TimesPerDayMissing)
    ensures s.frequencyMode == Some(TimesPerDay) && s.minTimesPerDay.Some? && s.minTimesPerDay == s.maxTimesPerDay ==>
      r == Ok(Totals(s.minTimesPerDay.value * |Days(s)|, None))
    ensures (s.frequencyMode == Some(TimesPerDay) && s.minTimesPerDay.Some? && s.maxTimesPerDay.Some?
             && s.minTimesPerDay.value > s.maxTimesPerDay.value) ==> r == Err(EmptyRange)
    ensures DrawsDaily(s) ==>
      r.Ok? && r.value.daily.Some? && |r.value.daily.value| == |Days(s)|
      && (forall i :: 0 <= i < |Days(s)| ==>
            s.minTimesPerDay.value <= r.value.daily.value[i] <= s.maxTimesPerDay.value)
      && r.value.total == Sum(r.value.daily.value)
    ensures s.frequencyMode == Some(FixedInterval) ==>
      r == if s.intervalMinutes.None? then Err(IntervalMissing)
           else if s.intervalMinutes.value == 0 then Err(DivisionByZero)
           else Ok(Totals(FloorDiv(WindowMinutes(s), s.intervalMinutes.value) * |Days(s)|, None))
    ensures s.frequencyMode.None? ==> r == Err("Unknown frequency mode: None")
    ensures r.Ok? && r.value.daily.Some? ==> DrawsDaily(s)
  {
    var n := |Days(s)|;
    match s.frequencyMode
    case Some(TimesPerWeek) =>
      if s.timesPerWeek.None? then Err(TimesPerWeekMissing) else Ok(Totals(s.timesPerWeek.value, None))
    case Some(TimesPerDay) =>
      if s.minTimesPerDay.None? || s.maxTimesPerDay.None? then Err(TimesPerDayMissing)
      else
        var lo, hi := s.minTimesPerDay.value, s.maxTimesPerDay.value;
        if lo == hi then Ok(Totals(lo * n, None))
        else if lo > hi then Err(EmptyRange)
        else
          var ds := DailyDraws(stream, pos, n, lo, hi);
          Ok(Totals(Sum(ds), Some(ds)))
    case Some(FixedInterval) =>
      if s.intervalMinutes.None? then Err(IntervalMissing)
      else if s.intervalMinutes.value == 0 then Err(DivisionByZero)
      else Ok(Totals(FloorDiv(WindowMinutes(s), s.intervalMinutes.value) * n, None))
    case None => Err("Unknown frequency mode: None")
  }

  /** The draws `calculate_total_events_and_daily_counts` consumes. */
  function TotalsDraws(s: Schedule): nat
    requires s.allowedDays.Some?
  {
    if DrawsDaily(s) then |Days(s)| else 0
  }

  /** `calculate_total_events_and_daily_counts`. */
  method CalculateTotalEventsAndDailyCounts(s: Schedule, rng: Rng) returns (r: Result<Totals>)
    requires NotNullColumnsPresent(s)
    modifies rng
    ensures r == TotalsOf(s, rng.stream, old(rng.pos))
    ensures rng.pos == old(rng.pos) + TotalsDraws(s)
  {
    var days := Days(s);
    var n := |days|;
    if s.frequencyMode == Some(TimesPerWeek) {
      if s.timesPerWeek.None? {
        return Err(TimesPerWeekMissing);
      }
      return Ok(Totals(s.timesPerWeek.value, None));
    } else if s.frequencyMode == Some(TimesPerDay) {
      if s.minTimesPerDay.None? || s.maxTimesPerDay.None? {
        return Err(TimesPerDayMissing);
      }
      var lo, hi := s.minTimesPerDay.value, s.maxTimesPerDay.value;
      if lo == hi {
        return Ok(Totals(lo * n, None));
      }
      if lo > hi {
        return Err(EmptyRange);
      }
      var ds := DrawDailyCounts(n, lo, hi, rng);
      return Ok(Totals(Sum(ds), Some(ds)));
    } else if s.frequencyMode == Some(FixedInterval) {
      if s.intervalMinutes.None? {
        return Err(IntervalMissing);
      }
      if s.intervalMinutes.value == 0 {
        return Err(DivisionByZero);
      }
      return Ok(Totals(FloorDiv(WindowMinutes(s), s.intervalMinutes.value) * n, None));
    }
    return Err("Unknown frequency mode: None");
  }

  /** `[random.randint(lo, hi) for _ in allowed_days]`. */
  method DrawDailyCounts(n: nat, lo: int, hi: int, rng: Rng) returns (ds: seq<int>)
    requires lo <= hi
    modifies rng
    ensures ds == DailyDraws(rng.stream, old(rng.pos), n, lo, hi)
    ensures rng.pos == old(rng.pos) + n
  {
    ds := [];
    var i := 0;
    while i < n
      invariant 0 <= i <= n && |ds| == i
      invariant ds == DailyDraws(rng.stream, old(rng.pos), n, lo, hi)[..i]
      invariant rng.pos == old(rng.pos) + i
    {
      var d := rng.RandInt(lo, hi);
      ds := ds + [d];
      i := i + 1;
    }
    assert ds == DailyDraws(rng.stream, old(rng.pos), n, lo, hi);
  }

  /** The fields a mode needs, as construction requires them. */
  predicate ModeFieldsPresent(s: Schedule)
  {
    && s.frequencyMode.Some?
    && (s.frequencyMode == Some(TimesPerWeek) ==> s.timesPerWeek.Some?)
    && (s.frequencyMode == Some(TimesPerDay) ==> s.minTimesPerDay.Some? && s.maxTimesPerDay.Some?)
    && (s.frequencyMode == Some(FixedInterval) ==> s.intervalMinutes.Some?)
  }

  /** For a stored schedule the totals fail exactly when a field of its mode is
      missing. */
  lemma StoredTotalsDefined(s: Schedule, stream: nat -> int, pos: nat)
    requires EngineReady(s)
    ensures TotalsOf(s, stream, pos).Ok? <==> ModeFieldsPresent(s)
  {
    ReadyWindow(s);
  }

  /** A stored schedule's totals are never negative: a weekly or daily schedule
      asks for at least one event, and every daily draw is at least one. */
  lemma StoredTotalsPositive(s: Schedule, stream: nat -> int, pos: nat)
    requires EngineReady(s)
    requires TotalsOf(s, stream, pos).Ok?
    ensures TotalsOf(s, stream, pos).value.total >= 0
    ensures s.frequencyMode != Some(FixedInterval) ==> TotalsOf(s, stream, pos).value.total >= 1
    ensures TotalsOf(s, stream, pos).value.daily.Some? ==>
      forall i :: 0 <= i < |TotalsOf(s, stream, pos).value.daily.value| ==> TotalsOf(s, stream, pos).value.daily.value[i] >= 1
  {
    match s.frequencyMode
    case Some(TimesPerWeek) =>
      ReadyWindow(s);
    case Some(TimesPerDay) =>
      DailyTotalsPositive(s, stream, pos);
    case Some(FixedInterval) =>
      IntervalTotalsNonNegative(s, stream, pos);
  }

  /** A stored times-per-day schedule asks for at least one event a day. */
  lemma DailyTotalsPositive(s: Schedule, stream: nat -> int, pos: nat)
    requires EngineReady(s) && s.frequencyMode == Some(TimesPerDay)
    requires TotalsOf(s, stream, pos).Ok?
    ensures TotalsOf(s, stream, pos).value.total >= 1
    ensures TotalsOf(s, stream, pos).value.daily.Some? ==>
      forall i :: 0 <= i < |TotalsOf(s, stream, pos).value.daily.value| ==> TotalsOf(s, stream, pos).value.daily.value[i] >= 1
  {
    var t := TotalsOf(s, stream, pos).value;
    var n := |Days(s)|;
    var lo := s.minTimesPerDay.value;
    assert lo >= 1 && n >= 1;
    if t.daily.Some? {
      SumAtLeast(t.daily.value, lo);
    }
    assert t.total >= lo * n;
    assert lo * n >= 1;
  }

  /** A stored fixed-interval schedule asks for no negative number of events. */
  lemma IntervalTotalsNonNegative(s: Schedule, stream: nat -> int, pos: nat)
    requires EngineReady(s) && s.frequencyMode == Some(FixedInterval)
    requires TotalsOf(s, stream, pos).Ok?
    ensures TotalsOf(s, stream, pos).value.total >= 0 && TotalsOf(s, stream, pos).value.daily.None?
  {
    var r := TotalsOf(s, stream, pos);
    var w, iv, n := WindowMinutes(s), s.intervalMinutes.value, |Days(s)|;
    assert w >= 60 && iv >= 1;
    var q := FloorDiv(w, iv);
    assert q >= 0 by {
      assert q == w / iv;
    }
    MulMonotone(n, 0, q);
    assert r == Ok(Totals(q * n, None));
  }

  lemma {:induction false} SumAtLeast(xs: seq<int>, lo: int)
    requires forall i :: 0 <= i < |xs| ==> xs[i] >= lo
    ensures Sum(xs) >= lo * |xs|
  {
    if xs != [] {
      SumAtLeast(xs[1..], lo);
    }
  }

  /** Construction-time presence checks suffice: a stored schedule that passed
      `__post_init__` always gets totals. */
  lemma ConstructedScheduleHasTotals(s: Schedule, stream: nat -> int, pos: nat)
    requires EngineReady(s) && PostInit(s) == Pass
    ensures TotalsOf(s, stream, pos).Ok?
  {
    StoredTotalsDefined(s, stream, pos);
  }
}
