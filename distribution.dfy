/** How a week's events are spread over the allowed days (the `distribute_*`
    functions and `determine_weekly_event_distribution` in core/scheduling.py).
    A distribution maps each day abbreviation to its number of events. */
module Distribution {
  import opened Common
  import opened ScheduleModel
  import opened SchedulePolicy
  import opened Dicts
  import opened Randomness
  import opened Totals

  function LengthMismatch(given: nat, days: nat): string
  {
    "Number of daily occurrences (" + NatToString(given) + ") must match number of allowed days ("
      + NatToString(days) + ")"
  }

  /** `distribute_ordered_occurrences`: the counts zipped with the days in order. */
  function DistributeOrderedOccurrences(s: Schedule, daily: seq<int>): (r: Result<Dict<int>>)
    requires s.allowedDays.Some?
    ensures r.Ok? <==> |daily| == |Days(s)|
    ensures r.Err? ==> r.message == LengthMismatch(|daily|, |Days(s)|)
    ensures r.Ok? ==> WellFormed(r.value) && forall k :: k in r.value.entries <==> k in Days(s)
  {
    if |daily| != |Days(s)| then Err(LengthMismatch(|daily|, |Days(s)|))
    else Ok(FromPairs(Days(s), daily))
  }

  /** With the days listed once each, day `i` gets count `i` and the counts add
      up to their list's sum. */
  lemma OrderedOccurrencesInOrder(s: Schedule, daily: seq<int>)
    requires s.allowedDays.Some? && Distinct(Days(s)) && |daily| == |Days(s)|
    ensures DistributeOrderedOccurrences(s, daily).value.keys == Days(s)
    ensures forall i :: 0 <= i < |daily| ==> DistributeOrderedOccurrences(s, daily).value.entries[Days(s)[i]] == daily[i]
    ensures Total(DistributeOrderedOccurrences(s, daily).value) == Sum(daily)
  {
    var days := Days(s);
    var d := FromPairs(days, daily);
    assert DistributeOrderedOccurrences(s, daily).value == d;
    FromDistinctPairs(days, daily);
    assert d.keys == days;
    SumOverValues(days, d.entries, daily);
    assert Total(d) == Sum(daily);
  }

  lemma ExampleDays()
    ensures AllowedDays.Split("Mon,Wed,Fri") == ["Mon", "Wed", "Fri"]
    ensures Distinct(["Mon", "Wed", "Fri"])
  {
    var days := ["Mon", "Wed", "Fri"];
    assert ',' !in days[0] && ',' !in days[1] && ',' !in days[2];
    AllowedDays.SplitJoin(days);
    ExampleJoin();
  }

  lemma ExampleJoin()
    ensures AllowedDays.Join(["Mon", "Wed", "Fri"]) == "Mon,Wed,Fri"
  {
    var days := ["Mon", "Wed", "Fri"];
    assert AllowedDays.Join(days[2..]) == "Fri";
    assert AllowedDays.Join(days[1..]) == "Wed,Fri";
  }

  /** The example of the documentation: Mon,Wed,Fri with [2, 3, 1]. */
  lemma OrderedOccurrencesExample(s: Schedule)
    requires s.allowedDays == Some("Mon,Wed,Fri")
    ensures DistributeOrderedOccurrences(s, [2, 3, 1]) == Ok(Dict(["Mon", "Wed", "Fri"], map["Mon" := 2, "Wed" := 3, "Fri" := 1]))
    ensures DistributeOrderedOccurrences(s, [2, 3]).Err?
  {
    ExampleDays();
    OrderedOccurrencesInOrder(s, [2, 3, 1]);
    ExampleMap(DistributeOrderedOccurrences(s, [2, 3, 1]).value);
  }

  lemma ExampleMap(d: Dict<int>)
    requires d.keys == ["Mon", "Wed", "Fri"] && WellFormed(d)
    requires d.entries["Mon"] == 2 && d.entries["Wed"] == 3 && d.entries["Fri"] == 1
    ensures d == Dict(["Mon", "Wed", "Fri"], map["Mon" := 2, "Wed" := 3, "Fri" := 1])
  {
    assert d.entries.Keys == {"Mon", "Wed", "Fri"};
  }

  /** `distribute_fixed_daily_occurrences`: the same count on every allowed day. */
  function DistributeFixedDailyOccurrences(s: Schedule, timesPerDay: int): (r: Dict<int>)
    requires s.allowedDays.Some?
    ensures WellFormed(r)
    ensures forall k :: k in r.entries <==> k in Days(s)
    ensures forall k :: k in r.entries ==> r.entries[k] == timesPerDay
    ensures Distinct(Days(s)) ==> r.keys == Days(s)
  {
    Constant(Days(s), timesPerDay)
  }

  /** A fixed distribution over distinct days adds up to the count times the
      number of days. */
  lemma FixedDailyTotal(s: Schedule, timesPerDay: int)
    requires s.allowedDays.Some? && Distinct(Days(s))
    ensures Total(DistributeFixedDailyOccurrences(s, timesPerDay)) == timesPerDay * |Days(s)|
  {
    var d := DistributeFixedDailyOccurrences(s, timesPerDay);
    SumOverConstant(d.keys, d.entries, timesPerDay);
  }

  /** How many of the `m` draws from `pos` on pick the day `d`. */
  function Hits(days: seq<string>, stream: nat -> int, pos: nat, m: nat, d: string): (c: nat)
    requires |days| >= 1
    ensures c <= m
  {
    if m == 0 then 0
    else Hits(days, stream, pos, m - 1, d) + (if days[Below(stream, pos + m - 1, |days|)] == d then 1 else 0)
  }

  const SampleTooLarge: string := "Sample larger than population or is negative"

  /** `distribute_occurrences`. Up to one event per day goes to days sampled
      without replacement; beyond that every day gets one and each remaining
      event goes to a day drawn with replacement. */
  method DistributeOccurrences(s: Schedule, total: int, rng: Rng) returns (r: Result<Dict<int>>)
    requires s.allowedDays.Some? && |Days(s)| <= 21
    modifies rng
    ensures r.Ok? <==> total >= 0
    ensures r.Err? ==> r.message == SampleTooLarge && rng.pos == old(rng.pos)
    ensures old(rng.pos) <= rng.pos
    ensures r.Ok? ==> WellFormed(r.value) && forall k :: k in r.value.entries <==> k in Days(s)
    ensures r.Ok? && total <= |Days(s)| ==>
      rng.pos == old(rng.pos) + total
      && forall k :: k in r.value.entries ==> r.value.entries[k] == 0 || r.value.entries[k] == 1
    ensures r.Ok? && total > |Days(s)| ==>
      rng.pos == old(rng.pos) + (total - |Days(s)|)
      && forall k :: k in r.value.entries ==>
           r.value.entries[k] == 1 + Hits(Days(s), rng.stream, old(rng.pos), total - |Days(s)|, k)
    ensures r.Ok? ==> Total(r.value) <= total
    ensures r.Ok? && Distinct(Days(s)) ==> r.value.keys == Days(s) && Total(r.value) == total
  {
    var days := Days(s);
    var n := |days|;
    if total < 0 {
      return Err(SampleTooLarge);
    }
    var zero := Constant(days, 0);
    if total <= n {
      var selected := rng.Sample(days, total);
      var dist := MarkSampled(days, zero, selected);
      return Ok(dist);
    }
    SumOverConstant(zero.keys, zero.entries, 0);
    var ones := MarkAll(days, zero);
    var dist := SpreadRemaining(days, ones, total - n, rng);
    return Ok(dist);
  }

  /** `for day in selected_days: distribution[day] = 1`, from all zeros. */
  method MarkSampled(days: seq<string>, zero: Dict<int>, selected: seq<string>) returns (dist: Dict<int>)
    requires WellFormed(zero) && (forall k :: k in zero.entries <==> k in days)
    requires forall k :: k in zero.entries ==> zero.entries[k] == 0
    requires Distinct(days) ==> zero.keys == days
    requires multiset(selected) <= multiset(days)
    ensures WellFormed(dist) && forall k :: k in dist.entries <==> k in days
    ensures forall k :: k in dist.entries ==> (dist.entries[k] == 1 <==> k in selected)
    ensures forall k :: k in dist.entries ==> dist.entries[k] == 0 || dist.entries[k] == 1
    ensures Total(dist) <= |selected|
    ensures Distinct(days) ==> dist.keys == days && Total(dist) == |selected|
  {
    forall x | x in selected ensures x in days {
      assert multiset(selected)[x] > 0;
    }
    if Distinct(days) {
      SampleOfDistinct(selected, days);
    }
    SumOverConstant(zero.keys, zero.entries, 0);
    assert selected[..0] == [];
    dist := zero;
    var i := 0;
    while i < |selected|
      invariant 0 <= i <= |selected|
      invariant MarkedSample(days, dist, selected, i)
    {
      MarkSampledStep(days, dist, selected, i);
      dist := Put(dist, selected[i], 1);
      i := i + 1;
    }
    assert selected[..i] == selected;
  }

  /** The state of `MarkSampled`'s loop after the first `i` sampled days: those
      days hold one, the others still zero. */
  ghost predicate MarkedSample(days: seq<string>, dist: Dict<int>, selected: seq<string>, i: nat)
    requires i <= |selected|
  {
    && WellFormed(dist) && (forall k :: k in dist.entries <==> k in days)
    && (forall k :: k in dist.entries ==> (dist.entries[k] == 1 <==> k in selected[..i]))
    && (forall k :: k in dist.entries ==> dist.entries[k] == 0 || dist.entries[k] == 1)
    && Total(dist) <= i
    && (Distinct(days) ==> dist.keys == days && Total(dist) == i)
  }

  /** Marking the next sampled day extends the marked prefix by one; over
      distinct days that day was still zero, so the total grows by one. */
  lemma MarkSampledStep(days: seq<string>, dist: Dict<int>, selected: seq<string>, i: nat)
    requires i < |selected| && MarkedSample(days, dist, selected, i)
    requires forall x :: x in selected ==> x in days
    requires Distinct(days) ==> Distinct(selected)
    ensures MarkedSample(days, Put(dist, selected[i], 1), selected, i + 1)
  {
    var day := selected[i];
    PutTotalAtMost(dist, day, 1);
    if Distinct(days) {
      assert day !in selected[..i] by {
        forall j | 0 <= j < i ensures selected[j] != day { }
      }
      SumOverUpdate(dist.keys, dist.entries, day, 1);
    }
    assert selected[..i + 1] == selected[..i] + [day];
  }

  /** `for day in allowed_days: distribution[day] = 1`. */
  method MarkAll(days: seq<string>, zero: Dict<int>) returns (dist: Dict<int>)
    requires WellFormed(zero) && (forall k :: k in zero.entries <==> k in days)
    requires forall k :: k in zero.entries ==> zero.entries[k] == 0
    requires Distinct(days) ==> zero.keys == days
    ensures WellFormed(dist) && forall k :: k in dist.entries <==> k in days
    ensures forall k :: k in dist.entries ==> dist.entries[k] == 1
    ensures Total(dist) <= |days|
    ensures Distinct(days) ==> dist.keys == days && Total(dist) == |days|
  {
    SumOverConstant(zero.keys, zero.entries, 0);
    assert days[..0] == [];
    dist := zero;
    var i := 0;
    while i < |days|
      invariant 0 <= i <= |days|
      invariant Marked(days, dist, i)
    {
      MarkStep(days, dist, i);
      dist := Put(dist, days[i], 1);
      i := i + 1;
    }
    assert days[..i] == days;
    if Distinct(days) {
      SumOverConstant(dist.keys, dist.entries, 1);
    }
  }

  /** The state of `MarkAll`'s loop after the first `i` days: those days hold
      one, the others still zero. */
  ghost predicate Marked(days: seq<string>, dist: Dict<int>, i: nat)
    requires i <= |days|
  {
    && WellFormed(dist) && (forall k :: k in dist.entries <==> k in days)
    && (forall k :: k in dist.entries && k in days[..i] ==> dist.entries[k] == 1)
    && (forall k :: k in dist.entries ==> dist.entries[k] == 0 || dist.entries[k] == 1)
    && Total(dist) <= i
    && (Distinct(days) ==> dist.keys == days)
  }

  /** Marking day `i` extends the marked prefix by one. */
  lemma MarkStep(days: seq<string>, dist: Dict<int>, i: nat)
    requires i < |days| && Marked(days, dist, i)
    ensures Marked(days, Put(dist, days[i], 1), i + 1)
  {
    PutTotalAtMost(dist, days[i], 1);
    assert days[..i + 1] == days[..i] + [days[i]];
  }

  /** `for _ in range(remaining): distribution[random.choice(allowed_days)] += 1`. */
  method SpreadRemaining(days: seq<string>, ones: Dict<int>, remaining: nat, rng: Rng) returns (dist: Dict<int>)
    requires |days| >= 1
    requires WellFormed(ones) && (forall k :: k in ones.entries <==> k in days)
    requires forall k :: k in ones.entries ==> ones.entries[k] == 1
    requires Total(ones) <= |days|
    requires Distinct(days) ==> ones.keys == days && Total(ones) == |days|
    modifies rng
    ensures rng.pos == old(rng.pos) + remaining
    ensures WellFormed(dist) && forall k :: k in dist.entries <==> k in days
    ensures forall k :: k in dist.entries ==> dist.entries[k] == 1 + Hits(days, rng.stream, old(rng.pos), remaining, k)
    ensures Total(dist) <= |days| + remaining
    ensures Distinct(days) ==> dist.keys == days && Total(dist) == |days| + remaining
  {
    ghost var stream, pos := rng.stream, rng.pos;
    dist := ones;
    var j := 0;
    while j < remaining
      invariant 0 <= j <= remaining
      invariant rng.pos == pos + j
      invariant Spread(days, dist, stream, pos, j)
    {
      dist := SpreadOne(days, dist, rng, stream, pos, j);
      j := j + 1;
    }
  }

  /** One pass of `distribution[random.choice(allowed_days)] += 1`. */
  method SpreadOne(days: seq<string>, dist: Dict<int>, rng: Rng, ghost stream: nat -> int, ghost pos: nat, ghost j: nat)
    returns (next: Dict<int>)
    requires |days| >= 1 && Spread(days, dist, stream, pos, j)
    requires rng.stream == stream && rng.pos == pos + j
    modifies rng
    ensures rng.pos == old(rng.pos) + 1
    ensures Spread(days, next, stream, pos, j + 1)
  {
    var day := rng.Choice(days);
    SpreadStep(days, dist, stream, pos, j, day);
    next := Put(dist, day, dist.entries[day] + 1);
  }

  /** The state of `distribute_occurrences`' last loop after `j` draws from
      `pos` on: every day once, plus its hits. */
  ghost predicate Spread(days: seq<string>, dist: Dict<int>, stream: nat -> int, pos: nat, j: nat)
    requires |days| >= 1
  {
    && WellFormed(dist) && (forall k :: k in dist.entries <==> k in days)
    && (forall k :: k in dist.entries ==> dist.entries[k] == 1 + Hits(days, stream, pos, j, k))
    && Total(dist) <= |days| + j
    && (Distinct(days) ==> dist.keys == days && Total(dist) == |days| + j)
  }

  /** One more draw of a day adds one to that day and to no other. */
  lemma SpreadStep(days: seq<string>, dist: Dict<int>, stream: nat -> int, pos: nat, j: nat, day: string)
    requires |days| >= 1 && Spread(days, dist, stream, pos, j)
    requires day == days[Below(stream, pos + j, |days|)]
    ensures day in dist.entries && Spread(days, Put(dist, day, dist.entries[day] + 1), stream, pos, j + 1)
  {
    SumOverUpdate(dist.keys, dist.entries, day, dist.entries[day] + 1);
  }

  /** What the distribution of a week adds up to, for totals `t`: a fixed
      distribution rounds the total down to a multiple of the number of days. */
  function DistributedTotal(s: Schedule, t: Totals): int
    requires s.allowedDays.Some?
  {
    if s.frequencyMode == Some(TimesPerWeek) then t.total
    else if s.frequencyMode == Some(TimesPerDay) && t.daily.Some? then Sum(t.daily.value)
    else FloorDiv(t.total, |Days(s)|) * |Days(s)|
  }

  /** `determine_weekly_event_distribution`. */
  method DetermineWeeklyEventDistribution(s: Schedule, t: Totals, rng: Rng) returns (r: Result<Dict<int>>)
    requires s.allowedDays.Some? && |Days(s)| <= 21
    modifies rng
    ensures r.Err? <==>
      (s.frequencyMode == Some(TimesPerWeek) && t.total < 0)
      || (s.frequencyMode == Some(TimesPerDay) && t.daily.Some? && |t.daily.value| != |Days(s)|)
    ensures s.frequencyMode != Some(TimesPerWeek) ==> rng.pos == old(rng.pos)
    ensures old(rng.pos) <= rng.pos
    ensures r.Ok? ==> WellFormed(r.value) && forall k :: k in r.value.entries <==> k in Days(s)
    ensures r.Ok? && Distinct(Days(s)) ==> r.value.keys == Days(s) && Total(r.value) == DistributedTotal(s, t)
    ensures r.Ok? && t.total >= 0 && (t.daily.Some? ==> forall i :: 0 <= i < |t.daily.value| ==> t.daily.value[i] >= 0) ==>
      (forall k :: k in r.value.entries ==> r.value.entries[k] >= 0) && Total(r.value) <= DistributedTotal(s, t)
  {
    var n := |Days(s)|;
    if s.frequencyMode == Some(TimesPerWeek) {
      r := DistributeOccurrences(s, t.total, rng);
    } else if s.frequencyMode == Some(TimesPerDay) && t.daily.Some? {
      r := DistributeOrderedOccurrences(s, t.daily.value);
      if r.Ok? {
        OrderedTotals(s, t.daily.value);
      }
    } else {
      var perDay := FloorDiv(t.total, n);
      r := Ok(DistributeFixedDailyOccurrences(s, perDay));
      FixedTotals(s, t.total);
    }
  }

  /** The ordered distribution's counts add up to the list's sum for distinct
      days, and to at most that sum for counts that are not negative. */
  lemma OrderedTotals(s: Schedule, daily: seq<int>)
    requires s.allowedDays.Some? && |daily| == |Days(s)|
    ensures Distinct(Days(s)) ==>
      DistributeOrderedOccurrences(s, daily).value.keys == Days(s)
      && Total(DistributeOrderedOccurrences(s, daily).value) == Sum(daily)
    ensures (forall i :: 0 <= i < |daily| ==> daily[i] >= 0) ==>
      (forall k :: k in DistributeOrderedOccurrences(s, daily).value.entries ==>
         DistributeOrderedOccurrences(s, daily).value.entries[k] >= 0)
      && Total(DistributeOrderedOccurrences(s, daily).value) <= Sum(daily)
  {
    if forall i :: 0 <= i < |daily| ==> daily[i] >= 0 {
      FromPairsTotalAtMost(Days(s), daily);
    }
    if Distinct(Days(s)) {
      OrderedOccurrencesInOrder(s, daily);
    }
  }

  /** The fixed distribution of a total rounds it down to a multiple of the
      number of days; for distinct days exactly to that multiple. */
  lemma FixedTotals(s: Schedule, total: int)
    requires s.allowedDays.Some?
    ensures Distinct(Days(s)) ==>
      Total(DistributeFixedDailyOccurrences(s, FloorDiv(total, |Days(s)|)))
        == FloorDiv(total, |Days(s)|) * |Days(s)|
    ensures total >= 0 ==>
      (forall k :: k in DistributeFixedDailyOccurrences(s, FloorDiv(total, |Days(s)|)).entries ==>
         DistributeFixedDailyOccurrences(s, FloorDiv(total, |Days(s)|)).entries[k] >= 0)
      && Total(DistributeFixedDailyOccurrences(s, FloorDiv(total, |Days(s)|)))
           <= FloorDiv(total, |Days(s)|) * |Days(s)|
  {
    var n := |Days(s)|;
    var perDay := FloorDiv(total, n);
    if total >= 0 {
      if perDay < 0 {
        MulMonotone(n, perDay, -1);
        assert false;
      }
      ConstantTotalAtMost(Days(s), perDay);
    }
    if Distinct(Days(s)) {
      FixedDailyTotal(s, perDay);
    }
  }

  /** For the totals of a stored schedule, distributing loses nothing: the
      week's counts add up to the total exactly. */
  lemma DistributionKeepsTotal(s: Schedule, stream: nat -> int, pos: nat)
    requires EngineReady(s) && TotalsOf(s, stream, pos).Ok?
    ensures DistributedTotal(s, TotalsOf(s, stream, pos).value) == TotalsOf(s, stream, pos).value.total
    ensures TotalsOf(s, stream, pos).value.daily.Some? ==>
      |TotalsOf(s, stream, pos).value.daily.value| == |Days(s)|
  {
    var t := TotalsOf(s, stream, pos).value;
    var n := |Days(s)|;
    if s.frequencyMode == Some(TimesPerDay) && t.daily.Some? {
    } else if s.frequencyMode != Some(TimesPerWeek) {
      var c := if s.frequencyMode == Some(TimesPerDay) then s.minTimesPerDay.value
               else FloorDiv(WindowMinutes(s), s.intervalMinutes.value);
      assert t.total == c * n;
      FloorDivExact(c, n);
    }
  }

  lemma FloorDivExact(c: int, n: int)
    requires n >= 1
    ensures FloorDiv(c * n, n) == c
  {
    var q := (c * n) / n;
    var r := (c * n) % n;
    assert c * n == n * q + r;
    var d := c - q;
    assert n * d == r by { assert n * d == n * c - n * q; }
    if d >= 1 { MulAtLeast(n, d); }
    if d <= -1 { MulAtLeast(n, -d); }
  }
}
