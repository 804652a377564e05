/** From weekday names to dates (`get_days_until` and `get_next_occurrence_dates`
    in core/scheduling.py). */
module Dates {
  import opened Common
  import opened Calendar
  import opened AllowedDays
  import opened Dicts

  function KeyErrorMessage(name: string): string
  {
    "KeyError: '" + name + "'"
  }

  /** `get_days_until`: the days from `from` to the next date on the named
      weekday. The same weekday is a week away, so the result is never 0. */
  function GetDaysUntil(from: Date, name: string): (r: Result<int>)
    ensures r.Ok? <==> name in DayNames
    ensures r.Err? ==> r.message == KeyErrorMessage(name)
    ensures r.Ok? ==> 1 <= r.value <= 7 && Weekday(from + r.value) == DayIndex(name).value
    ensures r.Ok? ==> (r.value == 7 <==> Weekday(from) == DayIndex(name).value)
  {
    match DayIndex(name)
    case None => Err(KeyErrorMessage(name))
    case Some(target) =>
      var ahead := target - Weekday(from);
      Ok(if ahead <= 0 then ahead + 7 else ahead)
  }

  /** No earlier day of the coming week falls on the named weekday. */
  lemma DaysUntilIsNext(from: Date, name: string, k: int)
    requires GetDaysUntil(from, name).Ok? && 1 <= k < GetDaysUntil(from, name).value
    ensures Weekday(from + k) != DayIndex(name).value
  {
    var r := GetDaysUntil(from, name).value;
    assert (from + 6) % 7 + k == Weekday(from) + k;
    if Weekday(from) + k < 7 {
      assert Weekday(from + k) == Weekday(from) + k;
    } else {
      assert Weekday(from + k) == Weekday(from) + k - 7;
    }
  }

  /** The dates `get_next_occurrence_dates` gives the days `keys`, all of them
      weekday names. */
  function NextDates(keys: seq<string>, today: Date): (m: map<string, Date>)
    requires forall k :: k in keys ==> k in DayNames
    ensures forall k :: k in m <==> k in keys
  {
    map k | k in keys :: today + GetDaysUntil(today, k).value
  }

  /** `get_next_occurrence_dates`: for each key of the distribution, in order,
      `today` plus the days until that weekday; an unknown name raises at the
      first key that has one. */
  method GetNextOccurrenceDates(distribution: Dict<int>, today: Date) returns (r: Result<Dict<Date>>)
    requires WellFormed(distribution)
    ensures r.Ok? <==> forall k :: k in distribution.keys ==> k in DayNames
    ensures r.Err? ==> exists i :: 0 <= i < |distribution.keys| && distribution.keys[i] !in DayNames
                                    && (forall j :: 0 <= j < i ==> distribution.keys[j] in DayNames)
                                    && r.message == KeyErrorMessage(distribution.keys[i])
    ensures r.Ok? ==> WellFormed(r.value) && r.value.keys == distribution.keys
    ensures r.Ok? ==> r.value.entries == NextDates(distribution.keys, today)
  {
    var keys := distribution.keys;
    var dates: Dict<Date> := Empty();
    var i := 0;
    while i < |keys|
      invariant 0 <= i <= |keys|
      invariant forall j :: 0 <= j < i ==> keys[j] in DayNames
      invariant WellFormed(dates) && dates.keys == keys[..i]
      invariant forall k :: k in dates.entries ==> k in DayNames && dates.entries[k] == today + GetDaysUntil(today, k).value
    {
      var name := keys[i];
      var ahead := GetDaysUntil(today, name);
      if ahead.Err? {
        return Err(ahead.message);
      }
      assert name !in keys[..i] by {
        forall j | 0 <= j < i ensures keys[j] != name { }
      }
      assert keys[..i + 1] == keys[..i] + [name];
      dates := Put(dates, name, today + ahead.value);
      i := i + 1;
    }
    assert keys[..i] == keys;
    AllNextDates(dates, today);
    return Ok(dates);
  }

  /** A dictionary holding, for each of its keys, the next date on that
      weekday is the one `NextDates` describes. */
  lemma AllNextDates(dates: Dict<Date>, today: Date)
    requires WellFormed(dates) && forall k :: k in dates.keys ==> k in DayNames
    requires forall k :: k in dates.entries ==> dates.entries[k] == today + GetDaysUntil(today, k).value
    ensures dates.entries == NextDates(dates.keys, today)
  {
    var m := NextDates(dates.keys, today);
    forall k | k in m ensures k in dates.entries && dates.entries[k] == m[k] { }
    assert dates.entries.Keys == m.Keys;
  }

  /** Distinct weekday names land on distinct dates, all within the coming week. */
  lemma NextDatesDistinct(today: Date, a: string, b: string)
    requires a in DayNames && b in DayNames && a != b
    ensures today + GetDaysUntil(today, a).value != today + GetDaysUntil(today, b).value
    ensures today < today + GetDaysUntil(today, a).value <= today + 7
  {
    var ia, ib := DayIndex(a).value, DayIndex(b).value;
    assert ia != ib by {
      assert DayNames[ia] == a && DayNames[ib] == b;
    }
  }
}
