/** The days of a week in turn, as the loop of `schedule_events_from_distribution`
    in core/scheduling.py visits them. The week is stated over any planner of
    a single day, so that what it does is separate from how a day is placed;
    `DayOf` is the planner `schedule_events_for_day` is. */
module Week {
  import opened Common
  import opened Calendar
  import opened ScheduleModel
  import opened Repository
  import opened Dicts
  import opened Slots

  /** A day's planning: its cards, date, the times already taken and the
      position of the random stream in; the events and new state out. */
  type DayPlanner = (seq<FlashCard>, Date, set<DateTime>, nat) -> DayResult

  /** `schedule_events_for_day` for one schedule, window and random stream. */
  function DayOf(s: Schedule, window: int, stream: nat -> int): (day: DayPlanner)
    requires StrategyReady(s, window)
  {
    (cards: seq<FlashCard>, date: Date, occupied: set<DateTime>, pos: nat) =>
      DaySpec(s, cards, date, window, occupied, stream, pos)
  }

  /** `day` plans as `schedule_events_for_day` does for this schedule, window
      and random stream. The fact is used where a day's plan is known, so
      that it is not unfolded wherever a day is only named. */
  ghost predicate PlansAs(day: DayPlanner, s: Schedule, window: int, stream: nat -> int)
    requires StrategyReady(s, window)
  {
    forall cards, date, occupied, pos {:trigger DaySpec(s, cards, date, window, occupied, stream, pos)} ::
      day(cards, date, occupied, pos) == DaySpec(s, cards, date, window, occupied, stream, pos)
  }

  lemma DayOfPlansAs(s: Schedule, window: int, stream: nat -> int)
    requires StrategyReady(s, window)
    ensures PlansAs(DayOf(s, window, stream), s, window, stream)
  {
  }

  /** A day's result creates at most one event per card, event `i` for card `i`. */
  ghost predicate FollowsCards(cards: seq<FlashCard>, r: DayResult)
  {
    |r.events| <= |cards| && forall i :: 0 <= i < |r.events| ==> r.events[i].flashCardUuid == Some(cards[i].uuid)
  }

  /** A day's result takes times that were free, keeps them taken, and gives
      no two events one time. */
  ghost predicate TakesFreeTimes(occupied: set<DateTime>, r: DayResult)
  {
    && occupied <= r.occupied
    && (forall i :: 0 <= i < |r.events| ==>
          r.events[i].scheduledDatetime.Some? && r.events[i].scheduledDatetime.value !in occupied
          && r.events[i].scheduledDatetime.value in r.occupied)
    && (forall i, j :: 0 <= i < j < |r.events| ==> r.events[i].scheduledDatetime != r.events[j].scheduledDatetime)
  }

  ghost predicate PlansByCards(day: DayPlanner)
  {
    forall cards, date, occupied, pos :: FollowsCards(cards, day(cards, date, occupied, pos))
  }

  ghost predicate PlansFreeTimes(day: DayPlanner)
  {
    forall cards, date, occupied, pos :: TakesFreeTimes(occupied, day(cards, date, occupied, pos))
  }

  lemma PlansByCardsAt(day: DayPlanner, cards: seq<FlashCard>, date: Date, occupied: set<DateTime>, pos: nat)
    requires PlansByCards(day)
    ensures FollowsCards(cards, day(cards, date, occupied, pos))
  {
  }

  lemma PlansFreeTimesAt(day: DayPlanner, cards: seq<FlashCard>, date: Date, occupied: set<DateTime>, pos: nat)
    requires PlansFreeTimes(day)
    ensures TakesFreeTimes(occupied, day(cards, date, occupied, pos))
  {
  }

  /** A planner that never moves the random generator backwards. */
  ghost predicate PlansForward(day: DayPlanner)
  {
    forall cards, date, occupied, pos :: day(cards, date, occupied, pos).next >= pos
  }

  lemma PlansForwardAt(day: DayPlanner, cards: seq<FlashCard>, date: Date, occupied: set<DateTime>, pos: nat)
    requires PlansForward(day)
    ensures day(cards, date, occupied, pos).next >= pos
  {
  }

  /** `schedule_events_for_day` only draws, so it never moves the generator
      backwards. */
  lemma DayOfPlansForward(s: Schedule, window: int, stream: nat -> int)
    requires StrategyReady(s, window)
    ensures PlansForward(DayOf(s, window, stream))
  {
    var day := DayOf(s, window, stream);
    forall cards, date, occupied, pos ensures day(cards, date, occupied, pos).next >= pos {
      assert day(cards, date, occupied, pos) == DaySpec(s, cards, date, window, occupied, stream, pos);
    }
  }

  /** `schedule_events_for_day` places one card after another, each at a free
      time of its own. */
  lemma DayOfPlans(s: Schedule, window: int, stream: nat -> int)
    requires StrategyReady(s, window)
    ensures PlansByCards(DayOf(s, window, stream)) && PlansFreeTimes(DayOf(s, window, stream))
  {
    var day := DayOf(s, window, stream);
    forall cards, date, occupied, pos ensures FollowsCards(cards, day(cards, date, occupied, pos)) {
      DayEventsFollowCards(s, cards, date, window, occupied, stream, pos);
    }
    forall cards, date, occupied, pos ensures TakesFreeTimes(occupied, day(cards, date, occupied, pos)) {
      DayTimesFreeTaken(s, cards, date, window, occupied, stream, pos);
    }
  }

  lemma DayTimesFreeTaken(s: Schedule, cards: seq<FlashCard>, date: Date, window: int, occupied: set<DateTime>, stream: nat -> int, pos: nat)
    requires StrategyReady(s, window)
    ensures TakesFreeTimes(occupied, DaySpec(s, cards, date, window, occupied, stream, pos))
  {
    var r := DaySpec(s, cards, date, window, occupied, stream, pos);
    DayTimesFree(s, cards, date, window, occupied, stream, pos);
    DayTimesDistinct(s, cards, date, window, occupied, stream, pos);
    DayTakesItsTimes(s, cards, date, window, occupied, stream, pos);
    forall i | 0 <= i < |r.events| ensures r.events[i].scheduledDatetime.value in r.occupied { }
  }

  /** The cards of a day with `count` events: `count` cards from the cursor on,
      wrapping round the list. */
  function DayCards(cards: seq<FlashCard>, cursor: int, count: nat): (r: seq<FlashCard>)
    requires |cards| >= 1 && cursor >= 0
    ensures |r| == count
  {
    if count == 0 then [] else DayCards(cards, cursor, count - 1) + [cards[Wrap(cursor + count - 1, |cards|)]]
  }

  /** The day's `i`-th card is the one `i` places after the cursor, round the list. */
  lemma {:induction false} DayCardsAt(cards: seq<FlashCard>, cursor: int, count: nat)
    requires |cards| >= 1 && cursor >= 0
    ensures forall i :: 0 <= i < count ==> DayCards(cards, cursor, count)[i] == cards[Wrap(cursor + i, |cards|)]
  {
    if count > 0 {
      DayCardsAt(cards, cursor, count - 1);
    }
  }

  /** The events of a week, the cursor into the card list, and the state they
      leave behind. */
  datatype WeekResult = WeekResult(events: seq<ScheduledEvent>, cursor: int, next: nat, occupied: set<DateTime>)

  /** The loop over the days `keys`: a day whose count is not positive is
      skipped; any other takes its cards from the cursor on, and the cursor
      moves past the events actually created. */
  function WeekSpec(day: DayPlanner, cards: seq<FlashCard>, keys: seq<string>, counts: map<string, int>,
                    dates: map<string, Date>, cursor: int, occupied: set<DateTime>, pos: nat): (r: WeekResult)
    requires |cards| >= 1 && 0 <= cursor < |cards|
    requires forall k :: k in keys ==> k in counts && k in dates
    ensures 0 <= r.cursor < |cards|
    decreases |keys|
  {
    if keys == [] then WeekResult([], cursor, pos, occupied)
    else
      var c := counts[keys[0]];
      if c <= 0 then WeekSpec(day, cards, keys[1..], counts, dates, cursor, occupied, pos)
      else
        var d := day(DayCards(cards, cursor, c), dates[keys[0]], occupied, pos);
        var rest := WeekSpec(day, cards, keys[1..], counts, dates, Wrap(cursor + |d.events|, |cards|), d.occupied, d.next);
        WeekResult(d.events + rest.events, rest.cursor, rest.next, rest.occupied)
  }

  /** The first day of a week, then the rest of the week. */
  lemma WeekStep(day: DayPlanner, cards: seq<FlashCard>, keys: seq<string>, counts: map<string, int>,
                 dates: map<string, Date>, cursor: int, occupied: set<DateTime>, pos: nat)
    requires |cards| >= 1 && 0 <= cursor < |cards|
    requires forall k :: k in keys ==> k in counts && k in dates
    requires keys != []
    ensures var r := WeekSpec(day, cards, keys, counts, dates, cursor, occupied, pos);
            var c := counts[keys[0]];
            if c <= 0 then r == WeekSpec(day, cards, keys[1..], counts, dates, cursor, occupied, pos)
            else
              var d := day(DayCards(cards, cursor, c), dates[keys[0]], occupied, pos);
              var rest := WeekSpec(day, cards, keys[1..], counts, dates, Wrap(cursor + |d.events|, |cards|), d.occupied, d.next);
              r == WeekResult(d.events + rest.events, rest.cursor, rest.next, rest.occupied)
  {
  }

  /** What the first of `keys` alone contributes to a week: nothing for a
      count that is not positive, otherwise that day's events, the cursor
      moved past them and the state after them. */
  function FirstDay(day: DayPlanner, cards: seq<FlashCard>, keys: seq<string>, counts: map<string, int>,
                    dates: map<string, Date>, cursor: int, occupied: set<DateTime>, pos: nat): (r: WeekResult)
    requires |cards| >= 1 && 0 <= cursor < |cards|
    requires forall k :: k in keys ==> k in counts && k in dates
    requires keys != []
    ensures 0 <= r.cursor < |cards|
  {
    var c := counts[keys[0]];
    if c <= 0 then WeekResult([], cursor, pos, occupied)
    else
      var d := day(DayCards(cards, cursor, c), dates[keys[0]], occupied, pos);
      WeekResult(d.events, Wrap(cursor + |d.events|, |cards|), d.next, d.occupied)
  }

  /** A week is its first day followed by the rest of the week, started from
      where the first day left the cursor and the state. */
  lemma WeekSplit(day: DayPlanner, cards: seq<FlashCard>, keys: seq<string>, counts: map<string, int>,
                  dates: map<string, Date>, cursor: int, occupied: set<DateTime>, pos: nat)
    requires |cards| >= 1 && 0 <= cursor < |cards|
    requires forall k :: k in keys ==> k in counts && k in dates
    requires keys != []
    ensures var f := FirstDay(day, cards, keys, counts, dates, cursor, occupied, pos);
            var rest := WeekSpec(day, cards, keys[1..], counts, dates, f.cursor, f.occupied, f.next);
            WeekSpec(day, cards, keys, counts, dates, cursor, occupied, pos)
              == WeekResult(f.events + rest.events, rest.cursor, rest.next, rest.occupied)
  {
    WeekStep(day, cards, keys, counts, dates, cursor, occupied, pos);
    var rest := WeekSpec(day, cards, keys[1..], counts, dates, cursor, occupied, pos);
    assert [] + rest.events == rest.events;
  }

  /** The loop over the week, one day further on: the events so far and the
      rest of the week are the events so far with its first day, and the
      week after that day. */
  lemma WeekAdvance(day: DayPlanner, cards: seq<FlashCard>, keys: seq<string>, counts: map<string, int>,
                    dates: map<string, Date>, cursor: int, occupied: set<DateTime>, pos: nat, done: seq<ScheduledEvent>)
    requires |cards| >= 1 && 0 <= cursor < |cards|
    requires forall k :: k in keys ==> k in counts && k in dates
    requires keys != []
    ensures var f := FirstDay(day, cards, keys, counts, dates, cursor, occupied, pos);
            var rest := WeekSpec(day, cards, keys, counts, dates, cursor, occupied, pos);
            var later := WeekSpec(day, cards, keys[1..], counts, dates, f.cursor, f.occupied, f.next);
            WeekResult(done + rest.events, rest.cursor, rest.next, rest.occupied)
              == WeekResult((done + f.events) + later.events, later.cursor, later.next, later.occupied)
  {
    WeekSplit(day, cards, keys, counts, dates, cursor, occupied, pos);
    var f := FirstDay(day, cards, keys, counts, dates, cursor, occupied, pos);
    var later := WeekSpec(day, cards, keys[1..], counts, dates, f.cursor, f.occupied, f.next);
    assert done + (f.events + later.events) == (done + f.events) + later.events;
  }

  /** The sum of the positive counts at `keys`. */
  function PositiveTotal(keys: seq<string>, counts: map<string, int>): (t: nat)
    requires forall k :: k in keys ==> k in counts
  {
    if keys == [] then 0
    else (if counts[keys[0]] > 0 then counts[keys[0]] else 0) + PositiveTotal(keys[1..], counts)
  }

  /** With no negative count, the positive counts are all the counts. */
  lemma {:induction false} PositiveTotalIsSum(keys: seq<string>, counts: map<string, int>)
    requires forall k :: k in keys ==> k in counts && counts[k] >= 0
    ensures PositiveTotal(keys, counts) == SumOver(keys, counts)
  {
    if keys != [] {
      PositiveTotalIsSum(keys[1..], counts);
    }
  }

  /** The cursor ends where it started plus the number of events, round the list. */
  lemma {:induction false} WeekCursor(day: DayPlanner, cards: seq<FlashCard>, keys: seq<string>, counts: map<string, int>,
                                      dates: map<string, Date>, cursor: int, occupied: set<DateTime>, pos: nat)
    requires |cards| >= 1 && 0 <= cursor < |cards|
    requires forall k :: k in keys ==> k in counts && k in dates
    ensures var r := WeekSpec(day, cards, keys, counts, dates, cursor, occupied, pos);
            r.cursor == Wrap(cursor + |r.events|, |cards|)
    decreases |keys|
  {
    if keys != [] {
      WeekStep(day, cards, keys, counts, dates, cursor, occupied, pos);
      var c := counts[keys[0]];
      if c <= 0 {
        WeekCursor(day, cards, keys[1..], counts, dates, cursor, occupied, pos);
      } else {
        var d := day(DayCards(cards, cursor, c), dates[keys[0]], occupied, pos);
        var next := Wrap(cursor + |d.events|, |cards|);
        WeekCursor(day, cards, keys[1..], counts, dates, next, d.occupied, d.next);
        var rest := WeekSpec(day, cards, keys[1..], counts, dates, next, d.occupied, d.next);
        WrapAddShift(cursor + |d.events|, |rest.events|, |cards|);
      }
    }
  }

  /** A week of a planner that never moves the generator backwards leaves it
      no earlier than it found it. */
  lemma {:induction false} WeekForward(day: DayPlanner, cards: seq<FlashCard>, keys: seq<string>, counts: map<string, int>,
                                       dates: map<string, Date>, cursor: int, occupied: set<DateTime>, pos: nat)
    requires |cards| >= 1 && 0 <= cursor < |cards|
    requires forall k :: k in keys ==> k in counts && k in dates
    requires PlansForward(day)
    ensures WeekSpec(day, cards, keys, counts, dates, cursor, occupied, pos).next >= pos
    decreases |keys|
  {
    if keys != [] {
      WeekStep(day, cards, keys, counts, dates, cursor, occupied, pos);
      var c := counts[keys[0]];
      if c <= 0 {
        WeekForward(day, cards, keys[1..], counts, dates, cursor, occupied, pos);
      } else {
        var dc := DayCards(cards, cursor, c);
        var d := day(dc, dates[keys[0]], occupied, pos);
        PlansForwardAt(day, dc, dates[keys[0]], occupied, pos);
        var next := Wrap(cursor + |d.events|, |cards|);
        WeekForward(day, cards, keys[1..], counts, dates, next, d.occupied, d.next);
      }
    }
  }

  /** A week of a planner that creates at most one event per card has at most
      as many events as its positive counts add up to. */
  lemma {:induction false} WeekEventsBound(day: DayPlanner, cards: seq<FlashCard>, keys: seq<string>, counts: map<string, int>,
                                           dates: map<string, Date>, cursor: int, occupied: set<DateTime>, pos: nat)
    requires |cards| >= 1 && 0 <= cursor < |cards|
    requires forall k :: k in keys ==> k in counts && k in dates
    requires PlansByCards(day)
    ensures |WeekSpec(day, cards, keys, counts, dates, cursor, occupied, pos).events| <= PositiveTotal(keys, counts)
    decreases |keys|
  {
    if keys != [] {
      var c := counts[keys[0]];
      if c <= 0 {
        WeekEventsBound(day, cards, keys[1..], counts, dates, cursor, occupied, pos);
      } else {
        var dc := DayCards(cards, cursor, c);
        var d := day(dc, dates[keys[0]], occupied, pos);
        PlansByCardsAt(day, dc, dates[keys[0]], occupied, pos);
        var next := Wrap(cursor + |d.events|, |cards|);
        WeekEventsBound(day, cards, keys[1..], counts, dates, next, d.occupied, d.next);
      }
    }
  }

  /** The week's events take the cards in turn from the starting cursor, round
      the list: event `k` is for the card `k` places after the cursor. */
  lemma {:induction false} WeekCardsInTurn(day: DayPlanner, cards: seq<FlashCard>, keys: seq<string>, counts: map<string, int>,
                                           dates: map<string, Date>, cursor: int, occupied: set<DateTime>, pos: nat)
    requires |cards| >= 1 && 0 <= cursor < |cards|
    requires forall k :: k in keys ==> k in counts && k in dates
    requires PlansByCards(day)
    ensures var r := WeekSpec(day, cards, keys, counts, dates, cursor, occupied, pos);
            forall k :: 0 <= k < |r.events| ==> r.events[k].flashCardUuid == Some(cards[Wrap(cursor + k, |cards|)].uuid)
    decreases |keys|
  {
    var L := |cards|;
    if keys != [] {
      WeekStep(day, cards, keys, counts, dates, cursor, occupied, pos);
      var c := counts[keys[0]];
      if c <= 0 {
        WeekCardsInTurn(day, cards, keys[1..], counts, dates, cursor, occupied, pos);
      } else {
        var dc := DayCards(cards, cursor, c);
        var d := day(dc, dates[keys[0]], occupied, pos);
        PlansByCardsAt(day, dc, dates[keys[0]], occupied, pos);
        DayCardsAt(cards, cursor, c);
        var next := Wrap(cursor + |d.events|, L);
        WeekCardsInTurn(day, cards, keys[1..], counts, dates, next, d.occupied, d.next);
        var rest := WeekSpec(day, cards, keys[1..], counts, dates, next, d.occupied, d.next);
        var r := WeekSpec(day, cards, keys, counts, dates, cursor, occupied, pos);
        assert r.events == d.events + rest.events;
        forall k | 0 <= k < |r.events| ensures r.events[k].flashCardUuid == Some(cards[Wrap(cursor + k, L)].uuid) {
          if k < |d.events| {
            assert r.events[k] == d.events[k];
            assert d.events[k].flashCardUuid == Some(dc[k].uuid);
          } else {
            var j := k - |d.events|;
            assert r.events[k] == rest.events[j];
            WrapAddShift(cursor + |d.events|, j, L);
          }
        }
      }
    }
  }

  /** Every event of the week takes a time that was free when the week began,
      keeps it taken, and no two events share a time. */
  lemma {:induction false} WeekTimesFree(day: DayPlanner, cards: seq<FlashCard>, keys: seq<string>, counts: map<string, int>,
                                         dates: map<string, Date>, cursor: int, occupied: set<DateTime>, pos: nat)
    requires |cards| >= 1 && 0 <= cursor < |cards|
    requires forall k :: k in keys ==> k in counts && k in dates
    requires PlansFreeTimes(day)
    ensures var r := WeekSpec(day, cards, keys, counts, dates, cursor, occupied, pos);
            TakesFreeTimes(occupied, DayResult(r.events, r.next, r.occupied))
    decreases |keys|
  {
    if keys != [] {
      var c := counts[keys[0]];
      if c <= 0 {
        WeekTimesFree(day, cards, keys[1..], counts, dates, cursor, occupied, pos);
      } else {
        var d := day(DayCards(cards, cursor, c), dates[keys[0]], occupied, pos);
        PlansFreeTimesAt(day, DayCards(cards, cursor, c), dates[keys[0]], occupied, pos);
        var next := Wrap(cursor + |d.events|, |cards|);
        WeekTimesFree(day, cards, keys[1..], counts, dates, next, d.occupied, d.next);
        var rest := WeekSpec(day, cards, keys[1..], counts, dates, next, d.occupied, d.next);
        var r := WeekSpec(day, cards, keys, counts, dates, cursor, occupied, pos);
        JoinTakesFreeTimes(occupied, d, DayResult(rest.events, rest.next, rest.occupied));
        assert r.events == d.events + rest.events && r.occupied == rest.occupied;
      }
    }
  }

  /** A day that takes free times followed by more such days, starting from
      what the first left taken, takes free times as a whole. */
  lemma JoinTakesFreeTimes(occupied: set<DateTime>, d: DayResult, rest: DayResult)
    requires TakesFreeTimes(occupied, d) && TakesFreeTimes(d.occupied, rest)
    ensures TakesFreeTimes(occupied, DayResult(d.events + rest.events, rest.next, rest.occupied))
  {
    var es := d.events + rest.events;
    var n := |d.events|;
    forall i | 0 <= i < |es|
      ensures es[i].scheduledDatetime.Some? && es[i].scheduledDatetime.value !in occupied
      ensures es[i].scheduledDatetime.value in rest.occupied
    {
      if i >= n {
        assert es[i] == rest.events[i - n];
      }
    }
    forall i, j | 0 <= i < j < |es| ensures es[i].scheduledDatetime != es[j].scheduledDatetime {
      if j < n {
        assert es[i] == d.events[i] && es[j] == d.events[j];
      } else if i >= n {
        assert es[i] == rest.events[i - n] && es[j] == rest.events[j - n];
      } else {
        assert es[i] == d.events[i] && es[j] == rest.events[j - n];
      }
    }
  }
}
