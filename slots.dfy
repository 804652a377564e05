/** Finding free minutes for review events and placing a day's cards
    (`_schedule_fixed_interval_event`, `_schedule_random_time_event` and
    `schedule_events_for_day` in core/scheduling.py). A time is free when it is
    not in the session's set of taken times. */
module Slots {
  import opened Common
  import opened Calendar
  import opened ScheduleModel
  import opened SchedulePolicy
  import opened Randomness
  import opened Repository

  /** What the strategies need of a schedule and its window: a start hour
      `time(hour=...)` accepts, a positive step for a fixed-interval scan that
      has one, and a window in which `randint(0, window - 1)` can draw. */
  predicate StrategyReady(s: Schedule, window: int)
  {
    && s.startHour.Some? && 0 <= s.startHour.value <= 23
    && (s.frequencyMode == Some(FixedInterval) && s.intervalMinutes.Some? ==> s.intervalMinutes.value > 0)
    && (s.frequencyMode != Some(FixedInterval) ==> window >= 1)
  }

  /** A stored schedule and its own window meet what the strategies need. */
  lemma StoredScheduleStrategyReady(s: Schedule)
    requires EngineReady(s)
    ensures StrategyReady(s, WindowMinutes(s))
  {
    ReadyWindow(s);
  }

  /** The time `minute` minutes into the window of `date`. */
  function SlotTime(s: Schedule, date: Date, minute: int): DateTime
    requires s.startHour.Some? && 0 <= s.startHour.value <= 23
  {
    Combine(date, s.startHour.value, minute)
  }

  /** The review event of `card` at `t`. */
  function NewEvent(s: Schedule, card: FlashCard, t: DateTime): (e: ScheduledEvent)
    ensures EventPostInit(e) == Pass
    ensures e.scheduleUuid == Some(s.uuid) && e.flashCardUuid == Some(card.uuid)
    ensures e.scheduledDatetime == Some(t) && e.status == Some(Pending)
  {
    ScheduledEvent(Some(s.uuid), Some(card.uuid), Some(t), Some(Pending))
  }

  /** The scan of a fixed-interval schedule from `minute` on: the first free
      candidate among `minute, minute + iv, ...` below the window; with no
      interval only `minute` itself is tried. */
  function FixedScan(s: Schedule, occupied: set<DateTime>, date: Date, window: int, minute: int): (r: Option<int>)
    requires StrategyReady(s, window)
    decreases window - minute
    ensures r.Some? ==> minute <= r.value < window && SlotTime(s, date, r.value) !in occupied
    ensures r.Some? && s.intervalMinutes.Some? && s.frequencyMode == Some(FixedInterval) ==>
      OnGrid(r.value, minute, s.intervalMinutes.value)
    ensures r.Some? && s.intervalMinutes.None? ==> r.value == minute
  {
    if minute >= window then None
    else if SlotTime(s, date, minute) !in occupied then Some(minute)
    else if s.intervalMinutes.None? || s.frequencyMode != Some(FixedInterval) then None
    else FixedScan(s, occupied, date, window, minute + s.intervalMinutes.value)
  }

  /** `x` is one of `start, start + step, start + 2 * step, ...`. */
  predicate OnGrid(x: int, start: int, step: int)
    requires step > 0
    decreases x - start
  {
    x == start || (x > start && OnGrid(x, start + step, step))
  }

  /** A grid point is the start plus a whole number of steps. */
  lemma {:induction false} OnGridIndex(x: int, start: int, step: int) returns (k: nat)
    requires step > 0 && OnGrid(x, start, step)
    ensures x == start + k * step
    decreases x - start
  {
    if x == start {
      k := 0;
    } else {
      var j := OnGridIndex(x, start + step, step);
      k := j + 1;
      assert k * step == j * step + step;
    }
  }

  /** The scan takes the earliest free candidate, and finding none means every
      candidate below the window is taken. */
  lemma {:induction false} FixedScanFirstFree(s: Schedule, occupied: set<DateTime>, date: Date, window: int, minute: int, k: nat)
    requires StrategyReady(s, window) && s.frequencyMode == Some(FixedInterval) && s.intervalMinutes.Some?
    requires minute + k * s.intervalMinutes.value < window
    requires FixedScan(s, occupied, date, window, minute).None?
             || minute + k * s.intervalMinutes.value < FixedScan(s, occupied, date, window, minute).value
    ensures SlotTime(s, date, minute + k * s.intervalMinutes.value) in occupied
    decreases k
  {
    var iv := s.intervalMinutes.value;
    if k > 0 {
      assert minute < window by {
        assert k * iv >= 0;
      }
      assert SlotTime(s, date, minute) in occupied;
      assert minute + k * iv == (minute + iv) + (k - 1) * iv;
      FixedScanFirstFree(s, occupied, date, window, minute + iv, k - 1);
    }
  }

  /** A slot search: the minute found, if any, and where the random stream
      stands afterwards. */
  datatype Attempt = Attempt(offset: Option<int>, next: nat)

  /** `_schedule_fixed_interval_event`, as a slot search: one draw in 5..25 for
      the first candidate, then the scan. */
  function FixedAttempt(s: Schedule, occupied: set<DateTime>, date: Date, window: int, stream: nat -> int, pos: nat): (a: Attempt)
    requires StrategyReady(s, window)
    ensures a.next == pos + 1
    ensures a.offset.Some? ==> 5 <= Between(stream, pos, 5, 25) <= a.offset.value < window
  {
    Attempt(FixedScan(s, occupied, date, window, Between(stream, pos, 5, 25)), pos + 1)
  }

  /** `_schedule_random_time_event`, as a slot search: up to `tries` draws in
      `0..window-1`, stopping at the first free one. */
  function RandomTries(s: Schedule, occupied: set<DateTime>, date: Date, window: int, stream: nat -> int, pos: nat, tries: nat): (a: Attempt)
    requires s.startHour.Some? && 0 <= s.startHour.value <= 23 && window >= 1
    ensures a.offset.Some? ==> 0 <= a.offset.value < window && SlotTime(s, date, a.offset.value) !in occupied
    ensures a.offset.Some? ==> pos + 1 <= a.next <= pos + tries
    ensures a.offset.None? ==> a.next == pos + tries
    ensures a.offset.Some? ==> a.offset.value == Between(stream, a.next - 1, 0, window - 1)
    decreases tries
  {
    if tries == 0 then Attempt(None, pos)
    else
      var m := Between(stream, pos, 0, window - 1);
      if SlotTime(s, date, m) !in occupied then Attempt(Some(m), pos + 1)
      else RandomTries(s, occupied, date, window, stream, pos + 1, tries - 1)
  }

  /** The random strategy fails only when every one of its draws hit a taken time. */
  lemma {:induction false} RandomTriesExhausted(s: Schedule, occupied: set<DateTime>, date: Date, window: int, stream: nat -> int, pos: nat, tries: nat, j: nat)
    requires s.startHour.Some? && 0 <= s.startHour.value <= 23 && window >= 1
    requires RandomTries(s, occupied, date, window, stream, pos, tries).offset.None? && j < tries
    ensures SlotTime(s, date, Between(stream, pos + j, 0, window - 1)) in occupied
    decreases tries
  {
    if j > 0 {
      RandomTriesExhausted(s, occupied, date, window, stream, pos + 1, tries - 1, j - 1);
    }
  }

  /** The strategy `schedule_events_for_day` picks: the scan for a
      fixed-interval schedule, three random tries for the others. */
  function SlotAttempt(s: Schedule, occupied: set<DateTime>, date: Date, window: int, stream: nat -> int, pos: nat): (a: Attempt)
    requires StrategyReady(s, window)
    ensures a.offset.Some? ==> 0 <= a.offset.value < window && SlotTime(s, date, a.offset.value) !in occupied
    ensures pos + 1 <= a.next <= pos + 3
  {
    if s.frequencyMode == Some(FixedInterval) then FixedAttempt(s, occupied, date, window, stream, pos)
    else RandomTries(s, occupied, date, window, stream, pos, 3)
  }

  method ScheduleFixedIntervalEvent(session: Session, s: Schedule, card: FlashCard, date: Date, window: int, rng: Rng)
    returns (e: Option<ScheduledEvent>)
    requires StrategyReady(s, window) && s.frequencyMode == Some(FixedInterval)
    modifies rng
    ensures var a := FixedAttempt(s, session.occupied, date, window, rng.stream, old(rng.pos));
            rng.pos == a.next
            && e == if a.offset.None? then None else Some(NewEvent(s, card, SlotTime(s, date, a.offset.value)))
  {
    var first := rng.RandInt(5, 25);
    ghost var target := FixedScan(s, session.occupied, date, window, first);
    var current := first;
    while current < window
      invariant FixedScan(s, session.occupied, date, window, current) == target
      decreases window - current
    {
      var proposed := SlotTime(s, date, current);
      if proposed !in session.occupied {
        return Some(NewEvent(s, card, proposed));
      }
      if s.intervalMinutes.Some? {
        current := current + s.intervalMinutes.value;
      } else {
        break;
      }
    }
    return None;
  }

  method ScheduleRandomTimeEvent(session: Session, s: Schedule, card: FlashCard, date: Date, window: int, rng: Rng)
    returns (e: Option<ScheduledEvent>)
    requires s.startHour.Some? && 0 <= s.startHour.value <= 23 && window >= 1
    modifies rng
    ensures var a := RandomTries(s, session.occupied, date, window, rng.stream, old(rng.pos), 3);
            rng.pos == a.next
            && e == if a.offset.None? then None else Some(NewEvent(s, card, SlotTime(s, date, a.offset.value)))
  {
    var occupied := session.occupied;
    ghost var target := RandomTries(s, occupied, date, window, rng.stream, rng.pos, 3);
    var i := 0;
    while i < 3
      invariant 0 <= i <= 3 && session.occupied == occupied
      invariant RandomTries(s, occupied, date, window, rng.stream, rng.pos, 3 - i) == target
    {
      var m := rng.RandInt(0, window - 1);
      var proposed := SlotTime(s, date, m);
      if proposed !in occupied {
        return Some(NewEvent(s, card, proposed));
      }
      i := i + 1;
    }
    return None;
  }

  /** The events of one day and the state they leave behind. */
  datatype DayResult = DayResult(events: seq<ScheduledEvent>, next: nat, occupied: set<DateTime>)

  /** What `schedule_events_for_day` does: each card in turn gets a slot
      search, and the first card that finds none ends the day. */
  function DaySpec(s: Schedule, cards: seq<FlashCard>, date: Date, window: int, occupied: set<DateTime>, stream: nat -> int, pos: nat): (r: DayResult)
    requires StrategyReady(s, window)
    ensures |r.events| <= |cards|
    ensures r.next >= pos
    decreases |cards|
  {
    if cards == [] then DayResult([], pos, occupied)
    else
      var a := SlotAttempt(s, occupied, date, window, stream, pos);
      if a.offset.None? then DayResult([], a.next, occupied)
      else
        var t := SlotTime(s, date, a.offset.value);
        var rest := DaySpec(s, cards[1..], date, window, occupied + {t}, stream, a.next);
        DayResult([NewEvent(s, cards[0], t)] + rest.events, rest.next, rest.occupied)
  }

  /** The day's events cover a prefix of its cards, in order, each a pending
      event of this schedule. */
  lemma {:induction false} DayEventsFollowCards(s: Schedule, cards: seq<FlashCard>, date: Date, window: int, occupied: set<DateTime>, stream: nat -> int, pos: nat)
    requires StrategyReady(s, window)
    ensures var r := DaySpec(s, cards, date, window, occupied, stream, pos);
            forall i :: 0 <= i < |r.events| ==>
              r.events[i].flashCardUuid == Some(cards[i].uuid)
              && r.events[i].scheduleUuid == Some(s.uuid) && r.events[i].status == Some(Pending)
              && r.events[i].scheduledDatetime.Some?
    decreases |cards|
  {
    if cards != [] {
      var a := SlotAttempt(s, occupied, date, window, stream, pos);
      if a.offset.Some? {
        var t := SlotTime(s, date, a.offset.value);
        DayEventsFollowCards(s, cards[1..], date, window, occupied + {t}, stream, a.next);
        var rest := DaySpec(s, cards[1..], date, window, occupied + {t}, stream, a.next);
        var r := DaySpec(s, cards, date, window, occupied, stream, pos);
        forall i | 1 <= i < |r.events|
          ensures r.events[i].flashCardUuid == Some(cards[i].uuid)
        {
          assert r.events[i] == rest.events[i - 1];
          assert cards[1..][i - 1] == cards[i];
        }
      }
    }
  }

  /** The first step of a day: the search for its first card, then the rest of
      the day on the times that leaves. */
  lemma DayStep(s: Schedule, cards: seq<FlashCard>, date: Date, window: int, occupied: set<DateTime>, stream: nat -> int, pos: nat)
    requires StrategyReady(s, window) && cards != []
    ensures var a := SlotAttempt(s, occupied, date, window, stream, pos);
            var r := DaySpec(s, cards, date, window, occupied, stream, pos);
            if a.offset.None? then r == DayResult([], a.next, occupied)
            else
              var t := SlotTime(s, date, a.offset.value);
              var rest := DaySpec(s, cards[1..], date, window, occupied + {t}, stream, a.next);
              r == DayResult([NewEvent(s, cards[0], t)] + rest.events, rest.next, rest.occupied)
  {
  }

  /** The time `t` is `minute` minutes into the window of `date` for some minute of the window. */
  predicate InWindow(s: Schedule, date: Date, window: int, t: DateTime)
    requires s.startHour.Some? && 0 <= s.startHour.value <= 23
  {
    exists m :: 0 <= m < window && t == SlotTime(s, date, m)
  }

  /** Every time the day takes was free before the day and is a minute of its window. */
  lemma {:induction false} DayTimesFree(s: Schedule, cards: seq<FlashCard>, date: Date, window: int, occupied: set<DateTime>, stream: nat -> int, pos: nat)
    requires StrategyReady(s, window)
    ensures var r := DaySpec(s, cards, date, window, occupied, stream, pos);
            forall i :: 0 <= i < |r.events| ==>
              r.events[i].scheduledDatetime.Some? && r.events[i].scheduledDatetime.value !in occupied
              && InWindow(s, date, window, r.events[i].scheduledDatetime.value)
    decreases |cards|
  {
    var r := DaySpec(s, cards, date, window, occupied, stream, pos);
    if cards != [] {
      var a := SlotAttempt(s, occupied, date, window, stream, pos);
      DayStep(s, cards, date, window, occupied, stream, pos);
      if a.offset.Some? {
        var t := SlotTime(s, date, a.offset.value);
        var occ := occupied + {t};
        DayTimesFree(s, cards[1..], date, window, occ, stream, a.next);
        var rest := DaySpec(s, cards[1..], date, window, occ, stream, a.next);
        forall i | 0 <= i < |r.events|
          ensures r.events[i].scheduledDatetime.Some? && r.events[i].scheduledDatetime.value !in occupied
          ensures InWindow(s, date, window, r.events[i].scheduledDatetime.value)
        {
          if i == 0 {
            assert r.events[0].scheduledDatetime.value == SlotTime(s, date, a.offset.value);
          } else {
            assert r.events[i] == rest.events[i - 1];
          }
        }
      }
    }
  }

  /** No two events of a day share a time. */
  lemma {:induction false} DayTimesDistinct(s: Schedule, cards: seq<FlashCard>, date: Date, window: int, occupied: set<DateTime>, stream: nat -> int, pos: nat)
    requires StrategyReady(s, window)
    ensures var r := DaySpec(s, cards, date, window, occupied, stream, pos);
            forall i, j :: 0 <= i < j < |r.events| ==> r.events[i].scheduledDatetime != r.events[j].scheduledDatetime
    decreases |cards|
  {
    var r := DaySpec(s, cards, date, window, occupied, stream, pos);
    if cards != [] {
      var a := SlotAttempt(s, occupied, date, window, stream, pos);
      DayStep(s, cards, date, window, occupied, stream, pos);
      if a.offset.Some? {
        var t := SlotTime(s, date, a.offset.value);
        var occ := occupied + {t};
        DayTimesDistinct(s, cards[1..], date, window, occ, stream, a.next);
        DayTimesFree(s, cards[1..], date, window, occ, stream, a.next);
        var rest := DaySpec(s, cards[1..], date, window, occ, stream, a.next);
        forall i, j | 0 <= i < j < |r.events| ensures r.events[i].scheduledDatetime != r.events[j].scheduledDatetime {
          assert r.events[j] == rest.events[j - 1];
          if i > 0 {
            assert r.events[i] == rest.events[i - 1];
          }
        }
      }
    }
  }

  /** The times a day leaves taken are those it was given plus the times of its events. */
  lemma {:induction false} DayTakesItsTimes(s: Schedule, cards: seq<FlashCard>, date: Date, window: int, occupied: set<DateTime>, stream: nat -> int, pos: nat)
    requires StrategyReady(s, window)
    ensures var r := DaySpec(s, cards, date, window, occupied, stream, pos);
            (forall i :: 0 <= i < |r.events| ==> r.events[i].scheduledDatetime.Some?)
            && r.occupied == occupied + set i | 0 <= i < |r.events| :: r.events[i].scheduledDatetime.value
    decreases |cards|
  {
    var r := DaySpec(s, cards, date, window, occupied, stream, pos);
    DayEventsFollowCards(s, cards, date, window, occupied, stream, pos);
    if cards != [] {
      var a := SlotAttempt(s, occupied, date, window, stream, pos);
      DayStep(s, cards, date, window, occupied, stream, pos);
      if a.offset.Some? {
        var t := SlotTime(s, date, a.offset.value);
        var occ := occupied + {t};
        DayTakesItsTimes(s, cards[1..], date, window, occ, stream, a.next);
        var rest := DaySpec(s, cards[1..], date, window, occ, stream, a.next);
        var restTimes := set i | 0 <= i < |rest.events| :: rest.events[i].scheduledDatetime.value;
        var times := set i | 0 <= i < |r.events| :: r.events[i].scheduledDatetime.value;
        assert times == {t} + restTimes by {
          forall x | x in times ensures x in {t} + restTimes {
            var i :| 0 <= i < |r.events| && x == r.events[i].scheduledDatetime.value;
            if i > 0 {
              assert r.events[i] == rest.events[i - 1];
            }
          }
          forall x | x in restTimes ensures x in times {
            var i :| 0 <= i < |rest.events| && x == rest.events[i].scheduledDatetime.value;
            assert r.events[i + 1] == rest.events[i];
          }
          assert t == r.events[0].scheduledDatetime.value;
        }
      }
    }
  }

  /** With the schedule's own window, every time of the day lies on that date
      between the start hour and the end hour. */
  lemma SlotInWindow(s: Schedule, date: Date, m: int)
    requires SlotReady(s) && 0 <= m < WindowMinutes(s)
    ensures DateOf(SlotTime(s, date, m)) == date
    ensures s.startHour.value * 60 <= MinuteOf(SlotTime(s, date, m)) < s.endHour.value * 60
  {
    CombineWithinDay(date, s.startHour.value, m);
  }

  /** A day that places fewer events than it has cards stopped at the first card
      whose search failed: the cards after it change nothing. */
  lemma {:induction false} DayStopsAtFailure(s: Schedule, cards: seq<FlashCard>, date: Date, window: int, occupied: set<DateTime>, stream: nat -> int, pos: nat)
    requires StrategyReady(s, window)
    requires |DaySpec(s, cards, date, window, occupied, stream, pos).events| < |cards|
    ensures var r := DaySpec(s, cards, date, window, occupied, stream, pos);
            DaySpec(s, cards[..|r.events| + 1], date, window, occupied, stream, pos) == r
    ensures var r := DaySpec(s, cards, date, window, occupied, stream, pos);
            SlotAttempt(s, r.occupied, date, window, stream, DayNextBefore(s, cards, date, window, occupied, stream, pos)).offset.None?
    decreases |cards|
  {
    var r := DaySpec(s, cards, date, window, occupied, stream, pos);
    var a := SlotAttempt(s, occupied, date, window, stream, pos);
    if a.offset.Some? {
      var t := SlotTime(s, date, a.offset.value);
      DayStopsAtFailure(s, cards[1..], date, window, occupied + {t}, stream, a.next);
      var k := |r.events|;
      assert cards[..k + 1][1..] == cards[1..][..k];
    }
  }

  /** Where the random stream stood when the search that ended the day began. */
  function DayNextBefore(s: Schedule, cards: seq<FlashCard>, date: Date, window: int, occupied: set<DateTime>, stream: nat -> int, pos: nat): nat
    requires StrategyReady(s, window)
    decreases |cards|
  {
    if cards == [] then pos
    else
      var a := SlotAttempt(s, occupied, date, window, stream, pos);
      if a.offset.None? then pos
      else DayNextBefore(s, cards[1..], date, window, occupied + {SlotTime(s, date, a.offset.value)}, stream, a.next)
  }

  /** One card of `schedule_events_for_day`: the strategy of the schedule's
      mode looks for a slot, and an event it returns is added to the session. */
  method PlaceCard(session: Session, s: Schedule, card: FlashCard, date: Date, window: int, rng: Rng)
    returns (e: Option<ScheduledEvent>)
    requires StrategyReady(s, window)
    modifies session, rng
    ensures var a := SlotAttempt(s, old(session.occupied), date, window, rng.stream, old(rng.pos));
            && rng.pos == a.next
            && (a.offset.None? ==> e.None? && session.occupied == old(session.occupied) && session.added == old(session.added))
            && (a.offset.Some? ==>
                  var t := SlotTime(s, date, a.offset.value);
                  && e == Some(NewEvent(s, card, t))
                  && session.occupied == old(session.occupied) + {t}
                  && session.added == old(session.added) + [e.value])
    ensures session.cards == old(session.cards) && session.schedules == old(session.schedules)
  {
    if s.frequencyMode == Some(FixedInterval) {
      e := ScheduleFixedIntervalEvent(session, s, card, date, window, rng);
    } else {
      e := ScheduleRandomTimeEvent(session, s, card, date, window, rng);
    }
    if e.Some? {
      session.Add(e.value);
    }
  }

  /** The loop of `schedule_events_for_day` at card `i`: what is created so
      far and the rest of the day are either the day's end, or what is created
      with card `i` and the day from card `i + 1`. */
  lemma DayAdvance(s: Schedule, cards: seq<FlashCard>, i: nat, date: Date, window: int, occupied: set<DateTime>,
                   stream: nat -> int, pos: nat, done: seq<ScheduledEvent>)
    requires StrategyReady(s, window) && i < |cards|
    ensures var a := SlotAttempt(s, occupied, date, window, stream, pos);
            var here := DaySpec(s, cards[i..], date, window, occupied, stream, pos);
            && (a.offset.None? ==> DayResult(done + here.events, here.next, here.occupied) == DayResult(done, a.next, occupied))
            && (a.offset.Some? ==>
                  var t := SlotTime(s, date, a.offset.value);
                  var rest := DaySpec(s, cards[i + 1..], date, window, occupied + {t}, stream, a.next);
                  DayResult(done + here.events, here.next, here.occupied)
                    == DayResult((done + [NewEvent(s, cards[i], t)]) + rest.events, rest.next, rest.occupied))
  {
    assert cards[i..][0] == cards[i] && cards[i..][1..] == cards[i + 1..];
    DayStep(s, cards[i..], date, window, occupied, stream, pos);
    var a := SlotAttempt(s, occupied, date, window, stream, pos);
    if a.offset.None? {
      assert done + [] == done;
    } else {
      var t := SlotTime(s, date, a.offset.value);
      var rest := DaySpec(s, cards[i + 1..], date, window, occupied + {t}, stream, a.next);
      assert done + ([NewEvent(s, cards[i], t)] + rest.events) == (done + [NewEvent(s, cards[i], t)]) + rest.events;
    }
  }

  /** `schedule_events_for_day`: the events it creates (each also added to the
      session) and their number. */
  method ScheduleEventsForDay(session: Session, s: Schedule, cards: seq<FlashCard>, date: Date, window: int, rng: Rng)
    returns (events: seq<ScheduledEvent>, count: int)
    requires StrategyReady(s, window)
    modifies session, rng
    ensures var r := DaySpec(s, cards, date, window, old(session.occupied), rng.stream, old(rng.pos));
            events == r.events && rng.pos == r.next && session.occupied == r.occupied
    ensures count == |events|
    ensures session.added == old(session.added) + events
    ensures session.cards == old(session.cards) && session.schedules == old(session.schedules)
  {
    if cards == [] {
      return [], 0;
    }
    ghost var target := DaySpec(s, cards, date, window, session.occupied, rng.stream, rng.pos);
    events := [];
    count := 0;
    var i := 0;
    while i < |cards|
      invariant 0 <= i <= |cards| && count == |events| == i
      invariant session.added == old(session.added) + events
      invariant session.cards == old(session.cards) && session.schedules == old(session.schedules)
      invariant var rest := DaySpec(s, cards[i..], date, window, session.occupied, rng.stream, rng.pos);
                target == DayResult(events + rest.events, rest.next, rest.occupied)
    {
      DayAdvance(s, cards, i, date, window, session.occupied, rng.stream, rng.pos, events);
      var e := PlaceCard(session, s, cards[i], date, window, rng);
      if e.None? {
        return;
      }
      events := events + [e.value];
      count := count + 1;
      i := i + 1;
    }
    assert cards[i..] == [];
  }
}
