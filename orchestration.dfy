/** A week of review events for one schedule and for every active schedule
    (`schedule_events_from_distribution`, `generate_schedule_events` and
    `generate_events_from_schedules` in core/scheduling.py). */
module Orchestration {
  import opened Common
  import opened Calendar
  import opened AllowedDays
  import opened ScheduleModel
  import opened SchedulePolicy
  import opened Randomness
  import opened Repository
  import opened Dicts
  import opened Totals
  import opened Distribution
  import opened Dates
  import opened Selection
  import opened Slots
  import opened Week

  /** The inner loop of `schedule_events_from_distribution` that lists a
      day's cards. */
  method CardsForDay(cards: seq<FlashCard>, cursor: int, count: nat) returns (r: seq<FlashCard>)
    requires |cards| >= 1 && cursor >= 0
    ensures r == DayCards(cards, cursor, count)
  {
    r := [];
    var j := 0;
    while j < count
      invariant 0 <= j <= count && |r| == j
      invariant forall t :: 0 <= t < j ==> r[t] == cards[Wrap(cursor + t, |cards|)]
    {
      r := r + [cards[Wrap(cursor + j, |cards|)]];
      j := j + 1;
    }
    DayCardsAt(cards, cursor, count);
  }

  const ZeroModulo: string := "integer modulo by zero"

  /** `schedule_events_from_distribution`: the dates of the days are worked out
      first, so an unknown day name fails before anything is scheduled; with
      no cards the first day with a positive count fails. */
  method ScheduleEventsFromDistribution(session: Session, s: Schedule, cards: seq<FlashCard>, distribution: Dict<int>,
                                        today: Date, rng: Rng) returns (r: Result<seq<ScheduledEvent>>)
    requires WellFormed(distribution)
    requires s.startHour.Some? && s.endHour.Some? && StrategyReady(s, WindowMinutes(s))
    modifies session, rng
    ensures r.Ok? <==> (forall k :: k in distribution.keys ==> k in DayNames)
                       && (cards != [] || forall k :: k in distribution.keys ==> distribution.entries[k] <= 0)
    ensures r.Err? || cards == [] ==>
      session.added == old(session.added) && session.occupied == old(session.occupied) && rng.pos == old(rng.pos)
    ensures r.Ok? && cards != [] ==>
      var w := WeekSpec(DayOf(s, WindowMinutes(s), rng.stream), cards, distribution.keys, distribution.entries,
                        NextDates(distribution.keys, today), 0, old(session.occupied), old(rng.pos));
      r.value == w.events && session.occupied == w.occupied && rng.pos == w.next
    ensures r.Ok? && cards == [] ==> r.value == []
    ensures old(rng.pos) <= rng.pos
    ensures r.Ok? ==> session.added == old(session.added) + r.value
    ensures session.cards == old(session.cards) && session.schedules == old(session.schedules)
  {
    var datesResult := GetNextOccurrenceDates(distribution, today);
    if datesResult.Err? {
      return Err(datesResult.message);
    }
    var dates := datesResult.value;
    var keys := distribution.keys;
    if cards == [] {
      var busy := FirstBusyDay(keys, distribution.entries);
      if busy.Some? {
        return Err(ZeroModulo);
      }
      return Ok([]);
    }
    DayOfPlansAs(s, WindowMinutes(s), rng.stream);
    DayOfPlansForward(s, WindowMinutes(s), rng.stream);
    WeekForward(DayOf(s, WindowMinutes(s), rng.stream), cards, keys, distribution.entries, dates.entries, 0,
                session.occupied, rng.pos);
    var events := ScheduleWeek(session, s, cards, keys, distribution.entries, dates.entries, WindowMinutes(s), rng,
                                DayOf(s, WindowMinutes(s), rng.stream));
    return Ok(events);
  }

  /** The loop of `schedule_events_from_distribution` over the days when
      there are no cards: the first day with a positive count, if any, is
      where the card index is reduced modulo zero. */
  method FirstBusyDay(keys: seq<string>, counts: map<string, int>) returns (r: Option<nat>)
    requires forall k :: k in keys ==> k in counts
    ensures r.None? <==> forall k :: k in keys ==> counts[k] <= 0
    ensures r.Some? ==> r.value < |keys| && counts[keys[r.value]] > 0
                        && forall j :: 0 <= j < r.value ==> counts[keys[j]] <= 0
  {
    var i := 0;
    while i < |keys|
      invariant 0 <= i <= |keys|
      invariant forall j :: 0 <= j < i ==> counts[keys[j]] <= 0
    {
      if counts[keys[i]] > 0 {
        return Some(i);
      }
      i := i + 1;
    }
    return None;
  }

  /** The loop of `schedule_events_from_distribution` over the days, when
      there are cards to cycle through. */
  method ScheduleWeek(session: Session, s: Schedule, cards: seq<FlashCard>, keys: seq<string>, counts: map<string, int>,
                      dates: map<string, Date>, window: int, rng: Rng, ghost day: DayPlanner)
    returns (events: seq<ScheduledEvent>)
    requires StrategyReady(s, window) && |cards| >= 1 && PlansAs(day, s, window, rng.stream)
    requires forall k :: k in keys ==> k in counts && k in dates
    modifies session, rng
    ensures var w := WeekSpec(day, cards, keys, counts, dates, 0, old(session.occupied), old(rng.pos));
            events == w.events && session.occupied == w.occupied && rng.pos == w.next
    ensures session.added == old(session.added) + events
    ensures session.cards == old(session.cards) && session.schedules == old(session.schedules)
  {
    events := [];
    var cursor := 0;
    ghost var target := WeekSpec(day, cards, keys, counts, dates, 0, session.occupied, rng.pos);
    var todo := keys;
    while todo != []
      invariant 0 <= cursor < |cards|
      invariant forall k :: k in todo ==> k in counts && k in dates
      invariant session.added == old(session.added) + events
      invariant session.cards == old(session.cards) && session.schedules == old(session.schedules)
      invariant var rest := WeekSpec(day, cards, todo, counts, dates, cursor, session.occupied, rng.pos);
                target == WeekResult(events + rest.events, rest.cursor, rest.next, rest.occupied)
      decreases |todo|
    {
      WeekAdvance(day, cards, todo, counts, dates, cursor, session.occupied, rng.pos, events);
      var dayEvents;
      dayEvents, cursor := ScheduleDayOfWeek(session, s, cards, todo, counts, dates, window, cursor, rng, day);
      events := events + dayEvents;
      todo := todo[1..];
    }
  }

  /** One pass of the loop of `schedule_events_from_distribution`: the first
      of `keys`, whose cards start at the cursor; returns its events and the
      new cursor. */
  method ScheduleDayOfWeek(session: Session, s: Schedule, cards: seq<FlashCard>, keys: seq<string>, counts: map<string, int>,
                           dates: map<string, Date>, window: int, cursor: int, rng: Rng,
                           ghost day: DayPlanner)
    returns (events: seq<ScheduledEvent>, next: int)
    requires StrategyReady(s, window) && |cards| >= 1 && 0 <= cursor < |cards|
    requires forall k :: k in keys ==> k in counts && k in dates
    requires keys != [] && PlansAs(day, s, window, rng.stream)
    modifies session, rng
    ensures var f := FirstDay(day, cards, keys, counts, dates, cursor, old(session.occupied), old(rng.pos));
            events == f.events && next == f.cursor && session.occupied == f.occupied && rng.pos == f.next
    ensures session.added == old(session.added) + events
    ensures session.cards == old(session.cards) && session.schedules == old(session.schedules)
  {
    var key := keys[0];
    var count := counts[key];
    if count <= 0 {
      return [], cursor;
    }
    var dayCards := CardsForDay(cards, cursor, count);
    events, next := ScheduleEventsForDay(session, s, dayCards, dates[key], window, rng);
    next := Wrap(cursor + next, |cards|);
  }

  /** The cards a schedule draws from: its one card for card scope (active or
      not; none when the key finds nothing), otherwise the active cards of its
      category, or of every category for global scope. */
  function Candidates(s: Schedule, cards: seq<FlashCard>): (r: seq<FlashCard>)
    ensures forall c :: c in r ==> c in cards
    ensures s.scope == Some(Card) ==> |r| <= 1 && forall c :: c in r ==> s.flashCardUuid == Some(c.uuid)
    ensures s.scope != Some(Card) ==> forall c :: c in r ==> c.active
    ensures s.scope == Some(Category) && s.categoryUuid.Some? ==> forall c :: c in r ==> s.categoryUuid == Some(c.categoryUuid)
  {
    if s.scope == Some(Card) then
      match FindCard(cards, s.flashCardUuid)
      case None => []
      case Some(c) => [c]
    else ActiveCards(cards, if s.scope == Some(Category) then s.categoryUuid else None)
  }

  /** When no count of the distribution is negative and they add up to at
      most the total, any positive count means a positive total. */
  lemma PositiveCountNeedsTotal(s: Schedule, t: Totals, dist: Dict<int>, k: string)
    requires WellFormed(dist) && (forall x :: x in dist.entries ==> dist.entries[x] >= 0)
    requires Total(dist) <= t.total && k in dist.keys && dist.entries[k] > 0
    ensures t.total > 0
  {
    SumOverBound(dist.keys, dist.entries, k);
  }

  /** Why `generate_schedule_events` raises for a stored schedule: a field of
      its mode is missing, or it has cards to place and a day name the weekday
      table does not hold. */
  predicate ScheduleFails(s: Schedule, cards: seq<FlashCard>)
    requires s.allowedDays.Some?
  {
    !ModeFieldsPresent(s) || (Candidates(s, cards) != [] && exists d :: d in Days(s) && d !in DayNames)
  }

  /** `generate_schedule_events`: the totals come first, so a schedule missing
      a field of its mode fails even without cards; then the candidates are
      picked, the week is distributed and scheduled, and the picked cards are
      returned while the events themselves are dropped. */
  method GenerateScheduleEvents(session: Session, s: Schedule, today: Date, rng: Rng) returns (r: Result<seq<FlashCard>>)
    requires EngineReady(s) && |Days(s)| <= 21
    modifies session, rng
    ensures var t := TotalsOf(s, rng.stream, old(rng.pos));
            r.Err? <==> t.Err? || (Candidates(s, old(session.cards)) != [] && exists d :: d in Days(s) && d !in DayNames)
    ensures r.Err? <==> ScheduleFails(s, old(session.cards))
    ensures TotalsOf(s, rng.stream, old(rng.pos)).Err? ==> r == Err(TotalsOf(s, rng.stream, old(rng.pos)).message)
    ensures r.Ok? ==>
      var t := TotalsOf(s, rng.stream, old(rng.pos)).value;
      var cands := Candidates(s, old(session.cards));
      && |r.value| == (if cands == [] then 0 else t.total)
      && (forall c :: c in r.value ==> c in cands)
      && |session.added| <= |old(session.added)| + |r.value|
    ensures old(rng.pos) <= rng.pos
    ensures r.Ok? ==> old(rng.pos) + Drawn(s, r.value) <= rng.pos
    ensures |old(session.added)| <= |session.added| && session.added[..|old(session.added)|] == old(session.added)
    ensures session.cards == old(session.cards) && session.schedules == old(session.schedules)
  {
    StoredScheduleStrategyReady(s);
    ghost var stream, pos0 := rng.stream, rng.pos;
    StoredTotalsDefined(s, stream, pos0);
    var cards := Candidates(s, session.cards);
    var totals := CalculateTotalEventsAndDailyCounts(s, rng);
    if totals.Err? {
      return Err(totals.message);
    }
    var t := totals.value;
    StoredTotalsPositive(s, stream, pos0);
    DistributionKeepsTotal(s, stream, pos0);
    if cards == [] {
      return Ok([]);
    }
    var selected := SelectWeightedCards(cards, t.total, rng);
    var dist := DetermineWeeklyEventDistribution(s, t, rng);
    assert dist.Ok?;
    var d := dist.value;
    assert Total(d) <= t.total;
    forall k | k in d.keys && d.entries[k] > 0 ensures t.total > 0 {
      PositiveCountNeedsTotal(s, t, d, k);
    }
    ghost var pos1, occupied1 := rng.pos, session.occupied;
    var result := ScheduleEventsFromDistribution(session, s, selected, d, today, rng);
    if result.Err? {
      return Err(result.message);
    }
    if selected != [] {
      PositiveTotalIsSum(d.keys, d.entries);
      DayOfPlans(s, WindowMinutes(s), stream);
      WeekEventsBound(DayOf(s, WindowMinutes(s), stream), selected, d.keys, d.entries, NextDates(d.keys, today), 0, occupied1, pos1);
    }
    return Ok(selected);
  }

  /** The cards each schedule picked, in the order the schedules come. */
  ghost function Processed(selections: seq<seq<FlashCard>>): (n: nat)
  {
    if selections == [] then 0 else Processed(selections[..|selections| - 1]) + |selections[|selections| - 1]|
  }

  /** What `generate_schedule_events` did for a stored schedule that did not
      raise, with the generator at `pos`: it picked `total` of the schedule's
      candidates, or none when it has no candidates. */
  predicate PickedFor(s: Schedule, cards: seq<FlashCard>, stream: nat -> int, pos: nat, picked: seq<FlashCard>)
  {
    && EngineReady(s) && !ScheduleFails(s, cards) && TotalsOf(s, stream, pos).Ok?
    && |picked| == (if Candidates(s, cards) == [] then 0 else TotalsOf(s, stream, pos).value.total)
    && (forall c :: c in picked ==> c in Candidates(s, cards))
  }

  /** One pass of the loop of `generate_events_from_schedules`: the call of
      `generate_schedule_events` for schedule `i`, which either raises or
      extends the run of the schedules before it by this one's picks. */
  method GenerateForSchedule(session: Session, schedules: seq<Schedule>, i: nat, today: Date, rng: Rng,
                             ghost start: nat, ghost selections: seq<seq<FlashCard>>, ghost positions: seq<nat>)
    returns (r: Result<seq<FlashCard>>)
    requires i < |schedules| && |positions| == i && EngineReady(schedules[i]) && |Days(schedules[i])| <= 21
    requires Run(schedules, session.cards, rng.stream, start, selections, positions, rng.pos)
    requires i == 0 ==> rng.pos == start
    modifies session, rng
    ensures r.Err? <==> ScheduleFails(schedules[i], old(session.cards))
    ensures r.Ok? ==>
      && Run(schedules, old(session.cards), rng.stream, start, selections + [r.value], positions + [old(rng.pos)], rng.pos)
      && |session.added| <= |old(session.added)| + |r.value|
    ensures old(rng.pos) <= rng.pos
    ensures |old(session.added)| <= |session.added| && session.added[..|old(session.added)|] == old(session.added)
    ensures session.cards == old(session.cards) && session.schedules == old(session.schedules)
  {
    var s := schedules[i];
    ghost var cards, pos := session.cards, rng.pos;
    StoredTotalsDefined(s, rng.stream, pos);
    r := GenerateScheduleEvents(session, s, today, rng);
    if r.Ok? {
      RunStep(schedules, cards, rng.stream, start, selections, positions, pos, r.value, rng.pos);
    }
  }

  /** The first schedules of a run: schedule `i` picked `selections[i]` with the
      generator at `positions[i]`, the first of them at `start`; and each one's
      daily draws and picks come before the position the next one starts
      from, or, for the last, before `now`. */
  ghost predicate Run(schedules: seq<Schedule>, cards: seq<FlashCard>, stream: nat -> int, start: nat,
                      selections: seq<seq<FlashCard>>, positions: seq<nat>, now: nat)
  {
    && |selections| == |positions| <= |schedules|
    && (|positions| > 0 ==> positions[0] == start)
    && AllPicked(schedules, cards, stream, selections, positions)
    && InTurn(schedules, selections, positions, now)
  }

  /** Schedule `i` picked `selections[i]` with the generator at `positions[i]`. */
  ghost predicate AllPicked(schedules: seq<Schedule>, cards: seq<FlashCard>, stream: nat -> int,
                            selections: seq<seq<FlashCard>>, positions: seq<nat>)
    requires |selections| == |positions| <= |schedules|
  {
    forall i :: 0 <= i < |positions| ==> PickedFor(schedules[i], cards, stream, positions[i], selections[i])
  }

  /** The draws of schedule `i` for its daily counts and its picks come before
      where schedule `i + 1` starts, or before `now` for the last one. */
  ghost predicate InTurn(schedules: seq<Schedule>, selections: seq<seq<FlashCard>>, positions: seq<nat>, now: nat)
    requires |selections| == |positions| <= |schedules|
  {
    forall i {:trigger positions[i]} :: 0 <= i < |positions| ==>
      positions[i] + Drawn(schedules[i], selections[i]) <= (if i + 1 < |positions| then positions[i + 1] else now)
  }

  /** How many draws a schedule makes for its daily counts and its picks. */
  function Drawn(s: Schedule, picked: seq<FlashCard>): nat
  {
    (if s.allowedDays.Some? then TotalsDraws(s) else 0) + |picked|
  }

  /** One more schedule, started where the run stood, extends the run. */
  lemma RunStep(schedules: seq<Schedule>, cards: seq<FlashCard>, stream: nat -> int, start: nat,
                selections: seq<seq<FlashCard>>, positions: seq<nat>, pos: nat, picked: seq<FlashCard>, now: nat)
    requires Run(schedules, cards, stream, start, selections, positions, pos)
    requires |positions| < |schedules| && (|positions| == 0 ==> pos == start)
    requires PickedFor(schedules[|positions|], cards, stream, pos, picked)
    requires pos + Drawn(schedules[|positions|], picked) <= now
    ensures Run(schedules, cards, stream, start, selections + [picked], positions + [pos], now)
  {
    AllPickedStep(schedules, cards, stream, selections, positions, pos, picked);
    InTurnStep(schedules, selections, positions, pos, picked, now);
  }

  /** A run stays a run as the generator moves on. */
  lemma RunLater(schedules: seq<Schedule>, cards: seq<FlashCard>, stream: nat -> int, start: nat,
                 selections: seq<seq<FlashCard>>, positions: seq<nat>, now: nat, later: nat)
    requires Run(schedules, cards, stream, start, selections, positions, now) && now <= later
    ensures Run(schedules, cards, stream, start, selections, positions, later)
  {
    forall i {:trigger positions[i]} | 0 <= i < |positions|
      ensures positions[i] + Drawn(schedules[i], selections[i]) <= (if i + 1 < |positions| then positions[i + 1] else later)
    {
      assert positions[i] + Drawn(schedules[i], selections[i]) <= (if i + 1 < |positions| then positions[i + 1] else now);
    }
  }

  lemma AllPickedStep(schedules: seq<Schedule>, cards: seq<FlashCard>, stream: nat -> int,
                      selections: seq<seq<FlashCard>>, positions: seq<nat>, pos: nat, picked: seq<FlashCard>)
    requires |selections| == |positions| < |schedules|
    requires AllPicked(schedules, cards, stream, selections, positions)
    requires PickedFor(schedules[|positions|], cards, stream, pos, picked)
    ensures AllPicked(schedules, cards, stream, selections + [picked], positions + [pos])
  {
    var selections', positions' := selections + [picked], positions + [pos];
    forall i | 0 <= i < |positions'|
      ensures PickedFor(schedules[i], cards, stream, positions'[i], selections'[i])
    {
      if i < |positions| {
        assert positions'[i] == positions[i] && selections'[i] == selections[i];
      }
    }
  }

  lemma InTurnStep(schedules: seq<Schedule>, selections: seq<seq<FlashCard>>, positions: seq<nat>, pos: nat,
                   picked: seq<FlashCard>, now: nat)
    requires |selections| == |positions| < |schedules|
    requires InTurn(schedules, selections, positions, pos)
    requires pos + Drawn(schedules[|positions|], picked) <= now
    ensures InTurn(schedules, selections + [picked], positions + [pos], now)
  {
    var selections', positions' := selections + [picked], positions + [pos];
    var n := |positions|;
    forall i | 0 <= i < n + 1
      ensures positions'[i] + Drawn(schedules[i], selections'[i])
                <= (if i + 1 < n + 1 then positions'[i + 1] else now)
    {
      if i < n {
        assert positions'[i] == positions[i] && selections'[i] == selections[i];
        assert positions[i] + Drawn(schedules[i], selections[i]) <= (if i + 1 < n then positions[i + 1] else pos);
        assert positions'[i + 1] == (if i + 1 < n then positions[i + 1] else pos);
      } else {
        assert positions'[i] == pos && selections'[i] == picked;
      }
    }
  }

  /** `generate_events_from_schedules`: every active schedule in turn, counting
      the cards each one picked; a schedule that raises stops the run. Schedule
      `i` picked `selections[i]`, with the generator at `positions[i]`. */
  method GenerateEventsFromSchedules(session: Session, today: Date, rng: Rng)
    returns (r: Result<nat>, ghost selections: seq<seq<FlashCard>>, ghost positions: seq<nat>)
    requires forall s :: s in ActiveSchedules(session.schedules) ==> EngineReady(s) && |Days(s)| <= 21
    modifies session, rng
    ensures ActiveSchedules(old(session.schedules)) == [] ==> r == Ok(0) && session.added == old(session.added)
    ensures var schedules := ActiveSchedules(old(session.schedules));
            && Run(schedules, old(session.cards), rng.stream, old(rng.pos), selections, positions, rng.pos)
            && (r.Ok? <==> |selections| == |schedules|)
            && (r.Err? ==> EngineReady(schedules[|selections|]) && ScheduleFails(schedules[|selections|], old(session.cards)))
    ensures old(rng.pos) <= rng.pos
    ensures r.Ok? ==> r.value == Processed(selections)
    ensures r.Ok? ==> |old(session.added)| <= |session.added| <= |old(session.added)| + r.value
    ensures |old(session.added)| <= |session.added| && session.added[..|old(session.added)|] == old(session.added)
    ensures session.cards == old(session.cards) && session.schedules == old(session.schedules)
  {
    var schedules := ActiveSchedules(session.schedules);
    selections, positions := [], [];
    if schedules == [] {
      return Ok(0), selections, positions;
    }
    r, selections, positions := RunSchedules(session, schedules, today, rng);
  }

  /** The loop of `generate_events_from_schedules` over the given schedules. */
  method RunSchedules(session: Session, schedules: seq<Schedule>, today: Date, rng: Rng)
    returns (r: Result<nat>, ghost selections: seq<seq<FlashCard>>, ghost positions: seq<nat>)
    requires forall s :: s in schedules ==> EngineReady(s) && |Days(s)| <= 21
    modifies session, rng
    ensures Run(schedules, old(session.cards), rng.stream, old(rng.pos), selections, positions, rng.pos)
    ensures r.Ok? <==> |selections| == |schedules|
    ensures r.Err? ==> EngineReady(schedules[|selections|]) && ScheduleFails(schedules[|selections|], old(session.cards))
    ensures old(rng.pos) <= rng.pos
    ensures r.Ok? ==> r.value == Processed(selections)
    ensures r.Ok? ==> |old(session.added)| <= |session.added| <= |old(session.added)| + r.value
    ensures |old(session.added)| <= |session.added| && session.added[..|old(session.added)|] == old(session.added)
    ensures session.cards == old(session.cards) && session.schedules == old(session.schedules)
  {
    selections, positions := [], [];
    ghost var cards0, stream := session.cards, rng.stream;
    var processed := 0;
    var i := 0;
    while i < |schedules|
      invariant 0 <= i <= |schedules| && |selections| == |positions| == i
      invariant i == 0 ==> rng.pos == old(rng.pos)
      invariant old(rng.pos) <= rng.pos
      invariant Run(schedules, cards0, stream, old(rng.pos), selections, positions, rng.pos)
      invariant processed == Processed(selections)
      invariant session.cards == cards0 && session.schedules == old(session.schedules)
      invariant |old(session.added)| <= |session.added| <= |old(session.added)| + processed
      invariant session.added[..|old(session.added)|] == old(session.added)
    {
      ghost var before, pos := session.added, rng.pos;
      assert schedules[i] in schedules;
      var picked := GenerateForSchedule(session, schedules, i, today, rng, old(rng.pos), selections, positions);
      assert session.added[..|before|] == before;
      if picked.Err? {
        RunLater(schedules, cards0, stream, old(rng.pos), selections, positions, pos, rng.pos);
        return Err(picked.message), selections, positions;
      }
      selections, positions := selections + [picked.value], positions + [pos];
      processed := processed + |picked.value|;
      i := i + 1;
    }
    return Ok(processed), selections, positions;
  }
}
