/** The `Schedule` and `ScheduledEvent` records (database/models/schedule.py):
    their enums, the presence checks run at construction, the range checks run
    before insert and update, and the table's CHECK constraints. */
module ScheduleModel {
  import opened Common
  import opened Calendar
  import opened EnumFields

  datatype Scope = Global | Category | Card
  datatype FrequencyMode = TimesPerWeek | TimesPerDay | FixedInterval
  datatype EventStatus = Pending | Completed | Ignored

  /** `Scope` as the `str`-derived enum the field layer serializes. */
  const ScopeEnum: EnumClass :=
    EnumClass([Member("GLOBAL", "global"), Member("CATEGORY", "category"), Member("CARD", "card")], true)

  const FrequencyModeEnum: EnumClass :=
    EnumClass([Member("TIMES_PER_WEEK", "times_per_week"), Member("TIMES_PER_DAY", "times_per_day"),
               Member("FIXED_INTERVAL", "fixed_interval")], true)

  const EventStatusEnum: EnumClass :=
    EnumClass([Member("PENDING", "pending"), Member("COMPLETED", "completed"), Member("IGNORED", "ignored")], true)

  /** The enum member standing for a scope, and back. */
  function ScopeMember(s: Scope): (m: Member)
    ensures m in ScopeEnum.members
  {
    match s
    case Global => ScopeEnum.members[0]
    case Category => ScopeEnum.members[1]
    case Card => ScopeEnum.members[2]
  }

  function ScopeOf(m: Member): (r: Option<Scope>)
    ensures r.Some? <==> m in ScopeEnum.members
    ensures r.Some? ==> ScopeMember(r.value) == m
  {
    if m == ScopeEnum.members[0] then Some(Global)
    else if m == ScopeEnum.members[1] then Some(Category)
    else if m == ScopeEnum.members[2] then Some(Card)
    else None
  }

  function FrequencyModeMember(f: FrequencyMode): (m: Member)
    ensures m in FrequencyModeEnum.members
  {
    match f
    case TimesPerWeek => FrequencyModeEnum.members[0]
    case TimesPerDay => FrequencyModeEnum.members[1]
    case FixedInterval => FrequencyModeEnum.members[2]
  }

  function FrequencyModeOf(m: Member): (r: Option<FrequencyMode>)
    ensures r.Some? <==> m in FrequencyModeEnum.members
    ensures r.Some? ==> FrequencyModeMember(r.value) == m
  {
    if m == FrequencyModeEnum.members[0] then Some(TimesPerWeek)
    else if m == FrequencyModeEnum.members[1] then Some(TimesPerDay)
    else if m == FrequencyModeEnum.members[2] then Some(FixedInterval)
    else None
  }

  function EventStatusMember(st: EventStatus): (m: Member)
    ensures m in EventStatusEnum.members
  {
    match st
    case Pending => EventStatusEnum.members[0]
    case Completed => EventStatusEnum.members[1]
    case Ignored => EventStatusEnum.members[2]
  }

  function EventStatusOf(m: Member): (r: Option<EventStatus>)
    ensures r.Some? <==> m in EventStatusEnum.members
    ensures r.Some? ==> EventStatusMember(r.value) == m
  {
    if m == EventStatusEnum.members[0] then Some(Pending)
    else if m == EventStatusEnum.members[1] then Some(Completed)
    else if m == EventStatusEnum.members[2] then Some(Ignored)
    else None
  }

  /** The three enums are `@unique`, and their names are upper case, so both
      field encodings round-trip every member. */
  lemma EnumsRoundTrip()
    ensures UniqueValues(ScopeEnum) && UniqueNames(ScopeEnum)
    ensures UniqueValues(FrequencyModeEnum) && UniqueNames(FrequencyModeEnum)
    ensures UniqueValues(EventStatusEnum) && UniqueNames(EventStatusEnum)
    ensures forall s: Scope :: Deserialize(ScopeEnum, true, Text(ScopeMember(s).value)) == Loaded(Some(ScopeMember(s)))
    ensures forall f: FrequencyMode ::
      Deserialize(FrequencyModeEnum, true, Text(FrequencyModeMember(f).value)) == Loaded(Some(FrequencyModeMember(f)))
    ensures forall st: EventStatus ::
      Deserialize(EventStatusEnum, true, Text(EventStatusMember(st).value)) == Loaded(Some(EventStatusMember(st)))
  {
    forall s: Scope ensures Deserialize(ScopeEnum, true, Text(ScopeMember(s).value)) == Loaded(Some(ScopeMember(s))) {
      RoundTripByValue(ScopeEnum, ScopeMember(s));
    }
    forall f: FrequencyMode
      ensures Deserialize(FrequencyModeEnum, true, Text(FrequencyModeMember(f).value)) == Loaded(Some(FrequencyModeMember(f)))
    {
      RoundTripByValue(FrequencyModeEnum, FrequencyModeMember(f));
    }
    forall st: EventStatus
      ensures Deserialize(EventStatusEnum, true, Text(EventStatusMember(st).value)) == Loaded(Some(EventStatusMember(st)))
    {
      RoundTripByValue(EventStatusEnum, EventStatusMember(st));
    }
  }

  /** A `Schedule` row as the engine sees it; `None` is a Python `None` in a field. */
  datatype Schedule = Schedule(
    uuid: Uuid,
    active: bool,
    scope: Option<Scope>,
    categoryUuid: Option<Uuid>,
    flashCardUuid: Option<Uuid>,
    allowedDays: Option<string>,
    startHour: Option<int>,
    endHour: Option<int>,
    frequencyMode: Option<FrequencyMode>,
    timesPerWeek: Option<int>,
    minTimesPerDay: Option<int>,
    maxTimesPerDay: Option<int>,
    intervalMinutes: Option<int>)

  /** What construction demands: the scope, its target uuid, the window, the
      mode and the active mode's own fields are all present. */
  predicate ScheduleComplete(s: Schedule)
  {
    && s.scope.Some?
    && (s.scope == Some(Category) ==> s.categoryUuid.Some?)
    && (s.scope == Some(Card) ==> s.flashCardUuid.Some?)
    && s.allowedDays.Some? && s.startHour.Some? && s.endHour.Some?
    && s.frequencyMode.Some?
    && (s.frequencyMode == Some(TimesPerWeek) ==> s.timesPerWeek.Some?)
    && (s.frequencyMode == Some(TimesPerDay) ==> s.minTimesPerDay.Some? && s.maxTimesPerDay.Some?)
    && (s.frequencyMode == Some(FixedInterval) ==> s.intervalMinutes.Some?)
  }

  /** The messages of the presence checks in `Schedule.__post_init__`. */
  const ScopeRequired: string := "scope is required"
  const CategoryUuidRequired: string := "category_uuid is required for category scope"
  const FlashCardUuidRequired: string := "flash_card_uuid is required for card scope"
  const AllowedDaysRequired: string := "allowed_days is required"
  const StartHourRequired: string := "start_hour is required"
  const EndHourRequired: string := "end_hour is required"
  const FrequencyModeRequired: string := "frequency_mode is required"
  const TimesPerWeekRequired: string := "times_per_week is required for times_per_week mode"
  const MinTimesPerDayRequired: string := "min_times_per_day is required for times_per_day mode"
  const MaxTimesPerDayRequired: string := "max_times_per_day is required for times_per_day mode"
  const IntervalMinutesRequired: string := "interval_minutes is required for fixed_interval mode"

  /** `Schedule.__post_init__`: the first missing field raises `ValueError`. */
  function PostInit(s: Schedule): (r: Outcome)
    ensures r == Pass <==> ScheduleComplete(s)
    ensures s.scope.None? ==> r == Fail(ScopeRequired)
    ensures s.scope == Some(Category) && s.categoryUuid.None? ==> r == Fail(CategoryUuidRequired)
    ensures s.scope == Some(Card) && s.flashCardUuid.None? ==> r == Fail(FlashCardUuidRequired)
  {
    if s.scope.None? then Fail(ScopeRequired)
    else if s.scope == Some(Category) && s.categoryUuid.None? then Fail(CategoryUuidRequired)
    else if s.scope == Some(Card) && s.flashCardUuid.None? then Fail(FlashCardUuidRequired)
    else if s.allowedDays.None? then Fail(AllowedDaysRequired)
    else if s.startHour.None? then Fail(StartHourRequired)
    else if s.endHour.None? then Fail(EndHourRequired)
    else if s.frequencyMode.None? then Fail(FrequencyModeRequired)
    else if s.frequencyMode == Some(TimesPerWeek) && s.timesPerWeek.None? then
      Fail(TimesPerWeekRequired)
    else if s.frequencyMode == Some(TimesPerDay) && s.minTimesPerDay.None? then
      Fail(MinTimesPerDayRequired)
    else if s.frequencyMode == Some(TimesPerDay) && s.maxTimesPerDay.None? then
      Fail(MaxTimesPerDayRequired)
    else if s.frequencyMode == Some(FixedInterval) && s.intervalMinutes.None? then
      Fail(IntervalMinutesRequired)
    else Pass
  }

  /** The message with which comparing `None` with an `int` raises `TypeError`. */
  const NoneComparison: string := "TypeError: comparison with None"

  /** The ranges `validate_schedule` enforces for the active mode. */
  predicate ModeRangesHold(s: Schedule)
  {
    && (s.frequencyMode == Some(TimesPerWeek) ==> s.timesPerWeek.Some? && 1 <= s.timesPerWeek.value <= 7)
    && (s.frequencyMode == Some(TimesPerDay) ==>
          s.minTimesPerDay.Some? && s.maxTimesPerDay.Some? && s.maxTimesPerDay.value >= s.minTimesPerDay.value)
    && (s.frequencyMode == Some(FixedInterval) ==> s.intervalMinutes.Some? && s.intervalMinutes.value > 0)
  }

  /** `validate_schedule`, the before-insert/before-update listener. A missing
      field of the active mode cannot be compared and raises `TypeError`. */
  function ValidateSchedule(s: Schedule): (r: Outcome)
    ensures r == Pass <==> ModeRangesHold(s)
    ensures s.frequencyMode.None? ==> r == Pass
    ensures s.frequencyMode == Some(TimesPerWeek) && s.timesPerWeek.Some? && !(1 <= s.timesPerWeek.value <= 7) ==>
      r == Fail("times_per_week must be between 1 and 7")
    ensures s.frequencyMode == Some(TimesPerDay) && s.minTimesPerDay.Some? && s.maxTimesPerDay.Some?
              && s.maxTimesPerDay.value < s.minTimesPerDay.value ==>
      r == Fail("max_times_per_day cannot be less than min_times_per_day")
    ensures s.frequencyMode == Some(FixedInterval) && s.intervalMinutes.Some? && s.intervalMinutes.value <= 0 ==>
      r == Fail("interval_minutes must be positive")
  {
    match s.frequencyMode
    case None => Pass
    case Some(TimesPerWeek) =>
      if s.timesPerWeek.None? then Fail(NoneComparison)
      else if !(1 <= s.timesPerWeek.value <= 7) then Fail("times_per_week must be between 1 and 7")
      else Pass
    case Some(TimesPerDay) =>
      if s.maxTimesPerDay.None? || s.minTimesPerDay.None? then Fail(NoneComparison)
      else if s.maxTimesPerDay.value < s.minTimesPerDay.value then
        Fail("max_times_per_day cannot be less than min_times_per_day")
      else Pass
    case Some(FixedInterval) =>
      if s.intervalMinutes.None? then Fail(NoneComparison)
      else if s.intervalMinutes.value <= 0 then Fail("interval_minutes must be positive")
      else Pass
  }

  /** SQL's three truth values: a comparison with NULL is unknown. */
  datatype Tri = Yes | No | Unknown

  function TriAnd(a: Tri, b: Tri): Tri
  {
    if a == No || b == No then No else if a == Yes && b == Yes then Yes else Unknown
  }

  function TriOr(a: Tri, b: Tri): Tri
  {
    if a == Yes || b == Yes then Yes else if a == No && b == No then No else Unknown
  }

  function TriOf(b: bool): Tri { if b then Yes else No }

  /** `column >= k` and friends, on a nullable column. */
  function AtLeast(x: Option<int>, k: int): Tri { if x.None? then Unknown else TriOf(x.value >= k) }
  function AtMost(x: Option<int>, k: int): Tri { if x.None? then Unknown else TriOf(x.value <= k) }
  function Greater(x: Option<int>, y: Option<int>): Tri
  {
    if x.None? || y.None? then Unknown else TriOf(x.value > y.value)
  }
  function NotEqualMode(m: Option<FrequencyMode>, k: FrequencyMode): Tri
  {
    if m.None? then Unknown else TriOf(m.value != k)
  }

  /** A CHECK constraint rejects a row only when it evaluates to false. */
  predicate Admits(t: Tri) { t != No }

  /** The NOT NULL columns the engine reads. */
  predicate NotNullColumnsPresent(s: Schedule)
  {
    s.scope.Some? && s.allowedDays.Some? && s.startHour.Some? && s.endHour.Some? && s.frequencyMode.Some?
  }

  /** What a stored schedule satisfies, in plain terms: a window inside one day,
      and every present frequency field within its range. A NULL column never
      violates a CHECK, so the mode's own fields may still be missing. */
  predicate StoredRanges(s: Schedule)
  {
    && NotNullColumnsPresent(s)
    && 0 <= s.startHour.value <= 23 && 0 <= s.endHour.value <= 23
    && s.endHour.value > s.startHour.value
    && (s.timesPerWeek.Some? ==> 1 <= s.timesPerWeek.value <= 7)
    && (s.frequencyMode == Some(TimesPerDay) ==>
          (s.minTimesPerDay.Some? ==> s.minTimesPerDay.value >= 1)
          && (s.minTimesPerDay.Some? && s.maxTimesPerDay.Some? ==> s.maxTimesPerDay.value >= s.minTimesPerDay.value))
    && (s.frequencyMode == Some(FixedInterval) && s.intervalMinutes.Some? ==> s.intervalMinutes.value > 0)
  }

  /** Every CHECK of the `schedules` table, evaluated the way SQL evaluates it,
      together with the NOT NULL columns. */
  function TableChecks(s: Schedule): (r: bool)
    ensures r <==> StoredRanges(s)
  {
    && NotNullColumnsPresent(s)
    && Admits(TriAnd(AtLeast(s.startHour, 0), AtMost(s.startHour, 23)))
    && Admits(TriAnd(AtLeast(s.endHour, 0), AtMost(s.endHour, 23)))
    && Admits(Greater(s.endHour, s.startHour))
    && Admits(TriAnd(AtLeast(s.timesPerWeek, 1), AtMost(s.timesPerWeek, 7)))
    && Admits(TriOr(NotEqualMode(s.frequencyMode, TimesPerWeek),
                    TriAnd(AtLeast(s.timesPerWeek, 1), AtMost(s.timesPerWeek, 7))))
    && Admits(TriOr(NotEqualMode(s.frequencyMode, TimesPerDay),
                    TriAnd(AtLeast(s.minTimesPerDay, 1),
                           TriOr(Greater(s.maxTimesPerDay, s.minTimesPerDay),
                                 if s.maxTimesPerDay.None? || s.minTimesPerDay.None? then Unknown
                                 else TriOf(s.maxTimesPerDay.value == s.minTimesPerDay.value)))))
    && Admits(TriOr(NotEqualMode(s.frequencyMode, FixedInterval), Greater(s.intervalMinutes, Some(0))))
  }

  /** A schedule that construction, the insert listener and the table all accept
      has every field of its mode present and in range. */
  lemma AcceptedScheduleInRange(s: Schedule)
    requires PostInit(s) == Pass && ValidateSchedule(s) == Pass && TableChecks(s)
    ensures StoredRanges(s) && ModeRangesHold(s) && ScheduleComplete(s)
    ensures s.frequencyMode == Some(TimesPerDay) ==> 1 <= s.minTimesPerDay.value <= s.maxTimesPerDay.value
  {
  }

  /** Construction checks presence only: a start hour of 24 and eight times a week
      pass `__post_init__`, and only the insert-time checks refuse them. */
  lemma ConstructionChecksPresenceOnly()
    ensures var s := Schedule(1, true, Some(Global), None, None, Some("Mon"), Some(24), Some(23),
                              Some(TimesPerWeek), Some(8), None, None, None);
            PostInit(s) == Pass && ValidateSchedule(s).Fail? && !TableChecks(s)
  {
  }

  /** A scheduled review of one card; `None` again stands for a missing field. */
  datatype ScheduledEvent = ScheduledEvent(
    scheduleUuid: Option<Uuid>,
    flashCardUuid: Option<Uuid>,
    scheduledDatetime: Option<DateTime>,
    status: Option<EventStatus>)

  /** `ScheduledEvent.__post_init__`. */
  function EventPostInit(e: ScheduledEvent): (r: Outcome)
    ensures r == Pass <==> e.scheduleUuid.Some? && e.flashCardUuid.Some? && e.scheduledDatetime.Some? && e.status.Some?
    ensures e.scheduleUuid.None? ==> r == Fail("schedule_uuid is required")
    ensures e.scheduleUuid.Some? && e.flashCardUuid.None? ==> r == Fail("flash_card_uuid is required")
  {
    if e.scheduleUuid.None? then Fail("schedule_uuid is required")
    else if e.flashCardUuid.None? then Fail("flash_card_uuid is required")
    else if e.scheduledDatetime.None? then Fail("scheduled_datetime is required")
    else if e.status.None? then Fail("status is required")
    else Pass
  }
}
