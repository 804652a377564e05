/** Loading a schedule from input data (`ScheduleSchema` in
    database/models/schedule_schema.py): field-level requirements and ranges,
    the schema-level rules that run only when every field is valid, and the
    default status of a loaded scheduled event. */
module ScheduleSchema {
  import opened Common
  import opened EnumFields
  import opened AllowedDays
  import opened ScheduleModel

  /** One key of the input: absent, an explicit `null`, or a value. */
  datatype Raw<T> = Absent | JsonNull | Given(value: T)

  datatype ScheduleInput = ScheduleInput(
    scope: Raw<string>,
    categoryUuid: Raw<Uuid>,
    flashCardUuid: Raw<Uuid>,
    allowedDays: Raw<string>,
    startHour: Raw<int>,
    endHour: Raw<int>,
    frequencyMode: Raw<string>,
    timesPerWeek: Raw<int>,
    minTimesPerDay: Raw<int>,
    maxTimesPerDay: Raw<int>,
    intervalMinutes: Raw<int>,
    active: Raw<bool>)

  /** An `EnumField(Scope, by_value=True)`: the scope whose value is the text. */
  function LoadScope(r: Raw<string>): (sc: Option<Scope>)
    ensures sc.Some? <==> r.Given? && r.value in ["global", "category", "card"]
    ensures sc.Some? ==> ScopeMember(sc.value).value == r.value
  {
    if !r.Given? then None
    else
      match Deserialize(ScopeEnum, true, Text(r.value))
      case Loaded(Some(m)) => ScopeOf(m)
      case _ => None
  }

  function LoadFrequencyMode(r: Raw<string>): (f: Option<FrequencyMode>)
    ensures f.Some? <==> r.Given? && r.value in ["times_per_week", "times_per_day", "fixed_interval"]
    ensures f.Some? ==> FrequencyModeMember(f.value).value == r.value
  {
    if !r.Given? then None
    else
      match Deserialize(FrequencyModeEnum, true, Text(r.value))
      case Loaded(Some(m)) => FrequencyModeOf(m)
      case _ => None
  }

  /** A required integer field with a `Range(min=lo, max=hi)` validator. */
  predicate RequiredInRange(r: Raw<int>, lo: int, hi: int)
  {
    r.Given? && lo <= r.value <= hi
  }

  /** An `allow_none` integer field with a lower bound and an optional upper bound. */
  predicate OptionalInRange(r: Raw<int>, lo: int, hi: Option<int>)
  {
    r.Given? ==> lo <= r.value && (hi.Some? ==> r.value <= hi.value)
  }

  /** The key a field leaves in the loaded data; `data.get` reads absent and null alike. */
  function Loaded<T>(r: Raw<T>): (o: Option<T>)
    ensures o.Some? <==> r.Given?
  {
    if r.Given? then Some(r.value) else None
  }

  /** The fields of the schema that can fail to load. */
  datatype Field = ScopeField | AllowedDaysField | StartHourField | EndHourField | FrequencyModeField
                 | TimesPerWeekField | MinTimesPerDayField | MaxTimesPerDayField | IntervalMinutesField | ActiveField

  const AllFields: set<Field> := {ScopeField, AllowedDaysField, StartHourField, EndHourField, FrequencyModeField,
    TimesPerWeekField, MinTimesPerDayField, MaxTimesPerDayField, IntervalMinutesField, ActiveField}

  /** The field's requirement: `required=True` fields must be given, every
      validator must pass, and `null` is refused unless `allow_none` is set.
      The allowed days are checked by the expression as written. */
  predicate FieldValid(i: ScheduleInput, f: Field)
  {
    match f
    case ScopeField => LoadScope(i.scope).Some?
    case AllowedDaysField => i.allowedDays.Given? && AllowedDaysRegexAsWritten(i.allowedDays.value)
    case StartHourField => RequiredInRange(i.startHour, 0, 23)
    case EndHourField => RequiredInRange(i.endHour, 0, 23)
    case FrequencyModeField => LoadFrequencyMode(i.frequencyMode).Some?
    case TimesPerWeekField => OptionalInRange(i.timesPerWeek, 1, Some(7))
    case MinTimesPerDayField => OptionalInRange(i.minTimesPerDay, 1, None)
    case MaxTimesPerDayField => OptionalInRange(i.maxTimesPerDay, 1, None)
    case IntervalMinutesField => OptionalInRange(i.intervalMinutes, 1, None)
    case ActiveField => !i.active.JsonNull?
  }

  /** The fields that fail to load; marshmallow reports them all at once. */
  function FieldErrors(i: ScheduleInput): (errs: set<Field>)
    ensures forall f :: f in errs <==> !FieldValid(i, f)
  {
    set f | f in AllFields && !FieldValid(i, f)
  }

  /** Python truthiness of an optional integer. */
  predicate Present(x: Option<int>)
  {
    x.Some? && x.value != 0
  }

  /** The schema-level rules in plain terms. */
  predicate SchemaRules(d: Schedule)
  {
    && (d.scope == Some(Category) ==> d.categoryUuid.Some?)
    && (d.scope == Some(Card) ==> d.flashCardUuid.Some?)
    && (d.frequencyMode == Some(TimesPerWeek) ==> Present(d.timesPerWeek))
    && (d.frequencyMode == Some(TimesPerDay) ==>
          Present(d.minTimesPerDay) && Present(d.maxTimesPerDay) && d.minTimesPerDay.value <= d.maxTimesPerDay.value)
    && (d.frequencyMode == Some(FixedInterval) ==> Present(d.intervalMinutes))
    && d.startHour.Some? && d.endHour.Some? && d.startHour.value < d.endHour.value
  }

  const MinAboveMaxMessage: string := "min_times_per_day cannot be greater than max_times_per_day"
  const EndBeforeStartMessage: string := "end_hour must be greater than start_hour"

  /** `ScheduleSchema.validate_schema` over the loaded data. A missing hour is a
      `KeyError`. */
  function ValidateSchema(d: Schedule): (r: Outcome)
    ensures r == Pass <==> SchemaRules(d)
    ensures d.scope == Some(Category) && d.categoryUuid.None? ==> r == Fail(CategoryUuidRequired)
    ensures d.frequencyMode == Some(TimesPerDay) && Present(d.minTimesPerDay) && Present(d.maxTimesPerDay)
            && d.minTimesPerDay.value > d.maxTimesPerDay.value && d.scope != Some(Category) && d.scope != Some(Card) ==>
      r == Fail(MinAboveMaxMessage)
    ensures (d.scope == Some(Global) || (d.scope == Some(Category) && d.categoryUuid.Some?)
               || (d.scope == Some(Card) && d.flashCardUuid.Some?))
            && (d.frequencyMode == Some(TimesPerWeek) && Present(d.timesPerWeek))
            && d.startHour.Some? && d.endHour.Some? && d.startHour.value >= d.endHour.value ==>
      r == Fail(EndBeforeStartMessage)
  {
    if d.scope == Some(Category) && d.categoryUuid.None? then Fail(CategoryUuidRequired)
    else if d.scope == Some(Card) && d.flashCardUuid.None? then Fail(FlashCardUuidRequired)
    else if d.frequencyMode == Some(TimesPerWeek) && !Present(d.timesPerWeek) then
      Fail(TimesPerWeekRequired)
    else if d.frequencyMode == Some(TimesPerDay) && !Present(d.minTimesPerDay) then
      Fail(MinTimesPerDayRequired)
    else if d.frequencyMode == Some(TimesPerDay) && !Present(d.maxTimesPerDay) then
      Fail(MaxTimesPerDayRequired)
    else if d.frequencyMode == Some(TimesPerDay) && d.minTimesPerDay.value > d.maxTimesPerDay.value then
      Fail(MinAboveMaxMessage)
    else if d.frequencyMode == Some(FixedInterval) && !Present(d.intervalMinutes) then
      Fail(IntervalMinutesRequired)
    else if d.startHour.None? || d.endHour.None? then Fail("KeyError")
    else if d.startHour.value >= d.endHour.value then Fail(EndBeforeStartMessage)
    else Pass
  }

  /** The loaded data as the record the schema builds; `uuid` is assigned by the model. */
  function LoadedData(uuid: Uuid, i: ScheduleInput): (d: Schedule)
    ensures d.scope == LoadScope(i.scope) && d.frequencyMode == LoadFrequencyMode(i.frequencyMode)
    ensures d.active == (i.active != Given(false))
  {
    Schedule(uuid, if i.active.Given? then i.active.value else true,
             LoadScope(i.scope), Loaded(i.categoryUuid), Loaded(i.flashCardUuid),
             Loaded(i.allowedDays), Loaded(i.startHour), Loaded(i.endHour),
             LoadFrequencyMode(i.frequencyMode), Loaded(i.timesPerWeek),
             Loaded(i.minTimesPerDay), Loaded(i.maxTimesPerDay), Loaded(i.intervalMinutes))
  }

  datatype LoadResult = LoadedSchedule(schedule: Schedule) | FieldInvalid(fields: set<Field>) | SchemaInvalid(message: string)

  /** `ScheduleSchema().load(data)`: field errors stop the load before the
      schema-level rules run (marshmallow skips them on field errors). */
  function LoadSchedule(uuid: Uuid, i: ScheduleInput): (r: LoadResult)
    ensures r.FieldInvalid? <==> FieldErrors(i) != {}
    ensures r.FieldInvalid? ==> r.fields == FieldErrors(i)
    ensures r.LoadedSchedule? <==> FieldErrors(i) == {} && SchemaRules(LoadedData(uuid, i))
    ensures r.LoadedSchedule? ==> r.schedule == LoadedData(uuid, i)
  {
    var errs := FieldErrors(i);
    if errs != {} then FieldInvalid(errs)
    else
      var d := LoadedData(uuid, i);
      match ValidateSchema(d)
      case Pass => LoadedSchedule(d)
      case Fail(msg) => SchemaInvalid(msg)
  }

  /** A schedule the schema loads is one construction, the insert listener and
      the table constraints all accept, and its days pass the expression as
      written. */
  lemma LoadedScheduleIsValid(uuid: Uuid, i: ScheduleInput)
    requires LoadSchedule(uuid, i).LoadedSchedule?
    ensures var s := LoadSchedule(uuid, i).schedule;
            PostInit(s) == Pass && ValidateSchedule(s) == Pass && TableChecks(s)
            && s.allowedDays.Some? && AllowedDaysRegexAsWritten(s.allowedDays.value)
  {
    var s := LoadSchedule(uuid, i).schedule;
    assert s == LoadedData(uuid, i) && SchemaRules(s);
    LoadedFieldsInRange(uuid, i);
    InRangeScheduleIsValid(s);
  }

  /** What the field validators leave in the loaded record. */
  predicate FieldsInRange(s: Schedule)
  {
    && s.scope.Some? && s.frequencyMode.Some?
    && s.allowedDays.Some? && AllowedDaysRegexAsWritten(s.allowedDays.value)
    && s.startHour.Some? && 0 <= s.startHour.value <= 23
    && s.endHour.Some? && 0 <= s.endHour.value <= 23
    && (s.timesPerWeek.Some? ==> 1 <= s.timesPerWeek.value <= 7)
    && (s.minTimesPerDay.Some? ==> s.minTimesPerDay.value >= 1)
    && (s.maxTimesPerDay.Some? ==> s.maxTimesPerDay.value >= 1)
    && (s.intervalMinutes.Some? ==> s.intervalMinutes.value >= 1)
  }

  lemma LoadedFieldsInRange(uuid: Uuid, i: ScheduleInput)
    requires FieldErrors(i) == {}
    ensures FieldsInRange(LoadedData(uuid, i))
  {
    assert FieldValid(i, StartHourField) && FieldValid(i, EndHourField) && FieldValid(i, TimesPerWeekField);
    assert FieldValid(i, MinTimesPerDayField) && FieldValid(i, MaxTimesPerDayField);
    assert FieldValid(i, IntervalMinutesField) && FieldValid(i, AllowedDaysField);
    assert FieldValid(i, ScopeField) && FieldValid(i, FrequencyModeField);
  }

  /** How the engine reads the days of a loaded schedule: `split(',')` gives
      weekday names, except that the last piece is no weekday name exactly
      when the text fails the full-match format, that is when it ends in the
      newline the expression as written lets through. */
  lemma LoadedDaysPieces(uuid: Uuid, i: ScheduleInput)
    requires LoadSchedule(uuid, i).LoadedSchedule?
    ensures i.allowedDays.Given? && LoadSchedule(uuid, i).schedule.allowedDays == Some(i.allowedDays.value)
    ensures var p := Split(i.allowedDays.value);
            (forall j :: 0 <= j < |p| - 1 ==> p[j] in DayNames)
            && (p[|p| - 1] in DayNames <==> AllowedDaysFormat(i.allowedDays.value))
  {
    LoadedScheduleIsValid(uuid, i);
    AsWrittenPieces(i.allowedDays.value);
  }

  /** A schedule whose allowed days are "Mon" and a newline loads, and the
      engine's split then yields a piece the weekday table does not hold. */
  lemma TrailingNewlineLoads(uuid: Uuid)
    ensures var i := ScheduleInput(Given("global"), Absent, Absent, Given("Mon\n"), Given(9), Given(17),
                                   Given("times_per_week"), Given(3), Absent, Absent, Absent, Absent);
            && LoadSchedule(uuid, i).LoadedSchedule?
            && LoadSchedule(uuid, i).schedule.allowedDays == Some("Mon\n")
            && Split("Mon\n") == ["Mon\n"] && "Mon\n" !in DayNames
  {
    var i := ScheduleInput(Given("global"), Absent, Absent, Given("Mon\n"), Given(9), Given(17),
                           Given("times_per_week"), Given(3), Absent, Absent, Absent, Absent);
    TrailingNewlineAccepted();
    GlobalTimesPerWeekLoad();
    forall f ensures FieldValid(i, f) {
    }
    assert FieldErrors(i) == {};
    var d := LoadedData(uuid, i);
    assert d.scope == Some(Global) && d.frequencyMode == Some(TimesPerWeek);
    assert d.timesPerWeek == Some(3) && d.startHour == Some(9) && d.endHour == Some(17);
    assert SchemaRules(d);
  }

  lemma GlobalTimesPerWeekLoad()
    ensures LoadScope(Given("global")) == Some(Global)
    ensures LoadFrequencyMode(Given("times_per_week")) == Some(TimesPerWeek)
  {
    assert ScopeMember(Global).value == "global";
    assert FrequencyModeMember(TimesPerWeek).value == "times_per_week";
  }

  /** Field ranges and the schema rules together are what construction, the
      listener and the table ask for. */
  lemma InRangeScheduleIsValid(s: Schedule)
    requires FieldsInRange(s) && SchemaRules(s)
    ensures PostInit(s) == Pass && ValidateSchedule(s) == Pass && TableChecks(s)
  {
    assert ScheduleComplete(s);
    assert ModeRangesHold(s);
    assert StoredRanges(s);
  }

  /** Times-per-day with a minimum above its maximum is refused by the schema
      with its own message. */
  lemma MinAboveMaxRejected(uuid: Uuid)
    ensures var i := ScheduleInput(Given("global"), Absent, Absent, Given("Mon,Wed"), Given(9), Given(17),
                                   Given("times_per_day"), Absent, Given(5), Given(3), Absent, Absent);
            LoadSchedule(uuid, i) == SchemaInvalid(MinAboveMaxMessage)
  {
    var i := ScheduleInput(Given("global"), Absent, Absent, Given("Mon,Wed"), Given(9), Given(17),
                           Given("times_per_day"), Absent, Given(5), Given(3), Absent, Absent);
    MinAboveMaxFieldsValid(i);
    GlobalTimesPerDayLoad();
    var d := LoadedData(uuid, i);
    assert d.scope == Some(Global) && d.frequencyMode == Some(TimesPerDay);
    assert d.minTimesPerDay == Some(5) && d.maxTimesPerDay == Some(3);
    assert Present(d.minTimesPerDay) && Present(d.maxTimesPerDay);
    assert ValidateSchema(d) == Fail(MinAboveMaxMessage);
    assert LoadSchedule(uuid, i) == SchemaInvalid(MinAboveMaxMessage);
  }

  lemma GlobalTimesPerDayLoad()
    ensures LoadScope(Given("global")) == Some(Global)
    ensures LoadFrequencyMode(Given("times_per_day")) == Some(TimesPerDay)
  {
    assert ScopeMember(Global).value == "global";
    assert FrequencyModeMember(TimesPerDay).value == "times_per_day";
  }

  lemma MinAboveMaxFieldsValid(i: ScheduleInput)
    requires i == ScheduleInput(Given("global"), Absent, Absent, Given("Mon,Wed"), Given(9), Given(17),
                                Given("times_per_day"), Absent, Given(5), Given(3), Absent, Absent)
    ensures FieldErrors(i) == {}
  {
    JoinedDayNamesMatch(["Mon", "Wed"]);
    assert Join(["Mon", "Wed"]) == "Mon,Wed";
    forall f ensures FieldValid(i, f) {
      if f == AllowedDaysField {
        assert AllowedDaysFormat("Mon,Wed");
      }
    }
  }

  /** `ScheduledEventSchema`'s `status` field: absent loads as pending, `null` is
      refused, and text is looked up by value. */
  function LoadStatus(r: Raw<string>): (st: Result<EventStatus>)
    ensures r.Absent? ==> st == Ok(Pending)
    ensures r.JsonNull? ==> st.Err?
    ensures r.Given? ==> (st.Ok? <==> r.value in ["pending", "completed", "ignored"])
    ensures r.Given? && st.Ok? ==> EventStatusMember(st.value).value == r.value
  {
    match r
    case Absent => Ok(Pending)
    case JsonNull => Err("Field may not be null.")
    case Given(t) =>
      match Deserialize(EventStatusEnum, true, Text(t))
      case Loaded(Some(m)) => Ok(EventStatusOf(m).value)
      case _ => Err(t + " is not a valid value for EventStatus")
  }
}
