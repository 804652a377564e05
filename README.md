# Flash-card review scheduling, modelled in Dafny

This project models the review scheduler of a flash-card learning
application and proves properties of that model. The application stores
*schedules*. A schedule says which cards to review (every card, one
category, or one card), on which weekdays (`allowed_days`), inside which
window of hours (`start_hour`..`end_hour`) and how often. It has three
frequency modes:

- times per week;
- a fixed or random number of times per day;
- one review every `interval_minutes`.

For each active schedule the engine in core/scheduling.py does this:

1. It works out the week's total number of reviews.
2. It picks that many cards, with repeats allowed.
3. It spreads the total over the allowed weekdays.
4. It finds the next date of each weekday.
5. On each date it looks for free minutes inside the window and creates one
   `ScheduledEvent` per card. A fixed-interval schedule scans an arithmetic
   progression of minutes; the other modes make three random tries per card.

A day stops at the first card that finds no free minute. A cursor cycles
through the picked cards and advances only by the events actually created.

The model also covers the validators that decide which schedules exist:

- the presence checks in the `Schedule` and `ScheduledEvent` constructors;
- the insert/update listener and the table's CHECK constraints
  (database/models/schedule.py);
- the marshmallow load schema with its `allowed_days` regular expression
  (database/models/schedule_schema.py);
- the enum field codec (database/models/fields.py);
- the settings-entry validator (database/models/settings_schema.py);
- the schema-version compatibility rule (core/serialization/schema_version.py).

Modules (one file each):

- `Common` (common.dfy): optional values, results, Python's `//` and `%`, sums.
- `Calendar` (calendar.dfy): dates as ordinals, datetimes as minutes, `weekday()`, `combine`.
- `AllowedDays` (allowed_days.dfy): `split(',')`, its inverse, and the `allowed_days` format.
- `Dicts` (dict.dfy): insertion-ordered Python dictionaries.
- `Randomness` (random.dfy): `randint`, `choice`, `sample` and `choices` as reads from an arbitrary stream of draws.
- `EnumFields` (fields.dfy): `EnumField._serialize` and `_deserialize`.
- `ScheduleModel` (schedule.dfy): the enums, the records, their construction checks, the listener and the CHECK constraints.
- `ScheduleSchema` (schedule_schema.dfy): loading a schedule through the schema, and the event status field.
- `SchemaVersion` (schema_version.dfy): the pre-load version check and the post-dump stamp.
- `SettingsSchema` (settings_schema.dfy): the settings-entry check.
- `SchedulePolicy` (policy.dfy): what the engine reads from a stored schedule.
- `Repository` (repository.dfy): the session. It holds the cards, the schedules, the occupied times and the added events.
- `Totals` (totals.dfy): `calculate_total_events_and_daily_counts`.
- `Distribution` (distribution.dfy): the three `distribute_*` functions and `determine_weekly_event_distribution`.
- `Selection` (selection.dfy): `select_weighted_cards`.
- `Dates` (dates.dfy): `get_days_until` and `get_next_occurrence_dates`.
- `Slots` (slots.dfy): the two slot strategies and `schedule_events_for_day`.
- `Week` (week.dfy): the specification of the loop over the days in `schedule_events_from_distribution`.
- `Orchestration` (orchestration.dfy): `schedule_events_from_distribution`, `generate_schedule_events` and `generate_events_from_schedules`.

How the model handles what it cannot see:

- **Randomness.** Every random call is one read from a stream `nat -> int`
  at the generator's position. A value outside the requested range stands
  for the lowest value. So every sequence of in-range draws is the reading
  of some stream, and a property proved for all streams holds for every
  run. Methods that draw state the position they leave the generator at.
- **Clock.** `datetime.date.today()` is a parameter, `today`.
- **Database.** The database is a `Session` object. It holds:
  - the card and schedule rows;
  - the set of times `ScheduledEvent.is_time_slot_available` reports as
    taken;
  - the list of events passed to `session.add`, which also marks their
    times as taken.

The documentation and the code disagree in one place. The docstring of
`get_days_until` says it returns 0..6, but the code adds 7 whenever the
target weekday is today or earlier in the week, so it returns 1..7. The
model follows the code (`Dates.GetDaysUntil`).

The schema accepts a day listed twice, as in `"Mon,Mon"`
(`AllowedDays.DuplicateDaysAccepted`), and the engine's dictionaries then
keep one entry for that day. The model therefore allows repeated days
(`SchedulePolicy.EngineReady` does not exclude them). With repeated days a
distribution's counts add up to at most the week's total. They add up to it
exactly when every day is listed once.

## Model

| member | source | states |
|---|---|---|
| Common.FloorDiv | core/scheduling.py:611 | Python's `//` rounds toward minus infinity: for a positive divisor `b`, `b*q <= a < b*q + b`, and the mirror image for a negative one |
| Common.Wrap | core/scheduling.py:554 | the reduced cursor lies in `0..n-1` |
| Common.WrapIsMod | core/scheduling.py:554 | the cursor reduction equals `x % n` for every non-negative `x` |
| Common.WrapAddShift | core/scheduling.py:554 | reducing the cursor after each day gives the same cursor as reducing it once at the end |
| Calendar.Weekday | core/scheduling.py:330 | `date.weekday()` is in `0..6` |
| Calendar.CombineWithinDay | core/scheduling.py:351-359 | `combine(date, time(hour)) + timedelta(minutes=m)` whose minute stays inside the day lies on that date, at minute `hour*60+m` |
| AllowedDays.DayIndex | core/scheduling.py:324-327 | the weekday table lookup succeeds exactly for the seven abbreviations and returns the index of the name |
| AllowedDays.SplitJoin | core/scheduling.py:96 | `split(',')` of pieces joined with commas, none holding a comma, gives the pieces back |
| AllowedDays.FormatSplitsIntoDayNames | database/models/schedule_schema.py:52-58 | a well-formed `allowed_days` splits into weekday abbreviations only, and joining them gives the text back |
| AllowedDays.JoinedDayNamesMatch | database/models/schedule_schema.py:52-58 | conversely, any non-empty list of abbreviations joins to a well-formed text that splits back into that list |
| AllowedDays.DuplicateDaysAccepted | database/models/schedule_schema.py:54-55 | `"Mon,Mon"` is well formed and splits into two equal days |
| AllowedDays.FullNamesRejected | database/models/schedule_schema.py:54-57 | `"Monday,Wednesday"` matches neither the full-match format nor the expression as written |
| AllowedDays.SplitSnoc | core/scheduling.py:96 | appending a character other than a comma extends the last piece of `split(',')` |
| AllowedDays.AsWrittenBeyondFormat | database/models/schedule_schema.py:54-55 | the expression as written accepts, beyond the full-match format, only a well-formed text followed by one newline; its last piece is then no weekday name, and every other piece is one |
| AllowedDays.AsWrittenPieces | database/models/schedule_schema.py:54-55 | for a text the expression as written accepts, every piece but the last is a weekday name, and the last one is too exactly when the text meets the full-match format |
| AllowedDays.TrailingNewlineAccepted | database/models/schedule_schema.py:54-55 | the expression as written accepts `"Mon\n"`; the full-match format refuses it; its split piece `"Mon\n"` is not in the weekday table |
| Dicts.Put | core/scheduling.py:484-488 | `d[k] = v` updates the value; a new key goes last and an existing key keeps its place |
| Dicts.FromPairs | core/scheduling.py:105 | `dict(zip(ks, vs))` has exactly the keys `ks` |
| Dicts.FromDistinctPairs | core/scheduling.py:105 | for distinct keys, the zipped dictionary keeps the keys in order and gives key `i` the value `i` |
| Dicts.PutTotalAtMost | core/scheduling.py:141-155 | setting a key of a dictionary with no negative value to a non-negative value raises its sum by at most that value |
| Dicts.FromPairsTotalAtMost | core/scheduling.py:105 | a zip of non-negative values sums to at most the values' sum: a repeated key keeps only its last value |
| Dicts.ConstantTotalAtMost | core/scheduling.py:183 | `{day: c for day in days}` with `c >= 0` sums to at most `c * len(days)` |
| Dicts.FromPairsValueIn | core/scheduling.py:105 | every value of a zipped dictionary is one of the zipped values |
| Dicts.Constant | core/scheduling.py:183 | `{day: v for day in days}` has exactly those keys, all with value `v`, in order when the days are distinct |
| Randomness.Between | core/scheduling.py:393 | `random.randint(lo, hi)` lies in `lo..hi` |
| Randomness.SampleOfDistinct | core/scheduling.py:140 | a sample without replacement from distinct days is distinct and drawn from the days |
| Randomness.Rng.RandInt | core/scheduling.py:356 | one draw in `lo..hi`, advancing the generator by one |
| Randomness.Rng.Choice | core/scheduling.py:154 | `random.choice` returns the population element at the drawn index, advancing by one |
| Randomness.Rng.Sample | core/scheduling.py:140 | `random.sample(population, k)` returns `k` elements drawn without replacement (a sub-multiset of the population), advancing by `k` |
| Randomness.Rng.Choices | core/scheduling.py:224-228 | `random.choices(range(n), k=k)` returns `max(k, 0)` indices below `n`, index `j` being draw `j` |
| Repository.ActiveCards | core/scheduling.py:30-55 | exactly the active cards, restricted to the category when one is given |
| Repository.FindCard | core/scheduling.py:692 | `session.get(FlashCard, uuid)` finds the card with that key (active or not), and finds nothing for a missing key or no key |
| Repository.ActiveSchedules | core/scheduling.py:732 | exactly the schedules whose `active` flag is set |
| Repository.Session.Add | core/scheduling.py:458 | `session.add` appends the event and marks its time taken, changing nothing else |
| EnumFields.Serialize | database/models/fields.py:24-48 | `None` stays `None`; a string passes through; an enum member of a `str`-derived enum is itself a string and passes through unchanged; otherwise a member gives its value (by value) or its name; anything else gives its `str()` |
| EnumFields.ValidValues | database/models/fields.py:76 | the error lists every member's value (by value) or name, in member order |
| EnumFields.FindByValue | database/models/fields.py:73 | `Enum(value)` finds a member with that value, or there is none |
| EnumFields.FindByName | database/models/fields.py:74 | `getattr(Enum, name)` finds a member with that name, or there is none |
| EnumFields.Upper | database/models/fields.py:74 | `str.upper()` on ASCII: the result has the text's length and no lower-case ASCII letter, and a text with no lower-case ASCII letter is unchanged |
| EnumFields.Deserialize | database/models/fields.py:50-80 | `None` gives `None` and a member gives itself; text loads exactly when some member has that value (by value) or the upper-cased text as its name; otherwise the error lists the valid values |
| EnumFields.RoundTripByValue | database/models/fields.py:36-73 | for `@unique` enums, serializing a member by value and loading the text back gives the member |
| EnumFields.RoundTripByName | database/models/fields.py:36-74 | by name, the round trip holds for members whose names are upper case |
| ScheduleModel.ScopeOf | database/models/schedule.py:20-26 | the scope enum members and the scopes correspond one to one |
| ScheduleModel.FrequencyModeOf | database/models/schedule.py:29-35 | the frequency-mode enum members and the modes correspond one to one |
| ScheduleModel.EventStatusOf | database/models/schedule.py:243-249 | the status enum members and the statuses correspond one to one |
| ScheduleModel.EnumsRoundTrip | database/models/schedule.py:20-35 | all three enums have unique values and names, and every member loads back from its serialized value |
| ScheduleModel.PostInit | database/models/schedule.py:165-199 | construction succeeds exactly when the scope, its target uuid, allowed days, both hours, the mode and the active mode's own fields are present; a missing scope or scope target fails with its own message |
| ScheduleModel.ValidateSchedule | database/models/schedule.py:214-240 | the listener passes exactly when the active mode's field is present and in range: `1 <= times_per_week <= 7`, `max >= min`, `interval > 0`; out-of-range values fail with the listener's messages |
| ScheduleModel.TableChecks | database/models/schedule.py:105-163 | the CHECK constraints under SQL's three-valued logic (NULL never violates) hold exactly when both hours are in `0..23`, `end > start`, a present `times_per_week` is `1..7`, times-per-day has `min >= 1` and `max >= min` when present, and a present interval is positive |
| ScheduleModel.AcceptedScheduleInRange | database/models/schedule.py:131-240 | a schedule that construction, the listener and the table all accept has every field of its mode present and in range |
| ScheduleModel.ConstructionChecksPresenceOnly | database/models/schedule.py:165-199 | a start hour of 24 with eight times a week passes construction; the listener and the table both refuse it |
| ScheduleModel.EventPostInit | database/models/schedule.py:293-306 | event construction succeeds exactly when all four fields are present, and the first missing one names itself |
| ScheduleSchema.LoadScope | database/models/schedule_schema.py:51 | the scope loads exactly from `"global"`, `"category"` or `"card"`, as the member with that value |
| ScheduleSchema.LoadFrequencyMode | database/models/schedule_schema.py:67 | the mode loads exactly from its three values |
| ScheduleSchema.FieldErrors | database/models/schedule_schema.py:45-89 | the fields reported are exactly those whose requirement (required, range, the `allowed_days` expression as written, null allowed) fails |
| ScheduleSchema.ValidateSchema | database/models/schedule_schema.py:91-125 | the schema-level check passes exactly when the scope target, the active mode's truthy fields, `min <= max` and `start < end` all hold; min above max and a reversed window fail with their messages |
| ScheduleSchema.LoadedData | database/models/schedule_schema.py:45-89 | the loaded record carries the loaded scope and mode; `active` defaults to true |
| ScheduleSchema.LoadSchedule | database/models/schedule_schema.py:16-125 | field errors are reported all together and stop the load; otherwise the load succeeds exactly when the schema-level rules hold, with the loaded record |
| ScheduleSchema.LoadedScheduleIsValid | database/models/schedule_schema.py:50-125 | every schedule the schema loads passes construction, the listener and the table constraints, and its allowed days pass the expression as written |
| ScheduleSchema.LoadedFieldsInRange | database/models/schedule_schema.py:50-89 | with no field errors, every loaded field is in its validator's range |
| ScheduleSchema.LoadedDaysPieces | database/models/schedule_schema.py:54-55 | the engine's split of a loaded schedule's allowed days gives weekday names, except the last piece, which is no weekday name exactly when the text fails the full-match format |
| ScheduleSchema.TrailingNewlineLoads | database/models/schedule_schema.py:45-125 | a global times-per-week input whose allowed days are `"Mon\n"` loads, and the engine's split of it is `["Mon\n"]`, which is no weekday name |
| ScheduleSchema.InRangeScheduleIsValid | database/models/schedule_schema.py:102-125 | in-range fields plus the schema rules imply construction, the listener and the table all accept |
| ScheduleSchema.MinAboveMaxRejected | database/models/schedule_schema.py:113-119 | a global times-per-day input with min 5 and max 3 is refused with the min-above-max message |
| ScheduleSchema.LoadStatus | database/models/schedule_schema.py:159 | a missing status loads as pending, `null` is refused, and text loads exactly from the three status values |
| SchemaVersion.Compare | core/serialization/schema_version.py:38-54 | compatible exactly when the majors are equal and the incoming minor is not greater; newer-major, older-major and newer-minor exactly in their cases |
| SchemaVersion.PatchIgnored | core/serialization/schema_version.py:38-54 | the patch number never changes the verdict |
| SchemaVersion.ValidateSchemaVersion | core/serialization/schema_version.py:17-56 | a missing or falsy version passes the data unchanged; any accepted data is returned unchanged; acceptance is exactly compatibility; newer and older versions are refused with their messages |
| SchemaVersion.DumpedData.AddSchemaVersion | core/serialization/schema_version.py:58-70 | the dump gains `schema_version = "1.0.0"` and every other key keeps its value |
| SchemaVersion.StampedDataLoads | core/serialization/schema_version.py:31-70 | data stamped by a dump passes the version check of a load |
| SchemaVersion.VersionExamples | core/serialization/schema_version.py:38-54 | 1.0.7 is compatible; 1.1.0 and 2.0.0 are newer; 0.9.0 is older |
| SettingsSchema.StripLeft | database/models/settings_schema.py:54 | `lstrip()` removes exactly the leading whitespace |
| SettingsSchema.StripRight | database/models/settings_schema.py:54 | `rstrip()` removes exactly the trailing whitespace |
| SettingsSchema.Strip | database/models/settings_schema.py:54 | `strip()` is empty exactly when the key is all whitespace |
| SettingsSchema.ValidateSettings | database/models/settings_schema.py:41-61 | an entry passes exactly when the key has a non-space character, is at most 100 characters and the value is a non-empty dictionary; each failure has its own message, in the source's order |
| SettingsSchema.SettingsExamples | database/models/settings_schema.py:53-61 | a 100-letter key passes, 101 letters fail, a blank key and an empty value fail with their messages |
| SchedulePolicy.ReadyWindow | core/scheduling.py:58-68 | a stored schedule's window is 60 to 1380 minutes and ends inside the day it starts |
| Totals.DailyDraws | core/scheduling.py:601 | one `randint(min, max)` per allowed day, each in range |
| Totals.TotalsOf | core/scheduling.py:559-619 | times-per-week gives `times_per_week`; times-per-day with `min == max` gives `min * n`; a range draws `n` daily counts in `min..max` whose sum is the total; fixed-interval gives `(window // interval) * n`; each missing field, a zero interval, a reversed range and an unknown mode raise; daily counts exist only for a range |
| Totals.CalculateTotalEventsAndDailyCounts | core/scheduling.py:559-619 | computes `TotalsOf` and consumes one draw per day exactly in the range case |
| Totals.DrawDailyCounts | core/scheduling.py:601 | the list comprehension of draws is `DailyDraws` |
| Totals.StoredTotalsDefined | core/scheduling.py:583-606 | for a stored schedule, totals are defined exactly when the active mode's fields are present |
| Totals.StoredTotalsPositive | core/scheduling.py:583-612 | for a stored schedule, the total is non-negative, at least one for the non-interval modes, and every daily draw is at least one |
| Totals.DailyTotalsPositive | core/scheduling.py:588-601 | a stored times-per-day schedule asks for at least one event, and each daily draw is at least one |
| Totals.IntervalTotalsNonNegative | core/scheduling.py:604-612 | a stored fixed-interval schedule's total is non-negative and has no daily list |
| Totals.ConstructedScheduleHasTotals | core/scheduling.py:583-606 | a stored schedule that passed construction never raises in the totals |
| Distribution.DistributeOrderedOccurrences | core/scheduling.py:71-105 | succeeds exactly when the list has one count per allowed day, with the length-mismatch message otherwise; the keys are the allowed days |
| Distribution.OrderedOccurrencesInOrder | core/scheduling.py:96-105 | for distinct days, day `i` gets count `i`, in order, and the values sum to the list's sum |
| Distribution.OrderedOccurrencesExample | core/scheduling.py:86-89 | `[2,3,1]` over `Mon,Wed,Fri` gives exactly `{Mon: 2, Wed: 3, Fri: 1}`; a list of two counts fails |
| Distribution.DistributeFixedDailyOccurrences | core/scheduling.py:160-185 | every allowed day gets the same count, keys in order for distinct days |
| Distribution.FixedDailyTotal | core/scheduling.py:183 | for distinct days, the fixed distribution sums to `count * n` |
| Distribution.DistributeOccurrences | core/scheduling.py:108-157 | a negative total makes `random.sample` raise; otherwise the keys are the allowed days; with `total <= n` every day gets 0 or 1 and exactly `total` days get 1 (for distinct days); with `total > n` each day gets one plus the times it was drawn, so at least one; the values sum to at most `total`, and to exactly `total` for distinct days; the generator never moves back |
| Distribution.MarkSampled | core/scheduling.py:135-143 | exactly the sampled days get 1, the rest 0; the sum is at most the sample size, and equal to it for distinct days |
| Distribution.MarkAll | core/scheduling.py:147-148 | every day gets 1; the sum is at most `n`, and equal to it for distinct days |
| Distribution.SpreadRemaining | core/scheduling.py:151-155 | after `remaining` choices each day holds one plus the times it was chosen; the sum is at most `n + remaining`, and equal to it for distinct days |
| Distribution.SpreadOne | core/scheduling.py:154-155 | one choice adds one to the chosen day and keeps the count of every other day |
| Distribution.OrderedTotals | core/scheduling.py:105 | the zipped dict of a daily list sums to the list's sum for distinct days, and, when no count is negative, to at most that sum with no negative value even when a day repeats |
| Distribution.FixedTotals | core/scheduling.py:183 | giving every day `total // n` adds up to that count times `n` for distinct days, and to at most that with no negative value for a total that is not negative |
| Distribution.DetermineWeeklyEventDistribution | core/scheduling.py:622-657 | it raises exactly for a negative times-per-week total or a daily list of the wrong length; the keys are the allowed days and, for distinct days, the counts add up to the total (rounded down to a multiple of `n` when every day gets `total // n`); only times-per-week draws, and the generator never moves back; for non-negative totals and daily counts no count is negative and, even with repeated days, the counts add up to at most that total |
| Distribution.DistributionKeepsTotal | core/scheduling.py:583-655 | for a stored schedule's totals the rounding loses nothing: the total the distribution is built for (`DistributedTotal`) is the computed total, and a daily list has one count per listed day |
| Selection.Picks | core/scheduling.py:224-231 | `max(count, 0)` picks, pick `i` being the card at draw `i`, each a member of the cards |
| Selection.SelectWeightedCards | core/scheduling.py:188-231 | no cards give `[]` without drawing; otherwise the result is the picks of `count` draws, repeats allowed |
| Dates.GetDaysUntil | core/scheduling.py:314-336 | an unknown name raises `KeyError`; otherwise the result is in `1..7`, lands on the named weekday, and is 7 exactly when that weekday is today's |
| Dates.DaysUntilIsNext | core/scheduling.py:314-336 | no earlier day in between falls on the named weekday |
| Dates.NextDates | core/scheduling.py:468-490 | the dates map has exactly the distribution's keys |
| Dates.GetNextOccurrenceDates | core/scheduling.py:468-490 | succeeds exactly when every key is a weekday name, otherwise fails with the `KeyError` of the first key that is not one, every key before it being a weekday name; keeps the distribution's keys in order, each mapped to `today` plus its days until |
| Dates.NextDatesDistinct | core/scheduling.py:484-488 | distinct weekday names get distinct dates, all within the coming week |
| Slots.StoredScheduleStrategyReady | core/scheduling.py:351-398 | a stored schedule has a start hour `time()` accepts, a positive interval, and a non-empty window |
| Slots.NewEvent | core/scheduling.py:363-368 | the created event passes event construction: it is for this schedule and card, at that time, pending |
| Slots.FixedScan | core/scheduling.py:358-375 | a found minute is free, below the window, at or after the start, and on the grid `start + k*interval`; with no interval only the start is tried |
| Slots.FixedScanFirstFree | core/scheduling.py:358-375 | every grid minute before the one found, or every grid minute in the window when none is found, is taken: the scan returns the first free one |
| Slots.FixedAttempt | core/scheduling.py:356-377 | one draw of the start in `5..25`, and a found minute at or after it |
| Slots.RandomTries | core/scheduling.py:392-409 | at most three draws, each in `0..window-1`; a found minute is the last draw and is free; a failure uses all three draws |
| Slots.RandomTriesExhausted | core/scheduling.py:392-409 | when no slot is found, every one of the tried minutes was taken |
| Slots.SlotAttempt | core/scheduling.py:437-440 | the strategy chosen by mode finds, if anything, a free minute inside the window, using one to three draws |
| Slots.ScheduleFixedIntervalEvent | core/scheduling.py:339-377 | returns the event at the minute `FixedAttempt` finds, or `None`, advancing the generator by one |
| Slots.ScheduleRandomTimeEvent | core/scheduling.py:379-409 | returns the event at the minute the three tries find, or `None`, advancing as they do |
| Slots.DaySpec | core/scheduling.py:412-465 | a day creates at most one event per card and never moves the generator back |
| Slots.DayEventsFollowCards | core/scheduling.py:445-459 | event `i` is for card `i` of the day, for this schedule, pending and timed: the events cover a prefix of the cards |
| Slots.DayStep | core/scheduling.py:445-463 | the first card either fails and ends the day, or is placed at its free minute and the rest of the day follows with that time taken |
| Slots.DayTimesFree | core/scheduling.py:445-463 | every time the day takes was free before the day and lies in the window |
| Slots.DayTimesDistinct | core/scheduling.py:445-463 | no two events of a day share a time |
| Slots.DayTakesItsTimes | core/scheduling.py:456-458 | after the day, the taken times are the old ones plus exactly the events' times |
| Slots.SlotInWindow | core/scheduling.py:395-398 | a minute of the window lies on the target date between `start_hour` and `end_hour` |
| Slots.DayStopsAtFailure | core/scheduling.py:460-463 | a day that places fewer events than cards stopped at the first card whose search failed, and the later cards were never tried |
| Slots.PlaceCard | core/scheduling.py:445-463 | one card: the strategy's attempt, and on success the event is returned, added to the session, and its time taken; on failure nothing is added |
| Slots.DayAdvance | core/scheduling.py:445-463 | the loop over the day's cards, one card further on, still reaches the day's result |
| Slots.ScheduleEventsForDay | core/scheduling.py:412-465 | returns exactly `DaySpec`'s events with `count == len(events)`, adds exactly them to the session, and leaves the taken times and the generator where `DaySpec` says; no cards give `([], 0)` |
| Week.DayOfPlans | core/scheduling.py:434-465 | the day planner makes event `i` for card `i` and takes only free times |
| Week.DayTimesFreeTaken | core/scheduling.py:445-463 | the day takes times that were free, keeps them taken, and gives no two events one time |
| Week.DayCards | core/scheduling.py:536-539 | a day with `count` events gets `count` cards |
| Week.DayCardsAt | core/scheduling.py:536-539 | the day's card `i` is `flash_cards[(cursor + i) % len]` |
| Week.WeekSpec | core/scheduling.py:523-554 | the cursor always stays in `0..len-1` |
| Week.WeekStep | core/scheduling.py:528-554 | a day with a count of zero or less is skipped and leaves the cursor and the state alone; any other day's events come first and the cursor moves past them |
| Week.FirstDay | core/scheduling.py:528-554 | one day's contribution keeps the cursor in `0..len-1` |
| Week.WeekSplit | core/scheduling.py:528-554 | a week is its first day followed by the rest, started where that day left off |
| Week.WeekAdvance | core/scheduling.py:528-554 | the loop over the days, one day further on, still reaches the week's result |
| Week.WeekCursor | core/scheduling.py:553-554 | the final cursor is the starting cursor plus the number of events actually created, modulo the number of cards |
| Week.DayOfPlansForward | core/scheduling.py:434-465 | the day planner never moves the random generator back |
| Week.WeekForward | core/scheduling.py:528-554 | a week of such a planner leaves the generator no earlier than it found it |
| Week.WeekEventsBound | core/scheduling.py:528-554 | the week creates at most as many events as its positive counts add up to |
| Week.WeekCardsInTurn | core/scheduling.py:536-554 | event `k` of the week is for the card `k` places after the starting cursor, round the list |
| Week.WeekTimesFree | core/scheduling.py:528-554 | every event of the week takes a time that was free when the week began, and no two share a time |
| Orchestration.CardsForDay | core/scheduling.py:536-539 | the day's cards are `DayCards` |
| Orchestration.FirstBusyDay | core/scheduling.py:528-539 | with no cards, the first day with a positive count (if any) is where `% 0` raises |
| Orchestration.ScheduleWeek | core/scheduling.py:523-554 | the loop over the days returns the events `WeekSpec` gives, adds exactly them to the session, and leaves the taken times and the generator where `WeekSpec` says |
| Orchestration.ScheduleEventsFromDistribution | core/scheduling.py:493-556 | succeeds exactly when every day name is known and, with no cards, no count is positive; the dates come first, so failures change nothing; on success the events are the week's, from cursor 0, and are all added to the session; the generator never moves back |
| Orchestration.Candidates | core/scheduling.py:686-694 | card scope gives at most the one card with that key; other scopes give only active cards, of the category for category scope |
| Orchestration.GenerateScheduleEvents | core/scheduling.py:660-715 | totals failures come first and are raised even without cards; otherwise it fails exactly for an unknown day name when there are cards; it returns `total` picked candidates (none without candidates); the session only gains events, at most one per picked card; repeated days are allowed; the generator never moves back, and on success it has moved past the schedule's daily draws and its picks (`Drawn`) |
| Orchestration.GenerateForSchedule | core/scheduling.py:738-740 | one call of `generate_schedule_events` for schedule `i`: it raises exactly when a field of the mode is missing or, with candidates, a day name is unknown; otherwise it extends the run of the earlier schedules (`Run`) by this one, started at the generator position it was reached with, and added at most as many events as it picked; the generator never moves back |
| Orchestration.RunStep | core/scheduling.py:738-740 | a schedule that starts where the run stands and whose draws end no later than the next position extends the run |
| Orchestration.RunLater | core/scheduling.py:738-742 | a run stays a run as the generator moves on |
| Orchestration.RunSchedules | core/scheduling.py:738-742 | the loop over the schedules: they run in turn (`Run`), it raises exactly at the first schedule that fails, and otherwise returns the sum of the picks; the generator never moves back |
| Orchestration.GenerateEventsFromSchedules | core/scheduling.py:718-742 | no active schedules give 0; schedule `i` in turn picked `total` of its candidates (none without candidates) with the generator at `positions[i]`: the first schedule at the generator's starting position, each later one no earlier than where the one before it finished its daily draws and picks, and the generator ends no earlier than the last one's (`Run`); the run raises exactly when a schedule fails, at the first one that does, and otherwise returns the sum of the picks; events are only appended, at most one per picked card |

## Left out

- Persistence is abstract. The card query, `session.get` and the active-schedule query become functions over the session's lists. Flush visibility and ORM instance construction are database semantics and are not modelled.
- `ScheduledEvent.is_time_slot_available` is not part of this model (it is called but not defined in these files). A time counts as free when it is not in the session's set of taken times. `session.add` takes the event's time.
- `datetime.date.today()` is the parameter `today`. Logging calls are left out.
- The events' `uuid`, `version`, `created_at` and `updated_at` fields, and `update_timestamp`, are left out (clock I/O and database defaults).
- `create_scheduled_event` is left out. It is the older placement routine, and nothing in the engine calls it.
- `calculate_weight` and its floating-point powers are not part of this model.
- Selection.SelectWeightedCards: the weights do not bias the draws, so the contract says which cards can be picked, not how likely they are. Nothing statistical is claimed anywhere.
- EnumFields.Upper: upper-cases the ASCII letters only. Python's `str.upper()` follows Unicode case mapping, so `'ß'` becomes `"SS"` and `'ı'` becomes `'I'`; this is not modelled.
- EnumFields.Deserialize: by name, the text is upper-cased by `EnumFields.Upper`, so a name reached only through a non-ASCII case mapping is not found. By value the contract is exact, and every `EnumField` of the schedule schemas loads by value.
- Randomness.Rng.Sample: models the pool algorithm CPython uses for populations of at most 21 elements. The contract states the size and that the elements are drawn without replacement. It does not state which elements.
- Distribution.DistributeOccurrences, Distribution.DetermineWeeklyEventDistribution, Orchestration.GenerateScheduleEvents and Orchestration.GenerateEventsFromSchedules: require at most 21 allowed days. Up to that population size CPython's `random.sample` always uses the pool algorithm `Sample` models; for larger populations it can switch to a set-based algorithm, which is not modelled.
- Slots.ScheduleFixedIntervalEvent: requires a positive interval when one is present. With a zero interval the source's scan never ends when its first minute is taken, and this model does not express non-termination. With a negative interval the scan stays below the window's end and walks back to earlier minutes until one is free, so it can return an event before the window's start, possibly on an earlier date. Neither case is modelled. Every stored schedule has a positive interval.
- Slots.ScheduleRandomTimeEvent: requires a non-empty window and a start hour `time()` accepts. With an empty window `randint(0, -1)` raises instead. Every stored schedule's window is at least an hour.
- Orchestration.ScheduleEventsFromDistribution: requires those same two strategy preconditions (`Slots.StrategyReady`).
- Orchestration.GenerateEventsFromSchedules: the generator position each schedule starts at is bounded from below rather than given exactly: it lies at or past the end of the earlier schedule's daily draws and picks. How many more draws a schedule takes depends on which days `random.sample` picked and on the slot search, and `Sample` does not say which days it picks.
- Orchestration.GenerateScheduleEvents: bounds the events it adds rather than listing them. The source discards them; `ScheduleEventsFromDistribution` states them exactly.
- Orchestration.ScheduleWeek: stated against a day planner that is proved equal to `Slots.DaySpec` for the schedule, window and stream (`Week.PlansAs`, `Week.DayOfPlansAs`). This keeps the per-day plan folded where it is only passed along.
- `session.get(FlashCard, None)` for a card-scope schedule without a card uuid is read as finding nothing.
- The enum columns are stored as SQLAlchemy `Enum` values. Whether the mode-conditional CHECKs compare the stored text with the lower-case values as written depends on that library. The model reads them as the source intends.
- Marshmallow's own field coercions are not modelled: numeric strings to integers, booleans, UUID parsing, unknown-field handling and the `deleted` field. Integer fields take integers or `null`.
- `packaging.version.parse` is the parameter `parse`: parsing version text is not modelled.
- The rest of the repository is not part of this model: serialization formats, migrations, database setup, configuration and the user interface.

## Findings

| source | as written | input that shows it | evidently intended | confidence | as-written member | corrected member |
|---|---|---|---|---|---|---|
| database/models/schedule_schema.py:54-55 | the `allowed_days` expression ends in `$`, which `re.match` also accepts just before one final newline | `"Mon\n"` passes the validator; the engine's `split(',')` then yields `"Mon\n"`, which the weekday table of `get_days_until` does not hold, so scheduling raises `KeyError` | only comma-separated abbreviations with nothing after them, as the error text says (`\Z` or `fullmatch`) | medium, not executed | AllowedDays.AllowedDaysRegexAsWritten, AllowedDays.TrailingNewlineAccepted, ScheduleSchema.TrailingNewlineLoads | AllowedDays.AllowedDaysFormat, AllowedDays.FormatSplitsIntoDayNames |

The schema load follows the expression as written (`ScheduleSchema.FieldValid`). So `ScheduleSchema.TrailingNewlineLoads` shows the whole path: the input loads, and the engine then meets `"Mon\n"` as an unknown day name, which is its `KeyError` (`Dates.GetNextOccurrenceDates`). The intended full-match format is `AllowedDays.AllowedDaysFormat`. `ScheduleSchema.LoadedDaysPieces` shows that the two readings differ only in that final piece.
