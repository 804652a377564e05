/** How the engine reads a stored schedule: its list of days, its window, and
    the conditions a row in the `schedules` table meets. */
module SchedulePolicy {
  import opened Common
  import opened Calendar
  import opened AllowedDays
  import opened ScheduleModel

  /** `schedule.allowed_days.split(',')`, repeated by every engine function. */
  function Days(s: Schedule): (days: seq<string>)
    requires s.allowedDays.Some?
    ensures |days| >= 1
  {
    Split(s.allowedDays.value)
  }

  /** `calculate_minutes_in_schedule_window`. */
  function WindowMinutes(s: Schedule): int
    requires s.startHour.Some? && s.endHour.Some?
  {
    (s.endHour.value - s.startHour.value) * 60
  }

  /** What the slot strategies need: a window of whole hours inside one day, and
      a positive interval for a fixed-interval schedule that has one. */
  predicate SlotReady(s: Schedule)
  {
    && s.startHour.Some? && s.endHour.Some?
    && 0 <= s.startHour.value < s.endHour.value <= 23
    && (s.frequencyMode == Some(FixedInterval) && s.intervalMinutes.Some? ==> s.intervalMinutes.value > 0)
  }

  /** A row of the `schedules` table: what the engine may assume of a
      schedule it reads. A day may be listed more than once. */
  predicate EngineReady(s: Schedule)
  {
    TableChecks(s)
  }

  /** A stored schedule's window is one to twenty-three hours and ends on the
      day it starts. */
  lemma ReadyWindow(s: Schedule)
    requires EngineReady(s)
    ensures SlotReady(s)
    ensures 60 <= WindowMinutes(s) <= 23 * 60
    ensures s.startHour.value * 60 + WindowMinutes(s) == s.endHour.value * 60 < MinutesPerDay
  {
  }
}
