/** What the engine reads from and writes to the database, behind a session:
    the flash cards, the schedules, the times already taken by events and the
    events added during the run. */
module Repository {
  import opened Common
  import opened Calendar
  import opened ScheduleModel

  /** The flash-card columns the engine uses. */
  datatype FlashCard = FlashCard(uuid: Uuid, categoryUuid: Uuid, active: bool)

  /** `get_flash_cards`: the active cards, restricted to one category when one is given. */
  function ActiveCards(cards: seq<FlashCard>, category: Option<Uuid>): (r: seq<FlashCard>)
    ensures forall c :: c in r <==> c in cards && c.active && (category.Some? ==> c.categoryUuid == category.value)
    ensures |r| <= |cards|
  {
    if cards == [] then []
    else
      var rest := ActiveCards(cards[1..], category);
      if cards[0].active && (category.None? || cards[0].categoryUuid == category.value) then [cards[0]] + rest else rest
  }

  /** `session.get(FlashCard, uuid)`: a card by key, active or not; no key finds nothing. */
  function FindCard(cards: seq<FlashCard>, uuid: Option<Uuid>): (r: Option<FlashCard>)
    ensures r.Some? ==> r.value in cards && uuid == Some(r.value.uuid)
    ensures r.None? ==> uuid.None? || forall c :: c in cards ==> c.uuid != uuid.value
  {
    if uuid.None? || cards == [] then None
    else if cards[0].uuid == uuid.value then Some(cards[0])
    else FindCard(cards[1..], uuid)
  }

  /** The query for schedules whose `active` flag is set. */
  function ActiveSchedules(schedules: seq<Schedule>): (r: seq<Schedule>)
    ensures forall s :: s in r <==> s in schedules && s.active
  {
    if schedules == [] then []
    else
      var rest := ActiveSchedules(schedules[1..]);
      if schedules[0].active then [schedules[0]] + rest else rest
  }

  class Session {
    var cards: seq<FlashCard>
    var schedules: seq<Schedule>
    /** The times `ScheduledEvent.is_time_slot_available` reports as taken. */
    var occupied: set<DateTime>
    /** The events passed to `session.add`, in order. */
    var added: seq<ScheduledEvent>

    constructor(cards0: seq<FlashCard>, schedules0: seq<Schedule>, occupied0: set<DateTime>)
      ensures cards == cards0 && schedules == schedules0 && occupied == occupied0 && added == []
    {
      cards := cards0;
      schedules := schedules0;
      occupied := occupied0;
      added := [];
    }

    /** `session.add(event)`: the event's time is taken from now on. */
    method Add(e: ScheduledEvent)
      requires e.scheduledDatetime.Some?
      modifies this
      ensures added == old(added) + [e]
      ensures occupied == old(occupied) + {e.scheduledDatetime.value}
      ensures cards == old(cards) && schedules == old(schedules)
    {
      added := added + [e];
      occupied := occupied + {e.scheduledDatetime.value};
    }
  }
}
