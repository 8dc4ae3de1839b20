/** The calendar event schema (backend/models/Event.js): required fields,
    length limits after the `trim` setter, the enumerations and the defaults,
    among them `isPublic`, which defaults to false. */
module EventSchema {
  import opened Common
  import opened Text
  import opened Dates

  const EventTypes: seq<string> := ["personal", "professional", "social", "travel", "celebration", "other"]
  const Statuses: seq<string> := ["upcoming", "ongoing", "completed", "cancelled"]
  const Priorities: seq<string> := ["low", "medium", "high"]
  const ReminderChannels: seq<string> := ["email", "notification", "sms"]
  const AttendeeStatuses: seq<string> := ["invited", "accepted", "declined", "maybe"]

  const DefaultType := "personal"
  const DefaultStatus := "upcoming"
  const DefaultPriority := "medium"
  const DefaultColor := "#DC2626"

  const MaxTitleLength := 100
  const MaxDescriptionLength := 1000

  /** Free-text start and end times of day. */
  datatype TimeWindow = TimeWindow(start: Option<string>, end: Option<string>)

  datatype Coordinates = Coordinates(lat: Option<int>, lng: Option<int>)

  datatype Location = Location(name: Option<string>, address: Option<string>, coordinates: Option<Coordinates>)

  /** A reminder; `channel` is the schema's `type` key. */
  datatype Reminder = Reminder(channel: Option<string>, time: Option<Date>, message: Option<string>)

  datatype Attendee = Attendee(name: Option<string>, email: Option<string>, status: Option<string>)

  /** The values handed to `new Event({...})`; None is an undefined value. */
  datatype EventDraft = EventDraft(
    title: Option<string>,
    description: Option<string>,
    date: Option<Date>,
    endDate: Option<Date>,
    time: Option<TimeWindow>,
    location: Option<Location>,
    eventType: Option<string>,
    status: Option<string>,
    priority: Option<string>,
    color: Option<string>,
    media: seq<Id>,
    isPublic: Option<bool>,
    reminders: seq<Reminder>,
    attendees: seq<Attendee>)

  /** An event document as stored. `media` holds references to media documents. */
  datatype Event = Event(
    title: string,
    description: Option<string>,
    date: Date,
    endDate: Option<Date>,
    time: Option<TimeWindow>,
    location: Option<Location>,
    eventType: string,
    status: string,
    priority: string,
    color: string,
    media: seq<Id>,
    isPublic: bool,
    reminders: seq<Reminder>,
    attendees: seq<Attendee>)

  datatype Violation =
    | TitleRequired | TitleTooLong | DescriptionTooLong | DateRequired
    | TypeNotInEnum | StatusNotInEnum | PriorityNotInEnum
    | ReminderChannelNotInEnum(index: nat) | AttendeeStatusNotInEnum(index: nat)

  /** An `enum` validator: an undefined value passes, a given one must be listed. */
  predicate InEnum(s: Option<string>, labels: seq<string>) {
    s.None? || s.value in labels
  }

  /** The validator that fails first on each path of `d`, after setters and
      defaults; lengths are UTF-16 lengths, as `maxlength` compares `.length`. */
  function Violations(d: EventDraft): set<Violation> {
    var title := TrimOpt(d.title);
    var description := TrimOpt(d.description);
    (if title.None? || title.value == "" then {TitleRequired}
     else if Utf16Length(title.value) > MaxTitleLength then {TitleTooLong} else {})
    + (if description.Some? && Utf16Length(description.value) > MaxDescriptionLength then {DescriptionTooLong} else {})
    + (if d.date.None? then {DateRequired} else {})
    + (if !InEnum(d.eventType, EventTypes) then {TypeNotInEnum} else {})
    + (if !InEnum(d.status, Statuses) then {StatusNotInEnum} else {})
    + (if !InEnum(d.priority, Priorities) then {PriorityNotInEnum} else {})
    + (set i | 0 <= i < |d.reminders| && !InEnum(d.reminders[i].channel, ReminderChannels)
               :: ReminderChannelNotInEnum(i))
    + (set i | 0 <= i < |d.attendees| && !InEnum(d.attendees[i].status, AttendeeStatuses)
               :: AttendeeStatusNotInEnum(i))
  }

  /** What every event that passed validation satisfies. */
  predicate ValidEvent(e: Event) {
    && e.title != "" && IsTrimmed(e.title) && Utf16Length(e.title) <= MaxTitleLength
    && (e.description.Some? ==> IsTrimmed(e.description.value) && Utf16Length(e.description.value) <= MaxDescriptionLength)
    && e.eventType in EventTypes
    && e.status in Statuses
    && e.priority in Priorities
    && (forall i :: 0 <= i < |e.reminders| ==> InEnum(e.reminders[i].channel, ReminderChannels))
    && (forall i :: 0 <= i < |e.attendees| ==> InEnum(e.attendees[i].status, AttendeeStatuses))
  }

  /** Construct and validate an event the way `save()` does: setters, then
      defaults (type "personal", status "upcoming", priority "medium", color
      "#DC2626", `isPublic` false), then every validator. */
  function Validate(d: EventDraft): (r: Result<Event, set<Violation>>)
    ensures r.Err? <==> Violations(d) != {}
    ensures r.Err? ==> r.error == Violations(d)
    ensures r.Ok? ==> ValidEvent(r.value)
    ensures r.Ok? ==> && r.value.title == Trim(d.title.value)
                      && r.value.description == TrimOpt(d.description)
                      && r.value.date == d.date.value
                      && r.value.endDate == d.endDate
                      && r.value.time == d.time
                      && r.value.location == d.location
                      && r.value.media == d.media
                      && r.value.reminders == d.reminders
                      && r.value.attendees == d.attendees
                      && r.value.eventType == d.eventType.GetOr(DefaultType)
                      && r.value.status == d.status.GetOr(DefaultStatus)
                      && r.value.priority == d.priority.GetOr(DefaultPriority)
                      && r.value.color == d.color.GetOr(DefaultColor)
                      && r.value.isPublic == d.isPublic.GetOr(false)
  {
    var v := Violations(d);
    if v != {} then Err(v)
    else
      assert TitleRequired !in v && DateRequired !in v;
      assert forall i :: 0 <= i < |d.reminders| ==> ReminderChannelNotInEnum(i) !in v;
      assert forall i :: 0 <= i < |d.attendees| ==> AttendeeStatusNotInEnum(i) !in v;
      Ok(Event(Trim(d.title.value), TrimOpt(d.description), d.date.value, d.endDate, d.time,
               d.location, d.eventType.GetOr(DefaultType), d.status.GetOr(DefaultStatus),
               d.priority.GetOr(DefaultPriority), d.color.GetOr(DefaultColor), d.media,
               d.isPublic.GetOr(false), d.reminders, d.attendees))
  }

  /** The draft that describes a stored event field for field. */
  function DraftOf(e: Event): EventDraft {
    EventDraft(Some(e.title), e.description, Some(e.date), e.endDate, e.time, e.location,
               Some(e.eventType), Some(e.status), Some(e.priority), Some(e.color), e.media,
               Some(e.isPublic), e.reminders, e.attendees)
  }

  /** Validation accepts every valid event unchanged. */
  lemma ValidateValid(e: Event)
    requires ValidEvent(e)
    ensures Validate(DraftOf(e)) == Ok(e)
  {
    TrimOfTrimmed(e.title);
    if e.description.Some? {
      TrimOfTrimmed(e.description.value);
    }
    assert Violations(DraftOf(e)) == {};
  }

  /** A draft that leaves `isPublic` undefined yields a private event. */
  lemma PrivateByDefault(d: EventDraft)
    requires d.isPublic.None?
    ensures Validate(d).Ok? ==> !Validate(d).value.isPublic
  {
  }
}
