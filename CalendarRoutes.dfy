/** The calendar routes (backend/routes/calendar.js): the filtered list, the
    month view, get, create with its defaults, the truthy-field update,
    delete, and the upcoming-events list over a store of event documents. */
module CalendarRoutes {
  import opened Common
  import opened Text
  import opened Seqs
  import opened Store
  import opened Dates
  import opened EventSchema

  datatype EventError =
    | NotFound       // 404
    | RequestFailed  // 500: casting, validation or the database failed

  function Status(e: EventError): (s: int)
    ensures s == 404 <==> e == NotFound
    ensures s == 500 <==> e == RequestFailed
  {
    match e
    case NotFound => 404
    case RequestFailed => 500
  }

  /** JavaScript truthiness of an optional string: present and not empty. */
  predicate Truthy(s: Option<string>) {
    s.Some? && |s.value| > 0
  }

  /** `s || fallback` on an optional string. */
  function OrElse(s: Option<string>, fallback: string): (r: string)
    ensures Truthy(s) ==> r == s.value
    ensures !Truthy(s) ==> r == fallback
  {
    if Truthy(s) then s.value else fallback
  }

  /** The query of `GET /calendar`. Dates are the parsed `startDate` and
      `endDate`; `month` and `year` are the numbers of non-empty parameters;
      "" is an absent `type` or `status`. */
  datatype ListParams = ListParams(startDate: Option<Date>, endDate: Option<Date>,
                                   eventType: string, status: string,
                                   month: Option<int>, year: Option<int>)

  /** The query object the list handler builds; `range` bounds the event's
      instant, both ends included. */
  datatype EventQuery = EventQuery(isPublic: bool, range: Option<Window>,
                                   eventType: Option<string>, status: Option<string>)
  {
    predicate Matches(e: Event) {
      && e.isPublic == isPublic
      && (range.Some? ==> range.value.Contains(Instant(e.date)))
      && (eventType.Some? ==> e.eventType == eventType.value)
      && (status.Some? ==> e.status == status.value)
    }
  }

  /** The events a list request asks for, in calendar terms: public ones, in
      the given date range if both ends are given, otherwise in the given
      calendar month if both month and year are given, of the given type and status. */
  predicate Selected(p: ListParams, e: Event) {
    && e.isPublic
    && (p.startDate.Some? && p.endDate.Some? ==>
          Instant(p.startDate.value) <= Instant(e.date) <= Instant(p.endDate.value))
    && (!(p.startDate.Some? && p.endDate.Some?) && p.month.Some? && p.year.Some? ==>
          e.date.year == NormalYear(p.year.value, p.month.value) && e.date.month == NormalMonth(p.month.value))
    && (p.eventType != "" ==> e.eventType == p.eventType)
    && (p.status != "" ==> e.status == p.status)
  }

  /** Builds the query object as the handler does: the date range wins over
      the month, and a lone bound or a lone month is ignored. */
  method BuildQuery(p: ListParams) returns (q: EventQuery)
    ensures q.isPublic
    ensures forall e :: q.Matches(e) <==> Selected(p, e)
  {
    q := EventQuery(true, None, None, None);
    if p.startDate.Some? && p.endDate.Some? {
      q := q.(range := Some(Window(Instant(p.startDate.value), Instant(p.endDate.value))));
    } else if p.month.Some? && p.year.Some? {
      q := q.(range := Some(MonthWindow(p.year.value, p.month.value)));
      forall e: Event ensures q.range.value.Contains(Instant(e.date)) <==>
          e.date.year == NormalYear(p.year.value, p.month.value) && e.date.month == NormalMonth(p.month.value) {
        MonthWindowContains(p.year.value, p.month.value, e.date);
      }
    }
    if p.eventType != "" {
      q := q.(eventType := Some(p.eventType));
    }
    if p.status != "" {
      q := q.(status := Some(p.status));
    }
  }

  /** The sort key of `{ date: 1 }`. */
  function Chronological(e: Event): int {
    Instant(e.date)
  }

  /** The response of `GET /calendar`: the selected events, earliest first. */
  function ListResponse(docs: seq<Event>, p: ListParams): seq<Event> {
    SortBy(Filter(docs, e => Selected(p, e)), Chronological)
  }

  /** A listed event is public, selected and stored; every such event is
      listed; the list runs in order of the full date and time, so also in
      calendar order of the days. */
  lemma ListedExactly(docs: seq<Event>, p: ListParams)
    ensures forall e :: e in ListResponse(docs, p) <==> e in docs && Selected(p, e)
    ensures forall i, j :: 0 <= i < j < |ListResponse(docs, p)| ==>
      Instant(ListResponse(docs, p)[i].date) <= Instant(ListResponse(docs, p)[j].date)
    ensures forall i, j :: 0 <= i < j < |ListResponse(docs, p)| ==>
      !CalendarBefore(ListResponse(docs, p)[j].date.year, ListResponse(docs, p)[j].date.month, ListResponse(docs, p)[j].date.day,
                      ListResponse(docs, p)[i].date.year, ListResponse(docs, p)[i].date.month, ListResponse(docs, p)[i].date.day)
  {
    var r := ListResponse(docs, p);
    SortFilterMembers(docs, e => Selected(p, e), Chronological);
    forall i, j | 0 <= i < j < |r|
      ensures !CalendarBefore(r[j].date.year, r[j].date.month, r[j].date.day, r[i].date.year, r[i].date.month, r[i].date.day)
    {
      assert Chronological(r[i]) <= Chronological(r[j]);
      InstantOrdered(r[j].date, r[i].date);
    }
  }

  /** The match of the month route: a public event inside the month's window. */
  predicate InMonth(year: int, month: int, e: Event) {
    e.isPublic && MonthWindow(year, month).Contains(Instant(e.date))
  }

  /** `GET /calendar/month/:year/:month`: public events in that month's window, earliest first. */
  function MonthResponse(docs: seq<Event>, year: int, month: int): seq<Event> {
    SortBy(Filter(docs, e => InMonth(year, month, e)), Chronological)
  }

  /** The month route answers what the list route answers for that month and year alone. */
  lemma {:induction false} MonthIsListOfMonth(docs: seq<Event>, year: int, month: int)
    ensures MonthResponse(docs, year, month) ==
      ListResponse(docs, ListParams(None, None, "", "", Some(month), Some(year)))
  {
    var p := ListParams(None, None, "", "", Some(month), Some(year));
    forall e: Event ensures InMonth(year, month, e) <==> Selected(p, e) {
      MonthWindowContains(year, month, e.date);
    }
    FilterSame(docs, e => InMonth(year, month, e), e => Selected(p, e));
  }

  /** `parseInt(limit) || 5`: None is a limit that does not parse (NaN). */
  function UpcomingLimit(limit: Option<int>): (n: int)
    ensures n != 0
    ensures limit.Some? && limit.value != 0 ==> n == limit.value
    ensures limit.None? || limit == Some(0) ==> n == 5
  {
    if limit.Some? && limit.value != 0 then limit.value else 5
  }

  /** Events still to come on the upcoming list, seen from `now`: public,
      dated today or later, and upcoming or ongoing. */
  predicate StillToCome(now: Date, e: Event) {
    && e.isPublic
    && Instant(e.date) >= Instant(Midnight(now))
    && (e.status == "upcoming" || e.status == "ongoing")
  }

  /** Every event still to come, earliest first. */
  function ToComeInOrder(docs: seq<Event>, now: Date): seq<Event> {
    SortBy(Filter(docs, e => StillToCome(now, e)), Chronological)
  }

  /** The number of documents a cursor limit lets through: a negative
      limit counts as its magnitude. */
  function Magnitude(n: int): nat {
    if n >= 0 then n else -n
  }

  /** `GET /calendar/upcoming/limit/:limit`: the first events still to come. */
  function UpcomingResponse(docs: seq<Event>, limit: Option<int>, now: Date): seq<Event> {
    Slice(ToComeInOrder(docs, now), 0, Magnitude(UpcomingLimit(limit)))
  }

  /** The upcoming list holds at most the limit (5 by default), only stored
      events still to come, earliest first. */
  lemma UpcomingIsBounded(docs: seq<Event>, limit: Option<int>, now: Date)
    ensures var r := UpcomingResponse(docs, limit, now);
      && (limit.None? || limit == Some(0) ==> |r| <= 5)
      && (limit.Some? && limit.value > 0 ==> |r| <= limit.value)
      && (forall e :: e in r ==> e in docs && StillToCome(now, e))
      && (forall i, j :: 0 <= i < j < |r| ==> Instant(r[i].date) <= Instant(r[j].date))
  {
    SortFilterMembers(docs, e => StillToCome(now, e), Chronological);
    SliceOfSorted(ToComeInOrder(docs, now), 0, Magnitude(UpcomingLimit(limit)), Chronological);
  }

  /** Every upcoming event is public, upcoming or ongoing, and falls on
      today's date or later. */
  lemma UpcomingFromToday(docs: seq<Event>, limit: Option<int>, now: Date)
    ensures forall e :: e in UpcomingResponse(docs, limit, now) ==>
      && e.isPublic && (e.status == "upcoming" || e.status == "ongoing")
      && !CalendarBefore(e.date.year, e.date.month, e.date.day, now.year, now.month, now.day)
  {
    UpcomingIsBounded(docs, limit, now);
    forall e | e in UpcomingResponse(docs, limit, now)
      ensures !CalendarBefore(e.date.year, e.date.month, e.date.day, now.year, now.month, now.day)
    {
      AtOrAfterMidnight(e.date, now);
    }
  }

  /** The upcoming list is the start of every still-to-come event in order,
      as long as the limit allows: nothing earlier is skipped, nothing is
      dropped while the limit is not reached, and every event left out is
      no earlier than any listed. */
  lemma UpcomingIsPrefix(docs: seq<Event>, limit: Option<int>, now: Date)
    ensures var all := ToComeInOrder(docs, now);
      var r := UpcomingResponse(docs, limit, now);
      var n := Magnitude(UpcomingLimit(limit));
      && |r| == (if |all| < n then |all| else n)
      && r == all[..|r|]
      && forall x, i :: x in all && x !in r && 0 <= i < |r| ==> Instant(r[i].date) <= Instant(x.date)
  {
    SoonestFirst(ToComeInOrder(docs, now), Magnitude(UpcomingLimit(limit)), Chronological);
  }

  /** The `date` of a create body as `new Date(date)` reads it: an absent or
      unparsable value gives an Invalid Date, null gives the epoch. */
  datatype DateInput = InvalidDate | NullDate | ValidDate(date: Date)

  /** The date handed to the schema; None is an Invalid Date, which the
      schema's cast refuses like a missing date. */
  function CreateDate(x: DateInput): (r: Option<Date>)
    ensures x.InvalidDate? <==> r.None?
    ensures x.NullDate? ==> r == Some(Epoch)
    ensures x.ValidDate? ==> r == Some(x.date)
  {
    match x
    case InvalidDate => None
    case NullDate => Some(Epoch)
    case ValidDate(d) => Some(d)
  }

  /** The body of `POST /calendar`; None is an absent (or null) field. */
  datatype CreateBody = CreateBody(
    title: Option<string>, description: Option<string>,
    date: DateInput, endDate: Option<Date>,
    time: Option<TimeWindow>, location: Option<Location>,
    eventType: Option<string>, priority: Option<string>, color: Option<string>,
    media: Option<seq<Id>>, reminders: Option<seq<Reminder>>, attendees: Option<seq<Attendee>>)

  /** What the create handler passes to `new Event({...})`: falsy type,
      priority and colour fall back to their defaults, missing lists become
      empty, and neither status nor isPublic is passed. */
  function CreateDraft(b: CreateBody): (d: EventDraft)
    ensures d.eventType == Some(OrElse(b.eventType, DefaultType))
    ensures d.priority == Some(OrElse(b.priority, DefaultPriority))
    ensures d.color == Some(OrElse(b.color, DefaultColor))
    ensures d.status.None? && d.isPublic.None?
    ensures d.date == CreateDate(b.date)
    ensures d.title == b.title && d.description == b.description && d.endDate == b.endDate
    ensures d.time == b.time && d.location == b.location
    ensures d.media == b.media.GetOr([]) && d.reminders == b.reminders.GetOr([]) && d.attendees == b.attendees.GetOr([])
  {
    EventDraft(b.title, b.description, CreateDate(b.date), b.endDate, b.time, b.location,
               Some(OrElse(b.eventType, DefaultType)), None,
               Some(OrElse(b.priority, DefaultPriority)), Some(OrElse(b.color, DefaultColor)),
               b.media.GetOr([]), None, b.reminders.GetOr([]), b.attendees.GetOr([]))
  }

  /** A created event is private, upcoming, and of a known type; an empty
      type string gives a personal event, an unknown one is refused; an
      Invalid Date is refused, and a null date gives an event at the epoch. */
  lemma CreatedEvent(b: CreateBody)
    ensures var r := Validate(CreateDraft(b));
      && (r.Ok? ==> !r.value.isPublic && r.value.status == DefaultStatus && r.value.eventType in EventTypes)
      && (r.Ok? && !Truthy(b.eventType) ==> r.value.eventType == DefaultType)
      && (Truthy(b.eventType) && b.eventType.value !in EventTypes ==> r.Err? && TypeNotInEnum in r.error)
      && (b.date.InvalidDate? ==> r.Err? && DateRequired in r.error)
      && (b.date.NullDate? && r.Ok? ==> r.value.date == Epoch)
  {
    var d := CreateDraft(b);
    if Truthy(b.eventType) && b.eventType.value !in EventTypes {
      assert TypeNotInEnum in Violations(d);
    }
    if b.date.InvalidDate? {
      assert DateRequired in Violations(d);
    }
  }

  /** The `description` of an update body: absent, null, or a string. */
  datatype DescriptionField = Absent | Null | Given(text: string)

  /** The body of `PUT /calendar/:id`; None is an absent (or null) field. */
  datatype UpdateBody = UpdateBody(
    title: Option<string>, description: DescriptionField,
    date: Option<Date>, endDate: Option<Date>,
    time: Option<TimeWindow>, location: Option<Location>,
    eventType: Option<string>, status: Option<string>, priority: Option<string>, color: Option<string>,
    media: Option<seq<Id>>, reminders: Option<seq<Reminder>>, attendees: Option<seq<Attendee>>)

  /** The `updateData` object: the fields the update sets. `description`
      is Some(None) when it is set to null. */
  datatype UpdateDoc = UpdateDoc(
    title: Option<string>, description: Option<Option<string>>,
    date: Option<Date>, endDate: Option<Date>,
    time: Option<TimeWindow>, location: Option<Location>,
    eventType: Option<string>, status: Option<string>, priority: Option<string>, color: Option<string>,
    media: Option<seq<Id>>, reminders: Option<seq<Reminder>>, attendees: Option<seq<Attendee>>)

  /** The `updateData` object of an update body: every truthy field is set,
      and `description` is set whenever it is not undefined. A date, object
      or array (even an empty one) is truthy exactly when it is given; a
      string is truthy when it is not empty. */
  function UpdateDocOf(u: UpdateBody): UpdateDoc {
    UpdateDoc(if Truthy(u.title) then u.title else None,
              match u.description
              case Absent => None
              case Null => Some(None)
              case Given(s) => Some(Some(s)),
              u.date, u.endDate, u.time, u.location,
              if Truthy(u.eventType) then u.eventType else None,
              if Truthy(u.status) then u.status else None,
              if Truthy(u.priority) then u.priority else None,
              if Truthy(u.color) then u.color else None,
              u.media, u.reminders, u.attendees)
  }

  /** Builds `updateData` field by field, as the handler does. */
  method BuildUpdate(u: UpdateBody) returns (d: UpdateDoc)
    ensures d == UpdateDocOf(u)
    ensures d.title == (if Truthy(u.title) then u.title else None)
    ensures d.description == match u.description
                             case Absent => None
                             case Null => Some(None)
                             case Given(s) => Some(Some(s))
    ensures d.date == u.date && d.endDate == u.endDate && d.time == u.time && d.location == u.location
    ensures d.eventType == (if Truthy(u.eventType) then u.eventType else None)
    ensures d.status == (if Truthy(u.status) then u.status else None)
    ensures d.priority == (if Truthy(u.priority) then u.priority else None)
    ensures d.color == (if Truthy(u.color) then u.color else None)
    ensures d.media == u.media && d.reminders == u.reminders && d.attendees == u.attendees
  {
    var title := if Truthy(u.title) then u.title else None;
    var description := match u.description
                       case Absent => None
                       case Null => Some(None)
                       case Given(text) => Some(Some(text));
    var date := u.date;
    var endDate := u.endDate;
    var time := u.time;
    var location := u.location;
    var eventType := if Truthy(u.eventType) then u.eventType else None;
    var status := if Truthy(u.status) then u.status else None;
    var priority := if Truthy(u.priority) then u.priority else None;
    var color := if Truthy(u.color) then u.color else None;
    var media := u.media;
    var reminders := u.reminders;
    var attendees := u.attendees;
    d := UpdateDoc(title, description, date, endDate, time, location, eventType, status,
                   priority, color, media, reminders, attendees);
  }

  /** `$set` of an update document, with the trim setters of title and
      description applied and no validator run. */
  function SetFields(e: Event, d: UpdateDoc): Event {
    Event(if d.title.Some? then Trim(d.title.value) else e.title,
          if d.description.Some? then TrimOpt(d.description.value) else e.description,
          d.date.GetOr(e.date),
          if d.endDate.Some? then d.endDate else e.endDate,
          if d.time.Some? then d.time else e.time,
          if d.location.Some? then d.location else e.location,
          d.eventType.GetOr(e.eventType), d.status.GetOr(e.status),
          d.priority.GetOr(e.priority), d.color.GetOr(e.color),
          d.media.GetOr(e.media), e.isPublic,
          d.reminders.GetOr(e.reminders), d.attendees.GetOr(e.attendees))
  }

  /** The event an update leaves behind: a truthy field replaces the stored
      one, a falsy or absent one keeps it, and `isPublic` never changes. */
  function ApplyUpdate(e: Event, u: UpdateBody): (r: Event)
    ensures r.title == if Truthy(u.title) then Trim(u.title.value) else e.title
    ensures r.description == match u.description
                             case Absent => e.description
                             case Null => None
                             case Given(s) => Some(Trim(s))
    ensures r.date == u.date.GetOr(e.date) && r.endDate == (if u.endDate.Some? then u.endDate else e.endDate)
    ensures r.time == (if u.time.Some? then u.time else e.time)
    ensures r.location == (if u.location.Some? then u.location else e.location)
    ensures r.eventType == OrElse(u.eventType, e.eventType) && r.status == OrElse(u.status, e.status)
    ensures r.priority == OrElse(u.priority, e.priority) && r.color == OrElse(u.color, e.color)
    ensures r.media == u.media.GetOr(e.media) && r.reminders == u.reminders.GetOr(e.reminders)
    ensures r.attendees == u.attendees.GetOr(e.attendees)
    ensures r.isPublic == e.isPublic
  {
    SetFields(e, UpdateDocOf(u))
  }

  /** The update body with every field absent. */
  const NoChange := UpdateBody(None, Absent, None, None, None, None, None, None, None, None, None, None, None)

  /** An update with no field changes nothing, and an empty title, type,
      status, priority or colour counts as absent; an empty description,
      however, replaces the stored one. */
  lemma UpdateEdgeCases(e: Event)
    ensures ApplyUpdate(e, NoChange) == e
    ensures ApplyUpdate(e, NoChange.(title := Some(""), eventType := Some(""), status := Some(""),
                                     priority := Some(""), color := Some(""))) == e
    ensures ApplyUpdate(e, NoChange.(description := Given(""))) == e.(description := Some(""))
  {
    assert Trim("") == "" by { TrimEmptyIff(""); }
  }

  /** Because no validator runs on update, a blank title or an unknown status
      is stored as sent: updates can leave an event no create would accept. */
  lemma UpdateSkipsValidators(e: Event)
    ensures var r := ApplyUpdate(e, NoChange.(title := Some("  "), status := Some("archived")));
      r.title == "" && r.status == "archived" && !ValidEvent(r)
  {
    assert AllSpace("  ");
    TrimEmptyIff("  ");
  }

  /** The events collection: documents by id, their natural order, and the next fresh id. */
  class EventStore {
    var records: map<Id, Event>
    var order: seq<Id>
    var nextId: Id

    ghost predicate Valid()
      reads this
    {
      Consistent(records, order, nextId)
    }

    function Documents(): seq<Event>
      reads this
      requires Valid()
    {
      InOrder(order, records)
    }

    constructor ()
      ensures Valid() && records == map[] && order == []
    {
      records, order, nextId := map[], [], 0;
    }

    /** `GET /calendar`; `dbOk` is whether the database answers. */
    method List(p: ListParams, dbOk: bool) returns (r: Result<seq<Event>, EventError>)
      requires Valid()
      ensures !dbOk ==> r == Err(RequestFailed)
      ensures dbOk ==> r == Ok(ListResponse(Documents(), p))
    {
      if !dbOk {
        return Err(RequestFailed);
      }
      var q := BuildQuery(p);
      var matching := Filter(Documents(), e => q.Matches(e));
      FilterSame(Documents(), e => q.Matches(e), e => Selected(p, e));
      r := Ok(SortBy(matching, Chronological));
    }

    /** `GET /calendar/month/:year/:month`. */
    method Month(year: int, month: int, dbOk: bool) returns (r: Result<seq<Event>, EventError>)
      requires Valid()
      ensures !dbOk ==> r == Err(RequestFailed)
      ensures dbOk ==> r == Ok(MonthResponse(Documents(), year, month))
    {
      if !dbOk {
        return Err(RequestFailed);
      }
      r := Ok(SortBy(Filter(Documents(), e => InMonth(year, month, e)), Chronological));
    }

    /** `GET /calendar/:id`: found whether public or not. */
    method Get(id: Id, dbOk: bool) returns (r: Result<Event, EventError>)
      ensures !dbOk ==> r == Err(RequestFailed)
      ensures dbOk && id !in records ==> r == Err(NotFound)
      ensures dbOk && id in records ==> r == Ok(records[id])
    {
      if !dbOk {
        return Err(RequestFailed);
      }
      if id !in records {
        return Err(NotFound);
      }
      r := Ok(records[id]);
    }

    /** `POST /calendar`: `saveOk` is whether the write succeeds and
        `populateOk` whether the media read that follows it does. The
        event is stored when it validates and the write succeeds; a failed
        populate then answers 500 with the event already stored. */
    method Create(b: CreateBody, saveOk: bool, populateOk: bool) returns (r: Result<Id, EventError>, stored: bool)
      requires Valid()
      modifies this
      ensures Valid()
      ensures stored <==> saveOk && Validate(CreateDraft(b)).Ok?
      ensures r.Ok? <==> stored && populateOk
      ensures r.Err? ==> r.error == RequestFailed
      ensures !stored ==> records == old(records) && order == old(order)
      ensures stored ==> exists id :: && id !in old(records)
                                      && records == old(records)[id := Validate(CreateDraft(b)).value]
                                      && order == old(order) + [id]
                                      && (r.Ok? ==> r.value == id)
    {
      var event := Validate(CreateDraft(b));
      if event.Err? || !saveOk {
        return Err(RequestFailed), false;
      }
      var id := Insert(event.value);
      stored := true;
      if !populateOk {
        return Err(RequestFailed), stored;
      }
      r := Ok(id);
    }

    /** Stores `e` under a fresh id at the end of the natural order. */
    method Insert(e: Event) returns (id: Id)
      requires Valid()
      modifies this
      ensures Valid()
      ensures id !in old(records) && records == old(records)[id := e] && order == old(order) + [id]
    {
      id := nextId;
      AddFresh(records, order, nextId, e);
      records := records[id := e];
      order := order + [id];
      nextId := nextId + 1;
    }

    /** `PUT /calendar/:id`: `dbOk` is whether the update query succeeds and
        `populateOk` whether the media read chained to it does. A failed
        populate answers 500 with the update already applied. */
    method Update(id: Id, u: UpdateBody, dbOk: bool, populateOk: bool) returns (r: Result<Event, EventError>)
      requires Valid()
      modifies this
      ensures Valid() && order == old(order)
      ensures !dbOk ==> r == Err(RequestFailed)
      ensures dbOk && id !in old(records) ==> r == Err(NotFound)
      ensures r.Ok? <==> dbOk && id in old(records) && populateOk
      ensures dbOk && id in old(records) && !populateOk ==> r == Err(RequestFailed)
      ensures !(dbOk && id in old(records)) ==> records == old(records)
      ensures dbOk && id in old(records) ==> records == old(records)[id := ApplyUpdate(old(records)[id], u)]
      ensures r.Ok? ==> r.value == ApplyUpdate(old(records)[id], u)
    {
      if !dbOk {
        return Err(RequestFailed);
      }
      if id !in records {
        return Err(NotFound);
      }
      var d := BuildUpdate(u);
      var updated := SetFields(records[id], d);
      records := records[id := updated];
      if !populateOk {
        return Err(RequestFailed);
      }
      r := Ok(updated);
    }

    /** `DELETE /calendar/:id`: the document is removed. */
    method Delete(id: Id, dbOk: bool) returns (r: Result<(), EventError>)
      requires Valid()
      modifies this
      ensures Valid()
      ensures !dbOk ==> r == Err(RequestFailed)
      ensures dbOk && id !in old(records) ==> r == Err(NotFound)
      ensures r.Ok? <==> dbOk && id in old(records)
      ensures r.Err? ==> records == old(records) && order == old(order)
      ensures r.Ok? ==> records == old(records) - {id} && id !in records
      ensures r.Ok? ==> exists i :: 0 <= i < |old(order)| && old(order)[i] == id && order == RemoveAt(old(order), i)
    {
      if !dbOk {
        return Err(RequestFailed);
      }
      if id !in records {
        return Err(NotFound);
      }
      var i :| 0 <= i < |order| && order[i] == id;
      Remove(records, order, nextId, i);
      records := records - {id};
      order := RemoveAt(order, i);
      r := Ok(());
    }

    /** `GET /calendar/upcoming/limit/:limit` at the time `now`. */
    method Upcoming(limit: Option<int>, now: Date, dbOk: bool) returns (r: Result<seq<Event>, EventError>)
      requires Valid()
      ensures !dbOk ==> r == Err(RequestFailed)
      ensures dbOk ==> r == Ok(UpcomingResponse(Documents(), limit, now))
    {
      if !dbOk {
        return Err(RequestFailed);
      }
      var n := UpcomingLimit(limit);
      var ordered := ToComeInOrder(Documents(), now);
      r := Ok(Slice(ordered, 0, Magnitude(n)));
    }
  }

  /** Every event the create route stores is private, so it never appears on
      the list, month or upcoming routes. */
  lemma CreatedNeverListed(docs: seq<Event>, b: CreateBody, p: ListParams, year: int, month: int,
                           limit: Option<int>, now: Date)
    requires Validate(CreateDraft(b)).Ok?
    ensures var e := Validate(CreateDraft(b)).value;
      && e !in ListResponse(docs, p)
      && e !in MonthResponse(docs, year, month)
      && e !in UpcomingResponse(docs, limit, now)
  {
    var e := Validate(CreateDraft(b)).value;
    ListedExactly(docs, p);
    SortFilterMembers(docs, d => InMonth(year, month, d), Chronological);
    UpcomingIsBounded(docs, limit, now);
  }
}
