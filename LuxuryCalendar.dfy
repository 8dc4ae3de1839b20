/** The personal calendar page of the client: events kept in the browser,
    a month grid whose day tiles show coloured dots, the selected day's
    list, the next five events, and a form that adds an event to the
    selected day. */
module LuxuryCalendar {
  import opened Common
  import opened Text
  import opened Seqs
  import opened Dates

  /** An event as the page keeps it; `id` is the clock reading at creation. */
  datatype ClientEvent = ClientEvent(
    id: int, title: string, description: string, time: string,
    eventType: string, color: string, date: Date)

  /** The fields of the add-event form. */
  datatype EventForm = EventForm(title: string, description: string, time: string, eventType: string, color: string)

  /** The event the form describes, on `date`, with the clock reading `id`. */
  function FromForm(f: EventForm, id: int, date: Date): (e: ClientEvent)
    ensures e.id == id && e.date == date && e.color == f.color && e.eventType == f.eventType
    ensures e.title == f.title && e.description == f.description && e.time == f.time
  {
    ClientEvent(id, f.title, f.description, f.time, f.eventType, f.color, date)
  }

  /** The form as it opens and as it is reset after an event is added. */
  const BlankForm := EventForm("", "", "", "personal", "#DC2626")

  /** The colours the form offers. */
  const Palette: seq<string> := ["#DC2626", "#B91C1C", "#059669", "#7C3AED", "#EA580C"]

  /** The event types the form offers. */
  const EventTypes: seq<string> := ["personal", "professional", "social", "travel", "celebration"]

  /** The blank form offers its own first type and first colour. */
  lemma BlankFormOffered()
    ensures BlankForm.eventType in EventTypes && BlankForm.color in Palette
  {
    assert EventTypes[0] == BlankForm.eventType;
    assert Palette[0] == BlankForm.color;
  }

  /** The four events shown when nothing is saved in the browser. */
  function SampleEvents(): (r: seq<ClientEvent>)
    ensures |r| == 4 && forall i :: 0 <= i < |r| ==> r[i].id == i + 1 && r[i].color in Palette
  {
    [ ClientEvent(1, "Luxury Photo Shoot", "Professional photoshoot for the new collection",
                  "10:00 AM", "professional", "#DC2626", DateTime(2024, 12, 15, 0, 0, 0)),
      ClientEvent(2, "Elegant Dinner Party", "Exclusive dinner with close friends",
                  "7:00 PM", "social", "#B91C1C", DateTime(2024, 12, 20, 0, 0, 0)),
      ClientEvent(3, "Fashion Week", "Attending the latest fashion week event",
                  "2:00 PM", "professional", "#DC2626", DateTime(2024, 12, 25, 0, 0, 0)),
      ClientEvent(4, "Personal Spa Day", "Relaxing spa treatment and wellness",
                  "11:00 AM", "personal", "#059669", DateTime(2024, 12, 28, 0, 0, 0)) ]
  }

  /** Same day of the month, month and full year. */
  predicate IsSameDay(a: Date, b: Date) {
    a.day == b.day && a.month == b.month && a.year == b.year
  }

  /** Two dates fall on the same day exactly when their days start at the same instant. */
  lemma SameDayIff(a: Date, b: Date)
    ensures IsSameDay(a, b) <==> Instant(Midnight(a)) == Instant(Midnight(b))
  {
    InstantOrdered(Midnight(a), Midnight(b));
    InstantOrdered(Midnight(b), Midnight(a));
  }

  /** The events of the day `date` falls on, in list order. */
  function DayEvents(events: seq<ClientEvent>, date: Date): (r: seq<ClientEvent>)
    ensures forall e :: e in r <==> e in events && IsSameDay(e.date, date)
  {
    var r := Filter(events, (e: ClientEvent) => IsSameDay(e.date, date));
    assert forall e :: e in events && IsSameDay(e.date, date) ==> e in r by {
      forall e | e in events && IsSameDay(e.date, date) ensures e in r {
        var i :| 0 <= i < |events| && events[i] == e;
      }
    }
    r
  }

  /** The dots under a day tile: up to three event colours, and a grey dot for more. */
  datatype Dots = Dots(colors: seq<string>, more: bool)

  /** What a tile of the calendar grid shows. */
  function Tile(events: seq<ClientEvent>, date: Date, view: string): (r: Option<Dots>)
    ensures r.None? <==> view != "month" || DayEvents(events, date) == []
    ensures r.Some? ==> var day := DayEvents(events, date);
      && |r.value.colors| == (if |day| < 3 then |day| else 3)
      && (forall i :: 0 <= i < |r.value.colors| ==> r.value.colors[i] == day[i].color)
      && (r.value.more <==> |day| > 3)
  {
    if view != "month" then None
    else
      var day := DayEvents(events, date);
      if |day| == 0 then None
      else
        var shown := Slice(day, 0, 3);
        Some(Dots(seq(|shown|, i requires 0 <= i < |shown| => shown[i].color), |day| > 3))
  }

  /** A tile has a dot per event of its day, up to four, the fourth standing
      for all the rest; a day with at most three events shows every colour. */
  lemma TileDotCount(events: seq<ClientEvent>, date: Date)
    requires DayEvents(events, date) != []
    ensures var d := Tile(events, date, "month").value;
      var n := |DayEvents(events, date)|;
      && |d.colors| + (if d.more then 1 else 0) == (if n < 4 then n else 4)
      && (n <= 3 ==> forall e :: e in DayEvents(events, date) ==> e.color in d.colors)
  {
    var day := DayEvents(events, date);
    var d := Tile(events, date, "month").value;
    if |day| <= 3 {
      forall e | e in day ensures e.color in d.colors {
        var i :| 0 <= i < |day| && day[i] == e;
        assert d.colors[i] == e.color;
      }
    }
  }

  /** How a month tile is highlighted. */
  datatype TileStyle = TileStyle(hasEvents: bool, isToday: bool)

  /** The class names for a tile style. */
  function ClassName(st: TileStyle): string {
    "relative"
      + (if st.hasEvents then " bg-luxury-red/5 border-luxury-red/20" else "")
      + (if st.isToday then " bg-luxury-red/10 border-luxury-red/30" else "")
  }

  /** Different styles have different class names, so a tile's classes tell
      both whether its day has events and whether it is today. */
  lemma ClassNameInjective(a: TileStyle, b: TileStyle)
    ensures ClassName(a) == ClassName(b) ==> a == b
  {
    if ClassName(a) == ClassName(b) {
      assert |ClassName(a)| == 8 + (if a.hasEvents then 37 else 0) + (if a.isToday then 38 else 0);
      assert |ClassName(b)| == 8 + (if b.hasEvents then 37 else 0) + (if b.isToday then 38 else 0);
    }
  }

  /** The class of a calendar tile, given the current date `today`. */
  function TileClassName(events: seq<ClientEvent>, date: Date, view: string, today: Date): (r: string)
    ensures view != "month" <==> r == ""
    ensures view == "month" ==>
      r == ClassName(TileStyle(exists e :: e in events && IsSameDay(e.date, date), IsSameDay(date, today)))
  {
    if view != "month" then ""
    else
      var day := DayEvents(events, date);
      assert |day| > 0 <==> exists e :: e in events && IsSameDay(e.date, date) by {
        if |day| > 0 {
          assert day[0] in day;
        }
      }
      ClassName(TileStyle(|day| > 0, IsSameDay(date, today)))
  }

  function Start(e: ClientEvent): int {
    Instant(e.date)
  }

  /** At most how many events the upcoming list shows. */
  const UpcomingCount := 5

  /** The events after `now`, in list order. */
  function Ahead(events: seq<ClientEvent>, now: Date): seq<ClientEvent> {
    Filter(events, (e: ClientEvent) => Instant(e.date) > Instant(now))
  }

  /** The upcoming list: the events after `now`, soonest first, at most five. */
  function Upcoming(events: seq<ClientEvent>, now: Date): seq<ClientEvent> {
    Slice(SortBy(Ahead(events, now), Start), 0, UpcomingCount)
  }

  /** The upcoming list holds at most five events, all of the page and all
      after `now`, soonest first. */
  lemma UpcomingBounded(events: seq<ClientEvent>, now: Date)
    ensures var r := Upcoming(events, now);
      && |r| <= UpcomingCount
      && (forall e :: e in r ==> e in events && Instant(e.date) > Instant(now))
      && SortedBy(r, Start)
  {
    var p := (e: ClientEvent) => Instant(e.date) > Instant(now);
    SortFilterMembers(events, p, Start);
    SliceOfSorted(SortBy(Ahead(events, now), Start), 0, UpcomingCount, Start);
  }

  /** The upcoming list is the soonest events ahead: it starts the sorted
      list of events after `now` and runs to five or to its end, so every
      event ahead that it leaves out is no sooner than any it shows, and
      with at most five ahead it shows them all. */
  lemma UpcomingComplete(events: seq<ClientEvent>, now: Date)
    ensures var all := SortBy(Ahead(events, now), Start);
      var r := Upcoming(events, now);
      && |r| == (if |all| < UpcomingCount then |all| else UpcomingCount)
      && |all| == |Ahead(events, now)|
      && r == all[..|r|]
      && (forall e, i :: e in events && Instant(e.date) > Instant(now) && e !in r && 0 <= i < |r| ==>
            Start(r[i]) <= Start(e))
      && (|all| <= UpcomingCount ==>
            forall e :: e in events && Instant(e.date) > Instant(now) ==> e in r)
  {
    var p := (e: ClientEvent) => Instant(e.date) > Instant(now);
    var all := SortBy(Ahead(events, now), Start);
    SortFilterMembers(events, p, Start);
    assert |all| == |Ahead(events, now)| by {
      assert |multiset(all)| == |multiset(Ahead(events, now))|;
    }
    SoonestFirst(all, UpcomingCount, Start);
  }

  /** Which form field an input edits. */
  datatype FormField = TitleField | DescriptionField | TimeField

  /** The state of the calendar page. */
  class CalendarView {
    var events: seq<ClientEvent>
    var selectedDate: Date
    var showAddEvent: bool
    var form: EventForm

    /** The form's type and colour are always among those it offers. */
    ghost predicate Valid()
      reads this
    {
      form.eventType in EventTypes && form.color in Palette
    }

    /** The page after mounting at `now`: the events saved in the browser,
        or the sample events when nothing is saved. */
    constructor(saved: Option<seq<ClientEvent>>, now: Date)
      ensures Valid()
      ensures saved.Some? ==> events == saved.value
      ensures saved.None? ==> events == SampleEvents()
      ensures selectedDate == now && !showAddEvent && form == BlankForm
    {
      events := saved.GetOr(SampleEvents());
      selectedDate := now;
      showAddEvent := false;
      form := BlankForm;
      BlankFormOffered();
    }

    /** A click on a day of the grid. */
    method SelectDate(date: Date)
      modifies this
      ensures selectedDate == date
      ensures events == old(events) && form == old(form) && showAddEvent == old(showAddEvent)
    {
      selectedDate := date;
    }

    /** Opens (`true`) or closes (`false`) the add-event form; the form keeps what was typed. */
    method ShowForm(show: bool)
      modifies this
      ensures showAddEvent == show
      ensures events == old(events) && form == old(form) && selectedDate == old(selectedDate)
    {
      showAddEvent := show;
    }

    /** Typing into one of the form's text inputs. */
    method Edit(field: FormField, value: string)
      requires Valid()
      modifies this
      ensures Valid()
      ensures field.TitleField? ==> form == old(form).(title := value)
      ensures field.DescriptionField? ==> form == old(form).(description := value)
      ensures field.TimeField? ==> form == old(form).(time := value)
      ensures events == old(events) && selectedDate == old(selectedDate) && showAddEvent == old(showAddEvent)
    {
      match field
      case TitleField => form := form.(title := value);
      case DescriptionField => form := form.(description := value);
      case TimeField => form := form.(time := value);
    }

    /** Choosing an event type from the form's list. */
    method PickType(eventType: string)
      requires Valid() && eventType in EventTypes
      modifies this
      ensures Valid() && form == old(form).(eventType := eventType)
      ensures events == old(events) && selectedDate == old(selectedDate) && showAddEvent == old(showAddEvent)
    {
      form := form.(eventType := eventType);
    }

    /** Clicking one of the form's colour swatches. */
    method PickColor(color: string)
      requires Valid() && color in Palette
      modifies this
      ensures Valid() && form == old(form).(color := color)
      ensures events == old(events) && selectedDate == old(selectedDate) && showAddEvent == old(showAddEvent)
    {
      form := form.(color := color);
    }

    /** The form's "Add Event" button, with `id` the clock reading. A title
        that is blank once trimmed, that is one of white space only (see
        `TrimEmptyIff`), is refused and nothing changes; otherwise
        the form's fields, title untrimmed, become an event on the selected
        day at the end of the list, and the form is reset and closed. */
    method AddEvent(id: int) returns (added: bool)
      requires Valid()
      modifies this
      ensures Valid()
      ensures added <==> !AllSpace(old(form.title))
      ensures !added ==> events == old(events) && form == old(form) && showAddEvent == old(showAddEvent)
      ensures added ==> && events == old(events) + [FromForm(old(form), id, old(selectedDate))]
                        && form == BlankForm && !showAddEvent
      ensures selectedDate == old(selectedDate)
    {
      if AllSpace(form.title) {
        return false;
      }
      BlankFormOffered();
      events := events + [FromForm(form, id, selectedDate)];
      form := BlankForm;
      showAddEvent := false;
      added := true;
    }

    /** The delete button of an event in the day list: every event with that id goes. */
    method DeleteEvent(id: int)
      modifies this
      ensures events == Filter(old(events), (e: ClientEvent) => e.id != id)
      ensures forall e :: e in events <==> e in old(events) && e.id != id
      ensures form == old(form) && selectedDate == old(selectedDate) && showAddEvent == old(showAddEvent)
    {
      var kept := Filter(events, (e: ClientEvent) => e.id != id);
      assert forall e :: e in events && e.id != id ==> e in kept by {
        forall e | e in events && e.id != id ensures e in kept {
          var i :| 0 <= i < |events| && events[i] == e;
        }
      }
      events := kept;
    }
  }

  /** An added event joins the end of its day's list and no other day's. */
  lemma {:induction false} AddedJoinsItsDay(events: seq<ClientEvent>, e: ClientEvent, date: Date)
    ensures DayEvents(events + [e], date)
      == DayEvents(events, date) + (if IsSameDay(e.date, date) then [e] else [])
  {
    var p := (x: ClientEvent) => IsSameDay(x.date, date);
    FilterAppend(events, [e], p);
    assert Filter([e], p) == (if p(e) then [e] else []) + Filter([e][1..], p);
    assert [e][1..] == [];
  }

  /** Deleting an event by an id no other event has undoes adding it. */
  lemma {:induction false} DeleteUndoesAdd(events: seq<ClientEvent>, e: ClientEvent)
    requires forall i :: 0 <= i < |events| ==> events[i].id != e.id
    ensures Filter(events + [e], (x: ClientEvent) => x.id != e.id) == events
  {
    var p := (x: ClientEvent) => x.id != e.id;
    FilterAppend(events, [e], p);
    FilterAll(events, p);
    assert Filter([e], p) == [] + Filter([e][1..], p);
    assert [e][1..] == [];
  }
}
