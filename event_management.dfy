/**
 * The event board: the list of school events, the draft of the creation
 * form, creating an event from the draft, the type lookup and the filtered
 * view by type, status and search term.
 */
module EventManagement {
  import opened Options
  import opened Seqs
  import opened Text
  import opened App

  datatype EventType = Sports | Cultural | Academic | Competition | Other
  {
    /** The string the event carries in its `type` field. */
    function Name(): string
    {
      match this
      case Sports => "sports"
      case Cultural => "cultural"
      case Academic => "academic"
      case Competition => "competition"
      case Other => "other"
    }
  }

  datatype EventStatus = Upcoming | Ongoing | Completed | Cancelled
  {
    function Name(): string
    {
      match this
      case Upcoming => "upcoming"
      case Ongoing => "ongoing"
      case Completed => "completed"
      case Cancelled => "cancelled"
    }
  }

  /** A school event; `maxParticipants` is absent when there is no limit. */
  datatype Event = Event(
    id: string,
    title: string,
    description: string,
    eventType: EventType,
    date: string,
    time: string,
    venue: string,
    organizer: string,
    organizerId: string,
    participants: seq<string>,
    maxParticipants: Option<int>,
    status: EventStatus,
    createdDate: string)

  /** The creation form; the participant limit is the text typed into its field. */
  datatype EventDraft = EventDraft(
    title: string,
    description: string,
    eventType: EventType,
    date: string,
    time: string,
    venue: string,
    maxParticipants: string)

  /** The form as it is first shown and after every creation. */
  const EmptyEventDraft := EventDraft("", "", Academic, "", "", "", "")

  /** An entry of a type table: the stored value and the label shown for it (`label` in the source). */
  datatype TypeInfo = TypeInfo(value: string, shown: string)

  const EventTypes: seq<TypeInfo> := [
    TypeInfo("sports", "Sports"),
    TypeInfo("cultural", "Cultural"),
    TypeInfo("academic", "Academic"),
    TypeInfo("competition", "Competition"),
    TypeInfo("other", "Other")
  ]

  function ValueIs(t: string): TypeInfo -> bool
  {
    (info: TypeInfo) => info.value == t
  }

  /** `getEventTypeInfo`: the table entry of the type, or the "other" entry when there is none. */
  function GetEventTypeInfo(t: string): (info: TypeInfo)
    ensures info in EventTypes
    ensures (exists i :: 0 <= i < |EventTypes| && EventTypes[i].value == t) ==> info.value == t
    ensures (forall i :: 0 <= i < |EventTypes| ==> EventTypes[i].value != t) ==> info == TypeInfo("other", "Other")
  {
    match FindFirst(EventTypes, ValueIs(t))
    case Some(i) => EventTypes[i]
    case None => EventTypes[4]
  }

  /** Every type an event can have finds its own entry, never the fallback. */
  lemma EveryEventTypeHasInfo(t: EventType)
    ensures GetEventTypeInfo(t.Name()).value == t.Name()
  {
    var i := match t
      case Sports => 0 case Cultural => 1 case Academic => 2 case Competition => 3 case Other => 4;
    assert EventTypes[i].value == t.Name();
  }

  /** A type outside the table shows as "Other". */
  lemma UnknownTypeFallsBack()
    ensures GetEventTypeInfo("workshop") == TypeInfo("other", "Other")
  {
  }

  /** `parseInt(field) || undefined`: a limit only when the field parses to a non-zero integer. */
  function MaxParticipantsOf(field: string): (r: Option<int>)
    ensures r.Some? <==> ParseInt(field).Int? && ParseInt(field).value != 0
    ensures r.Some? ==> ParseInt(field) == Int(r.value)
    ensures field == "" ==> r == None
  {
    match ParseInt(field)
    case Int(v) => if v != 0 then Some(v) else None
    case NaN => None
  }

  /** A positive limit typed into the form is the limit stored. */
  lemma MaxParticipantsRoundTrip(n: nat)
    requires n > 0
    ensures MaxParticipantsOf(NatToDecimal(n)) == Some(n)
  {
    ParseIntOfDecimal(n, "");
    assert NatToDecimal(n) + "" == NatToDecimal(n);
  }

  /** A limit of zero means no limit. */
  lemma ZeroMeansNoLimit()
    ensures MaxParticipantsOf("0") == None
  {
    ParseIntOfDecimal(0, "");
    assert NatToDecimal(0) + "" == "0";
  }

  /**
   * The event `handleCreateEvent` builds from the draft: the draft's fields,
   * organised by the user, upcoming, with no participants yet.
   */
  function EventFromDraft(d: EventDraft, user: User, id: string, today: string): (e: Event)
    ensures e.id == id && e.createdDate == today
    ensures e.status == Upcoming && e.participants == []
    ensures e.organizer == user.name && e.organizerId == user.id
    ensures e.title == d.title && e.description == d.description && e.eventType == d.eventType
    ensures e.date == d.date && e.time == d.time && e.venue == d.venue
    ensures e.maxParticipants == MaxParticipantsOf(d.maxParticipants)
  {
    Event(id, d.title, d.description, d.eventType, d.date, d.time, d.venue,
          user.name, user.id, [], MaxParticipantsOf(d.maxParticipants), Upcoming, today)
  }

  /** The three tests of `filteredEvents`: type, status, and the search in title, description or venue. */
  predicate EventShown(e: Event, filterType: string, filterStatus: string, searchTerm: string)
  {
    (filterType == "all" || e.eventType.Name() == filterType)
    && (filterStatus == "all" || e.status.Name() == filterStatus)
    && (MatchesSearch(e.title, searchTerm) || MatchesSearch(e.description, searchTerm) || MatchesSearch(e.venue, searchTerm))
  }

  function ShownBy(filterType: string, filterStatus: string, searchTerm: string): Event -> bool
  {
    (e: Event) => EventShown(e, filterType, filterStatus, searchTerm)
  }

  /** `filteredEvents`: exactly the events that pass the three tests, in list order. */
  function FilteredEvents(events: seq<Event>, filterType: string, filterStatus: string, searchTerm: string): (r: seq<Event>)
    ensures |r| <= |events|
    ensures forall i :: 0 <= i < |r| ==> r[i] in events && EventShown(r[i], filterType, filterStatus, searchTerm)
    ensures forall k :: 0 <= k < |events| && EventShown(events[k], filterType, filterStatus, searchTerm) ==> events[k] in r
  {
    Filter(events, ShownBy(filterType, filterStatus, searchTerm))
  }

  /** Any search matches the empty string, so with both filters at "all" every event is shown. */
  lemma DefaultViewShowsAll(events: seq<Event>)
    ensures FilteredEvents(events, "all", "all", "") == events
  {
    assert ToLower("") == "";
    FilterAll(events, ShownBy("all", "all", ""));
  }

  /** Adding an event to the list adds it at the end of the view when it passes the tests, and changes nothing else. */
  lemma ViewAfterAppend(events: seq<Event>, e: Event, filterType: string, filterStatus: string, searchTerm: string)
    ensures FilteredEvents(events + [e], filterType, filterStatus, searchTerm)
         == FilteredEvents(events, filterType, filterStatus, searchTerm)
            + (if EventShown(e, filterType, filterStatus, searchTerm) then [e] else [])
  {
    FilterAppend(events, [e], ShownBy(filterType, filterStatus, searchTerm));
    FilterSingleton(e, ShownBy(filterType, filterStatus, searchTerm));
  }

  /** A new event is upcoming, so a view of another status does not change when one is created. */
  lemma CreatedEventHiddenByOtherStatus(events: seq<Event>, d: EventDraft, user: User, id: string, today: string,
                                        filterType: string, filterStatus: string, searchTerm: string)
    requires filterStatus != "all" && filterStatus != "upcoming"
    ensures FilteredEvents(events + [EventFromDraft(d, user, id, today)], filterType, filterStatus, searchTerm)
         == FilteredEvents(events, filterType, filterStatus, searchTerm)
  {
    ViewAfterAppend(events, EventFromDraft(d, user, id, today), filterType, filterStatus, searchTerm);
  }

  /** The board's state: the events and the creation form. */
  class EventBoard {
    var events: seq<Event>
    var newEvent: EventDraft

    constructor (initial: seq<Event>)
      ensures events == initial && newEvent == EmptyEventDraft
    {
      events := initial;
      newEvent := EmptyEventDraft;
    }

    /** Typing into the form replaces the draft and leaves the events alone. */
    method EditDraft(d: EventDraft)
      modifies this
      ensures newEvent == d && events == old(events)
    {
      newEvent := d;
    }

    /** `handleCreateEvent`: the event built from the draft goes at the end, and the form is reset. */
    method HandleCreateEvent(user: User, id: string, today: string)
      modifies this
      ensures events == old(events) + [EventFromDraft(old(newEvent), user, id, today)]
      ensures |events| == |old(events)| + 1 && events[..|old(events)|] == old(events)
      ensures newEvent == EmptyEventDraft
    {
      events := events + [EventFromDraft(newEvent, user, id, today)];
      newEvent := EmptyEventDraft;
    }
  }
}
