/** The preventive-maintenance calendar: the scheduled preventive requests of
    the listing become all-day events, and selecting an empty day slot opens
    a preventive request scheduled on that day. */
module Calendar {
  import opened Records
  import opened Lists
  import opened Lifecycle
  import opened Queries

  /** A calendar entry; the request it stands for is its resource. */
  datatype Event = Event(title: string, start: Date, end: Date, allDay: bool, resource: ListedRequest)

  /** The rows the calendar shows: preventive requests that have a scheduled date. */
  predicate OnCalendar(r: ListedRequest)
  {
    r.request.requestType == PREVENTIVE && r.request.scheduledDate.Some?
  }

  /** The equipment part of an event title: the equipment's name, or
      "Unknown" when there is no equipment or its name is empty. */
  function EquipmentLabel(r: ListedRequest): (name: string)
    ensures name != ""
    ensures name != "Unknown" ==> r.equipment.Some? && name == r.equipment.value.name
    ensures r.equipment.None? ==> name == "Unknown"
    ensures r.equipment.Some? && r.equipment.value.name != "" ==> name == r.equipment.value.name
  {
    if r.equipment.Some? && r.equipment.value.name != "" then r.equipment.value.name else "Unknown"
  }

  /** "<title> (<equipment>)": the request's title and the equipment label
      can both be read back from the event title. */
  function EventTitle(r: ListedRequest): (title: string)
    ensures |title| == |r.request.title| + |EquipmentLabel(r)| + 3
    ensures title[..|r.request.title|] == r.request.title
    ensures title[|r.request.title|..|r.request.title| + 2] == " ("
    ensures title[|r.request.title| + 2..|title| - 1] == EquipmentLabel(r)
    ensures title[|title| - 1] == ')'
  {
    r.request.title + " (" + EquipmentLabel(r) + ")"
  }

  /** The events for a fetched listing: one all-day event per shown row, in
      listing order, starting and ending on the row's scheduled date. */
  function CalendarEvents(rows: seq<ListedRequest>): (events: seq<Event>)
    ensures var shown := Filter(rows, OnCalendar);
      && |events| == |shown|
      && (forall k :: 0 <= k < |events| ==> events[k].resource == shown[k])
    ensures forall k :: 0 <= k < |events| ==>
      && OnCalendar(events[k].resource)
      && events[k].allDay
      && events[k].start == events[k].end == events[k].resource.request.scheduledDate.value
      && events[k].title == EventTitle(events[k].resource)
  {
    var shown := Filter(rows, OnCalendar);
    assert forall k :: 0 <= k < |shown| ==> shown[k] in shown;
    EventsOf(shown)
  }

  /** The calendar shows exactly the preventive, scheduled rows of the listing. */
  lemma CalendarShowsExactly(rows: seq<ListedRequest>)
    ensures var events := CalendarEvents(rows);
      forall r :: (r in rows && OnCalendar(r)) <==> exists k :: 0 <= k < |events| && events[k].resource == r
  {
    var shown := Filter(rows, OnCalendar);
    var events := CalendarEvents(rows);
    forall r | r in rows && OnCalendar(r) ensures exists k :: 0 <= k < |events| && events[k].resource == r {
      var k :| 0 <= k < |shown| && shown[k] == r;
      assert events[k].resource == r;
    }
    forall r | exists k :: 0 <= k < |events| && events[k].resource == r ensures r in rows && OnCalendar(r) {
      var k :| 0 <= k < |events| && events[k].resource == r;
      assert shown[k] in shown;
    }
  }

  /** The event of each shown row: all-day on its scheduled date, titled
      with EventTitle, carrying the row as its resource. */
  function EventsOf(shown: seq<ListedRequest>): (events: seq<Event>)
    requires forall k :: 0 <= k < |shown| ==> OnCalendar(shown[k])
    ensures |events| == |shown|
    ensures forall k :: 0 <= k < |shown| ==>
      && OnCalendar(shown[k])
      && events[k].resource == shown[k]
      && events[k].allDay
      && events[k].start == events[k].end == shown[k].request.scheduledDate.value
      && events[k].title == EventTitle(shown[k])
  {
    seq(|shown|, k requires 0 <= k < |shown| && OnCalendar(shown[k]) =>
      Event(EventTitle(shown[k]), shown[k].request.scheduledDate.value, shown[k].request.scheduledDate.value, true, shown[k]))
  }

  const SLOT_DESCRIPTION: string := "Scheduled via Calendar"

  /** The body posted when a day slot starting at `start` is selected and
      `title` is entered: none when the prompt is cancelled or left empty,
      otherwise a MEDIUM preventive request for equipment 1 scheduled at the
      slot's start. */
  function SlotRequest(title: Option<string>, start: Date): (body: Option<RequestBody>)
    ensures body.None? <==> title.None? || title.value == ""
    ensures body.Some? ==>
      && body.value.title == title.value
      && body.value.description == Some(SLOT_DESCRIPTION)
      && body.value.requestType == PREVENTIVE
      && body.value.priority == MEDIUM
      && body.value.equipmentId == 1
      && body.value.scheduledDate == Some(start)
  {
    if title.None? || title.value == "" then None
    else Some(RequestBody(title.value, Some(SLOT_DESCRIPTION), PREVENTIVE, MEDIUM, 1, Some(start)))
  }

  /** A request created from a day slot appears on the refreshed calendar as
      an all-day event on that day, titled with the entered title and the
      name of equipment 1. */
  lemma SlotShowsOnCalendar(t: Tables, title: string, start: Date, id: nat, now: Date)
    requires WellFormed(t) && 1 in t.equipment
    requires forall k :: k in t.requests ==> k < id
    requires title != ""
    ensures var body := SlotRequest(Some(title), start).value;
      var t' := AfterCreateRequest(t, id, body, now);
      var events := CalendarEvents(Listing(t', None, id + 1));
      exists k ::
        && 0 <= k < |events|
        && events[k].resource == ListedRequest(NewRequest(id, body, now), Some(t.equipment[1]))
        && events[k].start == start && events[k].allDay
        && events[k].title == title + " (" + EquipmentLabel(events[k].resource) + ")"
  {
    var body := SlotRequest(Some(title), start).value;
    var rows := Listing(AfterCreateRequest(t, id, body, now), None, id + 1);
    var row := ListedRequest(NewRequest(id, body, now), Some(t.equipment[1]));
    CreatedRequestListed(t, id, body, now);
    var events := CalendarEvents(rows);
    CalendarShowsExactly(rows);
    assert row in rows && OnCalendar(row);
    var k :| 0 <= k < |events| && events[k].resource == row;
    assert events[k].start == start;
  }
}
