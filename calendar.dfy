/**
 * The event-calendar adapter: the rules that decide whether the add-event
 * button and a click on an event change the calendar's events, and the
 * full snapshot written to browser storage after every such change.
 */
module EventCalendar {
  import opened Wrappers

  /** An event as the calendar widget holds it; `start` is the widget's start date, kept opaque. */
  datatype Event = Event(title: string, start: string)

  /** One record of the snapshot stored under the `calendarEvents` key. */
  datatype Record = Record(title: string, start: string)

  /**
   * The widget's events in widget order, and the value stored under the
   * `calendarEvents` key (`None` while the key is absent).
   */
  datatype Calendar = Calendar(events: seq<Event>, stored: Option<seq<Record>>)

  /** The error the add-event button raises on a page without a calendar widget. */
  datatype Fault = CalendarUndefined

  /** The command `eventClick` asks for. */
  const EditCommand := "edit"
  const DeleteCommand := "delete"

  /** The JavaScript truthiness of a `prompt` result: neither cancelled nor empty. */
  predicate Truthy(answer: Option<string>)
  {
    answer.Some? && answer.value != ""
  }

  /** The add-event guard `title && start`. */
  predicate AddAccepts(title: Option<string>, start: Option<string>): (accepted: bool)
    ensures accepted <==> EditAccepts(title, start) && title != Some("") && start != Some("")
  {
    Truthy(title) && Truthy(start)
  }

  /** The edit guard `newTitle !== null && newStart !== null`: empty answers pass. */
  predicate EditAccepts(newTitle: Option<string>, newStart: Option<string>): (accepted: bool)
    ensures accepted <==> newTitle != None && newStart != None
    ensures newTitle == Some("") && newStart == Some("") ==> accepted
  {
    newTitle.Some? && newStart.Some?
  }

  /** `saveEvents`: one `{title, start}` record per event, in widget order. */
  function Snapshot(events: seq<Event>): (records: seq<Record>)
    ensures |records| == |events|
  {
    if events == [] then [] else [Record(events[0].title, events[0].start)] + Snapshot(events[1..])
  }

  /** The events the widget starts with when given stored records. */
  function Restore(records: seq<Record>): (events: seq<Event>)
    ensures |events| == |records|
  {
    if records == [] then [] else [Event(records[0].title, records[0].start)] + Restore(records[1..])
  }

  /** The records page load reads: an absent key reads as the empty list. */
  function StoredRecords(stored: Option<seq<Record>>): (records: seq<Record>)
    ensures stored == None ==> records == []
    ensures stored != None ==> records == stored.value
  {
    stored.GetOr([])
  }

  /** The snapshot holds, at each position, the title and start of the event there. */
  lemma {:induction false} SnapshotAt(events: seq<Event>, k: nat)
    requires k < |events|
    ensures Snapshot(events)[k] == Record(events[k].title, events[k].start)
  {
    if k > 0 {
      SnapshotAt(events[1..], k - 1);
    }
  }

  /** The snapshot of a concatenation is the concatenation of the snapshots. */
  lemma {:induction false} SnapshotConcat(a: seq<Event>, b: seq<Event>)
    ensures Snapshot(a + b) == Snapshot(a) + Snapshot(b)
  {
    if a == [] {
      assert a + b == b;
    } else {
      assert (a + b)[1..] == a[1..] + b;
      SnapshotConcat(a[1..], b);
    }
  }

  /** Reloading a saved snapshot gives back the events it was taken from. */
  lemma {:induction false} RestoreSnapshot(events: seq<Event>)
    ensures Restore(Snapshot(events)) == events
  {
    if events != [] {
      RestoreSnapshot(events[1..]);
    }
  }

  /** Saving the events loaded from stored records gives back those records. */
  lemma {:induction false} SnapshotRestore(records: seq<Record>)
    ensures Snapshot(Restore(records)) == records
  {
    if records != [] {
      SnapshotRestore(records[1..]);
    }
  }

  /** Storage holds exactly the snapshot of the widget's events. */
  predicate Synced(cal: Calendar)
  {
    Snapshot(cal.events) == StoredRecords(cal.stored)
  }

  /** Page load: the widget starts with the stored events; storage is not written. */
  function Load(stored: Option<seq<Record>>): (cal: Calendar)
    ensures cal.stored == stored
    ensures Synced(cal)
  {
    SnapshotRestore(StoredRecords(stored));
    Calendar(Restore(StoredRecords(stored)), stored)
  }

  /** `saveEvents` after a change to the widget's events. */
  function Save(events: seq<Event>): (cal: Calendar)
    ensures cal.events == events
    ensures cal.stored == Some(Snapshot(events))
    ensures Synced(cal)
  {
    Calendar(events, Some(Snapshot(events)))
  }

  /** When storage is in step with the widget, reloading the page reproduces the widget's events. */
  lemma ReloadReproduces(cal: Calendar)
    requires Synced(cal)
    ensures Load(cal.stored).events == cal.events
  {
    RestoreSnapshot(cal.events);
  }

  /**
   * The add-event button, given the answers to the title and start prompts.
   * `cal` is the page's calendar widget, `None` on a page without one.
   */
  function AddEvent(cal: Option<Calendar>, title: Option<string>, start: Option<string>): (r: Result<Option<Calendar>, Fault>)
    ensures r.Failure? <==> cal.None? && AddAccepts(title, start)
    ensures cal.None? && !AddAccepts(title, start) ==> r == Success(None)
    ensures cal.Some? && !AddAccepts(title, start) ==> r == Success(cal)
    ensures cal.Some? && AddAccepts(title, start) ==>
      && r.Success? && r.value.Some?
      && r.value.value.events == cal.value.events + [Event(title.value, start.value)]
      && Synced(r.value.value)
  {
    if !AddAccepts(title, start) then Success(cal)
    else if cal.None? then Failure(CalendarUndefined)
    else Success(Some(Save(cal.value.events + [Event(title.value, start.value)])))
  }

  /**
   * A click on the event at `index`: `action` answers the command prompt,
   * `newTitle` and `newStart` the two edit prompts and `confirmed` the
   * delete confirmation.
   */
  function ClickEvent(cal: Calendar, index: nat, action: Option<string>,
                      newTitle: Option<string>, newStart: Option<string>, confirmed: bool): (r: Calendar)
    requires index < |cal.events|
    ensures action == Some(EditCommand) && EditAccepts(newTitle, newStart) ==>
      && r.events == cal.events[index := Event(newTitle.value, newStart.value)]
      && Synced(r)
    ensures action == Some(DeleteCommand) && confirmed ==>
      && r.events == cal.events[..index] + cal.events[index + 1..]
      && Synced(r)
    ensures (!(action == Some(EditCommand) && EditAccepts(newTitle, newStart))
             && !(action == Some(DeleteCommand) && confirmed)) ==> r == cal
  {
    if action == Some(EditCommand) then
      if EditAccepts(newTitle, newStart) then Save(cal.events[index := Event(newTitle.value, newStart.value)])
      else cal
    else if action == Some(DeleteCommand) then
      if confirmed then Save(cal.events[..index] + cal.events[index + 1..])
      else cal
    else cal
  }

  /** Every add keeps storage in step with the widget. */
  lemma AddKeepsSynced(cal: Calendar, title: Option<string>, start: Option<string>)
    requires Synced(cal)
    ensures AddEvent(Some(cal), title, start).Success?
    ensures AddEvent(Some(cal), title, start).value.Some?
    ensures Synced(AddEvent(Some(cal), title, start).value.value)
  {
  }

  /** Every click keeps storage in step with the widget. */
  lemma ClickKeepsSynced(cal: Calendar, index: nat, action: Option<string>,
                         newTitle: Option<string>, newStart: Option<string>, confirmed: bool)
    requires Synced(cal) && index < |cal.events|
    ensures Synced(ClickEvent(cal, index, action, newTitle, newStart, confirmed))
  {
  }

  /** An accepted add survives a reload as the last event, with the title and start entered. */
  lemma AddThenReload(cal: Calendar, title: Option<string>, start: Option<string>)
    requires AddAccepts(title, start)
    ensures var after := AddEvent(Some(cal), title, start).value.value;
      && Load(after.stored).events == cal.events + [Event(title.value, start.value)]
      && after.stored.value[|cal.events|] == Record(title.value, start.value)
  {
    var after := AddEvent(Some(cal), title, start).value.value;
    ReloadReproduces(after);
    SnapshotAt(after.events, |cal.events|);
  }

  /**
   * A confirmed delete removes exactly that event's record from the stored
   * snapshot, which is one record shorter than the event list was.
   */
  lemma DeleteDropsRecord(cal: Calendar, index: nat, newTitle: Option<string>, newStart: Option<string>)
    requires index < |cal.events|
    ensures var after := ClickEvent(cal, index, Some(DeleteCommand), newTitle, newStart, true);
      && |after.stored.value| == |cal.events| - 1
      && after.stored.value == Snapshot(cal.events)[..index] + Snapshot(cal.events)[index + 1..]
  {
    var es := cal.events;
    assert es == es[..index] + es[index..];
    SnapshotConcat(es[..index], es[index..]);
    assert es[index..] == [es[index]] + es[index + 1..];
    SnapshotConcat([es[index]], es[index + 1..]);
    SnapshotConcat(es[..index], es[index + 1..]);
    assert Snapshot(es)[..index] == Snapshot(es[..index]);
    assert Snapshot(es)[index + 1..] == Snapshot(es[index + 1..]);
  }

  /** An empty answer rejects an add but is accepted by an edit. */
  lemma EmptyAnswerGuards(cal: Calendar, index: nat, title: Option<string>)
    requires index < |cal.events|
    requires title.Some?
    ensures AddEvent(Some(cal), title, Some("")) == Success(Some(cal))
    ensures ClickEvent(cal, index, Some(EditCommand), title, Some(""), false).events[index] == Event(title.value, "")
  {
  }
}
