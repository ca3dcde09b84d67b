/**
 * The navigation controller: each navigation link shows one page section
 * and hides all the others; showing the calendar section also asks the
 * calendar widget to lay itself out again.
 */
module Navigation {

  /** The id of the section that holds the calendar widget. */
  const CalendarSection := "calendar"

  /** The display state `showSection(id)` leaves: `id` visible, every other section hidden. */
  function Shown(sections: seq<string>, id: string): (display: map<string, bool>)
    ensures forall s :: s in display <==> s in sections
    ensures forall s :: s in display ==> (display[s] <==> s == id)
  {
    map s | s in sections :: s == id
  }

  /** The sections whose display state is visible. */
  function Visible(display: map<string, bool>): set<string>
  {
    set s | s in display && display[s]
  }

  /** Showing a section that exists leaves exactly that one visible. */
  lemma ShownExactlyOne(sections: seq<string>, id: string)
    requires id in sections
    ensures Shown(sections, id).Keys == set s | s in sections
    ensures Visible(Shown(sections, id)) == {id}
  {
  }

  /** The page's top-level sections and their display state. */
  class Page {
    /** The ids of the page's top-level sections, in document order. */
    const sections: seq<string>
    /** Whether the page has a calendar container, so that a calendar widget exists. */
    const hasCalendar: bool
    /** The visible flag of each section. */
    var display: map<string, bool>

    /** Every section, and nothing else, has a display state. */
    ghost predicate Valid()
      reads this
    {
      forall s :: s in display <==> s in sections
    }

    /** A page with the given sections, shown as `initial` says before any link is clicked. */
    constructor (sections: seq<string>, hasCalendar: bool, initial: map<string, bool>)
      requires forall s :: s in initial <==> s in sections
      ensures Valid()
      ensures this.sections == sections && this.hasCalendar == hasCalendar && display == initial
    {
      this.sections := sections;
      this.hasCalendar := hasCalendar;
      display := initial;
    }

    /**
     * `showSection(id)`: hides every section, then shows `id`. The result
     * says whether the calendar widget was asked to re-render.
     */
    method ShowSection(id: string) returns (rerender: bool)
      requires Valid()
      requires id in sections
      modifies this
      ensures Valid()
      ensures display == Shown(sections, id)
      ensures rerender <==> id == CalendarSection && hasCalendar
    {
      var k := 0;
      while k < |sections|
        invariant 0 <= k <= |sections|
        invariant Valid()
        invariant forall j :: 0 <= j < k ==> !display[sections[j]]
      {
        display := display[sections[k] := false];
        k := k + 1;
      }
      display := display[id := true];
      forall s | s in display
        ensures display[s] == (s == id)
      {
        if s != id {
          var j :| 0 <= j < |sections| && sections[j] == s;
        }
      }
      rerender := id == CalendarSection && hasCalendar;
    }
  }
}
