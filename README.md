# Page-script model: playlist, navigation and calendar rules

A Dafny model of the logic inside `js/scripts.js`, the client-side script of a
single-page site with three parts:

- **Playlist controller** (`playlist.dfy`, module `Playlist`). The class `Player` holds
  the append-only track list, seeded with three placeholder tracks. It also holds
  the current track index, the source handed to the audio element, and the rendered
  playlist items. The "next" and "previous" buttons wrap around with modular
  arithmetic. A click on a playlist item selects it. A file upload appends a track.
  The invariant `Player.Valid` says four things:
  - the seeds are still the first three tracks;
  - the index is in range;
  - the audio element holds the current track;
  - the playlist shows every track in order, with exactly the current one active.
- **Section navigation** (`navigation.dfy`, module `Navigation`). The class `Page`
  keeps a map from section id to a visible flag. `ShowSection` hides every section
  in a loop and then shows one. It reports whether the calendar widget was asked
  to re-render, which happens only for the `calendar` section on a page that has
  a calendar.
- **Calendar event rules** (`calendar.dfy`, module `EventCalendar`). The calendar
  widget is an abstract sequence of `{title, start}` events, paired with the value
  of the `calendarEvents` storage key. Pure functions decide what the add-event
  button and a click on an event do:
  - `prompt` answers are `Option<string>` and the `confirm` answer is a `bool`;
  - add needs both answers truthy, so it rejects a cancelled answer and an empty one;
  - edit needs both answers non-null, so it accepts empty strings;
  - any command other than `edit` or `delete` does nothing.
  Every change is followed by `saveEvents`, a full snapshot with one record per
  event in widget order. The predicate `Synced` says that storage holds exactly
  the snapshot of the widget. Page load establishes it, every handler keeps it,
  and under it a reload reproduces the widget's events.

`wrappers.dfy` holds the `Option` and `Result` types.

Browser calls are replaced by parameters:
- the `prompt` and `confirm` answers;
- the chosen file's name and the object URL made for it;
- the list of the page's sections and whether a calendar container exists.

Events are saved only by the add, edit and delete handlers. The widget is
editable (`editable: true` at js/scripts.js:20), but the script installs no
`eventDrop` or `eventResize` handler. A moved or resized event is therefore not
saved until the next add, edit or delete.

## Model

| member | source | states |
|---|---|---|
| Playlist.NextIndex | js/scripts.js:122 | "next" stays in range, moves to the following track, and wraps from the last track to index 0 |
| Playlist.PrevIndex | js/scripts.js:116 | "previous" stays in range, moves to the preceding track, and wraps from index 0 to the last track |
| Playlist.PrevUndoesNext | js/scripts.js:115-125 | "previous" after "next" returns to the same index, and so does "next" after "previous" |
| Playlist.Advance | js/scripts.js:121-125 | repeated "next" presses never leave the list |
| Playlist.Rewind | js/scripts.js:115-119 | repeated "previous" presses never leave the list |
| Playlist.AdvanceIsModular | js/scripts.js:121-125 | k presses of "next" from i land on (i + k) mod n |
| Playlist.RewindIsModular | js/scripts.js:115-119 | k presses of "previous" from i land on (i - k) mod n |
| Playlist.Render | js/scripts.js:92-102 | one entry per track, named after it, in order; an entry is active iff its position is the current index |
| Playlist.RenderMarksOnlyCurrent | js/scripts.js:90-103 | the rendered playlist has one item per track, in order and named after it; exactly the current position is active |
| Playlist.Player.constructor | js/scripts.js:76-105 | the page starts with the three seed tracks at index 0, the first track loaded and the playlist rendered |
| Playlist.Player.UpdatePlaylist | js/scripts.js:90-103 | the playlist is rebuilt from scratch: one item per track, active exactly at the current index |
| Playlist.Player.LoadTrack | js/scripts.js:84-88 | the audio element gets the source of the track at the index, and the playlist is re-rendered |
| Playlist.Player.Next | js/scripts.js:121-125 | keeps the invariant; tracks unchanged; the index becomes NextIndex of the old index |
| Playlist.Player.Previous | js/scripts.js:115-119 | keeps the invariant; tracks unchanged; the index becomes PrevIndex of the old index |
| Playlist.Player.Select | js/scripts.js:96-99 | clicking a rendered item makes its position current; keeps the invariant; tracks unchanged |
| Playlist.Player.Upload | js/scripts.js:131-138 | with a file, appends exactly one track named after it and keeps earlier tracks in order; without one, nothing changes; index and audio source stay; the invariant is kept |
| Playlist.WrapAroundSession | js/scripts.js:76-125 | from the seeds at index 0, "previous" gives 2 and two "next" presses then give 1 |
| Playlist.PressNext | js/scripts.js:121-125 | k clicks of "next" on the player move its index from i to (i + k) mod n, keeping the invariant and the tracks |
| Playlist.PressPrevious | js/scripts.js:115-119 | k clicks of "previous" on the player move its index from i to (i - k) mod n, keeping the invariant and the tracks |
| Navigation.ShownExactlyOne | js/scripts.js:140-144 | after showing an existing section, every section has a state and exactly that one is visible |
| Navigation.Shown | js/scripts.js:141-144 | every section has a display state, and a section is visible iff it is the one shown |
| Navigation.Page.constructor | js/scripts.js:141 | a page whose sections, and nothing else, have a display state |
| Navigation.Page.ShowSection | js/scripts.js:140-148 | exactly the chosen section is visible afterwards; a re-render is requested iff it is `calendar` and a calendar exists |
| EventCalendar.Snapshot | js/scripts.js:57-63 | the saved snapshot has one record per event |
| EventCalendar.Restore | js/scripts.js:19 | page load creates one widget event per stored record |
| EventCalendar.StoredRecords | js/scripts.js:19 | an absent storage key reads as the empty list; a present one as its records |
| EventCalendar.SnapshotAt | js/scripts.js:58-61 | record k of the snapshot holds the title and start of event k |
| EventCalendar.SnapshotConcat | js/scripts.js:58-61 | the snapshot of two event lists joined is the two snapshots joined |
| EventCalendar.RestoreSnapshot | js/scripts.js:57-63 | loading a saved snapshot gives back the events it was taken from |
| EventCalendar.SnapshotRestore | js/scripts.js:19 | saving the events loaded from stored records gives back those records |
| EventCalendar.Load | js/scripts.js:19 | page load leaves storage as it was and the widget in step with it; an absent key reads as an empty list |
| EventCalendar.Save | js/scripts.js:57-63 | after saveEvents the widget keeps its events and the key is written with exactly their snapshot (an empty list included) |
| EventCalendar.ReloadReproduces | js/scripts.js:19 | when storage is in step with the widget, reloading the page gives back the widget's events |
| EventCalendar.AddAccepts | js/scripts.js:48 | the add guard accepts iff both answers are present and neither is empty: the edit guard plus non-emptiness |
| EventCalendar.EditAccepts | js/scripts.js:29 | the edit guard accepts iff both answers are present, empty strings included |
| EventCalendar.AddEvent | js/scripts.js:45-55 | appends one event with the entered title and start iff both answers are non-null and non-empty, then saves; otherwise nothing changes; a page with no calendar fails once the guard passes |
| EventCalendar.ClickEvent | js/scripts.js:21-39 | `edit` with both answers non-null replaces that event's title and start; confirmed `delete` removes it; both then save; anything else changes nothing |
| EventCalendar.AddKeepsSynced | js/scripts.js:45-55 | the add-event button on a page with a calendar succeeds and keeps storage in step with the widget |
| EventCalendar.ClickKeepsSynced | js/scripts.js:21-39 | every outcome of a click on an event keeps storage in step with the widget |
| EventCalendar.AddThenReload | js/scripts.js:45-63 | an accepted add survives a reload as the last event; its stored record has the entered title and start |
| EventCalendar.DeleteDropsRecord | js/scripts.js:34-38 | a confirmed delete removes exactly that event's record from storage; the snapshot is one record shorter |
| EventCalendar.EmptyAnswerGuards | js/scripts.js:29-48 | an empty start answer makes add do nothing, while edit accepts it |

## Left out

- Audio playback: `load`, `play`, `pause`, the play/pause button, the paused state and the autoplay rejection that is only logged. These belong to the browser's media element. The model records only which source the element was given.
- The volume slider (`value / 100`): floating point, outside the modelled logic.
- `URL.createObjectURL` and the file picker: their results are parameters of `Player.Upload`. The file is given by its name.
- `prompt` and `confirm`: their answers are parameters of `EventCalendar.AddEvent` and `EventCalendar.ClickEvent`.
- The calendar widget's internals: rendering, views, drag and resize. The widget is an ordered sequence of events. A drag or resize changes the widget without a save, so it would break `Synced`; it is not modelled.
- Date parsing and formatting (`setStart`, `toISOString`): `start` is an opaque string. A record's start is the event's start unchanged. Whatever the widget does with a start it cannot parse is not modelled.
- `localStorage` and JSON: storage is an optional sequence of records, not text. A stored value that does not parse as JSON aborts page load in the script; that case is not modelled.
- DOM wiring: `addEventListener`, `innerHTML`, element creation, and the binding of the three navigation links to `home`, `calendar` and `music`.
- Navigation.Page.ShowSection: requires that the id names one of the page's sections. The model assumes the page has sections with the three ids the links pass (`home`, `calendar`, `music` at js/scripts.js:4-6); the page's markup is not part of this model. For an id with no element, the script hides every section (lines 141-143) and then throws at line 144; that path is not modelled.
