/**
 * The music player's playlist controller: an append-only list of tracks
 * seeded with three placeholders, the index of the current track, the
 * source handed to the audio element and the rendered playlist.
 */
module Playlist {
  import opened Wrappers

  /** A playable item: its display name and its source reference. */
  datatype Track = Track(name: string, src: string)

  /** One rendered playlist item: its text and whether it carries the `active` class. */
  datatype Entry = Entry(text: string, active: bool)

  /** The three placeholder tracks the page starts with. */
  const SeedTracks: seq<Track> := [
    Track("Track 1", "path/to/track1.mp3"),
    Track("Track 2", "path/to/track2.mp3"),
    Track("Track 3", "path/to/track3.mp3")
  ]

  /** The index the "next" button moves to in a list of `n` tracks. */
  function NextIndex(i: nat, n: nat): (r: nat)
    requires i < n
    ensures r < n
    ensures r == if i == n - 1 then 0 else i + 1
  {
    (i + 1) % n
  }

  /**
   * The index the "previous" button moves to in a list of `n` tracks.
   * Both operands of `%` are non-negative here, so the truncating remainder
   * of the page script and Dafny's Euclidean one agree.
   */
  function PrevIndex(i: nat, n: nat): (r: nat)
    requires i < n
    ensures r < n
    ensures r == if i == 0 then n - 1 else i - 1
  {
    (i - 1 + n) % n
  }

  /** "Previous" undoes "next" and "next" undoes "previous". */
  lemma PrevUndoesNext(i: nat, n: nat)
    requires i < n
    ensures PrevIndex(NextIndex(i, n), n) == i
    ensures NextIndex(PrevIndex(i, n), n) == i
  {
  }

  /** The index after `k` presses of "next". */
  function Advance(i: nat, n: nat, k: nat): (r: nat)
    requires i < n
    ensures r < n
  {
    if k == 0 then i else NextIndex(Advance(i, n, k - 1), n)
  }

  /** The index after `k` presses of "previous". */
  function Rewind(i: nat, n: nat, k: nat): (r: nat)
    requires i < n
    ensures r < n
  {
    if k == 0 then i else PrevIndex(Rewind(i, n, k - 1), n)
  }

  /** Two numbers that differ by a multiple of `n` have the same remainder. */
  lemma ModShift(a: int, q: int, n: int)
    requires n > 0
    ensures (a + q * n) % n == a % n
  {
    var r := a % n;
    var d := a / n;
    assert a == d * n + r;
    assert a + q * n == (d + q) * n + r;
    ModOfDecomposition(a + q * n, d + q, r, n);
  }

  /** `r` is the remainder of `a` when `a == d * n + r` with `0 <= r < n`. */
  lemma ModOfDecomposition(a: int, d: int, r: int, n: int)
    requires n > 0 && 0 <= r < n && a == d * n + r
    ensures a % n == r
  {
    var d', r' := a / n, a % n;
    assert a == d' * n + r';
    if d' != d {
      var x := if d' < d then d - d' else d' - d;
      assert x * n == if d' < d then r' - r else r - r' by {
        assert (d - d') * n == d * n - d' * n;
        assert (d' - d) * n == d' * n - d * n;
      }
      PositiveMultiple(x, n);
    }
  }

  /** A positive multiple of a positive `n` is at least `n`. */
  lemma PositiveMultiple(x: int, n: int)
    requires x >= 1 && n > 0
    ensures x * n >= n
  {
  }

  /** Stepping one place forward or back commutes with taking the remainder. */
  lemma ModStep(a: int, n: int)
    requires n > 0
    ensures (a % n + 1) % n == (a + 1) % n
    ensures (a % n - 1 + n) % n == (a - 1) % n
  {
    var d := a / n;
    assert a == d * n + a % n;
    ModShift(a + 1, -d, n);
    assert a % n + 1 == (a + 1) + (-d) * n;
    ModShift(a - 1, 1 - d, n);
    assert a % n - 1 + n == (a - 1) + (1 - d) * n;
  }

  /** `k` presses of "next" from `i` land on `(i + k) mod n`. */
  lemma {:induction false} AdvanceIsModular(i: nat, n: nat, k: nat)
    requires i < n
    ensures Advance(i, n, k) == (i + k) % n
  {
    if k == 0 {
      ModOfDecomposition(i, 0, i, n);
    } else {
      AdvanceIsModular(i, n, k - 1);
      ModStep(i + k - 1, n);
    }
  }

  /** `k` presses of "previous" from `i` land on `(i - k) mod n`. */
  lemma {:induction false} RewindIsModular(i: nat, n: nat, k: nat)
    requires i < n
    ensures Rewind(i, n, k) == (i - k) % n
  {
    if k == 0 {
      ModOfDecomposition(i, 0, i, n);
    } else {
      RewindIsModular(i, n, k - 1);
      ModStep(i - (k - 1), n);
    }
  }

  /** The playlist as `updatePlaylist` builds it: one entry per track, in order. */
  function Render(tracks: seq<Track>, current: nat): (entries: seq<Entry>)
    ensures |entries| == |tracks|
    ensures forall k :: 0 <= k < |tracks| ==> entries[k].text == tracks[k].name
    ensures forall k :: 0 <= k < |tracks| ==> (entries[k].active <==> k == current)
  {
    seq(|tracks|, k requires 0 <= k < |tracks| => Entry(tracks[k].name, k == current))
  }

  /** The positions of the entries that carry the `active` class. */
  function ActivePositions(entries: seq<Entry>): set<nat>
  {
    set k: nat | k < |entries| && entries[k].active
  }

  /**
   * The rendered playlist lists every track by name, in order, and exactly
   * the current track's entry is active.
   */
  lemma RenderMarksOnlyCurrent(tracks: seq<Track>, current: nat)
    requires current < |tracks|
    ensures |Render(tracks, current)| == |tracks|
    ensures forall k :: 0 <= k < |tracks| ==> Render(tracks, current)[k].text == tracks[k].name
    ensures ActivePositions(Render(tracks, current)) == {current}
  {
  }

  /** The page's playlist state and the part of the audio element it drives. */
  class Player {
    /** The track list; it only ever grows. */
    var tracks: seq<Track>
    /** The index of the current track. */
    var current: nat
    /** The source last handed to the audio element. */
    var source: string
    /** The rendered playlist items, in document order. */
    var playlist: seq<Entry>

    /**
     * The seeds are still the first three tracks, the current index is in
     * range, the audio element holds the current track and the rendered
     * playlist reflects the list and the current index.
     */
    ghost predicate Valid()
      reads this
    {
      && SeedTracks <= tracks
      && current < |tracks|
      && source == tracks[current].src
      && playlist == Render(tracks, current)
    }

    /** Page load: the three seed tracks, index 0, the first track loaded. */
    constructor ()
      ensures Valid()
      ensures tracks == SeedTracks && current == 0
    {
      tracks := SeedTracks;
      current := 0;
      source := "";
      playlist := [];
      new;
      LoadTrack(current);
    }

    /** Clears the playlist and appends one item per track. */
    method UpdatePlaylist()
      modifies this`playlist
      ensures playlist == Render(tracks, current)
    {
      playlist := [];
      var k := 0;
      while k < |tracks|
        invariant 0 <= k <= |tracks|
        invariant |playlist| == k
        invariant forall j :: 0 <= j < k ==> playlist[j] == Entry(tracks[j].name, j == current)
      {
        playlist := playlist + [Entry(tracks[k].name, k == current)];
        k := k + 1;
      }
    }

    /** Hands the track at `index` to the audio element and re-renders. */
    method LoadTrack(index: nat)
      requires index < |tracks|
      modifies this`source, this`playlist
      ensures source == tracks[index].src
      ensures playlist == Render(tracks, current)
    {
      source := tracks[index].src;
      UpdatePlaylist();
    }

    /** The "next" button: wraps from the last track to the first. */
    method Next()
      requires Valid()
      modifies this
      ensures Valid()
      ensures tracks == old(tracks)
      ensures current == NextIndex(old(current), |tracks|)
    {
      current := (current + 1) % |tracks|;
      LoadTrack(current);
    }

    /** The "previous" button: wraps from the first track to the last. */
    method Previous()
      requires Valid()
      modifies this
      ensures Valid()
      ensures tracks == old(tracks)
      ensures current == PrevIndex(old(current), |tracks|)
    {
      current := (current - 1 + |tracks|) % |tracks|;
      LoadTrack(current);
    }

    /** A click on the playlist item at `index` makes that track current. */
    method Select(index: nat)
      requires Valid()
      requires index < |playlist|
      modifies this
      ensures Valid()
      ensures tracks == old(tracks)
      ensures current == index
    {
      current := index;
      LoadTrack(current);
    }

    /**
     * The file input's change event: `file` is the name of the first chosen
     * file, if any, and `objectUrl` the session reference made for it.
     */
    method Upload(file: Option<string>, objectUrl: string)
      requires Valid()
      modifies this
      ensures Valid()
      ensures current == old(current) && source == old(source)
      ensures file.None? ==> tracks == old(tracks) && playlist == old(playlist)
      ensures file.Some? ==> tracks == old(tracks) + [Track(file.value, objectUrl)]
    {
      if file.Some? {
        tracks := tracks + [Track(file.value, objectUrl)];
        UpdatePlaylist();
      }
    }
  }

  /** `k` presses of the "next" button move the player to `(i + k) mod n`. */
  method PressNext(player: Player, k: nat)
    requires player.Valid()
    modifies player
    ensures player.Valid()
    ensures player.tracks == old(player.tracks)
    ensures player.current == (old(player.current) + k) % |player.tracks|
  {
    ghost var start := player.current;
    var j := 0;
    while j < k
      invariant 0 <= j <= k
      invariant player.Valid()
      invariant player.tracks == old(player.tracks)
      invariant player.current == Advance(start, |player.tracks|, j)
    {
      player.Next();
      j := j + 1;
    }
    AdvanceIsModular(start, |player.tracks|, k);
  }

  /** `k` presses of the "previous" button move the player to `(i - k) mod n`. */
  method PressPrevious(player: Player, k: nat)
    requires player.Valid()
    modifies player
    ensures player.Valid()
    ensures player.tracks == old(player.tracks)
    ensures player.current == (old(player.current) - k) % |player.tracks|
  {
    ghost var start := player.current;
    var j := 0;
    while j < k
      invariant 0 <= j <= k
      invariant player.Valid()
      invariant player.tracks == old(player.tracks)
      invariant player.current == Rewind(start, |player.tracks|, j)
    {
      player.Previous();
      j := j + 1;
    }
    RewindIsModular(start, |player.tracks|, k);
  }

  /**
   * From the three seeds at index 0, "previous" wraps to the last track and
   * two presses of "next" then land on the second.
   */
  method WrapAroundSession() returns (afterPrevious: nat, afterTwoNext: nat)
    ensures afterPrevious == 2 && afterTwoNext == 1
  {
    var player := new Player();
    player.Previous();
    afterPrevious := player.current;
    player.Next();
    player.Next();
    afterTwoNext := player.current;
  }
}
