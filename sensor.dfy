/** The two sensor entities: what they show for the data the coordinator
    publishes.  Entity registration, names, icons and the
    `detected_at` clock reading are not modelled. */
module Sensor {
  import opened Basics
  import Database
  import Coordinator

  /** The state shown when no song of the list is playing. */
  const UNAVAILABLE: string := "unavailable"

  /** The published song, when the last data names one. */
  function CurrentSong(data: Option<Coordinator.Update>): (r: Option<Database.SongDetails>)
    ensures r.Some? <==> data.Some? && data.value.Playing?
    ensures r.Some? ==> r.value == data.value.song
  {
    if data.Some? && data.value.Playing? then Some(data.value.song) else None
  }

  // ---------------------------------------------------------------------
  // The current-song sensor
  // ---------------------------------------------------------------------

  /** The state text of a playing song. */
  function SongLine(song: Database.Song): string {
    "#" + IntToString(song.position) + ": " + song.artist + " - " + song.title
  }

  /** `CurrentSongSensor.native_value`. */
  function CurrentValue(data: Option<Coordinator.Update>): (r: string)
    ensures CurrentSong(data).None? ==> r == UNAVAILABLE
    ensures CurrentSong(data).Some? ==> r == SongLine(CurrentSong(data).value.song) && r != UNAVAILABLE
  {
    match CurrentSong(data)
    case None => UNAVAILABLE
    case Some(s) =>
      assert SongLine(s.song)[0] == '#';
      SongLine(s.song)
  }

  /** The state text names the song: cut at its first `": "`, it gives the
      position after the `#` and then `artist - title`. */
  lemma {:induction false} SongLineReadsBack(song: Database.Song)
    ensures var r := SplitOnce(SongLine(song), ": ");
            r == Some(("#" + IntToString(song.position), song.artist + " - " + song.title)) &&
            ParseInt(r.value.0[1..]) == Some(song.position)
  {
    var a := "#" + IntToString(song.position);
    var u := a + ": "[..1];
    IntToStringChars(song.position);
    forall k | 0 <= k < |u| - 1
      ensures u[k] != ':'
    {
      if k > 0 {
        assert u[k] == IntToString(song.position)[k - 1];
      }
    }
    NoSeparatorBeforeLast(u);
    SplitOnceJoin(a, ": ", song.artist + " - " + song.title);
    assert SongLine(song) == a + ": " + (song.artist + " - " + song.title);
    assert a[1..] == IntToString(song.position);
    ParseIntToString(song.position);
  }

  /** A text whose colons, if any, are at its last character contains no
      `": "`. */
  lemma NoSeparatorBeforeLast(u: string)
    requires forall k :: 0 <= k < |u| - 1 ==> u[k] != ':'
    ensures !Contains(u, ": ")
  {
    forall j | 0 <= j
      ensures !OccursAt(u, ": ", j)
    {
      if j + 2 <= |u| {
        assert u[j..j + 2][0] == u[j];
      }
    }
  }

  /** The direction of a song's move since its most recent earlier
      listing, with the number of places. */
  datatype Trend = Up(places: nat) | Down(places: nat) | Same {
    /** `position_trend`. */
    function Text(): string {
      match this
      case Up(n) => "↑ " + IntToString(n)
      case Down(n) => "↓ " + IntToString(n)
      case Same => "→ 0"
    }

    /** `position_trend_direction`. */
    function Direction(): string {
      match this
      case Up(_) => "up"
      case Down(_) => "down"
      case Same => "same"
    }

    /** The signed change of position: up means a smaller number. */
    function Change(): int {
      match this
      case Up(n) => -(n as int)
      case Down(n) => n
      case Same => 0
    }
  }

  /** The trend from the previous position to the current one. */
  function TrendOf(current: int, previous: int): (r: Trend)
    ensures r.Up? <==> previous > current
    ensures r.Down? <==> previous < current
    ensures r.Same? <==> previous == current
    ensures r.Up? || r.Down? ==> r.places > 0
  {
    if previous > current then Up(previous - current)
    else if previous < current then Down(current - previous)
    else Same
  }

  /** The trend tells exactly where the song stood before: the previous
      position is the current one minus its signed change. */
  lemma TrendRecoversPrevious(current: int, previous: int)
    ensures current - TrendOf(current, previous).Change() == previous
    ensures TrendOf(current, previous).Text() == "→ 0" <==> previous == current
  {
    var r := TrendOf(current, previous);
    if r.Up? {
      assert r.Text()[0] == '↑';
    } else if r.Down? {
      assert r.Text()[0] == '↓';
    }
  }

  /** The trend of a song against the first entry of its history, the most
      recent earlier year; none without history. */
  function HistoryTrend(position: int, history: seq<Database.HistoryEntry>): (r: Option<Trend>)
    ensures r.Some? <==> history != []
    ensures r.Some? ==> r.value == TrendOf(position, history[0].position)
  {
    if history == [] then None else Some(TrendOf(position, history[0].position))
  }

  /** The state attributes of the current-song sensor. */
  datatype CurrentAttributes = CurrentAttributes(
    position: int, artist: string, title: string, year: Option<int>, coverArtUrl: Option<string>,
    funFact1: Option<string>, funFact2: Option<string>, funFact3: Option<string>,
    positionHistory: Option<seq<Database.HistoryEntry>>,
    trend: Option<string>, trendDirection: Option<string>)

  /** The `k`-th fun-fact attribute: set when there are at least `k` facts. */
  function FactSlot(facts: seq<string>, k: nat): (r: Option<string>)
    requires 1 <= k
    ensures r.Some? <==> |facts| >= k
    ensures r.Some? ==> r.value == facts[k - 1]
  {
    if |facts| >= k then Some(facts[k - 1]) else None
  }

  /** `CurrentSongSensor.extra_state_attributes`; `None` is the empty
      dictionary shown without a current song. */
  function Attributes(data: Option<Coordinator.Update>): (r: Option<CurrentAttributes>)
    ensures r.Some? <==> CurrentSong(data).Some?
    ensures r.Some? ==> var d := CurrentSong(data).value;
                        r.value.position == d.song.position && r.value.artist == d.song.artist &&
                        r.value.title == d.song.title && r.value.year == d.song.year &&
                        r.value.coverArtUrl == d.song.coverArtUrl
    ensures r.Some? ==> var d := CurrentSong(data).value;
                        (r.value.positionHistory.Some? <==> d.history != []) &&
                        (r.value.trend.Some? <==> d.history != []) &&
                        (r.value.trendDirection.Some? <==> d.history != [])
  {
    match CurrentSong(data)
    case None => None
    case Some(d) =>
      var s := d.song;
      var trend := HistoryTrend(s.position, d.history);
      Some(CurrentAttributes(
        s.position, s.artist, s.title, s.year, s.coverArtUrl,
        FactSlot(d.funFacts, 1), FactSlot(d.funFacts, 2), FactSlot(d.funFacts, 3),
        if d.history != [] then Some(d.history) else None,
        if trend.Some? then Some(trend.value.Text()) else None,
        if trend.Some? then Some(trend.value.Direction()) else None))
  }

  /** The fun facts shown are the song's first three, in order. */
  function ShownFacts(a: CurrentAttributes): seq<string> {
    (if a.funFact1.Some? then [a.funFact1.value] else []) +
    (if a.funFact2.Some? then [a.funFact2.value] else []) +
    (if a.funFact3.Some? then [a.funFact3.value] else [])
  }

  lemma ShownFactsAreFirstThree(data: Option<Coordinator.Update>)
    requires CurrentSong(data).Some?
    ensures var facts := CurrentSong(data).value.funFacts;
            ShownFacts(Attributes(data).value) == if |facts| <= 3 then facts else facts[..3]
  {
    var facts := CurrentSong(data).value.funFacts;
    var a := Attributes(data).value;
    assert a.funFact1 == FactSlot(facts, 1) && a.funFact2 == FactSlot(facts, 2) && a.funFact3 == FactSlot(facts, 3);
    if |facts| == 1 {
      assert facts == [facts[0]];
    } else if |facts| == 2 {
      assert facts == [facts[0], facts[1]];
    } else if |facts| >= 3 {
      assert facts[..3] == [facts[0], facts[1], facts[2]];
      if |facts| == 3 {
        assert facts == facts[..3];
      }
    }
  }

  /** The trend attributes agree with the first history entry: the
      direction matches the text, and the previous position is recovered. */
  lemma AttributesTrend(data: Option<Coordinator.Update>)
    requires CurrentSong(data).Some? && CurrentSong(data).value.history != []
    ensures var d := CurrentSong(data).value;
            var t := TrendOf(d.song.position, d.history[0].position);
            Attributes(data).value.trend == Some(t.Text()) &&
            Attributes(data).value.trendDirection == Some(t.Direction()) &&
            d.song.position - t.Change() == d.history[0].position
  {
    var d := CurrentSong(data).value;
    TrendRecoversPrevious(d.song.position, d.history[0].position);
  }

  /** `CurrentSongSensor.available`. */
  predicate CurrentAvailable(lastUpdateSuccess: bool, data: Option<Coordinator.Update>) {
    lastUpdateSuccess && CurrentSong(data).Some?
  }

  /** `UpcomingSongsSensor.available`. */
  predicate UpcomingAvailable(lastUpdateSuccess: bool, data: Option<Coordinator.Update>) {
    lastUpdateSuccess && data.Some?
  }

  /** The current-song sensor is available exactly when its state is not
      `unavailable` and the last refresh succeeded; whenever it is, so is
      the upcoming sensor. */
  lemma AvailabilityAgreesWithState(lastUpdateSuccess: bool, data: Option<Coordinator.Update>)
    ensures CurrentAvailable(lastUpdateSuccess, data) <==> lastUpdateSuccess && CurrentValue(data) != UNAVAILABLE
    ensures CurrentAvailable(lastUpdateSuccess, data) ==> UpcomingAvailable(lastUpdateSuccess, data)
  {
  }

  // ---------------------------------------------------------------------
  // The upcoming-songs sensor
  // ---------------------------------------------------------------------

  /** One entry of the `songs` attribute. */
  datatype UpcomingEntry = UpcomingEntry(position: int, artist: string, title: string, year: Option<int>,
                                         coverArtUrl: Option<string>,
                                         positionHistory: Option<seq<Database.HistoryEntry>>,
                                         trend: Option<string>)

  /** How one upcoming song is formatted. */
  function Entry(u: Database.UpcomingSong): (r: UpcomingEntry)
    ensures r.position == u.song.position && r.artist == u.song.artist && r.title == u.song.title
    ensures r.year == u.song.year && r.coverArtUrl == u.song.coverArtUrl
    ensures r.positionHistory.Some? <==> u.history != []
    ensures r.trend.Some? <==> u.history != []
  {
    var trend := HistoryTrend(u.song.position, u.history);
    UpcomingEntry(u.song.position, u.song.artist, u.song.title, u.song.year, u.song.coverArtUrl,
                  if u.history != [] then Some(u.history) else None,
                  if trend.Some? then Some(trend.value.Text()) else None)
  }

  /** The list shown for the songs the coordinator returned, in its order. */
  function Entries(us: seq<Database.UpcomingSong>): (r: seq<UpcomingEntry>)
    ensures |r| == |us|
    ensures forall i :: 0 <= i < |us| ==> r[i] == Entry(us[i])
  {
    if us == [] then [] else Entries(us[..|us| - 1]) + [Entry(us[|us| - 1])]
  }

  /** The `songs` attribute and the count shown beside it. */
  datatype UpcomingAttributes = UpcomingAttributes(count: nat, songs: seq<UpcomingEntry>,
                                                   currentPosition: Option<int>)

  class UpcomingSensor {
    const coordinator: Coordinator.Coordinator
    const upcomingCount: nat
    var songs: seq<UpcomingEntry>

    constructor (coordinator: Coordinator.Coordinator, upcomingCount: nat)
      ensures this.coordinator == coordinator && this.upcomingCount == upcomingCount && songs == []
    {
      this.coordinator := coordinator;
      this.upcomingCount := upcomingCount;
      songs := [];
    }

    /** `native_value`: the number of songs listed. */
    function Value(): nat
      reads this
    {
      |songs|
    }

    /** `extra_state_attributes`. */
    function Attributes(): (r: UpcomingAttributes)
      reads this, coordinator
      ensures r.count == Value() && r.songs == songs
      ensures r.currentPosition.Some? <==> CurrentSong(coordinator.data).Some?
      ensures r.currentPosition.Some? ==> r.currentPosition.value == CurrentSong(coordinator.data).value.song.position
    {
      var current := CurrentSong(coordinator.data);
      UpcomingAttributes(|songs|, songs, if current.Some? then Some(current.value.song.position) else None)
    }

    /** `_async_update_upcoming`: ask the coordinator for the next songs and
        list them, formatted, in the order given. */
    method UpdateUpcoming()
      modifies this`songs
      ensures !Playing(coordinator.data) ==> songs == []
      ensures Playing(coordinator.data) ==>
                songs == Entries(coordinator.db.State().UpcomingSongs(coordinator.data.value.song.song.position,
                                                                      upcomingCount))
    {
      ghost var t := coordinator.db.State();
      var upcoming := coordinator.GetUpcomingSongs(upcomingCount);
      Show(upcoming);
      assert coordinator.db.State() == t;
    }

    /** The formatting loop: the list is rebuilt, one entry per song. */
    method Show(upcoming: seq<Database.UpcomingSong>)
      modifies this`songs
      ensures songs == Entries(upcoming)
    {
      songs := [];
      for i := 0 to |upcoming|
        invariant songs == Entries(upcoming[..i])
      {
        assert upcoming[..i + 1][..i] == upcoming[..i];
        songs := songs + [Entry(upcoming[i])];
      }
      assert upcoming[..|upcoming|] == upcoming;
    }

    /** `_handle_coordinator_update`: the list is fetched again only when
        the published data says the song changed. */
    method HandleCoordinatorUpdate()
      modifies this`songs
      ensures !SongChanged(coordinator.data) ==> songs == old(songs)
      ensures SongChanged(coordinator.data) ==>
                songs == Entries(coordinator.db.State().UpcomingSongs(coordinator.data.value.song.song.position,
                                                                      upcomingCount))
    {
      if SongChanged(coordinator.data) {
        UpdateUpcoming();
      }
    }
  }

  /** The published data names a song of the list. */
  predicate Playing(data: Option<Coordinator.Update>) {
    data.Some? && data.value.Playing?
  }

  /** `data.get("song_changed", False)`: set only for a playing song. */
  predicate SongChanged(data: Option<Coordinator.Update>) {
    data.Some? && data.value.Playing? && data.value.songChanged
  }
}
