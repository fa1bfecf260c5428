/** The catalog store: the SQLite tables of the integration held in
    memory, the queries the other components run against them, the
    upserts that change them, and the fuzzy song matcher.

    Tables are sequences of rows in insertion (rowid) order.  `INSERT OR
    REPLACE` on a unique key becomes "drop the row holding that key, then
    append"; `AUTOINCREMENT` becomes an explicit next-id counter. */
module Database {
  import opened Basics
  import opened Seqs
  import NpoClient

  /** A combined score must reach this value (out of 100) to match. */
  const FUZZY_MATCH_THRESHOLD: int := 85
  /** A stored cover image is reused for 24 hours. */
  const CACHE_DURATION_SECONDS: int := 24 * 60 * 60
  /** Position history shows editions before this year only. */
  const CURRENT_EDITION_YEAR: int := 2025
  /** Default number of history entries returned. */
  const DEFAULT_HISTORY_LIMIT: nat := 5
  const DEFAULT_TARGETS: seq<string> := ["persistent_notification"]
  const DEFAULT_POSITIONS: seq<int> := [1, 2, 3]

  /** A similarity score as the fuzzy matching library reports it. */
  type Percent = x: real | 0.0 <= x <= 100.0

  /** A row of `songs`; `position` is unique, `id` is the row id. */
  datatype Song = Song(id: int, position: int, artist: string, title: string, year: Option<int>,
                       musicbrainzId: Option<string>, coverArtUrl: Option<string>,
                       coverArtCachedAt: Option<int>)

  /** A row of `position_history`; `(songId, year)` is unique. */
  datatype HistoryRow = HistoryRow(songId: int, year: int, position: int)

  /** One `{year, position}` entry of a song's history. */
  datatype HistoryEntry = HistoryEntry(year: int, position: int)

  /** A row of `fun_facts`. */
  datatype FunFact = FunFact(songId: int, text: string, order: int)

  /** The single row of `playlist_state`. */
  datatype PlaylistState = PlaylistState(currentPosition: int, currentSongId: int, detectedAt: int,
                                         npoMetadata: NpoClient.Metadata)

  /** A row of `notification_rules`. */
  datatype Rule = Rule(id: int, ruleType: string, pattern: string, enabled: bool)

  /** The single row of `notification_settings`; a list column is `None`
      when it holds SQL `NULL`. */
  datatype SettingsRow = SettingsRow(targets: Option<seq<string>>, notifyCurrent: bool,
                                     notifyUpcoming: bool, positions: Option<seq<int>>)

  /** Notification settings as read back, with defaults filled in. */
  datatype Settings = Settings(targets: seq<string>, notifyCurrent: bool, notifyUpcoming: bool,
                               positions: seq<int>)

  /** A song with its fun facts and recent history, as the matcher and
      the lookup by position return it. */
  datatype SongDetails = SongDetails(song: Song, funFacts: seq<string>, history: seq<HistoryEntry>)

  /** A song of the upcoming list with its recent history. */
  datatype UpcomingSong = UpcomingSong(song: Song, history: seq<HistoryEntry>)

  // ---------------------------------------------------------------------
  // Keys and row predicates used by the queries
  // ---------------------------------------------------------------------

  function PositionOf(s: Song): int { s.position }
  function YearOf(h: HistoryRow): int { h.year }
  function NegatedOrder(f: FunFact): int { -f.order }

  function Below(p: int): Song -> bool { (s: Song) => s.position < p }
  function NotAt(p: int): Song -> bool { (s: Song) => s.position != p }
  function PastEditionOf(songId: int): HistoryRow -> bool { (h: HistoryRow) => h.songId == songId && h.year < CURRENT_EDITION_YEAR }
  function NotKey(songId: int, year: int): HistoryRow -> bool { (h: HistoryRow) => h.songId != songId || h.year != year }
  function FactOf(songId: int): FunFact -> bool { (f: FunFact) => f.songId == songId }
  function Enabled(r: Rule): bool { r.enabled }
  function NotRule(id: int): Rule -> bool { (r: Rule) => r.id != id }

  predicate SongsDiffer(a: Song, b: Song) { a.position != b.position && a.id != b.id }
  predicate HistoryKeysDiffer(a: HistoryRow, b: HistoryRow) { a.songId != b.songId || a.year != b.year }
  predicate RuleIdsDiffer(a: Rule, b: Rule) { a.id != b.id }

  /** The first song at `position`. */
  function SongAt(songs: seq<Song>, position: int): (r: Option<Song>)
    ensures r.None? <==> forall s :: s in songs ==> s.position != position
    ensures r.Some? ==> r.value in songs && r.value.position == position
  {
    if songs == [] then None
    else if songs[0].position == position then Some(songs[0])
    else SongAt(songs[1..], position)
  }

  /** The first song with row id `id`. */
  function SongWithId(songs: seq<Song>, id: int): (r: Option<Song>)
    ensures r.None? <==> forall s :: s in songs ==> s.id != id
    ensures r.Some? ==> r.value in songs && r.value.id == id
  {
    if songs == [] then None
    else if songs[0].id == id then Some(songs[0])
    else SongWithId(songs[1..], id)
  }

  /** The first song whose artist and title equal the given ones up to
      case: `LOWER(artist) = LOWER(?) AND LOWER(title) = LOWER(?)`. */
  function SongNamed(songs: seq<Song>, artist: string, title: string): (r: Option<Song>)
    ensures r.None? <==> forall s :: s in songs ==> !(Lower(s.artist) == Lower(artist) && Lower(s.title) == Lower(title))
    ensures r.Some? ==> r.value in songs && Lower(r.value.artist) == Lower(artist) && Lower(r.value.title) == Lower(title)
  {
    if songs == [] then None
    else if Lower(songs[0].artist) == Lower(artist) && Lower(songs[0].title) == Lower(title) then Some(songs[0])
    else SongNamed(songs[1..], artist, title)
  }

  /** The lookup by name does not depend on the case of the name asked for. */
  lemma {:induction false} SongNamedIgnoresCase(songs: seq<Song>, artist: string, title: string)
    ensures SongNamed(songs, Lower(artist), Lower(title)) == SongNamed(songs, artist, title)
  {
    LowerIdempotent(artist);
    LowerIdempotent(title);
    if songs != [] {
      SongNamedIgnoresCase(songs[1..], artist, title);
    }
  }

  /** With unique positions, any song at `position` is the one the lookup finds. */
  lemma SongAtUnique(songs: seq<Song>, s: Song)
    requires Pairwise(songs, SongsDiffer)
    requires s in songs
    ensures SongAt(songs, s.position) == Some(s)
  {
    assert forall a, b :: 0 <= a < b < |songs| ==> songs[a].position != songs[b].position;
    var v := SongAt(songs, s.position).value;
    var i :| 0 <= i < |songs| && songs[i] == v;
    var j :| 0 <= j < |songs| && songs[j] == s;
  }

  /** With unique ids, any song with row id `s.id` is the one the lookup finds. */
  lemma SongWithIdUnique(songs: seq<Song>, s: Song)
    requires Pairwise(songs, SongsDiffer)
    requires s in songs
    ensures SongWithId(songs, s.id) == Some(s)
  {
    assert forall a, b :: 0 <= a < b < |songs| ==> songs[a].id != songs[b].id;
    var v := SongWithId(songs, s.id).value;
    var i :| 0 <= i < |songs| && songs[i] == v;
    var j :| 0 <= j < |songs| && songs[j] == s;
  }

  function Entries(rows: seq<HistoryRow>): (r: seq<HistoryEntry>)
    ensures |r| == |rows|
    ensures forall i :: 0 <= i < |rows| ==> r[i] == HistoryEntry(rows[i].year, rows[i].position)
  {
    if rows == [] then [] else [HistoryEntry(rows[0].year, rows[0].position)] + Entries(rows[1..])
  }

  function Texts(facts: seq<FunFact>): (r: seq<string>)
    ensures |r| == |facts|
    ensures forall i :: 0 <= i < |facts| ==> r[i] == facts[i].text
  {
    if facts == [] then [] else [facts[0].text] + Texts(facts[1..])
  }

  /** `x or default` on a list: an absent or empty list gives the default. */
  function OrDefault<T>(x: Option<seq<T>>, default: seq<T>): (r: seq<T>)
    ensures x.Some? && x.value != [] ==> r == x.value
    ensures x.None? || x.value == [] ==> r == default
  {
    if x.Some? && x.value != [] then x.value else default
  }

  /** The combined score of a catalog song against the reported artist
      and title: both sides are lower-cased and compared with the
      partial-ratio measure `ratio`, and the two scores are averaged. */
  function Score(ratio: (string, string) -> Percent, artist: string, title: string, s: Song): (r: real)
    ensures 0.0 <= r <= 100.0
    ensures var a, t := ratio(Lower(artist), Lower(s.artist)), ratio(Lower(title), Lower(s.title));
            (a <= r <= t) || (t <= r <= a)
  {
    (ratio(Lower(artist), Lower(s.artist)) + ratio(Lower(title), Lower(s.title))) / 2.0
  }

  /** `rows[k]` is the match the scan over the first `n` rows keeps: its
      score reaches the threshold, no row scores higher, and every earlier
      row scores strictly lower. */
  ghost predicate IsFirstBestUpTo(rows: seq<Song>, n: int, ratio: (string, string) -> Percent,
                                  artist: string, title: string, k: int)
    requires 0 <= n <= |rows|
  {
    0 <= k < n &&
    Score(ratio, artist, title, rows[k]) >= FUZZY_MATCH_THRESHOLD as real &&
    (forall j :: 0 <= j < n ==> Score(ratio, artist, title, rows[j]) <= Score(ratio, artist, title, rows[k])) &&
    (forall j :: 0 <= j < k ==> Score(ratio, artist, title, rows[j]) < Score(ratio, artist, title, rows[k]))
  }

  ghost predicate IsFirstBest(rows: seq<Song>, ratio: (string, string) -> Percent, artist: string, title: string, k: int) {
    IsFirstBestUpTo(rows, |rows|, ratio, artist, title, k)
  }

  /** The row the scan over the first `n` rows keeps, by index: a row
      replaces the one kept so far only when it reaches the threshold and
      scores strictly higher. */
  function BestIndex(rows: seq<Song>, n: nat, ratio: (string, string) -> Percent, artist: string, title: string)
    : (r: Option<nat>)
    requires n <= |rows|
    ensures r.Some? ==> r.value < n
  {
    if n == 0 then None
    else
      var kept := BestIndex(rows, n - 1, ratio, artist, title);
      var score := Score(ratio, artist, title, rows[n - 1]);
      if score >= FUZZY_MATCH_THRESHOLD as real && (kept.None? || score > Score(ratio, artist, title, rows[kept.value]))
      then Some(n - 1)
      else kept
  }

  /** The scan keeps nothing exactly when no row reaches the threshold,
      and otherwise the first row with the highest score. */
  lemma {:induction false} BestIndexIsFirstBest(rows: seq<Song>, n: nat, ratio: (string, string) -> Percent,
                                                artist: string, title: string)
    requires n <= |rows|
    ensures var r := BestIndex(rows, n, ratio, artist, title);
            (r.None? <==> forall j :: 0 <= j < n ==> Score(ratio, artist, title, rows[j]) < FUZZY_MATCH_THRESHOLD as real) &&
            (r.Some? ==> IsFirstBestUpTo(rows, n, ratio, artist, title, r.value))
  {
    if n > 0 {
      BestIndexIsFirstBest(rows, n - 1, ratio, artist, title);
    }
  }

  /** At most one row is the first best one, so the match is determined. */
  lemma FirstBestUnique(rows: seq<Song>, ratio: (string, string) -> Percent, artist: string, title: string,
                        k1: int, k2: int)
    requires IsFirstBest(rows, ratio, artist, title, k1)
    requires IsFirstBest(rows, ratio, artist, title, k2)
    ensures k1 == k2
  {
  }

  /** Matching is blind to the case of the reported artist and title. */
  lemma FirstBestIgnoresCase(rows: seq<Song>, ratio: (string, string) -> Percent, artist: string, title: string, k: int)
    ensures IsFirstBest(rows, ratio, Lower(artist), Lower(title), k) <==> IsFirstBest(rows, ratio, artist, title, k)
  {
    LowerIdempotent(artist);
    LowerIdempotent(title);
    assert forall s :: Score(ratio, Lower(artist), Lower(title), s) == Score(ratio, artist, title, s);
  }

  // ---------------------------------------------------------------------
  // The tables
  // ---------------------------------------------------------------------

  datatype Tables = Tables(songs: seq<Song>, nextSongId: int, history: seq<HistoryRow>, facts: seq<FunFact>,
                           playlist: Option<PlaylistState>, rules: seq<Rule>, nextRuleId: int,
                           settings: Option<SettingsRow>)
  {
    /** The schema's constraints: unique song positions and ids, ids below
        the autoincrement counter, unique `(song_id, year)` history keys,
        unique rule ids below their counter. */
    ghost predicate Valid() {
      Pairwise(songs, SongsDiffer) && (forall s :: s in songs ==> s.id < nextSongId) &&
      Pairwise(history, HistoryKeysDiffer) &&
      Pairwise(rules, RuleIdsDiffer) && (forall r :: r in rules ==> r.id < nextRuleId)
    }

    /** `is_populated`: the catalog holds at least one song. */
    function IsPopulated(): (r: bool)
      ensures r <==> exists s :: s in songs
    {
      assert songs != [] ==> songs[0] in songs;
      |songs| > 0
    }

    /** Fun facts of a song in `fact_order`. */
    function FactsOf(songId: int): seq<FunFact> {
      SortDesc(Filter(facts, FactOf(songId)), NegatedOrder)
    }

    /** The facts of a song are exactly its rows, in ascending `fact_order`. */
    lemma FactsOfOrdered(songId: int)
      ensures var r := FactsOf(songId);
              multiset(r) == multiset(Filter(facts, FactOf(songId))) &&
              forall i, j :: 0 <= i < j < |r| ==> r[i].order <= r[j].order
    {
      var r := FactsOf(songId);
      assert forall i, j :: 0 <= i < j < |r| ==> NegatedOrder(r[i]) >= NegatedOrder(r[j]);
    }

    /** `get_position_history(song_id, limit)`. */
    function PositionHistory(songId: int, limit: nat): seq<HistoryEntry> {
      Entries(Top(history, PastEditionOf(songId), YearOf, limit))
    }

    /** At most `limit` past editions of the song, each one of its history
        rows, most recent first. */
    lemma PositionHistoryRows(songId: int, limit: nat)
      ensures var r := PositionHistory(songId, limit);
              |r| <= limit &&
              (forall i :: 0 <= i < |r| ==>
                 r[i].year < CURRENT_EDITION_YEAR && HistoryRow(songId, r[i].year, r[i].position) in history) &&
              (forall i, j :: 0 <= i < j < |r| ==> r[i].year >= r[j].year)
    {
      var rows := Top(history, PastEditionOf(songId), YearOf, limit);
      assert forall i :: 0 <= i < |rows| ==> rows[i] in rows;
    }

    /** A song with its fun facts and last five past editions. */
    function Details(s: Song): (r: SongDetails)
      ensures r.song == s && r.history == PositionHistory(s.id, DEFAULT_HISTORY_LIMIT)
      ensures r.funFacts == Texts(FactsOf(s.id))
    {
      SongDetails(s, Texts(FactsOf(s.id)), PositionHistory(s.id, DEFAULT_HISTORY_LIMIT))
    }

    /** The song `match_song` returns for a reported artist and title. */
    function Match(ratio: (string, string) -> Percent, artist: string, title: string): Option<SongDetails> {
      match BestIndex(songs, |songs|, ratio, artist, title)
      case None => None
      case Some(k) => Some(Details(songs[k]))
    }

    /** No match exactly when every song scores below the threshold;
        otherwise the details of the first song with the best score. */
    lemma MatchIsFirstBest(ratio: (string, string) -> Percent, artist: string, title: string)
      ensures var r := Match(ratio, artist, title);
              (r.None? <==> forall s :: s in songs ==> Score(ratio, artist, title, s) < FUZZY_MATCH_THRESHOLD as real) &&
              (r.Some? ==> exists k :: IsFirstBest(songs, ratio, artist, title, k) && r.value == Details(songs[k]))
    {
      BestIndexIsFirstBest(songs, |songs|, ratio, artist, title);
      match BestIndex(songs, |songs|, ratio, artist, title)
      case None =>
        forall s | s in songs ensures Score(ratio, artist, title, s) < FUZZY_MATCH_THRESHOLD as real {
          var j :| 0 <= j < |songs| && songs[j] == s;
        }
      case Some(k) =>
    }

    /** `get_song_by_position`. */
    function SongByPosition(position: int): (r: Option<SongDetails>)
      ensures r.None? <==> forall s :: s in songs ==> s.position != position
      ensures r.Some? ==> r.value.song in songs && r.value.song.position == position &&
                          r.value == Details(r.value.song)
    {
      match SongAt(songs, position)
      case None => None
      case Some(s) => Some(Details(s))
    }

    /** `get_song_by_artist_title`: a case-insensitive exact lookup. */
    function SongByArtistTitle(artist: string, title: string): (r: Option<Song>)
      ensures r.None? <==> forall s :: s in songs ==> !(Lower(s.artist) == Lower(artist) && Lower(s.title) == Lower(title))
      ensures r.Some? ==> r.value in songs && Lower(r.value.artist) == Lower(artist) && Lower(r.value.title) == Lower(title)
    {
      SongNamed(songs, artist, title)
    }

    function WithHistory(rows: seq<Song>): (r: seq<UpcomingSong>)
      ensures |r| == |rows|
      ensures forall i :: 0 <= i < |rows| ==> r[i] == UpcomingSong(rows[i], PositionHistory(rows[i].id, DEFAULT_HISTORY_LIMIT))
    {
      if rows == [] then [] else [UpcomingSong(rows[0], PositionHistory(rows[0].id, DEFAULT_HISTORY_LIMIT))] + WithHistory(rows[1..])
    }

    /** `get_upcoming_songs(current, count)`: the songs still to come in the
        countdown, nearest first, each with its history. */
    function UpcomingSongs(current: int, count: nat): (r: seq<UpcomingSong>)
      ensures |r| <= count
      ensures forall i :: 0 <= i < |r| ==> r[i].song in songs && r[i].song.position < current &&
                                           r[i].history == PositionHistory(r[i].song.id, DEFAULT_HISTORY_LIMIT)
      ensures forall i, j :: 0 <= i < j < |r| ==> r[i].song.position >= r[j].song.position
    {
      var rows := Top(songs, Below(current), PositionOf, count);
      RowsBelow(songs, current, count);
      WithHistory(rows)
    }

    /** `is_cover_art_cached(song_id)` at clock `now`. */
    function IsCoverArtCached(songId: int, now: int): (r: bool)
      ensures r ==> SongWithId(songs, songId).Some?
      ensures r <==> SongWithId(songs, songId).Some? &&
                     var s := SongWithId(songs, songId).value;
                     Truthy(s.coverArtUrl) && s.coverArtCachedAt.Some? &&
                     now - s.coverArtCachedAt.value < CACHE_DURATION_SECONDS
    {
      match SongWithId(songs, songId)
      case None => false
      case Some(s) =>
        if !Truthy(s.coverArtUrl) || s.coverArtCachedAt.None? then false
        else now - s.coverArtCachedAt.value < CACHE_DURATION_SECONDS
    }

    /** `get_notification_settings`: the stored row, with the defaults in
        place of a missing row or a `NULL` list. */
    function NotificationSettings(): (r: Settings)
      ensures settings.None? ==> r == Settings(DEFAULT_TARGETS, true, false, DEFAULT_POSITIONS)
      ensures settings.Some? ==>
                r.targets == settings.value.targets.GetOr(DEFAULT_TARGETS) &&
                r.positions == settings.value.positions.GetOr(DEFAULT_POSITIONS) &&
                r.notifyCurrent == settings.value.notifyCurrent && r.notifyUpcoming == settings.value.notifyUpcoming
    {
      match settings
      case None => Settings(DEFAULT_TARGETS, true, false, DEFAULT_POSITIONS)
      case Some(row) =>
        Settings(row.targets.GetOr(DEFAULT_TARGETS), row.notifyCurrent, row.notifyUpcoming,
                 row.positions.GetOr(DEFAULT_POSITIONS))
    }

    /** `get_notification_rules(enabled_only)`, in insertion order. */
    function NotificationRules(enabledOnly: bool): (r: seq<Rule>)
      ensures forall x :: x in r <==> x in rules && (enabledOnly ==> x.enabled)
      ensures !enabledOnly ==> r == rules
    {
      if enabledOnly then Filter(rules, Enabled) else rules
    }

    // -------------------------------------------------------------------
    // Changes
    // -------------------------------------------------------------------

    /** `insert_song`: the row at `position`, if any, is replaced by a new
        row with the next id and no cover art. */
    function InsertSong(position: int, artist: string, title: string, year: Option<int>): (r: Tables)
      ensures r.nextSongId == nextSongId + 1
      ensures r.(songs := songs, nextSongId := nextSongId) == this
    {
      this.(songs := Filter(songs, NotAt(position)) + [Song(nextSongId, position, artist, title, year, None, None, None)],
            nextSongId := nextSongId + 1)
    }

    /** `insert_fun_fact`: a new fact row. */
    function InsertFunFact(songId: int, text: string, order: int): (r: Tables)
      ensures r.facts == facts + [FunFact(songId, text, order)]
      ensures r.(facts := facts) == this
    {
      this.(facts := facts + [FunFact(songId, text, order)])
    }

    /** `add_position_history`: the row for `(songId, year)`, if any, is
        replaced. */
    function AddPositionHistory(songId: int, year: int, position: int): (r: Tables)
      ensures HistoryRow(songId, year, position) in r.history
      ensures r.(history := history) == this
    {
      this.(history := Filter(history, NotKey(songId, year)) + [HistoryRow(songId, year, position)])
    }

    /** `update_cover_art`: the song with that id gets the URL, the
        MusicBrainz id and the time of caching. */
    function UpdateCoverArt(songId: int, url: string, mbid: Option<string>, now: int): (r: Tables)
      ensures |r.songs| == |songs|
      ensures forall i :: 0 <= i < |songs| ==>
                r.songs[i] == if songs[i].id == songId
                              then songs[i].(coverArtUrl := Some(url), coverArtCachedAt := Some(now), musicbrainzId := mbid)
                              else songs[i]
      ensures r.(songs := songs) == this
    {
      this.(songs := SetCoverArt(songs, songId, url, mbid, now))
    }

    /** `update_playlist_state`: the singleton row is replaced. */
    function UpdatePlaylistState(position: int, songId: int, metadata: NpoClient.Metadata, now: int): (r: Tables)
      ensures r.playlist == Some(PlaylistState(position, songId, now, metadata))
      ensures r.(playlist := playlist) == this
    {
      this.(playlist := Some(PlaylistState(position, songId, now, metadata)))
    }

    /** `add_notification_rule`: a new rule with the next id. */
    function AddNotificationRule(ruleType: string, pattern: string, enabled: bool): (r: Tables)
      ensures r.rules == rules + [Rule(nextRuleId, ruleType, pattern, enabled)]
      ensures r.nextRuleId == nextRuleId + 1
      ensures r.(rules := rules, nextRuleId := nextRuleId) == this
    {
      this.(rules := rules + [Rule(nextRuleId, ruleType, pattern, enabled)], nextRuleId := nextRuleId + 1)
    }

    /** `delete_notification_rule`. */
    function DeleteNotificationRule(id: int): (r: Tables)
      ensures forall x :: x in r.rules <==> x in rules && x.id != id
      ensures r.(rules := rules) == this
    {
      this.(rules := Filter(rules, NotRule(id)))
    }

    /** `update_notification_settings`: the given fields are written; with
        none given nothing happens; a missing row is created, with the
        defaults for the fields not given and for an empty list. */
    function UpdateNotificationSettings(targets: Option<seq<string>>, notifyCurrent: Option<bool>,
                                        notifyUpcoming: Option<bool>, positions: Option<seq<int>>): (r: Tables)
      ensures targets.None? && notifyCurrent.None? && notifyUpcoming.None? && positions.None? ==> r == this
      ensures r.(settings := settings) == this
    {
      if targets.None? && notifyCurrent.None? && notifyUpcoming.None? && positions.None? then this
      else match settings
        case Some(row) =>
          this.(settings := Some(SettingsRow(
            if targets.Some? then targets else row.targets,
            notifyCurrent.GetOr(row.notifyCurrent),
            notifyUpcoming.GetOr(row.notifyUpcoming),
            if positions.Some? then positions else row.positions)))
        case None =>
          this.(settings := Some(SettingsRow(
            Some(OrDefault(targets, DEFAULT_TARGETS)),
            notifyCurrent.GetOr(true),
            notifyUpcoming.GetOr(false),
            Some(OrDefault(positions, DEFAULT_POSITIONS)))))
    }
  }

  function SetCoverArt(songs: seq<Song>, songId: int, url: string, mbid: Option<string>, now: int): (r: seq<Song>)
    ensures |r| == |songs|
    ensures forall i :: 0 <= i < |songs| ==>
              r[i] == if songs[i].id == songId
                      then songs[i].(coverArtUrl := Some(url), coverArtCachedAt := Some(now), musicbrainzId := mbid)
                      else songs[i]
  {
    if songs == [] then []
    else
      var s := songs[0];
      [if s.id == songId then s.(coverArtUrl := Some(url), coverArtCachedAt := Some(now), musicbrainzId := mbid) else s]
        + SetCoverArt(songs[1..], songId, url, mbid, now)
  }

  /** The scan depends on the rows only through their scores. */
  lemma {:induction false} BestIndexSameScores(a: seq<Song>, b: seq<Song>, n: nat, ratio: (string, string) -> Percent,
                                               artist: string, title: string)
    requires n <= |a| && n <= |b|
    requires forall i :: 0 <= i < n ==> Score(ratio, artist, title, a[i]) == Score(ratio, artist, title, b[i])
    ensures BestIndex(a, n, ratio, artist, title) == BestIndex(b, n, ratio, artist, title)
  {
    if n > 0 {
      BestIndexSameScores(a, b, n - 1, ratio, artist, title);
      var kept := BestIndex(a, n - 1, ratio, artist, title);
      assert Score(ratio, artist, title, a[n - 1]) == Score(ratio, artist, title, b[n - 1]);
      if kept.Some? {
        assert Score(ratio, artist, title, a[kept.value]) == Score(ratio, artist, title, b[kept.value]);
      }
    }
  }

  /** Storing cover art leaves every song's artist and title alone, so a
      report matches the same song, by id, before and after. */
  lemma MatchIgnoresCoverArt(t: Tables, songId: int, url: string, mbid: Option<string>, now: int,
                             ratio: (string, string) -> Percent, artist: string, title: string)
    ensures var before := t.Match(ratio, artist, title);
            var after := t.UpdateCoverArt(songId, url, mbid, now).Match(ratio, artist, title);
            before.Some? == after.Some? && (before.Some? ==> after.value.song.id == before.value.song.id)
  {
    var u := t.UpdateCoverArt(songId, url, mbid, now);
    assert forall i :: 0 <= i < |t.songs| ==>
      Score(ratio, artist, title, u.songs[i]) == Score(ratio, artist, title, t.songs[i]);
    BestIndexSameScores(u.songs, t.songs, |t.songs|, ratio, artist, title);
  }

  /** The match depends on the songs, fun facts and history only. */
  lemma MatchReadsOnlyRows(t: Tables, u: Tables, ratio: (string, string) -> Percent, artist: string, title: string)
    requires t.songs == u.songs && t.facts == u.facts && t.history == u.history
    ensures t.Match(ratio, artist, title) == u.Match(ratio, artist, title)
  {
  }

  /** A freshly created database. */
  function Empty(): (t: Tables)
    ensures t.Valid() && !t.IsPopulated()
  {
    Tables([], 1, [], [], None, [], 1, None)
  }

  // ---------------------------------------------------------------------
  // Properties of the queries and changes
  // ---------------------------------------------------------------------

  /** Unique positions make the positions of any filtered catalog distinct. */
  lemma FilteredPositionsDistinct(songs: seq<Song>, keep: Song -> bool)
    requires Pairwise(songs, SongsDiffer)
    ensures DistinctKeys(Filter(songs, keep), PositionOf)
  {
    FilterPairwise(songs, keep, SongsDiffer);
    var f := Filter(songs, keep);
    forall i, j | 0 <= i < j < |f| ensures PositionOf(f[i]) != PositionOf(f[j]) {
      assert SongsDiffer(f[i], f[j]);
    }
  }

  /** Unique `(song_id, year)` keys make the years of one song's rows distinct. */
  lemma SongYearsDistinct(history: seq<HistoryRow>, songId: int)
    requires Pairwise(history, HistoryKeysDiffer)
    ensures DistinctKeys(Filter(history, PastEditionOf(songId)), YearOf)
  {
    var keep := PastEditionOf(songId);
    FilterPairwise(history, keep, HistoryKeysDiffer);
    var f := Filter(history, keep);
    forall i, j | 0 <= i < j < |f| ensures YearOf(f[i]) != YearOf(f[j]) {
      assert HistoryKeysDiffer(f[i], f[j]);
      assert f[i] in f && f[j] in f;
    }
  }

  lemma NextDownRows(songs: seq<Song>, current: int, count: nat)
    requires Pairwise(songs, SongsDiffer)
    ensures var rows := Top(songs, Below(current), PositionOf, count);
            StrictlyDescending(rows, PositionOf) &&
            forall s :: s in songs && s.position < current && s !in rows ==>
              |rows| == count && forall i :: 0 <= i < |rows| ==> s.position < rows[i].position
  {
    var rows := Top(songs, Below(current), PositionOf, count);
    FilteredPositionsDistinct(songs, Below(current));
    TopStrict(songs, Below(current), PositionOf, count);
    forall s | s in songs && s.position < current && s !in rows
      ensures |rows| == count && forall i :: 0 <= i < |rows| ==> s.position < rows[i].position
    {
      assert Below(current)(s);
      forall i | 0 <= i < |rows| ensures s.position < rows[i].position {
        assert rows[i] in rows;
      }
    }
  }

  /** The upcoming list is exactly the `count` highest positions below
      the current one, strictly descending: every song left out that is
      below `current` ranks under all songs listed, and it can only have
      been left out because the list is full. */
  lemma UpcomingSongsAreNextDown(t: Tables, current: int, count: nat)
    requires t.Valid()
    ensures var r := t.UpcomingSongs(current, count);
            (forall i, j :: 0 <= i < j < |r| ==> r[i].song.position > r[j].song.position) &&
            (forall s :: s in t.songs && s.position < current && (forall i :: 0 <= i < |r| ==> r[i].song != s) ==>
               |r| == count && forall i :: 0 <= i < |r| ==> s.position < r[i].song.position)
  {
    UpcomingDescending(t, current, count);
    var r := t.UpcomingSongs(current, count);
    forall s | s in t.songs && s.position < current && (forall i :: 0 <= i < |r| ==> r[i].song != s)
      ensures |r| == count && forall i :: 0 <= i < |r| ==> s.position < r[i].song.position
    {
      UpcomingMissing(t, current, count, s);
    }
  }

  /** The rows `get_upcoming_songs` selects, before their history is
      attached. */
  lemma RowsBelow(songs: seq<Song>, current: int, count: nat)
    ensures var rows := Top(songs, Below(current), PositionOf, count);
            |rows| <= count &&
            (forall i :: 0 <= i < |rows| ==> rows[i] in songs && rows[i].position < current) &&
            (forall i, j :: 0 <= i < j < |rows| ==> rows[i].position >= rows[j].position)
  {
    var rows := Top(songs, Below(current), PositionOf, count);
    forall i | 0 <= i < |rows| ensures rows[i] in songs && rows[i].position < current {
      assert rows[i] in rows;
      assert Below(current)(rows[i]);
    }
    forall i, j | 0 <= i < j < |rows| ensures rows[i].position >= rows[j].position {
      assert PositionOf(rows[i]) >= PositionOf(rows[j]);
    }
  }

  lemma UpcomingDescending(t: Tables, current: int, count: nat)
    requires t.Valid()
    ensures var r := t.UpcomingSongs(current, count);
            forall i, j :: 0 <= i < j < |r| ==> r[i].song.position > r[j].song.position
  {
    var rows := Top(t.songs, Below(current), PositionOf, count);
    NextDownRows(t.songs, current, count);
    assert t.UpcomingSongs(current, count) == t.WithHistory(rows);
    WithHistoryDescending(t, rows);
  }

  lemma UpcomingMissing(t: Tables, current: int, count: nat, s: Song)
    requires t.Valid() && s in t.songs && s.position < current
    requires var r := t.UpcomingSongs(current, count);
             forall i :: 0 <= i < |r| ==> r[i].song != s
    ensures var r := t.UpcomingSongs(current, count);
            |r| == count && forall i :: 0 <= i < |r| ==> s.position < r[i].song.position
  {
    var rows := Top(t.songs, Below(current), PositionOf, count);
    NextDownRows(t.songs, current, count);
    assert t.UpcomingSongs(current, count) == t.WithHistory(rows);
    WithHistoryMissing(t, rows, s, count);
  }

  lemma WithHistoryDescending(t: Tables, rows: seq<Song>)
    requires StrictlyDescending(rows, PositionOf)
    ensures var r := t.WithHistory(rows);
            forall i, j :: 0 <= i < j < |r| ==> r[i].song.position > r[j].song.position
  {
    var r := t.WithHistory(rows);
    forall i, j | 0 <= i < j < |r| ensures r[i].song.position > r[j].song.position {
      assert r[i].song == rows[i] && r[j].song == rows[j];
      assert PositionOf(rows[i]) > PositionOf(rows[j]);
    }
  }

  /** A song missing from the upcoming list is missing from the rows. */
  lemma WithHistoryMissing(t: Tables, rows: seq<Song>, s: Song, count: nat)
    requires s !in rows ==> |rows| == count && forall i :: 0 <= i < |rows| ==> s.position < rows[i].position
    requires forall i :: 0 <= i < |t.WithHistory(rows)| ==> t.WithHistory(rows)[i].song != s
    ensures |t.WithHistory(rows)| == count &&
            forall i :: 0 <= i < |t.WithHistory(rows)| ==> s.position < t.WithHistory(rows)[i].song.position
  {
    var r := t.WithHistory(rows);
    forall k | 0 <= k < |rows| ensures rows[k] != s {
      assert r[k].song == rows[k];
    }
  }

  lemma NewestFirstRows(history: seq<HistoryRow>, songId: int, limit: nat)
    requires Pairwise(history, HistoryKeysDiffer)
    ensures var rows := Top(history, PastEditionOf(songId), YearOf, limit);
            StrictlyDescending(rows, YearOf) &&
            forall h :: h in history && h.songId == songId && h.year < CURRENT_EDITION_YEAR && h !in rows ==>
              |rows| == limit && forall i :: 0 <= i < |rows| ==> h.year < rows[i].year
  {
    var keep := PastEditionOf(songId);
    var rows := Top(history, keep, YearOf, limit);
    SongYearsDistinct(history, songId);
    TopStrict(history, keep, YearOf, limit);
    forall h | h in history && h.songId == songId && h.year < CURRENT_EDITION_YEAR && h !in rows
      ensures |rows| == limit && forall i :: 0 <= i < |rows| ==> h.year < rows[i].year
    {
      assert keep(h);
      forall i | 0 <= i < |rows| ensures h.year < rows[i].year {
        assert rows[i] in rows;
      }
    }
  }

  /** History entries listed from the most recent edition back. */
  predicate NewestFirst(r: seq<HistoryEntry>) {
    forall i, j :: 0 <= i < j < |r| ==> r[i].year > r[j].year
  }

  /** If the edition of `h` is not listed, `limit` entries are, all of them
      more recent than `h`. */
  predicate OmitsOnlyOlder(r: seq<HistoryEntry>, h: HistoryRow, limit: nat) {
    (forall i :: 0 <= i < |r| ==> r[i].year != h.year) ==>
      |r| == limit && forall i :: 0 <= i < |r| ==> h.year < r[i].year
  }

  /** The history of a song lists its past editions newest first, and a
      past edition is missing only because `limit` entries are already
      listed, all of them more recent. */
  lemma PositionHistoryNewestFirst(t: Tables, songId: int, limit: nat)
    requires t.Valid()
    ensures var r := t.PositionHistory(songId, limit);
            NewestFirst(r) &&
            forall h :: h in t.history && h.songId == songId && h.year < CURRENT_EDITION_YEAR ==>
              OmitsOnlyOlder(r, h, limit)
  {
    EntriesNewestFirst(t.history, songId, limit);
  }

  lemma EntriesNewestFirst(history: seq<HistoryRow>, songId: int, limit: nat)
    requires Pairwise(history, HistoryKeysDiffer)
    ensures var r := Entries(Top(history, PastEditionOf(songId), YearOf, limit));
            NewestFirst(r) &&
            forall h :: h in history && h.songId == songId && h.year < CURRENT_EDITION_YEAR ==>
              OmitsOnlyOlder(r, h, limit)
  {
    var rows := Top(history, PastEditionOf(songId), YearOf, limit);
    NewestFirstRows(history, songId, limit);
    EntriesDescending(rows);
    forall h | h in history && h.songId == songId && h.year < CURRENT_EDITION_YEAR
      ensures OmitsOnlyOlder(Entries(rows), h, limit)
    {
      EntriesMissing(rows, h, limit);
    }
  }

  lemma EntriesDescending(rows: seq<HistoryRow>)
    requires StrictlyDescending(rows, YearOf)
    ensures NewestFirst(Entries(rows))
  {
    var r := Entries(rows);
    forall i, j | 0 <= i < j < |r| ensures r[i].year > r[j].year {
      assert YearOf(rows[i]) > YearOf(rows[j]);
    }
  }

  /** A year missing from the entries is missing from the rows. */
  lemma EntriesMissing(rows: seq<HistoryRow>, h: HistoryRow, limit: nat)
    requires h !in rows ==> |rows| == limit && forall i :: 0 <= i < |rows| ==> h.year < rows[i].year
    ensures OmitsOnlyOlder(Entries(rows), h, limit)
  {
    var r := Entries(rows);
    if forall i :: 0 <= i < |r| ==> r[i].year != h.year {
      forall k | 0 <= k < |rows| ensures rows[k] != h {
        assert r[k].year == rows[k].year;
      }
    }
  }

  /** `insert_song` keeps the schema's constraints, puts the new row at
      its position and leaves every other position as it was. */
  lemma InsertSongReplaces(t: Tables, position: int, artist: string, title: string, year: Option<int>, q: int)
    requires t.Valid()
    ensures var r := t.InsertSong(position, artist, title, year);
            r.Valid() &&
            SongAt(r.songs, position) == Some(Song(t.nextSongId, position, artist, title, year, None, None, None)) &&
            (q != position ==> SongAt(r.songs, q) == SongAt(t.songs, q))
  {
    var added := Song(t.nextSongId, position, artist, title, year, None, None, None);
    var kept := Filter(t.songs, NotAt(position));
    var r := t.InsertSong(position, artist, title, year);
    FilterPairwise(t.songs, NotAt(position), SongsDiffer);
    forall i | 0 <= i < |kept| ensures SongsDiffer(kept[i], added) {
      assert kept[i] in kept;
    }
    PairwiseAppend(kept, added, SongsDiffer);
    assert r.songs == kept + [added];
    SongAtUnique(r.songs, added);
    if q != position {
      match SongAt(t.songs, q)
      case None =>
      case Some(s) =>
        assert NotAt(position)(s);
        assert s in r.songs;
        SongAtUnique(r.songs, s);
    }
  }

  /** `add_position_history` keeps the keys unique, leaves exactly the new
      row for its key and every other row untouched. */
  lemma AddPositionHistoryUpserts(t: Tables, songId: int, year: int, position: int)
    requires t.Valid()
    ensures var r := t.AddPositionHistory(songId, year, position);
            r.Valid() &&
            (forall h :: h in r.history && h.songId == songId && h.year == year ==> h.position == position) &&
            (forall h: HistoryRow :: (h.songId != songId || h.year != year) ==> (h in r.history <==> h in t.history))
  {
    var row := HistoryRow(songId, year, position);
    var kept := Filter(t.history, NotKey(songId, year));
    FilterPairwise(t.history, NotKey(songId, year), HistoryKeysDiffer);
    forall i | 0 <= i < |kept| ensures HistoryKeysDiffer(kept[i], row) {
      assert kept[i] in kept;
    }
    PairwiseAppend(kept, row, HistoryKeysDiffer);
  }

  /** The lookup by id after `update_cover_art` finds the updated row. */
  lemma {:induction false} SetCoverArtFound(songs: seq<Song>, songId: int, url: string, mbid: Option<string>, now: int)
    ensures SongWithId(SetCoverArt(songs, songId, url, mbid, now), songId) ==
            match SongWithId(songs, songId)
            case None => None
            case Some(s) => Some(s.(coverArtUrl := Some(url), coverArtCachedAt := Some(now), musicbrainzId := mbid))
  {
    if songs != [] {
      SetCoverArtFound(songs[1..], songId, url, mbid, now);
      assert SetCoverArt(songs, songId, url, mbid, now)[1..] == SetCoverArt(songs[1..], songId, url, mbid, now);
    }
  }

  /** After storing a non-empty cover URL for an existing song, the cache
      holds for exactly 24 hours from that moment. */
  lemma UpdateCoverArtCaches(t: Tables, songId: int, url: string, mbid: Option<string>, now: int, later: int)
    requires SongWithId(t.songs, songId).Some?
    ensures var r := t.UpdateCoverArt(songId, url, mbid, now);
            r.IsCoverArtCached(songId, later) <==> url != "" && later - now < CACHE_DURATION_SECONDS
  {
    SetCoverArtFound(t.songs, songId, url, mbid, now);
  }

  /** `update_cover_art` changes no id and no position, so the schema's
      constraints still hold. */
  lemma UpdateCoverArtValid(t: Tables, songId: int, url: string, mbid: Option<string>, now: int)
    requires t.Valid()
    ensures t.UpdateCoverArt(songId, url, mbid, now).Valid()
  {
    var r := t.UpdateCoverArt(songId, url, mbid, now);
    assert forall i :: 0 <= i < |r.songs| ==> r.songs[i].id == t.songs[i].id && r.songs[i].position == t.songs[i].position;
    forall s | s in r.songs ensures s.id < r.nextSongId {
      var i :| 0 <= i < |r.songs| && r.songs[i] == s;
      assert t.songs[i] in t.songs;
    }
  }

  /** Fun facts are under no constraint of the schema's, so adding one
      keeps it. */
  lemma InsertFunFactValid(t: Tables, songId: int, text: string, order: int)
    requires t.Valid()
    ensures t.InsertFunFact(songId, text, order).Valid()
  {
  }

  /** The playlist state is under no constraint of the schema's, so
      replacing it keeps it. */
  lemma UpdatePlaylistStateValid(t: Tables, position: int, songId: int, metadata: NpoClient.Metadata, now: int)
    requires t.Valid()
    ensures t.UpdatePlaylistState(position, songId, metadata, now).Valid()
  {
  }

  /** The settings row is under no constraint of the schema's, so writing
      it keeps it. */
  lemma UpdateNotificationSettingsValid(t: Tables, targets: Option<seq<string>>, notifyCurrent: Option<bool>,
                                        notifyUpcoming: Option<bool>, positions: Option<seq<int>>)
    requires t.Valid()
    ensures t.UpdateNotificationSettings(targets, notifyCurrent, notifyUpcoming, positions).Valid()
  {
  }

  /** `add_notification_rule` keeps rule ids unique; the new rule is listed
      last, and among the enabled rules exactly when it is enabled. */
  lemma AddNotificationRuleListed(t: Tables, ruleType: string, pattern: string, enabled: bool)
    requires t.Valid()
    ensures var r := t.AddNotificationRule(ruleType, pattern, enabled);
            var rule := Rule(t.nextRuleId, ruleType, pattern, enabled);
            r.Valid() &&
            r.NotificationRules(false) == t.NotificationRules(false) + [rule] &&
            (rule in r.NotificationRules(true) <==> enabled)
  {
    var rule := Rule(t.nextRuleId, ruleType, pattern, enabled);
    forall i | 0 <= i < |t.rules| ensures RuleIdsDiffer(t.rules[i], rule) {
      assert t.rules[i] in t.rules;
    }
    PairwiseAppend(t.rules, rule, RuleIdsDiffer);
  }

  /** `delete_notification_rule` keeps rule ids unique and removes exactly
      the rule with that id. */
  lemma DeleteNotificationRuleRemoves(t: Tables, id: int)
    requires t.Valid()
    ensures var r := t.DeleteNotificationRule(id);
            r.Valid() &&
            (forall x :: x in r.NotificationRules(false) ==> x.id != id) &&
            (forall x :: x in t.rules && x.id != id ==> x in r.NotificationRules(false))
  {
    FilterPairwise(t.rules, NotRule(id), RuleIdsDiffer);
  }

  /** Writing the settings and reading them back: a field given is read
      back (an empty list only becomes the default when the row is first
      created), and a field not given reads as it did before. */
  lemma UpdateNotificationSettingsReadBack(t: Tables, targets: Option<seq<string>>, notifyCurrent: Option<bool>,
                                           notifyUpcoming: Option<bool>, positions: Option<seq<int>>)
    ensures var before := t.NotificationSettings();
            var after := t.UpdateNotificationSettings(targets, notifyCurrent, notifyUpcoming, positions).NotificationSettings();
            after.targets == (if targets.None? then before.targets
                              else if t.settings.None? then OrDefault(targets, DEFAULT_TARGETS)
                              else targets.value) &&
            after.notifyCurrent == notifyCurrent.GetOr(before.notifyCurrent) &&
            after.notifyUpcoming == notifyUpcoming.GetOr(before.notifyUpcoming) &&
            after.positions == (if positions.None? then before.positions
                                else if t.settings.None? then OrDefault(positions, DEFAULT_POSITIONS)
                                else positions.value)
  {
  }

  // ---------------------------------------------------------------------
  // The store object
  // ---------------------------------------------------------------------

  /** The database manager: its tables are updated in place. */
  class Catalog {
    var songs: seq<Song>
    var nextSongId: int
    var history: seq<HistoryRow>
    var facts: seq<FunFact>
    var playlist: Option<PlaylistState>
    var rules: seq<Rule>
    var nextRuleId: int
    var settings: Option<SettingsRow>

    function State(): Tables
      reads this
    {
      Tables(songs, nextSongId, history, facts, playlist, rules, nextRuleId, settings)
    }

    ghost predicate Valid()
      reads this
    {
      State().Valid()
    }

    /** `initialize` on a new database file: the empty schema. */
    constructor ()
      ensures State() == Empty() && Valid()
    {
      songs, nextSongId, history, facts := [], 1, [], [];
      playlist, rules, nextRuleId, settings := None, [], 1, None;
    }

    method InsertSong(position: int, artist: string, title: string, year: Option<int>) returns (id: int)
      requires Valid()
      modifies this
      ensures State() == old(State()).InsertSong(position, artist, title, year)
      ensures id == old(nextSongId) && SongAt(songs, position).Some? && SongAt(songs, position).value.id == id
      ensures Valid()
    {
      ghost var t := State();
      InsertSongReplaces(t, position, artist, title, year, position);
      id := nextSongId;
      songs := Filter(songs, NotAt(position)) + [Song(id, position, artist, title, year, None, None, None)];
      nextSongId := nextSongId + 1;
      assert State() == t.InsertSong(position, artist, title, year);
    }

    method InsertFunFact(songId: int, text: string, order: int)
      requires Valid()
      modifies this
      ensures State() == old(State()).InsertFunFact(songId, text, order)
      ensures Valid()
    {
      InsertFunFactValid(State(), songId, text, order);
      facts := facts + [FunFact(songId, text, order)];
    }

    method AddPositionHistory(songId: int, year: int, position: int)
      requires Valid()
      modifies this
      ensures State() == old(State()).AddPositionHistory(songId, year, position)
      ensures Valid()
    {
      AddPositionHistoryUpserts(State(), songId, year, position);
      history := Filter(history, NotKey(songId, year)) + [HistoryRow(songId, year, position)];
    }

    method UpdateCoverArt(songId: int, url: string, mbid: Option<string>, now: int)
      requires Valid()
      modifies this
      ensures State() == old(State()).UpdateCoverArt(songId, url, mbid, now)
      ensures Valid()
    {
      UpdateCoverArtValid(State(), songId, url, mbid, now);
      songs := SetCoverArt(songs, songId, url, mbid, now);
    }

    method UpdatePlaylistState(position: int, songId: int, metadata: NpoClient.Metadata, now: int)
      requires Valid()
      modifies this
      ensures State() == old(State()).UpdatePlaylistState(position, songId, metadata, now)
      ensures Valid()
    {
      UpdatePlaylistStateValid(State(), position, songId, metadata, now);
      playlist := Some(PlaylistState(position, songId, now, metadata));
    }

    method AddNotificationRule(ruleType: string, pattern: string, enabled: bool) returns (id: int)
      requires Valid()
      modifies this
      ensures State() == old(State()).AddNotificationRule(ruleType, pattern, enabled)
      ensures id == old(nextRuleId)
      ensures Valid()
    {
      AddNotificationRuleListed(State(), ruleType, pattern, enabled);
      id := nextRuleId;
      rules := rules + [Rule(id, ruleType, pattern, enabled)];
      nextRuleId := nextRuleId + 1;
    }

    method DeleteNotificationRule(id: int)
      requires Valid()
      modifies this
      ensures State() == old(State()).DeleteNotificationRule(id)
      ensures Valid()
    {
      DeleteNotificationRuleRemoves(State(), id);
      rules := Filter(rules, NotRule(id));
    }

    method UpdateNotificationSettings(targets: Option<seq<string>>, notifyCurrent: Option<bool>,
                                      notifyUpcoming: Option<bool>, positions: Option<seq<int>>)
      requires Valid()
      modifies this
      ensures State() == old(State()).UpdateNotificationSettings(targets, notifyCurrent, notifyUpcoming, positions)
      ensures Valid()
    {
      UpdateNotificationSettingsValid(State(), targets, notifyCurrent, notifyUpcoming, positions);
      if targets.None? && notifyCurrent.None? && notifyUpcoming.None? && positions.None? {
        return;
      }
      match settings
      case Some(row) =>
        settings := Some(SettingsRow(
          if targets.Some? then targets else row.targets,
          notifyCurrent.GetOr(row.notifyCurrent),
          notifyUpcoming.GetOr(row.notifyUpcoming),
          if positions.Some? then positions else row.positions));
      case None =>
        settings := Some(SettingsRow(
          Some(OrDefault(targets, DEFAULT_TARGETS)),
          notifyCurrent.GetOr(true),
          notifyUpcoming.GetOr(false),
          Some(OrDefault(positions, DEFAULT_POSITIONS))));
    }

    /** `match_song`: scan every song, keep the first one with the highest
        combined score, and accept it only when that score reaches the
        threshold.  The match comes with its fun facts and history. */
    method MatchSong(ratio: (string, string) -> Percent, artist: string, title: string)
      returns (r: Option<SongDetails>)
      ensures r == State().Match(ratio, artist, title)
    {
      var best: Option<Song> := None;
      var bestScore: real := 0.0;
      ghost var kept: Option<nat> := None;
      for i := 0 to |songs|
        invariant kept == BestIndex(songs, i, ratio, artist, title)
        invariant kept.None? ==> best.None? && bestScore == 0.0
        invariant kept.Some? ==> kept.value < i && best == Some(songs[kept.value]) &&
                                 bestScore == Score(ratio, artist, title, songs[kept.value])
      {
        var artistScore: real := ratio(Lower(artist), Lower(songs[i].artist));
        var titleScore: real := ratio(Lower(title), Lower(songs[i].title));
        var combined: real := (artistScore + titleScore) / 2.0;
        if combined > bestScore && combined >= FUZZY_MATCH_THRESHOLD as real {
          best := Some(songs[i]);
          bestScore := combined;
          kept := Some(i);
        }
      }
      if best.Some? {
        return Some(State().Details(best.value));
      }
      return None;
    }
  }
}
