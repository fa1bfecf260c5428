/** The one-off import of the Top 2000 data set into the catalog.

    The SQL files are downloaded by name; each download is an input that
    either failed or gives the tuples the importer's patterns extract from
    the file (the pattern matching itself is not modelled). */
module DataImporter {
  import opened Basics
  import opened Seqs
  import Database

  /** The edition file holding each year's positions. */
  const EDITION_FILES: map<int, string> := map[
    2025 := "0065-EditionOf2025.sql",
    2024 := "0063-EditionOf2024.sql",
    2023 := "0059-EditionOf2023.sql",
    2022 := "0053-EditionOf2022.sql",
    2021 := "0050-EditionOf2021.sql",
    2020 := "0046-EditionOf2020.sql",
    2019 := "0044-EditionOf2019.sql",
    2018 := "0041-EditionOf2018.sql"
  ]

  /** The files holding track rows, oldest first. */
  const TRACK_FILES: seq<string> := [
    "0002-1999.sql", "0004-2000.sql", "0006-2001.sql", "0008-2002.sql", "0010-2003.sql",
    "0012-2004.sql", "0014-2005.sql", "0016-2006.sql", "0018-2007.sql", "0020-2008.sql",
    "0022-2009.sql", "0024-2010.sql", "0026-2011.sql", "0028-2012.sql", "0030-2013.sql",
    "0032-2014.sql", "0034-2015.sql", "0036-2016.sql", "0038-2017.sql", "0040-2018.sql",
    "0043-2019.sql", "0045-2020.sql", "0048-FixListings.sql", "0049-2021.sql",
    "0051-AviciiHeavenFix.sql", "0052-2022.sql", "0055-FixingLists.sql", "0056-2023.sql",
    "0058-2023_Full.sql", "0062-2024.sql", "0064-2025.sql", "0066-RunLikeHell.sql"
  ]

  /** The years imported when none are given. */
  const DEFAULT_IMPORT_YEARS: seq<int> := [2018, 2019, 2020, 2021, 2022, 2023, 2024, 2025]

  /** One track tuple as extracted: id, title, artist (both still with
      SQL-escaped quotes) and year. */
  datatype TrackMatch = TrackMatch(trackId: nat, title: string, artist: string, year: nat)

  /** One listing tuple as extracted: track id, edition and position.  The
      edition is read but the year being imported is what gets stored. */
  datatype ListingMatch = ListingMatch(trackId: nat, edition: nat, position: nat)

  datatype TrackFile = TrackDownloadFailed | Tracks(matches: seq<TrackMatch>)
  datatype EditionFile = EditionDownloadFailed | Listings(listings: seq<ListingMatch>)

  /** A track as the importer keeps it. */
  datatype Track = Track(artist: string, title: string, year: int)

  // ---------------------------------------------------------------------
  // Quote unescaping
  // ---------------------------------------------------------------------

  /** `replace("''", "'")`: each doubled quote, scanning left to right
      without overlap, becomes one quote. */
  function Unescape(s: string): (r: string)
    ensures |r| <= |s|
    ensures '\'' !in s ==> r == s
    decreases |s|
  {
    if |s| >= 2 && s[0] == '\'' && s[1] == '\'' then "'" + Unescape(s[2..])
    else if s == [] then []
    else
      var r := [s[0]] + Unescape(s[1..]);
      assert '\'' !in s ==> '\'' !in s[1..];
      r
  }

  /** SQL quoting: every quote doubled. */
  function Escape(s: string): (r: string)
    ensures |r| == |s| + multiset(s)['\'']
    ensures '\'' !in s ==> r == s
  {
    if s == [] then []
    else
      assert s == [s[0]] + s[1..];
      (if s[0] == '\'' then "''" else [s[0]]) + Escape(s[1..])
  }

  /** Unescaping undoes the quoting of any text. */
  lemma {:induction false} UnescapeEscape(s: string)
    ensures Unescape(Escape(s)) == s
  {
    if s != [] {
      UnescapeEscape(s[1..]);
      var e := Escape(s[1..]);
      if s[0] == '\'' {
        assert Escape(s) == "''" + e;
        assert ("''" + e)[2..] == e;
      } else {
        assert Escape(s) == [s[0]] + e;
        assert ([s[0]] + e)[1..] == e;
      }
      assert s == [s[0]] + s[1..];
    }
  }

  /** The track kept for a tuple: field 1 is the title and field 2 the
      artist, both unescaped. */
  function TrackOf(m: TrackMatch): (r: Track)
    ensures r.title == Unescape(m.title) && r.artist == Unescape(m.artist) && r.year == m.year
  {
    Track(Unescape(m.artist), Unescape(m.title), m.year)
  }

  // ---------------------------------------------------------------------
  // Merging tracks
  // ---------------------------------------------------------------------

  /** The tracks after adding the tuples in order: an id already present
      is never overwritten. */
  function MergeMatches(tracks: map<nat, Track>, ms: seq<TrackMatch>): map<nat, Track> {
    if ms == [] then tracks
    else
      var m := MergeMatches(tracks, ms[..|ms| - 1]);
      var x := ms[|ms| - 1];
      if x.trackId in m then m else m[x.trackId := TrackOf(x)]
  }

  /** The merged ids are the old ones and those of the tuples, and an id
      already present keeps its track. */
  lemma {:induction false} MergeMatchesKeys(tracks: map<nat, Track>, ms: seq<TrackMatch>)
    ensures var r := MergeMatches(tracks, ms);
            (forall id :: id in r <==> id in tracks || exists i :: 0 <= i < |ms| && ms[i].trackId == id) &&
            (forall id :: id in tracks ==> r[id] == tracks[id])
  {
    if ms != [] {
      var init := ms[..|ms| - 1];
      MergeMatchesKeys(tracks, init);
      assert forall i :: 0 <= i < |init| ==> init[i] == ms[i];
      forall id | id in MergeMatches(tracks, ms)
        ensures id in tracks || exists i :: 0 <= i < |ms| && ms[i].trackId == id
      {
        if id !in MergeMatches(tracks, init) {
          assert ms[|ms| - 1].trackId == id;
        }
      }
      forall id | exists i :: 0 <= i < |ms| && ms[i].trackId == id
        ensures id in MergeMatches(tracks, ms)
      {
        var i :| 0 <= i < |ms| && ms[i].trackId == id;
        if i < |init| {
          assert init[i].trackId == id;
        }
      }
    }
  }

  /** Adding two runs of tuples is adding the first, then the second. */
  lemma {:induction false} MergeMatchesAppend(tracks: map<nat, Track>, a: seq<TrackMatch>, b: seq<TrackMatch>)
    ensures MergeMatches(tracks, a + b) == MergeMatches(MergeMatches(tracks, a), b)
    decreases |b|
  {
    if b == [] {
      assert a + b == a;
    } else {
      var init := b[..|b| - 1];
      MergeMatchesAppend(tracks, a, init);
      assert (a + b)[..|a + b| - 1] == a + init;
      assert (a + b)[|a + b| - 1] == b[|b| - 1];
    }
  }

  /** The first tuple with a new id decides that track for good. */
  lemma {:induction false} FirstOccurrenceWins(tracks: map<nat, Track>, ms: seq<TrackMatch>, i: nat)
    requires i < |ms| && ms[i].trackId !in tracks
    requires forall j :: 0 <= j < i ==> ms[j].trackId != ms[i].trackId
    ensures ms[i].trackId in MergeMatches(tracks, ms)
    ensures MergeMatches(tracks, ms)[ms[i].trackId] == TrackOf(ms[i])
    decreases |ms|
  {
    var init := ms[..|ms| - 1];
    if i == |ms| - 1 {
      MergeMatchesKeys(tracks, init);
      assert forall j :: 0 <= j < |init| ==> init[j].trackId != ms[i].trackId;
    } else {
      FirstOccurrenceWins(tracks, init, i);
    }
  }

  /** The tuples of the track files, in file order; a file whose
      download failed contributes nothing. */
  function AllMatches(files: seq<string>, download: string -> TrackFile): (r: seq<TrackMatch>)
  {
    if files == [] then []
    else
      var last := download(files[|files| - 1]);
      AllMatches(files[..|files| - 1], download) + if last.Tracks? then last.matches else []
  }

  /** A tuple is read exactly when it comes from a file that downloaded. */
  lemma {:induction false} AllMatchesFromDownloadedFiles(files: seq<string>, download: string -> TrackFile,
                                                         m: TrackMatch)
    ensures m in AllMatches(files, download) <==>
            exists i :: 0 <= i < |files| && download(files[i]).Tracks? && m in download(files[i]).matches
  {
    if files != [] {
      var init := files[..|files| - 1];
      AllMatchesFromDownloadedFiles(init, download, m);
      assert forall i :: 0 <= i < |init| ==> init[i] == files[i];
      var k := |files| - 1;
      if download(files[k]).Tracks? && m in download(files[k]).matches {
        assert m in AllMatches(files, download);
      }
    }
  }

  // ---------------------------------------------------------------------
  // Listings
  // ---------------------------------------------------------------------

  /** What one listing does to the tables: nothing for an unknown track;
      when songs are created, a new song at the position plus its history
      row for `year`; otherwise a history row for the song with the same
      artist and title, if there is one. */
  function ApplyListing(t: Database.Tables, tracks: map<nat, Track>, year: int, createSongs: bool,
                        l: ListingMatch): (r: Database.Tables)
    ensures l.trackId !in tracks ==> r == t
    ensures !createSongs ==> r.songs == t.songs && r.nextSongId == t.nextSongId
    ensures !createSongs && l.trackId in tracks ==>
              match t.SongByArtistTitle(tracks[l.trackId].artist, tracks[l.trackId].title)
              case None => r == t
              case Some(s) => r == t.AddPositionHistory(s.id, year, l.position)
    ensures createSongs && l.trackId in tracks ==>
              var tr := tracks[l.trackId];
              r == t.InsertSong(l.position, tr.artist, tr.title, Some(tr.year))
                    .AddPositionHistory(t.nextSongId, year, l.position)
  {
    if l.trackId !in tracks then t
    else
      var track := tracks[l.trackId];
      if createSongs then
        t.InsertSong(l.position, track.artist, track.title, Some(track.year))
         .AddPositionHistory(t.nextSongId, year, l.position)
      else match t.SongByArtistTitle(track.artist, track.title)
        case None => t
        case Some(s) => t.AddPositionHistory(s.id, year, l.position)
  }

  /** The listings applied in order. */
  function ApplyListings(t: Database.Tables, tracks: map<nat, Track>, year: int, createSongs: bool,
                         ls: seq<ListingMatch>): (r: Database.Tables)
    ensures !createSongs ==> r.songs == t.songs && r.nextSongId == t.nextSongId
  {
    if ls == [] then t
    else ApplyListing(ApplyListings(t, tracks, year, createSongs, ls[..|ls| - 1]), tracks, year, createSongs,
                      ls[|ls| - 1])
  }

  /** `_import_listings`: a year without an edition file, or whose file
      fails to download, changes nothing. */
  function ListingsEffect(t: Database.Tables, tracks: map<nat, Track>, year: int, createSongs: bool,
                          editions: string -> EditionFile): (r: Database.Tables)
    ensures year !in EDITION_FILES ==> r == t
    ensures year in EDITION_FILES && editions(EDITION_FILES[year]).EditionDownloadFailed? ==> r == t
    ensures !createSongs ==> r.songs == t.songs && r.nextSongId == t.nextSongId
  {
    if year !in EDITION_FILES then t
    else match editions(EDITION_FILES[year])
      case EditionDownloadFailed => t
      case Listings(ls) => ApplyListings(t, tracks, year, createSongs, ls)
  }

  /** The historical years, in the order given, adding history only. */
  function HistoryEffect(t: Database.Tables, tracks: map<nat, Track>, years: seq<int>,
                         editions: string -> EditionFile): (r: Database.Tables)
    ensures r.songs == t.songs && r.nextSongId == t.nextSongId
  {
    if years == [] then t
    else ListingsEffect(HistoryEffect(t, tracks, years[..|years| - 1], editions), tracks, years[|years| - 1],
                        false, editions)
  }

  /** The whole listing import: the first year creates the songs, every
      later one only adds history. */
  function ImportEffect(t: Database.Tables, tracks: map<nat, Track>, years: seq<int>,
                        editions: string -> EditionFile): (r: Database.Tables)
    requires years != []
    ensures r.songs == ListingsEffect(t, tracks, years[0], true, editions).songs
  {
    HistoryEffect(ListingsEffect(t, tracks, years[0], true, editions), tracks, years[1..], editions)
  }

  function YearKey(year: int): int { year }

  /** The years in import order: newest first, each given year once per
      occurrence. */
  function ImportOrder(years: seq<int>): (r: seq<int>)
    ensures multiset(r) == multiset(years) && |r| == |years|
    ensures forall i, j :: 0 <= i < j < |r| ==> r[i] >= r[j]
  {
    var r := SortDesc(years, YearKey);
    assert |r| == |multiset(r)| == |multiset(years)| == |years|;
    r
  }

  // ---------------------------------------------------------------------
  // The catalog stays consistent
  // ---------------------------------------------------------------------

  lemma ApplyListingValid(t: Database.Tables, tracks: map<nat, Track>, year: int, createSongs: bool,
                          l: ListingMatch)
    requires t.Valid()
    ensures ApplyListing(t, tracks, year, createSongs, l).Valid()
  {
    if l.trackId in tracks {
      var tr := tracks[l.trackId];
      if createSongs {
        Database.InsertSongReplaces(t, l.position, tr.artist, tr.title, Some(tr.year), l.position);
        var t1 := t.InsertSong(l.position, tr.artist, tr.title, Some(tr.year));
        Database.AddPositionHistoryUpserts(t1, t.nextSongId, year, l.position);
      } else if t.SongByArtistTitle(tr.artist, tr.title).Some? {
        Database.AddPositionHistoryUpserts(t, t.SongByArtistTitle(tr.artist, tr.title).value.id, year, l.position);
      }
    }
  }

  lemma {:induction false} ApplyListingsValid(t: Database.Tables, tracks: map<nat, Track>, year: int,
                                              createSongs: bool, ls: seq<ListingMatch>)
    requires t.Valid()
    ensures ApplyListings(t, tracks, year, createSongs, ls).Valid()
    decreases |ls|
  {
    if ls != [] {
      ApplyListingsValid(t, tracks, year, createSongs, ls[..|ls| - 1]);
      ApplyListingValid(ApplyListings(t, tracks, year, createSongs, ls[..|ls| - 1]), tracks, year, createSongs,
                        ls[|ls| - 1]);
    }
  }

  lemma {:induction false} HistoryEffectValid(t: Database.Tables, tracks: map<nat, Track>, years: seq<int>,
                                              editions: string -> EditionFile)
    requires t.Valid()
    ensures HistoryEffect(t, tracks, years, editions).Valid()
    decreases |years|
  {
    if years != [] {
      var init := years[..|years| - 1];
      var year := years[|years| - 1];
      HistoryEffectValid(t, tracks, init, editions);
      var h := HistoryEffect(t, tracks, init, editions);
      if year in EDITION_FILES && editions(EDITION_FILES[year]).Listings? {
        ApplyListingsValid(h, tracks, year, false, editions(EDITION_FILES[year]).listings);
      }
    }
  }

  /** Importing keeps every song at its own position with its own id and
      at most one history row per song and year. */
  lemma ImportKeepsCatalogValid(t: Database.Tables, tracks: map<nat, Track>, years: seq<int>,
                                editions: string -> EditionFile)
    requires t.Valid() && years != []
    ensures ImportEffect(t, tracks, years, editions).Valid()
  {
    var first := years[0];
    if first in EDITION_FILES && editions(EDITION_FILES[first]).Listings? {
      ApplyListingsValid(t, tracks, first, true, editions(EDITION_FILES[first]).listings);
    }
    HistoryEffectValid(ListingsEffect(t, tracks, first, true, editions), tracks, years[1..], editions);
  }

  /** A listing of the newest year puts its track at the listed position
      under a fresh id, with a history row for that year. */
  lemma NewestYearCreatesSong(t: Database.Tables, tracks: map<nat, Track>, year: int, l: ListingMatch)
    requires t.Valid() && l.trackId in tracks
    ensures var r := ApplyListing(t, tracks, year, true, l);
            var tr := tracks[l.trackId];
            Database.SongAt(r.songs, l.position) ==
              Some(Database.Song(t.nextSongId, l.position, tr.artist, tr.title, Some(tr.year), None, None, None)) &&
            Database.HistoryRow(t.nextSongId, year, l.position) in r.history
  {
    var tr := tracks[l.trackId];
    Database.InsertSongReplaces(t, l.position, tr.artist, tr.title, Some(tr.year), l.position);
  }

  // ---------------------------------------------------------------------
  // The importer
  // ---------------------------------------------------------------------

  class Importer {
    const db: Database.Catalog
    /** The tracks read so far, by track id. */
    var tracks: map<nat, Track>
    /** The years to import; never empty. */
    const importYears: seq<int>

    /** Given no years, or an empty list, all years with an edition file
        are imported. */
    constructor (db: Database.Catalog, importYears: Option<seq<int>>)
      ensures this.db == db && tracks == map[]
      ensures this.importYears ==
              if importYears.None? || importYears.value == [] then DEFAULT_IMPORT_YEARS else importYears.value
      ensures this.importYears != []
    {
      this.db := db;
      tracks := map[];
      this.importYears :=
        if importYears.None? || importYears.value == [] then DEFAULT_IMPORT_YEARS else importYears.value;
    }

    /** `_import_tracks`: read every track file in order; a file that
        fails to download is skipped. */
    method ImportTracks(download: string -> TrackFile)
      modifies this`tracks
      ensures tracks == MergeMatches(old(tracks), AllMatches(TRACK_FILES, download))
    {
      ReadTrackFiles(TRACK_FILES, download);
    }

    method ReadTrackFiles(files: seq<string>, download: string -> TrackFile)
      modifies this`tracks
      ensures tracks == MergeMatches(old(tracks), AllMatches(files, download))
    {
      for i := 0 to |files|
        invariant tracks == MergeMatches(old(tracks), AllMatches(files[..i], download))
      {
        assert files[..i + 1][..i] == files[..i];
        var file := download(files[i]);
        ghost var before := AllMatches(files[..i], download);
        assert AllMatches(files[..i + 1], download) == before + if file.Tracks? then file.matches else [];
        if file.TrackDownloadFailed? {
          assert before + [] == before;
          continue;
        }
        AddTracks(file.matches);
        MergeMatchesAppend(old(tracks), before, file.matches);
      }
      assert files[..|files|] == files;
    }

    /** The tuples of one file, in order; a known id is left alone. */
    method AddTracks(ms: seq<TrackMatch>)
      modifies this`tracks
      ensures tracks == MergeMatches(old(tracks), ms)
    {
      for j := 0 to |ms|
        invariant tracks == MergeMatches(old(tracks), ms[..j])
      {
        assert ms[..j + 1][..j] == ms[..j];
        var m := ms[j];
        if m.trackId !in tracks {
          tracks := tracks[m.trackId := TrackOf(m)];
        }
      }
      assert ms[..|ms|] == ms;
    }

    /** `_import_listings` for one year. */
    method ImportListings(year: int, createSongs: bool, editions: string -> EditionFile)
      requires db.Valid()
      modifies db
      ensures db.Valid()
      ensures db.State() == ListingsEffect(old(db.State()), tracks, year, createSongs, editions)
    {
      if year !in EDITION_FILES {
        return;
      }
      var file := editions(EDITION_FILES[year]);
      if file.EditionDownloadFailed? {
        return;
      }
      var listings := file.listings;
      // Filled as in the source, where it is never read.
      var trackToSongId: map<nat, int> := map[];
      for i := 0 to |listings|
        invariant db.Valid()
        invariant db.State() == ApplyListings(old(db.State()), tracks, year, createSongs, listings[..i])
      {
        assert listings[..i + 1][..i] == listings[..i];
        var l := listings[i];
        if l.trackId !in tracks {
          continue;
        }
        var track := tracks[l.trackId];
        if createSongs {
          var songId := db.InsertSong(l.position, track.artist, track.title, Some(track.year));
          trackToSongId := trackToSongId[l.trackId := songId];
          db.AddPositionHistory(songId, year, l.position);
        } else {
          var song := db.State().SongByArtistTitle(track.artist, track.title);
          if song.None? {
            continue;
          }
          db.AddPositionHistory(song.value.id, year, l.position);
        }
      }
      assert listings[..|listings|] == listings;
    }

    /** `import_data`: nothing happens on a populated catalog; otherwise
        the tracks are read, then the newest year creates the songs and
        every other year, newest first, adds history. */
    method ImportData(download: string -> TrackFile, editions: string -> EditionFile) returns (ok: bool)
      requires importYears != [] && db.Valid()
      modifies this`tracks, db
      ensures db.Valid()
      ensures ok
      ensures old(db.State()).IsPopulated() ==> db.State() == old(db.State()) && tracks == old(tracks)
      ensures !old(db.State()).IsPopulated() ==>
                tracks == MergeMatches(old(tracks), AllMatches(TRACK_FILES, download)) &&
                db.State() == ImportEffect(old(db.State()), tracks, ImportOrder(importYears), editions)
    {
      if db.State().IsPopulated() {
        return true;
      }
      ImportTracks(download);
      ImportYears(ImportOrder(importYears), editions);
      return true;
    }

    /** The listings of each year in turn, the first creating songs. */
    method ImportYears(years: seq<int>, editions: string -> EditionFile)
      requires years != [] && db.Valid()
      modifies db
      ensures db.Valid()
      ensures db.State() == ImportEffect(old(db.State()), tracks, years, editions)
    {
      ImportListings(years[0], true, editions);
      var rest := years[1..];
      for i := 0 to |rest|
        invariant db.Valid()
        invariant db.State() == HistoryEffect(ListingsEffect(old(db.State()), tracks, years[0], true, editions),
                                              tracks, rest[..i], editions)
      {
        assert rest[..i + 1][..i] == rest[..i];
        ImportListings(rest[i], false, editions);
      }
      assert rest[..|rest|] == rest;
    }
  }
}
