/** The polling coordinator: on every tick it asks the client what is
    playing, matches it against the catalog, and when the matched song
    differs from the last one it stores cover art and the playlist state
    and sends the notifications the rules ask for.

    Home Assistant's scheduling is reduced to sequential calls of
    `Refresh`.  Service calls are recorded in `sent`; a target whose call
    raises is in `failing`.  A storage failure inside a tick is the input
    `fault`: the step it names raises when it is reached. */
module Coordinator {
  import opened Basics
  import NpoClient
  import Database
  import CoverArt

  const NOTIFICATION_TITLE: string := "NPO Radio 2 Top 2000"
  const PERSISTENT_TARGET: string := "persistent_notification"

  /** The steps of a tick whose storage call can raise. */
  datatype Step = MatchStep | CoverArtStep | PlaylistStep | NotifyCurrentStep | UpcomingStep

  /** The data a tick publishes. */
  datatype Update =
    | NoMetadata
    | NotInTop2000(metadata: NpoClient.Metadata)
    | Playing(song: Database.SongDetails, songChanged: bool, metadata: NpoClient.Metadata)

  /** A tick either publishes its data or ends in `UpdateFailed`. */
  datatype Outcome = Published(update: Update) | UpdateFailed

  /** The service data of a call: a persistent notification carries its
      id, a notify service the song's cover image. */
  datatype Payload = PersistentPayload(notificationId: string) | NotifyPayload(image: Option<string>)

  /** One completed service call. */
  datatype SendCall = SendCall(domain: string, service: string, title: string, message: string, payload: Payload)

  // ---------------------------------------------------------------------
  // Rules, messages and routing
  // ---------------------------------------------------------------------

  /** One rule matches when its lower-cased pattern occurs in the
      lower-cased artist (an `artist` rule) or title (a `title` rule). */
  predicate RuleMatches(rule: Database.Rule, artist: string, title: string) {
    (rule.ruleType == "artist" && Contains(Lower(artist), Lower(rule.pattern))) ||
    (rule.ruleType == "title" && Contains(Lower(title), Lower(rule.pattern)))
  }

  /** `_matches_notification_rules` over the enabled rules: the rules are
      tried in order and the first that matches answers. */
  function MatchesRules(rules: seq<Database.Rule>, artist: string, title: string): bool {
    if rules == [] then false
    else RuleMatches(rules[0], artist, title) || MatchesRules(rules[1..], artist, title)
  }

  /** The rules match exactly when one of them does. */
  lemma {:induction false} MatchesRulesAny(rules: seq<Database.Rule>, artist: string, title: string)
    ensures MatchesRules(rules, artist, title) <==> exists i :: 0 <= i < |rules| && RuleMatches(rules[i], artist, title)
  {
    if rules != [] {
      MatchesRulesAny(rules[1..], artist, title);
      assert forall i :: 1 <= i < |rules| ==> rules[i] == rules[1..][i - 1];
      if MatchesRules(rules[1..], artist, title) {
        var i :| 0 <= i < |rules[1..]| && RuleMatches(rules[1..][i], artist, title);
        assert RuleMatches(rules[i + 1], artist, title);
      }
    }
  }

  /** A `position_range` rule, or one of any other type but `artist` and
      `title`, never makes a song match. */
  lemma OnlyArtistAndTitleRulesMatch(rules: seq<Database.Rule>, artist: string, title: string)
    requires forall i :: 0 <= i < |rules| ==> rules[i].ruleType != "artist" && rules[i].ruleType != "title"
    ensures !MatchesRules(rules, artist, title)
  {
    MatchesRulesAny(rules, artist, title);
  }

  /** Matching does not depend on the case of the song's artist and title. */
  lemma MatchesRulesIgnoresCase(rules: seq<Database.Rule>, artist: string, title: string)
    ensures MatchesRules(rules, Lower(artist), Lower(title)) == MatchesRules(rules, artist, title)
  {
    LowerIdempotent(artist);
    LowerIdempotent(title);
    MatchesRulesAny(rules, artist, title);
    MatchesRulesAny(rules, Lower(artist), Lower(title));
    assert forall rule :: RuleMatches(rule, Lower(artist), Lower(title)) == RuleMatches(rule, artist, title);
  }

  function Header(isCurrent: bool): string {
    if isCurrent then "Nu op Radio 2:\n#" else "Binnenkort op Radio 2:\n#"
  }

  function YearSuffix(year: Option<int>): string {
    if year.Some? && year.value != 0 then " (" + IntToString(year.value) + ")" else ""
  }

  function FactSuffix(funFacts: seq<string>): string {
    if funFacts != [] then "\n\n\U{1F4A1} " + funFacts[0] else ""
  }

  /** The notification text: a header saying whether the song is playing
      now or coming up, `#position: artist - title`, the year when it is
      known and non-zero, and the first fun fact when there is one. */
  function Message(song: Database.SongDetails, isCurrent: bool): string {
    Header(isCurrent) + Headline(song.song) + YearSuffix(song.song.year) + FactSuffix(song.funFacts)
  }

  /** `#position: artist - title` without the leading `#`, which ends the header. */
  function Headline(song: Database.Song): string {
    IntToString(song.position) + ": " + song.artist + " - " + song.title
  }

  /** The year is quoted exactly when it is known and non-zero; otherwise
      the headline runs straight into the fun-fact part. */
  lemma MessageYear(song: Database.SongDetails, isCurrent: bool)
    ensures var m, y := Message(song, isCurrent), song.song.year;
            var head, tail := Header(isCurrent) + Headline(song.song), FactSuffix(song.funFacts);
            (y.Some? && y.value != 0 <==> |m| > |head| + |tail|) &&
            (y.Some? && y.value != 0 ==> m == head + " (" + IntToString(y.value) + ")" + tail) &&
            (!(y.Some? && y.value != 0) ==> m == head + tail)
  {
    var y := song.song.year;
    var head, tail := Header(isCurrent) + Headline(song.song), FactSuffix(song.funFacts);
    var ys := YearSuffix(y);
    assert Message(song, isCurrent) == head + ys + tail;
    if y.Some? && y.value != 0 {
      assert ys == " (" + IntToString(y.value) + ")";
    } else {
      assert ys == [];
      assert head + ys == head;
    }
  }

  /** The first fun fact is quoted, after a blank line and a light bulb,
      exactly when the song has one. */
  lemma MessageFact(song: Database.SongDetails, isCurrent: bool)
    ensures var m, f := Message(song, isCurrent), song.funFacts;
            var head := Header(isCurrent) + Headline(song.song) + YearSuffix(song.song.year);
            (f != [] <==> |m| > |head|) &&
            (f != [] ==> m == head + "\n\n\U{1F4A1} " + f[0]) &&
            (f == [] ==> m == head)
  {
    var f := song.funFacts;
    var head := Header(isCurrent) + Headline(song.song) + YearSuffix(song.song.year);
    assert Message(song, isCurrent) == head + FactSuffix(f);
    if f == [] {
      assert head + FactSuffix(f) == head;
    }
  }

  /** The two kinds of message can never be confused, and only the first
      fun fact is ever quoted. */
  lemma MessageShape(song: Database.SongDetails, other: Database.SongDetails)
    requires other.song == song.song && song.funFacts != [] && other.funFacts == song.funFacts[..1]
    ensures Message(song, true) != Message(song, false)
    ensures Message(song, true) == Message(other, true)
  {
    assert Message(song, true)[0] == 'N';
    assert Message(song, false)[0] == 'B';
  }

  /** The service a target is sent to: `persistent_notification.create`,
      a dotted target split at its first dot, or `notify.<target>`. */
  function Route(target: string): (string, string) {
    if target == PERSISTENT_TARGET then ("persistent_notification", "create")
    else match SplitOnce(target, ".")
      case Some(parts) => parts
      case None => ("notify", target)
  }

  /** A dotted target is split at its first dot into domain and service;
      any other target except the persistent one goes to `notify`. */
  lemma RouteSplitsAtFirstDot(target: string)
    ensures var r := Route(target);
            (target == PERSISTENT_TARGET ==> r == ("persistent_notification", "create")) &&
            (target != PERSISTENT_TARGET && Contains(target, ".") ==>
               r.0 + "." + r.1 == target && !Contains(r.0, ".")) &&
            (target != PERSISTENT_TARGET && !Contains(target, ".") ==> r == ("notify", target))
  {
    if target != PERSISTENT_TARGET {
      match SplitOnce(target, ".")
      case Some(parts) =>
        assert "."[..0] == "";
        assert parts.0 + "."[..0] == parts.0;
      case None =>
    }
  }

  /** The call made for one target: the persistent notification is keyed
      by the song id and kind, a notify service gets the cover image. */
  function Call(target: string, song: Database.SongDetails, isCurrent: bool): SendCall {
    var route := Route(target);
    var payload :=
      if target == PERSISTENT_TARGET
      then PersistentPayload("top2000_" + IntToString(song.song.id) + "_" + (if isCurrent then "True" else "False"))
      else NotifyPayload(song.song.coverArtUrl);
    SendCall(route.0, route.1, NOTIFICATION_TITLE, Message(song, isCurrent), payload)
  }

  /** The calls `_send_notification` completes: one per target, in order,
      skipping the targets whose call raises. */
  function Dispatched(targets: seq<string>, failing: set<string>, song: Database.SongDetails, isCurrent: bool)
    : (r: seq<SendCall>)
    ensures |r| <= |targets|
  {
    if targets == [] then []
    else
      var init := targets[..|targets| - 1];
      var last := targets[|targets| - 1];
      Dispatched(init, failing, song, isCurrent) + (if last in failing then [] else [Call(last, song, isCurrent)])
  }

  lemma DispatchedStep(targets: seq<string>, i: nat, failing: set<string>, song: Database.SongDetails, isCurrent: bool)
    requires i < |targets|
    ensures Dispatched(targets[..i + 1], failing, song, isCurrent) ==
            Dispatched(targets[..i], failing, song, isCurrent) +
            (if targets[i] in failing then [] else [Call(targets[i], song, isCurrent)])
  {
    assert targets[..i + 1][..i] == targets[..i];
  }

  /** Every call made carries the same message. */
  lemma {:induction false} DispatchedMessages(targets: seq<string>, failing: set<string>,
                                              song: Database.SongDetails, isCurrent: bool)
    ensures forall c :: c in Dispatched(targets, failing, song, isCurrent) ==> c.message == Message(song, isCurrent)
  {
    if targets != [] {
      DispatchedMessages(targets[..|targets| - 1], failing, song, isCurrent);
    }
  }

  /** Every target whose call does not raise gets its call, and no call
      goes anywhere else. */
  lemma {:induction false} DispatchedReachesTargets(targets: seq<string>, failing: set<string>,
                                                    song: Database.SongDetails, isCurrent: bool, c: SendCall)
    ensures c in Dispatched(targets, failing, song, isCurrent) <==>
            exists t :: t in targets && t !in failing && c == Call(t, song, isCurrent)
  {
    if targets != [] {
      var init := targets[..|targets| - 1];
      var last := targets[|targets| - 1];
      assert targets == init + [last];
      DispatchedReachesTargets(init, failing, song, isCurrent, c);
      if c == Call(last, song, isCurrent) && last !in failing {
        assert last in targets;
      }
    }
  }

  /** The upcoming notification for one position: sent when a song is at
      that position and the enabled rules match it. */
  function SendsFor(t: Database.Tables, position: int, settings: Database.Settings, failing: set<string>)
    : (r: seq<SendCall>)
    ensures t.SongByPosition(position).None? ==> r == []
  {
    var song := t.SongByPosition(position);
    if song.Some? && MatchesRules(t.NotificationRules(true), song.value.song.artist, song.value.song.title)
    then Dispatched(settings.targets, failing, song.value, false) else []
  }

  /** The offsets turned into positions still to come: `current - offset`
      for each offset in the order given, dropping positions below 1. */
  function UpcomingPositions(current: int, offsets: seq<int>): (r: seq<int>)
    ensures |r| <= |offsets|
  {
    if offsets == [] then []
    else
      var init := offsets[..|offsets| - 1];
      var last := offsets[|offsets| - 1];
      UpcomingPositions(current, init) + (if current - last >= 1 then [current - last] else [])
  }

  /** A position comes up exactly when it is at least 1 and lies one of
      the offsets before the current one. */
  lemma {:induction false} UpcomingPositionsMembers(current: int, offsets: seq<int>, p: int)
    ensures p in UpcomingPositions(current, offsets) <==> p >= 1 && current - p in offsets
  {
    if offsets != [] {
      var init := offsets[..|offsets| - 1];
      assert offsets == init + [offsets[|offsets| - 1]];
      UpcomingPositionsMembers(current, init, p);
    }
  }

  /** The upcoming notifications for each position in turn. */
  function SendsAt(t: Database.Tables, positions: seq<int>, settings: Database.Settings, failing: set<string>)
    : (r: seq<SendCall>)
  {
    if positions == [] then []
    else SendsAt(t, positions[..|positions| - 1], settings, failing) + SendsFor(t, positions[|positions| - 1], settings, failing)
  }

  /** A position is notified only for a song listed there that an enabled
      rule matches, with the upcoming-song message. */
  lemma SendsForMatchingSong(t: Database.Tables, position: int, settings: Database.Settings, failing: set<string>)
    ensures var r := SendsFor(t, position, settings, failing);
            r != [] ==> var song := t.SongByPosition(position).value;
                        MatchesRules(t.NotificationRules(true), song.song.artist, song.song.title) &&
                        forall c :: c in r ==> c.message == Message(song, false)
  {
    var song := t.SongByPosition(position);
    if song.Some? {
      DispatchedMessages(settings.targets, failing, song.value, false);
    }
  }

  /** No song at any of the positions means no notification at all. */
  lemma {:induction false} SendsAtNeedSongs(t: Database.Tables, positions: seq<int>, settings: Database.Settings,
                                            failing: set<string>)
    requires forall i :: 0 <= i < |positions| ==> t.SongByPosition(positions[i]).None?
    ensures SendsAt(t, positions, settings, failing) == []
  {
    if positions != [] {
      var init := positions[..|positions| - 1];
      assert forall i :: 0 <= i < |init| ==> init[i] == positions[i];
      SendsAtNeedSongs(t, init, settings, failing);
    }
  }

  /** Every upcoming notification is one of a listed position's. */
  lemma {:induction false} SendsAtFrom(t: Database.Tables, positions: seq<int>, settings: Database.Settings,
                                       failing: set<string>, c: SendCall)
    requires c in SendsAt(t, positions, settings, failing)
    ensures exists i :: 0 <= i < |positions| && c in SendsFor(t, positions[i], settings, failing)
  {
    var init := positions[..|positions| - 1];
    if c in SendsAt(t, init, settings, failing) {
      SendsAtFrom(t, init, settings, failing, c);
      var i :| 0 <= i < |init| && c in SendsFor(t, init[i], settings, failing);
      assert init[i] == positions[i];
    } else {
      assert c in SendsFor(t, positions[|positions| - 1], settings, failing);
    }
  }

  /** The positions up to `i` inclusive: those before it, then the one at `i`. */
  lemma SendsAtStep(t: Database.Tables, positions: seq<int>, i: int, settings: Database.Settings,
                    failing: set<string>)
    requires 0 <= i < |positions|
    ensures SendsAt(t, positions[..i + 1], settings, failing) ==
            SendsAt(t, positions[..i], settings, failing) + SendsFor(t, positions[i], settings, failing)
  {
    assert positions[..i + 1][..i] == positions[..i];
  }

  /** `_check_and_send_notifications`: notify when this kind of
      notification is switched on and an enabled rule matches. */
  function NotifySends(t: Database.Tables, song: Database.SongDetails, isCurrent: bool, failing: set<string>)
    : (r: seq<SendCall>)
    ensures r != [] ==> MatchesRules(t.NotificationRules(true), song.song.artist, song.song.title)
    ensures r != [] ==> if isCurrent then t.NotificationSettings().notifyCurrent else t.NotificationSettings().notifyUpcoming
  {
    var settings := t.NotificationSettings();
    if isCurrent && !settings.notifyCurrent then []
    else if !isCurrent && !settings.notifyUpcoming then []
    else if !MatchesRules(t.NotificationRules(true), song.song.artist, song.song.title) then []
    else Dispatched(settings.targets, failing, song, isCurrent)
  }

  /** A notification goes out to exactly the targets whose call does not
      raise, when its kind is switched on and an enabled rule matches the
      song, and each call carries that song's message. */
  lemma NotifySendsExactly(t: Database.Tables, song: Database.SongDetails, isCurrent: bool, failing: set<string>,
                           c: SendCall)
    ensures var settings := t.NotificationSettings();
            c in NotifySends(t, song, isCurrent, failing) <==>
              (if isCurrent then settings.notifyCurrent else settings.notifyUpcoming) &&
              MatchesRules(t.NotificationRules(true), song.song.artist, song.song.title) &&
              exists target :: target in settings.targets && target !in failing && c == Call(target, song, isCurrent)
    ensures c in NotifySends(t, song, isCurrent, failing) ==> c.message == Message(song, isCurrent)
  {
    var settings := t.NotificationSettings();
    DispatchedReachesTargets(settings.targets, failing, song, isCurrent, c);
    DispatchedMessages(settings.targets, failing, song, isCurrent);
  }

  /** `async_check_upcoming_notifications` as run against `previous`, the
      data the coordinator published before: nothing without a playing
      song or with upcoming notifications off. */
  function UpcomingSends(t: Database.Tables, previous: Option<Update>, failing: set<string>): (r: seq<SendCall>)
    ensures previous.None? || !previous.value.Playing? ==> r == []
    ensures !t.NotificationSettings().notifyUpcoming ==> r == []
  {
    if previous.None? || !previous.value.Playing? then []
    else
      var settings := t.NotificationSettings();
      if !settings.notifyUpcoming then []
      else SendsAt(t, UpcomingPositions(previous.value.song.song.position, settings.positions), settings, failing)
  }

  // ---------------------------------------------------------------------
  // Cover art and the change pipeline
  // ---------------------------------------------------------------------

  /** `_fetch_and_cache_cover_art`: the new tables and the song with the
      cover URL it now carries. */
  function CoverArtEffect(t: Database.Tables, song: Database.SongDetails, npoCover: Option<string>, now: int,
                          search: CoverArt.Search): (e: (Database.Tables, Database.SongDetails))
    ensures e.1 == song.(song := song.song.(coverArtUrl := e.1.song.coverArtUrl))
    ensures Truthy(npoCover) ==> e == (t.UpdateCoverArt(song.song.id, npoCover.value, None, now),
                                       song.(song := song.song.(coverArtUrl := npoCover)))
    ensures !Truthy(npoCover) && t.IsCoverArtCached(song.song.id, now) ==> e == (t, song)
    ensures e.0 != t ==> Truthy(e.1.song.coverArtUrl) &&
                         exists mbid :: e.0 == t.UpdateCoverArt(song.song.id, e.1.song.coverArtUrl.value, mbid, now)
  {
    var id := song.song.id;
    if Truthy(npoCover) then
      (t.UpdateCoverArt(id, npoCover.value, None, now), song.(song := song.song.(coverArtUrl := npoCover)))
    else if t.IsCoverArtCached(id, now) then (t, song)
    else
      var found := CoverArt.GetCoverArt(song.song.coverArtUrl, song.song.coverArtCachedAt, now, search);
      if Truthy(found.0) then
        (t.UpdateCoverArt(id, found.0.value, found.1, now), song.(song := song.song.(coverArtUrl := found.0)))
      else (t, song)
  }

  /** Only the MusicBrainz path depends on what the search would find: a
      URL from NPO, or a valid cached one, is used without a lookup. */
  lemma CoverArtLookupOnlyWhenNeeded(t: Database.Tables, song: Database.SongDetails, npoCover: Option<string>,
                                     now: int, s1: CoverArt.Search, s2: CoverArt.Search)
    requires Truthy(npoCover) || t.IsCoverArtCached(song.song.id, now)
    ensures CoverArtEffect(t, song, npoCover, now, s1) == CoverArtEffect(t, song, npoCover, now, s2)
  {
  }

  /** When the store says the cover is not cached, the client's own cache
      check on the same row cannot pass either, so the lookup searches. */
  lemma StaleCacheNeverReused(t: Database.Tables, s: Database.Song, now: int)
    requires t.Valid() && s in t.songs
    requires !t.IsCoverArtCached(s.id, now)
    ensures !CoverArt.CacheFresh(s.coverArtUrl, s.coverArtCachedAt, now)
  {
    Database.SongWithIdUnique(t.songs, s);
  }

  /** What a song change leaves behind. */
  datatype Effects = Effects(tables: Database.Tables, sent: seq<SendCall>, song: Database.SongDetails)

  /** The side effects of a song change, in their order: cover art, the
      playlist state, the notification for the current song, the upcoming
      check.  A `fault` at one step stops the tick there. */
  function ChangeEffects(t: Database.Tables, sent: seq<SendCall>, song: Database.SongDetails, md: NpoClient.Metadata,
                         now: int, search: CoverArt.Search, failing: set<string>, previous: Option<Update>,
                         fault: Option<Step>): (e: Effects)
    ensures |sent| <= |e.sent| && e.sent[..|sent|] == sent
    ensures (e.tables, e.song) == StoreChange(t, song, md, now, search, fault)
  {
    var stored := StoreChange(t, song, md, now, search, fault);
    if fault == Some(CoverArtStep) || fault == Some(PlaylistStep) || fault == Some(NotifyCurrentStep)
    then Effects(stored.0, sent, stored.1)
    else
      var current := sent + NotifySends(stored.0, stored.1, true, failing);
      if fault == Some(UpcomingStep) then Effects(stored.0, current, stored.1)
      else Effects(stored.0, current + UpcomingSends(stored.0, previous, failing), stored.1)
  }

  /** The storage half of a change: cover art, then the playlist state,
      each skipped from the step `fault` names on. */
  function StoreChange(t: Database.Tables, song: Database.SongDetails, md: NpoClient.Metadata, now: int,
                       search: CoverArt.Search, fault: Option<Step>): (r: (Database.Tables, Database.SongDetails))
    ensures r.1 == song.(song := song.song.(coverArtUrl := r.1.song.coverArtUrl))
  {
    if fault == Some(CoverArtStep) then (t, song)
    else
      var withCover := CoverArtEffect(t, song, md.coverArtUrl, now, search);
      if fault == Some(PlaylistStep) then withCover
      else (withCover.0.UpdatePlaylistState(withCover.1.song.position, withCover.1.song.id, md, now), withCover.1)
  }

  /** What each fault leaves behind: nothing before the cover art step,
      the old playlist state before the playlist step, no notification
      before the notification step; a clean run sends the current song's
      notification first and the upcoming ones after it, both decided on
      the tables as the earlier steps left them. */
  lemma ChangeEffectsInOrder(t: Database.Tables, sent: seq<SendCall>, song: Database.SongDetails,
                             md: NpoClient.Metadata, now: int, search: CoverArt.Search, failing: set<string>,
                             previous: Option<Update>, fault: Option<Step>)
    ensures var e := ChangeEffects(t, sent, song, md, now, search, failing, previous, fault);
            (fault == Some(CoverArtStep) ==> e == Effects(t, sent, song)) &&
            (fault == Some(PlaylistStep) ==> e.tables.playlist == t.playlist && e.sent == sent) &&
            (fault.None? || fault == Some(NotifyCurrentStep) || fault == Some(UpcomingStep) ==>
               e.tables.playlist == Some(Database.PlaylistState(song.song.position, song.song.id, now, md))) &&
            (fault.None? ==>
               e.sent == sent + NotifySends(e.tables, e.song, true, failing) + UpcomingSends(e.tables, previous, failing))
  {
  }

  lemma SeqAssoc<T>(a: seq<T>, b: seq<T>, c: seq<T>)
    ensures a + (b + c) == a + b + c
  {
  }

  /** The state a tick leaves behind. */
  datatype TickResult = TickResult(out: Outcome, tables: Database.Tables, sent: seq<SendCall>,
                                   lastSongId: Option<int>)

  /** One tick, given the metadata the client resolved: no metadata or no
      match publishes that; a match with the song already recorded
      publishes it unchanged; a new song is recorded first and then goes
      through `ChangeEffects`.  A fault at any step fails the tick. */
  function Tick(t: Database.Tables, sent: seq<SendCall>, lastSongId: Option<int>, previous: Option<Update>,
                md: Option<NpoClient.Metadata>, ratio: (string, string) -> Database.Percent, now: int,
                search: CoverArt.Search, failing: set<string>, fault: Option<Step>): (r: TickResult)
    ensures md.None? ==> r == TickResult(Published(NoMetadata), t, sent, lastSongId)
    ensures md.Some? && fault == Some(MatchStep) ==> r == TickResult(UpdateFailed, t, sent, lastSongId)
    ensures md.Some? && fault != Some(MatchStep) ==>
              var m := t.Match(ratio, md.value.artist, md.value.title);
              (m.None? ==> r == TickResult(Published(NotInTop2000(md.value)), t, sent, lastSongId)) &&
              (m.Some? ==> r.lastSongId == Some(m.value.song.id))
    ensures r.out.UpdateFailed? ==> fault.Some?
    ensures r.out.Published? && r.out.update.Playing? ==>
              r.lastSongId == Some(r.out.update.song.song.id) &&
              (r.out.update.songChanged <==> lastSongId != r.lastSongId)
    ensures (r.tables != t || r.sent != sent) ==> r.lastSongId != lastSongId
    ensures |sent| <= |r.sent| && r.sent[..|sent|] == sent
  {
    match md
    case None => TickResult(Published(NoMetadata), t, sent, lastSongId)
    case Some(metadata) =>
      if fault == Some(MatchStep) then TickResult(UpdateFailed, t, sent, lastSongId)
      else OnMatch(t, sent, lastSongId, previous, t.Match(ratio, metadata.artist, metadata.title), metadata,
                   now, search, failing, fault)
  }

  /** The rest of a tick once the match `m` is known. */
  function OnMatch(t: Database.Tables, sent: seq<SendCall>, lastSongId: Option<int>, previous: Option<Update>,
                   m: Option<Database.SongDetails>, md: NpoClient.Metadata, now: int, search: CoverArt.Search,
                   failing: set<string>, fault: Option<Step>): (r: TickResult)
    ensures |sent| <= |r.sent| && r.sent[..|sent|] == sent
  {
    match m
    case None => TickResult(Published(NotInTop2000(md)), t, sent, lastSongId)
    case Some(song) =>
      if lastSongId == Some(song.song.id) then TickResult(Published(Playing(song, false, md)), t, sent, lastSongId)
      else
        var e := ChangeEffects(t, sent, song, md, now, search, failing, previous, fault);
        TickResult(if fault.Some? then UpdateFailed else Published(Playing(e.song, true, md)),
                   e.tables, e.sent, Some(song.song.id))
  }

  /** A tick that fails after the match has still recorded the new song,
      so the next tick that reports the same song publishes it as
      unchanged and repeats none of the side effects. */
  lemma FailedTickRecordsSong(t: Database.Tables, sent: seq<SendCall>, lastSongId: Option<int>,
                              previous: Option<Update>, md: NpoClient.Metadata,
                              ratio: (string, string) -> Database.Percent, now: int, search: CoverArt.Search,
                              failing: set<string>, fault: Step, now2: int, failing2: set<string>)
    requires fault != MatchStep
    requires t.Match(ratio, md.artist, md.title).Some?
    requires lastSongId != Some(t.Match(ratio, md.artist, md.title).value.song.id)
    ensures var r := Tick(t, sent, lastSongId, previous, Some(md), ratio, now, search, failing, Some(fault));
            var again := Tick(r.tables, r.sent, r.lastSongId, previous, Some(md), ratio, now2, search, failing2, None);
            r.out == UpdateFailed && again.out.Published? && again.out.update.Playing? &&
            !again.out.update.songChanged && again.tables == r.tables && again.sent == r.sent
  {
    var m := t.Match(ratio, md.artist, md.title).value;
    var e := ChangeEffects(t, sent, m, md, now, search, failing, previous, Some(fault));
    ChangeEffectsKeepMatch(t, sent, m, md, ratio, now, search, failing, previous, Some(fault));
    var r := TickResult(UpdateFailed, e.tables, e.sent, Some(m.song.id));
    assert OnMatch(t, sent, lastSongId, previous, Some(m), md, now, search, failing, Some(fault)) == r;
    assert Tick(t, sent, lastSongId, previous, Some(md), ratio, now, search, failing, Some(fault)) == r;
    var m2 := e.tables.Match(ratio, md.artist, md.title).value;
    assert OnMatch(e.tables, e.sent, Some(m.song.id), previous, Some(m2), md, now2, search, failing2, None) ==
           TickResult(Published(Playing(m2, false, md)), e.tables, e.sent, Some(m.song.id));
    assert Tick(e.tables, e.sent, Some(m.song.id), previous, Some(md), ratio, now2, search, failing2, None) ==
           TickResult(Published(Playing(m2, false, md)), e.tables, e.sent, Some(m.song.id));
  }

  /** The side effects of a change never change which song a report
      matches. */
  lemma ChangeEffectsKeepMatch(t: Database.Tables, sent: seq<SendCall>, m: Database.SongDetails,
                               md: NpoClient.Metadata, ratio: (string, string) -> Database.Percent, now: int,
                               search: CoverArt.Search, failing: set<string>, previous: Option<Update>,
                               fault: Option<Step>)
    requires t.Match(ratio, md.artist, md.title) == Some(m)
    ensures var e := ChangeEffects(t, sent, m, md, now, search, failing, previous, fault);
            e.tables.Match(ratio, md.artist, md.title).Some? &&
            e.tables.Match(ratio, md.artist, md.title).value.song.id == m.song.id
  {
    var e := ChangeEffects(t, sent, m, md, now, search, failing, previous, fault);
    var stored := StoreChange(t, m, md, now, search, fault);
    assert e.tables == stored.0;
    if fault != Some(CoverArtStep) {
      var c := CoverArtEffect(t, m, md.coverArtUrl, now, search);
      CoverArtEffectKeepsMatch(t, m, md.coverArtUrl, now, search, ratio, md.artist, md.title);
      if fault != Some(PlaylistStep) {
        assert stored.0 == c.0.UpdatePlaylistState(c.1.song.position, c.1.song.id, md, now);
        Database.MatchReadsOnlyRows(c.0, stored.0, ratio, md.artist, md.title);
      }
    }
  }

  lemma CoverArtEffectKeepsMatch(t: Database.Tables, song: Database.SongDetails, npoCover: Option<string>,
                                 now: int, search: CoverArt.Search, ratio: (string, string) -> Database.Percent,
                                 artist: string, title: string)
    requires t.Match(ratio, artist, title).Some?
    ensures var after := CoverArtEffect(t, song, npoCover, now, search).0.Match(ratio, artist, title);
            after.Some? && after.value.song.id == t.Match(ratio, artist, title).value.song.id
  {
    var c := CoverArtEffect(t, song, npoCover, now, search);
    if c.0 != t {
      var mbid :| c.0 == t.UpdateCoverArt(song.song.id, c.1.song.coverArtUrl.value, mbid, now);
      Database.MatchIgnoresCoverArt(t, song.song.id, c.1.song.coverArtUrl.value, mbid, now, ratio, artist, title);
    }
  }

  // ---------------------------------------------------------------------
  // The coordinator
  // ---------------------------------------------------------------------

  class Coordinator {
    const db: Database.Catalog
    const client: NpoClient.Client
    /** The id of the last song a change was recorded for. */
    var lastSongId: Option<int>
    /** The data published by the last successful tick. */
    var data: Option<Update>
    /** The service calls made so far. */
    var sent: seq<SendCall>

    constructor (db: Database.Catalog, client: NpoClient.Client)
      ensures this.db == db && this.client == client
      ensures lastSongId.None? && data.None? && sent == []
    {
      this.db := db;
      this.client := client;
      lastSongId := None;
      data := None;
      sent := [];
    }

    /** `async_get_upcoming_songs`: the songs after the one last published. */
    method GetUpcomingSongs(count: nat) returns (r: seq<Database.UpcomingSong>)
      ensures data.None? || !data.value.Playing? ==> r == []
      ensures data.Some? && data.value.Playing? ==>
                r == db.State().UpcomingSongs(data.value.song.song.position, count)
    {
      if data.None? || !data.value.Playing? {
        return [];
      }
      r := db.State().UpcomingSongs(data.value.song.song.position, count);
    }

    method FetchAndCacheCoverArt(song: Database.SongDetails, npoCover: Option<string>, now: int,
                                 search: CoverArt.Search) returns (updated: Database.SongDetails)
      requires db.Valid()
      modifies db
      ensures db.Valid()
      ensures (db.State(), updated) == CoverArtEffect(old(db.State()), song, npoCover, now, search)
    {
      var id := song.song.id;
      if Truthy(npoCover) {
        db.UpdateCoverArt(id, npoCover.value, None, now);
        return song.(song := song.song.(coverArtUrl := npoCover));
      }
      if db.State().IsCoverArtCached(id, now) {
        return song;
      }
      var found := CoverArt.GetCoverArt(song.song.coverArtUrl, song.song.coverArtCachedAt, now, search);
      if Truthy(found.0) {
        db.UpdateCoverArt(id, found.0.value, found.1, now);
        return song.(song := song.song.(coverArtUrl := found.0));
      }
      return song;
    }

    /** `_send_notification`: one call per target; a call that raises is
        logged and the remaining targets are still served. */
    method SendNotification(song: Database.SongDetails, settings: Database.Settings, isCurrent: bool,
                            failing: set<string>)
      modifies this`sent
      ensures sent == old(sent) + Dispatched(settings.targets, failing, song, isCurrent)
    {
      var targets := settings.targets;
      for i := 0 to |targets|
        invariant sent == old(sent) + Dispatched(targets[..i], failing, song, isCurrent)
      {
        DispatchedStep(targets, i, failing, song, isCurrent);
        var step := if targets[i] in failing then [] else [Call(targets[i], song, isCurrent)];
        if targets[i] !in failing {
          sent := sent + step;
        }
        assert sent == old(sent) + (Dispatched(targets[..i], failing, song, isCurrent) + step);
      }
      assert targets[..|targets|] == targets;
    }

    method CheckAndSendNotifications(song: Database.SongDetails, isCurrent: bool, failing: set<string>)
      modifies this`sent
      ensures sent == old(sent) + NotifySends(db.State(), song, isCurrent, failing)
    {
      var settings := db.State().NotificationSettings();
      if isCurrent && !settings.notifyCurrent {
        return;
      }
      if !isCurrent && !settings.notifyUpcoming {
        return;
      }
      if !MatchesRules(db.State().NotificationRules(true), song.song.artist, song.song.title) {
        return;
      }
      SendNotification(song, settings, isCurrent, failing);
    }

    method CheckUpcomingNotifications(failing: set<string>)
      modifies this`sent
      ensures sent == old(sent) + UpcomingSends(db.State(), data, failing)
    {
      if data.None? || !data.value.Playing? {
        return;
      }
      var settings := db.State().NotificationSettings();
      if !settings.notifyUpcoming {
        return;
      }
      NotifyPositions(UpcomingPositions(data.value.song.song.position, settings.positions), settings, failing);
    }

    /** The positions the offsets point at, in the order of the offsets. */
    method NotifyPositions(positions: seq<int>, settings: Database.Settings, failing: set<string>)
      modifies this`sent
      ensures sent == old(sent) + SendsAt(db.State(), positions, settings, failing)
    {
      ghost var t := db.State();
      for i := 0 to |positions|
        invariant db.State() == t
        invariant sent == old(sent) + SendsAt(t, positions[..i], settings, failing)
      {
        SendsAtStep(t, positions, i, settings, failing);
        ghost var done := SendsAt(t, positions[..i], settings, failing);
        NotifyPosition(positions[i], settings, failing, t);
        SeqAssoc(old(sent), done, SendsFor(t, positions[i], settings, failing));
      }
      assert positions[..|positions|] == positions;
    }

    /** One upcoming position: notify when a song is listed there and an
        enabled rule matches it.  `t` is the catalog, which sending leaves
        as it is. */
    method NotifyPosition(position: int, settings: Database.Settings, failing: set<string>, ghost t: Database.Tables)
      requires db.State() == t
      modifies this`sent
      ensures db.State() == t
      ensures sent == old(sent) + SendsFor(t, position, settings, failing)
    {
      var upcoming := db.State().SongByPosition(position);
      if upcoming.Some? &&
         MatchesRules(db.State().NotificationRules(true), upcoming.value.song.artist, upcoming.value.song.title) {
        SendNotification(upcoming.value, settings, false, failing);
      }
    }

    /** `_async_update_data`: one tick. */
    method UpdateData(now: int, homepage: NpoClient.Http<NpoClient.NextData>,
                      icecast: NpoClient.Http<NpoClient.IcyHeaders>,
                      radiobox: NpoClient.Http<Option<NpoClient.TrackInfo>>,
                      ratio: (string, string) -> Database.Percent, search: CoverArt.Search,
                      failing: set<string>, fault: Option<Step>) returns (out: Outcome)
      requires db.Valid()
      modifies this, db, client
      ensures db.Valid()
      ensures data == old(data)
      ensures var md := NpoClient.Resolve(old(client.cachedMetadata), old(client.lastFetch), now,
                                          homepage, icecast, radiobox);
              md.Some? ==> client.cachedMetadata == md
      ensures var md := NpoClient.Resolve(old(client.cachedMetadata), old(client.lastFetch), now,
                                          homepage, icecast, radiobox);
              var r := Tick(old(db.State()), old(sent), old(lastSongId), old(data), md, ratio, now, search,
                            failing, fault);
              out == r.out && db.State() == r.tables && sent == r.sent && lastSongId == r.lastSongId
    {
      var md, attempted := client.GetCurrentMetadata(now, homepage, icecast, radiobox);
      out := ProcessMetadata(md, ratio, now, search, failing, fault);
    }

    /** A tick once the client has answered with `md`. */
    method ProcessMetadata(md: Option<NpoClient.Metadata>, ratio: (string, string) -> Database.Percent, now: int,
                           search: CoverArt.Search, failing: set<string>, fault: Option<Step>) returns (out: Outcome)
      requires db.Valid()
      modifies db, this`sent, this`lastSongId
      ensures db.Valid()
      ensures var r := Tick(old(db.State()), old(sent), old(lastSongId), data, md, ratio, now, search, failing, fault);
              out == r.out && db.State() == r.tables && sent == r.sent && lastSongId == r.lastSongId
    {
      if md.None? {
        return Published(NoMetadata);
      }
      if fault == Some(MatchStep) {
        return UpdateFailed;
      }
      var m := db.MatchSong(ratio, md.value.artist, md.value.title);
      out := ApplyMatch(m, md.value, now, search, failing, fault);
    }

    /** The rest of a tick once the match is known: a new song is recorded
        before any of its side effects run. */
    method ApplyMatch(m: Option<Database.SongDetails>, metadata: NpoClient.Metadata, now: int,
                      search: CoverArt.Search, failing: set<string>, fault: Option<Step>) returns (out: Outcome)
      requires db.Valid()
      modifies db, this`sent, this`lastSongId
      ensures db.Valid()
      ensures var r := OnMatch(old(db.State()), old(sent), old(lastSongId), data, m, metadata, now, search,
                               failing, fault);
              out == r.out && db.State() == r.tables && sent == r.sent && lastSongId == r.lastSongId
    {
      if m.None? {
        return Published(NotInTop2000(metadata));
      }
      var songMatch := m.value;
      var songChanged := Some(songMatch.song.id) != lastSongId;
      if songChanged {
        lastSongId := Some(songMatch.song.id);
        songMatch := RecordChange(songMatch, metadata, now, search, failing, fault);
        if fault.Some? {
          return UpdateFailed;
        }
      }
      return Published(Playing(songMatch, songChanged, metadata));
    }

    /** The side effects of a song change, stopped at the step `fault`
        names; the song is returned with the cover URL it now carries. */
    method RecordChange(song: Database.SongDetails, metadata: NpoClient.Metadata, now: int,
                        search: CoverArt.Search, failing: set<string>, fault: Option<Step>)
      returns (updated: Database.SongDetails)
      requires db.Valid()
      modifies db, this`sent
      ensures db.Valid()
      ensures var e := ChangeEffects(old(db.State()), old(sent), song, metadata, now, search, failing, data, fault);
              db.State() == e.tables && sent == e.sent && (fault.None? ==> updated == e.song)
    {
      updated := song;
      if fault == Some(CoverArtStep) {
        return;
      }
      updated := FetchAndCacheCoverArt(song, metadata.coverArtUrl, now, search);
      if fault == Some(PlaylistStep) {
        return;
      }
      db.UpdatePlaylistState(updated.song.position, updated.song.id, metadata, now);
      if fault == Some(NotifyCurrentStep) {
        return;
      }
      CheckAndSendNotifications(updated, true, failing);
      if fault == Some(UpcomingStep) {
        return;
      }
      CheckUpcomingNotifications(failing);
    }

    /** One refresh: run a tick and publish its data when it succeeds; a
        failed tick keeps the data published before. */
    method Refresh(now: int, homepage: NpoClient.Http<NpoClient.NextData>,
                   icecast: NpoClient.Http<NpoClient.IcyHeaders>,
                   radiobox: NpoClient.Http<Option<NpoClient.TrackInfo>>,
                   ratio: (string, string) -> Database.Percent, search: CoverArt.Search,
                   failing: set<string>, fault: Option<Step>) returns (out: Outcome)
      requires db.Valid()
      modifies this, db, client
      ensures db.Valid()
      ensures out.Published? ==> data == Some(out.update)
      ensures out.UpdateFailed? ==> data == old(data)
      ensures var md := NpoClient.Resolve(old(client.cachedMetadata), old(client.lastFetch), now,
                                          homepage, icecast, radiobox);
              var r := Tick(old(db.State()), old(sent), old(lastSongId), old(data), md, ratio, now, search,
                            failing, fault);
              out == r.out && db.State() == r.tables && sent == r.sent && lastSongId == r.lastSongId
    {
      out := UpdateData(now, homepage, icecast, radiobox, ratio, search, failing, fault);
      if out.Published? {
        data := Some(out.update);
      }
    }
  }
}
