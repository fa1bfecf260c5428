/** The NPO Radio 2 "now playing" client: three metadata sources tried in
    a fixed order (the station homepage, the Icecast stream headers, the
    onlineradiobox page), and a 30-second cache of the last answer.

    The network is not modelled: each source is given as what its HTTP
    exchange produced (a transport failure, or a status and the part of
    the body the source inspects), and the wall clock is a parameter
    `now` in whole seconds. */
module NpoClient {
  import opened Basics

  /** Seconds a fetched answer is served from the cache. */
  const CACHE_SECONDS: int := 30

  /** What a source reports as playing.  Only the homepage source knows a
      cover image; the other two leave `coverArtUrl` empty. */
  datatype Metadata = Metadata(artist: string, title: string, coverArtUrl: Option<string>)

  /** A JSON value where the source reads an image field: `null` or a string. */
  datatype Json = JNull | JStr(text: string)

  /** One element of `tracksPlays` in the homepage's embedded Next.js data;
      `None` means the key is absent from the object. */
  datatype TrackPlay = TrackPlay(artist: Option<string>, name: Option<string>,
                                 image: Option<Json>, imageUrl: Option<Json>)

  /** The `__NEXT_DATA__` script of the homepage: missing, not valid JSON,
      or parsed, with the `props.pageProps.trackPlaysList.tracksPlays` list
      (empty when any key on that path is missing). */
  datatype NextData = NoScript | Unparsable | Parsed(tracksPlays: seq<TrackPlay>)

  /** The response headers the Icecast source reads. */
  datatype IcyHeaders = IcyHeaders(icyName: Option<string>, iceAudioInfo: Option<string>)

  /** The first `track_history_item`/`track-title` element of the
      onlineradiobox page: the stripped texts of its artist and title
      child elements when present, and its own stripped text. */
  datatype TrackInfo = TrackInfo(artistElem: Option<string>, titleElem: Option<string>, text: string)

  /** One HTTP exchange: it failed (connection error, timeout), or a
      response arrived with a status and a body. */
  datatype Http<T> = TransportError | Response(status: int, body: T)

  /** How a source ends: it raised, or it returned an answer or `None`. */
  datatype Outcome = Raised | Returned(metadata: Option<Metadata>)

  predicate Succeeded(o: Outcome) {
    o.Returned? && o.metadata.Some?
  }

  /** The text of an image field; `null` gives no URL. */
  function ImageText(j: Json): (r: Option<string>)
    ensures r.Some? <==> j.JStr?
  {
    match j
    case JNull => None
    case JStr(t) => Some(t)
  }

  /** The answer built from the most recent track play: absent names
      become "Unknown", and `image` is preferred over `imageUrl`. */
  function FromTrackPlay(t: TrackPlay): (m: Metadata)
    ensures m.artist == (if t.artist.Some? then t.artist.value else "Unknown")
    ensures m.title == (if t.name.Some? then t.name.value else "Unknown")
    ensures t.image.Some? ==> m.coverArtUrl == ImageText(t.image.value)
    ensures t.image.None? && t.imageUrl.Some? ==> m.coverArtUrl == ImageText(t.imageUrl.value)
    ensures t.image.None? && t.imageUrl.None? ==> m.coverArtUrl.None?
  {
    var cover :=
      if t.image.Some? then ImageText(t.image.value)
      else if t.imageUrl.Some? then ImageText(t.imageUrl.value)
      else None;
    Metadata(t.artist.GetOr("Unknown"), t.name.GetOr("Unknown"), cover)
  }

  /** The homepage source. */
  function WebsiteStage(page: Http<NextData>): (r: Outcome)
    ensures r.Raised? <==> page.TransportError? || page.status != 200
    ensures Succeeded(r) <==> page.Response? && page.status == 200 &&
                              page.body.Parsed? && page.body.tracksPlays != []
    ensures Succeeded(r) ==> r.metadata.value == FromTrackPlay(page.body.tracksPlays[0])
  {
    match page
    case TransportError => Raised
    case Response(status, data) =>
      if status != 200 then Raised
      else if data.Parsed? && data.tracksPlays != [] then Returned(Some(FromTrackPlay(data.tracksPlays[0])))
      else Returned(None)
  }

  /** `"Artist - Title"` split at the first `" - "`, both halves stripped;
      `None` when the text holds no `" - "`. */
  function SplitArtistTitle(text: string): (r: Option<Metadata>)
    ensures r.None? <==> !Contains(text, " - ")
    ensures r.Some? ==> r.value.coverArtUrl.None?
    ensures r.Some? ==> exists a, b :: text == a + " - " + b && !Contains(a + " -", " - ") &&
                                       r.value.artist == Strip(a) && r.value.title == Strip(b)
  {
    match SplitOnce(text, " - ")
    case None => None
    case Some(parts) =>
      assert " - "[..2] == " -";
      Some(Metadata(Strip(parts.0), Strip(parts.1), None))
  }

  /** Joining an artist and a title with `" - "` and splitting again gives
      them back, as long as neither carries padding and the artist does not
      itself hold the separator. */
  lemma SplitArtistTitleJoin(artist: string, title: string)
    requires Strip(artist) == artist && Strip(title) == title
    requires !Contains(artist + " -", " - ")
    ensures SplitArtistTitle(artist + " - " + title) == Some(Metadata(artist, title, None))
  {
    assert " - "[..2] == " -";
    SplitOnceJoin(artist, " - ", title);
  }

  /** The header text the Icecast source parses: `icy-name`, or
      `ice-audio-info` when that is empty or absent, or nothing. */
  function IcyText(h: IcyHeaders): string {
    if Truthy(h.icyName) then h.icyName.value else h.iceAudioInfo.GetOr("")
  }

  /** The Icecast source: the header text parsed as `"Artist - Title"`;
      an empty or absent header, or one without `" - "`, finds nothing. */
  function IcecastStage(resp: Http<IcyHeaders>): (r: Outcome)
    ensures r.Raised? <==> resp.TransportError? || resp.status != 200
    ensures resp.Response? && resp.status == 200 ==> r == Returned(SplitArtistTitle(IcyText(resp.body)))
  {
    match resp
    case TransportError => Raised
    case Response(status, h) =>
      if status != 200 then Raised
      else
        var meta := if Truthy(h.icyName) then h.icyName else h.iceAudioInfo;
        if Truthy(meta) then Returned(SplitArtistTitle(meta.value)) else Returned(None)
  }

  /** The onlineradiobox source: separate artist and title elements win;
      otherwise the element's own text is parsed as `"Artist - Title"`. */
  function RadioboxStage(resp: Http<Option<TrackInfo>>): (r: Outcome)
    ensures r.Raised? <==> resp.TransportError? || resp.status != 200
    ensures resp.Response? && resp.status == 200 && resp.body.None? ==> r == Returned(None)
    ensures resp.Response? && resp.status == 200 && resp.body.Some? ==>
              var ti := resp.body.value;
              r == Returned(if ti.artistElem.Some? && ti.titleElem.Some?
                            then Some(Metadata(ti.artistElem.value, ti.titleElem.value, None))
                            else SplitArtistTitle(ti.text))
  {
    match resp
    case TransportError => Raised
    case Response(status, info) =>
      if status != 200 then Raised
      else match info
        case None => Returned(None)
        case Some(ti) =>
          if ti.artistElem.Some? && ti.titleElem.Some? then
            Returned(Some(Metadata(ti.artistElem.value, ti.titleElem.value, None)))
          else Returned(SplitArtistTitle(ti.text))
  }

  /** The answer of a chain of sources: that of the first one that
      succeeds.  A source that raises or finds nothing passes on to the
      next. */
  function FirstAnswer(outcomes: seq<Outcome>): Option<Metadata> {
    if outcomes == [] then None
    else if Succeeded(outcomes[0]) then outcomes[0].metadata
    else FirstAnswer(outcomes[1..])
  }

  /** The chain answers nothing exactly when no source succeeds, and
      otherwise gives what the first source that succeeds returned. */
  lemma {:induction false} FirstAnswerIsFirstSuccess(outcomes: seq<Outcome>)
    ensures var r := FirstAnswer(outcomes);
            (r.None? <==> forall i :: 0 <= i < |outcomes| ==> !Succeeded(outcomes[i])) &&
            (r.Some? ==> exists i :: 0 <= i < |outcomes| && outcomes[i] == Returned(r) &&
                                    forall j :: 0 <= j < i ==> !Succeeded(outcomes[j]))
  {
    if outcomes != [] && !Succeeded(outcomes[0]) {
      FirstAnswerIsFirstSuccess(outcomes[1..]);
      assert forall i :: 1 <= i < |outcomes| ==> outcomes[i] == outcomes[1..][i - 1];
      var r := FirstAnswer(outcomes);
      if r.Some? {
        var i :| 0 <= i < |outcomes[1..]| && outcomes[1..][i] == Returned(r) &&
                 forall j :: 0 <= j < i ==> !Succeeded(outcomes[1..][j]);
        assert outcomes[i + 1] == Returned(r);
      }
    }
  }

  /** How many sources of the chain run: up to and including the first
      that succeeds, or all of them. */
  function Attempted(outcomes: seq<Outcome>): (n: nat)
    ensures n <= |outcomes|
    ensures forall j :: 0 <= j < n - 1 ==> !Succeeded(outcomes[j])
    ensures n < |outcomes| ==> n > 0 && Succeeded(outcomes[n - 1])
  {
    if outcomes == [] then 0
    else if Succeeded(outcomes[0]) then 1
    else
      var n := 1 + Attempted(outcomes[1..]);
      assert forall j :: 1 <= j < |outcomes| ==> outcomes[j] == outcomes[1..][j - 1];
      n
  }

  /** Once a source has succeeded, whatever the sources after it would
      have produced never changes the answer. */
  lemma {:induction false} LaterSourcesIgnored(outcomes: seq<Outcome>, later: seq<Outcome>)
    requires FirstAnswer(outcomes).Some?
    ensures FirstAnswer(outcomes[..Attempted(outcomes)] + later) == FirstAnswer(outcomes)
    decreases |outcomes|
  {
    var n := Attempted(outcomes);
    var p := outcomes[..n] + later;
    assert p[0] == outcomes[0];
    if !Succeeded(outcomes[0]) {
      var rest := outcomes[1..];
      LaterSourcesIgnored(rest, later);
      assert p[1..] == rest[..Attempted(rest)] + later;
    }
  }

  /** The answer `get_current_metadata` gives for a cache holding
      `cached`, fetched at `lastFetch`: the cached answer while it is
      fresh, else that of the first source that succeeds. */
  function Resolve(cached: Option<Metadata>, lastFetch: Option<int>, now: int, homepage: Http<NextData>,
                   icecast: Http<IcyHeaders>, radiobox: Http<Option<TrackInfo>>): (r: Option<Metadata>)
    ensures cached.Some? && lastFetch.Some? && now - lastFetch.value < CACHE_SECONDS ==> r == cached
    ensures !(cached.Some? && lastFetch.Some? && now - lastFetch.value < CACHE_SECONDS) ==>
              r == FirstAnswer([WebsiteStage(homepage), IcecastStage(icecast), RadioboxStage(radiobox)])
  {
    if cached.Some? && lastFetch.Some? && now - lastFetch.value < CACHE_SECONDS then cached
    else FirstAnswer([WebsiteStage(homepage), IcecastStage(icecast), RadioboxStage(radiobox)])
  }

  /** The client: the last answer fetched and when it was fetched. */
  class Client {
    var cachedMetadata: Option<Metadata>
    var lastFetch: Option<int>

    constructor ()
      ensures cachedMetadata.None? && lastFetch.None?
    {
      cachedMetadata := None;
      lastFetch := None;
    }

    /** The cache answers when it holds an answer fetched less than
        `CACHE_SECONDS` ago. */
    predicate CacheFresh(now: int)
      reads this
    {
      cachedMetadata.Some? && lastFetch.Some? && now - lastFetch.value < CACHE_SECONDS
    }

    method CacheMetadata(m: Metadata, now: int)
      modifies this
      ensures cachedMetadata == Some(m) && lastFetch == Some(now)
      ensures CacheFresh(now)
    {
      cachedMetadata := Some(m);
      lastFetch := Some(now);
    }

    /** The current track: from the cache when fresh, else from the first
        source that succeeds, homepage first, then Icecast, then
        onlineradiobox.  A new answer is cached; when every source fails
        the cache is left as it was.  `attempted` counts the sources run. */
    method GetCurrentMetadata(now: int, homepage: Http<NextData>, icecast: Http<IcyHeaders>,
                              radiobox: Http<Option<TrackInfo>>)
      returns (r: Option<Metadata>, ghost attempted: nat)
      modifies this
      ensures old(CacheFresh(now)) ==>
                r == old(cachedMetadata) && attempted == 0 &&
                cachedMetadata == old(cachedMetadata) && lastFetch == old(lastFetch)
      ensures !old(CacheFresh(now)) ==>
                var chain := [WebsiteStage(homepage), IcecastStage(icecast), RadioboxStage(radiobox)];
                r == FirstAnswer(chain) && attempted == Attempted(chain)
      ensures !old(CacheFresh(now)) && r.Some? ==> cachedMetadata == r && lastFetch == Some(now)
      ensures r.None? ==> cachedMetadata == old(cachedMetadata) && lastFetch == old(lastFetch)
      ensures r == Resolve(old(cachedMetadata), old(lastFetch), now, homepage, icecast, radiobox)
    {
      if CacheFresh(now) {
        return cachedMetadata, 0;
      }
      ghost var chain := [WebsiteStage(homepage), IcecastStage(icecast), RadioboxStage(radiobox)];
      assert chain[1..][1..] == [chain[2]] && chain[1..][1..][1..] == [];
      assert FirstAnswer(chain[1..][1..]) == if Succeeded(chain[2]) then chain[2].metadata else None;
      var o := WebsiteStage(homepage);
      if Succeeded(o) {
        CacheMetadata(o.metadata.value, now);
        return o.metadata, 1;
      }
      o := IcecastStage(icecast);
      if Succeeded(o) {
        CacheMetadata(o.metadata.value, now);
        return o.metadata, 2;
      }
      o := RadioboxStage(radiobox);
      if Succeeded(o) {
        CacheMetadata(o.metadata.value, now);
        return o.metadata, 3;
      }
      return None, 3;
    }
  }
}
