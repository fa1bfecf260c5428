/** Cover art lookup through MusicBrainz and the Cover Art Archive.

    The two remote calls are inputs: the release search is given as its
    reply (or its failure), and each release carries the reply the image
    list request for it would get. */
module CoverArt {
  import opened Basics
  import Seqs

  /** A cached image is reused for 24 hours. */
  const CACHE_DURATION_SECONDS: int := 24 * 60 * 60
  /** Only this many of the releases found are tried. */
  const RELEASES_TRIED: nat := 3

  /** The `thumbnails` object of an image: its "500" and "large" entries. */
  datatype Thumbnails = Thumbnails(size500: Option<string>, large: Option<string>)

  /** An image of a release: its `front` flag and its thumbnails, if any. */
  datatype Image = Image(front: bool, thumbnails: Option<Thumbnails>)

  /** The reply to the image list request of one release: a "404" error,
      any other error, or a list of images (empty when the reply is empty
      or has no `images`). */
  datatype ImageReply = NotFound | ImageError | Images(images: seq<Image>)

  /** A release found by the search, with the image reply it would get. */
  datatype Release = Release(id: Option<string>, reply: ImageReply)

  /** The release search: it failed, it gave no `release-list`, or it gave
      the list. */
  datatype Search = SearchFailed | NoReleaseList | Releases(releases: seq<Release>)

  /** What the search through releases ends with. */
  datatype Lookup = Found(releaseId: string, url: string) | Missing | Failed

  /** `thumbnails.get("500") or thumbnails.get("large")`, kept only when
      the result is a non-empty string. */
  function ThumbnailUrl(t: Thumbnails): (r: Option<string>)
    ensures r.Some? ==> r.value != ""
    ensures r.Some? ==> r == t.size500 || r == t.large
    ensures Truthy(t.size500) ==> r == t.size500
    ensures r.None? <==> !Truthy(t.size500) && !Truthy(t.large)
  {
    if Truthy(t.size500) then t.size500 else if Truthy(t.large) then t.large else None
  }

  /** The URL an image offers, when it has thumbnails. */
  function ImageUrl(img: Image): Option<string> {
    if img.thumbnails.Some? then ThumbnailUrl(img.thumbnails.value) else None
  }

  /** The URL of the first front image that offers one. */
  function FrontUrl(images: seq<Image>): (r: Option<string>)
    ensures r.None? <==> forall i :: 0 <= i < |images| ==> !(images[i].front && ImageUrl(images[i]).Some?)
    ensures r.Some? ==> exists i :: 0 <= i < |images| && images[i].front && ImageUrl(images[i]) == r &&
                                   forall j :: 0 <= j < i ==> !(images[j].front && ImageUrl(images[j]).Some?)
  {
    if images == [] then None
    else if images[0].front && ImageUrl(images[0]).Some? then ImageUrl(images[0])
    else
      var r := FrontUrl(images[1..]);
      assert forall i :: 1 <= i < |images| ==> images[i] == images[1..][i - 1];
      r
  }

  /** The cover chosen among a release's images: a front image first,
      otherwise the first image. */
  function ImageChoice(images: seq<Image>): (r: Option<string>)
    ensures r.Some? ==> r.value != ""
    ensures images == [] ==> r.None?
    ensures FrontUrl(images).Some? ==> r == FrontUrl(images)
    ensures FrontUrl(images).None? && images != [] ==> r == ImageUrl(images[0])
  {
    if images == [] then None
    else if FrontUrl(images).Some? then FrontUrl(images)
    else ImageUrl(images[0])
  }

  /** A release the search passes over: it has no id, the archive has no
      images for it (404), or none of its images offers a URL. */
  predicate PassedOver(r: Release) {
    !Truthy(r.id) || r.reply.NotFound? || (r.reply.Images? && ImageChoice(r.reply.images).None?)
  }

  /** The search reaches release `i`: every release before it is passed over. */
  predicate Reached(rs: seq<Release>, i: int) {
    0 <= i < |rs| && forall j :: 0 <= j < i ==> PassedOver(rs[j])
  }

  /** Passing over the first release shifts every reached index by one. */
  lemma ReachedShift(rs: seq<Release>)
    requires rs != [] && PassedOver(rs[0])
    ensures forall i {:trigger Reached(rs[1..], i)} :: Reached(rs[1..], i) ==> Reached(rs, i + 1) && rs[i + 1] == rs[1..][i]
  {
    forall i | Reached(rs[1..], i) ensures Reached(rs, i + 1) {
      forall j | 0 <= j < i + 1 ensures PassedOver(rs[j]) {
        if j > 0 {
          assert rs[j] == rs[1..][j - 1];
        }
      }
    }
  }

  /** Try releases in order: the first one with a usable image wins, one
      that is passed over leads to the next, and any error other than a
      404 ends the search. */
  function TryReleases(rs: seq<Release>): (r: Lookup)
    ensures r.Missing? <==> forall i :: 0 <= i < |rs| ==> PassedOver(rs[i])
    ensures r.Found? ==> exists i :: Reached(rs, i) &&
                                   rs[i].id == Some(r.releaseId) && r.releaseId != "" &&
                                   rs[i].reply.Images? && ImageChoice(rs[i].reply.images) == Some(r.url)
    ensures r.Failed? ==> exists i :: Reached(rs, i) && Truthy(rs[i].id) && rs[i].reply.ImageError?
    decreases |rs|, 1
  {
    if rs == [] then Missing
    else
      var rel := rs[0];
      assert Reached(rs, 0);
      if !Truthy(rel.id) then Next(rs)
      else match rel.reply
        case NotFound => Next(rs)
        case ImageError => Failed
        case Images(images) =>
          match ImageChoice(images)
          case Some(url) => Found(rel.id.value, url)
          case None => Next(rs)
  }

  /** The search after passing over the first release. */
  function Next(rs: seq<Release>): (r: Lookup)
    requires rs != [] && PassedOver(rs[0])
    ensures r == TryReleases(rs[1..])
    ensures r.Missing? <==> forall i :: 0 <= i < |rs| ==> PassedOver(rs[i])
    ensures r.Found? ==> exists i :: Reached(rs, i) &&
                                   rs[i].id == Some(r.releaseId) && r.releaseId != "" &&
                                   rs[i].reply.Images? && ImageChoice(rs[i].reply.images) == Some(r.url)
    ensures r.Failed? ==> exists i :: Reached(rs, i) && Truthy(rs[i].id) && rs[i].reply.ImageError?
    decreases |rs|, 0
  {
    ReachedShift(rs);
    assert forall i :: 1 <= i < |rs| ==> rs[i] == rs[1..][i - 1];
    TryReleases(rs[1..])
  }

  /** `_search_musicbrainz`: the first three releases are tried; a failed
      search, a missing or empty list gives nothing. */
  function SearchMusicBrainz(search: Search): (r: Lookup)
    ensures search.SearchFailed? ==> r.Failed?
    ensures search.NoReleaseList? || (search.Releases? && search.releases == []) ==> r.Missing?
    ensures search.Releases? ==> r == TryReleases(Seqs.Take(search.releases, RELEASES_TRIED))
  {
    match search
    case SearchFailed => Failed
    case NoReleaseList => Missing
    case Releases(rs) => if rs == [] then Missing else TryReleases(Seqs.Take(rs, RELEASES_TRIED))
  }

  /** Releases after the third never change the outcome. */
  lemma OnlyFirstThreeTried(rs: seq<Release>, more: seq<Release>)
    requires |rs| >= RELEASES_TRIED
    ensures SearchMusicBrainz(Releases(rs + more)) == SearchMusicBrainz(Releases(rs))
  {
    assert Seqs.Take(rs + more, RELEASES_TRIED) == Seqs.Take(rs, RELEASES_TRIED);
  }

  /** A stored URL is reused when it is non-empty and was stored less than
      24 hours before `now`. */
  predicate CacheFresh(cachedUrl: Option<string>, cachedAt: Option<int>, now: int) {
    Truthy(cachedUrl) && cachedAt.Some? && now - cachedAt.value < CACHE_DURATION_SECONDS
  }

  /** `get_cover_art`: the pair (cover URL, MusicBrainz release id). */
  function GetCoverArt(cachedUrl: Option<string>, cachedAt: Option<int>, now: int, search: Search)
    : (r: (Option<string>, Option<string>))
    ensures CacheFresh(cachedUrl, cachedAt, now) ==> r == (cachedUrl, None)
    ensures !CacheFresh(cachedUrl, cachedAt, now) ==>
              match SearchMusicBrainz(search)
              case Found(id, url) => r == (Some(url), Some(id))
              case _ => r == (None, None)
    ensures r.1.Some? ==> Truthy(r.0) && Truthy(r.1)
  {
    if CacheFresh(cachedUrl, cachedAt, now) then (cachedUrl, None)
    else
      match SearchMusicBrainz(search)
      case Found(id, url) =>
        assert id != "" by {
          var rs := Seqs.Take(search.releases, RELEASES_TRIED);
          assert TryReleases(rs).Found?;
        }
        (Some(url), Some(id))
      case _ => (None, None)
  }
}
