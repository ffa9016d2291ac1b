/**
 * GooglePhotosClient: the settings it keeps between calls, the queries it
 * builds from them, and the two feed operations that turn a response into
 * albums, photos and videos. The HTTP transport is a function from the
 * requested feed and query to a response whose body the XML engine has already
 * read (or failed to read).
 */
module Client {
  import opened Php
  import opened Xml
  import opened Media
  import Albums
  import Photos
  import Videos

  type Query = PhpArray

  /** The feed a request asks for: the user's album list, or one album's media. */
  datatype Endpoint = UserAlbums | AlbumMedia(albumId: string)

  /** A response: its status code and the parsed body, `None` when the body is
      not well-formed XML. */
  datatype Response = Response(status: int, body: Option<Node>)

  type Transport = (Endpoint, Query) -> Response

  /** What a feed operation throws: the exception of the status check; the
      exception the HTTP client raises itself for a status of 400 or more,
      before that check is reached (its `http_errors` option is on by
      default); or PHP's `Error` when an entry mapper calls a method on null. */
  datatype Error = Exception(message: string) | HttpError(status: int) | Fatal(message: string)

  /** The `Error` a mapper throws on an entry without a media group. */
  const AttributesOnNull := Fatal("Call to a member function attributes() on null")

  datatype Result<+T> = Success(value: T) | Failure(error: Error)

  /** One item of an album's media list. */
  datatype MediaItem = PhotoItem(photo: Photos.Photo) | VideoItem(video: Videos.Video)

  const StatusPrefix := "Error trying to query Picasa API. Response status: "

  /** The HTTP client throws for an error status instead of returning it. */
  predicate HttpClientThrows(status: int) {
    400 <= status
  }

  /** The outcome of a request: the HTTP client's own exception for an error
      status, the status-check exception for any other status than 200, and
      none for 200. */
  function RequestError(status: int): (e: Option<Error>)
    ensures e.None? <==> status == 200
    ensures e.Some? && e.value.HttpError? <==> HttpClientThrows(status)
    ensures e.Some? && HttpClientThrows(status) ==> e.value == HttpError(status)
    ensures e.Some? && !HttpClientThrows(status) ==> e.value == StatusError(status)
  {
    if HttpClientThrows(status) then Some(HttpError(status))
    else if status != 200 then Some(StatusError(status))
    else None
  }

  /** The exception raised for a status other than 200. */
  function StatusError(status: int): Error {
    Exception(StatusPrefix + DecimalString(status))
  }

  /** The exception's message identifies the status code. */
  lemma StatusErrorNamesStatus(a: int, b: int)
    requires StatusError(a) == StatusError(b)
    ensures a == b
  {
    var ma, mb := StatusError(a).message, StatusError(b).message;
    assert DecimalString(a) == ma[|StatusPrefix|..];
    assert DecimalString(b) == mb[|StatusPrefix|..];
    StringToIntRoundTrip(a);
    StringToIntRoundTrip(b);
  }

  // ---------------------------------------------------------------------------
  // Settings

  /** The hard-coded settings of `getDefaultSettings`. `should_crop` is the
      string 'false', not the boolean. */
  function Defaults(): PhpArray {
    map[
      "visibility" := Str("all"),
      "should_crop" := Str("false"),
      "thumb_size" := Int(200),
      "crop_mode" := Str("s"),
      "ignored_albums" := List([]),
      "kind" := Str("album")]
  }

  const DefaultKeys: set<string> := {"visibility", "should_crop", "thumb_size", "crop_mode", "ignored_albums", "kind"}

  /** `getDefaultSettings`: the stored settings once there are any, the
      hard-coded defaults before. */
  function BaseSettings(stored: Option<PhpArray>): PhpArray {
    if stored.Some? then stored.value else Defaults()
  }

  /** The settings `setSettings(overrides)` stores: the base unchanged for a
      null argument, otherwise the overrides merged onto the base. */
  function NextSettings(stored: Option<PhpArray>, overrides: Option<PhpArray>): (r: PhpArray)
    ensures overrides.None? ==> r == BaseSettings(stored)
    ensures overrides.Some? ==>
      && r.Keys == BaseSettings(stored).Keys + overrides.value.Keys
      && (forall k :: k in overrides.value ==> r[k] == overrides.value[k])
      && (forall k :: k in BaseSettings(stored) && k !in overrides.value ==> r[k] == BaseSettings(stored)[k])
  {
    if overrides.None? then BaseSettings(stored) else ArrayMerge(BaseSettings(stored), overrides.value)
  }

  /** A fresh client given no settings holds exactly the defaults. */
  lemma FreshClientHoldsDefaults()
    ensures var s := NextSettings(None, None);
      && s.Keys == DefaultKeys
      && s["visibility"] == Str("all") && s["should_crop"] == Str("false")
      && s["thumb_size"] == Int(200) && s["crop_mode"] == Str("s")
      && s["ignored_albums"] == List([]) && s["kind"] == Str("album")
  {
  }

  /** Once settings are stored, `setSettings(null)` changes nothing. */
  lemma NullKeepsStoredSettings(stored: PhpArray)
    ensures NextSettings(Some(stored), None) == stored
  {
  }

  /** A key set by an earlier call survives a later call that does not name it. */
  lemma EarlierOverridesPersist(stored: Option<PhpArray>, first: PhpArray, second: PhpArray, k: string)
    requires k in first && k !in second
    ensures var s := NextSettings(Some(NextSettings(stored, Some(first))), Some(second));
      k in s && s[k] == first[k]
  {
  }

  /** Every stored settings array has all the default keys. */
  lemma DefaultKeysStay(stored: Option<PhpArray>, overrides: Option<PhpArray>)
    requires stored.Some? ==> DefaultKeys <= stored.value.Keys
    ensures DefaultKeys <= NextSettings(stored, overrides).Keys
  {
  }

  // ---------------------------------------------------------------------------
  // Queries

  /** Key `k` of `r` after `addPagination`: copied from the settings when
      `isset` there, otherwise as the query had it. */
  predicate PaginatedKey(query: Query, settings: PhpArray, r: Query, k: string) {
    if IsSet(settings, k) then k in r && r[k] == settings[k]
    else (k in r <==> k in query) && (k in query ==> r[k] == query[k])
  }

  /** `addPagination`: `start_index` and `max_results` copied from the settings
      when set there; every other key left as it was. */
  function Paginate(query: Query, settings: PhpArray): (r: Query)
    ensures PaginatedKey(query, settings, r, "start_index")
    ensures PaginatedKey(query, settings, r, "max_results")
    ensures forall k :: k != "start_index" && k != "max_results" ==>
      (k in r <==> k in query) && (k in query ==> r[k] == query[k])
  {
    var q := if IsSet(settings, "start_index") then query["start_index" := settings["start_index"]] else query;
    if IsSet(settings, "max_results") then q["max_results" := settings["max_results"]] else q
  }

  /** The pagination keys a query gains from the settings. */
  function PaginationKeys(settings: PhpArray): set<string> {
    (if IsSet(settings, "start_index") then {"start_index"} else {})
    + (if IsSet(settings, "max_results") then {"max_results"} else {})
  }

  /** The album-list query literal, before `addPagination`. */
  function AlbumsLiteral(settings: PhpArray): Query {
    map["kind" := Lookup(settings, "kind"),
        "thumbsize" := Lookup(settings, "thumb_size"),
        "access" := Lookup(settings, "visibility")]
  }

  /** The album-list query. */
  function AlbumsQuery(settings: PhpArray): (q: Query)
    ensures q.Keys == {"kind", "thumbsize", "access"} + PaginationKeys(settings)
    ensures q["kind"] == Lookup(settings, "kind")
    ensures q["thumbsize"] == Lookup(settings, "thumb_size")
    ensures q["access"] == Lookup(settings, "visibility")
    ensures forall k :: k in PaginationKeys(settings) ==> q[k] == settings[k]
  {
    Paginate(AlbumsLiteral(settings), settings)
  }

  /** The album-media query literal, before `addPagination`; `imgmax` 'd' asks
      for the original size. */
  function MediaLiteral(settings: PhpArray): Query {
    map["thumbsize" := Lookup(settings, "thumb_size"),
        "access" := Lookup(settings, "visibility"),
        "imgmax" := Str("d")]
  }

  /** The album-media query. */
  function MediaQuery(settings: PhpArray): (q: Query)
    ensures q.Keys == {"thumbsize", "access", "imgmax"} + PaginationKeys(settings)
    ensures q["thumbsize"] == Lookup(settings, "thumb_size")
    ensures q["access"] == Lookup(settings, "visibility")
    ensures q["imgmax"] == Str("d")
    ensures forall k :: k in PaginationKeys(settings) ==> q[k] == settings[k]
  {
    Paginate(MediaLiteral(settings), settings)
  }

  // ---------------------------------------------------------------------------
  // Feeds

  /** The empty object `decodeXml` falls back to: it has no entries and no title. */
  const EmptyFeed := Node("", "", map[], "", [])

  function Entries(feed: Node): seq<Node> {
    Children(Some(feed), "", "entry")
  }

  function FeedTitle(feed: Node): string {
    StringCast(TextValue(First(Some(feed), "", "title")))
  }

  /** `decodeXml`: the parsed document, or the empty fallback when the body
      does not parse. */
  function DecodeXml(body: Option<Node>): (feed: Node)
    ensures body.Some? ==> feed == body.value
    ensures body.None? ==> Entries(feed) == [] && FeedTitle(feed) == ""
  {
    if body.Some? then body.value else EmptyFeed
  }

  /** `Album::makeFromXml` with the client's settings, as a function of the entry. */
  function AlbumMapper(settings: PhpArray, resize: Resizer): Node -> Option<Albums.Album> {
    entry => Albums.FromXml(entry, settings, resize)
  }

  /** `f` gives a value on every entry: no mapper call throws. */
  predicate AllMapped<T>(entries: seq<Node>, f: Node -> Option<T>) {
    forall i :: 0 <= i < |entries| ==> f(entries[i]).Some?
  }

  /** A prefix on which `f` is defined grows by one entry on which it is. */
  lemma AllMappedStep<T>(entries: seq<Node>, f: Node -> Option<T>, i: nat)
    requires i < |entries| && AllMapped(entries[..i], f) && f(entries[i]).Some?
    ensures AllMapped(entries[..i + 1], f)
  {
    var p := entries[..i + 1];
    forall j | 0 <= j < |p| ensures f(p[j]).Some? {
      if j < i {
        assert p[j] == entries[..i][j];
      }
    }
  }

  /** The album mapper gives a value on every entry exactly when every entry
      has a media group. */
  lemma AlbumMapperDefined(entries: seq<Node>, settings: PhpArray, resize: Resizer)
    ensures AllMapped(entries, AlbumMapper(settings, resize)) <==> AllHaveMediaGroup(entries)
  {
  }

  /** The albums `toAlbum` maps the entries to, in feed order, without the
      excluded ones. */
  function KeptAlbums(entries: seq<Node>, settings: PhpArray, toAlbum: Node -> Option<Albums.Album>): (r: seq<Albums.Album>)
    requires AllMapped(entries, toAlbum)
    ensures |r| <= |entries|
    ensures forall a :: a in r ==> !Albums.IsExcluded(a, settings)
    ensures forall a :: a in r ==> exists j :: 0 <= j < |entries| && a == toAlbum(entries[j]).value
  {
    if entries == [] then []
    else
      var a := toAlbum(entries[|entries| - 1]).value;
      KeptAlbums(entries[..|entries| - 1], settings, toAlbum) + (if Albums.IsExcluded(a, settings) then [] else [a])
  }

  /** One more entry appends its album unless it is excluded. */
  lemma KeptAlbumsStep(entries: seq<Node>, settings: PhpArray, toAlbum: Node -> Option<Albums.Album>, i: nat)
    requires i < |entries| && AllMapped(entries[..i + 1], toAlbum)
    ensures AllMapped(entries[..i], toAlbum)
    ensures var a := toAlbum(entries[i]).value;
      KeptAlbums(entries[..i + 1], settings, toAlbum)
      == KeptAlbums(entries[..i], settings, toAlbum) + (if Albums.IsExcluded(a, settings) then [] else [a])
  {
    assert entries[..i + 1][..i] == entries[..i];
  }

  /** Filtering keeps feed order: it distributes over concatenation. */
  lemma {:induction false} KeptAlbumsAppend(a: seq<Node>, b: seq<Node>, settings: PhpArray, toAlbum: Node -> Option<Albums.Album>)
    requires AllMapped(a, toAlbum) && AllMapped(b, toAlbum)
    ensures AllMapped(a + b, toAlbum)
    ensures KeptAlbums(a + b, settings, toAlbum) == KeptAlbums(a, settings, toAlbum) + KeptAlbums(b, settings, toAlbum)
  {
    if b == [] {
      assert a + b == a;
    } else {
      var b' := b[..|b| - 1];
      assert (a + b)[..|a + b| - 1] == a + b';
      KeptAlbumsAppend(a, b', settings, toAlbum);
    }
  }

  /** No album that is not excluded is lost. */
  lemma {:induction false} KeptAlbumsComplete(entries: seq<Node>, settings: PhpArray, toAlbum: Node -> Option<Albums.Album>, i: nat)
    requires AllMapped(entries, toAlbum)
    requires i < |entries| && !Albums.IsExcluded(toAlbum(entries[i]).value, settings)
    ensures toAlbum(entries[i]).value in KeptAlbums(entries, settings, toAlbum)
  {
    if i < |entries| - 1 {
      var p := entries[..|entries| - 1];
      assert p[i] == entries[i];
      KeptAlbumsComplete(p, settings, toAlbum, i);
    }
  }

  /** With nothing to ignore, every entry gives its album, in order. */
  lemma {:induction false} NothingIgnoredKeepsAll(entries: seq<Node>, settings: PhpArray, toAlbum: Node -> Option<Albums.Album>)
    requires AllMapped(entries, toAlbum)
    requires Albums.IgnoredAlbums(settings) == []
    ensures |KeptAlbums(entries, settings, toAlbum)| == |entries|
    ensures forall i :: 0 <= i < |entries| ==> KeptAlbums(entries, settings, toAlbum)[i] == toAlbum(entries[i]).value
  {
    if entries != [] {
      var p := entries[..|entries| - 1];
      NothingIgnoredKeepsAll(p, settings, toAlbum);
      Albums.NothingIgnoredNothingExcluded(toAlbum(entries[|entries| - 1]).value, settings);
      forall i | 0 <= i < |p| ensures p[i] == entries[i] { }
    }
  }

  /** The loop of `getAlbumsList`: maps each entry to an album and appends it
      unless it is excluded; the first entry without a media group aborts it. */
  method KeepAlbums(entries: seq<Node>, settings: PhpArray, resize: Resizer) returns (r: Result<seq<Albums.Album>>)
    ensures !AllHaveMediaGroup(entries) ==> r == Failure(AttributesOnNull)
    ensures AllHaveMediaGroup(entries) ==>
      AllMapped(entries, AlbumMapper(settings, resize)) &&
      r == Success(KeptAlbums(entries, settings, AlbumMapper(settings, resize)))
  {
    var albums := [];
    ghost var toAlbum := AlbumMapper(settings, resize);
    for i := 0 to |entries|
      invariant AllMapped(entries[..i], toAlbum)
      invariant albums == KeptAlbums(entries[..i], settings, toAlbum)
    {
      var album := Albums.FromXml(entries[i], settings, resize);
      if album.None? {
        return Failure(AttributesOnNull);
      }
      assert album == toAlbum(entries[i]);
      AllMappedStep(entries, toAlbum, i);
      KeptAlbumsStep(entries, settings, toAlbum, i);
      if !Albums.IsExcluded(album.value, settings) {
        albums := albums + [album.value];
      }
    }
    assert entries[..|entries|] == entries;
    AlbumMapperDefined(entries, settings, resize);
    r := Success(albums);
  }

  /** An item of the media list: a video when the entry is classified as one,
      a photo otherwise. */
  function MediaOf(entry: Node, settings: PhpArray, resize: Resizer, isVideo: Node -> bool): (m: Option<MediaItem>)
    ensures m.Some? <==> HasMediaGroup(entry)
    ensures m.Some? ==> (m.value.VideoItem? <==> isVideo(entry))
  {
    if isVideo(entry) then
      var v := Videos.FromXml(entry, settings, resize);
      if v.None? then None else Some(VideoItem(v.value))
    else
      var p := Photos.FromXml(entry, settings, resize);
      if p.None? then None else Some(PhotoItem(p.value))
  }

  /** One step of the loop of `getAlbumImages`: `Video::makeFromXml` for an
      entry classified as a video, `Photo::makeFromXml` otherwise. */
  method MakeMediaItem(entry: Node, settings: PhpArray, resize: Resizer, isVideo: Node -> bool) returns (item: Option<MediaItem>)
    ensures item == MediaOf(entry, settings, resize, isVideo)
    ensures item.Some? <==> HasMediaGroup(entry)
  {
    if isVideo(entry) {
      var video := Videos.MakeFromXml(entry, settings, resize);
      item := if video.None? then None else Some(VideoItem(video.value));
    } else {
      var photo := Photos.FromXml(entry, settings, resize);
      item := if photo.None? then None else Some(PhotoItem(photo.value));
    }
  }

  /** A prefix of entries with media groups grows by one that has one. */
  lemma MediaGroupStep(entries: seq<Node>, i: nat)
    requires i < |entries| && AllHaveMediaGroup(entries[..i]) && HasMediaGroup(entries[i])
    ensures AllHaveMediaGroup(entries[..i + 1])
  {
    var p := entries[..i + 1];
    forall j | 0 <= j < |p| ensures HasMediaGroup(p[j]) {
      if j < i {
        assert p[j] == entries[..i][j];
      }
    }
  }

  /** The media list of the entries: one item per entry, in feed order. */
  function MediaList(entries: seq<Node>, settings: PhpArray, resize: Resizer, isVideo: Node -> bool): (r: seq<MediaItem>)
    requires AllHaveMediaGroup(entries)
    ensures |r| == |entries|
  {
    if entries == [] then []
    else MediaList(entries[..|entries| - 1], settings, resize, isVideo) + [MediaOf(entries[|entries| - 1], settings, resize, isVideo).value]
  }

  /** Item `i` of the media list is the item of entry `i`: a video exactly when
      `isVideo` classifies the entry as one. */
  lemma MediaListItems(entries: seq<Node>, settings: PhpArray, resize: Resizer, isVideo: Node -> bool, i: nat)
    requires AllHaveMediaGroup(entries) && i < |entries|
    ensures MediaList(entries, settings, resize, isVideo)[i] == MediaOf(entries[i], settings, resize, isVideo).value
    ensures MediaList(entries, settings, resize, isVideo)[i].VideoItem? <==> isVideo(entries[i])
  {
    MediaListAt(entries, settings, resize, isVideo, i);
  }

  lemma {:induction false} MediaListAt(entries: seq<Node>, settings: PhpArray, resize: Resizer, isVideo: Node -> bool, i: nat)
    requires AllHaveMediaGroup(entries) && i < |entries|
    ensures MediaList(entries, settings, resize, isVideo)[i] == MediaOf(entries[i], settings, resize, isVideo).value
  {
    if i < |entries| - 1 {
      var p := entries[..|entries| - 1];
      assert p[i] == entries[i];
      MediaListAt(p, settings, resize, isVideo, i);
    }
  }

  /** One more entry appends exactly its item. */
  lemma MediaListStep(entries: seq<Node>, settings: PhpArray, resize: Resizer, isVideo: Node -> bool, i: nat)
    requires i < |entries| && AllHaveMediaGroup(entries[..i + 1])
    ensures AllHaveMediaGroup(entries[..i])
    ensures MediaList(entries[..i + 1], settings, resize, isVideo)
      == MediaList(entries[..i], settings, resize, isVideo) + [MediaOf(entries[i], settings, resize, isVideo).value]
  {
    assert entries[..i + 1][..i] == entries[..i];
  }

  /** The loop of `getAlbumImages`; the first entry without a media group
      aborts it. */
  method CollectMedia(entries: seq<Node>, settings: PhpArray, resize: Resizer, isVideo: Node -> bool)
    returns (r: Result<seq<MediaItem>>)
    ensures !AllHaveMediaGroup(entries) ==> r == Failure(AttributesOnNull)
    ensures AllHaveMediaGroup(entries) ==> r == Success(MediaList(entries, settings, resize, isVideo))
  {
    var images := [];
    for i := 0 to |entries|
      invariant AllHaveMediaGroup(entries[..i])
      invariant images == MediaList(entries[..i], settings, resize, isVideo)
    {
      var item := MakeMediaItem(entries[i], settings, resize, isVideo);
      if item.None? {
        return Failure(AttributesOnNull);
      }
      MediaGroupStep(entries, i);
      MediaListStep(entries, settings, resize, isVideo, i);
      images := images + [item.value];
    }
    assert entries[..|entries|] == entries;
    r := Success(images);
  }

  // ---------------------------------------------------------------------------
  // The client object

  class GooglePhotosClient {
    /** Null until the first `setSettings`, which the constructor makes. */
    var settings: Option<PhpArray>

    ghost predicate Valid()
      reads this
    {
      settings.Some? && DefaultKeys <= settings.value.Keys
    }

    constructor (initial: Option<PhpArray>)
      ensures Valid()
      ensures settings == Some(NextSettings(None, initial))
    {
      settings := None;
      new;
      SetSettings(initial);
    }

    /** `setSettings`: merges the overrides onto `getDefaultSettings()`, which
        is the previously stored array once there is one. */
    method SetSettings(overrides: Option<PhpArray>)
      requires settings.None? || Valid()
      modifies this
      ensures Valid()
      ensures settings == Some(NextSettings(old(settings), overrides))
    {
      var base := BaseSettings(settings);
      if overrides.None? {
        settings := Some(base);
      } else {
        settings := Some(ArrayMerge(base, overrides.value));
      }
    }

    /** `addPagination`. */
    method AddPagination(query: Query) returns (r: Query)
      requires Valid()
      ensures r == Paginate(query, settings.value)
    {
      var s := settings.value;
      r := query;
      if IsSet(s, "start_index") {
        r := r["start_index" := s["start_index"]];
      }
      if IsSet(s, "max_results") {
        r := r["max_results" := s["max_results"]];
      }
    }

    /** `getAlbumsList`: fails on a status other than 200, with the HTTP
        client's exception for an error status; otherwise maps every
        entry to an album and keeps those not excluded, in feed order. */
    method GetAlbumsList(http: Transport, resize: Resizer) returns (r: Result<seq<Albums.Album>>)
      requires Valid()
      ensures var response := http(UserAlbums, AlbumsQuery(settings.value));
        var entries := Entries(DecodeXml(response.body));
        if response.status != 200 then r == Failure(RequestError(response.status).value)
        else if !AllHaveMediaGroup(entries) then r == Failure(AttributesOnNull)
        else (AllMapped(entries, AlbumMapper(settings.value, resize)) &&
              r == Success(KeptAlbums(entries, settings.value, AlbumMapper(settings.value, resize))))
    {
      var s := settings.value;
      var query := AddPagination(AlbumsLiteral(s));
      var response := http(UserAlbums, query);
      if HttpClientThrows(response.status) {
        return Failure(HttpError(response.status));
      }
      if response.status != 200 {
        return Failure(StatusError(response.status));
      }
      r := KeepAlbums(Entries(DecodeXml(response.body)), s, resize);
    }

    /** `getAlbumImages`: fails as `getAlbumsList` does, leaving the title
        argument as it was; otherwise returns the feed's title and one item per
        entry, in order, a video exactly where `isVideo` classifies the entry as
        one. */
    method GetAlbumImages(albumId: string, albumTitle: string, http: Transport, resize: Resizer, isVideo: Node -> bool)
      returns (r: Result<seq<MediaItem>>, title: string)
      requires Valid()
      ensures var response := http(AlbumMedia(albumId), MediaQuery(settings.value));
        var entries := Entries(DecodeXml(response.body));
        && (response.status != 200 ==> r == Failure(RequestError(response.status).value) && title == albumTitle)
        && (response.status == 200 ==>
              && title == FeedTitle(DecodeXml(response.body))
              && (!AllHaveMediaGroup(entries) ==> r == Failure(AttributesOnNull))
              && (AllHaveMediaGroup(entries) ==> r == Success(MediaList(entries, settings.value, resize, isVideo))))
    {
      var s := settings.value;
      var query := AddPagination(MediaLiteral(s));
      var response := http(AlbumMedia(albumId), query);
      title := albumTitle;
      if HttpClientThrows(response.status) {
        return Failure(HttpError(response.status)), title;
      }
      if response.status != 200 {
        return Failure(StatusError(response.status)), title;
      }
      var feed := DecodeXml(response.body);
      title := FeedTitle(feed);
      r := CollectMedia(Entries(feed), s, resize, isVideo);
    }
  }

  /** A body that does not parse yields no album at all. */
  lemma UnparsableBodyNoAlbums(settings: PhpArray, resize: Resizer)
    ensures KeptAlbums(Entries(DecodeXml(None)), settings, AlbumMapper(settings, resize)) == []
  {
  }
}
