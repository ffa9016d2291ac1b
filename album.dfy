/**
 * Album: one entry of the album-list feed, and the test that drops the albums
 * the settings ask to ignore.
 */
module Albums {
  import opened Php
  import opened Xml
  import opened Media

  /** The published and updated dates are kept as the strings the feed carries. */
  datatype Album = Album(
    albumTitle: string,
    photoUrl: string,
    thumbUrl: string,
    albumId: int,
    albumNumPhotos: int,
    publishedDate: string,
    updatedDate: string)

  /** `Album::makeFromXml`: the entry's title and dates, the provider's id and
      photo count cast to integers, the url of the first media content and the
      thumbnail url, first stored raw and then replaced by its resized form.
      `None` stands for the `Error` thrown on an entry without a media group. */
  function FromXml(entry: Node, settings: Settings, resize: Resizer): (r: Option<Album>)
    ensures r.Some? <==> HasMediaGroup(entry)
  {
    var e := Some(entry);
    var group := First(e, "media", "group");
    if group.None? then None
    else
      var rawThumb := StringCast(AttrValue(First(group, "media", "thumbnail"), "url"));
      Some(Album(
        StringCast(TextValue(First(e, "", "title"))),
        StringCast(AttrValue(First(group, "media", "content"), "url")),
        ResizeThumb(Str(rawThumb), settings, resize),
        IntCast(TextValue(First(e, "gphoto", "id"))),
        IntCast(TextValue(First(e, "gphoto", "numphotos"))),
        StringCast(TextValue(First(e, "", "published"))),
        StringCast(TextValue(First(e, "", "updated")))))
  }

  /** `$settings['ignored_albums']`; a value that is not an array behaves as an
      empty one, as `in_array` then finds nothing. */
  function IgnoredAlbums(settings: Settings): seq<Value> {
    match Lookup(settings, "ignored_albums")
    case List(xs) => xs
    case _ => []
  }

  /** `isExcluded`: the album's id or its title is listed in `ignored_albums`. */
  function IsExcluded(a: Album, settings: Settings): (r: bool)
    ensures r <==> Int(a.albumId) in IgnoredAlbums(settings) || Str(a.albumTitle) in IgnoredAlbums(settings)
  {
    var ignored := IgnoredAlbums(settings);
    InArray(Int(a.albumId), ignored) || InArray(Str(a.albumTitle), ignored)
  }

  /** With nothing to ignore, no album is excluded. */
  lemma NothingIgnoredNothingExcluded(a: Album, settings: Settings)
    requires IgnoredAlbums(settings) == []
    ensures !IsExcluded(a, settings)
  {
  }

  /** Listing more albums to ignore can only exclude more albums. */
  lemma ExclusionIsMonotone(a: Album, s1: Settings, s2: Settings)
    requires forall v :: v in IgnoredAlbums(s1) ==> v in IgnoredAlbums(s2)
    ensures IsExcluded(a, s1) ==> IsExcluded(a, s2)
  {
  }

  /** An album is dropped when its id is listed, and when its title is listed. */
  lemma ExcludedByIdOrTitle(a: Album)
    ensures IsExcluded(a, map["ignored_albums" := List([Int(a.albumId)])])
    ensures IsExcluded(a, map["ignored_albums" := List([Str(a.albumTitle)])])
    ensures !IsExcluded(a, map["ignored_albums" := List([Str(a.albumTitle + "x")])])
  {
    assert a.albumTitle + "x" != a.albumTitle by {
      assert |a.albumTitle + "x"| != |a.albumTitle|;
    }
  }

  /** The album entry that carries exactly the given fields. */
  function AlbumEntry(title: string, photoUrl: string, thumbUrl: string, id: int, numPhotos: int,
                      published: string, updated: string): Node
  {
    Node("", "entry", map[], "", [
      Leaf("", "title", title),
      Leaf("", "published", published),
      Leaf("", "updated", updated),
      Leaf("gphoto", "id", DecimalString(id)),
      Leaf("gphoto", "numphotos", DecimalString(numPhotos)),
      Node("media", "group", map[], "", [
        Node("media", "thumbnail", map["url" := thumbUrl], "", []),
        Node("media", "content", map["url" := photoUrl], "", [])])])
  }

  /** Mapping an album entry reads back every field it carries; only the
      thumbnail url is replaced by its resized form. */
  lemma FromXmlAlbumEntry(title: string, photoUrl: string, thumbUrl: string, id: int, numPhotos: int,
                          published: string, updated: string, settings: Settings, resize: Resizer)
    ensures FromXml(AlbumEntry(title, photoUrl, thumbUrl, id, numPhotos, published, updated), settings, resize)
         == Some(Album(title, photoUrl, ResizeThumb(Str(thumbUrl), settings, resize), id, numPhotos, published, updated))
  {
    var entry := AlbumEntry(title, photoUrl, thumbUrl, id, numPhotos, published, updated);
    AlbumEntryTexts(entry, title, photoUrl, thumbUrl, id, numPhotos, published, updated);
    AlbumEntryNumbers(entry, title, photoUrl, thumbUrl, id, numPhotos, published, updated);
    AlbumEntryUrls(entry, title, photoUrl, thumbUrl, id, numPhotos, published, updated);
  }

  // The three lemmas below name the entry as a parameter equal to
  // `AlbumEntry(...)` so that the solver works on one node, not on a
  // constructor term unfolded at each use.

  lemma AlbumEntryTexts(entry: Node, title: string, photoUrl: string, thumbUrl: string, id: int, numPhotos: int,
                        published: string, updated: string)
    requires entry == AlbumEntry(title, photoUrl, thumbUrl, id, numPhotos, published, updated)
    ensures StringCast(TextValue(First(Some(entry), "", "title"))) == title
    ensures StringCast(TextValue(First(Some(entry), "", "published"))) == published
    ensures StringCast(TextValue(First(Some(entry), "", "updated"))) == updated
  {
    FirstAt(entry, 0, "", "title");
    FirstAt(entry, 1, "", "published");
    FirstAt(entry, 2, "", "updated");
  }

  lemma AlbumEntryNumbers(entry: Node, title: string, photoUrl: string, thumbUrl: string, id: int, numPhotos: int,
                          published: string, updated: string)
    requires entry == AlbumEntry(title, photoUrl, thumbUrl, id, numPhotos, published, updated)
    ensures IntCast(TextValue(First(Some(entry), "gphoto", "id"))) == id
    ensures IntCast(TextValue(First(Some(entry), "gphoto", "numphotos"))) == numPhotos
  {
    FirstAt(entry, 3, "gphoto", "id");
    FirstAt(entry, 4, "gphoto", "numphotos");
    StringToIntRoundTrip(id);
    StringToIntRoundTrip(numPhotos);
  }

  lemma AlbumEntryUrls(entry: Node, title: string, photoUrl: string, thumbUrl: string, id: int, numPhotos: int,
                       published: string, updated: string)
    requires entry == AlbumEntry(title, photoUrl, thumbUrl, id, numPhotos, published, updated)
    ensures var group := First(Some(entry), "media", "group");
      && group.Some?
      && StringCast(AttrValue(First(group, "media", "thumbnail"), "url")) == thumbUrl
      && StringCast(AttrValue(First(group, "media", "content"), "url")) == photoUrl
  {
    FirstAt(entry, 5, "media", "group");
    FirstAt(entry.children[5], 0, "media", "thumbnail");
    FirstAt(entry.children[5], 1, "media", "content");
  }

  /** An entry without a media group throws, whatever else it carries. */
  lemma FromXmlEntryWithoutGroup(title: string, id: int, settings: Settings, resize: Resizer)
    ensures FromXml(Node("", "entry", map[], "", [Leaf("", "title", title), Leaf("gphoto", "id", DecimalString(id))]),
                    settings, resize) == None
  {
    var entry := Node("", "entry", map[], "", [Leaf("", "title", title), Leaf("gphoto", "id", DecimalString(id))]);
    FirstMissing(entry, "media", "group");
  }

  /** An entry whose media group holds a thumbnail and a content node without
      attributes, and which has no other children, maps to empty strings and
      zeros; the resize still runs, on the empty url. */
  lemma FromXmlEmptyEntry(settings: Settings, resize: Resizer)
    ensures FromXml(Node("", "entry", map[], "", [BareGroup()]), settings, resize)
         == Some(Album("", "", ResizeThumb(Str(""), settings, resize), 0, 0, "", ""))
  {
    var entry := Node("", "entry", map[], "", [BareGroup()]);
    FirstAt(entry, 0, "media", "group");
    FirstAt(BareGroup(), 0, "media", "thumbnail");
    FirstAt(BareGroup(), 1, "media", "content");
  }
}
