/**
 * Photo: one non-video entry of an album's media feed.
 */
module Photos {
  import opened Php
  import opened Xml
  import opened Media

  /** The published and updated dates are kept as the strings the feed carries. */
  datatype Photo = Photo(
    photoTitle: string,
    photoUrl: string,
    thumbUrl: string,
    photoSummary: string,
    photoPublished: string,
    photoUpdated: string,
    imageHeight: int,
    imageWidth: int)

  /** `Photo::makeFromXml`: the entry's first title and summary, its dates,
      the provider's height and width cast to integers, the url of the first
      media content and the thumbnail url, first stored raw and then replaced by
      its resized form. `None` stands for the `Error` thrown on an entry
      without a media group. */
  function FromXml(entry: Node, settings: Settings, resize: Resizer): (r: Option<Photo>)
    ensures r.Some? <==> HasMediaGroup(entry)
  {
    var e := Some(entry);
    var group := First(e, "media", "group");
    if group.None? then None
    else
      var rawThumb := StringCast(AttrValue(First(group, "media", "thumbnail"), "url"));
      Some(Photo(
        StringCast(TextValue(First(e, "", "title"))),
        StringCast(AttrValue(First(group, "media", "content"), "url")),
        ResizeThumb(Str(rawThumb), settings, resize),
        StringCast(TextValue(First(e, "", "summary"))),
        StringCast(TextValue(First(e, "", "published"))),
        StringCast(TextValue(First(e, "", "updated"))),
        IntCast(TextValue(First(e, "gphoto", "height"))),
        IntCast(TextValue(First(e, "gphoto", "width")))))
  }

  /** The photo entry that carries exactly the given fields. */
  function PhotoEntry(title: string, photoUrl: string, thumbUrl: string, summary: string,
                      published: string, updated: string, height: int, width: int): Node
  {
    Node("", "entry", map[], "", [
      Leaf("", "title", title),
      Leaf("", "summary", summary),
      Leaf("", "published", published),
      Leaf("", "updated", updated),
      Leaf("gphoto", "height", DecimalString(height)),
      Leaf("gphoto", "width", DecimalString(width)),
      Node("media", "group", map[], "", [
        Node("media", "thumbnail", map["url" := thumbUrl], "", []),
        Node("media", "content", map["url" := photoUrl], "", [])])])
  }

  /** Mapping a photo entry reads back every field it carries, the dates
      unparsed; only the thumbnail url is replaced by its resized form. */
  lemma FromXmlPhotoEntry(title: string, photoUrl: string, thumbUrl: string, summary: string,
                          published: string, updated: string, height: int, width: int,
                          settings: Settings, resize: Resizer)
    ensures FromXml(PhotoEntry(title, photoUrl, thumbUrl, summary, published, updated, height, width), settings, resize)
         == Some(Photo(title, photoUrl, ResizeThumb(Str(thumbUrl), settings, resize), summary, published, updated, height, width))
  {
    var entry := PhotoEntry(title, photoUrl, thumbUrl, summary, published, updated, height, width);
    PhotoEntryTexts(entry, title, photoUrl, thumbUrl, summary, published, updated, height, width);
    PhotoEntryNumbers(entry, title, photoUrl, thumbUrl, summary, published, updated, height, width);
    PhotoEntryUrls(entry, title, photoUrl, thumbUrl, summary, published, updated, height, width);
  }

  // The three lemmas below name the entry as a parameter equal to
  // `PhotoEntry(...)` so that the solver works on one node, not on a
  // constructor term unfolded at each use.

  lemma PhotoEntryTexts(entry: Node, title: string, photoUrl: string, thumbUrl: string, summary: string,
                        published: string, updated: string, height: int, width: int)
    requires entry == PhotoEntry(title, photoUrl, thumbUrl, summary, published, updated, height, width)
    ensures StringCast(TextValue(First(Some(entry), "", "title"))) == title
    ensures StringCast(TextValue(First(Some(entry), "", "summary"))) == summary
    ensures StringCast(TextValue(First(Some(entry), "", "published"))) == published
    ensures StringCast(TextValue(First(Some(entry), "", "updated"))) == updated
  {
    FirstAt(entry, 0, "", "title");
    FirstAt(entry, 1, "", "summary");
    FirstAt(entry, 2, "", "published");
    FirstAt(entry, 3, "", "updated");
  }

  lemma PhotoEntryNumbers(entry: Node, title: string, photoUrl: string, thumbUrl: string, summary: string,
                          published: string, updated: string, height: int, width: int)
    requires entry == PhotoEntry(title, photoUrl, thumbUrl, summary, published, updated, height, width)
    ensures IntCast(TextValue(First(Some(entry), "gphoto", "height"))) == height
    ensures IntCast(TextValue(First(Some(entry), "gphoto", "width"))) == width
  {
    FirstAt(entry, 4, "gphoto", "height");
    FirstAt(entry, 5, "gphoto", "width");
    StringToIntRoundTrip(height);
    StringToIntRoundTrip(width);
  }

  lemma PhotoEntryUrls(entry: Node, title: string, photoUrl: string, thumbUrl: string, summary: string,
                       published: string, updated: string, height: int, width: int)
    requires entry == PhotoEntry(title, photoUrl, thumbUrl, summary, published, updated, height, width)
    ensures var group := First(Some(entry), "media", "group");
      && group.Some?
      && StringCast(AttrValue(First(group, "media", "thumbnail"), "url")) == thumbUrl
      && StringCast(AttrValue(First(group, "media", "content"), "url")) == photoUrl
  {
    FirstAt(entry, 6, "media", "group");
    FirstAt(entry.children[6], 0, "media", "thumbnail");
    FirstAt(entry.children[6], 1, "media", "content");
  }

  /** Only the first title and the first summary count. */
  lemma FirstTitleWins(first: string, second: string, summary1: string, summary2: string,
                       settings: Settings, resize: Resizer)
    ensures var entry := Node("", "entry", map[], "", [
        Leaf("", "title", first), Leaf("", "summary", summary1),
        Leaf("", "title", second), Leaf("", "summary", summary2), BareGroup()]);
      var p := FromXml(entry, settings, resize);
      p.Some? && p.value.photoTitle == first && p.value.photoSummary == summary1
  {
    var entry := Node("", "entry", map[], "", [
      Leaf("", "title", first), Leaf("", "summary", summary1),
      Leaf("", "title", second), Leaf("", "summary", summary2), BareGroup()]);
    FirstAt(entry, 0, "", "title");
    FirstAt(entry, 1, "", "summary");
    FirstAt(entry, 4, "media", "group");
  }
}
