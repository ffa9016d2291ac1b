/**
 * Video: a feed entry whose media group lists several renditions. The mapper
 * keeps the video renditions in document order and takes the url of the widest
 * one, the first of equal widths, as the video's own url.
 */
module Videos {
  import opened Php
  import opened Xml
  import opened Media
  import Content

  type Stream = Content.ContentElement

  datatype Video = Video(
    photoTitle: string,
    photoUrl: string,
    thumbUrl: string,
    photoSummary: string,
    photoPublished: string,
    photoUpdated: string,
    imageHeight: int,
    imageWidth: int,
    streams: seq<Stream>)

  /** The content nodes that `keep` accepts, each mapped by
      `ContentElement::makeFromXml`, in document order. */
  function StreamsWhere(contents: seq<Node>, keep: Node -> bool): (r: seq<Stream>)
    ensures |r| <= |contents|
  {
    if contents == [] then []
    else
      var last := contents[|contents| - 1];
      StreamsWhere(contents[..|contents| - 1], keep) + (if keep(last) then [Content.FromXml(last)] else [])
  }

  /** Every collected stream comes from a content node that `keep` accepts. */
  lemma {:induction false} StreamsWhereSources(contents: seq<Node>, keep: Node -> bool)
    ensures forall s :: s in StreamsWhere(contents, keep) ==>
      exists c :: c in contents && keep(c) && s == Content.FromXml(c)
  {
    if contents != [] {
      var p := contents[..|contents| - 1];
      StreamsWhereSources(p, keep);
      forall s | s in StreamsWhere(contents, keep)
        ensures exists c :: c in contents && keep(c) && s == Content.FromXml(c)
      {
        if s in StreamsWhere(p, keep) {
          var c :| c in p && keep(c) && s == Content.FromXml(c);
          assert c in contents;
        } else {
          assert contents[|contents| - 1] in contents;
        }
      }
    }
  }

  /** Filtering distributes over concatenation: document order is kept. */
  lemma {:induction false} StreamsWhereAppend(a: seq<Node>, b: seq<Node>, keep: Node -> bool)
    ensures StreamsWhere(a + b, keep) == StreamsWhere(a, keep) + StreamsWhere(b, keep)
  {
    if b == [] {
      assert a + b == a;
    } else {
      var b' := b[..|b| - 1];
      assert (a + b)[..|a + b| - 1] == a + b';
      StreamsWhereAppend(a, b', keep);
    }
  }

  /** With the comparison as written, no rendition is ever collected. */
  lemma {:induction false} StreamsAsWrittenEmpty(contents: seq<Node>)
    ensures StreamsWhere(contents, Content.IsVideoAsWritten) == []
  {
    if contents != [] {
      Content.IsVideoAsWrittenNeverHolds(contents[|contents| - 1]);
      StreamsAsWrittenEmpty(contents[..|contents| - 1]);
    }
  }

  /** `s[i]` is at least as wide as every stream and strictly wider than every
      stream before it. */
  predicate IsFirstWidest(s: seq<Stream>, i: int)
    requires 0 <= i < |s|
  {
    && (forall j :: 0 <= j < |s| ==> s[j].width <= s[i].width)
    && (forall j :: 0 <= j < i ==> s[j].width < s[i].width)
  }

  /** What the best stream is: the sentinel when no stream is wider than 0,
      otherwise the first stream of maximal width. */
  predicate SelectsBest(s: seq<Stream>, b: Stream) {
    if forall j :: 0 <= j < |s| ==> s[j].width <= 0 then b == Content.Sentinel
    else exists i :: 0 <= i < |s| && b == s[i] && IsFirstWidest(s, i)
  }

  /** The running maximum of `getBestStream` over the streams, from the
      sentinel, replacing only on a strictly wider stream. */
  function BestOf(s: seq<Stream>): (b: Stream)
    ensures b == Content.Sentinel || b in s
    ensures b.width >= 0
    ensures forall j :: 0 <= j < |s| ==> s[j].width <= b.width
  {
    if s == [] then Content.Sentinel
    else
      var b := BestOf(s[..|s| - 1]);
      var last := s[|s| - 1];
      if Content.IsBiggerThan(last, b) then last else b
  }

  lemma {:induction false} BestOfSelectsBest(s: seq<Stream>)
    ensures SelectsBest(s, BestOf(s))
  {
    if s != [] {
      var p := s[..|s| - 1];
      var b := BestOf(p);
      var last := s[|s| - 1];
      BestOfSelectsBest(p);
      if Content.IsBiggerThan(last, b) {
        assert IsFirstWidest(s, |s| - 1);
      } else if exists j :: 0 <= j < |p| && p[j].width > 0 {
        var i :| 0 <= i < |p| && b == p[i] && IsFirstWidest(p, i);
        FirstWidestExtends(s, i);
      } else {
        assert b == Content.Sentinel;
      }
    }
  }

  /** The first widest stream of a prefix stays the first widest when the
      next stream is not strictly wider. */
  lemma FirstWidestExtends(s: seq<Stream>, i: nat)
    requires s != [] && i < |s| - 1
    requires IsFirstWidest(s[..|s| - 1], i)
    requires s[|s| - 1].width <= s[i].width
    ensures IsFirstWidest(s, i)
  {
    var p := s[..|s| - 1];
    forall j | 0 <= j < |s|
      ensures s[j].width <= s[i].width
    {
      if j < |p| {
        assert s[j] == p[j];
      }
    }
    forall j | 0 <= j < i
      ensures s[j].width < s[i].width
    {
      assert s[j] == p[j];
    }
  }

  /** The characterisation pins the best stream down: at most one stream
      satisfies it. */
  lemma SelectsBestUnique(s: seq<Stream>, b1: Stream, b2: Stream)
    requires SelectsBest(s, b1) && SelectsBest(s, b2)
    ensures b1 == b2
  {
    if exists j :: 0 <= j < |s| && s[j].width > 0 {
      var i1 :| 0 <= i1 < |s| && b1 == s[i1] && IsFirstWidest(s, i1);
      var i2 :| 0 <= i2 < |s| && b2 == s[i2] && IsFirstWidest(s, i2);
      assert s[i2].width <= s[i1].width && s[i1].width <= s[i2].width;
    }
  }

  /** `getBestStream`. */
  method GetBestStream(streams: seq<Stream>) returns (greatest: Stream)
    ensures greatest == BestOf(streams)
    ensures SelectsBest(streams, greatest)
  {
    greatest := Content.Sentinel;
    for i := 0 to |streams|
      invariant greatest == BestOf(streams[..i])
    {
      assert streams[..i + 1][..i] == streams[..i];
      if Content.IsBiggerThan(streams[i], greatest) {
        greatest := streams[i];
      }
    }
    assert streams[..|streams|] == streams;
    BestOfSelectsBest(streams);
  }

  /** `Video::makeFromXml` as a value: the video renditions of the first media
      group, the url of the best one, the resized thumbnail and the entry's
      own fields. `None` stands for the `Error` thrown on an entry without a
      media group. */
  function FromXml(entry: Node, settings: Settings, resize: Resizer): (r: Option<Video>)
    ensures r.Some? <==> HasMediaGroup(entry)
  {
    var e := Some(entry);
    var group := First(e, "media", "group");
    if group.None? then None
    else
      var thumbnail := First(group, "media", "thumbnail");
      var streams := StreamsWhere(Children(group, "media", "content"), Content.IsVideo);
      Some(Video(
        StringCast(TextValue(First(e, "", "title"))),
        BestOf(streams).url,
        ResizeThumb(AttrValue(thumbnail, "url"), settings, resize),
        StringCast(TextValue(First(e, "", "summary"))),
        StringCast(TextValue(First(e, "", "published"))),
        StringCast(TextValue(First(e, "", "updated"))),
        IntCast(TextValue(First(e, "gphoto", "height"))),
        IntCast(TextValue(First(e, "gphoto", "width"))),
        streams))
  }

  /** `Video::makeFromXml`: collects the renditions in a loop, then picks the
      best one. */
  method MakeFromXml(entry: Node, settings: Settings, resize: Resizer) returns (video: Option<Video>)
    ensures video == FromXml(entry, settings, resize)
  {
    var e := Some(entry);
    var group := First(e, "media", "group");
    if group.None? {
      return None;
    }
    var thumbnail := First(group, "media", "thumbnail");
    var contents := Children(group, "media", "content");
    var streams: seq<Stream> := [];
    for i := 0 to |contents|
      invariant streams == StreamsWhere(contents[..i], Content.IsVideo)
    {
      assert contents[..i + 1][..i] == contents[..i];
      if Content.IsVideo(contents[i]) {
        streams := streams + [Content.FromXml(contents[i])];
      }
    }
    assert contents[..|contents|] == contents;
    var best := GetBestStream(streams);
    video := Some(Video(
      StringCast(TextValue(First(e, "", "title"))),
      best.url,
      ResizeThumb(AttrValue(thumbnail, "url"), settings, resize),
      StringCast(TextValue(First(e, "", "summary"))),
      StringCast(TextValue(First(e, "", "published"))),
      StringCast(TextValue(First(e, "", "updated"))),
      IntCast(TextValue(First(e, "gphoto", "height"))),
      IntCast(TextValue(First(e, "gphoto", "width"))),
      streams));
  }

  /** The video's url is the url of the best stream: empty when no stream is
      wider than 0, otherwise that of the first widest stream. */
  lemma VideoUrlIsBestStream(entry: Node, settings: Settings, resize: Resizer)
    requires HasMediaGroup(entry)
    ensures var v := FromXml(entry, settings, resize).value;
      && ((forall j :: 0 <= j < |v.streams| ==> v.streams[j].width <= 0) ==> v.photoUrl == "")
      && ((exists j :: 0 <= j < |v.streams| && v.streams[j].width > 0) ==>
            exists i :: 0 <= i < |v.streams| && v.photoUrl == v.streams[i].url && IsFirstWidest(v.streams, i))
  {
    BestOfSelectsBest(FromXml(entry, settings, resize).value.streams);
  }

  /** Every collected stream is a video rendition mapped from a content node
      of the entry's media group. */
  lemma StreamsAreVideoContents(entry: Node, settings: Settings, resize: Resizer)
    requires HasMediaGroup(entry)
    ensures var v := FromXml(entry, settings, resize).value;
      var contents := Children(First(Some(entry), "media", "group"), "media", "content");
      forall s :: s in v.streams ==>
        s.medium == Some("video") && exists c :: c in contents && s == Content.FromXml(c)
  {
    var contents := Children(First(Some(entry), "media", "group"), "media", "content");
    StreamsWhereSources(contents, Content.IsVideo);
  }

  /** Widths 320, 1280, 640 in that order: the 1280 rendition is chosen and the
      order of the streams is untouched. */
  lemma WidestStreamChosen()
    ensures var s := [Content.ContentElement("a", 240, 320, None, None),
                      Content.ContentElement("b", 720, 1280, None, None),
                      Content.ContentElement("c", 480, 640, None, None)];
      BestOf(s) == s[1] && SelectsBest(s, s[1])
  {
    var s := [Content.ContentElement("a", 240, 320, None, None),
              Content.ContentElement("b", 720, 1280, None, None),
              Content.ContentElement("c", 480, 640, None, None)];
    BestOfSelectsBest(s);
  }

  /** Two renditions of equal width: the first one wins. */
  lemma TieGoesToFirst()
    ensures var s := [Content.ContentElement("first", 480, 640, None, None),
                      Content.ContentElement("second", 480, 640, None, None)];
      BestOf(s).url == "first"
  {
  }

  /** Streams an entry can carry: typed video renditions. */
  predicate AllVideoStreams(streams: seq<Stream>) {
    forall i :: 0 <= i < |streams| ==> streams[i].contentType.Some? && streams[i].medium == Some("video")
  }

  /** The content nodes that carry exactly the given streams, in order. */
  function StreamNodes(streams: seq<Stream>): (r: seq<Node>)
    requires AllVideoStreams(streams)
    ensures |r| == |streams|
    ensures forall i :: 0 <= i < |r| ==> r[i] == Content.StreamNode(streams[i])
  {
    if streams == [] then []
    else StreamNodes(streams[..|streams| - 1]) + [Content.StreamNode(streams[|streams| - 1])]
  }

  /** When `keep` accepts every node, filtering is plain mapping: nodes that
      map to the given streams give back exactly those streams. */
  lemma {:induction false} StreamsWhereAllKept(nodes: seq<Node>, streams: seq<Stream>, keep: Node -> bool)
    requires |nodes| == |streams|
    requires forall i :: 0 <= i < |nodes| ==> keep(nodes[i]) && Content.FromXml(nodes[i]) == streams[i]
    ensures StreamsWhere(nodes, keep) == streams
  {
    if nodes != [] {
      var n := |nodes| - 1;
      var pn, ps := nodes[..n], streams[..n];
      assert forall i :: 0 <= i < |pn| ==> pn[i] == nodes[i] && ps[i] == streams[i];
      StreamsWhereAllKept(pn, ps, keep);
      assert pn == nodes[..|nodes| - 1];
      assert StreamsWhere(nodes, keep) == ps + [streams[n]];
      TakeSnoc(streams);
    }
  }

  /** A non-empty sequence is its prefix followed by its last element. */
  lemma TakeSnoc<T>(s: seq<T>)
    requires s != []
    ensures s[..|s| - 1] + [s[|s| - 1]] == s
  {
  }

  /** Mapping the content nodes of video streams gives the streams back. */
  lemma StreamsOfStreamNodes(streams: seq<Stream>)
    requires AllVideoStreams(streams)
    ensures StreamsWhere(StreamNodes(streams), Content.IsVideo) == streams
  {
    var nodes := StreamNodes(streams);
    forall i | 0 <= i < |nodes|
      ensures Content.IsVideo(nodes[i]) && Content.FromXml(nodes[i]) == streams[i]
    {
      Content.StreamNodeIsVideo(streams[i]);
      Content.FromXmlStreamNode(streams[i]);
    }
    StreamsWhereAllKept(nodes, streams, Content.IsVideo);
  }

  /** Every node of `cs` matches: selecting keeps them all. */
  lemma {:induction false} SelectAll(cs: seq<Node>, ns: string, name: string)
    requires forall i :: 0 <= i < |cs| ==> cs[i].ns == ns && cs[i].name == name
    ensures Select(cs, ns, name) == cs
  {
    if cs != [] {
      SelectAll(cs[1..], ns, name);
    }
  }

  /** The media group that carries a thumbnail url and the given streams. */
  function VideoGroup(thumbUrl: string, streams: seq<Stream>): Node
    requires AllVideoStreams(streams)
  {
    Node("media", "group", map[], "", [Node("media", "thumbnail", map["url" := thumbUrl], "", [])] + StreamNodes(streams))
  }

  /** The video entry with the given fields and media group. */
  function VideoEntry(title: string, summary: string, published: string, updated: string,
                      height: int, width: int, group: Node): Node
  {
    Node("", "entry", map[], "", [
      Leaf("", "title", title),
      Leaf("", "summary", summary),
      Leaf("", "published", published),
      Leaf("", "updated", updated),
      Leaf("gphoto", "height", DecimalString(height)),
      Leaf("gphoto", "width", DecimalString(width)),
      group])
  }

  /** Mapping a video entry reads back every field it carries and every
      stream in order; the url is that of the best stream, and the thumbnail
      attribute node itself is handed to the resize. */
  lemma FromXmlVideoEntry(title: string, thumbUrl: string, summary: string, published: string, updated: string,
                          height: int, width: int, streams: seq<Stream>, settings: Settings, resize: Resizer)
    requires AllVideoStreams(streams)
    ensures FromXml(VideoEntry(title, summary, published, updated, height, width, VideoGroup(thumbUrl, streams)), settings, resize)
         == Some(Video(title, BestOf(streams).url, ResizeThumb(Element(thumbUrl), settings, resize),
                       summary, published, updated, height, width, streams))
  {
    var group := VideoGroup(thumbUrl, streams);
    var entry := VideoEntry(title, summary, published, updated, height, width, group);
    FirstAt(entry, 6, "media", "group");
    var v := FromXml(entry, settings, resize);
    assert v.Some? && v.value.streams == streams && v.value.photoUrl == BestOf(streams).url
        && v.value.thumbUrl == ResizeThumb(Element(thumbUrl), settings, resize) by {
      VideoGroupContents(thumbUrl, streams);
    }
    assert v.value.photoTitle == title && v.value.photoSummary == summary
        && v.value.photoPublished == published && v.value.photoUpdated == updated by {
      VideoEntryTexts(entry, title, summary, published, updated, height, width, group);
    }
    assert v.value.imageHeight == height && v.value.imageWidth == width by {
      VideoEntryNumbers(entry, title, summary, published, updated, height, width, group);
    }
  }

  // The two lemmas below name the entry as a parameter equal to
  // `VideoEntry(...)` so that the solver works on one node, not on a
  // constructor term unfolded at each use.

  lemma VideoEntryTexts(entry: Node, title: string, summary: string, published: string,
                        updated: string, height: int, width: int, group: Node)
    requires entry == VideoEntry(title, summary, published, updated, height, width, group)
    ensures StringCast(TextValue(First(Some(entry), "", "title"))) == title
    ensures StringCast(TextValue(First(Some(entry), "", "summary"))) == summary
    ensures StringCast(TextValue(First(Some(entry), "", "published"))) == published
    ensures StringCast(TextValue(First(Some(entry), "", "updated"))) == updated
  {
    FirstAt(entry, 0, "", "title");
    FirstAt(entry, 1, "", "summary");
    FirstAt(entry, 2, "", "published");
    FirstAt(entry, 3, "", "updated");
  }

  lemma VideoEntryNumbers(entry: Node, title: string, summary: string, published: string,
                          updated: string, height: int, width: int, group: Node)
    requires entry == VideoEntry(title, summary, published, updated, height, width, group)
    ensures IntCast(TextValue(First(Some(entry), "gphoto", "height"))) == height
    ensures IntCast(TextValue(First(Some(entry), "gphoto", "width"))) == width
  {
    FirstAt(entry, 4, "gphoto", "height");
    FirstAt(entry, 5, "gphoto", "width");
    StringToIntRoundTrip(height);
    StringToIntRoundTrip(width);
  }

  lemma VideoGroupContents(thumbUrl: string, streams: seq<Stream>)
    requires AllVideoStreams(streams)
    ensures var group := Some(VideoGroup(thumbUrl, streams));
      && AttrValue(First(group, "media", "thumbnail"), "url") == Element(thumbUrl)
      && StreamsWhere(Children(group, "media", "content"), Content.IsVideo) == streams
  {
    var g := VideoGroup(thumbUrl, streams);
    FirstAt(g, 0, "media", "thumbnail");
    var thumb := g.children[0];
    var nodes := StreamNodes(streams);
    assert g.children == [thumb] + nodes;
    SelectAppend([thumb], nodes, "media", "content");
    SelectAll(nodes, "media", "content");
    StreamsOfStreamNodes(streams);
  }
}
