/**
 * ContentElement: one `<media:content>` rendition of a video (or photo), the
 * zero-width element a fresh object starts as, the width order between two
 * elements and the test for a video rendition.
 */
module Content {
  import opened Php
  import opened Xml

  datatype ContentElement = ContentElement(
    url: string,
    height: int,
    width: int,
    contentType: Option<string>,
    medium: Option<string>)

  /** A freshly constructed ContentElement: empty url, zero height and width,
      no type and no medium. The best-stream search starts from it. */
  const Sentinel := ContentElement("", 0, 0, None, None)

  /** `ContentElement::makeFromXml`: the attributes of one content node, the
      strings cast with `(string)` and the dimensions with `(int)`. */
  function FromXml(n: Node): (c: ContentElement)
    ensures c.contentType.Some? && c.medium.Some?
    ensures IsVideo(n) <==> c.medium == Some("video")
    ensures "width" !in n.attrs ==> c.width == 0
    ensures "url" !in n.attrs ==> c.url == ""
  {
    var x := Some(n);
    ContentElement(
      StringCast(AttrValue(x, "url")),
      IntCast(AttrValue(x, "height")),
      IntCast(AttrValue(x, "width")),
      Some(StringCast(AttrValue(x, "type"))),
      Some(StringCast(AttrValue(x, "medium"))))
  }

  /** `isBiggerThan`: strictly wider; the height plays no part. */
  predicate IsBiggerThan(c: ContentElement, other: ContentElement) {
    c.width > other.width
  }

  /** `isVideo` as documented: the node's `medium` attribute is "video", that
      is, the attribute cast with `(string)` is identical to 'video'. */
  predicate IsVideo(n: Node): (r: bool)
    ensures r <==> StringCast(AttrValue(Some(n), "medium")) == "video"
  {
    "medium" in n.attrs && n.attrs["medium"] == "video"
  }

  /** `isVideo` as written at Model/ContentElement.php:80: the attribute node
      returned by `attributes()['medium']` is compared with `===` to the string
      'video'. An attribute node (or null) is never identical to a string. */
  predicate IsVideoAsWritten(n: Node) {
    AttrValue(Some(n), "medium") == Str("video")
  }

  /** The content node with exactly these five attributes. */
  function ContentNode(url: string, height: string, width: string, contentType: string, medium: string): Node {
    Node("media", "content",
      map["url" := url, "height" := height, "width" := width, "type" := contentType, "medium" := medium],
      "", [])
  }

  /** The content node that carries exactly the fields of `c`. */
  function StreamNode(c: ContentElement): Node
    requires c.contentType.Some? && c.medium.Some?
  {
    ContentNode(c.url, DecimalString(c.height), DecimalString(c.width), c.contentType.value, c.medium.value)
  }

  /** The content node of a video rendition is recognised as one. */
  lemma StreamNodeIsVideo(c: ContentElement)
    requires c.contentType.Some? && c.medium == Some("video")
    ensures IsVideo(StreamNode(c))
  {
  }

  /** Each attribute lands in its field, the dimensions through `(int)`. */
  lemma FromXmlContentNode(url: string, height: string, width: string, contentType: string, medium: string)
    ensures FromXml(ContentNode(url, height, width, contentType, medium))
      == ContentElement(url, StringToInt(height), StringToInt(width), Some(contentType), Some(medium))
  {
    var x := Some(ContentNode(url, height, width, contentType, medium));
    assert AttrValue(x, "url") == Element(url);
    assert AttrValue(x, "height") == Element(height);
    assert AttrValue(x, "width") == Element(width);
    assert AttrValue(x, "type") == Element(contentType);
    assert AttrValue(x, "medium") == Element(medium);
  }

  /** Mapping a content node reads back every field it carries. */
  lemma FromXmlStreamNode(c: ContentElement)
    requires c.contentType.Some? && c.medium.Some?
    ensures FromXml(StreamNode(c)) == c
  {
    FromXmlContentNode(c.url, DecimalString(c.height), DecimalString(c.width), c.contentType.value, c.medium.value);
    StringToIntRoundTrip(c.height);
    StringToIntRoundTrip(c.width);
  }

  /** A node without attributes maps to the sentinel's url and dimensions. */
  lemma FromXmlBareNode(ns: string, name: string, text: string, children: seq<Node>)
    ensures var c := FromXml(Node(ns, name, map[], text, children));
      c.url == Sentinel.url && c.width == Sentinel.width && c.height == Sentinel.height
      && c.contentType == Some("") && c.medium == Some("")
  {
  }

  /** `isBiggerThan` is a strict order: irreflexive, asymmetric, transitive,
      and blind to the height. */
  lemma IsBiggerThanIsStrictOrder(a: ContentElement, b: ContentElement, c: ContentElement, h: int)
    ensures !IsBiggerThan(a, a)
    ensures IsBiggerThan(a, b) ==> !IsBiggerThan(b, a)
    ensures IsBiggerThan(a, b) && IsBiggerThan(b, c) ==> IsBiggerThan(a, c)
    ensures IsBiggerThan(a.(height := h), b) == IsBiggerThan(a, b)
  {
  }

  /** The comparison as written rejects every node, whatever its attributes. */
  lemma IsVideoAsWrittenNeverHolds(n: Node)
    ensures !IsVideoAsWritten(n)
  {
  }

  /** A content node whose medium is "video" is a video rendition as documented
      but is rejected by the comparison as written. */
  lemma VideoNodeRejectedAsWritten()
    ensures var n := StreamNode(ContentElement("v.mp4", 720, 1280, Some("video/mpeg4"), Some("video")));
      IsVideo(n) && !IsVideoAsWritten(n)
  {
  }
}
