/**
 * What the three entry mappers share through their common base class: the
 * settings array they receive and the thumbnail resizing they delegate to
 * `resizeImage`, which is not part of this model and is therefore taken as an
 * arbitrary function of its four arguments.
 */
module Media {
  import opened Php
  import opened Xml

  /** The settings array handed to every mapper. */
  type Settings = PhpArray

  /** `resizeImage($url, $thumbSize, $cropMode, $shouldCrop)`. */
  type Resizer = (Value, Value, Value, Value) -> string

  /** Whether the entry has a media group. Every mapper calls
      `$media->group->thumbnail->attributes()`; without a group,
      `$media->group->thumbnail` is null and the call throws an `Error`, so
      the mapper gives no value. */
  predicate HasMediaGroup(entry: Node) {
    First(Some(entry), "media", "group").Some?
  }

  /** Every entry of a feed has a media group, so no mapper throws. */
  predicate AllHaveMediaGroup(entries: seq<Node>) {
    forall i :: 0 <= i < |entries| ==> HasMediaGroup(entries[i])
  }

  /** A media group with a thumbnail and a content node, neither of which has
      attributes. */
  function BareGroup(): Node {
    Node("media", "group", map[], "", [
      Node("media", "thumbnail", map[], "", []),
      Node("media", "content", map[], "", [])])
  }

  /** The resize call every mapper makes on its thumbnail url, with the three
      settings values it reads (a missing key reads as null). */
  function ResizeThumb(url: Value, settings: Settings, resize: Resizer): string {
    resize(url, Lookup(settings, "thumb_size"), Lookup(settings, "crop_mode"), Lookup(settings, "should_crop"))
  }
}
