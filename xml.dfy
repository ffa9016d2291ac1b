/**
 * An already parsed feed, as the mappers see it through SimpleXML. A node has
 * a namespace (identified by the prefix the feed declares for it: "" for the
 * Atom default namespace, "gphoto" for the provider's fields, "media" for the
 * media group), a name, its attributes, its own text and its children in
 * document order.
 */
module Xml {
  import opened Php

  datatype Node = Node(ns: string, name: string, attrs: map<string, string>, text: string, children: seq<Node>)

  /** The nodes of `cs` in namespace `ns` named `name`, in document order. */
  function Select(cs: seq<Node>, ns: string, name: string): (r: seq<Node>)
    ensures |r| <= |cs|
  {
    if cs == [] then []
    else if cs[0].ns == ns && cs[0].name == name then [cs[0]] + Select(cs[1..], ns, name)
    else Select(cs[1..], ns, name)
  }

  lemma {:induction false} SelectAppend(a: seq<Node>, b: seq<Node>, ns: string, name: string)
    ensures Select(a + b, ns, name) == Select(a, ns, name) + Select(b, ns, name)
  {
    if a != [] {
      assert (a + b)[1..] == a[1..] + b;
      assert (a + b)[0] == a[0];
      SelectAppend(a[1..], b, ns, name);
    } else {
      assert a + b == b;
    }
  }

  /** `$x->name` iterated (or `$x->children($ns)->name`): the matching children
      of `x`, none when `x` is itself missing. (SimpleXML gives null one
      level below a missing element, so a method call there throws; the
      entry mappers model that case themselves, see `Media.HasMediaGroup`.) */
  function Children(x: Option<Node>, ns: string, name: string): seq<Node> {
    if x.Some? then Select(x.value.children, ns, name) else []
  }

  /** `$x->name` used as one node: the first matching child of `x`, if any.
      The ensures only expose the body to callers that do not unfold it; the
      facts stated about `First` are `FirstAt` and `FirstMissing`. */
  function First(x: Option<Node>, ns: string, name: string): (r: Option<Node>)
    ensures r.Some? <==> Children(x, ns, name) != []
    ensures r.Some? ==> r.value == Children(x, ns, name)[0]
  {
    var cs := Children(x, ns, name);
    if cs == [] then None else Some(cs[0])
  }

  /** `$x` itself as a PHP value: the element, or null when it is missing.
      Both casts treat a missing node like SimpleXML's empty result. */
  function TextValue(x: Option<Node>): (v: Value)
    ensures StringCast(v) == (if x.Some? then x.value.text else "")
  {
    if x.Some? then Element(x.value.text) else Null
  }

  /** `$x->attributes()[key]`: the attribute node, or null when the attribute
      or the node itself is missing. */
  function AttrValue(x: Option<Node>, key: string): (v: Value)
    ensures v == Null || v.Element?
    ensures StringCast(v) == (if x.Some? && key in x.value.attrs then x.value.attrs[key] else "")
  {
    if x.Some? && key in x.value.attrs then Element(x.value.attrs[key]) else Null
  }

  /** A node with only text: `<ns:name>text</ns:name>`. */
  function Leaf(ns: string, name: string, text: string): Node {
    Node(ns, name, map[], text, [])
  }

  /** The first child matching `ns` and `name` is the one at index `i` when no
      earlier child matches. */
  lemma {:induction false} FirstAt(x: Node, i: nat, ns: string, name: string)
    requires i < |x.children| && x.children[i].ns == ns && x.children[i].name == name
    requires forall j :: 0 <= j < i ==> !(x.children[j].ns == ns && x.children[j].name == name)
    ensures First(Some(x), ns, name) == Some(x.children[i])
  {
    SelectFrom(x.children, i, ns, name);
  }

  /** `$x->name` is missing exactly when no child of `x` has that name. */
  lemma FirstMissing(x: Node, ns: string, name: string)
    ensures First(Some(x), ns, name).None? <==>
      forall j :: 0 <= j < |x.children| ==> !(x.children[j].ns == ns && x.children[j].name == name)
  {
    SelectEmpty(x.children, ns, name);
  }

  lemma {:induction false} SelectEmpty(cs: seq<Node>, ns: string, name: string)
    ensures Select(cs, ns, name) == [] <==> forall j :: 0 <= j < |cs| ==> !(cs[j].ns == ns && cs[j].name == name)
  {
    if cs != [] {
      SelectEmpty(cs[1..], ns, name);
      assert forall j :: 1 <= j < |cs| ==> cs[j] == cs[1..][j - 1];
    }
  }

  lemma {:induction false} SelectFrom(cs: seq<Node>, i: nat, ns: string, name: string)
    requires i < |cs| && cs[i].ns == ns && cs[i].name == name
    requires forall j :: 0 <= j < i ==> !(cs[j].ns == ns && cs[j].name == name)
    ensures Select(cs, ns, name) != [] && Select(cs, ns, name)[0] == cs[i]
  {
    if i > 0 {
      SelectFrom(cs[1..], i - 1, ns, name);
    }
  }
}
