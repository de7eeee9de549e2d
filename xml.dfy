/**
 * XML elements as values, with the few XElement operations the transcoders use:
 * looking up an attribute, finding the first child with a given name, filtering
 * children by name, and the upper/lower-casing of identifiers.
 */
module Xml {
  import opened Wrappers

  /** An element: its local name, its attributes, its own text and its child elements in document order. */
  datatype Element = Element(name: string, attrs: map<string, string>, text: string, children: seq<Element>)

  // Tag and attribute names shared by the storage formats.
  const RtTag := "rt"
  const ClassAttr := "class"
  const GuidAttr := "guid"
  const OwnerGuidAttr := "ownerguid"
  const KindAttr := "t"
  const ObjsurTag := "objsur"
  const OwnseqTag := "ownseq"
  const RefseqTag := "refseq"
  const HeaderTag := "header"
  const OwningKind := "o"
  const ReferenceKind := "r"

  /** The textual form of the all-zero GUID, as Guid.Empty.ToString() gives it. */
  const EmptyGuid := "00000000-0000-0000-0000-000000000000"

  /** An element with attributes only. */
  function Leaf(name: string, attrs: map<string, string>): Element {
    Element(name, attrs, "", [])
  }

  /** An element with child elements only. */
  function Node(name: string, children: seq<Element>): Element {
    Element(name, map[], "", children)
  }

  /** The owning reference marker `<objsur guid="g" t="o" />`. */
  function ObjSur(guid: string): (m: Element)
    ensures m.name == ObjsurTag && m.attrs.Keys == {GuidAttr, KindAttr}
    ensures m.attrs[GuidAttr] == guid && m.attrs[KindAttr] == OwningKind
    ensures m.children == [] && m.text == ""
  {
    Leaf(ObjsurTag, map[GuidAttr := guid, KindAttr := OwningKind])
  }

  /** Number of elements in a tree; a measure for recursion through the registry. */
  function Size(e: Element): nat
    decreases e, 1
  {
    1 + SizeOfAll(e.children)
  }

  function SizeOfAll(s: seq<Element>): nat
    decreases s, 0
  {
    if s == [] then 0 else Size(s[0]) + SizeOfAll(s[1..])
  }

  lemma {:induction false} SizeOfMember(s: seq<Element>, i: nat)
    requires i < |s|
    ensures Size(s[i]) <= SizeOfAll(s)
    decreases s
  {
    if i > 0 {
      SizeOfMember(s[1..], i - 1);
    }
  }

  /**
   * XContainer.Element(name): the position of the first child called `name`,
   * or None when there is no such child (C# returns null).
   */
  function FirstNamed(s: seq<Element>, name: string): (r: Option<nat>)
    ensures r.Some? ==> r.value < |s| && s[r.value].name == name
    ensures r.Some? ==> forall j :: 0 <= j < r.value ==> s[j].name != name
    ensures r.None? ==> forall j :: 0 <= j < |s| ==> s[j].name != name
  {
    if s == [] then None
    else if s[0].name == name then Some(0)
    else match FirstNamed(s[1..], name)
      case None => None
      case Some(k) => Some(k + 1)
  }

  /** XContainer.Element(name) returning the element itself. */
  function Child(e: Element, name: string): (r: Option<Element>)
    ensures r.Some? ==> r.value in e.children && r.value.name == name
    ensures r.None? ==> forall c :: c in e.children ==> c.name != name
  {
    match FirstNamed(e.children, name)
    case None => None
    case Some(k) => Some(e.children[k])
  }

  /** XContainer.Elements(name): the children called `name`, in document order. */
  function Named(s: seq<Element>, name: string): (r: seq<Element>)
    ensures forall c :: c in r ==> c in s && c.name == name
    ensures forall c :: c in s && c.name == name ==> c in r
    ensures |r| <= |s|
  {
    if s == [] then []
    else if s[0].name == name then [s[0]] + Named(s[1..], name)
    else Named(s[1..], name)
  }

  /** `e` with its child at position `k` replaced by `c`. */
  function WithChild(e: Element, k: nat, c: Element): (r: Element)
    requires k < |e.children|
    ensures r.name == e.name && r.attrs == e.attrs && r.text == e.text
    ensures |r.children| == |e.children| && r.children[k] == c
    ensures forall j :: 0 <= j < |e.children| && j != k ==> r.children[j] == e.children[j]
  {
    e.(children := e.children[k := c])
  }

  /** XContainer.RemoveNodes(): no child elements and no text left. */
  function Emptied(e: Element): (r: Element)
    ensures r.name == e.name && r.attrs == e.attrs && r.children == [] && r.text == ""
  {
    e.(children := [], text := "")
  }

  /** Replacing the first child called `name` by another element of that name keeps it the first. */
  lemma FirstNamedKept(s: seq<Element>, name: string, k: nat, c: Element)
    requires FirstNamed(s, name) == Some(k) && c.name == name
    ensures FirstNamed(s[k := c], name) == Some(k)
  {
    var t := s[k := c];
    assert forall j :: 0 <= j < k ==> t[j].name != name;
    assert t[k].name == name;
  }

  /**
   * e.Element(name).RemoveNodes(): the first child called `name` loses its
   * content; None when there is no such child (C# dereferences null).
   */
  function WithEmptied(e: Element, name: string): (r: Option<Element>)
    ensures r.Some? <==> Child(e, name).Some?
    ensures r.Some? ==>
      && r.value.name == e.name && r.value.attrs == e.attrs && r.value.text == e.text
      && Child(r.value, name) == Some(Emptied(Child(e, name).value))
      && |r.value.children| == |e.children|
      && forall j :: 0 <= j < |e.children| && j != FirstNamed(e.children, name).value ==>
           r.value.children[j] == e.children[j]
  {
    match FirstNamed(e.children, name)
    case None => None
    case Some(k) =>
      FirstNamedKept(e.children, name, k, Emptied(e.children[k]));
      Some(WithChild(e, k, Emptied(e.children[k])))
  }

  /**
   * e.Element(name).Add(items): `items` are appended to the first child called
   * `name`; None when there is no such child.
   */
  function WithAppended(e: Element, name: string, items: seq<Element>): (r: Option<Element>)
    ensures r.Some? <==> Child(e, name).Some?
    ensures r.Some? ==>
      && r.value.name == e.name && r.value.attrs == e.attrs && r.value.text == e.text
      && Child(r.value, name).Some?
      && Child(r.value, name).value.children == Child(e, name).value.children + items
      && Child(r.value, name).value == Child(e, name).value.(children := Child(e, name).value.children + items)
      && |r.value.children| == |e.children|
      && forall j :: 0 <= j < |e.children| && j != FirstNamed(e.children, name).value ==>
           r.value.children[j] == e.children[j]
  {
    match FirstNamed(e.children, name)
    case None => None
    case Some(k) =>
      var c := e.children[k];
      FirstNamedKept(e.children, name, k, c.(children := c.children + items));
      Some(WithChild(e, k, c.(children := c.children + items)))
  }

  /** The ASCII part of Char.ToLowerInvariant. */
  function LowerChar(c: char): char {
    if 'A' <= c <= 'Z' then (c as int + 32) as char else c
  }

  /** The ASCII part of Char.ToUpperInvariant. */
  function UpperChar(c: char): char {
    if 'a' <= c <= 'z' then (c as int - 32) as char else c
  }

  /** String.ToLowerInvariant, ASCII letters only. */
  function ToLower(s: string): (r: string)
    ensures |r| == |s|
    ensures forall i :: 0 <= i < |s| ==> r[i] == LowerChar(s[i])
  {
    seq(|s|, i requires 0 <= i < |s| => LowerChar(s[i]))
  }

  /** String.ToUpperInvariant, ASCII letters only. */
  function ToUpper(s: string): (r: string)
    ensures |r| == |s|
    ensures forall i :: 0 <= i < |s| ==> r[i] == UpperChar(s[i])
  {
    seq(|s|, i requires 0 <= i < |s| => UpperChar(s[i]))
  }

  /** The all-zero GUID contains no letters, so lower-casing leaves it alone. */
  lemma EmptyGuidIsLower()
    ensures ToLower(EmptyGuid) == EmptyGuid
  {
  }
}
