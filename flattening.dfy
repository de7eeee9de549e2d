/**
 * CmObjectFlatteningService, the inverse of nesting, to the extent the
 * bounded-context services rely on it: FlattenObject walks a nested record,
 * turns every nested owned record back into an `rt` element with its `class`
 * and `ownerguid`, records it in the GUID-keyed `sortedData`, and leaves an
 * `objsur` marker in its place; `refseq` markers become `objsur` again.
 * RestoreObjsurElement puts an owning marker back into an owner's property.
 */
module Flattening {
  import opened Wrappers
  import opened Xml
  import opened Nesting

  datatype FlattenError =
    | Malformed(source: string, element: string, attr: string)   // NullReferenceException on a missing attribute
    | DuplicateKey(source: string, guid: string)   // SortedDictionary.Add on a key already present

  /** A result paired with `sortedData` as it stands afterwards. */
  datatype Flat<T> = Flat(value: T, sorted: map<string, Element>)

  /** `a` holds every entry of `b` unchanged. */
  ghost predicate Extends(a: map<string, Element>, b: map<string, Element>) {
    forall k :: k in b ==> k in a && a[k] == b[k]
  }

  /** A reference-sequence marker after flattening: `refseq` becomes `objsur`. */
  function RefRestored(m: Element): Element {
    if m.name == RefseqTag then m.(name := ObjsurTag) else m
  }

  /** The class a nested record names: its element name, or its `class` attribute inside an owning sequence. */
  function NestedClass(e: Element): Option<string> {
    if e.name != OwnseqTag then Some(e.name)
    else if ClassAttr in e.attrs then Some(e.attrs[ClassAttr])
    else None
  }

  /**
   * FlattenObject(source, sortedData, e, ownerGuid): flattens the record `e`
   * owned by `ownerGuid`, owned records first, and adds it to `sorted`.
   */
  function FlattenRecord(source: string, e: Element, ownerGuid: string, props: PropertyTable, sorted: map<string, Element>)
    : (r: Result<Flat<Element>, FlattenError>)
    ensures r.Ok? ==> Extends(r.value.sorted, sorted)
    ensures r.Ok? ==> GuidAttr in e.attrs && NestedClass(e).Some?
    ensures r.Ok? ==>
      var f := r.value.value;
      && f.name == RtTag && GuidAttr in f.attrs && ClassAttr in f.attrs && OwnerGuidAttr in f.attrs
      && f.attrs[GuidAttr] == e.attrs[GuidAttr] && f.attrs[ClassAttr] == NestedClass(e).value
      && f.attrs[OwnerGuidAttr] == ownerGuid
    ensures r.Ok? ==>
      && e.attrs[GuidAttr] !in sorted && e.attrs[GuidAttr] in r.value.sorted
      && r.value.sorted[e.attrs[GuidAttr]] == r.value.value
    decreases e, 2
  {
    match NestedClass(e)
    case None => Err(Malformed(source, e.name, ClassAttr))
    case Some(cls) =>
      if GuidAttr !in e.attrs then Err(Malformed(source, e.name, GuidAttr))
      else
        var guid := e.attrs[GuidAttr];
        match FlattenProperties(source, cls, guid, e.children, props, sorted)
        case Err(err) => Err(err)
        case Ok(Flat(kids, sorted1)) =>
          var flat := Element(RtTag, e.attrs[ClassAttr := cls][OwnerGuidAttr := ownerGuid], e.text, kids);
          if guid in sorted1 then Err(DuplicateKey(source, guid))
          else Ok(Flat(flat, sorted1[guid := flat]))
  }

  /** Flattens the property elements of a record of class `cls` whose GUID is `guid`. */
  function FlattenProperties(source: string, cls: string, guid: string, ps: seq<Element>, props: PropertyTable,
                             sorted: map<string, Element>)
    : (r: Result<Flat<seq<Element>>, FlattenError>)
    ensures r.Ok? ==> Extends(r.value.sorted, sorted) && |r.value.value| == |ps|
    decreases ps, 1
  {
    if ps == [] then Ok(Flat([], sorted))
    else match FlattenProperty(source, cls, guid, ps[0], props, sorted)
      case Err(err) => Err(err)
      case Ok(Flat(p, sorted1)) =>
        match FlattenProperties(source, cls, guid, ps[1..], props, sorted1)
        case Err(err) => Err(err)
        case Ok(Flat(rest, sorted2)) => Ok(Flat([p] + rest, sorted2))
  }

  function FlattenProperty(source: string, cls: string, guid: string, p: Element, props: PropertyTable,
                           sorted: map<string, Element>)
    : (r: Result<Flat<Element>, FlattenError>)
    ensures r.Ok? ==> Extends(r.value.sorted, sorted)
    ensures r.Ok? ==> r.value.value.(children := p.children) == p && |r.value.value.children| == |p.children|
    decreases p, 0
  {
    match CardinalityOf(props, cls, p.name)
    case Plain => Ok(Flat(p, sorted))
    case ReferenceSequence =>
      Ok(Flat(p.(children := seq(|p.children|, i requires 0 <= i < |p.children| => RefRestored(p.children[i]))), sorted))
    case _ =>
      match FlattenOwned(source, guid, p.children, props, sorted)
      case Err(err) => Err(err)
      case Ok(Flat(kids, sorted1)) => Ok(Flat(p.(children := kids), sorted1))
  }

  /** Each nested record among `cs` is flattened (owned by `ownerGuid`) and replaced by its marker. */
  function FlattenOwned(source: string, ownerGuid: string, cs: seq<Element>, props: PropertyTable,
                        sorted: map<string, Element>)
    : (r: Result<Flat<seq<Element>>, FlattenError>)
    ensures r.Ok? ==> Extends(r.value.sorted, sorted) && |r.value.value| == |cs|
    decreases cs, 1
  {
    if cs == [] then Ok(Flat([], sorted))
    else
      var c := cs[0];
      var head: Result<Flat<Element>, FlattenError> :=
        if c.name == ObjsurTag then Ok(Flat(c, sorted))
        else match FlattenRecord(source, c, ownerGuid, props, sorted)
          case Err(err) => Err(err)
          case Ok(Flat(_, sorted1)) => Ok(Flat(ObjSur(c.attrs[GuidAttr]), sorted1));
      match head
      case Err(err) => Err(err)
      case Ok(Flat(m, sorted1)) =>
        match FlattenOwned(source, ownerGuid, cs[1..], props, sorted1)
        case Err(err) => Err(err)
        case Ok(Flat(rest, sorted2)) => Ok(Flat([m] + rest, sorted2))
  }

  /**
   * RestoreObjsurElement(owner, propName, target): an owning marker for
   * `target` is appended to `owner`'s property `propName` (a property element
   * is added when the owner has none).
   */
  function RestoreObjsur(owner: Element, propName: string, target: Element): (r: Option<Element>)
    ensures r.Some? <==> GuidAttr in target.attrs
    ensures r.Some? ==> r.value.name == owner.name && r.value.attrs == owner.attrs && r.value.text == owner.text
    ensures r.Some? ==>
      && Child(r.value, propName).Some?
      && Child(r.value, propName).value.children
         == (if Child(owner, propName).Some? then Child(owner, propName).value.children else [])
            + [ObjSur(target.attrs[GuidAttr])]
    ensures r.Some? ==> ObjSur(target.attrs[GuidAttr]) in Child(r.value, propName).value.children
  {
    if GuidAttr !in target.attrs then None
    else
      var marker := ObjSur(target.attrs[GuidAttr]);
      match WithAppended(owner, propName, [marker])
      case Some(o) => Some(o)
      case None =>
        var o := owner.(children := owner.children + [Node(propName, [marker])]);
        assert o.children[|owner.children|].name == propName;
        Some(o)
  }
}
