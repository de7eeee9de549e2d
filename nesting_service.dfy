/**
 * CmObjectNestingService.NestObject as a procedure: argument checks, then a
 * walk over the property elements and, inside owning properties, over the
 * markers, fetching each owned record and nesting it in turn. Every step is
 * proved to compute the specification functions of module Nesting.
 */
module NestingService {
  import opened Wrappers
  import opened Xml
  import opened Nesting
  import opened NestingLaws

  /**
   * NestObject(topLevelOnly, obj, exclusions, classData, guidToClassMapping).
   * A null argument (None) fails before anything is done; otherwise the
   * result is the nested object and the registry without the object and
   * without exactly the records nested into it, each of them once.
   */
  method NestObject(topLevelOnly: bool, obj: Option<Element>, exclusions: Option<Exclusions>,
                    classData: Option<ClassData>, guidToClass: Option<GuidToClass>, props: PropertyTable)
    returns (r: Result<Nested<Element>, NestError>)
    ensures obj.None? ==> r == Err(ArgumentNull(ObjectArg))
    ensures obj.Some? && exclusions.None? ==> r == Err(ArgumentNull(ExclusionsArg))
    ensures obj.Some? && exclusions.Some? && classData.None? ==> r == Err(ArgumentNull(ClassDataArg))
    ensures obj.Some? && exclusions.Some? && classData.Some? && guidToClass.None? ==> r == Err(ArgumentNull(GuidToClassArg))
    ensures obj.Some? && exclusions.Some? && classData.Some? && guidToClass.Some? ==>
      r == Nest(topLevelOnly, obj.value, exclusions.value, props, Store(classData.value, guidToClass.value))
    ensures r.Ok? ==>
      && obj.Some? && exclusions.Some? && classData.Some? && guidToClass.Some?
      && NestedForm(r.value.value, obj.value, Root, true, Context(props, exclusions.value, topLevelOnly),
                    Store(classData.value, guidToClass.value))
      && r.value.value.name == obj.value.attrs[ClassAttr] && ClassAttr !in r.value.value.attrs
      && SubStore(r.value.store, Store(classData.value, guidToClass.value))
      && obj.value.attrs[GuidAttr] !in r.value.store.guidToClass
    ensures r.Ok? ==>
      var registry := Store(classData.value, guidToClass.value);
      var gone := InlinedGuids(r.value.value, obj.value, true, Context(props, exclusions.value, topLevelOnly), registry);
      && gone.Some? && obj.value.attrs[GuidAttr] !in gone.value
      && (forall g :: g in gone.value ==> Lookup(registry, g).Some?)
      && (forall g :: Lookup(r.value.store, g).Some? <==>
            Lookup(registry, g).Some? && g != obj.value.attrs[GuidAttr] && g !in gone.value)
  {
    if obj.None? {
      return Err(ArgumentNull(ObjectArg));
    }
    if exclusions.None? {
      return Err(ArgumentNull(ExclusionsArg));
    }
    if classData.None? {
      return Err(ArgumentNull(ClassDataArg));
    }
    if guidToClass.None? {
      return Err(ArgumentNull(GuidToClassArg));
    }
    var e := obj.value;
    if ClassAttr !in e.attrs {
      return Err(MissingAttribute(e.name, ClassAttr));
    }
    if GuidAttr !in e.attrs {
      return Err(MissingAttribute(e.name, GuidAttr));
    }
    var registry := Store(classData.value, guidToClass.value);
    var ctx := Context(props, exclusions.value, topLevelOnly);
    var st := Forget(registry, e.attrs[GuidAttr]);
    r := NestRecordImpl(e, Root, true, ctx, st);
    if r.Ok? {
      NestForm(topLevelOnly, e, exclusions.value, props, registry, registry);
      NestTakes(topLevelOnly, e, exclusions.value, props, registry, registry);
      SubStoreTransitive(r.value.store, st, registry);
    }
  }

  /** Renames one record and, when `descend`, nests its property elements one by one. */
  method NestRecordImpl(e: Element, mode: Mode, descend: bool, ctx: Context, st: Store)
    returns (r: Result<Nested<Element>, NestError>)
    ensures r == NestRecord(e, mode, descend, ctx, st)
    decreases |st.guidToClass|, Size(e), 3
  {
    if ClassAttr !in e.attrs {
      return Err(MissingAttribute(e.name, ClassAttr));
    }
    var cls := e.attrs[ClassAttr];
    var renamed := Rename(e, cls, mode);
    if !descend {
      return Ok(Nested(renamed, st));
    }
    var props := NestPropertiesImpl(cls, e.children, ctx, st);
    if props.Err? {
      return Err(props.error);
    }
    return Ok(Nested(renamed.(children := props.value.value), props.value.store));
  }

  /** NestProperties on the suffix from `i`: the property at `i`, then the rest on the registry it leaves. */
  lemma NestPropertiesAt(cls: string, ps: seq<Element>, i: int, ctx: Context, st: Store)
    requires 0 <= i < |ps|
    ensures var p := NestProperty(cls, ps[i], ctx, st);
      NestProperties(cls, ps[i..], ctx, st)
      == if p.Err? then Err(p.error) else Prepend([p.value.value], NestProperties(cls, ps[i + 1..], ctx, p.value.store))
  {
    assert ps[i..][0] == ps[i] && ps[i..][1..] == ps[i + 1..];
  }

  /** Nests the property elements of a record of class `cls`, in document order. */
  method NestPropertiesImpl(cls: string, ps: seq<Element>, ctx: Context, st: Store)
    returns (r: Result<Nested<seq<Element>>, NestError>)
    ensures r == NestProperties(cls, ps, ctx, st)
    decreases |st.guidToClass|, SizeOfAll(ps), 2
  {
    var done: seq<Element> := [];
    var cur := st;
    var i := 0;
    PrependNothing(NestProperties(cls, ps, ctx, st));
    while i < |ps|
      invariant 0 <= i <= |ps|
      invariant |cur.guidToClass| <= |st.guidToClass|
      invariant NestProperties(cls, ps, ctx, st) == Prepend(done, NestProperties(cls, ps[i..], ctx, cur))
    {
      SizeOfMember(ps, i);
      var p := NestPropertyImpl(cls, ps[i], ctx, cur);
      NestPropertiesAt(cls, ps, i, ctx, cur);
      if p.Err? {
        return Err(p.error);
      }
      PrependAssociative(done, [p.value.value], NestProperties(cls, ps[i + 1..], ctx, p.value.store));
      done := done + [p.value.value];
      cur := p.value.store;
      i := i + 1;
    }
    assert ps[i..] == [];
    assert done + [] == done;
    return Ok(Nested(done, cur));
  }

  /** Nests one property element: owning ones through their markers, reference sequences by renaming. */
  method NestPropertyImpl(cls: string, p: Element, ctx: Context, st: Store)
    returns (r: Result<Nested<Element>, NestError>)
    ensures r == NestProperty(cls, p, ctx, st)
    decreases |st.guidToClass|, Size(p), 1
  {
    match CardinalityOf(ctx.props, cls, p.name)
    case Plain =>
      r := Ok(Nested(p, st));
    case ReferenceSequence =>
      var kids: seq<Element> := [];
      for i := 0 to |p.children|
        invariant |kids| == i
        invariant forall k :: 0 <= k < i ==> kids[k] == RefRenamed(p.children[k])
      {
        var m := p.children[i];
        if m.name == ObjsurTag {
          m := m.(name := RefseqTag);
        }
        kids := kids + [m];
      }
      assert kids == RenameReferences(p.children);
      r := Ok(Nested(p.(children := kids), st));
    case Owning =>
      r := NestOwningPropertyImpl(cls, p, false, ctx, st);
    case OwningSequence =>
      r := NestOwningPropertyImpl(cls, p, true, ctx, st);
  }

  method NestOwningPropertyImpl(cls: string, p: Element, inSequence: bool, ctx: Context, st: Store)
    returns (r: Result<Nested<Element>, NestError>)
    ensures r == NestOwningProperty(cls, p, inSequence, ctx, st)
    decreases |st.guidToClass|, Size(p), 0
  {
    if IsExcluded(ctx.exclusions, cls, p.name) {
      return Ok(Nested(p, st));
    }
    var kids := NestMarkersImpl(p.children, inSequence, ctx, st);
    if kids.Err? {
      return Err(kids.error);
    }
    return Ok(Nested(p.(children := kids.value.value), kids.value.store));
  }

  /** Walks the markers of one owning property, replacing each owning marker by its nested record. */
  method NestMarkersImpl(ms: seq<Element>, inSequence: bool, ctx: Context, st: Store)
    returns (r: Result<Nested<seq<Element>>, NestError>)
    ensures r == NestMarkers(ms, inSequence, ctx, st)
    decreases |st.guidToClass|, SizeOfAll(ms), 0
  {
    var done: seq<Element> := [];
    var cur := st;
    var i := 0;
    PrependNothing(NestMarkers(ms, inSequence, ctx, st));
    while i < |ms|
      invariant 0 <= i <= |ms|
      invariant |cur.guidToClass| <= |st.guidToClass|
      invariant NestMarkers(ms, inSequence, ctx, st) == Prepend(done, NestMarkers(ms[i..], inSequence, ctx, cur))
    {
      var m := ms[i];
      assert ms[i..][0] == m && ms[i..][1..] == ms[i + 1..];
      if !IsOwningMarker(m) {
        PrependAssociative(done, [m], NestMarkers(ms[i + 1..], inSequence, ctx, cur));
        done := done + [m];
      } else {
        if GuidAttr !in m.attrs {
          return Err(MissingAttribute(ObjsurTag, GuidAttr));
        }
        var taken := Take(cur, m.attrs[GuidAttr]);
        if taken.Err? {
          return Err(taken.error);
        }
        var nested := NestRecordImpl(taken.value.value, ModeFor(inSequence), !ctx.topLevelOnly, ctx, taken.value.store);
        if nested.Err? {
          return Err(nested.error);
        }
        PrependAssociative(done, [nested.value.value], NestMarkers(ms[i + 1..], inSequence, ctx, nested.value.store));
        done := done + [nested.value.value];
        cur := nested.value.store;
      }
      i := i + 1;
    }
    assert ms[i..] == [];
    assert done + [] == done;
    return Ok(Nested(done, cur));
  }
}
