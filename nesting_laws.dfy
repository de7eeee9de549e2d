/**
 * What a successful NestObject produces, stated without the registry
 * threading of the definition: NestedForm says, property by property and
 * marker by marker, how the nested tree relates to the flat record and to the
 * records the registry held for the owned GUIDs.
 */
module NestingLaws {
  import opened Wrappers
  import opened Xml
  import opened Nesting

  /** `n` is the nested form of the flat record `rec`; owned records are those of `reg`. */
  predicate NestedForm(n: Element, rec: Element, mode: Mode, descend: bool, ctx: Context, reg: Store)
    decreases n, 2
  {
    && ClassAttr in rec.attrs
    && n.(children := rec.children) == Rename(rec, rec.attrs[ClassAttr], mode)
    && if !descend then n.children == rec.children
       else
         && |n.children| == |rec.children|
         && forall j :: 0 <= j < |n.children| ==>
              NestedPropertyForm(n.children[j], rec.children[j], rec.attrs[ClassAttr], ctx, reg)
  }

  /** `q` is property element `p` of a record of class `cls` after nesting. */
  predicate NestedPropertyForm(q: Element, p: Element, cls: string, ctx: Context, reg: Store)
    decreases q, 1
  {
    && q.(children := p.children) == p
    && match CardinalityOf(ctx.props, cls, p.name)
       case Plain => q.children == p.children
       case ReferenceSequence =>
         && |q.children| == |p.children|
         && forall i :: 0 <= i < |q.children| ==> q.children[i] == RefRenamed(p.children[i])
       case Owning => OwnedChildrenForm(q, p, false, cls, ctx, reg)
       case OwningSequence => OwnedChildrenForm(q, p, true, cls, ctx, reg)
  }

  /** An owning property: untouched when excluded, otherwise each marker replaced by its record. */
  predicate OwnedChildrenForm(q: Element, p: Element, inSequence: bool, cls: string, ctx: Context, reg: Store)
    decreases q, 0
  {
    if IsExcluded(ctx.exclusions, cls, p.name) then q.children == p.children
    else
      && |q.children| == |p.children|
      && forall i :: 0 <= i < |q.children| ==> NestedChildForm(q.children[i], p.children[i], inSequence, ctx, reg)
  }

  /** Child `c` stands where marker `m` stood: the nested record it names, or `m` itself. */
  predicate NestedChildForm(c: Element, m: Element, inSequence: bool, ctx: Context, reg: Store)
    decreases c, 3
  {
    if IsOwningMarker(m) then
      && GuidAttr in m.attrs
      && Lookup(reg, m.attrs[GuidAttr]).Some?
      && NestedForm(c, Lookup(reg, m.attrs[GuidAttr]).value, ModeFor(inSequence), !ctx.topLevelOnly, ctx, reg)
    else c == m
  }

  lemma PrependAssociative(a: seq<Element>, b: seq<Element>, r: Result<Nested<seq<Element>>, NestError>)
    ensures Prepend(a, Prepend(b, r)) == Prepend(a + b, r)
  {
    if r.Ok? {
      assert a + (b + r.value.value) == (a + b) + r.value.value;
    }
  }

  lemma PrependNothing(r: Result<Nested<seq<Element>>, NestError>)
    ensures Prepend([], r) == r
  {
    if r.Ok? {
      assert [] + r.value.value == r.value.value;
    }
  }

  /** A successful nesting of a record has the nested form of that record. */
  lemma {:induction false} NestRecordForm(e: Element, mode: Mode, descend: bool, ctx: Context, st: Store, reg: Store)
    requires SubStore(st, reg)
    requires NestRecord(e, mode, descend, ctx, st).Ok?
    ensures NestedForm(NestRecord(e, mode, descend, ctx, st).value.value, e, mode, descend, ctx, reg)
    decreases |st.guidToClass|, Size(e), 3
  {
    if descend {
      NestPropertiesForm(e.attrs[ClassAttr], e.children, ctx, st, reg);
    }
  }

  lemma {:induction false} NestPropertiesForm(cls: string, ps: seq<Element>, ctx: Context, st: Store, reg: Store)
    requires SubStore(st, reg)
    requires NestProperties(cls, ps, ctx, st).Ok?
    ensures var out := NestProperties(cls, ps, ctx, st).value.value;
      |out| == |ps| && forall j :: 0 <= j < |ps| ==> NestedPropertyForm(out[j], ps[j], cls, ctx, reg)
    decreases |st.guidToClass|, SizeOfAll(ps), 2
  {
    if ps != [] {
      var first := NestProperty(cls, ps[0], ctx, st).value;
      assert SizeOfAll(ps[1..]) < SizeOfAll(ps);
      NestPropertyForm(cls, ps[0], ctx, st, reg);
      SubStoreTransitive(first.store, st, reg);
      NestPropertiesForm(cls, ps[1..], ctx, first.store, reg);
    }
  }

  lemma {:induction false} NestPropertyForm(cls: string, p: Element, ctx: Context, st: Store, reg: Store)
    requires SubStore(st, reg)
    requires NestProperty(cls, p, ctx, st).Ok?
    ensures NestedPropertyForm(NestProperty(cls, p, ctx, st).value.value, p, cls, ctx, reg)
    decreases |st.guidToClass|, Size(p), 1
  {
    match CardinalityOf(ctx.props, cls, p.name)
    case Plain =>
    case ReferenceSequence =>
    case Owning => NestOwningPropertyForm(cls, p, false, ctx, st, reg);
    case OwningSequence => NestOwningPropertyForm(cls, p, true, ctx, st, reg);
  }

  lemma {:induction false} NestOwningPropertyForm(cls: string, p: Element, inSequence: bool, ctx: Context, st: Store, reg: Store)
    requires SubStore(st, reg)
    requires NestOwningProperty(cls, p, inSequence, ctx, st).Ok?
    ensures OwnedChildrenForm(NestOwningProperty(cls, p, inSequence, ctx, st).value.value, p, inSequence, cls, ctx, reg)
    decreases |st.guidToClass|, Size(p), 0
  {
    if !IsExcluded(ctx.exclusions, cls, p.name) {
      NestMarkersForm(p.children, inSequence, ctx, st, reg);
    }
  }

  lemma {:induction false} NestMarkersForm(ms: seq<Element>, inSequence: bool, ctx: Context, st: Store, reg: Store)
    requires SubStore(st, reg)
    requires NestMarkers(ms, inSequence, ctx, st).Ok?
    ensures var out := NestMarkers(ms, inSequence, ctx, st).value.value;
      |out| == |ms| && forall i :: 0 <= i < |ms| ==> NestedChildForm(out[i], ms[i], inSequence, ctx, reg)
    decreases |st.guidToClass|, SizeOfAll(ms), 0
  {
    if ms != [] {
      var m := ms[0];
      assert SizeOfAll(ms[1..]) < SizeOfAll(ms);
      if !IsOwningMarker(m) {
        NestMarkersForm(ms[1..], inSequence, ctx, st, reg);
        ConsForm(m, NestMarkers(ms[1..], inSequence, ctx, st).value.value, ms, inSequence, ctx, reg);
      } else {
        var g := m.attrs[GuidAttr];
        var taken := Take(st, g).value;
        SubStoreTransitive(taken.store, st, reg);
        NestRecordForm(taken.value, ModeFor(inSequence), !ctx.topLevelOnly, ctx, taken.store, reg);
        var nested := NestRecord(taken.value, ModeFor(inSequence), !ctx.topLevelOnly, ctx, taken.store).value;
        SubStoreTransitive(nested.store, taken.store, reg);
        NestMarkersForm(ms[1..], inSequence, ctx, nested.store, reg);
        assert Lookup(reg, g) == Some(taken.value);
        ConsForm(nested.value, NestMarkers(ms[1..], inSequence, ctx, nested.store).value.value, ms, inSequence, ctx, reg);
      }
    }
  }

  /** The nested form of a marker list, assembled from its head and its tail. */
  lemma ConsForm(n: Element, rest: seq<Element>, ms: seq<Element>, inSequence: bool, ctx: Context, reg: Store)
    requires ms != [] && NestedChildForm(n, ms[0], inSequence, ctx, reg)
    requires |rest| == |ms| - 1 && forall i :: 0 <= i < |rest| ==> NestedChildForm(rest[i], ms[1..][i], inSequence, ctx, reg)
    ensures |[n] + rest| == |ms| && forall i :: 0 <= i < |ms| ==> NestedChildForm(([n] + rest)[i], ms[i], inSequence, ctx, reg)
  {
    forall i | 0 <= i < |ms|
      ensures NestedChildForm(([n] + rest)[i], ms[i], inSequence, ctx, reg)
    {
      if i > 0 {
        assert ms[1..][i - 1] == ms[i];
      }
    }
  }

  /**
   * What stands where an owning marker stood: in an owning-sequence property
   * an `ownseq` element that keeps `class` and `guid`; in an owning property an
   * element named after the class, without `class`; never `ownerguid`.
   */
  lemma NestedChildShape(c: Element, m: Element, inSequence: bool, ctx: Context, reg: Store)
    requires IsOwningMarker(m) && NestedChildForm(c, m, inSequence, ctx, reg)
    ensures var rec := Lookup(reg, m.attrs[GuidAttr]).value;
      && ClassAttr in rec.attrs
      && (inSequence ==> c.name == OwnseqTag && c.attrs == rec.attrs - {OwnerGuidAttr})
      && (!inSequence ==> c.name == rec.attrs[ClassAttr] && c.attrs == rec.attrs - {ClassAttr, OwnerGuidAttr})
      && OwnerGuidAttr !in c.attrs
  {
    var rec := Lookup(reg, m.attrs[GuidAttr]).value;
    assert c.(children := rec.children) == Rename(rec, rec.attrs[ClassAttr], ModeFor(inSequence));
  }

  // ---------------------------------------------------------------------------
  // Which records nesting takes out of the registry
  // ---------------------------------------------------------------------------

  /** The union of two GUID sets that do not overlap; None when they do, or when either is None. */
  function Join(a: Option<set<string>>, b: Option<set<string>>): (r: Option<set<string>>)
    ensures r.Some? <==> a.Some? && b.Some? && a.value !! b.value
    ensures r.Some? ==> r.value == a.value + b.value
  {
    if a.Some? && b.Some? && a.value !! b.value then Some(a.value + b.value) else None
  }

  /**
   * The GUIDs of the owned records nested into `n`, the nested form of `rec`,
   * at every level below `rec` itself (excluded properties contribute
   * nothing); None when one GUID would be nested twice.
   */
  ghost function InlinedGuids(n: Element, rec: Element, descend: bool, ctx: Context, reg: Store): Option<set<string>>
    decreases n, 3
  {
    if !descend || ClassAttr !in rec.attrs then Some({})
    else PropertiesGuids(n.children, rec.children, rec.attrs[ClassAttr], ctx, reg)
  }

  ghost function PropertiesGuids(qs: seq<Element>, ps: seq<Element>, cls: string, ctx: Context, reg: Store)
    : Option<set<string>>
    decreases qs, 2
  {
    if qs == [] || ps == [] then Some({})
    else Join(PropertyGuids(qs[0], ps[0], cls, ctx, reg), PropertiesGuids(qs[1..], ps[1..], cls, ctx, reg))
  }

  ghost function PropertyGuids(q: Element, p: Element, cls: string, ctx: Context, reg: Store): Option<set<string>>
    decreases q, 1
  {
    match CardinalityOf(ctx.props, cls, p.name)
    case Owning => OwnedGuids(q.children, p.children, false, cls, p.name, ctx, reg)
    case OwningSequence => OwnedGuids(q.children, p.children, true, cls, p.name, ctx, reg)
    case _ => Some({})
  }

  ghost function OwnedGuids(cs: seq<Element>, ms: seq<Element>, inSequence: bool, cls: string, prop: string,
                            ctx: Context, reg: Store): Option<set<string>>
    decreases cs, 1
  {
    if IsExcluded(ctx.exclusions, cls, prop) then Some({}) else ChildrenGuids(cs, ms, inSequence, ctx, reg)
  }

  ghost function ChildrenGuids(cs: seq<Element>, ms: seq<Element>, inSequence: bool, ctx: Context, reg: Store)
    : Option<set<string>>
    decreases cs, 0
  {
    if cs == [] || ms == [] then Some({})
    else Join(ChildGuids(cs[0], ms[0], inSequence, ctx, reg), ChildrenGuids(cs[1..], ms[1..], inSequence, ctx, reg))
  }

  /** The GUID of the record nested where owning marker `m` stood, with the GUIDs nested into it. */
  ghost function ChildGuids(c: Element, m: Element, inSequence: bool, ctx: Context, reg: Store): Option<set<string>>
    decreases c, 4
  {
    if IsOwningMarker(m) && GuidAttr in m.attrs && Lookup(reg, m.attrs[GuidAttr]).Some? then
      Join(Some({m.attrs[GuidAttr]}), InlinedGuids(c, Lookup(reg, m.attrs[GuidAttr]).value, !ctx.topLevelOnly, ctx, reg))
    else Some({})
  }

  /** `after` is `before` without exactly the records of `gone`, all of which `before` held. */
  ghost predicate TakenOut(after: Store, before: Store, gone: Option<set<string>>) {
    && gone.Some?
    && (forall g :: g in gone.value ==> Lookup(before, g).Some?)
    && (forall g :: Lookup(after, g).Some? <==> Lookup(before, g).Some? && g !in gone.value)
  }

  lemma TakenOutChain(a: Store, b: Store, c: Store, first: Option<set<string>>, second: Option<set<string>>)
    requires TakenOut(b, a, first) && TakenOut(c, b, second)
    ensures TakenOut(c, a, Join(first, second))
  {
    assert first.value !! second.value by {
      forall g | g in second.value
        ensures g !in first.value
      {
        assert Lookup(b, g).Some?;
      }
    }
  }

  /** A successful nesting of a record takes out of the registry exactly the records it inlined. */
  lemma {:induction false} NestRecordTakes(e: Element, mode: Mode, descend: bool, ctx: Context, st: Store, reg: Store)
    requires SubStore(st, reg)
    requires NestRecord(e, mode, descend, ctx, st).Ok?
    ensures var r := NestRecord(e, mode, descend, ctx, st).value;
      TakenOut(r.store, st, InlinedGuids(r.value, e, descend, ctx, reg))
    decreases |st.guidToClass|, Size(e), 3
  {
    if descend {
      NestPropertiesTakes(e.attrs[ClassAttr], e.children, ctx, st, reg);
    }
  }

  lemma {:induction false} NestPropertiesTakes(cls: string, ps: seq<Element>, ctx: Context, st: Store, reg: Store)
    requires SubStore(st, reg)
    requires NestProperties(cls, ps, ctx, st).Ok?
    ensures var r := NestProperties(cls, ps, ctx, st).value;
      TakenOut(r.store, st, PropertiesGuids(r.value, ps, cls, ctx, reg))
    decreases |st.guidToClass|, SizeOfAll(ps), 2
  {
    if ps != [] {
      var first := NestProperty(cls, ps[0], ctx, st).value;
      assert SizeOfAll(ps[1..]) < SizeOfAll(ps);
      NestPropertyTakes(cls, ps[0], ctx, st, reg);
      SubStoreTransitive(first.store, st, reg);
      NestPropertiesTakes(cls, ps[1..], ctx, first.store, reg);
      var rest := NestProperties(cls, ps[1..], ctx, first.store).value;
      TakenOutChain(st, first.store, rest.store, PropertyGuids(first.value, ps[0], cls, ctx, reg),
                    PropertiesGuids(rest.value, ps[1..], cls, ctx, reg));
      assert ([first.value] + rest.value)[1..] == rest.value;
    }
  }

  lemma {:induction false} NestPropertyTakes(cls: string, p: Element, ctx: Context, st: Store, reg: Store)
    requires SubStore(st, reg)
    requires NestProperty(cls, p, ctx, st).Ok?
    ensures var r := NestProperty(cls, p, ctx, st).value;
      TakenOut(r.store, st, PropertyGuids(r.value, p, cls, ctx, reg))
    decreases |st.guidToClass|, Size(p), 1
  {
    match CardinalityOf(ctx.props, cls, p.name)
    case Plain =>
    case ReferenceSequence =>
    case Owning => NestOwningPropertyTakes(cls, p, false, ctx, st, reg);
    case OwningSequence => NestOwningPropertyTakes(cls, p, true, ctx, st, reg);
  }

  lemma {:induction false} NestOwningPropertyTakes(cls: string, p: Element, inSequence: bool, ctx: Context, st: Store, reg: Store)
    requires SubStore(st, reg)
    requires NestOwningProperty(cls, p, inSequence, ctx, st).Ok?
    ensures var r := NestOwningProperty(cls, p, inSequence, ctx, st).value;
      TakenOut(r.store, st, OwnedGuids(r.value.children, p.children, inSequence, cls, p.name, ctx, reg))
    decreases |st.guidToClass|, Size(p), 0
  {
    if !IsExcluded(ctx.exclusions, cls, p.name) {
      NestMarkersTakes(p.children, inSequence, ctx, st, reg);
    }
  }

  lemma {:induction false} NestMarkersTakes(ms: seq<Element>, inSequence: bool, ctx: Context, st: Store, reg: Store)
    requires SubStore(st, reg)
    requires NestMarkers(ms, inSequence, ctx, st).Ok?
    ensures var r := NestMarkers(ms, inSequence, ctx, st).value;
      TakenOut(r.store, st, ChildrenGuids(r.value, ms, inSequence, ctx, reg))
    decreases |st.guidToClass|, SizeOfAll(ms), 0
  {
    if ms != [] {
      var m := ms[0];
      assert SizeOfAll(ms[1..]) < SizeOfAll(ms);
      if !IsOwningMarker(m) {
        NestMarkersTakes(ms[1..], inSequence, ctx, st, reg);
        var rest := NestMarkers(ms[1..], inSequence, ctx, st).value;
        assert TakenOut(st, st, ChildGuids(m, m, inSequence, ctx, reg));
        ChildrenTakesCons(m, rest, ms, st, st, inSequence, ctx, reg);
      } else {
        var g := m.attrs[GuidAttr];
        var taken := Take(st, g).value;
        var nested := NestRecord(taken.value, ModeFor(inSequence), !ctx.topLevelOnly, ctx, taken.store).value;
        NestMarkerTakes(m, inSequence, ctx, st, reg);
        SubStoreTransitive(nested.store, st, reg);
        NestMarkersTakes(ms[1..], inSequence, ctx, nested.store, reg);
        var rest := NestMarkers(ms[1..], inSequence, ctx, nested.store).value;
        ChildrenTakesCons(nested.value, rest, ms, st, nested.store, inSequence, ctx, reg);
      }
    }
  }

  /** The registry effect of a marker list, assembled from its head and its tail. */
  lemma ChildrenTakesCons(n: Element, rest: Nested<seq<Element>>, ms: seq<Element>, st: Store, st1: Store,
                          inSequence: bool, ctx: Context, reg: Store)
    requires ms != []
    requires TakenOut(st1, st, ChildGuids(n, ms[0], inSequence, ctx, reg))
    requires TakenOut(rest.store, st1, ChildrenGuids(rest.value, ms[1..], inSequence, ctx, reg))
    ensures TakenOut(rest.store, st, ChildrenGuids([n] + rest.value, ms, inSequence, ctx, reg))
  {
    TakenOutChain(st, st1, rest.store, ChildGuids(n, ms[0], inSequence, ctx, reg),
                  ChildrenGuids(rest.value, ms[1..], inSequence, ctx, reg));
    assert ([n] + rest.value)[1..] == rest.value;
  }

  /** One owning marker: its record leaves the registry, and so does everything nested into it. */
  lemma {:induction false} NestMarkerTakes(m: Element, inSequence: bool, ctx: Context, st: Store, reg: Store)
    requires SubStore(st, reg)
    requires IsOwningMarker(m) && GuidAttr in m.attrs && Take(st, m.attrs[GuidAttr]).Ok?
    requires var taken := Take(st, m.attrs[GuidAttr]).value;
      NestRecord(taken.value, ModeFor(inSequence), !ctx.topLevelOnly, ctx, taken.store).Ok?
    ensures var taken := Take(st, m.attrs[GuidAttr]).value;
      var nested := NestRecord(taken.value, ModeFor(inSequence), !ctx.topLevelOnly, ctx, taken.store).value;
      TakenOut(nested.store, st, ChildGuids(nested.value, m, inSequence, ctx, reg))
    decreases |st.guidToClass|, 0
  {
    var g := m.attrs[GuidAttr];
    var taken := Take(st, g).value;
    SubStoreTransitive(taken.store, st, reg);
    NestRecordTakes(taken.value, ModeFor(inSequence), !ctx.topLevelOnly, ctx, taken.store, reg);
    var nested := NestRecord(taken.value, ModeFor(inSequence), !ctx.topLevelOnly, ctx, taken.store).value;
    assert Lookup(reg, g) == Some(taken.value);
    assert TakenOut(taken.store, st, Some({g}));
    TakenOutChain(st, taken.store, nested.store, Some({g}),
                  InlinedGuids(nested.value, taken.value, !ctx.topLevelOnly, ctx, reg));
  }

  /**
   * A successful Nest call takes out of the registry its object and exactly
   * the records it inlined below the object, each GUID once; every other
   * record stays as it was.
   */
  lemma NestTakes(topLevelOnly: bool, obj: Element, exclusions: Exclusions, props: PropertyTable, st: Store, reg: Store)
    requires SubStore(st, reg)
    requires Nest(topLevelOnly, obj, exclusions, props, st).Ok?
    ensures var r := Nest(topLevelOnly, obj, exclusions, props, st).value;
      var gone := InlinedGuids(r.value, obj, true, Context(props, exclusions, topLevelOnly), reg);
      && GuidAttr in obj.attrs
      && gone.Some? && obj.attrs[GuidAttr] !in gone.value
      && (forall g :: g in gone.value ==> Lookup(st, g).Some?)
      && (forall g :: Lookup(r.store, g).Some? <==> Lookup(st, g).Some? && g != obj.attrs[GuidAttr] && g !in gone.value)
  {
    var root := obj.attrs[GuidAttr];
    var st0 := Forget(st, root);
    SubStoreTransitive(st0, st, reg);
    NestRecordTakes(obj, Root, true, Context(props, exclusions, topLevelOnly), st0, reg);
  }

  /**
   * A successful Nest call yields the nested form of its object, against the
   * registry it was given or any registry that registry was taken out of.
   */
  lemma NestForm(topLevelOnly: bool, obj: Element, exclusions: Exclusions, props: PropertyTable, st: Store, reg: Store)
    requires SubStore(st, reg)
    requires Nest(topLevelOnly, obj, exclusions, props, st).Ok?
    ensures NestedForm(Nest(topLevelOnly, obj, exclusions, props, st).value.value, obj, Root, true,
                       Context(props, exclusions, topLevelOnly), reg)
  {
    var st0 := Forget(st, obj.attrs[GuidAttr]);
    SubStoreTransitive(st0, st, reg);
    NestRecordForm(obj, Root, true, Context(props, exclusions, topLevelOnly), st0, reg);
  }

  // ---------------------------------------------------------------------------
  // The nested form is a function of the record and the registry
  // ---------------------------------------------------------------------------

  /** A record has at most one nested form against a given registry. */
  lemma {:induction false} NestedFormUnique(n1: Element, n2: Element, rec: Element, mode: Mode, descend: bool,
                                            ctx: Context, reg: Store)
    requires NestedForm(n1, rec, mode, descend, ctx, reg) && NestedForm(n2, rec, mode, descend, ctx, reg)
    ensures n1 == n2
    decreases n1, 2
  {
    var cls := rec.attrs[ClassAttr];
    if descend {
      forall j | 0 <= j < |n1.children|
        ensures n1.children[j] == n2.children[j]
      {
        PropertyFormUnique(n1.children[j], n2.children[j], rec.children[j], cls, ctx, reg);
      }
    }
    assert n1.children == n2.children;
  }

  lemma {:induction false} PropertyFormUnique(q1: Element, q2: Element, p: Element, cls: string, ctx: Context, reg: Store)
    requires NestedPropertyForm(q1, p, cls, ctx, reg) && NestedPropertyForm(q2, p, cls, ctx, reg)
    ensures q1 == q2
    decreases q1, 1
  {
    match CardinalityOf(ctx.props, cls, p.name)
    case Plain =>
    case ReferenceSequence =>
      assert q1.children == q2.children;
    case Owning => OwnedChildrenUnique(q1, q2, p, false, cls, ctx, reg);
    case OwningSequence => OwnedChildrenUnique(q1, q2, p, true, cls, ctx, reg);
  }

  lemma {:induction false} OwnedChildrenUnique(q1: Element, q2: Element, p: Element, inSequence: bool, cls: string,
                                               ctx: Context, reg: Store)
    requires q1.(children := p.children) == p && q2.(children := p.children) == p
    requires OwnedChildrenForm(q1, p, inSequence, cls, ctx, reg) && OwnedChildrenForm(q2, p, inSequence, cls, ctx, reg)
    ensures q1 == q2
    decreases q1, 0
  {
    if !IsExcluded(ctx.exclusions, cls, p.name) {
      forall i | 0 <= i < |q1.children|
        ensures q1.children[i] == q2.children[i]
      {
        var m := p.children[i];
        if IsOwningMarker(m) {
          NestedFormUnique(q1.children[i], q2.children[i], Lookup(reg, m.attrs[GuidAttr]).value,
                           ModeFor(inSequence), !ctx.topLevelOnly, ctx, reg);
        }
      }
    }
    assert q1.children == q2.children;
  }

  // ---------------------------------------------------------------------------
  // Nesting what is already nested
  // ---------------------------------------------------------------------------

  /** No record of the registry has class `objsur`, so no nested record reads as a marker. */
  ghost predicate NoMarkerClass(reg: Store) {
    forall g :: Lookup(reg, g).Some? && ClassAttr in Lookup(reg, g).value.attrs ==>
      Lookup(reg, g).value.attrs[ClassAttr] != ObjsurTag
  }

  /** Markers that own nothing are kept as they are, and the registry is not touched. */
  lemma {:induction false} NestMarkersKeeps(ms: seq<Element>, inSequence: bool, ctx: Context, st: Store)
    requires forall i :: 0 <= i < |ms| ==> !IsOwningMarker(ms[i])
    ensures NestMarkers(ms, inSequence, ctx, st) == Ok(Nested(ms, st))
    decreases |ms|
  {
    if ms != [] {
      NestMarkersKeeps(ms[1..], inSequence, ctx, st);
      assert [ms[0]] + ms[1..] == ms;
    }
  }

  /** What stands where a marker stood is never an owning marker itself. */
  lemma NestedChildNotMarker(c: Element, m: Element, inSequence: bool, ctx: Context, reg: Store)
    requires NoMarkerClass(reg) && NestedChildForm(c, m, inSequence, ctx, reg)
    ensures !IsOwningMarker(c)
  {
    if IsOwningMarker(m) {
      var rec := Lookup(reg, m.attrs[GuidAttr]).value;
      assert c.name == Rename(rec, rec.attrs[ClassAttr], ModeFor(inSequence)).name;
    }
  }

  /** A nested property element nests to itself. */
  lemma NestPropertyAgain(q: Element, p: Element, cls: string, ctx: Context, reg: Store, st: Store)
    requires NoMarkerClass(reg) && NestedPropertyForm(q, p, cls, ctx, reg)
    ensures NestProperty(cls, q, ctx, st) == Ok(Nested(q, st))
  {
    assert q.name == p.name;
    match CardinalityOf(ctx.props, cls, p.name)
    case Plain =>
    case ReferenceSequence =>
      assert RenameReferences(q.children) == q.children;
    case Owning => OwnedChildrenAgain(q, p, false, cls, ctx, reg, st);
    case OwningSequence => OwnedChildrenAgain(q, p, true, cls, ctx, reg, st);
  }

  lemma OwnedChildrenAgain(q: Element, p: Element, inSequence: bool, cls: string, ctx: Context, reg: Store, st: Store)
    requires NoMarkerClass(reg) && q.name == p.name && OwnedChildrenForm(q, p, inSequence, cls, ctx, reg)
    ensures NestOwningProperty(cls, q, inSequence, ctx, st) == Ok(Nested(q, st))
  {
    if !IsExcluded(ctx.exclusions, cls, p.name) {
      forall i | 0 <= i < |q.children|
        ensures !IsOwningMarker(q.children[i])
      {
        NestedChildNotMarker(q.children[i], p.children[i], inSequence, ctx, reg);
      }
      NestMarkersKeeps(q.children, inSequence, ctx, st);
    }
  }

  /** Nested property elements, one by one, nest to themselves. */
  lemma {:induction false} NestPropertiesAgain(cls: string, qs: seq<Element>, ps: seq<Element>, ctx: Context, reg: Store, st: Store)
    requires NoMarkerClass(reg) && |qs| == |ps|
    requires forall j :: 0 <= j < |qs| ==> NestedPropertyForm(qs[j], ps[j], cls, ctx, reg)
    ensures NestProperties(cls, qs, ctx, st) == Ok(Nested(qs, st))
    decreases |qs|
  {
    if qs != [] {
      NestPropertyAgain(qs[0], ps[0], cls, ctx, reg, st);
      NestPropertiesAgain(cls, qs[1..], ps[1..], ctx, reg, st);
      assert [qs[0]] + qs[1..] == qs;
    }
  }

  /**
   * Nesting the result of a Nest call again: the nested object has no `class`
   * attribute left, so NestObject stops on it; its properties, nested again
   * with the same exclusions, come out as they are, and no record leaves the
   * registry.
   */
  lemma NestAgain(topLevelOnly: bool, obj: Element, exclusions: Exclusions, props: PropertyTable, st: Store, reg: Store,
                  st2: Store)
    requires SubStore(st, reg) && NoMarkerClass(reg)
    requires Nest(topLevelOnly, obj, exclusions, props, st).Ok?
    ensures var n := Nest(topLevelOnly, obj, exclusions, props, st).value.value;
      && Nest(topLevelOnly, n, exclusions, props, st2) == Err(MissingAttribute(n.name, ClassAttr))
      && NestProperties(obj.attrs[ClassAttr], n.children, Context(props, exclusions, topLevelOnly), st2)
         == Ok(Nested(n.children, st2))
  {
    var ctx := Context(props, exclusions, topLevelOnly);
    var n := Nest(topLevelOnly, obj, exclusions, props, st).value.value;
    NestForm(topLevelOnly, obj, exclusions, props, st, reg);
    assert ClassAttr !in n.attrs;
    NestPropertiesAgain(obj.attrs[ClassAttr], n.children, obj.children, ctx, reg, st2);
  }
}
