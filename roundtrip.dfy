/**
 * The round-trip law between NestObject and FlattenObject: flattening the
 * nested form of a record, with the owner the record names, gives back the
 * record itself, and every record flattening adds to `sortedData` is the
 * record the flat registry held under that GUID.
 *
 * The law needs the flat store to be in its stored shape: every record an
 * `rt` element carrying `class`, `guid` and `ownerguid`, owning properties
 * made of bare `<objsur guid=".." t="o"/>` markers naming records owned by
 * that record, and reference sequences free of `refseq` elements.
 */
module RoundTrip {
  import opened Wrappers
  import opened Xml
  import opened Nesting
  import opened NestingLaws
  import opened Flattening

  /** A bare owning marker, exactly as the flat store writes it. */
  predicate IsBareOwningMarker(m: Element) {
    GuidAttr in m.attrs && m == ObjSur(m.attrs[GuidAttr])
  }

  /** Marker `m` names an object whose record (if the registry has one) says it is owned by `owner`. */
  ghost predicate OwnedBy(m: Element, owner: string, reg: Store) {
    && IsBareOwningMarker(m)
    && (Lookup(reg, m.attrs[GuidAttr]).Some? ==>
          var o := Lookup(reg, m.attrs[GuidAttr]).value;
          OwnerGuidAttr in o.attrs && o.attrs[OwnerGuidAttr] == owner)
  }

  ghost predicate FlatProperty(p: Element, cls: string, guid: string, props: PropertyTable, reg: Store) {
    match CardinalityOf(props, cls, p.name)
    case Plain => true
    case ReferenceSequence => forall i :: 0 <= i < |p.children| ==> p.children[i].name != RefseqTag
    case _ => forall i :: 0 <= i < |p.children| ==> OwnedBy(p.children[i], guid, reg)
  }

  /** `rec` is a record in stored (flat) shape. */
  ghost predicate FlatRecord(rec: Element, props: PropertyTable, reg: Store) {
    && rec.name == RtTag
    && ClassAttr in rec.attrs && GuidAttr in rec.attrs && OwnerGuidAttr in rec.attrs
    && rec.attrs[ClassAttr] != ObjsurTag && rec.attrs[ClassAttr] != OwnseqTag
    && forall j :: 0 <= j < |rec.children| ==>
         FlatProperty(rec.children[j], rec.attrs[ClassAttr], rec.attrs[GuidAttr], props, reg)
  }

  /** `g` is registered; the term through which FlatRegistry is used. */
  ghost predicate Filed(reg: Store, g: string) {
    Lookup(reg, g).Some?
  }

  /**
   * Every record of the registry is in stored shape and is filed under its
   * own GUID. The shape of a record is unfolded only where a proof mentions
   * `Filed(reg, g)`: the shape itself names further GUIDs, and unfolding it
   * for each of them would not end.
   */
  ghost predicate FlatRegistry(reg: Store, props: PropertyTable) {
    forall g {:trigger Filed(reg, g)} :: Filed(reg, g) ==>
      && FlatRecord(Lookup(reg, g).value, props, reg)
      && Lookup(reg, g).value.attrs[GuidAttr] == g
  }

  /** `out` is `sorted` plus exactly the records of `gs`, each the registry's record under its GUID. */
  ghost predicate RestoredExactly(out: map<string, Element>, sorted: map<string, Element>, gs: set<string>, reg: Store) {
    && out.Keys == sorted.Keys + gs
    && forall g :: g in gs ==> Lookup(reg, g) == Some(out[g])
  }

  lemma RestoredExactlyChain(out: map<string, Element>, mid: map<string, Element>, sorted: map<string, Element>,
                             first: set<string>, second: set<string>, reg: Store)
    requires Extends(out, mid)
    requires RestoredExactly(mid, sorted, first, reg) && RestoredExactly(out, mid, second, reg)
    ensures RestoredExactly(out, sorted, first + second, reg)
  {
  }

  /**
   * Flattening a nested record returns the flat record it came from, and
   * adds to `sortedData` that record and exactly the records nested into it,
   * each the registry's own; it cannot fail when none of their GUIDs is
   * already a key of `sortedData`.
   */
  lemma {:induction false} FlattenNestedRecord(source: string, n: Element, rec: Element, mode: Mode, owner: string,
                                               ctx: Context, reg: Store, sorted: map<string, Element>)
    requires !ctx.topLevelOnly
    requires NestedForm(n, rec, mode, true, ctx, reg)
    requires FlatRecord(rec, ctx.props, reg) && rec.attrs[OwnerGuidAttr] == owner
    requires FlatRegistry(reg, ctx.props)
    requires InlinedGuids(n, rec, true, ctx, reg).Some?
    requires var gs := InlinedGuids(n, rec, true, ctx, reg).value;
      rec.attrs[GuidAttr] !in sorted && rec.attrs[GuidAttr] !in gs && gs !! sorted.Keys
    ensures var f := FlattenRecord(source, n, owner, ctx.props, sorted);
      var gs := InlinedGuids(n, rec, true, ctx, reg).value;
      && f.Ok? && f.value.value == rec
      && f.value.sorted.Keys == sorted.Keys + gs + {rec.attrs[GuidAttr]}
      && f.value.sorted[rec.attrs[GuidAttr]] == rec
      && forall g :: g in gs ==> Lookup(reg, g) == Some(f.value.sorted[g])
    decreases n, 2
  {
    var cls := rec.attrs[ClassAttr];
    assert NestedClass(n) == Some(cls);
    var guid := n.attrs[GuidAttr];
    assert guid == rec.attrs[GuidAttr];
    FlattenNestedProperties(source, cls, guid, n.children, rec.children, ctx, reg, sorted);
    assert n.attrs[ClassAttr := cls][OwnerGuidAttr := owner] == rec.attrs;
  }

  lemma {:induction false} FlattenNestedProperties(source: string, cls: string, guid: string, qs: seq<Element>,
                                                   ps: seq<Element>, ctx: Context, reg: Store, sorted: map<string, Element>)
    requires !ctx.topLevelOnly
    requires cls != ObjsurTag && cls != OwnseqTag
    requires |qs| == |ps|
    requires forall j :: 0 <= j < |qs| ==> NestedPropertyForm(qs[j], ps[j], cls, ctx, reg)
    requires forall j :: 0 <= j < |ps| ==> FlatProperty(ps[j], cls, guid, ctx.props, reg)
    requires FlatRegistry(reg, ctx.props)
    requires PropertiesGuids(qs, ps, cls, ctx, reg).Some? && PropertiesGuids(qs, ps, cls, ctx, reg).value !! sorted.Keys
    ensures var f := FlattenProperties(source, cls, guid, qs, ctx.props, sorted);
      && f.Ok? && f.value.value == ps
      && RestoredExactly(f.value.sorted, sorted, PropertiesGuids(qs, ps, cls, ctx, reg).value, reg)
    decreases qs, 1
  {
    if qs != [] {
      var head := PropertyGuids(qs[0], ps[0], cls, ctx, reg).value;
      var tail := PropertiesGuids(qs[1..], ps[1..], cls, ctx, reg).value;
      FlattenNestedProperty(source, cls, guid, qs[0], ps[0], ctx, reg, sorted);
      var first := FlattenProperty(source, cls, guid, qs[0], ctx.props, sorted).value;
      FlattenNestedProperties(source, cls, guid, qs[1..], ps[1..], ctx, reg, first.sorted);
      var rest := FlattenProperties(source, cls, guid, qs[1..], ctx.props, first.sorted).value;
      RestoredExactlyChain(rest.sorted, first.sorted, sorted, head, tail, reg);
      HeadTail(ps);
    }
  }

  lemma {:induction false} FlattenNestedProperty(source: string, cls: string, guid: string, q: Element, p: Element,
                                                 ctx: Context, reg: Store, sorted: map<string, Element>)
    requires !ctx.topLevelOnly
    requires NestedPropertyForm(q, p, cls, ctx, reg)
    requires FlatProperty(p, cls, guid, ctx.props, reg)
    requires FlatRegistry(reg, ctx.props)
    requires PropertyGuids(q, p, cls, ctx, reg).Some? && PropertyGuids(q, p, cls, ctx, reg).value !! sorted.Keys
    ensures var f := FlattenProperty(source, cls, guid, q, ctx.props, sorted);
      && f.Ok? && f.value.value == p
      && RestoredExactly(f.value.sorted, sorted, PropertyGuids(q, p, cls, ctx, reg).value, reg)
    decreases q, 0
  {
    match CardinalityOf(ctx.props, cls, p.name)
    case Plain =>
    case ReferenceSequence =>
      var kids := seq(|q.children|, i requires 0 <= i < |q.children| => RefRestored(q.children[i]));
      assert kids == p.children;
    case Owning =>
      FlattenNestedOwned(source, guid, q.children, p.children, false, cls, p.name, ctx, reg, sorted);
    case OwningSequence =>
      FlattenNestedOwned(source, guid, q.children, p.children, true, cls, p.name, ctx, reg, sorted);
  }

  lemma {:induction false} FlattenNestedOwned(source: string, owner: string, cs: seq<Element>, ms: seq<Element>,
                                              inSequence: bool, cls: string, prop: string,
                                              ctx: Context, reg: Store, sorted: map<string, Element>)
    requires !ctx.topLevelOnly
    requires IsExcluded(ctx.exclusions, cls, prop) ==> cs == ms
    requires !IsExcluded(ctx.exclusions, cls, prop) ==>
      |cs| == |ms| && forall i :: 0 <= i < |cs| ==> NestedChildForm(cs[i], ms[i], inSequence, ctx, reg)
    requires forall i :: 0 <= i < |ms| ==> OwnedBy(ms[i], owner, reg)
    requires FlatRegistry(reg, ctx.props)
    requires var gs := OwnedGuids(cs, ms, inSequence, cls, prop, ctx, reg); gs.Some? && gs.value !! sorted.Keys
    ensures var f := FlattenOwned(source, owner, cs, ctx.props, sorted);
      && f.Ok? && f.value.value == ms
      && RestoredExactly(f.value.sorted, sorted, OwnedGuids(cs, ms, inSequence, cls, prop, ctx, reg).value, reg)
    decreases cs, 1
  {
    if cs != [] {
      var c := cs[0];
      var excluded := IsExcluded(ctx.exclusions, cls, prop);
      assert excluded ==> c == ms[0];
      assert !excluded ==> NestedChildForm(c, ms[0], inSequence, ctx, reg);
      assert OwnedBy(ms[0], owner, reg);
      var head := if excluded then {} else ChildGuids(c, ms[0], inSequence, ctx, reg).value;
      var tail := OwnedGuids(cs[1..], ms[1..], inSequence, cls, prop, ctx, reg).value;
      assert OwnedGuids(cs, ms, inSequence, cls, prop, ctx, reg).value == head + tail;
      FlattenOwnedHead(source, owner, c, ms[0], inSequence, excluded, ctx, reg, sorted);
      var sorted1 := if c.name == ObjsurTag then sorted else FlattenRecord(source, c, owner, ctx.props, sorted).value.sorted;
      FlattenNestedOwned(source, owner, cs[1..], ms[1..], inSequence, cls, prop, ctx, reg, sorted1);
      var rest := FlattenOwned(source, owner, cs[1..], ctx.props, sorted1).value;
      RestoredExactlyChain(rest.sorted, sorted1, sorted, head, tail, reg);
      HeadTail(ms);
    }
  }

  lemma HeadTail(s: seq<Element>)
    requires s != []
    ensures s == [s[0]] + s[1..]
  {
  }

  /**
   * One step of FlattenNestedOwned: a marker left in an excluded property
   * stays; a nested record flattens back into the registry's record and its
   * marker.
   */
  lemma {:induction false} FlattenOwnedHead(source: string, owner: string, c: Element, m: Element, inSequence: bool,
                                            excluded: bool, ctx: Context, reg: Store, sorted: map<string, Element>)
    requires !ctx.topLevelOnly
    requires excluded ==> c == m
    requires !excluded ==> NestedChildForm(c, m, inSequence, ctx, reg)
    requires OwnedBy(m, owner, reg)
    requires FlatRegistry(reg, ctx.props)
    requires !excluded ==>
      var gs := ChildGuids(c, m, inSequence, ctx, reg); gs.Some? && gs.value !! sorted.Keys
    ensures c.name == ObjsurTag <==> excluded
    ensures excluded ==> c == m
    ensures !excluded ==>
      var f := FlattenRecord(source, c, owner, ctx.props, sorted);
      && f.Ok? && ObjSur(c.attrs[GuidAttr]) == m
      && RestoredExactly(f.value.sorted, sorted, ChildGuids(c, m, inSequence, ctx, reg).value, reg)
    decreases c, 3
  {
    if !excluded {
      assert IsOwningMarker(m);
      var g := m.attrs[GuidAttr];
      var o := Lookup(reg, g).value;
      assert Filed(reg, g);
      assert FlatRecord(o, ctx.props, reg);
      assert NestedForm(c, o, ModeFor(inSequence), true, ctx, reg);
      assert c.name == Rename(o, o.attrs[ClassAttr], ModeFor(inSequence)).name;
      FlattenNestedRecord(source, c, o, ModeFor(inSequence), owner, ctx, reg, sorted);
      assert c.attrs[GuidAttr] == g;
    }
  }

  /**
   * NestObject followed by FlattenObject: flattening cannot fail when no
   * record nesting took out of the registry is already in `sortedData`; the
   * flat record comes back unchanged (with `ownerguid` restored from the
   * owner it names), and `sortedData` gains exactly the record and every
   * record nesting took out of the registry, each as the registry held it.
   */
  lemma NestThenFlatten(source: string, obj: Element, exclusions: Exclusions, props: PropertyTable, st: Store,
                        sorted: map<string, Element>)
    requires FlatRecord(obj, props, st) && FlatRegistry(st, props)
    requires Nest(false, obj, exclusions, props, st).Ok?
    requires obj.attrs[GuidAttr] !in sorted
    requires forall g :: Lookup(st, g).Some? && Lookup(Nest(false, obj, exclusions, props, st).value.store, g).None? ==>
      g !in sorted
    ensures var n := Nest(false, obj, exclusions, props, st).value;
      var f := FlattenRecord(source, n.value, obj.attrs[OwnerGuidAttr], props, sorted);
      && f.Ok?
      && f.value.value == obj
      && f.value.sorted[obj.attrs[GuidAttr]] == obj
      && (forall g :: g in f.value.sorted <==>
            g in sorted || g == obj.attrs[GuidAttr] || (Lookup(st, g).Some? && Lookup(n.store, g).None?))
      && (forall g :: g != obj.attrs[GuidAttr] && Lookup(st, g).Some? && Lookup(n.store, g).None? ==>
            f.value.sorted[g] == Lookup(st, g).value)
  {
    var ctx := Context(props, exclusions, false);
    var n := Nest(false, obj, exclusions, props, st).value;
    NestForm(false, obj, exclusions, props, st, st);
    NestTakes(false, obj, exclusions, props, st, st);
    var gs := InlinedGuids(n.value, obj, true, ctx, st).value;
    assert forall g :: g in gs ==> Lookup(st, g).Some? && Lookup(n.store, g).None?;
    FlattenNestedRecord(source, n.value, obj, Root, obj.attrs[OwnerGuidAttr], ctx, st, sorted);
  }
}
