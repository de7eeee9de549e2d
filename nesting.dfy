/**
 * CmObjectNestingService.NestObject: turns a flat record (an `rt` element whose
 * owned objects are `objsur` markers) into a nested one, pulling each owned
 * record out of the flat registry and splicing it in where its marker stood.
 *
 * The registry is `classData` (class name -> GUID -> record) together with
 * `guidToClassMapping` (GUID -> class name). Whether a property owns its
 * targets, owns them in sequence, or refers to them in sequence comes from the
 * metadata cache, which is passed in as a table.
 */
module Nesting {
  import opened Wrappers
  import opened Xml

  /** What the metadata says about one property of one class. */
  datatype Cardinality = Owning | OwningSequence | ReferenceSequence | Plain

  /** (class name, property name) -> cardinality; absent pairs are plain properties. */
  type PropertyTable = map<(string, string), Cardinality>

  /** Owner class name -> names of properties that must not be nested. */
  type Exclusions = map<string, set<string>>

  type ClassData = map<string, map<string, Element>>
  type GuidToClass = map<string, string>

  /** The flat registry: records by class and GUID, and the class of every GUID. */
  datatype Store = Store(classData: ClassData, guidToClass: GuidToClass)

  /** The four reference parameters of NestObject. */
  datatype Argument = ObjectArg | ExclusionsArg | ClassDataArg | GuidToClassArg

  datatype NestError =
    | ArgumentNull(arg: Argument)                     // ArgumentNullException
    | MissingAttribute(element: string, attr: string) // NullReferenceException on Attribute(..).Value
    | DanglingReference(guid: string)                 // KeyNotFoundException on a registry lookup

  /** A result paired with the registry as it stands afterwards. */
  datatype Nested<T> = Nested(value: T, store: Store)

  /** The fixed inputs of one NestObject call. */
  datatype Context = Context(props: PropertyTable, exclusions: Exclusions, topLevelOnly: bool)

  /** How a record is being nested: the call's own object, an owned object, an owned object in a sequence. */
  datatype Mode = Root | Owned | OwnedInSequence

  function CardinalityOf(props: PropertyTable, cls: string, prop: string): Cardinality {
    if (cls, prop) in props then props[(cls, prop)] else Plain
  }

  predicate IsExcluded(exclusions: Exclusions, cls: string, prop: string) {
    cls in exclusions && prop in exclusions[cls]
  }

  /** `<objsur t="o" .../>`: the marker of an owned object. */
  predicate IsOwningMarker(m: Element) {
    m.name == ObjsurTag && KindAttr in m.attrs && m.attrs[KindAttr] == OwningKind
  }

  /** The record the registry holds for `guid`, if any. */
  function Lookup(st: Store, guid: string): Option<Element> {
    if guid in st.guidToClass && st.guidToClass[guid] in st.classData
       && guid in st.classData[st.guidToClass[guid]]
    then Some(st.classData[st.guidToClass[guid]][guid])
    else None
  }

  /** `a` is `b` with zero or more records removed. */
  ghost predicate SubStore(a: Store, b: Store) {
    && (forall g :: g in a.guidToClass ==> g in b.guidToClass && a.guidToClass[g] == b.guidToClass[g])
    && (forall g :: Lookup(a, g).Some? ==> Lookup(b, g) == Lookup(a, g))
    && (forall c, k :: c in a.classData && k in a.classData[c] ==>
          c in b.classData && k in b.classData[c] && b.classData[c][k] == a.classData[c][k])
  }

  lemma SubStoreTransitive(a: Store, b: Store, c: Store)
    requires SubStore(a, b) && SubStore(b, c)
    ensures SubStore(a, c)
  {
  }

  /** Drops `guid` from both halves of the registry (SortedDictionary.Remove / Dictionary.Remove). */
  function Forget(st: Store, guid: string): (r: Store)
    ensures SubStore(r, st)
    ensures guid !in r.guidToClass && Lookup(r, guid).None?
    ensures forall g :: g != guid ==> Lookup(r, g) == Lookup(st, g)
    ensures r.guidToClass == st.guidToClass - {guid}
  {
    if guid in st.guidToClass && st.guidToClass[guid] in st.classData then
      var cls := st.guidToClass[guid];
      Store(st.classData[cls := st.classData[cls] - {guid}], st.guidToClass - {guid})
    else
      Store(st.classData, st.guidToClass - {guid})
  }

  /** Fetches the record of an owned GUID and removes it from the registry. */
  function Take(st: Store, guid: string): (r: Result<Nested<Element>, NestError>)
    ensures r.Ok? <==> Lookup(st, guid).Some?
    ensures r.Ok? ==> r.value.value == Lookup(st, guid).value
    ensures r.Ok? ==> r.value.store == Forget(st, guid)
    ensures r.Ok? ==> |r.value.store.guidToClass| < |st.guidToClass|
    ensures r.Err? ==> r.error == DanglingReference(guid)
  {
    match Lookup(st, guid)
    case None => Err(DanglingReference(guid))
    case Some(rec) => Ok(Nested(rec, Forget(st, guid)))
  }

  /**
   * The element's own rename: the object of the call and owned objects take
   * their class as element name and lose the `class` attribute; owned objects
   * in a sequence become `ownseq` and keep `class`; owned objects lose `ownerguid`.
   */
  function Rename(e: Element, cls: string, mode: Mode): Element {
    match mode
    case Root => e.(name := cls, attrs := e.attrs - {ClassAttr})
    case Owned => e.(name := cls, attrs := e.attrs - {ClassAttr, OwnerGuidAttr})
    case OwnedInSequence => e.(name := OwnseqTag, attrs := e.attrs - {OwnerGuidAttr})
  }

  /** A reference-sequence marker after nesting: `objsur` becomes `refseq`. */
  function RefRenamed(m: Element): Element {
    if m.name == ObjsurTag then m.(name := RefseqTag) else m
  }

  function RenameReferences(ms: seq<Element>): seq<Element> {
    seq(|ms|, i requires 0 <= i < |ms| => RefRenamed(ms[i]))
  }

  function ModeFor(inSequence: bool): Mode {
    if inSequence then OwnedInSequence else Owned
  }

  /** Prefixes the value of a successful sequence result. */
  function Prepend(acc: seq<Element>, r: Result<Nested<seq<Element>>, NestError>): Result<Nested<seq<Element>>, NestError> {
    match r
    case Err(e) => Err(e)
    case Ok(Nested(v, st)) => Ok(Nested(acc + v, st))
  }

  /** Nests one record: renames it and, when `descend`, nests its properties. */
  function NestRecord(e: Element, mode: Mode, descend: bool, ctx: Context, st: Store): (r: Result<Nested<Element>, NestError>)
    ensures r.Ok? ==> |r.value.store.guidToClass| <= |st.guidToClass| && SubStore(r.value.store, st)
    decreases |st.guidToClass|, Size(e), 3
  {
    if ClassAttr !in e.attrs then Err(MissingAttribute(e.name, ClassAttr))
    else
      var cls := e.attrs[ClassAttr];
      var renamed := Rename(e, cls, mode);
      if !descend then Ok(Nested(renamed, st))
      else match NestProperties(cls, e.children, ctx, st)
        case Err(err) => Err(err)
        case Ok(Nested(props, st1)) => Ok(Nested(renamed.(children := props), st1))
  }

  /** Nests the property elements of a record of class `cls`, in document order. */
  function NestProperties(cls: string, ps: seq<Element>, ctx: Context, st: Store): (r: Result<Nested<seq<Element>>, NestError>)
    ensures r.Ok? ==> |r.value.store.guidToClass| <= |st.guidToClass| && SubStore(r.value.store, st)
    ensures r.Ok? ==> |r.value.value| == |ps|
    decreases |st.guidToClass|, SizeOfAll(ps), 2
  {
    if ps == [] then Ok(Nested([], st))
    else match NestProperty(cls, ps[0], ctx, st)
      case Err(err) => Err(err)
      case Ok(Nested(p, st1)) =>
        Prepend([p], NestProperties(cls, ps[1..], ctx, st1))
  }

  /** Nests one property element according to its cardinality and the exclusions. */
  function NestProperty(cls: string, p: Element, ctx: Context, st: Store): (r: Result<Nested<Element>, NestError>)
    ensures r.Ok? ==> |r.value.store.guidToClass| <= |st.guidToClass| && SubStore(r.value.store, st)
    decreases |st.guidToClass|, Size(p), 1
  {
    match CardinalityOf(ctx.props, cls, p.name)
    case Plain => Ok(Nested(p, st))
    case ReferenceSequence => Ok(Nested(p.(children := RenameReferences(p.children)), st))
    case Owning => NestOwningProperty(cls, p, false, ctx, st)
    case OwningSequence => NestOwningProperty(cls, p, true, ctx, st)
  }

  function NestOwningProperty(cls: string, p: Element, inSequence: bool, ctx: Context, st: Store): (r: Result<Nested<Element>, NestError>)
    ensures r.Ok? ==> |r.value.store.guidToClass| <= |st.guidToClass| && SubStore(r.value.store, st)
    decreases |st.guidToClass|, Size(p), 0
  {
    if IsExcluded(ctx.exclusions, cls, p.name) then Ok(Nested(p, st))
    else match NestMarkers(p.children, inSequence, ctx, st)
      case Err(err) => Err(err)
      case Ok(Nested(kids, st1)) => Ok(Nested(p.(children := kids), st1))
  }

  /** Replaces each owning marker of one property by the nested record it names. */
  function NestMarkers(ms: seq<Element>, inSequence: bool, ctx: Context, st: Store): (r: Result<Nested<seq<Element>>, NestError>)
    ensures r.Ok? ==> |r.value.store.guidToClass| <= |st.guidToClass| && SubStore(r.value.store, st)
    ensures r.Ok? ==> |r.value.value| == |ms|
    decreases |st.guidToClass|, SizeOfAll(ms), 0
  {
    if ms == [] then Ok(Nested([], st))
    else
      var m := ms[0];
      assert SizeOfAll(ms[1..]) < SizeOfAll(ms);
      if !IsOwningMarker(m) then Prepend([m], NestMarkers(ms[1..], inSequence, ctx, st))
      else if GuidAttr !in m.attrs then Err(MissingAttribute(ObjsurTag, GuidAttr))
      else match Take(st, m.attrs[GuidAttr])
        case Err(err) => Err(err)
        case Ok(Nested(rec, st1)) =>
          match NestRecord(rec, ModeFor(inSequence), !ctx.topLevelOnly, ctx, st1)
          case Err(err) => Err(err)
          case Ok(Nested(n, st2)) => Prepend([n], NestMarkers(ms[1..], inSequence, ctx, st2))
  }

  /**
   * What NestObject does once its arguments are known to be non-null: the
   * object leaves the registry, then it is nested as the root of the tree.
   */
  function Nest(topLevelOnly: bool, obj: Element, exclusions: Exclusions, props: PropertyTable, st: Store): (r: Result<Nested<Element>, NestError>)
    ensures r.Ok? ==> SubStore(r.value.store, st)
  {
    if ClassAttr !in obj.attrs then Err(MissingAttribute(obj.name, ClassAttr))
    else if GuidAttr !in obj.attrs then Err(MissingAttribute(obj.name, GuidAttr))
    else NestRecord(obj, Root, true, Context(props, exclusions, topLevelOnly), Forget(st, obj.attrs[GuidAttr]))
  }
}
