/**
 * The Reversal bounded context (ReversalBoundedContextService).
 *
 * Save (NestContext): every ReversalIndex record of the registry is nested,
 * with everything it owns, into its own file `Reversals/<ws>.reversal`, where
 * `<ws>` is the index's WritingSystem/Uni text. The document is a `Reversal`
 * root holding a header that wraps the nested index, followed by the index's
 * former `Entries` children as siblings; an index without entries gets one
 * placeholder entry with the all-zero GUID. LexDb's `ReversalIndexes`
 * property is emptied.
 *
 * Load (FlattenContext): every `*.reversal` file is read back, its entries
 * are returned into `Entries` (unless the only one is the placeholder), the
 * index is flattened with the lower-cased LexDb GUID as owner, and
 * `ReversalIndexes` is refilled with one owning marker per index, in
 * case-insensitive GUID order.
 */
module Reversals {
  import opened Wrappers
  import opened Xml
  import opened KeyOrder
  import opened Nesting
  import opened Flattening
  import opened Storage

  const ReversalRootFolder := "Reversals"
  const ReversalExtension := ".reversal"
  const ReversalTag := "Reversal"
  const LexDbClass := "LexDb"
  const ReversalIndexClass := "ReversalIndex"
  const EntryClass := "ReversalIndexEntry"
  const ReversalIndexesProp := "ReversalIndexes"
  const EntriesProp := "Entries"
  const WritingSystemProp := "WritingSystem"
  const UniTag := "Uni"

  function ReversalDir(base: string): string {
    Combine(base, ReversalRootFolder)
  }

  /** The file of the index whose writing system is `ws`. */
  function ReversalPath(dir: string, ws: string): string {
    Combine(dir, ws + ReversalExtension)
  }

  /** revIndex.Element("WritingSystem").Element("Uni").Value */
  function WritingSystemOf(index: Element): (r: Result<string, ServiceError>)
    ensures r.Ok? <==> Child(index, WritingSystemProp).Some? && Child(Child(index, WritingSystemProp).value, UniTag).Some?
  {
    match Child(index, WritingSystemProp)
    case None => Err(ElementMissing(ReversalIndexClass, WritingSystemProp))
    case Some(wsProp) =>
      match Child(wsProp, UniTag)
      case None => Err(ElementMissing(WritingSystemProp, UniTag))
      case Some(uni) => Ok(uni.text)
  }

  // ---------------------------------------------------------------------------
  // The document of one index
  // ---------------------------------------------------------------------------

  /** The entry written when an index has none, so the file splitter has a record to work with. */
  function Placeholder(): (p: Element)
    ensures p.name == EntryClass && p.attrs == map[GuidAttr := EmptyGuid] && p.children == []
  {
    Leaf(EntryClass, map[GuidAttr := EmptyGuid])
  }

  /** The index has an `Entries` property with at least one child element. */
  predicate HasEntries(n: Element) {
    Child(n, EntriesProp).Some? && Child(n, EntriesProp).value.children != []
  }

  /** The nested index as the header holds it: its entries have moved out of `Entries`. */
  function SavedIndex(n: Element): (s: Element)
    ensures s.name == n.name && s.attrs == n.attrs
    ensures Child(s, EntriesProp).Some? <==> Child(n, EntriesProp).Some?
    ensures Child(s, EntriesProp).Some? ==> Child(s, EntriesProp).value.children == []
  {
    if HasEntries(n) then WithEmptied(n, EntriesProp).value else n
  }

  /**
   * The `Reversal` document written for nested index `n`: a header wrapping
   * the index, then the former entries in their order, or the placeholder
   * when there were none. The header holds the very element whose `Entries`
   * is emptied afterwards, so the file shows it empty.
   */
  function ReversalDocument(n: Element): (doc: Element)
    ensures doc.name == ReversalTag && |doc.children| >= 2
    ensures doc.children[0] == Node(HeaderTag, [SavedIndex(n)])
    ensures !HasEntries(n) ==> doc.children[1..] == [Placeholder()]
    ensures HasEntries(n) ==> doc.children[1..] == Child(n, EntriesProp).value.children
  {
    var root := Node(ReversalTag, [Node(HeaderTag, [SavedIndex(n)])]);
    if HasEntries(n) then root.(children := root.children + Child(n, EntriesProp).value.children)
    else root.(children := root.children + [Placeholder()])
  }

  /** The index in the header of a reversal document (root.Element(header).Element("ReversalIndex")). */
  function HeaderIndex(doc: Element): (r: Result<Element, ServiceError>)
    ensures r.Ok? ==> r.value.name == ReversalIndexClass
  {
    if doc.name != ReversalTag then Err(ElementMissing("document", ReversalTag))
    else match Child(doc, HeaderTag)
      case None => Err(ElementMissing(ReversalTag, HeaderTag))
      case Some(header) =>
        match Child(header, ReversalIndexClass)
        case None => Err(ElementMissing(HeaderTag, ReversalIndexClass))
        case Some(revIdx) => Ok(revIdx)
  }

  /**
   * The records put back into the index's `Entries`, unless the only one is
   * the placeholder (its GUID compared after lower-casing). No record at all
   * fails, as indexing the empty list does.
   */
  function RestoreEntries(revIdx: Element, records: seq<Element>): (r: Result<Element, ServiceError>)
    ensures records == [] ==> r.Err?
    ensures |records| == 1 && GuidAttr in records[0].attrs && ToLower(records[0].attrs[GuidAttr]) == EmptyGuid ==>
      r == Ok(revIdx)
    ensures |records| > 1 || (|records| == 1 && GuidAttr in records[0].attrs && ToLower(records[0].attrs[GuidAttr]) != EmptyGuid) ==>
      && (r.Ok? <==> Child(revIdx, EntriesProp).Some?)
      && (r.Ok? ==> r.value.name == revIdx.name && r.value.attrs == revIdx.attrs
                    && Child(r.value, EntriesProp).Some?
                    && Child(r.value, EntriesProp).value.children == Child(revIdx, EntriesProp).value.children + records)
  {
    if records == [] then Err(NoElements(ReversalTag, EntryClass))
    else if |records| == 1 && GuidAttr !in records[0].attrs then Err(AttributeMissing(EntryClass, GuidAttr))
    else if |records| > 1 || ToLower(records[0].attrs[GuidAttr]) != EmptyGuid then
      match WithAppended(revIdx, EntriesProp, records)
      case None => Err(ElementMissing(ReversalIndexClass, EntriesProp))
      case Some(idx) => Ok(idx)
    else Ok(revIdx)
  }

  /** Load, lines 102-109: the index a reversal document holds, its entries back in `Entries`. */
  function IndexFromDocument(doc: Element): (r: Result<Element, ServiceError>)
    ensures r.Ok? ==> HeaderIndex(doc).Ok? && r.value.name == ReversalIndexClass
                      && r.value.attrs == HeaderIndex(doc).value.attrs
    ensures Named(doc.children, EntryClass) == [] ==> r.Err?
  {
    match HeaderIndex(doc)
    case Err(e) => Err(e)
    case Ok(revIdx) => RestoreEntries(revIdx, Named(doc.children, EntryClass))
  }

  /** Named keeps a sequence whose elements all carry the name. */
  lemma {:induction false} NamedAll(s: seq<Element>, name: string)
    requires forall i :: 0 <= i < |s| ==> s[i].name == name
    ensures Named(s, name) == s
  {
    if s != [] {
      NamedAll(s[1..], name);
      assert s == [s[0]] + s[1..];
    }
  }

  /**
   * The entries of a nested index survive being relocated: they all are
   * ReversalIndexEntry elements, `Entries` has no text of its own, and a lone
   * entry is not mistaken for the placeholder.
   */
  predicate EntriesRelocatable(n: Element) {
    HasEntries(n) ==>
      var es := Child(n, EntriesProp).value;
      && es.text == ""
      && (forall i :: 0 <= i < |es.children| ==> es.children[i].name == EntryClass)
      && (|es.children| == 1 ==> GuidAttr in es.children[0].attrs && ToLower(es.children[0].attrs[GuidAttr]) != EmptyGuid)
  }

  /**
   * Save then load, on one index: reading the document written for a nested
   * index gives back that index with its entries in `Entries`, in their
   * order. An index without entries comes back unchanged, the placeholder
   * being dropped.
   */
  lemma SaveThenLoadIndex(n: Element)
    requires n.name == ReversalIndexClass
    requires EntriesRelocatable(n)
    ensures IndexFromDocument(ReversalDocument(n)) == Ok(n)
  {
    var doc := ReversalDocument(n);
    DocumentParts(n);
    if HasEntries(n) {
      NamedAll(doc.children[1..], EntryClass);
      EntriesComeBack(n);
    } else {
      EmptyGuidIsLower();
    }
  }

  /**
   * What EntriesRelocatable rules out: an index whose only entry has the
   * all-zero GUID is written exactly as an index without entries is, so the
   * load side takes that entry for the placeholder and the index comes back
   * with `Entries` empty.
   */
  lemma ZeroGuidEntryDropped(n: Element)
    requires n.name == ReversalIndexClass && HasEntries(n)
    requires var es := Child(n, EntriesProp).value.children;
      && |es| == 1 && es[0].name == EntryClass
      && GuidAttr in es[0].attrs && ToLower(es[0].attrs[GuidAttr]) == EmptyGuid
    ensures IndexFromDocument(ReversalDocument(n)) == Ok(SavedIndex(n))
    ensures SavedIndex(n) != n
  {
    var doc := ReversalDocument(n);
    DocumentParts(n);
    NamedAll(doc.children[1..], EntryClass);
  }

  /** Where the load side finds the index and the records in a saved document. */
  lemma DocumentParts(n: Element)
    requires n.name == ReversalIndexClass
    ensures HeaderIndex(ReversalDocument(n)) == Ok(SavedIndex(n))
    ensures Named(ReversalDocument(n).children, EntryClass) == Named(ReversalDocument(n).children[1..], EntryClass)
  {
    var doc := ReversalDocument(n);
    assert FirstNamed(doc.children, HeaderTag) == Some(0);
    var header := doc.children[0];
    assert FirstNamed(header.children, ReversalIndexClass) == Some(0);
    assert doc.children == [header] + doc.children[1..];
  }

  /** Appending the relocated entries to the emptied `Entries` restores the index. */
  lemma EntriesComeBack(n: Element)
    requires HasEntries(n) && Child(n, EntriesProp).value.text == ""
    ensures WithAppended(SavedIndex(n), EntriesProp, Child(n, EntriesProp).value.children) == Some(n)
  {
    var k := FirstNamed(n.children, EntriesProp).value;
    var es := n.children[k];
    var saved := SavedIndex(n);
    assert saved == WithChild(n, k, Emptied(es));
    FirstNamedKept(n.children, EntriesProp, k, Emptied(es));
    var back := WithAppended(saved, EntriesProp, es.children).value;
    assert back == WithChild(saved, k, Emptied(es).(children := Emptied(es).children + es.children));
    assert Emptied(es).(children := Emptied(es).children + es.children) == es;
    assert back.children == n.children;
  }

  // ---------------------------------------------------------------------------
  // Save: NestContext
  // ---------------------------------------------------------------------------

  /** The registry and the files while the indexes are being written. */
  datatype SaveState = SaveState(store: Store, files: map<string, Element>)

  /** Lines 58-83 for one index: read its writing system, nest it, write its document. */
  function SaveIndex(dir: string, index: Element, props: PropertyTable, w: SaveState): (r: Result<SaveState, ServiceError>)
    ensures r.Ok? ==> WritingSystemOf(index).Ok?
    ensures r.Ok? ==> r.value.files.Keys == w.files.Keys + {ReversalPath(dir, WritingSystemOf(index).value)}
    ensures r.Ok? ==> SubStore(r.value.store, w.store)
  {
    match WritingSystemOf(index)
    case Err(e) => Err(e)
    case Ok(ws) =>
      match Nest(false, index, map[], props, w.store)
      case Err(e) => Err(NestingFailed(e))
      case Ok(n) => Ok(SaveState(n.store, w.files[ReversalPath(dir, ws) := ReversalDocument(n.value)]))
  }

  /** The loop of lines 56-84: SaveIndex on each index in turn, stopping at the first failure. */
  function SaveIndexes(dir: string, indexes: seq<Element>, props: PropertyTable, w: SaveState): (r: Result<SaveState, ServiceError>)
    ensures r.Ok? ==> forall x :: x in indexes ==> WritingSystemOf(x).Ok?
    ensures r.Ok? ==> w.files.Keys <= r.value.files.Keys
    decreases |indexes|
  {
    if indexes == [] then Ok(w)
    else match SaveIndex(dir, indexes[0], props, w)
      case Err(e) => Err(e)
      case Ok(w1) =>
        assert forall x :: x in indexes ==> x == indexes[0] || x in indexes[1..];
        SaveIndexes(dir, indexes[1..], props, w1)
  }


  /** The values of a SortedDictionary in the order it enumerates them: by key. */
  function ValuesInKeyOrder(copy: map<string, Element>): (r: seq<Element>)
    ensures |r| == |copy|
    ensures forall i :: 0 <= i < |r| ==> SortedKeys(copy.Keys)[i] in copy && r[i] == copy[SortedKeys(copy.Keys)[i]]
  {
    var keys := SortedKeys(copy.Keys);
    seq(|keys|, i requires 0 <= i < |keys| => copy[keys[i]])
  }

  /** The registry, directories and files after saving. */
  datatype Saved = Saved(store: Store, directories: set<string>, files: map<string, Element>)

  /** The store with LexDb's ReversalIndexes emptied, as line 49 leaves it; every other record stays. */
  function EmptyReversalIndexes(st: Store, lexKey: string): (r: Option<Store>)
    requires LexDbClass in st.classData && lexKey in st.classData[LexDbClass]
    ensures r.Some? <==> Child(st.classData[LexDbClass][lexKey], ReversalIndexesProp).Some?
    ensures r.Some? ==>
      && r.value.guidToClass == st.guidToClass
      && r.value.classData.Keys == st.classData.Keys
      && r.value.classData[LexDbClass].Keys == st.classData[LexDbClass].Keys
      && Child(r.value.classData[LexDbClass][lexKey], ReversalIndexesProp).Some?
      && Child(r.value.classData[LexDbClass][lexKey], ReversalIndexesProp).value.children == []
      && (forall c, k :: c in st.classData && k in st.classData[c] && (c, k) != (LexDbClass, lexKey) ==>
            c in r.value.classData && k in r.value.classData[c] && r.value.classData[c][k] == st.classData[c][k])
  {
    match WithEmptied(st.classData[LexDbClass][lexKey], ReversalIndexesProp)
    case None => None
    case Some(lexDb) => Some(Store(st.classData[LexDbClass := st.classData[LexDbClass][lexKey := lexDb]], st.guidToClass))
  }

  /** The record the service picks from the LexDb bucket: the first in key order. */
  function LexDbKey(st: Store): (k: string)
    requires LexDbClass in st.classData && |st.classData[LexDbClass]| > 0
    ensures k in st.classData[LexDbClass]
  {
    Least(st.classData[LexDbClass].Keys)
  }

  /** Lines 47-84, once both buckets are known to be non-empty. */
  function SaveAll(base: string, props: PropertyTable, st: Store, dirs: set<string>,
                   files: map<string, Element>): (r: Result<Saved, ServiceError>)
    requires LexDbClass in st.classData && |st.classData[LexDbClass]| > 0
    requires ReversalIndexClass in st.classData && |st.classData[ReversalIndexClass]| > 0
    ensures Child(st.classData[LexDbClass][LexDbKey(st)], ReversalIndexesProp).None? ==>
      r == Err(ElementMissing(LexDbClass, ReversalIndexesProp))
    ensures r.Ok? ==> r.value.directories == dirs + {ReversalDir(base)} && files.Keys <= r.value.files.Keys
  {
    match EmptyReversalIndexes(st, LexDbKey(st))
    case None => Err(ElementMissing(LexDbClass, ReversalIndexesProp))
    case Some(st1) =>
      var dir := ReversalDir(base);
      Finish(SaveIndexes(dir, ValuesInKeyOrder(st.classData[ReversalIndexClass]), props, SaveState(st1, files)), dirs + {dir})
  }

  /** The outcome of the loop over the indexes, with the directories it ran in. */
  function Finish(run: Result<SaveState, ServiceError>, dirs: set<string>): Result<Saved, ServiceError> {
    match run
    case Err(e) => Err(e)
    case Ok(w) => Ok(Saved(w.store, dirs, w.files))
  }

  /** NestContext(linguisticsBaseDir, classData, guidToClassMapping), lines 36-85. */
  function NestReversals(base: string, props: PropertyTable, st: Store, dirs: set<string>,
                         files: map<string, Element>): (r: Result<Saved, ServiceError>)
    ensures LexDbClass in st.classData && |st.classData[LexDbClass]| == 0 ==> r == Ok(Saved(st, dirs, files))
    ensures LexDbClass in st.classData && ReversalIndexClass in st.classData && |st.classData[ReversalIndexClass]| == 0 ==>
      r == Ok(Saved(st, dirs, files))
  {
    if LexDbClass !in st.classData then Err(KeyNotFound(LexDbClass))
    else if |st.classData[LexDbClass]| == 0 then Ok(Saved(st, dirs, files))
    else if ReversalIndexClass !in st.classData then Err(KeyNotFound(ReversalIndexClass))
    else if |st.classData[ReversalIndexClass]| == 0 then Ok(Saved(st, dirs, files))
    else SaveAll(base, props, st, dirs, files)
  }

  /**
   * NestContext as the procedure it is: it empties LexDb's ReversalIndexes in
   * the registry, creates the Reversals directory, then walks a copy of the
   * ReversalIndex bucket, nesting each index out of the registry and writing
   * its file. On success the registry and the file system are those of
   * NestReversals; with no LexDb record or no index nothing changes.
   */
  method NestContext(base: string, reg: Registry, fs: FileSystem, props: PropertyTable)
    returns (r: Result<(), ServiceError>)
    modifies reg, fs
    ensures NestReversals(base, props, old(reg.Contents()), old(fs.directories), old(fs.files))
         == Outcome(r, Saved(reg.Contents(), fs.directories, fs.files))
  {
    if LexDbClass !in reg.classData {
      return Err(KeyNotFound(LexDbClass));
    }
    if |reg.classData[LexDbClass]| == 0 {
      return Ok(());
    }
    if ReversalIndexClass !in reg.classData {
      return Err(KeyNotFound(ReversalIndexClass));
    }
    if |reg.classData[ReversalIndexClass]| == 0 {
      return Ok(());
    }
    r := SaveAllIndexes(base, reg, fs, props);
  }

  /** Lines 47-84: empty ReversalIndexes, create the directory, save every index of the copied bucket. */
  method SaveAllIndexes(base: string, reg: Registry, fs: FileSystem, props: PropertyTable)
    returns (r: Result<(), ServiceError>)
    requires LexDbClass in reg.classData && |reg.classData[LexDbClass]| > 0
    requires ReversalIndexClass in reg.classData && |reg.classData[ReversalIndexClass]| > 0
    modifies reg, fs
    ensures SaveAll(base, props, old(reg.Contents()), old(fs.directories), old(fs.files))
         == Outcome(r, Saved(reg.Contents(), fs.directories, fs.files))
  {
    var lexKey := LexDbKey(reg.Contents());
    var emptied := WithEmptied(reg.classData[LexDbClass][lexKey], ReversalIndexesProp);
    if emptied.None? {
      assert SaveAll(base, props, reg.Contents(), fs.directories, fs.files) == Err(ElementMissing(LexDbClass, ReversalIndexesProp));
      return Err(ElementMissing(LexDbClass, ReversalIndexesProp));
    }
    ghost var st1 := EmptyReversalIndexes(reg.Contents(), lexKey).value;
    var srcDataCopy := ValuesInKeyOrder(reg.classData[ReversalIndexClass]);
    var reversalDir := ReversalDir(base);
    ghost var dirs := fs.directories + {reversalDir};
    ghost var run := SaveIndexes(reversalDir, srcDataCopy, props, SaveState(st1, fs.files));
    assert SaveAll(base, props, reg.Contents(), fs.directories, fs.files) == Finish(run, dirs);
    reg.SetRecord(LexDbClass, lexKey, emptied.value);
    assert reg.Contents() == st1;
    if reversalDir !in fs.directories {
      fs.CreateDirectory(reversalDir);
    } else {
      AddPresent(fs.directories, reversalDir);
    }
    r := SaveIndexList(reversalDir, srcDataCopy, reg, fs, props);
    assert run == Outcome(r, SaveState(reg.Contents(), fs.files));
    FinishOutcome(r, SaveState(reg.Contents(), fs.files), dirs);
  }

  /** Adding a present directory changes nothing; kept apart from the method, where set extensionality is costly. */
  lemma AddPresent(s: set<string>, x: string)
    requires x in s
    ensures s + {x} == s
  {
  }

  /** Finish applied to an outcome, kept apart so the method's proof does not unfold Finish among its frames. */
  lemma FinishOutcome(r: Result<(), ServiceError>, w: SaveState, dirs: set<string>)
    ensures Finish(Outcome(r, w), dirs) == Outcome(r, Saved(w.store, dirs, w.files))
  {
  }

  /** The foreach of lines 56-84 over the copied bucket: SaveIndexes, step by step. */
  method SaveIndexList(dir: string, indexes: seq<Element>, reg: Registry, fs: FileSystem, props: PropertyTable)
    returns (r: Result<(), ServiceError>)
    modifies reg, fs
    ensures fs.directories == old(fs.directories)
    ensures SaveIndexes(dir, indexes, props, SaveState(old(reg.Contents()), old(fs.files)))
         == Outcome(r, SaveState(reg.Contents(), fs.files))
  {
    var todo := indexes;
    while todo != []
      invariant fs.directories == old(fs.directories)
      invariant SaveIndexes(dir, indexes, props, SaveState(old(reg.Contents()), old(fs.files)))
             == SaveIndexes(dir, todo, props, SaveState(reg.Contents(), fs.files))
    {
      var saved := SaveOneIndex(dir, todo[0], reg, fs, props);
      if saved.Err? {
        return saved;
      }
      todo := todo[1..];
    }
    return Ok(());
  }

  /** The body of the loop over the indexes, lines 58-83: the registry and files change as SaveIndex says. */
  method SaveOneIndex(dir: string, revIndex: Element, reg: Registry, fs: FileSystem, props: PropertyTable)
    returns (r: Result<(), ServiceError>)
    modifies reg, fs
    ensures fs.directories == old(fs.directories)
    ensures SaveIndex(dir, revIndex, props, SaveState(old(reg.Contents()), old(fs.files)))
         == Outcome(r, SaveState(reg.Contents(), fs.files))
  {
    var ws := WritingSystemOf(revIndex);
    if ws.Err? {
      return Err(ws.error);
    }
    var nested := reg.Nest(false, revIndex, map[], props);
    if nested.Err? {
      return Err(NestingFailed(nested.error));
    }
    fs.WriteFile(ReversalPath(dir, ws.value), ReversalDocument(nested.value));
    return Ok(());
  }

  /** The files the indexes are written to, one per index (indexes sharing a writing system share it). */
  ghost function IndexFiles(dir: string, indexes: seq<Element>): set<string>
    decreases |indexes|
  {
    if indexes == [] then {}
    else
      (if WritingSystemOf(indexes[0]).Ok? then {ReversalPath(dir, WritingSystemOf(indexes[0]).value)} else {})
      + IndexFiles(dir, indexes[1..])
  }

  lemma {:induction false} IndexFilesMember(dir: string, indexes: seq<Element>, p: string)
    ensures p in IndexFiles(dir, indexes) <==>
      exists i :: 0 <= i < |indexes| && WritingSystemOf(indexes[i]).Ok? && p == ReversalPath(dir, WritingSystemOf(indexes[i]).value)
    decreases |indexes|
  {
    if indexes != [] {
      IndexFilesMember(dir, indexes[1..], p);
      if exists i :: 0 <= i < |indexes[1..]| && WritingSystemOf(indexes[1..][i]).Ok? && p == ReversalPath(dir, WritingSystemOf(indexes[1..][i]).value) {
        var i :| 0 <= i < |indexes[1..]| && WritingSystemOf(indexes[1..][i]).Ok? && p == ReversalPath(dir, WritingSystemOf(indexes[1..][i]).value);
        assert indexes[i + 1] == indexes[1..][i];
      }
      if exists i :: 0 <= i < |indexes| && WritingSystemOf(indexes[i]).Ok? && p == ReversalPath(dir, WritingSystemOf(indexes[i]).value) {
        var i :| 0 <= i < |indexes| && WritingSystemOf(indexes[i]).Ok? && p == ReversalPath(dir, WritingSystemOf(indexes[i]).value);
        if i > 0 {
          assert indexes[i] == indexes[1..][i - 1];
        }
      }
    }
  }

  /** A successful run over a non-empty list succeeded on its first index and then on the rest. */
  lemma SaveIndexesStep(dir: string, indexes: seq<Element>, props: PropertyTable, w: SaveState)
    requires indexes != [] && SaveIndexes(dir, indexes, props, w).Ok?
    ensures SaveIndex(dir, indexes[0], props, w).Ok?
    ensures SaveIndexes(dir, indexes, props, w) == SaveIndexes(dir, indexes[1..], props, SaveIndex(dir, indexes[0], props, w).value)
  {
  }

  /** A successful run adds exactly the files of its indexes. */
  lemma {:induction false} SaveIndexesFiles(dir: string, indexes: seq<Element>, props: PropertyTable, w: SaveState)
    requires SaveIndexes(dir, indexes, props, w).Ok?
    ensures SaveIndexes(dir, indexes, props, w).value.files.Keys == w.files.Keys + IndexFiles(dir, indexes)
    decreases |indexes|
  {
    if indexes != [] {
      SaveIndexesStep(dir, indexes, props, w);
      SaveIndexesFiles(dir, indexes[1..], props, SaveIndex(dir, indexes[0], props, w).value);
    }
  }

  /** A successful run only takes records out of the registry and leaves the rest as they were. */
  lemma {:induction false} SaveIndexesShrinks(dir: string, indexes: seq<Element>, props: PropertyTable, w: SaveState)
    requires SaveIndexes(dir, indexes, props, w).Ok?
    ensures SubStore(SaveIndexes(dir, indexes, props, w).value.store, w.store)
    decreases |indexes|
  {
    if indexes != [] {
      SaveIndexesStep(dir, indexes, props, w);
      var w1 := SaveIndex(dir, indexes[0], props, w).value;
      SaveIndexesShrinks(dir, indexes[1..], props, w1);
      SubStoreTransitive(SaveIndexes(dir, indexes, props, w).value.store, w1.store, w.store);
    }
  }

  /** The files of the indexes of a bucket: one per index, named after its writing system. */
  ghost function BucketFiles(dir: string, copy: map<string, Element>): set<string> {
    set k | k in copy && WritingSystemOf(copy[k]).Ok? :: ReversalPath(dir, WritingSystemOf(copy[k]).value)
  }

  lemma InOrderFiles(dir: string, copy: map<string, Element>)
    ensures IndexFiles(dir, ValuesInKeyOrder(copy)) == BucketFiles(dir, copy)
  {
    var indexes := ValuesInKeyOrder(copy);
    var keys := SortedKeys(copy.Keys);
    forall p | p in BucketFiles(dir, copy)
      ensures p in IndexFiles(dir, indexes)
    {
      var k :| k in copy && WritingSystemOf(copy[k]).Ok? && p == ReversalPath(dir, WritingSystemOf(copy[k]).value);
      var i :| 0 <= i < |keys| && keys[i] == k;
      assert indexes[i] == copy[k];
      IndexFilesMember(dir, indexes, p);
    }
    forall p | p in IndexFiles(dir, indexes)
      ensures p in BucketFiles(dir, copy)
    {
      IndexFilesMember(dir, indexes, p);
      var i :| 0 <= i < |indexes| && WritingSystemOf(indexes[i]).Ok? && p == ReversalPath(dir, WritingSystemOf(indexes[i]).value);
      assert keys[i] in copy && indexes[i] == copy[keys[i]];
    }
  }

  /** What a successful save with both buckets non-empty is made of. */
  lemma NestReversalsRun(base: string, props: PropertyTable, st: Store, dirs: set<string>, files: map<string, Element>)
    requires LexDbClass in st.classData && |st.classData[LexDbClass]| > 0
    requires ReversalIndexClass in st.classData && |st.classData[ReversalIndexClass]| > 0
    requires NestReversals(base, props, st, dirs, files).Ok?
    ensures EmptyReversalIndexes(st, LexDbKey(st)).Some?
    ensures var st1 := EmptyReversalIndexes(st, LexDbKey(st)).value;
      var run := SaveIndexes(ReversalDir(base), ValuesInKeyOrder(st.classData[ReversalIndexClass]), props, SaveState(st1, files));
      && run.Ok?
      && NestReversals(base, props, st, dirs, files).value == Saved(run.value.store, dirs + {ReversalDir(base)}, run.value.files)
  {
  }

  /** Every record of the bucket is among the indexes the loop visits. */
  lemma InOrderVisitsAll(copy: map<string, Element>, k: string)
    requires k in copy
    ensures copy[k] in ValuesInKeyOrder(copy)
  {
    var keys := SortedKeys(copy.Keys);
    var i :| 0 <= i < |keys| && keys[i] == k;
    assert ValuesInKeyOrder(copy)[i] == copy[k];
  }

  /** A save that succeeds found a writing system on every index. */
  lemma SaveNeedsWritingSystems(base: string, props: PropertyTable, st: Store, dirs: set<string>,
                                files: map<string, Element>, k: string)
    requires LexDbClass in st.classData && |st.classData[LexDbClass]| > 0
    requires ReversalIndexClass in st.classData && k in st.classData[ReversalIndexClass]
    requires NestReversals(base, props, st, dirs, files).Ok?
    ensures WritingSystemOf(st.classData[ReversalIndexClass][k]).Ok?
  {
    var copy := st.classData[ReversalIndexClass];
    NestReversalsRun(base, props, st, dirs, files);
    InOrderVisitsAll(copy, k);
  }

  /** A registry taken out of the emptied one keeps LexDb's ReversalIndexes empty and every other record as it was. */
  lemma EmptiedStaysEmpty(st: Store, lexKey: string, st2: Store)
    requires LexDbClass in st.classData && lexKey in st.classData[LexDbClass]
    requires EmptyReversalIndexes(st, lexKey).Some?
    requires SubStore(st2, EmptyReversalIndexes(st, lexKey).value)
    ensures LexDbClass in st2.classData && lexKey in st2.classData[LexDbClass] ==>
      Child(st2.classData[LexDbClass][lexKey], ReversalIndexesProp).Some? &&
      Child(st2.classData[LexDbClass][lexKey], ReversalIndexesProp).value.children == []
    ensures forall c, k :: c in st2.classData && k in st2.classData[c] && (c, k) != (LexDbClass, lexKey) ==>
      c in st.classData && k in st.classData[c] && st2.classData[c][k] == st.classData[c][k]
  {
    var st1 := EmptyReversalIndexes(st, lexKey).value;
    forall c, k | c in st2.classData && k in st2.classData[c] && (c, k) != (LexDbClass, lexKey)
      ensures c in st.classData && k in st.classData[c] && st2.classData[c][k] == st.classData[c][k]
    {
      assert c in st1.classData && k in st1.classData[c] && st2.classData[c][k] == st1.classData[c][k];
    }
  }

  // ---------------------------------------------------------------------------
  // Load: FlattenContext
  // ---------------------------------------------------------------------------

  /** sortedData while the files are read, with the owning markers collected so far, by lower-cased GUID. */
  datatype Loaded = Loaded(sorted: map<string, Element>, revs: map<string, Element>)

  /**
   * Lines 100-112 for one file: the file is read, the index comes out of the
   * document, is flattened into sortedData with the lower-cased LexDb GUID
   * as owner, and an owning marker for its lower-cased GUID is collected.
   * The markers are keyed by lower-cased GUIDs, so the case-insensitive
   * comparer of line 97 finds a duplicate exactly when the key is already
   * there.
   */
  function LoadIndex(path: string, files: map<string, Element>, lexDb: Element, props: PropertyTable, acc: Loaded)
    : (r: Result<Loaded, ServiceError>)
    ensures path !in files ==> r == Err(FileNotFound(path))
    ensures r.Ok? ==> path in files && IndexFromDocument(files[path]).Ok? && GuidAttr in lexDb.attrs
  {
    if path !in files then Err(FileNotFound(path))
    else match IndexFromDocument(files[path])
      case Err(e) => Err(e)
      case Ok(revIdx) =>
        if GuidAttr !in lexDb.attrs then Err(AttributeMissing(LexDbClass, GuidAttr))
        else
          match FlattenRecord(path, revIdx, ToLower(lexDb.attrs[GuidAttr]), props, acc.sorted)
          case Err(e) => Err(FlatteningFailed(e))
          case Ok(f) =>
            var key := ToLower(revIdx.attrs[GuidAttr]);
            if key in acc.revs then Err(ServiceError.DuplicateKey(key))
            else Ok(Loaded(f.sorted, acc.revs[key := ObjSur(key)]))
  }

  /**
   * A file that loads held an index with a GUID not collected before; its
   * marker is added, and the index is in sortedData as a flat record owned
   * by LexDb, the entries already there being kept.
   */
  lemma LoadIndexOk(path: string, files: map<string, Element>, lexDb: Element, props: PropertyTable, acc: Loaded)
    requires LoadIndex(path, files, lexDb, props, acc).Ok?
    ensures GuidAttr in IndexFromDocument(files[path]).value.attrs
    ensures var r := LoadIndex(path, files, lexDb, props, acc).value;
      var guid := IndexFromDocument(files[path]).value.attrs[GuidAttr];
      && ToLower(guid) !in acc.revs
      && r.revs == acc.revs[ToLower(guid) := ObjSur(ToLower(guid))]
      && Extends(r.sorted, acc.sorted) && guid !in acc.sorted && guid in r.sorted
      && r.sorted[guid].name == RtTag && OwnerGuidAttr in r.sorted[guid].attrs
      && r.sorted[guid].attrs[OwnerGuidAttr] == ToLower(lexDb.attrs[GuidAttr])
  {
  }

  /** The loop of lines 98-113 over the listed files, stopping at the first failure. */
  function LoadIndexes(paths: seq<string>, files: map<string, Element>, lexDb: Element, props: PropertyTable, acc: Loaded)
    : (r: Result<Loaded, ServiceError>)
    ensures r.Ok? ==> forall p :: p in paths ==> p in files && IndexFromDocument(files[p]).Ok?
    decreases |paths|
  {
    if paths == [] then Ok(acc)
    else match LoadIndex(paths[0], files, lexDb, props, acc)
      case Err(e) => Err(e)
      case Ok(acc1) =>
        assert forall p :: p in paths ==> p == paths[0] || p in paths[1..];
        LoadIndexes(paths[1..], files, lexDb, props, acc1)
  }

  /** Lines 118-120: LexDb's ReversalIndexes receives the markers in key order. */
  function RefilledLexDb(high: map<string, Element>, revs: map<string, Element>): (r: Result<map<string, Element>, ServiceError>)
    requires LexDbClass in high
    ensures r.Ok? <==> Child(high[LexDbClass], ReversalIndexesProp).Some?
    ensures r.Ok? ==> r.value.Keys == high.Keys && forall c :: c in high && c != LexDbClass ==> r.value[c] == high[c]
  {
    match WithAppended(high[LexDbClass], ReversalIndexesProp, ValuesInKeyOrder(revs))
    case None => Err(ElementMissing(LexDbClass, ReversalIndexesProp))
    case Some(lexDb) => Ok(high[LexDbClass := lexDb])
  }

  /** Lines 116-120, after the loop: nothing to restore when no index was read. */
  function Refill(loaded: Result<Loaded, ServiceError>, high: map<string, Element>): (r: Result<Restored, ServiceError>)
    requires LexDbClass in high
    ensures r.Ok? ==> loaded.Ok? && r.value.sortedData == loaded.value.sorted
    ensures loaded.Ok? && |loaded.value.revs| == 0 ==> r == Ok(Restored(high, loaded.value.sorted))
  {
    match loaded
    case Err(e) => Err(e)
    case Ok(l) =>
      if |l.revs| == 0 then Ok(Restored(high, l.sorted))
      else match RefilledLexDb(high, l.revs)
        case Err(e) => Err(e)
        case Ok(high1) => Ok(Restored(high1, l.sorted))
  }

  /**
   * FlattenContext(highLevelData, sortedData, linguisticsBaseDir), lines
   * 87-121, with `listing` the order Directory.GetFiles lists the
   * `*.reversal` files in.
   */
  function FlattenReversals(base: string, listing: seq<string>, files: map<string, Element>, dirs: set<string>,
                            high: map<string, Element>, sorted: map<string, Element>, props: PropertyTable)
    : (r: Result<Restored, ServiceError>)
    ensures ReversalDir(base) !in dirs ==> r == Ok(Restored(high, sorted))
    ensures ReversalDir(base) in dirs && LexDbClass !in high ==> r == Err(KeyNotFound(LexDbClass))
    ensures LexDbClass in high && listing == [] ==> r == Ok(Restored(high, sorted))
  {
    if ReversalDir(base) !in dirs then Ok(Restored(high, sorted))
    else if LexDbClass !in high then Err(KeyNotFound(LexDbClass))
    else Refill(LoadIndexes(listing, files, high[LexDbClass], props, Loaded(sorted, map[])), high)
  }


  /**
   * FlattenContext as the procedure it is: it reads the listed files one by
   * one, flattening each index into sortedData and collecting its marker,
   * then appends the markers to LexDb's ReversalIndexes in key order. On
   * success highLevelData and sortedData are those of FlattenReversals.
   * `listing` is what Directory.GetFiles returns at line 98: the `*.reversal`
   * files directly in the directory, in some order.
   */
  method FlattenContext(base: string, fs: FileSystem, listing: seq<string>, data: FlatData, props: PropertyTable)
    returns (r: Result<(), ServiceError>)
    requires ReversalDir(base) in fs.directories ==>
      IsListing(listing, MatchingFiles(fs.files, ReversalDir(base), ReversalExtension))
    modifies data
    ensures FlattenReversals(base, listing, fs.files, fs.directories, old(data.highLevelData), old(data.sortedData), props)
         == Outcome(r, Restored(data.highLevelData, data.sortedData))
  {
    var reversalDir := ReversalDir(base);
    if reversalDir !in fs.directories {
      return Ok(());
    }
    if LexDbClass !in data.highLevelData {
      return Err(KeyNotFound(LexDbClass));
    }
    var lexDb := data.highLevelData[LexDbClass];
    ghost var high := data.highLevelData;
    ghost var loaded := LoadIndexes(listing, fs.files, lexDb, props, Loaded(data.sortedData, map[]));
    assert FlattenReversals(base, listing, fs.files, fs.directories, high, data.sortedData, props) == Refill(loaded, high);
    var step, sortedRevs := LoadIndexList(listing, fs, lexDb, data, props);
    if step.Err? {
      return step;
    }
    if |sortedRevs| == 0 {
      return Ok(());
    }
    r := AppendMarkers(sortedRevs, data);
  }

  /** The foreach of lines 98-113: LoadIndexes, file by file, collecting the markers in `sortedRevs`. */
  method LoadIndexList(listing: seq<string>, fs: FileSystem, lexDb: Element, data: FlatData, props: PropertyTable)
    returns (r: Result<(), ServiceError>, sortedRevs: map<string, Element>)
    modifies data
    ensures data.highLevelData == old(data.highLevelData)
    ensures LoadIndexes(listing, fs.files, lexDb, props, Loaded(old(data.sortedData), map[]))
         == Outcome(r, Loaded(data.sortedData, sortedRevs))
  {
    sortedRevs := map[];
    var todo := listing;
    while todo != []
      invariant data.highLevelData == old(data.highLevelData)
      invariant LoadIndexes(listing, fs.files, lexDb, props, Loaded(old(data.sortedData), map[]))
             == LoadIndexes(todo, fs.files, lexDb, props, Loaded(data.sortedData, sortedRevs))
    {
      var step, revs1 := LoadOneIndex(todo[0], fs, lexDb, data, props, sortedRevs);
      if step.Err? {
        return step, sortedRevs;
      }
      sortedRevs := revs1;
      todo := todo[1..];
    }
    return Ok(()), sortedRevs;
  }

  /** Lines 100-112, the body of the loop over the files: sortedData changes as LoadIndex says. */
  method LoadOneIndex(path: string, fs: FileSystem, lexDb: Element, data: FlatData, props: PropertyTable, revs: map<string, Element>)
    returns (r: Result<(), ServiceError>, revs1: map<string, Element>)
    modifies data
    ensures data.highLevelData == old(data.highLevelData)
    ensures LoadIndex(path, fs.files, lexDb, props, Loaded(old(data.sortedData), revs)) == Outcome(r, Loaded(data.sortedData, revs1))
  {
    revs1 := revs;
    if path !in fs.files {
      return Err(FileNotFound(path)), revs1;
    }
    var reversalDoc := fs.files[path];
    var revIdx := IndexFromDocument(reversalDoc);
    if revIdx.Err? {
      return Err(revIdx.error), revs1;
    }
    if GuidAttr !in lexDb.attrs {
      return Err(AttributeMissing(LexDbClass, GuidAttr)), revs1;
    }
    var flat := data.Flatten(path, revIdx.value, ToLower(lexDb.attrs[GuidAttr]), props);
    if flat.Err? {
      return Err(FlatteningFailed(flat.error)), revs1;
    }
    var revIdxGuid := ToLower(revIdx.value.attrs[GuidAttr]);
    if revIdxGuid in revs {
      return Err(ServiceError.DuplicateKey(revIdxGuid)), revs1;
    }
    revs1 := revs[revIdxGuid := ObjSur(revIdxGuid)];
    return Ok(()), revs1;
  }

  /** Lines 118-120: each marker, in key order, is added to LexDb's ReversalIndexes. */
  method AppendMarkers(revs: map<string, Element>, data: FlatData) returns (r: Result<(), ServiceError>)
    requires LexDbClass in data.highLevelData
    modifies data
    ensures data.sortedData == old(data.sortedData)
    ensures RefilledLexDb(old(data.highLevelData), revs) == Outcome(r, data.highLevelData)
  {
    var lexDb := data.highLevelData[LexDbClass];
    var k := FirstNamed(lexDb.children, ReversalIndexesProp);
    if k.None? {
      return Err(ElementMissing(LexDbClass, ReversalIndexesProp));
    }
    var markers := ValuesInKeyOrder(revs);
    var reversalsOwningProp := lexDb.children[k.value];
    var owned := reversalsOwningProp.children;
    var todo := markers;
    while todo != []
      invariant owned + todo == reversalsOwningProp.children + markers
    {
      owned := owned + [todo[0]];
      todo := todo[1..];
    }
    assert owned + todo == owned;
    assert WithAppended(lexDb, ReversalIndexesProp, markers)
        == Some(WithChild(lexDb, k.value, reversalsOwningProp.(children := owned)));
    data.SetHighLevel(LexDbClass, WithChild(lexDb, k.value, reversalsOwningProp.(children := owned)));
    return Ok(());
  }

  /** The key a file contributes when it loads: the lower-cased GUID of the index it holds. */
  ghost function KeyOf(files: map<string, Element>, p: string): Option<string> {
    if p in files && IndexFromDocument(files[p]).Ok? && GuidAttr in IndexFromDocument(files[p]).value.attrs
    then Some(ToLower(IndexFromDocument(files[p]).value.attrs[GuidAttr]))
    else None
  }

  /** The keys of the files of a listing. */
  ghost function LoadedKeys(files: map<string, Element>, listing: seq<string>): set<string> {
    set p | p in listing && KeyOf(files, p).Some? :: KeyOf(files, p).value
  }

  /** The owning markers for a set of GUIDs, in key order. */
  function Markers(keys: set<string>): (r: seq<Element>)
    ensures |r| == |keys|
    ensures forall i :: 0 <= i < |r| ==> r[i] == ObjSur(SortedKeys(keys)[i])
    ensures forall i, j :: 0 <= i < j < |r| ==>
      GuidAttr in r[i].attrs && GuidAttr in r[j].attrs && Before(r[i].attrs[GuidAttr], r[j].attrs[GuidAttr])
  {
    var ks := SortedKeys(keys);
    seq(|ks|, i requires 0 <= i < |ks| => ObjSur(ks[i]))
  }

  /** The index of `doc` sits in `sorted` as a flat record owned by LexDb (its GUID lower-cased). */
  ghost predicate OwnedByLexDb(sorted: map<string, Element>, doc: Element, lexDb: Element) {
    && IndexFromDocument(doc).Ok? && GuidAttr in IndexFromDocument(doc).value.attrs && GuidAttr in lexDb.attrs
    && var guid := IndexFromDocument(doc).value.attrs[GuidAttr];
       && guid in sorted && sorted[guid].name == RtTag && OwnerGuidAttr in sorted[guid].attrs
       && sorted[guid].attrs[OwnerGuidAttr] == ToLower(lexDb.attrs[GuidAttr])
  }

  /** A successful run over a non-empty listing read its first file and then the rest. */
  lemma LoadIndexesStep(paths: seq<string>, files: map<string, Element>, lexDb: Element, props: PropertyTable, acc: Loaded)
    requires paths != [] && LoadIndexes(paths, files, lexDb, props, acc).Ok?
    ensures LoadIndex(paths[0], files, lexDb, props, acc).Ok?
    ensures LoadIndexes(paths, files, lexDb, props, acc)
         == LoadIndexes(paths[1..], files, lexDb, props, LoadIndex(paths[0], files, lexDb, props, acc).value)
  {
  }

  /** Every file read adds one marker: a duplicate GUID would have failed. */
  lemma {:induction false} LoadIndexesCount(paths: seq<string>, files: map<string, Element>, lexDb: Element, props: PropertyTable, acc: Loaded)
    requires LoadIndexes(paths, files, lexDb, props, acc).Ok?
    ensures |LoadIndexes(paths, files, lexDb, props, acc).value.revs| == |acc.revs| + |paths|
    decreases |paths|
  {
    if paths != [] {
      LoadIndexesStep(paths, files, lexDb, props, acc);
      LoadIndexOk(paths[0], files, lexDb, props, acc);
      LoadIndexesCount(paths[1..], files, lexDb, props, LoadIndex(paths[0], files, lexDb, props, acc).value);
    }
  }

  /** The markers collected are the owning markers of the keys of the files read, and nothing else. */
  lemma {:induction false} LoadIndexesMarkers(paths: seq<string>, files: map<string, Element>, lexDb: Element, props: PropertyTable, acc: Loaded)
    requires LoadIndexes(paths, files, lexDb, props, acc).Ok?
    ensures var revs := LoadIndexes(paths, files, lexDb, props, acc).value.revs;
      && (forall k :: k in revs <==> k in acc.revs || k in LoadedKeys(files, paths))
      && (forall k :: k in revs && k !in acc.revs ==> revs[k] == ObjSur(k))
      && (forall k :: k in acc.revs ==> revs[k] == acc.revs[k])
    decreases |paths|
  {
    if paths != [] {
      LoadIndexesStep(paths, files, lexDb, props, acc);
      LoadIndexOk(paths[0], files, lexDb, props, acc);
      LoadIndexesMarkers(paths[1..], files, lexDb, props, LoadIndex(paths[0], files, lexDb, props, acc).value);
      assert KeyOf(files, paths[0]).Some?;
      forall k
        ensures k in LoadedKeys(files, paths) <==> k == KeyOf(files, paths[0]).value || k in LoadedKeys(files, paths[1..])
      {
        if k in LoadedKeys(files, paths) {
          var p :| p in paths && KeyOf(files, p) == Some(k);
          if p != paths[0] {
            assert p in paths[1..];
          }
        }
        if k in LoadedKeys(files, paths[1..]) {
          var p :| p in paths[1..] && KeyOf(files, p) == Some(k);
          assert p in paths;
        }
      }
    }
  }

  /** Every file read leaves its index in sortedData, flattened with LexDb as owner. */
  lemma {:induction false} LoadIndexesOwners(paths: seq<string>, files: map<string, Element>, lexDb: Element, props: PropertyTable, acc: Loaded)
    requires LoadIndexes(paths, files, lexDb, props, acc).Ok?
    ensures var sorted := LoadIndexes(paths, files, lexDb, props, acc).value.sorted;
      && Extends(sorted, acc.sorted)
      && forall p :: p in paths ==> p in files && OwnedByLexDb(sorted, files[p], lexDb)
    decreases |paths|
  {
    if paths != [] {
      LoadIndexesStep(paths, files, lexDb, props, acc);
      var acc1 := LoadIndex(paths[0], files, lexDb, props, acc).value;
      LoadIndexOk(paths[0], files, lexDb, props, acc);
      LoadIndexesOwners(paths[1..], files, lexDb, props, acc1);
      assert OwnedByLexDb(acc1.sorted, files[paths[0]], lexDb);
      assert forall p :: p in paths ==> p == paths[0] || p in paths[1..];
    }
  }

  /** Markers keyed by their own GUID, enumerated in key order, are the markers of their keys. */
  lemma MarkersOfRevs(revs: map<string, Element>)
    requires forall k :: k in revs ==> revs[k] == ObjSur(k)
    ensures ValuesInKeyOrder(revs) == Markers(revs.Keys)
  {
    var a := ValuesInKeyOrder(revs);
    var b := Markers(revs.Keys);
    assert forall i :: 0 <= i < |a| ==> a[i] == b[i];
  }

  /**
   * Loading a listing from scratch collects one marker per file, keyed by
   * the file's lower-cased index GUID, and enumerates them as the markers of
   * those keys.
   */
  lemma LoadsEveryKey(listing: seq<string>, files: map<string, Element>, lexDb: Element, props: PropertyTable,
                      sorted: map<string, Element>)
    requires LoadIndexes(listing, files, lexDb, props, Loaded(sorted, map[])).Ok?
    ensures var revs := LoadIndexes(listing, files, lexDb, props, Loaded(sorted, map[])).value.revs;
      && revs.Keys == LoadedKeys(files, listing)
      && |LoadedKeys(files, listing)| == |listing|
      && ValuesInKeyOrder(revs) == Markers(LoadedKeys(files, listing))
  {
    var acc := Loaded(sorted, map[]);
    var revs := LoadIndexes(listing, files, lexDb, props, acc).value.revs;
    LoadIndexesCount(listing, files, lexDb, props, acc);
    LoadIndexesMarkers(listing, files, lexDb, props, acc);
    assert revs.Keys == LoadedKeys(files, listing);
    MarkersOfRevs(revs);
  }

  /** With the directory and LexDb present, FlattenReversals is the refill of what loading the listing gives. */
  lemma FlattenReversalsLoads(base: string, listing: seq<string>, files: map<string, Element>, dirs: set<string>,
                              high: map<string, Element>, sorted: map<string, Element>, props: PropertyTable)
    requires ReversalDir(base) in dirs
    requires FlattenReversals(base, listing, files, dirs, high, sorted, props).Ok?
    ensures LexDbClass in high
    ensures var l := LoadIndexes(listing, files, high[LexDbClass], props, Loaded(sorted, map[]));
      && l.Ok?
      && FlattenReversals(base, listing, files, dirs, high, sorted, props) == Refill(l, high)
  {
  }

  /**
   * After loading a non-empty listing, LexDb's ReversalIndexes holds, after
   * what it held, one owning marker per file, for the lower-cased GUID of the
   * index the file holds, in case-insensitive GUID order; nothing else of
   * highLevelData changes.
   */
  lemma ReversalIndexesRefilled(base: string, listing: seq<string>, files: map<string, Element>, dirs: set<string>,
                                high: map<string, Element>, sorted: map<string, Element>, props: PropertyTable)
    requires ReversalDir(base) in dirs && listing != []
    requires FlattenReversals(base, listing, files, dirs, high, sorted, props).Ok?
    ensures LexDbClass in high && Child(high[LexDbClass], ReversalIndexesProp).Some?
    ensures |LoadedKeys(files, listing)| == |listing|
    ensures FlattenReversals(base, listing, files, dirs, high, sorted, props).value.highLevelData
         == high[LexDbClass := WithAppended(high[LexDbClass], ReversalIndexesProp, Markers(LoadedKeys(files, listing))).value]
  {
    FlattenReversalsLoads(base, listing, files, dirs, high, sorted, props);
    LoadsEveryKey(listing, files, high[LexDbClass], props, sorted);
    var l := LoadIndexes(listing, files, high[LexDbClass], props, Loaded(sorted, map[]));
    assert |l.value.revs| > 0 by {
      assert |l.value.revs.Keys| == |listing|;
    }
    RefillAppends(l, high, Markers(LoadedKeys(files, listing)));
  }

  /** A refill after markers were collected appends them to LexDb's ReversalIndexes. */
  lemma RefillAppends(l: Result<Loaded, ServiceError>, high: map<string, Element>, ms: seq<Element>)
    requires LexDbClass in high && l.Ok? && |l.value.revs| > 0 && ValuesInKeyOrder(l.value.revs) == ms
    requires Refill(l, high).Ok?
    ensures Child(high[LexDbClass], ReversalIndexesProp).Some?
    ensures WithAppended(high[LexDbClass], ReversalIndexesProp, ms).Some?
    ensures Refill(l, high).value.highLevelData == high[LexDbClass := WithAppended(high[LexDbClass], ReversalIndexesProp, ms).value]
  {
  }

  lemma SameFilesSameKeys(files: map<string, Element>, l1: seq<string>, l2: seq<string>)
    requires forall p :: p in l1 <==> p in l2
    ensures LoadedKeys(files, l1) == LoadedKeys(files, l2)
  {
  }

  /**
   * The order Directory.GetFiles lists the files in does not matter: two
   * listings of the same files that both load leave the same highLevelData.
   */
  lemma ListingOrderIrrelevant(base: string, l1: seq<string>, l2: seq<string>, files: map<string, Element>, dirs: set<string>,
                               high: map<string, Element>, sorted: map<string, Element>, props: PropertyTable)
    requires forall p :: p in l1 <==> p in l2
    requires FlattenReversals(base, l1, files, dirs, high, sorted, props).Ok?
    requires FlattenReversals(base, l2, files, dirs, high, sorted, props).Ok?
    ensures FlattenReversals(base, l1, files, dirs, high, sorted, props).value.highLevelData
         == FlattenReversals(base, l2, files, dirs, high, sorted, props).value.highLevelData
  {
    assert l1 == [] <==> l2 == [] by {
      if l1 != [] { assert l1[0] in l2; }
      if l2 != [] { assert l2[0] in l1; }
    }
    if ReversalDir(base) in dirs && l1 != [] {
      SameFilesSameKeys(files, l1, l2);
      ReversalIndexesRefilled(base, l1, files, dirs, high, sorted, props);
      ReversalIndexesRefilled(base, l2, files, dirs, high, sorted, props);
    }
  }

  /** Every listed file's index ends up in sortedData, flattened with the lower-cased LexDb GUID as owner. */
  lemma IndexesOwnedByLexDb(base: string, listing: seq<string>, files: map<string, Element>, dirs: set<string>,
                            high: map<string, Element>, sorted: map<string, Element>, props: PropertyTable)
    requires ReversalDir(base) in dirs
    requires FlattenReversals(base, listing, files, dirs, high, sorted, props).Ok?
    ensures LexDbClass in high
    ensures var r := FlattenReversals(base, listing, files, dirs, high, sorted, props).value;
      && Extends(r.sortedData, sorted)
      && forall p :: p in listing ==> p in files && OwnedByLexDb(r.sortedData, files[p], high[LexDbClass])
  {
    FlattenReversalsLoads(base, listing, files, dirs, high, sorted, props);
    LoadIndexesOwners(listing, files, high[LexDbClass], props, Loaded(sorted, map[]));
  }

  // ---------------------------------------------------------------------------
  // RemoveBoundedContextData
  // ---------------------------------------------------------------------------

  /**
   * RemoveBoundedContextData(linguisticsBaseDir), lines 123-134: every
   * `*.reversal` file directly in the Reversals directory is deleted; other
   * files stay as they were, and nothing happens without the directory.
   */
  function RemovedReversals(base: string, dirs: set<string>, files: map<string, Element>): (r: map<string, Element>)
    ensures forall p :: p in r <==>
      p in files && !(ReversalDir(base) in dirs && InDirectory(p, ReversalDir(base), ReversalExtension))
    ensures forall p :: p in r ==> r[p] == files[p]
  {
    if ReversalDir(base) !in dirs then files
    else files - MatchingFiles(files, ReversalDir(base), ReversalExtension)
  }

  /** The procedure: it deletes the files Directory.GetFiles lists, one by one. */
  method RemoveBoundedContextData(base: string, fs: FileSystem, listing: seq<string>)
    requires ReversalDir(base) in fs.directories ==>
      IsListing(listing, MatchingFiles(fs.files, ReversalDir(base), ReversalExtension))
    modifies fs
    ensures fs.files == RemovedReversals(base, old(fs.directories), old(fs.files))
    ensures fs.directories == old(fs.directories)
  {
    var reversalDir := ReversalDir(base);
    if reversalDir !in fs.directories {
      return;
    }
    var i := 0;
    while i < |listing|
      invariant 0 <= i <= |listing|
      invariant fs.directories == old(fs.directories)
      invariant forall p :: p in fs.files <==> p in old(fs.files) && p !in listing[..i]
      invariant forall p :: p in fs.files ==> fs.files[p] == old(fs.files)[p]
    {
      fs.Delete(listing[i]);
      assert listing[..i + 1] == listing[..i] + [listing[i]];
      i := i + 1;
    }
    assert listing[..i] == listing;
  }

  /** A listing of no file is empty. */
  lemma ListingOfNothing(listing: seq<string>, s: set<string>)
    requires IsListing(listing, s)
    ensures s == {} ==> listing == []
  {
    if listing != [] {
      assert listing[0] in s;
    }
  }

  /**
   * Loading right after removing finds no `*.reversal` file, so it leaves
   * highLevelData and sortedData as they were: ReversalIndexes keeps what
   * it holds.
   */
  lemma RemoveThenLoadChangesNothing(base: string, dirs: set<string>, files: map<string, Element>, listing: seq<string>,
                                     high: map<string, Element>, sorted: map<string, Element>, props: PropertyTable)
    requires LexDbClass in high
    requires ReversalDir(base) in dirs ==>
      IsListing(listing, MatchingFiles(RemovedReversals(base, dirs, files), ReversalDir(base), ReversalExtension))
    ensures FlattenReversals(base, listing, RemovedReversals(base, dirs, files), dirs, high, sorted, props)
         == Ok(Restored(high, sorted))
  {
    if ReversalDir(base) in dirs {
      var left := MatchingFiles(RemovedReversals(base, dirs, files), ReversalDir(base), ReversalExtension);
      assert left == {};
      ListingOfNothing(listing, left);
    }
  }
}
