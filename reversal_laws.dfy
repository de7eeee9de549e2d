/**
 * What the Reversal bounded context's save writes and takes out of the
 * registry, and its round trip with the load: every ReversalIndex record
 * goes, with everything it owns, into the file of its writing system as its
 * nested form, and reading those files back restores each of those records
 * into sortedData and one owning marker per index into LexDb's
 * ReversalIndexes.
 */
module ReversalLaws {
  import opened Wrappers
  import opened Xml
  import opened KeyOrder
  import opened Nesting
  import opened NestingLaws
  import opened Flattening
  import opened RoundTrip
  import opened Storage
  import opened Reversals

  /** The context SaveIndex nests an index in: every level, nothing excluded. */
  function IndexContext(props: PropertyTable): Context {
    Context(props, map[], false)
  }

  /** The nested form of `index` against `reg`, when it has one (it has at most one). */
  ghost function NestedIndex(index: Element, props: PropertyTable, reg: Store): (r: Option<Element>)
    ensures r.Some? ==> NestedForm(r.value, index, Root, true, IndexContext(props), reg)
  {
    if exists n :: NestedForm(n, index, Root, true, IndexContext(props), reg) then
      var n :| NestedForm(n, index, Root, true, IndexContext(props), reg);
      Some(n)
    else None
  }

  /** The GUIDs of the records nested into `index` below it (empty when it has no nested form). */
  ghost function Inlined(index: Element, props: PropertyTable, reg: Store): set<string> {
    match NestedIndex(index, props, reg)
    case None => {}
    case Some(n) =>
      match InlinedGuids(n, index, true, IndexContext(props), reg)
      case None => {}
      case Some(gs) => gs
  }

  /** The GUIDs saving `index` takes out of the registry: its own and those nested into it. */
  ghost function IndexGuids(index: Element, props: PropertyTable, reg: Store): set<string> {
    (if GuidAttr in index.attrs then {index.attrs[GuidAttr]} else {}) + Inlined(index, props, reg)
  }

  /** What a successful SaveIndex establishes about its index. */
  ghost predicate SavedAs(index: Element, props: PropertyTable, reg: Store) {
    && WritingSystemOf(index).Ok?
    && GuidAttr in index.attrs
    && NestedIndex(index, props, reg).Some?
    && InlinedGuids(NestedIndex(index, props, reg).value, index, true, IndexContext(props), reg).Some?
    && index.attrs[GuidAttr] !in Inlined(index, props, reg)
  }

  /** `after` is `before` without the records of `gone`; every other record stays as it was. */
  ghost predicate Without(after: Store, before: Store, gone: set<string>) {
    && SubStore(after, before)
    && forall g :: Lookup(after, g).Some? <==> Lookup(before, g).Some? && g !in gone
  }

  lemma WithoutChain(a: Store, b: Store, c: Store, first: set<string>, second: set<string>)
    requires Without(b, a, first) && Without(c, b, second)
    ensures Without(c, a, first + second)
  {
    SubStoreTransitive(c, b, a);
  }

  /** The file an index is written to. */
  function IndexFile(dir: string, index: Element): string
    requires WritingSystemOf(index).Ok?
  {
    ReversalPath(dir, WritingSystemOf(index).value)
  }

  /** Different writing systems name different files. */
  lemma ReversalPathInjective(dir: string, a: string, b: string)
    requires ReversalPath(dir, a) == ReversalPath(dir, b)
    ensures a == b
  {
    var p := ReversalPath(dir, a);
    assert |a| == |b|;
    assert a == p[|dir| + 1..|dir| + 1 + |a|];
    assert b == p[|dir| + 1..|dir| + 1 + |b|];
  }

  // ---------------------------------------------------------------------------
  // One index
  // ---------------------------------------------------------------------------

  /** The nested form of an index that nests is its NestedIndex against any registry holding the one nested from. */
  lemma NestIndexForm(index: Element, props: PropertyTable, st: Store, reg: Store)
    requires SubStore(st, reg)
    requires Nest(false, index, map[], props, st).Ok?
    ensures NestedIndex(index, props, reg) == Some(Nest(false, index, map[], props, st).value.value)
  {
    var n := Nest(false, index, map[], props, st).value.value;
    var ctx := IndexContext(props);
    NestForm(false, index, map[], props, st, reg);
    assert NestedForm(n, index, Root, true, ctx, reg);
    var r := NestedIndex(index, props, reg);
    assert r.Some?;
    NestedFormUnique(n, r.value, index, Root, true, ctx, reg);
  }

  /** Nesting an index takes it and exactly what is nested into it out of the registry. */
  lemma NestIndexTakes(index: Element, props: PropertyTable, st: Store, reg: Store)
    requires SubStore(st, reg)
    requires Nest(false, index, map[], props, st).Ok?
    ensures GuidAttr in index.attrs && NestedIndex(index, props, reg).Some?
    ensures InlinedGuids(NestedIndex(index, props, reg).value, index, true, IndexContext(props), reg).Some?
    ensures index.attrs[GuidAttr] !in Inlined(index, props, reg)
    ensures forall g :: g in Inlined(index, props, reg) ==> Lookup(st, g).Some?
    ensures Without(Nest(false, index, map[], props, st).value.store, st, IndexGuids(index, props, reg))
  {
    var r := Nest(false, index, map[], props, st).value;
    assert NestedIndex(index, props, reg) == Some(r.value) by {
      NestIndexForm(index, props, st, reg);
    }
    NestTakes(false, index, map[], props, st, reg);
    var gone := InlinedGuids(r.value, index, true, IndexContext(props), reg).value;
    assert Inlined(index, props, reg) == gone;
  }

  /**
   * Saving one index writes its nested form, as a Reversal document, to the
   * file of its writing system, and takes the index and every record nested
   * into it out of the registry; nothing else changes.
   */
  lemma SaveIndexContents(dir: string, index: Element, props: PropertyTable, w: SaveState, reg: Store)
    requires SubStore(w.store, reg)
    requires SaveIndex(dir, index, props, w).Ok?
    ensures SavedAs(index, props, reg)
    ensures forall g :: g in Inlined(index, props, reg) ==> Lookup(w.store, g).Some?
    ensures var w1 := SaveIndex(dir, index, props, w).value;
      && Without(w1.store, w.store, IndexGuids(index, props, reg))
      && w1.files == w.files[IndexFile(dir, index) := ReversalDocument(NestedIndex(index, props, reg).value)]
  {
    NestIndexTakes(index, props, w.store, reg);
    NestIndexForm(index, props, w.store, reg);
  }

  // ---------------------------------------------------------------------------
  // The loop over the indexes
  // ---------------------------------------------------------------------------

  /** The GUIDs a run over `indexes` takes out of the registry. */
  ghost function SavedGuids(indexes: seq<Element>, props: PropertyTable, reg: Store): set<string>
    decreases |indexes|
  {
    if indexes == [] then {} else IndexGuids(indexes[0], props, reg) + SavedGuids(indexes[1..], props, reg)
  }

  lemma {:induction false} SavedGuidsMember(indexes: seq<Element>, props: PropertyTable, reg: Store, g: string)
    ensures g in SavedGuids(indexes, props, reg) <==>
      exists i :: 0 <= i < |indexes| && g in IndexGuids(indexes[i], props, reg)
    decreases |indexes|
  {
    if indexes != [] {
      SavedGuidsMember(indexes[1..], props, reg, g);
      if exists i :: 0 <= i < |indexes[1..]| && g in IndexGuids(indexes[1..][i], props, reg) {
        var i :| 0 <= i < |indexes[1..]| && g in IndexGuids(indexes[1..][i], props, reg);
        assert indexes[i + 1] == indexes[1..][i];
      }
      if exists i :: 0 <= i < |indexes| && g in IndexGuids(indexes[i], props, reg) {
        var i :| 0 <= i < |indexes| && g in IndexGuids(indexes[i], props, reg);
        if i > 0 {
          assert indexes[i] == indexes[1..][i - 1];
        }
      }
    }
  }

  /** A successful run takes out of the registry exactly the indexes and what is nested into them. */
  lemma {:induction false} SaveIndexesTakes(dir: string, indexes: seq<Element>, props: PropertyTable, w: SaveState, reg: Store)
    requires SubStore(w.store, reg)
    requires SaveIndexes(dir, indexes, props, w).Ok?
    ensures Without(SaveIndexes(dir, indexes, props, w).value.store, w.store, SavedGuids(indexes, props, reg))
    decreases |indexes|
  {
    if indexes != [] {
      SaveIndexesStep(dir, indexes, props, w);
      var w1 := SaveIndex(dir, indexes[0], props, w).value;
      SaveIndexContents(dir, indexes[0], props, w, reg);
      SubStoreTransitive(w1.store, w.store, reg);
      SaveIndexesTakes(dir, indexes[1..], props, w1, reg);
      WithoutChain(w.store, w1.store, SaveIndexes(dir, indexes[1..], props, w1).value.store,
                   IndexGuids(indexes[0], props, reg), SavedGuids(indexes[1..], props, reg));
    }
  }

  /** A successful run nested every index, each with a writing system and a GUID not nested into itself. */
  lemma {:induction false} SaveIndexesSavedAs(dir: string, indexes: seq<Element>, props: PropertyTable, w: SaveState, reg: Store)
    requires SubStore(w.store, reg)
    requires SaveIndexes(dir, indexes, props, w).Ok?
    ensures forall i :: 0 <= i < |indexes| ==> SavedAs(indexes[i], props, reg)
    decreases |indexes|
  {
    if indexes != [] {
      SaveIndexesStep(dir, indexes, props, w);
      var w1 := SaveIndex(dir, indexes[0], props, w).value;
      assert SavedAs(indexes[0], props, reg) && SubStore(w1.store, reg) by {
        SaveIndexContents(dir, indexes[0], props, w, reg);
        SubStoreTransitive(w1.store, w.store, reg);
      }
      var rest := indexes[1..];
      SaveIndexesSavedAs(dir, rest, props, w1, reg);
      forall i | 0 <= i < |indexes|
        ensures SavedAs(indexes[i], props, reg)
      {
        if i > 0 { assert indexes[i] == rest[i - 1]; }
      }
    }
  }

  /**
   * What is nested into an index was still registered when its turn came,
   * so it is none of the records an earlier index took.
   */
  lemma {:induction false} SaveIndexesApart(dir: string, indexes: seq<Element>, props: PropertyTable, w: SaveState, reg: Store)
    requires SubStore(w.store, reg)
    requires SaveIndexes(dir, indexes, props, w).Ok?
    ensures forall i, g :: 0 <= i < |indexes| && g in Inlined(indexes[i], props, reg) ==> Lookup(w.store, g).Some?
    ensures forall i, j :: 0 <= j < i < |indexes| ==> Inlined(indexes[i], props, reg) !! IndexGuids(indexes[j], props, reg)
    decreases |indexes|
  {
    if indexes != [] {
      SaveIndexesStep(dir, indexes, props, w);
      var w1 := SaveIndex(dir, indexes[0], props, w).value;
      assert && (forall g :: g in Inlined(indexes[0], props, reg) ==> Lookup(w.store, g).Some?)
             && Without(w1.store, w.store, IndexGuids(indexes[0], props, reg))
             && SubStore(w1.store, reg) by {
        SaveIndexContents(dir, indexes[0], props, w, reg);
        SubStoreTransitive(w1.store, w.store, reg);
      }
      var rest := indexes[1..];
      SaveIndexesApart(dir, rest, props, w1, reg);
      forall i, g | 0 <= i < |indexes| && g in Inlined(indexes[i], props, reg)
        ensures Lookup(w.store, g).Some?
      {
        if i > 0 { assert indexes[i] == rest[i - 1]; }
      }
      forall i, j | 0 <= j < i < |indexes|
        ensures Inlined(indexes[i], props, reg) !! IndexGuids(indexes[j], props, reg)
      {
        assert indexes[i] == rest[i - 1];
        if j > 0 {
          assert indexes[j] == rest[j - 1];
        } else {
          forall g | g in Inlined(indexes[i], props, reg)
            ensures g !in IndexGuids(indexes[0], props, reg)
          {
            assert Lookup(w1.store, g).Some?;
          }
        }
      }
    }
  }

  /** No later index of the run has the writing system of index `i`. */
  predicate LastOfItsFile(indexes: seq<Element>, i: int)
    requires 0 <= i < |indexes|
  {
    forall j :: i < j < |indexes| ==> WritingSystemOf(indexes[j]) != WritingSystemOf(indexes[i])
  }

  lemma LastOfItsFileTail(indexes: seq<Element>, i: int)
    requires 0 < i < |indexes| && LastOfItsFile(indexes, i)
    ensures indexes[i] == indexes[1..][i - 1] && LastOfItsFile(indexes[1..], i - 1)
  {
    var rest := indexes[1..];
    forall j | i - 1 < j < |rest|
      ensures WritingSystemOf(rest[j]) != WritingSystemOf(rest[i - 1])
    {
      assert rest[j] == indexes[j + 1];
    }
  }

  /** The file of the first index is not written again when no later index shares its writing system. */
  lemma FirstNotRewritten(dir: string, indexes: seq<Element>)
    requires indexes != [] && WritingSystemOf(indexes[0]).Ok? && LastOfItsFile(indexes, 0)
    ensures IndexFile(dir, indexes[0]) !in IndexFiles(dir, indexes[1..])
  {
    var rest := indexes[1..];
    var p0 := IndexFile(dir, indexes[0]);
    IndexFilesMember(dir, rest, p0);
    if p0 in IndexFiles(dir, rest) {
      var j :| 0 <= j < |rest| && WritingSystemOf(rest[j]).Ok? && p0 == ReversalPath(dir, WritingSystemOf(rest[j]).value);
      assert rest[j] == indexes[j + 1];
      ReversalPathInjective(dir, WritingSystemOf(indexes[0]).value, WritingSystemOf(rest[j]).value);
      assert false;
    }
  }

  /** A successful run leaves the files of no index as they were. */
  lemma {:induction false} SaveIndexesKeepsOtherFiles(dir: string, indexes: seq<Element>, props: PropertyTable, w: SaveState)
    requires SaveIndexes(dir, indexes, props, w).Ok?
    ensures var r := SaveIndexes(dir, indexes, props, w).value;
      forall p :: p in w.files && p !in IndexFiles(dir, indexes) ==> p in r.files && r.files[p] == w.files[p]
    decreases |indexes|
  {
    if indexes != [] {
      SaveIndexesStep(dir, indexes, props, w);
      SaveIndexesKeepsOtherFiles(dir, indexes[1..], props, SaveIndex(dir, indexes[0], props, w).value);
    }
  }

  /** What holds of the files of the indexes after the first, read off the run over the rest. */
  lemma FileContentsTail(dir: string, indexes: seq<Element>, props: PropertyTable, reg: Store, files: map<string, Element>)
    requires indexes != []
    requires var rest := indexes[1..];
      forall i :: 0 <= i < |rest| && LastOfItsFile(rest, i) ==>
        && WritingSystemOf(rest[i]).Ok? && NestedIndex(rest[i], props, reg).Some?
        && IndexFile(dir, rest[i]) in files
        && files[IndexFile(dir, rest[i])] == ReversalDocument(NestedIndex(rest[i], props, reg).value)
    ensures forall i :: 0 < i < |indexes| && LastOfItsFile(indexes, i) ==>
      && WritingSystemOf(indexes[i]).Ok? && NestedIndex(indexes[i], props, reg).Some?
      && IndexFile(dir, indexes[i]) in files
      && files[IndexFile(dir, indexes[i])] == ReversalDocument(NestedIndex(indexes[i], props, reg).value)
  {
    forall i | 0 < i < |indexes| && LastOfItsFile(indexes, i)
      ensures WritingSystemOf(indexes[i]).Ok? && NestedIndex(indexes[i], props, reg).Some?
      ensures IndexFile(dir, indexes[i]) in files
      ensures files[IndexFile(dir, indexes[i])] == ReversalDocument(NestedIndex(indexes[i], props, reg).value)
    {
      LastOfItsFileTail(indexes, i);
    }
  }

  /**
   * After a successful run, the file of each index whose writing system no
   * later index shares holds the Reversal document of its nested form.
   */
  lemma {:induction false} SaveIndexesFileContents(dir: string, indexes: seq<Element>, props: PropertyTable, w: SaveState,
                                                   reg: Store)
    requires SubStore(w.store, reg)
    requires SaveIndexes(dir, indexes, props, w).Ok?
    ensures var r := SaveIndexes(dir, indexes, props, w).value;
      forall i :: 0 <= i < |indexes| && LastOfItsFile(indexes, i) ==>
        && WritingSystemOf(indexes[i]).Ok? && NestedIndex(indexes[i], props, reg).Some?
        && IndexFile(dir, indexes[i]) in r.files
        && r.files[IndexFile(dir, indexes[i])] == ReversalDocument(NestedIndex(indexes[i], props, reg).value)
    decreases |indexes|
  {
    if indexes != [] {
      SaveIndexesStep(dir, indexes, props, w);
      var w1 := SaveIndex(dir, indexes[0], props, w).value;
      assert && SavedAs(indexes[0], props, reg)
             && w1.files == w.files[IndexFile(dir, indexes[0]) := ReversalDocument(NestedIndex(indexes[0], props, reg).value)]
             && SubStore(w1.store, reg) by {
        SaveIndexContents(dir, indexes[0], props, w, reg);
        SubStoreTransitive(w1.store, w.store, reg);
      }
      var rest := indexes[1..];
      SaveIndexesFileContents(dir, rest, props, w1, reg);
      var r := SaveIndexes(dir, rest, props, w1).value;
      assert LastOfItsFile(indexes, 0) ==>
          && IndexFile(dir, indexes[0]) in r.files
          && r.files[IndexFile(dir, indexes[0])] == ReversalDocument(NestedIndex(indexes[0], props, reg).value) by {
        if LastOfItsFile(indexes, 0) {
          FirstNotRewritten(dir, indexes);
          SaveIndexesKeepsOtherFiles(dir, rest, props, w1);
        }
      }
      FileContentsTail(dir, indexes, props, reg, r.files);
    }
  }

  // ---------------------------------------------------------------------------
  // The whole save
  // ---------------------------------------------------------------------------

  /** Emptying ReversalIndexes registers the same GUIDs and changes only the attributes-preserving LexDb record. */
  lemma EmptiedLookup(st: Store, lexKey: string)
    requires LexDbClass in st.classData && lexKey in st.classData[LexDbClass]
    requires EmptyReversalIndexes(st, lexKey).Some?
    ensures var st1 := EmptyReversalIndexes(st, lexKey).value;
      && (forall g :: Lookup(st1, g).Some? <==> Lookup(st, g).Some?)
      && (forall g :: g != lexKey ==> Lookup(st1, g) == Lookup(st, g))
      && (forall g :: g in st.guidToClass && st.guidToClass[g] != LexDbClass ==> Lookup(st1, g) == Lookup(st, g))
      && (forall g :: Lookup(st, g).Some? ==>
            Lookup(st1, g).value.name == Lookup(st, g).value.name && Lookup(st1, g).value.attrs == Lookup(st, g).value.attrs)
  {
  }

  /** No two indexes of the bucket share a writing system. */
  predicate DistinctWritingSystems(bucket: map<string, Element>) {
    forall k1, k2 :: k1 in bucket && k2 in bucket && k1 != k2 ==> WritingSystemOf(bucket[k1]) != WritingSystemOf(bucket[k2])
  }

  /** Indexes of a bucket with distinct writing systems that share a writing system are one index. */
  lemma SameFileSameIndex(bucket: map<string, Element>, k1: string, k2: string)
    requires DistinctWritingSystems(bucket) && k1 in bucket && k2 in bucket
    requires WritingSystemOf(bucket[k1]) == WritingSystemOf(bucket[k2])
    ensures k1 == k2
  {
  }

  /** Where the index filed under `k` stands in the walk over the bucket. */
  lemma InOrderPosition(bucket: map<string, Element>, k: string) returns (i: int)
    requires k in bucket
    ensures 0 <= i < |ValuesInKeyOrder(bucket)| && ValuesInKeyOrder(bucket)[i] == bucket[k]
    ensures SortedKeys(bucket.Keys)[i] == k
    ensures DistinctWritingSystems(bucket) ==> LastOfItsFile(ValuesInKeyOrder(bucket), i)
  {
    var keys := SortedKeys(bucket.Keys);
    var indexes := ValuesInKeyOrder(bucket);
    i :| 0 <= i < |keys| && keys[i] == k;
    if DistinctWritingSystems(bucket) {
      forall j | i < j < |indexes|
        ensures WritingSystemOf(indexes[j]) != WritingSystemOf(indexes[i])
      {
        BeforeIrreflexive(keys[i]);
        assert keys[i] != keys[j];
      }
    }
  }

  /**
   * Saving writes one file per ReversalIndex of the registry, named after
   * its writing system, creates the Reversals directory and leaves every
   * other file as it was. When no two indexes share a writing system, the
   * file of each index holds the Reversal document of its nested form: the
   * index with everything it owns, nested out of the registry as line 49
   * leaves it.
   */
  lemma SaveWritesOneFilePerIndex(base: string, props: PropertyTable, st: Store, dirs: set<string>,
                                  files: map<string, Element>)
    requires LexDbClass in st.classData && |st.classData[LexDbClass]| > 0
    requires ReversalIndexClass in st.classData && |st.classData[ReversalIndexClass]| > 0
    requires NestReversals(base, props, st, dirs, files).Ok?
    ensures var r := NestReversals(base, props, st, dirs, files).value;
      var bucket := st.classData[ReversalIndexClass];
      && r.files.Keys == files.Keys + BucketFiles(ReversalDir(base), bucket)
      && r.directories == dirs + {ReversalDir(base)}
      && (forall p :: p in files && p !in BucketFiles(ReversalDir(base), bucket) ==> r.files[p] == files[p])
    ensures var r := NestReversals(base, props, st, dirs, files).value;
      var bucket := st.classData[ReversalIndexClass];
      var st1 := EmptyReversalIndexes(st, LexDbKey(st)).value;
      DistinctWritingSystems(bucket) ==>
        forall k :: k in bucket ==>
          && WritingSystemOf(bucket[k]).Ok? && NestedIndex(bucket[k], props, st1).Some?
          && r.files[IndexFile(ReversalDir(base), bucket[k])] == ReversalDocument(NestedIndex(bucket[k], props, st1).value)
  {
    var bucket := st.classData[ReversalIndexClass];
    var dir := ReversalDir(base);
    var indexes := ValuesInKeyOrder(bucket);
    NestReversalsRun(base, props, st, dirs, files);
    var st1 := EmptyReversalIndexes(st, LexDbKey(st)).value;
    var w := SaveState(st1, files);
    SaveIndexesFiles(dir, indexes, props, w);
    InOrderFiles(dir, bucket);
    SaveIndexesKeepsOtherFiles(dir, indexes, props, w);
    SaveIndexesFileContents(dir, indexes, props, w, st1);
    if DistinctWritingSystems(bucket) {
      forall k | k in bucket
        ensures WritingSystemOf(bucket[k]).Ok? && NestedIndex(bucket[k], props, st1).Some?
        ensures NestReversals(base, props, st, dirs, files).value.files[IndexFile(dir, bucket[k])]
             == ReversalDocument(NestedIndex(bucket[k], props, st1).value)
      {
        var i := InOrderPosition(bucket, k);
      }
    }
  }

  /** The GUIDs a walk over the bucket takes out are those of its indexes. */
  lemma InOrderGuids(bucket: map<string, Element>, props: PropertyTable, reg: Store, g: string)
    ensures g in SavedGuids(ValuesInKeyOrder(bucket), props, reg) <==>
      exists k :: k in bucket && g in IndexGuids(bucket[k], props, reg)
  {
    var indexes := ValuesInKeyOrder(bucket);
    var keys := SortedKeys(bucket.Keys);
    SavedGuidsMember(indexes, props, reg, g);
    if exists k :: k in bucket && g in IndexGuids(bucket[k], props, reg) {
      var k :| k in bucket && g in IndexGuids(bucket[k], props, reg);
      var i := InOrderPosition(bucket, k);
    }
    if exists i :: 0 <= i < |indexes| && g in IndexGuids(indexes[i], props, reg) {
      var i :| 0 <= i < |indexes| && g in IndexGuids(indexes[i], props, reg);
      assert keys[i] in bucket && indexes[i] == bucket[keys[i]];
    }
  }

  /** Taking the indexes in key order takes the same records as taking each index of the bucket. */
  lemma TakenInKeyOrder(st: Store, st1: Store, after: Store, bucket: map<string, Element>, props: PropertyTable)
    requires forall g :: Lookup(st1, g).Some? <==> Lookup(st, g).Some?
    requires Without(after, st1, SavedGuids(ValuesInKeyOrder(bucket), props, st1))
    ensures forall g :: Lookup(after, g).Some? <==>
      Lookup(st, g).Some? && forall k :: k in bucket ==> g !in IndexGuids(bucket[k], props, st1)
  {
    forall g
      ensures Lookup(after, g).Some? <==>
        Lookup(st, g).Some? && forall k :: k in bucket ==> g !in IndexGuids(bucket[k], props, st1)
    {
      InOrderGuids(bucket, props, st1, g);
    }
  }

  /**
   * After saving, the LexDb record the service picked has an empty
   * ReversalIndexes property (if it is still registered); the registry has
   * lost exactly every ReversalIndex record and every record nested into
   * one; every record left is the one that was there.
   */
  lemma SaveEmptiesReversalIndexes(base: string, props: PropertyTable, st: Store, dirs: set<string>,
                                   files: map<string, Element>)
    requires LexDbClass in st.classData && |st.classData[LexDbClass]| > 0
    requires ReversalIndexClass in st.classData && |st.classData[ReversalIndexClass]| > 0
    requires NestReversals(base, props, st, dirs, files).Ok?
    ensures var r := NestReversals(base, props, st, dirs, files).value;
      var lexKey := LexDbKey(st);
      && Child(st.classData[LexDbClass][lexKey], ReversalIndexesProp).Some?
      && (LexDbClass in r.store.classData && lexKey in r.store.classData[LexDbClass] ==>
            Child(r.store.classData[LexDbClass][lexKey], ReversalIndexesProp).Some? &&
            Child(r.store.classData[LexDbClass][lexKey], ReversalIndexesProp).value.children == [])
      && (forall c, k :: c in r.store.classData && k in r.store.classData[c] && (c, k) != (LexDbClass, lexKey) ==>
            c in st.classData && k in st.classData[c] && r.store.classData[c][k] == st.classData[c][k])
    ensures var r := NestReversals(base, props, st, dirs, files).value;
      var bucket := st.classData[ReversalIndexClass];
      var st1 := EmptyReversalIndexes(st, LexDbKey(st)).value;
      forall g :: Lookup(r.store, g).Some? <==>
        Lookup(st, g).Some? && forall k :: k in bucket ==> g !in IndexGuids(bucket[k], props, st1)
  {
    var bucket := st.classData[ReversalIndexClass];
    var indexes := ValuesInKeyOrder(bucket);
    NestReversalsRun(base, props, st, dirs, files);
    var st1 := EmptyReversalIndexes(st, LexDbKey(st)).value;
    var run := SaveIndexes(ReversalDir(base), indexes, props, SaveState(st1, files));
    assert Without(run.value.store, st1, SavedGuids(indexes, props, st1)) by {
      SaveIndexesTakes(ReversalDir(base), indexes, props, SaveState(st1, files), st1);
    }
    EmptiedStaysEmpty(st, LexDbKey(st), run.value.store);
    assert forall g :: Lookup(st1, g).Some? <==> Lookup(st, g).Some? by {
      EmptiedLookup(st, LexDbKey(st));
    }
    TakenInKeyOrder(st, st1, run.value.store, bucket, props);
  }

  // ---------------------------------------------------------------------------
  // Reading saved files back
  // ---------------------------------------------------------------------------

  /**
   * `doc` holds the nested form of the flat record `reg` files under the
   * GUID of the index the document holds, a record owned by `owner`.
   */
  ghost predicate SavedIndexFile(doc: Element, owner: string, props: PropertyTable, reg: Store) {
    && IndexFromDocument(doc).Ok?
    && var n := IndexFromDocument(doc).value;
       && GuidAttr in n.attrs && Lookup(reg, n.attrs[GuidAttr]).Some?
       && var rec := Lookup(reg, n.attrs[GuidAttr]).value;
          && NestedForm(n, rec, Root, true, IndexContext(props), reg)
          && FlatRecord(rec, props, reg) && rec.attrs[OwnerGuidAttr] == owner
          && InlinedGuids(n, rec, true, IndexContext(props), reg).Some?
          && n.attrs[GuidAttr] !in InlinedGuids(n, rec, true, IndexContext(props), reg).value
  }

  /** The GUIDs loading a saved file puts into sortedData: its index's and those nested into it. */
  ghost function FileGuids(doc: Element, props: PropertyTable, reg: Store): set<string> {
    if IndexFromDocument(doc).Ok? && GuidAttr in IndexFromDocument(doc).value.attrs
       && Lookup(reg, IndexFromDocument(doc).value.attrs[GuidAttr]).Some?
    then
      var n := IndexFromDocument(doc).value;
      var rec := Lookup(reg, n.attrs[GuidAttr]).value;
      match InlinedGuids(n, rec, true, IndexContext(props), reg)
      case None => {}
      case Some(gs) => {n.attrs[GuidAttr]} + gs
    else {}
  }

  /** The GUIDs of the files of a listing; None when two files would put back the same record. */
  ghost function ListedGuids(paths: seq<string>, files: map<string, Element>, props: PropertyTable, reg: Store)
    : Option<set<string>>
    decreases |paths|
  {
    if paths == [] then Some({})
    else Join(Some(PathGuids(paths[0], files, props, reg)), ListedGuids(paths[1..], files, props, reg))
  }

  ghost function PathGuids(p: string, files: map<string, Element>, props: PropertyTable, reg: Store): set<string> {
    if p in files then FileGuids(files[p], props, reg) else {}
  }

  /** Files that share no record list without a clash, and list the records of each. */
  lemma {:induction false} ListedGuidsApart(paths: seq<string>, files: map<string, Element>, props: PropertyTable, reg: Store)
    requires forall i, j :: 0 <= i < j < |paths| ==> PathGuids(paths[i], files, props, reg) !! PathGuids(paths[j], files, props, reg)
    ensures ListedGuids(paths, files, props, reg).Some?
    ensures forall g :: g in ListedGuids(paths, files, props, reg).value <==>
      exists i :: 0 <= i < |paths| && g in PathGuids(paths[i], files, props, reg)
    decreases |paths|
  {
    if paths != [] {
      var rest := paths[1..];
      forall i, j | 0 <= i < j < |rest|
        ensures PathGuids(rest[i], files, props, reg) !! PathGuids(rest[j], files, props, reg)
      {
        assert rest[i] == paths[i + 1] && rest[j] == paths[j + 1];
      }
      ListedGuidsApart(rest, files, props, reg);
      var tail := ListedGuids(rest, files, props, reg).value;
      assert PathGuids(paths[0], files, props, reg) !! tail by {
        forall g | g in tail
          ensures g !in PathGuids(paths[0], files, props, reg)
        {
          var i :| 0 <= i < |rest| && g in PathGuids(rest[i], files, props, reg);
          assert rest[i] == paths[i + 1];
        }
      }
      forall g
        ensures g in ListedGuids(paths, files, props, reg).value <==>
          exists i :: 0 <= i < |paths| && g in PathGuids(paths[i], files, props, reg)
      {
        if exists i :: 0 <= i < |paths| && g in PathGuids(paths[i], files, props, reg) {
          var i :| 0 <= i < |paths| && g in PathGuids(paths[i], files, props, reg);
          if i > 0 { assert paths[i] == rest[i - 1]; }
        }
        if g in tail {
          var i :| 0 <= i < |rest| && g in PathGuids(rest[i], files, props, reg);
          assert rest[i] == paths[i + 1];
        }
      }
    }
  }

  /** Loading one saved file puts back exactly its records and collects the marker of its index. */
  lemma LoadSavedFile(p: string, files: map<string, Element>, lexDb: Element, props: PropertyTable, acc: Loaded, reg: Store)
    requires FlatRegistry(reg, props) && GuidAttr in lexDb.attrs
    requires p in files && SavedIndexFile(files[p], ToLower(lexDb.attrs[GuidAttr]), props, reg)
    requires PathGuids(p, files, props, reg) !! acc.sorted.Keys
    requires KeyOf(files, p).Some? && KeyOf(files, p).value !in acc.revs
    ensures LoadIndex(p, files, lexDb, props, acc).Ok?
    ensures var acc1 := LoadIndex(p, files, lexDb, props, acc).value;
      && acc1.revs == acc.revs[KeyOf(files, p).value := ObjSur(KeyOf(files, p).value)]
      && RestoredExactly(acc1.sorted, acc.sorted, PathGuids(p, files, props, reg), reg)
  {
    var owner := ToLower(lexDb.attrs[GuidAttr]);
    var n := IndexFromDocument(files[p]).value;
    var guid := n.attrs[GuidAttr];
    var rec := Lookup(reg, guid).value;
    var ctx := IndexContext(props);
    var gs := InlinedGuids(n, rec, true, ctx, reg).value;
    assert rec.attrs[GuidAttr] == guid;
    assert PathGuids(p, files, props, reg) == {guid} + gs;
    FlattenNestedRecord(p, n, rec, Root, owner, ctx, reg, acc.sorted);
  }

  /**
   * Loading saved files one by one succeeds when no two of them hold indexes
   * with the same lower-cased GUID or share a record, and none of their
   * records is in sortedData already; it adds to sortedData exactly the
   * records of the files, each the registry's record.
   */
  lemma {:induction false} LoadSavedFiles(paths: seq<string>, files: map<string, Element>, lexDb: Element,
                                          props: PropertyTable, acc: Loaded, reg: Store)
    requires FlatRegistry(reg, props) && GuidAttr in lexDb.attrs
    requires forall p :: p in paths ==> p in files && SavedIndexFile(files[p], ToLower(lexDb.attrs[GuidAttr]), props, reg)
    requires ListedGuids(paths, files, props, reg).Some?
    requires ListedGuids(paths, files, props, reg).value !! acc.sorted.Keys
    requires forall i :: 0 <= i < |paths| ==> KeyOf(files, paths[i]).Some? && KeyOf(files, paths[i]).value !in acc.revs
    requires forall i, j :: 0 <= i < j < |paths| ==> KeyOf(files, paths[i]) != KeyOf(files, paths[j])
    ensures LoadIndexes(paths, files, lexDb, props, acc).Ok?
    ensures RestoredExactly(LoadIndexes(paths, files, lexDb, props, acc).value.sorted, acc.sorted,
                            ListedGuids(paths, files, props, reg).value, reg)
    decreases |paths|
  {
    if paths != [] {
      var p := paths[0];
      LoadSavedFile(p, files, lexDb, props, acc, reg);
      var acc1 := LoadIndex(p, files, lexDb, props, acc).value;
      var rest := paths[1..];
      forall i | 0 <= i < |rest|
        ensures KeyOf(files, rest[i]).Some? && KeyOf(files, rest[i]).value !in acc1.revs
      {
        assert rest[i] == paths[i + 1];
      }
      forall i, j | 0 <= i < j < |rest|
        ensures KeyOf(files, rest[i]) != KeyOf(files, rest[j])
      {
        assert rest[i] == paths[i + 1] && rest[j] == paths[j + 1];
      }
      LoadSavedFiles(rest, files, lexDb, props, acc1, reg);
      LoadIndexesOwners(rest, files, lexDb, props, acc1);
      RestoredExactlyChain(LoadIndexes(rest, files, lexDb, props, acc1).value.sorted, acc1.sorted, acc.sorted,
                           PathGuids(p, files, props, reg), ListedGuids(rest, files, props, reg).value, reg);
    }
  }

  /** Two registries that hold records for the same GUIDs, with the same attributes. */
  ghost predicate SameAttributes(a: Store, b: Store) {
    forall g :: (Lookup(a, g).Some? <==> Lookup(b, g).Some?)
      && (Lookup(a, g).Some? ==> Lookup(a, g).value.attrs == Lookup(b, g).value.attrs)
  }

  /**
   * A record stays in stored shape when it keeps its name, attributes and
   * properties, some of them emptied, and the registry keeps the attributes
   * of every record.
   */
  lemma FlatRecordKept(rec: Element, rec1: Element, props: PropertyTable, st: Store, st1: Store)
    requires FlatRecord(rec, props, st) && SameAttributes(st, st1)
    requires rec1.name == rec.name && rec1.attrs == rec.attrs && |rec1.children| == |rec.children|
    requires forall j :: 0 <= j < |rec.children| ==>
      rec1.children[j] == rec.children[j] || (rec1.children[j].name == rec.children[j].name && rec1.children[j].children == [])
    ensures FlatRecord(rec1, props, st1)
  {
    var cls := rec.attrs[ClassAttr];
    var guid := rec.attrs[GuidAttr];
    forall j | 0 <= j < |rec1.children|
      ensures FlatProperty(rec1.children[j], cls, guid, props, st1)
    {
      var q := rec1.children[j];
      assert FlatProperty(rec.children[j], cls, guid, props, st);
      if q == rec.children[j] {
        forall i | 0 <= i < |q.children| && CardinalityOf(props, cls, q.name) in {Owning, OwningSequence}
          ensures OwnedBy(q.children[i], guid, st1)
        {
          assert OwnedBy(q.children[i], guid, st);
        }
      }
    }
  }

  /** Emptying LexDb's ReversalIndexes keeps the registry in stored shape. */
  lemma FlatRegistryEmptied(st: Store, lexKey: string, props: PropertyTable)
    requires LexDbClass in st.classData && lexKey in st.classData[LexDbClass]
    requires EmptyReversalIndexes(st, lexKey).Some?
    requires FlatRegistry(st, props)
    ensures FlatRegistry(EmptyReversalIndexes(st, lexKey).value, props)
  {
    var st1 := EmptyReversalIndexes(st, lexKey).value;
    EmptiedLookup(st, lexKey);
    assert SameAttributes(st, st1);
    forall g | Lookup(st1, g).Some?
      ensures FlatRecord(Lookup(st1, g).value, props, st1) && Lookup(st1, g).value.attrs[GuidAttr] == g
    {
      assert Filed(st, g);
      var rec := Lookup(st, g).value;
      var rec1 := Lookup(st1, g).value;
      if rec1 == rec {
        FlatRecordKept(rec, rec, props, st, st1);
      } else {
        var lexDb := st.classData[LexDbClass][lexKey];
        var k := FirstNamed(lexDb.children, ReversalIndexesProp).value;
        assert rec == lexDb && rec1 == WithChild(lexDb, k, Emptied(lexDb.children[k]));
        FlatRecordKept(rec, rec1, props, st, st1);
      }
    }
  }

  // ---------------------------------------------------------------------------
  // Save then load
  // ---------------------------------------------------------------------------

  /** The keys of the markers the load collects: the lower-cased GUIDs of the indexes. */
  function LowerKeys(bucket: map<string, Element>): set<string> {
    set k | k in bucket :: ToLower(k)
  }

  /**
   * What the round trip needs of one ReversalIndex record: it is filed as a
   * ReversalIndex owned by `owner`, its writing system makes a plain file
   * name, and its entries survive being moved out of `Entries` (see
   * EntriesRelocatable).
   */
  ghost predicate IndexReady(index: Element, owner: string, props: PropertyTable, reg: Store) {
    && ClassAttr in index.attrs && index.attrs[ClassAttr] == ReversalIndexClass
    && OwnerGuidAttr in index.attrs && index.attrs[OwnerGuidAttr] == owner
    && (WritingSystemOf(index).Ok? ==> '/' !in WritingSystemOf(index).value)
    && (NestedIndex(index, props, reg).Some? ==> EntriesRelocatable(NestedIndex(index, props, reg).value))
  }

  /**
   * What the round trip of the Reversal context needs of the registry, of
   * the files already present and of the dictionaries the load fills:
   * - the registry is in stored shape, the LexDb record the save picks has a
   *   ReversalIndexes property, and no registered GUID is in sortedData yet;
   * - the LexDb record of highLevelData has a GUID and a ReversalIndexes
   *   property, and every index, registered under its key, is ready
   *   (IndexReady) with that GUID lower-cased as owner;
   * - the indexes have distinct writing systems and distinct lower-cased
   *   GUIDs, and none is nested into another;
   * - the Reversals directory holds no `*.reversal` file before the save.
   */
  ghost predicate RoundTripReady(base: string, props: PropertyTable, st: Store, files: map<string, Element>,
                                 high: map<string, Element>, sorted: map<string, Element>) {
    && LexDbClass in st.classData && |st.classData[LexDbClass]| > 0
    && ReversalIndexClass in st.classData && |st.classData[ReversalIndexClass]| > 0
    && Child(st.classData[LexDbClass][LexDbKey(st)], ReversalIndexesProp).Some?
    && FlatRegistry(st, props)
    && (forall g :: Lookup(st, g).Some? ==> g !in sorted)
    && LexDbClass in high && GuidAttr in high[LexDbClass].attrs && Child(high[LexDbClass], ReversalIndexesProp).Some?
    && (var bucket := st.classData[ReversalIndexClass];
       var st1 := EmptyReversalIndexes(st, LexDbKey(st)).value;
       && (forall k :: k in bucket ==>
             k in st.guidToClass && st.guidToClass[k] == ReversalIndexClass
             && IndexReady(bucket[k], ToLower(high[LexDbClass].attrs[GuidAttr]), props, st1))
       && DistinctWritingSystems(bucket)
       && (forall k1, k2 :: k1 in bucket && k2 in bucket && k1 != k2 ==> ToLower(k1) != ToLower(k2))
       && (forall k1, k2 :: k1 in bucket && k2 in bucket ==> k1 !in Inlined(bucket[k2], props, st1)))
    && MatchingFiles(files, ReversalDir(base), ReversalExtension) == {}
  }

  /**
   * The document written for an index registered under `k` as a flat
   * ReversalIndex reads back as its nested form, ready to be flattened, and
   * puts back exactly the index and what was nested into it.
   */
  lemma SavedDocumentReady(index: Element, k: string, owner: string, props: PropertyTable, reg: Store)
    requires FlatRegistry(reg, props) && Lookup(reg, k) == Some(index)
    requires ClassAttr in index.attrs && index.attrs[ClassAttr] == ReversalIndexClass
    requires OwnerGuidAttr in index.attrs && index.attrs[OwnerGuidAttr] == owner
    requires SavedAs(index, props, reg)
    requires EntriesRelocatable(NestedIndex(index, props, reg).value)
    ensures var doc := ReversalDocument(NestedIndex(index, props, reg).value);
      && SavedIndexFile(doc, owner, props, reg)
      && FileGuids(doc, props, reg) == IndexGuids(index, props, reg)
      && IndexFromDocument(doc).Ok? && GuidAttr in IndexFromDocument(doc).value.attrs
      && IndexFromDocument(doc).value.attrs[GuidAttr] == k
  {
    var n := NestedIndex(index, props, reg).value;
    assert n.(children := index.children) == Rename(index, index.attrs[ClassAttr], Root);
    assert n.name == ReversalIndexClass && n.attrs[GuidAttr] == index.attrs[GuidAttr];
    SaveThenLoadIndex(n);
    assert Filed(reg, k);
  }

  /** Where the save put each index, and what it established about it. */
  lemma SavedIndexAt(base: string, props: PropertyTable, st: Store, dirs: set<string>, files: map<string, Element>, k: string)
    requires LexDbClass in st.classData && |st.classData[LexDbClass]| > 0
    requires ReversalIndexClass in st.classData && k in st.classData[ReversalIndexClass]
    requires DistinctWritingSystems(st.classData[ReversalIndexClass])
    requires NestReversals(base, props, st, dirs, files).Ok?
    ensures var bucket := st.classData[ReversalIndexClass];
      var st1 := EmptyReversalIndexes(st, LexDbKey(st)).value;
      var saved := NestReversals(base, props, st, dirs, files).value;
      && SavedAs(bucket[k], props, st1)
      && IndexFile(ReversalDir(base), bucket[k]) in saved.files
      && saved.files[IndexFile(ReversalDir(base), bucket[k])] == ReversalDocument(NestedIndex(bucket[k], props, st1).value)
  {
    var bucket := st.classData[ReversalIndexClass];
    NestReversalsRun(base, props, st, dirs, files);
    var st1 := EmptyReversalIndexes(st, LexDbKey(st)).value;
    var saved := NestReversals(base, props, st, dirs, files).value;
    var i := InOrderPosition(bucket, k);
    assert SavedAs(bucket[k], props, st1) by {
      SaveIndexesSavedAs(ReversalDir(base), ValuesInKeyOrder(bucket), props, SaveState(st1, files), st1);
    }
    var p := IndexFile(ReversalDir(base), bucket[k]);
    assert && saved.files.Keys == files.Keys + BucketFiles(ReversalDir(base), bucket)
           && saved.files[p] == ReversalDocument(NestedIndex(bucket[k], props, st1).value) by {
      SaveWritesOneFilePerIndex(base, props, st, dirs, files);
    }
    assert p in BucketFiles(ReversalDir(base), bucket);
  }

  /**
   * The file the save writes for each index reads back ready to be
   * flattened, puts back that index's records and contributes the index's
   * lower-cased GUID as key.
   */
  lemma SavedFileReady(base: string, props: PropertyTable, st: Store, dirs: set<string>, files: map<string, Element>,
                       owner: string, k: string)
    requires LexDbClass in st.classData && |st.classData[LexDbClass]| > 0
    requires Child(st.classData[LexDbClass][LexDbKey(st)], ReversalIndexesProp).Some?
    requires ReversalIndexClass in st.classData && k in st.classData[ReversalIndexClass]
    requires DistinctWritingSystems(st.classData[ReversalIndexClass])
    requires NestReversals(base, props, st, dirs, files).Ok?
    requires FlatRegistry(st, props) && k in st.guidToClass && st.guidToClass[k] == ReversalIndexClass
    requires IndexReady(st.classData[ReversalIndexClass][k], owner, props, EmptyReversalIndexes(st, LexDbKey(st)).value)
    ensures var bucket := st.classData[ReversalIndexClass];
      var st1 := EmptyReversalIndexes(st, LexDbKey(st)).value;
      var saved := NestReversals(base, props, st, dirs, files).value;
      && WritingSystemOf(bucket[k]).Ok?
      && var p := IndexFile(ReversalDir(base), bucket[k]);
         && p in saved.files
         && SavedIndexFile(saved.files[p], owner, props, st1)
         && PathGuids(p, saved.files, props, st1) == IndexGuids(bucket[k], props, st1)
         && KeyOf(saved.files, p) == Some(ToLower(k))
  {
    var bucket := st.classData[ReversalIndexClass];
    var lexKey := LexDbKey(st);
    var st1 := EmptyReversalIndexes(st, lexKey).value;
    var index := bucket[k];
    var saved := NestReversals(base, props, st, dirs, files).value;
    assert SavedAs(index, props, st1) && IndexFile(ReversalDir(base), index) in saved.files
        && saved.files[IndexFile(ReversalDir(base), index)] == ReversalDocument(NestedIndex(index, props, st1).value) by {
      SavedIndexAt(base, props, st, dirs, files, k);
    }
    var p := IndexFile(ReversalDir(base), index);
    assert Lookup(st1, k) == Some(index) && FlatRegistry(st1, props) by {
      EmptiedLookup(st, lexKey);
      FlatRegistryEmptied(st, lexKey, props);
    }
    var doc := saved.files[p];
    assert SavedIndexFile(doc, owner, props, st1) && FileGuids(doc, props, st1) == IndexGuids(index, props, st1)
        && IndexFromDocument(doc).Ok? && GuidAttr in IndexFromDocument(doc).value.attrs
        && IndexFromDocument(doc).value.attrs[GuidAttr] == k by {
      SavedDocumentReady(index, k, owner, props, st1);
    }
    assert PathGuids(p, saved.files, props, st1) == FileGuids(doc, props, st1);
    assert KeyOf(saved.files, p) == Some(ToLower(k));
  }

  /** A writing system without '/' names a file directly inside the Reversals directory. */
  lemma SlashFreeName(ws: string)
    requires '/' !in ws
    ensures '/' !in ws + ReversalExtension
  {
    var ext := ReversalExtension;
    assert ext == ".reversal";
    assert forall i :: 0 <= i < |ext| ==> ext[i] != '/';
  }

  /** The files the load lists after the save are exactly the files of the indexes. */
  lemma ListingIsIndexFiles(base: string, props: PropertyTable, st: Store, dirs: set<string>, files: map<string, Element>,
                            listing: seq<string>)
    requires LexDbClass in st.classData && |st.classData[LexDbClass]| > 0
    requires ReversalIndexClass in st.classData && |st.classData[ReversalIndexClass]| > 0
    requires forall k :: k in st.classData[ReversalIndexClass] && WritingSystemOf(st.classData[ReversalIndexClass][k]).Ok? ==>
      '/' !in WritingSystemOf(st.classData[ReversalIndexClass][k]).value
    requires MatchingFiles(files, ReversalDir(base), ReversalExtension) == {}
    requires NestReversals(base, props, st, dirs, files).Ok?
    requires IsListing(listing, MatchingFiles(NestReversals(base, props, st, dirs, files).value.files, ReversalDir(base), ReversalExtension))
    ensures var bucket := st.classData[ReversalIndexClass];
      forall p :: p in listing <==>
        exists k :: k in bucket && WritingSystemOf(bucket[k]).Ok? && p == IndexFile(ReversalDir(base), bucket[k])
  {
    var bucket := st.classData[ReversalIndexClass];
    var dir := ReversalDir(base);
    var saved := NestReversals(base, props, st, dirs, files).value;
    SaveWritesOneFilePerIndex(base, props, st, dirs, files);
    forall p
      ensures p in listing <==> exists k :: k in bucket && WritingSystemOf(bucket[k]).Ok? && p == IndexFile(dir, bucket[k])
    {
      if p in listing {
        assert p in saved.files && InDirectory(p, dir, ReversalExtension);
        assert p !in MatchingFiles(files, dir, ReversalExtension);
        assert p in BucketFiles(dir, bucket);
      }
      if exists k :: k in bucket && WritingSystemOf(bucket[k]).Ok? && p == IndexFile(dir, bucket[k]) {
        var k :| k in bucket && WritingSystemOf(bucket[k]).Ok? && p == IndexFile(dir, bucket[k]);
        var name := WritingSystemOf(bucket[k]).value + ReversalExtension;
        assert p in BucketFiles(dir, bucket);
        SlashFreeName(WritingSystemOf(bucket[k]).value);
        assert EndsWith(name, ReversalExtension);
        CombineInDirectory(dir, name, ReversalExtension);
      }
    }
  }

  /**
   * Keyed by the bucket: what is nested into an index was registered before
   * the save, and no record is nested into two indexes.
   */
  lemma InlinedApart(base: string, props: PropertyTable, st: Store, dirs: set<string>, files: map<string, Element>)
    requires LexDbClass in st.classData && |st.classData[LexDbClass]| > 0
    requires ReversalIndexClass in st.classData && |st.classData[ReversalIndexClass]| > 0
    requires NestReversals(base, props, st, dirs, files).Ok?
    ensures var bucket := st.classData[ReversalIndexClass];
      var st1 := EmptyReversalIndexes(st, LexDbKey(st)).value;
      && (forall k, g :: k in bucket && g in Inlined(bucket[k], props, st1) ==> Lookup(st, g).Some?)
      && (forall k1, k2 :: k1 in bucket && k2 in bucket && k1 != k2 ==>
            Inlined(bucket[k1], props, st1) !! Inlined(bucket[k2], props, st1))
  {
    var bucket := st.classData[ReversalIndexClass];
    NestReversalsRun(base, props, st, dirs, files);
    var st1 := EmptyReversalIndexes(st, LexDbKey(st)).value;
    var indexes := ValuesInKeyOrder(bucket);
    SaveIndexesApart(ReversalDir(base), indexes, props, SaveState(st1, files), st1);
    EmptiedLookup(st, LexDbKey(st));
    forall k, g | k in bucket && g in Inlined(bucket[k], props, st1)
      ensures Lookup(st, g).Some?
    {
      var i := InOrderPosition(bucket, k);
    }
    forall k1, k2 | k1 in bucket && k2 in bucket && k1 != k2
      ensures Inlined(bucket[k1], props, st1) !! Inlined(bucket[k2], props, st1)
    {
      var i1 := InOrderPosition(bucket, k1);
      var i2 := InOrderPosition(bucket, k2);
      if i1 < i2 {
        assert Inlined(bucket[k2], props, st1) !! IndexGuids(bucket[k1], props, st1);
      } else {
        assert i1 != i2;
        assert Inlined(bucket[k1], props, st1) !! IndexGuids(bucket[k2], props, st1);
      }
    }
  }

  /** Indexes with different GUIDs, neither nested into the other, whose nested records differ, take disjoint records. */
  lemma GuidsApart(a: Element, b: Element, props: PropertyTable, reg: Store)
    requires GuidAttr in a.attrs && GuidAttr in b.attrs && a.attrs[GuidAttr] != b.attrs[GuidAttr]
    requires Inlined(a, props, reg) !! Inlined(b, props, reg)
    requires a.attrs[GuidAttr] !in Inlined(b, props, reg) && b.attrs[GuidAttr] !in Inlined(a, props, reg)
    ensures IndexGuids(a, props, reg) !! IndexGuids(b, props, reg)
  {
  }

  /** Two records filed under `k1` and `k2` whose nested records are registered and, when they differ, disjoint. */
  lemma FiledApart(a: Element, b: Element, k1: string, k2: string, props: PropertyTable, st: Store, st1: Store)
    requires FlatRegistry(st, props) && Lookup(st, k1) == Some(a) && Lookup(st, k2) == Some(b)
    requires forall g :: g in Inlined(a, props, st1) ==> Lookup(st, g).Some?
    requires k1 != k2 ==> Inlined(a, props, st1) !! Inlined(b, props, st1)
    requires k1 !in Inlined(b, props, st1) && k2 !in Inlined(a, props, st1)
    ensures forall g :: g in IndexGuids(a, props, st1) ==> Lookup(st, g).Some?
    ensures k1 != k2 ==> IndexGuids(a, props, st1) !! IndexGuids(b, props, st1)
  {
    assert Filed(st, k1) && Filed(st, k2);
    if k1 != k2 {
      GuidsApart(a, b, props, st1);
    }
  }

  /** Two indexes of the bucket take disjoint sets of records, all of them registered before the save. */
  lemma IndexesApart(base: string, props: PropertyTable, st: Store, dirs: set<string>, files: map<string, Element>,
                     k1: string, k2: string)
    requires LexDbClass in st.classData && |st.classData[LexDbClass]| > 0
    requires Child(st.classData[LexDbClass][LexDbKey(st)], ReversalIndexesProp).Some?
    requires ReversalIndexClass in st.classData
    requires k1 in st.classData[ReversalIndexClass] && k2 in st.classData[ReversalIndexClass]
    requires NestReversals(base, props, st, dirs, files).Ok?
    requires FlatRegistry(st, props)
    requires k1 in st.guidToClass && st.guidToClass[k1] == ReversalIndexClass
    requires k2 in st.guidToClass && st.guidToClass[k2] == ReversalIndexClass
    requires k1 !in Inlined(st.classData[ReversalIndexClass][k2], props, EmptyReversalIndexes(st, LexDbKey(st)).value)
    requires k2 !in Inlined(st.classData[ReversalIndexClass][k1], props, EmptyReversalIndexes(st, LexDbKey(st)).value)
    ensures var bucket := st.classData[ReversalIndexClass];
      var st1 := EmptyReversalIndexes(st, LexDbKey(st)).value;
      forall g :: g in IndexGuids(bucket[k1], props, st1) ==> Lookup(st, g).Some?
    ensures var bucket := st.classData[ReversalIndexClass];
      var st1 := EmptyReversalIndexes(st, LexDbKey(st)).value;
      k1 != k2 ==> IndexGuids(bucket[k1], props, st1) !! IndexGuids(bucket[k2], props, st1)
  {
    var bucket := st.classData[ReversalIndexClass];
    var st1 := EmptyReversalIndexes(st, LexDbKey(st)).value;
    var a, b := bucket[k1], bucket[k2];
    assert (forall g :: g in Inlined(a, props, st1) ==> Lookup(st, g).Some?)
        && (k1 != k2 ==> Inlined(a, props, st1) !! Inlined(b, props, st1)) by {
      InlinedApart(base, props, st, dirs, files);
    }
    assert Lookup(st, k1) == Some(a) && Lookup(st, k2) == Some(b);
    FiledApart(a, b, k1, k2, props, st, st1);
  }

  /** Each listed file is the file of one index of the bucket, saved ready to be read back. */
  lemma ListedIndex(base: string, props: PropertyTable, st: Store, dirs: set<string>, files: map<string, Element>,
                    high: map<string, Element>, sorted: map<string, Element>, listing: seq<string>, p: string)
    returns (k: string)
    requires RoundTripReady(base, props, st, files, high, sorted)
    requires NestReversals(base, props, st, dirs, files).Ok?
    requires IsListing(listing, MatchingFiles(NestReversals(base, props, st, dirs, files).value.files, ReversalDir(base), ReversalExtension))
    requires p in listing
    ensures var bucket := st.classData[ReversalIndexClass];
      var st1 := EmptyReversalIndexes(st, LexDbKey(st)).value;
      var saved := NestReversals(base, props, st, dirs, files).value;
      && k in bucket && WritingSystemOf(bucket[k]).Ok? && p == IndexFile(ReversalDir(base), bucket[k])
      && p in saved.files
      && SavedIndexFile(saved.files[p], ToLower(high[LexDbClass].attrs[GuidAttr]), props, st1)
      && PathGuids(p, saved.files, props, st1) == IndexGuids(bucket[k], props, st1)
      && KeyOf(saved.files, p) == Some(ToLower(k))
  {
    var bucket := st.classData[ReversalIndexClass];
    assert exists k :: k in bucket && WritingSystemOf(bucket[k]).Ok? && p == IndexFile(ReversalDir(base), bucket[k]) by {
      ListingIsIndexFiles(base, props, st, dirs, files, listing);
    }
    k :| k in bucket && WritingSystemOf(bucket[k]).Ok? && p == IndexFile(ReversalDir(base), bucket[k]);
    SavedFileReady(base, props, st, dirs, files, ToLower(high[LexDbClass].attrs[GuidAttr]), k);
  }

  /** Every listed file is a saved index, ready to be read back, with a key. */
  lemma ListedFilesSaved(base: string, props: PropertyTable, st: Store, dirs: set<string>, files: map<string, Element>,
                         high: map<string, Element>, sorted: map<string, Element>, listing: seq<string>)
    requires RoundTripReady(base, props, st, files, high, sorted)
    requires NestReversals(base, props, st, dirs, files).Ok?
    requires IsListing(listing, MatchingFiles(NestReversals(base, props, st, dirs, files).value.files, ReversalDir(base), ReversalExtension))
    ensures var st1 := EmptyReversalIndexes(st, LexDbKey(st)).value;
      var saved := NestReversals(base, props, st, dirs, files).value;
      forall p :: p in listing ==>
        && p in saved.files && SavedIndexFile(saved.files[p], ToLower(high[LexDbClass].attrs[GuidAttr]), props, st1)
        && KeyOf(saved.files, p).Some?
  {
    var saved := NestReversals(base, props, st, dirs, files).value;
    forall p | p in listing
      ensures p in saved.files
      ensures SavedIndexFile(saved.files[p], ToLower(high[LexDbClass].attrs[GuidAttr]), props, EmptyReversalIndexes(st, LexDbKey(st)).value)
      ensures KeyOf(saved.files, p).Some?
    {
      var k := ListedIndex(base, props, st, dirs, files, high, sorted, listing, p);
    }
  }

  /** No two listed files hold indexes with the same key. */
  lemma ListedKeysDistinct(base: string, props: PropertyTable, st: Store, dirs: set<string>, files: map<string, Element>,
                           high: map<string, Element>, sorted: map<string, Element>, listing: seq<string>)
    requires RoundTripReady(base, props, st, files, high, sorted)
    requires NestReversals(base, props, st, dirs, files).Ok?
    requires IsListing(listing, MatchingFiles(NestReversals(base, props, st, dirs, files).value.files, ReversalDir(base), ReversalExtension))
    ensures var saved := NestReversals(base, props, st, dirs, files).value;
      forall i, j :: 0 <= i < j < |listing| ==> KeyOf(saved.files, listing[i]) != KeyOf(saved.files, listing[j])
  {
    var saved := NestReversals(base, props, st, dirs, files).value;
    forall i, j | 0 <= i < j < |listing|
      ensures KeyOf(saved.files, listing[i]) != KeyOf(saved.files, listing[j])
    {
      var k1 := ListedIndex(base, props, st, dirs, files, high, sorted, listing, listing[i]);
      var k2 := ListedIndex(base, props, st, dirs, files, high, sorted, listing, listing[j]);
      assert k1 != k2;
    }
  }

  /** The listed files are saved indexes, ready to be read back, with distinct keys. */
  lemma ListedFilesReady(base: string, props: PropertyTable, st: Store, dirs: set<string>, files: map<string, Element>,
                         high: map<string, Element>, sorted: map<string, Element>, listing: seq<string>)
    requires RoundTripReady(base, props, st, files, high, sorted)
    requires NestReversals(base, props, st, dirs, files).Ok?
    requires IsListing(listing, MatchingFiles(NestReversals(base, props, st, dirs, files).value.files, ReversalDir(base), ReversalExtension))
    ensures var st1 := EmptyReversalIndexes(st, LexDbKey(st)).value;
      var saved := NestReversals(base, props, st, dirs, files).value;
      && (forall p :: p in listing ==>
            p in saved.files && SavedIndexFile(saved.files[p], ToLower(high[LexDbClass].attrs[GuidAttr]), props, st1))
      && (forall i :: 0 <= i < |listing| ==> KeyOf(saved.files, listing[i]).Some?)
      && (forall i, j :: 0 <= i < j < |listing| ==> KeyOf(saved.files, listing[i]) != KeyOf(saved.files, listing[j]))
  {
    ListedFilesSaved(base, props, st, dirs, files, high, sorted, listing);
    ListedKeysDistinct(base, props, st, dirs, files, high, sorted, listing);
  }

  /** No two listed files put back the same record. */
  lemma ListedApart(base: string, props: PropertyTable, st: Store, dirs: set<string>, files: map<string, Element>,
                    high: map<string, Element>, sorted: map<string, Element>, listing: seq<string>)
    requires RoundTripReady(base, props, st, files, high, sorted)
    requires NestReversals(base, props, st, dirs, files).Ok?
    requires IsListing(listing, MatchingFiles(NestReversals(base, props, st, dirs, files).value.files, ReversalDir(base), ReversalExtension))
    ensures var st1 := EmptyReversalIndexes(st, LexDbKey(st)).value;
      var saved := NestReversals(base, props, st, dirs, files).value;
      var gs := ListedGuids(listing, saved.files, props, st1);
      && gs.Some?
      && forall g :: g in gs.value <==> exists i :: 0 <= i < |listing| && g in PathGuids(listing[i], saved.files, props, st1)
  {
    var st1 := EmptyReversalIndexes(st, LexDbKey(st)).value;
    var saved := NestReversals(base, props, st, dirs, files).value;
    forall i, j | 0 <= i < j < |listing|
      ensures PathGuids(listing[i], saved.files, props, st1) !! PathGuids(listing[j], saved.files, props, st1)
    {
      var k1 := ListedIndex(base, props, st, dirs, files, high, sorted, listing, listing[i]);
      var k2 := ListedIndex(base, props, st, dirs, files, high, sorted, listing, listing[j]);
      IndexesApart(base, props, st, dirs, files, k1, k2);
    }
    ListedGuidsApart(listing, saved.files, props, st1);
  }

  /** The file of every index of the bucket is listed, and puts back that index's records. */
  lemma IndexFileListed(base: string, props: PropertyTable, st: Store, dirs: set<string>, files: map<string, Element>,
                        high: map<string, Element>, sorted: map<string, Element>, listing: seq<string>, k: string)
    returns (i: int)
    requires RoundTripReady(base, props, st, files, high, sorted)
    requires NestReversals(base, props, st, dirs, files).Ok?
    requires IsListing(listing, MatchingFiles(NestReversals(base, props, st, dirs, files).value.files, ReversalDir(base), ReversalExtension))
    requires k in st.classData[ReversalIndexClass]
    ensures var bucket := st.classData[ReversalIndexClass];
      var st1 := EmptyReversalIndexes(st, LexDbKey(st)).value;
      var saved := NestReversals(base, props, st, dirs, files).value;
      && 0 <= i < |listing|
      && PathGuids(listing[i], saved.files, props, st1) == IndexGuids(bucket[k], props, st1)
      && KeyOf(saved.files, listing[i]) == Some(ToLower(k))
  {
    var bucket := st.classData[ReversalIndexClass];
    assert WritingSystemOf(bucket[k]).Ok? by {
      SavedIndexAt(base, props, st, dirs, files, k);
    }
    var p := IndexFile(ReversalDir(base), bucket[k]);
    assert p in listing by {
      ListingIsIndexFiles(base, props, st, dirs, files, listing);
    }
    i :| 0 <= i < |listing| && listing[i] == p;
    var k' := ListedIndex(base, props, st, dirs, files, high, sorted, listing, p);
    assert WritingSystemOf(bucket[k']) == WritingSystemOf(bucket[k]) by {
      ReversalPathInjective(ReversalDir(base), WritingSystemOf(bucket[k']).value, WritingSystemOf(bucket[k]).value);
    }
    SameFileSameIndex(bucket, k', k);
  }

  /**
   * The listed files put back, without a clash, exactly the records the
   * save took, none of them in sortedData yet.
   */
  lemma ListedGuidsReady(base: string, props: PropertyTable, st: Store, dirs: set<string>, files: map<string, Element>,
                         high: map<string, Element>, sorted: map<string, Element>, listing: seq<string>)
    requires RoundTripReady(base, props, st, files, high, sorted)
    requires NestReversals(base, props, st, dirs, files).Ok?
    requires IsListing(listing, MatchingFiles(NestReversals(base, props, st, dirs, files).value.files, ReversalDir(base), ReversalExtension))
    ensures var bucket := st.classData[ReversalIndexClass];
      var st1 := EmptyReversalIndexes(st, LexDbKey(st)).value;
      var saved := NestReversals(base, props, st, dirs, files).value;
      var gs := ListedGuids(listing, saved.files, props, st1);
      && gs.Some? && gs.value !! sorted.Keys
      && forall g :: g in gs.value <==> exists k :: k in bucket && g in IndexGuids(bucket[k], props, st1)
  {
    var bucket := st.classData[ReversalIndexClass];
    var st1 := EmptyReversalIndexes(st, LexDbKey(st)).value;
    var saved := NestReversals(base, props, st, dirs, files).value;
    ListedApart(base, props, st, dirs, files, high, sorted, listing);
    var gs := ListedGuids(listing, saved.files, props, st1).value;
    forall g | g in gs
      ensures g !in sorted
      ensures exists k :: k in bucket && g in IndexGuids(bucket[k], props, st1)
    {
      var i :| 0 <= i < |listing| && g in PathGuids(listing[i], saved.files, props, st1);
      var k := ListedIndex(base, props, st, dirs, files, high, sorted, listing, listing[i]);
      IndexesApart(base, props, st, dirs, files, k, k);
    }
    forall g | exists k :: k in bucket && g in IndexGuids(bucket[k], props, st1)
      ensures g in gs
    {
      var k :| k in bucket && g in IndexGuids(bucket[k], props, st1);
      var i := IndexFileListed(base, props, st, dirs, files, high, sorted, listing, k);
    }
  }

  /** The keys of a listing whose every file holds an index of the bucket are keys of the bucket. */
  lemma ListedKeysInBucket(files: map<string, Element>, listing: seq<string>, bucket: map<string, Element>)
    requires forall p :: p in listing ==> exists k :: k in bucket && KeyOf(files, p) == Some(ToLower(k))
    ensures LoadedKeys(files, listing) <= LowerKeys(bucket)
  {
    forall x | x in LoadedKeys(files, listing)
      ensures x in LowerKeys(bucket)
    {
      var p :| p in listing && KeyOf(files, p).Some? && KeyOf(files, p).value == x;
      var k :| k in bucket && KeyOf(files, p) == Some(ToLower(k));
    }
  }

  /** The keys of the bucket are keys of a listing that holds every index; such a listing is empty only with the bucket. */
  lemma BucketKeysListed(files: map<string, Element>, listing: seq<string>, bucket: map<string, Element>)
    requires forall k :: k in bucket ==> exists i :: 0 <= i < |listing| && KeyOf(files, listing[i]) == Some(ToLower(k))
    ensures LowerKeys(bucket) <= LoadedKeys(files, listing)
    ensures |bucket| > 0 ==> listing != []
  {
    if |bucket| > 0 {
      var k :| k in bucket;
    }
    forall x | x in LowerKeys(bucket)
      ensures x in LoadedKeys(files, listing)
    {
      var k :| k in bucket && x == ToLower(k);
      var i :| 0 <= i < |listing| && KeyOf(files, listing[i]) == Some(ToLower(k));
      assert listing[i] in listing;
    }
  }

  /** Every listed file contributes the lower-cased GUID of an index of the bucket as key. */
  lemma ListedKeys(base: string, props: PropertyTable, st: Store, dirs: set<string>, files: map<string, Element>,
                   high: map<string, Element>, sorted: map<string, Element>, listing: seq<string>)
    requires RoundTripReady(base, props, st, files, high, sorted)
    requires NestReversals(base, props, st, dirs, files).Ok?
    requires IsListing(listing, MatchingFiles(NestReversals(base, props, st, dirs, files).value.files, ReversalDir(base), ReversalExtension))
    ensures var saved := NestReversals(base, props, st, dirs, files).value;
      forall p :: p in listing ==> exists k :: k in st.classData[ReversalIndexClass] && KeyOf(saved.files, p) == Some(ToLower(k))
  {
    var bucket := st.classData[ReversalIndexClass];
    var saved := NestReversals(base, props, st, dirs, files).value;
    forall p | p in listing
      ensures exists k :: k in bucket && KeyOf(saved.files, p) == Some(ToLower(k))
    {
      var k := ListedIndex(base, props, st, dirs, files, high, sorted, listing, p);
    }
  }

  /** The lower-cased GUID of every index of the bucket is the key of a listed file. */
  lemma IndexKeysListed(base: string, props: PropertyTable, st: Store, dirs: set<string>, files: map<string, Element>,
                        high: map<string, Element>, sorted: map<string, Element>, listing: seq<string>)
    requires RoundTripReady(base, props, st, files, high, sorted)
    requires NestReversals(base, props, st, dirs, files).Ok?
    requires IsListing(listing, MatchingFiles(NestReversals(base, props, st, dirs, files).value.files, ReversalDir(base), ReversalExtension))
    ensures var saved := NestReversals(base, props, st, dirs, files).value;
      forall k :: k in st.classData[ReversalIndexClass] ==>
        exists i :: 0 <= i < |listing| && KeyOf(saved.files, listing[i]) == Some(ToLower(k))
  {
    var bucket := st.classData[ReversalIndexClass];
    var saved := NestReversals(base, props, st, dirs, files).value;
    forall k | k in bucket
      ensures exists i :: 0 <= i < |listing| && KeyOf(saved.files, listing[i]) == Some(ToLower(k))
    {
      var i := IndexFileListed(base, props, st, dirs, files, high, sorted, listing, k);
    }
  }

  /** The keys the load collects are the lower-cased GUIDs of the indexes; there is at least one file. */
  lemma LoadedKeysOfIndexes(base: string, props: PropertyTable, st: Store, dirs: set<string>, files: map<string, Element>,
                            high: map<string, Element>, sorted: map<string, Element>, listing: seq<string>)
    requires RoundTripReady(base, props, st, files, high, sorted)
    requires NestReversals(base, props, st, dirs, files).Ok?
    requires IsListing(listing, MatchingFiles(NestReversals(base, props, st, dirs, files).value.files, ReversalDir(base), ReversalExtension))
    ensures listing != []
    ensures LoadedKeys(NestReversals(base, props, st, dirs, files).value.files, listing) == LowerKeys(st.classData[ReversalIndexClass])
  {
    var bucket := st.classData[ReversalIndexClass];
    var saved := NestReversals(base, props, st, dirs, files).value;
    var loaded := LoadedKeys(saved.files, listing);
    assert loaded <= LowerKeys(bucket) by {
      ListedKeys(base, props, st, dirs, files, high, sorted, listing);
      ListedKeysInBucket(saved.files, listing, bucket);
    }
    assert LowerKeys(bucket) <= loaded && listing != [] by {
      IndexKeysListed(base, props, st, dirs, files, high, sorted, listing);
      BucketKeysListed(saved.files, listing, bucket);
    }
  }

  /** Reading the saved files back adds to sortedData exactly the records the files hold, as registered. */
  lemma ReversalsReload(base: string, props: PropertyTable, st: Store, dirs: set<string>, files: map<string, Element>,
                        high: map<string, Element>, sorted: map<string, Element>, listing: seq<string>)
    requires RoundTripReady(base, props, st, files, high, sorted)
    requires NestReversals(base, props, st, dirs, files).Ok?
    requires IsListing(listing, MatchingFiles(NestReversals(base, props, st, dirs, files).value.files, ReversalDir(base), ReversalExtension))
    ensures var st1 := EmptyReversalIndexes(st, LexDbKey(st)).value;
      var saved := NestReversals(base, props, st, dirs, files).value;
      var l := LoadIndexes(listing, saved.files, high[LexDbClass], props, Loaded(sorted, map[]));
      && l.Ok? && Extends(l.value.sorted, sorted)
      && ListedGuids(listing, saved.files, props, st1).Some?
      && RestoredExactly(l.value.sorted, sorted, ListedGuids(listing, saved.files, props, st1).value, st1)
  {
    var st1 := EmptyReversalIndexes(st, LexDbKey(st)).value;
    var saved := NestReversals(base, props, st, dirs, files).value;
    var acc := Loaded(sorted, map[]);
    ListedFilesReady(base, props, st, dirs, files, high, sorted, listing);
    ListedGuidsReady(base, props, st, dirs, files, high, sorted, listing);
    assert FlatRegistry(st1, props) by {
      NestReversalsRun(base, props, st, dirs, files);
      FlatRegistryEmptied(st, LexDbKey(st), props);
    }
    LoadSavedFiles(listing, saved.files, high[LexDbClass], props, acc, st1);
    LoadIndexesOwners(listing, saved.files, high[LexDbClass], props, acc);
  }

  /** An index filed under its own GUID whose nested records are registered takes only registered records. */
  lemma RegisteredIndexGuids(bucket: map<string, Element>, props: PropertyTable, st: Store, st1: Store)
    requires FlatRegistry(st, props)
    requires forall k :: k in bucket ==> Lookup(st, k) == Some(bucket[k])
    requires forall k, g :: k in bucket && g in Inlined(bucket[k], props, st1) ==> Lookup(st, g).Some?
    ensures forall k, g :: k in bucket && g in IndexGuids(bucket[k], props, st1) ==> Lookup(st, g).Some?
  {
    forall k, g | k in bucket && g in IndexGuids(bucket[k], props, st1)
      ensures Lookup(st, g).Some?
    {
      assert Filed(st, k);
    }
  }

  /** Every record an index takes was registered before the save. */
  lemma IndexGuidsRegistered(base: string, props: PropertyTable, st: Store, dirs: set<string>, files: map<string, Element>)
    requires LexDbClass in st.classData && |st.classData[LexDbClass]| > 0
    requires ReversalIndexClass in st.classData && |st.classData[ReversalIndexClass]| > 0
    requires NestReversals(base, props, st, dirs, files).Ok?
    requires FlatRegistry(st, props)
    requires forall k :: k in st.classData[ReversalIndexClass] ==> k in st.guidToClass && st.guidToClass[k] == ReversalIndexClass
    ensures var bucket := st.classData[ReversalIndexClass];
      var st1 := EmptyReversalIndexes(st, LexDbKey(st)).value;
      forall k, g :: k in bucket && g in IndexGuids(bucket[k], props, st1) ==> Lookup(st, g).Some?
  {
    var bucket := st.classData[ReversalIndexClass];
    NestReversalsRun(base, props, st, dirs, files);
    var st1 := EmptyReversalIndexes(st, LexDbKey(st)).value;
    InlinedApart(base, props, st, dirs, files);
    assert forall k :: k in bucket ==> Lookup(st, k) == Some(bucket[k]);
    RegisteredIndexGuids(bucket, props, st, st1);
  }

  /** What leaves a registry, when it keeps exactly the records no index takes and the indexes take only registered records. */
  lemma TakenByIndexes(st: Store, after: Store, bucket: map<string, Element>, props: PropertyTable, st1: Store)
    requires forall g :: Lookup(after, g).Some? <==>
      Lookup(st, g).Some? && forall k :: k in bucket ==> g !in IndexGuids(bucket[k], props, st1)
    requires forall k, g :: k in bucket && g in IndexGuids(bucket[k], props, st1) ==> Lookup(st, g).Some?
    ensures forall g :: (Lookup(st, g).Some? && Lookup(after, g).None?) <==>
      exists k :: k in bucket && g in IndexGuids(bucket[k], props, st1)
  {
  }

  /** The records the save took out of the registry are the indexes and what is nested into them. */
  lemma TakenGuids(base: string, props: PropertyTable, st: Store, dirs: set<string>, files: map<string, Element>,
                   high: map<string, Element>, sorted: map<string, Element>)
    requires RoundTripReady(base, props, st, files, high, sorted)
    requires NestReversals(base, props, st, dirs, files).Ok?
    ensures var bucket := st.classData[ReversalIndexClass];
      var st1 := EmptyReversalIndexes(st, LexDbKey(st)).value;
      var saved := NestReversals(base, props, st, dirs, files).value;
      forall g :: (Lookup(st, g).Some? && Lookup(saved.store, g).None?) <==>
        exists k :: k in bucket && g in IndexGuids(bucket[k], props, st1)
  {
    var bucket := st.classData[ReversalIndexClass];
    NestReversalsRun(base, props, st, dirs, files);
    var st1 := EmptyReversalIndexes(st, LexDbKey(st)).value;
    var saved := NestReversals(base, props, st, dirs, files).value;
    SaveEmptiesReversalIndexes(base, props, st, dirs, files);
    IndexGuidsRegistered(base, props, st, dirs, files);
    TakenByIndexes(st, saved.store, bucket, props, st1);
  }

  /** The records the save took out of the registry are those the listed files hold. */
  lemma TakenAreListed(base: string, props: PropertyTable, st: Store, dirs: set<string>, files: map<string, Element>,
                       high: map<string, Element>, sorted: map<string, Element>, listing: seq<string>)
    requires RoundTripReady(base, props, st, files, high, sorted)
    requires NestReversals(base, props, st, dirs, files).Ok?
    requires IsListing(listing, MatchingFiles(NestReversals(base, props, st, dirs, files).value.files, ReversalDir(base), ReversalExtension))
    ensures var st1 := EmptyReversalIndexes(st, LexDbKey(st)).value;
      var saved := NestReversals(base, props, st, dirs, files).value;
      && ListedGuids(listing, saved.files, props, st1).Some?
      && forall g :: g in ListedGuids(listing, saved.files, props, st1).value <==>
           Lookup(st, g).Some? && Lookup(saved.store, g).None?
  {
    ListedGuidsReady(base, props, st, dirs, files, high, sorted, listing);
    TakenGuids(base, props, st, dirs, files, high, sorted);
  }

  /** Every index leaves the registry with the save. */
  lemma IndexTaken(base: string, props: PropertyTable, st: Store, dirs: set<string>, files: map<string, Element>,
                   high: map<string, Element>, sorted: map<string, Element>, k: string)
    requires RoundTripReady(base, props, st, files, high, sorted)
    requires NestReversals(base, props, st, dirs, files).Ok?
    requires k in st.classData[ReversalIndexClass]
    ensures Lookup(st, k) == Some(st.classData[ReversalIndexClass][k])
    ensures Lookup(NestReversals(base, props, st, dirs, files).value.store, k).None?
  {
    var bucket := st.classData[ReversalIndexClass];
    var st1 := EmptyReversalIndexes(st, LexDbKey(st)).value;
    assert Lookup(st, k) == Some(bucket[k]) && Filed(st, k);
    assert k in IndexGuids(bucket[k], props, st1);
    TakenGuids(base, props, st, dirs, files, high, sorted);
  }

  /**
   * What sortedData holds after the load, given what the load restored
   * (`gs`, as `st1` files them), what the save took out of `st` (leaving
   * `after`) and how `st1` differs from `st`.
   */
  lemma RestoredFromSave(out: map<string, Element>, sorted: map<string, Element>, gs: set<string>,
                         st: Store, st1: Store, after: Store, bucket: map<string, Element>, lexKey: string)
    requires RestoredExactly(out, sorted, gs, st1)
    requires forall g :: g in gs <==> Lookup(st, g).Some? && Lookup(after, g).None?
    requires forall g :: g != lexKey ==> Lookup(st1, g) == Lookup(st, g)
    requires forall k :: k in bucket ==>
      Lookup(st, k) == Some(bucket[k]) && Lookup(after, k).None? && Lookup(st1, k) == Lookup(st, k)
    ensures forall g :: g in out <==> g in sorted || (Lookup(st, g).Some? && Lookup(after, g).None?)
    ensures forall g :: g in out && g !in sorted && g != lexKey ==> Lookup(st, g) == Some(out[g])
    ensures forall k :: k in bucket ==> k in out && out[k] == bucket[k]
  {
    forall k | k in bucket
      ensures k in out && out[k] == bucket[k]
    {
      assert k in gs;
    }
  }

  /** What reading the saved files back adds to sortedData: the records the save took, as registered. */
  lemma SortedDataRestored(base: string, props: PropertyTable, st: Store, dirs: set<string>, files: map<string, Element>,
                           high: map<string, Element>, sorted: map<string, Element>, listing: seq<string>)
    requires RoundTripReady(base, props, st, files, high, sorted)
    requires NestReversals(base, props, st, dirs, files).Ok?
    requires IsListing(listing, MatchingFiles(NestReversals(base, props, st, dirs, files).value.files, ReversalDir(base), ReversalExtension))
    ensures var saved := NestReversals(base, props, st, dirs, files).value;
      var l := LoadIndexes(listing, saved.files, high[LexDbClass], props, Loaded(sorted, map[]));
      var bucket := st.classData[ReversalIndexClass];
      && l.Ok?
      && Extends(l.value.sorted, sorted)
      && (forall g :: g in l.value.sorted <==> g in sorted || (Lookup(st, g).Some? && Lookup(saved.store, g).None?))
      && (forall g :: g in l.value.sorted && g !in sorted && g != LexDbKey(st) ==> Lookup(st, g) == Some(l.value.sorted[g]))
      && (forall k :: k in bucket ==> k in l.value.sorted && l.value.sorted[k] == bucket[k])
  {
    var bucket := st.classData[ReversalIndexClass];
    var lexKey := LexDbKey(st);
    var st1 := EmptyReversalIndexes(st, lexKey).value;
    var saved := NestReversals(base, props, st, dirs, files).value;
    var l := LoadIndexes(listing, saved.files, high[LexDbClass], props, Loaded(sorted, map[]));
    ReversalsReload(base, props, st, dirs, files, high, sorted, listing);
    TakenAreListed(base, props, st, dirs, files, high, sorted, listing);
    var gs := ListedGuids(listing, saved.files, props, st1).value;
    assert forall k :: k in bucket ==>
        Lookup(st, k) == Some(bucket[k]) && Lookup(saved.store, k).None? && Lookup(st1, k) == Lookup(st, k) by {
      forall k | k in bucket
        ensures Lookup(st, k) == Some(bucket[k]) && Lookup(saved.store, k).None? && Lookup(st1, k) == Lookup(st, k)
      {
        IndexTaken(base, props, st, dirs, files, high, sorted, k);
        NestReversalsRun(base, props, st, dirs, files);
        EmptiedLookup(st, lexKey);
      }
    }
    assert forall g :: g != lexKey ==> Lookup(st1, g) == Lookup(st, g) by {
      NestReversalsRun(base, props, st, dirs, files);
      EmptiedLookup(st, lexKey);
    }
    RestoredFromSave(l.value.sorted, sorted, gs, st, st1, saved.store, bucket, lexKey);
  }

  /**
   * Save then load of the Reversal context: saving the registry and reading
   * the files back (in whatever order the directory lists them) succeeds,
   * and
   * - LexDb's ReversalIndexes in highLevelData receives one owning marker
   *   per index, for its lower-cased GUID, in key order;
   * - sortedData keeps what it held and gains exactly the records the save
   *   took out of the registry, each as it was registered (the LexDb record
   *   the save emptied aside), so every index is back as it was.
   */
  lemma SaveThenLoadReversals(base: string, props: PropertyTable, st: Store, dirs: set<string>, files: map<string, Element>,
                              high: map<string, Element>, sorted: map<string, Element>, listing: seq<string>)
    requires RoundTripReady(base, props, st, files, high, sorted)
    requires NestReversals(base, props, st, dirs, files).Ok?
    requires IsListing(listing, MatchingFiles(NestReversals(base, props, st, dirs, files).value.files, ReversalDir(base), ReversalExtension))
    ensures var saved := NestReversals(base, props, st, dirs, files).value;
      var r := FlattenReversals(base, listing, saved.files, saved.directories, high, sorted, props);
      var bucket := st.classData[ReversalIndexClass];
      && r.Ok?
      && r.value.highLevelData
         == high[LexDbClass := WithAppended(high[LexDbClass], ReversalIndexesProp, Markers(LowerKeys(bucket))).value]
      && Extends(r.value.sortedData, sorted)
      && (forall g :: g in r.value.sortedData <==> g in sorted || (Lookup(st, g).Some? && Lookup(saved.store, g).None?))
      && (forall g :: g in r.value.sortedData && g !in sorted && g != LexDbKey(st) ==> Lookup(st, g) == Some(r.value.sortedData[g]))
      && (forall k :: k in bucket ==> k in r.value.sortedData && r.value.sortedData[k] == bucket[k])
  {
    var bucket := st.classData[ReversalIndexClass];
    var saved := NestReversals(base, props, st, dirs, files).value;
    var l := LoadIndexes(listing, saved.files, high[LexDbClass], props, Loaded(sorted, map[]));
    SortedDataRestored(base, props, st, dirs, files, high, sorted, listing);
    LoadedKeysOfIndexes(base, props, st, dirs, files, high, sorted, listing);
    assert ReversalDir(base) in saved.directories by {
      SaveWritesOneFilePerIndex(base, props, st, dirs, files);
    }
    var r := FlattenReversals(base, listing, saved.files, saved.directories, high, sorted, props);
    assert r.Ok? && r.value.sortedData == l.value.sorted by {
      FlattenReversalsLoads(base, listing, saved.files, saved.directories, high, sorted, props);
    }
    ReversalIndexesRefilled(base, listing, saved.files, saved.directories, high, sorted, props);
  }
}
