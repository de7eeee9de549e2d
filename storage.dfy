/**
 * The mutable state the bounded-context services work on: the file system
 * (directories and the XML documents stored under each path), the flat
 * registry the save side nests out of (`classData` plus the GUID-to-class
 * map) and the two dictionaries the load side fills (`highLevelData` and
 * `sortedData`). The failures the services can run into are collected in
 * ServiceError.
 */
module Storage {
  import opened Wrappers
  import opened Xml
  import opened Nesting
  import opened NestingLaws
  import opened Flattening
  import NestingService

  /**
   * The exception a service call ends with. C# throws these from the
   * dictionary indexer, from dereferencing a missing element or attribute,
   * from indexing an empty list and from a duplicate Add.
   */
  datatype ServiceError =
    | KeyNotFound(key: string)
    | ElementMissing(parent: string, name: string)
    | AttributeMissing(element: string, attr: string)
    | NoElements(parent: string, name: string)
    | FileNotFound(path: string)
    | DuplicateKey(key: string)
    | NestingFailed(nestError: NestError)
    | FlatteningFailed(flattenError: FlattenError)

  /**
   * What a procedure that returns only success or an error achieved: on
   * success the state it leaves, on failure the error (a failure may leave
   * partial work behind, which the outcome does not describe).
   */
  function Outcome<S>(r: Result<(), ServiceError>, state: S): Result<S, ServiceError> {
    if r.Ok? then Ok(state) else Err(r.error)
  }

  /** highLevelData and sortedData after loading. */
  datatype Restored = Restored(highLevelData: map<string, Element>, sortedData: map<string, Element>)

  /** Path.Combine, with '/' as the separator. */
  function Combine(dir: string, name: string): string {
    dir + "/" + name
  }

  predicate EndsWith(s: string, suffix: string) {
    |suffix| <= |s| && s[|s| - |suffix|..] == suffix
  }

  /** `p` names a file directly inside `dir` whose name ends with `ext` (the pattern "*" + ext). */
  predicate InDirectory(p: string, dir: string, ext: string) {
    && |dir| + 1 <= |p| && p[..|dir|] == dir && p[|dir|] == '/'
    && (forall i :: |dir| + 1 <= i < |p| ==> p[i] != '/')
    && EndsWith(p[|dir| + 1..], ext)
  }

  lemma CombineInDirectory(dir: string, name: string, ext: string)
    ensures InDirectory(Combine(dir, name), dir, ext) <==> ('/' !in name && EndsWith(name, ext))
  {
    var p := Combine(dir, name);
    assert forall i :: |dir| + 1 <= i < |p| ==> p[i] == name[i - |dir| - 1];
    if '/' in name {
      var j :| 0 <= j < |name| && name[j] == '/';
      assert p[|dir| + 1 + j] == '/';
    }
  }

  /** Directory.GetFiles(dir, "*" + ext, SearchOption.TopDirectoryOnly), as a set. */
  function MatchingFiles(files: map<string, Element>, dir: string, ext: string): (r: set<string>)
    ensures forall p :: p in r <==> p in files && InDirectory(p, dir, ext)
  {
    set p | p in files && InDirectory(p, dir, ext)
  }

  /** `listing` enumerates the set `s`, each member once, in some order. */
  ghost predicate IsListing(listing: seq<string>, s: set<string>) {
    && (forall i, j :: 0 <= i < j < |listing| ==> listing[i] != listing[j])
    && (forall p :: p in listing <==> p in s)
  }

  /** The file system: the directories that exist and the document stored under each file path. */
  class FileSystem {
    var directories: set<string>
    var files: map<string, Element>

    constructor (directories: set<string>, files: map<string, Element>)
      ensures this.directories == directories && this.files == files
    {
      this.directories := directories;
      this.files := files;
    }

    /** Directory.CreateDirectory. */
    method CreateDirectory(dir: string)
      modifies this
      ensures directories == old(directories) + {dir} && files == old(files)
    {
      directories := directories + {dir};
    }

    /** FileWriterService.WriteNestedFile: the document replaces whatever the path held. */
    method WriteFile(path: string, doc: Element)
      modifies this
      ensures files == old(files)[path := doc] && directories == old(directories)
    {
      files := files[path := doc];
    }

    /** File.Delete: deleting a missing file is not an error. */
    method Delete(path: string)
      modifies this
      ensures files == old(files) - {path} && directories == old(directories)
    {
      files := files - {path};
    }
  }

  /** The flat registry: `classData` (class, then GUID, to record) and the GUID-to-class map. */
  class Registry {
    var classData: ClassData
    var guidToClass: GuidToClass

    function Contents(): Store
      reads this
    {
      Store(classData, guidToClass)
    }

    constructor (st: Store)
      ensures Contents() == st
    {
      classData := st.classData;
      guidToClass := st.guidToClass;
    }

    /** Stores `e` as the record under `key` in the bucket of class `cls`. */
    method SetRecord(cls: string, key: string, e: Element)
      requires cls in classData
      modifies this
      ensures classData == old(classData)[cls := old(classData)[cls][key := e]]
      ensures guidToClass == old(guidToClass)
    {
      classData := classData[cls := classData[cls][key := e]];
    }

    /**
     * NestObject(topLevelOnly, obj, exclusions, classData, guidToClassMapping)
     * on this registry: on success the object and exactly the records nested
     * into it are gone from the registry, every other record staying as it
     * was; on failure the registry is as it was.
     */
    method Nest(topLevelOnly: bool, obj: Element, exclusions: Exclusions, props: PropertyTable)
      returns (r: Result<Element, NestError>)
      modifies this
      ensures var spec := Nesting.Nest(topLevelOnly, obj, exclusions, props, old(Contents()));
        && (spec.Ok? ==> r == Ok(spec.value.value) && Contents() == spec.value.store)
        && (spec.Err? ==> r == Err(spec.error) && Contents() == old(Contents()))
      ensures r.Ok? ==>
        var gone := InlinedGuids(r.value, obj, true, Context(props, exclusions, topLevelOnly), old(Contents()));
        && gone.Some? && GuidAttr in obj.attrs
        && SubStore(Contents(), old(Contents()))
        && (forall g :: Lookup(Contents(), g).Some? <==>
              Lookup(old(Contents()), g).Some? && g != obj.attrs[GuidAttr] && g !in gone.value)
    {
      var n := NestingService.NestObject(topLevelOnly, Some(obj), Some(exclusions), Some(classData), Some(guidToClass), props);
      if n.Ok? {
        classData := n.value.store.classData;
        guidToClass := n.value.store.guidToClass;
        r := Ok(n.value.value);
      } else {
        r := Err(n.error);
      }
    }
  }

  /** The two dictionaries the load side fills: `highLevelData` (class to record) and `sortedData` (GUID to record). */
  class FlatData {
    var highLevelData: map<string, Element>
    var sortedData: map<string, Element>

    constructor (highLevelData: map<string, Element>, sortedData: map<string, Element>)
      ensures this.highLevelData == highLevelData && this.sortedData == sortedData
    {
      this.highLevelData := highLevelData;
      this.sortedData := sortedData;
    }

    /**
     * CmObjectFlatteningService.FlattenObject(source, sortedData, element, ownerGuid):
     * the flat record goes into `sortedData`; on failure nothing changes.
     */
    method Flatten(source: string, e: Element, ownerGuid: string, props: PropertyTable)
      returns (r: Result<Element, FlattenError>)
      modifies this
      ensures var spec := FlattenRecord(source, e, ownerGuid, props, old(sortedData));
        && (spec.Ok? ==> r == Ok(spec.value.value) && sortedData == spec.value.sorted)
        && (spec.Err? ==> r == Err(spec.error) && sortedData == old(sortedData))
      ensures highLevelData == old(highLevelData)
    {
      var f := FlattenRecord(source, e, ownerGuid, props, sortedData);
      if f.Ok? {
        sortedData := f.value.sorted;
        r := Ok(f.value.value);
      } else {
        r := Err(f.error);
      }
    }

    /** highLevelData[key] = e. */
    method SetHighLevel(key: string, e: Element)
      modifies this
      ensures highLevelData == old(highLevelData)[key := e] && sortedData == old(sortedData)
    {
      highLevelData := highLevelData[key := e];
    }
  }
}
