/**
 * The Scripture bounded context (ScriptureBoundedContextService).
 *
 * Save (NestContext): the singleton Scripture object is nested, with
 * everything it owns, out of the registry; its `ownerguid` is dropped and it
 * is written as the only child of a `TranslatedScripture` root into the
 * translation file of the scripture directory. LangProject's
 * `TranslatedScripture` property is emptied, and the fourteen scripture
 * classes are handed to list processing.
 *
 * Load (FlattenContext): the first child of the file's `TranslatedScripture`
 * root is the Scripture object; an owning marker for it goes back into
 * LangProject's `TranslatedScripture`, it is flattened with the lower-cased
 * LangProject GUID as owner, and it joins highLevelData under its class.
 *
 * Remove (RemoveBoundedContextData): the translation file is deleted. The
 * code deletes the bare file name rather than the file of the scripture
 * directory; both readings are modelled below.
 */
module Scripture {
  import opened Wrappers
  import opened Xml
  import opened Nesting
  import opened NestingLaws
  import opened Flattening
  import opened RoundTrip
  import opened Storage

  const LangProjectClass := "LangProject"
  const ScriptureClass := "Scripture"
  const TranslatedScriptureTag := "TranslatedScripture"
  /** SharedConstants.ScriptureTransFilename: a bare file name, without a directory part. */
  const ScriptureTransFilename := "Scripture.trans"

  /** The classes NestContext hands to ObjectFinderServices.ProcessLists (lines 38-42). */
  const ScriptureClasses: set<string> := {
    ScriptureClass,
    "ScrBook", "ScrSection", "ScrTxtPara", "ScrFootnote", "ScrDifference",
    "ScrImportSet", "ScrImportSource", "ScrImportP6Project", "ScrImportSFFiles", "ScrMarkerMapping",
    "ScrBookAnnotations", "ScrScriptureNote", "ScrCheckRun" }

  /** The translation file of the scripture directory `dir`. */
  function ScripturePath(dir: string): string {
    Combine(dir, ScriptureTransFilename)
  }

  // ---------------------------------------------------------------------------
  // The document
  // ---------------------------------------------------------------------------

  /** The nested Scripture object once its `ownerguid` attribute is removed (line 28). */
  function WithoutOwner(n: Element): (s: Element)
    ensures OwnerGuidAttr !in s.attrs
    ensures s.name == n.name && s.text == n.text && s.children == n.children
    ensures forall a :: a in n.attrs && a != OwnerGuidAttr ==> a in s.attrs && s.attrs[a] == n.attrs[a]
  {
    n.(attrs := n.attrs - {OwnerGuidAttr})
  }

  /** doc.Element("TranslatedScripture").Elements().First(), lines 54-55. */
  function ScriptureFromDocument(doc: Element): (r: Result<Element, ServiceError>)
    ensures r.Ok? <==> doc.name == TranslatedScriptureTag && doc.children != []
  {
    if doc.name != TranslatedScriptureTag then Err(ElementMissing("document", TranslatedScriptureTag))
    else if doc.children == [] then Err(NoElements(TranslatedScriptureTag, ScriptureClass))
    else Ok(doc.children[0])
  }

  /** The document of lines 33-34: a `TranslatedScripture` root whose one child is the Scripture object. */
  function ScriptureDocument(s: Element): (doc: Element)
    ensures ScriptureFromDocument(doc) == Ok(s)
    ensures doc.name == TranslatedScriptureTag && |doc.children| == 1
  {
    Node(TranslatedScriptureTag, [s])
  }

  // ---------------------------------------------------------------------------
  // Save: NestContext
  // ---------------------------------------------------------------------------

  /** The registry and files after saving, with the classes handed to list processing. */
  datatype ScriptureSaved = ScriptureSaved(store: Store, files: map<string, Element>, lists: set<string>)

  /**
   * The registry once the emptied LangProject record `lp` stands under `key`
   * again. The record is the caller's element; when nesting has taken it out
   * of the registry, emptying it leaves the registry as it is.
   */
  function WithLangProject(st: Store, key: string, lp: Element): (r: Store)
    ensures r.guidToClass == st.guidToClass && r.classData.Keys == st.classData.Keys
    ensures forall c :: c in st.classData ==> r.classData[c].Keys == st.classData[c].Keys
    ensures LangProjectClass in st.classData && key in st.classData[LangProjectClass] ==>
      r.classData[LangProjectClass][key] == lp
    ensures forall c, k :: c in st.classData && k in st.classData[c] && (c, k) != (LangProjectClass, key) ==>
      r.classData[c][k] == st.classData[c][k]
    ensures forall g :: Lookup(r, g).Some? <==> Lookup(st, g).Some?
  {
    if LangProjectClass in st.classData && key in st.classData[LangProjectClass]
    then Store(st.classData[LangProjectClass := st.classData[LangProjectClass][key := lp]], st.guidToClass)
    else st
  }

  /** The files once the document of the nested object `n` is written (lines 30-34). */
  function Written(base: string, n: Element, files: map<string, Element>): (r: map<string, Element>)
    ensures r.Keys == files.Keys + {ScripturePath(base)}
    ensures forall p :: p in files && p != ScripturePath(base) ==> r[p] == files[p]
    ensures ScriptureFromDocument(r[ScripturePath(base)]) == Ok(WithoutOwner(n))
  {
    files[ScripturePath(base) := ScriptureDocument(WithoutOwner(n))]
  }

  /**
   * NestContext(languageProjectElement, scriptureElement, ..., baseDirectory,
   * classData, guidToClassMapping, skipWriteEmptyClassFiles), lines 13-43,
   * where languageProjectElement is the LangProject record filed under
   * `lpKey` and `base` is the scripture directory the caller has created.
   */
  function NestScripture(base: string, lpKey: string, scripture: Element, props: PropertyTable, st: Store,
                         files: map<string, Element>): (r: Result<ScriptureSaved, ServiceError>)
    requires LangProjectClass in st.classData && lpKey in st.classData[LangProjectClass]
    ensures r.Ok? ==> r.value.lists == ScriptureClasses
    ensures r.Ok? ==> r.value.files.Keys == files.Keys + {ScripturePath(base)}
    ensures r.Ok? ==> forall p :: p in files && p != ScripturePath(base) ==> r.value.files[p] == files[p]
  {
    match Nest(false, scripture, map[], props, st)
    case Err(e) => Err(NestingFailed(e))
    case Ok(nested) =>
      if OwnerGuidAttr !in nested.value.attrs then Err(AttributeMissing(nested.value.name, OwnerGuidAttr))
      else
        var files1 := Written(base, nested.value, files);
        match WithEmptied(st.classData[LangProjectClass][lpKey], TranslatedScriptureTag)
        case None => Err(ElementMissing(LangProjectClass, TranslatedScriptureTag))
        case Some(lp) => Ok(ScriptureSaved(WithLangProject(nested.store, lpKey, lp), files1, ScriptureClasses))
  }

  /**
   * NestContext as the procedure it is: nesting takes the Scripture records
   * out of the registry, the file is written, LangProject's
   * TranslatedScripture is emptied in place, and the scripture classes go to
   * list processing (returned as `lists`).
   */
  method NestContext(base: string, lpKey: string, scripture: Element, reg: Registry, fs: FileSystem, props: PropertyTable)
    returns (r: Result<(), ServiceError>, lists: set<string>)
    requires LangProjectClass in reg.classData && lpKey in reg.classData[LangProjectClass]
    modifies reg, fs
    ensures fs.directories == old(fs.directories)
    ensures NestScripture(base, lpKey, scripture, props, old(reg.Contents()), old(fs.files))
         == Outcome(r, ScriptureSaved(reg.Contents(), fs.files, lists))
  {
    var languageProject := reg.classData[LangProjectClass][lpKey];
    var nested := reg.Nest(false, scripture, map[], props);
    if nested.Err? {
      return Err(NestingFailed(nested.error)), {};
    }
    var scriptureElement := nested.value;
    if OwnerGuidAttr !in scriptureElement.attrs {
      return Err(AttributeMissing(scriptureElement.name, OwnerGuidAttr)), {};
    }
    scriptureElement := WithoutOwner(scriptureElement);
    fs.WriteFile(ScripturePath(base), ScriptureDocument(scriptureElement));
    var emptied := WithEmptied(languageProject, TranslatedScriptureTag);
    if emptied.None? {
      return Err(ElementMissing(LangProjectClass, TranslatedScriptureTag)), {};
    }
    if LangProjectClass in reg.classData && lpKey in reg.classData[LangProjectClass] {
      reg.SetRecord(LangProjectClass, lpKey, emptied.value);
    }
    return Ok(()), ScriptureClasses;
  }

  /**
   * Saving succeeds exactly when nesting does, the Scripture object carries
   * an `ownerguid` and LangProject has a TranslatedScripture property.
   */
  lemma NestScriptureSucceeds(base: string, lpKey: string, scripture: Element, props: PropertyTable, st: Store,
                              files: map<string, Element>)
    requires LangProjectClass in st.classData && lpKey in st.classData[LangProjectClass]
    ensures NestScripture(base, lpKey, scripture, props, st, files).Ok? <==>
      && Nest(false, scripture, map[], props, st).Ok?
      && OwnerGuidAttr in scripture.attrs
      && Child(st.classData[LangProjectClass][lpKey], TranslatedScriptureTag).Some?
  {
    var nested := Nest(false, scripture, map[], props, st);
    if nested.Ok? {
      NestForm(false, scripture, map[], props, st, st);
      assert nested.value.value.attrs == scripture.attrs - {ClassAttr};
    }
  }

  /** A successful save, taken apart: the nested object, the emptied LangProject record, the files written. */
  lemma NestScriptureParts(base: string, lpKey: string, scripture: Element, props: PropertyTable, st: Store,
                           files: map<string, Element>)
    requires LangProjectClass in st.classData && lpKey in st.classData[LangProjectClass]
    requires NestScripture(base, lpKey, scripture, props, st, files).Ok?
    ensures Nest(false, scripture, map[], props, st).Ok?
    ensures OwnerGuidAttr in Nest(false, scripture, map[], props, st).value.value.attrs
    ensures WithEmptied(st.classData[LangProjectClass][lpKey], TranslatedScriptureTag).Some?
    ensures var nested := Nest(false, scripture, map[], props, st).value;
      NestScripture(base, lpKey, scripture, props, st, files).value
      == ScriptureSaved(WithLangProject(nested.store, lpKey,
                                        WithEmptied(st.classData[LangProjectClass][lpKey], TranslatedScriptureTag).value),
                        Written(base, nested.value, files), ScriptureClasses)
  {
  }

  /**
   * The file written holds the Scripture object nested as the root of its
   * tree: named after its class, without `class` and `ownerguid`, every other
   * attribute kept.
   */
  lemma NestScriptureWrites(base: string, lpKey: string, scripture: Element, props: PropertyTable, st: Store,
                            files: map<string, Element>)
    requires LangProjectClass in st.classData && lpKey in st.classData[LangProjectClass]
    requires NestScripture(base, lpKey, scripture, props, st, files).Ok?
    ensures var saved := NestScripture(base, lpKey, scripture, props, st, files).value;
      && ScripturePath(base) in saved.files
      && ScriptureFromDocument(saved.files[ScripturePath(base)]).Ok?
      && var s := ScriptureFromDocument(saved.files[ScripturePath(base)]).value;
      && ClassAttr in scripture.attrs
      && s.name == scripture.attrs[ClassAttr]
      && s.attrs == (scripture.attrs - {ClassAttr}) - {OwnerGuidAttr}
  {
    NestScriptureParts(base, lpKey, scripture, props, st, files);
    var n := Nest(false, scripture, map[], props, st).value.value;
    NestForm(false, scripture, map[], props, st, st);
    assert n.attrs == scripture.attrs - {ClassAttr};
    var saved := NestScripture(base, lpKey, scripture, props, st, files).value;
    assert ScriptureFromDocument(saved.files[ScripturePath(base)]).value == WithoutOwner(n);
    assert WithoutOwner(n).attrs == (scripture.attrs - {ClassAttr}) - {OwnerGuidAttr};
  }

  /**
   * After saving, LangProject's TranslatedScripture holds nothing (when the
   * record is still in the registry), every other record is the one nesting
   * left, and every record left was in the registry before. The Scripture
   * object and exactly the records nested into it are gone from the
   * registry; every other record is still there.
   */
  lemma NestScriptureEmptiesTranslatedScripture(base: string, lpKey: string, scripture: Element, props: PropertyTable,
                                                st: Store, files: map<string, Element>)
    requires LangProjectClass in st.classData && lpKey in st.classData[LangProjectClass]
    requires NestScripture(base, lpKey, scripture, props, st, files).Ok?
    ensures var after := NestScripture(base, lpKey, scripture, props, st, files).value.store;
      var nested := Nest(false, scripture, map[], props, st).value.store;
      && (LangProjectClass in after.classData && lpKey in after.classData[LangProjectClass] ==>
            && Child(after.classData[LangProjectClass][lpKey], TranslatedScriptureTag).Some?
            && Child(after.classData[LangProjectClass][lpKey], TranslatedScriptureTag).value.children == [])
      && (forall c, k :: c in after.classData && k in after.classData[c] && (c, k) != (LangProjectClass, lpKey) ==>
            c in nested.classData && k in nested.classData[c] && after.classData[c][k] == nested.classData[c][k])
      && (forall c, k :: c in after.classData && k in after.classData[c] ==>
            c in st.classData && k in st.classData[c])
    ensures var after := NestScripture(base, lpKey, scripture, props, st, files).value.store;
      var gone := InlinedGuids(Nest(false, scripture, map[], props, st).value.value, scripture, true,
                               Context(props, map[], false), st);
      && gone.Some? && GuidAttr in scripture.attrs
      && (forall g :: Lookup(after, g).Some? <==>
            Lookup(st, g).Some? && g != scripture.attrs[GuidAttr] && g !in gone.value)
  {
    NestScriptureParts(base, lpKey, scripture, props, st, files);
    NestTakes(false, scripture, map[], props, st, st);
  }

  // ---------------------------------------------------------------------------
  // Load: FlattenContext
  // ---------------------------------------------------------------------------

  /** FlattenContext(highLevelData, sortedData, scriptureBaseDir), lines 45-66. */
  function FlattenScripture(base: string, files: map<string, Element>, dirs: set<string>,
                            high: map<string, Element>, sorted: map<string, Element>, props: PropertyTable)
    : (r: Result<Restored, ServiceError>)
    ensures base !in dirs ==> r == Ok(Restored(high, sorted))
    ensures base in dirs && ScripturePath(base) !in files ==> r == Err(FileNotFound(ScripturePath(base)))
    ensures r.Ok? ==> Extends(r.value.sortedData, sorted) && high.Keys <= r.value.highLevelData.Keys
  {
    var path := ScripturePath(base);
    if base !in dirs then Ok(Restored(high, sorted))
    else if path !in files then Err(FileNotFound(path))
    else match ScriptureFromDocument(files[path])
      case Err(e) => Err(e)
      case Ok(scr) =>
        if LangProjectClass !in high then Err(KeyNotFound(LangProjectClass))
        else match RestoreObjsur(high[LangProjectClass], TranslatedScriptureTag, scr)
          case None => Err(AttributeMissing(scr.name, GuidAttr))
          case Some(langProj) =>
            if GuidAttr !in langProj.attrs then Err(AttributeMissing(LangProjectClass, GuidAttr))
            else match FlattenRecord(path, scr, ToLower(langProj.attrs[GuidAttr]), props, sorted)
              case Err(e) => Err(FlatteningFailed(e))
              case Ok(f) =>
                var high1 := high[LangProjectClass := langProj];
                var cls := f.value.attrs[ClassAttr];
                if cls in high1 then Err(ServiceError.DuplicateKey(cls))
                else Ok(Restored(high1[cls := f.value], f.sorted))
  }

  /**
   * FlattenContext as the procedure it is: the marker goes into the
   * LangProject record of highLevelData in place, the object is flattened
   * into sortedData and then added to highLevelData.
   */
  method FlattenContext(base: string, fs: FileSystem, data: FlatData, props: PropertyTable)
    returns (r: Result<(), ServiceError>)
    modifies data
    ensures FlattenScripture(base, fs.files, fs.directories, old(data.highLevelData), old(data.sortedData), props)
         == Outcome(r, Restored(data.highLevelData, data.sortedData))
  {
    if base !in fs.directories {
      return Ok(());
    }
    var path := ScripturePath(base);
    if path !in fs.files {
      return Err(FileNotFound(path));
    }
    var scr := ScriptureFromDocument(fs.files[path]);
    if scr.Err? {
      return Err(scr.error);
    }
    var scrElement := scr.value;
    if LangProjectClass !in data.highLevelData {
      return Err(KeyNotFound(LangProjectClass));
    }
    var restored := RestoreObjsur(data.highLevelData[LangProjectClass], TranslatedScriptureTag, scrElement);
    if restored.None? {
      return Err(AttributeMissing(scrElement.name, GuidAttr));
    }
    var langProjElement := restored.value;
    data.SetHighLevel(LangProjectClass, langProjElement);
    if GuidAttr !in langProjElement.attrs {
      return Err(AttributeMissing(LangProjectClass, GuidAttr));
    }
    var flat := data.Flatten(path, scrElement, ToLower(langProjElement.attrs[GuidAttr]), props);
    if flat.Err? {
      return Err(FlatteningFailed(flat.error));
    }
    var cls := flat.value.attrs[ClassAttr];
    if cls in data.highLevelData {
      return Err(ServiceError.DuplicateKey(cls));
    }
    data.SetHighLevel(cls, flat.value);
    return Ok(());
  }

  /** A successful load, taken apart: the object read, LangProject with its marker, the flattened record. */
  lemma FlattenScriptureParts(base: string, files: map<string, Element>, dirs: set<string>,
                              high: map<string, Element>, sorted: map<string, Element>, props: PropertyTable)
    requires base in dirs
    requires FlattenScripture(base, files, dirs, high, sorted, props).Ok?
    ensures ScripturePath(base) in files && ScriptureFromDocument(files[ScripturePath(base)]).Ok?
    ensures LangProjectClass in high
    ensures var scr := ScriptureFromDocument(files[ScripturePath(base)]).value;
      && RestoreObjsur(high[LangProjectClass], TranslatedScriptureTag, scr).Some?
      && var lp := RestoreObjsur(high[LangProjectClass], TranslatedScriptureTag, scr).value;
      && GuidAttr in lp.attrs
      && var f := FlattenRecord(ScripturePath(base), scr, ToLower(lp.attrs[GuidAttr]), props, sorted);
      && f.Ok?
      && f.value.value.attrs[ClassAttr] !in high[LangProjectClass := lp]
      && FlattenScripture(base, files, dirs, high, sorted, props).value
         == Restored(high[LangProjectClass := lp][f.value.value.attrs[ClassAttr] := f.value.value], f.value.sorted)
  {
  }

  /**
   * What a successful load did: LangProject's TranslatedScripture gained an
   * owning marker for the Scripture object, the object is in sortedData as a
   * flat record owned by the lower-cased LangProject GUID, the same record
   * is in highLevelData under its class, and no other class changed.
   */
  lemma FlattenScriptureRestores(base: string, files: map<string, Element>, dirs: set<string>,
                                 high: map<string, Element>, sorted: map<string, Element>, props: PropertyTable)
    requires base in dirs
    requires FlattenScripture(base, files, dirs, high, sorted, props).Ok?
    ensures ScripturePath(base) in files && ScriptureFromDocument(files[ScripturePath(base)]).Ok?
    ensures LangProjectClass in high && GuidAttr in high[LangProjectClass].attrs
    ensures var scr := ScriptureFromDocument(files[ScripturePath(base)]).value;
      var r := FlattenScripture(base, files, dirs, high, sorted, props).value;
      var lp := high[LangProjectClass];
      && GuidAttr in scr.attrs && NestedClass(scr).Some?
      && var guid := scr.attrs[GuidAttr];
      && var cls := NestedClass(scr).value;
      && cls !in high
      && r.highLevelData.Keys == high.Keys + {cls}
      && (forall c :: c in high && c != LangProjectClass ==> r.highLevelData[c] == high[c])
      && r.highLevelData[LangProjectClass].name == lp.name
      && r.highLevelData[LangProjectClass].attrs == lp.attrs
      && Child(r.highLevelData[LangProjectClass], TranslatedScriptureTag).Some?
      && Child(r.highLevelData[LangProjectClass], TranslatedScriptureTag).value.children
         == (if Child(lp, TranslatedScriptureTag).Some? then Child(lp, TranslatedScriptureTag).value.children else [])
            + [ObjSur(guid)]
      && guid !in sorted && guid in r.sortedData
      && r.highLevelData[cls] == r.sortedData[guid]
      && OwnerGuidAttr in r.sortedData[guid].attrs
      && r.sortedData[guid].attrs[OwnerGuidAttr] == ToLower(lp.attrs[GuidAttr])
  {
    FlattenScriptureParts(base, files, dirs, high, sorted, props);
  }

  /** Flattening sets `ownerguid` itself, so it does not matter whether the nested record still carries one. */
  lemma FlattenIgnoresOwnerGuid(source: string, e: Element, owner: string, props: PropertyTable, sorted: map<string, Element>)
    ensures FlattenRecord(source, WithoutOwner(e), owner, props, sorted) == FlattenRecord(source, e, owner, props, sorted)
  {
    var s := WithoutOwner(e);
    assert NestedClass(s) == NestedClass(e);
    if NestedClass(e).Some? {
      var cls := NestedClass(e).value;
      assert s.attrs[ClassAttr := cls][OwnerGuidAttr := owner] == e.attrs[ClassAttr := cls][OwnerGuidAttr := owner];
    }
  }

  /**
   * Saving and loading again give the Scripture object back. The load cannot
   * fail when the scripture directory exists, LangProject is in
   * highLevelData, the Scripture class is not, and no record the save took
   * out of the registry is already in sortedData. The record sortedData and
   * highLevelData receive is the registry's flat record itself (its
   * `ownerguid` being the lower-cased LangProject GUID), and LangProject's
   * TranslatedScripture ends with its marker.
   */
  lemma SaveThenLoadScripture(base: string, lpKey: string, scripture: Element, props: PropertyTable, st: Store,
                              files: map<string, Element>, dirs: set<string>,
                              high: map<string, Element>, sorted: map<string, Element>)
    requires FlatRecord(scripture, props, st) && FlatRegistry(st, props)
    requires LangProjectClass in st.classData && lpKey in st.classData[LangProjectClass]
    requires NestScripture(base, lpKey, scripture, props, st, files).Ok?
    requires base in dirs
    requires LangProjectClass in high && GuidAttr in high[LangProjectClass].attrs
    requires scripture.attrs[OwnerGuidAttr] == ToLower(high[LangProjectClass].attrs[GuidAttr])
    requires scripture.attrs[ClassAttr] !in high && scripture.attrs[ClassAttr] != LangProjectClass
    requires scripture.attrs[GuidAttr] !in sorted
    requires forall g :: Lookup(st, g).Some? && Lookup(NestScripture(base, lpKey, scripture, props, st, files).value.store, g).None? ==>
      g !in sorted
    ensures var saved := NestScripture(base, lpKey, scripture, props, st, files).value;
      var load := FlattenScripture(base, saved.files, dirs, high, sorted, props);
      var guid := scripture.attrs[GuidAttr];
      && load.Ok?
      && guid in load.value.sortedData && load.value.sortedData[guid] == scripture
      && scripture.attrs[ClassAttr] in load.value.highLevelData
      && load.value.highLevelData[scripture.attrs[ClassAttr]] == scripture
      && Child(load.value.highLevelData[LangProjectClass], TranslatedScriptureTag).Some?
      && ObjSur(guid) in Child(load.value.highLevelData[LangProjectClass], TranslatedScriptureTag).value.children
  {
    var lp, fs := SaveThenLoadScriptureSteps(base, lpKey, scripture, props, st, files, dirs, high, sorted);
  }

  /**
   * Save then load, the records: sortedData gains the Scripture object and
   * exactly the records the save took out of the registry, each as the
   * registry held it.
   */
  lemma SaveThenLoadScriptureRecords(base: string, lpKey: string, scripture: Element, props: PropertyTable, st: Store,
                                     files: map<string, Element>, dirs: set<string>,
                                     high: map<string, Element>, sorted: map<string, Element>)
    requires FlatRecord(scripture, props, st) && FlatRegistry(st, props)
    requires LangProjectClass in st.classData && lpKey in st.classData[LangProjectClass]
    requires NestScripture(base, lpKey, scripture, props, st, files).Ok?
    requires base in dirs
    requires LangProjectClass in high && GuidAttr in high[LangProjectClass].attrs
    requires scripture.attrs[OwnerGuidAttr] == ToLower(high[LangProjectClass].attrs[GuidAttr])
    requires scripture.attrs[ClassAttr] !in high && scripture.attrs[ClassAttr] != LangProjectClass
    requires scripture.attrs[GuidAttr] !in sorted
    requires forall g :: Lookup(st, g).Some? && Lookup(NestScripture(base, lpKey, scripture, props, st, files).value.store, g).None? ==>
      g !in sorted
    ensures var saved := NestScripture(base, lpKey, scripture, props, st, files).value;
      var load := FlattenScripture(base, saved.files, dirs, high, sorted, props);
      && load.Ok?
      && (forall g :: g in load.value.sortedData <==>
            g in sorted || g == scripture.attrs[GuidAttr] || (Lookup(st, g).Some? && Lookup(saved.store, g).None?))
      && (forall g :: g != scripture.attrs[GuidAttr] && Lookup(st, g).Some? && Lookup(saved.store, g).None? ==>
            load.value.sortedData[g] == Lookup(st, g).value)
  {
    var lp, fs := SaveThenLoadScriptureSteps(base, lpKey, scripture, props, st, files, dirs, high, sorted);
  }

  /** The load of a saved Scripture object, step by step: LangProject with its marker, and sortedData. */
  lemma SaveThenLoadScriptureSteps(base: string, lpKey: string, scripture: Element, props: PropertyTable, st: Store,
                                   files: map<string, Element>, dirs: set<string>,
                                   high: map<string, Element>, sorted: map<string, Element>)
    returns (lp: Element, fs: map<string, Element>)
    requires FlatRecord(scripture, props, st) && FlatRegistry(st, props)
    requires LangProjectClass in st.classData && lpKey in st.classData[LangProjectClass]
    requires NestScripture(base, lpKey, scripture, props, st, files).Ok?
    requires base in dirs
    requires LangProjectClass in high && GuidAttr in high[LangProjectClass].attrs
    requires scripture.attrs[OwnerGuidAttr] == ToLower(high[LangProjectClass].attrs[GuidAttr])
    requires scripture.attrs[ClassAttr] !in high && scripture.attrs[ClassAttr] != LangProjectClass
    requires scripture.attrs[GuidAttr] !in sorted
    requires forall g :: Lookup(st, g).Some? && Lookup(NestScripture(base, lpKey, scripture, props, st, files).value.store, g).None? ==>
      g !in sorted
    ensures var saved := NestScripture(base, lpKey, scripture, props, st, files).value;
      && FlattenScripture(base, saved.files, dirs, high, sorted, props)
         == Ok(Restored(high[LangProjectClass := lp][scripture.attrs[ClassAttr] := scripture], fs))
      && Child(lp, TranslatedScriptureTag).Some?
      && ObjSur(scripture.attrs[GuidAttr]) in Child(lp, TranslatedScriptureTag).value.children
      && scripture.attrs[GuidAttr] in fs && fs[scripture.attrs[GuidAttr]] == scripture
      && (forall g :: g in fs <==>
            g in sorted || g == scripture.attrs[GuidAttr] || (Lookup(st, g).Some? && Lookup(saved.store, g).None?))
      && (forall g :: g != scripture.attrs[GuidAttr] && Lookup(st, g).Some? && Lookup(saved.store, g).None? ==>
            fs[g] == Lookup(st, g).value)
  {
    SavedScriptureFile(base, lpKey, scripture, props, st, files);
    var saved := NestScripture(base, lpKey, scripture, props, st, files).value;
    var path := ScripturePath(base);
    var nested := Nest(false, scripture, map[], props, st).value;
    var owner := ToLower(high[LangProjectClass].attrs[GuidAttr]);
    var scr := WithoutOwner(nested.value);
    FlattenSavedScripture(path, scripture, props, st, sorted, owner);
    FlattenScriptureOk(base, saved.files, dirs, high, sorted, props, scr);
    lp := RestoreObjsur(high[LangProjectClass], TranslatedScriptureTag, scr).value;
    fs := FlattenRecord(path, scr, owner, props, sorted).value.sorted;
  }

  /** What a successful save leaves for the load: the file of the object, and the registry nesting left. */
  lemma SavedScriptureFile(base: string, lpKey: string, scripture: Element, props: PropertyTable, st: Store,
                           files: map<string, Element>)
    requires LangProjectClass in st.classData && lpKey in st.classData[LangProjectClass]
    requires NestScripture(base, lpKey, scripture, props, st, files).Ok?
    ensures Nest(false, scripture, map[], props, st).Ok?
    ensures var saved := NestScripture(base, lpKey, scripture, props, st, files).value;
      var nested := Nest(false, scripture, map[], props, st).value;
      && ScripturePath(base) in saved.files
      && ScriptureFromDocument(saved.files[ScripturePath(base)]) == Ok(WithoutOwner(nested.value))
      && forall g :: Lookup(saved.store, g).Some? <==> Lookup(nested.store, g).Some?
  {
    NestScriptureParts(base, lpKey, scripture, props, st, files);
  }

  /** The object as the file holds it, without `ownerguid`, flattens back as NestThenFlatten says. */
  lemma FlattenSavedScripture(path: string, scripture: Element, props: PropertyTable, st: Store,
                              sorted: map<string, Element>, owner: string)
    requires FlatRecord(scripture, props, st) && FlatRegistry(st, props)
    requires Nest(false, scripture, map[], props, st).Ok?
    requires scripture.attrs[OwnerGuidAttr] == owner
    requires scripture.attrs[GuidAttr] !in sorted
    requires forall g :: Lookup(st, g).Some? && Lookup(Nest(false, scripture, map[], props, st).value.store, g).None? ==>
      g !in sorted
    ensures var n := Nest(false, scripture, map[], props, st).value;
      var f := FlattenRecord(path, WithoutOwner(n.value), owner, props, sorted);
      var guid := scripture.attrs[GuidAttr];
      && GuidAttr in WithoutOwner(n.value).attrs && WithoutOwner(n.value).attrs[GuidAttr] == guid
      && f.Ok? && f.value.value == scripture && guid in f.value.sorted && f.value.sorted[guid] == scripture
      && (forall g :: g in f.value.sorted <==> g in sorted || g == guid || (Lookup(st, g).Some? && Lookup(n.store, g).None?))
      && (forall g :: g != guid && Lookup(st, g).Some? && Lookup(n.store, g).None? ==> f.value.sorted[g] == Lookup(st, g).value)
  {
    var n := Nest(false, scripture, map[], props, st).value.value;
    NestForm(false, scripture, map[], props, st, st);
    assert n.attrs == scripture.attrs - {ClassAttr};
    FlattenIgnoresOwnerGuid(path, n, owner, props, sorted);
    NestThenFlatten(path, scripture, map[], props, st, sorted);
  }

  /** A load whose steps all go through: the result FlattenScripture computes. */
  lemma FlattenScriptureOk(base: string, files: map<string, Element>, dirs: set<string>,
                           high: map<string, Element>, sorted: map<string, Element>, props: PropertyTable, scr: Element)
    requires base in dirs && ScripturePath(base) in files
    requires ScriptureFromDocument(files[ScripturePath(base)]) == Ok(scr) && GuidAttr in scr.attrs
    requires LangProjectClass in high && GuidAttr in high[LangProjectClass].attrs
    requires var f := FlattenRecord(ScripturePath(base), scr, ToLower(high[LangProjectClass].attrs[GuidAttr]), props, sorted);
      f.Ok? && f.value.value.attrs[ClassAttr] !in high && f.value.value.attrs[ClassAttr] != LangProjectClass
    ensures RestoreObjsur(high[LangProjectClass], TranslatedScriptureTag, scr).Some?
    ensures var lp := RestoreObjsur(high[LangProjectClass], TranslatedScriptureTag, scr).value;
      var f := FlattenRecord(ScripturePath(base), scr, ToLower(high[LangProjectClass].attrs[GuidAttr]), props, sorted).value;
      FlattenScripture(base, files, dirs, high, sorted, props)
        == Ok(Restored(high[LangProjectClass := lp][f.value.attrs[ClassAttr] := f.value], f.sorted))
  {
  }

  // ---------------------------------------------------------------------------
  // Remove: RemoveBoundedContextData
  // ---------------------------------------------------------------------------

  /**
   * Lines 68-80 as written: the file checked and deleted is the bare file
   * name, a path relative to the working directory, not the file inside the
   * scripture directory.
   */
  function RemovedScriptureAsWritten(base: string, dirs: set<string>, files: map<string, Element>): (r: map<string, Element>)
    ensures forall p :: p in r ==> p in files && r[p] == files[p]
    ensures base in dirs ==> ScriptureTransFilename !in r
  {
    if base !in dirs then files
    else if ScriptureTransFilename in files then files - {ScriptureTransFilename}
    else files
  }

  /** As written, the translation file of the scripture directory survives the removal. */
  lemma AsWrittenKeepsTranslationFile(base: string, dirs: set<string>, files: map<string, Element>)
    requires ScripturePath(base) in files
    ensures ScripturePath(base) in RemovedScriptureAsWritten(base, dirs, files)
    ensures RemovedScriptureAsWritten(base, dirs, files)[ScripturePath(base)] == files[ScripturePath(base)]
  {
    assert |ScripturePath(base)| > |ScriptureTransFilename|;
  }

  /** What the method is for: the translation file of the scripture directory is gone, every other file stays. */
  function RemovedScripture(base: string, dirs: set<string>, files: map<string, Element>): (r: map<string, Element>)
    ensures forall p :: p in r <==> p in files && !(base in dirs && p == ScripturePath(base))
    ensures forall p :: p in r ==> r[p] == files[p]
  {
    if base !in dirs then files else files - {ScripturePath(base)}
  }

  /** RemoveBoundedContextData(scriptureBaseDir), deleting the file inside the scripture directory. */
  method RemoveBoundedContextData(base: string, fs: FileSystem)
    modifies fs
    ensures fs.files == RemovedScripture(base, old(fs.directories), old(fs.files))
    ensures fs.directories == old(fs.directories)
  {
    if base !in fs.directories {
      return;
    }
    var transScripPathname := ScripturePath(base);
    if transScripPathname in fs.files {
      fs.Delete(transScripPathname);
    }
  }

  /**
   * After removal a load finds no translation file: it fails when the
   * scripture directory exists and changes nothing when it does not.
   */
  lemma RemoveThenLoad(base: string, dirs: set<string>, files: map<string, Element>,
                       high: map<string, Element>, sorted: map<string, Element>, props: PropertyTable)
    ensures FlattenScripture(base, RemovedScripture(base, dirs, files), dirs, high, sorted, props)
         == if base in dirs then Err(FileNotFound(ScripturePath(base))) else Ok(Restored(high, sorted))
  {
  }
}
