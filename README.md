# Bounded-context storage of the FLEx bridge plugin, in Dafny

The FLEx bridge plugin stores a FieldWorks project in two shapes:
- **the flat shape:** a registry of `rt` records. `classData` maps a class name to a sorted map from GUID to record, and `guidToClassMapping` maps a GUID to its class.
- **the nested shape:** per-domain documents. An object is written together with everything it owns.

This project models the code that moves data between the two shapes. It proves what that code promises.

- **NestObject** (`CmObjectNestingService.NestObject`) turns a flat record into its nested form:
  - It checks its four reference arguments for null.
  - It renames the `rt` element to its class and drops `class`.
  - It replaces every owning `objsur` marker by the owned record, nested in turn and taken out of the registry:
    - in an owning property, the record is named after its class;
    - in an owning-sequence property, it is an `ownseq` element that keeps `class`;
    - in both cases it loses `ownerguid`.
  - Excluded (class, property) pairs stay as they are.
  - Reference-sequence markers become `refseq`.

  Its source is not part of this model. The model follows the unit tests that pin it down, and `FlattenObject` is modelled as its inverse.
- **The Reversal bounded context** (`ReversalBoundedContextService`):
  - Save (`NestContext`) nests every `ReversalIndex` into its own file `Reversals/<ws>.reversal` and empties LexDb's `ReversalIndexes`. In each file the index's former `Entries` follow a header as siblings. An index without entries gets one all-zero-GUID placeholder entry.
  - Load (`FlattenContext`) returns the entries into `Entries`, flattens each index with the lower-cased LexDb GUID as owner, and refills `ReversalIndexes` with one owning marker per index, in case-insensitive GUID order.
  - Remove (`RemoveBoundedContextData`) deletes the `*.reversal` files.
- **The Scripture bounded context** (`ScriptureBoundedContextService`):
  - Save nests the scripture singleton, strips its `ownerguid`, writes it wrapped in `TranslatedScripture`, and empties LangProject's `TranslatedScripture`.
  - Load restores the owning marker in LangProject, flattens the object with the lower-cased LangProject GUID as owner, and adds it to `highLevelData` under its class.
  - Remove deletes the translation file.

Modules, one per file:
- `Xml`: elements.
- `Wrappers`: `Option` and `Result`.
- `KeyOrder`: the case-insensitive key order of a `SortedDictionary`.
- `Nesting`: the NestObject specification functions.
- `NestingLaws`: the shape of the nested tree.
- `NestingService`: the NestObject procedure.
- `Flattening`: the FlattenObject model.
- `RoundTrip`: nesting followed by flattening.
- `Storage`: the file system, the registry and the flat load state, as classes.
- `Reversals` and `Scripture`: the two orchestrators.
- `ReversalLaws`: what saving the Reversal context writes and removes, and its save-then-load law.

Each orchestrator operation is a method on those classes. Each is proved equal to a specification function of the old state (`Spec(old state) == Outcome(r, new state)`). The properties are proved as lemmas about the specification functions.

## Model

Source paths, relative to the repository root:
- `…Tests.cs` is `src/FLEx-ChorusPluginTests/Infrastructure/DomainServices/CmObjectNestingServiceTests.cs`.
- `Reversal…` is `src/FLEx-ChorusPlugin/Contexts/Linguistics/Reversals/ReversalBoundedContextService.cs`.
- `Scripture…` is `src/FLEx-ChorusPlugin/Contexts/Scripture/ScriptureBoundedContextService.cs`.

The table writes each path in full.

The recursive parts of `Nesting.Nest` (`NestRecord`, `NestProperties`, `NestProperty`, `NestOwningProperty` and `NestMarkers`) have no rows of their own. Their contracts only carry the registry shrinking and the lengths needed for termination. The `NestingService.*Impl` rows cover them: each method is proved equal to one of these functions. So do the `NestingLaws` rows (`NestForm`, `NestTakes`, `NestAgain`). The same holds for `Flattening.FlattenProperties` and `Flattening.FlattenProperty`, which the `Flattening.FlattenRecord` row covers.

| member | source | states |
|---|---|---|
| NestingService.NestObject | src/FLEx-ChorusPluginTests/Infrastructure/DomainServices/CmObjectNestingServiceTests.cs:49-94 | A null object, exclusion map, class data or GUID map (in that order) gives the matching argument-null error. Otherwise the result is `Nesting.Nest`. On success: the element is named after its former `class` and has lost it; the tree is the nested form of the object; the registry has lost exactly the object and the records nested into it, each of which it held and none nested twice, and every other record stays. |
| NestingService.NestRecordImpl | src/FLEx-ChorusPluginTests/Infrastructure/DomainServices/CmObjectNestingServiceTests.cs:96-117 | The rename of one record followed by the walk over its properties computes exactly `Nesting.NestRecord`. |
| NestingService.NestPropertiesImpl | src/FLEx-ChorusPluginTests/Infrastructure/DomainServices/CmObjectNestingServiceTests.cs:96-136 | The loop over the property elements, threading the registry, computes exactly `Nesting.NestProperties`. |
| NestingService.NestPropertyImpl | src/FLEx-ChorusPluginTests/Infrastructure/DomainServices/CmObjectNestingServiceTests.cs:138-164 | A reference-sequence property has each `objsur` renamed `refseq` (loop invariant); owning properties are delegated; the result is exactly `Nesting.NestProperty`. |
| NestingService.NestOwningPropertyImpl | src/FLEx-ChorusPluginTests/Infrastructure/DomainServices/CmObjectNestingServiceTests.cs:119-136 | An excluded owning property is returned untouched; otherwise its markers are nested; the result is exactly `Nesting.NestOwningProperty`. |
| NestingService.NestMarkersImpl | src/FLEx-ChorusPluginTests/Infrastructure/DomainServices/CmObjectNestingServiceTests.cs:96-116 | The loop over the markers takes each owned record out of the registry and nests it, in marker order; the result is exactly `Nesting.NestMarkers`. |
| Nesting.Nest | src/FLEx-ChorusPluginTests/Infrastructure/DomainServices/CmObjectNestingServiceTests.cs:85-117 | On success the registry left over is a sub-registry of the one given (which records leave it: `NestingLaws.NestTakes`). |
| Nesting.Take | src/FLEx-ChorusPluginTests/Infrastructure/DomainServices/CmObjectNestingServiceTests.cs:96-106 | Fetching an owned record succeeds exactly when the registry holds it. It yields that record and removes its GUID, so the registry strictly shrinks; a missing GUID is a dangling-reference error. |
| NestingLaws.NestTakes | src/FLEx-ChorusPlugin/Contexts/Linguistics/Reversals/ReversalBoundedContextService.cs:14-15 | A successful Nest takes out of the registry its object and exactly the records inlined below it, at every level, each GUID once and each one the registry held; every other record is still registered. This is the removal of the indexes "including all they own". |
| NestingLaws.NestForm | src/FLEx-ChorusPluginTests/Infrastructure/DomainServices/CmObjectNestingServiceTests.cs:85-164 | A successful Nest yields the nested form of its object against the registry it was given. Every property element is kept in order. Reference-sequence markers become `refseq`. Excluded properties are unchanged. Each owning marker is replaced, in place and in order, by the nested form of the registry's record for its GUID, recursively. |
| NestingLaws.NestAgain | src/FLEx-ChorusPluginTests/Infrastructure/DomainServices/CmObjectNestingServiceTests.cs:85-164 | Nesting what a successful Nest returned: NestObject fails on it with a missing `class` attribute. Its properties, nested again with the same exclusions, come out unchanged, and the registry is untouched. Requires that no registered record has class `objsur`. |
| NestingLaws.NestPropertiesAgain | src/FLEx-ChorusPluginTests/Infrastructure/DomainServices/CmObjectNestingServiceTests.cs:85-164 | Property elements in nested form nest to themselves against any registry. Reference-sequence markers are already `refseq`, and no owning marker is left in an owning property. |
| NestingLaws.NestMarkersKeeps | src/FLEx-ChorusPluginTests/Infrastructure/DomainServices/CmObjectNestingServiceTests.cs:119-164 | Children none of which is an owning marker are kept as they are, and no record leaves the registry. |
| NestingLaws.NestRecordForm | src/FLEx-ChorusPluginTests/Infrastructure/DomainServices/CmObjectNestingServiceTests.cs:96-117 | A successfully nested record is the nested form of the flat record, against any registry that contains the one it ran on. |
| NestingLaws.NestPropertiesForm | src/FLEx-ChorusPluginTests/Infrastructure/DomainServices/CmObjectNestingServiceTests.cs:131-133 | Each property is nested independently of the others: element j of the result is the nested form of property j. An exclusion on one property leaves the others' nesting as it is. |
| NestingLaws.NestPropertyForm | src/FLEx-ChorusPluginTests/Infrastructure/DomainServices/CmObjectNestingServiceTests.cs:138-164 | One nested property is in nested form for its cardinality; a reference-sequence property holds the `refseq`-renamed markers. |
| NestingLaws.NestOwningPropertyForm | src/FLEx-ChorusPluginTests/Infrastructure/DomainServices/CmObjectNestingServiceTests.cs:119-136 | An owning property is unchanged when (owner class, property) is excluded; otherwise marker i is replaced by nested child i. |
| NestingLaws.NestMarkersForm | src/FLEx-ChorusPluginTests/Infrastructure/DomainServices/CmObjectNestingServiceTests.cs:96-110 | The nested marker list has the length of the marker list, and child i stands where marker i stood. It is the nested record of that marker's GUID, descended into unless `topLevelOnly`; non-owning children stay as they are. |
| NestingLaws.NestedChildShape | src/FLEx-ChorusPluginTests/Infrastructure/DomainServices/CmObjectNestingServiceTests.cs:104-116 | In an owning-sequence property a nested child is an `ownseq` element that keeps every attribute of the record except `ownerguid` (so `guid` and `class`). In an owning property it is named after the class and loses `class` and `ownerguid`. |
| NestingLaws.NestedFormUnique | src/FLEx-ChorusPlugin/Contexts/Linguistics/Reversals/ReversalBoundedContextService.cs:63-68 | A record has at most one nested form against a given registry, so the element written after NestObject is determined by the record and the registry alone. |
| RoundTrip.NestThenFlatten | src/FLEx-ChorusPluginTests/Infrastructure/DomainServices/CmObjectNestingServiceTests.cs:96-117 | NestObject followed by FlattenObject on a well-formed flat record, with its own owner GUID: flattening succeeds whenever none of the records nesting took out is already in sortedData. It returns the record exactly and files it under its GUID. sortedData gains exactly the record and every record nesting took out of the registry, each as the registry held it. |
| RoundTrip.FlattenNestedRecord | src/FLEx-ChorusPlugin/Contexts/Linguistics/Reversals/ReversalBoundedContextService.cs:109-110 | Flattening the nested form of a record (root, owned or `ownseq`) cannot fail when none of the GUIDs nested into it is in sortedData. It returns the flat record, and sortedData gains exactly that record and the records nested into it, each the registry's own. |
| Flattening.FlattenRecord | src/FLEx-ChorusPlugin/Contexts/Linguistics/Reversals/ReversalBoundedContextService.cs:110 | On success: an `rt` record with the element's GUID, its class restored from the name (or from `class` on an `ownseq`), and `ownerguid` set to the owner passed in. It is added to sortedData under its GUID, which was absent before (a duplicate fails); earlier entries are kept. |
| Flattening.FlattenOwned | src/FLEx-ChorusPlugin/Contexts/Linguistics/Reversals/ReversalBoundedContextService.cs:109 | The nested children of an owning property flatten to as many children, and sortedData only grows. |
| Flattening.RestoreObjsur | src/FLEx-ChorusPlugin/Contexts/Scripture/ScriptureBoundedContextService.cs:59 | Succeeds exactly when the target has a GUID. The owner keeps its name, attributes and text, and its property ends with the old children plus one owning marker for that GUID. |
| Xml.WithEmptied | src/FLEx-ChorusPlugin/Contexts/Linguistics/Reversals/ReversalBoundedContextService.cs:49 | `RemoveNodes` on the first child of a given name: present exactly when the child is; only that child changes, and it is left with no nodes. |
| Xml.WithAppended | src/FLEx-ChorusPlugin/Contexts/Linguistics/Reversals/ReversalBoundedContextService.cs:118-120 | Appending to the first child of a given name: present exactly when the child is; that child's children become the old ones followed by the items; every other child is unchanged. |
| Xml.FirstNamed | src/FLEx-ChorusPlugin/Contexts/Linguistics/Reversals/ReversalBoundedContextService.cs:60 | `Element(name)` finds the first child of that name, and none before it has the name; None exactly when no child has it. |
| Xml.ToLower | src/FLEx-ChorusPlugin/Contexts/Linguistics/Reversals/ReversalBoundedContextService.cs:108 | Lower-casing keeps the length and maps each ASCII capital letter to its small letter, leaving every other character alone. |
| Xml.ObjSur | src/FLEx-ChorusPlugin/Contexts/Linguistics/Reversals/ReversalBoundedContextService.cs:112 | An owning marker is an `objsur` with exactly a `guid` (the one given) and `t="o"`, and no content. |
| KeyOrder.BeforeTransitive | src/FLEx-ChorusPlugin/Contexts/Linguistics/Reversals/ReversalBoundedContextService.cs:97 | The case-insensitive ordinal order (with an ordinal tie-break) is transitive. |
| KeyOrder.BeforeTotal | src/FLEx-ChorusPlugin/Contexts/Linguistics/Reversals/ReversalBoundedContextService.cs:97 | Any two distinct keys are ordered one way or the other. |
| KeyOrder.BeforeAsymmetric | src/FLEx-ChorusPlugin/Contexts/Linguistics/Reversals/ReversalBoundedContextService.cs:97 | No two keys are ordered both ways. |
| KeyOrder.Least | src/FLEx-ChorusPlugin/Contexts/Linguistics/Reversals/ReversalBoundedContextService.cs:40 | `FirstOrDefault` of a non-empty sorted dictionary is a key of it that comes before every other key. |
| KeyOrder.SortedKeys | src/FLEx-ChorusPlugin/Contexts/Linguistics/Reversals/ReversalBoundedContextService.cs:55-56 | The enumeration of a sorted dictionary lists each key exactly once, in strictly increasing order. |
| KeyOrder.SortedUnique | src/FLEx-ChorusPlugin/Contexts/Linguistics/Reversals/ReversalBoundedContextService.cs:97 | Two strictly sorted sequences with the same keys are equal, so the enumeration order is determined by the keys alone. |
| Storage.MatchingFiles | src/FLEx-ChorusPlugin/Contexts/Linguistics/Reversals/ReversalBoundedContextService.cs:98 | `GetFiles(dir, "*.reversal", TopDirectoryOnly)`: exactly the files directly in the directory with the extension. |
| Storage.CombineInDirectory | src/FLEx-ChorusPlugin/Contexts/Linguistics/Reversals/ReversalBoundedContextService.cs:83 | `Path.Combine(dir, name)` is listed in `dir` with extension `ext` exactly when `name` has no separator and ends with `ext`. |
| Storage.FileSystem.CreateDirectory | src/FLEx-ChorusPlugin/Contexts/Linguistics/Reversals/ReversalBoundedContextService.cs:52-53 | Adds the directory; files unchanged. |
| Storage.FileSystem.WriteFile | src/FLEx-ChorusPlugin/Contexts/Linguistics/Reversals/ReversalBoundedContextService.cs:83 | The path now holds the document; nothing else changes. |
| Storage.FileSystem.Delete | src/FLEx-ChorusPlugin/Contexts/Linguistics/Reversals/ReversalBoundedContextService.cs:130 | The path is gone; nothing else changes. |
| Storage.Registry.SetRecord | src/FLEx-ChorusPlugin/Contexts/Linguistics/Reversals/ReversalBoundedContextService.cs:49 | Replaces one record of one class bucket; the GUID map is unchanged. |
| Storage.Registry.Nest | src/FLEx-ChorusPlugin/Contexts/Linguistics/Reversals/ReversalBoundedContextService.cs:63-66 | NestObject on the registry: on success it returns the nested tree and the registry becomes the one `Nesting.Nest` leaves, without the object and exactly the records nested into it; on failure the registry is unchanged. |
| Storage.FlatData.Flatten | src/FLEx-ChorusPlugin/Contexts/Linguistics/Reversals/ReversalBoundedContextService.cs:110 | FlattenObject into sortedData: sortedData becomes the one `FlattenRecord` leaves, or stays as it was on failure; highLevelData is unchanged. |
| Storage.FlatData.SetHighLevel | src/FLEx-ChorusPlugin/Contexts/Scripture/ScriptureBoundedContextService.cs:65 | Sets one highLevelData entry; sortedData unchanged. |
| Reversals.WritingSystemOf | src/FLEx-ChorusPlugin/Contexts/Linguistics/Reversals/ReversalBoundedContextService.cs:60 | The writing system is found exactly when the index has `WritingSystem/Uni`. |
| Reversals.Placeholder | src/FLEx-ChorusPlugin/Contexts/Linguistics/Reversals/ReversalBoundedContextService.cs:74-75 | The placeholder is a childless `ReversalIndexEntry` whose only attribute is the lower-case all-zero GUID. |
| Reversals.SavedIndex | src/FLEx-ChorusPlugin/Contexts/Linguistics/Reversals/ReversalBoundedContextService.cs:79-80 | The index keeps its name and attributes; its `Entries` (when present) is left without children. |
| Reversals.ReversalDocument | src/FLEx-ChorusPlugin/Contexts/Linguistics/Reversals/ReversalBoundedContextService.cs:68-81 | A `Reversal` root: a header wrapping the saved index, followed by the former entries in order, or by exactly one placeholder when `Entries` is absent or empty. |
| Reversals.HeaderIndex | src/FLEx-ChorusPlugin/Contexts/Linguistics/Reversals/ReversalBoundedContextService.cs:102-104 | The element read from the header is a `ReversalIndex`. |
| Reversals.RestoreEntries | src/FLEx-ChorusPlugin/Contexts/Linguistics/Reversals/ReversalBoundedContextService.cs:107-109 | No entry fails (`records[0]` on an empty list). A single entry whose GUID lower-cases to the empty GUID leaves the index as it is. Otherwise the entries are appended to `Entries`, which must exist. |
| Reversals.IndexFromDocument | src/FLEx-ChorusPlugin/Contexts/Linguistics/Reversals/ReversalBoundedContextService.cs:102-109 | A document that reads yields a `ReversalIndex` with exactly the attributes of the index in its header. A document with no `ReversalIndexEntry` after the header fails. That the read undoes the write: `Reversals.SaveThenLoadIndex`. |
| Reversals.SaveThenLoadIndex | src/FLEx-ChorusPlugin/Contexts/Linguistics/Reversals/ReversalBoundedContextService.cs:68-109 | Reading back the document written for a nested index returns that index exactly, `Entries` included. An index saved without entries comes back with its `Entries` as it was (absent or empty). |
| Reversals.ZeroGuidEntryDropped | src/FLEx-ChorusPlugin/Contexts/Linguistics/Reversals/ReversalBoundedContextService.cs:106-108 | An index whose only entry has the all-zero GUID is read back without that entry: the load takes it for the placeholder, so the round trip of `SaveThenLoadIndex` fails for it. |
| Reversals.DocumentParts | src/FLEx-ChorusPlugin/Contexts/Linguistics/Reversals/ReversalBoundedContextService.cs:102-107 | The header of a written document yields the saved index, and the entries read back are those after the header. |
| Reversals.EntriesComeBack | src/FLEx-ChorusPlugin/Contexts/Linguistics/Reversals/ReversalBoundedContextService.cs:109 | Appending the relocated entries to the emptied `Entries` restores the index. |
| Reversals.SaveIndex | src/FLEx-ChorusPlugin/Contexts/Linguistics/Reversals/ReversalBoundedContextService.cs:58-83 | One index: on success it had a writing system, exactly the file `<ws>.reversal` in the directory is added, and the registry only loses records (contents and records removed: `ReversalLaws.SaveIndexContents`). |
| Reversals.ValuesInKeyOrder | src/FLEx-ChorusPlugin/Contexts/Linguistics/Reversals/ReversalBoundedContextService.cs:55-56 | The copy is enumerated as its values in key order, one per key. |
| Reversals.EmptyReversalIndexes | src/FLEx-ChorusPlugin/Contexts/Linguistics/Reversals/ReversalBoundedContextService.cs:49 | Defined exactly when LexDb has `ReversalIndexes`. It empties that property and changes no other record, bucket or GUID. |
| Reversals.LexDbKey | src/FLEx-ChorusPlugin/Contexts/Linguistics/Reversals/ReversalBoundedContextService.cs:40 | The LexDb chosen is a record of the LexDb bucket. |
| Reversals.NestReversals | src/FLEx-ChorusPlugin/Contexts/Linguistics/Reversals/ReversalBoundedContextService.cs:40-46 | With an empty LexDb bucket, or an empty ReversalIndex bucket, nothing changes: registry, directories and files stay as they were. |
| Reversals.NestContext | src/FLEx-ChorusPlugin/Contexts/Linguistics/Reversals/ReversalBoundedContextService.cs:36-85 | The procedure leaves exactly the registry, directories and files `NestReversals` gives, or its error. |
| Reversals.SaveAllIndexes | src/FLEx-ChorusPlugin/Contexts/Linguistics/Reversals/ReversalBoundedContextService.cs:48-84 | With both buckets non-empty, the procedure leaves exactly the state `SaveAll` gives. |
| Reversals.SaveAll | src/FLEx-ChorusPlugin/Contexts/Linguistics/Reversals/ReversalBoundedContextService.cs:47-84 | A LexDb without `ReversalIndexes` is an element-missing error. On success the Reversals directory is among the directories, the others stay, and no file is lost. The files and registry it leaves: `ReversalLaws.SaveWritesOneFilePerIndex` and `ReversalLaws.SaveEmptiesReversalIndexes`. |
| Reversals.SaveIndexList | src/FLEx-ChorusPlugin/Contexts/Linguistics/Reversals/ReversalBoundedContextService.cs:56-84 | The foreach over the copy leaves exactly the state `SaveIndexes` gives and stops at the first failure; directories are unchanged. |
| Reversals.SaveOneIndex | src/FLEx-ChorusPlugin/Contexts/Linguistics/Reversals/ReversalBoundedContextService.cs:58-83 | One loop iteration leaves exactly the state `SaveIndex` gives. |
| Reversals.SaveIndexesFiles | src/FLEx-ChorusPlugin/Contexts/Linguistics/Reversals/ReversalBoundedContextService.cs:56-84 | A successful loop adds exactly one file per index it visited, and no other. |
| Reversals.SaveIndexes | src/FLEx-ChorusPlugin/Contexts/Linguistics/Reversals/ReversalBoundedContextService.cs:56-84 | A successful loop found `WritingSystem/Uni` on every index it visited (line 60), and every file that was there is still there. The files it adds: `Reversals.SaveIndexesFiles`. |
| Reversals.InOrderFiles | src/FLEx-ChorusPlugin/Contexts/Linguistics/Reversals/ReversalBoundedContextService.cs:55-56 | The files written by walking the copy in key order are the files of all indexes of the bucket. |
| Reversals.InOrderVisitsAll | src/FLEx-ChorusPlugin/Contexts/Linguistics/Reversals/ReversalBoundedContextService.cs:55-56 | Walking the copy visits every index the bucket held before nesting started. |
| Reversals.SaveNeedsWritingSystems | src/FLEx-ChorusPlugin/Contexts/Linguistics/Reversals/ReversalBoundedContextService.cs:60 | A successful save means every index had `WritingSystem/Uni`. |
| Reversals.LoadIndexOk | src/FLEx-ChorusPlugin/Contexts/Linguistics/Reversals/ReversalBoundedContextService.cs:100-112 | A file that loads adds the marker for its lower-cased index GUID, which was not collected before. The index is added to sortedData as an `rt` record owned by the lower-cased LexDb GUID; earlier entries are kept. |
| Reversals.LoadIndex | src/FLEx-ChorusPlugin/Contexts/Linguistics/Reversals/ReversalBoundedContextService.cs:100-112 | A listed path that is not a file is a file-not-found error. A file that loads exists, holds a readable index, and LexDb has a GUID. What it adds: `Reversals.LoadIndexOk`. |
| Reversals.LoadIndexes | src/FLEx-ChorusPlugin/Contexts/Linguistics/Reversals/ReversalBoundedContextService.cs:98-113 | A successful loop read every listed file, and each held a readable index. The markers and records it collects: `Reversals.LoadIndexesCount`, `Reversals.LoadIndexesMarkers` and `Reversals.LoadIndexesOwners`. |
| Reversals.LoadIndexesCount | src/FLEx-ChorusPlugin/Contexts/Linguistics/Reversals/ReversalBoundedContextService.cs:98-113 | A successful loop collects exactly one marker per file. |
| Reversals.LoadIndexesMarkers | src/FLEx-ChorusPlugin/Contexts/Linguistics/Reversals/ReversalBoundedContextService.cs:111-112 | The markers collected are keyed by the lower-cased GUIDs of the indexes read. Each new one is the owning marker of its key, and earlier ones are kept. |
| Reversals.LoadIndexesOwners | src/FLEx-ChorusPlugin/Contexts/Linguistics/Reversals/ReversalBoundedContextService.cs:110 | After a successful loop every listed index is in sortedData with `ownerguid` the lower-cased LexDb GUID; earlier entries are kept. |
| Reversals.LoadsEveryKey | src/FLEx-ChorusPlugin/Contexts/Linguistics/Reversals/ReversalBoundedContextService.cs:97-113 | The collected keys are exactly the GUIDs of the listed files, one per file. Their values in key order are the owning markers sorted case-insensitively. |
| Reversals.Markers | src/FLEx-ChorusPlugin/Contexts/Linguistics/Reversals/ReversalBoundedContextService.cs:119-120 | One owning marker per key, in strictly increasing case-insensitive GUID order. |
| Reversals.RefilledLexDb | src/FLEx-ChorusPlugin/Contexts/Linguistics/Reversals/ReversalBoundedContextService.cs:118-120 | Succeeds exactly when LexDb has `ReversalIndexes`; only the LexDb entry of highLevelData changes. |
| Reversals.Refill | src/FLEx-ChorusPlugin/Contexts/Linguistics/Reversals/ReversalBoundedContextService.cs:116-120 | A failed loop fails the load. When no index was read, highLevelData is unchanged (line 116). On success sortedData is what the loop left. The refilled LexDb: `Reversals.ReversalIndexesRefilled`. |
| Reversals.FlattenReversals | src/FLEx-ChorusPlugin/Contexts/Linguistics/Reversals/ReversalBoundedContextService.cs:92-117 | No Reversals directory, or a LexDb entry and no files: highLevelData and sortedData are unchanged. A Reversals directory without a LexDb entry is a key-not-found error. |
| Reversals.FlattenContext | src/FLEx-ChorusPlugin/Contexts/Linguistics/Reversals/ReversalBoundedContextService.cs:87-121 | Given the listing `GetFiles` returns (the `*.reversal` files directly in the directory, in some order), the procedure leaves exactly the highLevelData and sortedData `FlattenReversals` gives, or its error. |
| Reversals.LoadIndexList | src/FLEx-ChorusPlugin/Contexts/Linguistics/Reversals/ReversalBoundedContextService.cs:98-113 | The foreach over the files leaves exactly the sortedData and markers `LoadIndexes` gives; highLevelData is unchanged. |
| Reversals.LoadOneIndex | src/FLEx-ChorusPlugin/Contexts/Linguistics/Reversals/ReversalBoundedContextService.cs:100-112 | One iteration leaves exactly what `LoadIndex` gives. |
| Reversals.AppendMarkers | src/FLEx-ChorusPlugin/Contexts/Linguistics/Reversals/ReversalBoundedContextService.cs:118-120 | The loop appending the markers one by one leaves exactly the highLevelData `RefilledLexDb` gives; sortedData is unchanged. |
| Reversals.FlattenReversalsLoads | src/FLEx-ChorusPlugin/Contexts/Linguistics/Reversals/ReversalBoundedContextService.cs:92-120 | A successful load with the directory present had a LexDb and a successful file loop, and ends with the refill of that loop. |
| Reversals.ReversalIndexesRefilled | src/FLEx-ChorusPlugin/Contexts/Linguistics/Reversals/ReversalBoundedContextService.cs:116-120 | After a successful load of at least one file, highLevelData is the old one with LexDb's `ReversalIndexes` extended by one marker per loaded GUID, in case-insensitive GUID order. |
| Reversals.ListingOrderIrrelevant | src/FLEx-ChorusPlugin/Contexts/Linguistics/Reversals/ReversalBoundedContextService.cs:97-120 | Two listings of the same files give the same highLevelData, whatever order `GetFiles` returns them in. |
| Reversals.IndexesOwnedByLexDb | src/FLEx-ChorusPlugin/Contexts/Linguistics/Reversals/ReversalBoundedContextService.cs:110 | After a successful load every listed index is in sortedData, owned by the lower-cased LexDb GUID, and sortedData only grew. |
| Reversals.RemovedReversals | src/FLEx-ChorusPlugin/Contexts/Linguistics/Reversals/ReversalBoundedContextService.cs:123-134 | A file is removed exactly when the Reversals directory exists and the file is a `*.reversal` directly in it; the files kept are unchanged. |
| Reversals.RemoveBoundedContextData | src/FLEx-ChorusPlugin/Contexts/Linguistics/Reversals/ReversalBoundedContextService.cs:123-134 | The delete loop over the listing leaves exactly `RemovedReversals`; directories are unchanged. |
| Reversals.RemoveThenLoadChangesNothing | src/FLEx-ChorusPlugin/Contexts/Linguistics/Reversals/ReversalBoundedContextService.cs:123-134 | Loading after removal finds no file and leaves highLevelData and sortedData unchanged. |
| ReversalLaws.NestIndexTakes | src/FLEx-ChorusPlugin/Contexts/Linguistics/Reversals/ReversalBoundedContextService.cs:63-66 | Nesting an index succeeds only with a GUID and a nested form; it takes out of the registry exactly the index and the records nested into it, all of which were registered. |
| ReversalLaws.SaveIndexContents | src/FLEx-ChorusPlugin/Contexts/Linguistics/Reversals/ReversalBoundedContextService.cs:58-83 | Saving one index writes to its `<ws>.reversal` file the Reversal document of its nested form (the index with everything it owns), and removes from the registry exactly the index and what is nested into it; no other file or record changes. |
| ReversalLaws.SaveIndexesTakes | src/FLEx-ChorusPlugin/Contexts/Linguistics/Reversals/ReversalBoundedContextService.cs:56-84 | A successful loop over the copy removes from the registry exactly the indexes and the records nested into them. |
| ReversalLaws.SaveIndexesApart | src/FLEx-ChorusPlugin/Contexts/Linguistics/Reversals/ReversalBoundedContextService.cs:56-84 | What is nested into an index was still registered when its turn came, so no two indexes of a successful loop share a record. |
| ReversalLaws.SaveIndexesFileContents | src/FLEx-ChorusPlugin/Contexts/Linguistics/Reversals/ReversalBoundedContextService.cs:56-84 | After a successful loop, the file of every index whose writing system no later index shares holds the Reversal document of that index's nested form. |
| ReversalLaws.SaveWritesOneFilePerIndex | src/FLEx-ChorusPlugin/Contexts/Linguistics/Reversals/ReversalBoundedContextService.cs:51-83 | A successful save creates the Reversals directory, adds exactly the files `Reversals/<ws>.reversal` of the ReversalIndex bucket and leaves every other file as it was. With distinct writing systems, the file of each index holds the Reversal document of its nested form against the registry line 49 leaves. |
| ReversalLaws.SaveEmptiesReversalIndexes | src/FLEx-ChorusPlugin/Contexts/Linguistics/Reversals/ReversalBoundedContextService.cs:14-15 | After a successful save LexDb's `ReversalIndexes` has no children, and every other record left is the one that was there. The registry has lost exactly every ReversalIndex and every record nested into one; every other record is still there. |
| ReversalLaws.FlatRegistryEmptied | src/FLEx-ChorusPlugin/Contexts/Linguistics/Reversals/ReversalBoundedContextService.cs:49 | Emptying LexDb's `ReversalIndexes` keeps every record of the registry in stored shape under its own GUID. |
| ReversalLaws.LoadSavedFiles | src/FLEx-ChorusPlugin/Contexts/Linguistics/Reversals/ReversalBoundedContextService.cs:98-113 | Loading saved files one by one succeeds when their index GUIDs are distinct and they share no record with each other or with sortedData; sortedData gains exactly the records of the files, each the registry's own. |
| ReversalLaws.TakenGuids | src/FLEx-ChorusPlugin/Contexts/Linguistics/Reversals/ReversalBoundedContextService.cs:14-15 | The records the save takes out of the registry are exactly the indexes and the records nested into one of them. |
| ReversalLaws.LoadedKeysOfIndexes | src/FLEx-ChorusPlugin/Contexts/Linguistics/Reversals/ReversalBoundedContextService.cs:111-112 | Reading back the saved directory collects exactly the lower-cased GUIDs of the indexes of the bucket, from at least one file. |
| ReversalLaws.SortedDataRestored | src/FLEx-ChorusPlugin/Contexts/Linguistics/Reversals/ReversalBoundedContextService.cs:98-113 | Reading the saved files back succeeds and sortedData keeps what it held and gains exactly the records the save took out of the registry, each as registered (LexDb aside); every index is back as it was. |
| ReversalLaws.SaveThenLoadReversals | src/FLEx-ChorusPlugin/Contexts/Linguistics/Reversals/ReversalBoundedContextService.cs:36-121 | Save then load of the whole context, for any listing of the directory, succeeds. highLevelData's LexDb gets one owning marker per index, for its lower-cased GUID, in key order, appended to `ReversalIndexes`. sortedData keeps what it held and gains exactly the records the save took out of the registry, each as it was registered (LexDb aside); every index comes back unchanged. |
| Scripture.WithoutOwner | src/FLEx-ChorusPlugin/Contexts/Scripture/ScriptureBoundedContextService.cs:28 | `ownerguid` is gone; every other attribute, the name, text and children stay. |
| Scripture.ScriptureFromDocument | src/FLEx-ChorusPlugin/Contexts/Scripture/ScriptureBoundedContextService.cs:55 | The scripture element is found exactly when the root is `TranslatedScripture` with at least one child. |
| Scripture.ScriptureDocument | src/FLEx-ChorusPlugin/Contexts/Scripture/ScriptureBoundedContextService.cs:33-34 | The document is a `TranslatedScripture` with a single child, and reading it back yields that child. |
| Scripture.WithLangProject | src/FLEx-ChorusPlugin/Contexts/Scripture/ScriptureBoundedContextService.cs:36 | Puts the LangProject record back when the registry still holds it; no other record or key changes. |
| Scripture.Written | src/FLEx-ChorusPlugin/Contexts/Scripture/ScriptureBoundedContextService.cs:30-34 | Adds the translation file in the base directory, and no other; it reads back as the nested element without `ownerguid`. |
| Scripture.NestScripture | src/FLEx-ChorusPlugin/Contexts/Scripture/ScriptureBoundedContextService.cs:13-43 | On success exactly the scripture class names go to list processing; exactly the translation file is added and every other file is unchanged. |
| Scripture.NestContext | src/FLEx-ChorusPlugin/Contexts/Scripture/ScriptureBoundedContextService.cs:13-43 | The procedure leaves exactly the registry, files and class list `NestScripture` gives, or its error; directories are unchanged. |
| Scripture.NestScriptureSucceeds | src/FLEx-ChorusPlugin/Contexts/Scripture/ScriptureBoundedContextService.cs:22-36 | Save succeeds exactly when nesting succeeds, the scripture record has `ownerguid` and LangProject has `TranslatedScripture`. |
| Scripture.NestScriptureWrites | src/FLEx-ChorusPlugin/Contexts/Scripture/ScriptureBoundedContextService.cs:22-34 | The written document's scripture element is named after the class, with the record's attributes less `class` and `ownerguid`. That the file loads back: `Scripture.SavedScriptureFile` and `Scripture.FlattenSavedScripture` give the flat record again, and `Scripture.SaveThenLoadScripture` proves save followed by load. |
| Scripture.SavedScriptureFile | src/FLEx-ChorusPlugin/Contexts/Scripture/ScriptureBoundedContextService.cs:22-36 | A successful save nested the object, wrote its file, and that file reads back (line 54) as the nested object without `ownerguid`. The registry left holds exactly the records nesting left. |
| Scripture.NestScriptureEmptiesTranslatedScripture | src/FLEx-ChorusPlugin/Contexts/Scripture/ScriptureBoundedContextService.cs:36 | After save, LangProject's `TranslatedScripture` has no children and every other record is as nesting left it. The registry has lost exactly the Scripture object and the records nested into it; every other record is still there. |
| Scripture.FlattenScripture | src/FLEx-ChorusPlugin/Contexts/Scripture/ScriptureBoundedContextService.cs:45-66 | No scripture directory: nothing changes. Directory without the file: a file-not-found error. On success sortedData only grows and highLevelData keeps all its keys. |
| Scripture.FlattenContext | src/FLEx-ChorusPlugin/Contexts/Scripture/ScriptureBoundedContextService.cs:45-66 | The procedure leaves exactly the highLevelData and sortedData `FlattenScripture` gives, or its error. |
| Scripture.FlattenScriptureRestores | src/FLEx-ChorusPlugin/Contexts/Scripture/ScriptureBoundedContextService.cs:54-65 | After a successful load, LangProject's `TranslatedScripture` ends with an owning marker for the scripture GUID, and LangProject is otherwise unchanged. The scripture is in sortedData, owned by the lower-cased LangProject GUID, and added to highLevelData under its class, which was absent before. No other entry changes. |
| Scripture.FlattenIgnoresOwnerGuid | src/FLEx-ChorusPlugin/Contexts/Scripture/ScriptureBoundedContextService.cs:61-63 | Flattening does not depend on an `ownerguid` already on the element; the owner passed in wins. |
| Scripture.SaveThenLoadScripture | src/FLEx-ChorusPlugin/Contexts/Scripture/ScriptureBoundedContextService.cs:13-66 | Save followed by load succeeds when the directory exists, LangProject is in highLevelData, the Scripture class is not, and no record the save took out is in sortedData. It returns the flat scripture record exactly, in sortedData and in highLevelData under its class, and LangProject's `TranslatedScripture` holds its marker again. |
| Scripture.SaveThenLoadScriptureRecords | src/FLEx-ChorusPlugin/Contexts/Scripture/ScriptureBoundedContextService.cs:54-63 | Save then load: sortedData gains exactly the Scripture object and every record the save took out of the registry, each as the registry held it. |
| Scripture.FlattenSavedScripture | src/FLEx-ChorusPlugin/Contexts/Scripture/ScriptureBoundedContextService.cs:61-63 | The object as the file holds it, without `ownerguid`, flattens back to the flat record with the owner passed in, restoring exactly the records nesting took. |
| Scripture.AsWrittenKeepsTranslationFile | src/FLEx-ChorusPlugin/Contexts/Scripture/ScriptureBoundedContextService.cs:74-76 | The removal as written leaves the translation file in the scripture directory in place, unchanged. |
| Scripture.RemovedScriptureAsWritten | src/FLEx-ChorusPlugin/Contexts/Scripture/ScriptureBoundedContextService.cs:68-80 | The removal as written only drops files and changes none. When the scripture directory exists, the bare `Scripture.trans` path is gone. |
| Scripture.RemovedScripture | src/FLEx-ChorusPlugin/Contexts/Scripture/ScriptureBoundedContextService.cs:68-80 | A file is removed exactly when the scripture directory exists and the file is its translation file; the others are unchanged. |
| Scripture.RemoveBoundedContextData | src/FLEx-ChorusPlugin/Contexts/Scripture/ScriptureBoundedContextService.cs:68-80 | The procedure leaves exactly `RemovedScripture`; directories are unchanged. |
| Scripture.RemoveThenLoad | src/FLEx-ChorusPlugin/Contexts/Scripture/ScriptureBoundedContextService.cs:68-80 | Loading after removal is a file-not-found error when the directory exists, and otherwise changes nothing. |

## Left out

- The source of `CmObjectNestingService.NestObject` and `CmObjectFlatteningService.FlattenObject` / `RestoreObjsurElement` is not part of this model.
  - Their behaviour is reconstructed from the unit tests and from how the two services use them: `Nesting`, `Flattening.FlattenRecord` and `Flattening.RestoreObjsur`.
  - A missing attribute or registry entry, which would be a null or key exception there, is an error value here.
- The property metadata, which decides whether a property is owning, owning-sequence or reference-sequence, is a parameter table.
- `ObjectFinderServices.ProcessLists` is not part of this model. `Scripture.NestContext` returns the set of class names it hands over.
- XML elements are values. In-place mutation is modelled by assigning new values to the fields of the registry, file-system and flat-data objects. Aliasing is not captured:
  - the C# code shares one `XElement` between `classData`, the dictionary copy and the written document;
  - on the Scripture load, the same `scrElement` goes into sortedData (through `FlattenObject`) and into highLevelData (line 65), so a later change to one shows in the other;
  - the LangProject and LexDb elements changed on load (Scripture line 59, Reversal lines 118-120) are highLevelData's own objects, changed in place.

  So "sortedData unchanged" in the rows for `Storage.FlatData.SetHighLevel`, `Reversals.RefilledLexDb` and `Scripture.FlattenScriptureRestores` describes the model's values, not every object the caller can reach.
- Partial effects on failure are not stated. An exception part-way through a loop leaves the earlier files and registry changes in place. Each method promises only the error, through `Outcome`, and not the state it leaves.
- The file system is a set of directories and a map from path to document.
  - `Path.Combine` joins with `/`.
  - `XDocument.Load` of a missing file is a file-not-found error.
  - Serialisation (`XDeclaration`, `XmlReaderSettings`, whitespace) and the placement of the empty-folder cleanup, which the source comments out, are not modelled.
- The order in which `Directory.GetFiles` lists files is unspecified, so it is a parameter (`listing`). The load and remove procedures require it to list exactly the `*.reversal` files directly in the directory. `Reversals.ListingOrderIrrelevant` shows the order does not matter for highLevelData.
- Reversals.ListingOrderIrrelevant: states only that highLevelData is independent of the listing order, not sortedData. Which file fails on a duplicate GUID depends on the order.
- Culture-sensitive string comparison is not modelled, and case mapping is ASCII only.
  - `Xml.ToLower` and `Xml.ToUpper` map the letters A-Z and a-z only, where `ToLowerInvariant` and `OrdinalIgnoreCase` map all of Unicode. The strings they are applied to are GUIDs, written in hexadecimal digits.
  - The `SortedDictionary` keys of `classData` use the same case-insensitive ordinal order (with an ordinal tie-break) as the `OrdinalIgnoreCase` dictionary of line 97.
  - The markers of line 112 are keyed by lower-cased GUIDs, so a case-insensitive duplicate is an exact duplicate.
- Nesting.Nest: its own ensures says only that the registry shrinks. Which records leave it is stated by `NestingLaws.NestTakes`, kept apart because it needs the nested-form relation. Nesting an already nested object is not a no-op: the object has lost `class`, so NestObject fails on it. `NestingLaws.NestAgain` proves that, and that its properties nest to themselves with the same exclusions. That second half assumes no registered class is named `objsur`.
- Reversals.SaveIndex: its own ensures names the file only; the file's content and the records that leave the registry are stated by `ReversalLaws.SaveIndexContents`.
- Reversals.SaveThenLoadIndex: requires `EntriesRelocatable`. An index whose only entry has the all-zero GUID does not come back whole, because line 108 takes that entry for the placeholder; `Reversals.ZeroGuidEntryDropped` proves the entry is dropped.
- ReversalLaws.SaveWritesOneFilePerIndex: states a file's content only when no two indexes share a writing system. With a shared writing system the later index in key order overwrites the earlier one's file, which `ReversalLaws.SaveIndexesFileContents` covers.
- ReversalLaws.SaveThenLoadReversals: proved under `RoundTripReady`:
  - the registry holds a LexDb with `ReversalIndexes` and at least one ReversalIndex (otherwise the save does nothing);
  - the registry is in stored shape, every record under its own GUID;
  - every index is a `ReversalIndex` whose writing system has no `/` and whose nested entries satisfy `EntriesRelocatable`;
  - the indexes have distinct writing systems and distinct lower-cased GUIDs, and none is nested into another;
  - the Reversals directory holds no `*.reversal` file before the save;
  - no registered GUID is in sortedData yet;
  - highLevelData's LexDb has a GUID and `ReversalIndexes`, and every index names it, lower-cased, as owner.

  The LexDb record is set aside in the sortedData clause, because the save empties its `ReversalIndexes` before nesting.
- `SharedConstants.ScriptureTransFilename` is not part of this model; its value is taken to be `Scripture.trans`.
- The LangProject element passed to the Scripture save is identified by its key `lpKey` in the registry's LangProject bucket. The caller, which is not part of this model, passes that record.

## Findings

| source | as written | input that shows it | evidently intended | confidence | as-written member | corrected member |
|---|---|---|---|---|---|---|
| src/FLEx-ChorusPlugin/Contexts/Scripture/ScriptureBoundedContextService.cs:74-76 | Checks for and deletes the bare file name `SharedConstants.ScriptureTransFilename`, a path relative to the process's working directory, not to the scripture directory | The scripture directory `S` exists and holds `S/Scripture.trans` (the file `NestContext` writes at lines 30-31): the file is left in place, and a same-named file in the working directory would be deleted instead | Delete `Path.Combine(scriptureBaseDir, SharedConstants.ScriptureTransFilename)`, the file that lines 30-31 write and line 54 reads | not executed | Scripture.AsWrittenKeepsTranslationFile | Scripture.RemovedScripture |
