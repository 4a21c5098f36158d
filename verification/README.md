# QRDA Category I patient importer: reconciliation core

This project models, in Dafny, how `QRDA::Cat1::PatientImporter` combines the
output of its data-element importers into one patient, and proves properties
of that model.

A QRDA Category I document is imported by a singleton that holds a roster of
importer objects. `parse_cat1` works in phases:

1. It adds the version-dependent importers to the roster. A document whose
   ClinicalDocument carries the Category I `templateId` with the R5.3
   extension `2021-08-01` gets the encounter-performed and
   medication-discharge importers. Every other document, whatever version it
   declares, gets the R5.2 device-applied, encounter-performed and
   medication-discharge importers.
2. It runs `import_data_elements`. Each importer, in roster order, yields data
   elements and an id map. The id map sends a composite key
   `"<extension>***<root>"` to the list of element ids filed under it.
3. For each key of one importer's id map, deduplication does the following:
   - It warns once when the key lists several ids.
   - It keeps the element found by the last id.
   - When that element is missing, it warns that the template did not parse
     and keeps nothing for the key.
   - For encounters only, it also keeps each earlier duplicate whose
     uniqueness key is new. The uniqueness key is the sorted
     `code_system` strings rendered by `Array#to_s`, then the admission time,
     then the discharge time.
4. The survivors are appended to the patient. The id map is merged into the
   global `entry_id_map`, where a later importer overwrites a key.
5. The importer's warnings, codes and code modifiers are copied out, and its
   side channels are reset.
6. `normalize_references` looks up every `relatedTo` entry in the global id
   map. A found entry is replaced by all the ids filed under its key. An entry
   that is not found adds a warning instead.
7. The version-dependent importers are removed again. If an earlier phase
   raised, this step does not run.

How the model is built:

- A Ruby Hash is an association list, because its insertion order decides
  the order of survivors and warnings.
- An importer's extraction for the document is a function parameter
  (`Extractor`).
- A raise is a `Failure` value.
- The fold over the roster is written for any per-importer deduplication,
  and `ParseCat1` instantiates it with `Dedup.DedupImporter`.

Modules:

| module | what it models |
|---|---|
| `AssocList` | Hash lookup, `[]=` and `merge!` |
| `CompositeKey` | `key.split('***')` |
| `StringOrder` | `String#<=>` and `sort` |
| `RubyInspect` | `Array#to_s` of strings, and a reader showing it is prefix-free |
| `Elements` | data elements, ids, warnings, `find` |
| `EncounterUniqueness` | the uniqueness key |
| `Dedup` | the `id_map.each_pair` loop |
| `References` | `normalize_references` |
| `Roster` | the importer roster and its conditional steps |
| `Registration` | the base roster `initialize` registers |
| `PatientImporter` | `import_data_elements` and `parse_cat1` |

Where the code and its own description disagree, the model follows the code:

- The comment at `patient_importer.rb` line 96 says the first element is
  kept. The code keeps the element found by the last id.

## Model

| member | source | states |
|---|---|---|
| AssocList.Lookup | lib/qrda-import/patient_importer.rb:177 | `hash[k]` is nil exactly when `k` is not a key; otherwise it is a value stored under `k` |
| AssocList.Put | lib/qrda-import/patient_importer.rb:121 | storing a key overwrites only that key, keeps every key's position, grows the hash only for a new key, and keeps keys distinct |
| AssocList.Merge | lib/qrda-import/patient_importer.rb:121 | `merge!` gives the union of the keys, keeps the receiver's keys first and in order, and keeps keys distinct |
| AssocList.MergeLookup | lib/qrda-import/patient_importer.rb:121 | after `g.merge!(m)`, a key of `m` has `m`'s value (the later hash wins) and any other key keeps `g`'s value |
| CompositeKey.FindSeparator | lib/qrda-import/patient_importer.rb:84 | finds the leftmost `***` at or after a position, or reports that there is none |
| CompositeKey.Field | lib/qrda-import/patient_importer.rb:84-85 | field 0 of `key.split('***')` is the text before the leftmost `***`, or the whole key when there is none; no field contains `***` or is longer than the key |
| CompositeKey.FieldAfterSeparator | lib/qrda-import/patient_importer.rb:84-85 | past the leftmost `***`, field `n + 1` of the key is field `n` of the text after that separator |
| CompositeKey.SplitJoinKey | lib/qrda-import/patient_importer.rb:84-85 | for a key built as extension `***` root with no `*` in either part, the warning shows that root and that extension |
| CompositeKey.SplitWithoutSeparator | lib/qrda-import/patient_importer.rb:84-85 | a key without `***` shows as the whole extension with an empty root |
| Elements.Find | lib/qrda-import/patient_importer.rb:88 | `find` is nil exactly when no element has the id; otherwise it is the first element with the id |
| StringOrder.LessEqLexicographic | lib/qrda-import/patient_importer.rb:133 | the order `sort` uses puts `a` before `b` exactly when `a` is a prefix of `b` or the first character where they differ is smaller in `a` |
| StringOrder.Insert | lib/qrda-import/patient_importer.rb:133 | inserting into a sorted list keeps it sorted and adds exactly that string |
| StringOrder.Sort | lib/qrda-import/patient_importer.rb:133 | `sort` yields a sorted permutation of its input |
| StringOrder.SortedUnique | lib/qrda-import/patient_importer.rb:133 | two sorted lists with the same multiset of strings are equal |
| StringOrder.SortIgnoresOrder | lib/qrda-import/patient_importer.rb:133 | permutations of each other sort to the same list |
| RubyInspect.ReadArrayInspect | lib/qrda-import/patient_importer.rb:133 | the `to_s` rendering of a string array, followed by anything, reads back as that array and that remainder |
| RubyInspect.InspectPrefixFree | lib/qrda-import/patient_importer.rb:133-136 | a rendered array followed by a suffix equals another one exactly when both arrays and both suffixes are equal |
| EncounterUniqueness.CodeStrings | lib/qrda-import/patient_importer.rb:133 | one string per code, in order: the i-th string is the i-th code's code, `_`, and its system |
| EncounterUniqueness.UniquenessKeyDecodes | lib/qrda-import/patient_importer.rb:132-137 | reading a `to_s` array off the front of the key gives the encounter's code strings, sorted, and what remains is the admission time followed by the discharge time |
| EncounterUniqueness.CodeStringsPermutation | lib/qrda-import/patient_importer.rb:133 | reordering the codes reorders their strings and changes nothing else |
| EncounterUniqueness.UniquenessKeyEquality | lib/qrda-import/patient_importer.rb:132-137 | two encounters have the same key if and only if they have the same multiset of code strings and the same admission-plus-discharge string |
| EncounterUniqueness.SortedKeyEquality | lib/qrda-import/patient_importer.rb:133-136 | sorted, rendered strings plus a suffix are equal if and only if the multisets and the suffixes are equal |
| EncounterUniqueness.KeyIgnoresCodeOrder | test/unit/qrda/patient_importer_test.rb:61-67 | encounters whose codes differ only in order, with the same period, have the same key |
| EncounterUniqueness.DifferentCodesGiveDifferentKeys | test/unit/qrda/patient_importer_test.rb:37-43 | encounters with different code strings have different keys |
| EncounterUniqueness.DifferentTimesGiveDifferentKeys | test/unit/qrda/patient_importer_test.rb:45-51 | when the admission times have equal length, encounters with different admission or discharge times have different keys |
| EncounterUniqueness.OpenEndedPeriodsCollide | lib/qrda-import/patient_importer.rb:134-136 | an encounter with only an admission time gets the same key as one with only the same discharge time |
| Dedup.ResolveAll | lib/qrda-import/patient_importer.rb:107-108 | the earlier duplicates resolve, one element per id, exactly when every id names an element |
| Dedup.Refine | lib/qrda-import/patient_importer.rb:107-117 | the duplicate loop fails exactly when some earlier id names no element, and the failing id is one of them; otherwise it keeps at most one element per id, all drawn from the extraction |
| Dedup.RefineKeysFresh | lib/qrda-import/patient_importer.rb:112-116 | the duplicates the loop keeps have pairwise different keys, none already seen |
| Dedup.RefineCoversKeys | lib/qrda-import/patient_importer.rb:112-116 | every duplicate's key is either seen already or the key of a kept duplicate, so nothing distinct is dropped |
| Dedup.RefineIsFirstOccurrences | lib/qrda-import/patient_importer.rb:106-117 | the loop keeps exactly the first duplicate of each key not seen before (an independent reference definition) |
| Dedup.DedupKey | lib/qrda-import/patient_importer.rb:83-117 | for one key: the warnings are exactly a duplicate-id warning when several ids are listed, followed by a parse-error warning when the last id names no element, in which case nothing is kept; a non-encounter keeps just that element; an encounter keeps it first and fails exactly when an earlier id names no element |
| Dedup.DedupKeyCounts | lib/qrda-import/patient_importer.rb:86-92 | one key gives one duplicate-id warning exactly when it lists several ids, and one parse-error warning exactly when its last id names no element |
| Dedup.TwoEncountersSameKey | test/unit/qrda/patient_importer_test.rb:53-66 | two encounters filed under one key with equal uniqueness keys give one duplicate-id warning and only the last id's element survives |
| Dedup.TwoEncountersDifferentKey | test/unit/qrda/patient_importer_test.rb:37-50 | two encounters filed under one key with different uniqueness keys give one duplicate-id warning and both survive, the last id's element first |
| Dedup.EncounterRefinement | lib/qrda-import/patient_importer.rb:99-117 | an encounter keeps its last-id element followed by the first earlier duplicate of each new uniqueness key |
| Dedup.EncounterKeysDistinct | lib/qrda-import/patient_importer.rb:101-116 | the encounters kept for one key have pairwise different uniqueness keys, and those keys are exactly the keys of all its duplicates |
| Dedup.PrimaryAndRefinedKeys | lib/qrda-import/patient_importer.rb:101-116 | the primary element plus the kept duplicates have distinct keys covering every duplicate's key |
| Dedup.DedupImporter | lib/qrda-import/patient_importer.rb:83-118 | one importer's loop fails exactly when some key of its id map fails, and keeps only elements of its own extraction |
| Dedup.DedupImporterAppend | lib/qrda-import/patient_importer.rb:83-118 | on an id map split in two, a raise in the first part is the result, then a raise in the second; otherwise the first part's survivors and warnings come before the second's, so the loop goes key by key in id-map order |
| Dedup.DedupImporterOne | lib/qrda-import/patient_importer.rb:83-118 | an id map of one key yields exactly what that key yields |
| Dedup.DedupWarningCounts | lib/qrda-import/patient_importer.rb:86-93 | one duplicate-id warning per key listing several ids, and one parse-error warning per key whose last id names nothing |
| Dedup.SingleIdKey | lib/qrda-import/patient_importer.rb:86-97 | a key with one found id keeps that element and warns about nothing |
| Dedup.NoDuplicatesKeepsEverything | lib/qrda-import/patient_importer.rb:83-118 | with one found id per key, every key keeps its element, in id-map order, with no warning |
| References.ResolveRefs | lib/qrda-import/patient_importer.rb:176-184 | an element's lookups warn at most once per entry |
| References.NoWarningsIffAllResolve | lib/qrda-import/patient_importer.rb:177-183 | there is no warning exactly when every entry's key is in the id map |
| References.ResolvedIds | lib/qrda-import/patient_importer.rb:177-179 | an id is in the resolved list exactly when it is filed under the key of some found entry |
| References.UnresolvedWarnings | lib/qrda-import/patient_importer.rb:180-183 | every warning names an entry whose key is missing |
| References.ResolveRefsAppend | lib/qrda-import/patient_importer.rb:176-184 | resolving a concatenation of entries concatenates the ids and the warnings of the parts |
| References.ResolveOneRef | lib/qrda-import/patient_importer.rb:177-183 | one entry adds its key's whole id list, or nothing and one warning naming its root and extension |
| References.NormalizeElement | lib/qrda-import/patient_importer.rb:173-185 | only `relatedTo` changes; nil stays nil with no warning; otherwise it becomes the resolved ids with that entry list's warnings |
| References.NormalizeReferences | lib/qrda-import/patient_importer.rb:171-187 | each element, in order, is normalised against the same id map |
| References.NormalizeWarnings | lib/qrda-import/patient_importer.rb:171-187 | the warnings are those of resolving all `relatedTo` entries of all elements, in order |
| Roster.Absorb | lib/qrda-import/patient_importer.rb:122-124 | warnings are appended in order, codes are united, and code modifiers are merged with the later value winning |
| Roster.InstantiateHolds | lib/qrda-import/patient_importer.rb:150-155 | the new importers are of exactly the listed classes |
| Registration.InitialRoster | lib/qrda-import/patient_importer.rb:12-59 | the singleton's roster has 44 importers with empty side channels, one per base class in registration order, no class twice and none of the five conditional classes |
| Roster.IsR53Append | lib/qrda-import/patient_importer.rb:148 | the version test holds for a list of `templateId`s exactly when it holds for one of its parts |
| Roster.IsR53One | lib/qrda-import/patient_importer.rb:148 | a single `templateId` passes the version test exactly when it has both the Category I root and the R5.3 extension |
| Roster.AddConditionalImporters | lib/qrda-import/patient_importer.rb:147-157 | the old roster stays as a prefix, the branch's classes are appended fresh, and a class is held exactly when it was held before or the branch adds it |
| Roster.Without | lib/qrda-import/patient_importer.rb:162-167 | `delete_if` keeps exactly the instances of the other classes, in order |
| Roster.RemoveConditionalImporters | lib/qrda-import/patient_importer.rb:159-169 | an instance remains exactly when it was in the roster and its class is not one of the branch's, and the roster does not grow |
| Roster.RemoveAppend | lib/qrda-import/patient_importer.rb:159-169 | removing from a concatenation is removing from each part, so the survivors keep their order and multiplicity |
| Roster.RemoveOne | lib/qrda-import/patient_importer.rb:159-169 | a single instance is removed exactly when its class is one of the branch's |
| Roster.RestoreRoster | lib/qrda-import/patient_importer.rb:147-169 | on a roster without conditional classes, removing after adding gives back the roster, instance for instance |
| Roster.CountInstantiate | lib/qrda-import/patient_importer.rb:150-155 | fresh instances of classes without repeats hold each class once if listed and otherwise not at all |
| Roster.ActiveCount | lib/qrda-import/patient_importer.rb:147-157 | after the add step a conditional class is held once if its branch was taken and otherwise not at all |
| Roster.OneVariantPerCategory | lib/qrda-import/patient_importer.rb:147-157 | the roster an import runs holds exactly one encounter-performed and one medication-discharge importer, of the document's version, and the device-applied R5.2 importer only for a document without the R5.3 `templateId` |
| Registration.InitialRosterOneVariant | lib/qrda-import/patient_importer.rb:12-59 | an import on the registered roster runs one encounter-performed and one medication-discharge importer of the document's version, and the R5.2 device-applied importer only for a document without the R5.3 `templateId` |
| PatientImporter.ImportWith | lib/qrda-import/patient_importer.rb:79-129 | the roster keeps its length and classes; the import fails exactly when some importer raises; a clean import resets every importer's side channels |
| PatientImporter.SurvivorsInRosterOrder | lib/qrda-import/patient_importer.rb:120 | the patient's data elements are each importer's survivors, importer after importer |
| PatientImporter.WarningsInRosterOrder | lib/qrda-import/patient_importer.rb:122 | for each importer in turn, the warnings are its dedup warnings, then the warnings it carried in, then those it produced |
| PatientImporter.CodesOfAllImporters | lib/qrda-import/patient_importer.rb:123-124 | the codes are the union of all importers' codes; the modifiers are merged with a later importer winning |
| PatientImporter.ImportedKeys | lib/qrda-import/patient_importer.rb:121 | a key is in `entry_id_map` exactly when it was there before or some importer's id map has it |
| PatientImporter.FiledLast | lib/qrda-import/patient_importer.rb:121 | the id list of the last importer that files a key is present exactly when some importer files the key (reference definition) |
| PatientImporter.GlobalLookup | lib/qrda-import/patient_importer.rb:121 | `entry_id_map` gives a key the list of the last importer that files it, or else its earlier value |
| PatientImporter.CrashStopsImport | lib/qrda-import/patient_importer.rb:79-129 | the raising importer is the first one; its error is the result; earlier importers are reset; it keeps its filled side channels; later importers are untouched |
| PatientImporter.ImportDataElements | lib/qrda-import/patient_importer.rb:75-130 | with the importers' own deduplication, the import fails exactly when some importer raises |
| PatientImporter.ParseWith | lib/qrda-import/patient_importer.rb:61-73 | a parse fails exactly when an importer of the active roster raises, and a successful parse leaves none of the branch's classes |
| PatientImporter.ParseCat1 | lib/qrda-import/patient_importer.rb:61-73 | `parse_cat1` fails exactly when an importer of the active roster raises |
| PatientImporter.CrashKeepsConditionalImporters | lib/qrda-import/patient_importer.rb:62-71 | after a raise, the roster still holds every class the add step added |
| PatientImporter.ParseElements | lib/qrda-import/patient_importer.rb:68-69 | the parse yields every importer's survivors, in roster order, each resolved against the id map of all importers |
| PatientImporter.ParseWarnings | lib/qrda-import/patient_importer.rb:64-69 | the warnings are all importers' warnings in roster order, then every unresolved-reference warning in element order |
| PatientImporter.ParseCodes | lib/qrda-import/patient_importer.rb:65-68 | the parse reports every importer's codes and all modifiers, a later importer winning |
| PatientImporter.FreshRun | lib/qrda-import/patient_importer.rb:63-68 | starting from empty accumulators, the import yields exactly the importers' survivors and warnings |
| PatientImporter.FreshCodes | lib/qrda-import/patient_importer.rb:65-68 | starting from empty accumulators, the import yields exactly the importers' codes and modifiers |
| PatientImporter.ReferenceSeesEveryImporter | lib/qrda-import/patient_importer.rb:171-187 | a reference resolves exactly when some importer of the run files its key, including importers that run after the referring one |
| PatientImporter.RanRosterIsReset | lib/qrda-import/patient_importer.rb:126-128 | a clean import leaves the roster of the add step, built over the reset roster |
| PatientImporter.RosterRestored | lib/qrda-import/patient_importer.rb:61-71 | after a successful parse, the roster holds the importers it held before, in order, with empty side channels |
| PatientImporter.InitialRosterRestored | lib/qrda-import/patient_importer.rb:61-71 | every successful parse leaves the registered roster exactly as `initialize` built it |
| PatientImporter.ReimportIsIdentical | lib/qrda-import/patient_importer.rb:61-73 | parsing the same document again on the roster left behind, with the importers extracting the same entries again, gives the same result and the same roster |
| PatientImporter.CrashLeavesBothEncounterVariants | lib/qrda-import/patient_importer.rb:147-169 | after a raise while importing a document without the R5.3 `templateId`, a following import of an R5.3 document runs both encounter-performed importers |
| PatientImporter.DedupIsPerImporter | test/unit/qrda/patient_importer_test.rb:85-91 | two importers that file the same ids keep one element per key each, in roster order; dedup does not reach across importers |
| PatientImporter.PairInOrder | lib/qrda-import/patient_importer.rb:120 | two importers that do not raise contribute their survivors one after the other |
| PatientImporter.DiscardedIdStillReferenced | test/unit/qrda/patient_importer_test.rb:69-75 | a non-encounter key with ids `[a, b]` keeps only `b`'s element, yet a reference to the key resolves to both ids |

## Left out

- Locating sections and fragments with XPath, and the narrative reference
  handler. These are I/O over the XML document. Each importer's extraction is
  a parameter (`Extractor`).
- The per-category importers' `create_entries`. They are parameters too.
  Only what the core reads from their results is modelled: ids, `_type`,
  codes, `relevantPeriod` and `relatedTo`.
- `get_demographics`. It reads the XML, appends the demographic data
  elements to the patient, and adds their codes to the same set. The data
  elements `PatientImporter.ParseElements` describes, and the codes a
  successful parse reports, are those of the importers only.
- `get_patient_expired`. It is not called from `parse_cat1`.
- `lengthOfStay` and any other attribute the importers compute.
- Singleton creation, thread safety, and persisting the patient to MongoDB.
- Exact warning text. A warning names its kind and the root and extension it
  shows.
- `String#inspect` escapes other than `"` and `\`. They do not change
  whether the rendering is prefix-free.
- The iteration order of `codes_modifiers`. It is a Dafny `map`, so only its
  contents are modelled.
- `Roster.Without`: `delete_if { |dei| dei.is_a?(c) }` also removes
  instances of subclasses of `c`. The class hierarchy of the importers is not
  part of this model, so `is_a?` is modelled as class equality.
- `Roster.RemoveConditionalImporters`: removes by class equality, as
  `Roster.Without` does.
- `Roster.RestoreRoster`: because of that, it relies on no base importer
  being an instance of a subclass of a conditional class. Otherwise the
  remove step would take that importer out as well.
- `PatientImporter.ReimportIsIdentical`: assumes that a second
  `create_entries` call on the same document yields the same extraction,
  element ids included. The ids are generated inside the importers, which
  are not part of this model, so this is assumed rather than shown.
- `Roster.CountInstantiate`: proved only for class lists without repeats.
  The conditional branches never repeat a class.
- `PatientImporter.ParseCodes`: covers the importers' codes only, because
  demographics are not modelled.
- The fold is proved for any deduplication. The concrete properties of
  `Dedup.DedupImporter` are proved once in `Dedup` and combined in
  `PatientImporter.DedupIsPerImporter`. They are not restated for every
  lemma about `parse_cat1`.
