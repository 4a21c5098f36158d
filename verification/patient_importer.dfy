/** `parse_cat1` and `import_data_elements`: the importers of the roster run
    in order over one document; each importer's survivors, id map and side
    channels are folded into the patient's accumulators; references are
    normalised once every importer has run; and the conditional importers
    are added before and removed after. */
module PatientImporter {
  import opened Wrappers
  import opened Elements
  import AssocList
  import opened Dedup
  import References
  import opened Roster
  import Registration

  /** What `create_entries` of one importer yields for the document: its data
      elements, its id map, and what it adds to its own side channels. */
  datatype Extraction = Extraction(dataElements: seq<Extracted>, idMap: IdMap, produced: Channels)

  /** `create_entries` for the document being imported, by importer class.
      The document section and the narrative reference handler are fixed
      for one import, so the class decides the result. Reusing one
      `Extractor` for a second import of the same document assumes the
      importers reproduce their entries, element ids included. */
  type Extractor = ImporterClass -> Extraction

  /** The accumulators of `import_data_elements`: the patient's data elements,
      `entry_id_map`, and the global warnings, codes and code modifiers. */
  datatype State = State(elements: seq<Extracted>, idMap: IdMap, out: Channels)

  const Fresh: State := State([], [], NoChannels)

  /** The accumulators and the roster after `import_data_elements`. */
  datatype Run = Run(result: Result<State, Crash>, roster: seq<Importer>)

  /** The per-importer deduplication the fold applies: `DedupImporter` in
      `parse_cat1`. The fold and its lemmas hold whatever it is. */
  type Deduplicator = (seq<Extracted>, IdMap) -> Result<Outcome, Crash>

  /** The deduplication of this extraction raises. */
  predicate Crashes(ex: Extraction, dedup: Deduplicator) {
    dedup(ex.dataElements, ex.idMap).Failure?
  }

  /** No importer of the roster raises. */
  predicate RunsClean(roster: seq<Importer>, extract: Extractor, dedup: Deduplicator) {
    forall i :: 0 <= i < |roster| ==> !Crashes(extract(roster[i].cls), dedup)
  }

  /** What one importer that did not raise adds to the accumulators: its
      survivors are appended, its id map is merged in, its dedup warnings and
      then its own warnings are appended, its codes are united in and its
      code modifiers merged in. */
  function Collect(acc: State, o: Outcome, ex: Extraction, own: Channels): State {
    State(acc.elements + o.kept, AssocList.Merge(acc.idMap, ex.idMap),
          Absorb(acc.out, Channels(o.warnings + own.warnings, own.codes, own.codesModifiers)))
  }

  /** `import_data_elements`, importer by importer. An importer's side
      channels are reset once they are collected; a raising importer ends
      the import with its channels filled and the later importers untouched. */
  function ImportWith(acc: State, roster: seq<Importer>, extract: Extractor, dedup: Deduplicator): (r: Run)
    ensures |r.roster| == |roster|
    ensures forall i :: 0 <= i < |roster| ==> r.roster[i].cls == roster[i].cls
    ensures r.result.Failure? <==> !RunsClean(roster, extract, dedup)
    ensures r.result.Success? ==> forall i :: 0 <= i < |roster| ==> r.roster[i].channels == NoChannels
    decreases |roster|
  {
    if |roster| == 0 then Run(Success(acc), [])
    else
      var imp := roster[0];
      var ex := extract(imp.cls);
      var own := Absorb(imp.channels, ex.produced);
      assert forall i :: 0 < i < |roster| ==> roster[i] == roster[1..][i - 1];
      match dedup(ex.dataElements, ex.idMap)
      case Failure(c) => Run(Failure(c), [Importer(imp.cls, own)] + roster[1..])
      case Success(o) =>
        var rest := ImportWith(Collect(acc, o, ex, own), roster[1..], extract, dedup);
        Run(rest.result, [Importer(imp.cls, NoChannels)] + rest.roster)
  }

  /** The accumulators after running the first importer of a roster, when it
      does not raise. */
  function Next(acc: State, roster: seq<Importer>, extract: Extractor, dedup: Deduplicator): State
    requires |roster| > 0 && !Crashes(extract(roster[0].cls), dedup)
  {
    var ex := extract(roster[0].cls);
    Collect(acc, dedup(ex.dataElements, ex.idMap).value, ex, Absorb(roster[0].channels, ex.produced))
  }

  /** One importer that does not raise: its contribution is collected and the
      rest of the roster runs on the new accumulators. */
  lemma ImportStep(acc: State, roster: seq<Importer>, extract: Extractor, dedup: Deduplicator)
    requires |roster| > 0 && !Crashes(extract(roster[0].cls), dedup)
    ensures var rest := ImportWith(Next(acc, roster, extract, dedup), roster[1..], extract, dedup);
            ImportWith(acc, roster, extract, dedup) == Run(rest.result, [Importer(roster[0].cls, NoChannels)] + rest.roster)
  {
  }

  /** The rest of a clean roster is clean. */
  lemma RestRunsClean(roster: seq<Importer>, extract: Extractor, dedup: Deduplicator)
    requires |roster| > 0 && RunsClean(roster, extract, dedup)
    ensures !Crashes(extract(roster[0].cls), dedup) && RunsClean(roster[1..], extract, dedup)
  {
    assert forall i :: 0 <= i < |roster| - 1 ==> roster[1..][i] == roster[i + 1];
  }

  /** The survivors of every importer, in roster order. */
  function KeptBy(roster: seq<Importer>, extract: Extractor, dedup: Deduplicator): seq<Extracted>
    requires RunsClean(roster, extract, dedup)
    decreases |roster|
  {
    if |roster| == 0 then []
    else
      var ex := extract(roster[0].cls);
      RestRunsClean(roster, extract, dedup);
      dedup(ex.dataElements, ex.idMap).value.kept + KeptBy(roster[1..], extract, dedup)
  }

  /** Each importer's dedup warnings, then the warnings it carried in, then the
      ones it produced, importer after importer. */
  function WarnedBy(roster: seq<Importer>, extract: Extractor, dedup: Deduplicator): seq<Warning>
    requires RunsClean(roster, extract, dedup)
    decreases |roster|
  {
    if |roster| == 0 then []
    else
      var ex := extract(roster[0].cls);
      RestRunsClean(roster, extract, dedup);
      dedup(ex.dataElements, ex.idMap).value.warnings + roster[0].channels.warnings + ex.produced.warnings
        + WarnedBy(roster[1..], extract, dedup)
  }

  /** Every code any importer carried in or produced. */
  function CodesBy(roster: seq<Importer>, extract: Extractor): set<string>
    decreases |roster|
  {
    if |roster| == 0 then {}
    else roster[0].channels.codes + extract(roster[0].cls).produced.codes + CodesBy(roster[1..], extract)
  }

  /** The code modifiers of all importers, a later importer winning. */
  function ModifiersBy(roster: seq<Importer>, extract: Extractor): map<string, string>
    decreases |roster|
  {
    if |roster| == 0 then map[]
    else roster[0].channels.codesModifiers + extract(roster[0].cls).produced.codesModifiers + ModifiersBy(roster[1..], extract)
  }

  lemma MapUnionAssociative(a: map<string, string>, b: map<string, string>, c: map<string, string>)
    ensures a + b + c == a + (b + c)
  {
  }

  /** When no importer raises, the patient receives each importer's
      survivors, in roster order. */
  lemma {:induction false} SurvivorsInRosterOrder(acc: State, roster: seq<Importer>, extract: Extractor, dedup: Deduplicator)
    requires RunsClean(roster, extract, dedup)
    ensures var r := ImportWith(acc, roster, extract, dedup).result;
            r.Success? && r.value.elements == acc.elements + KeptBy(roster, extract, dedup)
    decreases |roster|
  {
    if |roster| == 0 {
      assert acc.elements + [] == acc.elements;
    } else {
      var ex := extract(roster[0].cls);
      var o := dedup(ex.dataElements, ex.idMap).value;
      var next := Next(acc, roster, extract, dedup);
      RestRunsClean(roster, extract, dedup);
      SurvivorsInRosterOrder(next, roster[1..], extract, dedup);
      ImportStep(acc, roster, extract, dedup);
      assert KeptBy(roster, extract, dedup) == o.kept + KeptBy(roster[1..], extract, dedup);
      assert next.elements == acc.elements + o.kept;
    }
  }

  lemma Regroup<T>(a: seq<T>, b: seq<T>, c: seq<T>, d: seq<T>, e: seq<T>)
    ensures a + (b + (c + d)) + e == a + (b + c + d + e)
  {
  }

  /** When no importer raises, the warnings list, importer after importer in
      roster order, its dedup warnings and then its own. */
  lemma {:induction false} WarningsInRosterOrder(acc: State, roster: seq<Importer>, extract: Extractor, dedup: Deduplicator)
    requires RunsClean(roster, extract, dedup)
    ensures var r := ImportWith(acc, roster, extract, dedup).result;
            r.Success? && r.value.out.warnings == acc.out.warnings + WarnedBy(roster, extract, dedup)
    decreases |roster|
  {
    if |roster| == 0 {
      assert acc.out.warnings + [] == acc.out.warnings;
    } else {
      var imp := roster[0];
      var ex := extract(imp.cls);
      var o := dedup(ex.dataElements, ex.idMap).value;
      var next := Next(acc, roster, extract, dedup);
      RestRunsClean(roster, extract, dedup);
      WarningsInRosterOrder(next, roster[1..], extract, dedup);
      ImportStep(acc, roster, extract, dedup);
      var later := WarnedBy(roster[1..], extract, dedup);
      assert WarnedBy(roster, extract, dedup) == o.warnings + imp.channels.warnings + ex.produced.warnings + later;
      assert Absorb(imp.channels, ex.produced).warnings == imp.channels.warnings + ex.produced.warnings;
      assert next.out.warnings == acc.out.warnings + (o.warnings + (imp.channels.warnings + ex.produced.warnings));
      Regroup(acc.out.warnings, o.warnings, imp.channels.warnings, ex.produced.warnings, later);
    }
  }

  /** When no importer raises, the codes are the union of every importer's
      codes and the code modifiers those of every importer, the later
      importer winning on a shared code. */
  lemma {:induction false} CodesOfAllImporters(acc: State, roster: seq<Importer>, extract: Extractor, dedup: Deduplicator)
    requires RunsClean(roster, extract, dedup)
    ensures var r := ImportWith(acc, roster, extract, dedup).result;
            && r.Success?
            && r.value.out.codes == acc.out.codes + CodesBy(roster, extract)
            && r.value.out.codesModifiers == acc.out.codesModifiers + ModifiersBy(roster, extract)
    decreases |roster|
  {
    if |roster| == 0 {
      assert acc.out.codesModifiers + map[] == acc.out.codesModifiers;
    } else {
      var imp := roster[0];
      var ex := extract(imp.cls);
      var next := Next(acc, roster, extract, dedup);
      RestRunsClean(roster, extract, dedup);
      CodesOfAllImporters(next, roster[1..], extract, dedup);
      ImportStep(acc, roster, extract, dedup);
      MapUnionAssociative(acc.out.codesModifiers, imp.channels.codesModifiers + ex.produced.codesModifiers, ModifiersBy(roster[1..], extract));
    }
  }

  /** `entry_id_map` ends up with the keys of every importer's id map. */
  lemma {:induction false} ImportedKeys(acc: State, roster: seq<Importer>, extract: Extractor, dedup: Deduplicator, k: string)
    requires ImportWith(acc, roster, extract, dedup).result.Success?
    ensures k in AssocList.Keys(ImportWith(acc, roster, extract, dedup).result.value.idMap) <==>
              k in AssocList.Keys(acc.idMap) || exists i :: 0 <= i < |roster| && k in AssocList.Keys(extract(roster[i].cls).idMap)
    decreases |roster|
  {
    if |roster| > 0 {
      RestRunsClean(roster, extract, dedup);
      ImportStep(acc, roster, extract, dedup);
      assert forall i :: 0 < i < |roster| ==> roster[i] == roster[1..][i - 1];
      ImportedKeys(Next(acc, roster, extract, dedup), roster[1..], extract, dedup, k);
    }
  }

  /** Every id map of the roster is a Ruby Hash, so holds each key once. */
  predicate HashesWellFormed(roster: seq<Importer>, extract: Extractor) {
    forall i :: 0 <= i < |roster| ==> AssocList.DistinctKeys(extract(roster[i].cls).idMap)
  }

  /** The id list the last importer that files `k` gives it. */
  function FiledLast(roster: seq<Importer>, extract: Extractor, k: string): (r: Option<seq<Id>>)
    ensures r.Some? <==> exists i :: 0 <= i < |roster| && k in AssocList.Keys(extract(roster[i].cls).idMap)
    decreases |roster|
  {
    if |roster| == 0 then None
    else
      assert forall i :: 0 < i < |roster| ==> roster[i] == roster[1..][i - 1];
      var later := FiledLast(roster[1..], extract, k);
      if later.Some? then later else AssocList.Lookup(extract(roster[0].cls).idMap, k)
  }

  /** `merge!` overwrites: for a key several importers file, `entry_id_map`
      holds the list of the last of them. */
  lemma {:induction false} GlobalLookup(acc: State, roster: seq<Importer>, extract: Extractor, dedup: Deduplicator, k: string)
    requires ImportWith(acc, roster, extract, dedup).result.Success?
    requires HashesWellFormed(roster, extract)
    ensures AssocList.Lookup(ImportWith(acc, roster, extract, dedup).result.value.idMap, k) ==
              if FiledLast(roster, extract, k).Some? then FiledLast(roster, extract, k) else AssocList.Lookup(acc.idMap, k)
    decreases |roster|
  {
    if |roster| > 0 {
      RestRunsClean(roster, extract, dedup);
      ImportStep(acc, roster, extract, dedup);
      assert forall i :: 0 <= i < |roster| - 1 ==> roster[1..][i] == roster[i + 1];
      assert HashesWellFormed(roster[1..], extract);
      GlobalLookup(Next(acc, roster, extract, dedup), roster[1..], extract, dedup, k);
      AssocList.MergeLookup(acc.idMap, extract(roster[0].cls).idMap, k);
    }
  }

  /** A raising importer ends the import: the importers before it ran and
      were reset, it keeps the side channels it filled, the later ones are
      untouched, and the error is its own. */
  lemma {:induction false} CrashStopsImport(acc: State, roster: seq<Importer>, extract: Extractor, dedup: Deduplicator) returns (i: nat)
    requires ImportWith(acc, roster, extract, dedup).result.Failure?
    ensures i < |roster| && Crashes(extract(roster[i].cls), dedup)
    ensures forall j :: 0 <= j < i ==> !Crashes(extract(roster[j].cls), dedup)
    ensures var ex := extract(roster[i].cls);
            ImportWith(acc, roster, extract, dedup).result.error == dedup(ex.dataElements, ex.idMap).error
    ensures forall j :: 0 <= j < i ==> ImportWith(acc, roster, extract, dedup).roster[j].channels == NoChannels
    ensures ImportWith(acc, roster, extract, dedup).roster[i].channels == Absorb(roster[i].channels, extract(roster[i].cls).produced)
    ensures ImportWith(acc, roster, extract, dedup).roster[i + 1..] == roster[i + 1..]
    decreases |roster|
  {
    var imp := roster[0];
    var ex := extract(imp.cls);
    var run := ImportWith(acc, roster, extract, dedup);
    if Crashes(ex, dedup) {
      i := 0;
      assert run.roster == [Importer(imp.cls, Absorb(imp.channels, ex.produced))] + roster[1..];
    } else {
      var next := Next(acc, roster, extract, dedup);
      var rest := ImportWith(next, roster[1..], extract, dedup);
      ImportStep(acc, roster, extract, dedup);
      var i' := CrashStopsImport(next, roster[1..], extract, dedup);
      CrashedAtCons(roster, run.roster, rest.roster, extract, dedup, i');
      i := i' + 1;
    }
  }

  /** Importer `i` raised after every importer before it ran and was reset,
      and the roster after it is untouched. */
  predicate CrashedAt(roster: seq<Importer>, ran: seq<Importer>, extract: Extractor, dedup: Deduplicator, i: nat) {
    && i < |roster| && |ran| == |roster| && Crashes(extract(roster[i].cls), dedup)
    && (forall j :: 0 <= j < i ==> !Crashes(extract(roster[j].cls), dedup) && ran[j].channels == NoChannels)
    && ran[i].channels == Absorb(roster[i].channels, extract(roster[i].cls).produced)
    && ran[i + 1..] == roster[i + 1..]
  }

  lemma CrashedAtCons(roster: seq<Importer>, ran: seq<Importer>, rest: seq<Importer>, extract: Extractor, dedup: Deduplicator, i: nat)
    requires |roster| > 0 && !Crashes(extract(roster[0].cls), dedup)
    requires ran == [Importer(roster[0].cls, NoChannels)] + rest
    requires CrashedAt(roster[1..], rest, extract, dedup, i)
    ensures CrashedAt(roster, ran, extract, dedup, i + 1)
  {
    assert forall j :: 0 < j < |roster| ==> roster[j] == roster[1..][j - 1] && ran[j] == rest[j - 1];
    assert ran[i + 2..] == rest[i + 1..];
  }

  /** The document as the version test sees it. */
  datatype Document = Document(templateIds: seq<TemplateId>)

  /** What `parse_cat1` returns, without the demographics. */
  datatype Imported = Imported(dataElements: seq<DataElement<Id>>, warnings: seq<Warning>, codes: set<string>, codesModifiers: map<string, string>)

  /** `import_data_elements` as `parse_cat1` calls it: fresh accumulators and
      the deduplication of `Dedup`. */
  function ImportDataElements(roster: seq<Importer>, extract: Extractor): (r: Run)
    ensures r.result.Failure? <==> !RunsClean(roster, extract, DedupImporter)
  {
    ImportWith(Fresh, roster, extract, DedupImporter)
  }

  /** The outcome of `parse_cat1` and the roster it leaves behind. */
  datatype Parse = Parse(result: Result<Imported, Crash>, roster: seq<Importer>)

  /** The roster `parse_cat1` runs over the document. */
  function Active(roster: seq<Importer>, doc: Document): seq<Importer> {
    AddConditionalImporters(roster, IsR53(doc.templateIds))
  }

  /** The phases of `parse_cat1` for a given deduplication: add the
      conditional importers, import, normalise the references against the
      complete id map, and remove the conditional importers again. A raise
      skips the remove step. */
  function ParseWith(roster: seq<Importer>, doc: Document, extract: Extractor, dedup: Deduplicator): (r: Parse)
    ensures r.result.Failure? <==> !RunsClean(Active(roster, doc), extract, dedup)
    ensures r.result.Success? ==> forall c :: c in ConditionalImporters(IsR53(doc.templateIds)) ==> !Holds(r.roster, c)
  {
    var r53 := IsR53(doc.templateIds);
    var run := ImportWith(Fresh, Active(roster, doc), extract, dedup);
    match run.result
    case Failure(c) => Parse(Failure(c), run.roster)
    case Success(s) =>
      var (elements, normWarnings) := References.NormalizeReferences(s.elements, s.idMap);
      Parse(Success(Imported(elements, s.out.warnings + normWarnings, s.out.codes, s.out.codesModifiers)),
            RemoveConditionalImporters(run.roster, r53))
  }

  /** `parse_cat1`. */
  function ParseCat1(roster: seq<Importer>, doc: Document, extract: Extractor): (r: Parse)
    ensures r.result.Failure? <==> !RunsClean(Active(roster, doc), extract, DedupImporter)
  {
    ParseWith(roster, doc, extract, DedupImporter)
  }

  /** A raise skips `remove_conditional_importers`: the roster keeps the
      importers the add step put in. */
  lemma CrashKeepsConditionalImporters(roster: seq<Importer>, doc: Document, extract: Extractor, dedup: Deduplicator, c: ImporterClass)
    requires ParseWith(roster, doc, extract, dedup).result.Failure?
    requires c in ConditionalImporters(IsR53(doc.templateIds))
    ensures Holds(ParseWith(roster, doc, extract, dedup).roster, c)
  {
    var active := Active(roster, doc);
    var run := ImportWith(Fresh, active, extract, dedup);
    assert ParseWith(roster, doc, extract, dedup).roster == run.roster;
    var i :| 0 <= i < |active| && active[i].cls == c;
    assert run.roster[i].cls == c;
  }

  /** The id map references are resolved against. */
  function GlobalIdMap(roster: seq<Importer>, doc: Document, extract: Extractor, dedup: Deduplicator): IdMap
    requires RunsClean(Active(roster, doc), extract, dedup)
  {
    ImportWith(Fresh, Active(roster, doc), extract, dedup).result.value.idMap
  }

  /** The value of a successful parse, phase by phase. */
  lemma ParseSuccess(roster: seq<Importer>, doc: Document, extract: Extractor, dedup: Deduplicator)
    requires ParseWith(roster, doc, extract, dedup).result.Success?
    ensures RunsClean(Active(roster, doc), extract, dedup)
    ensures var s := ImportWith(Fresh, Active(roster, doc), extract, dedup).result.value;
            var norm := References.NormalizeReferences(s.elements, s.idMap);
            ParseWith(roster, doc, extract, dedup).result.value == Imported(norm.0, s.out.warnings + norm.1, s.out.codes, s.out.codesModifiers)
  {
  }

  /** A successful parse yields every importer's survivors in roster order,
      each with its references resolved against the id map of all
      importers. */
  lemma ParseElements(roster: seq<Importer>, doc: Document, extract: Extractor, dedup: Deduplicator)
    requires ParseWith(roster, doc, extract, dedup).result.Success?
    ensures var active := Active(roster, doc);
            && RunsClean(active, extract, dedup)
            && var out := ParseWith(roster, doc, extract, dedup).result.value;
               var kept := KeptBy(active, extract, dedup);
               && |out.dataElements| == |kept|
               && forall i :: 0 <= i < |kept| ==>
                    out.dataElements[i] == References.NormalizeElement(kept[i], GlobalIdMap(roster, doc, extract, dedup)).0
  {
    ParseSuccess(roster, doc, extract, dedup);
    FreshRun(Active(roster, doc), extract, dedup);
  }

  /** A successful parse warns, in order, about each importer's keys and then
      its own warnings, importer after importer, and then about every
      unresolved reference, element after element. */
  lemma ParseWarnings(roster: seq<Importer>, doc: Document, extract: Extractor, dedup: Deduplicator)
    requires ParseWith(roster, doc, extract, dedup).result.Success?
    ensures var active := Active(roster, doc);
            && RunsClean(active, extract, dedup)
            && ParseWith(roster, doc, extract, dedup).result.value.warnings ==
                 WarnedBy(active, extract, dedup)
                 + References.ResolveRefs(References.AllRefs(KeptBy(active, extract, dedup)), GlobalIdMap(roster, doc, extract, dedup)).warnings
  {
    var active := Active(roster, doc);
    var s := ImportWith(Fresh, active, extract, dedup).result.value;
    ParseSuccess(roster, doc, extract, dedup);
    FreshRun(active, extract, dedup);
    References.NormalizeWarnings(s.elements, s.idMap);
  }

  /** A successful parse reports the codes of every importer and the code
      modifiers of every importer, a later one winning. */
  lemma ParseCodes(roster: seq<Importer>, doc: Document, extract: Extractor, dedup: Deduplicator)
    requires ParseWith(roster, doc, extract, dedup).result.Success?
    ensures var active := Active(roster, doc);
            var out := ParseWith(roster, doc, extract, dedup).result.value;
            out.codes == CodesBy(active, extract) && out.codesModifiers == ModifiersBy(active, extract)
  {
    ParseSuccess(roster, doc, extract, dedup);
    FreshCodes(Active(roster, doc), extract, dedup);
  }

  /** From a fresh state, the import yields the survivors and the warnings
      of the importers alone. */
  lemma FreshRun(roster: seq<Importer>, extract: Extractor, dedup: Deduplicator)
    requires RunsClean(roster, extract, dedup)
    ensures var s := ImportWith(Fresh, roster, extract, dedup).result.value;
            s.elements == KeptBy(roster, extract, dedup) && s.out.warnings == WarnedBy(roster, extract, dedup)
  {
    SurvivorsInRosterOrder(Fresh, roster, extract, dedup);
    WarningsInRosterOrder(Fresh, roster, extract, dedup);
  }

  /** From a fresh state, the side channels end up with the codes and
      modifiers of the importers alone. */
  lemma FreshCodes(roster: seq<Importer>, extract: Extractor, dedup: Deduplicator)
    requires RunsClean(roster, extract, dedup)
    ensures var out := ImportWith(Fresh, roster, extract, dedup).result.value.out;
            out.codes == CodesBy(roster, extract) && out.codesModifiers == ModifiersBy(roster, extract)
  {
    CodesOfAllImporters(Fresh, roster, extract, dedup);
    assert map[] + ModifiersBy(roster, extract) == ModifiersBy(roster, extract);
  }

  /** A reference resolves exactly when some importer of the run files its
      key, whether that importer ran before or after the referring one. */
  lemma ReferenceSeesEveryImporter(roster: seq<Importer>, doc: Document, extract: Extractor, dedup: Deduplicator, ref: Ref)
    requires RunsClean(Active(roster, doc), extract, dedup)
    ensures References.Resolves(GlobalIdMap(roster, doc, extract, dedup), ref) <==>
              exists i :: 0 <= i < |Active(roster, doc)| && References.RefKey(ref) in AssocList.Keys(extract(Active(roster, doc)[i].cls).idMap)
  {
    ImportedKeys(Fresh, Active(roster, doc), extract, dedup, References.RefKey(ref));
  }

  /** Every importer's side channels, emptied. A helper: its content is
      carried by `RanRosterIsReset` and `RosterRestored`. */
  function Reset(roster: seq<Importer>): (r: seq<Importer>)
    ensures |r| == |roster| && forall i :: 0 <= i < |r| ==> r[i] == Importer(roster[i].cls, NoChannels)
  {
    seq(|roster|, i requires 0 <= i < |roster| => Importer(roster[i].cls, NoChannels))
  }

  /** A clean run leaves every importer of the active roster reset, which is
      the roster the add step would build from the reset roster. */
  lemma RanRosterIsReset(roster: seq<Importer>, doc: Document, extract: Extractor, dedup: Deduplicator)
    requires RunsClean(Active(roster, doc), extract, dedup)
    ensures ImportWith(Fresh, Active(roster, doc), extract, dedup).roster == AddConditionalImporters(Reset(roster), IsR53(doc.templateIds))
  {
    var active := Active(roster, doc);
    var ran := ImportWith(Fresh, active, extract, dedup).roster;
    var added := AddConditionalImporters(Reset(roster), IsR53(doc.templateIds));
    assert |ran| == |added|;
    forall i | 0 <= i < |ran| ensures ran[i] == added[i] {
      assert ran[i] == Importer(active[i].cls, NoChannels);
    }
  }

  /** After a successful parse the roster holds the importers it held before,
      in order, each with empty side channels. */
  lemma RosterRestored(roster: seq<Importer>, doc: Document, extract: Extractor, dedup: Deduplicator)
    requires forall i :: 0 <= i < |roster| ==> !IsConditional(roster[i].cls)
    requires ParseWith(roster, doc, extract, dedup).result.Success?
    ensures ParseWith(roster, doc, extract, dedup).roster == Reset(roster)
  {
    var r53 := IsR53(doc.templateIds);
    var clean := Reset(roster);
    assert forall i :: 0 <= i < |clean| ==> !IsConditional(clean[i].cls) by {
      assert forall i :: 0 <= i < |clean| ==> clean[i].cls == roster[i].cls;
    }
    calc {
      ParseWith(roster, doc, extract, dedup).roster;
      RemoveConditionalImporters(ImportWith(Fresh, Active(roster, doc), extract, dedup).roster, r53);
      { RanRosterIsReset(roster, doc, extract, dedup); }
      RemoveConditionalImporters(AddConditionalImporters(clean, r53), r53);
      { RestoreRoster(clean, r53); }
      clean;
    }
  }

  /** The roster `initialize` registers comes back unchanged from every
      successful parse, so each parse on the singleton starts from it. */
  lemma InitialRosterRestored(doc: Document, extract: Extractor, dedup: Deduplicator)
    requires ParseWith(Registration.InitialRoster(), doc, extract, dedup).result.Success?
    ensures ParseWith(Registration.InitialRoster(), doc, extract, dedup).roster == Registration.InitialRoster()
  {
    var r := Registration.InitialRoster();
    RosterRestored(r, doc, extract, dedup);
    assert Reset(r) == r;
  }

  /** Parsing the same document again, on the roster a successful parse
      leaves, gives the same result and leaves the same roster, provided the
      importers extract the same entries again (the same `extract`). */
  lemma ReimportIsIdentical(roster: seq<Importer>, doc: Document, extract: Extractor, dedup: Deduplicator)
    requires forall i :: 0 <= i < |roster| ==> !IsConditional(roster[i].cls) && roster[i].channels == NoChannels
    requires ParseWith(roster, doc, extract, dedup).result.Success?
    ensures ParseWith(ParseWith(roster, doc, extract, dedup).roster, doc, extract, dedup) == ParseWith(roster, doc, extract, dedup)
  {
    RosterRestored(roster, doc, extract, dedup);
    assert Reset(roster) == roster;
  }

  /** A raise during an R5.2 import leaves the R5.2 importers in the roster, so
      a later R5.3 import runs both encounter-performed importers. */
  lemma CrashLeavesBothEncounterVariants(roster: seq<Importer>, doc: Document, next: Document, extract: Extractor, dedup: Deduplicator)
    requires !IsR53(doc.templateIds) && IsR53(next.templateIds)
    requires ParseWith(roster, doc, extract, dedup).result.Failure?
    ensures var active := Active(ParseWith(roster, doc, extract, dedup).roster, next);
            Holds(active, EncounterPerformedR52Importer) && Holds(active, EncounterPerformedImporter)
  {
    assert EncounterPerformedR52Importer in ConditionalImporters(IsR53(doc.templateIds));
    CrashKeepsConditionalImporters(roster, doc, extract, dedup, EncounterPerformedR52Importer);
    assert EncounterPerformedImporter in ConditionalImporters(IsR53(next.templateIds));
  }

  /** Every key of the extraction lists one id, naming an element. */
  predicate SingleIdsAllFound(ex: Extraction) {
    forall i :: 0 <= i < |ex.idMap| ==> |ex.idMap[i].1| == 1 && Find(ex.dataElements, ex.idMap[i].1[0]).Some?
  }

  /** Deduplication does not reach across importers: two importers whose
      keys each list one found id keep one element per key each, even when
      they file the same id. */
  lemma DedupIsPerImporter(a: Importer, b: Importer, extract: Extractor)
    requires SingleIdsAllFound(extract(a.cls)) && SingleIdsAllFound(extract(b.cls))
    ensures var r := ImportDataElements([a, b], extract).result;
            var ma := extract(a.cls).idMap;
            var mb := extract(b.cls).idMap;
            && r.Success?
            && |r.value.elements| == |ma| + |mb|
            && (forall j :: 0 <= j < |ma| ==> r.value.elements[j].id == ma[j].1[0])
            && (forall j :: 0 <= j < |mb| ==> r.value.elements[|ma| + j].id == mb[j].1[0])
  {
    var exA := extract(a.cls);
    var exB := extract(b.cls);
    NoDuplicatesKeepsEverything(exA.dataElements, exA.idMap);
    NoDuplicatesKeepsEverything(exB.dataElements, exB.idMap);
    var ka := DedupImporter(exA.dataElements, exA.idMap).value.kept;
    var kb := DedupImporter(exB.dataElements, exB.idMap).value.kept;
    PairInOrder(a, b, extract, DedupImporter);
    var r := ImportDataElements([a, b], extract).result;
    assert r.Success? && r.value.elements == ka + kb;
  }

  /** Two importers that do not raise contribute their survivors one after
      the other. */
  lemma PairInOrder(a: Importer, b: Importer, extract: Extractor, dedup: Deduplicator)
    requires !Crashes(extract(a.cls), dedup) && !Crashes(extract(b.cls), dedup)
    ensures var exA := extract(a.cls);
            var exB := extract(b.cls);
            var r := ImportWith(Fresh, [a, b], extract, dedup).result;
            r.Success? && r.value.elements == dedup(exA.dataElements, exA.idMap).value.kept + dedup(exB.dataElements, exB.idMap).value.kept
  {
    var exA := extract(a.cls);
    var exB := extract(b.cls);
    var ka := dedup(exA.dataElements, exA.idMap).value.kept;
    var kb := dedup(exB.dataElements, exB.idMap).value.kept;
    assert RunsClean([a, b], extract, dedup);
    SurvivorsInRosterOrder(Fresh, [a, b], extract, dedup);
    assert [a, b][1..] == [b] && [b][1..] == [];
    assert KeptBy([b], extract, dedup) == kb + [];
    assert KeptBy([a, b], extract, dedup) == ka + kb;
    assert [] + (ka + kb) == ka + kb;
  }

  /** A non-encounter key with ids `[a, b]` keeps only the element of `b`, yet
      a reference to the key resolves to both ids, the discarded `a`
      included. */
  lemma DiscardedIdStillReferenced(elements: seq<Extracted>, key: string, a: Id, b: Id, ref: Ref)
    requires Find(elements, a).Some? && Find(elements, b).Some?
    requires Find(elements, b).value.qdmType != EncounterPerformedType
    requires References.RefKey(ref) == key
    ensures DedupKey(elements, key, [a, b]).Success?
    ensures DedupKey(elements, key, [a, b]).value.kept == [Find(elements, b).value]
    ensures Find(elements, a) != Find(elements, b) ==> Find(elements, a).value !in DedupKey(elements, key, [a, b]).value.kept
    ensures References.ResolveRefs([ref], [(key, [a, b])]).ids == [a, b]
  {
    assert Last([a, b]) == Some(b);
    assert FindLast(elements, [a, b]) == Find(elements, b);
    References.ResolveOneRef(ref, [(key, [a, b])]);
    assert AssocList.Lookup([(key, [a, b])], key) == Some([a, b]);
    assert [a, b] + [] == [a, b];
  }
}
