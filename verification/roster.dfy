/** The importer roster of the patient importer: the base importers
    registered once when the singleton is created, and the version-dependent
    importers added at the start of each import and removed at its end. */
module Roster {
  import opened Wrappers
  import opened Elements

  /** The importer classes the roster can hold. */
  datatype ImporterClass =
    | AdverseEventImporter
    | AllergyIntoleranceImporter
    | AssessmentOrderImporter
    | AssessmentPerformedImporter
    | AssessmentRecommendedImporter
    | CommunicationPerformedImporter
    | DeviceOrderImporter
    | DeviceRecommendedImporter
    | DiagnosisImporter
    | DiagnosticStudyOrderImporter
    | DiagnosticStudyPerformedImporter
    | DiagnosticStudyRecommendedImporter
    | EncounterOrderImporter
    | EncounterRecommendedImporter
    | FamilyHistoryImporter
    | ImmunizationAdministeredImporter
    | ImmunizationOrderImporter
    | InterventionOrderImporter
    | InterventionPerformedImporter
    | InterventionRecommendedImporter
    | LaboratoryTestOrderImporter
    | LaboratoryTestPerformedImporter
    | LaboratoryTestRecommendedImporter
    | MedicationActiveImporter
    | MedicationAdministeredImporter
    | MedicationDispensedImporter
    | MedicationOrderImporter
    | PatientCareExperienceImporter
    | PatientCharacteristicClinicalTrialParticipantImporter
    | PatientCharacteristicExpiredImporter
    | PatientCharacteristicPayerImporter
    | PhysicalExamOrderImporter
    | PhysicalExamPerformedImporter
    | PhysicalExamRecommendedImporter
    | ProcedureOrderImporter
    | ProcedurePerformedImporter
    | ProcedureRecommendedImporter
    | ProgramParticipationImporter
    | ProviderCareExperienceImporter
    | RelatedPersonImporter
    | SubstanceAdministeredImporter
    | SubstanceOrderImporter
    | SubstanceRecommendedImporter
    | SymptomImporter
    // Added for every document without the R5.3 Category I template id:
    | DeviceAppliedR52Importer
    | EncounterPerformedR52Importer
    | MedicationDischargeR52Importer
    // Added for documents with it:
    | EncounterPerformedImporter
    | MedicationDischargeImporter

  /** The side channels an importer accumulates while it extracts: its
      warnings, the codes it has seen and its code modifiers. */
  datatype Channels = Channels(warnings: seq<Warning>, codes: set<string>, codesModifiers: map<string, string>)

  const NoChannels: Channels := Channels([], {}, map[])

  /** Folding `more` into `into`: warnings are appended, codes united and
      code modifiers merged with `more` winning on a shared code. */
  function Absorb(into: Channels, more: Channels): (r: Channels)
    ensures |r.warnings| == |into.warnings| + |more.warnings|
    ensures r.warnings[..|into.warnings|] == into.warnings && r.warnings[|into.warnings|..] == more.warnings
    ensures forall c :: c in r.codes <==> c in into.codes || c in more.codes
    ensures forall k :: k in r.codesModifiers <==> k in into.codesModifiers || k in more.codesModifiers
    ensures forall k :: k in more.codesModifiers ==> r.codesModifiers[k] == more.codesModifiers[k]
    ensures forall k :: k in into.codesModifiers && k !in more.codesModifiers ==> r.codesModifiers[k] == into.codesModifiers[k]
  {
    Channels(into.warnings + more.warnings, into.codes + more.codes, into.codesModifiers + more.codesModifiers)
  }

  /** An importer object of the roster: its class and its side channels,
      which persist between imports because the roster belongs to a
      singleton. */
  datatype Importer = Importer(cls: ImporterClass, channels: Channels)

  /** A roster holds an instance of class `c`. */
  predicate Holds(roster: seq<Importer>, c: ImporterClass) {
    exists i :: 0 <= i < |roster| && roster[i].cls == c
  }

  /** `ImporterClass.new` for each class, in order, with empty side channels.
      A helper: what callers rely on is stated by `InstantiateHolds`. */
  function Instantiate(classes: seq<ImporterClass>): (r: seq<Importer>)
    ensures |r| == |classes|
    ensures forall i :: 0 <= i < |r| ==> r[i] == Importer(classes[i], NoChannels)
  {
    seq(|classes|, i requires 0 <= i < |classes| => Importer(classes[i], NoChannels))
  }

  /** The new importers are of exactly the listed classes. */
  lemma InstantiateHolds(classes: seq<ImporterClass>)
    ensures forall c :: Holds(Instantiate(classes), c) <==> c in classes
  {
    var r := Instantiate(classes);
    forall c | c in classes ensures Holds(r, c) {
      var i :| 0 <= i < |classes| && classes[i] == c;
      assert r[i].cls == c;
    }
  }

  /** A `templateId` element of the ClinicalDocument itself. */
  datatype TemplateId = TemplateId(root: string, extension: Option<string>)

  const Cat1TemplateRoot: string := "2.16.840.1.113883.10.20.24.1.2"
  const R53Extension: string := "2021-08-01"

  /** The version test both conditional steps make: the document carries the
      Category I template id with the R5.3 extension. */
  predicate IsR53(templateIds: seq<TemplateId>) {
    exists i :: 0 <= i < |templateIds| && templateIds[i] == TemplateId(Cat1TemplateRoot, Some(R53Extension))
  }

  /** The version test looks at every `templateId` of the document: it holds
      for a list exactly when it holds for one of its parts, */
  lemma IsR53Append(a: seq<TemplateId>, b: seq<TemplateId>)
    ensures IsR53(a + b) <==> IsR53(a) || IsR53(b)
  {
    var r53 := TemplateId(Cat1TemplateRoot, Some(R53Extension));
    if IsR53(a + b) {
      var i :| 0 <= i < |a + b| && (a + b)[i] == r53;
      if i < |a| { assert a[i] == r53; } else { assert b[i - |a|] == r53; }
    }
    if IsR53(a) {
      var i :| 0 <= i < |a| && a[i] == r53;
      assert (a + b)[i] == r53;
    }
    if IsR53(b) {
      var i :| 0 <= i < |b| && b[i] == r53;
      assert (a + b)[|a| + i] == r53;
    }
  }

  /** and a single `templateId` passes only with both the Category I root and
      the R5.3 extension. */
  lemma IsR53One(t: TemplateId)
    ensures IsR53([t]) <==> t.root == Cat1TemplateRoot && t.extension == Some(R53Extension)
  {
    if t == TemplateId(Cat1TemplateRoot, Some(R53Extension)) {
      assert [t][0] == t;
    }
  }

  /** The classes one branch of `add_conditional_importers` instantiates. */
  function ConditionalImporters(r53: bool): seq<ImporterClass> {
    if r53 then [EncounterPerformedImporter, MedicationDischargeImporter]
    else [DeviceAppliedR52Importer, EncounterPerformedR52Importer, MedicationDischargeR52Importer]
  }

  /** One of the five classes the conditional steps add and remove. */
  predicate IsConditional(c: ImporterClass) {
    || c.DeviceAppliedR52Importer? || c.EncounterPerformedR52Importer? || c.MedicationDischargeR52Importer?
    || c.EncounterPerformedImporter? || c.MedicationDischargeImporter?
  }

  /** `add_conditional_importers`: fresh instances of the selected branch's
      classes go to the end of the roster. */
  function AddConditionalImporters(roster: seq<Importer>, r53: bool): (r: seq<Importer>)
    ensures |r| == |roster| + |ConditionalImporters(r53)|
    ensures r[..|roster|] == roster
    ensures forall i :: |roster| <= i < |r| ==> r[i] == Importer(ConditionalImporters(r53)[i - |roster|], NoChannels)
    ensures forall c :: Holds(r, c) <==> Holds(roster, c) || c in ConditionalImporters(r53)
  {
    var extra := Instantiate(ConditionalImporters(r53));
    var r := roster + extra;
    assert forall i :: |roster| <= i < |r| ==> r[i] == extra[i - |roster|];
    forall c | c in ConditionalImporters(r53) ensures Holds(r, c) {
      var j :| 0 <= j < |ConditionalImporters(r53)| && ConditionalImporters(r53)[j] == c;
      assert r[|roster| + j].cls == c;
    }
    r
  }

  /** `delete_if { |dei| dei.is_a?(c) }` for every class in `classes`: every
      instance of those classes goes, whether this import added it or not;
      the other instances keep their order. */
  function Without(roster: seq<Importer>, classes: set<ImporterClass>): (r: seq<Importer>)
    ensures forall x :: x in r <==> x in roster && x.cls !in classes
    ensures |r| <= |roster|
    ensures (forall i :: 0 <= i < |roster| ==> roster[i].cls !in classes) ==> r == roster
    ensures (forall i :: 0 <= i < |roster| ==> roster[i].cls in classes) ==> r == []
    decreases |roster|
  {
    if |roster| == 0 then []
    else
      var rest := Without(roster[1..], classes);
      assert roster == [roster[0]] + roster[1..];
      assert forall i :: 0 < i < |roster| ==> roster[i] == roster[1..][i - 1];
      if roster[0].cls in classes then rest else [roster[0]] + rest
  }

  /** `remove_conditional_importers`: removes the classes of the branch the
      same version test selects. */
  function RemoveConditionalImporters(roster: seq<Importer>, r53: bool): (r: seq<Importer>)
    ensures forall c :: c in ConditionalImporters(r53) ==> !Holds(r, c)
    ensures forall x :: x in roster && x.cls !in ConditionalImporters(r53) ==> x in r
    ensures forall x :: x in r <==> x in roster && x.cls !in ConditionalImporters(r53)
    ensures |r| <= |roster|
  {
    var r := Without(roster, set c | c in ConditionalImporters(r53));
    forall c | c in ConditionalImporters(r53) ensures !Holds(r, c) {
      forall i | 0 <= i < |r| ensures r[i].cls != c {
        assert r[i] in r;
      }
    }
    r
  }

  lemma {:induction false} WithoutAppend(a: seq<Importer>, b: seq<Importer>, classes: set<ImporterClass>)
    ensures Without(a + b, classes) == Without(a, classes) + Without(b, classes)
    decreases |a|
  {
    if |a| == 0 {
      assert a + b == b;
    } else {
      assert (a + b)[0] == a[0] && (a + b)[1..] == a[1..] + b;
      WithoutAppend(a[1..], b, classes);
    }
  }

  /** Removal works instance by instance: a roster split in two loses the
      branch's classes from each part, and the survivors keep their order. */
  lemma RemoveAppend(a: seq<Importer>, b: seq<Importer>, r53: bool)
    ensures RemoveConditionalImporters(a + b, r53) == RemoveConditionalImporters(a, r53) + RemoveConditionalImporters(b, r53)
  {
    WithoutAppend(a, b, set c | c in ConditionalImporters(r53));
  }

  /** A single instance goes exactly when its class is one of the branch's. */
  lemma RemoveOne(x: Importer, r53: bool)
    ensures RemoveConditionalImporters([x], r53) == if x.cls in ConditionalImporters(r53) then [] else [x]
  {
    assert [x][1..] == [];
  }

  /** Adding and then removing the conditional importers gives back a roster
      that held none of them, instance for instance. */
  lemma RestoreRoster(roster: seq<Importer>, r53: bool)
    requires forall i :: 0 <= i < |roster| ==> !IsConditional(roster[i].cls)
    ensures RemoveConditionalImporters(AddConditionalImporters(roster, r53), r53) == roster
  {
    var extra := Instantiate(ConditionalImporters(r53));
    var classes := set c | c in ConditionalImporters(r53);
    assert Without(extra, classes) == [] by {
      forall i | 0 <= i < |extra| ensures extra[i].cls in classes {
        assert extra[i].cls == ConditionalImporters(r53)[i];
      }
    }
    assert Without(roster, classes) == roster by {
      forall i | 0 <= i < |roster| ensures roster[i].cls !in classes {
        assert !IsConditional(roster[i].cls);
      }
    }
    calc {
      RemoveConditionalImporters(AddConditionalImporters(roster, r53), r53);
      Without(roster + extra, classes);
      { WithoutAppend(roster, extra, classes); }
      Without(roster, classes) + Without(extra, classes);
      roster + [];
      roster;
    }
  }

  /** How many instances of class `c` a roster holds. */
  function Count(roster: seq<Importer>, c: ImporterClass): nat {
    if |roster| == 0 then 0 else (if roster[0].cls == c then 1 else 0) + Count(roster[1..], c)
  }

  lemma {:induction false} CountAppend(a: seq<Importer>, b: seq<Importer>, c: ImporterClass)
    ensures Count(a + b, c) == Count(a, c) + Count(b, c)
    decreases |a|
  {
    if |a| == 0 {
      assert a + b == b;
    } else {
      assert (a + b)[0] == a[0] && (a + b)[1..] == a[1..] + b;
      CountAppend(a[1..], b, c);
    }
  }

  lemma {:induction false} CountAbsent(roster: seq<Importer>, c: ImporterClass)
    requires !Holds(roster, c)
    ensures Count(roster, c) == 0
    decreases |roster|
  {
    if |roster| > 0 {
      assert !Holds(roster[1..], c) by {
        forall i | 0 <= i < |roster| - 1 ensures roster[1..][i].cls != c {
          assert roster[1..][i] == roster[i + 1];
        }
      }
      CountAbsent(roster[1..], c);
    }
  }

  /** Fresh instances of classes without repeats hold each class at most once. */
  lemma {:induction false} CountInstantiate(classes: seq<ImporterClass>, c: ImporterClass)
    requires forall i, j :: 0 <= i < j < |classes| ==> classes[i] != classes[j]
    ensures Count(Instantiate(classes), c) == if c in classes then 1 else 0
    decreases |classes|
  {
    if |classes| > 0 {
      var tail := classes[1..];
      assert forall i, j :: 0 <= i < j < |tail| ==> tail[i] == classes[i + 1] && tail[j] == classes[j + 1];
      CountInstantiate(tail, c);
      assert Instantiate(classes)[1..] == Instantiate(tail);
      if classes[0] == c {
        assert c !in tail by {
          forall k | 0 <= k < |tail| ensures tail[k] != c {
            assert tail[k] == classes[k + 1];
          }
        }
      }
      assert c in classes <==> classes[0] == c || c in tail;
    }
  }

  /** After the add step, a conditional class is held once if its branch was
      taken and not at all otherwise. */
  lemma ActiveCount(roster: seq<Importer>, r53: bool, c: ImporterClass)
    requires forall i :: 0 <= i < |roster| ==> !IsConditional(roster[i].cls)
    requires IsConditional(c)
    ensures Count(AddConditionalImporters(roster, r53), c) == if c in ConditionalImporters(r53) then 1 else 0
  {
    var extra := Instantiate(ConditionalImporters(r53));
    assert AddConditionalImporters(roster, r53) == roster + extra;
    CountAppend(roster, extra, c);
    CountAbsent(roster, c);
    ConditionalImportersDistinct(r53);
    CountInstantiate(ConditionalImporters(r53), c);
  }

  lemma ConditionalImportersDistinct(r53: bool)
    ensures var cs := ConditionalImporters(r53); forall i, j :: 0 <= i < j < |cs| ==> cs[i] != cs[j]
  {
  }

  /** For a roster without conditional importers, the roster an import runs
      holds exactly one encounter-performed importer and exactly one
      medication-discharge importer, of the document's version, and the R5.2
      device-applied importer only for documents without the R5.3 template
      id. */
  lemma OneVariantPerCategory(roster: seq<Importer>, r53: bool)
    requires forall i :: 0 <= i < |roster| ==> !IsConditional(roster[i].cls)
    ensures var active := AddConditionalImporters(roster, r53);
            && Count(active, EncounterPerformedImporter) + Count(active, EncounterPerformedR52Importer) == 1
            && Count(active, MedicationDischargeImporter) + Count(active, MedicationDischargeR52Importer) == 1
            && Count(active, EncounterPerformedImporter) == (if r53 then 1 else 0)
            && Count(active, MedicationDischargeImporter) == (if r53 then 1 else 0)
            && Count(active, DeviceAppliedR52Importer) == (if r53 then 0 else 1)
  {
    var active := AddConditionalImporters(roster, r53);
    var extra := ConditionalImporters(r53);
    if r53 {
      assert extra == [EncounterPerformedImporter, MedicationDischargeImporter];
      assert Count(active, EncounterPerformedImporter) == 1 by { ActiveCount(roster, r53, EncounterPerformedImporter); }
      assert Count(active, MedicationDischargeImporter) == 1 by { ActiveCount(roster, r53, MedicationDischargeImporter); }
      assert Count(active, EncounterPerformedR52Importer) == 0 by { ActiveCount(roster, r53, EncounterPerformedR52Importer); }
      assert Count(active, MedicationDischargeR52Importer) == 0 by { ActiveCount(roster, r53, MedicationDischargeR52Importer); }
      assert Count(active, DeviceAppliedR52Importer) == 0 by { ActiveCount(roster, r53, DeviceAppliedR52Importer); }
    } else {
      assert extra == [DeviceAppliedR52Importer, EncounterPerformedR52Importer, MedicationDischargeR52Importer];
      assert Count(active, EncounterPerformedImporter) == 0 by { ActiveCount(roster, r53, EncounterPerformedImporter); }
      assert Count(active, MedicationDischargeImporter) == 0 by { ActiveCount(roster, r53, MedicationDischargeImporter); }
      assert Count(active, EncounterPerformedR52Importer) == 1 by { ActiveCount(roster, r53, EncounterPerformedR52Importer); }
      assert Count(active, MedicationDischargeR52Importer) == 1 by { ActiveCount(roster, r53, MedicationDischargeR52Importer); }
      assert Count(active, DeviceAppliedR52Importer) == 1 by { ActiveCount(roster, r53, DeviceAppliedR52Importer); }
    }
  }
}
