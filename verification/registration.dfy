/** The base roster `initialize` registers when the singleton is created. */
module Registration {
  import opened Roster

  /** The `n`-th class `initialize` registers, counting from 0. */
  function Registered(n: nat): ImporterClass
    requires n < 44
  {
    match n
    case 0 => AdverseEventImporter
    case 1 => AllergyIntoleranceImporter
    case 2 => AssessmentOrderImporter
    case 3 => AssessmentPerformedImporter
    case 4 => AssessmentRecommendedImporter
    case 5 => CommunicationPerformedImporter
    case 6 => DeviceOrderImporter
    case 7 => DeviceRecommendedImporter
    case 8 => DiagnosisImporter
    case 9 => DiagnosticStudyOrderImporter
    case 10 => DiagnosticStudyPerformedImporter
    case 11 => DiagnosticStudyRecommendedImporter
    case 12 => EncounterOrderImporter
    case 13 => EncounterRecommendedImporter
    case 14 => FamilyHistoryImporter
    case 15 => ImmunizationAdministeredImporter
    case 16 => ImmunizationOrderImporter
    case 17 => InterventionOrderImporter
    case 18 => InterventionPerformedImporter
    case 19 => InterventionRecommendedImporter
    case 20 => LaboratoryTestOrderImporter
    case 21 => LaboratoryTestPerformedImporter
    case 22 => LaboratoryTestRecommendedImporter
    case 23 => MedicationActiveImporter
    case 24 => MedicationAdministeredImporter
    case 25 => MedicationDispensedImporter
    case 26 => MedicationOrderImporter
    case 27 => PatientCareExperienceImporter
    case 28 => PatientCharacteristicClinicalTrialParticipantImporter
    case 29 => PatientCharacteristicExpiredImporter
    case 30 => PatientCharacteristicPayerImporter
    case 31 => PhysicalExamOrderImporter
    case 32 => PhysicalExamPerformedImporter
    case 33 => PhysicalExamRecommendedImporter
    case 34 => ProcedureOrderImporter
    case 35 => ProcedurePerformedImporter
    case 36 => ProcedureRecommendedImporter
    case 37 => ProgramParticipationImporter
    case 38 => ProviderCareExperienceImporter
    case 39 => RelatedPersonImporter
    case 40 => SubstanceAdministeredImporter
    case 41 => SubstanceOrderImporter
    case 42 => SubstanceRecommendedImporter
    case _ => SymptomImporter
  }

  /** Where `initialize` registers each base class, counting from 0; the
      conditional classes come after all of them. */
  function Position(c: ImporterClass): nat {
    match c
    case AdverseEventImporter => 0
    case AllergyIntoleranceImporter => 1
    case AssessmentOrderImporter => 2
    case AssessmentPerformedImporter => 3
    case AssessmentRecommendedImporter => 4
    case CommunicationPerformedImporter => 5
    case DeviceOrderImporter => 6
    case DeviceRecommendedImporter => 7
    case DiagnosisImporter => 8
    case DiagnosticStudyOrderImporter => 9
    case DiagnosticStudyPerformedImporter => 10
    case DiagnosticStudyRecommendedImporter => 11
    case EncounterOrderImporter => 12
    case EncounterRecommendedImporter => 13
    case FamilyHistoryImporter => 14
    case ImmunizationAdministeredImporter => 15
    case ImmunizationOrderImporter => 16
    case InterventionOrderImporter => 17
    case InterventionPerformedImporter => 18
    case InterventionRecommendedImporter => 19
    case LaboratoryTestOrderImporter => 20
    case LaboratoryTestPerformedImporter => 21
    case LaboratoryTestRecommendedImporter => 22
    case MedicationActiveImporter => 23
    case MedicationAdministeredImporter => 24
    case MedicationDispensedImporter => 25
    case MedicationOrderImporter => 26
    case PatientCareExperienceImporter => 27
    case PatientCharacteristicClinicalTrialParticipantImporter => 28
    case PatientCharacteristicExpiredImporter => 29
    case PatientCharacteristicPayerImporter => 30
    case PhysicalExamOrderImporter => 31
    case PhysicalExamPerformedImporter => 32
    case PhysicalExamRecommendedImporter => 33
    case ProcedureOrderImporter => 34
    case ProcedurePerformedImporter => 35
    case ProcedureRecommendedImporter => 36
    case ProgramParticipationImporter => 37
    case ProviderCareExperienceImporter => 38
    case RelatedPersonImporter => 39
    case SubstanceAdministeredImporter => 40
    case SubstanceOrderImporter => 41
    case SubstanceRecommendedImporter => 42
    case SymptomImporter => 43
    case DeviceAppliedR52Importer => 44
    case EncounterPerformedR52Importer => 45
    case MedicationDischargeR52Importer => 46
    case EncounterPerformedImporter => 47
    case MedicationDischargeImporter => 48
  }

  lemma RegisteredPosition(n: nat)
    requires n < 44
    ensures Position(Registered(n)) == n
  {
  }

  /** The roster `initialize` builds: 44 importers with empty side channels,
      one per base class, in registration order, none of them of a
      conditional class, so the roster a first import starts from can be
      restored. */
  function InitialRoster(): (r: seq<Importer>)
    ensures |r| == 44
    ensures forall n :: 0 <= n < |r| ==> r[n] == Importer(Registered(n), NoChannels)
    ensures forall i, j :: 0 <= i < j < |r| ==> r[i].cls != r[j].cls
    ensures forall i :: 0 <= i < |r| ==> !IsConditional(r[i].cls)
  {
    var r := seq(44, n requires 0 <= n < 44 => Importer(Registered(n), NoChannels));
    forall n | 0 <= n < |r| ensures Position(r[n].cls) == n {
      RegisteredPosition(n);
    }
    r
  }

  /** An import on the registered roster runs exactly one encounter-performed
      and one medication-discharge importer, of the document's version, and
      the R5.2 device-applied importer only for documents without the R5.3
      template id. */
  lemma InitialRosterOneVariant(r53: bool)
    ensures var active := AddConditionalImporters(InitialRoster(), r53);
            && Count(active, EncounterPerformedImporter) + Count(active, EncounterPerformedR52Importer) == 1
            && Count(active, MedicationDischargeImporter) + Count(active, MedicationDischargeR52Importer) == 1
            && Count(active, EncounterPerformedImporter) == (if r53 then 1 else 0)
            && Count(active, DeviceAppliedR52Importer) == (if r53 then 0 else 1)
  {
    OneVariantPerCategory(InitialRoster(), r53);
  }
}
