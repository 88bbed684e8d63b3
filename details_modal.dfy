/**
  The patient-details modal: the edited copy of a patient's fields and
  lists, the committed lists it falls back to on cancel, the save that
  produces the update sent to the dashboard, and (in the fetching
  variant) the loading of the patient's active features as conditions.
 */
module PatientDetails {
  import opened Text
  import opened Seqs
  import opened Entities
  import opened FormLists
  import opened FeatureLabels

  /** The medication list both modals show; it is never fetched. */
  const StaticMedications: seq<Record> := [
    map["name" := "Metformin", "dosage" := "500mg", "frequency" := "Twice daily", "prescribedDate" := "2024-01-15", "prescriber" := "Dr. Smith"],
    map["name" := "Lisinopril", "dosage" := "10mg", "frequency" := "Once daily", "prescribedDate" := "2023-08-22", "prescriber" := "Dr. Johnson"],
    map["name" := "Atorvastatin", "dosage" := "20mg", "frequency" := "Once daily", "prescribedDate" := "2023-03-10", "prescriber" := "Dr. Wilson"],
    map["name" := "Aspirin", "dosage" := "81mg", "frequency" := "Once daily", "prescribedDate" := "2023-08-22", "prescriber" := "Dr. Johnson"]
  ]

  const Osteoarthritis: Record := map["date" := "2022-11-05", "condition" := "Osteoarthritis", "status" := "Chronic", "severity" := "Medium", "notes" := "Bilateral knee involvement"]
  const Appendectomy: Record := map["date" := "2021-06-15", "condition" := "Appendectomy", "status" := "Resolved", "severity" := "Low", "notes" := "Laparoscopic procedure, no complications"]
  const Penicillin: Record := map["allergen" := "Penicillin", "reaction" := "Rash, difficulty breathing", "severity" := "Severe", "discoveredDate" := "2015-05-12"]
  const Shellfish: Record := map["allergen" := "Shellfish", "reaction" := "Hives, swelling", "severity" := "Moderate", "discoveredDate" := "2018-07-20"]

  /** The placeholder history and allergies the fetching modal shows after its features load. */
  const DefaultPastHistory: seq<Record> := [Osteoarthritis, Appendectomy]
  const DefaultAllergies: seq<Record> := [Penicillin, Shellfish]

  /** The lists the seeded modal starts with. */
  const SeedLists: MedicalData := MedicalData(
    [
      map["condition" := "Type 2 Diabetes", "status" := "Active", "severity" := "High", "diagnosedDate" := "2024-01-15"],
      map["condition" := "Hypertension", "status" := "Controlled", "severity" := "Medium", "diagnosedDate" := "2023-08-22"],
      map["condition" := "Hyperlipidemia", "status" := "Active", "severity" := "Low", "diagnosedDate" := "2023-03-10"]
    ],
    [
      Osteoarthritis,
      Appendectomy,
      map["date" := "2020-03-20", "condition" := "Pneumonia", "status" := "Resolved", "severity" := "Low", "notes" := "Community-acquired, treated with antibiotics"],
      map["date" := "2019-09-10", "condition" := "Fracture - Right Wrist", "status" := "Resolved", "severity" := "Low", "notes" := "Colles fracture, healed well"]
    ],
    StaticMedications,
    [
      Penicillin,
      Shellfish,
      map["allergen" := "Latex", "reaction" := "Contact dermatitis", "severity" := "Mild", "discoveredDate" := "2020-02-14"]
    ])

  /** The editable text fields, as taken from the patient. */
  function PatientFields(p: Patient): (fields: map<string, string>)
    ensures fields.Keys == {"name", "age", "gender", "phone", "email", "riskLevel"}
    ensures fields["name"] == p.name && fields["age"] == IntString(p.age) && fields["riskLevel"] == p.riskLevel
  {
    map["name" := p.name, "age" := IntString(p.age), "gender" := p.gender, "phone" := p.phone,
        "email" := p.email, "riskLevel" := p.riskLevel]
  }

  // ------------------------------------------------------ features

  /** The condition row a feature key becomes: its label, active, medium severity, diagnosed today. */
  function FeatureCondition(key: string, today: string): (c: Record)
    ensures Field(c, "condition") == Label(key) && Field(c, "status") == "Active" && Field(c, "severity") == "Medium"
    ensures Field(c, "diagnosedDate") == today
  {
    map["condition" := Label(key), "status" := "Active", "severity" := "Medium", "diagnosedDate" := today]
  }

  /** `Object.entries(featuresData).map(...)`: one condition per feature, in the features' order. */
  function FeatureConditions(features: seq<(string, string)>, today: string): (r: seq<Record>)
    ensures |r| == |features|
    ensures forall i :: 0 <= i < |r| ==> r[i] == FeatureCondition(features[i].0, today)
  {
    Map((e: (string, string)) => FeatureCondition(e.0, today), features)
  }

  /** A feature with no label in the table is listed under its own key. */
  lemma UnlabelledFeatureKeepsKey(features: seq<(string, string)>, today: string, i: int)
    requires 0 <= i < |features| && features[i].0 !in FeatureNameMap
    ensures Field(FeatureConditions(features, today)[i], "condition") == features[i].0
  {
  }

  /** When no label is blank, every feature condition survives the save and the saved names are the labels, in order. */
  lemma FeatureConditionsSurviveSave(features: seq<(string, string)>, today: string)
    requires forall i :: 0 <= i < |features| ==> !IsBlank(Label(features[i].0))
    ensures ConditionNames(FeatureConditions(features, today)) == Map((e: (string, string)) => Label(e.0), features)
  {
    var conds := FeatureConditions(features, today);
    FilterKeepsAll(KeepsKey("condition"), conds);
  }

  /** The single row shown when the features cannot be loaded. */
  function FallbackConditions(today: string): (r: seq<Record>)
    ensures |r| == 1 && Field(r[0], "condition") == "No conditions found" && Field(r[0], "severity") == "Low"
    ensures Field(r[0], "status") == "Active" && Field(r[0], "diagnosedDate") == today
  {
    [map["condition" := "No conditions found", "status" := "Active", "severity" := "Low", "diagnosedDate" := today]]
  }

  // ------------------------------------------------------- save

  /** `Number.parseInt(editedData.age) || patient.age` */
  function EditedAge(text: string, previous: int, parseInt: string -> Option<int>): (age: int)
    ensures parseInt(text).Some? && parseInt(text).value != 0 ==> age == parseInt(text).value
    ensures parseInt(text).None? || parseInt(text).value == 0 ==> age == previous
  {
    if parseInt(text).Some? && parseInt(text).value != 0 then parseInt(text).value else previous
  }

  /**
    `updatedPatient`: the edited text fields and the non-blank condition
    names over the patient's own id and last visit.
   */
  function UpdatedPatient(p: Patient, fields: map<string, string>, lists: MedicalData,
                          parseInt: string -> Option<int>): (u: Patient)
    ensures u.id == p.id && u.lastVisit == p.lastVisit && u.registration.None?
    ensures u.name == Field(fields, "name") && u.riskLevel == Field(fields, "riskLevel")
    ensures u.gender == Field(fields, "gender") && u.phone == Field(fields, "phone") && u.email == Field(fields, "email")
    ensures parseInt(Field(fields, "age")).Some? && parseInt(Field(fields, "age")).value != 0 ==>
      u.age == parseInt(Field(fields, "age")).value
    ensures parseInt(Field(fields, "age")).None? || parseInt(Field(fields, "age")).value == 0 ==> u.age == p.age
    ensures u.conditions == ConditionNames(lists.conditions)
  {
    NamesThenFilterAgrees(lists.conditions);
    Patient(
      p.id,
      Field(fields, "name"),
      EditedAge(Field(fields, "age"), p.age, parseInt),
      Field(fields, "gender"),
      Field(fields, "phone"),
      Field(fields, "email"),
      p.lastVisit,
      Field(fields, "riskLevel"),
      Filter(Filled, Map(ConditionOf, lists.conditions)),
      None)
  }

  /** Saving unedited fields reproduces the patient's card, apart from its condition names. */
  lemma SaveUneditedKeepsCard(p: Patient, lists: MedicalData, parseInt: string -> Option<int>)
    requires parseInt(IntString(p.age)) == Some(p.age)
    ensures var u := UpdatedPatient(p, PatientFields(p), lists, parseInt);
      u == p.(conditions := u.conditions, registration := None)
  {
  }

  /** The built-in lists carry their key fields. */
  lemma BuiltInListsHaveKeyFields(today: string)
    ensures AllHave(StaticMedications, "name") && AllHave(DefaultPastHistory, "condition")
    ensures AllHave(DefaultAllergies, "allergen") && AllHave(FallbackConditions(today), "condition")
    ensures KeyFieldsPresent(SeedLists)
  {
    KeyFieldsFromLists(SeedLists);
  }

  /** A list set whose four lists carry their key fields satisfies `KeyFieldsPresent`. */
  lemma KeyFieldsFromLists(d: MedicalData)
    requires AllHave(d.conditions, "condition") && AllHave(d.pastHistory, "condition")
    requires AllHave(d.medications, "name") && AllHave(d.allergies, "allergen")
    ensures KeyFieldsPresent(d)
  {
    forall name: ListName
      ensures AllHave(ListOf(d, name), KeyField(name))
    {
      match name
      case Conditions =>
      case PastHistory =>
      case Medications =>
      case Allergies =>
    }
  }

  /** `KeyFieldsPresent` read back list by list. */
  lemma KeyListsOf(d: MedicalData)
    requires KeyFieldsPresent(d)
    ensures AllHave(d.conditions, "condition") && AllHave(d.pastHistory, "condition")
    ensures AllHave(d.medications, "name") && AllHave(d.allergies, "allergen")
  {
    assert AllHave(ListOf(d, Conditions), KeyField(Conditions));
    assert AllHave(ListOf(d, PastHistory), KeyField(PastHistory));
    assert AllHave(ListOf(d, Medications), KeyField(Medications));
    assert AllHave(ListOf(d, Allergies), KeyField(Allergies));
  }

  /** The lists a save commits carry their key fields when the edited ones do. */
  lemma SavedListsKeepKeyFields(e: MedicalData)
    requires KeyFieldsPresent(e)
    ensures KeyFieldsPresent(MedicalData(e.conditions, e.pastHistory, StaticMedications, e.allergies))
  {
    BuiltInListsHaveKeyFields("");
    KeyListsOf(e);
    KeyFieldsFromLists(MedicalData(e.conditions, e.pastHistory, StaticMedications, e.allergies));
  }

  class DetailsModal {
    /** The patient the parent currently passes in. */
    var patient: Patient
    var isEditing: bool
    var fields: map<string, string>
    var edited: MedicalData
    /** The lists last loaded or saved; their `medications` is always the static list. */
    var committed: MedicalData
    var loadFailed: bool

    /** Every row of the edited and the committed lists carries its list's key field. */
    ghost predicate Valid()
      reads this
    {
      && committed.medications == StaticMedications
      && KeyFieldsPresent(committed)
      && KeyFieldsPresent(edited)
    }

    /** The fetching modal: empty lists until the features arrive. */
    constructor Fetching(p: Patient)
      ensures Valid()
      ensures patient == p && !isEditing && !loadFailed && fields == PatientFields(p)
      ensures edited == MedicalData([], [], [], [])
      ensures committed == MedicalData([], [], StaticMedications, [])
    {
      patient := p;
      isEditing := false;
      fields := PatientFields(p);
      edited := MedicalData([], [], [], []);
      committed := MedicalData([], [], StaticMedications, []);
      loadFailed := false;
      BuiltInListsHaveKeyFields("");
      KeyFieldsFromLists(MedicalData([], [], [], []));
      KeyFieldsFromLists(MedicalData([], [], StaticMedications, []));
    }

    /** The seeded modal: built-in lists. */
    constructor Seeded(p: Patient)
      ensures Valid()
      ensures patient == p && !isEditing && !loadFailed && fields == PatientFields(p)
      ensures edited == SeedLists && committed == SeedLists
    {
      patient := p;
      isEditing := false;
      fields := PatientFields(p);
      edited := SeedLists;
      committed := SeedLists;
      loadFailed := false;
      BuiltInListsHaveKeyFields("");
    }

    /**
      The parent re-renders the open modal with a new `patient` prop (the
      dashboard replaces its selected patient with the saved update). Only
      the prop changes: the edited fields and lists are component state and
      keep their values. In the fetching modal a changed name also re-runs
      the features request, which is a following `LoadFeatures` call.
     */
    method PropsChange(p: Patient)
      requires Valid()
      modifies this
      ensures Valid()
      ensures patient == p
      ensures fields == old(fields) && edited == old(edited) && committed == old(committed)
      ensures isEditing == old(isEditing) && loadFailed == old(loadFailed)
    {
      patient := p;
    }

    /**
      The features request of the fetching modal. `features` is the body
      of an ok response, `None` when the response is not ok or unreadable;
      nothing is requested for a patient without a name.
     */
    method LoadFeatures(features: Option<seq<(string, string)>>, today: string)
      requires Valid()
      modifies this
      ensures Valid()
      ensures patient.name == "" ==> edited == old(edited) && committed == old(committed) && loadFailed == old(loadFailed)
      ensures patient.name != "" && features.Some? ==>
        && committed == MedicalData(FeatureConditions(features.value, today), DefaultPastHistory, StaticMedications, DefaultAllergies)
        && edited == MedicalData(FeatureConditions(features.value, today), DefaultPastHistory, StaticMedications, DefaultAllergies)
        && !loadFailed
      ensures patient.name != "" && features.None? ==>
        && committed == old(committed).(conditions := FallbackConditions(today))
        && edited == old(edited).(conditions := FallbackConditions(today))
        && loadFailed
      ensures patient == old(patient) && fields == old(fields) && isEditing == old(isEditing)
    {
      if patient.name == "" {
        return;
      }
      BuiltInListsHaveKeyFields(today);
      loadFailed := false;
      match features {
        case Some(entries) =>
          var conditions := FeatureConditions(entries, today);
          committed := MedicalData(conditions, DefaultPastHistory, StaticMedications, DefaultAllergies);
          edited := MedicalData(conditions, DefaultPastHistory, StaticMedications, DefaultAllergies);
          KeyFieldsFromLists(committed);
        case None =>
          loadFailed := true;
          KeyListsOf(old(committed));
          KeyListsOf(old(edited));
          committed := committed.(conditions := FallbackConditions(today));
          edited := edited.(conditions := FallbackConditions(today));
          KeyFieldsFromLists(committed);
          KeyFieldsFromLists(edited);
      }
    }

    /**
      The past-history request of the fetching modal: one row carrying
      the returned text, or no rows when the request fails.
     */
    method LoadPastHistory(pastMedicalHistory: Option<string>)
      requires Valid()
      modifies this
      ensures Valid()
      ensures pastMedicalHistory.Some? ==> committed == old(committed).(pastHistory := [
        map["date" := "", "condition" := "", "status" := "", "severity" := "", "notes" := pastMedicalHistory.value]])
      ensures pastMedicalHistory.None? ==> committed == old(committed).(pastHistory := [])
      ensures patient == old(patient) && edited == old(edited) && fields == old(fields)
      ensures isEditing == old(isEditing) && loadFailed == old(loadFailed)
    {
      KeyListsOf(committed);
      match pastMedicalHistory {
        case Some(text) =>
          committed := committed.(pastHistory := [
            map["date" := "", "condition" := "", "status" := "", "severity" := "", "notes" := text]]);
        case None =>
          committed := committed.(pastHistory := []);
      }
      KeyFieldsFromLists(committed);
    }

    /** `handleEdit` */
    method Edit()
      requires Valid()
      modifies this
      ensures Valid()
      ensures isEditing
      ensures patient == old(patient) && fields == old(fields) && edited == old(edited) && committed == old(committed)
      ensures loadFailed == old(loadFailed)
    {
      isEditing := true;
    }

    /** `handleInputChange` */
    method InputChange(field: string, value: string)
      requires Valid()
      modifies this
      ensures Valid()
      ensures fields == old(fields)[field := value]
      ensures patient == old(patient) && edited == old(edited) && committed == old(committed)
      ensures isEditing == old(isEditing) && loadFailed == old(loadFailed)
    {
      fields := fields[field := value];
    }

    /** `add*` */
    method AddItem(name: ListName)
      requires Valid()
      modifies this
      ensures Valid()
      ensures edited == AddRow(old(edited), name)
      ensures patient == old(patient) && fields == old(fields) && committed == old(committed)
      ensures isEditing == old(isEditing) && loadFailed == old(loadFailed)
    {
      RowEditsKeepKeyFields(edited, name, 0, "", "");
      edited := AddRow(edited, name);
    }

    /** `remove*` */
    method RemoveItem(name: ListName, index: int)
      requires Valid()
      modifies this
      ensures Valid()
      ensures edited == RemoveRow(old(edited), name, index)
      ensures patient == old(patient) && fields == old(fields) && committed == old(committed)
      ensures isEditing == old(isEditing) && loadFailed == old(loadFailed)
    {
      RowEditsKeepKeyFields(edited, name, index, "", "");
      edited := RemoveRow(edited, name, index);
    }

    /** `update*` */
    method UpdateItem(name: ListName, index: int, field: string, value: string)
      requires Valid()
      modifies this
      ensures Valid()
      ensures edited == EditRow(old(edited), name, index, field, value)
      ensures patient == old(patient) && fields == old(fields) && committed == old(committed)
      ensures isEditing == old(isEditing) && loadFailed == old(loadFailed)
    {
      RowEditsKeepKeyFields(edited, name, index, field, value);
      edited := EditRow(edited, name, index, field, value);
    }

    /**
      `handleSave`: the edited conditions, history and allergies become
      the committed ones, editing ends, and the update for the dashboard
      is returned.
     */
    method Save(parseInt: string -> Option<int>) returns (updated: Patient)
      requires Valid()
      modifies this
      ensures Valid()
      ensures updated == UpdatedPatient(patient, old(fields), old(edited), parseInt)
      ensures committed == MedicalData(old(edited).conditions, old(edited).pastHistory, StaticMedications, old(edited).allergies)
      ensures !isEditing
      ensures patient == old(patient) && fields == old(fields) && edited == old(edited) && loadFailed == old(loadFailed)
    {
      updated := UpdatedPatient(patient, fields, edited, parseInt);
      SavedListsKeepKeyFields(edited);
      committed := MedicalData(edited.conditions, edited.pastHistory, StaticMedications, edited.allergies);
      isEditing := false;
    }

    /** `handleCancel`: the current patient's fields and copies of the committed lists. */
    method Cancel()
      requires Valid()
      modifies this
      ensures Valid()
      ensures fields == PatientFields(patient) && edited == committed && !isEditing
      ensures patient == old(patient) && committed == old(committed) && loadFailed == old(loadFailed)
    {
      fields := PatientFields(patient);
      edited := committed;
      isEditing := false;
    }
  }
}
