/**
  The add-patient form: free-text fields, the four editable lists, and
  the save that turns them into a roster patient carrying its full
  registration data.
 */
module AddPatientForm {
  import opened Text
  import opened Seqs
  import opened Entities
  import opened FormLists

  /** The text fields of the form, as the form starts. */
  const BlankFields: map<string, string> := map[
    "name" := "", "age" := "", "gender" := "", "phone" := "", "email" := "",
    "address" := "", "dateOfBirth" := "", "emergencyContact" := "", "emergencyPhone" := "",
    "riskLevel" := "Low"]

  /** The lists as the form starts: one default row each. */
  const StartLists: MedicalData := MedicalData(
    [DefaultItem(Conditions)], [DefaultItem(PastHistory)], [DefaultItem(Medications)], [DefaultItem(Allergies)])

  /** `Number.parseInt(age) || 0`, with `parseInt` the parser. */
  function ParsedAge(text: string, parseInt: string -> Option<int>): (age: int)
    ensures parseInt(text).Some? ==> age == parseInt(text).value
    ensures parseInt(text).None? ==> age == 0
  {
    match parseInt(text)
    case Some(n) => n
    case None => 0
  }

  /** The lists as saved: only the rows whose key field is not blank. */
  function SavedLists(d: MedicalData): (r: MedicalData)
    ensures forall name :: ListOf(r, name) == NonBlank(ListOf(d, name), KeyField(name))
  {
    MedicalData(
      NonBlank(d.conditions, "condition"),
      NonBlank(d.pastHistory, "condition"),
      NonBlank(d.medications, "name"),
      NonBlank(d.allergies, "allergen"))
  }

  /**
    `handleSave`: refused when name or phone is empty; otherwise the new
    patient, its id `now` (`Date.now()`) and its last visit `today`.
   */
  function NewPatient(fields: map<string, string>, lists: MedicalData, now: nat, today: string,
                      parseInt: string -> Option<int>): (r: Option<Patient>)
    ensures r.None? <==> Field(fields, "name") == "" || Field(fields, "phone") == ""
    ensures r.Some? ==> r.value.id == now && r.value.name == Field(fields, "name") && r.value.phone == Field(fields, "phone")
    ensures r.Some? ==> r.value.lastVisit == today && r.value.gender == Field(fields, "gender")
    ensures r.Some? ==> r.value.email == Field(fields, "email") && r.value.riskLevel == Field(fields, "riskLevel")
    ensures r.Some? && parseInt(Field(fields, "age")).Some? ==> r.value.age == parseInt(Field(fields, "age")).value
    ensures r.Some? && parseInt(Field(fields, "age")).None? ==> r.value.age == 0
    ensures r.Some? ==> r.value.conditions == ConditionNames(lists.conditions)
    ensures r.Some? ==> r.value.registration.Some? && r.value.registration.value.fullMedicalData == SavedLists(lists)
    ensures r.Some? ==> r.value.registration == Some(Registration(Field(fields, "address"), Field(fields, "dateOfBirth"),
      Field(fields, "emergencyContact"), Field(fields, "emergencyPhone"), SavedLists(lists)))
    ensures r.Some? ==> forall j :: 0 <= j < |r.value.conditions| ==> !IsBlank(r.value.conditions[j])
  {
    if Field(fields, "name") == "" || Field(fields, "phone") == "" then None
    else
      Some(Patient(
        now,
        Field(fields, "name"),
        ParsedAge(Field(fields, "age"), parseInt),
        Field(fields, "gender"),
        Field(fields, "phone"),
        Field(fields, "email"),
        today,
        Field(fields, "riskLevel"),
        ConditionNames(lists.conditions),
        Some(Registration(
          Field(fields, "address"),
          Field(fields, "dateOfBirth"),
          Field(fields, "emergencyContact"),
          Field(fields, "emergencyPhone"),
          SavedLists(lists)))))
  }

  /**
    The card's condition names are exactly the names of the conditions
    kept in the registration data, in the same order.
   */
  lemma CardMatchesRegistration(fields: map<string, string>, lists: MedicalData, now: nat, today: string,
                                parseInt: string -> Option<int>)
    requires NewPatient(fields, lists, now, today, parseInt).Some?
    ensures var p := NewPatient(fields, lists, now, today, parseInt).value;
      p.conditions == Map(ConditionOf, p.registration.value.fullMedicalData.conditions)
  {
  }

  /** Saving keeps each list's non-blank rows in form order, and no blank one. */
  lemma SavedListsKeepOrder(d: MedicalData, name: ListName)
    ensures SubsequenceOf(ListOf(SavedLists(d), name), ListOf(d, name))
    ensures SavedLists(SavedLists(d)) == SavedLists(d)
  {
    NonBlankKeepsOrder(ListOf(d, name), KeyField(name));
    NonBlankKeepsOrder(d.conditions, "condition");
    NonBlankKeepsOrder(d.pastHistory, "condition");
    NonBlankKeepsOrder(d.medications, "name");
    NonBlankKeepsOrder(d.allergies, "allergen");
  }

  class AddPatient {
    var fields: map<string, string>
    var lists: MedicalData

    /** Every list keeps at least one row, and every row its key field. */
    ghost predicate Valid()
      reads this
    {
      (forall name :: |ListOf(lists, name)| >= 1) && KeyFieldsPresent(lists)
    }

    constructor ()
      ensures Valid()
      ensures fields == BlankFields && lists == StartLists
    {
      fields := BlankFields;
      lists := StartLists;
    }

    /** `handleInputChange` */
    method InputChange(field: string, value: string)
      requires Valid()
      modifies this
      ensures Valid()
      ensures fields == old(fields)[field := value] && lists == old(lists)
    {
      fields := fields[field := value];
    }

    /** `handleArrayItemChange` */
    method ArrayItemChange(name: ListName, index: int, field: string, value: string)
      requires Valid()
      modifies this
      ensures Valid()
      ensures lists == EditRow(old(lists), name, index, field, value) && fields == old(fields)
    {
      RowEditsKeepKeyFields(lists, name, index, field, value);
      lists := EditRow(lists, name, index, field, value);
    }

    /** `addArrayItem` */
    method AddArrayItem(name: ListName)
      requires Valid()
      modifies this
      ensures Valid()
      ensures lists == AddRow(old(lists), name) && fields == old(fields)
    {
      RowEditsKeepKeyFields(lists, name, 0, "", "");
      lists := AddRow(lists, name);
    }

    /** `removeArrayItem`, reachable only while the list has more than one row (the button is disabled at one). */
    method RemoveArrayItem(name: ListName, index: int)
      requires Valid()
      modifies this
      ensures Valid()
      ensures |ListOf(old(lists), name)| == 1 ==> lists == old(lists)
      ensures |ListOf(old(lists), name)| > 1 ==> lists == RemoveRow(old(lists), name, index)
      ensures fields == old(fields)
    {
      if |ListOf(lists, name)| > 1 {
        RowEditsKeepKeyFields(lists, name, index, "", "");
        lists := RemoveRow(lists, name, index);
      }
    }

    /** `handleSave`: the patient handed to `onSave`, or `None` when the save is refused. */
    method Save(now: nat, today: string, parseInt: string -> Option<int>) returns (saved: Option<Patient>)
      requires Valid()
      ensures saved == NewPatient(fields, lists, now, today, parseInt)
    {
      saved := NewPatient(fields, lists, now, today, parseInt);
    }
  }
}
