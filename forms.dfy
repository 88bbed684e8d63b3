/**
  What the patient editors (the add-patient form and both patient-details
  modals) share: the four editable lists and their default rows, the
  change-one-field, append and remove-one-row helpers, the save-time
  filtering of blank rows, and the two lookup tables for risk level and
  severity.
 */
module FormLists {
  import opened Text
  import opened Seqs
  import opened Entities

  /** The four editable lists of a patient form. */
  datatype ListName = Conditions | PastHistory | Medications | Allergies

  /** The field whose blankness decides whether a row is kept at save time. */
  function KeyField(name: ListName): string {
    match name
    case Conditions => "condition"
    case PastHistory => "condition"
    case Medications => "name"
    case Allergies => "allergen"
  }

  /** The empty row the "add" button appends to each list. */
  function DefaultItem(name: ListName): (item: Record)
    ensures KeyField(name) in item && item[KeyField(name)] == ""
  {
    match name
    case Conditions => map["condition" := "", "status" := "Active", "severity" := "Low", "diagnosedDate" := ""]
    case PastHistory => map["condition" := "", "status" := "Resolved", "severity" := "Low", "date" := "", "notes" := ""]
    case Medications => map["name" := "", "dosage" := "", "frequency" := "", "prescribedDate" := "", "prescriber" := ""]
    case Allergies => map["allergen" := "", "reaction" := "", "severity" := "Mild", "discoveredDate" := ""]
  }

  /** `item[key]`, with the empty string for a missing key. */
  function Field(item: Record, key: string): string {
    if key in item then item[key] else ""
  }

  /** Every row of the list has the field `key`. */
  predicate AllHave(s: seq<Record>, key: string) {
    forall j :: 0 <= j < |s| ==> key in s[j]
  }

  // ------------------------------------------------------ row editing

  /**
    `s.map((item, j) => j === index ? { ...item, [field]: value } : item)`:
    only field `field` of row `index` changes.
   */
  function UpdateAt(s: seq<Record>, index: int, field: string, value: string): (r: seq<Record>)
    ensures |r| == |s|
    ensures forall j :: 0 <= j < |s| && j != index ==> r[j] == s[j]
    ensures 0 <= index < |s| ==> field in r[index] && r[index][field] == value
    ensures 0 <= index < |s| ==> r[index].Keys == s[index].Keys + {field}
    ensures 0 <= index < |s| ==> forall k :: k in s[index] && k != field ==> r[index][k] == s[index][k]
  {
    seq(|s|, j requires 0 <= j < |s| => if j == index then s[j][field := value] else s[j])
  }

  /** Writing back the previous value of a field undoes the change. */
  lemma UpdateAtUndo(s: seq<Record>, index: int, field: string, value: string)
    requires 0 <= index < |s| && field in s[index]
    ensures UpdateAt(UpdateAt(s, index, field, value), index, field, s[index][field]) == s
  {
    var r := UpdateAt(UpdateAt(s, index, field, value), index, field, s[index][field]);
    assert r[index] == s[index];
  }

  /** Editing, appending and removing rows never loses a field every row had. */
  lemma EditsKeepFields(s: seq<Record>, key: string, index: int, field: string, value: string, item: Record)
    requires AllHave(s, key) && key in item
    ensures AllHave(UpdateAt(s, index, field, value), key)
    ensures AllHave(s + [item], key)
    ensures AllHave(RemoveAt(s, index), key)
  {
    var r := RemoveAt(s, index);
    forall j | 0 <= j < |r| ensures key in r[j] {
      if 0 <= index < |s| && j >= index {
        assert r[j] == s[j + 1];
      }
    }
  }

  // ------------------------------------------------- the four lists at once

  function ListOf(d: MedicalData, name: ListName): seq<Record> {
    match name
    case Conditions => d.conditions
    case PastHistory => d.pastHistory
    case Medications => d.medications
    case Allergies => d.allergies
  }

  /** `{ ...prev, [name]: s }`: list `name` replaced, the other three kept. */
  function WithList(d: MedicalData, name: ListName, s: seq<Record>): (r: MedicalData)
    ensures ListOf(r, name) == s
    ensures forall other :: other != name ==> ListOf(r, other) == ListOf(d, other)
  {
    match name
    case Conditions => d.(conditions := s)
    case PastHistory => d.(pastHistory := s)
    case Medications => d.(medications := s)
    case Allergies => d.(allergies := s)
  }

  /** `addArrayItem` / `add*`: the list's default row appended. */
  function AddRow(d: MedicalData, name: ListName): (r: MedicalData)
    ensures ListOf(r, name) == ListOf(d, name) + [DefaultItem(name)]
    ensures forall other :: other != name ==> ListOf(r, other) == ListOf(d, other)
  {
    WithList(d, name, ListOf(d, name) + [DefaultItem(name)])
  }

  /** `removeArrayItem` / `remove*`: row `index` dropped, the rest kept in order. */
  function RemoveRow(d: MedicalData, name: ListName, index: int): (r: MedicalData)
    ensures ListOf(r, name) == RemoveAt(ListOf(d, name), index)
    ensures forall other :: other != name ==> ListOf(r, other) == ListOf(d, other)
  {
    WithList(d, name, RemoveAt(ListOf(d, name), index))
  }

  /** `handleArrayItemChange` / `update*`: field `field` of row `index` set to `value`. */
  function EditRow(d: MedicalData, name: ListName, index: int, field: string, value: string): (r: MedicalData)
    ensures ListOf(r, name) == UpdateAt(ListOf(d, name), index, field, value)
    ensures forall other :: other != name ==> ListOf(r, other) == ListOf(d, other)
  {
    WithList(d, name, UpdateAt(ListOf(d, name), index, field, value))
  }

  /** Removing the row just added gives the lists back. */
  lemma RemoveUndoesAdd(d: MedicalData, name: ListName)
    ensures RemoveRow(AddRow(d, name), name, |ListOf(d, name)|) == d
  {
    RemoveAfterAppend(ListOf(d, name), DefaultItem(name));
  }

  /** Every row of every list has its key field: the rows the save-time filter reads. */
  predicate KeyFieldsPresent(d: MedicalData) {
    forall name :: AllHave(ListOf(d, name), KeyField(name))
  }

  /** Adding, removing and editing rows keep every key field present. */
  lemma RowEditsKeepKeyFields(d: MedicalData, name: ListName, index: int, field: string, value: string)
    requires KeyFieldsPresent(d)
    ensures KeyFieldsPresent(AddRow(d, name))
    ensures KeyFieldsPresent(RemoveRow(d, name, index))
    ensures KeyFieldsPresent(EditRow(d, name, index, field, value))
  {
    EditsKeepFields(ListOf(d, name), KeyField(name), index, field, value, DefaultItem(name));
  }

  // ---------------------------------------------------- save-time filtering

  /** The test `x => x[key].trim() !== ""`. */
  function KeepsKey(key: string): Record -> bool {
    (x: Record) => !IsBlank(Field(x, key))
  }

  /** The rows whose field `key` is not blank: `s.filter(x => x[key].trim() !== "")`. */
  function NonBlank(s: seq<Record>, key: string): (r: seq<Record>)
    ensures |r| <= |s|
    ensures forall j :: 0 <= j < |r| ==> r[j] in s && !IsBlank(Field(r[j], key))
    ensures forall j :: 0 <= j < |s| && !IsBlank(Field(s[j], key)) ==> s[j] in r
  {
    Filter(KeepsKey(key), s)
  }

  /** The kept rows are in their original order, and a second pass keeps them all. */
  lemma NonBlankKeepsOrder(s: seq<Record>, key: string)
    ensures SubsequenceOf(NonBlank(s, key), s)
    ensures NonBlank(NonBlank(s, key), key) == NonBlank(s, key)
  {
    FilterIsSubsequence(KeepsKey(key), s);
    FilterIdempotent(KeepsKey(key), s);
  }

  function ConditionOf(c: Record): string {
    Field(c, "condition")
  }

  predicate Filled(s: string) {
    !IsBlank(s)
  }

  /**
    The condition names a saved patient's card shows: the add-patient form
    filters the rows and then takes the names.
   */
  function ConditionNames(conditions: seq<Record>): (r: seq<string>)
    ensures |r| <= |conditions|
    ensures forall j :: 0 <= j < |r| ==> !IsBlank(r[j])
  {
    Map(ConditionOf, NonBlank(conditions, "condition"))
  }

  /**
    The details modals take the names first and then drop the blank ones;
    both orders give the same list.
   */
  lemma NamesThenFilterAgrees(conditions: seq<Record>)
    ensures Filter(Filled, Map(ConditionOf, conditions)) == ConditionNames(conditions)
  {
    MapThenFilter(ConditionOf, Filled, KeepsKey("condition"), conditions);
  }

  // --------------------------------------------------------- lookup tables

  /** Low < Medium < High; anything else ranks below Low. */
  function RiskRank(level: string): nat {
    if level == "High" then 3 else if level == "Medium" then 2 else if level == "Low" then 1 else 0
  }

  /** `getRiskPercentage`: High 85, Medium 55, Low 25, anything else 0. */
  function RiskPercentage(riskLevel: string): (r: nat)
    ensures r <= 100
    ensures r == 0 <==> RiskRank(riskLevel) == 0
  {
    match riskLevel
    case "High" => 85
    case "Medium" => 55
    case "Low" => 25
    case _ => 0
  }

  /** The percentage ranks the levels as they rank: a higher level shows a higher bar. */
  lemma RiskPercentageOrdersLevels(a: string, b: string)
    ensures RiskRank(a) < RiskRank(b) <==> RiskPercentage(a) < RiskPercentage(b)
    ensures RiskRank(a) == RiskRank(b) <==> RiskPercentage(a) == RiskPercentage(b)
  {
  }

  /** High/Severe, Medium/Moderate, Low/Mild, and everything else. */
  function SeverityClass(severity: string): nat {
    if severity == "High" || severity == "Severe" then 3
    else if severity == "Medium" || severity == "Moderate" then 2
    else if severity == "Low" || severity == "Mild" then 1
    else 0
  }

  /** `getSeverityVariant`: the badge style for a severity or risk label. */
  function SeverityVariant(severity: string): (r: string)
    ensures r in {"destructive", "default", "secondary", "outline"}
    ensures r == "outline" <==> SeverityClass(severity) == 0
  {
    match severity
    case "High" => "destructive"
    case "Severe" => "destructive"
    case "Medium" => "default"
    case "Moderate" => "default"
    case "Low" => "secondary"
    case "Mild" => "secondary"
    case _ => "outline"
  }

  /** Two labels get the same badge exactly when they are synonyms of one class. */
  lemma SeverityVariantClassifies(a: string, b: string)
    ensures SeverityVariant(a) == SeverityVariant(b) <==> SeverityClass(a) == SeverityClass(b)
  {
  }
}
