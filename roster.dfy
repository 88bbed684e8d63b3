/**
  The patient-management view: the roster it loads from the patients and
  visits endpoints (or is handed by its parent), the case-insensitive
  search over names and conditions, the risk-level counts, and the
  update and add handlers.
 */
module PatientRoster {
  import opened Text
  import opened Seqs
  import opened Entities

  // ------------------------------------------------------- fetched rows

  /** The `conditions` column: absent or null, already an array, or a JSON text. */
  datatype ConditionsColumn = Missing | List(items: seq<string>) | Encoded(json: string)

  /** A row of the patients endpoint; `None` is an absent or null column. */
  datatype PatientRow = PatientRow(
    patientId: nat,
    fullName: Option<string>,
    age: Option<int>,
    gender: Option<string>,
    phone: Option<string>,
    phoneNumber: Option<string>,
    email: Option<string>,
    riskLevel: Option<string>,
    conditions: ConditionsColumn)

  /** A row of the visits endpoint; `time` is the instant `new Date(date)` denotes. */
  datatype Visit = Visit(patientId: nat, date: string, time: int)

  /** `x || fallback` for a string column: null, absent and "" are falsy. */
  function OrElse(x: Option<string>, fallback: string): (r: string)
    ensures x.Some? && x.value != "" ==> r == x.value
    ensures x.None? || x.value == "" ==> r == fallback
  {
    if x.Some? && x.value != "" then x.value else fallback
  }

  /**
    Where the first element of the visits of patient `id`, once they are
    sorted latest first, sits in `visits`: a visit with the greatest time,
    and among those the earliest (the sort is stable); -1 when the patient
    has no visit.
   */
  function LatestIndex(visits: seq<Visit>, id: nat): (k: int)
    ensures -1 <= k < |visits|
    ensures k == -1 <==> forall i :: 0 <= i < |visits| ==> visits[i].patientId != id
    ensures k >= 0 ==> visits[k].patientId == id
    ensures k >= 0 ==> forall i :: 0 <= i < |visits| && visits[i].patientId == id ==> visits[i].time <= visits[k].time
    ensures k >= 0 ==> forall i :: 0 <= i < k && visits[i].patientId == id ==> visits[i].time < visits[k].time
    decreases |visits|
  {
    if visits == [] then -1
    else
      var rest := LatestIndex(visits[1..], id);
      assert forall i :: 1 <= i < |visits| ==> visits[i] == visits[1..][i - 1];
      if visits[0].patientId == id && (rest == -1 || visits[rest + 1].time <= visits[0].time) then 0
      else if rest == -1 then -1
      else rest + 1
  }

  function LatestVisit(visits: seq<Visit>, id: nat): Option<Visit> {
    var k := LatestIndex(visits, id);
    if k < 0 then None else Some(visits[k])
  }

  /** `patientVisits[0]?.date || "Unknown"` */
  function LastVisit(visits: seq<Visit>, id: nat): (r: string)
    ensures LatestVisit(visits, id).None? ==> r == "Unknown"
    ensures LatestVisit(visits, id).Some? ==> r == OrElse(Some(LatestVisit(visits, id).value.date), "Unknown")
  {
    match LatestVisit(visits, id)
    case None => "Unknown"
    case Some(v) => if v.date != "" then v.date else "Unknown"
  }

  /** The card fields of one row; `None` when `JSON.parse` (the `decode` argument) throws. */
  function MapRow(row: PatientRow, visits: seq<Visit>, decode: string -> Option<seq<string>>): (r: Option<Patient>)
    ensures r.None? <==> row.conditions.Encoded? && row.conditions.json != "" && decode(row.conditions.json).None?
    ensures r.Some? ==> r.value.id == row.patientId && r.value.registration.None?
    ensures r.Some? ==> r.value.lastVisit == LastVisit(visits, row.patientId)
    ensures r.Some? && (row.fullName.None? || row.fullName == Some("")) ==> r.value.name == ""
    ensures r.Some? && row.fullName.Some? ==> r.value.name == row.fullName.value
    ensures r.Some? && (row.age.None? || row.age == Some(0)) ==> r.value.age == 34
    ensures r.Some? && row.age.Some? && row.age.value != 0 ==> r.value.age == row.age.value
    ensures r.Some? && (row.gender.None? || row.gender == Some("")) ==> r.value.gender == "Unknown"
    ensures r.Some? && row.gender.Some? && row.gender.value != "" ==> r.value.gender == row.gender.value
    ensures r.Some? && row.phone.Some? && row.phone.value != "" ==> r.value.phone == row.phone.value
    ensures r.Some? && (row.phone.None? || row.phone == Some("")) && row.phoneNumber.Some? && row.phoneNumber.value != "" ==>
      r.value.phone == row.phoneNumber.value
    ensures r.Some? && (row.phone.None? || row.phone == Some("")) && (row.phoneNumber.None? || row.phoneNumber == Some("")) ==>
      r.value.phone == "+216 93 564 852"
    ensures r.Some? && (row.email.None? || row.email == Some("")) ==> r.value.email == "Not provided"
    ensures r.Some? && row.email.Some? && row.email.value != "" ==> r.value.email == row.email.value
    ensures r.Some? && (row.riskLevel.None? || row.riskLevel == Some("")) ==> r.value.riskLevel == "Low"
    ensures r.Some? && row.riskLevel.Some? && row.riskLevel.value != "" ==> r.value.riskLevel == row.riskLevel.value
    ensures r.Some? && row.conditions.List? ==> r.value.conditions == row.conditions.items
    ensures r.Some? && row.conditions.Encoded? && row.conditions.json != "" ==>
      r.value.conditions == decode(row.conditions.json).value
    ensures r.Some? && (row.conditions.Missing? || row.conditions == Encoded("")) ==> r.value.conditions == []
  {
    var conditions :=
      match row.conditions
      case List(items) => Some(items)
      case Encoded(json) => if json != "" then decode(json) else Some([])
      case Missing => Some([]);
    if conditions.None? then None
    else
      Some(Patient(
        row.patientId,
        OrElse(row.fullName, ""),
        if row.age.Some? && row.age.value != 0 then row.age.value else 34,
        OrElse(row.gender, "Unknown"),
        OrElse(row.phone, OrElse(row.phoneNumber, "+216 93 564 852")),
        OrElse(row.email, "Not provided"),
        LastVisit(visits, row.patientId),
        OrElse(row.riskLevel, "Low"),
        conditions.value,
        None))
  }

  /** `patientsData.map(...)`: one patient per row, in row order, or `None` when a row throws. */
  function MapRows(rows: seq<PatientRow>, visits: seq<Visit>, decode: string -> Option<seq<string>>): (r: Option<seq<Patient>>)
    ensures r.None? <==> exists i :: 0 <= i < |rows| && MapRow(rows[i], visits, decode).None?
    ensures r.Some? ==> |r.value| == |rows|
    ensures r.Some? ==> forall i :: 0 <= i < |rows| ==> Some(r.value[i]) == MapRow(rows[i], visits, decode)
    decreases |rows|
  {
    if rows == [] then Some([])
    else
      var head := MapRow(rows[0], visits, decode);
      var tail := MapRows(rows[1..], visits, decode);
      assert forall i :: 1 <= i < |rows| ==> rows[i] == rows[1..][i - 1];
      if head.None? || tail.None? then None
      else Some([head.value] + tail.value)
  }

  /** Each mapped patient's id is its row's `patient_ID`, in row order. */
  lemma MapRowsKeepsIds(rows: seq<PatientRow>, visits: seq<Visit>, decode: string -> Option<seq<string>>)
    requires MapRows(rows, visits, decode).Some?
    ensures forall i :: 0 <= i < |rows| ==> MapRows(rows, visits, decode).value[i].id == rows[i].patientId
    ensures forall i :: 0 <= i < |rows| ==>
      MapRows(rows, visits, decode).value[i].lastVisit == LastVisit(visits, rows[i].patientId)
  {
    var ps := MapRows(rows, visits, decode).value;
    forall i | 0 <= i < |rows|
      ensures ps[i].id == rows[i].patientId && ps[i].lastVisit == LastVisit(visits, rows[i].patientId)
    {
      assert Some(ps[i]) == MapRow(rows[i], visits, decode);
    }
  }

  /** The two responses, as the client receives them; `visits` is `None` when the body is not an array. */
  datatype FetchReply = FetchReply(patientsOk: bool, visitsOk: bool, rows: seq<PatientRow>, visits: Option<seq<Visit>>)

  /** Why loading failed: a response that is not ok, a visits body that is not an array, an unparsable conditions text. */
  datatype LoadError = FetchFailed | VisitsNotArray | ConditionsUnparsable

  datatype Loaded = Roster(patients: seq<Patient>) | LoadFailed(error: LoadError)

  /** The `try` block of `fetchPatients`. */
  function LoadRoster(reply: FetchReply, decode: string -> Option<seq<string>>): (r: Loaded)
    ensures !reply.patientsOk || !reply.visitsOk ==> r == LoadFailed(FetchFailed)
    ensures reply.patientsOk && reply.visitsOk && reply.visits.None? ==> r == LoadFailed(VisitsNotArray)
    ensures r.Roster? ==> reply.visits.Some? && Some(r.patients) == MapRows(reply.rows, reply.visits.value, decode)
    ensures r.Roster? ==> |r.patients| == |reply.rows|
    ensures reply.patientsOk && reply.visitsOk && reply.visits.Some? ==>
      (r.Roster? <==> MapRows(reply.rows, reply.visits.value, decode).Some?)
    ensures reply.patientsOk && reply.visitsOk && reply.visits.Some? && MapRows(reply.rows, reply.visits.value, decode).None? ==>
      r == LoadFailed(ConditionsUnparsable)
  {
    if !reply.patientsOk || !reply.visitsOk then LoadFailed(FetchFailed)
    else if reply.visits.None? then LoadFailed(VisitsNotArray)
    else
      match MapRows(reply.rows, reply.visits.value, decode)
      case None => LoadFailed(ConditionsUnparsable)
      case Some(ps) => Roster(ps)
  }

  // ------------------------------------------------------------- search

  /** `conditions.some(c => c.toLowerCase().includes(t))` for an already lowercased `t`. */
  function SomeConditionIncludes(conditions: seq<string>, t: string): (r: bool)
    ensures r <==> exists i :: 0 <= i < |conditions| && Includes(ToLowerCase(conditions[i]), t)
    decreases |conditions|
  {
    if conditions == [] then false
    else
      assert forall i :: 1 <= i < |conditions| ==> conditions[i] == conditions[1..][i - 1];
      Includes(ToLowerCase(conditions[0]), t) || SomeConditionIncludes(conditions[1..], t)
  }

  /** A patient matches when the lowercased term occurs in its lowercased name or some lowercased condition. */
  predicate Matches(p: Patient, term: string) {
    Includes(ToLowerCase(p.name), ToLowerCase(term)) || SomeConditionIncludes(p.conditions, ToLowerCase(term))
  }

  function MatchesTerm(term: string): Patient -> bool {
    (p: Patient) => Matches(p, term)
  }

  /** `filteredPatients` */
  function Search(roster: seq<Patient>, term: string): (r: seq<Patient>)
    ensures forall i :: 0 <= i < |r| ==> r[i] in roster && Matches(r[i], term)
    ensures forall i :: 0 <= i < |roster| && Matches(roster[i], term) ==> roster[i] in r
  {
    Filter(MatchesTerm(term), roster)
  }

  /** The search keeps the matching patients in roster order. */
  lemma SearchKeepsOrder(roster: seq<Patient>, term: string)
    ensures SubsequenceOf(Search(roster, term), roster)
  {
    FilterIsSubsequence(MatchesTerm(term), roster);
  }

  /** An empty search term keeps everyone. */
  lemma EmptySearchKeepsAll(roster: seq<Patient>)
    ensures Search(roster, "") == roster
  {
    forall i | 0 <= i < |roster| ensures Matches(roster[i], "") {
      IncludesEmpty(ToLowerCase(roster[i].name));
    }
    FilterKeepsAll(MatchesTerm(""), roster);
  }

  /** Case does not matter: searching for the lowercased term finds the same patients. */
  lemma SearchIgnoresCase(roster: seq<Patient>, term: string)
    ensures Search(roster, ToLowerCase(term)) == Search(roster, term)
  {
    ToLowerCaseIdempotent(term);
    assert forall p :: Matches(p, ToLowerCase(term)) == Matches(p, term);
    FilterAgrees(MatchesTerm(ToLowerCase(term)), MatchesTerm(term), roster);
  }

  // --------------------------------------------------------- risk counts

  function LevelIs(level: string): Patient -> bool {
    (p: Patient) => p.riskLevel == level
  }

  /** `patients.filter(p => p.riskLevel === level).length` */
  function RiskCount(roster: seq<Patient>, level: string): (n: nat)
    ensures n <= |roster|
  {
    |Filter(LevelIs(level), roster)|
  }

  /** A patient has one risk level, so the three counts together never exceed the roster. */
  lemma {:induction false} RiskCountsBounded(roster: seq<Patient>)
    ensures RiskCount(roster, "High") + RiskCount(roster, "Medium") + RiskCount(roster, "Low") <= |roster|
  {
    if roster != [] {
      RiskCountsBounded(roster[1..]);
    }
  }

  /** The seed roster shown when no patients are handed in. */
  const SeedRoster: seq<Patient> := [
    Patient(1, "John Smith", 45, "Male", "(555) 123-4567", "john.smith@email.com", "2024-01-15",
      "High", ["Diabetes", "Hypertension"], None),
    Patient(2, "Sarah Johnson", 32, "Female", "(555) 234-5678", "sarah.j@email.com", "2024-01-12",
      "Medium", ["Asthma"], None),
    Patient(3, "Mike Davis", 58, "Male", "(555) 345-6789", "mike.davis@email.com", "2024-01-10",
      "Low", ["Arthritis"], None),
    Patient(4, "Emily Brown", 67, "Female", "(555) 456-7890", "emily.brown@email.com", "2024-01-08",
      "High", ["Heart Disease", "Diabetes"], None)
  ]

  // ----------------------------------------------------------- the view

  class PatientManagement {
    var patients: seq<Patient>
    var selectedPatient: Option<Patient>
    var searchTerm: string
    var error: Option<LoadError>

    /** The fetching view starts empty, before its first load. */
    constructor Fetching()
      ensures patients == [] && selectedPatient.None? && searchTerm == "" && error.None?
    {
      patients := [];
      selectedPatient := None;
      searchTerm := "";
      error := None;
    }

    /** The seeded view starts from the patients handed in, or from the seed roster. */
    constructor Seeded(initialPatients: Option<seq<Patient>>)
      ensures patients == if initialPatients.Some? then initialPatients.value else SeedRoster
      ensures selectedPatient.None? && searchTerm == "" && error.None?
    {
      patients := if initialPatients.Some? then initialPatients.value else SeedRoster;
      selectedPatient := None;
      searchTerm := "";
      error := None;
    }

    /**
      `fetchPatients`: the mapped roster on success; on failure the error
      is recorded and the patients handed in, if any, are shown instead.
     */
    method FetchPatients(reply: FetchReply, decode: string -> Option<seq<string>>, initialPatients: Option<seq<Patient>>)
      modifies this
      ensures LoadRoster(reply, decode).Roster? ==>
        patients == LoadRoster(reply, decode).patients && error.None?
      ensures LoadRoster(reply, decode).LoadFailed? ==>
        error == Some(LoadRoster(reply, decode).error) &&
        patients == (if initialPatients.Some? then initialPatients.value else old(patients))
      ensures selectedPatient == old(selectedPatient) && searchTerm == old(searchTerm)
    {
      error := None;
      var loaded := LoadRoster(reply, decode);
      match loaded {
        case Roster(ps) =>
          patients := ps;
        case LoadFailed(e) =>
          error := Some(e);
          if initialPatients.Some? {
            patients := initialPatients.value;
          }
      }
    }

    /** The effect that adopts new patients handed in by the parent. */
    method SyncProps(initialPatients: Option<seq<Patient>>)
      modifies this
      ensures patients == if initialPatients.Some? then initialPatients.value else old(patients)
      ensures selectedPatient == old(selectedPatient) && searchTerm == old(searchTerm) && error == old(error)
    {
      if initialPatients.Some? {
        patients := initialPatients.value;
      }
    }

    method SetSearchTerm(term: string)
      modifies this
      ensures searchTerm == term
      ensures patients == old(patients) && selectedPatient == old(selectedPatient) && error == old(error)
    {
      searchTerm := term;
    }

    /** The patients the list shows. */
    function FilteredPatients(): (r: seq<Patient>)
      reads this
      ensures forall i :: 0 <= i < |r| ==> r[i] in patients && Matches(r[i], searchTerm)
      ensures forall i :: 0 <= i < |patients| && Matches(patients[i], searchTerm) ==> patients[i] in r
    {
      Search(patients, searchTerm)
    }

    /** `handleUpdatePatient` */
    method UpdatePatient(updatedPatient: Patient)
      modifies this
      ensures patients == UpdateById(old(patients), updatedPatient)
      ensures old(selectedPatient).Some? && old(selectedPatient).value.id == updatedPatient.id ==>
        selectedPatient == Some(updatedPatient)
      ensures !(old(selectedPatient).Some? && old(selectedPatient).value.id == updatedPatient.id) ==>
        selectedPatient == old(selectedPatient)
      ensures searchTerm == old(searchTerm) && error == old(error)
    {
      patients := UpdateById(patients, updatedPatient);
      if selectedPatient.Some? && selectedPatient.value.id == updatedPatient.id {
        selectedPatient := Some(updatedPatient);
      }
    }

    /** `handleAddPatient` */
    method AddPatient(newPatient: Patient)
      modifies this
      ensures patients == old(patients) + [newPatient]
      ensures selectedPatient == old(selectedPatient) && searchTerm == old(searchTerm) && error == old(error)
    {
      patients := patients + [newPatient];
    }
  }
}
