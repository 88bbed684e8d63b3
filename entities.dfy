/**
  The records the dashboard passes between its components: patients of
  the roster, clinical notes of the note repository, and the form items
  of the patient editors; with the id-derived key ("P" followed by the id
  zero-padded to six digits) that links a note to a patient, and the
  merge-by-id update every roster applies.
 */
module Entities {
  import opened Text
  import opened Seqs

  /** A plain object whose values are all strings: one row of an editor list. */
  type Record = map<string, string>

  /** The complete lists the add-patient form keeps next to the card summary. */
  datatype MedicalData = MedicalData(
    conditions: seq<Record>,
    pastHistory: seq<Record>,
    medications: seq<Record>,
    allergies: seq<Record>)

  /** The fields only a patient created by the add-patient form carries. */
  datatype Registration = Registration(
    address: string,
    dateOfBirth: string,
    emergencyContact: string,
    emergencyPhone: string,
    fullMedicalData: MedicalData)

  datatype Patient = Patient(
    id: nat,
    name: string,
    age: int,
    gender: string,
    phone: string,
    email: string,
    lastVisit: string,
    riskLevel: string,
    conditions: seq<string>,
    registration: Option<Registration>)

  datatype Soap = Soap(subjective: string, objective: string, assessment: string, plan: string)

  datatype NoteMedication = NoteMedication(name: string, dosage: string, frequency: string)

  datatype NoteAllergy = NoteAllergy(allergen: string, reaction: string, severity: string)

  datatype MedicalNote = MedicalNote(
    id: int,
    patientName: string,
    patientId: string,
    date: string,
    provider: string,
    noteType: string,
    medicalSpecialty: string,
    chiefComplaint: string,
    soap: Soap,
    medications: seq<NoteMedication>,
    allergies: seq<NoteAllergy>,
    transcription: Option<string>)

  // ------------------------------------------------------- the note key

  /** `` `P${id.toString().padStart(6, "0")}` `` */
  function PatientKey(id: nat): string {
    "P" + PadStart(DecimalString(id), 6, '0')
  }

  /** The key is "P" followed by at least six digits: the id's own digits, zero-padded. */
  lemma PatientKeyShape(id: nat)
    ensures |PatientKey(id)| > 0 && PatientKey(id)[0] == 'P'
    ensures |PatientKey(id)| == 1 + (if |DecimalString(id)| >= 6 then |DecimalString(id)| else 6)
    ensures forall i :: 1 <= i < |PatientKey(id)| ==> IsDigit(PatientKey(id)[i])
  {
    var d := DecimalString(id);
    var p := PadStart(d, 6, '0');
    forall i | 1 <= i < |PatientKey(id)| ensures IsDigit(PatientKey(id)[i]) {
      assert PatientKey(id)[i] == p[i - 1];
      if i - 1 >= |p| - |d| {
        assert p[i - 1] == p[|p| - |d|..][i - 1 - (|p| - |d|)];
      }
    }
  }

  /** Reading the digits after the "P" as a decimal number gives the id back. */
  lemma PatientKeyDecodes(id: nat)
    ensures DecimalValue(PatientKey(id)[1..]) == id
  {
    var d := DecimalString(id);
    var p := PadStart(d, 6, '0');
    assert PatientKey(id)[1..] == p;
    var z := p[..|p| - |d|];
    assert p == z + d;
    LeadingZeros(z, d);
    DecimalRoundTrip(id);
  }

  /** Distinct ids give distinct keys, so the key names one patient id. */
  lemma PatientKeyInjective(a: nat, b: nat)
    ensures PatientKey(a) == PatientKey(b) ==> a == b
  {
    PatientKeyDecodes(a);
    PatientKeyDecodes(b);
  }

  // ------------------------------------------------------ merge by id

  /**
    `{ ...p, ...u }` where `u` is an updated patient: every field `u`
    carries replaces `p`'s. The fields of a registration are present in
    `u` only when `u` has one.
   */
  function Overlay(p: Patient, u: Patient): Patient {
    u.(registration := if u.registration.Some? then u.registration else p.registration)
  }

  /** Laying the same update on twice is laying it on once. */
  lemma OverlayIdempotent(p: Patient, u: Patient)
    ensures Overlay(Overlay(p, u), u) == Overlay(p, u)
  {
  }

  predicate UniqueIds(roster: seq<Patient>) {
    forall i, j :: 0 <= i < j < |roster| ==> roster[i].id != roster[j].id
  }

  /**
    `roster.map(p => p.id === u.id ? { ...p, ...u } : p)`: the patients
    with the update's id get the update laid over them, the others are
    left alone; length, order and every id are kept.
   */
  function UpdateById(roster: seq<Patient>, u: Patient): (r: seq<Patient>)
    ensures |r| == |roster|
    ensures forall i :: 0 <= i < |r| ==> r[i].id == roster[i].id
    ensures forall i :: 0 <= i < |r| && roster[i].id != u.id ==> r[i] == roster[i]
    ensures forall i :: 0 <= i < |r| && roster[i].id == u.id ==>
      r[i] == Overlay(roster[i], u) && r[i].name == u.name && r[i].conditions == u.conditions
    ensures (forall i :: 0 <= i < |roster| ==> roster[i].id != u.id) ==> r == roster
    ensures UniqueIds(roster) ==> UniqueIds(r)
  {
    Map((p: Patient) => if p.id == u.id then Overlay(p, u) else p, roster)
  }

  /** Applying the same update twice leaves the roster as one application did. */
  lemma UpdateByIdIdempotent(roster: seq<Patient>, u: Patient)
    ensures UpdateById(UpdateById(roster, u), u) == UpdateById(roster, u)
  {
    var once := UpdateById(roster, u);
    var twice := UpdateById(once, u);
    forall i | 0 <= i < |roster| ensures twice[i] == once[i] {
      if roster[i].id == u.id {
        OverlayIdempotent(roster[i], u);
      }
    }
  }
}
