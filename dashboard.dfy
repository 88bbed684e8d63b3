/**
  The dashboard's two shared state cells, the note repository and the
  patient roster, with the handlers that replace them: a new note goes to
  the front under the id count + 1, a patient update is merged into the
  roster by id and pushed, as a rename, into the notes whose patient key
  is the updated patient's.
 */
module DashboardState {
  import opened Seqs
  import opened Entities

  /**
    The reconciler: every note whose `patientId` is the key of patient
    `id` takes `name` as its `patientName`; no other note and no other
    field changes, and count and order are kept.
   */
  function RenameNotes(notes: seq<MedicalNote>, id: nat, name: string): (r: seq<MedicalNote>)
    ensures |r| == |notes|
    ensures forall i :: 0 <= i < |r| && notes[i].patientId == PatientKey(id) ==>
      r[i] == notes[i].(patientName := name)
    ensures forall i :: 0 <= i < |r| && notes[i].patientId != PatientKey(id) ==> r[i] == notes[i]
  {
    Map((n: MedicalNote) => if n.patientId == PatientKey(id) then n.(patientName := name) else n, notes)
  }

  /** Renaming one patient never touches a note keyed to another patient. */
  lemma RenameLeavesOtherPatients(notes: seq<MedicalNote>, a: nat, b: nat, name: string)
    requires a != b
    ensures forall i :: 0 <= i < |notes| && notes[i].patientId == PatientKey(b) ==>
      RenameNotes(notes, a, name)[i] == notes[i]
  {
    PatientKeyInjective(a, b);
  }

  /** Two renames of the same patient leave the notes as the second alone would. */
  lemma RenameLastWins(notes: seq<MedicalNote>, id: nat, first: string, second: string)
    ensures RenameNotes(RenameNotes(notes, id, first), id, second) == RenameNotes(notes, id, second)
  {
    var once := RenameNotes(notes, id, first);
    var twice := RenameNotes(once, id, second);
    forall i | 0 <= i < |notes| ensures twice[i] == RenameNotes(notes, id, second)[i] {
      assert once[i].patientId == notes[i].patientId;
    }
  }

  /** The two notes the repository starts with (their SOAP text is not reproduced). */
  const SeedNotes: seq<MedicalNote> := [
    MedicalNote(1, "John Smith", "P001234", "2024-01-15", "Dr. Sarah Wilson", "Follow-up Visit",
      "Endocrinology", "Follow-up for diabetes management", Soap("", "", "", ""),
      [NoteMedication("Metformin", "500mg", "Twice daily"), NoteMedication("Lisinopril", "10mg", "Once daily")],
      [NoteAllergy("Penicillin", "Rash, difficulty breathing", "Severe")], None),
    MedicalNote(2, "Sarah Johnson", "P001235", "2024-01-12", "Dr. Michael Chen", "Annual Physical",
      "Internal Medicine", "Annual physical examination", Soap("", "", "", ""),
      [NoteMedication("Loratadine", "10mg", "As needed for allergies")],
      [NoteAllergy("Environmental allergens", "Sneezing, runny nose", "Mild")], None)
  ]

  /** The two patients the dashboard roster starts with. */
  const SeedPatients: seq<Patient> := [
    Patient(1, "John Smith", 45, "Male", "(555) 123-4567", "john.smith@email.com", "2024-01-15",
      "High", ["Diabetes", "Hypertension"], None),
    Patient(2, "Sarah Johnson", 32, "Female", "(555) 234-5678", "sarah.j@email.com", "2024-01-12",
      "Medium", ["Asthma"], None)
  ]

  /**
    The shape `addMedicalNote` keeps: the two seed notes, ids 1 and 2, at
    the end, and in front of them the added notes, newest first, the one
    at index i carrying id count - i.
   */
  ghost predicate NotesNewestFirst(notes: seq<MedicalNote>) {
    && |notes| >= 2
    && notes[|notes| - 2].id == 1 && notes[|notes| - 1].id == 2
    && (forall i :: 0 <= i < |notes| - 2 ==> notes[i].id == |notes| - i)
  }

  /** The shape depends on the ids alone. */
  lemma NewestFirstByIds(a: seq<MedicalNote>, b: seq<MedicalNote>)
    requires NotesNewestFirst(a)
    requires |a| == |b| && forall i :: 0 <= i < |a| ==> a[i].id == b[i].id
    ensures NotesNewestFirst(b)
  {
  }

  /** In that shape every note id is between 1 and the count, and no two notes share one. */
  lemma NewestFirstIdsDistinct(notes: seq<MedicalNote>)
    requires NotesNewestFirst(notes)
    ensures forall i :: 0 <= i < |notes| ==> 1 <= notes[i].id <= |notes|
    ensures forall i, j :: 0 <= i < j < |notes| ==> notes[i].id != notes[j].id
  {
  }

  class Dashboard {
    var medicalNotes: seq<MedicalNote>
    var patients: seq<Patient>

    /**
      Notes are never removed and each new one takes count + 1, so the
      ids stay distinct and the two seed notes stay in the repository.
     */
    ghost predicate Valid()
      reads this
    {
      NotesNewestFirst(medicalNotes)
    }

    constructor ()
      ensures Valid()
      ensures medicalNotes == SeedNotes && patients == SeedPatients
    {
      medicalNotes := SeedNotes;
      patients := SeedPatients;
    }

    /** `totalNotes`: the live note count on top of a fixed historical count. */
    function TotalNotes(): (r: int)
      reads this
      requires Valid()
      ensures r >= 1250
    {
      |medicalNotes| + 1248
    }

    /** `addMedicalNote` */
    method AddMedicalNote(newNote: MedicalNote)
      requires Valid()
      modifies this
      ensures Valid()
      ensures medicalNotes == [newNote.(id := |old(medicalNotes)| + 1)] + old(medicalNotes)
      ensures medicalNotes[0].id > 2
      ensures patients == old(patients)
      ensures TotalNotes() == old(TotalNotes()) + 1
    {
      var noteWithId := newNote.(id := |medicalNotes| + 1);
      medicalNotes := [noteWithId] + medicalNotes;
    }

    /** `handlePatientUpdate`: merge into the roster, then rename the patient's notes. */
    method HandlePatientUpdate(updatedPatient: Patient)
      requires Valid()
      modifies this
      ensures Valid()
      ensures patients == UpdateById(old(patients), updatedPatient)
      ensures medicalNotes == RenameNotes(old(medicalNotes), updatedPatient.id, updatedPatient.name)
      ensures forall i :: 0 <= i < |medicalNotes| ==> medicalNotes[i].id == old(medicalNotes)[i].id
      ensures |medicalNotes| == |old(medicalNotes)|
    {
      patients := UpdateById(patients, updatedPatient);
      var renamed := RenameNotes(medicalNotes, updatedPatient.id, updatedPatient.name);
      assert forall i :: 0 <= i < |renamed| ==> renamed[i].id == medicalNotes[i].id;
      NewestFirstByIds(medicalNotes, renamed);
      medicalNotes := renamed;
    }

    /** `onAddPatient`: the new patient goes to the end of the roster. */
    method AddPatient(newPatient: Patient)
      requires Valid()
      modifies this
      ensures Valid()
      ensures patients == old(patients) + [newPatient]
      ensures medicalNotes == old(medicalNotes)
    {
      patients := patients + [newPatient];
    }
  }
}
