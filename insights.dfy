/**
  The medical-notes repository view: the key-to-name table it builds from
  the roster, the notes shown under the current patient names, the search
  over them, the details toggle and the "New" badge.
 */
module InsightsReports {
  import opened Text
  import opened Seqs
  import opened Entities
  import opened DashboardState

  // ------------------------------------------------------- name table

  /** The table after `forEach` has visited `patients` in order: a later patient overwrites an earlier key. */
  function NameMap(patients: seq<Patient>): (m: map<string, string>)
    ensures forall i :: 0 <= i < |patients| ==> PatientKey(patients[i].id) in m
    ensures |patients| > 0 ==> m[PatientKey(patients[|patients| - 1].id)] == patients[|patients| - 1].name
    decreases |patients|
  {
    if patients == [] then map[]
    else
      var front := patients[..|patients| - 1];
      var last := patients[|patients| - 1];
      assert forall i :: 0 <= i < |front| ==> front[i] == patients[i];
      NameMap(front)[PatientKey(last.id) := last.name]
  }

  /** The table has a key for no one but the roster's patients. */
  lemma {:induction false} NameMapDomain(patients: seq<Patient>, k: string)
    requires k in NameMap(patients)
    ensures exists i :: 0 <= i < |patients| && PatientKey(patients[i].id) == k
    decreases |patients|
  {
    var front := patients[..|patients| - 1];
    if k != PatientKey(patients[|patients| - 1].id) {
      NameMapDomain(front, k);
      var i :| 0 <= i < |front| && PatientKey(front[i].id) == k;
      assert front[i] == patients[i];
    }
  }

  /** `patientNameMap`: the loop over the roster. */
  method BuildNameMap(patients: seq<Patient>) returns (m: map<string, string>)
    ensures m == NameMap(patients)
  {
    m := map[];
    for i := 0 to |patients|
      invariant m == NameMap(patients[..i])
    {
      assert patients[..i + 1][..i] == patients[..i];
      m := m[PatientKey(patients[i].id) := patients[i].name];
    }
    assert patients[..|patients|] == patients;
  }

  /** A patient's key maps to its name unless a later patient has the same id. */
  lemma {:induction false} NameMapValue(patients: seq<Patient>, i: int)
    requires 0 <= i < |patients|
    requires forall j :: i < j < |patients| ==> patients[j].id != patients[i].id
    ensures NameMap(patients)[PatientKey(patients[i].id)] == patients[i].name
    decreases |patients|
  {
    if i < |patients| - 1 {
      var front := patients[..|patients| - 1];
      assert front[i] == patients[i];
      NameMapValue(front, i);
      PatientKeyInjective(patients[|patients| - 1].id, patients[i].id);
    }
  }

  /** With distinct ids, every patient's key maps to that patient's name. */
  lemma NameMapOfUniqueRoster(patients: seq<Patient>)
    requires UniqueIds(patients)
    ensures forall i :: 0 <= i < |patients| ==> NameMap(patients)[PatientKey(patients[i].id)] == patients[i].name
  {
    forall i | 0 <= i < |patients| ensures NameMap(patients)[PatientKey(patients[i].id)] == patients[i].name {
      NameMapValue(patients, i);
    }
  }

  // ------------------------------------------------------ name resolution

  /** `{ ...note, patientName: nameMap[note.patientId] || note.patientName }` */
  function ResolveName(note: MedicalNote, m: map<string, string>): MedicalNote {
    if note.patientId in m && m[note.patientId] != "" then note.(patientName := m[note.patientId]) else note
  }

  /** Every note shown under the current name of its patient, if the table has a non-empty one. */
  function ResolveNames(notes: seq<MedicalNote>, m: map<string, string>): (r: seq<MedicalNote>)
    ensures |r| == |notes|
    ensures forall i :: 0 <= i < |r| ==> r[i] == notes[i].(patientName := r[i].patientName)
    ensures forall i :: 0 <= i < |r| && notes[i].patientId in m && m[notes[i].patientId] != "" ==>
      r[i].patientName == m[notes[i].patientId]
    ensures forall i :: 0 <= i < |r| && !(notes[i].patientId in m && m[notes[i].patientId] != "") ==>
      r[i] == notes[i]
  {
    Map((n: MedicalNote) => ResolveName(n, m), notes)
  }

  /**
    Once the table holds a non-empty name for a patient, renaming that
    patient's notes beforehand changes nothing that is shown.
   */
  lemma ResolveAbsorbsRename(notes: seq<MedicalNote>, m: map<string, string>, id: nat, name: string)
    requires PatientKey(id) in m && m[PatientKey(id)] != ""
    ensures ResolveNames(RenameNotes(notes, id, name), m) == ResolveNames(notes, m)
  {
    var renamed := RenameNotes(notes, id, name);
    var a := ResolveNames(renamed, m);
    var b := ResolveNames(notes, m);
    forall i | 0 <= i < |notes| ensures a[i] == b[i] {
      if notes[i].patientId == PatientKey(id) {
        assert renamed[i] == notes[i].(patientName := name);
      }
    }
  }

  /**
    After the dashboard applies a patient update with a non-empty name to
    a roster of distinct ids that holds the patient, the repository shows
    that name on every note keyed to the patient, whether or not the
    rename reached the notes.
   */
  lemma DisplayedNamesFollowUpdate(notes: seq<MedicalNote>, roster: seq<Patient>, u: Patient, k: int)
    requires UniqueIds(roster) && 0 <= k < |roster| && roster[k].id == u.id && u.name != ""
    ensures ResolveNames(RenameNotes(notes, u.id, u.name), NameMap(UpdateById(roster, u)))
         == ResolveNames(notes, NameMap(UpdateById(roster, u)))
    ensures forall i :: 0 <= i < |notes| && notes[i].patientId == PatientKey(u.id) ==>
      ResolveNames(notes, NameMap(UpdateById(roster, u)))[i].patientName == u.name
  {
    var updated := UpdateById(roster, u);
    NameMapOfUniqueRoster(updated);
    assert NameMap(updated)[PatientKey(updated[k].id)] == u.name;
    ResolveAbsorbsRename(notes, NameMap(updated), u.id, u.name);
  }

  // ------------------------------------------------------------- search

  /** The term, lowercased, occurs in one of the note's searchable fields (the specialty only when present). */
  predicate NoteMatches(note: MedicalNote, term: string) {
    var t := ToLowerCase(term);
    || Includes(ToLowerCase(note.patientName), t)
    || Includes(ToLowerCase(note.patientId), t)
    || Includes(ToLowerCase(note.provider), t)
    || Includes(ToLowerCase(note.noteType), t)
    || (note.medicalSpecialty != "" && Includes(ToLowerCase(note.medicalSpecialty), t))
  }

  function NoteMatchesTerm(term: string): MedicalNote -> bool {
    (n: MedicalNote) => NoteMatches(n, term)
  }

  /** `filteredNotes`: the resolved notes that match the term. */
  function FilteredNotes(notes: seq<MedicalNote>, patients: seq<Patient>, term: string): (r: seq<MedicalNote>)
    ensures |r| <= |notes|
    ensures forall i :: 0 <= i < |r| ==> r[i] in ResolveNames(notes, NameMap(patients)) && NoteMatches(r[i], term)
    ensures forall i :: 0 <= i < |notes| && NoteMatches(ResolveNames(notes, NameMap(patients))[i], term) ==>
      ResolveNames(notes, NameMap(patients))[i] in r
  {
    Filter(NoteMatchesTerm(term), ResolveNames(notes, NameMap(patients)))
  }

  /** The shown notes keep the repository's order. */
  lemma FilteredNotesKeepOrder(notes: seq<MedicalNote>, patients: seq<Patient>, term: string)
    ensures SubsequenceOf(FilteredNotes(notes, patients, term), ResolveNames(notes, NameMap(patients)))
  {
    FilterIsSubsequence(NoteMatchesTerm(term), ResolveNames(notes, NameMap(patients)));
  }

  /** An empty search shows every note. */
  lemma EmptySearchShowsAll(notes: seq<MedicalNote>, patients: seq<Patient>)
    ensures FilteredNotes(notes, patients, "") == ResolveNames(notes, NameMap(patients))
  {
    var resolved := ResolveNames(notes, NameMap(patients));
    forall i | 0 <= i < |resolved| ensures NoteMatches(resolved[i], "") {
      IncludesEmpty(ToLowerCase(resolved[i].patientName));
    }
    FilterKeepsAll(NoteMatchesTerm(""), resolved);
  }

  // ------------------------------------------------- details and badge

  /** `setSelectedNote(selectedNote === id ? null : id)` */
  function Toggle(selected: Option<int>, id: int): (r: Option<int>)
    ensures r == Some(id) <==> selected != Some(id)
    ensures r.Some? ==> r.value == id
  {
    if selected == Some(id) then None else Some(id)
  }

  /** Pressing the same note's button twice closes its details, unless they were open to begin with. */
  lemma ToggleTwice(selected: Option<int>, id: int)
    ensures Toggle(Toggle(selected, id), id) == if selected == Some(id) then selected else None
  {
  }

  predicate ShowsNewBadge(note: MedicalNote) {
    note.id > 2
  }

  /** In the dashboard's repository exactly the added notes, all but the last two, carry the "New" badge. */
  lemma NewBadgeMarksAddedNotes(notes: seq<MedicalNote>)
    requires NotesNewestFirst(notes)
    ensures forall i :: 0 <= i < |notes| ==> (ShowsNewBadge(notes[i]) <==> i < |notes| - 2)
  {
  }
}
