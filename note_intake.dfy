/**
  The note-analysis form: the checks an uploaded file must pass, the
  field extraction from its text, and the save that turns the form into
  a new note for the repository and clears the form.
 */
module NoteIntake {
  import opened Text
  import opened Seqs
  import opened Entities

  // -------------------------------------------------------- upload checks

  const AllowedTypes: seq<string> := [
    "text/plain",
    "application/pdf",
    "application/msword",
    "application/vnd.openxmlformats-officedocument.wordprocessingml.document"
  ]

  /** 10 MiB. */
  const MaxUploadBytes: nat := 10 * 1024 * 1024

  const UnsupportedType := "Unsupported file type. Please upload TXT, PDF, DOC, or DOCX files."
  const TooLarge := "File size too large. Please upload files smaller than 10MB."
  const ReadFailed := "Failed to read file"

  /** The two checks of `handleFileSelect`, type first: the error message, or `None` when the file passes. */
  function CheckUpload(mimeType: string, size: nat): (err: Option<string>)
    ensures err.None? <==> mimeType in AllowedTypes && size <= MaxUploadBytes
    ensures mimeType !in AllowedTypes ==> err == Some(UnsupportedType)
    ensures mimeType in AllowedTypes && size > MaxUploadBytes ==> err == Some(TooLarge)
  {
    if mimeType !in AllowedTypes then Some(UnsupportedType)
    else if size > MaxUploadBytes then Some(TooLarge)
    else None
  }

  /** The limit is inclusive: a file of exactly 10 MiB passes, one byte more does not. */
  lemma SizeLimitIsInclusive(mimeType: string)
    requires mimeType in AllowedTypes
    ensures CheckUpload(mimeType, 10485760).None?
    ensures CheckUpload(mimeType, 10485761) == Some(TooLarge)
  {
  }

  // ------------------------------------------------------ field extraction

  /** The form fields `parseTextContent` looks for, in the order it tries them. */
  const PatternFields: seq<string> := ["patientName", "doctorName", "date", "chiefComplaint", "medicalSpecialty"]

  /**
    What `parseTextContent` extracts after trying `fields` in order: for
    each field whose pattern matches the text, the trimmed capture.
    `matcher(field, text)` is the first capture group of that field's
    pattern, or `None` when the pattern does not match.
   */
  function ExtractFrom(fields: seq<string>, text: string, matcher: (string, string) -> Option<string>): map<string, string>
    decreases |fields|
  {
    if fields == [] then map[]
    else
      var field := fields[|fields| - 1];
      var m := ExtractFrom(fields[..|fields| - 1], text, matcher);
      if matcher(field, text).Some? then m[field := Trim(matcher(field, text).value)] else m
  }

  /** A field is extracted exactly when it is tried and its pattern matches; its value is the trimmed capture. */
  lemma {:induction false} ExtractFromMatches(fields: seq<string>, text: string, matcher: (string, string) -> Option<string>)
    ensures forall f :: f in ExtractFrom(fields, text, matcher) <==> f in fields && matcher(f, text).Some?
    ensures forall f :: f in ExtractFrom(fields, text, matcher) ==> ExtractFrom(fields, text, matcher)[f] == Trim(matcher(f, text).value)
    decreases |fields|
  {
    if fields != [] {
      var front := fields[..|fields| - 1];
      assert forall f :: f in fields <==> f in front || f == fields[|fields| - 1];
      ExtractFromMatches(front, text, matcher);
    }
  }

  function Extracted(text: string, matcher: (string, string) -> Option<string>): map<string, string> {
    ExtractFrom(PatternFields, text, matcher)
  }

  /** `parseTextContent`: the loop over the patterns. */
  method ParseTextContent(text: string, matcher: (string, string) -> Option<string>) returns (extracted: map<string, string>)
    ensures extracted == Extracted(text, matcher)
  {
    extracted := map[];
    for i := 0 to |PatternFields|
      invariant extracted == ExtractFrom(PatternFields[..i], text, matcher)
    {
      var field := PatternFields[i];
      assert PatternFields[..i + 1][..i] == PatternFields[..i];
      assert PatternFields[..i + 1][i] == field;
      var found := matcher(field, text);
      if found.Some? {
        extracted := extracted[field := Trim(found.value)];
      }
    }
    assert PatternFields[..|PatternFields|] == PatternFields;
  }

  /** No extracted value starts or ends with white space. */
  lemma ExtractedValuesAreTrimmed(s: string)
    ensures Trim(s) == [] || (!IsWhitespace(Trim(s)[0]) && !IsWhitespace(Trim(s)[|Trim(s)| - 1]))
  {
    var t := TrimStart(s);
    if TrimEnd(t) != [] {
      assert TrimEnd(t)[0] == t[0];
    }
  }

  // -------------------------------------------------------------- saving

  /** The form as it starts and as a save leaves it. */
  const BlankForm: map<string, string> := map[
    "medicalSpecialty" := "", "doctorName" := "", "patientName" := "", "patientId" := "",
    "date" := "", "chiefComplaint" := "", "transcription" := ""]

  function FieldOf(form: map<string, string>, key: string): string {
    if key in form then form[key] else ""
  }

  /** `value || fallback` for a text field. */
  function OrDefault(value: string, fallback: string): (r: string)
    ensures value != "" ==> r == value
    ensures value == "" ==> r == fallback
  {
    if value != "" then value else fallback
  }

  /** `` `P${Date.now().toString().slice(-6)}` ``: "P" and the last six digits of the clock. */
  function GeneratedPatientId(now: nat): (id: string)
    ensures |id| >= 2 && id[0] == 'P'
    ensures forall i :: 1 <= i < |id| ==> IsDigit(id[i])
    ensures now >= 100000 ==> |id| == 7
  {
    DecimalLength(now);
    "P" + SliceLast(DecimalString(now), 6)
  }

  /** A number of at least 10^5 has at least six decimal digits. */
  lemma DecimalLength(n: nat)
    ensures n >= 100000 ==> |DecimalString(n)| >= 6
  {
    if n >= 100000 {
      var n1 := n / 10;
      var n2 := n1 / 10;
      var n3 := n2 / 10;
      var n4 := n3 / 10;
      var n5 := n4 / 10;
      assert n5 >= 1;
      assert |DecimalString(n4)| >= 2;
      assert |DecimalString(n3)| >= 3;
      assert |DecimalString(n2)| >= 4;
      assert |DecimalString(n1)| >= 5;
    }
  }

  function Pow10(k: nat): (p: nat)
    ensures p >= 1
  {
    if k == 0 then 1 else 10 * Pow10(k - 1)
  }

  /** A larger factor gives a product larger by at least the other factor. */
  lemma MulStrict(d: nat, a: nat, b: nat)
    ensures a < b ==> d * a + d <= d * b
  {
    if a < b {
      var e := b - a - 1;
      assert d * b == d * a + d * e + d;
      assert d * e >= 0;
    }
  }

  /** Euclidean division is unique. */
  lemma DivModUnique(n: nat, d: nat, q: nat, r: nat)
    requires d > 0 && r < d && n == d * q + r
    ensures n / d == q && n % d == r
  {
    MulStrict(d, q, n / d);
    MulStrict(d, n / d, q);
  }

  /** Dropping the last decimal digit and adding it back commutes with taking a remainder. */
  lemma ModShift(n: nat, p: nat)
    requires p >= 1
    ensures n % (10 * p) == (n / 10) % p * 10 + n % 10
  {
    var q := n / 10;
    var a := q / p;
    var b := q % p;
    assert n == 10 * q + n % 10;
    assert q == p * a + b;
    assert n == (10 * p) * a + (10 * b + n % 10);
    DivModUnique(n, 10 * p, a, 10 * b + n % 10);
  }

  /** Taking the last k characters after appending one is taking the last k - 1 before it. */
  lemma SliceLastSnoc(t: string, c: char, k: nat)
    requires k >= 1
    ensures SliceLast(t + [c], k) == SliceLast(t, k - 1) + [c]
  {
  }

  /** The last k characters of a digit string denote its value modulo 10^k. */
  lemma {:induction false} SuffixValue(s: string, k: nat)
    requires forall i :: 0 <= i < |s| ==> IsDigit(s[i])
    ensures DecimalValue(SliceLast(s, k)) == DecimalValue(s) % Pow10(k)
    decreases |s|
  {
    if k == 0 {
      assert SliceLast(s, 0) == [];
    } else if s == [] {
      DivModUnique(0, Pow10(k), 0, 0);
    } else {
      var t := s[..|s| - 1];
      var c := s[|s| - 1];
      assert s == t + [c];
      SuffixValue(t, k - 1);
      SuffixStep(t, c, k);
    }
  }

  /** The inductive step of `SuffixValue`: one more digit at the end. */
  lemma SuffixStep(t: string, c: char, k: nat)
    requires k >= 1 && IsDigit(c)
    requires DecimalValue(SliceLast(t, k - 1)) == DecimalValue(t) % Pow10(k - 1)
    ensures DecimalValue(SliceLast(t + [c], k)) == DecimalValue(t + [c]) % Pow10(k)
  {
    SliceLastSnoc(t, c, k);
    DecimalValueSnoc(SliceLast(t, k - 1), c);
    DecimalValueSnoc(t, c);
    var n := DecimalValue(t) * 10 + DigitValue(c);
    DivModUnique(n, 10, DecimalValue(t), DigitValue(c));
    var p := Pow10(k - 1);
    assert Pow10(k) == 10 * p;
    ModShift(n, p);
  }

  /** Appending a digit multiplies the value by ten and adds the digit. */
  lemma DecimalValueSnoc(v: string, c: char)
    ensures DecimalValue(v + [c]) == DecimalValue(v) * 10 + DigitValue(c)
  {
    assert (v + [c])[..|v|] == v;
  }

  /** The digits of the generated id are the clock reading modulo 10^6. */
  lemma GeneratedIdDecodes(now: nat)
    ensures DecimalValue(GeneratedPatientId(now)[1..]) == now % 1000000
  {
    SuffixValue(DecimalString(now), 6);
    DecimalRoundTrip(now);
    assert Pow10(6) == 1000000;
    assert GeneratedPatientId(now)[1..] == SliceLast(DecimalString(now), 6);
  }

  /**
    The note `handleSaveNote` hands to the repository, or `None` when the
    transcription is empty. The repository assigns its id, so the id here
    is a placeholder 0.
   */
  function NewNote(form: map<string, string>, now: nat, today: string): (r: Option<MedicalNote>)
    ensures r.None? <==> FieldOf(form, "transcription") == ""
    ensures r.Some? ==> r.value.transcription == Some(FieldOf(form, "transcription"))
  {
    if FieldOf(form, "transcription") == "" then None
    else
      Some(MedicalNote(
        0,
        FieldOf(form, "patientName"),
        OrDefault(FieldOf(form, "patientId"), GeneratedPatientId(now)),
        OrDefault(FieldOf(form, "date"), today),
        OrDefault(FieldOf(form, "doctorName"), "Unknown Provider"),
        "Clinical Note",
        OrDefault(FieldOf(form, "medicalSpecialty"), "General"),
        FieldOf(form, "chiefComplaint"),
        Soap(
          OrDefault(FieldOf(form, "chiefComplaint"), "Patient complaint documented in transcription"),
          "Clinical findings documented in transcription",
          "Assessment documented in transcription",
          "Treatment plan documented in transcription"),
        [],
        [NoteAllergy("No known drug allergies", "None", "None")],
        Some(FieldOf(form, "transcription"))))
  }

  /**
    The saved note always names a provider, a specialty and a patient id
    (the typed one or a generated "P" id), is a clinical note with no
    medications and the no-known-allergies entry, and its subjective
    section is the chief complaint when there is one.
   */
  lemma NewNoteDefaults(form: map<string, string>, now: nat, today: string)
    requires FieldOf(form, "transcription") != ""
    ensures var n := NewNote(form, now, today).value;
      && n.provider != "" && n.medicalSpecialty != "" && n.patientId != ""
      && (n.patientId == FieldOf(form, "patientId") || n.patientId[0] == 'P')
      && (FieldOf(form, "doctorName") == "" ==> n.provider == "Unknown Provider")
      && (FieldOf(form, "medicalSpecialty") == "" ==> n.medicalSpecialty == "General")
      && (FieldOf(form, "date") == "" ==> n.date == today)
      && n.noteType == "Clinical Note" && n.medications == []
      && n.allergies == [NoteAllergy("No known drug allergies", "None", "None")]
      && (FieldOf(form, "chiefComplaint") != "" ==> n.soap.subjective == FieldOf(form, "chiefComplaint"))
  {
  }

  /** The saved note keeps every field the user filled in. */
  lemma NewNoteKeepsFilledFields(form: map<string, string>, now: nat, today: string)
    requires FieldOf(form, "transcription") != ""
    ensures var n := NewNote(form, now, today).value;
      && n.patientName == FieldOf(form, "patientName")
      && n.chiefComplaint == FieldOf(form, "chiefComplaint")
      && (FieldOf(form, "patientId") != "" ==> n.patientId == FieldOf(form, "patientId"))
      && (FieldOf(form, "date") != "" ==> n.date == FieldOf(form, "date"))
      && (FieldOf(form, "doctorName") != "" ==> n.provider == FieldOf(form, "doctorName"))
      && (FieldOf(form, "medicalSpecialty") != "" ==> n.medicalSpecialty == FieldOf(form, "medicalSpecialty"))
  {
  }

  /**
    A successful upload puts the text into the transcription, fills
    every field whose pattern matched with its trimmed capture, and leaves
    every other field as it was.
   */
  lemma UploadFillsForm(form: map<string, string>, text: string, matcher: (string, string) -> Option<string>)
    ensures var after := form["transcription" := text] + Extracted(text, matcher);
      && after.Keys == form.Keys + {"transcription"} + Extracted(text, matcher).Keys
      && after["transcription"] == text
      && (forall f :: f in PatternFields && matcher(f, text).Some? ==> f in after && after[f] == Trim(matcher(f, text).value))
      && (forall f :: f in form && f != "transcription" && f !in Extracted(text, matcher) ==> after[f] == form[f])
  {
    assert "transcription" !in PatternFields;
    ExtractFromMatches(PatternFields, text, matcher);
  }

  // ---------------------------------------------------------- the form

  /** A file as the browser describes it. */
  datatype FileInfo = FileInfo(name: string, mimeType: string, size: nat)

  datatype UploadState = UploadState(
    isUploading: bool,
    uploadProgress: nat,
    uploadedFile: Option<FileInfo>,
    uploadError: Option<string>,
    uploadSuccess: bool)

  const ClearedUpload := UploadState(false, 0, None, None, false)

  class NoteForm {
    var form: map<string, string>
    var upload: UploadState

    constructor ()
      ensures form == BlankForm && upload == ClearedUpload
    {
      form := BlankForm;
      upload := ClearedUpload;
    }

    /** `handleInputChange` */
    method InputChange(field: string, value: string)
      modifies this
      ensures form == old(form)[field := value] && upload == old(upload)
    {
      form := form[field := value];
    }

    /**
      `handleFileSelect`. `content` is the file's text as read or
      extracted, `None` when reading it fails.
     */
    method SelectFile(file: Option<FileInfo>, content: Option<string>, matcher: (string, string) -> Option<string>)
      modifies this
      ensures file.None? ==> form == old(form) && upload == old(upload)
      ensures file.Some? && CheckUpload(file.value.mimeType, file.value.size).Some? ==>
        && form == old(form)
        && upload == UploadState(false, 0, file, CheckUpload(file.value.mimeType, file.value.size), false)
      ensures file.Some? && CheckUpload(file.value.mimeType, file.value.size).None? && content.None? ==>
        form == old(form) && upload == UploadState(false, 100, file, Some(ReadFailed), false)
      ensures file.Some? && CheckUpload(file.value.mimeType, file.value.size).None? && content.Some? ==>
        && upload == UploadState(false, 100, file, None, true)
        && form == old(form)["transcription" := content.value] + Extracted(content.value, matcher)
    {
      if file.None? {
        return;
      }
      upload := UploadState(true, 0, file, None, false);
      var err := CheckUpload(file.value.mimeType, file.value.size);
      if err.Some? {
        upload := upload.(isUploading := false, uploadError := err);
        return;
      }
      var progress := 0;
      while progress <= 100
        invariant progress % 10 == 0 && progress <= 110
        invariant progress > 0 ==> upload.uploadProgress == progress - 10
        invariant form == old(form)
        invariant upload.isUploading && upload.uploadedFile == file && upload.uploadError.None? && !upload.uploadSuccess
        decreases 110 - progress
      {
        upload := upload.(uploadProgress := progress);
        progress := progress + 10;
      }
      if content.None? {
        upload := upload.(isUploading := false, uploadError := Some(ReadFailed));
        return;
      }
      var extracted := ParseTextContent(content.value, matcher);
      form := form["transcription" := content.value] + extracted;
      upload := upload.(isUploading := false, uploadSuccess := true);
    }

    /**
      `handleSaveNote`: with a transcription, the new note is handed over
      and the form and upload state are cleared; without one nothing
      changes.
     */
    method SaveNote(now: nat, today: string) returns (note: Option<MedicalNote>)
      modifies this
      ensures note == NewNote(old(form), now, today)
      ensures note.Some? ==> form == BlankForm && upload == ClearedUpload
      ensures note.None? ==> form == old(form) && upload == old(upload)
    {
      note := NewNote(form, now, today);
      if FieldOf(form, "transcription") != "" {
        form := BlankForm;
        upload := ClearedUpload;
      }
    }
  }
}
