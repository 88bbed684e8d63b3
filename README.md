# Medical dashboard data operations in Dafny

This project models the data layer of a React medical dashboard backed by a SQLite file. The dashboard has these parts:

- a **note repository**. Clinical notes are kept newest first. Each new note takes the id count + 1.
- a **patient roster**. It is loaded from the patients and visits endpoints or handed in by the parent view. It is searched by name and condition, counted by risk level, and updated by merging a changed patient into it by id.
- the **reconciliation** between the two. Every note is keyed to a patient by `"P"` followed by the patient id zero-padded to six digits. Renaming a patient renames the notes under that key. The reporting view rebuilds the same key to show current names.
- the **extracted-features endpoint**. It answers with the columns of a patient's feature row whose value is `"yes"`. The details modal turns those columns into labelled conditions.
- the **patient editors**. The add-patient form and two variants of the patient-details modal edit four lists: conditions, past history, medications and allergies. On save they drop blank rows and build the patient that is sent to the roster.
- the **note intake form**. It checks an uploaded file's type and size and extracts form fields from its text. It refuses to save without a transcription, fills defaults into the new note, and clears itself after a save.

Modules:

- `Text` (text.dfy): the JavaScript string operations the views use. These are `toLowerCase` (ASCII letters), `includes`, `trim`, decimal printing, `padStart` and `slice(-n)`.
- `Seqs` (seqs.dfy): `filter`, `map`, remove-at-index and their laws.
- `Entities` (entities.dfy): patients, notes, the note key, and the merge by id.
- `FormLists` (forms.dfy): the shared list-editing helpers, blank-row filtering, and the risk and severity lookup tables.
- `FeatureLabels` (feature_labels.dfy): the feature-column label table.
- `ExtractedFeatures` (features.dfy): the `GET` handler of the features endpoint, with its filter loop.
- `DashboardState` (dashboard.dfy): the dashboard's note and roster state.
- `PatientRoster` (roster.dfy): the patient-management view, in its fetching and its seeded variant.
- `InsightsReports` (insights.dfy): the notes view: name table, name resolution, search, toggle and badge.
- `AddPatientForm` (add_patient.dfy): the add-patient form.
- `PatientDetails` (details_modal.dfy): the patient-details modal, in its fetching and its seeded variant.
- `NoteIntake` (note_intake.dfy): the note-analysis form.

Each stateful view is a class. Its fields are the view's state cells, and its methods are the handlers that replace them. Each handler's `ensures` gives the new state as a function of the old. The pure computations are functions. Their properties are lemmas: round trips, idempotence, order preservation, frame conditions and the both-way characterisations of the filters.

The following calls into code outside the model are parameters:

- `JSON.parse` of a conditions column is `decode`.
- `Number.parseInt` is `parseInt`.
- `Date.now()` is `now`, a natural number.
- today's ISO date is `today`.
- each field's regular-expression match in the note parser is `matcher(field, text)`, giving the first capture group or `None`.
- the text read from an uploaded file is `content`, `None` when reading fails.
- the responses of the fetch calls are explicit reply values.

## Model

| member | source | states |
|---|---|---|
| Text.ToLowerCase | src/components/PatientManagement.jsx:78-79 | Same length; upper-case ASCII letters become their lower-case letter, every other character is kept, and no upper-case letter remains |
| Text.ToLowerCaseIdempotent | src/components/PatientManagement.jsx:78-79 | Lowercasing twice equals lowercasing once |
| Text.Includes | src/components/PatientManagement.jsx:78-79 | `s.includes(t)` holds iff `t` occurs in `s` at some position |
| Text.OccursAtShift | src/components/PatientManagement.jsx:78-79 | An occurrence in the tail of `s` at i is an occurrence in `s` at i + 1 |
| Text.IncludesEmpty | src/components/InsightsReports.jsx:30-37 | The empty string occurs in every string, so an empty search term matches everything |
| Text.TrimStart | src/components/AddPatient.jsx:104 | The result is a suffix of `s`; everything dropped is white space; the result does not start with white space |
| Text.TrimEnd | src/components/AddPatient.jsx:104 | The result is a prefix of `s`; everything dropped is white space; the result does not end with white space |
| Text.BlankIffAllWhitespace | src/components/AddPatient.jsx:104 | `s.trim() === ""` iff every character of `s` is white space |
| Text.DigitChar | src/components/Dashboard.jsx:105 | A digit value is printed as the digit character with that value |
| Text.DecimalString | src/components/Dashboard.jsx:105 | `id.toString()` is non-empty, all digits, and has no leading zero |
| Text.IntString | components/patient-details-modal.jsx:138-150 | The decimal text of an integer starts with `-` iff the integer is negative |
| Text.DecimalRoundTrip | src/components/Dashboard.jsx:105 | Reading the printed digits back gives the number |
| Text.LeadingZeros | src/components/Dashboard.jsx:105 | Zeros padded in front of digits do not change their value |
| Text.PadStart | src/components/Dashboard.jsx:105 | `padStart(width, c)` has length max(width, \|s\|), ends with `s`, and is `c` before it |
| Text.SliceLast | components/note-analysis.jsx:214 | `slice(-n)` is the last min(n, \|s\|) characters of `s` |
| Seqs.Filter | src/components/PatientManagement.jsx:76-80 | The result contains exactly the elements of `s` that satisfy the test, and is no longer than `s` |
| Seqs.FilterIsSubsequence | src/components/PatientManagement.jsx:76-80 | `filter` keeps the kept elements in their original order |
| Seqs.FilterKeepsAll | src/components/InsightsReports.jsx:30-37 | When every element passes, `filter` returns the sequence unchanged |
| Seqs.FilterIdempotent | src/components/AddPatient.jsx:106-111 | Filtering twice with the same test equals filtering once |
| Seqs.FilterAgrees | src/components/PatientManagement.jsx:76-80 | Tests that agree on every element filter identically |
| Seqs.Map | src/components/InsightsReports.jsx:26-29 | `map` keeps the length and applies the function at every index |
| Seqs.MapThenFilter | components/patient-details-modal.jsx:511 | Mapping then filtering equals filtering by the composed test then mapping |
| Seqs.RemoveAt | src/components/AddPatient.jsx:62-67 | `filter((_, i) => i !== index)` drops exactly element i (one fewer element, the same multiset less that one, the rest in order) and is the identity for an index out of range |
| Seqs.RemoveAfterAppend | src/components/AddPatient.jsx:55-67 | Removing the element just appended gives the sequence back |
| Seqs.RemoveAtRestores | src/components/AddPatient.jsx:62-67 | Re-inserting the removed element at its index restores the sequence |
| Entities.PatientKeyShape | src/components/Dashboard.jsx:105 | The note key starts with `P`, has length 1 + max(6, number of digits of id), and is otherwise all digits |
| Entities.PatientKeyDecodes | src/components/InsightsReports.jsx:19 | The digits after `P` read back as the patient id |
| Entities.PatientKeyInjective | components/dashboard.jsx:125 | Different ids give different note keys |
| Entities.OverlayIdempotent | components/dashboard.jsx:120 | Laying the same update `{...p, ...u}` over a patient twice equals laying it once |
| Entities.UpdateById | components/patient-management.jsx:94-97 | Length, order and ids are kept; patients with the update's id become the overlay and take its name and conditions; all others are unchanged; no match leaves the roster unchanged; distinct ids stay distinct |
| Entities.UpdateByIdIdempotent | src/components/PatientManagement.jsx:82-86 | Applying the same update twice equals applying it once |
| ExtractedFeatures.KeysOfConcat | app/api/extracted_features/route.js:142-147 | The keys of a concatenation are the union of the keys |
| ExtractedFeatures.KeysOfCons | app/api/extracted_features/route.js:142-147 | Prepending an entry adds its key |
| ExtractedFeatures.PutKeys | app/api/extracted_features/route.js:145 | `o[k] = v` leaves the object with its old keys plus `k` |
| ExtractedFeatures.PutPlaces | app/api/extracted_features/route.js:145 | An existing key is updated in place (same length), a new key is appended at the end, and no other entry appears |
| ExtractedFeatures.PutDistinct | app/api/extracted_features/route.js:145 | Assignment keeps the object's keys distinct |
| ExtractedFeatures.YesFeaturesValues | app/api/extracted_features/route.js:143-146 | Every value in the answer is exactly `"yes"` and no key is `full_name` |
| ExtractedFeatures.YesFeaturesKeys | app/api/extracted_features/route.js:142-147 | A key is in the answer iff some column of the row has that name, the text value `"yes"`, and is not `full_name` (soundness and completeness) |
| ExtractedFeatures.YesFeaturesDistinct | app/api/extracted_features/route.js:142-147 | The answer's keys are distinct, and the answer is no longer than the row |
| ExtractedFeatures.YesFeaturesKeysFromRow | app/api/extracted_features/route.js:142-147 | The answer's keys are a subset of the row's columns |
| ExtractedFeatures.AsRow | app/api/extracted_features/route.js:142-147 | The answer read back as a row has the same keys, each with its text value |
| ExtractedFeatures.AsRowSnoc | app/api/extracted_features/route.js:142-147 | Reading back distributes over appending one entry |
| ExtractedFeatures.YesFeaturesSnoc | app/api/extracted_features/route.js:142-147 | One more column adds at most that column to the answer, by assignment |
| ExtractedFeatures.FilterFixesAnswer | app/api/extracted_features/route.js:142-147 | Filtering an object of distinct, non-`full_name`, `"yes"` entries returns it unchanged |
| ExtractedFeatures.YesFeaturesIdempotent | app/api/extracted_features/route.js:142-147 | Filtering the answer again returns the answer |
| ExtractedFeatures.Column | app/api/extracted_features/route.js:135 | A column value is found iff the row has a column of that name |
| ExtractedFeatures.FindRow | app/api/extracted_features/route.js:135 | A found row is in the table and its `full_name` is the requested name; when none is found, no row has that name |
| ExtractedFeatures.Get | app/api/extracted_features/route.js:123-155 | A missing or empty name gives 400 "Missing full_name"; a database failure gives 500 "Internal Server Error"; no matching row gives 404 "Patient not found"; otherwise the filter loop's result, which equals YesFeatures of the first matching row |
| FeatureLabels.Label | components/patient-details-modal.jsx:28-121 | The label of a mapped key is its table entry; an unmapped key labels itself; the label is empty only for the empty, unmapped key |
| FormLists.DefaultItem | src/components/AddPatient.jsx:55-60 | Each list's default row has its key field, set to empty |
| FormLists.UpdateAt | src/components/AddPatient.jsx:48-53 | Length kept; every other row unchanged; row `index` gets `field` = value, gains only that key, and keeps every other field |
| FormLists.UpdateAtUndo | src/components/AddPatient.jsx:48-53 | Writing back the previous value undoes a field change |
| FormLists.EditsKeepFields | src/components/AddPatient.jsx:48-67 | Editing a field, appending a row that has the key, and removing a row keep a field every row had |
| FormLists.WithList | src/components/AddPatient.jsx:48-67 | The named list is replaced and the other three are kept |
| FormLists.AddRow | src/components/AddPatient.jsx:55-60 | The named list gets its default row appended; the other lists are unchanged |
| FormLists.RemoveRow | src/components/AddPatient.jsx:62-67 | The named list loses exactly row `index`, the rest in order; the other lists are unchanged |
| FormLists.EditRow | src/components/AddPatient.jsx:48-53 | Only `field` of row `index` of the named list changes; the other lists are unchanged |
| FormLists.RemoveUndoesAdd | components/patient-details-modal.jsx:370-389 | Removing the row just added restores the lists |
| FormLists.RowEditsKeepKeyFields | components/patient-details-modal.jsx:370-463 | Adding, removing and editing rows keep every row's key field present |
| FormLists.NonBlank | src/components/AddPatient.jsx:106-111 | Exactly the rows whose key field is non-blank after trimming are kept, and the result is no longer |
| FormLists.NonBlankKeepsOrder | src/components/AddPatient.jsx:106-111 | The kept rows keep their form order; filtering again changes nothing |
| FormLists.ConditionNames | src/components/AddPatient.jsx:104 | The names are no more than the rows, and none is blank |
| FormLists.NamesThenFilterAgrees | components/patient-details-modal.jsx:511 | The modals' map-then-filter gives the same names as the add-patient form's filter-then-map |
| FormLists.RiskPercentage | src/components/AddPatient.jsx:69-80 | The percentage is at most 100, and it is 0 exactly for a level other than High, Medium or Low |
| FormLists.RiskPercentageOrdersLevels | components/patient-details-modal.jsx:466-477 | One level ranks below another iff its percentage is lower; levels rank equal iff percentages are equal |
| FormLists.SeverityVariant | src/components/InsightsReports.jsx:39-53 | The variant is one of the four badge styles, and it is `outline` exactly for a label outside the three synonym classes |
| FormLists.SeverityVariantClassifies | components/patient-details-modal.jsx:479-493 | Two labels get the same badge iff they are synonyms (High/Severe, Medium/Moderate, Low/Mild, other) |
| DashboardState.RenameNotes | components/dashboard.jsx:124-131 | Count and order kept; notes keyed to the patient take the new name with every other field kept; all other notes unchanged |
| DashboardState.RenameLeavesOtherPatients | src/components/Dashboard.jsx:103-110 | Renaming one patient never changes a note keyed to a different patient |
| DashboardState.RenameLastWins | src/components/Dashboard.jsx:103-110 | Two renames of one patient leave the notes as the second alone would |
| DashboardState.NewestFirstByIds | components/dashboard.jsx:82-87 | The repository's newest-first shape depends only on the note ids |
| DashboardState.NewestFirstIdsDistinct | components/dashboard.jsx:82-87 | In that shape note ids are 1..count and pairwise distinct |
| DashboardState.Dashboard.constructor | components/dashboard.jsx:19-115 | The repository starts with the two seed notes and the roster with the two seed patients |
| DashboardState.Dashboard.TotalNotes | components/dashboard.jsx:135 | The total is the note count plus 1248, so at least 1250 |
| DashboardState.Dashboard.AddMedicalNote | components/dashboard.jsx:82-88 | The note goes to the front with id = previous count + 1, the old notes follow in order, the roster is unchanged, the total grows by one, and ids stay distinct |
| DashboardState.Dashboard.HandlePatientUpdate | src/components/Dashboard.jsx:97-111 | The roster becomes UpdateById of the update and the notes become RenameNotes with the update's id and name; note ids and count are kept, so the total is too |
| DashboardState.Dashboard.AddPatient | components/dashboard.jsx:446 | The new patient is appended to the roster; notes are unchanged |
| PatientRoster.OrElse | components/patient-management.jsx:53-59 | `x \|\| fallback`: a present non-empty value is kept, otherwise the fallback |
| PatientRoster.LatestIndex | components/patient-management.jsx:47-49 | -1 iff the patient has no visit; otherwise a visit of the patient with the greatest time, the first such in visit order (the sort is stable) |
| PatientRoster.LastVisit | components/patient-management.jsx:58 | The date of the latest visit, or "Unknown" when there is none or its date is empty |
| PatientRoster.MapRow | components/patient-management.jsx:51-65 | Fails iff the conditions text is non-empty and does not parse; otherwise id = `patient_ID` and last visit = LastVisit of the patient's visits; each of name, gender, email and risk level is the row's value when present and non-empty, else `""`, `"Unknown"`, `"Not provided"`, `"Low"`; age is the row's value unless missing or 0, then 34; phone is `phone`, else `phone_number`, else `"+216 93 564 852"`; a list of conditions is kept, a non-empty text gives its parse, missing or empty gives `[]` |
| PatientRoster.MapRows | components/patient-management.jsx:46-66 | One patient per row in row order, or failure iff some row fails |
| PatientRoster.MapRowsKeepsIds | components/patient-management.jsx:46-66 | Each mapped patient has its row's id and that id's last visit |
| PatientRoster.LoadRoster | components/patient-management.jsx:29-68 | A response that is not ok, or a visits body that is not an array, is a failure; otherwise it succeeds iff every row maps (MapRows), with one patient per row, and an unparsable conditions text is the failure otherwise |
| PatientRoster.SomeConditionIncludes | components/patient-management.jsx:89 | True iff some lowercased condition contains the term |
| PatientRoster.Search | components/patient-management.jsx:84-92 | Keeps exactly the patients whose lowercased name or some lowercased condition contains the lowercased term |
| PatientRoster.SearchKeepsOrder | src/components/PatientManagement.jsx:76-80 | Search results are a subsequence of the roster |
| PatientRoster.EmptySearchKeepsAll | src/components/PatientManagement.jsx:76-80 | An empty term keeps every patient, in order |
| PatientRoster.SearchIgnoresCase | src/components/PatientManagement.jsx:76-80 | Searching for the lowercased term gives the same result |
| PatientRoster.RiskCount | src/components/PatientManagement.jsx:228 | A risk count never exceeds the roster size |
| PatientRoster.RiskCountsBounded | src/components/PatientManagement.jsx:226-250 | The High, Medium and Low counts sum to at most the roster size |
| PatientRoster.PatientManagement.Fetching | components/patient-management.jsx:14-21 | The fetching view starts with no patients, no selection, an empty term and no error |
| PatientRoster.PatientManagement.Seeded | src/components/PatientManagement.jsx:20-67 | The seeded view starts from the handed-in patients, or else the four seed patients |
| PatientRoster.PatientManagement.FetchPatients | components/patient-management.jsx:23-82 | On success the roster is the mapped rows and the error is cleared; on failure the error is recorded and the handed-in patients replace the roster if given, else it is kept |
| PatientRoster.PatientManagement.SyncProps | src/components/PatientManagement.jsx:70-74 | Handed-in patients replace the roster; nothing else changes |
| PatientRoster.PatientManagement.SetSearchTerm | src/components/PatientManagement.jsx:116 | Only the search term changes |
| PatientRoster.PatientManagement.FilteredPatients | src/components/PatientManagement.jsx:76-80 | The shown patients are exactly the roster's matches for the current term |
| PatientRoster.PatientManagement.UpdatePatient | src/components/PatientManagement.jsx:82-97 | The roster becomes UpdateById; the selection is replaced by the update only when it has the same id |
| PatientRoster.PatientManagement.AddPatient | components/patient-management.jsx:108-113 | The new patient is appended; nothing else changes |
| InsightsReports.NameMap | src/components/InsightsReports.jsx:16-22 | Every patient's key is in the table, and the last patient's key maps to its name |
| InsightsReports.NameMapDomain | src/components/InsightsReports.jsx:16-22 | Every key in the table is some patient's key |
| InsightsReports.BuildNameMap | src/components/InsightsReports.jsx:16-22 | The `forEach` loop builds NameMap of the roster |
| InsightsReports.NameMapValue | src/components/InsightsReports.jsx:16-22 | A patient's key maps to its name unless a later patient has the same id (later patients win) |
| InsightsReports.NameMapOfUniqueRoster | src/components/InsightsReports.jsx:16-22 | With distinct ids every patient's key maps to its own name |
| InsightsReports.ResolveNames | src/components/InsightsReports.jsx:25-29 | Count and order kept; only `patientName` changes; it becomes the table's non-empty name for the note's key, else stays |
| InsightsReports.ResolveAbsorbsRename | src/components/InsightsReports.jsx:25-29 | When the table names a patient, renaming that patient's notes beforehand changes nothing shown |
| InsightsReports.DisplayedNamesFollowUpdate | src/components/InsightsReports.jsx:16-29 | After an update with a non-empty name to a unique-id roster holding that patient, every note keyed to the patient shows the new name, whether or not the dashboard's rename was applied |
| InsightsReports.FilteredNotes | src/components/InsightsReports.jsx:25-37 | Exactly the resolved notes whose lowercased name, key, provider, note type or non-empty specialty contains the lowercased term |
| InsightsReports.FilteredNotesKeepOrder | src/components/InsightsReports.jsx:30-37 | The shown notes are a subsequence of the resolved notes |
| InsightsReports.EmptySearchShowsAll | src/components/InsightsReports.jsx:30-37 | An empty term shows every resolved note |
| InsightsReports.Toggle | src/components/InsightsReports.jsx:130 | The note becomes selected iff it was not selected; otherwise the selection clears |
| InsightsReports.ToggleTwice | src/components/InsightsReports.jsx:130 | Toggling the same note twice restores the selection when it was that note, and otherwise leaves none |
| InsightsReports.NewBadgeMarksAddedNotes | src/components/InsightsReports.jsx:101 | In the dashboard's repository the "New" badge (id > 2) marks exactly the added notes, all but the two seed notes |
| AddPatientForm.ParsedAge | src/components/AddPatient.jsx:93 | The parsed age, or 0 when the text does not parse |
| AddPatientForm.SavedLists | src/components/AddPatient.jsx:106-111 | Each list keeps only its rows with a non-blank key field |
| AddPatientForm.NewPatient | src/components/AddPatient.jsx:82-116 | Refused iff name or phone is empty; otherwise id = `now`, last visit = today, the typed name, phone, gender, email and risk level, age = the parsed age or 0, conditions = the non-blank condition names, and registration = the typed address, birth date and emergency contact with the saved lists |
| AddPatientForm.CardMatchesRegistration | src/components/AddPatient.jsx:104-107 | The card's condition names are exactly the names of the saved condition rows, in order |
| AddPatientForm.SavedListsKeepOrder | src/components/AddPatient.jsx:106-111 | Saved lists are subsequences of the form's lists, and saving again changes nothing |
| AddPatientForm.AddPatient.constructor | src/components/AddPatient.jsx:13-39 | The form starts with blank text fields, risk level "Low", and one default row per list |
| AddPatientForm.AddPatient.InputChange | src/components/AddPatient.jsx:41-46 | Only the named text field changes |
| AddPatientForm.AddPatient.ArrayItemChange | src/components/AddPatient.jsx:48-53 | The lists become EditRow; the text fields are unchanged; every list stays non-empty |
| AddPatientForm.AddPatient.AddArrayItem | src/components/AddPatient.jsx:55-60 | The lists become AddRow; the text fields are unchanged |
| AddPatientForm.AddPatient.RemoveArrayItem | src/components/AddPatient.jsx:62-67 | With more than one row the lists become RemoveRow; at one row nothing changes, so no list becomes empty |
| AddPatientForm.AddPatient.Save | src/components/AddPatient.jsx:82-116 | The saved patient is NewPatient of the current form, or none when refused |
| PatientDetails.PatientFields | src/components/PatientDetailsModal.jsx:347-361 | The editable fields are exactly name, age, gender, phone, email and risk level, taken from the patient |
| PatientDetails.FeatureCondition | components/patient-details-modal.jsx:213-218 | A feature becomes a condition with its label, status "Active", severity "Medium", diagnosed today |
| PatientDetails.FeatureConditions | components/patient-details-modal.jsx:213-218 | One condition per feature, in the features' order |
| PatientDetails.UnlabelledFeatureKeepsKey | components/patient-details-modal.jsx:214 | A feature with no label is listed under its raw key |
| PatientDetails.FeatureConditionsSurviveSave | components/patient-details-modal.jsx:213-218 | When no label is blank, the saved condition names are the features' labels, in order |
| PatientDetails.FallbackConditions | components/patient-details-modal.jsx:302-320 | On failure the conditions are the single row "No conditions found", active, severity "Low", dated today |
| PatientDetails.EditedAge | src/components/PatientDetailsModal.jsx:322 | The parsed edited age when it parses to a non-zero number, else the previous age |
| PatientDetails.UpdatedPatient | src/components/PatientDetailsModal.jsx:317-330 | The update keeps the patient's id and last visit, takes the edited name, gender, phone, email and risk level, takes the edited age when it parses to a non-zero number and keeps the old age otherwise, and sets the conditions to the non-blank names |
| PatientDetails.SaveUneditedKeepsCard | components/patient-details-modal.jsx:500-513 | Saving without edits reproduces the patient's card, apart from its condition names |
| PatientDetails.DetailsModal.PropsChange | src/components/PatientManagement.jsx:89-91 | The parent passes a new patient; the fields, the edited and committed lists and the editing flag keep their values; every row keeps its key field |
| PatientDetails.DetailsModal.Fetching | components/patient-details-modal.jsx:133-189 | The fetching modal starts with the patient's fields, empty edited lists, and only the static medications committed |
| PatientDetails.DetailsModal.Seeded | src/components/PatientDetailsModal.jsx:29-192 | The seeded modal starts with the patient's fields and the built-in lists, edited and committed alike |
| PatientDetails.DetailsModal.LoadFeatures | components/patient-details-modal.jsx:192-330 | Nothing happens without a name; on success both the committed and the edited lists become the feature conditions, default history, static medications and default allergies; on failure both condition lists become the fallback |
| PatientDetails.DetailsModal.LoadPastHistory | components/patient-details-modal.jsx:332-367 | The committed history becomes one row carrying the returned text, or is emptied on failure |
| PatientDetails.DetailsModal.Edit | components/patient-details-modal.jsx:495-497 | Editing starts; nothing else changes |
| PatientDetails.DetailsModal.InputChange | src/components/PatientDetailsModal.jsx:363-368 | Only the named field changes |
| PatientDetails.DetailsModal.AddItem | src/components/PatientDetailsModal.jsx:194-199 | The edited lists become AddRow; every row keeps its key field; nothing else changes |
| PatientDetails.DetailsModal.RemoveItem | src/components/PatientDetailsModal.jsx:201-206 | The edited lists become RemoveRow; every row keeps its key field; nothing else changes |
| PatientDetails.DetailsModal.UpdateItem | src/components/PatientDetailsModal.jsx:208-213 | The edited lists become EditRow; every row keeps its key field; nothing else changes |
| PatientDetails.DetailsModal.Save | src/components/PatientDetailsModal.jsx:317-344 | Returns UpdatedPatient of the current patient prop; the committed conditions, history and allergies become the edited ones and keep their key fields; editing ends |
| PatientDetails.DetailsModal.Cancel | src/components/PatientDetailsModal.jsx:347-361 | The fields are reset to the current patient prop's and the edited lists to the committed ones; editing ends |
| NoteIntake.CheckUpload | components/note-analysis.jsx:58-72 | Passes iff the type is one of the four allowed MIME types and the size is at most 10 MiB; the type is checked first, with its message |
| NoteIntake.SizeLimitIsInclusive | components/note-analysis.jsx:70-72 | A file of exactly 10 MiB passes; one byte more is too large |
| NoteIntake.ExtractFromMatches | components/note-analysis.jsx:185-190 | A field is extracted iff it is tried and its pattern matches; its value is the trimmed capture |
| NoteIntake.ParseTextContent | components/note-analysis.jsx:173-193 | The loop over the patterns yields exactly the extraction of the five fields |
| NoteIntake.ExtractedValuesAreTrimmed | components/note-analysis.jsx:188 | An extracted value neither starts nor ends with white space |
| NoteIntake.OrDefault | components/note-analysis.jsx:214-218 | `value \|\| fallback`: a non-empty value is kept, otherwise the fallback |
| NoteIntake.GeneratedPatientId | components/note-analysis.jsx:214 | A generated id is `P` and digits, 7 characters once the clock has six digits |
| NoteIntake.Pow10 | components/note-analysis.jsx:214 | A power of ten is positive |
| NoteIntake.SuffixValue | components/note-analysis.jsx:214 | The last k digits of a digit string denote its value modulo 10^k |
| NoteIntake.GeneratedIdDecodes | components/note-analysis.jsx:214 | The digits of a generated id denote the clock reading modulo 10^6 |
| NoteIntake.NewNote | components/note-analysis.jsx:205-230 | Refused iff the transcription is empty; otherwise the note carries the transcription |
| NoteIntake.NewNoteDefaults | components/note-analysis.jsx:212-229 | Empty fields default: provider "Unknown Provider", specialty "General", date today, a generated `P` id; always a clinical note with no medications and the no-known-allergies entry; the subjective section is the chief complaint when given |
| NoteIntake.NewNoteKeepsFilledFields | components/note-analysis.jsx:212-229 | Every field the user filled in is kept in the note |
| NoteIntake.UploadFillsForm | components/note-analysis.jsx:101-105 | After an upload the transcription is the text, matched fields hold their trimmed captures, and other fields are unchanged |
| NoteIntake.NoteForm.constructor | components/note-analysis.jsx:12-28 | The form starts blank with a cleared upload state |
| NoteIntake.NoteForm.InputChange | components/note-analysis.jsx:32-37 | Only the named field changes |
| NoteIntake.NoteForm.SelectFile | components/note-analysis.jsx:43-122 | No file changes nothing; a failed check records its message with progress 0; a failed read records "Failed to read file" after full progress; a success marks the upload done and merges the transcription and extracted fields into the form |
| NoteIntake.NoteForm.SaveNote | components/note-analysis.jsx:205-246 | Returns NewNote of the form; on success the form and upload state are cleared, otherwise nothing changes |

## Left out

- Fetch plumbing, `Promise.all`, loading flags, `setTimeout` delays, `FileReader`, `alert` and `console` output, and JSX rendering are not modelled. Fetch results are explicit reply values.
- `JSON.parse`, `Number.parseInt`, `new Date(...)`, `Date.now()`, today's date and the regular-expression engine are parameters, as listed above. The patterns' own syntax is not modelled.
- The simulated PDF and Word extraction texts are not reproduced. Their output is the `content` parameter of `NoteIntake.NoteForm.SelectFile`.
- NoteIntake.NoteForm.SelectFile does not model the 100 ms pause between progress steps. It keeps only the progress values the loop passes through.
- NoteIntake.NewNote gives the note the placeholder id 0. The repository's `addMedicalNote` assigns the real id.
- Text.ToLowerCase lowercases ASCII letters only. Unicode case mapping is not modelled.
- The seed notes' SOAP texts and transcriptions are empty in the model. Their other fields are reproduced.
- The analytics constants, percentage displays and bar widths of the dashboard are not modelled: floating-point `toFixed` and divisions.
- The dashboard's key-figures fetch is not modelled, and neither are the patients, visits, user-visits and key-figures SQL endpoints: each one passes a single SQL string to the database library. The raw data viewer is not modelled either, since it only fetches and prints.
- The hook call nested inside the fetching modal's async loader (components/patient-details-modal.jsx:233-256) is treated as absent. Under React's rules a hook called there throws, which would always send the loader to its fallback branch. The model follows the evident intent instead.
- The fetching modal's references to an undefined name table (components/patient-details-modal.jsx:381) and to undefined `data` (components/patient-details-modal.jsx:912) are not modelled. The truncated markup at the end of src/components/Dashboard.jsx is not modelled either.
- The commented-out first version of the features route is not modelled.
- PatientRoster.Search does not model null patients, names or conditions, which the fetching view guards with `?.`. The model's patients always have a name and a condition list.
- Dates are compared through the `time` value of a visit. Parsing date strings is not modelled.
- AddPatientForm.AddPatient.RemoveArrayItem models the disabled remove button at one row (src/components/AddPatient.jsx:348, 442, 524, 605) as a no-op, since the handler cannot be reached then.
- The `onUpdatePatient` and `onAddPatient` callbacks from the patient-management view to the dashboard are separate calls in the model. `PatientRoster.PatientManagement.UpdatePatient` is followed by `DashboardState.Dashboard.HandlePatientUpdate`.
- PatientRoster.LoadRoster takes the patients body as a sequence of rows. A patients body that is not an array (where `patientsData.map` throws) and a conditions text that parses to something other than an array of strings are not modelled. `decode` answers only "a list of strings" or "no parse".
- DashboardState.Dashboard.AddMedicalNote reads the current note count. The repository's handler reads the count captured when the view last rendered, so two notes added before a re-render would get the same id. This stale read is not modelled.
- PatientDetails.DetailsModal.PropsChange changes only the prop. In the fetching modal, a change of the patient's name also re-runs the features request. That request is a following `PatientDetails.DetailsModal.LoadFeatures` call and is not triggered by the method itself.
