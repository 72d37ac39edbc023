# Clinic front desk: patient queue model

A Dafny model of the patient-queue core of a clinic front-desk application. The
receptionist registers patients through a form and assigns each one to a doctor. Each
doctor's panel shows a searchable queue of that doctor's pending patients, sorted by
priority. From the panel the doctor picks a patient and an action:
- a video call;
- a hospital referral;
- a medicine prescription, where the doctor ticks medicines and prints the prescription.

Marking the patient as done then removes the record.

The model follows the application's own structure:

| module | file | models |
|---|---|---|
| `Wrappers` | wrappers.dfy | `Option` |
| `Seqs` | seqs.dfy | `Array.prototype.filter` / `find` and their facts |
| `Js` | js.dfy | JavaScript value semantics the code relies on: number truthiness, `trim`, `toLowerCase`, `includes`, `parseInt`, `Number(string)`, `String(int)` |
| `PatientSlice` | patient_slice.dfy | the patient store (`class PatientState`) with its five reducers and two selectors |
| `DoctorSlice`, `MedicineSlice` | doctor_slice.dfy, medicine_slice.dfy | the two catalogs: seed lists, append, lookup by id |
| `PatientQueue` | patient_queue.dfy | the doctor panel's `allPatients` selector and `filteredAndSortedPatients` |
| `DoctorPanel` | doctor_panel.dfy | the panel's state (`class Panel`), its handlers and the "Mark as Done" guard |
| `RegistrationForm` | registration_form.dfy | form validation, field changes and submission (`class Form`) |
| `Navigation` | navigation.dfy | the view switch (`class Navigation`) and the per-doctor patient count |

The store reducers and the component handlers change state in place, so they are
modelled as methods of classes whose fields are the state. Each method's `ensures` ties
the new state to a function of the old one. The selectors, the queue derivation and the
validation are pure, so they are modelled as functions, with their properties proved as
lemmas.

JavaScript semantics are written out where they matter:
- `0` and NaN are falsy. A `parseInt` result is an `Option<int>`, with `None` for NaN.
- `parseInt` takes the longest digit prefix and honours a `0x` prefix.
- `Number(string)` follows ECMAScript's StringToNumber:
  - surrounding white space is trimmed;
  - a blank string is 0;
  - `0x`/`0o`/`0b` literals are read;
  - `Infinity` is accepted;
  - decimal fractions and exponents are read.
- Integers are unbounded and decimal values are exact reals.
- `Array.prototype.sort`, which is stable since ECMAScript 2019, is modelled as a stable
  insertion sort.

Where the design description of the system and the code disagree, the model follows the
code:
- **Search term:** the queue search uses the untrimmed term. The design says the term is
  trimmed.
- **Doctor field:** registration only checks that a doctor was picked, not that the doctor
  exists.
- **Printing:** `markPrescriptionPrinted` flags the record whether or not medicines were
  selected. The design has it reject an empty selection.
- **Patient ids:** ids come from the clock and are not checked for uniqueness. The design
  promises unique ids.

## Model

| member | source | states |
|---|---|---|
| `Seqs.Find` | src/store/slices/patientSlice.js:25 | the index `find` stops at: the first element satisfying the predicate, or none when no element does |
| `Seqs.Filter` | src/store/slices/patientSlice.js:49 | `filter` keeps only elements of the input that satisfy the predicate, and never grows the list |
| `Js.BlankIffTrimEmpty` | src/components/PatientRegistrationForm.js:23 | `s.trim()` is empty exactly when `s` is empty or all white space |
| `Js.TrimStartSpec` | src/components/DoctorPanel.js:100 | trimming the start drops a white-space prefix and stops at the first other character |
| `Js.TrimEndSpec` | src/components/DoctorPanel.js:100 | trimming the end drops a white-space suffix and stops at the last other character |
| `Js.ParseInt` | src/components/PatientRegistrationForm.js:77-78 | the global `parseInt` without a radix; an empty or all-white-space string gives NaN |
| `Js.ToNumber` | src/components/PatientRegistrationForm.js:29 | ECMAScript StringToNumber; an empty or all-white-space string gives 0 |
| `Js.ParseIntRoundTrip` | src/components/PatientRegistrationForm.js:77-78 | `parseInt(String(n))` is `n` for every integer |
| `Js.ToNumberRoundTrip` | src/components/PatientRegistrationForm.js:29 | `Number(String(n))` is `n` for every integer |
| `PatientSlice.NewPatient` | src/store/slices/patientSlice.js:12-19 | the new record copies the payload's name, age, details, priority and doctor, and has the reducer's own id, `pending` status, empty medicine list, unprinted flag and time |
| `PatientSlice.NewPatientOverridesPayloadTime` | src/store/slices/patientSlice.js:12-19 | a registration time in the payload never reaches the record |
| `PatientSlice.WithStatus` | src/store/slices/patientSlice.js:23-29 | only the first record with the id changes, and only in its status; the length is kept; an absent id changes nothing |
| `PatientSlice.WithMedicines` | src/store/slices/patientSlice.js:31-37 | only the first record with the id changes, and only in its medicine list |
| `PatientSlice.WithPrinted` | src/store/slices/patientSlice.js:39-45 | only the first record with the id changes, and only by being flagged printed |
| `PatientSlice.WithoutPatient` | src/store/slices/patientSlice.js:49 | the new list never grows, keeps exactly the records with another id, and adds nothing |
| `PatientSlice.SelectPatientsByDoctor` | src/store/slices/patientSlice.js:65-70 | exactly the pending records of the doctor are kept, and nothing is added |
| `PatientSlice.PatientState.constructor` | src/store/slices/patientSlice.js:3-5 | the store starts empty |
| `PatientSlice.PatientState.AddPatient` | src/store/slices/patientSlice.js:11-21 | the new list is the old one plus the new record at the end |
| `PatientSlice.PatientState.UpdatePatientStatus` | src/store/slices/patientSlice.js:23-29 | the new list is the old one with the first matching record's status replaced |
| `PatientSlice.PatientState.SelectMedicines` | src/store/slices/patientSlice.js:31-37 | the new list is the old one with the first matching record's medicines replaced |
| `PatientSlice.PatientState.MarkPrescriptionPrinted` | src/store/slices/patientSlice.js:39-45 | the new list is the old one with the first matching record flagged printed |
| `PatientSlice.PatientState.RemovePatient` | src/store/slices/patientSlice.js:47-50 | the new list is the old one without the records carrying the id |
| `PatientSlice.AddPatientAppends` | src/store/slices/patientSlice.js:11-21 | adding grows the list by one pending, unprinted record with no medicines at the end and keeps every earlier record |
| `PatientSlice.UpdatesKeepLookups` | src/store/slices/patientSlice.js:23-45 | the three field updates keep every id in place, so every later lookup by id finds the same position |
| `PatientSlice.MarkPrintedIdempotent` | src/store/slices/patientSlice.js:39-45 | marking printed twice is marking printed once |
| `PatientSlice.MarkPrintedIgnoresMedicines` | src/store/slices/patientSlice.js:39-45 | a record with an empty medicine list is still flagged printed |
| `PatientSlice.UpdatesOfAbsentId` | src/store/slices/patientSlice.js:23-45 | an id no record carries makes each field update a no-op |
| `PatientSlice.RemoveSpec` | src/store/slices/patientSlice.js:47-50 | a record survives removal iff it was present and has another id; its multiplicity is kept; the survivors keep their order |
| `PatientSlice.RemoveIdempotent` | src/store/slices/patientSlice.js:47-50 | removing twice is removing once |
| `PatientSlice.RemoveAbsent` | src/store/slices/patientSlice.js:47-50 | removing an absent id leaves the list unchanged |
| `PatientSlice.SelectByDoctorSpec` | src/store/slices/patientSlice.js:65-70 | a record is selected iff it is in the store, pending and for the doctor; its multiplicity is kept; store order is kept |
| `DoctorSlice.SelectDoctorById` | src/store/slices/doctorSlice.js:28-31 | a doctor is found iff one carries the id, and it is the first one that does |
| `DoctorSlice.DoctorState.constructor` | src/store/slices/doctorSlice.js:3-11 | the catalog starts as the five seeded doctors |
| `DoctorSlice.DoctorState.AddDoctor` | src/store/slices/doctorSlice.js:18-20 | the payload is appended unchecked |
| `DoctorSlice.InitialDoctorIds` | src/store/slices/doctorSlice.js:4-10 | the seed has five doctors with ids 1 to 5, all distinct |
| `DoctorSlice.AddDoctorLookup` | src/store/slices/doctorSlice.js:18-31 | after an append, every earlier lookup is unchanged; the new doctor is found only under an id not used before |
| `MedicineSlice.SelectMedicineById` | src/store/slices/medicineSlice.js:31-34 | a medicine is found iff one carries the id, and it is the first one that does |
| `MedicineSlice.MedicineState.constructor` | src/store/slices/medicineSlice.js:3-14 | the catalog starts as the eight seeded medicines |
| `MedicineSlice.MedicineState.AddMedicine` | src/store/slices/medicineSlice.js:21-23 | the payload is appended unchecked |
| `MedicineSlice.InitialMedicineIds` | src/store/slices/medicineSlice.js:4-13 | the seed has eight medicines with ids 1 to 8, all distinct |
| `MedicineSlice.AddMedicineLookup` | src/store/slices/medicineSlice.js:21-34 | after an append, every earlier lookup is unchanged; the new medicine is found only under an id not used before |
| `PatientQueue.Rank` | src/components/DoctorPanel.js:109-112 | ranks lie in 1 to 3; rank 3 is exactly High and rank 1 exactly Low; anything else is 2 |
| `PatientQueue.SortByPriority` | src/components/DoctorPanel.js:108-114 | the sort is a permutation of its input, and ranks never increase along the output |
| `PatientQueue.SortStable` | src/components/DoctorPanel.js:110-114 | records of one rank keep their relative order through the sort |
| `PatientQueue.AllPatients` | src/components/DoctorPanel.js:28-64 | no records without a truthy doctor id; otherwise exactly the store's records pending for that doctor, none added |
| `PatientQueue.Searched` | src/components/DoctorPanel.js:94-106 | the named records of the input that match an active search; nothing is added |
| `PatientQueue.FilteredAndSortedPatients` | src/components/DoctorPanel.js:83-121 | empty without a truthy doctor id; otherwise a rank-sorted part of its input, holding only named records that match an active search |
| `PatientQueue.Queue` | src/components/DoctorPanel.js:28-121 | empty without a truthy doctor id; otherwise rank-sorted, a part of the store, and holding only records queued for the doctor |
| `PatientQueue.QueueIsSortedCandidates` | src/components/DoctorPanel.js:28-121 | for a truthy doctor, the queue is the stable sort of the store's pending, named and matching records in store order |
| `PatientQueue.QueueMembers` | src/components/DoctorPanel.js:50-106 | a record is queued iff it is in the store, pending for the doctor, named and matching an active search; each is queued as often as it is stored |
| `PatientQueue.QueueOrder` | src/components/DoctorPanel.js:108-114 | records of one rank appear in the queue in store order |
| `PatientQueue.BlankSearchKeepsEveryone` | src/components/DoctorPanel.js:100 | an empty or white-space search term gives the same queue as no search |
| `PatientQueue.UntrimmedSearchTerm` | src/components/DoctorPanel.js:100-105 | the term is lowercased but not trimmed: "ali" finds "Alice", but "ali " does not |
| `PatientQueue.RemovedPatientLeavesQueue` | src/store/slices/patientSlice.js:47-50 | after removal, no record with that id is in any queue |
| `DoctorPanel.Toggle` | src/components/DoctorPanel.js:221-223 | the toggled medicine's checkbox flips and every other checkbox keeps its state |
| `DoctorPanel.ToggleCount` | src/components/DoctorPanel.js:221-223 | toggling drops every copy of a present id or appends an absent one, and keeps every other id's multiplicity |
| `DoctorPanel.ToggleAtMostOnce` | src/components/DoctorPanel.js:221-223 | a selection holding each id at most once keeps that property |
| `DoctorPanel.ToggleUndo` | src/components/DoctorPanel.js:221-223 | ticking then unticking a medicine restores the selection exactly |
| `DoctorPanel.ToggleRedo` | src/components/DoctorPanel.js:221-223 | unticking then re-ticking a medicine restores the selection up to order |
| `DoctorPanel.SeededSelection` | src/components/DoctorPanel.js:168-169 | a new selection is the record's medicine list, or empty when it has none |
| `DoctorPanel.PrescriptionNames` | src/components/DoctorPanel.js:240-242 | no more names than catalog entries |
| `DoctorPanel.PrescriptionNamesSound` | src/components/DoctorPanel.js:240-242 | each printed name is the label of a catalog medicine whose id is selected |
| `DoctorPanel.PrescriptionNamesCount` | src/components/DoctorPanel.js:240-242 | exactly one name per catalog entry whose id is selected |
| `DoctorPanel.PrescriptionNamesComplete` | src/components/DoctorPanel.js:240-242 | every catalog medicine whose id is selected has its label printed |
| `DoctorPanel.PrescriptionNamesConcat` | src/components/DoctorPanel.js:240-242 | names follow catalog order: the names for a catalog split in two are those of the first part, then those of the second |
| `DoctorPanel.PrescriptionNamesBySet` | src/components/DoctorPanel.js:240-242 | the printed names depend only on which ids are selected |
| `DoctorPanel.PrescriptionIgnoresUnknownIds` | src/components/DoctorPanel.js:240-242 | a selected id that no catalog medicine carries prints nothing |
| `DoctorPanel.MarkAsDoneEnabled` | src/components/DoctorPanel.js:289-295 | Video Call or Referral needs only a selected patient; Prescription needs a non-empty selection and the selected copy flagged printed; any other action never enables |
| `DoctorPanel.PrintDoesNotEnableDone` | src/components/DoctorPanel.js:289-295 | printing (line 247) flags the store record, but the guard reads the unprinted copy and stays false |
| `DoctorPanel.MarkAsDoneEnabledFresh` | src/components/DoctorPanel.js:289-295 | the corrected guard agrees with the written one whenever the selected copy is the store's current record |
| `DoctorPanel.PrintEnablesDoneFresh` | src/components/DoctorPanel.js:289-295 | under the corrected guard, printing (line 247) a non-empty prescription enables "Mark as Done" |
| `DoctorPanel.Panel.constructor` | src/components/DoctorPanel.js:66-69 | the panel starts with no patient, no action and no medicines |
| `DoctorPanel.Panel.HandlePatientSelect` | src/components/DoctorPanel.js:157-173 | the copy is kept, the action cleared and the selection seeded; the button is then disabled |
| `DoctorPanel.Panel.HandleActionChange` | src/components/DoctorPanel.js:175-179 | the action is stored; any action but Prescription clears the selection |
| `DoctorPanel.Panel.HandleMedicineToggle` | src/components/DoctorPanel.js:211-236 | with a truthy id and a patient: toggle, and store the same list on the record; otherwise nothing changes |
| `DoctorPanel.Panel.HandlePrintPrescription` | src/components/DoctorPanel.js:238-263 | with a patient and a non-empty selection: flag the record and return the names; otherwise nothing |
| `DoctorPanel.Panel.HandleMarkAsDone` | src/components/DoctorPanel.js:265-287 | with a patient: remove its records and reset the panel; the button is then disabled |
| `DoctorPanel.PrintLeavesDoneDisabled` | src/components/DoctorPanel.js:157-295 | on a fresh store and panel: select, choose Medicine Prescription, tick, print; the store record is flagged, "Mark as Done" stays disabled, and the corrected guard would enable it |
| `RegistrationForm.SetField` | src/components/PatientRegistrationForm.js:47-50 | the named field takes the value and every other field keeps its value |
| `RegistrationForm.BuildPatientData` | src/components/PatientRegistrationForm.js:75-80 | the payload copies name, details and priority, integer-parses age and doctor, and has the submission time |
| `RegistrationForm.Validate` | src/components/PatientRegistrationForm.js:20-43 | the priority is never checked, and every error recorded carries a non-empty message |
| `RegistrationForm.ValidateEveryField` | src/components/PatientRegistrationForm.js:20-43 | every failing field gets its message, not just the first; passing fields are absent |
| `RegistrationForm.BlankFieldRules` | src/components/PatientRegistrationForm.js:23-35 | name and details fail exactly when `trim()` leaves nothing, i.e. when empty or all white space |
| `RegistrationForm.AgeRule` | src/components/PatientRegistrationForm.js:27-31 | an empty age is "required"; a non-empty one outside 1..120 as a number gets the range message; at most one message |
| `RegistrationForm.WholeAgeRule` | src/components/PatientRegistrationForm.js:27-31 | an integer's numeral passes exactly when it lies in 1 to 120 |
| `RegistrationForm.DoctorRule` | src/components/PatientRegistrationForm.js:37-39 | the doctor fails only when empty; the id is not looked up |
| `RegistrationForm.ErrorsEmptyIff` | src/components/PatientRegistrationForm.js:20-43 | no error exactly when all four rules pass, whatever the age's number |
| `RegistrationForm.ValidIffAllRulesPass` | src/components/PatientRegistrationForm.js:42 | the form is valid exactly when every rule passes |
| `RegistrationForm.EmptyFormErrors` | src/components/PatientRegistrationForm.js:9-43 | the reset form fails on name, age, details and doctor, with their messages |
| `RegistrationForm.SameErrors` | src/components/PatientRegistrationForm.js:20-43 | a map with exactly the failing fields and their messages is the error map |
| `RegistrationForm.SubmittedNumbers` | src/components/PatientRegistrationForm.js:75-80 | a valid form with integer numerals stores exactly those integers; the age lies in 1..120 |
| `RegistrationForm.RegisteredPatientJoinsQueue` | src/components/PatientRegistrationForm.js:75-82 | a validly registered patient appears in a truthy doctor's queue while the search is blank |
| `RegistrationForm.ExponentAgeStoredAsZero` | src/components/PatientRegistrationForm.js:27-31 | "0.5e1" passes the age check as 5 but is stored by `parseInt` (line 77) as age 0 |
| `RegistrationForm.ExponentNumeralIsFive` | src/components/PatientRegistrationForm.js:29 | `Number("0.5e1")` is 5 |
| `RegistrationForm.ExponentNumeralParsesAsZero` | src/components/PatientRegistrationForm.js:77 | `parseInt("0.5e1")` is 0 |
| `RegistrationForm.IntendedPatientData` | src/components/PatientRegistrationForm.js:75-80 | the corrected payload is the written one with the age taken from the checked number |
| `RegistrationForm.IntendedAgeInRange` | src/components/PatientRegistrationForm.js:75-80 | under the corrected conversion, every form passing the check at lines 27-31 stores an age from 1 to 120 |
| `RegistrationForm.IntendedAgeAgreesOnWholeNumbers` | src/components/PatientRegistrationForm.js:77 | for integer numerals, the corrected conversion and `parseInt` agree |
| `RegistrationForm.Form.constructor` | src/components/PatientRegistrationForm.js:9-16 | the form starts with empty fields, priority Medium and no errors |
| `RegistrationForm.Form.ValidateForm` | src/components/PatientRegistrationForm.js:20-43 | the stored error map is the form's error map; the result is true iff it is empty |
| `RegistrationForm.Form.HandleChange` | src/components/PatientRegistrationForm.js:45-59 | only the named field changes; its message is blanked only when non-empty |
| `RegistrationForm.Form.HandleSubmit` | src/components/PatientRegistrationForm.js:61-91 | an invalid form adds nothing and keeps its values; a valid one appends the parsed record and resets |
| `Navigation.GetPatientCount` | src/components/Navigation.js:16-34 | zero for a falsy id, and never more than the number of records |
| `Navigation.PatientCountIsPending` | src/components/Navigation.js:16-34 | for a truthy id the count equals the length of `selectPatientsByDoctor` |
| `Navigation.QueueWithinCount` | src/components/Navigation.js:16-34 | the doctor's queue never lists more patients than the picker counts |
| `Navigation.RegistrationRaisesCount` | src/components/Navigation.js:22-29 | registering a patient raises its doctor's count by one and leaves the others unchanged |
| `Navigation.RemovalNeverRaisesCount` | src/components/Navigation.js:22-29 | marking a patient as done never raises a count |
| `Navigation.DoctorOptionValues` | src/components/Navigation.js:104-106 | a doctor option parses back to its id, truthy iff not 0; the placeholder parses as NaN |
| `Navigation.Navigation.constructor` | src/components/Navigation.js:10-11 | the app starts on registration with no doctor picked |
| `Navigation.Navigation.ShowRegistration` | src/components/Navigation.js:92-95 | shows registration and clears the doctor; the "Go to Patient Registration" button (59-62) does the same |
| `Navigation.Navigation.SelectDoctor` | src/components/Navigation.js:103-112 | keeps `parseInt` of the value; a truthy id shows the doctor view, otherwise registration |

## Left out

- Rendering, styles, the error boundary, the app shell, and the store wiring with its
  persistence. They are display and library plumbing.
- Timers are not modelled:
  - the 300 ms search debounce (the debounced term is a plain input);
  - the notifications and their dismissal;
  - the 1 s submit delay, and the submitting flag around it;
  - the success message and its scroll-to-top.
- `Date.now()` and `new Date().toISOString()` are parameters (`id`, `now`, `submitTime`).
  Console logging is dropped.
- `try`/`catch` blocks and the shape guards on non-object values are dropped because records
  are typed. So is the submit failure path that sets an `errors.submit` message.
- The guards that keep a typed meaning stay:
  - an empty name;
  - a falsy doctor id;
  - a medicine list that is not an array (`None`).
- The doctor panel's render-time branches are not modelled: "Loading…" and "Doctor not
  found".
- Browser constraint validation of the number input (`min`, `max`, `step`) is not
  modelled. Only the code's own checks are.
- `Js.ToLower`: only ASCII letters are folded, so non-ASCII case mappings are missing.
- `Js.ToNumber`: the decimal value is exact. IEEE double rounding and overflow are not
  modelled.
- Strings are sequences of code points, not UTF-16 code units.
- `PatientQueue.Rank`: priorities that are names of `Object.prototype` members (e.g.
  `"constructor"`) are ranked 2. They are not looked up on the prototype.
- `selectAllPatients` is the `patients` field itself. The `|| []` fallback only guards
  a missing slice.
- `PatientQueue.AllPatients` compares the record's doctor with the panel's numeric id
  directly. `parseInt` of an integer is that integer (`Js.ParseIntRoundTrip`).
- `Navigation.Navigation`: `null` and NaN are both `None` for the picked doctor. They are
  the two falsy non-numbers, and every use treats them alike.
- `DoctorPanel.Panel.HandleMedicineToggle` is one atomic step. The store update is not
  dispatched from inside a state updater.
- `DoctorPanel.Panel.HandleActionChange` models only the state update, not the
  notifications.
- Patient ids are not unique: two registrations in the same clock tick get the same id.
  The model keeps whatever id it is given.

## Findings

| source | as written | input that shows it | evidently intended | confidence | as-written member | corrected member |
|---|---|---|---|---|---|---|
| src/components/PatientRegistrationForm.js:29, 77 | the age is checked as `Number(age)` but stored as `parseInt(age)` | the age "0.5e1": the browser's number input accepts it, it is the integer 5 (so it passes `min`, `max` and `step`), it passes the 1–120 check, and it is stored as age 0 | the stored age is the number that was checked, so every registered age lies in 1..120 | medium, not executed | `RegistrationForm.ExponentAgeStoredAsZero` | `RegistrationForm.IntendedPatientData` (`RegistrationForm.IntendedAgeInRange`) |
| src/components/DoctorPanel.js:247, 289-295 | `canMarkAsDone` reads `prescriptionPrinted` from the copy kept when the patient was selected; printing updates only the store | select a pending patient, choose Medicine Prescription, tick a medicine, print: the store record is flagged, but the copy is not, so "Mark as Done" stays disabled | printing enables "Mark as Done" (its tooltip asks to "print prescription first") | medium, not executed | `DoctorPanel.PrintDoesNotEnableDone` (`DoctorPanel.PrintLeavesDoneDisabled`) | `DoctorPanel.MarkAsDoneEnabledFresh` (`DoctorPanel.PrintEnablesDoneFresh`) |
