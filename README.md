# Clinic record store and professional dashboard, in Dafny

This project models the data core of a small clinic scheduling tool. It has two parts.

**The record store** (`data_service.dfy`). The store keeps three collections, each under its own storage key: professionals, patients and appointments. It is modelled as the class `DataService.Store`, with one `Option<seq<…>>` field per key. `None` means nothing was ever written under that key.

- Every operation reads a whole collection, builds the new one and writes it back.
- Each operation is a method whose contract gives the new value of every field in terms of the old ones.
- Adding a record appends it with an id made of a kind prefix and the clock reading.
- Updating a record replaces the first record with the same id. When no record has that id, nothing is written.
- Deleting patients cascades by id to their appointments.
- Deleting a professional first finds its patients, then deletes them through the patient cascade, then removes the professional.
- Adding or updating an appointment first looks up its patient. If there is none, it fails with `PatientNotFound` and writes nothing. Otherwise it copies the patient's current name into the appointment.

Renaming a patient never touches appointments, so their copy of the name can go stale. The model reproduces this: `UpdatePatient` promises `appointments == old(appointments)`.

**The professional dashboard** (`dashboard.dfy`). The dashboard works over the snapshots it loads from the store:

- case-insensitive search over appointments (patient name or notes) and over patients (name only);
- the schedule, sorted by time;
- the set of checked patient ids, with "select all" acting only on the visible patients;
- the handlers that save a patient and that bulk-delete the checked patients.

The searches, the sort and the selection arithmetic are functions and loop methods with no state. The handlers are methods of the class `Dashboard.DashboardState`, which holds the dashboard's state and a reference to the store.

**Supporting modules.** `sequences.dfy` gives order-preserving filtering, counting and first-match search, with a characterisation that determines `Filter` uniquely (`FilterUnique`). `text.dfy` covers `trim`, lower-casing, `includes` and the order on time strings. `records.dfy` holds the record types and `ids.dfy` the id scheme. `seed.dfy` is the first-use fixture, and `scenario.dfy` runs the cascade on it.

Record ids are not guaranteed unique, because the clock reading can repeat. No store operation assumes they are. The lemmas that need unique ids (`CascadeWithUniqueIds`, `DeleteShrinksByIdCount`) take it as a precondition.

A stored collection that cannot be parsed makes `JSON.parse` throw; there is no fail-soft path that treats it as empty. The dashboard has no date-range filter, no sort key other than `time`, no descending order and no patient sort.

## Model

| member | source | states |
|---|---|---|
| `DataService.Load` | services/dataService.ts:24-27 | reading an absent key yields the empty collection; a present key yields what was stored |
| `DataService.Store.Professionals` | services/dataService.ts:34 | an absent key reads as no professionals; a present key reads back what was stored |
| `DataService.Store.Patients` | services/dataService.ts:59 | an absent key reads as no patients; a present key reads back what was stored |
| `DataService.Store.Appointments` | services/dataService.ts:95 | an absent key reads as no appointments; a present key reads back what was stored |
| `DataService.SeedIfAbsent` | services/dataService.ts:12-14 | after seeding, the key is present; a present key (even an empty collection) is kept as it was; an absent key gets the fixture |
| `DataService.SeedIfAbsentIdempotent` | services/dataService.ts:11-21 | seeding twice is seeding once |
| `DataService.Store.InitializeData` | services/dataService.ts:11-21 | each of the three keys is seeded only if absent; afterwards all are present; on a store whose keys are all present nothing changes, so a second run is a no-op |
| `DataService.Store.PatientsByProfessional` | services/dataService.ts:61-63 | the result holds exactly the stored patients whose `professionalId` equals the argument, in storage order (a subsequence), and as many of them as there are matches |
| `DataService.Store.AppointmentsByProfessional` | services/dataService.ts:97-99 | the same for appointments, matching the appointment's own `professionalId` |
| `DataService.Store.AddProfessional` | services/dataService.ts:36-41 | the returned record has the given fields and the id `prof-` + clock; the collection becomes the old one with it appended; the other keys are untouched |
| `DataService.Store.AddPatient` | services/dataService.ts:65-70 | the returned record has the given fields and the id `pat-` + clock; it is appended after the old patients; the other keys are untouched |
| `DataService.Store.UpdatePatient` | services/dataService.ts:72-79 | the first patient with the same id is replaced; with none, the key is left exactly as it was; the length never changes; the only position that can differ holds the update and had its id; appointments are untouched, so their `patientName` copies go stale |
| `DataService.Store.DeleteMultiplePatients` | services/dataService.ts:81-91 | an empty list changes nothing; otherwise the surviving patients are exactly those whose id is not listed and the surviving appointments are exactly those whose `patientId` is not listed, both in original order; professionals are untouched |
| `DataService.Store.DeleteProfessional` | services/dataService.ts:43-56 | every professional with the id is removed and only those; a patient survives iff no patient of the professional carries its id; an appointment survives iff its `patientId` is not the id of one of the professional's patients; with no such patients the patient and appointment keys are not written |
| `DataService.Store.AddAppointment` | services/dataService.ts:101-114 | fails with `PatientNotFound`, writing nothing, iff no patient has the `patientId`; otherwise the new appointment, with id `app-` + clock and the first matching patient's current name as `patientName`, is appended; patients and professionals are untouched |
| `DataService.Store.UpdateAppointment` | services/dataService.ts:116-129 | the patient lookup comes first: without the patient it fails and writes nothing, even if the appointment id is absent; otherwise the argument's `patientName` is overwritten from the patient and that record replaces the first appointment with the same id, or nothing is written when there is none |
| `DataService.Store.DeleteAppointment` | services/dataService.ts:132-135 | the surviving appointments are exactly those with a different id, in original order; the other keys are untouched |
| `DataService.PatientIdsOf` | services/dataService.ts:45-46 | the ids collected for a professional are as many as the patients that professional owns, and the list is empty (so the cascade is skipped) exactly when the professional owns no patient |
| `DataService.PatientIdsOfMembership` | services/dataService.ts:45-46 | an id is among the ids deleteProfessional collects iff some patient of that professional carries it |
| `DataService.CascadeRemovesExactlyTheirAppointments` | services/dataService.ts:43-56 | after the professional cascade, an appointment survives iff its patient id does not belong to one of the professional's patients |
| `DataService.CascadeRemovesExactlyTheirPatients` | services/dataService.ts:43-56 | after the professional cascade, a patient survives iff no patient of the professional carries its id |
| `DataService.CascadeSparesOtherPatientsAppointments` | services/dataService.ts:43-56 | an appointment booked with the deleted professional whose patient belongs to someone else survives |
| `DataService.CascadeWithUniqueIds` | services/dataService.ts:43-56 | with unique patient ids, the cascade keeps exactly the patients owned by other professionals |
| `DataService.CountNamedPatients` | services/dataService.ts:85 | with unique patient ids, the number of patients carrying an id from a set of existing ids equals the size of the set |
| `DataService.DeleteShrinksByIdCount` | services/dataService.ts:81-86 | with unique patient ids, deleting k distinct existing ids leaves exactly k fewer patients |
| `Seed.SeedProfessionals` | services/mockData.ts:4-8 | the fixture has three professionals with distinct ids |
| `Seed.SeedPatients` | services/mockData.ts:10-16 | the fixture has five patients with distinct ids |
| `Seed.SeedAppointments` | services/mockData.ts:18-23 | the fixture has four appointments with distinct ids, all dated on the day of seeding |
| `Seed.SeedReferencesResolve` | services/mockData.ts:10-23 | every seeded patient's owner is a seeded professional; every seeded appointment names a seeded patient, with that patient's name and professional |
| `SeedScenario.SeedOwnedByFirst` | services/dataService.ts:61-63 | on the fixture, `prof-1` owns exactly João Pereira and Maria Oliveira, with ids `pat-1` and `pat-2` |
| `SeedScenario.DeleteFirstSeededProfessional` | services/mockData.ts:4-23 | on a freshly seeded store, deleting `prof-1` leaves `prof-2` and `prof-3`, the patients `pat-3` to `pat-5` and the appointments `app-3` and `app-4` |
| `Ids.NewId` | services/dataService.ts:38 | an id starts with its kind prefix and has at least one more character |
| `Ids.ParseDecimalInvertsDecimal` | services/dataService.ts:38 | the decimal rendering of the clock reading can be read back |
| `Ids.NewIdInjective` | services/dataService.ts:38 | two ids of one kind are equal only if they were made at the same clock reading |
| `Records.IdsOf` | services/dataService.ts:46 | the id list has one entry per patient, in the same order |
| `Records.InIdsOf` | services/dataService.ts:46 | an id is in the list iff some patient carries it |
| `Sequences.Filter` | services/dataService.ts:85 | an element is kept iff it is in the input and satisfies the predicate |
| `Sequences.FilterIsSubsequence` | services/dataService.ts:89 | filtering keeps the original order and keeps as many elements as satisfy the predicate |
| `Sequences.FilterUnique` | services/dataService.ts:89 | any order-preserving selection of satisfying elements of full count is the filter result |
| `Sequences.FirstIndex` | services/dataService.ts:74 | when it returns an index, that element matches and no earlier one does; when it returns `None`, no element matches |
| `Text.TrimStart` | components/ProfessionalDashboard.tsx:161 | the result is a suffix of the input, everything dropped is whitespace, and the result does not start with whitespace |
| `Text.TrimEnd` | components/ProfessionalDashboard.tsx:161 | the result is a prefix of the input, everything dropped is whitespace, and the result does not end with whitespace |
| `Text.IsBlank` | components/ProfessionalDashboard.tsx:161 | `!s.trim()` holds iff every character is ECMAScript whitespace, the empty string included; the same test guards the patient name at :75 and the patient search at :176 |
| `Text.LowerChar` | components/ProfessionalDashboard.tsx:164 | lower-casing a character neither creates nor removes whitespace |
| `Text.Lower` | components/ProfessionalDashboard.tsx:164 | lower-casing keeps the length and maps each character on its own |
| `Text.LowerIdempotent` | components/ProfessionalDashboard.tsx:164 | lower-casing twice is lower-casing once |
| `Text.LowerKeepsBlank` | components/ProfessionalDashboard.tsx:161-164 | a term is blank iff its lower-cased form is |
| `Text.ContainsIffOccurs` | components/ProfessionalDashboard.tsx:166-167 | `includes` holds iff the term occurs at some position |
| `Text.LexLeReflexive` | components/ProfessionalDashboard.tsx:172 | every time string is ordered before or equal to itself |
| `Text.LexLeTotal` | components/ProfessionalDashboard.tsx:172 | any two time strings are comparable |
| `Text.LexLeTransitive` | components/ProfessionalDashboard.tsx:172 | the order on time strings is transitive |
| `Dashboard.FilteredAppointments` | components/ProfessionalDashboard.tsx:160-169 | a blank or whitespace-only term returns the list unchanged; otherwise an appointment is shown iff its lower-cased patient name or notes contain the lower-cased, untrimmed term; the result is in original order and keeps every matching record, duplicates included (its length is the number of matches) |
| `Dashboard.FilteredPatients` | components/ProfessionalDashboard.tsx:175-181 | the same for patients, matching on the name only: every matching patient, in original order, as many as there are matches |
| `Dashboard.AppointmentSearchIgnoresTermCase` | components/ProfessionalDashboard.tsx:164-167 | searching for a term and for its lower-case form shows the same appointments |
| `Dashboard.PatientSearchIgnoresTermCase` | components/ProfessionalDashboard.tsx:179-180 | searching for a term and for its lower-case form shows the same patients |
| `Dashboard.SearchTermIsNotTrimmed` | components/ProfessionalDashboard.tsx:179-180 | the term is not trimmed: a term padded with a leading space finds only patients whose name is longer than the unpadded term |
| `Dashboard.InsertByTime` | components/ProfessionalDashboard.tsx:172 | inserting into a time-sorted list keeps it sorted and adds exactly the one element |
| `Dashboard.SortByTime` | components/ProfessionalDashboard.tsx:172 | the result is sorted ascending by `time` and is a permutation of the input |
| `Dashboard.InsertByTimeStable` | components/ProfessionalDashboard.tsx:172 | the inserted appointment goes before every appointment with the same time, and the others keep their relative order |
| `Dashboard.SortByTimeStable` | components/ProfessionalDashboard.tsx:172 | for every time, the appointments at that time come out in their input order |
| `Dashboard.SortedAndFilteredAppointments` | components/ProfessionalDashboard.tsx:171-173 | the schedule is sorted ascending by time and is a permutation of the search result |
| `Dashboard.VisibleIds` | components/ProfessionalDashboard.tsx:184 | every visible patient's id is in the set, every id in it belongs to a visible patient, and the set is empty exactly when no patient is visible |
| `Dashboard.Toggled` | components/ProfessionalDashboard.tsx:90-98 | exactly the given id flips membership; every other id keeps its membership |
| `Dashboard.ToggledTwice` | components/ProfessionalDashboard.tsx:90-98 | toggling twice restores the selection |
| `Dashboard.AllFilteredPatientsSelected` | components/ProfessionalDashboard.tsx:183-192 | false when no patient is visible; otherwise true iff every visible patient's id is checked |
| `Dashboard.SelectAllToggled` | components/ProfessionalDashboard.tsx:194-210 | if all visible ids are checked, exactly they are unchecked; otherwise all are checked, after which all visible patients count as selected when any is visible; ids not visible keep their membership either way |
| `Dashboard.SetToSeq` | components/ProfessionalDashboard.tsx:102 | the list holds each checked id exactly once |
| `Dashboard.DashboardState.constructor` | components/ProfessionalDashboard.tsx:29-59 | the dashboard opens with the professional's snapshots loaded, empty search terms, nothing checked and nothing pending |
| `Dashboard.DashboardState.LoadData` | components/ProfessionalDashboard.tsx:56-59 | both snapshots become the store's per-professional lists |
| `Dashboard.DashboardState.Schedule` | components/ProfessionalDashboard.tsx:171-173 | the schedule on screen is sorted ascending by time and is a permutation of the appointments matching the current appointment search |
| `Dashboard.DashboardState.VisiblePatients` | components/ProfessionalDashboard.tsx:175-181 | the patients on screen are all of the snapshot when the patient search is blank, and otherwise an order-preserving selection from it |
| `Dashboard.DashboardState.SetPatientSearchTerm` | components/ProfessionalDashboard.tsx:290 | changing the patient filter never changes which ids are checked |
| `Dashboard.DashboardState.SetAppointmentSearchTerm` | components/ProfessionalDashboard.tsx:236 | sets the appointment search term and nothing else |
| `Dashboard.DashboardState.HandleTogglePatientSelection` | components/ProfessionalDashboard.tsx:90-98 | the selection becomes the toggled selection; nothing else changes |
| `Dashboard.DashboardState.HandleToggleSelectAll` | components/ProfessionalDashboard.tsx:194-210 | removes the visible ids when all are checked, otherwise adds them; nothing else changes |
| `Dashboard.DashboardState.HandleDeletePatient` | components/ProfessionalDashboard.tsx:85-88 | asks to confirm the deletion of exactly that patient |
| `Dashboard.DashboardState.HandleDeleteSelected` | components/ProfessionalDashboard.tsx:100-104 | with nothing checked it does nothing; otherwise the pending list holds exactly the checked ids, each once, and confirmation is asked |
| `Dashboard.DashboardState.ConfirmDeletePatients` | components/ProfessionalDashboard.tsx:106-114 | a non-empty pending list is deleted from the store with its appointments, the snapshots are reloaded and the selection becomes empty; an empty one leaves store, selection and snapshots alone; the pending list is cleared and the dialog closed in every case |
| `Dashboard.DashboardState.HandleSavePatient` | components/ProfessionalDashboard.tsx:74-83 | a name that is blank after trimming neither adds nor updates anything; otherwise the edited patient keeps its id and owner and is updated, or a new patient of this professional is appended; appointments and professionals are untouched; the checked ids, the pending deletion, the confirmation dialog and both search terms are left as they were |

## Left out

- Storage encoding: the key-value storage and the JSON serialisation are replaced by the three in-memory fields. The storage key names are not modelled. A stored value that cannot be parsed is not modelled either; the code would throw on it.
- The clock: `Date.now()` becomes the `now` parameter of the add operations. The seeding date, `new Date()` in the fixture, becomes the `today` parameter.
- Object spreads: `{ ...record, id }` copies any extra properties the caller passes. The model's records have exactly the declared fields.
- `Text.Lower`: lower-cases only the Basic Latin and Latin-1 capitals, not the full Unicode case mapping of `toLowerCase`.
- `Text.LexLe`: orders time strings by code point. `localeCompare` uses the locale's collation, which agrees on `HH:MM` strings but not on arbitrary text.
- `Dashboard.SetToSeq`: does not fix the order of the pending ids. `Array.from` follows insertion order, but only membership matters to the deletion.
- Appointment form: `handleSaveAppointment` and its `sessionValue` coercion (`Number(...) || 0`, a floating-point conversion) are not modelled. The same goes for `confirmDeleteAppointment`, which, for a non-empty pending id, calls `deleteAppointment` and reloads the snapshots, then clears the pending id and closes its dialog. The amount is carried as an optional `real`.
- The revenue split in the administrator's screen: it is floating-point arithmetic.
- Presentation: rendering, modals other than the patient-deletion confirmation flag, tabs, printing, alerts, the install prompt, login and role selection, and the service-worker cache. They have no store logic.
- React memoisation: the derived values (`Schedule`, `VisiblePatients`) are recomputed from the state on every read.
