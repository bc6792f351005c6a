/** A professional's dashboard: the search filters and the time-ordered
    schedule derived from snapshots of the store, the set of checked patient
    ids, and the handlers that save patients and delete the checked ones. */
module Dashboard {
  import opened Wrappers
  import opened Sequences
  import opened Text
  import opened Records
  import opened Ids
  import opened DataService

  // ---------------------------------------------------------------- search

  function AppointmentMatches(lowerTerm: string): Appointment -> bool {
    (a: Appointment) => Contains(Lower(a.patientName), lowerTerm) || Contains(Lower(a.notes), lowerTerm)
  }

  function PatientMatches(lowerTerm: string): Patient -> bool {
    (p: Patient) => Contains(Lower(p.name), lowerTerm)
  }

  /** The appointments whose patient name or notes contain the term, ignoring
      case; a blank term shows everything. The term is lower-cased but not
      trimmed. */
  function FilteredAppointments(appointments: seq<Appointment>, searchTerm: string): (shown: seq<Appointment>)
    ensures IsBlank(searchTerm) ==> shown == appointments
    ensures !IsBlank(searchTerm) ==> forall a :: a in shown <==>
      a in appointments &&
      (Contains(Lower(a.patientName), Lower(searchTerm)) || Contains(Lower(a.notes), Lower(searchTerm)))
    ensures !IsBlank(searchTerm) ==> |shown| == Count(appointments, AppointmentMatches(Lower(searchTerm)))
    ensures IsSubsequence(shown, appointments)
  {
    if IsBlank(searchTerm) then
      (SubsequenceOfItself(appointments); appointments)
    else
      (FilterIsSubsequence(appointments, AppointmentMatches(Lower(searchTerm)));
       Filter(appointments, AppointmentMatches(Lower(searchTerm))))
  }

  /** The patients whose name contains the term, ignoring case; a blank term
      shows everything. */
  function FilteredPatients(patients: seq<Patient>, searchTerm: string): (shown: seq<Patient>)
    ensures IsBlank(searchTerm) ==> shown == patients
    ensures !IsBlank(searchTerm) ==> forall p :: p in shown <==>
      p in patients && Contains(Lower(p.name), Lower(searchTerm))
    ensures !IsBlank(searchTerm) ==> |shown| == Count(patients, PatientMatches(Lower(searchTerm)))
    ensures IsSubsequence(shown, patients)
  {
    if IsBlank(searchTerm) then
      (SubsequenceOfItself(patients); patients)
    else
      (FilterIsSubsequence(patients, PatientMatches(Lower(searchTerm)));
       Filter(patients, PatientMatches(Lower(searchTerm))))
  }

  /** Searching for a term and for its lower-case form shows the same
      appointments. */
  lemma AppointmentSearchIgnoresTermCase(appointments: seq<Appointment>, searchTerm: string)
    ensures FilteredAppointments(appointments, Lower(searchTerm)) == FilteredAppointments(appointments, searchTerm)
  {
    LowerKeepsBlank(searchTerm);
    LowerIdempotent(searchTerm);
  }

  /** Searching for a term and for its lower-case form shows the same
      patients. */
  lemma PatientSearchIgnoresTermCase(patients: seq<Patient>, searchTerm: string)
    ensures FilteredPatients(patients, Lower(searchTerm)) == FilteredPatients(patients, searchTerm)
  {
    LowerKeepsBlank(searchTerm);
    LowerIdempotent(searchTerm);
  }

  /** The term is not trimmed: a term padded with a space only finds
      patients whose name is longer than the unpadded term. */
  lemma SearchTermIsNotTrimmed(patients: seq<Patient>, term: string)
    requires !IsBlank(term)
    ensures forall p :: p in FilteredPatients(patients, " " + term) ==> |p.name| > |term|
  {
    var padded := " " + term;
    assert !IsBlank(padded) by {
      var i :| 0 <= i < |term| && !IsWhitespace(term[i]);
      assert padded[i + 1] == term[i];
    }
    forall p | p in FilteredPatients(patients, padded) ensures |p.name| > |term| {
      ContainsIffOccurs(Lower(p.name), Lower(padded));
    }
  }

  // ------------------------------------------------------------------ sort

  predicate SortedByTime(s: seq<Appointment>) {
    forall i, j :: 0 <= i < j < |s| ==> LexLe(s[i].time, s[j].time)
  }

  function HasTime(time: string): Appointment -> bool {
    (a: Appointment) => a.time == time
  }

  lemma SortedPrepend(x: Appointment, s: seq<Appointment>)
    requires SortedByTime(s)
    requires forall y :: y in s ==> LexLe(x.time, y.time)
    ensures SortedByTime([x] + s)
  {
    forall i, j | 0 <= i < j < |[x] + s|
      ensures LexLe(([x] + s)[i].time, ([x] + s)[j].time)
    {
      if i == 0 {
        assert ([x] + s)[j] == s[j - 1];
        assert s[j - 1] in s;
      }
    }
  }

  /** Inserts `x` before the first element whose time is not earlier than
      its own. */
  function InsertByTime(x: Appointment, sorted: seq<Appointment>): (r: seq<Appointment>)
    requires SortedByTime(sorted)
    ensures SortedByTime(r)
    ensures multiset(r) == multiset(sorted) + multiset{x}
  {
    if sorted == [] then [x]
    else if LexLe(x.time, sorted[0].time) then
      (InsertBeforeFirst(x, sorted);
       [x] + sorted)
    else
      var rest := InsertByTime(x, sorted[1..]);
      (InsertAfterFirst(x, sorted, rest);
       [sorted[0]] + rest)
  }

  lemma InsertBeforeFirst(x: Appointment, sorted: seq<Appointment>)
    requires SortedByTime(sorted) && sorted != [] && LexLe(x.time, sorted[0].time)
    ensures SortedByTime([x] + sorted)
    ensures multiset([x] + sorted) == multiset(sorted) + multiset{x}
  {
    forall y | y in sorted ensures LexLe(x.time, y.time) {
      var j :| 0 <= j < |sorted| && sorted[j] == y;
      if j > 0 {
        LexLeTransitive(x.time, sorted[0].time, y.time);
      }
    }
    SortedPrepend(x, sorted);
  }

  lemma InsertAfterFirst(x: Appointment, sorted: seq<Appointment>, rest: seq<Appointment>)
    requires SortedByTime(sorted) && sorted != [] && !LexLe(x.time, sorted[0].time)
    requires SortedByTime(rest) && multiset(rest) == multiset(sorted[1..]) + multiset{x}
    ensures SortedByTime([sorted[0]] + rest)
    ensures multiset([sorted[0]] + rest) == multiset(sorted) + multiset{x}
  {
    LexLeTotal(x.time, sorted[0].time);
    forall y | y in rest ensures LexLe(sorted[0].time, y.time) {
      assert y in multiset(rest);
      if y != x {
        assert y in multiset(sorted[1..]);
        var j :| 0 <= j < |sorted[1..]| && sorted[1..][j] == y;
        assert sorted[j + 1] == y;
      }
    }
    SortedPrepend(sorted[0], rest);
    assert sorted == [sorted[0]] + sorted[1..];
  }

  /** `[...appointments].sort((a, b) => a.time.localeCompare(b.time))`, as an
      insertion sort: each element goes in front of the later-sorted ones
      with the same time, so equal times keep their order. */
  function SortByTime(appointments: seq<Appointment>): (sorted: seq<Appointment>)
    ensures SortedByTime(sorted)
    ensures multiset(sorted) == multiset(appointments)
  {
    if appointments == [] then []
    else
      (assert appointments == [appointments[0]] + appointments[1..];
       InsertByTime(appointments[0], SortByTime(appointments[1..])))
  }

  /** Inserting `x` puts it in front of every element with the same time and
      leaves the relative order of the others alone. */
  lemma {:induction false} InsertByTimeStable(x: Appointment, sorted: seq<Appointment>, time: string)
    requires SortedByTime(sorted)
    ensures Filter(InsertByTime(x, sorted), HasTime(time))
         == (if x.time == time then [x] else []) + Filter(sorted, HasTime(time))
  {
    var matches := HasTime(time);
    if sorted == [] {
      assert InsertByTime(x, sorted) == [x];
      assert [x][1..] == [];
    } else if LexLe(x.time, sorted[0].time) {
      var r := [x] + sorted;
      assert InsertByTime(x, sorted) == r;
      assert r[0] == x && r[1..] == sorted;
      assert Filter(r, matches) == (if matches(x) then [x] else []) + Filter(sorted, matches);
    } else {
      LexLeReflexive(x.time);
      assert sorted[0].time != x.time;
      InsertByTimeStable(x, sorted[1..], time);
      var rest := InsertByTime(x, sorted[1..]);
      var r := [sorted[0]] + rest;
      assert InsertByTime(x, sorted) == r;
      assert r[0] == sorted[0] && r[1..] == rest;
      assert Filter(r, matches) == (if matches(sorted[0]) then [sorted[0]] else []) + Filter(rest, matches);
      assert Filter(sorted, matches)
          == (if matches(sorted[0]) then [sorted[0]] else []) + Filter(sorted[1..], matches);
    }
  }

  /** The sort is stable: the appointments sharing any one time come out in
      the order they went in. */
  lemma {:induction false} SortByTimeStable(appointments: seq<Appointment>, time: string)
    ensures Filter(SortByTime(appointments), HasTime(time)) == Filter(appointments, HasTime(time))
  {
    if appointments != [] {
      SortByTimeStable(appointments[1..], time);
      InsertByTimeStable(appointments[0], SortByTime(appointments[1..]), time);
    }
  }

  /** The schedule: the searched appointments, in ascending time order. */
  function SortedAndFilteredAppointments(appointments: seq<Appointment>, searchTerm: string)
    : (schedule: seq<Appointment>)
    ensures SortedByTime(schedule)
    ensures multiset(schedule) == multiset(FilteredAppointments(appointments, searchTerm))
  {
    SortByTime(FilteredAppointments(appointments, searchTerm))
  }

  // ------------------------------------------------------------- selection

  /** The ids of the patients on screen (`new Set(filtered.map(p => p.id))`). */
  function VisibleIds(filtered: seq<Patient>): (ids: set<string>)
    ensures forall p :: p in filtered ==> p.id in ids
    ensures forall id :: id in ids ==> exists p :: p in filtered && p.id == id
    ensures ids == {} <==> filtered == []
  {
    var ids := set p | p in filtered :: p.id;
    assert filtered != [] ==> filtered[0].id in ids;
    ids
  }

  /** At least one patient is on screen and every one of them is checked. */
  predicate AllSelected(filtered: seq<Patient>, selected: set<string>) {
    filtered != [] && forall p :: p in filtered ==> p.id in selected
  }

  /** Flips whether `patientId` is checked. */
  function Toggled(selected: set<string>, patientId: string): (toggled: set<string>)
    ensures patientId in toggled <==> patientId !in selected
    ensures forall id :: id != patientId ==> (id in toggled <==> id in selected)
  {
    if patientId in selected then selected - {patientId} else selected + {patientId}
  }

  lemma ToggledTwice(selected: set<string>, patientId: string)
    ensures Toggled(Toggled(selected, patientId), patientId) == selected
  {
  }

  /** Walks the visible ids and answers whether all are checked; with no
      patient visible the answer is no. */
  method AllFilteredPatientsSelected(filtered: seq<Patient>, selected: set<string>) returns (all: bool)
    ensures all <==> AllSelected(filtered, selected)
  {
    var filteredIds := VisibleIds(filtered);
    assert filtered != [] ==> filtered[0].id in filteredIds;
    if |filteredIds| == 0 {
      return false;
    }
    var remaining := filteredIds;
    while remaining != {}
      invariant remaining <= filteredIds
      invariant forall id :: id in filteredIds - remaining ==> id in selected
      decreases remaining
    {
      var id :| id in remaining;
      if id !in selected {
        return false;
      }
      remaining := remaining - {id};
    }
    return true;
  }

  /** "Select all": when every visible patient is checked, unchecks exactly
      the visible ones; otherwise checks all of them. Checks of patients not
      on screen are kept either way. */
  method SelectAllToggled(filtered: seq<Patient>, selected: set<string>) returns (newSelection: set<string>)
    ensures AllSelected(filtered, selected) ==> newSelection == selected - VisibleIds(filtered)
    ensures !AllSelected(filtered, selected) ==> newSelection == selected + VisibleIds(filtered)
    ensures forall id :: id !in VisibleIds(filtered) ==> (id in newSelection <==> id in selected)
    ensures AllSelected(filtered, selected) ==> forall p :: p in filtered ==> p.id !in newSelection
    ensures !AllSelected(filtered, selected) && filtered != [] ==> AllSelected(filtered, newSelection)
  {
    var filteredIds := VisibleIds(filtered);
    var allSelected := AllFilteredPatientsSelected(filtered, selected);
    newSelection := selected;
    var remaining := filteredIds;
    if allSelected {
      while remaining != {}
        invariant remaining <= filteredIds
        invariant newSelection == selected - (filteredIds - remaining)
        decreases remaining
      {
        var id :| id in remaining;
        newSelection := newSelection - {id};
        remaining := remaining - {id};
      }
    } else {
      while remaining != {}
        invariant remaining <= filteredIds
        invariant newSelection == selected + (filteredIds - remaining)
        decreases remaining
      {
        var id :| id in remaining;
        newSelection := newSelection + {id};
        remaining := remaining - {id};
      }
    }
  }

  /** `Array.from(set)`: lists every element once. */
  method SetToSeq(s: set<string>) returns (r: seq<string>)
    ensures forall x :: x in r <==> x in s
    ensures |r| == |s|
  {
    r := [];
    var rest := s;
    while rest != {}
      invariant rest <= s
      invariant forall x :: x in r <==> x in s - rest
      invariant |r| + |rest| == |s|
      decreases rest
    {
      var x :| x in rest;
      r := r + [x];
      rest := rest - {x};
    }
  }

  // ---------------------------------------------------------- the screen

  /** The fields of the patient form. */
  datatype PatientForm = PatientForm(name: string, email: string, phone: string)

  /** The dashboard of the professional `professionalId`: snapshots of their
      appointments and patients, the search terms, the checked patient ids,
      and the ids awaiting confirmation of deletion. */
  class DashboardState {
    const store: Store
    const professionalId: string
    var appointments: seq<Appointment>
    var patients: seq<Patient>
    var appointmentSearchTerm: string
    var patientSearchTerm: string
    var selectedPatientIds: set<string>
    var patientIdsToDelete: seq<string>
    var isPatientConfirmOpen: bool

    constructor (store: Store, professionalId: string)
      ensures this.store == store && this.professionalId == professionalId
      ensures appointments == store.AppointmentsByProfessional(professionalId)
      ensures patients == store.PatientsByProfessional(professionalId)
      ensures appointmentSearchTerm == "" && patientSearchTerm == ""
      ensures selectedPatientIds == {} && patientIdsToDelete == [] && !isPatientConfirmOpen
    {
      this.store := store;
      this.professionalId := professionalId;
      appointments := store.AppointmentsByProfessional(professionalId);
      patients := store.PatientsByProfessional(professionalId);
      appointmentSearchTerm, patientSearchTerm := "", "";
      selectedPatientIds, patientIdsToDelete, isPatientConfirmOpen := {}, [], false;
    }

    /** The schedule on screen. */
    function Schedule(): (schedule: seq<Appointment>)
      reads this
      ensures SortedByTime(schedule)
      ensures multiset(schedule) == multiset(FilteredAppointments(appointments, appointmentSearchTerm))
    {
      SortedAndFilteredAppointments(appointments, appointmentSearchTerm)
    }

    /** The patients on screen. */
    function VisiblePatients(): (visible: seq<Patient>)
      reads this
      ensures IsBlank(patientSearchTerm) ==> visible == patients
      ensures IsSubsequence(visible, patients)
      ensures forall p :: p in visible ==> p in patients
    {
      FilteredPatients(patients, patientSearchTerm)
    }

    /** Refreshes both snapshots from the store. */
    method LoadData()
      modifies this`appointments, this`patients
      ensures appointments == store.AppointmentsByProfessional(professionalId)
      ensures patients == store.PatientsByProfessional(professionalId)
    {
      appointments := store.AppointmentsByProfessional(professionalId);
      patients := store.PatientsByProfessional(professionalId);
    }

    /** Typing in the patient search box changes what is visible, never what
        is checked. */
    method SetPatientSearchTerm(term: string)
      modifies this`patientSearchTerm
      ensures patientSearchTerm == term
      ensures selectedPatientIds == old(selectedPatientIds)
    {
      patientSearchTerm := term;
    }

    method SetAppointmentSearchTerm(term: string)
      modifies this`appointmentSearchTerm
      ensures appointmentSearchTerm == term
    {
      appointmentSearchTerm := term;
    }

    method HandleTogglePatientSelection(patientId: string)
      modifies this`selectedPatientIds
      ensures selectedPatientIds == Toggled(old(selectedPatientIds), patientId)
    {
      selectedPatientIds := Toggled(selectedPatientIds, patientId);
    }

    /** The "select all" checkbox, acting on the visible patients only. */
    method HandleToggleSelectAll()
      modifies this`selectedPatientIds
      ensures AllSelected(VisiblePatients(), old(selectedPatientIds)) ==>
        selectedPatientIds == old(selectedPatientIds) - VisibleIds(VisiblePatients())
      ensures !AllSelected(VisiblePatients(), old(selectedPatientIds)) ==>
        selectedPatientIds == old(selectedPatientIds) + VisibleIds(VisiblePatients())
    {
      selectedPatientIds := SelectAllToggled(VisiblePatients(), selectedPatientIds);
    }

    /** The trash button of one patient: asks to confirm deleting just it. */
    method HandleDeletePatient(patientId: string)
      modifies this`patientIdsToDelete, this`isPatientConfirmOpen
      ensures patientIdsToDelete == [patientId] && isPatientConfirmOpen
    {
      patientIdsToDelete := [patientId];
      isPatientConfirmOpen := true;
    }

    /** The bulk-delete button: with nothing checked it does nothing;
        otherwise it asks to confirm deleting every checked patient. */
    method HandleDeleteSelected()
      modifies this`patientIdsToDelete, this`isPatientConfirmOpen
      ensures old(selectedPatientIds) == {} ==>
        patientIdsToDelete == old(patientIdsToDelete) && isPatientConfirmOpen == old(isPatientConfirmOpen)
      ensures old(selectedPatientIds) != {} ==>
        && (forall id :: id in patientIdsToDelete <==> id in selectedPatientIds)
        && |patientIdsToDelete| == |selectedPatientIds|
        && isPatientConfirmOpen
    {
      if |selectedPatientIds| == 0 {
        return;
      }
      patientIdsToDelete := SetToSeq(selectedPatientIds);
      isPatientConfirmOpen := true;
    }

    /** Confirming the deletion: a non-empty pending list is deleted from the
        store (with the patients' appointments), the snapshots are reloaded
        and nothing stays checked. The pending list is cleared and the dialog
        closed in every case. */
    method ConfirmDeletePatients()
      modifies this, store
      ensures old(patientIdsToDelete) == [] ==>
        && unchanged(store)
        && selectedPatientIds == old(selectedPatientIds)
        && patients == old(patients) && appointments == old(appointments)
      ensures old(patientIdsToDelete) != [] ==>
        && store.patients == Some(Filter(old(store.Patients()), IdNotIn(old(patientIdsToDelete))))
        && store.appointments == Some(Filter(old(store.Appointments()), PatientIdNotIn(old(patientIdsToDelete))))
        && store.professionals == old(store.professionals)
        && selectedPatientIds == {}
        && patients == store.PatientsByProfessional(professionalId)
        && appointments == store.AppointmentsByProfessional(professionalId)
      ensures patientIdsToDelete == [] && !isPatientConfirmOpen
      ensures appointmentSearchTerm == old(appointmentSearchTerm) && patientSearchTerm == old(patientSearchTerm)
    {
      if |patientIdsToDelete| > 0 {
        store.DeleteMultiplePatients(patientIdsToDelete);
        LoadData();
        selectedPatientIds := {};
      }
      isPatientConfirmOpen := false;
      patientIdsToDelete := [];
    }

    /** Saving the patient form: a name that is blank after trimming saves
        nothing; otherwise the edited patient is updated (keeping its id and
        owner) or a new patient of this professional is added, and the
        snapshots are reloaded. */
    method HandleSavePatient(editing: Option<Patient>, form: PatientForm, now: nat)
      modifies this`appointments, this`patients, store
      ensures IsBlank(form.name) ==> unchanged(store) && unchanged(this)
      ensures selectedPatientIds == old(selectedPatientIds) && patientIdsToDelete == old(patientIdsToDelete)
      ensures isPatientConfirmOpen == old(isPatientConfirmOpen)
      ensures appointmentSearchTerm == old(appointmentSearchTerm) && patientSearchTerm == old(patientSearchTerm)
      ensures !IsBlank(form.name) && editing.None? ==>
        store.patients == Some(old(store.Patients()) +
          [Patient(NewId(PatientPrefix, now), form.name, form.phone, form.email, professionalId)])
      ensures !IsBlank(form.name) && editing.Some? ==>
        var edited := editing.value.(name := form.name, email := form.email, phone := form.phone);
        var k := FirstIndex(old(store.Patients()), PatientHasId(edited.id));
        && (k.None? ==> store.patients == old(store.patients))
        && (k.Some? ==> store.patients == Some(old(store.Patients())[k.value := edited]))
      ensures store.professionals == old(store.professionals) && store.appointments == old(store.appointments)
      ensures !IsBlank(form.name) ==>
        && patients == store.PatientsByProfessional(professionalId)
        && appointments == store.AppointmentsByProfessional(professionalId)
    {
      if IsBlank(form.name) {
        return;
      }
      match editing {
        case Some(patient) =>
          store.UpdatePatient(patient.(name := form.name, email := form.email, phone := form.phone));
        case None =>
          var _ := store.AddPatient(form.name, form.phone, form.email, professionalId, now);
      }
      LoadData();
    }
  }
}
