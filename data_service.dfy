/** The clinic's record store. It owns three collections (professionals,
    patients, appointments), each kept under its own storage key. Every
    operation reads a whole collection, builds the new one and writes it
    back; deleting patients cascades to their appointments and deleting a
    professional cascades to their patients. */
module DataService {
  import opened Wrappers
  import opened Sequences
  import opened Records
  import opened Ids
  import opened Seed

  datatype StoreError = PatientNotFound

  /** What a read of a storage key yields: the stored collection, or the empty
      collection when nothing was ever written under the key. */
  function Load<T>(slot: Option<seq<T>>): (records: seq<T>)
    ensures slot.None? ==> records == []
    ensures slot.Some? ==> records == slot.value
  {
    match slot
    case None => []
    case Some(stored) => stored
  }

  /** Writing the fixture under a key only when the key is absent. */
  function SeedIfAbsent<T>(slot: Option<seq<T>>, fixture: seq<T>): (seeded: Option<seq<T>>)
    ensures seeded.Some?
    ensures slot.Some? ==> seeded == slot
    ensures slot.None? ==> Load(seeded) == fixture
  {
    if slot.None? then Some(fixture) else slot
  }

  /** Seeding twice is seeding once. */
  lemma SeedIfAbsentIdempotent<T>(slot: Option<seq<T>>, fixture: seq<T>)
    ensures SeedIfAbsent(SeedIfAbsent(slot, fixture), fixture) == SeedIfAbsent(slot, fixture)
  {
  }

  // The predicates the store filters and searches with.

  function IdNotIn(ids: seq<string>): Patient -> bool {
    (p: Patient) => p.id !in ids
  }

  function PatientIdNotIn(ids: seq<string>): Appointment -> bool {
    (a: Appointment) => a.patientId !in ids
  }

  function OwnedBy(professionalId: string): Patient -> bool {
    (p: Patient) => p.professionalId == professionalId
  }

  function NotOwnedBy(professionalId: string): Patient -> bool {
    (p: Patient) => p.professionalId != professionalId
  }

  function BookedWith(professionalId: string): Appointment -> bool {
    (a: Appointment) => a.professionalId == professionalId
  }

  function ProfessionalIdIsNot(id: string): Professional -> bool {
    (p: Professional) => p.id != id
  }

  function AppointmentIdIsNot(id: string): Appointment -> bool {
    (a: Appointment) => a.id != id
  }

  function PatientHasId(id: string): Patient -> bool {
    (p: Patient) => p.id == id
  }

  function AppointmentHasId(id: string): Appointment -> bool {
    (a: Appointment) => a.id == id
  }

  /** The ids of the patients a professional owns: what deleting the
      professional hands to the patient cascade. */
  function PatientIdsOf(patients: seq<Patient>, professionalId: string): (ids: seq<string>)
    ensures |ids| == Count(patients, OwnedBy(professionalId))
    ensures ids == [] <==> forall p :: p in patients ==> p.professionalId != professionalId
  {
    var owned := Filter(patients, OwnedBy(professionalId));
    assert owned != [] ==> owned[0] in owned;
    FilterIsSubsequence(patients, OwnedBy(professionalId));
    IdsOf(Filter(patients, OwnedBy(professionalId)))
  }

  /** Some patient in `patients` with id `patientId` belongs to `professionalId`. */
  predicate IsPatientOf(patients: seq<Patient>, professionalId: string, patientId: string) {
    exists p :: p in patients && p.professionalId == professionalId && p.id == patientId
  }

  lemma PatientIdsOfMembership(patients: seq<Patient>, professionalId: string, id: string)
    ensures id in PatientIdsOf(patients, professionalId) <==> IsPatientOf(patients, professionalId, id)
  {
    InIdsOf(Filter(patients, OwnedBy(professionalId)), id);
  }

  /** The professional cascade removes exactly the appointments whose patient
      belonged to the professional, whatever their own `professionalId`. */
  lemma CascadeRemovesExactlyTheirAppointments(patients: seq<Patient>, appointments: seq<Appointment>, professionalId: string)
    ensures var survivors := Filter(appointments, PatientIdNotIn(PatientIdsOf(patients, professionalId)));
      forall a :: a in survivors <==> a in appointments && !IsPatientOf(patients, professionalId, a.patientId)
  {
    forall a: Appointment {
      PatientIdsOfMembership(patients, professionalId, a.patientId);
    }
  }

  /** The patient side of the professional cascade: a patient survives unless
      a patient of the professional carries the same id. */
  lemma CascadeRemovesExactlyTheirPatients(patients: seq<Patient>, professionalId: string)
    ensures var survivors := Filter(patients, IdNotIn(PatientIdsOf(patients, professionalId)));
      forall p :: p in survivors <==> p in patients && !IsPatientOf(patients, professionalId, p.id)
  {
    forall p: Patient {
      PatientIdsOfMembership(patients, professionalId, p.id);
    }
  }

  /** An appointment booked with the professional whose patient belongs to
      someone else survives the cascade. */
  lemma CascadeSparesOtherPatientsAppointments(
    patients: seq<Patient>, appointments: seq<Appointment>, professionalId: string, a: Appointment)
    requires a in appointments && a.professionalId == professionalId
    requires forall p :: p in patients && p.id == a.patientId ==> p.professionalId != professionalId
    ensures a in Filter(appointments, PatientIdNotIn(PatientIdsOf(patients, professionalId)))
  {
    CascadeRemovesExactlyTheirAppointments(patients, appointments, professionalId);
  }

  /** When patient ids are unique, removing the professional's patients by id
      is the same as keeping the patients owned by someone else. */
  lemma CascadeWithUniqueIds(patients: seq<Patient>, professionalId: string)
    requires UniqueIds(patients)
    ensures Filter(patients, IdNotIn(PatientIdsOf(patients, professionalId)))
         == Filter(patients, NotOwnedBy(professionalId))
  {
    var doomed := PatientIdsOf(patients, professionalId);
    forall p | p in patients
      ensures IdNotIn(doomed)(p) == NotOwnedBy(professionalId)(p)
    {
      PatientIdsOfMembership(patients, professionalId, p.id);
      if IsPatientOf(patients, professionalId, p.id) {
        var q :| q in patients && q.professionalId == professionalId && q.id == p.id;
        var i :| 0 <= i < |patients| && patients[i] == p;
        var j :| 0 <= j < |patients| && patients[j] == q;
        assert i == j;
      }
    }
    FilterCongruent(patients, IdNotIn(doomed), NotOwnedBy(professionalId));
  }

  function IdInSet(ids: set<string>): Patient -> bool {
    (p: Patient) => p.id in ids
  }

  /** With unique patient ids, as many patients carry an id of `ids` as
      `ids` has members naming a patient. */
  lemma {:induction false} CountNamedPatients(patients: seq<Patient>, ids: set<string>)
    requires UniqueIds(patients)
    requires forall id :: id in ids ==> exists p :: p in patients && p.id == id
    ensures Count(patients, IdInSet(ids)) == |ids|
  {
    if patients == [] {
      assert forall id :: id !in ids;
      assert ids == {};
    } else {
      var first, rest := patients[0], patients[1..];
      assert UniqueIds(rest);
      var others := ids - {first.id};
      forall id | id in others ensures exists p :: p in rest && p.id == id {
        var p :| p in patients && p.id == id;
        var i :| 0 <= i < |patients| && patients[i] == p;
        assert i != 0;
        assert rest[i - 1] == p;
      }
      CountNamedPatients(rest, others);
      forall i | 0 <= i < |rest| ensures IdInSet(ids)(rest[i]) == IdInSet(others)(rest[i]) {
        assert rest[i] == patients[i + 1];
      }
      CountCongruent(rest, IdInSet(ids), IdInSet(others));
    }
  }

  /** Deleting `k` distinct ids of existing patients, when patient ids are
      unique, leaves exactly `k` fewer patients. */
  lemma DeleteShrinksByIdCount(patients: seq<Patient>, ids: seq<string>)
    requires UniqueIds(patients) && Distinct(ids)
    requires forall id :: id in ids ==> exists p :: p in patients && p.id == id
    ensures |Filter(patients, IdNotIn(ids))| == |patients| - |ids|
  {
    var named := set id | id in ids;
    DistinctCardinality(ids);
    CountNamedPatients(patients, named);
    CountComplement(patients, IdInSet(named), IdNotIn(ids));
    FilterIsSubsequence(patients, IdNotIn(ids));
  }

  /** The store. Each field is one storage key: `None` when nothing was ever
      written under it. */
  class Store {
    var professionals: Option<seq<Professional>>
    var patients: Option<seq<Patient>>
    var appointments: Option<seq<Appointment>>

    /** A store with nothing written under any key. */
    constructor ()
      ensures professionals.None? && patients.None? && appointments.None?
    {
      professionals, patients, appointments := None, None, None;
    }

    /** The stored collection; an absent key reads as empty. */
    function Professionals(): (records: seq<Professional>)
      reads this
      ensures professionals.None? ==> records == []
      ensures professionals.Some? ==> records == professionals.value
    {
      Load(professionals)
    }

    /** The stored collection; an absent key reads as empty. */
    function Patients(): (records: seq<Patient>)
      reads this
      ensures patients.None? ==> records == []
      ensures patients.Some? ==> records == patients.value
    {
      Load(patients)
    }

    /** The stored collection; an absent key reads as empty. */
    function Appointments(): (records: seq<Appointment>)
      reads this
      ensures appointments.None? ==> records == []
      ensures appointments.Some? ==> records == appointments.value
    {
      Load(appointments)
    }

    /** Seeds every key that is absent with its fixture and leaves present
        keys (even empty collections) alone. Afterwards every key is present,
        so a second run changes nothing. */
    method InitializeData(today: string)
      modifies this
      ensures professionals == SeedIfAbsent(old(professionals), SeedProfessionals())
      ensures patients == SeedIfAbsent(old(patients), SeedPatients())
      ensures appointments == SeedIfAbsent(old(appointments), SeedAppointments(today))
      ensures professionals.Some? && patients.Some? && appointments.Some?
      ensures old(professionals).Some? && old(patients).Some? && old(appointments).Some? ==> unchanged(this)
    {
      if professionals.None? {
        professionals := Some(SeedProfessionals());
      }
      if patients.None? {
        patients := Some(SeedPatients());
      }
      if appointments.None? {
        appointments := Some(SeedAppointments(today));
      }
    }

    /** The patients a professional owns, in storage order. */
    function PatientsByProfessional(professionalId: string): (owned: seq<Patient>)
      reads this
      ensures forall p :: p in owned <==> p in Patients() && p.professionalId == professionalId
      ensures IsSubsequence(owned, Patients())
      ensures |owned| == Count(Patients(), OwnedBy(professionalId))
    {
      FilterIsSubsequence(Patients(), OwnedBy(professionalId));
      Filter(Patients(), OwnedBy(professionalId))
    }

    /** The appointments whose own `professionalId` is the given one, in
        storage order. */
    function AppointmentsByProfessional(professionalId: string): (booked: seq<Appointment>)
      reads this
      ensures forall a :: a in booked <==> a in Appointments() && a.professionalId == professionalId
      ensures IsSubsequence(booked, Appointments())
      ensures |booked| == Count(Appointments(), BookedWith(professionalId))
    {
      FilterIsSubsequence(Appointments(), BookedWith(professionalId));
      Filter(Appointments(), BookedWith(professionalId))
    }

    method AddProfessional(name: string, specialty: string, now: nat) returns (created: Professional)
      modifies this
      ensures created == Professional(NewId(ProfessionalPrefix, now), name, specialty)
      ensures professionals == Some(old(Professionals()) + [created])
      ensures patients == old(patients) && appointments == old(appointments)
    {
      var current := Professionals();
      created := Professional(NewId(ProfessionalPrefix, now), name, specialty);
      professionals := Some(current + [created]);
    }

    method AddPatient(name: string, phone: string, email: string, professionalId: string, now: nat)
      returns (created: Patient)
      modifies this
      ensures created == Patient(NewId(PatientPrefix, now), name, phone, email, professionalId)
      ensures patients == Some(old(Patients()) + [created])
      ensures professionals == old(professionals) && appointments == old(appointments)
    {
      var current := Patients();
      created := Patient(NewId(PatientPrefix, now), name, phone, email, professionalId);
      patients := Some(current + [created]);
    }

    /** Replaces the first patient with the same id; without one, writes
        nothing. Appointments keep their copy of the old name. */
    method UpdatePatient(updated: Patient)
      modifies this
      ensures var k := FirstIndex(old(Patients()), PatientHasId(updated.id));
        && (k.None? ==> patients == old(patients))
        && (k.Some? ==> patients == Some(old(Patients())[k.value := updated]))
      ensures |Patients()| == |old(Patients())|
      ensures forall i :: 0 <= i < |Patients()| && Patients()[i] != old(Patients())[i] ==>
        Patients()[i] == updated && old(Patients())[i].id == updated.id
      ensures professionals == old(professionals) && appointments == old(appointments)
    {
      var current := Patients();
      var index := FirstIndex(current, PatientHasId(updated.id));
      if index.Some? {
        patients := Some(current[index.value := updated]);
      }
    }

    /** Removes every patient whose id is listed and every appointment of
        such a patient; an empty list writes nothing. */
    method DeleteMultiplePatients(ids: seq<string>)
      modifies this
      ensures ids == [] ==> unchanged(this)
      ensures ids != [] ==> patients == Some(Filter(old(Patients()), IdNotIn(ids)))
      ensures ids != [] ==> appointments == Some(Filter(old(Appointments()), PatientIdNotIn(ids)))
      ensures forall p :: p in Patients() <==> p in old(Patients()) && p.id !in ids
      ensures forall a :: a in Appointments() <==> a in old(Appointments()) && a.patientId !in ids
      ensures IsSubsequence(Patients(), old(Patients())) && IsSubsequence(Appointments(), old(Appointments()))
      ensures professionals == old(professionals)
    {
      if |ids| == 0 {
        SubsequenceOfItself(Patients());
        SubsequenceOfItself(Appointments());
        return;
      }
      var allPatients := Patients();
      FilterIsSubsequence(allPatients, IdNotIn(ids));
      patients := Some(Filter(allPatients, IdNotIn(ids)));
      var allAppointments := Appointments();
      FilterIsSubsequence(allAppointments, PatientIdNotIn(ids));
      appointments := Some(Filter(allAppointments, PatientIdNotIn(ids)));
    }

    /** Deletes the professional's patients (and with them their
        appointments), then every professional with that id. */
    method DeleteProfessional(id: string)
      modifies this
      ensures professionals == Some(Filter(old(Professionals()), ProfessionalIdIsNot(id)))
      ensures var doomed := PatientIdsOf(old(Patients()), id);
        && patients == (if doomed == [] then old(patients) else Some(Filter(old(Patients()), IdNotIn(doomed))))
        && appointments == (if doomed == [] then old(appointments)
                            else Some(Filter(old(Appointments()), PatientIdNotIn(doomed))))
      ensures forall p :: p in Professionals() <==> p in old(Professionals()) && p.id != id
      ensures forall p :: p in Patients() <==> p in old(Patients()) && !IsPatientOf(old(Patients()), id, p.id)
      ensures forall a :: a in Appointments() <==>
        a in old(Appointments()) && !IsPatientOf(old(Patients()), id, a.patientId)
    {
      var patientsOfProfessional := PatientsByProfessional(id);
      var patientIdsToDelete := IdsOf(patientsOfProfessional);
      ghost var before := Patients();
      ghost var beforeAppointments := Appointments();
      CascadeRemovesExactlyTheirPatients(before, id);
      CascadeRemovesExactlyTheirAppointments(before, beforeAppointments, id);
      if |patientIdsToDelete| > 0 {
        DeleteMultiplePatients(patientIdsToDelete);
      } else {
        FilterKeepsAll(before, IdNotIn(patientIdsToDelete));
      }
      var current := Professionals();
      professionals := Some(Filter(current, ProfessionalIdIsNot(id)));
    }

    /** Adds an appointment for an existing patient, copying the patient's
        current name into it. Without such a patient it fails and writes
        nothing. */
    method AddAppointment(
      patientId: string, professionalId: string, date: string, time: string,
      notes: string, sessionValue: Option<real>, now: nat)
      returns (result: Result<Appointment, StoreError>)
      modifies this
      ensures result.Failure? <==> forall p :: p in old(Patients()) ==> p.id != patientId
      ensures result.Failure? ==> result.error == PatientNotFound && unchanged(this)
      ensures result.Success? ==>
        var k := FirstIndex(old(Patients()), PatientHasId(patientId));
        && k.Some?
        && result.value == Appointment(NewId(AppointmentPrefix, now), patientId, old(Patients())[k.value].name,
                                       professionalId, date, time, notes, sessionValue)
        && appointments == Some(old(Appointments()) + [result.value])
        && professionals == old(professionals) && patients == old(patients)
    {
      var current := Appointments();
      var allPatients := Patients();
      var found := FirstIndex(allPatients, PatientHasId(patientId));
      if found.None? {
        return Failure(PatientNotFound);
      }
      var patient := allPatients[found.value];
      var created := Appointment(NewId(AppointmentPrefix, now), patientId, patient.name,
                                 professionalId, date, time, notes, sessionValue);
      appointments := Some(current + [created]);
      result := Success(created);
    }

    /** Looks the patient up first: without one it fails and writes nothing,
        whether or not the appointment exists. Otherwise it refreshes the
        argument's `patientName` from the patient and replaces the first
        appointment with the same id; without one it writes nothing. */
    method UpdateAppointment(updated: Appointment) returns (result: Result<Appointment, StoreError>)
      modifies this
      ensures result.Failure? <==> forall p :: p in old(Patients()) ==> p.id != updated.patientId
      ensures result.Failure? ==> result.error == PatientNotFound && unchanged(this)
      ensures result.Success? ==>
        var k := FirstIndex(old(Patients()), PatientHasId(updated.patientId));
        var j := FirstIndex(old(Appointments()), AppointmentHasId(updated.id));
        && k.Some?
        && result.value == updated.(patientName := old(Patients())[k.value].name)
        && (j.None? ==> appointments == old(appointments))
        && (j.Some? ==> appointments == Some(old(Appointments())[j.value := result.value]))
        && professionals == old(professionals) && patients == old(patients)
    {
      var current := Appointments();
      var allPatients := Patients();
      var found := FirstIndex(allPatients, PatientHasId(updated.patientId));
      if found.None? {
        return Failure(PatientNotFound);
      }
      var refreshed := updated.(patientName := allPatients[found.value].name);
      var index := FirstIndex(current, AppointmentHasId(refreshed.id));
      if index.Some? {
        appointments := Some(current[index.value := refreshed]);
      }
      result := Success(refreshed);
    }

    /** Removes every appointment with the given id. */
    method DeleteAppointment(id: string)
      modifies this
      ensures appointments == Some(Filter(old(Appointments()), AppointmentIdIsNot(id)))
      ensures forall a :: a in Appointments() <==> a in old(Appointments()) && a.id != id
      ensures IsSubsequence(Appointments(), old(Appointments()))
      ensures professionals == old(professionals) && patients == old(patients)
    {
      var current := Appointments();
      FilterIsSubsequence(current, AppointmentIdIsNot(id));
      appointments := Some(Filter(current, AppointmentIdIsNot(id)));
    }
  }
}
