/** The three record shapes of the clinic's data store. */
module Records {
  import opened Wrappers

  datatype Professional = Professional(id: string, name: string, specialty: string)

  /** A patient, owned by the professional `professionalId`. */
  datatype Patient = Patient(
    id: string,
    name: string,
    phone: string,
    email: string,
    professionalId: string)

  /** An appointment. `patientName` is a copy of the patient's name taken when
      the appointment was last written; `sessionValue` is an optional amount. */
  datatype Appointment = Appointment(
    id: string,
    patientId: string,
    patientName: string,
    professionalId: string,
    date: string,
    time: string,
    notes: string,
    sessionValue: Option<real>)

  /** The ids of `patients`, position by position (`patients.map(p => p.id)`). */
  function IdsOf(patients: seq<Patient>): (ids: seq<string>)
    ensures |ids| == |patients|
    ensures forall i :: 0 <= i < |patients| ==> ids[i] == patients[i].id
  {
    seq(|patients|, i requires 0 <= i < |patients| => patients[i].id)
  }

  lemma InIdsOf(patients: seq<Patient>, id: string)
    ensures id in IdsOf(patients) <==> exists p :: p in patients && p.id == id
  {
    var ids := IdsOf(patients);
    if id in ids {
      var i :| 0 <= i < |ids| && ids[i] == id;
      assert patients[i] in patients;
    }
    if p :| p in patients && p.id == id {
      var i :| 0 <= i < |patients| && patients[i] == p;
      assert ids[i] == id;
    }
  }

  /** No two patients share an id. */
  predicate UniqueIds(patients: seq<Patient>) {
    forall i, j :: 0 <= i < j < |patients| ==> patients[i].id != patients[j].id
  }
}
