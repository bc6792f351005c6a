/** The fixture the store is seeded with on first use: three professionals,
    five patients and four appointments. The appointments are dated on the
    day of seeding, which is a parameter. */
module Seed {
  import opened Wrappers
  import opened Records

  /** Three professionals with distinct ids. */
  function SeedProfessionals(): (professionals: seq<Professional>)
    ensures |professionals| == 3
    ensures forall i, j :: 0 <= i < j < |professionals| ==> professionals[i].id != professionals[j].id
  {
    [ Professional("prof-1", "Dr. Ana Silva", "Cardiologia"),
      Professional("prof-2", "Dr. Bruno Costa", "Dermatologia"),
      Professional("prof-3", "Dr. Carla Martins", "Psicologia") ]
  }

  /** Five patients with distinct ids. */
  function SeedPatients(): (patients: seq<Patient>)
    ensures |patients| == 5
    ensures UniqueIds(patients)
  {
    [ Patient("pat-1", "João Pereira", "11 98765-4321", "joao.p@example.com", "prof-1"),
      Patient("pat-2", "Maria Oliveira", "21 91234-5678", "maria.o@example.com", "prof-1"),
      Patient("pat-3", "Pedro Santos", "31 95555-4444", "pedro.s@example.com", "prof-2"),
      Patient("pat-4", "Lucia Fernandes", "41 94321-8765", "lucia.f@example.com", "prof-3"),
      Patient("pat-5", "Ricardo Alves", "51 98888-7777", "ricardo.a@example.com", "prof-3") ]
  }

  /** Four appointments dated `today`, with distinct ids. */
  function SeedAppointments(today: string): (appointments: seq<Appointment>)
    ensures |appointments| == 4
    ensures forall i, j :: 0 <= i < j < |appointments| ==> appointments[i].id != appointments[j].id
    ensures forall a :: a in appointments ==> a.date == today
  {
    [ Appointment("app-1", "pat-1", "João Pereira", "prof-1", today, "09:00", "Consulta de rotina", Some(200.0)),
      Appointment("app-2", "pat-2", "Maria Oliveira", "prof-1", today, "10:00", "Retorno", Some(150.0)),
      Appointment("app-3", "pat-3", "Pedro Santos", "prof-2", today, "14:00", "Primeira consulta", Some(250.0)),
      Appointment("app-4", "pat-4", "Lucia Fernandes", "prof-3", today, "11:00", "Sessão de terapia", Some(180.0)) ]
  }

  /** The fixture is referentially consistent: every seeded patient is owned
      by a seeded professional, and every seeded appointment names a seeded
      patient by id, carries that patient's name and is booked with that
      patient's professional. */
  lemma SeedReferencesResolve(today: string)
    ensures forall p :: p in SeedPatients() ==>
      exists q :: q in SeedProfessionals() && q.id == p.professionalId
    ensures forall a :: a in SeedAppointments(today) ==>
      exists p :: p in SeedPatients() && p.id == a.patientId && p.name == a.patientName &&
        p.professionalId == a.professionalId
  {
    var professionals, patients := SeedProfessionals(), SeedPatients();
    assert professionals[0] in professionals && professionals[1] in professionals;
    assert professionals[2] in professionals;
    assert patients[0] in patients && patients[1] in patients;
    assert patients[2] in patients && patients[3] in patients;
  }
}
