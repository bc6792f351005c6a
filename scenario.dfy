/** The seeded store as a worked example of the professional cascade. */
module SeedScenario {
  import opened Sequences
  import opened Records
  import opened Seed
  import opened DataService

  lemma SeedOwnedByFirst()
    ensures Filter(SeedPatients(), OwnedBy("prof-1")) == SeedPatients()[..2]
    ensures PatientIdsOf(SeedPatients(), "prof-1") == ["pat-1", "pat-2"]
  {
    var s := SeedPatients();
    var p := OwnedBy("prof-1");
    assert Filter(s[4..], p) == [];
    assert Filter(s[3..], p) == [];
    assert Filter(s[2..], p) == [];
    assert Filter(s[1..], p) == [s[1]];
    assert Filter(s, p) == [s[0], s[1]];
    assert IdsOf([s[0], s[1]]) == ["pat-1", "pat-2"];
  }

  lemma SeedPatientSurvivors()
    ensures Filter(SeedPatients(), IdNotIn(["pat-1", "pat-2"])) == SeedPatients()[2..]
  {
    var s := SeedPatients();
    var p := IdNotIn(["pat-1", "pat-2"]);
    FilterKeepsAll(s[2..], p);
    assert Filter(s[1..], p) == s[2..];
  }

  lemma SeedAppointmentSurvivors(today: string)
    ensures Filter(SeedAppointments(today), PatientIdNotIn(["pat-1", "pat-2"])) == SeedAppointments(today)[2..]
  {
    var a := SeedAppointments(today);
    var p := PatientIdNotIn(["pat-1", "pat-2"]);
    FilterKeepsAll(a[2..], p);
    assert Filter(a[1..], p) == a[2..];
  }

  lemma SeedProfessionalSurvivors()
    ensures Filter(SeedProfessionals(), ProfessionalIdIsNot("prof-1")) == SeedProfessionals()[1..]
  {
    var f := SeedProfessionals();
    FilterKeepsAll(f[1..], ProfessionalIdIsNot("prof-1"));
  }

  /** On a freshly seeded store, `prof-1` owns João Pereira and Maria
      Oliveira; deleting `prof-1` removes them and their appointments
      `app-1` and `app-2`, and leaves the other two professionals. */
  method DeleteFirstSeededProfessional(today: string)
    returns (owned: seq<Patient>, professionals: seq<Professional>,
             patients: seq<Patient>, appointments: seq<Appointment>)
    ensures owned == [SeedPatients()[0], SeedPatients()[1]]
    ensures professionals == SeedProfessionals()[1..]
    ensures patients == SeedPatients()[2..]
    ensures appointments == SeedAppointments(today)[2..]
  {
    SeedOwnedByFirst();
    SeedPatientSurvivors();
    SeedAppointmentSurvivors(today);
    SeedProfessionalSurvivors();
    var store := new Store();
    store.InitializeData(today);
    owned := store.PatientsByProfessional("prof-1");
    store.DeleteProfessional("prof-1");
    professionals, patients, appointments := store.Professionals(), store.Patients(), store.Appointments();
  }
}
