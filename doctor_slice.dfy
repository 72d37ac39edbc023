/** The doctor catalog (`src/store/slices/doctorSlice.js`): a seeded list with an append
    operation and a lookup by id. */
module DoctorSlice {
  import opened Wrappers
  import opened Seqs

  datatype Doctor = Doctor(id: int, name: string, specialization: string)

  /** The five doctors every run starts with. */
  const InitialDoctors: seq<Doctor> := [
    Doctor(1, "Dr. Smith", "Ophthalmology"),
    Doctor(2, "Dr. Johnson", "Retina Specialist"),
    Doctor(3, "Dr. Williams", "Glaucoma Specialist"),
    Doctor(4, "Dr. Brown", "Pediatric Ophthalmology"),
    Doctor(5, "Dr. Davis", "Cornea Specialist")
  ]

  predicate DoctorHasId(id: int, d: Doctor) {
    d.id == id
  }

  /** `selectDoctorById`: the first doctor carrying the id, or nothing. */
  function SelectDoctorById(doctors: seq<Doctor>, doctorId: int): (r: Option<Doctor>)
    ensures r.Some? <==> exists i :: 0 <= i < |doctors| && doctors[i].id == doctorId
    ensures r.Some? ==> r.value.id == doctorId
    ensures r.Some? ==> exists i :: 0 <= i < |doctors| && doctors[i] == r.value
                                     && forall j :: 0 <= j < i ==> doctors[j].id != doctorId
  {
    match Find(doctors, d => DoctorHasId(doctorId, d))
    case None => None
    case Some(i) => Some(doctors[i])
  }

  /** The `doctors` slice. */
  class DoctorState {
    var doctors: seq<Doctor>

    constructor ()
      ensures doctors == InitialDoctors
    {
      doctors := InitialDoctors;
    }

    /** `addDoctor`: append the payload as it is; nothing is checked. */
    method AddDoctor(doctor: Doctor)
      modifies this
      ensures doctors == old(doctors) + [doctor]
    {
      doctors := doctors + [doctor];
    }
  }

  /** The seed holds five doctors whose ids are 1 to 5, so no two share an id. */
  lemma InitialDoctorIds()
    ensures |InitialDoctors| == 5
    ensures forall i :: 0 <= i < 5 ==> InitialDoctors[i].id == i + 1
    ensures forall i, j :: 0 <= i < j < |InitialDoctors| ==> InitialDoctors[i].id != InitialDoctors[j].id
  {
  }

  /** Appending a doctor keeps every earlier lookup; a doctor appended with an id already in
      use is never found, and one with a new id is found. */
  lemma AddDoctorLookup(doctors: seq<Doctor>, doctor: Doctor, doctorId: int)
    ensures SelectDoctorById(doctors + [doctor], doctorId)
            == if SelectDoctorById(doctors, doctorId).Some? then SelectDoctorById(doctors, doctorId)
               else if doctor.id == doctorId then Some(doctor) else None
  {
    var f := (d: Doctor) => DoctorHasId(doctorId, d);
    FindAppend(doctors, doctor, f);
    assert SelectDoctorById(doctors, doctorId) == match Find(doctors, f)
      case None => None
      case Some(i) => Some(doctors[i]);
    match Find(doctors, f) {
      case Some(i) =>
        assert (doctors + [doctor])[i] == doctors[i];
      case None =>
        assert (doctors + [doctor])[|doctors|] == doctor;
    }
  }
}
