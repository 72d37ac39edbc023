/** The patient registry: the list of patient records and the reducers that change it
    (`src/store/slices/patientSlice.js`). */
module PatientSlice {
  import opened Wrappers
  import opened Seqs

  /** A patient record. `age` and `doctorId` are what `parseInt` produced at registration,
      `None` standing for NaN; `selectedMedicines` is `None` when the stored value is not an
      array. `status` is a free string: `updatePatientStatus` stores whatever it is given. */
  datatype Patient = Patient(
    id: int,
    name: string,
    age: Option<int>,
    details: string,
    priority: string,
    doctorId: Option<int>,
    status: string,
    selectedMedicines: Option<seq<int>>,
    prescriptionPrinted: bool,
    registrationTime: string)

  /** The payload of `addPatient`, as the registration form builds it. */
  datatype PatientData = PatientData(
    name: string,
    age: Option<int>,
    details: string,
    priority: string,
    doctorId: Option<int>,
    registrationTime: string)

  const Pending: string := "pending"

  /** The record `addPatient` appends: the payload's fields, then the reducer's own `id`,
      `status`, `selectedMedicines`, `prescriptionPrinted` and `registrationTime`, which win
      over the payload's (`id` comes from the clock, `now` is the clock's ISO string). */
  function NewPatient(data: PatientData, id: int, now: string): (p: Patient)
    ensures p.id == id && p.registrationTime == now
    ensures p.status == Pending && p.selectedMedicines == Some([]) && !p.prescriptionPrinted
    ensures p.name == data.name && p.age == data.age && p.details == data.details
    ensures p.priority == data.priority && p.doctorId == data.doctorId
  {
    Patient(id, data.name, data.age, data.details, data.priority, data.doctorId,
            Pending, Some([]), false, now)
  }

  predicate HasId(id: int, p: Patient) {
    p.id == id
  }

  predicate LacksId(id: int, p: Patient) {
    p.id != id
  }

  /** The position of the record `state.patients.find(p => p.id === patientId)` returns. */
  function PatientIndex(patients: seq<Patient>, patientId: int): Option<nat> {
    Find(patients, p => HasId(patientId, p))
  }

  /** A record is pending for a doctor: `p.doctorId === doctorId && p.status === 'pending'`. */
  predicate IsPendingFor(doctorId: int, p: Patient) {
    p.doctorId == Some(doctorId) && p.status == Pending
  }

  /** The new list after `updatePatientStatus`: the first record with the id gets the status. */
  function WithStatus(patients: seq<Patient>, patientId: int, status: string): (r: seq<Patient>)
    ensures |r| == |patients|
    ensures forall j :: 0 <= j < |r| && PatientIndex(patients, patientId) != Some(j) ==> r[j] == patients[j]
    ensures PatientIndex(patients, patientId).Some? ==>
              var i := PatientIndex(patients, patientId).value;
              r[i].status == status && r[i].(status := patients[i].status) == patients[i]
  {
    match PatientIndex(patients, patientId)
    case None => patients
    case Some(i) => patients[i := patients[i].(status := status)]
  }

  /** The new list after `selectMedicines`: the first record with the id gets the list. */
  function WithMedicines(patients: seq<Patient>, patientId: int, medicines: Option<seq<int>>): (r: seq<Patient>)
    ensures |r| == |patients|
    ensures forall j :: 0 <= j < |r| && PatientIndex(patients, patientId) != Some(j) ==> r[j] == patients[j]
    ensures PatientIndex(patients, patientId).Some? ==>
              var i := PatientIndex(patients, patientId).value;
              r[i].selectedMedicines == medicines
              && r[i].(selectedMedicines := patients[i].selectedMedicines) == patients[i]
  {
    match PatientIndex(patients, patientId)
    case None => patients
    case Some(i) => patients[i := patients[i].(selectedMedicines := medicines)]
  }

  /** The new list after `markPrescriptionPrinted`: the first record with the id is printed. */
  function WithPrinted(patients: seq<Patient>, patientId: int): (r: seq<Patient>)
    ensures |r| == |patients|
    ensures forall j :: 0 <= j < |r| && PatientIndex(patients, patientId) != Some(j) ==> r[j] == patients[j]
    ensures PatientIndex(patients, patientId).Some? ==>
              var i := PatientIndex(patients, patientId).value;
              r[i].prescriptionPrinted
              && r[i].(prescriptionPrinted := patients[i].prescriptionPrinted) == patients[i]
  {
    match PatientIndex(patients, patientId)
    case None => patients
    case Some(i) => patients[i := patients[i].(prescriptionPrinted := true)]
  }

  /** The new list after `removePatient`: `filter(p => p.id !== patientId)`. */
  function WithoutPatient(patients: seq<Patient>, patientId: int): (r: seq<Patient>)
    ensures |r| <= |patients|
    ensures forall p :: p in r <==> p in patients && p.id != patientId
    ensures multiset(r) <= multiset(patients)
  {
    FilterMembers(patients, p => LacksId(patientId, p));
    FilterSubMultiset(patients, p => LacksId(patientId, p));
    Filter(patients, p => LacksId(patientId, p))
  }

  /** `selectPatientsByDoctor(doctorId)`: the pending records of one doctor, in order. */
  function SelectPatientsByDoctor(patients: seq<Patient>, doctorId: int): (r: seq<Patient>)
    ensures |r| <= |patients|
    ensures forall p :: p in r <==> p in patients && p.doctorId == Some(doctorId) && p.status == Pending
    ensures multiset(r) <= multiset(patients)
  {
    FilterMembers(patients, p => IsPendingFor(doctorId, p));
    FilterSubMultiset(patients, p => IsPendingFor(doctorId, p));
    Filter(patients, p => IsPendingFor(doctorId, p))
  }

  /** The `patients` slice. `selectAllPatients` is the field itself: the `|| []` fallback
      only guards a slice that a typed state always has. */
  class PatientState {
    var patients: seq<Patient>

    /** The initial state holds no patient. */
    constructor ()
      ensures patients == []
    {
      patients := [];
    }

    /** `addPatient`: append one new pending record; nothing before it changes. */
    method AddPatient(data: PatientData, id: int, now: string)
      modifies this
      ensures patients == old(patients) + [NewPatient(data, id, now)]
    {
      patients := patients + [NewPatient(data, id, now)];
    }

    /** `updatePatientStatus`: find the first record with the id and set its status. */
    method UpdatePatientStatus(patientId: int, status: string)
      modifies this
      ensures patients == WithStatus(old(patients), patientId, status)
    {
      match PatientIndex(patients, patientId) {
        case Some(i) =>
          patients := patients[i := patients[i].(status := status)];
        case None =>
      }
    }

    /** `selectMedicines`: find the first record with the id and replace its medicine list. */
    method SelectMedicines(patientId: int, medicines: Option<seq<int>>)
      modifies this
      ensures patients == WithMedicines(old(patients), patientId, medicines)
    {
      match PatientIndex(patients, patientId) {
        case Some(i) =>
          patients := patients[i := patients[i].(selectedMedicines := medicines)];
        case None =>
      }
    }

    /** `markPrescriptionPrinted`: find the first record with the id and flag it printed,
        whatever its medicine list holds. */
    method MarkPrescriptionPrinted(patientId: int)
      modifies this
      ensures patients == WithPrinted(old(patients), patientId)
    {
      match PatientIndex(patients, patientId) {
        case Some(i) =>
          patients := patients[i := patients[i].(prescriptionPrinted := true)];
        case None =>
      }
    }

    /** `removePatient`: drop every record with the id. */
    method RemovePatient(patientId: int)
      modifies this
      ensures patients == WithoutPatient(old(patients), patientId)
    {
      patients := WithoutPatient(patients, patientId);
    }
  }

  // ---------------------------------------------------------------------------
  // Properties of the reducers

  /** `addPatient` grows the list by exactly one pending, unprinted record with no
      medicines, at the end, and leaves every earlier record as it was. */
  lemma AddPatientAppends(patients: seq<Patient>, data: PatientData, id: int, now: string)
    ensures var r := patients + [NewPatient(data, id, now)];
            |r| == |patients| + 1 && r[..|patients|] == patients
            && r[|patients|].status == Pending && r[|patients|].selectedMedicines == Some([])
            && !r[|patients|].prescriptionPrinted
  {
    var r := patients + [NewPatient(data, id, now)];
    assert r[..|patients|] == patients;
  }

  /** The payload's own registration time never reaches the record. */
  lemma NewPatientOverridesPayloadTime(data: PatientData, time: string, id: int, now: string)
    ensures NewPatient(data.(registrationTime := time), id, now) == NewPatient(data, id, now)
  {
  }

  /** The three field updates keep every id where it was, so later lookups by id find the
      same positions as before. */
  lemma {:induction false} UpdatesKeepLookups(patients: seq<Patient>, patientId: int, status: string,
                                              medicines: Option<seq<int>>, other: int)
    ensures PatientIndex(WithStatus(patients, patientId, status), other) == PatientIndex(patients, other)
    ensures PatientIndex(WithMedicines(patients, patientId, medicines), other) == PatientIndex(patients, other)
    ensures PatientIndex(WithPrinted(patients, patientId), other) == PatientIndex(patients, other)
  {
    var f := (p: Patient) => HasId(other, p);
    FindAgree(WithStatus(patients, patientId, status), patients, f);
    FindAgree(WithMedicines(patients, patientId, medicines), patients, f);
    FindAgree(WithPrinted(patients, patientId), patients, f);
    assert PatientIndex(patients, other) == Find(patients, f);
  }

  /** `markPrescriptionPrinted` is idempotent. */
  lemma MarkPrintedIdempotent(patients: seq<Patient>, patientId: int)
    ensures WithPrinted(WithPrinted(patients, patientId), patientId) == WithPrinted(patients, patientId)
  {
    UpdatesKeepLookups(patients, patientId, "", None, patientId);
  }

  /** `markPrescriptionPrinted` flags the record even when no medicine was selected for it:
      the reducer checks nothing but the id. */
  lemma MarkPrintedIgnoresMedicines(patients: seq<Patient>, patientId: int)
    requires PatientIndex(patients, patientId).Some?
    requires patients[PatientIndex(patients, patientId).value].selectedMedicines == Some([])
    ensures var i := PatientIndex(patients, patientId).value;
            WithPrinted(patients, patientId)[i].prescriptionPrinted
            && WithPrinted(patients, patientId)[i].selectedMedicines == Some([])
  {
  }

  /** An id no record carries makes every field update a no-op. */
  lemma UpdatesOfAbsentId(patients: seq<Patient>, patientId: int, status: string, medicines: Option<seq<int>>)
    requires forall p :: p in patients ==> p.id != patientId
    ensures WithStatus(patients, patientId, status) == patients
    ensures WithMedicines(patients, patientId, medicines) == patients
    ensures WithPrinted(patients, patientId) == patients
  {
  }

  /** `removePatient` removes exactly the records with the id: membership both ways,
      multiplicity, and the order of what stays. */
  lemma RemoveSpec(patients: seq<Patient>, patientId: int, q: Patient)
    ensures q in WithoutPatient(patients, patientId) <==> q in patients && q.id != patientId
    ensures multiset(WithoutPatient(patients, patientId))[q]
            == if q.id != patientId then multiset(patients)[q] else 0
    ensures IsSubsequence(WithoutPatient(patients, patientId), patients)
  {
    FilterMembership(patients, p => LacksId(patientId, p), q);
    FilterCount(patients, p => LacksId(patientId, p), q);
    FilterIsSubsequence(patients, p => LacksId(patientId, p));
  }

  /** Removing twice is removing once. */
  lemma RemoveIdempotent(patients: seq<Patient>, patientId: int)
    ensures WithoutPatient(WithoutPatient(patients, patientId), patientId) == WithoutPatient(patients, patientId)
  {
    var r := WithoutPatient(patients, patientId);
    FilterKeepsAll(r, p => LacksId(patientId, p));
  }

  /** Removing an id no record carries leaves the list as it was. */
  lemma RemoveAbsent(patients: seq<Patient>, patientId: int)
    requires forall p :: p in patients ==> p.id != patientId
    ensures WithoutPatient(patients, patientId) == patients
  {
    FilterKeepsAll(patients, p => LacksId(patientId, p));
  }

  /** `selectPatientsByDoctor` keeps exactly the doctor's pending records, each as often
      as it occurs, in store order. */
  lemma SelectByDoctorSpec(patients: seq<Patient>, doctorId: int, q: Patient)
    ensures q in SelectPatientsByDoctor(patients, doctorId) <==> q in patients && IsPendingFor(doctorId, q)
    ensures multiset(SelectPatientsByDoctor(patients, doctorId))[q]
            == if IsPendingFor(doctorId, q) then multiset(patients)[q] else 0
    ensures IsSubsequence(SelectPatientsByDoctor(patients, doctorId), patients)
  {
    FilterMembership(patients, p => IsPendingFor(doctorId, p), q);
    FilterCount(patients, p => IsPendingFor(doctorId, p), q);
    FilterIsSubsequence(patients, p => IsPendingFor(doctorId, p));
  }
}
