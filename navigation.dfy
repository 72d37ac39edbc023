/** The navigation bar (`src/components/Navigation.js`): the switch between the
    registration form and a doctor's panel, and the per-doctor count of waiting patients
    shown in the doctor picker. */
module Navigation {
  import opened Wrappers
  import opened Seqs
  import opened Js
  import opened PatientSlice
  import opened PatientQueue

  /** `patient.doctorId === parseInt(doctorId) && patient.status === 'pending'`, with the
      numeric `doctorId` parsed from its decimal text. */
  predicate CountedFor(doctorId: int, p: Patient) {
    p.doctorId == ParseInt(IntToString(doctorId)) && p.status == Pending
  }

  function CountFilter(doctorId: int): Patient -> bool {
    p => CountedFor(doctorId, p)
  }

  /** `getPatientCount`: zero for a falsy id, otherwise the number of records counted for
      the doctor. */
  function GetPatientCount(patients: seq<Patient>, doctorId: int): (count: nat)
    ensures count <= |patients|
    ensures doctorId == 0 ==> count == 0
  {
    if doctorId == 0 then 0 else |Filter(patients, CountFilter(doctorId))|
  }

  /** For a truthy id the count is the number of the doctor's pending records: the length
      of `selectPatientsByDoctor`. */
  lemma PatientCountIsPending(patients: seq<Patient>, doctorId: int)
    requires doctorId != 0
    ensures GetPatientCount(patients, doctorId) == |SelectPatientsByDoctor(patients, doctorId)|
  {
    ParseIntRoundTrip(doctorId);
    FilterAgree(patients, CountFilter(doctorId), p => IsPendingFor(doctorId, p));
  }

  /** The panel's queue never lists more patients than the picker counts for the doctor. */
  lemma QueueWithinCount(patients: seq<Patient>, doctorId: int, searchTerm: string)
    ensures |Queue(patients, Some(doctorId), searchTerm)| <= GetPatientCount(patients, doctorId)
  {
    if doctorId != 0 {
      var c := Candidates(patients, doctorId, searchTerm);
      QueueIsSortedCandidates(patients, doctorId, searchTerm);
      assert |SortByPriority(c)| == |multiset(SortByPriority(c))| == |multiset(c)| == |c|;
      FilterMonotone(patients, QueueFilter(doctorId, searchTerm), p => IsPendingFor(doctorId, p));
      PatientCountIsPending(patients, doctorId);
    }
  }

  /** Registering a patient for a doctor raises that doctor's count by one and leaves every
      other doctor's count as it was. */
  lemma RegistrationRaisesCount(patients: seq<Patient>, data: PatientData, id: int, now: string, doctorId: int)
    requires doctorId != 0
    ensures GetPatientCount(patients + [NewPatient(data, id, now)], doctorId)
            == GetPatientCount(patients, doctorId) + if data.doctorId == Some(doctorId) then 1 else 0
  {
    var p := NewPatient(data, id, now);
    ParseIntRoundTrip(doctorId);
    FilterConcat(patients, [p], CountFilter(doctorId));
    assert [p][1..] == [];
  }

  /** Marking a patient as done never raises a count. */
  lemma {:induction false} RemovalNeverRaisesCount(patients: seq<Patient>, patientId: int, doctorId: int)
    ensures GetPatientCount(WithoutPatient(patients, patientId), doctorId) <= GetPatientCount(patients, doctorId)
  {
    if doctorId != 0 && patients != [] {
      var rest := patients[1..];
      RemovalNeverRaisesCount(rest, patientId, doctorId);
      assert patients == [patients[0]] + rest;
      FilterConcat([patients[0]], rest, p => LacksId(patientId, p));
      var kept := Filter([patients[0]], p => LacksId(patientId, p));
      assert [patients[0]][1..] == [];
      FilterConcat(kept, WithoutPatient(rest, patientId), CountFilter(doctorId));
      FilterConcat([patients[0]], rest, CountFilter(doctorId));
      if kept != [] {
        assert kept == [patients[0]];
      }
    }
  }

  /** What the doctor picker's `parseInt` makes of an option: an option carrying a doctor
      id reads back as that id, truthy exactly when it is not 0; the placeholder option's
      empty value reads as NaN. */
  lemma DoctorOptionValues(doctorId: int)
    ensures ParseInt(IntToString(doctorId)) == Some(doctorId)
    ensures Truthy(ParseInt(IntToString(doctorId))) <==> doctorId != 0
    ensures ParseInt("") == None
  {
    ParseIntRoundTrip(doctorId);
  }

  datatype View = Registration | DoctorView

  /** The navigation's state: which view is shown and which doctor is picked (`None`
      stands for both `null` and NaN, the two falsy non-numbers it can hold). */
  class Navigation {
    var currentView: View
    var selectedDoctor: Option<int>

    /** A doctor's panel is only shown for a truthy doctor id. */
    predicate Valid()
      reads this
    {
      currentView == DoctorView ==> Truthy(selectedDoctor)
    }

    /** The app starts on the registration form with no doctor picked. */
    constructor ()
      ensures currentView == Registration && selectedDoctor == None
      ensures Valid()
    {
      currentView := Registration;
      selectedDoctor := None;
    }

    /** The "Patient Registration" button, and the "Go to Patient Registration" button of
        the doctor view without a doctor: show the form and clear the doctor. */
    method ShowRegistration()
      modifies this
      ensures currentView == Registration && selectedDoctor == None
      ensures Valid()
    {
      currentView := Registration;
      selectedDoctor := None;
    }

    /** The doctor picker's change handler: keep `parseInt` of the chosen value and show
        the doctor's panel when it is truthy, the registration form otherwise. */
    method SelectDoctor(value: string)
      modifies this
      ensures selectedDoctor == ParseInt(value)
      ensures currentView == if Truthy(ParseInt(value)) then DoctorView else Registration
      ensures Valid()
    {
      var doctorId := ParseInt(value);
      selectedDoctor := doctorId;
      if Truthy(doctorId) {
        currentView := DoctorView;
      } else {
        currentView := Registration;
      }
    }
  }
}
