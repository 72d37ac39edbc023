/** The front desk's registration form (`src/components/PatientRegistrationForm.js`): the
    five fields the receptionist types or picks, their validation, and the submission that
    appends a pending record to the patient store. */
module RegistrationForm {
  import opened Wrappers
  import opened Seqs
  import opened Js
  import opened PatientSlice
  import opened PatientQueue

  datatype Field = Name | Age | Details | Priority | DoctorId

  /** The form's values, as the inputs hold them: all strings. */
  datatype FormData = FormData(name: string, age: string, details: string, priority: string, doctorId: string)

  const NameRequired: string := "Name is required"
  const AgeRequired: string := "Age is required"
  const AgeOutOfRange: string := "Please enter a valid age (1-120)"
  const DetailsRequired: string := "Details are required"
  const DoctorRequired: string := "Please select a doctor"

  /** The initial and the reset form: empty fields, priority Medium. */
  const EmptyForm: FormData := FormData("", "", "", "Medium", "")

  function Get(form: FormData, field: Field): string {
    match field
    case Name => form.name
    case Age => form.age
    case Details => form.details
    case Priority => form.priority
    case DoctorId => form.doctorId
  }

  /** `{ ...prev, [name]: value }`: the named field gets the value, the others stay. */
  function SetField(form: FormData, field: Field, value: string): (r: FormData)
    ensures Get(r, field) == value
    ensures forall other :: other != field ==> Get(r, other) == Get(form, other)
  {
    match field
    case Name => form.(name := value)
    case Age => form.(age := value)
    case Details => form.(details := value)
    case Priority => form.(priority := value)
    case DoctorId => form.(doctorId := value)
  }

  /** The age range check applied to `Number(age)`: `isNaN`, `< 1` and `> 120` all fail
      outside the finite values from 1 to 120 (NaN compares false, the infinities fall on
      either side). */
  predicate AgeInRange(n: Number) {
    n.Finite? && 1.0 <= n.value <= 120.0
  }

  /** The message one field gets, if any, given `Number(age)` as `ageNumber`. */
  function FieldError(form: FormData, ageNumber: Number, field: Field): Option<string> {
    match field
    case Name => if IsBlank(form.name) then Some(NameRequired) else None
    case Age =>
      if form.age == "" then Some(AgeRequired)
      else if !AgeInRange(ageNumber) then Some(AgeOutOfRange)
      else None
    case Details => if IsBlank(form.details) then Some(DetailsRequired) else None
    case Priority => None
    case DoctorId => if form.doctorId == "" then Some(DoctorRequired) else None
  }

  const AllFields: set<Field> := {Name, Age, Details, Priority, DoctorId}

  /** The error map for the form with `Number(age)` given as `ageNumber`: every failing
      field with its message. */
  function Errors(form: FormData, ageNumber: Number): map<Field, string> {
    map field | field in AllFields && FieldError(form, ageNumber, field).Some? :: FieldError(form, ageNumber, field).value
  }

  /** `validateForm`'s error map. */
  function Validate(form: FormData): (errors: map<Field, string>)
    ensures Priority !in errors
    ensures forall field :: field in errors ==> errors[field] != ""
  {
    Errors(form, ToNumber(form.age))
  }

  /** The submitted payload: the form's fields, with age and doctor id integer-parsed and
      the submission time. */
  function BuildPatientData(form: FormData, submitTime: string): (d: PatientData)
    ensures d.name == form.name && d.details == form.details && d.priority == form.priority
    ensures d.age == ParseInt(form.age) && d.doctorId == ParseInt(form.doctorId)
    ensures d.registrationTime == submitTime
  {
    PatientData(form.name, ParseInt(form.age), form.details, form.priority, ParseInt(form.doctorId), submitTime)
  }

  // ---------------------------------------------------------------------------
  // The validation rules

  /** Every field fails alone: each failing field has its own message in the map, each
      passing field is absent. */
  lemma ValidateEveryField(form: FormData, field: Field)
    ensures field in Validate(form) <==> FieldError(form, ToNumber(form.age), field).Some?
    ensures field in Validate(form) ==> Validate(form)[field] == FieldError(form, ToNumber(form.age), field).value
  {
  }

  /** Name and details fail exactly when `trim()` leaves nothing, that is when they are
      empty or only white space. */
  lemma BlankFieldRules(form: FormData)
    ensures Name in Validate(form) <==> Trim(form.name) == []
    ensures Details in Validate(form) <==> Trim(form.details) == []
    ensures Name in Validate(form) <==> forall i :: 0 <= i < |form.name| ==> IsWhiteSpace(form.name[i])
    ensures Name in Validate(form) ==> Validate(form)[Name] == NameRequired
    ensures Details in Validate(form) ==> Validate(form)[Details] == DetailsRequired
  {
    BlankIffTrimEmpty(form.name);
    BlankIffTrimEmpty(form.details);
  }

  /** The age gets at most one message: "required" for an empty value, the range message
      for any other value whose number is not within 1 to 120. */
  lemma AgeRule(form: FormData)
    ensures Age in Validate(form) <==> form.age == "" || !AgeInRange(ToNumber(form.age))
    ensures form.age == "" ==> Validate(form)[Age] == AgeRequired
    ensures form.age != "" && !AgeInRange(ToNumber(form.age)) ==> Validate(form)[Age] == AgeOutOfRange
  {
  }

  /** A whole number typed as its numeral passes exactly when it lies within 1 to 120. */
  lemma WholeAgeRule(form: FormData, n: int)
    requires form.age == IntToString(n)
    ensures Age !in Validate(form) <==> 1 <= n <= 120
  {
    ToNumberRoundTrip(n);
    assert form.age != "" by {
      if n < 0 { assert |form.age| >= 1; } else { assert |NatToString(n)| >= 1; }
    }
  }

  /** The doctor field only has to be non-empty: no catalog lookup is made, so an id no
      doctor carries passes. */
  lemma DoctorRule(form: FormData)
    ensures DoctorId in Validate(form) <==> form.doctorId == ""
  {
  }

  /** No error exactly when every rule passes, whatever the age's number. */
  lemma ErrorsEmptyIff(form: FormData, ageNumber: Number)
    ensures Errors(form, ageNumber) == map[] <==>
              !IsBlank(form.name) && form.age != "" && AgeInRange(ageNumber)
              && !IsBlank(form.details) && form.doctorId != ""
  {
    var errors := Errors(form, ageNumber);
    if !IsBlank(form.name) && form.age != "" && AgeInRange(ageNumber) && !IsBlank(form.details) && form.doctorId != "" {
      forall field | field in AllFields ensures FieldError(form, ageNumber, field).None? {
      }
      assert errors.Keys == {};
    } else if IsBlank(form.name) {
      assert Name in errors;
    } else if form.age == "" || !AgeInRange(ageNumber) {
      assert Age in errors;
    } else if IsBlank(form.details) {
      assert Details in errors;
    } else {
      assert DoctorId in errors;
    }
  }

  /** The form is valid exactly when every rule passes. */
  lemma ValidIffAllRulesPass(form: FormData)
    ensures Validate(form) == map[] <==>
              !IsBlank(form.name) && form.age != "" && AgeInRange(ToNumber(form.age))
              && !IsBlank(form.details) && form.doctorId != ""
  {
    ErrorsEmptyIff(form, ToNumber(form.age));
  }

  /** The reset form fails on name, age, details and doctor, with their messages. */
  lemma EmptyFormErrors()
    ensures Validate(EmptyForm) == map[Name := NameRequired, Age := AgeRequired,
                                        Details := DetailsRequired, DoctorId := DoctorRequired]
  {
    var expected := map[Name := NameRequired, Age := AgeRequired,
                        Details := DetailsRequired, DoctorId := DoctorRequired];
    var errors := Errors(EmptyForm, ToNumber(EmptyForm.age));
    assert IsBlank(EmptyForm.name) && IsBlank(EmptyForm.details);
    assert errors.Keys == expected.Keys;
    forall field | field in errors ensures errors[field] == expected[field] {
    }
  }

  // ---------------------------------------------------------------------------
  // The submitted record

  /** A valid form whose age and doctor are whole numerals stores exactly those numbers. */
  lemma SubmittedNumbers(form: FormData, submitTime: string, age: int, doctorId: int)
    requires form.age == IntToString(age) && form.doctorId == IntToString(doctorId)
    requires Validate(form) == map[]
    ensures BuildPatientData(form, submitTime).age == Some(age) && 1 <= age <= 120
    ensures BuildPatientData(form, submitTime).doctorId == Some(doctorId)
  {
    ParseIntRoundTrip(age);
    ParseIntRoundTrip(doctorId);
    WholeAgeRule(form, age);
  }

  /** A patient registered from a valid form, picked for a doctor with a non-zero id,
      appears in that doctor's queue while the search is blank. */
  lemma RegisteredPatientJoinsQueue(patients: seq<Patient>, form: FormData, submitTime: string, id: int,
                                    now: string, doctorId: int, searchTerm: string)
    requires Validate(form) == map[] && form.doctorId == IntToString(doctorId) && doctorId != 0
    requires IsBlank(searchTerm)
    ensures NewPatient(BuildPatientData(form, submitTime), id, now)
            in Queue(patients + [NewPatient(BuildPatientData(form, submitTime), id, now)], Some(doctorId), searchTerm)
  {
    var p := NewPatient(BuildPatientData(form, submitTime), id, now);
    ParseIntRoundTrip(doctorId);
    ValidIffAllRulesPass(form);
    assert IsBlank([]);
    assert p in patients + [p];
    QueueMembers(patients + [p], doctorId, searchTerm, p);
  }

  // ---------------------------------------------------------------------------
  // The age is checked as a number but stored as parsed text

  /** As written: "0.5e1" is the number 5, so it passes the check, but `parseInt` stops
      at the point and stores age 0. */
  lemma ExponentAgeStoredAsZero(form: FormData, submitTime: string)
    requires form.age == "0.5e1"
    ensures Age !in Validate(form)
    ensures BuildPatientData(form, submitTime).age == Some(0)
  {
    ExponentNumeralIsFive();
    ExponentNumeralParsesAsZero();
    assert FieldError(form, Finite(5.0), Age).None?;
  }

  lemma ExponentNumeralIsFive()
    ensures ToNumber("0.5e1") == Finite(5.0)
  {
    var u := "0.5e1";
    assert Trim(u) == u by {
      assert !IsWhiteSpace(u[0]) && !IsWhiteSpace(u[|u| - 1]);
      TrimUnchanged(u);
    }
    assert Find(u, IsExponentMark) == Some(3) by {
      assert !IsExponentMark(u[0]) && !IsExponentMark(u[1]) && !IsExponentMark(u[2]) && IsExponentMark(u[3]);
    }
    assert u[..3] == "0.5" && u[4..] == "1";
    assert Exponent("1") == Some(1);
    var mantissa := u[..3];
    assert Find(mantissa, IsDecimalPoint) == Some(1) by {
      assert !IsDecimalPoint(mantissa[0]) && IsDecimalPoint(mantissa[1]);
    }
    assert mantissa[..1] == "0" && mantissa[2..] == "5";
    assert DigitsValue("0", 10) == 0 && DigitsValue("5", 10) == 5;
    assert ScaleBy(5.0, -1) == ScaleBy(0.5, 0) == 0.5;
    assert ScaleBy(0.5, 1) == ScaleBy(5.0, 0) == 5.0;
    assert UnsignedDecimal(u) == Finite(5.0);
    assert u[0] == '0' && u[1] == '.';
  }

  lemma ExponentNumeralParsesAsZero()
    ensures ParseInt("0.5e1") == Some(0)
  {
    var u := "0.5e1";
    assert !IsWhiteSpace(u[0]);
    assert TrimStart(u) == u;
    assert IsDigitOf(u[0], 10) && u[1..][0] == '.' && !IsDigitOf('.', 10);
    assert DigitPrefix(u[1..], 10) == [];
    assert DigitPrefix(u, 10) == "0";
    assert DigitsValue("0", 10) == 0;
    assert ParseUnsigned(u) == Some(0);
  }

  /** `Math.trunc(Number(age))`: the whole part of the number the check accepted. */
  function IntendedAge(age: string): Option<int> {
    match ToNumber(age)
    case Finite(v) => Some(if v >= 0.0 then v.Floor else -((-v).Floor))
    case _ => None
  }

  /** The payload with the age taken from the number that was checked. */
  function IntendedPatientData(form: FormData, submitTime: string): (d: PatientData)
    ensures d == BuildPatientData(form, submitTime).(age := IntendedAge(form.age))
  {
    PatientData(form.name, IntendedAge(form.age), form.details, form.priority, ParseInt(form.doctorId), submitTime)
  }

  /** With the intended conversion every valid form stores an age from 1 to 120. */
  lemma IntendedAgeInRange(form: FormData, submitTime: string)
    requires Validate(form) == map[]
    ensures IntendedPatientData(form, submitTime).age.Some?
    ensures 1 <= IntendedPatientData(form, submitTime).age.value <= 120
  {
    ValidIffAllRulesPass(form);
    var v := ToNumber(form.age).value;
    assert 1.0 <= v <= 120.0;
    assert v.Floor as real <= v < v.Floor as real + 1.0;
  }

  /** For a whole numeral the intended conversion and `parseInt` agree. */
  lemma IntendedAgeAgreesOnWholeNumbers(n: int)
    ensures IntendedAge(IntToString(n)) == ParseInt(IntToString(n)) == Some(n)
  {
    ToNumberRoundTrip(n);
    ParseIntRoundTrip(n);
    assert (n as real).Floor == n;
    assert (-(n as real)).Floor == -n;
  }

  /** A map that has exactly the failing fields as keys, each with its message, is the
      error map. */
  lemma SameErrors(errors: map<Field, string>, form: FormData, ageNumber: Number)
    requires forall field :: field in errors <==> FieldError(form, ageNumber, field).Some?
    requires forall field :: field in errors ==> errors[field] == FieldError(form, ageNumber, field).value
    ensures errors == Errors(form, ageNumber)
  {
  }

  // ---------------------------------------------------------------------------
  // The form

  /** The form's component state, over the shared patient store. */
  class Form {
    const store: PatientState
    var formData: FormData
    var errors: map<Field, string>

    /** A fresh form: empty fields with priority Medium, no errors. */
    constructor (store: PatientState)
      ensures this.store == store && formData == EmptyForm && errors == map[]
    {
      this.store := store;
      formData := EmptyForm;
      errors := map[];
    }

    /** `validateForm`: build the error map field by field, store it, and report whether
        it has no key. */
    method ValidateForm() returns (ok: bool)
      modifies this
      ensures formData == old(formData)
      ensures errors == Validate(formData)
      ensures ok <==> errors == map[]
    {
      var form := formData;
      var ageNumber := ToNumber(form.age);
      var newErrors: map<Field, string> := map[];
      if IsBlank(form.name) {
        newErrors := newErrors[Name := NameRequired];
      }
      if form.age == "" {
        newErrors := newErrors[Age := AgeRequired];
      } else if !AgeInRange(ageNumber) {
        newErrors := newErrors[Age := AgeOutOfRange];
      }
      if IsBlank(form.details) {
        newErrors := newErrors[Details := DetailsRequired];
      }
      if form.doctorId == "" {
        newErrors := newErrors[DoctorId := DoctorRequired];
      }
      SameErrors(newErrors, form, ageNumber);
      errors := newErrors;
      ok := |newErrors| == 0;
    }

    /** `handleChange`: store the value in its field; blank that field's message only when
        it has a non-empty one. */
    method HandleChange(field: Field, value: string)
      modifies this
      ensures formData == SetField(old(formData), field, value)
      ensures errors == if field in old(errors) && old(errors)[field] != "" then old(errors)[field := ""]
                        else old(errors)
    {
      formData := SetField(formData, field, value);
      if field in errors && errors[field] != "" {
        errors := errors[field := ""];
      }
    }

    /** `handleSubmit`: validate; an invalid form adds nothing and keeps its values; a valid
        one appends the parsed record to the store and resets the fields. */
    method HandleSubmit(submitTime: string, id: int, now: string)
      modifies this, store
      ensures errors == Validate(old(formData))
      ensures Validate(old(formData)) != map[] ==>
                store.patients == old(store.patients) && formData == old(formData)
      ensures Validate(old(formData)) == map[] ==>
                store.patients == old(store.patients) + [NewPatient(BuildPatientData(old(formData), submitTime), id, now)]
                && formData == EmptyForm
    {
      var ok := ValidateForm();
      if !ok {
        return;
      }
      var patientData := BuildPatientData(formData, submitTime);
      store.AddPatient(patientData, id, now);
      formData := EmptyForm;
    }
  }
}
