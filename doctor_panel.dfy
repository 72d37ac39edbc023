/** The doctor panel's consultation workflow (`src/components/DoctorPanel.js`): pick a
    patient from the queue, choose an action, tick medicines, print the prescription and
    mark the patient as done. The panel keeps its own copy of the selected record; the
    store is the shared `PatientState`. */
module DoctorPanel {
  import opened Wrappers
  import opened Seqs
  import opened PatientSlice
  import opened MedicineSlice

  const MedicinePrescription: string := "Medicine Prescription"
  const VideoCall: string := "Video Call"
  const ReferToHospital: string := "Refer to Hospital"
  const UnknownMedicine: string := "Unknown Medicine"

  // ---------------------------------------------------------------------------
  // The medicine selection

  predicate Differs(m: int, x: int) {
    x != m
  }

  /** The selection after ticking or unticking medicine `m`: dropped (every occurrence)
      when present, appended when absent. */
  function Toggle(ids: seq<int>, m: int): (r: seq<int>)
    ensures m in r <==> m !in ids
    ensures forall x :: x != m ==> (x in r <==> x in ids)
  {
    FilterMembers(ids, x => Differs(m, x));
    if m in ids then Filter(ids, x => Differs(m, x)) else ids + [m]
  }

  /** Toggling flips `m` and leaves the multiplicity of every other id as it was. */
  lemma ToggleCount(ids: seq<int>, m: int, x: int)
    ensures multiset(Toggle(ids, m))[x]
            == if x != m then multiset(ids)[x] else if m in ids then 0 else 1
  {
    if m in ids {
      FilterCount(ids, y => Differs(m, y), x);
    } else {
      assert multiset(ids + [m]) == multiset(ids) + multiset{m};
    }
  }

  /** A selection holding each id at most once keeps that property. */
  lemma ToggleAtMostOnce(ids: seq<int>, m: int)
    requires forall x :: multiset(ids)[x] <= 1
    ensures forall x :: multiset(Toggle(ids, m))[x] <= 1
  {
    forall x ensures multiset(Toggle(ids, m))[x] <= 1 {
      ToggleCount(ids, m, x);
    }
  }

  /** Ticking an unticked medicine and unticking it again restores the selection. */
  lemma {:induction false} ToggleUndo(ids: seq<int>, m: int)
    requires m !in ids
    ensures Toggle(Toggle(ids, m), m) == ids
  {
    assert m in ids + [m];
    FilterConcat(ids, [m], x => Differs(m, x));
    FilterKeepsAll(ids, x => Differs(m, x));
    assert [m][1..] == [];
  }

  /** Unticking a ticked medicine and ticking it again restores the selection up to order
      when it held each id at most once. */
  lemma ToggleRedo(ids: seq<int>, m: int)
    requires m in ids
    requires forall x :: multiset(ids)[x] <= 1
    ensures multiset(Toggle(Toggle(ids, m), m)) == multiset(ids)
  {
    forall x ensures multiset(Toggle(Toggle(ids, m), m))[x] == multiset(ids)[x] {
      ToggleCount(ids, m, x);
      ToggleCount(Toggle(ids, m), m, x);
      assert m in multiset(ids);
    }
  }

  /** The selection a newly picked patient starts with: the record's medicine list, or
      nothing when the record holds no list. */
  function SeededSelection(medicines: Option<seq<int>>): (r: seq<int>)
    ensures medicines.Some? ==> r == medicines.value
    ensures medicines.None? ==> r == []
  {
    match medicines
    case Some(ids) => ids
    case None => []
  }

  // ---------------------------------------------------------------------------
  // The printed prescription

  /** `med.name || 'Unknown Medicine'`. */
  function MedicineLabel(m: Medicine): string {
    if m.name == [] then UnknownMedicine else m.name
  }

  predicate IsSelected(ids: seq<int>, m: Medicine) {
    m.id in ids
  }

  function SelectedIn(ids: seq<int>): Medicine -> bool {
    m => IsSelected(ids, m)
  }

  /** The names printed on a prescription: the catalog's selected medicines, in catalog
      order, each by its label; no name comes from elsewhere. */
  function PrescriptionNames(catalog: seq<Medicine>, ids: seq<int>): (r: seq<string>)
    ensures |r| <= |catalog|
  {
    if catalog == [] then [] else LabelIfSelected(catalog[0], ids) + PrescriptionNames(catalog[1..], ids)
  }

  /** The name one catalog entry contributes: its label when selected, nothing otherwise. */
  function LabelIfSelected(m: Medicine, ids: seq<int>): seq<string> {
    if m.id in ids then [MedicineLabel(m)] else []
  }

  /** The names depend on which ids are selected, not on the order or repetition of the
      selection. */
  lemma {:induction false} PrescriptionNamesBySet(catalog: seq<Medicine>, ids: seq<int>, ids': seq<int>)
    requires forall x :: x in ids <==> x in ids'
    ensures PrescriptionNames(catalog, ids) == PrescriptionNames(catalog, ids')
  {
    if catalog != [] {
      PrescriptionNamesBySet(catalog[1..], ids, ids');
    }
  }

  /** One name per selected catalog entry. */
  lemma {:induction false} PrescriptionNamesCount(catalog: seq<Medicine>, ids: seq<int>)
    ensures |PrescriptionNames(catalog, ids)| == |Filter(catalog, SelectedIn(ids))|
  {
    if catalog != [] {
      PrescriptionNamesCount(catalog[1..], ids);
    }
  }

  /** Every printed name is the label of a selected catalog medicine. */
  lemma {:induction false} PrescriptionNamesSound(catalog: seq<Medicine>, ids: seq<int>, name: string)
    requires name in PrescriptionNames(catalog, ids)
    ensures exists m :: m in catalog && m.id in ids && name == MedicineLabel(m)
  {
    if name !in LabelIfSelected(catalog[0], ids) {
      PrescriptionNamesSound(catalog[1..], ids, name);
      var m :| m in catalog[1..] && m.id in ids && name == MedicineLabel(m);
      assert m in catalog;
    }
  }

  /** Every selected catalog medicine is printed. */
  lemma {:induction false} PrescriptionNamesComplete(catalog: seq<Medicine>, ids: seq<int>, m: Medicine)
    requires m in catalog && m.id in ids
    ensures MedicineLabel(m) in PrescriptionNames(catalog, ids)
  {
    if catalog[0] != m {
      PrescriptionNamesComplete(catalog[1..], ids, m);
    }
  }

  /** The names follow catalog order: a catalog made of two parts prints the first part's
      names, then the second's. */
  lemma {:induction false} PrescriptionNamesConcat(first: seq<Medicine>, second: seq<Medicine>, ids: seq<int>)
    ensures PrescriptionNames(first + second, ids) == PrescriptionNames(first, ids) + PrescriptionNames(second, ids)
  {
    if first == [] {
      assert first + second == second;
    } else {
      PrescriptionNamesConcat(first[1..], second, ids);
      var whole := first + second;
      assert whole[0] == first[0] && whole[1..] == first[1..] + second;
      AppendAssoc(LabelIfSelected(first[0], ids), PrescriptionNames(first[1..], ids), PrescriptionNames(second, ids));
    }
  }

  /** A selected id that no catalog medicine carries prints nothing. */
  lemma {:induction false} PrescriptionIgnoresUnknownIds(catalog: seq<Medicine>, ids: seq<int>, x: int)
    requires forall m :: m in catalog ==> m.id != x
    ensures PrescriptionNames(catalog, ids + [x]) == PrescriptionNames(catalog, ids)
  {
    if catalog != [] {
      assert catalog[0] in catalog;
      assert forall m :: m in catalog[1..] ==> m in catalog;
      PrescriptionIgnoresUnknownIds(catalog[1..], ids, x);
    }
  }

  // ---------------------------------------------------------------------------
  // The "Mark as Done" guard

  /** `canMarkAsDone` as written: a patient is selected, and either the action is Medicine
      Prescription with a non-empty selection and the SELECTED COPY flagged printed, or the
      action is Video Call or Refer to Hospital. */
  function MarkAsDoneEnabled(selected: Option<Patient>, action: string, ids: seq<int>): (enabled: bool)
    ensures (action == VideoCall || action == ReferToHospital) ==> (enabled <==> selected.Some?)
    ensures action != MedicinePrescription && action != VideoCall && action != ReferToHospital ==> !enabled
    ensures action == MedicinePrescription ==>
              (enabled <==> selected.Some? && |ids| > 0 && selected.value.prescriptionPrinted)
  {
    selected.Some?
    && ((action == MedicinePrescription && |ids| > 0 && selected.value.prescriptionPrinted)
        || action == VideoCall
        || action == ReferToHospital)
  }

  /** `p` is the store's current record for its id. */
  predicate IsCurrentCopy(patients: seq<Patient>, p: Patient) {
    PatientIndex(patients, p.id).Some? && patients[PatientIndex(patients, p.id).value] == p
  }

  /** The printed flag of the store's record for the id (none when it is gone). */
  predicate StorePrinted(patients: seq<Patient>, patientId: int) {
    match PatientIndex(patients, patientId)
    case Some(i) => patients[i].prescriptionPrinted
    case None => false
  }

  /** The guard as evidently intended: the printed flag is read from the store's record of
      the selected patient, which printing updates. */
  function MarkAsDoneEnabledFresh(patients: seq<Patient>, selected: Option<Patient>, action: string,
                                  ids: seq<int>): (enabled: bool)
    ensures selected.Some? && IsCurrentCopy(patients, selected.value) ==>
              (enabled <==> MarkAsDoneEnabled(selected, action, ids))
  {
    selected.Some?
    && ((action == MedicinePrescription && |ids| > 0 && StorePrinted(patients, selected.value.id))
        || action == VideoCall
        || action == ReferToHospital)
  }

  /** As written: printing the selected patient's prescription flags the store's record but
      not the panel's copy, so for a patient selected before printing the button stays
      disabled however many medicines are ticked. */
  lemma PrintDoesNotEnableDone(patients: seq<Patient>, p: Patient, ids: seq<int>)
    requires PatientIndex(patients, p.id).Some? && patients[PatientIndex(patients, p.id).value] == p
    requires !p.prescriptionPrinted
    ensures StorePrinted(WithPrinted(patients, p.id), p.id)
    ensures !MarkAsDoneEnabled(Some(p), MedicinePrescription, ids)
  {
    UpdatesKeepLookups(patients, p.id, "", None, p.id);
  }

  /** With the intended guard, printing a non-empty prescription for a patient still in the
      store enables "Mark as Done". */
  lemma PrintEnablesDoneFresh(patients: seq<Patient>, p: Patient, ids: seq<int>)
    requires PatientIndex(patients, p.id).Some?
    requires |ids| > 0
    ensures MarkAsDoneEnabledFresh(WithPrinted(patients, p.id), Some(p), MedicinePrescription, ids)
  {
    UpdatesKeepLookups(patients, p.id, "", None, p.id);
  }

  // ---------------------------------------------------------------------------
  // The panel

  /** The panel's component state for one doctor, over the shared patient store. */
  class Panel {
    const doctorId: Option<int>
    const store: PatientState
    var selectedPatient: Option<Patient>
    var selectedAction: string
    var selectedMedicineIds: seq<int>

    /** A fresh panel: nothing selected, no action, no medicines. */
    constructor (doctorId: Option<int>, store: PatientState)
      ensures this.doctorId == doctorId && this.store == store
      ensures selectedPatient == None && selectedAction == "" && selectedMedicineIds == []
    {
      this.doctorId := doctorId;
      this.store := store;
      selectedPatient := None;
      selectedAction := "";
      selectedMedicineIds := [];
    }

    /** `canMarkAsDone` over the panel's state. */
    predicate CanMarkAsDone()
      reads this
    {
      MarkAsDoneEnabled(selectedPatient, selectedAction, selectedMedicineIds)
    }

    /** `handlePatientSelect`: keep a copy of the clicked record, clear the action and seed
        the selection from the record's medicine list. */
    method HandlePatientSelect(patient: Patient)
      modifies this
      ensures selectedPatient == Some(patient) && selectedAction == ""
      ensures selectedMedicineIds == SeededSelection(patient.selectedMedicines)
      ensures !CanMarkAsDone()
    {
      selectedPatient := Some(patient);
      selectedAction := "";
      selectedMedicineIds := SeededSelection(patient.selectedMedicines);
    }

    /** `handleActionChange` (its state part): record the action; any action but Medicine
        Prescription clears the selection. */
    method HandleActionChange(action: string)
      modifies this
      ensures selectedAction == action && selectedPatient == old(selectedPatient)
      ensures selectedMedicineIds == if action == MedicinePrescription then old(selectedMedicineIds) else []
    {
      selectedAction := action;
      if action != MedicinePrescription {
        selectedMedicineIds := [];
      }
    }

    /** `handleMedicineToggle`: with a truthy id and a selected patient, toggle the id and
        write the new selection to the patient's record in the store; otherwise nothing. */
    method HandleMedicineToggle(medicineId: int)
      modifies this, store
      ensures selectedPatient == old(selectedPatient) && selectedAction == old(selectedAction)
      ensures medicineId == 0 || old(selectedPatient).None? ==>
                selectedMedicineIds == old(selectedMedicineIds) && store.patients == old(store.patients)
      ensures medicineId != 0 && old(selectedPatient).Some? ==>
                selectedMedicineIds == Toggle(old(selectedMedicineIds), medicineId)
                && store.patients == WithMedicines(old(store.patients), selectedPatient.value.id,
                                                   Some(selectedMedicineIds))
    {
      if medicineId == 0 || selectedPatient.None? {
        return;
      }
      var newSelection := Toggle(selectedMedicineIds, medicineId);
      store.SelectMedicines(selectedPatient.value.id, Some(newSelection));
      selectedMedicineIds := newSelection;
    }

    /** `handlePrintPrescription`: with a selected patient and a non-empty selection, flag
        the patient's store record printed and return the printed names; the panel's copy
        is left as it was. */
    method HandlePrintPrescription(catalog: seq<Medicine>) returns (names: seq<string>)
      modifies store
      ensures old(selectedPatient).Some? && |selectedMedicineIds| > 0 ==>
                store.patients == WithPrinted(old(store.patients), selectedPatient.value.id)
                && names == PrescriptionNames(catalog, selectedMedicineIds)
      ensures !(old(selectedPatient).Some? && |selectedMedicineIds| > 0) ==>
                store.patients == old(store.patients) && names == []
    {
      names := [];
      if selectedPatient.Some? && |selectedMedicineIds| > 0 {
        names := PrescriptionNames(catalog, selectedMedicineIds);
        store.MarkPrescriptionPrinted(selectedPatient.value.id);
      }
    }

    /** `handleMarkAsDone`: with a selected patient, remove every record with its id from
        the store and reset the selection, the action and the medicines. */
    method HandleMarkAsDone()
      modifies this, store
      ensures old(selectedPatient).None? ==>
                store.patients == old(store.patients) && selectedPatient == None
                && selectedAction == old(selectedAction) && selectedMedicineIds == old(selectedMedicineIds)
      ensures old(selectedPatient).Some? ==>
                store.patients == WithoutPatient(old(store.patients), old(selectedPatient).value.id)
                && selectedPatient == None && selectedAction == "" && selectedMedicineIds == []
      ensures !CanMarkAsDone()
    {
      if selectedPatient.Some? {
        store.RemovePatient(selectedPatient.value.id);
        selectedPatient := None;
        selectedAction := "";
        selectedMedicineIds := [];
      }
    }
  }

  // ---------------------------------------------------------------------------
  // The stale copy on the panel's own states

  /** A fresh store with one registered patient and a panel over it. Select the patient,
      choose Medicine Prescription, tick a medicine and print. The store's record is then
      flagged printed, but "Mark as Done" stays disabled (`enabled`), while the guard that
      reads the store (`intended`) enables it. */
  method PrintLeavesDoneDisabled(data: PatientData, id: int, now: string, medicineId: int,
                                 catalog: seq<Medicine>)
    returns (printed: bool, enabled: bool, intended: bool)
    requires medicineId != 0
    ensures printed && !enabled && intended
  {
    var store := new PatientState();
    store.AddPatient(data, id, now);
    var patient := store.patients[0];
    var panel := new Panel(data.doctorId, store);
    panel.HandlePatientSelect(patient);
    panel.HandleActionChange(MedicinePrescription);
    panel.HandleMedicineToggle(medicineId);
    var names := panel.HandlePrintPrescription(catalog);
    UpdatesKeepLookups([patient], id, "", Some([medicineId]), id);
    UpdatesKeepLookups(WithMedicines([patient], id, Some([medicineId])), id, "", None, id);
    printed := StorePrinted(store.patients, patient.id);
    enabled := panel.CanMarkAsDone();
    intended := MarkAsDoneEnabledFresh(store.patients, panel.selectedPatient, panel.selectedAction,
                                       panel.selectedMedicineIds);
  }
}
