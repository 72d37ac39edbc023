/** The medicine catalog (`src/store/slices/medicineSlice.js`): a seeded list with an
    append operation and a lookup by id. */
module MedicineSlice {
  import opened Wrappers
  import opened Seqs

  datatype Medicine = Medicine(id: int, name: string, kind: string)

  /** The eight medicines every run starts with (`kind` is the source's `type`). */
  const InitialMedicines: seq<Medicine> := [
    Medicine(1, "Latanoprost Eye Drops", "Glaucoma"),
    Medicine(2, "Timolol Eye Drops", "Glaucoma"),
    Medicine(3, "Artificial Tears", "Dry Eyes"),
    Medicine(4, "Prednisolone Eye Drops", "Anti-inflammatory"),
    Medicine(5, "Ciprofloxacin Eye Drops", "Antibiotic"),
    Medicine(6, "Cyclopentolate Eye Drops", "Mydriatic"),
    Medicine(7, "Brimonidine Eye Drops", "Glaucoma"),
    Medicine(8, "Dorzolamide Eye Drops", "Glaucoma")
  ]

  predicate MedicineHasId(id: int, m: Medicine) {
    m.id == id
  }

  /** `selectMedicineById`: the first medicine carrying the id, or nothing. */
  function SelectMedicineById(medicines: seq<Medicine>, medicineId: int): (r: Option<Medicine>)
    ensures r.Some? <==> exists i :: 0 <= i < |medicines| && medicines[i].id == medicineId
    ensures r.Some? ==> r.value.id == medicineId
    ensures r.Some? ==> exists i :: 0 <= i < |medicines| && medicines[i] == r.value
                                     && forall j :: 0 <= j < i ==> medicines[j].id != medicineId
  {
    match Find(medicines, m => MedicineHasId(medicineId, m))
    case None => None
    case Some(i) => Some(medicines[i])
  }

  /** The `medicines` slice. */
  class MedicineState {
    var medicines: seq<Medicine>

    constructor ()
      ensures medicines == InitialMedicines
    {
      medicines := InitialMedicines;
    }

    /** `addMedicine`: append the payload as it is; nothing is checked. */
    method AddMedicine(medicine: Medicine)
      modifies this
      ensures medicines == old(medicines) + [medicine]
    {
      medicines := medicines + [medicine];
    }
  }

  /** The seed holds eight medicines whose ids are 1 to 8, so no two share an id. */
  lemma InitialMedicineIds()
    ensures |InitialMedicines| == 8
    ensures forall i :: 0 <= i < 8 ==> InitialMedicines[i].id == i + 1
    ensures forall i, j :: 0 <= i < j < |InitialMedicines| ==> InitialMedicines[i].id != InitialMedicines[j].id
  {
  }

  /** Appending a medicine keeps every earlier lookup; one appended with an id already in
      use is never found, and one with a new id is found. */
  lemma AddMedicineLookup(medicines: seq<Medicine>, medicine: Medicine, medicineId: int)
    ensures SelectMedicineById(medicines + [medicine], medicineId)
            == if SelectMedicineById(medicines, medicineId).Some? then SelectMedicineById(medicines, medicineId)
               else if medicine.id == medicineId then Some(medicine) else None
  {
    var f := (m: Medicine) => MedicineHasId(medicineId, m);
    FindAppend(medicines, medicine, f);
    assert SelectMedicineById(medicines, medicineId) == match Find(medicines, f)
      case None => None
      case Some(i) => Some(medicines[i]);
    match Find(medicines, f) {
      case Some(i) =>
        assert (medicines + [medicine])[i] == medicines[i];
      case None =>
        assert (medicines + [medicine])[|medicines|] == medicine;
    }
  }
}
