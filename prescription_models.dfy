/** prescriptions/models.py: prescriptions with their status, priority
    and refill counters, their items and their history, the `can_refill`
    rule, and the cascade from a prescription to its items and history.
    `PrescriptionBook` is the store the prescription views change. */
module PrescriptionModels {
  import opened Base
  import opened InventoryModels

  type PrescriptionId = nat
  type PatientId = nat
  type ItemId = nat

  const ACTIVE: string := "active"
  const COMPLETED: string := "completed"
  const CANCELLED: string := "cancelled"
  const EXPIRED: string := "expired"
  const STATUS_CHOICES: seq<string> := [ACTIVE, COMPLETED, CANCELLED, EXPIRED]
  const DEFAULT_STATUS: string := ACTIVE

  const PRIORITY_CHOICES: seq<string> := ["low", "medium", "high", "urgent"]
  const DEFAULT_PRIORITY: string := "medium"

  /** `date(2024, 1, 1)` as a day ordinal, the model's default expiry. */
  const DEFAULT_EXPIRY: Date := 738886

  /** One prescription row. Status and priority are stored as given:
      the choice lists are enforced only by form validation, not by
      `objects.create`, so any string can reach the table. */
  datatype Prescription = Prescription(
    patient: PatientId,
    prescribedBy: UserId,
    staffId: Option<string>,
    prescriberContact: Option<string>,
    datePrescribed: Timestamp,
    expiryDate: Date,
    status: string,
    priority: string,
    notes: string,
    specialInstructions: string,
    refillCount: nat,
    maxRefills: nat,
    lastRefillDate: Option<Timestamp>)

  /** `Prescription.can_refill`. */
  predicate CanRefill(p: Prescription)
  {
    p.status == ACTIVE && p.refillCount < p.maxRefills
  }

  /** One item row; `quantity` is a PositiveIntegerField, hence a `nat`,
      and only `drug_name` may be null. */
  datatype PrescriptionItem = PrescriptionItem(
    prescription: PrescriptionId,
    medicine: MedicineId,
    drugName: Option<string>,
    dosage: string,
    quantity: nat,
    frequency: string,
    duration: string,
    route: string,
    specialInstructions: string)

  datatype HistoryEntry = HistoryEntry(
    prescription: PrescriptionId,
    action: string,
    performedBy: UserId,
    notes: string)

  /** The prescription tables as a value. */
  datatype Records = Records(
    patients: set<PatientId>,
    medicines: map<MedicineId, Medicine>,
    prescriptions: map<PrescriptionId, Prescription>,
    nextPrescriptionId: PrescriptionId,
    items: map<ItemId, PrescriptionItem>,
    nextItemId: ItemId,
    history: seq<HistoryEntry>)

  /** Foreign keys resolve and ids stay below the next id. */
  ghost predicate RecordsConsistent(r: Records)
  {
    && (forall id :: id in r.prescriptions ==> id < r.nextPrescriptionId && r.prescriptions[id].patient in r.patients)
    && (forall id :: id in r.items ==> id < r.nextItemId && r.items[id].prescription in r.prescriptions
                                       && r.items[id].medicine in r.medicines)
    && (forall i :: 0 <= i < |r.history| ==> r.history[i].prescription in r.prescriptions)
  }

  function HistoryNotOf(h: seq<HistoryEntry>, id: PrescriptionId): (r: seq<HistoryEntry>)
    ensures forall e :: e in r <==> e in h && e.prescription != id
  {
    if h == [] then [] else (if h[0].prescription == id then [] else [h[0]]) + HistoryNotOf(h[1..], id)
  }

  /** Deleting a prescription (models.py: CASCADE from item and from
      history entry to prescription). */
  function DeletePrescription(r: Records, id: PrescriptionId): (r': Records)
    ensures r'.prescriptions == r.prescriptions - {id}
    ensures forall i :: i in r'.items <==> i in r.items && r.items[i].prescription != id
    ensures forall i :: i in r'.items ==> r'.items[i] == r.items[i]
    ensures forall e :: e in r'.history <==> e in r.history && e.prescription != id
    ensures r'.history == HistoryNotOf(r.history, id)
    ensures r'.patients == r.patients && r'.medicines == r.medicines
    ensures r'.nextPrescriptionId == r.nextPrescriptionId && r'.nextItemId == r.nextItemId
  {
    r.(prescriptions := r.prescriptions - {id},
       items := map i | i in r.items && r.items[i].prescription != id :: r.items[i],
       history := HistoryNotOf(r.history, id))
  }

  // --- properties --------------------------------------------------------

  /** `can_refill` holds exactly for an active prescription with refills
      left, so a refill it admits keeps `refill_count <= max_refills`. */
  lemma CanRefillBound(p: Prescription)
    ensures CanRefill(p) <==> p.status == ACTIVE && p.refillCount + 1 <= p.maxRefills
    ensures CanRefill(p) ==> p.refillCount + 1 <= p.maxRefills
  {
  }

  /** With the default counters (`refill_count = max_refills = 0`) a
      prescription is never refillable, whatever its status; nor is a
      prescription that is not active. */
  lemma DefaultsCannotRefill(p: Prescription)
    ensures p.refillCount == 0 && p.maxRefills == 0 ==> !CanRefill(p)
    ensures p.status != ACTIVE ==> !CanRefill(p)
  {
  }

  /** The defaults are members of their choice lists. */
  lemma DefaultsAreChoices()
    ensures DEFAULT_STATUS in STATUS_CHOICES && DEFAULT_PRIORITY in PRIORITY_CHOICES
  {
  }

  /** Deleting a prescription keeps the foreign keys resolving. */
  lemma DeletePrescriptionKeepsConsistent(r: Records, id: PrescriptionId)
    requires RecordsConsistent(r)
    ensures RecordsConsistent(DeletePrescription(r, id))
  {
    var r' := DeletePrescription(r, id);
    forall i | 0 <= i < |r'.history| ensures r'.history[i].prescription in r'.prescriptions {
      assert r'.history[i] in r'.history;
      var j :| 0 <= j < |r.history| && r.history[j] == r'.history[i];
    }
  }

  /** The store behind the prescription views. */
  class PrescriptionBook {
    var patients: set<PatientId>
    var medicines: map<MedicineId, Medicine>
    var prescriptions: map<PrescriptionId, Prescription>
    var nextPrescriptionId: PrescriptionId
    var items: map<ItemId, PrescriptionItem>
    var nextItemId: ItemId
    var history: seq<HistoryEntry>

    function Snapshot(): Records
      reads this
    {
      Records(patients, medicines, prescriptions, nextPrescriptionId, items, nextItemId, history)
    }

    /** A book with the given patients and medicines and no prescriptions. */
    constructor (patients: set<PatientId>, medicines: map<MedicineId, Medicine>)
      ensures Snapshot() == Records(patients, medicines, map[], 1, map[], 1, [])
      ensures RecordsConsistent(Snapshot())
    {
      this.patients := patients;
      this.medicines := medicines;
      prescriptions := map[];
      nextPrescriptionId := 1;
      items := map[];
      nextItemId := 1;
      history := [];
    }
  }
}
