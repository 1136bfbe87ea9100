/** prescriptions/urls.py: the `create_prescription` function view that
    the `create/` route serves. It creates the prescription first, then
    its items, skipping any item whose medicine is not found, and neither
    checks nor changes stock. */
module PrescriptionUrls {
  import opened Base
  import opened InventoryModels
  import opened PrescriptionModels
  import opened PrescriptionViews

  /** `create_prescription` (POST, any authenticated user). A falsy
      `patient_id` gets 400 and an unknown patient 404, before anything
      is written. The prescription's expiry defaults to 2024-01-01; a
      negative `max_refills` is refused before anything is written. Items
      are then created in order, those without a found medicine skipped,
      so the reported count is the number of items whose medicine is
      found; a negative item quantity is refused with the prescription
      and earlier items kept, as the prescription is written before any
      item. A complete run appends one 'created' entry. */
  method CreatePrescription(book: PrescriptionBook, u: User, form: PrescriptionForm, now: Timestamp)
    returns (outcome: CreateOutcome)
    modifies book
    ensures !u.authenticated ==> outcome == CreateFailed(NotAuthenticated)
    ensures u.authenticated && (form.patientId.None? || form.patientId == Some(0)) ==> outcome == CreateFailed(PatientIdRequired)
    ensures u.authenticated && form.patientId.Some? && form.patientId.value != 0 && form.patientId.value !in old(book.patients) ==>
      outcome == CreateFailed(PatientNotFound)
    ensures ForExistingPatient(u, form, old(book.patients)) ==>
      && (outcome.Created? <==> RequestedMaxRefills(form) >= 0 && ItemsCreatable(Lenient, form.items, old(book.medicines)))
      && (outcome.Created? || outcome == CreateFailed(ServerError))
    ensures outcome.CreateFailed? && outcome.error != ServerError ==> book.Snapshot() == old(book.Snapshot())
    ensures outcome.CreateFailed? ==> book.history == old(book.history)
    ensures outcome.Created? ==>
      && u.authenticated && form.patientId.Some? && form.patientId.value in old(book.patients)
      && outcome.id == old(book.nextPrescriptionId)
      && outcome.itemsCount == CountFound(Lenient, form.items, old(book.medicines))
      && RequestedMaxRefills(form) >= 0
      && book.prescriptions == old(book.prescriptions)[outcome.id := NewPrescription(form, form.patientId.value, u.id, now,
           if form.expiryDate.Some? then form.expiryDate.value else DEFAULT_EXPIRY, RequestedMaxRefills(form))]
      && book.items == AddItems(Lenient, old(book.items), old(book.nextItemId), outcome.id, form.items, old(book.medicines)).items
      && book.history == old(book.history) + [HistoryEntry(outcome.id, "created", u.id, "Created via API")]
      && book.patients == old(book.patients) && book.medicines == old(book.medicines)
    ensures RequestedMaxRefills(form) < 0 ==> book.Snapshot() == old(book.Snapshot())
    ensures outcome == CreateFailed(ServerError) && RequestedMaxRefills(form) >= 0 ==>
      var a := AddItems(Lenient, old(book.items), old(book.nextItemId), old(book.nextPrescriptionId), form.items, old(book.medicines));
      && u.authenticated && form.patientId.Some? && form.patientId.value in old(book.patients)
      && a.failed
      && book.prescriptions == old(book.prescriptions)[old(book.nextPrescriptionId) := NewPrescription(form, form.patientId.value, u.id, now,
           if form.expiryDate.Some? then form.expiryDate.value else DEFAULT_EXPIRY, RequestedMaxRefills(form))]
      && book.nextPrescriptionId == old(book.nextPrescriptionId) + 1
      && book.items == a.items && book.nextItemId == a.nextItemId
      && book.patients == old(book.patients) && book.medicines == old(book.medicines)
    ensures old(RecordsConsistent(book.Snapshot())) ==> RecordsConsistent(book.Snapshot())
  {
    if !u.authenticated {
      return CreateFailed(NotAuthenticated);
    }
    if form.patientId.None? || form.patientId.value == 0 {
      return CreateFailed(PatientIdRequired);
    }
    var patient := form.patientId.value;
    if patient !in book.patients {
      return CreateFailed(PatientNotFound);
    }
    var expiry := if form.expiryDate.Some? then form.expiryDate.value else DEFAULT_EXPIRY;
    var maxRefills := RequestedMaxRefills(form);
    if maxRefills < 0 {
      return CreateFailed(ServerError);
    }
    ghost var r := book.Snapshot();
    var p := NewPrescription(form, patient, u.id, now, expiry, maxRefills);
    var id, count, failed := WriteCreation(book, Lenient, p, form.items);
    AddItemsCount(Lenient, r.items, r.nextItemId, id, form.items, r.medicines);
    var entry := HistoryEntry(id, "created", u.id, "Created via API");
    if RecordsConsistent(r) {
      CreationKeepsConsistent(r, p, Lenient, form.items, if failed then [] else [entry]);
    }
    if failed {
      return CreateFailed(ServerError);
    }
    AddItemsCount(Lenient, old(book.items), old(book.nextItemId), id, form.items, book.medicines);
    book.history := book.history + [entry];
    outcome := Created(id, count);
  }

  /** The lenient item loop skips exactly the items whose medicine is not
      found: with every found item's quantity non-negative it never
      fails, and it creates none for an item list without a found
      medicine. */
  lemma {:induction false} LenientSkipsUnknown(items: map<ItemId, PrescriptionItem>, next: ItemId, pid: PrescriptionId,
                                               forms: seq<ItemForm>, medicines: map<MedicineId, Medicine>)
    requires forall i :: 0 <= i < |forms| ==> !Found(Lenient, forms[i], medicines)
    ensures AddItems(Lenient, items, next, pid, forms, medicines) == ItemsAdded(items, next, 0, false)
    decreases |forms|
  {
    if forms != [] {
      assert forall i :: 0 <= i < |forms[1..]| ==> forms[1..][i] == forms[i + 1];
      LenientSkipsUnknown(items, next, pid, forms[1..], medicines);
    }
  }
}
