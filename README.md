# medstock backend core in Dafny

This project models the rule-bearing core of the medstock pharmacy
backend, a Django REST service. It has four parts.

- **Inventory ledger** (`inventory_models.dfy`, `inventory_serializers.dfy`,
  `inventory_adjust.dfy`, `inventory_views.dfy`).
  - Medicines, their stock batches and the append-only inventory log.
  - `MedicineViewSet.adjust_inventory`, with three item operations:
    - order receipt into a named batch or an `ORD-{source}-{medicine}` batch;
    - FIFO-by-expiry dispense;
    - exact-batch dispense.
  - `low_stock` and the serializer's derived fields.
  - `Ledger` is a class whose methods change batches and logs in place.
    Each method is proved equal to a pure step function. The step
    functions' lemmas state FIFO order, greedy depletion, one log entry
    per batch touched, conservation between batch quantities and log
    deltas, and the early exit that rolls nothing back.
- **Prescription lifecycle** (`prescription_models.dfy`,
  `prescription_views.dfy`, `prescription_urls.dfy`).
  - `can_refill`, the refill, cancel and update actions, and the
    role-based querysets.
  - The two `create_prescription` views: the one in
    prescriptions/views.py with a stock pre-check over every item, and
    the lenient variant in prescriptions/urls.py that skips unknown
    medicines.
  - `PrescriptionBook` is the store the actions change.
- **Role authorization** (`core_permissions.dfy`, `users_access_rules.dfy`,
  `users_permissions.dfy`). These are pure decisions over
  authentication, role, HTTP method or page, and a view's role table.
- **Staff records** (`staff_models.dfy`, `staff_serializers.dfy`,
  `staff_views.dfy`, `staff_urls.dfy`).
  - The serializer's `create` and `update` with their activity rules.
  - `update_status`, the queryset filters and sort mapping, the
    generated staff id and the experience buckets of `statistics`.
  - `create_staff`, which derives names, username, email, password,
    role, status and qualifications, then writes an account, a
    department and a staff row in sequence.

`base.dfy` holds the shared pieces: `Option`, dates as day numbers, the
user as seen by the permission classes, and ASCII case mapping.

How the model represents the source:

- **Database rows and stores.** Rows are datatypes, and tables are maps
  keyed by auto-increment ids.
- **Writes that are not rolled back.** A request that fails after it has
  written keeps those writes; the model reproduces this rather than
  repairing it.
- **Falsy request values.** `Option` models them: `None` is absent, and
  the code's truthiness tests are written out.
- **Clock, randomness and uuids.** The clock, `random.choice` and `uuid4`
  are parameters: `today`, `now`, `picks` and `uuidHex`.

Source behaviours the model reproduces:

- **Refill, cancel and update.** Only an admin can complete these.
  `RoleBasedPermission.has_permission` runs first. Its table lists only
  admin and doctor for POST, PUT and PATCH, so a pharmacist gets 403
  before the refill body runs, even for a prescription that does not
  exist, although the body's own check names pharmacists. A doctor
  passes that table. The refill body then refuses the doctor by role,
  while cancel and update go on to `get_object()`. There the object
  check needs the object's `user` or `created_by` to be the requester,
  and `Prescription` has neither field, so the doctor gets 403 there
  too.
- **Pharmacist filter.** It admits the status 'pending', which is not
  among the status choices.
- **Roles that see every prescription.** A user whose role is neither
  doctor nor pharmacist sees them all. `get_queryset` also falls back to
  no filter for a user without a profile, but that branch cannot be
  reached through the view set: `has_permission` reads the profile
  first and fails for such a user (see "## Left out").
- **`perform_update` history.** It logs 'updated' twice: once in the
  serializer and once in the view.
- **Refill limit after an update.** An update may set `max_refills` below
  `refill_count`. `refill_count <= max_refills` holds after every refill
  but is not an invariant of the store.
- **Stock pre-check.** `create_prescription` in prescriptions/views.py
  reads `medicine.quantity`, which `Medicine` does not have. As written,
  the view therefore answers 404 when the first item's medicine is
  unknown and 500 as soon as it reaches an item whose medicine exists,
  and writes nothing. The model checks stock against an abstract
  `available` quantity per medicine instead, which is the pre-check the
  view is written to make (see "## Left out"). The `create/` route
  serves the variant in prescriptions/urls.py, which checks no stock.
- **`source_type`.** A value other than 'order' or 'prescription' leaves
  the log action unassigned, which is an uncaught error (500).
- **Negative order quantities.** A negative order quantity that would
  take a batch below zero is refused by the database. The model treats
  that as a 500 at that item.
- **Batch ids in line items.** A supplied `batch_id` is not checked
  against the item's medicine, and the batch id 0 counts as absent.
- **Supplier permissions.** `SupplierViewSet` checks
  `IsAdminOrPharmacist`, so a pharmacist passes for POST and DELETE.
  Its `role_permissions` table would refuse both.
- **`create_staff` failures.** It runs without a transaction. A failure
  after the account is written leaves the account behind, and possibly a
  new department too. Such failures come from:
  - an unreadable year count;
  - a taken `staff_id`;
  - more than one department of the name.
- **`create_staff` activity.** It logs no 'created' activity, unlike the
  serializer's `create`.
- **Case-variant staff ids.** Ids that differ only in case give the same
  username, so the second create fails.
- **Single-word names.** A name with one word gives the full name that
  word and a trailing space.
- **Role and status choices.** Role and status are lower-cased but not
  checked against the choices.
- **Sort keys that are not fields.** The sort key passes through
  unchanged. `hire_date`, and any key that is not a field of `Staff`,
  then fails when the query is evaluated.

## Model

| member | source | states |
|---|---|---|
| CorePermissions.UnauthenticatedDenied | core/permissions.py:3-61 | an unauthenticated user fails every role predicate, the request check and the object check |
| CorePermissions.AdminAlwaysAllowed | core/permissions.py:33-34 | an authenticated admin passes the request check for any method and table, the object check for any object, and both combined predicates |
| CorePermissions.NonAdminNeedsTableEntry | core/permissions.py:37-43 | a non-admin passes exactly when the table exists, has the lower-cased method and lists the user's role |
| CorePermissions.MethodCaseIgnored | core/permissions.py:37-38 | the decision is the same for a method and its lower-cased form |
| CorePermissions.ObjectNeedsOwnership | core/permissions.py:54-61 | a non-admin passes the object check exactly when authenticated and the object's `user` or `created_by` is the requester; an object with neither is refused |
| CorePermissions.CombinedChecksAreUnions | core/permissions.py:15-25 | IsAdminOrDoctor and IsAdminOrPharmacist are the disjunctions of the single-role checks |
| UsersAccessRules.UnauthenticatedSeesNothing | users/access_rules.py:32-33 | an unauthenticated user has access to no page |
| UsersAccessRules.AdminSeesEverything | users/access_rules.py:36-37 | an authenticated admin has access to every page, listed or not |
| UsersAccessRules.NonAdminByTable | users/access_rules.py:40 | a non-admin has access exactly when the page is in ROLE_ACCESS of the role; an unknown role has access to nothing |
| UsersAccessRules.DoctorAndPharmacistPages | users/access_rules.py:12-25 | a doctor lacks 'inventory' and 'orders' and a pharmacist has both |
| UsersAccessRules.AdminRowCoversEveryRow | users/access_rules.py:2-26 | every page any role lists is in the admin row |
| UsersPermissions.UnauthenticatedDenied | users/permissions.py:17-18 | an unauthenticated user fails HasRoleAccess and the three single-role checks |
| UsersPermissions.AdminAlwaysPasses | users/permissions.py:21-22 | an authenticated admin passes HasRoleAccess whatever the required role |
| UsersPermissions.NonAdminNeedsRequiredRole | users/permissions.py:25-30 | a non-admin passes exactly when a non-empty required role is set and equals the user's role; no required role means refusal |
| UsersPermissions.RequiredDoctorMatchesCore | users/permissions.py:15-30 | requiring 'doctor' admits exactly the users IsAdminOrDoctor admits |
| UsersPermissions.SingleRoleChecksAgree | users/permissions.py:3-13 | the three single-role checks agree with those of core/permissions.py |
| InventoryModels.DetachBatches | inventory/models.py:63 | log entries keep their order and count; exactly those pointing at a deleted batch lose their batch |
| InventoryModels.LogsNotOf | inventory/models.py:62 | the kept entries are exactly those of other medicines |
| InventoryModels.DeleteBatch | inventory/models.py:63 | deleting a batch removes only it and nulls the batch of exactly the entries that named it |
| InventoryModels.BatchesOf | inventory/models.py:39 | the related batches of a medicine: every batch listed is the medicine's and every batch of the medicine below the bound is listed |
| InventoryModels.BatchIdsOf | inventory/models.py:39 | exactly the ids of the medicine's batches |
| InventoryModels.DeleteMedicine | inventory/models.py:39 | deleting a medicine removes it, exactly its batches and its log entries, and keeps every other batch; the log is exactly the other medicines' entries in order, those that named a deleted batch kept with a null batch |
| InventoryModels.DeleteBatchKeepsConsistent | inventory/models.py:38-68 | deleting a batch keeps ids, foreign keys and the uniqueness constraints valid |
| InventoryModels.DeleteMedicineKeepsConsistent | inventory/models.py:24-68 | deleting a medicine keeps ids, foreign keys and the uniqueness constraints valid |
| InventorySerializers.DaysUntilExpiry | inventory/serializers.py:29-32 | the signed day difference: negative exactly for an expired batch, zero exactly on the expiry day, and today plus it is the expiry date |
| InventorySerializers.TotalQuantityAppend | inventory/serializers.py:59-60 | the total over two lists of batches is the sum of their totals |
| InventorySerializers.TotalQuantityBounds | inventory/serializers.py:59-60 | the total is zero exactly when every batch is empty, and no batch exceeds it |
| InventorySerializers.NoStockIsLowStock | inventory/serializers.py:62-63 | a medicine with no stock is low-stock, since `min_quantity` is non-negative |
| InventorySerializers.TotalOfBatchesOfStep | inventory/serializers.py:59-60 | extending the batch range by one id adds that batch's quantity exactly when it belongs to the medicine |
| InventoryAdjust.OrderBatchNumber | inventory/views.py:189 | an order batch number starts with the order's prefix `ORD-{source_id}-` |
| InventoryAdjust.FindOrderBatch | inventory/views.py:175-178 | the found batch is the first of the medicine whose number has the prefix; none is found only when no such batch exists |
| InventoryAdjust.EligibleIds | inventory/views.py:205-208 | exactly the ids of the medicine's batches with stock, ascending |
| InventoryAdjust.InsertByExpiry | inventory/views.py:208 | inserting keeps the multiset of ids plus the new one |
| InventoryAdjust.SortByExpiry | inventory/views.py:208 | sorting is a permutation of the ids |
| InventoryAdjust.FifoOrder | inventory/views.py:205-208 | the walk order only names existing batches |
| InventoryAdjust.Walk | inventory/views.py:210-246 | the walk keeps the set of batches |
| InventoryAdjust.ReceiveCreatesOrderBatch | inventory/views.py:185-199 | an order item with no batch and no batch of this order creates exactly one batch `ORD-{source}-{medicine}` with the item quantity, expiry today + 365 and the medicine's price unless given, and logs one ADD of +quantity |
| InventoryAdjust.ReceiveIncrementsExistingBatch | inventory/views.py:175-199 | an order item naming a batch, or matching a batch of this order, adds the quantity to it, creates no batch and logs one ADD; it fails unchanged exactly when the batch would go below zero |
| InventoryAdjust.DispenseExactSpec | inventory/views.py:255-277 | exact-batch dispense fails with no change exactly when the batch holds less; otherwise it takes exactly the quantity and logs one DISPENSE of -quantity |
| InventoryAdjust.InsertByExpirySorted | inventory/views.py:208 | insertion keeps the order strictly sorted by (expiry, id) |
| InventoryAdjust.SortByExpirySorted | inventory/views.py:208 | distinct ids come out strictly sorted by (expiry, id) |
| InventoryAdjust.SumQInsert | inventory/views.py:208 | insertion adds the inserted batch's quantity to the stock of the order |
| InventoryAdjust.SumQSort | inventory/views.py:208 | sorting keeps the total stock of the order |
| InventoryAdjust.SumQEligible | inventory/serializers.py:59-60 | the eligible batches hold exactly the medicine's total quantity |
| InventoryAdjust.SortedFacts | inventory/views.py:208 | a strictly sorted order has no repeats and ascending expiry dates |
| InventoryAdjust.FifoOrderSpec | inventory/views.py:205-208 | the walk order lists exactly the medicine's batches with stock, once each, by ascending expiry, and holds the medicine's whole total |
| InventoryAdjust.WalkShape | inventory/views.py:210-246 | the walk touches a prefix of the order, writes one DISPENSE per touched batch equal to the change in that batch and never adds stock |
| InventoryAdjust.WalkUntouched | inventory/views.py:210-246 | batches after the touched prefix and batches outside the order keep their rows |
| InventoryAdjust.WalkAmounts | inventory/views.py:210-246 | what remains is zero when the stock covers the demand and demand minus stock otherwise; the log entries sum to minus what was taken |
| InventoryAdjust.WalkDrains | inventory/views.py:231-246 | every touched batch except the last is emptied; a shortfall touches and empties every batch |
| InventoryAdjust.WalkEmpties | inventory/views.py:231-252 | every touched batch but the last ends at zero; a shortfall leaves every batch in the order at zero |
| InventoryAdjust.WalkConserves | inventory/views.py:210-246 | each batch's new quantity is its old quantity plus its log entries |
| InventoryAdjust.WalkKeepsRows | inventory/views.py:210-246 | every entry the walk writes is a DISPENSE of the medicine against a batch of the table; no batch changes medicine or number |
| InventoryAdjust.FifoOutcome | inventory/views.py:203-254 | FIFO dispense fails exactly when demand exceeds total stock, with every eligible batch already zeroed and the logged amounts equal to minus the total; on success the logged amounts sum to minus the demand |
| InventoryAdjust.ApplyItemsAppend | inventory/views.py:160-288 | items run in order and processing stops at the first failure |
| InventoryAdjust.NotFoundKeepsEarlierItems | inventory/views.py:279-288 | an unknown medicine or batch stops with 404 at that item and keeps every change of the earlier items |
| InventoryAdjust.CreditConserves | inventory/views.py:182-197 | adding to a batch with its log entry conserves stock against the log |
| InventoryAdjust.ApplyItemConserves | inventory/views.py:165-277 | every item operation changes batch quantities by exactly its new log entries and only appends to the log |
| InventoryAdjust.ApplyItemsConserves | inventory/views.py:160-288 | a whole request, failed or not, conserves stock against the appended log |
| InventoryAdjust.ConservesTrans | inventory/views.py:160-288 | conservation composes across consecutive items |
| InventoryAdjust.InPlaceUpdateKeepsConsistent | inventory/models.py:38-68 | changing quantities in place and appending entries with valid references keeps the tables consistent |
| InventoryAdjust.NewOrderBatchKeepsConsistent | inventory/models.py:47-48 | a newly created order batch keeps batch numbers unique per medicine |
| InventoryAdjust.CreditKeepsConsistent | inventory/views.py:182-197 | adding to an existing batch with a log entry for it keeps the schema constraints |
| InventoryAdjust.FifoKeepsConsistent | inventory/views.py:203-254 | the FIFO walk keeps the schema constraints |
| InventoryAdjust.WalkedKeepsConsistent | inventory/views.py:210-246 | writing back a walk's batches and appending its entries keeps the schema constraints |
| InventoryAdjust.ApplyItemKeepsConsistent | inventory/models.py:24-68 | every item operation keeps the schema constraints |
| InventoryAdjust.ApplyItemsKeepsConsistent | inventory/models.py:24-68 | a whole request keeps the schema constraints |
| InventoryViews.Ledger.constructor | inventory/models.py:30 | a new ledger holds the medicines and no batches or logs, and is consistent exactly when barcodes are unique |
| InventoryViews.Ledger.ReceiveOrder | inventory/views.py:172-199 | the in-place receipt leaves the ledger and outcome the receipt rules prescribe |
| InventoryViews.Ledger.DispenseFromBatch | inventory/views.py:255-277 | the in-place exact dispense matches the exact-dispense rules |
| InventoryViews.Ledger.TakeFromBatch | inventory/views.py:215-246 | one visited batch gives what it holds up to the outstanding demand, never more than the demand, and one DISPENSE of minus that amount is logged |
| InventoryViews.Ledger.WalkBatches | inventory/views.py:210-246 | the in-place loop leaves the batches, appended logs and remainder of the walk |
| InventoryViews.Ledger.DispenseByExpiry | inventory/views.py:203-254 | the in-place FIFO dispense matches the FIFO rules |
| InventoryViews.Ledger.ProcessItem | inventory/views.py:165-288 | one in-place item pass leaves the ledger and outcome of the item rules, including the 404s and the unassigned source type |
| InventoryViews.Ledger.AdjustInventory | inventory/views.py:145-290 | for an authenticated caller, the whole view leaves the ledger and outcome of the request's rules: a 403 for other roles, then items in order up to the first failure |
| InventoryViews.Ledger.LowStock | inventory/views.py:90-105 | for an authenticated caller, 403 exactly for roles other than admin and pharmacist; otherwise exactly the medicines whose batch total is at most `min_quantity`, in id order |
| InventoryViews.SupplierTableUnused | inventory/views.py:16-27 | a pharmacist passes IsAdminOrPharmacist, which the supplier view set checks, though its role table refuses POST and DELETE |
| InventoryViews.AdjustGateMatchesTable | inventory/views.py:150-154 | for an authenticated user the view's role check admits exactly those the medicine table admits for POST |
| PrescriptionModels.HistoryNotOf | prescriptions/models.py:57 | the kept entries are exactly those of other prescriptions |
| PrescriptionModels.DeletePrescription | prescriptions/models.py:43 | deleting a prescription removes it, exactly its items and its history entries (the others kept in order), and keeps patients, medicines and both id counters |
| PrescriptionModels.CanRefillBound | prescriptions/models.py:39-40 | can_refill holds exactly when the status is 'active' and `refill_count < max_refills` |
| PrescriptionModels.DefaultsCannotRefill | prescriptions/models.py:32-40 | default counters, or a status other than 'active', cannot refill |
| PrescriptionModels.DefaultsAreChoices | prescriptions/models.py:8-29 | the default status and priority are among the choices |
| PrescriptionModels.DeletePrescriptionKeepsConsistent | prescriptions/models.py:22-61 | deletion keeps every foreign key resolving |
| PrescriptionModels.PrescriptionBook.constructor | prescriptions/models.py:22-61 | a new book has no prescriptions, items or history and is consistent |
| PrescriptionViews.PrescriptionQueryset | prescriptions/views.py:48-106 | exactly the prescriptions the role filter and every given query filter admit |
| PrescriptionViews.RoleFiltersBound | prescriptions/views.py:59-70 | a doctor sees only their own prescriptions; a pharmacist only 'active' or 'pending' ones |
| PrescriptionViews.UnfilteredRolesSeeAll | prescriptions/views.py:59-70 | with a role other than doctor and pharmacist (or, in `get_queryset` alone, no profile), the unfiltered queryset is every prescription |
| PrescriptionViews.QueryOnlyNarrows | prescriptions/views.py:75-99 | query filters only narrow the role's queryset, and the date range applies only with both bounds |
| PrescriptionViews.ItemQueryset | prescriptions/views.py:298-312 | exactly the items matching the prescription filter whose prescription the role filter admits |
| PrescriptionViews.Admission | core/permissions.py:27-61 | a detail action reaches its body exactly for an admin listed by the action and a visible existing prescription; otherwise 403 or 404 |
| PrescriptionViews.RefillStep | prescriptions/views.py:185-212 | refill succeeds exactly for an admin on a visible refillable prescription, adding one refill, stamping the date, keeping `refill_count <= max_refills` and logging one 'refilled'; a pharmacist gets 403; failures change nothing |
| PrescriptionViews.CancelStep | prescriptions/views.py:214-241 | cancel succeeds exactly for an admin on a visible active prescription, setting 'cancelled' and logging one 'cancelled'; a non-active one gets 400; failures change nothing |
| PrescriptionViews.ActionsKeepConsistent | prescriptions/views.py:185-241 | refill and cancel keep the records consistent |
| PrescriptionViews.Refill | prescriptions/views.py:185-212 | the in-place refill matches its step |
| PrescriptionViews.Cancel | prescriptions/views.py:214-241 | the in-place cancel matches its step |
| PrescriptionViews.AssignAllKeepsReadOnly | prescriptions/serializers.py:50 | writing validated fields never changes the read-only fields |
| PrescriptionViews.AssignAllLastWins | prescriptions/serializers.py:68-75 | fields are written in order, so the last write wins |
| PrescriptionViews.Overrides | prescriptions/views.py:141-147 | at most three overrides, each of `staff_id`, `prescriber_contact` and `notes` present exactly when sent, `notes` written last |
| PrescriptionViews.UpdateStep | prescriptions/views.py:129-159 | update succeeds exactly for an admin on a visible prescription with valid fields, changes only that prescription, to the validated fields followed by the request overrides, and logs 'updated' twice; failures change nothing |
| PrescriptionViews.UpdateEffect | prescriptions/views.py:129-159 | an update keeps the read-only fields; a sent `staff_id`, `prescriber_contact` or `notes` wins; every validated field not written again later and not overridden is stored; every attribute nothing writes keeps its value |
| PrescriptionViews.UpdateKeepsConsistent | prescriptions/views.py:129-159 | a successful update keeps every foreign key resolving: a validated `patient` exists and no other key changes |
| PrescriptionViews.UpdateOverrides | prescriptions/views.py:141-158 | after the writes the read-only fields are unchanged and each sent override holds |
| PrescriptionViews.UpdateWritesFields | prescriptions/serializers.py:68-75 | each validated field not overwritten later or overridden holds, and attributes nothing writes keep their values |
| PrescriptionViews.AssignAllWritesEach | prescriptions/serializers.py:68-75 | a field not written again later holds after the assignments |
| PrescriptionViews.AssignAllKeeps | prescriptions/serializers.py:68-75 | a value survives assignments none of which writes its attribute |
| PrescriptionViews.AssignAllKeepsPatient | prescriptions/serializers.py:68-75 | a written patient comes from the patient table |
| PrescriptionViews.UpdateCanUndercutRefills | prescriptions/serializers.py:68-75 | an admin update can leave `refill_count` above `max_refills` |
| PrescriptionViews.PerformUpdate | prescriptions/views.py:129-159 | the in-place update matches its step |
| PrescriptionViews.CreatedQuantity | prescriptions/views.py:337 | the expression for `quantity`: a falsy value becomes 1 and any other is kept, negative exactly when a negative was sent (validation already refuses a missing or negative quantity, so only 0 reaches the default) |
| PrescriptionViews.CreatedRoute | prescriptions/views.py:340 | the expression for `route`: a falsy value becomes 'oral' and any other is kept (validation already refuses a missing or blank route) |
| PrescriptionViews.BuildItem | prescriptions/views.py:466-480 | a built item belongs to the prescription and medicine, with the drug name from the medicine, or, in the lenient view, from the request; dosage defaults to '' and route to 'oral' |
| PrescriptionViews.CountFound | prescriptions/urls.py:80-93 | no more items are counted than were sent |
| PrescriptionViews.AddItemsShape | prescriptions/urls.py:80-107 | items get consecutive fresh ids, old items are kept, and each new item belongs to the prescription and an existing medicine |
| PrescriptionViews.CheckedCreatesEveryItem | prescriptions/views.py:466-480 | when every item can be created, the checked view creates one per item |
| PrescriptionViews.CreateItems | prescriptions/views.py:466-480 | the in-place item loop matches the item rules and changes nothing else |
| PrescriptionViews.NewPrescription | prescriptions/views.py:450-463 | the new prescription has the patient, prescriber, time, expiry and refill limit given, zero refills, and defaults 'active', 'medium' and '' for absent values |
| PrescriptionViews.StockPrecheckSpec | prescriptions/views.py:414-442 | the pre-check reports the first unknown medicine exactly when one exists; otherwise it lists exactly the short items, empty exactly when all have enough |
| PrescriptionViews.CheckStock | prescriptions/views.py:414-442 | the pre-check loop computes the pre-check |
| PrescriptionViews.CreationKeepsConsistent | prescriptions/views.py:450-488 | creating a prescription with its items and history keeps the records consistent |
| PrescriptionViews.WriteCreation | prescriptions/views.py:450-488 | the prescription is written under the next id before its items, which are then written in order up to the first that cannot be created; nothing else changes |
| PrescriptionViews.CreateChecked | prescriptions/views.py:386-526 | the outcome of every request: 400 without a patient id, 404 for an unknown patient, 400 for no items, 404 for the first unknown medicine, 400 listing every short item, and otherwise a creation exactly when `max_refills` and every item quantity are non-negative, else 500; nothing is written unless the patient exists, items are sent, the pre-check passes and `max_refills` is not negative; a success writes the prescription (expiry today + 30 unless given), one item per request item and one 'created' entry; a failing item leaves the prescription and the earlier items, with no history entry |
| PrescriptionViews.AddItemsShapeChecked | prescriptions/views.py:466-480 | the checked loop, when it completes, creates one item per request item |
| PrescriptionViews.AddItemsCount | prescriptions/urls.py:80-107 | the loop fails exactly when a found item cannot be created, and otherwise creates one item per found medicine |
| PrescriptionUrls.CreatePrescription | prescriptions/urls.py:24-160 | 400 for a falsy patient id, 404 for an unknown patient and 500 for a negative `max_refills`, all before any write; for an existing patient the prescription is created exactly when `max_refills` and every found item's quantity are non-negative, and the request gets 500 otherwise; a success writes the prescription (expiry 2024-01-01 unless given), items for the found medicines only, reports their count and appends one 'created' entry; a negative item quantity gives 500 after the prescription and the earlier items are written, and they stay |
| PrescriptionUrls.LenientSkipsUnknown | prescriptions/urls.py:83-93 | items without a found medicine are skipped: with none found, nothing is created and nothing fails |
| StaffModels.StatusChangeDetails | staff/views.py:97 | the activity text starts with "Status changed from " and the old status |
| StaffModels.StatusChoicesDistinct | staff/models.py:22-26 | three distinct statuses, the default among them |
| StaffModels.StaffRoster.constructor | staff/models.py:28-61 | a new roster holds the accounts and no staff, and is consistent |
| StaffSerializers.FullName | staff/serializers.py:77-78 | the full name is the first name, one space, then the last name |
| StaffSerializers.CreateStep | staff/serializers.py:83-91 | a row clashing on `staff_id` or account changes nothing; otherwise it is added under the next id with exactly one 'created' activity |
| StaffSerializers.CreateKeepsConsistent | staff/serializers.py:83-91 | create keeps the staff tables consistent |
| StaffSerializers.Create | staff/serializers.py:83-91 | the in-place create matches its step |
| StaffSerializers.SetFieldEffect | staff/serializers.py:98-100 | `setattr` writes its attribute, keeps every other and never touches `staff_id` |
| StaffSerializers.SetFieldsWritesEach | staff/serializers.py:98-100 | every validated field not overwritten later holds after the loop |
| StaffSerializers.SetFieldsKeeps | staff/serializers.py:98-100 | an attribute no field writes keeps its value |
| StaffSerializers.SetFieldsStatus | staff/serializers.py:94-100 | the loop leaves the requested status and never changes `staff_id` |
| StaffSerializers.UpdateStep | staff/serializers.py:93-111 | the save is refused, with nothing written, exactly when another row holds the account the fields leave on the row (`user` is one-to-one, staff/models.py:28); otherwise update writes the fields to that row only and touches nothing else but the activities |
| StaffSerializers.SharedAccountRefused | staff/serializers.py:93-111 | moving a row onto another row's account writes nothing |
| StaffSerializers.UpdateKeepsConsistent | staff/serializers.py:93-111 | an update with fields naming existing accounts and departments keeps the staff tables consistent, each account held by at most one row |
| StaffSerializers.SetFieldsResolve | staff/serializers.py:98-100 | writing fields that name existing accounts and departments leaves a row whose keys resolve |
| StaffSerializers.UpdateLogsStatusChange | staff/serializers.py:94-109 | on a save, one 'status_changed' activity exactly when the status ends different; none when it is unchanged or not sent |
| StaffSerializers.Update | staff/serializers.py:93-111 | the `setattr` loop on the instance, then the save or its refusal, matches the update step |
| StaffViews.StaffQueryset | staff/views.py:29-51 | exactly the members every given filter admits |
| StaffViews.StaffQueryNarrows | staff/views.py:39-51 | filters only narrow the full roster, and a member is found by searching their lower-cased `staff_id` |
| StaffViews.SortKey | staff/views.py:54-66 | 'name' maps to `user__last_name`, 'department' to `department__name`, any other key to itself |
| StaffViews.SortField | staff/views.py:54-70 | no ordering without `sort_by`; '-' is prefixed exactly when `sort_order` is 'desc' |
| StaffViews.GeneratedStaffId | staff/views.py:74-76 | a generated id is 'S' and five upper-case hex digits, the upper-cased first five of the uuid |
| StaffViews.UpperHexRoundTrip | staff/views.py:75 | upper-casing lower-case hex gives upper-case hex, and lower-casing restores it |
| StaffViews.PerformCreate | staff/views.py:74-76 | perform_create is the serializer's create with the generated id |
| StaffViews.UpdateStatusStep | staff/views.py:78-101 | a visible member with a status among the choices gets it and one 'status_changed' activity, even when unchanged; any other status gets 400 with no change |
| StaffViews.UpdateStatusKeepsConsistent | staff/views.py:78-101 | update_status keeps the tables consistent and only stores statuses among the choices |
| StaffViews.UpdateStatus | staff/views.py:78-101 | the in-place update_status matches its step |
| StaffViews.ExperienceBucketsAddUp | staff/views.py:144-155 | the four experience counts add up to `total_staff` |
| StaffViews.BucketsCover | staff/views.py:144-155 | every member falls in one of the four experience buckets |
| StaffViews.BucketsDisjoint | staff/views.py:144-155 | no member falls in two experience buckets |
| StaffViews.StatusCountsBound | staff/views.py:127-129 | the active and on-leave counts together do not exceed the total |
| StaffUrls.LeadingWord | staff/urls.py:42 | the first word is a prefix free of whitespace, ended by whitespace or the end |
| StaffUrls.TokensAreWords | staff/urls.py:42 | `split()` yields non-empty whitespace-free words |
| StaffUrls.LeadingWordOf | staff/urls.py:42 | a word followed by whitespace or nothing is read back as the first word |
| StaffUrls.TokensOfJoin | staff/urls.py:42-44 | splitting words joined by single spaces gives the words back |
| StaffUrls.NameSplit | staff/urls.py:41-44 | `first_name` is the first token or ''; `last_name` is '' under two tokens, else the remaining tokens; the full name is the tokens joined, or the single token and a space |
| StaffUrls.NameRoundTrip | staff/urls.py:41-44 | a name of two or more words splits into the first word and the rest, and its full name is the name |
| StaffUrls.Username | staff/urls.py:47 | the username is 'staff_' followed by the id, of matching length |
| StaffUrls.UsernameCaseless | staff/urls.py:47 | usernames are lower-case, and two ids give the same username exactly when they agree ignoring case |
| StaffUrls.EmailOf | staff/urls.py:48 | the email given, or the username followed by '@example.com' |
| StaffUrls.Lowered | staff/urls.py:72-74 | the value, or its default, lower-cased |
| StaffUrls.LoweredChoices | staff/urls.py:72-74 | the defaults are valid choices; 'Doctor' becomes 'doctor', 'ON_LEAVE' becomes 'on_leave', and 'Chef' becomes 'chef', which is not a role |
| StaffUrls.SplitOn | staff/urls.py:81 | `split(',')` gives at least one part and no part contains the separator |
| StaffUrls.JoinSplitOn | staff/urls.py:81 | joining the parts with the separator gives the text back |
| StaffUrls.SplitOnJoin | staff/urls.py:81 | splitting separator-free parts joined by the separator gives the parts back |
| StaffUrls.Qualifications | staff/urls.py:81 | absent gives [''], text gives parts that join back to it, a list is passed through |
| StaffUrls.EmergencyContact | staff/urls.py:64-66 | a non-empty `emergency_contact` is kept; otherwise `emergencyContact` is used; the result is empty exactly when both are |
| StaffUrls.Choices | staff/urls.py:38 | a choice of the given length from the characters |
| StaffUrls.GeneratePassword | staff/urls.py:36-38 | twelve characters, each a letter, digit or punctuation mark |
| StaffUrls.EveryChoicePossible | staff/urls.py:36-38 | every string over the characters is some sequence of choices |
| StaffUrls.GetOrCreateDepartment | staff/urls.py:60-61 | an existing department of the name is returned unchanged; none creates one; several is a failure |
| StaffUrls.GetOrCreateIdempotent | staff/urls.py:61 | fetching the same name again returns the same department and changes nothing |
| StaffUrls.GetOrCreateKeepsConsistent | staff/urls.py:61 | get_or_create keeps the tables consistent |
| StaffUrls.AddAccount | staff/urls.py:51-57 | the account goes under the next user id and nothing else changes |
| StaffUrls.AddMember | staff/urls.py:69-82 | the row goes under the next staff id and nothing else changes |
| StaffUrls.AddAccountKeepsConsistent | staff/urls.py:51-57 | adding an account keeps the tables consistent |
| StaffUrls.AddMemberKeepsConsistent | staff/urls.py:69-82 | adding a row with a fresh `staff_id` and account keeps the tables consistent |
| StaffUrls.CreateStaffStep | staff/urls.py:21-103 | the authentication failure exactly when unauthenticated; no activity ever; a taken username changes nothing; otherwise the account is written; only a success adds a row, under the next id |
| StaffUrls.CreatedRow | staff/urls.py:33-82 | a created row points to the new account named 'staff_' and the lower-cased id, to a department of the requested name, with lower-cased role and status and a free `staff_id`; every other attribute is the request's value or its default (`MemberOf`), including the split qualifications and the emergency contact |
| StaffUrls.RefusedYearsKeepAccount | staff/urls.py:80 | an unreadable year count fails with the new account left behind |
| StaffUrls.CreateStaffKeepsConsistent | staff/urls.py:21-103 | create_staff, failed or not, keeps the tables consistent |
| StaffUrls.CaseVariantIdsCollide | staff/urls.py:47 | after a create, another with an id differing only in case fails |
| StaffUrls.CreateStaff | staff/urls.py:21-103 | the in-place create_staff matches its step |

## Left out

- HTTP, JSON shapes, routers and serializer field rendering are left out. Outcomes are result values, and responses are not rebuilt.
- Querysets are sets. Their ordering (`order_by` in list views and in `get_queryset`) is left out, and so are pagination and response order. The FIFO walk is the one ordered query: it uses (expiry date, id), and the id breaks ties the database leaves open.
- InventoryViews.Ledger.AdjustInventory and InventoryViews.Ledger.LowStock start after authentication: an anonymous caller is refused by `IsAuthenticated` (inventory/views.py:58) before either body runs, and `Request` and the `role` parameter have no anonymous case.
- A user without a `UserProfile` is not modelled, and every account `create_staff` makes is one. Every role check reads `request.user.userprofile` without a fallback (core/permissions.py:33, 50; users/permissions.py:21; users/access_rules.py:36; inventory/views.py:92, 150; prescriptions/views.py:187, 216, 305), so such a user gets a 500 from CorePermissions.RoleBasedHasPermission, UsersPermissions.HasRoleAccess, UsersAccessRules.HasAccess, InventoryViews.Ledger.AdjustInventory, InventoryViews.Ledger.LowStock, PrescriptionViews.Admission and PrescriptionViews.ItemQueryset. In the model `User.role` is always a profile's role.
- Concurrency is left out. Each request runs alone, so unguarded read-modify-write races between requests are not modelled.
- `date.today()`, `timezone.now()`, `uuid4` and `random.choice` are parameters, not computed.
- Decimal fields (`price_per_unit`, `cost_per_unit`) are copied as opaque values; no arithmetic is modelled.
- Django's `create_user` normalises emails and hashes passwords; the model stores them as given.
- `max_length` limits on character fields are left out. Case mapping is ASCII only.
- Prescription `statistics`, the staff role and department distributions in `statistics`, and the `recent`, `active` and `expired` list actions are aggregation queries and are left out.
- `PrescriptionViewSet.perform_create` and `PrescriptionItemViewSet.perform_update` are left out. Item creation keeps only its two defaults, quantity and route (`CreatedQuantity`, `CreatedRoute`).
- Query parameters and request fields arrive already parsed (ids as numbers, dates as day numbers). A value that fails to parse is not modelled, except for the staff year count (`YearsNotANumber`).
- StaffViews.SortKey: ordering by `hire_date`, or by any other key that is not a field of `Staff`, fails when the query is evaluated; the model passes the key through and leaves out that failure.
- InventoryAdjust.FifoOutcome: it is stated for a demand above zero; a demand of zero or less takes nothing and succeeds, which the step function models but no lemma states.
- PrescriptionViews.CreateChecked: the stock each medicine holds is the abstract `available`, because the source reads a `quantity` field `Medicine` does not have. As written, that read raises for the first item whose medicine exists, so the view answers 500 with nothing written (404 if an earlier item's medicine is unknown); the model gives the outcome of the pre-check the view is written to make.
- PrescriptionViews.RefillStep: a pharmacist, whom the body's own check would let through, is refused earlier by `has_permission`, whose POST row lists only admin and doctor; the model states that 403 rather than a refill.
- StaffUrls.CreateStaffStep: a failure from the database other than a taken username or `staff_id`, several departments of the name or an unreadable year count is not modelled.
