/** prescriptions/views.py: the role and query filters of the two
    `get_queryset` methods, the `refill` and `cancel` actions and
    `perform_update` of `PrescriptionViewSet` behind their permission
    checks, the item defaults of `PrescriptionItemViewSet.perform_create`,
    and the function view `create_prescription` with its stock pre-check.
    The item-creation loop is shared with prescriptions/urls.py. */
module PrescriptionViews {
  import opened Base
  import opened InventoryModels
  import opened CorePermissions
  import opened PrescriptionModels

  /** A status the pharmacist filter admits although no prescription
      status choice carries it. */
  const PENDING: string := "pending"

  /** `role_permissions` of `PrescriptionViewSet`, and of
      `PrescriptionItemViewSet`, which has the same table. */
  const PRESCRIPTION_ROLE_PERMISSIONS: RoleTable := map[
    "get" := [ADMIN, DOCTOR, PHARMACIST],
    "post" := [ADMIN, DOCTOR],
    "put" := [ADMIN, DOCTOR],
    "patch" := [ADMIN, DOCTOR],
    "delete" := [ADMIN]]

  /** A prescription has neither a `user` nor a `created_by` attribute. */
  const PRESCRIPTION_OWNERSHIP: Ownership := Ownership(None, None)

  // --- get_queryset ------------------------------------------------------

  /** The requester as `get_queryset` sees them: `role` is `None` for a
      user without a profile. */
  datatype Viewer = Viewer(user: UserId, role: Option<string>)

  function ViewerOf(u: User): Viewer
  {
    Viewer(u.id, Some(u.role))
  }

  /** The role filter: a doctor sees what they prescribed, a pharmacist
      the active and pending ones, anyone else everything. */
  predicate RoleVisible(v: Viewer, p: Prescription)
  {
    match v.role
    case None => true
    case Some(role) =>
      if role == ADMIN then true
      else if role == DOCTOR then p.prescribedBy == v.user
      else if role == PHARMACIST then p.status in [ACTIVE, PENDING]
      else true
  }

  /** The query parameters. `None` stands for an absent parameter; an
      empty string is falsy and filters nothing either. Dates are day
      ordinals. */
  datatype PrescriptionQuery = PrescriptionQuery(
    patientId: Option<PatientId>,
    status: Option<string>,
    priority: Option<string>,
    startDate: Option<Date>,
    endDate: Option<Date>)

  const NO_QUERY: PrescriptionQuery := PrescriptionQuery(None, None, None, None, None)

  predicate Given(o: Option<string>)
  {
    o.Some? && o.value != ""
  }

  /** The query filters as one condition: each given parameter must
      match, and the date range counts only when both bounds are given.
      A date bound stands for midnight of that day, so the range ends at
      the first instant of its end day. */
  predicate QueryMatches(q: PrescriptionQuery, p: Prescription)
  {
    && (q.patientId.Some? ==> p.patient == q.patientId.value)
    && (Given(q.status) ==> p.status == q.status.value)
    && (Given(q.priority) ==> p.priority == q.priority.value)
    && (q.startDate.Some? && q.endDate.Some? ==>
          DayStart(q.startDate.value) <= p.datePrescribed <= DayStart(q.endDate.value))
  }

  function Filter(ps: map<PrescriptionId, Prescription>, s: set<PrescriptionId>, keep: Prescription -> bool): set<PrescriptionId>
  {
    set id | id in s && id in ps && keep(ps[id])
  }

  /** `PrescriptionViewSet.get_queryset`: the role filter, then the
      patient, status, priority and date filters one after another. The
      result is the set of prescriptions that pass the role filter and
      every query condition. */
  function PrescriptionQueryset(v: Viewer, q: PrescriptionQuery, ps: map<PrescriptionId, Prescription>): (r: set<PrescriptionId>)
    ensures forall id :: id in r <==> id in ps && RoleVisible(v, ps[id]) && QueryMatches(q, ps[id])
  {
    var byRole := Filter(ps, ps.Keys, (p: Prescription) => RoleVisible(v, p));
    var byPatient := if q.patientId.Some? then Filter(ps, byRole, (p: Prescription) => p.patient == q.patientId.value) else byRole;
    var byStatus := if Given(q.status) then Filter(ps, byPatient, (p: Prescription) => p.status == q.status.value) else byPatient;
    var byPriority := if Given(q.priority) then Filter(ps, byStatus, (p: Prescription) => p.priority == q.priority.value) else byStatus;
    if q.startDate.Some? && q.endDate.Some? then
      Filter(ps, byPriority, (p: Prescription) => DayStart(q.startDate.value) <= p.datePrescribed <= DayStart(q.endDate.value))
    else byPriority
  }

  /** A doctor sees only their own prescriptions and a pharmacist only
      active or pending ones, whatever the query. */
  lemma RoleFiltersBound(v: Viewer, q: PrescriptionQuery, ps: map<PrescriptionId, Prescription>)
    ensures v.role == Some(DOCTOR) ==> forall id :: id in PrescriptionQueryset(v, q, ps) ==> ps[id].prescribedBy == v.user
    ensures v.role == Some(PHARMACIST) ==> forall id :: id in PrescriptionQueryset(v, q, ps) ==> ps[id].status in [ACTIVE, PENDING]
  {
  }

  /** An admin, a user without a profile, and a user whose role is none
      of the three see every prescription when no parameter is given. */
  lemma UnfilteredRolesSeeAll(v: Viewer, ps: map<PrescriptionId, Prescription>)
    requires v.role.None? || v.role.value !in [DOCTOR, PHARMACIST]
    ensures PrescriptionQueryset(v, NO_QUERY, ps) == ps.Keys
  {
  }

  /** The parameters only narrow what the role filter admits, and a date
      range with one bound missing is ignored. */
  lemma QueryOnlyNarrows(v: Viewer, q: PrescriptionQuery, ps: map<PrescriptionId, Prescription>)
    ensures PrescriptionQueryset(v, q, ps) <= PrescriptionQueryset(v, NO_QUERY, ps)
    ensures q.startDate.None? || q.endDate.None? ==>
      PrescriptionQueryset(v, q, ps) == PrescriptionQueryset(v, q.(startDate := None, endDate := None), ps)
  {
  }

  /** `PrescriptionItemViewSet.get_queryset`: the `prescription_id`
      filter, then the role filter applied to the parent prescription.
      The profile is read without a fallback, so `role` is a plain
      string here. Where every item's parent exists, an item is visible
      exactly when its parent passes `RoleVisible`. */
  function ItemQueryset(role: string, user: UserId, prescriptionFilter: Option<PrescriptionId>,
                        ps: map<PrescriptionId, Prescription>, items: map<ItemId, PrescriptionItem>): (r: set<ItemId>)
    ensures r <= items.Keys
    ensures (forall i :: i in items ==> items[i].prescription in ps) ==>
      forall i :: i in r <==>
        && i in items
        && (prescriptionFilter.Some? ==> items[i].prescription == prescriptionFilter.value)
        && RoleVisible(Viewer(user, Some(role)), ps[items[i].prescription])
  {
    var byPrescription :=
      if prescriptionFilter.Some? then set i | i in items && items[i].prescription == prescriptionFilter.value
      else items.Keys;
    if role == ADMIN then byPrescription
    else if role == DOCTOR then
      set i | i in byPrescription && i in items && items[i].prescription in ps && ps[items[i].prescription].prescribedBy == user
    else if role == PHARMACIST then
      set i | i in byPrescription && i in items && items[i].prescription in ps && ps[items[i].prescription].status in [ACTIVE, PENDING]
    else byPrescription
  }

  // --- detail actions -----------------------------------------------------

  /** Response classes of the detail actions: 200, 403, 404, 400. */
  datatype ActionOutcome = Done | Forbidden | NotFound | BadRequest

  datatype Change = Change(records: Records, outcome: ActionOutcome)

  /** The checks before a detail action on prescription `id` runs:
      `IsAuthenticated` and `RoleBasedPermission` for the method, the
      action's own role list when it has one, `get_object` (404 outside
      the queryset for the current parameters) and the object check.
      Since a prescription has no owner attributes, only an admin gets
      through. */
  function Admission(ps: map<PrescriptionId, Prescription>, u: User, httpMethod: string,
                     actionRoles: Option<seq<string>>, q: PrescriptionQuery, id: PrescriptionId): (a: ActionOutcome)
    ensures a == Done <==>
      && u.authenticated && u.role == ADMIN
      && (actionRoles.None? || ADMIN in actionRoles.value)
      && id in ps && QueryMatches(q, ps[id])
    ensures a == Done || a == Forbidden || a == NotFound
    ensures actionRoles.Some? && u.role !in actionRoles.value ==> a == Forbidden
  {
    if !RoleBasedHasPermission(u, httpMethod, Some(PRESCRIPTION_ROLE_PERMISSIONS)) then Forbidden
    else if actionRoles.Some? && u.role !in actionRoles.value then Forbidden
    else if id !in PrescriptionQueryset(ViewerOf(u), q, ps) then NotFound
    else if !RoleBasedHasObjectPermission(u, PRESCRIPTION_OWNERSHIP) then Forbidden
    else Done
  }

  const REFILL_ROLES: seq<string> := [ADMIN, PHARMACIST]
  const CANCEL_ROLES: seq<string> := [ADMIN, DOCTOR]

  /** `PrescriptionViewSet.refill` (POST). A role outside admin and
      pharmacist is refused; in fact only an admin gets through, and
      then a prescription `can_refill` refuses gets 400. A refill adds
      one to `refill_count`, stamps `last_refill_date`, appends one
      'refilled' entry and keeps `refill_count <= max_refills`; every
      other outcome changes nothing. */
  function RefillStep(r: Records, u: User, q: PrescriptionQuery, id: PrescriptionId, now: Timestamp): (c: Change)
    ensures c.outcome == Done <==>
      u.authenticated && u.role == ADMIN && id in r.prescriptions && QueryMatches(q, r.prescriptions[id])
      && CanRefill(r.prescriptions[id])
    ensures u.role !in REFILL_ROLES ==> c.outcome == Forbidden
    ensures u.role == PHARMACIST ==> c.outcome == Forbidden
    ensures c.outcome == BadRequest <==>
      u.authenticated && u.role == ADMIN && id in r.prescriptions && QueryMatches(q, r.prescriptions[id])
      && !CanRefill(r.prescriptions[id])
    ensures c.outcome != Done ==> c.records == r
    ensures c.outcome == Done ==>
      var p := r.prescriptions[id];
      && c.records == r.(prescriptions := c.records.prescriptions, history := c.records.history)
      && c.records.prescriptions == r.prescriptions[id := p.(refillCount := p.refillCount + 1, lastRefillDate := Some(now))]
      && c.records.prescriptions[id].refillCount <= c.records.prescriptions[id].maxRefills
      && c.records.history == r.history + [HistoryEntry(id, "refilled", u.id, "")]
  {
    var a := Admission(r.prescriptions, u, "POST", Some(REFILL_ROLES), q, id);
    if a != Done then Change(r, a)
    else
      var p := r.prescriptions[id];
      if !CanRefill(p) then Change(r, BadRequest)
      else
        Change(r.(prescriptions := r.prescriptions[id := p.(refillCount := p.refillCount + 1, lastRefillDate := Some(now))],
                  history := r.history + [HistoryEntry(id, "refilled", u.id, "")]),
               Done)
  }

  /** `PrescriptionViewSet.cancel` (POST); `notes` is the request's
      `notes`, '' when absent. A role outside admin and doctor is
      refused, and only an admin gets through; a prescription that is not
      active gets 400. A cancel sets the status to 'cancelled', after
      which it cannot be refilled, and appends one 'cancelled' entry. */
  function CancelStep(r: Records, u: User, q: PrescriptionQuery, id: PrescriptionId, notes: string): (c: Change)
    ensures c.outcome == Done <==>
      u.authenticated && u.role == ADMIN && id in r.prescriptions && QueryMatches(q, r.prescriptions[id])
      && r.prescriptions[id].status == ACTIVE
    ensures u.role !in CANCEL_ROLES ==> c.outcome == Forbidden
    ensures u.role == DOCTOR ==> c.outcome == Forbidden || c.outcome == NotFound
    ensures c.outcome == BadRequest <==>
      u.authenticated && u.role == ADMIN && id in r.prescriptions && QueryMatches(q, r.prescriptions[id])
      && r.prescriptions[id].status != ACTIVE
    ensures c.outcome != Done ==> c.records == r
    ensures c.outcome == Done ==>
      && c.records == r.(prescriptions := c.records.prescriptions, history := c.records.history)
      && c.records.prescriptions == r.prescriptions[id := r.prescriptions[id].(status := CANCELLED)]
      && !CanRefill(c.records.prescriptions[id])
      && c.records.history == r.history + [HistoryEntry(id, "cancelled", u.id, notes)]
  {
    var a := Admission(r.prescriptions, u, "POST", Some(CANCEL_ROLES), q, id);
    if a != Done then Change(r, a)
    else
      var p := r.prescriptions[id];
      if p.status != ACTIVE then Change(r, BadRequest)
      else
        Change(r.(prescriptions := r.prescriptions[id := p.(status := CANCELLED)],
                  history := r.history + [HistoryEntry(id, "cancelled", u.id, notes)]),
               Done)
  }

  /** A refill or a cancel that goes through keeps the foreign keys
      resolving. */
  lemma ActionsKeepConsistent(r: Records, u: User, q: PrescriptionQuery, id: PrescriptionId, now: Timestamp, notes: string)
    requires RecordsConsistent(r)
    ensures RecordsConsistent(RefillStep(r, u, q, id, now).records)
    ensures RecordsConsistent(CancelStep(r, u, q, id, notes).records)
  {
  }

  /** `refill` on the book. */
  method Refill(book: PrescriptionBook, u: User, q: PrescriptionQuery, id: PrescriptionId, now: Timestamp)
    returns (outcome: ActionOutcome)
    modifies book
    ensures Change(book.Snapshot(), outcome) == RefillStep(old(book.Snapshot()), u, q, id, now)
  {
    outcome := Admission(book.prescriptions, u, "POST", Some(REFILL_ROLES), q, id);
    if outcome != Done {
      return;
    }
    var p := book.prescriptions[id];
    if !CanRefill(p) {
      return BadRequest;
    }
    book.prescriptions := book.prescriptions[id := p.(refillCount := p.refillCount + 1, lastRefillDate := Some(now))];
    book.history := book.history + [HistoryEntry(id, "refilled", u.id, "")];
  }

  /** `cancel` on the book. */
  method Cancel(book: PrescriptionBook, u: User, q: PrescriptionQuery, id: PrescriptionId, notes: string)
    returns (outcome: ActionOutcome)
    modifies book
    ensures Change(book.Snapshot(), outcome) == CancelStep(old(book.Snapshot()), u, q, id, notes)
  {
    outcome := Admission(book.prescriptions, u, "POST", Some(CANCEL_ROLES), q, id);
    if outcome != Done {
      return;
    }
    var p := book.prescriptions[id];
    if p.status != ACTIVE {
      return BadRequest;
    }
    book.prescriptions := book.prescriptions[id := p.(status := CANCELLED)];
    book.history := book.history + [HistoryEntry(id, "cancelled", u.id, notes)];
  }

  // --- update ------------------------------------------------------------

  /** A writable field of the prescription serializer with its validated
      value. `prescribed_by`, `date_prescribed`, `refill_count` and
      `last_refill_date` are read-only and have no constructor here. */
  datatype WritableField =
    | PatientField(patient: PatientId)
    | StaffIdField(staffId: Option<string>)
    | ContactField(contact: Option<string>)
    | ExpiryField(expiry: Date)
    | StatusField(status: string)
    | PriorityField(priority: string)
    | NotesField(notes: string)
    | SpecialInstructionsField(instructions: string)
    | MaxRefillsField(maxRefills: nat)

  function Assign(p: Prescription, f: WritableField): Prescription
  {
    match f
    case PatientField(x) => p.(patient := x)
    case StaffIdField(x) => p.(staffId := x)
    case ContactField(x) => p.(prescriberContact := x)
    case ExpiryField(x) => p.(expiryDate := x)
    case StatusField(x) => p.(status := x)
    case PriorityField(x) => p.(priority := x)
    case NotesField(x) => p.(notes := x)
    case SpecialInstructionsField(x) => p.(specialInstructions := x)
    case MaxRefillsField(x) => p.(maxRefills := x)
  }

  /** The serializer's update: each field in turn is set on the instance. */
  function AssignAll(p: Prescription, fs: seq<WritableField>): Prescription
    decreases |fs|
  {
    if fs == [] then p else AssignAll(Assign(p, fs[0]), fs[1..])
  }

  /** An update never touches the read-only fields. */
  lemma {:induction false} AssignAllKeepsReadOnly(p: Prescription, fs: seq<WritableField>)
    ensures AssignAll(p, fs).prescribedBy == p.prescribedBy
    ensures AssignAll(p, fs).datePrescribed == p.datePrescribed
    ensures AssignAll(p, fs).refillCount == p.refillCount
    ensures AssignAll(p, fs).lastRefillDate == p.lastRefillDate
    decreases |fs|
  {
    if fs != [] {
      AssignAllKeepsReadOnly(Assign(p, fs[0]), fs[1..]);
    }
  }

  /** The last field written wins. */
  lemma {:induction false} AssignAllLastWins(p: Prescription, fs: seq<WritableField>, f: WritableField)
    ensures AssignAll(p, fs + [f]) == Assign(AssignAll(p, fs), f)
    decreases |fs|
  {
    if fs != [] {
      assert (fs + [f])[1..] == fs[1..] + [f];
      AssignAllLastWins(Assign(p, fs[0]), fs[1..], f);
    }
  }

  /** The prescription carries the value `f` writes. */
  predicate Carries(p: Prescription, f: WritableField)
  {
    match f
    case PatientField(x) => p.patient == x
    case StaffIdField(x) => p.staffId == x
    case ContactField(x) => p.prescriberContact == x
    case ExpiryField(x) => p.expiryDate == x
    case StatusField(x) => p.status == x
    case PriorityField(x) => p.priority == x
    case NotesField(x) => p.notes == x
    case SpecialInstructionsField(x) => p.specialInstructions == x
    case MaxRefillsField(x) => p.maxRefills == x
  }

  /** Two fields write the same attribute. */
  predicate SameSlot(f: WritableField, g: WritableField)
  {
    match f
    case PatientField(_) => g.PatientField?
    case StaffIdField(_) => g.StaffIdField?
    case ContactField(_) => g.ContactField?
    case ExpiryField(_) => g.ExpiryField?
    case StatusField(_) => g.StatusField?
    case PriorityField(_) => g.PriorityField?
    case NotesField(_) => g.NotesField?
    case SpecialInstructionsField(_) => g.SpecialInstructionsField?
    case MaxRefillsField(_) => g.MaxRefillsField?
  }

  /** No field after position `i` writes the attribute `fs[i]` writes. */
  predicate LastWrite(fs: seq<WritableField>, i: nat)
    requires i < |fs|
  {
    forall j :: i < j < |fs| ==> !SameSlot(fs[j], fs[i])
  }

  /** No field of `fs` writes the attribute `g` writes. */
  predicate NoneWrites(fs: seq<WritableField>, g: WritableField)
  {
    forall j :: 0 <= j < |fs| ==> !SameSlot(fs[j], g)
  }

  /** A value survives the assignments when none of them writes its
      attribute. */
  lemma {:induction false} AssignAllKeeps(p: Prescription, fs: seq<WritableField>, g: WritableField)
    requires Carries(p, g) && NoneWrites(fs, g)
    ensures Carries(AssignAll(p, fs), g)
    decreases |fs|
  {
    if fs != [] {
      assert !SameSlot(fs[0], g);
      AssignAllKeeps(Assign(p, fs[0]), fs[1..], g);
    }
  }

  /** Every field not written again later holds after the assignments. */
  lemma {:induction false} AssignAllWritesEach(p: Prescription, fs: seq<WritableField>, i: nat)
    requires i < |fs| && LastWrite(fs, i)
    ensures Carries(AssignAll(p, fs), fs[i])
    decreases |fs|
  {
    if i == 0 {
      AssignAllKeeps(Assign(p, fs[0]), fs[1..], fs[0]);
    } else {
      AssignAllWritesEach(Assign(p, fs[0]), fs[1..], i - 1);
    }
  }

  /** The attribute `f` writes is one a non-null request value
      overrides. */
  predicate Overridden(f: WritableField, staffId: Option<string>, contact: Option<string>, notes: Option<string>)
  {
    (f.StaffIdField? && staffId.Some?) || (f.ContactField? && contact.Some?) || (f.NotesField? && notes.Some?)
  }

  /** The three raw request values `perform_update` passes to `save` when
      they are not null; they override the validated fields. */
  function Overrides(staffId: Option<string>, contact: Option<string>, notes: Option<string>): (fs: seq<WritableField>)
    ensures |fs| <= 3
    ensures forall k :: 0 <= k < |fs| ==> Overridden(fs[k], staffId, contact, notes)
    ensures staffId.Some? ==> StaffIdField(staffId) in fs
    ensures contact.Some? ==> ContactField(contact) in fs
    ensures notes.Some? ==> |fs| > 0 && fs[|fs| - 1] == NotesField(notes.value)
  {
    (if staffId.Some? then [StaffIdField(Some(staffId.value))] else [])
    + (if contact.Some? then [ContactField(Some(contact.value))] else [])
    + (if notes.Some? then [NotesField(notes.value)] else [])
  }

  /** The serializer's field validation: the patient exists and status
      and priority are among their choices. */
  predicate FieldsValid(r: Records, fs: seq<WritableField>)
  {
    forall i :: 0 <= i < |fs| ==>
      match fs[i]
      case PatientField(x) => x in r.patients
      case StatusField(x) => x in STATUS_CHOICES
      case PriorityField(x) => x in PRIORITY_CHOICES
      case _ => true
  }

  /** PUT or PATCH on a prescription: admission, then validation (400),
      then the serializer's update, which appends an 'updated' entry and
      writes the fields, and `perform_update`, which appends a second
      'updated' entry noted 'Updated via API'. */
  function UpdateStep(r: Records, u: User, httpMethod: string, q: PrescriptionQuery, id: PrescriptionId,
                      fields: seq<WritableField>, staffId: Option<string>, contact: Option<string>, notes: Option<string>): (c: Change)
    ensures c.outcome == Done <==>
      u.authenticated && u.role == ADMIN && id in r.prescriptions && QueryMatches(q, r.prescriptions[id]) && FieldsValid(r, fields)
    ensures c.outcome != Done ==> c.records == r
    ensures c.outcome == Done ==>
      && c.records == r.(prescriptions := c.records.prescriptions, history := c.records.history)
      && c.records.prescriptions.Keys == r.prescriptions.Keys
      && (forall other :: other in r.prescriptions && other != id ==> c.records.prescriptions[other] == r.prescriptions[other])
      && c.records.history == r.history + [HistoryEntry(id, "updated", u.id, ""), HistoryEntry(id, "updated", u.id, "Updated via API")]
      && c.records.prescriptions[id] == AssignAll(r.prescriptions[id], fields + Overrides(staffId, contact, notes))
  {
    var a := Admission(r.prescriptions, u, httpMethod, None, q, id);
    if a != Done then Change(r, a)
    else if !FieldsValid(r, fields) then Change(r, BadRequest)
    else
      var p' := AssignAll(r.prescriptions[id], fields + Overrides(staffId, contact, notes));
      Change(r.(prescriptions := r.prescriptions[id := p'],
                history := r.history + [HistoryEntry(id, "updated", u.id, ""), HistoryEntry(id, "updated", u.id, "Updated via API")]),
             Done)
  }

  /** An update keeps the read-only fields; every non-null request
      `staff_id`, `prescriber_contact` and `notes` is written over the
      validated value; every validated field that neither a later field
      nor a request value overrides is written; every attribute nothing
      writes keeps its value. */
  lemma UpdateEffect(r: Records, u: User, httpMethod: string, q: PrescriptionQuery, id: PrescriptionId,
                     fields: seq<WritableField>, staffId: Option<string>, contact: Option<string>, notes: Option<string>)
    requires UpdateStep(r, u, httpMethod, q, id, fields, staffId, contact, notes).outcome == Done
    ensures var p := r.prescriptions[id];
      var p' := UpdateStep(r, u, httpMethod, q, id, fields, staffId, contact, notes).records.prescriptions[id];
      && p'.prescribedBy == p.prescribedBy && p'.datePrescribed == p.datePrescribed
      && p'.refillCount == p.refillCount && p'.lastRefillDate == p.lastRefillDate
      && (staffId.Some? ==> p'.staffId == staffId)
      && (contact.Some? ==> p'.prescriberContact == contact)
      && (notes.Some? ==> p'.notes == notes.value)
    ensures var p' := UpdateStep(r, u, httpMethod, q, id, fields, staffId, contact, notes).records.prescriptions[id];
      forall i :: 0 <= i < |fields| && !Overridden(fields[i], staffId, contact, notes) && LastWrite(fields, i) ==>
        Carries(p', fields[i])
    ensures var p := r.prescriptions[id];
      var p' := UpdateStep(r, u, httpMethod, q, id, fields, staffId, contact, notes).records.prescriptions[id];
      forall g :: Carries(p, g) && !Overridden(g, staffId, contact, notes) && NoneWrites(fields, g) ==>
        Carries(p', g)
  {
    var p' := AssignAll(r.prescriptions[id], fields + Overrides(staffId, contact, notes));
    var c := UpdateStep(r, u, httpMethod, q, id, fields, staffId, contact, notes);
    assert c.records.prescriptions == r.prescriptions[id := p'];
    UpdateOverrides(r.prescriptions[id], fields, staffId, contact, notes);
    UpdateWritesFields(r.prescriptions[id], fields, staffId, contact, notes);
  }

  /** A successful update keeps the foreign keys resolving: a validated
      `patient` exists, and nothing else that is a key changes. */
  lemma UpdateKeepsConsistent(r: Records, u: User, httpMethod: string, q: PrescriptionQuery, id: PrescriptionId,
                              fields: seq<WritableField>, staffId: Option<string>, contact: Option<string>, notes: Option<string>)
    requires UpdateStep(r, u, httpMethod, q, id, fields, staffId, contact, notes).outcome == Done
    requires RecordsConsistent(r)
    ensures RecordsConsistent(UpdateStep(r, u, httpMethod, q, id, fields, staffId, contact, notes).records)
  {
    AssignAllKeepsPatient(r, r.prescriptions[id], fields + Overrides(staffId, contact, notes));
  }

  /** The read-only fields survive and every non-null request value
      wins over the validated one. */
  lemma UpdateOverrides(p: Prescription, fields: seq<WritableField>,
                        staffId: Option<string>, contact: Option<string>, notes: Option<string>)
    ensures var p' := AssignAll(p, fields + Overrides(staffId, contact, notes));
      && p'.prescribedBy == p.prescribedBy && p'.datePrescribed == p.datePrescribed
      && p'.refillCount == p.refillCount && p'.lastRefillDate == p.lastRefillDate
      && (staffId.Some? ==> p'.staffId == staffId)
      && (contact.Some? ==> p'.prescriberContact == contact)
      && (notes.Some? ==> p'.notes == notes.value)
  {
    var os := Overrides(staffId, contact, notes);
    var all := fields + os;
    AssignAllKeepsReadOnly(p, all);
    if staffId.Some? {
      var k := |fields|;
      assert all[k] == StaffIdField(staffId);
      forall j | k < j < |all| ensures !SameSlot(all[j], all[k]) {
        assert all[j] == os[j - |fields|];
        assert (contact.Some? && os[j - |fields|] == ContactField(contact)) || (notes.Some? && os[j - |fields|] == NotesField(notes.value));
      }
      AssignAllWritesEach(p, all, k);
    }
    if contact.Some? {
      var k :| 0 <= k < |os| && os[k] == ContactField(contact);
      assert all[|fields| + k] == ContactField(contact);
      forall j | |fields| + k < j < |all| ensures !SameSlot(all[j], all[|fields| + k]) {
        assert all[j] == os[j - |fields|];
        assert notes.Some? && os[j - |fields|] == NotesField(notes.value);
      }
      AssignAllWritesEach(p, all, |fields| + k);
    }
    if notes.Some? {
      assert all[|all| - 1] == NotesField(notes.value);
      AssignAllWritesEach(p, all, |all| - 1);
    }
  }

  /** Validated fields that nothing later overrides are written, and
      attributes nothing writes keep their values. */
  lemma UpdateWritesFields(p: Prescription, fields: seq<WritableField>,
                           staffId: Option<string>, contact: Option<string>, notes: Option<string>)
    ensures var p' := AssignAll(p, fields + Overrides(staffId, contact, notes));
      forall i :: 0 <= i < |fields| && !Overridden(fields[i], staffId, contact, notes) && LastWrite(fields, i) ==>
        Carries(p', fields[i])
    ensures var p' := AssignAll(p, fields + Overrides(staffId, contact, notes));
      forall g :: Carries(p, g) && !Overridden(g, staffId, contact, notes) && NoneWrites(fields, g) ==>
        Carries(p', g)
  {
    var os := Overrides(staffId, contact, notes);
    var all := fields + os;
    forall i | 0 <= i < |fields| && !Overridden(fields[i], staffId, contact, notes) && LastWrite(fields, i)
      ensures Carries(AssignAll(p, all), fields[i])
    {
      forall j | i < j < |all| ensures !SameSlot(all[j], all[i]) {
        if j >= |fields| {
          assert all[j] == os[j - |fields|];
          SameSlotOverridden(os[j - |fields|], fields[i], staffId, contact, notes);
        }
      }
      AssignAllWritesEach(p, all, i);
    }
    forall g | Carries(p, g) && !Overridden(g, staffId, contact, notes) && NoneWrites(fields, g)
      ensures Carries(AssignAll(p, all), g)
    {
      forall j | 0 <= j < |all| ensures !SameSlot(all[j], g) {
        if j >= |fields| {
          assert all[j] == os[j - |fields|];
          SameSlotOverridden(os[j - |fields|], g, staffId, contact, notes);
        }
      }
      AssignAllKeeps(p, all, g);
    }
  }

  /** An attribute that shares its slot with an override is overridden. */
  lemma SameSlotOverridden(o: WritableField, f: WritableField, staffId: Option<string>, contact: Option<string>, notes: Option<string>)
    requires Overridden(o, staffId, contact, notes)
    ensures SameSlot(o, f) ==> Overridden(f, staffId, contact, notes)
  {
  }

  /** Writing valid fields and overrides never points a prescription at
      a missing patient. */
  lemma {:induction false} AssignAllKeepsPatient(r: Records, p: Prescription, fs: seq<WritableField>)
    requires p.patient in r.patients
    requires forall i :: 0 <= i < |fs| && fs[i].PatientField? ==> fs[i].patient in r.patients
    ensures AssignAll(p, fs).patient in r.patients
    decreases |fs|
  {
    if fs != [] {
      AssignAllKeepsPatient(r, Assign(p, fs[0]), fs[1..]);
    }
  }

  /** `max_refills` is writable while `refill_count` is not, so an update
      can leave a prescription with more refills done than allowed. */
  lemma UpdateCanUndercutRefills()
    ensures
      var p := Prescription(1, 1, None, None, 0, DEFAULT_EXPIRY, ACTIVE, DEFAULT_PRIORITY, "", "", 2, 2, None);
      var r := Records({1}, map[], map[1 := p], 2, map[], 1, []);
      var c := UpdateStep(r, User(1, true, ADMIN), "PATCH", NO_QUERY, 1, [MaxRefillsField(1)], None, None, None);
      c.outcome == Done && c.records.prescriptions[1].refillCount > c.records.prescriptions[1].maxRefills
  {
    var p := Prescription(1, 1, None, None, 0, DEFAULT_EXPIRY, ACTIVE, DEFAULT_PRIORITY, "", "", 2, 2, None);
    assert Overrides(None, None, None) == [];
    assert [MaxRefillsField(1)] + [] == [MaxRefillsField(1)];
    assert AssignAll(p, [MaxRefillsField(1)]) == p.(maxRefills := 1);
  }

  /** `perform_update` on the book. */
  method PerformUpdate(book: PrescriptionBook, u: User, httpMethod: string, q: PrescriptionQuery, id: PrescriptionId,
                       fields: seq<WritableField>, staffId: Option<string>, contact: Option<string>, notes: Option<string>)
    returns (outcome: ActionOutcome)
    modifies book
    ensures Change(book.Snapshot(), outcome) == UpdateStep(old(book.Snapshot()), u, httpMethod, q, id, fields, staffId, contact, notes)
  {
    outcome := Admission(book.prescriptions, u, httpMethod, None, q, id);
    if outcome != Done {
      return;
    }
    if !FieldsValid(book.Snapshot(), fields) {
      return BadRequest;
    }
    book.history := book.history + [HistoryEntry(id, "updated", u.id, "")];
    book.prescriptions := book.prescriptions[id := AssignAll(book.prescriptions[id], fields + Overrides(staffId, contact, notes))];
    book.history := book.history + [HistoryEntry(id, "updated", u.id, "Updated via API")];
  }

  // --- item defaults of PrescriptionItemViewSet.perform_create -----------

  /** The expression `quantity if quantity else 1` of `perform_create`:
      a falsy request quantity becomes 1 and any other is kept. The item
      serializer already requires a quantity of at least 0, so of the
      falsy values only 0 gets this far, and no negative value reaches
      `perform_create`. */
  function CreatedQuantity(quantity: Option<int>): (q: int)
    ensures q != 0
    ensures q == 1 || quantity == Some(q)
    ensures quantity.Some? && quantity.value != 0 ==> q == quantity.value
    ensures q < 0 <==> quantity.Some? && quantity.value < 0
  {
    if quantity.None? || quantity.value == 0 then 1 else quantity.value
  }

  /** The expression `route if route else 'oral'` of `perform_create`.
      The item serializer already requires a non-blank route, so the
      default is never taken by a request that gets this far. */
  function CreatedRoute(route: Option<string>): (r: string)
    ensures r != ""
    ensures r == "oral" || route == Some(r)
    ensures Given(route) ==> r == route.value
  {
    if Given(route) then route.value else "oral"
  }

  // --- creating prescriptions -------------------------------------------

  /** One element of the request's `items`. */
  datatype ItemForm = ItemForm(
    medicineId: Option<MedicineId>,
    quantity: Option<int>,
    drugName: Option<string>,
    dosage: Option<string>,
    frequency: Option<string>,
    duration: Option<string>,
    route: Option<string>,
    specialInstructions: Option<string>)

  /** The request body of the two `create_prescription` views. */
  datatype PrescriptionForm = PrescriptionForm(
    patientId: Option<PatientId>,
    staffId: Option<string>,
    prescriberContact: Option<string>,
    status: Option<string>,
    notes: Option<string>,
    specialInstructions: Option<string>,
    maxRefills: Option<int>,
    expiryDate: Option<Date>,
    priority: Option<string>,
    items: seq<ItemForm>)

  /** `item_data.get('quantity', 1)`. */
  function RequestedQuantity(f: ItemForm): int
  {
    if f.quantity.Some? then f.quantity.value else 1
  }

  /** The two creation views. */
  datatype Variant =
    | Checked  // prescriptions/views.py: pre-checked stock, drug name from the medicine
    | Lenient  // prescriptions/urls.py: unknown medicines skipped

  /** The item's medicine is looked up and found; the lenient variant
      first skips a falsy id. */
  predicate Found(v: Variant, f: ItemForm, medicines: map<MedicineId, Medicine>)
  {
    f.medicineId.Some? && f.medicineId.value in medicines && (v.Lenient? ==> f.medicineId.value != 0)
  }

  /** The row one item creates. */
  function BuildItem(v: Variant, pid: PrescriptionId, f: ItemForm, mid: MedicineId, m: Medicine, quantity: nat): (it: PrescriptionItem)
    ensures it.prescription == pid && it.medicine == mid && it.quantity == quantity
    ensures v.Checked? ==> it.drugName == Some(m.name)
    ensures v.Lenient? ==> it.drugName == Some(if f.drugName.Some? then f.drugName.value else "")
    ensures f.dosage.None? ==> it.dosage == ""
    ensures f.route.None? ==> it.route == "oral"
    ensures f.route.Some? ==> it.route == f.route.value
  {
    PrescriptionItem(pid, mid,
      if v.Checked? then Some(m.name) else Some(OrElse(f.drugName, "")),
      OrElse(f.dosage, ""), quantity, OrElse(f.frequency, ""), OrElse(f.duration, ""),
      OrElse(f.route, "oral"), OrElse(f.specialInstructions, ""))
  }

  /** What the item loop leaves behind: the items table, the next id, how
      many items it created and whether it stopped with an error. */
  datatype ItemsAdded = ItemsAdded(items: map<ItemId, PrescriptionItem>, nextItemId: ItemId, count: nat, failed: bool)

  /** The item loop of both views. An item whose medicine is not found
      is skipped by the lenient view and raises in the checked one; a
      negative quantity is refused by the column's check. Either error
      stops the loop and keeps the items already created. */
  function AddItems(v: Variant, items: map<ItemId, PrescriptionItem>, next: ItemId, pid: PrescriptionId,
                    forms: seq<ItemForm>, medicines: map<MedicineId, Medicine>): ItemsAdded
    decreases |forms|
  {
    if forms == [] then ItemsAdded(items, next, 0, false)
    else if !Found(v, forms[0], medicines) then
      if v.Lenient? then AddItems(v, items, next, pid, forms[1..], medicines)
      else ItemsAdded(items, next, 0, true)
    else if RequestedQuantity(forms[0]) < 0 then ItemsAdded(items, next, 0, true)
    else
      var mid := forms[0].medicineId.value;
      var it := BuildItem(v, pid, forms[0], mid, medicines[mid], RequestedQuantity(forms[0]));
      var a := AddItems(v, items[next := it], next + 1, pid, forms[1..], medicines);
      a.(count := a.count + 1)
  }

  /** How many items have a medicine that is found. */
  function CountFound(v: Variant, forms: seq<ItemForm>, medicines: map<MedicineId, Medicine>): (n: nat)
    ensures n <= |forms|
  {
    if forms == [] then 0 else (if Found(v, forms[0], medicines) then 1 else 0) + CountFound(v, forms[1..], medicines)
  }

  /** Nothing fails when every found item has a non-negative quantity
      and, in the checked view, every item is found. */
  predicate ItemsCreatable(v: Variant, forms: seq<ItemForm>, medicines: map<MedicineId, Medicine>)
  {
    forall i :: 0 <= i < |forms| ==>
      (v.Checked? ==> Found(v, forms[i], medicines))
      && (Found(v, forms[i], medicines) ==> RequestedQuantity(forms[i]) >= 0)
  }

  /** The item loop creates `count` items under consecutive fresh ids,
      all of prescription `pid` and of a known medicine, and keeps every
      earlier item. */
  lemma {:induction false} AddItemsShape(v: Variant, items: map<ItemId, PrescriptionItem>, next: ItemId, pid: PrescriptionId,
                                         forms: seq<ItemForm>, medicines: map<MedicineId, Medicine>)
    requires forall k :: k in items ==> k < next
    ensures var a := AddItems(v, items, next, pid, forms, medicines);
      && a.nextItemId == next + a.count
      && (forall k :: k in a.items <==> k in items || next <= k < a.nextItemId)
      && (forall k :: k in items ==> a.items[k] == items[k])
      && (forall k :: next <= k < a.nextItemId ==> a.items[k].prescription == pid && a.items[k].medicine in medicines)
    decreases |forms|
  {
    if forms != [] {
      var f := forms[0];
      if !Found(v, f, medicines) {
        if v.Lenient? {
          AddItemsShape(v, items, next, pid, forms[1..], medicines);
        }
      } else if RequestedQuantity(f) >= 0 {
        var mid := f.medicineId.value;
        var it := BuildItem(v, pid, f, mid, medicines[mid], RequestedQuantity(f));
        AddItemsShape(v, items[next := it], next + 1, pid, forms[1..], medicines);
      }
    }
  }

  /** In the checked view, with every item creatable, every item of the
      request is created. */
  lemma {:induction false} CheckedCreatesEveryItem(forms: seq<ItemForm>, medicines: map<MedicineId, Medicine>)
    requires ItemsCreatable(Checked, forms, medicines)
    ensures CountFound(Checked, forms, medicines) == |forms|
  {
    if forms != [] {
      assert forall i :: 0 <= i < |forms[1..]| ==> forms[1..][i] == forms[i + 1];
      CheckedCreatesEveryItem(forms[1..], medicines);
    }
  }

  /** The item loop on the book. */
  method CreateItems(book: PrescriptionBook, v: Variant, pid: PrescriptionId, forms: seq<ItemForm>)
    returns (count: nat, failed: bool)
    modifies book
    ensures var a := AddItems(v, old(book.items), old(book.nextItemId), pid, forms, old(book.medicines));
      && book.items == a.items && book.nextItemId == a.nextItemId && count == a.count && failed == a.failed
    ensures book.Snapshot() == old(book.Snapshot()).(items := book.items, nextItemId := book.nextItemId)
  {
    ghost var whole := AddItems(v, book.items, book.nextItemId, pid, forms, book.medicines);
    count := 0;
    failed := false;
    var i := 0;
    while i < |forms|
      invariant 0 <= i <= |forms|
      invariant book.Snapshot() == old(book.Snapshot()).(items := book.items, nextItemId := book.nextItemId)
      invariant var a := AddItems(v, book.items, book.nextItemId, pid, forms[i..], book.medicines);
        whole == a.(count := count + a.count)
      invariant !failed
    {
      var f := forms[i];
      assert forms[i..][1..] == forms[i + 1..];
      if !Found(v, f, book.medicines) {
        if v.Lenient? {
          i := i + 1;
          continue;
        }
        failed := true;
        return;
      }
      if RequestedQuantity(f) < 0 {
        failed := true;
        return;
      }
      var mid := f.medicineId.value;
      book.items := book.items[book.nextItemId := BuildItem(v, pid, f, mid, book.medicines[mid], RequestedQuantity(f))];
      book.nextItemId := book.nextItemId + 1;
      count := count + 1;
      i := i + 1;
    }
  }

  /** The prescription row both views create. */
  function NewPrescription(form: PrescriptionForm, patient: PatientId, prescriber: UserId, now: Timestamp,
                           expiry: Date, maxRefills: nat): (p: Prescription)
    ensures p.patient == patient && p.prescribedBy == prescriber && p.datePrescribed == now && p.expiryDate == expiry
    ensures p.refillCount == 0 && p.lastRefillDate.None? && p.maxRefills == maxRefills
    ensures form.status.None? ==> p.status == ACTIVE
    ensures form.priority.None? ==> p.priority == DEFAULT_PRIORITY
    ensures form.staffId.None? ==> p.staffId == Some("")
  {
    Prescription(patient, prescriber, Some(OrElse(form.staffId, "")), Some(OrElse(form.prescriberContact, "")),
                 now, expiry, OrElse(form.status, ACTIVE), OrElse(form.priority, DEFAULT_PRIORITY),
                 OrElse(form.notes, ""), OrElse(form.specialInstructions, ""), 0, maxRefills, None)
  }

  /** `request.data.get('max_refills', 0)`. */
  function RequestedMaxRefills(form: PrescriptionForm): int
  {
    if form.maxRefills.Some? then form.maxRefills.value else 0
  }

  /** One short item of the pre-check. */
  datatype Shortage = Shortage(medicine: string, required: int, available: int)

  datatype CreateError =
    | NotAuthenticated
    | PatientIdRequired
    | PatientNotFound
    | NoItems
    | MedicineNotFound(id: Option<MedicineId>)
    | InsufficientStock(details: seq<Shortage>)
    | ServerError

  datatype CreateOutcome = Created(id: PrescriptionId, itemsCount: nat) | CreateFailed(error: CreateError)

  /** The request is authenticated and names a patient that exists. */
  predicate ForExistingPatient(u: User, form: PrescriptionForm, patients: set<PatientId>)
  {
    u.authenticated && form.patientId.Some? && form.patientId.value != 0 && form.patientId.value in patients
  }

  /** The pre-check's verdict: the first unknown medicine, or every
      short item in request order. */
  datatype Precheck = UnknownMedicine(id: Option<MedicineId>) | ShortItems(shortages: seq<Shortage>)

  /** The stock a request item asks for against the abstract available
      quantity of its medicine. */
  predicate Enough(f: ItemForm, available: MedicineId -> int)
    requires f.medicineId.Some?
  {
    available(f.medicineId.value) >= RequestedQuantity(f)
  }

  function ShortageOf(f: ItemForm, medicines: map<MedicineId, Medicine>, available: MedicineId -> int): Shortage
    requires Found(Checked, f, medicines)
  {
    var mid := f.medicineId.value;
    Shortage(medicines[mid].name, RequestedQuantity(f), available(mid))
  }

  /** The pre-check over the items as a function. */
  function StockPrecheck(forms: seq<ItemForm>, medicines: map<MedicineId, Medicine>, available: MedicineId -> int): Precheck
  {
    if forms == [] then ShortItems([])
    else if !Found(Checked, forms[0], medicines) then UnknownMedicine(forms[0].medicineId)
    else
      var rest := StockPrecheck(forms[1..], medicines, available);
      if rest.UnknownMedicine? then rest
      else if Enough(forms[0], available) then rest
      else ShortItems([ShortageOf(forms[0], medicines, available)] + rest.shortages)
  }

  /** The pre-check names the first item whose medicine is unknown when
      there is one; otherwise it lists exactly the short items, so its
      list is empty exactly when every item has enough stock. */
  lemma {:induction false} StockPrecheckSpec(forms: seq<ItemForm>, medicines: map<MedicineId, Medicine>, available: MedicineId -> int)
    ensures var r := StockPrecheck(forms, medicines, available);
      && (r.UnknownMedicine? <==> exists i :: 0 <= i < |forms| && !Found(Checked, forms[i], medicines))
      && (r.UnknownMedicine? ==>
            exists i :: 0 <= i < |forms| && !Found(Checked, forms[i], medicines)
              && r.id == forms[i].medicineId && forall j :: 0 <= j < i ==> Found(Checked, forms[j], medicines))
      && (r.ShortItems? ==>
            && (forall i :: 0 <= i < |forms| && !Enough(forms[i], available) ==> ShortageOf(forms[i], medicines, available) in r.shortages)
            && (forall s :: s in r.shortages ==> exists i :: 0 <= i < |forms| && !Enough(forms[i], available) && s == ShortageOf(forms[i], medicines, available))
            && (r.shortages == [] <==> forall i :: 0 <= i < |forms| ==> Enough(forms[i], available)))
  {
    if forms != [] {
      var tail := forms[1..];
      assert forall i :: 0 <= i < |tail| ==> tail[i] == forms[i + 1];
      StockPrecheckSpec(tail, medicines, available);
      var r := StockPrecheck(forms, medicines, available);
      var rest := StockPrecheck(tail, medicines, available);
      if !Found(Checked, forms[0], medicines) {
        assert r.UnknownMedicine? && r.id == forms[0].medicineId;
      } else if rest.UnknownMedicine? {
        var i :| 0 <= i < |tail| && !Found(Checked, tail[i], medicines)
              && rest.id == tail[i].medicineId && forall j :: 0 <= j < i ==> Found(Checked, tail[j], medicines);
        assert forall j :: 0 <= j < i + 1 ==> Found(Checked, forms[j], medicines) by {
          forall j | 0 <= j < i + 1 ensures Found(Checked, forms[j], medicines) {
            if j > 0 { assert forms[j] == tail[j - 1]; }
          }
        }
      } else {
        assert forall i :: 0 <= i < |forms| ==> Found(Checked, forms[i], medicines) by {
          forall i | 0 <= i < |forms| ensures Found(Checked, forms[i], medicines) {
            if i > 0 { assert forms[i] == tail[i - 1]; }
          }
        }
        forall i | 0 <= i < |forms| && !Enough(forms[i], available)
          ensures ShortageOf(forms[i], medicines, available) in r.shortages
        {
          if i > 0 { assert forms[i] == tail[i - 1]; }
        }
        forall s | s in r.shortages
          ensures exists i :: 0 <= i < |forms| && !Enough(forms[i], available) && s == ShortageOf(forms[i], medicines, available)
        {
          if s in rest.shortages {
            var i :| 0 <= i < |tail| && !Enough(tail[i], available) && s == ShortageOf(tail[i], medicines, available);
            assert forms[i + 1] == tail[i];
          } else {
            assert s == ShortageOf(forms[0], medicines, available);
          }
        }
      }
    }
  }

  /** The pre-check loop of `create_prescription`: the short items are
      gathered in order, and an unknown medicine ends the loop at once. */
  method CheckStock(forms: seq<ItemForm>, medicines: map<MedicineId, Medicine>, available: MedicineId -> int)
    returns (r: Precheck)
    ensures r == StockPrecheck(forms, medicines, available)
  {
    var shortages: seq<Shortage> := [];
    var i := 0;
    while i < |forms|
      invariant 0 <= i <= |forms|
      invariant var rest := StockPrecheck(forms[i..], medicines, available);
        StockPrecheck(forms, medicines, available) == if rest.UnknownMedicine? then rest else ShortItems(shortages + rest.shortages)
    {
      var f := forms[i];
      assert forms[i..][1..] == forms[i + 1..];
      if !Found(Checked, f, medicines) {
        return UnknownMedicine(f.medicineId);
      }
      if !Enough(f, available) {
        shortages := shortages + [ShortageOf(f, medicines, available)];
      }
      i := i + 1;
    }
    r := ShortItems(shortages);
  }

  /** Writing a new prescription for a known patient under the next id,
      then its items, then history entries about it, keeps the foreign
      keys resolving. */
  lemma CreationKeepsConsistent(r: Records, p: Prescription, v: Variant, forms: seq<ItemForm>, extra: seq<HistoryEntry>)
    requires RecordsConsistent(r) && p.patient in r.patients
    requires forall i :: 0 <= i < |extra| ==> extra[i].prescription == r.nextPrescriptionId
    ensures var id := r.nextPrescriptionId;
      var a := AddItems(v, r.items, r.nextItemId, id, forms, r.medicines);
      RecordsConsistent(r.(prescriptions := r.prescriptions[id := p], nextPrescriptionId := id + 1,
                           items := a.items, nextItemId := a.nextItemId, history := r.history + extra))
  {
    var id := r.nextPrescriptionId;
    AddItemsShape(v, r.items, r.nextItemId, id, forms, r.medicines);
    var h := r.history + extra;
    forall i | 0 <= i < |h| ensures h[i].prescription in r.prescriptions[id := p] {
      if i >= |r.history| {
        assert h[i] == extra[i - |r.history|];
      }
    }
  }

  /** The writes both create views share, in the order they make them:
      the prescription under the next id, then its items one by one,
      stopping at the first item that cannot be created. */
  method WriteCreation(book: PrescriptionBook, v: Variant, p: Prescription, forms: seq<ItemForm>)
    returns (id: PrescriptionId, count: nat, failed: bool)
    modifies book
    ensures id == old(book.nextPrescriptionId)
    ensures var a := AddItems(v, old(book.items), old(book.nextItemId), id, forms, old(book.medicines));
      && book.Snapshot() == old(book.Snapshot()).(prescriptions := old(book.prescriptions)[id := p], nextPrescriptionId := id + 1,
                                                  items := a.items, nextItemId := a.nextItemId)
      && count == a.count && failed == a.failed
  {
    id := book.nextPrescriptionId;
    book.prescriptions := book.prescriptions[id := p];
    book.nextPrescriptionId := id + 1;
    count, failed := CreateItems(book, v, id, forms);
  }

  /** `create_prescription` of prescriptions/views.py (POST, any
      authenticated user), with `available` standing for each medicine's
      stock and `today` for the server date. Nothing is created unless the
      patient exists, the request has items and the pre-check finds every
      medicine with enough stock. Then the prescription, with expiry today
      + 30 days unless given, its items and one 'created' entry are
      written. A negative `max_refills` is refused before anything is
      written; a negative item quantity is refused while the items are
      being written, and the prescription and earlier items stay. */
  method CreateChecked(book: PrescriptionBook, u: User, form: PrescriptionForm, available: MedicineId -> int,
                       today: Date, now: Timestamp)
    returns (outcome: CreateOutcome)
    modifies book
    ensures !u.authenticated ==> outcome == CreateFailed(NotAuthenticated)
    ensures u.authenticated && (form.patientId.None? || form.patientId == Some(0)) ==> outcome == CreateFailed(PatientIdRequired)
    ensures u.authenticated && form.patientId.Some? && form.patientId.value != 0 && form.patientId.value !in old(book.patients) ==>
      outcome == CreateFailed(PatientNotFound)
    ensures ForExistingPatient(u, form, old(book.patients)) && form.items == [] ==> outcome == CreateFailed(NoItems)
    ensures ForExistingPatient(u, form, old(book.patients)) && form.items != [] ==>
      var pre := StockPrecheck(form.items, old(book.medicines), available);
      && (pre.UnknownMedicine? ==> outcome == CreateFailed(MedicineNotFound(pre.id)))
      && (pre.ShortItems? && pre.shortages != [] ==> outcome == CreateFailed(InsufficientStock(pre.shortages)))
      && (pre == ShortItems([]) ==>
            && (outcome.Created? <==> RequestedMaxRefills(form) >= 0 && ItemsCreatable(Checked, form.items, old(book.medicines)))
            && (outcome.Created? || outcome == CreateFailed(ServerError)))
    ensures outcome.CreateFailed? && outcome.error != ServerError ==> book.Snapshot() == old(book.Snapshot())
    ensures outcome == CreateFailed(ServerError) ==> book.history == old(book.history)
    ensures outcome.CreateFailed? && outcome.error.InsufficientStock? ==>
      StockPrecheck(form.items, old(book.medicines), available) == ShortItems(outcome.error.details) && outcome.error.details != []
    ensures outcome.Created? ==>
      && u.authenticated && form.patientId.Some? && form.patientId.value in old(book.patients) && form.items != []
      && StockPrecheck(form.items, old(book.medicines), available) == ShortItems([])
      && outcome.id == old(book.nextPrescriptionId)
      && outcome.itemsCount == |form.items|
      && RequestedMaxRefills(form) >= 0
      && book.prescriptions == old(book.prescriptions)[outcome.id := NewPrescription(form, form.patientId.value, u.id, now,
           if form.expiryDate.Some? then form.expiryDate.value else today + 30, RequestedMaxRefills(form))]
      && book.items == AddItems(Checked, old(book.items), old(book.nextItemId), outcome.id, form.items, old(book.medicines)).items
      && book.history == old(book.history) + [HistoryEntry(outcome.id, "created", u.id, "Created via API")]
      && book.patients == old(book.patients) && book.medicines == old(book.medicines)
    ensures RequestedMaxRefills(form) < 0 ==> book.Snapshot() == old(book.Snapshot())
    ensures outcome == CreateFailed(ServerError) && RequestedMaxRefills(form) >= 0 ==>
      var a := AddItems(Checked, old(book.items), old(book.nextItemId), old(book.nextPrescriptionId), form.items, old(book.medicines));
      && u.authenticated && form.patientId.Some? && form.patientId.value in old(book.patients) && form.items != []
      && StockPrecheck(form.items, old(book.medicines), available) == ShortItems([])
      && a.failed
      && book.prescriptions == old(book.prescriptions)[old(book.nextPrescriptionId) := NewPrescription(form, form.patientId.value, u.id, now,
           if form.expiryDate.Some? then form.expiryDate.value else today + 30, RequestedMaxRefills(form))]
      && book.nextPrescriptionId == old(book.nextPrescriptionId) + 1
      && book.items == a.items && book.nextItemId == a.nextItemId
      && book.patients == old(book.patients) && book.medicines == old(book.medicines)
    ensures old(RecordsConsistent(book.Snapshot())) ==> RecordsConsistent(book.Snapshot())
  {
    if !u.authenticated {
      return CreateFailed(NotAuthenticated);
    }
    if form.patientId.None? || form.patientId.value == 0 {
      return CreateFailed(PatientIdRequired);
    }
    var patient := form.patientId.value;
    if patient !in book.patients {
      return CreateFailed(PatientNotFound);
    }
    if form.items == [] {
      return CreateFailed(NoItems);
    }
    var check := CheckStock(form.items, book.medicines, available);
    if check.UnknownMedicine? {
      return CreateFailed(MedicineNotFound(check.id));
    }
    if check.shortages != [] {
      return CreateFailed(InsufficientStock(check.shortages));
    }
    var expiry := if form.expiryDate.Some? then form.expiryDate.value else today + 30;
    var maxRefills := RequestedMaxRefills(form);
    if maxRefills < 0 {
      return CreateFailed(ServerError);
    }
    ghost var r := book.Snapshot();
    var p := NewPrescription(form, patient, u.id, now, expiry, maxRefills);
    var id, count, failed := WriteCreation(book, Checked, p, form.items);
    AddItemsCount(Checked, r.items, r.nextItemId, id, form.items, r.medicines);
    var entry := HistoryEntry(id, "created", u.id, "Created via API");
    if RecordsConsistent(r) {
      CreationKeepsConsistent(r, p, Checked, form.items, if failed then [] else [entry]);
    }
    if failed {
      return CreateFailed(ServerError);
    }
    AddItemsShapeChecked(old(book.items), old(book.nextItemId), id, form.items, book.medicines);
    book.history := book.history + [entry];
    outcome := Created(id, count);
  }

  /** The checked item loop, when it does not fail, creates every item. */
  lemma AddItemsShapeChecked(items: map<ItemId, PrescriptionItem>, next: ItemId, pid: PrescriptionId,
                             forms: seq<ItemForm>, medicines: map<MedicineId, Medicine>)
    requires !AddItems(Checked, items, next, pid, forms, medicines).failed
    ensures AddItems(Checked, items, next, pid, forms, medicines).count == |forms|
  {
    AddItemsCount(Checked, items, next, pid, forms, medicines);
    CheckedCreatesEveryItem(forms, medicines);
  }

  /** Without the freshness requirement of `AddItemsShape`: a loop that
      does not fail creates one item per found medicine, and fails only on
      an item that is not creatable. */
  lemma {:induction false} AddItemsCount(v: Variant, items: map<ItemId, PrescriptionItem>, next: ItemId, pid: PrescriptionId,
                                         forms: seq<ItemForm>, medicines: map<MedicineId, Medicine>)
    ensures var a := AddItems(v, items, next, pid, forms, medicines);
      (a.failed <==> !ItemsCreatable(v, forms, medicines)) && (!a.failed ==> a.count == CountFound(v, forms, medicines))
    decreases |forms|
  {
    if forms != [] {
      var f := forms[0];
      var tail := forms[1..];
      assert forall i :: 0 <= i < |tail| ==> tail[i] == forms[i + 1];
      assert ItemsCreatable(v, forms, medicines) <==>
        (v.Checked? ==> Found(v, f, medicines)) && (Found(v, f, medicines) ==> RequestedQuantity(f) >= 0)
        && ItemsCreatable(v, tail, medicines)
      by {
        if ItemsCreatable(v, tail, medicines) && (v.Checked? ==> Found(v, f, medicines)) && (Found(v, f, medicines) ==> RequestedQuantity(f) >= 0) {
          forall i | 0 <= i < |forms|
            ensures (v.Checked? ==> Found(v, forms[i], medicines)) && (Found(v, forms[i], medicines) ==> RequestedQuantity(forms[i]) >= 0)
          {
            if i > 0 {
              assert forms[i] == tail[i - 1];
            }
          }
        }
      }
      if !Found(v, f, medicines) {
        if v.Lenient? {
          AddItemsCount(v, items, next, pid, tail, medicines);
        }
      } else if RequestedQuantity(f) >= 0 {
        var mid := f.medicineId.value;
        var it := BuildItem(v, pid, f, mid, medicines[mid], RequestedQuantity(f));
        AddItemsCount(v, items[next := it], next + 1, pid, tail, medicines);
      }
    }
  }
}
