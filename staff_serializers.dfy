/** staff/serializers.py: `StaffSerializer.create`, which logs a
    'created' activity, `update`, which writes the validated fields one
    by one and logs a 'status_changed' activity when the status moves,
    and `get_full_name`. */
module StaffSerializers {
  import opened Base
  import opened StaffModels

  /** `get_full_name`: the first name, one space, the last name. */
  function FullName(a: Account): (s: string)
    ensures |s| == |a.firstName| + 1 + |a.lastName|
    ensures s[..|a.firstName|] == a.firstName && s[|a.firstName|] == ' ' && s[|a.firstName| + 1..] == a.lastName
  {
    a.firstName + " " + a.lastName
  }

  // --- create ------------------------------------------------------------

  /** The result of `create`: the tables after it and the new row, or
      `None` when the database refuses the row because its `staff_id` or
      its account is taken. */
  datatype StaffCreated = StaffCreated(tables: StaffTables, row: Option<StaffRowId>)

  predicate Clashes(t: StaffTables, m: StaffMember)
  {
    exists s :: s in t.members && (t.members[s].staffId == m.staffId || t.members[s].user == m.user)
  }

  /** `create` with validated data `m`: a row that clashes with an
      existing `staff_id` or account changes nothing; otherwise the row is
      added under the next id with exactly one 'created' activity. */
  function CreateStep(t: StaffTables, m: StaffMember, performer: Option<UserId>): (c: StaffCreated)
    ensures c.row.Some? <==> !Clashes(t, m)
    ensures c.row.None? ==> c.tables == t
    ensures c.row.Some? ==>
      && c.row.value == t.nextStaffRowId
      && c.tables.members == t.members[c.row.value := m]
      && c.tables.activities == t.activities + [StaffActivity(c.row.value, "created", "Staff member created", performer)]
      && c.tables == t.(members := c.tables.members, nextStaffRowId := t.nextStaffRowId + 1, activities := c.tables.activities)
  {
    if Clashes(t, m) then StaffCreated(t, None)
    else
      var id := t.nextStaffRowId;
      StaffCreated(t.(members := t.members[id := m], nextStaffRowId := id + 1,
                      activities := t.activities + [StaffActivity(id, "created", "Staff member created", performer)]),
                   Some(id))
  }

  /** A create whose row's account and department exist keeps the
      tables consistent. */
  lemma CreateKeepsConsistent(t: StaffTables, m: StaffMember, performer: Option<UserId>)
    requires StaffConsistent(t)
    requires m.user in t.accounts && (m.department.Some? ==> m.department.value in t.departments)
    ensures StaffConsistent(CreateStep(t, m, performer).tables)
  {
    var c := CreateStep(t, m, performer);
    if c.row.Some? {
      var h := c.tables.activities;
      forall i | 0 <= i < |h| ensures h[i].staff in c.tables.members {
        if i < |t.activities| {
          assert h[i] == t.activities[i];
        }
      }
    }
  }

  /** `create` on the roster. */
  method Create(roster: StaffRoster, m: StaffMember, performer: Option<UserId>) returns (row: Option<StaffRowId>)
    modifies roster
    ensures StaffCreated(roster.Snapshot(), row) == CreateStep(old(roster.Snapshot()), m, performer)
  {
    if exists s :: s in roster.members && (roster.members[s].staffId == m.staffId || roster.members[s].user == m.user) {
      return None;
    }
    var id := roster.nextStaffRowId;
    roster.members := roster.members[id := m];
    roster.nextStaffRowId := id + 1;
    roster.activities := roster.activities + [StaffActivity(id, "created", "Staff member created", performer)];
    row := Some(id);
  }

  // --- update ------------------------------------------------------------

  /** A writable field of the staff serializer with its validated value;
      `staff_id`, `created_at` and `updated_at` are read-only and have no
      constructor. */
  datatype StaffField =
    | UserField(user: UserId)
    | RoleField(role: string)
    | DepartmentField(department: Option<DepartmentId>)
    | StatusField(status: string)
    | SpecializationField(specialization: Option<string>)
    | QualificationsField(qualifications: seq<string>)
    | YearsField(years: nat)
    | LicenseField(license: Option<string>)
    | PhoneField(phone: string)
    | AddressField(address: string)
    | EmergencyContactField(contact: Contact)
    | JoiningDateField(joined: Date)

  /** `setattr(instance, attr, value)` for one field. */
  function SetField(m: StaffMember, f: StaffField): StaffMember
  {
    match f
    case UserField(x) => m.(user := x)
    case RoleField(x) => m.(role := x)
    case DepartmentField(x) => m.(department := x)
    case StatusField(x) => m.(status := x)
    case SpecializationField(x) => m.(specialization := x)
    case QualificationsField(x) => m.(qualifications := x)
    case YearsField(x) => m.(yearsOfExperience := x)
    case LicenseField(x) => m.(licenseNumber := x)
    case PhoneField(x) => m.(phone := x)
    case AddressField(x) => m.(address := x)
    case EmergencyContactField(x) => m.(emergencyContact := x)
    case JoiningDateField(x) => m.(joiningDate := x)
  }

  /** The member carries the value `f` writes. */
  predicate Holds(m: StaffMember, f: StaffField)
  {
    match f
    case UserField(x) => m.user == x
    case RoleField(x) => m.role == x
    case DepartmentField(x) => m.department == x
    case StatusField(x) => m.status == x
    case SpecializationField(x) => m.specialization == x
    case QualificationsField(x) => m.qualifications == x
    case YearsField(x) => m.yearsOfExperience == x
    case LicenseField(x) => m.licenseNumber == x
    case PhoneField(x) => m.phone == x
    case AddressField(x) => m.address == x
    case EmergencyContactField(x) => m.emergencyContact == x
    case JoiningDateField(x) => m.joiningDate == x
  }

  /** Two fields write the same attribute. */
  predicate SameAttribute(f: StaffField, g: StaffField)
  {
    match f
    case UserField(_) => g.UserField?
    case RoleField(_) => g.RoleField?
    case DepartmentField(_) => g.DepartmentField?
    case StatusField(_) => g.StatusField?
    case SpecializationField(_) => g.SpecializationField?
    case QualificationsField(_) => g.QualificationsField?
    case YearsField(_) => g.YearsField?
    case LicenseField(_) => g.LicenseField?
    case PhoneField(_) => g.PhoneField?
    case AddressField(_) => g.AddressField?
    case EmergencyContactField(_) => g.EmergencyContactField?
    case JoiningDateField(_) => g.JoiningDateField?
  }

  /** The `setattr` loop over the validated fields, in order. */
  function SetFields(m: StaffMember, fs: seq<StaffField>): StaffMember
    decreases |fs|
  {
    if fs == [] then m else SetFields(SetField(m, fs[0]), fs[1..])
  }

  /** `validated_data.get('status', old_status)`: the last status field
      written, or the current status when there is none. */
  function RequestedStatus(fs: seq<StaffField>, current: string): string
    decreases |fs|
  {
    if fs == [] then current else RequestedStatus(fs[1..], if fs[0].StatusField? then fs[0].status else current)
  }

  /** Writing one field sets its attribute and leaves every other one. */
  lemma SetFieldEffect(m: StaffMember, f: StaffField, g: StaffField)
    ensures Holds(SetField(m, f), f)
    ensures !SameAttribute(f, g) && Holds(m, g) ==> Holds(SetField(m, f), g)
    ensures SetField(m, f).staffId == m.staffId
  {
  }

  /** The loop leaves every field holding its value unless a later field
      writes the same attribute, so with one value per attribute, as a
      dictionary of validated data has, every field is written. */
  lemma {:induction false} SetFieldsWritesEach(m: StaffMember, fs: seq<StaffField>, i: nat)
    requires i < |fs|
    requires forall j :: i < j < |fs| ==> !SameAttribute(fs[j], fs[i])
    ensures Holds(SetFields(m, fs), fs[i])
    decreases |fs|
  {
    if i == 0 {
      SetFieldsKeeps(SetField(m, fs[0]), fs[1..], fs[0]);
    } else {
      SetFieldsWritesEach(SetField(m, fs[0]), fs[1..], i - 1);
    }
  }

  /** A value survives the loop when no field of the loop writes its
      attribute. */
  lemma {:induction false} SetFieldsKeeps(m: StaffMember, fs: seq<StaffField>, g: StaffField)
    requires Holds(m, g)
    requires forall j :: 0 <= j < |fs| ==> !SameAttribute(fs[j], g)
    ensures Holds(SetFields(m, fs), g)
    decreases |fs|
  {
    if fs != [] {
      SetFieldEffect(m, fs[0], g);
      SetFieldsKeeps(SetField(m, fs[0]), fs[1..], g);
    }
  }

  /** After the loop the status is the requested one, and `staff_id` is
      never written. */
  lemma {:induction false} SetFieldsStatus(m: StaffMember, fs: seq<StaffField>)
    ensures SetFields(m, fs).status == RequestedStatus(fs, m.status)
    ensures SetFields(m, fs).staffId == m.staffId
    decreases |fs|
  {
    if fs != [] {
      SetFieldsStatus(SetField(m, fs[0]), fs[1..]);
    }
  }

  /** The result of `update`: the tables after it, and whether
      `instance.save()` went through. */
  datatype StaffUpdated = StaffUpdated(tables: StaffTables, saved: bool)

  /** Another row than `id` holds account `u`; `user` is one-to-one, so
      the database refuses to save a second row with it. */
  predicate AccountHeldElsewhere(t: StaffTables, id: StaffRowId, u: UserId)
  {
    exists s :: s in t.members && s != id && t.members[s].user == u
  }

  /** `update` of row `id` with validated fields `fs`: the fields are
      written to the instance in order and the instance is saved. A save
      whose account another row holds raises before the activity is
      created, so nothing is written. Otherwise the row is stored and a
      'status_changed' activity is appended exactly when the requested
      status differs from the old one. */
  function UpdateStep(t: StaffTables, id: StaffRowId, fs: seq<StaffField>, performer: Option<UserId>): (c: StaffUpdated)
    requires id in t.members
    ensures c.saved <==> !AccountHeldElsewhere(t, id, SetFields(t.members[id], fs).user)
    ensures !c.saved ==> c.tables == t
    ensures c.saved ==> c.tables.members == t.members[id := SetFields(t.members[id], fs)]
    ensures c.tables == t.(members := c.tables.members, activities := c.tables.activities)
  {
    var m := t.members[id];
    var m' := SetFields(m, fs);
    var newStatus := RequestedStatus(fs, m.status);
    if AccountHeldElsewhere(t, id, m'.user) then StaffUpdated(t, false)
    else
      StaffUpdated(t.(members := t.members[id := m'],
                      activities := t.activities + (if m.status != newStatus
                                                    then [StaffActivity(id, "status_changed", StatusChangeDetails(m.status, newStatus), performer)]
                                                    else [])),
                   true)
  }

  /** The activity rule of `update`: on a save, one 'status_changed'
      entry when the stored status ends up different from the old one,
      none otherwise, and none at all when no status is sent. */
  lemma UpdateLogsStatusChange(t: StaffTables, id: StaffRowId, fs: seq<StaffField>, performer: Option<UserId>)
    requires id in t.members
    ensures var c := UpdateStep(t, id, fs, performer);
      var before := t.members[id].status;
      var after := c.tables.members[id].status;
      && (c.saved && after != before ==>
            c.tables.activities == t.activities + [StaffActivity(id, "status_changed", StatusChangeDetails(before, after), performer)])
      && (after == before ==> c.tables.activities == t.activities)
      && ((forall j :: 0 <= j < |fs| ==> !fs[j].StatusField?) ==> c.tables.activities == t.activities)
  {
    SetFieldsStatus(t.members[id], fs);
    if forall j :: 0 <= j < |fs| ==> !fs[j].StatusField? {
      SetFieldsKeeps(t.members[id], fs, StatusField(t.members[id].status));
    }
  }

  /** Moving a row onto the account another row holds is refused and
      changes nothing. */
  lemma SharedAccountRefused(t: StaffTables, id: StaffRowId, other: StaffRowId, performer: Option<UserId>)
    requires id in t.members && other in t.members && other != id
    ensures var c := UpdateStep(t, id, [UserField(t.members[other].user)], performer);
      !c.saved && c.tables == t
  {
    var fs := [UserField(t.members[other].user)];
    assert SetFields(t.members[id], fs) == SetField(t.members[id], fs[0]);
  }

  /** Every account and department the fields name exists, as the
      `user_id` and `department_id` fields' querysets check. */
  predicate FieldsResolve(t: StaffTables, fs: seq<StaffField>)
  {
    forall j :: 0 <= j < |fs| ==>
      && (fs[j].UserField? ==> fs[j].user in t.accounts)
      && (fs[j].DepartmentField? && fs[j].department.Some? ==> fs[j].department.value in t.departments)
  }

  predicate MemberResolves(t: StaffTables, m: StaffMember)
  {
    m.user in t.accounts && (m.department.Some? ==> m.department.value in t.departments)
  }

  /** Writing fields that resolve leaves a row whose keys resolve. */
  lemma {:induction false} SetFieldsResolve(t: StaffTables, m: StaffMember, fs: seq<StaffField>)
    requires MemberResolves(t, m) && FieldsResolve(t, fs)
    ensures MemberResolves(t, SetFields(m, fs))
    decreases |fs|
  {
    if fs != [] {
      assert FieldsResolve(t, fs[1..]) by {
        forall j | 0 <= j < |fs[1..]| ensures fs[1..][j] == fs[j + 1] { }
      }
      SetFieldsResolve(t, SetField(m, fs[0]), fs[1..]);
    }
  }

  /** An update with validated fields keeps the tables consistent: the
      refused save writes nothing, and a stored row keeps its `staff_id`,
      holds an account no other row holds and names existing keys. */
  lemma UpdateKeepsConsistent(t: StaffTables, id: StaffRowId, fs: seq<StaffField>, performer: Option<UserId>)
    requires StaffConsistent(t) && id in t.members && FieldsResolve(t, fs)
    ensures StaffConsistent(UpdateStep(t, id, fs, performer).tables)
  {
    var c := UpdateStep(t, id, fs, performer);
    if c.saved {
      SetFieldsResolve(t, t.members[id], fs);
      SetFieldsStatus(t.members[id], fs);
      var h := c.tables.activities;
      forall i | 0 <= i < |h| ensures h[i].staff in c.tables.members {
        if i < |t.activities| {
          assert h[i] == t.activities[i];
        }
      }
    }
  }

  /** `update` on the roster: the `setattr` loop on the instance, then
      `save()`, which the database refuses when another row holds the
      account. */
  method Update(roster: StaffRoster, id: StaffRowId, fs: seq<StaffField>, performer: Option<UserId>) returns (saved: bool)
    requires id in roster.members
    modifies roster
    ensures StaffUpdated(roster.Snapshot(), saved) == UpdateStep(old(roster.Snapshot()), id, fs, performer)
  {
    var instance := roster.members[id];
    var oldStatus := instance.status;
    var newStatus := RequestedStatus(fs, oldStatus);
    var i := 0;
    while i < |fs|
      invariant 0 <= i <= |fs|
      invariant SetFields(roster.members[id], fs) == SetFields(instance, fs[i..])
    {
      assert fs[i..][1..] == fs[i + 1..];
      instance := SetField(instance, fs[i]);
      i := i + 1;
    }
    assert fs[i..] == [];
    if exists s :: s in roster.members && s != id && roster.members[s].user == instance.user {
      return false;
    }
    roster.members := roster.members[id := instance];
    if oldStatus != newStatus {
      roster.activities := roster.activities + [StaffActivity(id, "status_changed", StatusChangeDetails(oldStatus, newStatus), performer)];
    }
    saved := true;
  }
}
