/** staff/models.py: staff members with their status and role choices,
    departments, the activity log, and the user accounts staff rows point
    to. `StaffRoster` is the store the staff views change. */
module StaffModels {
  import opened Base

  type StaffRowId = nat
  type DepartmentId = nat

  const ROLE_CHOICES: seq<string> := ["doctor", "nurse", "pharmacist", "admin", "receptionist"]

  const ACTIVE: string := "active"
  const ON_LEAVE: string := "on_leave"
  const INACTIVE: string := "inactive"
  const STATUS_CHOICES: seq<string> := [ACTIVE, ON_LEAVE, INACTIVE]
  const DEFAULT_STATUS: string := ACTIVE

  /** The JSON object stored as `emergency_contact`. */
  type Contact = map<string, string>

  /** The `auth.User` row of a staff member; the password is kept as
      given, since hashing is Django's. */
  datatype Account = Account(username: string, email: string, password: string, firstName: string, lastName: string)

  datatype Department = Department(name: string, description: string)

  /** One staff row. Role and status are stored as given: `objects.create`
      does not check the choice lists. */
  datatype StaffMember = StaffMember(
    user: UserId,
    staffId: string,
    role: string,
    department: Option<DepartmentId>,
    status: string,
    specialization: Option<string>,
    qualifications: seq<string>,
    yearsOfExperience: nat,
    licenseNumber: Option<string>,
    phone: string,
    address: string,
    emergencyContact: Contact,
    joiningDate: Date)

  datatype StaffActivity = StaffActivity(staff: StaffRowId, action: string, details: string, performedBy: Option<UserId>)

  /** The staff tables as a value. */
  datatype StaffTables = StaffTables(
    accounts: map<UserId, Account>,
    nextUserId: UserId,
    departments: map<DepartmentId, Department>,
    nextDepartmentId: DepartmentId,
    members: map<StaffRowId, StaffMember>,
    nextStaffRowId: StaffRowId,
    activities: seq<StaffActivity>)

  /** Ids stay below the next id, foreign keys resolve, `staff_id` is
      unique and each account has at most one staff row. */
  ghost predicate StaffConsistent(t: StaffTables)
  {
    && (forall u :: u in t.accounts ==> u < t.nextUserId)
    && (forall d :: d in t.departments ==> d < t.nextDepartmentId)
    && (forall s :: s in t.members ==>
          && s < t.nextStaffRowId
          && t.members[s].user in t.accounts
          && (t.members[s].department.Some? ==> t.members[s].department.value in t.departments))
    && (forall s, s' :: s in t.members && s' in t.members && s != s' ==>
          t.members[s].staffId != t.members[s'].staffId && t.members[s].user != t.members[s'].user)
    && (forall i :: 0 <= i < |t.activities| ==> t.activities[i].staff in t.members)
  }

  /** The details text of a 'status_changed' activity. */
  function StatusChangeDetails(oldStatus: string, newStatus: string): (s: string)
    ensures StartsWith(s, "Status changed from " + oldStatus)
  {
    StartsWithConcat("Status changed from " + oldStatus, " to " + newStatus);
    "Status changed from " + oldStatus + " to " + newStatus
  }

  /** The three staff statuses are distinct and the default is one of them. */
  lemma StatusChoicesDistinct()
    ensures |STATUS_CHOICES| == 3 && DEFAULT_STATUS in STATUS_CHOICES
    ensures forall i, j :: 0 <= i < j < |STATUS_CHOICES| ==> STATUS_CHOICES[i] != STATUS_CHOICES[j]
  {
  }

  /** The store behind the staff views. */
  class StaffRoster {
    var accounts: map<UserId, Account>
    var nextUserId: UserId
    var departments: map<DepartmentId, Department>
    var nextDepartmentId: DepartmentId
    var members: map<StaffRowId, StaffMember>
    var nextStaffRowId: StaffRowId
    var activities: seq<StaffActivity>

    function Snapshot(): StaffTables
      reads this
    {
      StaffTables(accounts, nextUserId, departments, nextDepartmentId, members, nextStaffRowId, activities)
    }

    /** A roster with the given accounts and no departments or staff. */
    constructor (accounts: map<UserId, Account>, nextUserId: UserId)
      requires forall u :: u in accounts ==> u < nextUserId
      ensures Snapshot() == StaffTables(accounts, nextUserId, map[], 1, map[], 1, [])
      ensures StaffConsistent(Snapshot())
    {
      this.accounts := accounts;
      this.nextUserId := nextUserId;
      departments := map[];
      nextDepartmentId := 1;
      members := map[];
      nextStaffRowId := 1;
      activities := [];
    }
  }
}
