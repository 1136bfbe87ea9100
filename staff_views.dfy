/** staff/views.py, `StaffViewSet`: the filters and the sort-key mapping
    of `get_queryset`, the generated `staff_id` of `perform_create`,
    `update_status`, and the counts of `statistics`, in particular the
    four experience buckets. */
module StaffViews {
  import opened Base
  import opened StaffModels
  import StaffSerializers

  // --- get_queryset ------------------------------------------------------

  /** The query parameters; `None` stands for an absent parameter, and an
      empty string filters nothing either. */
  datatype StaffQuery = StaffQuery(
    search: Option<string>,
    role: Option<string>,
    department: Option<DepartmentId>,
    status: Option<string>)

  const NO_STAFF_QUERY: StaffQuery := StaffQuery(None, None, None, None)

  predicate Given(o: Option<string>)
  {
    o.Some? && o.value != ""
  }

  /** `search`: the first name, the last name, the `staff_id` or the
      specialization contains the text, ignoring case; a null
      specialization contains nothing. */
  predicate SearchMatches(accounts: map<UserId, Account>, m: StaffMember, search: string)
  {
    || (m.user in accounts && ContainsIgnoreCase(accounts[m.user].firstName, search))
    || (m.user in accounts && ContainsIgnoreCase(accounts[m.user].lastName, search))
    || ContainsIgnoreCase(m.staffId, search)
    || (m.specialization.Some? && ContainsIgnoreCase(m.specialization.value, search))
  }

  /** Every given parameter matches. */
  predicate StaffQueryMatches(accounts: map<UserId, Account>, q: StaffQuery, m: StaffMember)
  {
    && (Given(q.search) ==> SearchMatches(accounts, m, q.search.value))
    && (Given(q.role) ==> m.role == q.role.value)
    && (q.department.Some? ==> m.department == Some(q.department.value))
    && (Given(q.status) ==> m.status == q.status.value)
  }

  /** The filters of `get_queryset`, applied one after another; the rows
      returned are those every given parameter matches. */
  function StaffQueryset(accounts: map<UserId, Account>, q: StaffQuery, members: map<StaffRowId, StaffMember>): (r: set<StaffRowId>)
    ensures forall s :: s in r <==> s in members && StaffQueryMatches(accounts, q, members[s])
  {
    var bySearch := if Given(q.search) then set s | s in members && SearchMatches(accounts, members[s], q.search.value) else members.Keys;
    var byRole := if Given(q.role) then set s | s in bySearch && s in members && members[s].role == q.role.value else bySearch;
    var byDepartment :=
      if q.department.Some? then set s | s in byRole && s in members && members[s].department == Some(q.department.value) else byRole;
    if Given(q.status) then set s | s in byDepartment && s in members && members[s].status == q.status.value else byDepartment
  }

  /** The parameters only narrow the full table, and the staff id search
      finds a row by any case of its `staff_id`. */
  lemma StaffQueryNarrows(accounts: map<UserId, Account>, q: StaffQuery, members: map<StaffRowId, StaffMember>, s: StaffRowId)
    ensures StaffQueryset(accounts, q, members) <= StaffQueryset(accounts, NO_STAFF_QUERY, members) == members.Keys
    ensures s in members && members[s].staffId != "" ==>
      s in StaffQueryset(accounts, NO_STAFF_QUERY.(search := Some(Lower(members[s].staffId))), members)
  {
    if s in members && members[s].staffId != "" {
      var id := members[s].staffId;
      LowerIdempotent(id);
      assert OccursAt(Lower(Lower(id)), Lower(id), 0);
    }
  }

  /** The model field a `sort_by` value orders by. */
  function SortKey(sortBy: string): (f: string)
    ensures sortBy == "name" ==> f == "user__last_name"
    ensures sortBy == "department" ==> f == "department__name"
    ensures sortBy != "name" && sortBy != "department" ==> f == sortBy
  {
    if sortBy == "name" then "user__last_name"
    else if sortBy == "role" then "role"
    else if sortBy == "department" then "department__name"
    else if sortBy == "status" then "status"
    else if sortBy == "hire_date" then "hire_date"
    else sortBy
  }

  /** The `order_by` argument of `get_queryset`: none without a
      `sort_by`, else the mapped key, with '-' in front exactly when
      `sort_order` is 'desc' (its default is 'asc'). */
  function SortField(sortBy: Option<string>, sortOrder: Option<string>): (r: Option<string>)
    ensures r.None? <==> !Given(sortBy)
    ensures r.Some? ==> r.value == SortKey(sortBy.value) || r.value == "-" + SortKey(sortBy.value)
    ensures r.Some? ==> (r.value == "-" + SortKey(sortBy.value) <==> sortOrder == Some("desc"))
  {
    if !Given(sortBy) then None
    else
      var order := if sortOrder.Some? then sortOrder.value else "asc";
      var key := SortKey(sortBy.value);
      Some(if order == "desc" then "-" + key else key)
  }

  // --- perform_create ------------------------------------------------------

  predicate IsLowerHexDigit(c: char) { '0' <= c <= '9' || 'a' <= c <= 'f' }
  predicate IsUpperHexDigit(c: char) { '0' <= c <= '9' || 'A' <= c <= 'F' }

  /** `f"S{uuid.uuid4().hex[:5].upper()}"`, given the 32 lower-case hex
      digits of the random UUID: 'S' and five upper-case hex digits, which
      read back in lower case as the UUID's first five. */
  function GeneratedStaffId(uuidHex: string): (id: string)
    requires |uuidHex| == 32 && forall i :: 0 <= i < |uuidHex| ==> IsLowerHexDigit(uuidHex[i])
    ensures |id| == 6 && id[0] == 'S'
    ensures forall i :: 1 <= i < 6 ==> IsUpperHexDigit(id[i])
    ensures Lower(id[1..]) == uuidHex[..5]
  {
    var digits := Upper(uuidHex[..5]);
    UpperHexRoundTrip(uuidHex[..5]);
    var id := "S" + digits;
    assert id[1..] == digits;
    id
  }

  /** Upper-casing lower-case hex digits gives upper-case hex digits that
      lower-case back to the originals. */
  lemma UpperHexRoundTrip(s: string)
    requires forall i :: 0 <= i < |s| ==> IsLowerHexDigit(s[i])
    ensures forall i :: 0 <= i < |s| ==> IsUpperHexDigit(Upper(s)[i])
    ensures Lower(Upper(s)) == s
  {
    var u := Upper(s);
    forall i | 0 <= i < |s|
      ensures IsUpperHexDigit(u[i]) && LowerChar(u[i]) == s[i]
    {
      assert u[i] == UpperChar(s[i]);
    }
    assert Lower(u) == s;
  }

  /** `perform_create`: the serializer's create with a generated id. */
  method PerformCreate(roster: StaffRoster, m: StaffMember, performer: Option<UserId>, uuidHex: string)
    returns (row: Option<StaffRowId>)
    requires |uuidHex| == 32 && forall i :: 0 <= i < |uuidHex| ==> IsLowerHexDigit(uuidHex[i])
    modifies roster
    ensures StaffSerializers.StaffCreated(roster.Snapshot(), row)
         == StaffSerializers.CreateStep(old(roster.Snapshot()), m.(staffId := GeneratedStaffId(uuidHex)), performer)
  {
    row := StaffSerializers.Create(roster, m.(staffId := GeneratedStaffId(uuidHex)), performer);
  }

  // --- update_status -------------------------------------------------------

  /** Response classes: 200, 403 (not authenticated), 404, 400. */
  datatype ViewOutcome = Ok | Forbidden | NotFound | BadRequest

  datatype StaffChange = StaffChange(tables: StaffTables, outcome: ViewOutcome)

  /** `update_status` (POST) on row `id` with the request's `status`.
      After authentication and `get_object`, a status outside the three
      choices is refused with 400 and nothing changes; any valid one,
      even the current status, is stored and logged with exactly one
      'status_changed' activity. */
  function UpdateStatusStep(t: StaffTables, u: User, q: StaffQuery, id: StaffRowId, newStatus: Option<string>): (c: StaffChange)
    ensures c.outcome == Ok <==>
      u.authenticated && id in t.members && StaffQueryMatches(t.accounts, q, t.members[id])
      && newStatus.Some? && newStatus.value in STATUS_CHOICES
    ensures c.outcome == BadRequest <==>
      u.authenticated && id in t.members && StaffQueryMatches(t.accounts, q, t.members[id])
      && !(newStatus.Some? && newStatus.value in STATUS_CHOICES)
    ensures c.outcome != Ok ==> c.tables == t
    ensures c.outcome == Ok ==>
      && c.tables.members == t.members[id := t.members[id].(status := newStatus.value)]
      && c.tables.activities == t.activities
           + [StaffActivity(id, "status_changed", StatusChangeDetails(t.members[id].status, newStatus.value), Some(u.id))]
      && c.tables == t.(members := c.tables.members, activities := c.tables.activities)
  {
    if !u.authenticated then StaffChange(t, Forbidden)
    else if id !in StaffQueryset(t.accounts, q, t.members) then StaffChange(t, NotFound)
    else if newStatus.None? || newStatus.value !in STATUS_CHOICES then StaffChange(t, BadRequest)
    else
      var m := t.members[id];
      StaffChange(t.(members := t.members[id := m.(status := newStatus.value)],
                     activities := t.activities + [StaffActivity(id, "status_changed", StatusChangeDetails(m.status, newStatus.value), Some(u.id))]),
                  Ok)
  }

  /** A status update keeps the tables consistent, and leaves the row
      with a status among the choices. */
  lemma UpdateStatusKeepsConsistent(t: StaffTables, u: User, q: StaffQuery, id: StaffRowId, newStatus: Option<string>)
    requires StaffConsistent(t)
    ensures StaffConsistent(UpdateStatusStep(t, u, q, id, newStatus).tables)
    ensures var c := UpdateStatusStep(t, u, q, id, newStatus);
      c.outcome == Ok ==> c.tables.members[id].status in STATUS_CHOICES
  {
    var c := UpdateStatusStep(t, u, q, id, newStatus);
    if c.outcome == Ok {
      var h := c.tables.activities;
      forall i | 0 <= i < |h| ensures h[i].staff in c.tables.members {
        if i < |t.activities| {
          assert h[i] == t.activities[i];
        }
      }
    }
  }

  /** `update_status` on the roster. */
  method UpdateStatus(roster: StaffRoster, u: User, q: StaffQuery, id: StaffRowId, newStatus: Option<string>)
    returns (outcome: ViewOutcome)
    modifies roster
    ensures StaffChange(roster.Snapshot(), outcome) == UpdateStatusStep(old(roster.Snapshot()), u, q, id, newStatus)
  {
    if !u.authenticated {
      return Forbidden;
    }
    if id !in StaffQueryset(roster.accounts, q, roster.members) {
      return NotFound;
    }
    if newStatus.None? || newStatus.value !in STATUS_CHOICES {
      return BadRequest;
    }
    var m := roster.members[id];
    var oldStatus := m.status;
    roster.members := roster.members[id := m.(status := newStatus.value)];
    roster.activities := roster.activities + [StaffActivity(id, "status_changed", StatusChangeDetails(oldStatus, newStatus.value), Some(u.id))];
    outcome := Ok;
  }

  // --- statistics ------------------------------------------------------------

  /** Rows with the given status. */
  function WithStatus(members: map<StaffRowId, StaffMember>, status: string): set<StaffRowId>
  {
    set s | s in members && members[s].status == status
  }

  /** Rows with more than `lo` and at most `hi` years of experience. */
  function ExperienceBetween(members: map<StaffRowId, StaffMember>, lo: int, hi: int): set<StaffRowId>
  {
    set s | s in members && lo < members[s].yearsOfExperience <= hi
  }

  /** Rows with more than `lo` years of experience. */
  function ExperienceOver(members: map<StaffRowId, StaffMember>, lo: int): set<StaffRowId>
  {
    set s | s in members && lo < members[s].yearsOfExperience
  }

  /** The counts `statistics` reports, apart from the role and
      department distributions. */
  datatype StaffStatistics = StaffStatistics(
    total: nat, active: nat, onLeave: nat,
    upTo5: nat, from6To10: nat, from11To20: nat, over20: nat)

  /** The counts of `statistics`; experience is a `nat`, so "at most 5"
      is the range from -1 exclusive. */
  function Statistics(members: map<StaffRowId, StaffMember>): StaffStatistics
  {
    StaffStatistics(|members|,
      |WithStatus(members, ACTIVE)|, |WithStatus(members, ON_LEAVE)|,
      |ExperienceBetween(members, -1, 5)|, |ExperienceBetween(members, 5, 10)|,
      |ExperienceBetween(members, 10, 20)|, |ExperienceOver(members, 20)|)
  }

  /** The four experience buckets (at most 5, 6 to 10, 11 to 20, over 20
      years) split the whole table, so their counts add up to the total. */
  lemma ExperienceBucketsAddUp(members: map<StaffRowId, StaffMember>)
    ensures var st := Statistics(members);
      st.upTo5 + st.from6To10 + st.from11To20 + st.over20 == st.total
  {
    var a := ExperienceBetween(members, -1, 5);
    var b := ExperienceBetween(members, 5, 10);
    var c := ExperienceBetween(members, 10, 20);
    var d := ExperienceOver(members, 20);
    BucketsCover(members);
    BucketsDisjoint(members);
    PartitionCounts(members.Keys, a, b, c, d);
  }

  lemma BucketsCover(members: map<StaffRowId, StaffMember>)
    ensures ExperienceBetween(members, -1, 5) + ExperienceBetween(members, 5, 10)
          + ExperienceBetween(members, 10, 20) + ExperienceOver(members, 20) == members.Keys
  {
  }

  lemma BucketsDisjoint(members: map<StaffRowId, StaffMember>)
    ensures ExperienceBetween(members, -1, 5) * ExperienceBetween(members, 5, 10) == {}
    ensures ExperienceBetween(members, -1, 5) * ExperienceBetween(members, 10, 20) == {}
    ensures ExperienceBetween(members, -1, 5) * ExperienceOver(members, 20) == {}
    ensures ExperienceBetween(members, 5, 10) * ExperienceBetween(members, 10, 20) == {}
    ensures ExperienceBetween(members, 5, 10) * ExperienceOver(members, 20) == {}
    ensures ExperienceBetween(members, 10, 20) * ExperienceOver(members, 20) == {}
  {
  }

  /** Active and on-leave rows are disjoint parts of the table. */
  lemma StatusCountsBound(members: map<StaffRowId, StaffMember>)
    ensures var st := Statistics(members);
      st.active + st.onLeave <= st.total
  {
    var active := WithStatus(members, ACTIVE);
    var onLeave := WithStatus(members, ON_LEAVE);
    assert active * onLeave == {};
    assert |active + onLeave| == |active| + |onLeave|;
    SubsetCard(active + onLeave, members.Keys);
  }

  /** Four pairwise disjoint sets covering `all` have sizes adding up to
      its size. */
  lemma PartitionCounts(all: set<StaffRowId>, a: set<StaffRowId>, b: set<StaffRowId>, c: set<StaffRowId>, d: set<StaffRowId>)
    requires a + b + c + d == all
    requires a * b == {} && a * c == {} && a * d == {} && b * c == {} && b * d == {} && c * d == {}
    ensures |a| + |b| + |c| + |d| == |all|
  {
    assert |a + b| == |a| + |b|;
    assert (a + b) * c == {};
    assert |a + b + c| == |a + b| + |c|;
    assert (a + b + c) * d == {};
  }

  lemma SubsetCard(a: set<StaffRowId>, b: set<StaffRowId>)
    requires a <= b
    ensures |a| <= |b|
  {
    assert b == a + (b - a);
  }
}
