/** The permission classes of core/permissions.py: five fixed role
    checks and the table-driven `RoleBasedPermission`, which admits an
    admin always and anyone else by the view's `role_permissions` table
    for the request method, and per object by ownership. */
module CorePermissions {
  import opened Base

  /** `view.role_permissions`: lower-case HTTP method to the roles it admits. */
  type RoleTable = map<string, seq<string>>

  predicate IsAdmin(u: User) { u.authenticated && u.role == ADMIN }

  predicate IsDoctor(u: User) { u.authenticated && u.role == DOCTOR }

  predicate IsPharmacist(u: User) { u.authenticated && u.role == PHARMACIST }

  predicate IsAdminOrDoctor(u: User)
  {
    if !u.authenticated then false else u.role in [ADMIN, DOCTOR]
  }

  predicate IsAdminOrPharmacist(u: User)
  {
    if !u.authenticated then false else u.role in [ADMIN, PHARMACIST]
  }

  /** `RoleBasedPermission.has_permission`; `table` is `None` when the
      view has no `role_permissions` attribute. */
  predicate RoleBasedHasPermission(u: User, httpMethod: string, table: Option<RoleTable>)
  {
    if !u.authenticated then false
    else if u.role == ADMIN then true
    else if table.Some? then
      var key := Lower(httpMethod);
      var allowed := if key in table.value then table.value[key] else [];
      u.role in allowed
    else false
  }

  /** The two ownership attributes the object check looks at. `None`
      stands both for an object without the attribute and for a null
      value; neither equals an authenticated user. */
  datatype Ownership = Ownership(user: Option<UserId>, createdBy: Option<UserId>)

  /** `RoleBasedPermission.has_object_permission`. */
  predicate RoleBasedHasObjectPermission(u: User, obj: Ownership)
  {
    if !u.authenticated then false
    else if u.role == ADMIN then true
    else if obj.user == Some(u.id) then true
    else obj.createdBy == Some(u.id)
  }

  // --- properties --------------------------------------------------------

  /** Every check of the module refuses an unauthenticated request. */
  lemma UnauthenticatedDenied(u: User, httpMethod: string, table: Option<RoleTable>, obj: Ownership)
    requires !u.authenticated
    ensures !IsAdmin(u) && !IsDoctor(u) && !IsPharmacist(u)
    ensures !IsAdminOrDoctor(u) && !IsAdminOrPharmacist(u)
    ensures !RoleBasedHasPermission(u, httpMethod, table)
    ensures !RoleBasedHasObjectPermission(u, obj)
  {
  }

  /** An authenticated admin passes the role-based checks for any
      method, any table or none, and any object. */
  lemma AdminAlwaysAllowed(u: User, httpMethod: string, table: Option<RoleTable>, obj: Ownership)
    requires u.authenticated && u.role == ADMIN
    ensures RoleBasedHasPermission(u, httpMethod, table)
    ensures RoleBasedHasObjectPermission(u, obj)
    ensures IsAdminOrDoctor(u) && IsAdminOrPharmacist(u)
  {
  }

  /** Any other authenticated user is admitted exactly when the table
      exists, lists the lower-cased method, and names the user's role
      there. */
  lemma NonAdminNeedsTableEntry(u: User, httpMethod: string, table: Option<RoleTable>)
    requires u.authenticated && u.role != ADMIN
    ensures RoleBasedHasPermission(u, httpMethod, table) <==>
      table.Some? && Lower(httpMethod) in table.value && u.role in table.value[Lower(httpMethod)]
  {
  }

  /** The method is looked up case-insensitively: 'POST' and 'post'
      decide the same. */
  lemma MethodCaseIgnored(u: User, httpMethod: string, table: Option<RoleTable>)
    ensures RoleBasedHasPermission(u, httpMethod, table) == RoleBasedHasPermission(u, Lower(httpMethod), table)
  {
    LowerIdempotent(httpMethod);
  }

  /** A non-admin gets an object only through its `user` or its
      `created_by`; an object with neither attribute is never theirs. */
  lemma ObjectNeedsOwnership(u: User, obj: Ownership)
    requires u.role != ADMIN
    ensures RoleBasedHasObjectPermission(u, obj) <==>
      u.authenticated && (obj.user == Some(u.id) || obj.createdBy == Some(u.id))
    ensures obj.user.None? && obj.createdBy.None? ==> !RoleBasedHasObjectPermission(u, obj)
  {
  }

  /** The combined role checks are the unions of the single ones. */
  lemma CombinedChecksAreUnions(u: User)
    ensures IsAdminOrDoctor(u) <==> IsAdmin(u) || IsDoctor(u)
    ensures IsAdminOrPharmacist(u) <==> IsAdmin(u) || IsPharmacist(u)
  {
  }
}
