/** users/permissions.py: three single-role checks and `HasRoleAccess`,
    which compares the role with the view's `required_role`. */
module UsersPermissions {
  import opened Base
  import CorePermissions

  predicate IsAdmin(u: User) { u.authenticated && u.role == ADMIN }

  predicate IsDoctor(u: User) { u.authenticated && u.role == DOCTOR }

  predicate IsPharmacist(u: User) { u.authenticated && u.role == PHARMACIST }

  /** `HasRoleAccess.has_permission`; `requiredRole` is `None` when the
      view has no `required_role`, and an empty string is falsy too. */
  predicate HasRoleAccess(u: User, requiredRole: Option<string>)
  {
    if !u.authenticated then false
    else if u.role == ADMIN then true
    else if requiredRole.None? || requiredRole.value == "" then false
    else u.role == requiredRole.value
  }

  lemma UnauthenticatedDenied(u: User, requiredRole: Option<string>)
    requires !u.authenticated
    ensures !HasRoleAccess(u, requiredRole) && !IsAdmin(u) && !IsDoctor(u) && !IsPharmacist(u)
  {
  }

  lemma AdminAlwaysPasses(u: User, requiredRole: Option<string>)
    requires u.authenticated && u.role == ADMIN
    ensures HasRoleAccess(u, requiredRole)
  {
  }

  /** A non-admin passes exactly when the view names a required role and
      it is theirs; with no required role nobody but the admin passes. */
  lemma NonAdminNeedsRequiredRole(u: User, requiredRole: Option<string>)
    requires u.authenticated && u.role != ADMIN
    ensures HasRoleAccess(u, requiredRole) <==> requiredRole.Some? && requiredRole.value != "" && u.role == requiredRole.value
    ensures requiredRole.None? ==> !HasRoleAccess(u, requiredRole)
  {
  }

  /** A view requiring the doctor role admits admins and doctors, the
      same users as `core.permissions.IsAdminOrDoctor`. */
  lemma RequiredDoctorMatchesCore(u: User)
    ensures HasRoleAccess(u, Some(DOCTOR)) <==> CorePermissions.IsAdminOrDoctor(u)
  {
  }

  /** The single-role checks here decide exactly as their namesakes in
      core/permissions.py. */
  lemma SingleRoleChecksAgree(u: User)
    ensures IsAdmin(u) == CorePermissions.IsAdmin(u)
    ensures IsDoctor(u) == CorePermissions.IsDoctor(u)
    ensures IsPharmacist(u) == CorePermissions.IsPharmacist(u)
  {
  }
}
