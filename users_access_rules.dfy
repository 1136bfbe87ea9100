/** users/access_rules.py: the page table `ROLE_ACCESS` and `has_access`. */
module UsersAccessRules {
  import opened Base

  const ROLE_ACCESS: map<string, seq<string>> := map[
    ADMIN := ["dashboard", "prescriptions", "patient_records", "settings", "inventory", "orders"],
    DOCTOR := ["dashboard", "prescriptions", "patient_records", "settings"],
    PHARMACIST := ["dashboard", "inventory", "prescriptions", "patient_records", "orders", "settings"]
  ]

  /** `has_access(user, page)`; an unlisted role gets the empty list. */
  predicate HasAccess(u: User, page: string)
  {
    if !u.authenticated then false
    else if u.role == ADMIN then true
    else page in (if u.role in ROLE_ACCESS then ROLE_ACCESS[u.role] else [])
  }

  lemma UnauthenticatedSeesNothing(u: User, page: string)
    requires !u.authenticated
    ensures !HasAccess(u, page)
  {
  }

  /** Admin reaches every page, listed in the table or not. */
  lemma AdminSeesEverything(u: User, page: string)
    requires u.authenticated && u.role == ADMIN
    ensures HasAccess(u, page)
  {
  }

  /** A non-admin reaches exactly the pages listed for the role, and a
      role the table does not list reaches nothing. */
  lemma NonAdminByTable(u: User, page: string)
    requires u.authenticated && u.role != ADMIN
    ensures HasAccess(u, page) <==> u.role in ROLE_ACCESS && page in ROLE_ACCESS[u.role]
    ensures u.role !in ROLE_ACCESS ==> !HasAccess(u, page)
  {
  }

  /** Doctors lack the inventory and order pages; pharmacists have both. */
  lemma DoctorAndPharmacistPages(d: User, p: User)
    requires d.authenticated && d.role == DOCTOR
    requires p.authenticated && p.role == PHARMACIST
    ensures !HasAccess(d, "inventory") && !HasAccess(d, "orders")
    ensures HasAccess(p, "inventory") && HasAccess(p, "orders")
  {
    assert ROLE_ACCESS[DOCTOR] == ["dashboard", "prescriptions", "patient_records", "settings"];
    assert ROLE_ACCESS[PHARMACIST][1] == "inventory" && ROLE_ACCESS[PHARMACIST][4] == "orders";
  }

  /** The admin list names every page any role is given, so the table
      never grants a non-admin a page the admin row omits. */
  lemma AdminRowCoversEveryRow(role: string, page: string)
    requires role in ROLE_ACCESS && page in ROLE_ACCESS[role]
    ensures page in ROLE_ACCESS[ADMIN]
  {
  }
}
