/** The admin creation endpoint (app/api/admins/create/route.ts): super admins only. */
module AdminsCreateRoute {
  import opened Wrappers
  import opened Types
  import opened Seqs
  import opened Database
  import opened Http
  import Auth

  datatype CreateAdminBody = CreateAdminBody(
    email: Option<string>, password: Option<string>, name: Option<string>, role: Option<string>)

  /** Only the exact text 'super_admin' gives a super admin; anything else, or nothing, an event admin. */
  function NormaliseRole(role: Option<string>): (r: AdminRole)
    ensures r == SuperAdmin <==> role == Some("super_admin")
  {
    if role == Some("super_admin") then SuperAdmin else EventAdmin
  }

  predicate HasRequiredFields(b: CreateAdminBody) {
    Truthy(b.email) && Truthy(b.password) && Truthy(b.name)
  }

  /**
   * POST. `hash` stands for bcrypt, `newId` for the key the database
   * assigns and `storeError` for a failing insert; a body that is not JSON is `None`.
   */
  method Post(
    db: Db, cookie: Option<string>, body: Option<CreateAdminBody>, hash: string -> string, newId: string, storeError: bool)
    returns (r: Response<Admin>)
    requires db.Valid()
    modifies db`admins
    ensures db.Valid()
    ensures !ResolveSession(old(db.admins), cookie).Authenticated? ==> r == SessionFailure(ResolveSession(old(db.admins), cookie))
    ensures ResolveSession(old(db.admins), cookie).Authenticated? && !IsSuperAdmin(ResolveSession(old(db.admins), cookie)) ==>
      r == Failure(403, "Only super admins can create admins")
    ensures IsSuperAdmin(ResolveSession(old(db.admins), cookie)) && body.Some? && !HasRequiredFields(body.value) ==>
      r == Failure(400, "Email, password, and name are required")
    ensures IsSuperAdmin(ResolveSession(old(db.admins), cookie)) && body.None? ==> r == Failure(500, InternalError)
    ensures IsSuperAdmin(ResolveSession(old(db.admins), cookie)) && body.Some? && HasRequiredFields(body.value) && r.Failure? ==>
      r == Failure(500, "Failed to create admin")
    ensures r.Success? <==>
      && IsSuperAdmin(ResolveSession(old(db.admins), cookie)) && body.Some? && HasRequiredFields(body.value)
      && !storeError && !HasKey(old(db.admins), AdminPk, newId) && !HasKey(old(db.admins), AdminEmail, body.value.email.value)
    ensures r.Success? ==> r.status == 201 && r.data == Admin(newId, body.value.email.value, body.value.name.value, NormaliseRole(body.value.role))
    ensures db.admins == if r.Success? then old(db.admins) + [Auth.NewAdminRow(
      newId, body.value.email.value, body.value.password.value, body.value.name.value, NormaliseRole(body.value.role), hash)]
      else old(db.admins)
  {
    var s := ResolveSession(db.admins, cookie);
    if !s.Authenticated? {
      return SessionFailure(s);
    }
    if s.admin.role != SuperAdmin {
      return Failure(403, "Only super admins can create admins");
    }
    if body.None? {
      return Failure(500, InternalError);
    }
    var b := body.value;
    if !HasRequiredFields(b) {
      return Failure(400, "Email, password, and name are required");
    }
    var created := Auth.CreateAdmin(db, b.email.value, b.password.value, b.name.value, hash, newId, storeError, NormaliseRole(b.role));
    if created.None? {
      return Failure(500, "Failed to create admin");
    }
    r := Success(201, created.value);
  }
}
