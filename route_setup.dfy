/**
 * The first-setup endpoint (app/api/setup/create-super-admin/route.ts).
 * POST creates a super admin while the admin listing is empty; GET reports
 * whether setup is still needed. The listing degrades to [] when its query
 * fails, so a failed listing reads as "no admins yet".
 */
module SetupRoute {
  import opened Wrappers
  import opened Types
  import opened Seqs
  import opened Database
  import opened Http
  import Auth
  import Text

  datatype SetupBody = SetupBody(email: Option<string>, password: Option<string>, name: Option<string>, role: Option<string>)

  const MinPasswordLength := 6

  /**
   * POST. `listError` says whether the listing query fails, `storeError`
   * whether the insert does; `hash`, `newId` as for admin creation. The role
   * the body carries is ignored.
   */
  method Post(db: Db, body: Option<SetupBody>, hash: string -> string, newId: string, listError: bool, storeError: bool)
    returns (r: Response<Admin>)
    requires db.Valid()
    modifies db`admins
    ensures db.Valid()
    ensures !listError && old(db.admins) != [] ==>
      r == Failure(403, "Super admin already exists. Please login to create additional admins.")
    ensures r.Success? ==> listError || old(db.admins) == []
    ensures (listError || old(db.admins) == []) && body.Some? && !(Truthy(body.value.email) && Truthy(body.value.password) && Truthy(body.value.name)) ==>
      r == Failure(400, "Email, password, and name are required")
    ensures (listError || old(db.admins) == []) && body.None? ==> r == Failure(500, InternalError)
    ensures (listError || old(db.admins) == []) && body.Some?
            && Truthy(body.value.email) && Truthy(body.value.password) && Truthy(body.value.name) ==>
      && (Text.Utf16Length(body.value.password.value) < MinPasswordLength ==> r == Failure(400, "Password must be at least 6 characters"))
      && (Text.Utf16Length(body.value.password.value) >= MinPasswordLength && HasKey(old(db.admins), AdminEmail, body.value.email.value) ==>
            r == Failure(400, "An admin with this email already exists"))
    ensures r.Success? <==>
      && (listError || old(db.admins) == [])
      && body.Some? && Truthy(body.value.email) && Truthy(body.value.name)
      && Truthy(body.value.password) && Text.Utf16Length(body.value.password.value) >= MinPasswordLength
      && !HasKey(old(db.admins), AdminEmail, body.value.email.value)
      && !storeError && !HasKey(old(db.admins), AdminPk, newId)
    ensures r.Failure? && r.status == 500 && body.Some? ==> r == Failure(500, "Failed to create super admin")
    ensures r.Success? ==> r.status == 201 && r.data == Admin(newId, body.value.email.value, body.value.name.value, SuperAdmin)
    ensures db.admins == if r.Success? then old(db.admins) + [Auth.NewAdminRow(
      newId, body.value.email.value, body.value.password.value, body.value.name.value, SuperAdmin, hash)]
      else old(db.admins)
  {
    var existing := Auth.GetAllAdmins(db.admins, listError);
    if |existing| > 0 {
      return Failure(403, "Super admin already exists. Please login to create additional admins.");
    }
    if body.None? {
      return Failure(500, InternalError);
    }
    var b := body.value;
    if !(Truthy(b.email) && Truthy(b.password) && Truthy(b.name)) {
      return Failure(400, "Email, password, and name are required");
    }
    if Text.Utf16Length(b.password.value) < MinPasswordLength {
      return Failure(400, "Password must be at least 6 characters");
    }
    if HasKey(db.admins, AdminEmail, b.email.value) {
      return Failure(400, "An admin with this email already exists");
    }
    var created := Auth.CreateAdmin(db, b.email.value, b.password.value, b.name.value, hash, newId, storeError, SuperAdmin);
    if created.None? {
      return Failure(500, "Failed to create super admin");
    }
    r := Success(201, created.value);
  }

  datatype SetupStatus = SetupStatus(setupNeeded: bool, adminCount: nat)

  /** GET: setup is needed exactly when the listing is empty. */
  function Get(admins: seq<AdminRow>, listError: bool): (r: SetupStatus)
    ensures !listError ==> (r.setupNeeded <==> admins == []) && r.adminCount == |admins|
    ensures listError ==> r.setupNeeded && r.adminCount == 0
  {
    var listed := Auth.GetAllAdmins(admins, listError);
    SetupStatus(|listed| == 0, |listed|)
  }
}
