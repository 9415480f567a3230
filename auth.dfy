/**
 * Admin accounts (lib/auth.ts): sign-in, creation, lookup, listing and deletion.
 * bcrypt is taken as two functions: `hash` produces the stored hash of a
 * password and `verify(password, hash)` compares a password against one.
 */
module Auth {
  import opened Wrappers
  import opened Types
  import opened Seqs
  import opened Database

  /** The admin as the library hands it out: the stored row without its password hash. */
  function WithoutHash(a: AdminRow): Admin {
    Admin(a.id, a.email, a.name, a.role)
  }

  /** The stored row for a new admin: the password is kept only as its hash. */
  function NewAdminRow(id: string, email: string, password: string, name: string, role: AdminRole, hash: string -> string): (row: AdminRow)
    ensures row.passwordHash == hash(password)
    ensures row.id == id && row.email == email && row.name == name && row.role == role
  {
    AdminRow(id, email, hash(password), name, role)
  }

  /** Sign-in: the admin with that email, provided the password verifies against the stored hash. */
  function LoginAdmin(admins: seq<AdminRow>, email: string, password: string, verify: (string, string) -> bool): (r: Option<Admin>)
    ensures !HasKey(admins, AdminEmail, email) ==> r.None?
    ensures r.Some? ==> exists a :: a in admins && a.email == email && verify(password, a.passwordHash) && r.value == WithoutHash(a)
  {
    match FindByKey(admins, AdminEmail, email)
    case None => None
    case Some(a) => if verify(password, a.passwordHash) then Some(WithoutHash(a)) else None
  }

  /** With unique emails, sign-in succeeds exactly when the password verifies against that admin's hash. */
  lemma LoginAdminExact(admins: seq<AdminRow>, a: AdminRow, password: string, verify: (string, string) -> bool)
    requires Unique(admins, AdminEmail)
    requires a in admins
    ensures LoginAdmin(admins, a.email, password, verify) == if verify(password, a.passwordHash) then Some(WithoutHash(a)) else None
  {
    FindByKeyUnique(admins, AdminEmail, a);
  }

  /** A newly created admin can sign in with the password they were created with. */
  lemma LoginAfterCreate(
    admins: seq<AdminRow>, id: string, email: string, password: string, name: string, role: AdminRole,
    hash: string -> string, verify: (string, string) -> bool)
    requires Unique(admins, AdminEmail)
    requires !HasKey(admins, AdminEmail, email)
    requires verify(password, hash(password))
    ensures LoginAdmin(admins + [NewAdminRow(id, email, password, name, role, hash)], email, password, verify)
            == Some(Admin(id, email, name, role))
  {
    FindByKeyAfterAppend(admins, AdminEmail, NewAdminRow(id, email, password, name, role, hash));
  }

  /** The admin with that id, without the hash; an unknown id gives null. */
  function GetAdminById(admins: seq<AdminRow>, id: string): (r: Option<Admin>)
    ensures r.Some? <==> HasKey(admins, AdminPk, id)
    ensures r.Some? ==> exists a :: a in admins && a.id == id && r.value == WithoutHash(a)
  {
    match FindByKey(admins, AdminPk, id)
    case None => None
    case Some(a) => Some(WithoutHash(a))
  }

  /** Every admin without its hash, in table order; a failed read gives the empty list. */
  function GetAllAdmins(admins: seq<AdminRow>, storeError: bool): (r: seq<Admin>)
    ensures storeError ==> r == []
    ensures !storeError ==> |r| == |admins| && forall i :: 0 <= i < |r| ==> r[i] == WithoutHash(admins[i])
  {
    if storeError then [] else seq(|admins|, i requires 0 <= i < |admins| => WithoutHash(admins[i]))
  }

  /**
   * Inserts a new admin. The insert fails (null) when the store fails, when the
   * generated id is taken, or when the email is already used.
   */
  method CreateAdmin(
    db: Db, email: string, password: string, name: string, hash: string -> string,
    newId: string, storeError: bool, role: AdminRole := EventAdmin)
    returns (r: Option<Admin>)
    requires db.Valid()
    modifies db`admins
    ensures db.Valid()
    ensures r.Some? <==> !storeError && !HasKey(old(db.admins), AdminPk, newId) && !HasKey(old(db.admins), AdminEmail, email)
    ensures r.Some? ==> r.value == Admin(newId, email, name, role)
    ensures db.admins == if r.Some? then old(db.admins) + [NewAdminRow(newId, email, password, name, role, hash)] else old(db.admins)
  {
    if storeError || HasKey(db.admins, AdminPk, newId) || HasKey(db.admins, AdminEmail, email) {
      return None;
    }
    var row := NewAdminRow(newId, email, password, name, role, hash);
    UniqueAppend(db.admins, AdminPk, row);
    UniqueAppend(db.admins, AdminEmail, row);
    db.admins := db.admins + [row];
    r := Some(WithoutHash(row));
  }

  /** Deletes the admin with that id; reports success whether or not a row matched. */
  method DeleteAdmin(db: Db, id: string, storeError: bool) returns (ok: bool)
    requires db.Valid()
    modifies db`admins
    ensures db.Valid()
    ensures ok == !storeError
    ensures db.admins == if ok then RemoveKey(old(db.admins), AdminPk, id) else old(db.admins)
  {
    if storeError {
      return false;
    }
    UniqueRemoveKey(db.admins, AdminPk, id, AdminPk);
    UniqueRemoveKey(db.admins, AdminPk, id, AdminEmail);
    db.admins := RemoveKey(db.admins, AdminPk, id);
    ok := true;
  }

  /** After a delete the id is unknown, and every other admin is still found. */
  lemma {:induction false} GetAfterDelete(admins: seq<AdminRow>, id: string, other: AdminRow)
    requires Unique(admins, AdminPk)
    requires other in admins && other.id != id
    ensures GetAdminById(RemoveKey(admins, AdminPk, id), id).None?
    ensures GetAdminById(RemoveKey(admins, AdminPk, id), other.id) == Some(WithoutHash(other))
  {
    var rest := RemoveKey(admins, AdminPk, id);
    UniqueRemoveKey(admins, AdminPk, id, AdminPk);
    FindByKeyUnique(rest, AdminPk, other);
  }
}
