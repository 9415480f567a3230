/**
 * What the route handlers share: the reply they give and the admin session
 * check every admin route starts with (the `admin_id` cookie resolved to an
 * admin row).
 */
module Http {
  import opened Wrappers
  import opened Types
  import opened Seqs
  import Auth

  /** A handler's reply: an error status with its message, or a status with its payload. */
  datatype Response<T> = Failure(status: int, error: string) | Success(status: int, data: T)

  /** The reply of the catch-all handler, e.g. when the request body is not JSON. */
  const InternalError := "Internal server error"

  /** The outcome of resolving the session cookie. */
  datatype Session = NoCookie | UnknownAdmin | Authenticated(admin: Admin)

  /** A missing or empty cookie is no session; a cookie naming no admin is an unknown admin. */
  function ResolveSession(admins: seq<AdminRow>, cookie: Option<string>): (s: Session)
    ensures s.NoCookie? <==> !Truthy(cookie)
    ensures s.UnknownAdmin? <==> Truthy(cookie) && !HasKey(admins, AdminPk, cookie.value)
    ensures s.Authenticated? ==>
      s.admin.id == cookie.value && exists row :: row in admins && s.admin == Auth.WithoutHash(row)
  {
    if !Truthy(cookie) then NoCookie
    else
      match Auth.GetAdminById(admins, cookie.value)
      case None => UnknownAdmin
      case Some(a) => Authenticated(a)
  }

  /** 401 without a session, 404 for an unknown admin. */
  function SessionFailure<T>(s: Session): (r: Response<T>)
    requires !s.Authenticated?
    ensures r.Failure?
    ensures r.status == 401 <==> s.NoCookie?
    ensures r.status == 404 <==> s.UnknownAdmin?
  {
    if s.NoCookie? then Failure(401, "Not authenticated") else Failure(404, "Admin not found")
  }

  /** The session of a super admin. */
  predicate IsSuperAdmin(s: Session) {
    s.Authenticated? && s.admin.role == SuperAdmin
  }
}
