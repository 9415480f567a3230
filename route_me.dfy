/** The current-admin endpoint (app/api/auth/me/route.ts). */
module MeRoute {
  import opened Wrappers
  import opened Types
  import opened Http
  import Auth

  /** GET: the session chain, then the admin's id, email, name and role. */
  function Get(admins: seq<AdminRow>, cookie: Option<string>): (r: Response<Admin>)
    ensures r.Failure? <==> !ResolveSession(admins, cookie).Authenticated?
    ensures r.Failure? ==> r == SessionFailure(ResolveSession(admins, cookie))
    ensures r.Success? ==> r.status == 200 && r.data.id == cookie.value
    ensures r.Success? ==> exists row :: row in admins && row.id == cookie.value && r.data == Auth.WithoutHash(row)
  {
    var s := ResolveSession(admins, cookie);
    if !s.Authenticated? then SessionFailure(s)
    else Success(200, Admin(s.admin.id, s.admin.email, s.admin.name, s.admin.role))
  }
}
