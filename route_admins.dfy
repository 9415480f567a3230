/** The admin listing endpoint (app/api/admins/route.ts): super admins only. */
module AdminsRoute {
  import opened Wrappers
  import opened Types
  import opened Http
  import Auth

  /** GET: the session chain, then 403 for an event admin, then every admin without hashes. */
  function Get(admins: seq<AdminRow>, cookie: Option<string>, storeError: bool): (r: Response<seq<Admin>>)
    ensures !ResolveSession(admins, cookie).Authenticated? ==> r == SessionFailure(ResolveSession(admins, cookie))
    ensures ResolveSession(admins, cookie).Authenticated? && !IsSuperAdmin(ResolveSession(admins, cookie)) ==>
      r == Failure(403, "Only super admins can view all admins")
    ensures r.Success? <==> IsSuperAdmin(ResolveSession(admins, cookie))
    ensures r.Success? ==> r.status == 200
    ensures r.Success? && storeError ==> r.data == []
    ensures r.Success? && !storeError ==> |r.data| == |admins| && forall i :: 0 <= i < |admins| ==> r.data[i] == Auth.WithoutHash(admins[i])
  {
    var s := ResolveSession(admins, cookie);
    if !s.Authenticated? then SessionFailure(s)
    else if s.admin.role != SuperAdmin then Failure(403, "Only super admins can view all admins")
    else Success(200, Auth.GetAllAdmins(admins, storeError))
  }
}
