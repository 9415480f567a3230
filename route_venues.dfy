/** The admin venues endpoint (app/api/venues/route.ts): any signed-in admin may list and create. */
module VenuesRoute {
  import opened Wrappers
  import opened Types
  import opened Seqs
  import opened Database
  import opened Http
  import Text
  import Venues

  /** GET: the session chain, then every venue by name. */
  function Get(admins: seq<AdminRow>, venues: seq<Venue>, cookie: Option<string>, storeError: bool): (r: Response<seq<Venue>>)
    ensures r.Failure? <==> !ResolveSession(admins, cookie).Authenticated?
    ensures r.Failure? ==> r == SessionFailure(ResolveSession(admins, cookie))
    ensures r.Success? ==> r.status == 200 && (forall i :: 0 < i < |r.data| ==> Text.LexLe(r.data[i - 1].name, r.data[i].name))
    ensures r.Success? && storeError ==> r.data == []
    ensures r.Success? && !storeError ==> multiset(r.data) == multiset(venues)
  {
    var s := ResolveSession(admins, cookie);
    if !s.Authenticated? then SessionFailure(s) else Success(200, Venues.GetAllVenues(venues, storeError))
  }

  /** The JSON body of POST; the coordinates it may carry are not modelled. */
  datatype CreateVenueBody = CreateVenueBody(
    name: Option<string>, address: Option<string>, description: Option<string>, bgImageUrl: Option<string>, city: Option<string>)

  /** POST: the session chain (no role check), then name and address are required, then one insert. */
  method Post(db: Db, cookie: Option<string>, body: Option<CreateVenueBody>, newId: string, storeError: bool)
    returns (r: Response<Venue>)
    requires db.Valid()
    modifies db`venues
    ensures db.Valid()
    ensures !ResolveSession(db.admins, cookie).Authenticated? ==> r == SessionFailure(ResolveSession(db.admins, cookie))
    ensures ResolveSession(db.admins, cookie).Authenticated? && body.Some? && !(Truthy(body.value.name) && Truthy(body.value.address)) ==>
      r == Failure(400, "Venue name and address are required")
    ensures ResolveSession(db.admins, cookie).Authenticated? && body.None? ==> r == Failure(500, InternalError)
    ensures ResolveSession(db.admins, cookie).Authenticated? && body.Some? && Truthy(body.value.name) && Truthy(body.value.address) && r.Failure? ==>
      r == Failure(500, "Failed to create venue")
    ensures r.Success? <==>
      && ResolveSession(db.admins, cookie).Authenticated? && body.Some? && Truthy(body.value.name) && Truthy(body.value.address)
      && !storeError && !HasKey(old(db.venues), VenuePk, newId)
    ensures r.Success? ==> r.status == 201 && r.data == Venue(
      newId, body.value.name.value, body.value.address.value, body.value.description, body.value.bgImageUrl, body.value.city)
    ensures db.venues == if r.Success? then old(db.venues) + [r.data] else old(db.venues)
  {
    var s := ResolveSession(db.admins, cookie);
    if !s.Authenticated? {
      return SessionFailure(s);
    }
    if body.None? {
      return Failure(500, InternalError);
    }
    var b := body.value;
    if !(Truthy(b.name) && Truthy(b.address)) {
      return Failure(400, "Venue name and address are required");
    }
    var created := Venues.CreateVenue(db, b.name.value, b.address.value, b.description, b.bgImageUrl, b.city, newId, storeError);
    if created.None? {
      return Failure(500, "Failed to create venue");
    }
    r := Success(201, created.value);
  }
}
