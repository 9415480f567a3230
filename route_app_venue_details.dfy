/**
 * The mobile venue endpoint (app/api/app/venue/details/route.ts). GET and POST
 * behave alike: the user and event ids are taken from the query, then from
 * the JSON body, then from headers; the user must exist, the event is
 * resolved by internal id and then by public id and gated, and the reply is
 * the event's venue with its facilities, contacts and photos.
 */
module AppVenueDetailsRoute {
  import opened Wrappers
  import opened Types
  import opened Seqs
  import opened Database
  import opened Http
  import Text
  import AppEvents
  import Venues

  /** One parameter under its two spellings, `user_id` and `userId` (or `event_id` and `eventId`). */
  datatype Names = Names(snake: Option<string>, camel: Option<string>)

  /** The snake_case spelling first; only an absent one falls through. */
  function Value(n: Names): Option<string> {
    Coalesce(n.snake, n.camel)
  }

  /** The two parameters as one source carries them. */
  datatype Params = Params(user: Names, event: Names)

  /** A JSON object body, with the parameters at its top level and, optionally, under `data`. */
  datatype JsonBody = JsonBody(top: Params, data: Option<Params>)

  /** A request: its query, its body (None when absent or not a JSON object) and its two headers. */
  datatype Request = Request(query: Params, body: Option<JsonBody>, userHeader: Option<string>, eventHeader: Option<string>)

  /** A parameter read from the body: `data` is searched first when present, then the top level. */
  function FromBody(data: Option<Names>, top: Names): (r: Option<string>)
    ensures data.Some? && Value(data.value).Some? ==> r == Value(data.value)
    ensures data.None? || Value(data.value).None? ==> r == Value(top)
  {
    var searched := if data.Some? then data.value else top;
    Coalesce(Value(searched), Value(top))
  }

  function BodyUser(b: JsonBody): Option<string> {
    FromBody(if b.data.Some? then Some(b.data.value.user) else None, b.top.user)
  }

  function BodyEvent(b: JsonBody): Option<string> {
    FromBody(if b.data.Some? then Some(b.data.value.event) else None, b.top.event)
  }

  /** The body is read only when the query leaves one of the two parameters missing or empty. */
  predicate ReadsBody(req: Request) {
    req.body.Some? && !(Truthy(Value(req.query.user)) && Truthy(Value(req.query.event)))
  }

  /** The user id the request carries: a query value, even an empty one, beats the body, which beats the header. */
  function RequestUser(req: Request): (r: Option<string>)
    ensures Value(req.query.user).Some? ==> r == Value(req.query.user)
    ensures Value(req.query.user).None? && ReadsBody(req) && BodyUser(req.body.value).Some? ==> r == BodyUser(req.body.value)
    ensures Value(req.query.user).None? && !(ReadsBody(req) && BodyUser(req.body.value).Some?) ==> r == req.userHeader
  {
    var fromBody := if ReadsBody(req) then BodyUser(req.body.value) else None;
    Coalesce(Coalesce(Value(req.query.user), fromBody), req.userHeader)
  }

  /** The event id the request carries, by the same precedence. */
  function RequestEvent(req: Request): (r: Option<string>)
    ensures Value(req.query.event).Some? ==> r == Value(req.query.event)
    ensures Value(req.query.event).None? && ReadsBody(req) && BodyEvent(req.body.value).Some? ==> r == BodyEvent(req.body.value)
    ensures Value(req.query.event).None? && !(ReadsBody(req) && BodyEvent(req.body.value).Some?) ==> r == req.eventHeader
  {
    var fromBody := if ReadsBody(req) then BodyEvent(req.body.value) else None;
    Coalesce(Coalesce(Value(req.query.event), fromBody), req.eventHeader)
  }

  /** The parameters, step by step as the request is inspected: query, then body, then headers. */
  method GetParams(req: Request) returns (userId: Option<string>, eventId: Option<string>)
    ensures userId == RequestUser(req) && eventId == RequestEvent(req)
  {
    userId := Coalesce(req.query.user.snake, req.query.user.camel);
    eventId := Coalesce(req.query.event.snake, req.query.event.camel);
    if !Truthy(userId) || !Truthy(eventId) {
      if req.body.Some? {
        var body := req.body.value;
        var data := if body.data.Some? then body.data.value else body.top;
        var u := Coalesce(Coalesce(data.user.snake, data.user.camel), Coalesce(body.top.user.snake, body.top.user.camel));
        var e := Coalesce(Coalesce(data.event.snake, data.event.camel), Coalesce(body.top.event.snake, body.top.event.camel));
        userId := Coalesce(userId, u);
        eventId := Coalesce(eventId, e);
      }
    }
    userId := Coalesce(userId, req.userHeader);
    eventId := Coalesce(eventId, req.eventHeader);
  }

  /** An empty query value is not absent: it hides the body and the header, and the request is refused. */
  lemma EmptyQueryValueHidesFallbacks(req: Request)
    requires req.query.user.snake == Some("")
    ensures RequestUser(req) == Some("") && !Truthy(RequestUser(req))
  {
  }

  datatype FacilityOut = FacilityOut(facilityName: Option<string>, facilityImage: Option<string>)
  datatype ContactOut = ContactOut(spocName: Option<string>, imageUrl: Option<string>, contactNo: Option<string>, spocEmail: Option<string>)
  datatype PhotoOut = PhotoOut(imageUrl: Option<string>, imageId: Option<string>)

  datatype VenueDetails = VenueDetails(
    venueName: Option<string>, venueAddress: Option<string>, venueDescription: Option<string>,
    venueImageUrl: Option<string>, venueCity: Option<string>,
    facilities: seq<FacilityOut>, spocDetail: seq<ContactOut>, venuePhotos: seq<PhotoOut>)

  function FacilityOf(f: VenueFacility): FacilityOut {
    FacilityOut(OrNull(Some(f.name)), OrNull(f.imageUrl))
  }

  function ContactOf(c: VenueContact): ContactOut {
    ContactOut(OrNull(Some(c.name)), OrNull(c.imageUrl), OrNull(c.phoneNumber), OrNull(c.email))
  }

  function PhotoOf(p: VenuePhoto): PhotoOut {
    PhotoOut(OrNull(Some(p.imageUrl)), OrNull(Some(p.id)))
  }

  /** The reply's payload: every text column with "" shown as null, and each child list mapped entry by entry in its order. */
  function Project(d: Venues.VenueWithDetails): (r: VenueDetails)
    ensures |r.facilities| == |d.facilities| && |r.spocDetail| == |d.contacts| && |r.venuePhotos| == |d.photos|
    ensures forall i :: 0 <= i < |d.facilities| ==> r.facilities[i] == FacilityOf(d.facilities[i])
    ensures forall i :: 0 <= i < |d.contacts| ==> r.spocDetail[i] == ContactOf(d.contacts[i])
    ensures forall i :: 0 <= i < |d.photos| ==> r.venuePhotos[i] == PhotoOf(d.photos[i])
  {
    VenueDetails(
      OrNull(Some(d.venue.name)), OrNull(Some(d.venue.address)), OrNull(d.venue.description),
      OrNull(d.venue.bgImageUrl), OrNull(d.venue.city),
      seq(|d.facilities|, i requires 0 <= i < |d.facilities| => FacilityOf(d.facilities[i])),
      seq(|d.contacts|, i requires 0 <= i < |d.contacts| => ContactOf(d.contacts[i])),
      seq(|d.photos|, i requires 0 <= i < |d.photos| => PhotoOf(d.photos[i])))
  }

  const InvalidUserMessage := "Invalid user_id format"
  const UnknownUserMessage := "User not found"
  const UnknownEventMessage := "Event not found"
  const NoVenueMessage := "Event does not have a venue assigned"
  const UnknownVenueMessage := "Venue not found"
  const MissingParamsMessage :=
    "Missing required parameters: user_id and event_id are required (query, body, or headers X-User-Id, X-Event-Id)"

  /** The venue an open event links to, if it names one. */
  function LinkedVenue(e: Event): Option<string> {
    OrNull(AppEvents.Attr(e, VenueId))
  }

  /**
   * The details for a user and an event id. `failed` names the child queries
   * that fail; each of those lists is then empty.
   */
  function FetchVenueDetails(
    users: seq<AppUser>, events: seq<Event>, venues: seq<Venue>, facilities: seq<VenueFacility>,
    contacts: seq<VenueContact>, photos: seq<VenuePhoto>, userId: string, eventId: string,
    failed: set<Venues.VenueChild>)
    : (r: Response<VenueDetails>)
    ensures !Text.IsUuid(userId) ==> r == Failure(400, InvalidUserMessage)
    ensures Text.IsUuid(userId) && !HasKey(users, UserPk, userId) ==> r == Failure(404, UnknownUserMessage)
    ensures Text.IsUuid(userId) && HasKey(users, UserPk, userId) ==>
      var gate := AppEvents.GateEvent(AppEvents.ResolveById(events, eventId), true);
      && (!gate.Open? ==> r == AppEvents.GateFailure(gate, UnknownEventMessage))
      && (gate.Open? && LinkedVenue(gate.event).None? ==> r == Failure(404, NoVenueMessage))
      && (gate.Open? && LinkedVenue(gate.event).Some? && !HasKey(venues, VenuePk, LinkedVenue(gate.event).value) ==>
            r == Failure(404, UnknownVenueMessage))
    ensures
      var gate := AppEvents.GateEvent(AppEvents.ResolveById(events, eventId), true);
      r.Success? <==>
        && Text.IsUuid(userId) && HasKey(users, UserPk, userId) && gate.Open?
        && LinkedVenue(gate.event).Some? && HasKey(venues, VenuePk, LinkedVenue(gate.event).value)
    ensures r.Success? ==>
      && Text.IsUuid(userId) && HasKey(users, UserPk, userId)
      && var gate := AppEvents.GateEvent(AppEvents.ResolveById(events, eventId), true);
      && gate.Open? && gate.event.isEnabled && gate.event.status == Active
      && LinkedVenue(gate.event).Some?
      && var details := Venues.GetVenueWithDetails(venues, facilities, contacts, photos, LinkedVenue(gate.event).value, failed);
      && details.Some?
      && r == Success(200, Project(details.value))
  {
    if !Text.IsUuid(userId) then Failure(400, InvalidUserMessage)
    else if !HasKey(users, UserPk, userId) then Failure(404, UnknownUserMessage)
    else
      var gate := AppEvents.GateEvent(AppEvents.ResolveById(events, eventId), true);
      if !gate.Open? then AppEvents.GateFailure(gate, UnknownEventMessage)
      else if LinkedVenue(gate.event).None? then Failure(404, NoVenueMessage)
      else
        match Venues.GetVenueWithDetails(venues, facilities, contacts, photos, LinkedVenue(gate.event).value, failed)
        case None => Failure(404, UnknownVenueMessage)
        case Some(details) => Success(200, Project(details))
  }

  /** GET and POST: the parameters, a 400 when either is missing or empty, then the details. */
  method Handle(db: Db, req: Request, failed: set<Venues.VenueChild>) returns (r: Response<VenueDetails>)
    ensures !(Truthy(RequestUser(req)) && Truthy(RequestEvent(req))) ==> r == Failure(400, MissingParamsMessage)
    ensures Truthy(RequestUser(req)) && Truthy(RequestEvent(req)) ==>
      r == FetchVenueDetails(
        db.users, db.events, db.venues, db.facilities, db.contacts, db.photos,
        RequestUser(req).value, RequestEvent(req).value, failed)
  {
    var userId, eventId := GetParams(req);
    if !Truthy(userId) || !Truthy(eventId) {
      return Failure(400, MissingParamsMessage);
    }
    r := FetchVenueDetails(db.users, db.events, db.venues, db.facilities, db.contacts, db.photos, userId.value, eventId.value, failed);
  }
}
