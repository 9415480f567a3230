/**
 * The helper endpoint that turns a public event id into its login code
 * (app/api/app/events/get-login-code/route.ts). The event is looked up by its
 * public id only and is not gated: a disabled or inactive event is answered
 * too, with its flags.
 */
module AppLoginCodeRoute {
  import opened Wrappers
  import opened Types
  import opened Seqs
  import opened Http
  import AppEvents

  datatype LoginCodeBody = LoginCodeBody(eventId: Option<string>)

  datatype LoginCodeData = LoginCodeData(eventId: string, loginCode: string, name: string, isEnabled: bool, status: EventStatus)

  const MissingEventMessage := "event_id is required"
  const UnknownEventMessage := "Event not found"

  /** POST. `body` is None when the body is not JSON. */
  function Post(events: seq<Event>, body: Option<LoginCodeBody>): (r: Response<LoginCodeData>)
    ensures body.None? ==> r == Failure(500, InternalError)
    ensures body.Some? && !Truthy(body.value.eventId) ==> r == Failure(400, MissingEventMessage)
    ensures body.Some? && Truthy(body.value.eventId) ==>
      (r.Success? <==> exists e :: e in events && e.eventId == body.value.eventId.value)
    ensures r.Failure? && body.Some? && Truthy(body.value.eventId) ==> r == Failure(404, UnknownEventMessage)
    ensures r.Success? ==>
      && r.status == 200
      && exists e :: e in events && e.eventId == body.value.eventId.value
                  && r.data == LoginCodeData(e.eventId, e.loginCode, e.name, e.isEnabled, e.status)
  {
    if body.None? then Failure(500, InternalError)
    else if !Truthy(body.value.eventId) then Failure(400, MissingEventMessage)
    else
      match AppEvents.FindByPublicId(events, body.value.eventId.value)
      case None => Failure(404, UnknownEventMessage)
      case Some(e) => Success(200, LoginCodeData(e.eventId, e.loginCode, e.name, e.isEnabled, e.status))
  }

  function LoginCodeOf(e: Event): string { e.loginCode }

  /**
   * When login codes are unique, the code handed out leads sign-in back to the
   * same event: resolving it by login code finds the event looked up here.
   */
  lemma {:induction false} LoginCodeLeadsBack(events: seq<Event>, eventId: string)
    requires Unique(events, LoginCodeOf)
    requires Post(events, Some(LoginCodeBody(Some(eventId)))).Success?
    ensures
      var code := Post(events, Some(LoginCodeBody(Some(eventId)))).data.loginCode;
      AppEvents.ResolveByCode(events, code) == AppEvents.FindByPublicId(events, eventId)
  {
    var e := AppEvents.FindByPublicId(events, eventId).value;
    var found := AppEvents.ResolveByCode(events, e.loginCode);
    assert found.Some? && found.value.loginCode == e.loginCode;
    var i :| 0 <= i < |events| && events[i] == e;
    var j :| 0 <= j < |events| && events[j] == found.value;
    assert LoginCodeOf(events[i]) == LoginCodeOf(events[j]);
  }
}
