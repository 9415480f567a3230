/**
 * Event lookup and gating shared by the mobile endpoints: an event is found by
 * one key with a fallback to a second, and then checked in a fixed order
 * (missing, disabled, not active).
 */
module AppEvents {
  import opened Wrappers
  import opened Types
  import opened Seqs
  import opened Http
  import Events

  function LoginCodeIs(code: string): Event -> bool { (e: Event) => e.loginCode == code }
  function PublicIdIs(code: string): Event -> bool { (e: Event) => e.eventId == code }

  /** The event whose public `event_id` is `code`. */
  function FindByPublicId(events: seq<Event>, code: string): (r: Option<Event>)
    ensures r.Some? ==> r.value in events && r.value.eventId == code
    ensures r.None? <==> forall e :: e in events ==> e.eventId != code
  {
    FindFirst(events, PublicIdIs(code))
  }

  /** Login and verification: by `login_code` first, by `event_id` only when no login code matches. */
  function ResolveByCode(events: seq<Event>, code: string): (r: Option<Event>)
    ensures r.Some? ==> r.value in events && (r.value.loginCode == code || r.value.eventId == code)
    ensures r.None? <==> forall e :: e in events ==> e.loginCode != code && e.eventId != code
    ensures (exists e :: e in events && e.loginCode == code) ==> r.Some? && r.value.loginCode == code
  {
    Coalesce(FindFirst(events, LoginCodeIs(code)), FindByPublicId(events, code))
  }

  /** Info and venue details: by primary `id` first, by public `event_id` when no id matches. */
  function ResolveById(events: seq<Event>, id: string): (r: Option<Event>)
    ensures r.Some? ==> r.value in events && (r.value.id == id || r.value.eventId == id)
    ensures r.None? <==> forall e :: e in events ==> e.id != id && e.eventId != id
    ensures HasKey(events, EventPk, id) ==> r.Some? && r.value.id == id
  {
    Coalesce(Events.GetEventById(events, id), FindByPublicId(events, id))
  }

  /** The outcome of the checks an event must pass. */
  datatype Gate = Open(event: Event) | NotFound | Disabled | NotActive

  /**
   * Missing, then disabled, then (when `checkStatus`) not active; the info
   * endpoint checks only the first two.
   */
  function GateEvent(found: Option<Event>, checkStatus: bool): (g: Gate)
    ensures g.NotFound? <==> found.None?
    ensures g.Disabled? <==> found.Some? && !found.value.isEnabled
    ensures g.NotActive? <==> found.Some? && found.value.isEnabled && checkStatus && found.value.status != Active
    ensures g.Open? ==> found == Some(g.event) && g.event.isEnabled && (checkStatus ==> g.event.status == Active)
  {
    match found
    case None => NotFound
    case Some(e) =>
      if !e.isEnabled then Disabled
      else if checkStatus && e.status != Active then NotActive
      else Open(e)
  }

  /** The reply to a closed gate: 404 with the endpoint's own message for a missing event, 403 otherwise. */
  function GateFailure<T>(g: Gate, notFoundMessage: string): (r: Response<T>)
    requires !g.Open?
    ensures r.Failure? && (r.status == 404 <==> g.NotFound?) && (r.status == 403 <==> !g.NotFound?)
    ensures g.NotFound? ==> r.error == notFoundMessage
  {
    match g
    case NotFound => Failure(404, notFoundMessage)
    case Disabled => Failure(403, "Event is currently disabled")
    case NotActive => Failure(403, "Event is not active")
  }

  /** What sign-in and verification reply to an unknown event code. */
  const InvalidEventCodeMessage := "Invalid event code"

  /** An optional display column of an event: a missing key is a null column. */
  function Attr(e: Event, a: EventAttr): Option<string> {
    if a in e.attrs then Some(e.attrs[a]) else None
  }
}
