/**
 * The admin events endpoint (app/api/events/route.ts). GET lists the events
 * the caller may see; POST, for super admins only, creates an event, writes
 * the optional styling and content columns that were given, and assigns the
 * listed admins to it.
 */
module EventsRoute {
  import opened Wrappers
  import opened Types
  import opened Seqs
  import opened Database
  import opened Http
  import Events

  /** GET: the caller's visible events, as the visibility rule of the events library decides. */
  function Get(admins: seq<AdminRow>, adminEvents: seq<AdminEvent>, events: seq<Event>, cookie: Option<string>, storeError: bool)
    : (r: Response<seq<Event>>)
    ensures r.Failure? <==> !ResolveSession(admins, cookie).Authenticated?
    ensures r.Failure? ==> r == SessionFailure(ResolveSession(admins, cookie))
    ensures r.Success? ==> r.status == 200
    ensures r.Success? && storeError ==> r.data == []
    ensures r.Success? && !storeError && IsSuperAdmin(ResolveSession(admins, cookie)) ==> multiset(r.data) == multiset(events)
    ensures r.Success? && !storeError && !IsSuperAdmin(ResolveSession(admins, cookie)) ==>
      forall e :: e in r.data <==> e in events && e.isEnabled && AdminEvent(cookie.value, e.id) in adminEvents
  {
    var s := ResolveSession(admins, cookie);
    if !s.Authenticated? then SessionFailure(s)
    else
      var visible := Events.GetEventsByAdminId(adminEvents, events, cookie.value, s.admin.role == SuperAdmin, storeError);
      assert forall e :: e in visible <==> multiset(visible)[e] > 0;
      assert forall e :: e in events <==> multiset(events)[e] > 0;
      Success(200, visible)
  }

  /** The JSON body of POST; `attrs` holds the optional styling and content fields that were sent. */
  datatype CreateEventBody = CreateEventBody(
    name: Option<string>, description: Option<string>, startDate: Option<string>, endDate: Option<string>,
    loginCode: Option<string>, assignedAdmins: Option<seq<string>>, attrs: map<EventAttr, string>)

  /** Every optional event column the body may carry, in the order the handler tests them. */
  const AllAttrs: seq<EventAttr> := [
    CategoryId, VenueId, SplashImageUrl, PrimaryColor, SecondaryColor,
    BackgroundBannerImageUrl, BannerTextColor, WelcomeText,
    DuringBackgroundBannerImageUrl, DuringBannerTextColor, DuringWelcomeText,
    PostBackgroundBannerImageUrl, PostBannerTextColor, PostWelcomeText]

  lemma AllAttrsComplete(k: EventAttr)
    ensures k in AllAttrs
  {
  }

  /** The update object: exactly the given fields whose value is truthy (non-empty). */
  function TruthyUpdates(fields: map<EventAttr, string>): (updates: map<EventAttr, string>)
    ensures forall k :: k in updates <==> k in fields && fields[k] != ""
    ensures forall k :: k in updates ==> updates[k] == fields[k]
  {
    map k | k in fields && fields[k] != "" :: fields[k]
  }

  /** Builds the update object field by field, keeping only the truthy values. */
  method BuildUpdates(fields: map<EventAttr, string>) returns (updates: map<EventAttr, string>)
    ensures updates == TruthyUpdates(fields)
  {
    updates := map[];
    var i := 0;
    while i < |AllAttrs|
      invariant 0 <= i <= |AllAttrs|
      invariant forall k :: k in updates <==> k in AllAttrs[..i] && k in fields && fields[k] != ""
      invariant forall k :: k in updates ==> updates[k] == fields[k]
    {
      var k := AllAttrs[i];
      if k in fields && fields[k] != "" {
        updates := updates[k := fields[k]];
      }
      assert AllAttrs[..i + 1] == AllAttrs[..i] + [k];
      i := i + 1;
    }
    forall k | true ensures k in AllAttrs[..i] {
      AllAttrsComplete(k);
      assert AllAttrs[..i] == AllAttrs;
    }
  }

  /** The assignment rows the loop inserts: one per listed id, except where the insert failed. */
  function NewAssignments(ids: seq<string>, eventId: string, failed: set<int>): (r: seq<AdminEvent>)
    ensures forall j :: 0 <= j < |ids| && j !in failed ==> AdminEvent(ids[j], eventId) in r
    ensures forall a :: a in r ==> a.eventId == eventId && a.adminId in ids
    ensures failed == {} ==> |r| == |ids|
    decreases |ids|
  {
    if |ids| == 0 then []
    else
      var last := |ids| - 1;
      var prefix := NewAssignments(ids[..last], eventId, failed);
      assert forall j :: 0 <= j < last ==> ids[..last][j] == ids[j];
      prefix + (if last in failed then [] else [AdminEvent(ids[last], eventId)])
  }

  /** The positions below `n` whose insert did not fail, in ascending order. */
  function KeptIndices(n: nat, failed: set<int>): (k: seq<nat>)
    ensures forall i :: 0 <= i < |k| ==> k[i] < n && k[i] !in failed
    ensures forall i, j :: 0 <= i < j < |k| ==> k[i] < k[j]
    ensures forall j :: 0 <= j < n && j !in failed ==> j in k
  {
    if n == 0 then [] else KeptIndices(n - 1, failed) + (if n - 1 in failed then [] else [n - 1])
  }

  /** The loop's rows are, in order, one per position whose insert did not fail. */
  lemma {:induction false} NewAssignmentsOnlyKept(ids: seq<string>, eventId: string, failed: set<int>)
    ensures
      var r := NewAssignments(ids, eventId, failed);
      var k := KeptIndices(|ids|, failed);
      |r| == |k| && forall i :: 0 <= i < |r| ==> r[i] == AdminEvent(ids[k[i]], eventId)
    decreases |ids|
  {
    if |ids| > 0 {
      var last := |ids| - 1;
      NewAssignmentsOnlyKept(ids[..last], eventId, failed);
      var prefix := NewAssignments(ids[..last], eventId, failed);
      var kp := KeptIndices(last, failed);
      var r := NewAssignments(ids, eventId, failed);
      var k := KeptIndices(|ids|, failed);
      assert r == prefix + (if last in failed then [] else [AdminEvent(ids[last], eventId)]);
      assert k == kp + (if last in failed then [] else [last]);
      forall i | 0 <= i < |r| ensures r[i] == AdminEvent(ids[k[i]], eventId) {
        if i < |prefix| {
          assert r[i] == prefix[i] && k[i] == kp[i];
          assert ids[..last][kp[i]] == ids[kp[i]];
        } else {
          assert last !in failed && i == |prefix| == |kp|;
          assert r[i] == AdminEvent(ids[last], eventId) && k[i] == last;
        }
      }
    }
  }

  lemma NewAssignmentsStep(ids: seq<string>, i: nat, eventId: string, failed: set<int>)
    requires i < |ids|
    ensures NewAssignments(ids[..i + 1], eventId, failed)
         == NewAssignments(ids[..i], eventId, failed) + (if i in failed then [] else [AdminEvent(ids[i], eventId)])
  {
    assert ids[..i + 1][..i] == ids[..i];
  }

  /** Assigns every listed admin to the event in turn; a failed insert is skipped, not reported. */
  method AssignAll(db: Db, ids: seq<string>, eventId: string, failed: set<int>)
    modifies db`adminEvents
    ensures db.adminEvents == old(db.adminEvents) + NewAssignments(ids, eventId, failed)
  {
    var i := 0;
    while i < |ids|
      invariant 0 <= i <= |ids|
      invariant db.adminEvents == old(db.adminEvents) + NewAssignments(ids[..i], eventId, failed)
    {
      ghost var prefix := NewAssignments(ids[..i], eventId, failed);
      ghost var step := if i in failed then [] else [AdminEvent(ids[i], eventId)];
      var _ := Events.AssignAdminToEvent(db, ids[i], eventId, i in failed);
      assert db.adminEvents == old(db.adminEvents) + prefix + step;
      NewAssignmentsStep(ids, i, eventId, failed);
      assert old(db.adminEvents) + prefix + step == old(db.adminEvents) + (prefix + step);
      i := i + 1;
    }
    assert ids[..i] == ids;
  }

  /** The stored row after the optional columns were written, if the update ran and succeeded. */
  function Populated(e: Event, fields: map<EventAttr, string>, updateError: bool): (r: Event)
    ensures r.(attrs := e.attrs) == e
    ensures updateError ==> r == e
    ensures !updateError ==> forall k :: k in fields && fields[k] != "" ==> k in r.attrs && r.attrs[k] == fields[k]
    ensures forall k :: k in e.attrs && (k !in fields || fields[k] == "") ==> k in r.attrs && r.attrs[k] == e.attrs[k]
    ensures forall k :: k in r.attrs ==> k in e.attrs || (k in fields && fields[k] != "")
  {
    var updates := TruthyUpdates(fields);
    if |updates| > 0 && !updateError then Events.WithAttrs(e, updates) else e
  }

  /** Writes the truthy optional columns to the row just appended. */
  method Populate(db: Db, e: Event, fields: map<EventAttr, string>, updateError: bool)
    requires db.Valid() && |db.events| > 0 && db.events[|db.events| - 1] == e
    requires !HasKey(db.events[..|db.events| - 1], EventPk, e.id)
    modifies db`events
    ensures db.Valid()
    ensures db.events == old(db.events[..|db.events| - 1]) + [Populated(e, fields, updateError)]
  {
    ghost var before := db.events[..|db.events| - 1];
    assert db.events == before + [e];
    var updates := BuildUpdates(fields);
    if |updates| > 0 {
      var _ := Events.UpdateEvent(db, e.id, updates, updateError);
      if !updateError {
        UpdateAppended(before, e, updates);
      }
    }
  }

  /** The steps after validation: create, write the truthy optional columns, assign the listed admins. */
  method CreateFromBody(
    db: Db, b: CreateEventBody, adminId: string, now: nat, idRand: string, codeRand: string, newId: string,
    createError: bool, updateError: bool, assignFailed: set<int>)
    returns (r: Response<Event>)
    requires db.Valid() && Truthy(b.name)
    modifies db`events, db`adminEvents
    ensures db.Valid()
    ensures r.Success? <==> !createError && !HasKey(old(db.events), EventPk, newId)
    ensures r.Failure? ==> r == Failure(500, "Failed to create event") && unchanged(db`adminEvents) && db.events == old(db.events)
    ensures r.Success? ==> r.status == 201 && r.data == Events.NewEvent(
      newId, Events.GenerateEventId(now, idRand), b.name.value, Or(b.description, ""),
      Events.ChooseLoginCode(b.loginCode, codeRand), adminId, b.startDate, b.endDate, now)
    ensures r.Success? ==> db.events == old(db.events) + [Populated(r.data, b.attrs, updateError)]
    ensures r.Success? ==>
      db.adminEvents == old(db.adminEvents) + NewAssignments(b.assignedAdmins.GetOr([]), newId, assignFailed)
  {
    var created := Events.CreateEvent(
      db, b.name.value, Or(b.description, ""), adminId, b.startDate, b.endDate, b.loginCode,
      now, idRand, codeRand, newId, createError);
    if created.None? {
      return Failure(500, "Failed to create event");
    }
    var event := created.value;
    Populate(db, event, b.attrs, updateError);
    if b.assignedAdmins.Some? {
      AssignAll(db, b.assignedAdmins.value, event.id, assignFailed);
    }
    r := Success(201, event);
  }

  /**
   * POST. `now`, `idRand` and `codeRand` feed the generated identifiers,
   * `newId` is the key the database assigns, and `createError`,
   * `updateError` and `assignFailed` say which store calls fail. A body
   * that is not JSON is `None`. The reply carries the row as first
   * inserted, before the optional columns were written.
   */
  method Post(
    db: Db, cookie: Option<string>, body: Option<CreateEventBody>,
    now: nat, idRand: string, codeRand: string, newId: string,
    createError: bool, updateError: bool, assignFailed: set<int>)
    returns (r: Response<Event>)
    requires db.Valid()
    modifies db`events, db`adminEvents
    ensures db.Valid()
    ensures !ResolveSession(db.admins, cookie).Authenticated? ==> r == SessionFailure(ResolveSession(db.admins, cookie))
    ensures ResolveSession(db.admins, cookie).Authenticated? && !IsSuperAdmin(ResolveSession(db.admins, cookie)) ==>
      r == Failure(403, "Only super admins can create events")
    ensures IsSuperAdmin(ResolveSession(db.admins, cookie)) && body.None? ==> r == Failure(500, InternalError)
    ensures IsSuperAdmin(ResolveSession(db.admins, cookie)) && body.Some? && !Truthy(body.value.name) ==>
      r == Failure(400, "Event name is required")
    ensures IsSuperAdmin(ResolveSession(db.admins, cookie)) && body.Some? && Truthy(body.value.name) && r.Failure? ==>
      r == Failure(500, "Failed to create event")
    ensures r.Failure? ==> unchanged(db`adminEvents) && db.events == old(db.events)
    ensures r.Success? <==>
      IsSuperAdmin(ResolveSession(db.admins, cookie)) && body.Some? && Truthy(body.value.name)
      && !createError && !HasKey(old(db.events), EventPk, newId)
    ensures r.Success? ==> r.status == 201 && r.data == Events.NewEvent(
      newId, Events.GenerateEventId(now, idRand), body.value.name.value, Or(body.value.description, ""),
      Events.ChooseLoginCode(body.value.loginCode, codeRand), cookie.value,
      body.value.startDate, body.value.endDate, now)
    ensures r.Success? ==> db.events == old(db.events) + [Populated(r.data, body.value.attrs, updateError)]
    ensures r.Success? ==>
      db.adminEvents == old(db.adminEvents) + NewAssignments(body.value.assignedAdmins.GetOr([]), newId, assignFailed)
  {
    var s := ResolveSession(db.admins, cookie);
    if !s.Authenticated? {
      return SessionFailure(s);
    }
    if s.admin.role != SuperAdmin {
      return Failure(403, "Only super admins can create events");
    }
    if body.None? {
      return Failure(500, InternalError);
    }
    if !Truthy(body.value.name) {
      return Failure(400, "Event name is required");
    }
    r := CreateFromBody(db, body.value, cookie.value, now, idRand, codeRand, newId, createError, updateError, assignFailed);
  }

  /** Updating the row just appended changes only that row. */
  lemma UpdateAppended(events: seq<Event>, e: Event, updates: map<EventAttr, string>)
    requires !HasKey(events, EventPk, e.id)
    ensures Events.EventsAfterUpdate(events + [e], e.id, updates) == events + [Events.WithAttrs(e, updates)]
  {
    var after := Events.EventsAfterUpdate(events + [e], e.id, updates);
    forall i | 0 <= i < |events| ensures after[i] == events[i] {
      assert events[i] in events;
    }
  }
}
