/**
 * Events (lib/events.ts): identifier and login-code generation, creation, the
 * listings and their visibility rule, admin assignment, the full read with
 * assigned admins and content, and updates of the optional columns.
 */
module Events {
  import opened Wrappers
  import opened Types
  import opened Seqs
  import opened Database
  import Text
  import Auth
  import EventContent

  /**
   * The part of a random fraction's base-36 rendering that the generators use:
   * characters 2 to end, i.e. the digits after "0.", upper-cased.
   */
  function RandomSuffix(rand: string, end: nat): (r: string)
    requires 2 <= end
    ensures |r| <= end - 2
    ensures end <= |rand| ==> |r| == end - 2
    ensures forall i :: 0 <= i < |r| ==> 2 + i < |rand| && r[i] == Text.UpperChar(rand[2 + i])
  {
    Text.ToUpper(Text.Substring(rand, 2, end))
  }

  /** `EVT-<now>-<up to 7 upper-cased base-36 digits>`, `now` in milliseconds. */
  function GenerateEventId(now: nat, rand: string): (id: string)
    ensures |id| > 4 && id[..4] == "EVT-"
  {
    "EVT-" + Text.NatToString(now) + "-" + RandomSuffix(rand, 9)
  }

  /** The event id splits on '-' into the prefix, the clock reading and the random part. */
  lemma EventIdParts(now: nat, rand: string)
    requires '-' !in rand
    ensures Text.Split(GenerateEventId(now, rand), '-') == ["EVT", Text.NatToString(now), RandomSuffix(rand, 9)]
  {
    var n := Text.NatToString(now);
    var suffix := RandomSuffix(rand, 9);
    var parts := ["EVT", n, suffix];
    assert Text.Join(parts, '-') == GenerateEventId(now, rand) by {
      assert parts[1..] == [n, suffix] && [n, suffix][1..] == [suffix];
      assert Text.Join([n, suffix], '-') == n + ['-'] + suffix;
      assert "EVT-" == "EVT" + ['-'];
    }
    assert '-' !in n by {
      assert forall i :: 0 <= i < |n| ==> Text.IsDigit(n[i]);
    }
    assert '-' !in suffix by {
      forall i | 0 <= i < |suffix| ensures suffix[i] != '-' {
        assert rand[2 + i] in rand;
      }
    }
    Text.SplitJoin(parts, '-');
  }

  /** Up to 8 upper-cased base-36 digits; exactly 8 when the rendering has at least 8 digits. */
  function GenerateLoginCode(rand: string): (code: string)
    ensures |code| <= 8
    ensures |rand| >= 10 ==> |code| == 8
    ensures forall i :: 0 <= i < |code| ==> !('a' <= code[i] <= 'z')
  {
    RandomSuffix(rand, 10)
  }

  /** `loginCode || generateLoginCode()`: a non-empty supplied code wins. */
  function ChooseLoginCode(loginCode: Option<string>, rand: string): (code: string)
    ensures Truthy(loginCode) ==> code == loginCode.value
    ensures !Truthy(loginCode) ==> code == GenerateLoginCode(rand)
  {
    Or(loginCode, GenerateLoginCode(rand))
  }

  /** The row createEvent inserts: active, enabled, created by the given admin, no optional columns. */
  function NewEvent(
    id: string, eventId: string, name: string, description: string, loginCode: string,
    createdBy: string, startDate: Option<string>, endDate: Option<string>, createdAt: int): (e: Event)
    ensures e.id == id && e.eventId == eventId && e.loginCode == loginCode && e.name == name
    ensures e.status == Active && e.isEnabled
    ensures e.createdBy == Some(createdBy) && e.description == Some(description) && e.createdAt == createdAt
    ensures e.startDate == startDate && e.endDate == endDate
    ensures e.attrs == map[]
  {
    Event(id, eventId, name, Some(description), loginCode, Some(createdBy), startDate, endDate, Active, true, createdAt, map[])
  }

  /**
   * Inserts a new event. `now` is the clock, `idRand` and `codeRand` the two random
   * renderings, `newId` the primary key the database assigns.
   */
  method CreateEvent(
    db: Db, name: string, description: string, createdBy: string, startDate: Option<string>, endDate: Option<string>,
    loginCode: Option<string>, now: nat, idRand: string, codeRand: string, newId: string, storeError: bool)
    returns (r: Option<Event>)
    requires db.Valid()
    modifies db`events
    ensures db.Valid()
    ensures r.Some? <==> !storeError && !HasKey(old(db.events), EventPk, newId)
    ensures r.Some? ==> r.value == NewEvent(
      newId, GenerateEventId(now, idRand), name, description, ChooseLoginCode(loginCode, codeRand),
      createdBy, startDate, endDate, now)
    ensures r.Some? ==> r.value.status == Active && r.value.isEnabled && r.value.createdBy == Some(createdBy)
    ensures db.events == if r.Some? then old(db.events) + [r.value] else old(db.events)
  {
    if storeError || HasKey(db.events, EventPk, newId) {
      return None;
    }
    var row := NewEvent(
      newId, GenerateEventId(now, idRand), name, description, ChooseLoginCode(loginCode, codeRand),
      createdBy, startDate, endDate, now);
    UniqueAppend(db.events, EventPk, row);
    db.events := db.events + [row];
    r := Some(row);
  }

  /** Ordered newest first by creation time. */
  predicate NewestFirst(s: seq<Event>) {
    forall i :: 0 < i < |s| ==> s[i - 1].createdAt >= s[i].createdAt
  }

  function NegCreatedAt(e: Event): int { -e.createdAt }

  /** Every event (only the enabled ones unless `includeDisabled`), newest first. */
  function GetAllEvents(events: seq<Event>, storeError: bool, includeDisabled: bool := false): (r: seq<Event>)
    ensures storeError ==> r == []
    ensures !storeError ==> forall e :: multiset(r)[e] == if includeDisabled || e.isEnabled then multiset(events)[e] else 0
    ensures NewestFirst(r)
  {
    if storeError then [] else SelectSorted(events, (e: Event) => includeDisabled || e.isEnabled, NegCreatedAt)
  }

  /** The events an admin is assigned to. */
  function AssignedEventIds(adminEvents: seq<AdminEvent>, adminId: string): (ids: set<string>)
    ensures forall e :: e in ids <==> AdminEvent(adminId, e) in adminEvents
  {
    set a | a in adminEvents && a.adminId == adminId :: a.eventId
  }

  /**
   * The events an admin sees: a super admin sees every event, disabled ones
   * included; an event admin sees exactly the enabled events assigned to them.
   */
  function GetEventsByAdminId(
    adminEvents: seq<AdminEvent>, events: seq<Event>, adminId: string, isSuperAdmin: bool, storeError: bool)
    : (r: seq<Event>)
    ensures storeError ==> r == []
    ensures isSuperAdmin && !storeError ==> multiset(r) == multiset(events)
    ensures !isSuperAdmin && !storeError ==>
      forall e :: multiset(r)[e] == if e.isEnabled && AdminEvent(adminId, e.id) in adminEvents then multiset(events)[e] else 0
    ensures NewestFirst(r)
  {
    if isSuperAdmin then GetAllEvents(events, storeError, true)
    else if storeError then []
    else
      var ids := AssignedEventIds(adminEvents, adminId);
      if |ids| == 0 then []
      else SelectSorted(events, (e: Event) => e.id in ids && e.isEnabled, NegCreatedAt)
  }

  /** An event admin with no assignments sees nothing. */
  lemma {:induction false} NoAssignmentsNoEvents(adminEvents: seq<AdminEvent>, events: seq<Event>, adminId: string, storeError: bool)
    requires forall a :: a in adminEvents ==> a.adminId != adminId
    ensures GetEventsByAdminId(adminEvents, events, adminId, false, storeError) == []
  {
    assert AssignedEventIds(adminEvents, adminId) == {};
  }

  /** Inserts one (admin, event) assignment. */
  method AssignAdminToEvent(db: Db, adminId: string, eventId: string, storeError: bool) returns (ok: bool)
    modifies db`adminEvents
    ensures ok == !storeError
    ensures db.adminEvents == if ok then old(db.adminEvents) + [AdminEvent(adminId, eventId)] else old(db.adminEvents)
  {
    if storeError {
      return false;
    }
    db.adminEvents := db.adminEvents + [AdminEvent(adminId, eventId)];
    ok := true;
  }

  /** Deletes the assignments that match both the admin and the event. */
  method RemoveAdminFromEvent(db: Db, adminId: string, eventId: string, storeError: bool) returns (ok: bool)
    modifies db`adminEvents
    ensures ok == !storeError
    ensures db.adminEvents == if ok then RemoveKey(old(db.adminEvents), AssignmentKey, (adminId, eventId)) else old(db.adminEvents)
  {
    if storeError {
      return false;
    }
    db.adminEvents := RemoveKey(db.adminEvents, AssignmentKey, (adminId, eventId));
    ok := true;
  }

  /** After an assignment, the enabled event is among the event admin's visible events. */
  lemma AssignMakesVisible(adminEvents: seq<AdminEvent>, events: seq<Event>, adminId: string, e: Event)
    requires e in events && e.isEnabled
    ensures e in GetEventsByAdminId(adminEvents + [AdminEvent(adminId, e.id)], events, adminId, false, false)
  {
    var r := GetEventsByAdminId(adminEvents + [AdminEvent(adminId, e.id)], events, adminId, false, false);
    assert multiset(r)[e] > 0;
  }

  /** After the assignment is removed, the event is no longer among the event admin's visible events. */
  lemma RemoveMakesInvisible(adminEvents: seq<AdminEvent>, events: seq<Event>, adminId: string, e: Event)
    ensures e !in GetEventsByAdminId(RemoveKey(adminEvents, AssignmentKey, (adminId, e.id)), events, adminId, false, false)
  {
    var r := GetEventsByAdminId(RemoveKey(adminEvents, AssignmentKey, (adminId, e.id)), events, adminId, false, false);
    assert AssignmentKey(AdminEvent(adminId, e.id)) == (adminId, e.id);
    assert multiset(r)[e] == 0;
  }

  /** The event with that primary key; an unknown id gives null. */
  function GetEventById(events: seq<Event>, id: string): (r: Option<Event>)
    ensures r.Some? <==> HasKey(events, EventPk, id)
    ensures r.Some? ==> r.value in events && r.value.id == id
  {
    FindByKey(events, EventPk, id)
  }

  /** The queries of the full event read that can fail on their own. */
  datatype Query = AssignmentsQuery | AdminsQuery | ExploreQuery | HappeningQuery | SessionsQuery | DaysQuery

  datatype EventContentLists = EventContentLists(
    explore: seq<PreEventExplore>, happening: seq<PreEventHappening>, sessions: seq<EventSession>, days: seq<EventDay>)

  /** An event with its assigned admins and, when they were fetched, its content collections. */
  datatype EventWithAssignedAdmins = EventWithAssignedAdmins(
    event: Event, assignedAdmins: seq<Admin>, content: Option<EventContentLists>)

  /** The admins assigned to an event. */
  function AssignedAdminIds(adminEvents: seq<AdminEvent>, eventId: string): (ids: set<string>)
    ensures forall a :: a in ids <==> AdminEvent(a, eventId) in adminEvents
  {
    set a | a in adminEvents && a.eventId == eventId :: a.adminId
  }

  /** `.in('id', ids)` on admins, without the hash, in table order. */
  function AdminsWithIds(admins: seq<AdminRow>, ids: set<string>): (r: seq<Admin>)
    ensures forall row :: row in admins && row.id in ids ==> Auth.WithoutHash(row) in r
    ensures forall a :: a in r ==> a.id in ids && exists row :: row in admins && Auth.WithoutHash(row) == a
    decreases |admins|
  {
    if |admins| == 0 then []
    else (if admins[0].id in ids then [Auth.WithoutHash(admins[0])] else []) + AdminsWithIds(admins[1..], ids)
  }

  function SessionOrder(x: EventSession): int { x.sortOrder }
  function DayOrder(x: EventDay): int { x.sortOrder }

  /** `.from('event_sessions').eq('event_id', id).order('sort_order')`, [] when it fails. */
  function EventSessions(sessions: seq<EventSession>, id: string, storeError: bool): (r: seq<EventSession>)
    ensures storeError ==> r == []
    ensures !storeError ==> forall x :: multiset(r)[x] == if x.eventId == id then multiset(sessions)[x] else 0
    ensures !storeError ==> forall x :: x in r <==> x in sessions && x.eventId == id
    ensures forall i :: 0 < i < |r| ==> r[i - 1].sortOrder <= r[i].sortOrder
  {
    if storeError then [] else SelectSorted(sessions, (x: EventSession) => x.eventId == id, SessionOrder)
  }

  /** `.from('event_days').eq('event_id', id).order('sort_order')`, [] when it fails. */
  function EventDays(days: seq<EventDay>, id: string, storeError: bool): (r: seq<EventDay>)
    ensures storeError ==> r == []
    ensures !storeError ==> forall x :: multiset(r)[x] == if x.eventId == id then multiset(days)[x] else 0
    ensures !storeError ==> forall x :: x in r <==> x in days && x.eventId == id
    ensures forall i :: 0 < i < |r| ==> r[i - 1].sortOrder <= r[i].sortOrder
  {
    if storeError then [] else SelectSorted(days, (x: EventDay) => x.eventId == id, DayOrder)
  }

  /** The content collections of the full read: each its own ordered query, [] when it failed. */
  function EventContentFor(db: Db, id: string, failed: set<Query>): (c: EventContentLists)
    reads db
    ensures ExploreQuery in failed ==> c.explore == []
    ensures HappeningQuery in failed ==> c.happening == []
    ensures SessionsQuery in failed ==> c.sessions == []
    ensures DaysQuery in failed ==> c.days == []
    ensures ExploreQuery !in failed ==> forall x :: x in c.explore <==> x in db.explores && x.eventId == id
    ensures HappeningQuery !in failed ==> forall x :: x in c.happening <==> x in db.happenings && x.eventId == id
    ensures SessionsQuery !in failed ==> forall x :: x in c.sessions <==> x in db.sessions && x.eventId == id
    ensures DaysQuery !in failed ==> forall x :: x in c.days <==> x in db.days && x.eventId == id
    ensures ExploreQuery !in failed ==>
      forall x :: multiset(c.explore)[x] == if x.eventId == id then multiset(db.explores)[x] else 0
    ensures HappeningQuery !in failed ==>
      forall x :: multiset(c.happening)[x] == if x.eventId == id then multiset(db.happenings)[x] else 0
    ensures SessionsQuery !in failed ==>
      forall x :: multiset(c.sessions)[x] == if x.eventId == id then multiset(db.sessions)[x] else 0
    ensures DaysQuery !in failed ==>
      forall x :: multiset(c.days)[x] == if x.eventId == id then multiset(db.days)[x] else 0
    ensures forall i :: 0 < i < |c.explore| ==> c.explore[i - 1].sortOrder <= c.explore[i].sortOrder
    ensures forall i :: 0 < i < |c.happening| ==> c.happening[i - 1].sortOrder <= c.happening[i].sortOrder
    ensures forall i :: 0 < i < |c.sessions| ==> c.sessions[i - 1].sortOrder <= c.sessions[i].sortOrder
    ensures forall i :: 0 < i < |c.days| ==> c.days[i - 1].sortOrder <= c.days[i].sortOrder
  {
    var explore := EventContent.GetPreEventExplore(db.explores, id, ExploreQuery in failed);
    var happening := EventContent.GetPreEventHappening(db.happenings, id, HappeningQuery in failed);
    assert forall x :: x in explore <==> multiset(explore)[x] > 0;
    assert forall x :: x in happening <==> multiset(happening)[x] > 0;
    EventContentLists(
      explore, happening,
      EventSessions(db.sessions, id, SessionsQuery in failed), EventDays(db.days, id, DaysQuery in failed))
  }

  /**
   * The full read of one event. A missing event gives null. When the assignment
   * query fails, when nobody is assigned, or when the admins query fails, the
   * event comes back with no assigned admins and without content; otherwise with
   * exactly the assigned admins (without hashes) and its content collections.
   */
  function GetEventWithAssignedAdmins(db: Db, id: string, failed: set<Query>): (r: Option<EventWithAssignedAdmins>)
    reads db
    ensures r.None? <==> !HasKey(db.events, EventPk, id)
    ensures r.Some? ==> r.value.event in db.events && r.value.event.id == id
    ensures r.Some? ==> (r.value.content.None? <==>
      AssignmentsQuery in failed || AdminsQuery in failed || AssignedAdminIds(db.adminEvents, id) == {})
    ensures r.Some? && r.value.content.None? ==> r.value.assignedAdmins == []
    ensures r.Some? && r.value.content.Some? ==>
      && r.value.content.value == EventContentFor(db, id, failed)
      && (forall row :: row in db.admins && AdminEvent(row.id, id) in db.adminEvents ==> Auth.WithoutHash(row) in r.value.assignedAdmins)
      && (forall a :: a in r.value.assignedAdmins ==> AdminEvent(a.id, id) in db.adminEvents)
  {
    match GetEventById(db.events, id)
    case None => None
    case Some(event) =>
      var adminIds := AssignedAdminIds(db.adminEvents, id);
      if AssignmentsQuery in failed || adminIds == {} || AdminsQuery in failed then
        Some(EventWithAssignedAdmins(event, [], None))
      else
        Some(EventWithAssignedAdmins(event, AdminsWithIds(db.admins, adminIds), Some(EventContentFor(db, id, failed))))
  }

  /** `{ ...e, ...updates }` on the optional columns: only the given columns change. */
  function WithAttrs(e: Event, updates: map<EventAttr, string>): (r: Event)
    ensures r.(attrs := e.attrs) == e
    ensures r.attrs.Keys == e.attrs.Keys + updates.Keys
    ensures forall k :: k in updates ==> r.attrs[k] == updates[k]
    ensures forall k :: k in e.attrs && k !in updates ==> r.attrs[k] == e.attrs[k]
  {
    e.(attrs := e.attrs + updates)
  }

  /** The events table after `.update(updates).eq('id', id)`. */
  function EventsAfterUpdate(events: seq<Event>, id: string, updates: map<EventAttr, string>): (r: seq<Event>)
    ensures |r| == |events|
    ensures forall i :: 0 <= i < |r| ==> r[i] == if events[i].id == id then WithAttrs(events[i], updates) else events[i]
    ensures Unique(events, EventPk) ==> Unique(r, EventPk)
  {
    UpdateKey(events, EventPk, id, (e: Event) => WithAttrs(e, updates))
  }

  /** After an update, reading the event back gives it with the new columns. */
  lemma GetEventAfterUpdate(events: seq<Event>, e: Event, updates: map<EventAttr, string>)
    requires Unique(events, EventPk)
    requires e in events
    ensures GetEventById(EventsAfterUpdate(events, e.id, updates), e.id) == Some(WithAttrs(e, updates))
  {
    var r := EventsAfterUpdate(events, e.id, updates);
    var i :| 0 <= i < |events| && events[i] == e;
    assert r[i] == WithAttrs(e, updates);
    FindByKeyUnique(r, EventPk, r[i]);
  }

  /** Writes the given optional columns of the event with that id and returns the updated row. */
  method UpdateEvent(db: Db, id: string, updates: map<EventAttr, string>, storeError: bool) returns (r: Option<Event>)
    requires db.Valid()
    modifies db`events
    ensures db.Valid()
    ensures r.Some? <==> !storeError && HasKey(old(db.events), EventPk, id)
    ensures db.events == if storeError then old(db.events) else EventsAfterUpdate(old(db.events), id, updates)
    ensures r.Some? ==> GetEventById(db.events, id) == r
    ensures r.Some? ==> exists e :: e in old(db.events) && e.id == id && r.value == WithAttrs(e, updates)
  {
    if storeError {
      return None;
    }
    var found := GetEventById(db.events, id);
    if found.None? {
      db.events := EventsAfterUpdate(db.events, id, updates);
      return None;
    }
    GetEventAfterUpdate(db.events, found.value, updates);
    db.events := EventsAfterUpdate(db.events, id, updates);
    r := Some(WithAttrs(found.value, updates));
  }
}
