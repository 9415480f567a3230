/**
 * The mobile start-up endpoint (app/api/app/info/route.ts). GET checks the
 * optional user id, resolves the event by internal id and then by public id,
 * refuses a disabled event (but not an inactive one), refreshes or registers
 * the push device when the user, token and platform are all given, and replies
 * with the event's look and the app version. The device write's failures are
 * ignored.
 */
module AppInfoRoute {
  import opened Wrappers
  import opened Types
  import opened Seqs
  import opened Database
  import opened Http
  import Text
  import AppEvents
  import AppDevices

  /** The query parameters; an absent parameter is None. */
  datatype InfoQuery = InfoQuery(userId: Option<string>, platform: Option<string>, fcmToken: Option<string>, eventId: Option<string>)

  datatype InfoData = InfoData(
    theme: string, primaryColor: string, secondaryColor: string, appVersion: string,
    forceFullUpdate: bool, splashImageUrl: Option<string>)

  const MissingEventMessage := "Missing required parameter: event_id is required"
  const InvalidUserMessage := "Invalid user_id format"
  const UnknownUserMessage := "User not found"
  const UnknownEventMessage := "Event not found"
  const DisabledEventMessage := "Event is currently disabled"

  const DefaultTheme := "default"
  const DefaultPrimaryColor := "#5550B7"
  const DefaultSecondaryColor := "#FFFFFF"
  const DefaultVersion := "1.0.0"

  /** The user id with surrounding white space removed; an absent one is "". */
  function UserParam(q: InfoQuery): string {
    if q.userId.Some? then Text.Trim(q.userId.value) else ""
  }

  /** The app version of the first settings row, or 1.0.0 when there is none or it is empty. */
  function AppVersion(settings: seq<ProfileSettings>): (v: string)
    ensures v != ""
    ensures |settings| > 0 && Truthy(settings[0].appVersion) ==> v == settings[0].appVersion.value
    ensures (|settings| == 0 || !Truthy(settings[0].appVersion)) ==> v == DefaultVersion
  {
    if |settings| > 0 then Or(settings[0].appVersion, DefaultVersion) else DefaultVersion
  }

  /** The outcome of the checks that precede the device write. */
  datatype Checked = Rejected(reply: Response<InfoData>) | Passed(event: Event)

  function Check(users: seq<AppUser>, events: seq<Event>, q: InfoQuery): (c: Checked)
    ensures !Truthy(q.eventId) ==> c == Rejected(Failure(400, MissingEventMessage))
    ensures Truthy(q.eventId) && UserParam(q) != "" && !Text.IsUuid(UserParam(q)) ==>
      c == Rejected(Failure(400, InvalidUserMessage))
    ensures (Truthy(q.eventId) && UserParam(q) != "" && Text.IsUuid(UserParam(q))
             && !HasKey(users, UserPk, UserParam(q))) ==> c == Rejected(Failure(404, UnknownUserMessage))
    ensures c.Passed? <==>
      && Truthy(q.eventId)
      && (UserParam(q) != "" ==> Text.IsUuid(UserParam(q)) && HasKey(users, UserPk, UserParam(q)))
      && AppEvents.ResolveById(events, q.eventId.value).Some?
      && AppEvents.ResolveById(events, q.eventId.value).value.isEnabled
    ensures c.Passed? ==> AppEvents.ResolveById(events, q.eventId.value) == Some(c.event)
    ensures (Truthy(q.eventId) && (UserParam(q) != "" ==> Text.IsUuid(UserParam(q)) && HasKey(users, UserPk, UserParam(q)))
             && AppEvents.ResolveById(events, q.eventId.value).None?) ==> c == Rejected(Failure(404, UnknownEventMessage))
    ensures (Truthy(q.eventId) && (UserParam(q) != "" ==> Text.IsUuid(UserParam(q)) && HasKey(users, UserPk, UserParam(q)))
             && AppEvents.ResolveById(events, q.eventId.value).Some?
             && !AppEvents.ResolveById(events, q.eventId.value).value.isEnabled) ==>
      c == Rejected(Failure(403, DisabledEventMessage))
  {
    if !Truthy(q.eventId) then Rejected(Failure(400, MissingEventMessage))
    else
      var userId := UserParam(q);
      if userId != "" && !Text.IsUuid(userId) then Rejected(Failure(400, InvalidUserMessage))
      else if userId != "" && !HasKey(users, UserPk, userId) then Rejected(Failure(404, UnknownUserMessage))
      else
        var gate := AppEvents.GateEvent(AppEvents.ResolveById(events, q.eventId.value), false);
        if gate.Open? then Passed(gate.event) else Rejected(AppEvents.GateFailure(gate, UnknownEventMessage))
  }

  /** The start-up check ignores the event's status: an enabled but inactive or completed event passes. */
  lemma {:induction false} InactiveEventPasses(users: seq<AppUser>, events: seq<Event>, q: InfoQuery, e: Event)
    requires Truthy(q.eventId) && UserParam(q) == ""
    requires e in events && e.id == q.eventId.value && e.isEnabled && e.status != Active
    requires Unique(events, EventPk)
    ensures Check(users, events, q) == Passed(e)
  {
    FindByKeyUnique(events, EventPk, e);
  }

  /** Whether the request asks for a device write: a user, a token and a platform are all given. */
  predicate WantsDevice(q: InfoQuery) {
    UserParam(q) != "" && Truthy(q.fcmToken) && Truthy(q.platform)
  }

  /**
   * The device table after the start-up write for (user, event, token): an
   * existing row gets the platform and update time; otherwise a row without
   * versions is inserted, unless its id is taken. A failed write changes nothing.
   */
  function Touched(
    devices: seq<AppDevice>, userId: string, eventId: string, token: string, platform: string,
    now: int, newId: string, writeError: bool)
    : (r: seq<AppDevice>)
    ensures writeError ==> r == devices
    ensures |devices| <= |r| <= |devices| + 1
    ensures HasKey(devices, DeviceKey, (userId, eventId, token)) ==> |r| == |devices|
    ensures |r| > |devices| ==>
      r == devices + [AppDevices.NewDevice(newId, userId, eventId, token, platform, None, None)]
  {
    if writeError then devices
    else
      match FindByKey(devices, DeviceKey, (userId, eventId, token))
      case Some(found) => UpdateKey(devices, DevicePk, found.id, AppDevices.OpenRefresher(platform, now))
      case None =>
        if HasKey(devices, DevicePk, newId) then devices
        else devices + [AppDevices.NewDevice(newId, userId, eventId, token, platform, None, None)]
  }

  /** The start-up write keeps one device per id and one per (user, event, token). */
  lemma {:induction false} TouchedKeepsKeysUnique(
    devices: seq<AppDevice>, userId: string, eventId: string, token: string, platform: string,
    now: int, newId: string, writeError: bool)
    requires Unique(devices, DevicePk) && Unique(devices, DeviceKey)
    ensures Unique(Touched(devices, userId, eventId, token, platform, now, newId, writeError), DevicePk)
    ensures Unique(Touched(devices, userId, eventId, token, platform, now, newId, writeError), DeviceKey)
  {
    if !writeError {
      var key := (userId, eventId, token);
      match FindByKey(devices, DeviceKey, key)
      case Some(found) =>
        UniqueUpdateKey(devices, DevicePk, found.id, AppDevices.OpenRefresher(platform, now), DevicePk);
        UniqueUpdateKey(devices, DevicePk, found.id, AppDevices.OpenRefresher(platform, now), DeviceKey);
      case None =>
        if !HasKey(devices, DevicePk, newId) {
          var row := AppDevices.NewDevice(newId, userId, eventId, token, platform, None, None);
          UniqueAppend(devices, DevicePk, row);
          UniqueAppend(devices, DeviceKey, row);
        }
    }
  }

  /**
   * A successful write leaves a device for (user, event, token) on the given
   * platform; a device that was there keeps its id, type and versions.
   */
  lemma {:induction false} TouchedRegisters(
    devices: seq<AppDevice>, userId: string, eventId: string, token: string, platform: string,
    now: int, newId: string)
    requires Unique(devices, DeviceKey)
    requires HasKey(devices, DeviceKey, (userId, eventId, token)) || !HasKey(devices, DevicePk, newId)
    ensures
      var d := FindByKey(Touched(devices, userId, eventId, token, platform, now, newId, false), DeviceKey, (userId, eventId, token));
      && d.Some? && d.value.platform == platform
      && (FindByKey(devices, DeviceKey, (userId, eventId, token)).Some? ==>
            var found := FindByKey(devices, DeviceKey, (userId, eventId, token)).value;
            && d.value.id == found.id && d.value.deviceType == found.deviceType
            && d.value.appVersion == found.appVersion && d.value.deviceVersion == found.deviceVersion
            && d.value.updatedAt == Some(now))
  {
    var key := (userId, eventId, token);
    match FindByKey(devices, DeviceKey, key)
    case Some(found) =>
      FindByKeyAfterUpdateOf(devices, DevicePk, DeviceKey, AppDevices.OpenRefresher(platform, now), found);
    case None =>
      FindByKeyAfterAppend(devices, DeviceKey, AppDevices.NewDevice(newId, userId, eventId, token, platform, None, None));
  }

  /** The start-up device write, step by step: look the device up, then update it or insert one. */
  method TouchDevice(
    db: Db, userId: string, eventId: string, token: string, platform: string, now: int, newId: string, writeError: bool)
    requires db.Valid()
    modifies db`devices
    ensures db.Valid()
    ensures db.devices == Touched(old(db.devices), userId, eventId, token, platform, now, newId, writeError)
  {
    TouchedKeepsKeysUnique(db.devices, userId, eventId, token, platform, now, newId, writeError);
    var existing := FindByKey(db.devices, DeviceKey, (userId, eventId, token));
    if writeError {
      return;
    }
    if existing.Some? {
      db.devices := UpdateKey(db.devices, DevicePk, existing.value.id, AppDevices.OpenRefresher(platform, now));
    } else if !HasKey(db.devices, DevicePk, newId) {
      db.devices := db.devices + [AppDevices.NewDevice(newId, userId, eventId, token, platform, None, None)];
    }
  }

  function Reply(e: Event, settings: seq<ProfileSettings>): (r: InfoData)
    ensures r.theme == DefaultTheme && !r.forceFullUpdate && r.appVersion == AppVersion(settings)
    ensures r.primaryColor ==
      (if Truthy(AppEvents.Attr(e, PrimaryColor)) then AppEvents.Attr(e, PrimaryColor).value else DefaultPrimaryColor)
    ensures r.secondaryColor ==
      (if Truthy(AppEvents.Attr(e, SecondaryColor)) then AppEvents.Attr(e, SecondaryColor).value else DefaultSecondaryColor)
    ensures r.splashImageUrl.Some? <==> Truthy(AppEvents.Attr(e, SplashImageUrl))
    ensures r.splashImageUrl.Some? ==> r.splashImageUrl == AppEvents.Attr(e, SplashImageUrl)
  {
    InfoData(
      DefaultTheme,
      Or(AppEvents.Attr(e, PrimaryColor), DefaultPrimaryColor), Or(AppEvents.Attr(e, SecondaryColor), DefaultSecondaryColor),
      AppVersion(settings), false, OrNull(AppEvents.Attr(e, SplashImageUrl)))
  }

  /**
   * GET. `now` is the clock in milliseconds, `newDeviceId` the id a new device
   * row gets and `writeError` whether the device write fails.
   */
  method Get(db: Db, q: InfoQuery, now: int, newDeviceId: string, writeError: bool) returns (r: Response<InfoData>)
    requires db.Valid()
    modifies db`devices
    ensures db.Valid()
    ensures Check(db.users, db.events, q).Rejected? ==>
      r == Check(db.users, db.events, q).reply && db.devices == old(db.devices)
    ensures Check(db.users, db.events, q).Passed? ==>
      var e := Check(db.users, db.events, q).event;
      && r == Success(200, Reply(e, db.profileSettings))
      && db.devices == if WantsDevice(q)
                       then Touched(old(db.devices), UserParam(q), e.id, q.fcmToken.value, q.platform.value, now, newDeviceId, writeError)
                       else old(db.devices)
  {
    var c := Check(db.users, db.events, q);
    if c.Rejected? {
      return c.reply;
    }
    if WantsDevice(q) {
      TouchDevice(db, UserParam(q), c.event.id, q.fcmToken.value, q.platform.value, now, newDeviceId, writeError);
    }
    r := Success(200, Reply(c.event, db.profileSettings));
  }
}
