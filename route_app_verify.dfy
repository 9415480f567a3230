/**
 * The mobile code-verification endpoint (app/api/app/auth/verify-otp/route.ts).
 * POST checks the request, resolves and gates the event as sign-in does,
 * matches the submitted code, marks it used, gets or creates the user of
 * that phone number for the event, registers the push device when a token
 * and platform are given, and replies with the user, the event's look and
 * the device.
 */
module AppVerifyRoute {
  import opened Wrappers
  import opened Types
  import opened Seqs
  import opened Database
  import opened Http
  import Text
  import AppEvents
  import AppOtps
  import AppDevices
  import AppLoginRoute

  datatype VerifyBody = VerifyBody(
    countryCode: Option<string>, username: Option<string>, phoneNo: Option<string>, eventCode: Option<string>,
    otp: Option<string>, fcmToken: Option<string>, platform: Option<string>,
    appVersion: Option<string>, deviceVersion: Option<string>)

  datatype UserInfo = UserInfo(userId: string, name: string, otpPhoneNo: string)
  datatype EventInfo = EventInfo(
    eventId: string, eventLoginCode: string, primaryColor: string, secondaryColor: string,
    appVersion: string, forcefulUpdate: bool)
  datatype DeviceInfo = DeviceInfo(id: string, deviceId: string, deviceType: DeviceType, token: string, version: string)
  datatype VerifyData = VerifyData(user: UserInfo, event: EventInfo, device: Option<DeviceInfo>)

  const MissingFieldsMessage := "Missing required fields: country_code, phone_no, event_code, and otp are required"
  const InvalidPhoneMessage := "Invalid phone number format"
  const InvalidOtpMessage := "Invalid OTP format. OTP must be 4 digits"
  const RejectedOtpMessage := "Invalid or expired OTP"
  const CreateUserFailedMessage := "Failed to create user"

  const DefaultPrimaryColor := "#5550B7"
  const DefaultSecondaryColor := "#FFFFFF"
  const DefaultVersion := "1.0.0"

  predicate HasRequiredFields(b: VerifyBody) {
    Truthy(b.countryCode) && Truthy(b.phoneNo) && Truthy(b.eventCode) && Truthy(b.otp)
  }

  /** The format checks: a phone number of digits only and a code of exactly four digits. */
  predicate WellFormed(b: VerifyBody) {
    HasRequiredFields(b) && Text.AllDigits(b.phoneNo.value) && Text.FourDigits(b.otp.value)
  }

  /** The event is resolved and gated exactly as at sign-in. */
  function VerifyGate(events: seq<Event>, b: VerifyBody): AppEvents.Gate
    requires HasRequiredFields(b)
  {
    AppEvents.GateEvent(AppEvents.ResolveByCode(events, b.eventCode.value), true)
  }

  /** The outcome of the checks that precede any write: the reply of a rejection, or the event and the code row matched. */
  datatype Checked = Rejected(reply: Response<VerifyData>) | Matched(event: Event, otp: AppOtp)

  function Check(events: seq<Event>, otps: seq<AppOtp>, body: Option<VerifyBody>, now: int): (c: Checked)
    ensures body.None? ==> c == Rejected(Failure(500, InternalError))
    ensures body.Some? && !HasRequiredFields(body.value) ==> c == Rejected(Failure(400, MissingFieldsMessage))
    ensures body.Some? && HasRequiredFields(body.value) && !Text.AllDigits(body.value.phoneNo.value) ==>
      c == Rejected(Failure(400, InvalidPhoneMessage))
    ensures (body.Some? && HasRequiredFields(body.value) && Text.AllDigits(body.value.phoneNo.value)
             && !Text.FourDigits(body.value.otp.value)) ==> c == Rejected(Failure(400, InvalidOtpMessage))
    ensures body.Some? && WellFormed(body.value) && !VerifyGate(events, body.value).Open? ==>
      c == Rejected(AppEvents.GateFailure(VerifyGate(events, body.value), AppEvents.InvalidEventCodeMessage))
    ensures c.Matched? ==>
      && body.Some? && WellFormed(body.value) && VerifyGate(events, body.value) == AppEvents.Open(c.event)
      && c.otp in otps
      && Some(c.otp) == AppOtps.MatchOtp(otps, c.event.id, body.value.countryCode.value, body.value.phoneNo.value, body.value.otp.value, now)
      && AppOtps.Accepts(c.otp, c.event.id, body.value.countryCode.value, body.value.phoneNo.value, body.value.otp.value, now)
    ensures body.Some? && WellFormed(body.value) && VerifyGate(events, body.value).Open? ==>
      var e := VerifyGate(events, body.value).event;
      && (c.Rejected? <==>
            AppOtps.MatchOtp(otps, e.id, body.value.countryCode.value, body.value.phoneNo.value, body.value.otp.value, now).None?)
      && (c.Rejected? ==> c == Rejected(Failure(401, RejectedOtpMessage)))
  {
    if body.None? then Rejected(Failure(500, InternalError))
    else
      var b := body.value;
      if !HasRequiredFields(b) then Rejected(Failure(400, MissingFieldsMessage))
      else if !Text.AllDigits(b.phoneNo.value) then Rejected(Failure(400, InvalidPhoneMessage))
      else if !Text.FourDigits(b.otp.value) then Rejected(Failure(400, InvalidOtpMessage))
      else
        var gate := VerifyGate(events, b);
        if !gate.Open? then Rejected(AppEvents.GateFailure(gate, AppEvents.InvalidEventCodeMessage))
        else
          match AppOtps.MatchOtp(otps, gate.event.id, b.countryCode.value, b.phoneNo.value, b.otp.value, now)
          case None => Rejected(Failure(401, RejectedOtpMessage))
          case Some(row) => Matched(gate.event, row)
  }

  function Renamer(name: string): AppUser -> AppUser {
    (u: AppUser) => u.(username := Some(name))
  }

  /** The row a store step ends with (none when its write fails), and the table after it. */
  datatype Step<T> = Step(row: Option<T>, table: seq<T>)

  /**
   * The user of (event, country code, phone): the existing row, renamed when a
   * different non-empty username is given and the rename succeeds; otherwise a
   * new row, unless its insert fails.
   */
  function UserStep(
    users: seq<AppUser>, eventId: string, countryCode: string, phone: string, username: Option<string>,
    newId: string, createError: bool, renameError: bool): (r: Step<AppUser>)
    ensures FindByKey(users, UserKey, (eventId, countryCode, phone)).None? ==>
      && (r.row.Some? <==> !createError && !HasKey(users, UserPk, newId))
      && (r.row.Some? ==> r.row.value == AppUser(newId, eventId, countryCode, phone, OrNull(username), None, None))
      && r.table == (if r.row.Some? then users + [r.row.value] else users)
    ensures FindByKey(users, UserKey, (eventId, countryCode, phone)).Some? ==>
      var found := FindByKey(users, UserKey, (eventId, countryCode, phone)).value;
      && r.row.Some? && r.row.value.id == found.id && UserKey(r.row.value) == UserKey(found)
      && r.row.value.username == (if Truthy(username) && !renameError then username else found.username)
      && (r.row == Some(found) ==> r.table == users)
      && (r.row != Some(found) ==> Truthy(username) && r.table == UpdateKey(users, UserPk, found.id, Renamer(username.value)))
  {
    match FindByKey(users, UserKey, (eventId, countryCode, phone))
    case None =>
      if createError || HasKey(users, UserPk, newId) then Step(None, users)
      else
        var row := AppUser(newId, eventId, countryCode, phone, OrNull(username), None, None);
        Step(Some(row), users + [row])
    case Some(found) =>
      if Truthy(username) && username != found.username && !renameError then
        Step(Some(found.(username := username)), UpdateKey(users, UserPk, found.id, Renamer(username.value)))
      else Step(Some(found), users)
  }

  /**
   * The user step keeps both user keys unique, leaves the row it ends with
   * under the phone number's key, and keeps every user of another phone
   * number or event as it was.
   */
  lemma {:induction false} UserStepKeepsOthers(
    users: seq<AppUser>, eventId: string, countryCode: string, phone: string, username: Option<string>,
    newId: string, createError: bool, renameError: bool)
    requires Unique(users, UserPk) && Unique(users, UserKey)
    ensures
      var r := UserStep(users, eventId, countryCode, phone, username, newId, createError, renameError);
      && Unique(r.table, UserPk) && Unique(r.table, UserKey)
      && (r.row.Some? ==> FindByKey(r.table, UserKey, (eventId, countryCode, phone)) == r.row)
      && (forall v :: v in users && UserKey(v) != (eventId, countryCode, phone) ==> v in r.table)
  {
    var key := (eventId, countryCode, phone);
    var r := UserStep(users, eventId, countryCode, phone, username, newId, createError, renameError);
    var existing := FindByKey(users, UserKey, key);
    if existing.None? {
      if r.row.Some? {
        UniqueAppend(users, UserPk, r.row.value);
        UniqueAppend(users, UserKey, r.row.value);
        FindByKeyAfterAppend(users, UserKey, r.row.value);
      }
    } else if r.table != users {
      var found := existing.value;
      var rename := Renamer(username.value);
      UniqueUpdateKey(users, UserPk, found.id, rename, UserPk);
      UniqueUpdateKey(users, UserPk, found.id, rename, UserKey);
      FindByKeyAfterUpdateOf(users, UserPk, UserKey, rename, found);
      UpdateKeyKeepsOthers(users, UserPk, rename, found);
    } else {
      FindByKeyUnique(users, UserKey, existing.value);
    }
  }

  method GetOrCreateUser(
    db: Db, eventId: string, countryCode: string, phone: string, username: Option<string>,
    newId: string, createError: bool, renameError: bool)
    returns (u: Option<AppUser>)
    requires db.Valid()
    modifies db`users
    ensures db.Valid()
    ensures u.Some? ==> FindByKey(db.users, UserKey, (eventId, countryCode, phone)) == u
    ensures Step(u, db.users) == UserStep(old(db.users), eventId, countryCode, phone, username, newId, createError, renameError)
  {
    var key := (eventId, countryCode, phone);
    var existing := FindByKey(db.users, UserKey, key);
    if existing.None? {
      var row := AppUser(newId, eventId, countryCode, phone, OrNull(username), None, None);
      if createError || HasKey(db.users, UserPk, newId) {
        return None;
      }
      UniqueAppend(db.users, UserPk, row);
      FindByKeyAfterAppend(db.users, UserKey, row);
      db.users := db.users + [row];
      return Some(row);
    }
    var found := existing.value;
    if Truthy(username) && username != found.username && !renameError {
      var rename := Renamer(username.value);
      UniqueUpdateKey(db.users, UserPk, found.id, rename, UserPk);
      UniqueUpdateKey(db.users, UserPk, found.id, rename, UserKey);
      FindByKeyAfterUpdateOf(db.users, UserPk, UserKey, rename, found);
      db.users := UpdateKey(db.users, UserPk, found.id, rename);
      u := Some(found.(username := username));
    } else {
      u := Some(found);
    }
  }

  /** Refreshing a registered device at sign-in keeps both device keys unique and leaves the refreshed row under its key. */
  lemma {:induction false} SignInRefreshKeepsKeys(
    devices: seq<AppDevice>, found: AppDevice, platform: string,
    appVersion: Option<string>, deviceVersion: Option<string>, now: int)
    requires Unique(devices, DevicePk) && Unique(devices, DeviceKey)
    requires found in devices
    ensures
      var r := UpdateKey(devices, DevicePk, found.id, AppDevices.SignInRefresher(platform, appVersion, deviceVersion, now));
      && Unique(r, DevicePk) && Unique(r, DeviceKey)
      && FindByKey(r, DeviceKey, DeviceKey(found))
         == Some(AppDevices.RefreshOnSignIn(found, platform, appVersion, deviceVersion, now))
  {
    var refresh := AppDevices.SignInRefresher(platform, appVersion, deviceVersion, now);
    UniqueUpdateKey(devices, DevicePk, found.id, refresh, DevicePk);
    UniqueUpdateKey(devices, DevicePk, found.id, refresh, DeviceKey);
    FindByKeyAfterUpdateOf(devices, DevicePk, DeviceKey, refresh, found);
  }

  /**
   * The device of (user, event, token): an existing row is refreshed, or kept
   * as it was when the update fails; otherwise a new row, unless its insert fails.
   */
  function DeviceStep(
    devices: seq<AppDevice>, userId: string, eventId: string, token: string, platform: string,
    appVersion: Option<string>, deviceVersion: Option<string>, now: int, newId: string, writeError: bool): (r: Step<AppDevice>)
    ensures FindByKey(devices, DeviceKey, (userId, eventId, token)).None? ==>
      && (r.row.Some? <==> !writeError && !HasKey(devices, DevicePk, newId))
      && (r.row.Some? ==> r.row.value == AppDevices.NewDevice(newId, userId, eventId, token, platform, appVersion, deviceVersion))
      && r.table == (if r.row.Some? then devices + [r.row.value] else devices)
    ensures FindByKey(devices, DeviceKey, (userId, eventId, token)).Some? ==>
      var found := FindByKey(devices, DeviceKey, (userId, eventId, token)).value;
      && r.row.Some? && r.row.value.id == found.id && DeviceKey(r.row.value) == DeviceKey(found)
      && (writeError ==> r.row == Some(found) && r.table == devices)
      && (!writeError ==>
            && r.row == Some(AppDevices.RefreshOnSignIn(found, platform, appVersion, deviceVersion, now))
            && |r.table| == |devices|)
  {
    match FindByKey(devices, DeviceKey, (userId, eventId, token))
    case None =>
      if writeError || HasKey(devices, DevicePk, newId) then Step(None, devices)
      else
        var row := AppDevices.NewDevice(newId, userId, eventId, token, platform, appVersion, deviceVersion);
        Step(Some(row), devices + [row])
    case Some(found) =>
      if writeError then Step(Some(found), devices)
      else
        Step(Some(AppDevices.RefreshOnSignIn(found, platform, appVersion, deviceVersion, now)),
             UpdateKey(devices, DevicePk, found.id, AppDevices.SignInRefresher(platform, appVersion, deviceVersion, now)))
  }

  /**
   * The device step keeps both device keys unique, leaves the row it ends with
   * under its key, and keeps every other device as it was.
   */
  lemma {:induction false} DeviceStepKeepsOthers(
    devices: seq<AppDevice>, userId: string, eventId: string, token: string, platform: string,
    appVersion: Option<string>, deviceVersion: Option<string>, now: int, newId: string, writeError: bool)
    requires Unique(devices, DevicePk) && Unique(devices, DeviceKey)
    ensures
      var r := DeviceStep(devices, userId, eventId, token, platform, appVersion, deviceVersion, now, newId, writeError);
      && Unique(r.table, DevicePk) && Unique(r.table, DeviceKey)
      && (r.row.Some? ==> FindByKey(r.table, DeviceKey, (userId, eventId, token)) == r.row)
      && (forall v :: v in devices && DeviceKey(v) != (userId, eventId, token) ==> v in r.table)
  {
    var key := (userId, eventId, token);
    var r := DeviceStep(devices, userId, eventId, token, platform, appVersion, deviceVersion, now, newId, writeError);
    var existing := FindByKey(devices, DeviceKey, key);
    if existing.None? {
      if r.row.Some? {
        UniqueAppend(devices, DevicePk, r.row.value);
        UniqueAppend(devices, DeviceKey, r.row.value);
        FindByKeyAfterAppend(devices, DeviceKey, r.row.value);
      }
    } else if !writeError {
      var found := existing.value;
      SignInRefreshKeepsKeys(devices, found, platform, appVersion, deviceVersion, now);
      UpdateKeyKeepsOthers(devices, DevicePk, AppDevices.SignInRefresher(platform, appVersion, deviceVersion, now), found);
    } else {
      FindByKeyUnique(devices, DeviceKey, existing.value);
    }
  }

  method RegisterDevice(
    db: Db, userId: string, eventId: string, token: string, platform: string,
    appVersion: Option<string>, deviceVersion: Option<string>, now: int, newId: string, writeError: bool)
    returns (d: Option<AppDevice>)
    requires db.Valid()
    modifies db`devices
    ensures db.Valid()
    ensures d == FindByKey(db.devices, DeviceKey, (userId, eventId, token))
    ensures Step(d, db.devices) == DeviceStep(old(db.devices), userId, eventId, token, platform, appVersion, deviceVersion, now, newId, writeError)
  {
    var key := (userId, eventId, token);
    var existing := FindByKey(db.devices, DeviceKey, key);
    if existing.None? {
      var row := AppDevices.NewDevice(newId, userId, eventId, token, platform, appVersion, deviceVersion);
      if writeError || HasKey(db.devices, DevicePk, newId) {
        return None;
      }
      UniqueAppend(db.devices, DevicePk, row);
      FindByKeyAfterAppend(db.devices, DeviceKey, row);
      db.devices := db.devices + [row];
      return Some(row);
    }
    var found := existing.value;
    if writeError {
      return existing;
    }
    SignInRefreshKeepsKeys(db.devices, found, platform, appVersion, deviceVersion, now);
    db.devices := UpdateKey(db.devices, DevicePk, found.id, AppDevices.SignInRefresher(platform, appVersion, deviceVersion, now));
    d := Some(AppDevices.RefreshOnSignIn(found, platform, appVersion, deviceVersion, now));
  }

  /** The device as replied: its id twice, and a version that falls back to the app version and then to 1.0.0. */
  function DeviceReply(d: AppDevice): (info: DeviceInfo)
    ensures info.id == d.id && info.deviceId == d.id && info.token == d.fcmToken && info.deviceType == d.deviceType
    ensures info.version != ""
    ensures Truthy(d.deviceVersion) ==> info.version == d.deviceVersion.value
    ensures !Truthy(d.deviceVersion) && Truthy(d.appVersion) ==> info.version == d.appVersion.value
    ensures !Truthy(d.deviceVersion) && !Truthy(d.appVersion) ==> info.version == DefaultVersion
  {
    DeviceInfo(d.id, d.id, d.deviceType, d.fcmToken, Or(d.deviceVersion, Or(d.appVersion, DefaultVersion)))
  }

  /** The reply's payload: the user, the event's colours with their defaults, and the device if one was registered. */
  function Reply(u: AppUser, e: Event, b: VerifyBody, d: Option<AppDevice>): (r: VerifyData)
    requires HasRequiredFields(b)
    ensures r.user.userId == u.id && r.user.otpPhoneNo == b.countryCode.value + b.phoneNo.value
    ensures r.user.name == (if Truthy(u.username) then u.username.value else "")
    ensures r.event.eventId == e.eventId && r.event.eventLoginCode == e.loginCode && !r.event.forcefulUpdate
    ensures r.event.primaryColor ==
      (if Truthy(AppEvents.Attr(e, PrimaryColor)) then AppEvents.Attr(e, PrimaryColor).value else DefaultPrimaryColor)
    ensures r.event.secondaryColor ==
      (if Truthy(AppEvents.Attr(e, SecondaryColor)) then AppEvents.Attr(e, SecondaryColor).value else DefaultSecondaryColor)
    ensures r.event.appVersion == (if Truthy(b.appVersion) then b.appVersion.value else DefaultVersion)
    ensures r.device.Some? <==> d.Some?
    ensures d.Some? ==> r.device.value.id == d.value.id && r.device.value.token == d.value.fcmToken
  {
    VerifyData(
      UserInfo(u.id, Or(u.username, ""), b.countryCode.value + b.phoneNo.value),
      EventInfo(
        e.eventId, e.loginCode,
        Or(AppEvents.Attr(e, PrimaryColor), DefaultPrimaryColor), Or(AppEvents.Attr(e, SecondaryColor), DefaultSecondaryColor),
        Or(b.appVersion, DefaultVersion), false),
      if d.Some? then Some(DeviceReply(d.value)) else None)
  }

  /** Whether the request asks for a device registration. */
  predicate WantsDevice(b: VerifyBody) {
    Truthy(b.fcmToken) && Truthy(b.platform)
  }

  /** The devices table once the user step has ended with `user`: unchanged unless a user exists and a device is asked for. */
  function DevicesAfter(
    devices: seq<AppDevice>, user: Option<AppUser>, e: Event, b: VerifyBody, now: int, newId: string, writeError: bool)
    : seq<AppDevice>
  {
    if user.Some? && WantsDevice(b) then
      DeviceStep(devices, user.value.id, e.id, b.fcmToken.value, b.platform.value, b.appVersion, b.deviceVersion,
                 now, newId, writeError).table
    else devices
  }

  /**
   * The reply once a code has matched: 500 when the user step ends with no
   * row, otherwise the user, the event and, when asked for, the device the
   * device step ends with.
   */
  function AdmitReply(
    users: seq<AppUser>, devices: seq<AppDevice>, e: Event, b: VerifyBody, now: int, newUserId: string, newDeviceId: string,
    createError: bool, renameError: bool, deviceError: bool): (r: Response<VerifyData>)
    requires HasRequiredFields(b)
    ensures
      var key := (e.id, b.countryCode.value, b.phoneNo.value);
      r.Failure? <==> !HasKey(users, UserKey, key) && (createError || HasKey(users, UserPk, newUserId))
    ensures r.Failure? ==> r == Failure(500, CreateUserFailedMessage)
    ensures r.Success? ==>
      && r.status == 200 && r.data.user.otpPhoneNo == b.countryCode.value + b.phoneNo.value
      && r.data.event.eventId == e.eventId
      && (r.data.device.Some? ==> WantsDevice(b))
  {
    var user := UserStep(users, e.id, b.countryCode.value, b.phoneNo.value, b.username, newUserId, createError, renameError);
    if user.row.None? then Failure(500, CreateUserFailedMessage)
    else
      var device :=
        if WantsDevice(b) then
          DeviceStep(devices, user.row.value.id, e.id, b.fcmToken.value, b.platform.value, b.appVersion, b.deviceVersion,
                     now, newDeviceId, deviceError).row
        else None;
      Success(200, Reply(user.row.value, e, b, device))
  }

  /** A successful reply carries the user and the device exactly as the tables store them afterwards. */
  lemma {:induction false} AdmitReplyIsStored(
    users: seq<AppUser>, devices: seq<AppDevice>, e: Event, b: VerifyBody, now: int, newUserId: string, newDeviceId: string,
    createError: bool, renameError: bool, deviceError: bool)
    requires HasRequiredFields(b)
    requires Unique(users, UserPk) && Unique(users, UserKey) && Unique(devices, DevicePk) && Unique(devices, DeviceKey)
    ensures
      var r := AdmitReply(users, devices, e, b, now, newUserId, newDeviceId, createError, renameError, deviceError);
      var step := UserStep(users, e.id, b.countryCode.value, b.phoneNo.value, b.username, newUserId, createError, renameError);
      var after := DevicesAfter(devices, step.row, e, b, now, newDeviceId, deviceError);
      var user := FindByKey(step.table, UserKey, (e.id, b.countryCode.value, b.phoneNo.value));
      r.Success? ==>
        && user.Some?
        && r == Success(200, Reply(user.value, e, b,
                                   if WantsDevice(b) then FindByKey(after, DeviceKey, (user.value.id, e.id, b.fcmToken.value))
                                   else None))
  {
    var step := UserStep(users, e.id, b.countryCode.value, b.phoneNo.value, b.username, newUserId, createError, renameError);
    UserStepKeepsOthers(users, e.id, b.countryCode.value, b.phoneNo.value, b.username, newUserId, createError, renameError);
    if step.row.Some? && WantsDevice(b) {
      DeviceStepKeepsOthers(
        devices, step.row.value.id, e.id, b.fcmToken.value, b.platform.value, b.appVersion, b.deviceVersion,
        now, newDeviceId, deviceError);
    }
  }

  /**
   * What follows a match: the code row `used` is marked used (unless that
   * update fails, which is ignored), the user is got or created, and the
   * device is registered when asked for. The code stays used when the user
   * insert then fails.
   */
  method Admit(
    db: Db, e: Event, used: AppOtp, b: VerifyBody, now: int, newUserId: string, newDeviceId: string,
    consumeError: bool, createError: bool, renameError: bool, deviceError: bool)
    returns (r: Response<VerifyData>)
    requires db.Valid()
    requires HasRequiredFields(b)
    modifies db`otps, db`users, db`devices
    ensures db.Valid()
    ensures db.otps == if consumeError then old(db.otps) else AppOtps.MarkVerified(old(db.otps), used.id)
    ensures
      var user := UserStep(old(db.users), e.id, b.countryCode.value, b.phoneNo.value, b.username, newUserId, createError, renameError);
      && db.users == user.table
      && db.devices == DevicesAfter(old(db.devices), user.row, e, b, now, newDeviceId, deviceError)
    ensures r == AdmitReply(old(db.users), old(db.devices), e, b, now, newUserId, newDeviceId, createError, renameError, deviceError)
    ensures r.Success? ==>
      var user := FindByKey(db.users, UserKey, (e.id, b.countryCode.value, b.phoneNo.value));
      && user.Some?
      && r == Success(200, Reply(user.value, e, b,
                                 if WantsDevice(b) then FindByKey(db.devices, DeviceKey, (user.value.id, e.id, b.fcmToken.value))
                                 else None))
  {
    if !consumeError {
      UniqueUpdateKey(db.otps, OtpPk, used.id, AppOtps.Consume, OtpPk);
      UniqueUpdateKey(db.otps, OtpPk, used.id, AppOtps.Consume, OtpKey);
      db.otps := AppOtps.MarkVerified(db.otps, used.id);
    }
    var user := GetOrCreateUser(db, e.id, b.countryCode.value, b.phoneNo.value, b.username, newUserId, createError, renameError);
    if user.None? {
      return Failure(500, CreateUserFailedMessage);
    }
    var device: Option<AppDevice> := None;
    if WantsDevice(b) {
      device := RegisterDevice(
        db, user.value.id, e.id, b.fcmToken.value, b.platform.value, b.appVersion, b.deviceVersion,
        now, newDeviceId, deviceError);
    }
    r := Success(200, Reply(user.value, e, b, device));
    AdmitReplyIsStored(old(db.users), old(db.devices), e, b, now, newUserId, newDeviceId, createError, renameError, deviceError);
  }

  /**
   * POST. `now` is the clock in milliseconds; `newUserId` and `newDeviceId` are
   * the ids the store gives new rows; `consumeError`, `createError`,
   * `renameError` and `deviceError` say whether the mark-used update, the user
   * insert, the rename and the device write fail. A rejected request writes nothing.
   */
  method Post(
    db: Db, body: Option<VerifyBody>, now: int, newUserId: string, newDeviceId: string,
    consumeError: bool, createError: bool, renameError: bool, deviceError: bool)
    returns (r: Response<VerifyData>)
    requires db.Valid()
    modifies db`otps, db`users, db`devices
    ensures db.Valid()
    ensures Check(old(db.events), old(db.otps), body, now).Rejected? ==>
      && r == Check(old(db.events), old(db.otps), body, now).reply
      && db.otps == old(db.otps) && db.users == old(db.users) && db.devices == old(db.devices)
    ensures Check(old(db.events), old(db.otps), body, now).Matched? ==>
      var c := Check(old(db.events), old(db.otps), body, now);
      var user := UserStep(old(db.users), c.event.id, body.value.countryCode.value, body.value.phoneNo.value,
                           body.value.username, newUserId, createError, renameError);
      && db.otps == (if consumeError then old(db.otps) else AppOtps.MarkVerified(old(db.otps), c.otp.id))
      && db.users == user.table
      && db.devices == DevicesAfter(old(db.devices), user.row, c.event, body.value, now, newDeviceId, deviceError)
      && r == AdmitReply(old(db.users), old(db.devices), c.event, body.value, now, newUserId, newDeviceId,
                         createError, renameError, deviceError)
    ensures r.Success? ==>
      var c := Check(old(db.events), old(db.otps), body, now);
      var user := FindByKey(db.users, UserKey, (c.event.id, body.value.countryCode.value, body.value.phoneNo.value));
      && c.Matched? && user.Some?
      && r == Success(200, Reply(user.value, c.event, body.value,
                                 if WantsDevice(body.value)
                                 then FindByKey(db.devices, DeviceKey, (user.value.id, c.event.id, body.value.fcmToken.value))
                                 else None))
  {
    var c := Check(db.events, db.otps, body, now);
    if c.Rejected? {
      return c.reply;
    }
    r := Admit(db, c.event, c.otp, body.value, now, newUserId, newDeviceId, consumeError, createError, renameError, deviceError);
  }

  /** A verification request that repeats the sign-in's country code, phone number and event code. */
  predicate SameSignIn(lb: AppLoginRoute.LoginBody, vb: VerifyBody) {
    vb.countryCode == lb.countryCode && vb.phoneNo == lb.phoneNo && vb.eventCode == lb.eventCode
  }

  /** Within ten minutes of a successful sign-in, submitting the issued code matches the issued row. */
  lemma {:induction false} VerifyAcceptsIssuedCode(
    events: seq<Event>, otps: seq<AppOtp>, lb: AppLoginRoute.LoginBody, vb: VerifyBody,
    num: nat, den: nat, issuedAt: int, newId: string, now: int)
    requires num < den
    requires AppLoginRoute.WellFormed(lb) && AppLoginRoute.LoginGate(events, lb).Open?
    requires SameSignIn(lb, vb) && vb.otp == Some(AppOtps.GenerateOtp(num, den))
    requires issuedAt <= now < issuedAt + AppOtps.OtpLifetime
    ensures
      var e := AppLoginRoute.LoginGate(events, lb).event;
      var row := AppLoginRoute.IssuedRow(lb, e.id, AppOtps.GenerateOtp(num, den), issuedAt, newId);
      Check(events, AppOtps.Supersede(otps, row), Some(vb), now) == Matched(e, row)
  {
    var e := AppLoginRoute.LoginGate(events, lb).event;
    var row := AppLoginRoute.IssuedRow(lb, e.id, AppOtps.GenerateOtp(num, den), issuedAt, newId);
    assert WellFormed(vb);
    assert VerifyGate(events, vb) == AppLoginRoute.LoginGate(events, lb);
    AppOtps.FreshCodeAccepted(otps, row, now);
  }

  /** After a sign-in, any code other than the issued one is refused for that phone number and event. */
  lemma {:induction false} VerifyRejectsOtherCode(
    events: seq<Event>, otps: seq<AppOtp>, lb: AppLoginRoute.LoginBody, vb: VerifyBody,
    code: string, issuedAt: int, newId: string, now: int)
    requires AppLoginRoute.WellFormed(lb) && AppLoginRoute.LoginGate(events, lb).Open?
    requires SameSignIn(lb, vb) && WellFormed(vb) && vb.otp != Some(code)
    ensures
      var e := AppLoginRoute.LoginGate(events, lb).event;
      var row := AppLoginRoute.IssuedRow(lb, e.id, code, issuedAt, newId);
      Check(events, AppOtps.Supersede(otps, row), Some(vb), now) == Rejected(Failure(401, RejectedOtpMessage))
  {
    var e := AppLoginRoute.LoginGate(events, lb).event;
    var row := AppLoginRoute.IssuedRow(lb, e.id, code, issuedAt, newId);
    assert VerifyGate(events, vb) == AppLoginRoute.LoginGate(events, lb);
    AppOtps.SupersededCodeRejected(otps, row, vb.otp.value, now);
  }

  /** Ten minutes after a sign-in, no code is accepted for that phone number and event. */
  lemma {:induction false} VerifyRejectsAfterExpiry(
    events: seq<Event>, otps: seq<AppOtp>, lb: AppLoginRoute.LoginBody, vb: VerifyBody,
    code: string, issuedAt: int, newId: string, now: int)
    requires AppLoginRoute.WellFormed(lb) && AppLoginRoute.LoginGate(events, lb).Open?
    requires SameSignIn(lb, vb) && WellFormed(vb)
    requires now >= issuedAt + AppOtps.OtpLifetime
    ensures
      var e := AppLoginRoute.LoginGate(events, lb).event;
      var row := AppLoginRoute.IssuedRow(lb, e.id, code, issuedAt, newId);
      Check(events, AppOtps.Supersede(otps, row), Some(vb), now) == Rejected(Failure(401, RejectedOtpMessage))
  {
    var e := AppLoginRoute.LoginGate(events, lb).event;
    assert VerifyGate(events, vb) == AppLoginRoute.LoginGate(events, lb);
    AppOtps.ExpiredAfterLifetime(
      otps, newId, e.id, lb.countryCode.value, lb.phoneNo.value, lb.username, code, issuedAt, vb.otp.value, now);
  }

  /** Once a verification has consumed a code, no further verification for that phone number and event succeeds. */
  lemma {:induction false} VerifyRejectsReusedCode(
    events: seq<Event>, otps: seq<AppOtp>, b: VerifyBody, now: int, again: VerifyBody, later: int)
    requires Unique(otps, OtpKey)
    requires Check(events, otps, Some(b), now).Matched?
    requires again.countryCode == b.countryCode && again.phoneNo == b.phoneNo && again.eventCode == b.eventCode
    ensures Check(events, AppOtps.MarkVerified(otps, Check(events, otps, Some(b), now).otp.id), Some(again), later).Rejected?
  {
    var c := Check(events, otps, Some(b), now);
    var e := c.event;
    var used := AppOtps.MatchOtp(otps, e.id, b.countryCode.value, b.phoneNo.value, b.otp.value, now).value;
    assert used == c.otp;
    if WellFormed(again) {
      assert VerifyGate(events, again) == VerifyGate(events, b);
      AppOtps.ConsumedCodeRejected(otps, e.id, b.countryCode.value, b.phoneNo.value, b.otp.value, now, again.otp.value, later);
    }
  }
}
