/**
 * The mobile sign-in endpoint (app/api/app/auth/login/route.ts). POST checks
 * the request, resolves the event by its login code or its public id, gates
 * it, deletes every earlier code of that phone number for the event and
 * inserts a fresh one. The code itself is returned in the reply.
 */
module AppLoginRoute {
  import opened Wrappers
  import opened Types
  import opened Seqs
  import opened Database
  import opened Http
  import Text
  import AppEvents
  import AppOtps

  datatype LoginBody = LoginBody(
    countryCode: Option<string>, username: Option<string>, phoneNo: Option<string>, eventCode: Option<string>)

  /** The reply: the code and its lifetime in seconds. */
  datatype LoginData = LoginData(otp: string, expiresIn: int)

  const MissingFieldsMessage := "Missing required fields: country_code, phone_no, and event_code are required"
  const InvalidPhoneMessage := "Invalid phone number format"
  const IssueFailedMessage := "Failed to generate OTP"

  predicate HasRequiredFields(b: LoginBody) {
    Truthy(b.countryCode) && Truthy(b.phoneNo) && Truthy(b.eventCode)
  }

  /** The checks before any lookup: the three fields are present, and the phone number is digits only. */
  predicate WellFormed(b: LoginBody) {
    HasRequiredFields(b) && Text.AllDigits(b.phoneNo.value)
  }

  /** The event the code names, gated on enabled and active. */
  function LoginGate(events: seq<Event>, b: LoginBody): AppEvents.Gate
    requires HasRequiredFields(b)
  {
    AppEvents.GateEvent(AppEvents.ResolveByCode(events, b.eventCode.value), true)
  }

  /** The row a login for the internal event id `eventId` issues. */
  function IssuedRow(b: LoginBody, eventId: string, code: string, now: int, newId: string): (row: AppOtp)
    requires HasRequiredFields(b)
    ensures OtpKey(row) == (eventId, b.countryCode.value, b.phoneNo.value)
  {
    AppOtps.IssuedOtp(newId, eventId, b.countryCode.value, b.phoneNo.value, b.username, code, now)
  }

  /**
   * POST. `num / den` is the random fraction the code is drawn from, `now` the
   * clock in milliseconds, `newId` the id the store gives the new row and
   * `storeError` whether the insert fails. The delete runs before the insert,
   * so a failed insert leaves the phone number with no code at all.
   */
  method Post(db: Db, body: Option<LoginBody>, now: int, num: nat, den: nat, newId: string, storeError: bool)
    returns (r: Response<LoginData>)
    requires db.Valid()
    requires num < den
    modifies db`otps
    ensures db.Valid()
    ensures body.None? ==> r == Failure(500, InternalError)
    ensures body.Some? && !HasRequiredFields(body.value) ==> r == Failure(400, MissingFieldsMessage)
    ensures body.Some? && HasRequiredFields(body.value) && !WellFormed(body.value) ==> r == Failure(400, InvalidPhoneMessage)
    ensures body.Some? && WellFormed(body.value) && !LoginGate(db.events, body.value).Open? ==>
      r == AppEvents.GateFailure(LoginGate(db.events, body.value), AppEvents.InvalidEventCodeMessage)
    ensures !(body.Some? && WellFormed(body.value) && LoginGate(db.events, body.value).Open?) ==> db.otps == old(db.otps)
    ensures body.Some? && WellFormed(body.value) && LoginGate(db.events, body.value).Open? ==>
      var row := IssuedRow(body.value, LoginGate(db.events, body.value).event.id, AppOtps.GenerateOtp(num, den), now, newId);
      var cleared := RemoveKey(old(db.otps), OtpKey, OtpKey(row));
      && (r.Success? <==> !storeError && !HasKey(cleared, OtpPk, newId))
      && (r.Success? ==> r == Success(200, LoginData(row.otp, AppOtps.OtpLifetimeSeconds)) && db.otps == AppOtps.Supersede(old(db.otps), row))
      && (r.Failure? ==> r == Failure(500, IssueFailedMessage) && db.otps == cleared)
  {
    if body.None? {
      return Failure(500, InternalError);
    }
    var b := body.value;
    if !HasRequiredFields(b) {
      return Failure(400, MissingFieldsMessage);
    }
    if !Text.AllDigits(b.phoneNo.value) {
      return Failure(400, InvalidPhoneMessage);
    }
    var gate := LoginGate(db.events, b);
    if !gate.Open? {
      return AppEvents.GateFailure(gate, AppEvents.InvalidEventCodeMessage);
    }
    var code := AppOtps.GenerateOtp(num, den);
    var row := IssuedRow(b, gate.event.id, code, now, newId);
    var cleared := RemoveKey(db.otps, OtpKey, OtpKey(row));
    UniqueRemoveKey(db.otps, OtpKey, OtpKey(row), OtpKey);
    UniqueRemoveKey(db.otps, OtpKey, OtpKey(row), OtpPk);
    db.otps := cleared;
    if storeError || HasKey(cleared, OtpPk, newId) {
      return Failure(500, IssueFailedMessage);
    }
    AppOtps.SupersedeKeepsKeysUnique(old(db.otps), row);
    db.otps := cleared + [row];
    r := Success(200, LoginData(code, AppOtps.OtpLifetimeSeconds));
  }
}
