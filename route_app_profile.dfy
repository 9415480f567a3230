/**
 * The mobile profile endpoints: GET (app/api/app/profile/route.ts) replies
 * with the app-wide profile settings, or fixed defaults when there are none;
 * PUT (app/api/app/profile/edit/route.ts) writes the fields the body carries
 * to the user's row and replies with the row as it then is.
 */
module AppProfileRoute {
  import opened Wrappers
  import opened Types
  import opened Seqs
  import opened Database
  import opened Http
  import Text

  const MissingUserParamMessage := "Missing required parameter: user_id is required"
  const MissingUserFieldMessage := "Missing required field: user_id is required"
  const InvalidUserMessage := "Invalid user_id format"
  const UnknownUserMessage := "User not found"
  const UpdateFailedMessage := "Failed to update profile"

  const DefaultVersion := "1.0.0"
  const NoSettingsDetail := "Initial version"
  const NoDetail := "No details available"

  /** The user checks both endpoints start with; `missingMessage` differs between them. */
  function CheckUser<T>(users: seq<AppUser>, userId: Option<string>, missingMessage: string): (r: Option<Response<T>>)
    ensures r.None? <==> Truthy(userId) && Text.IsUuid(userId.value) && HasKey(users, UserPk, userId.value)
    ensures !Truthy(userId) ==> r == Some(Failure(400, missingMessage))
    ensures Truthy(userId) && !Text.IsUuid(userId.value) ==> r == Some(Failure(400, InvalidUserMessage))
    ensures Truthy(userId) && Text.IsUuid(userId.value) && !HasKey(users, UserPk, userId.value) ==>
      r == Some(Failure(404, UnknownUserMessage))
  {
    if !Truthy(userId) then Some(Failure(400, missingMessage))
    else if !Text.IsUuid(userId.value) then Some(Failure(400, InvalidUserMessage))
    else if !HasKey(users, UserPk, userId.value) then Some(Failure(404, UnknownUserMessage))
    else None
  }

  datatype ProfileData = ProfileData(
    userImageUrl: Option<string>, aboutUsUrl: Option<string>, privacyPolicyUrl: Option<string>,
    termsAndConditionUrl: Option<string>, version: string, detail: string, instaId: Option<string>)

  /** The settings as replied: the first row, with "" shown as null and the version and detail defaulted. */
  function SettingsReply(settings: seq<ProfileSettings>): (d: ProfileData)
    ensures d.version != "" && d.detail != ""
    ensures |settings| == 0 ==> d == ProfileData(None, None, None, None, DefaultVersion, NoSettingsDetail, None)
    ensures |settings| > 0 ==>
      && d.userImageUrl == OrNull(settings[0].userImageUrl) && d.aboutUsUrl == OrNull(settings[0].aboutUsUrl)
      && d.privacyPolicyUrl == OrNull(settings[0].privacyPolicyUrl)
      && d.termsAndConditionUrl == OrNull(settings[0].termsAndConditionUrl)
      && d.instaId == OrNull(settings[0].instaId)
      && (Truthy(settings[0].appVersion) ==> d.version == settings[0].appVersion.value)
      && (!Truthy(settings[0].appVersion) ==> d.version == DefaultVersion)
      && (Truthy(settings[0].appVersionDetail) ==> d.detail == settings[0].appVersionDetail.value)
      && (!Truthy(settings[0].appVersionDetail) ==> d.detail == NoDetail)
  {
    if |settings| == 0 then ProfileData(None, None, None, None, DefaultVersion, NoSettingsDetail, None)
    else
      var s := settings[0];
      ProfileData(
        OrNull(s.userImageUrl), OrNull(s.aboutUsUrl), OrNull(s.privacyPolicyUrl), OrNull(s.termsAndConditionUrl),
        Or(s.appVersion, DefaultVersion), Or(s.appVersionDetail, NoDetail), OrNull(s.instaId))
  }

  /** GET: the user checks, then the settings; the reply does not depend on which user asked. */
  function Get(users: seq<AppUser>, settings: seq<ProfileSettings>, userId: Option<string>): (r: Response<ProfileData>)
    ensures r.Failure? <==> CheckUser<ProfileData>(users, userId, MissingUserParamMessage).Some?
    ensures r.Failure? ==> r == CheckUser<ProfileData>(users, userId, MissingUserParamMessage).value
    ensures r.Success? ==> r == Success(200, SettingsReply(settings))
  {
    match CheckUser(users, userId, MissingUserParamMessage)
    case Some(failure) => failure
    case None => Success(200, SettingsReply(settings))
  }

  /** Every known user sees the same profile settings. */
  lemma GetIsUserIndependent(users: seq<AppUser>, settings: seq<ProfileSettings>, a: string, b: string)
    requires Text.IsUuid(a) && HasKey(users, UserPk, a)
    requires Text.IsUuid(b) && HasKey(users, UserPk, b)
    ensures Get(users, settings, Some(a)) == Get(users, settings, Some(b))
  {
  }

  /** The PUT body: each profile field may be left out, be null, or carry a value. */
  datatype EditBody = EditBody(
    userId: Option<string>, profileImageUrl: Field<string>, instaId: Field<string>, username: Field<string>)

  /** The body names no field to write. */
  predicate EmptyPatch(b: EditBody) {
    b.username.Undefined? && b.profileImageUrl.Undefined? && b.instaId.Undefined?
  }

  /** The row with the fields the body carries written; a null clears a field, a left-out field stays. */
  function ApplyEdit(u: AppUser, b: EditBody): (r: AppUser)
    ensures r.id == u.id && UserKey(r) == UserKey(u)
    ensures b.username.Undefined? ==> r.username == u.username
    ensures b.profileImageUrl.Undefined? ==> r.profileImageUrl == u.profileImageUrl
    ensures b.instaId.Undefined? ==> r.instaId == u.instaId
    ensures b.username.Present? ==> r.username == Some(b.username.value)
    ensures b.profileImageUrl.Present? ==> r.profileImageUrl == Some(b.profileImageUrl.value)
    ensures b.instaId.Present? ==> r.instaId == Some(b.instaId.value)
    ensures b.username.Null? ==> r.username.None?
    ensures b.profileImageUrl.Null? ==> r.profileImageUrl.None?
    ensures b.instaId.Null? ==> r.instaId.None?
  {
    u.(username := ApplyField(b.username, u.username),
       profileImageUrl := ApplyField(b.profileImageUrl, u.profileImageUrl),
       instaId := ApplyField(b.instaId, u.instaId))
  }

  /** An empty patch writes nothing. */
  lemma EmptyPatchIsIdentity(u: AppUser, b: EditBody)
    requires EmptyPatch(b)
    ensures ApplyEdit(u, b) == u
  {
  }

  function Editor(b: EditBody): AppUser -> AppUser {
    (u: AppUser) => ApplyEdit(u, b)
  }

  datatype EditData = EditData(profileImageUrl: Option<string>, instaId: Option<string>, username: Option<string>)

  /** A row as replied, "" shown as null. */
  function EditReply(u: AppUser): EditData {
    EditData(OrNull(u.profileImageUrl), OrNull(u.instaId), OrNull(u.username))
  }

  /**
   * PUT. `body` is None when the body is not JSON; `writeError` says whether
   * the update fails. An empty patch is answered from the stored row without
   * a write.
   */
  method Put(db: Db, body: Option<EditBody>, writeError: bool) returns (r: Response<EditData>)
    requires db.Valid()
    modifies db`users
    ensures db.Valid()
    ensures body.None? ==> r == Failure(500, InternalError) && db.users == old(db.users)
    ensures body.Some? && CheckUser<EditData>(old(db.users), body.value.userId, MissingUserFieldMessage).Some? ==>
      && r == CheckUser<EditData>(old(db.users), body.value.userId, MissingUserFieldMessage).value
      && db.users == old(db.users)
    ensures body.Some? && CheckUser<EditData>(old(db.users), body.value.userId, MissingUserFieldMessage).None? ==>
      var id := body.value.userId.value;
      var current := FindByKey(old(db.users), UserPk, id).value;
      && (EmptyPatch(body.value) ==> r == Success(200, EditReply(current)) && db.users == old(db.users))
      && (!EmptyPatch(body.value) && writeError ==> r == Failure(500, UpdateFailedMessage) && db.users == old(db.users))
      && (!EmptyPatch(body.value) && !writeError ==>
            && db.users == UpdateKey(old(db.users), UserPk, id, Editor(body.value))
            && r == Success(200, EditReply(ApplyEdit(current, body.value)))
            && FindByKey(db.users, UserPk, id) == Some(ApplyEdit(current, body.value)))
  {
    if body.None? {
      return Failure(500, InternalError);
    }
    var b := body.value;
    var failure := CheckUser<EditData>(db.users, b.userId, MissingUserFieldMessage);
    if failure.Some? {
      return failure.value;
    }
    var id := b.userId.value;
    var current := FindByKey(db.users, UserPk, id).value;
    if EmptyPatch(b) {
      return Success(200, EditReply(current));
    }
    if writeError {
      return Failure(500, UpdateFailedMessage);
    }
    var edit := Editor(b);
    UniqueUpdateKey(db.users, UserPk, id, edit, UserPk);
    UniqueUpdateKey(db.users, UserPk, id, edit, UserKey);
    FindByKeyAfterUpdate(db.users, UserPk, edit, current);
    db.users := UpdateKey(db.users, UserPk, id, edit);
    r := Success(200, EditReply(ApplyEdit(current, b)));
  }

  /** A PUT writes only the user it names: every other row is left as it was. */
  lemma {:induction false} EditKeepsOthers(users: seq<AppUser>, id: string, b: EditBody, other: AppUser)
    requires Unique(users, UserPk)
    requires other in users && other.id != id
    ensures FindByKey(UpdateKey(users, UserPk, id, Editor(b)), UserPk, other.id) == Some(other)
  {
    var r := UpdateKey(users, UserPk, id, Editor(b));
    var i :| 0 <= i < |users| && users[i] == other;
    assert r[i] == other;
    UniqueUpdateKey(users, UserPk, id, Editor(b), UserPk);
    FindByKeyUnique(r, UserPk, other);
  }
}
