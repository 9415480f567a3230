/**
 * The image upload endpoint (app/api/upload/image/route.ts): any signed-in
 * admin may upload into one of eleven folders. The folder for intro slides
 * is a known image category but not accepted here.
 */
module UploadImageRoute {
  import opened Wrappers
  import opened Types
  import opened Http
  import Upload

  /** The uploaded file as the form carries it. */
  datatype FileInfo = FileInfo(mimeType: string, name: string)

  datatype UploadForm = UploadForm(file: Option<FileInfo>, category: Option<string>, filename: Option<string>)

  const AcceptedCategories: seq<string> := [
    "venues/bg", "venues/facilities", "venues/contacts", "venues/photos",
    "events/splash", "events/banners", "events/explore", "events/happening",
    "events/sessions", "events/days", "profiles"]

  const InvalidCategoryMessage :=
    "Invalid category. Must be one of: venues/bg, venues/facilities, venues/contacts, venues/photos, "
    + "events/splash, events/banners, events/explore, events/happening, events/sessions, events/days, profiles"

  /** Every accepted folder is an image category. */
  lemma AcceptedAreCategories(c: string)
    requires c in AcceptedCategories
    ensures Upload.ParseCategory(c).Some?
  {
  }

  /**
   * POST. `now` and `rand` feed the stored name; `writeError` is the message
   * of a failing directory creation or file write, if one fails. A thrown
   * error answers 500 with its message, or a generic one when it has none.
   */
  function Post(admins: seq<AdminRow>, cookie: Option<string>, form: UploadForm, now: nat, rand: string, writeError: Option<string>)
    : (r: Response<string>)
    ensures !ResolveSession(admins, cookie).Authenticated? ==> r == SessionFailure(ResolveSession(admins, cookie))
    ensures ResolveSession(admins, cookie).Authenticated? && form.file.None? ==> r == Failure(400, "No file provided")
    ensures ResolveSession(admins, cookie).Authenticated? && form.file.Some? && !Truthy(form.category) ==>
      r == Failure(400, "Category is required")
    ensures (ResolveSession(admins, cookie).Authenticated? && form.file.Some? && Truthy(form.category)
             && form.category.value !in AcceptedCategories) ==> r == Failure(400, InvalidCategoryMessage)
    ensures r.Success? <==>
      && ResolveSession(admins, cookie).Authenticated? && form.file.Some? && Truthy(form.category)
      && form.category.value in AcceptedCategories && writeError.None?
      && Upload.UploadImage(form.file.value.mimeType, form.file.value.name,
           Upload.ParseCategory(form.category.value).value, OrNull(form.filename), now, rand).Ok?
    ensures r.Success? ==> r.status == 200 && r.data == Upload.UploadImage(form.file.value.mimeType, form.file.value.name,
      Upload.ParseCategory(form.category.value).value, OrNull(form.filename), now, rand).value.url
    ensures r.Failure? && r.status == 500 ==> r.error != ""
  {
    var s := ResolveSession(admins, cookie);
    if !s.Authenticated? then SessionFailure(s)
    else if form.file.None? then Failure(400, "No file provided")
    else if !Truthy(form.category) then Failure(400, "Category is required")
    else if form.category.value !in AcceptedCategories then Failure(400, InvalidCategoryMessage)
    else
      var file := form.file.value;
      var category := Upload.ParseCategory(form.category.value).value;
      match Upload.UploadImage(file.mimeType, file.name, category, OrNull(form.filename), now, rand)
      case Err(message) => Failure(500, if message != "" then message else "Failed to upload image")
      case Ok(stored) =>
        if writeError.Some? then Failure(500, Or(writeError, "Failed to upload image"))
        else Success(200, stored.url)
  }

  /** Intro slide images are refused, although the upload library knows their folder. */
  lemma IntroFolderRejected(admins: seq<AdminRow>, cookie: Option<string>, file: FileInfo, filename: Option<string>,
                            now: nat, rand: string, writeError: Option<string>)
    requires ResolveSession(admins, cookie).Authenticated?
    ensures Upload.ParseCategory("events/intro") == Some(Upload.EventsIntro)
    ensures Post(admins, cookie, UploadForm(Some(file), Some("events/intro"), filename), now, rand, writeError)
         == Failure(400, InvalidCategoryMessage)
  {
    assert Upload.CategoryPath(Upload.EventsIntro) == "events/intro";
  }
}
