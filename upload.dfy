/**
 * Image files (lib/upload.ts): validation of an uploaded image, its stored
 * name, the directory it is written to and the public URL returned; and the
 * guard and error rule of deleting one. The file system itself is not
 * modelled: an upload yields the directory and name it writes, and a delete
 * takes the outcome of the unlink as an input.
 */
module Upload {
  import opened Wrappers
  import Text

  /** The image folders; a category names a folder under the images root. */
  datatype ImageCategory =
    | VenuesBg | VenuesFacilities | VenuesContacts | VenuesPhotos
    | EventsSplash | EventsBanners | EventsIntro | EventsExplore | EventsHappening | EventsSessions | EventsDays
    | Profiles

  function CategoryPath(c: ImageCategory): string {
    match c
    case VenuesBg => "venues/bg"
    case VenuesFacilities => "venues/facilities"
    case VenuesContacts => "venues/contacts"
    case VenuesPhotos => "venues/photos"
    case EventsSplash => "events/splash"
    case EventsBanners => "events/banners"
    case EventsIntro => "events/intro"
    case EventsExplore => "events/explore"
    case EventsHappening => "events/happening"
    case EventsSessions => "events/sessions"
    case EventsDays => "events/days"
    case Profiles => "profiles"
  }

  /** The category whose folder is s, if s names one. */
  function ParseCategory(s: string): (r: Option<ImageCategory>)
    ensures r.Some? ==> CategoryPath(r.value) == s
    ensures forall c :: CategoryPath(c) == s ==> r == Some(c)
  {
    if s == "venues/bg" then Some(VenuesBg)
    else if s == "venues/facilities" then Some(VenuesFacilities)
    else if s == "venues/contacts" then Some(VenuesContacts)
    else if s == "venues/photos" then Some(VenuesPhotos)
    else if s == "events/splash" then Some(EventsSplash)
    else if s == "events/banners" then Some(EventsBanners)
    else if s == "events/intro" then Some(EventsIntro)
    else if s == "events/explore" then Some(EventsExplore)
    else if s == "events/happening" then Some(EventsHappening)
    else if s == "events/sessions" then Some(EventsSessions)
    else if s == "events/days" then Some(EventsDays)
    else if s == "profiles" then Some(Profiles)
    else None
  }

  const NotAnImageMessage := "File must be an image"
  const InvalidFormatMessage := "Invalid image format. Allowed: jpg, jpeg, png, webp, gif"
  const ValidExtensions: seq<string> := ["jpg", "jpeg", "png", "webp", "gif"]

  /** The text after the last '.' of a split, or the whole name when it has no dot. */
  function LastPart(name: string): (last: string)
    ensures '.' !in last
  {
    var parts := Text.Split(name, '.');
    parts[|parts| - 1]
  }

  /** `name.split('.').pop() || 'jpg'`. */
  function Extension(name: string): (ext: string)
    ensures ext != "" && '.' !in ext
    ensures LastPart(name) != "" ==> ext == LastPart(name)
  {
    if LastPart(name) == "" then "jpg" else LastPart(name)
  }

  /** Whatever precedes the last dot, the text after it is the last part. */
  lemma {:induction false} LastPartAfterDot(base: string, tail: string)
    requires '.' !in tail
    ensures LastPart(base + "." + tail) == tail
  {
    var parts := Text.Split(base, '.') + [tail];
    Text.JoinSplit(base, '.');
    Text.JoinAppend(Text.Split(base, '.'), [tail], '.');
    assert Text.Join(parts, '.') == base + "." + tail;
    Text.SplitJoin(parts, '.');
  }

  /** A name without a dot is its own extension; a name ending in a dot gets 'jpg'. */
  lemma ExtensionEdgeCases(name: string, base: string)
    requires '.' !in name && name != ""
    ensures Extension(name) == name
    ensures Extension(base + ".") == "jpg"
  {
    Text.SplitWithoutSeparator(name, '.');
    LastPartAfterDot(base, "");
    assert base + "." + "" == base + ".";
  }

  /** The extension check is case-insensitive. */
  predicate AllowedExtension(ext: string) {
    Text.ToLower(ext) in ValidExtensions
  }

  /** `<name>-<ts>.<ext>` for a non-empty custom name, else `<ts>-<six random base-36 digits>.<ext>`. */
  function FinalFilename(filename: Option<string>, now: nat, rand: string, ext: string): (r: string)
    ensures Truthy(filename) ==> filename.value + "-" + Text.NatToString(now) + "." <= r
    ensures !Truthy(filename) ==> Text.NatToString(now) + "-" <= r
    ensures |r| > |ext| && r[|r| - |ext| - 1..] == "." + ext
  {
    if Truthy(filename) then filename.value + "-" + Text.NatToString(now) + "." + ext
    else Text.NatToString(now) + "-" + Text.Substring(rand, 2, 8) + "." + ext
  }

  /** The stored name keeps the validated extension, so it would pass the same check again. */
  lemma FinalFilenameExtension(filename: Option<string>, now: nat, rand: string, ext: string)
    requires ext != "" && '.' !in ext
    ensures Extension(FinalFilename(filename, now, rand, ext)) == ext
  {
    if Truthy(filename) {
      LastPartAfterDot(filename.value + "-" + Text.NatToString(now), ext);
    } else {
      LastPartAfterDot(Text.NatToString(now) + "-" + Text.Substring(rand, 2, 8), ext);
    }
  }

  /** The directory written to, as path segments under the working directory. */
  function UploadDirectory(c: ImageCategory): seq<string> {
    ["public", "assets", "images"] + Text.Split(CategoryPath(c), '/')
  }

  /** A file path under the working directory, its segments joined by '/'. */
  function FilePath(directory: seq<string>, fileName: string): string {
    Text.Join(directory + [fileName], '/')
  }

  function PublicUrl(c: ImageCategory, fileName: string): string {
    "/assets/images/" + CategoryPath(c) + "/" + fileName
  }

  /** The images root, joined. */
  lemma ImagesRootJoined()
    ensures Text.Join(["public", "assets", "images"], '/') == "public/assets/images"
  {
    var root := ["public", "assets", "images"];
    assert root[1..] == ["assets", "images"] && root[1..][1..] == ["images"];
  }

  /** Regrouping the joined path as the public folder followed by the URL. */
  lemma RegroupUnderPublic(folder: string, fileName: string)
    ensures "public/assets/images" + "/" + folder + "/" + fileName == "public" + ("/assets/images/" + folder + "/" + fileName)
  {
    var lhs := "public/assets/images" + "/" + folder + "/" + fileName;
    var rhs := "public" + ("/assets/images/" + folder + "/" + fileName);
    assert |lhs| == |rhs|;
    forall i | 0 <= i < |lhs| ensures lhs[i] == rhs[i] {
      if i < 21 {
        assert lhs[i] == "public/assets/images/"[i];
        assert rhs[i] == "public/assets/images/"[i];
      } else if i < 21 + |folder| {
        assert lhs[i] == folder[i - 21] == rhs[i];
      } else if i == 21 + |folder| {
        assert lhs[i] == '/' == rhs[i];
      } else {
        assert lhs[i] == fileName[i - 22 - |folder|] == rhs[i];
      }
    }
  }

  /** Under the images root, the segments of a folder and a file name join to the root, the folder and the name. */
  lemma {:induction false} JoinUnderImagesRoot(folder: string, fileName: string)
    ensures Text.Join(["public", "assets", "images"] + Text.Split(folder, '/') + [fileName], '/')
         == "public" + ("/assets/images/" + folder + "/" + fileName)
  {
    var root := ["public", "assets", "images"];
    var parts := Text.Split(folder, '/');
    ImagesRootJoined();
    Text.JoinSplit(folder, '/');
    Text.JoinAppend(root, parts, '/');
    Text.JoinAppend(root + parts, [fileName], '/');
    assert Text.Join(root + parts, '/') == "public/assets/images" + "/" + folder;
    assert Text.Join(root + parts + [fileName], '/') == "public/assets/images" + "/" + folder + "/" + fileName;
    RegroupUnderPublic(folder, fileName);
  }

  /** The returned URL names the written file, relative to the public folder. */
  lemma UrlNamesWrittenFile(c: ImageCategory, fileName: string)
    ensures FilePath(UploadDirectory(c), fileName) == "public" + PublicUrl(c, fileName)
  {
    JoinUnderImagesRoot(CategoryPath(c), fileName);
  }

  /** Where an upload went: the directory, the stored file name and the public URL. */
  datatype StoredImage = StoredImage(directory: seq<string>, fileName: string, url: string)

  /**
   * Validates and places an upload. `mimeType` and `originalName` describe the
   * file, `filename` is the optional custom name, `now` the clock in
   * milliseconds and `rand` a random fraction's base-36 rendering.
   */
  function UploadImage(
    mimeType: string, originalName: string, category: ImageCategory, filename: Option<string>, now: nat, rand: string)
    : (r: Result<StoredImage>)
    ensures r.Ok? <==> "image/" <= mimeType && AllowedExtension(Extension(originalName))
    ensures !("image/" <= mimeType) ==> r == Err(NotAnImageMessage)
    ensures "image/" <= mimeType && !AllowedExtension(Extension(originalName)) ==> r == Err(InvalidFormatMessage)
    ensures r.Ok? ==> r.value.directory == UploadDirectory(category)
    ensures r.Ok? ==> r.value.url == PublicUrl(category, r.value.fileName)
    ensures r.Ok? ==> FilePath(r.value.directory, r.value.fileName) == "public" + r.value.url
    ensures r.Ok? ==> Extension(r.value.fileName) == Extension(originalName)
    ensures r.Ok? && Truthy(filename) ==>
      r.value.fileName == filename.value + "-" + Text.NatToString(now) + "." + Extension(originalName)
    ensures r.Ok? && !Truthy(filename) ==>
      r.value.fileName == Text.NatToString(now) + "-" + Text.Substring(rand, 2, 8) + "." + Extension(originalName)
  {
    if !("image/" <= mimeType) then Err(NotAnImageMessage)
    else
      var ext := Extension(originalName);
      if !AllowedExtension(ext) then Err(InvalidFormatMessage)
      else
        var name := FinalFilename(filename, now, rand, ext);
        FinalFilenameExtension(filename, now, rand, ext);
        UrlNamesWrittenFile(category, name);
        Ok(StoredImage(UploadDirectory(category), name, PublicUrl(category, name)))
  }

  /** The file a delete removes: `public/` and the path without its leading '/'; none outside the images root. */
  function DeleteTarget(imagePath: string): (r: Option<string>)
    ensures r.Some? <==> "/assets/images/" <= imagePath
    ensures r.Some? ==> r.value == "public/" + imagePath[1..]
  {
    if "/assets/images/" <= imagePath then Some("public/" + imagePath[1..]) else None
  }

  /**
   * The outcome of a delete: `unlinkError` is the error code the unlink
   * reported, if any. A path outside the images root is left alone, a missing
   * file counts as deleted, and any other failure is passed on.
   */
  function DeleteImage(imagePath: string, unlinkError: Option<string>): (r: Result<()>)
    ensures DeleteTarget(imagePath).None? ==> r.Ok?
    ensures r.Err? <==> DeleteTarget(imagePath).Some? && unlinkError.Some? && unlinkError.value != "ENOENT"
    ensures r.Err? ==> r.error == unlinkError.value
  {
    match DeleteTarget(imagePath)
    case None => Ok(())
    case Some(_) =>
      if unlinkError.Some? && unlinkError.value != "ENOENT" then Err(unlinkError.value) else Ok(())
  }

  /** The delete target of a public image URL is the file that URL names under the public folder. */
  lemma {:induction false} DeleteTargetOfPublicUrl(c: ImageCategory, fileName: string)
    ensures DeleteTarget(PublicUrl(c, fileName)) == Some(FilePath(UploadDirectory(c), fileName))
  {
    var url := PublicUrl(c, fileName);
    assert url == "/assets/images/" + (CategoryPath(c) + "/" + fileName);
    assert "/assets/images/" <= url;
    assert "public" + url == "public/" + url[1..] by {
      assert url == "/" + url[1..];
    }
    UrlNamesWrittenFile(c, fileName);
  }

  /** Deleting an uploaded image's URL removes exactly the file the upload wrote. */
  lemma DeleteRemovesUploadedFile(
    mimeType: string, originalName: string, category: ImageCategory, filename: Option<string>, now: nat, rand: string)
    requires UploadImage(mimeType, originalName, category, filename, now, rand).Ok?
    ensures
      var stored := UploadImage(mimeType, originalName, category, filename, now, rand).value;
      DeleteTarget(stored.url) == Some(FilePath(stored.directory, stored.fileName))
  {
    var stored := UploadImage(mimeType, originalName, category, filename, now, rand).value;
    DeleteTargetOfPublicUrl(category, stored.fileName);
  }
}
