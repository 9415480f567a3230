/** The image URL normaliser of the image component (components/ImageDisplay.tsx). */
module ImageDisplay {
  import opened Wrappers

  const PlaceholderImage := "/placeholder-image.png"
  const ImagesRoot := "/assets/images/"

  /** An absolute web address, served as is. */
  predicate IsExternal(src: string) {
    "http://" <= src || "https://" <= src
  }

  /**
   * The URL an image source is shown from. An empty source gives the fallback
   * (or the placeholder); external addresses and '/'-rooted paths are kept;
   * any other text is read as a path under the images root.
   */
  function GetImageUrl(src: string, fallback: Option<string>): (r: string)
    ensures src == "" ==> r == (if Truthy(fallback) then fallback.value else PlaceholderImage)
    ensures src != "" && (IsExternal(src) || "/" <= src) ==> r == src
    ensures src != "" && !IsExternal(src) && !("/" <= src) ==> r == ImagesRoot + src
  {
    if src == "" then Or(fallback, PlaceholderImage)
    else if IsExternal(src) then src
    else if ImagesRoot <= src then src
    else if !("/" <= src) then ImagesRoot + src
    else src
  }

  /** A non-empty source comes out as an external address or a '/'-rooted path. */
  lemma GetImageUrlRooted(src: string, fallback: Option<string>)
    requires src != ""
    ensures IsExternal(GetImageUrl(src, fallback)) || "/" <= GetImageUrl(src, fallback)
  {
  }

  /** Normalising twice is normalising once, whatever the fallbacks, for a non-empty source. */
  lemma {:induction false} GetImageUrlIdempotent(src: string, fallback: Option<string>, fallback2: Option<string>)
    requires src != ""
    ensures GetImageUrl(GetImageUrl(src, fallback), fallback2) == GetImageUrl(src, fallback)
  {
    var r := GetImageUrl(src, fallback);
    GetImageUrlRooted(src, fallback);
    assert r != "";
  }
}
