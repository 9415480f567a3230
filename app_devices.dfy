/**
 * Push-notification devices of mobile users: the device type read from the
 * platform text, and the two refresh rules for a device that is already
 * registered under (user, event, push token).
 */
module AppDevices {
  import opened Wrappers
  import opened Types
  import Text

  /** 'android' if the lower-cased platform mentions android, else 'ios' if it mentions ios, iphone or ipad, else 'web'. */
  function DeviceTypeOf(platform: string): (t: DeviceType)
    ensures t == Android <==> Text.Contains(Text.ToLower(platform), "android")
    ensures t == Ios <==>
      && !Text.Contains(Text.ToLower(platform), "android")
      && (Text.Contains(Text.ToLower(platform), "ios") || Text.Contains(Text.ToLower(platform), "iphone")
          || Text.Contains(Text.ToLower(platform), "ipad"))
  {
    var lower := Text.ToLower(platform);
    if Text.Contains(lower, "android") then Android
    else if Text.Contains(lower, "ios") || Text.Contains(lower, "iphone") || Text.Contains(lower, "ipad") then Ios
    else Web
  }

  /** The device type does not depend on letter case. */
  lemma DeviceTypeIgnoresCase(platform: string)
    ensures DeviceTypeOf(Text.ToLower(platform)) == DeviceTypeOf(platform)
  {
    Text.ToLowerIdempotent(platform);
  }

  /** The row a new registration inserts; the database fills in the update time. */
  function NewDevice(
    id: string, userId: string, eventId: string, token: string, platform: string,
    appVersion: Option<string>, deviceVersion: Option<string>)
    : (d: AppDevice)
    ensures DeviceKey(d) == (userId, eventId, token) && d.id == id
    ensures d.deviceType == DeviceTypeOf(platform) && d.platform == platform
    ensures d.appVersion == OrNull(appVersion) && d.deviceVersion == OrNull(deviceVersion)
  {
    AppDevice(id, userId, eventId, DeviceTypeOf(platform), token, platform, OrNull(appVersion), OrNull(deviceVersion), None)
  }

  /**
   * The refresh at sign-in: platform and update time are written; each version
   * is replaced only by a non-empty new one; the type and the key stay.
   */
  function RefreshOnSignIn(d: AppDevice, platform: string, appVersion: Option<string>, deviceVersion: Option<string>, now: int)
    : (r: AppDevice)
    ensures r.id == d.id && DeviceKey(r) == DeviceKey(d) && r.deviceType == d.deviceType
    ensures r.platform == platform && r.updatedAt == Some(now)
    ensures r.appVersion == (if Truthy(appVersion) then appVersion else d.appVersion)
    ensures r.deviceVersion == (if Truthy(deviceVersion) then deviceVersion else d.deviceVersion)
  {
    d.(platform := platform,
       appVersion := if Truthy(appVersion) then appVersion else d.appVersion,
       deviceVersion := if Truthy(deviceVersion) then deviceVersion else d.deviceVersion,
       updatedAt := Some(now))
  }

  /** The refresh when the app opens: only the platform and the update time change. */
  function RefreshOnOpen(d: AppDevice, platform: string, now: int): (r: AppDevice)
    ensures r.id == d.id && DeviceKey(r) == DeviceKey(d) && r.deviceType == d.deviceType
    ensures r.appVersion == d.appVersion && r.deviceVersion == d.deviceVersion
    ensures r.platform == platform && r.updatedAt == Some(now)
  {
    d.(platform := platform, updatedAt := Some(now))
  }

  /** The sign-in refresh with no versions given is the open refresh. */
  lemma RefreshRulesAgreeWithoutVersions(d: AppDevice, platform: string, now: int)
    ensures RefreshOnSignIn(d, platform, None, None, now) == RefreshOnOpen(d, platform, now)
  {
  }

  function SignInRefresher(platform: string, appVersion: Option<string>, deviceVersion: Option<string>, now: int)
    : AppDevice -> AppDevice
  {
    (d: AppDevice) => RefreshOnSignIn(d, platform, appVersion, deviceVersion, now)
  }

  function OpenRefresher(platform: string, now: int): AppDevice -> AppDevice {
    (d: AppDevice) => RefreshOnOpen(d, platform, now)
  }
}
