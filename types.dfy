/**
 * The records of the store: the shapes of lib/types.ts, and the mobile tables
 * (app_otps, app_users, app_devices, app_profile_settings) that the app routes use.
 * Timestamps the database fills in by default are left out, except the two the
 * handlers read: an event's creation time and a device's update time.
 */
module Types {
  import opened Wrappers

  /** The closed set of admin roles. */
  datatype AdminRole = SuperAdmin | EventAdmin

  /** An event's lifecycle phase; whether it is enabled is a separate flag. */
  datatype EventStatus = Active | Inactive | Completed

  /** A row of `admins` as stored, with its password hash. */
  datatype AdminRow = AdminRow(id: string, email: string, passwordHash: string, name: string, role: AdminRole)

  /** An admin as the library hands it out: the row without its password hash. */
  datatype Admin = Admin(id: string, email: string, name: string, role: AdminRole)

  datatype EventCategory = EventCategory(id: string, name: string, description: Option<string>)

  datatype Venue = Venue(
    id: string, name: string, address: string,
    description: Option<string>, bgImageUrl: Option<string>, city: Option<string>)

  datatype VenueFacility = VenueFacility(id: string, venueId: string, name: string, imageUrl: Option<string>)

  datatype VenueContact = VenueContact(
    id: string, venueId: string, name: string,
    imageUrl: Option<string>, phoneNumber: Option<string>, email: Option<string>)

  datatype VenuePhoto = VenuePhoto(id: string, venueId: string, imageUrl: string, altText: Option<string>, sortOrder: int)

  /** The optional columns of an event that only link or decorate it; a missing key is a null column. */
  datatype EventAttr =
    | CategoryId | VenueId
    | SplashImageUrl | PrimaryColor | SecondaryColor
    | BackgroundBannerImageUrl | BannerTextColor | WelcomeText
    | DuringBackgroundBannerImageUrl | DuringBannerTextColor | DuringWelcomeText
    | PostBackgroundBannerImageUrl | PostBannerTextColor | PostWelcomeText

  /** An event: internal `id`, public `eventId` and `loginCode` are mandatory. */
  datatype Event = Event(
    id: string, eventId: string, name: string, description: Option<string>, loginCode: string,
    createdBy: Option<string>, startDate: Option<string>, endDate: Option<string>,
    status: EventStatus, isEnabled: bool, createdAt: int,
    attrs: map<EventAttr, string>)

  /** A row of `admin_events`: one admin assigned to one event (by the event's internal id). */
  datatype AdminEvent = AdminEvent(adminId: string, eventId: string)

  datatype EventIntro = EventIntro(
    id: string, eventId: string, title: string, description: Option<string>, imageUrl: string, sortOrder: int)

  datatype PreEventExplore = PreEventExplore(id: string, eventId: string, name: string, imageUrl: string, sortOrder: int)

  datatype PreEventHappening = PreEventHappening(
    id: string, eventId: string, imageUrl: string, altText: Option<string>, sortOrder: int)

  datatype EventSession = EventSession(
    id: string, eventId: string, name: string, description: Option<string>, imageUrl: Option<string>,
    venueName: Option<string>, startTime: Option<string>, endTime: Option<string>, sortOrder: int)

  datatype EventDay = EventDay(
    id: string, eventId: string, date: string, imageUrl: Option<string>, description: Option<string>, sortOrder: int)

  datatype DuringEventContent = DuringEventContent(
    id: string, eventId: string, contentType: string, title: Option<string>, content: Option<string>,
    mediaUrl: Option<string>, isActive: bool, sortOrder: int)

  datatype PostEventContent = PostEventContent(
    id: string, eventId: string, contentType: string, title: Option<string>, content: Option<string>,
    mediaUrl: Option<string>, sortOrder: int)

  /** A one-time code issued to a phone number for one event; `expiresAt` in milliseconds. */
  datatype AppOtp = AppOtp(
    id: string, eventId: string, countryCode: string, phoneNumber: string, username: Option<string>,
    otp: string, expiresAt: int, isVerified: bool)

  /** A mobile user, scoped to one event. */
  datatype AppUser = AppUser(
    id: string, eventId: string, countryCode: string, phoneNumber: string,
    username: Option<string>, profileImageUrl: Option<string>, instaId: Option<string>)

  datatype DeviceType = Android | Ios | Web

  datatype AppDevice = AppDevice(
    id: string, userId: string, eventId: string, deviceType: DeviceType, fcmToken: string, platform: string,
    appVersion: Option<string>, deviceVersion: Option<string>, updatedAt: Option<int>)

  datatype ProfileSettings = ProfileSettings(
    userImageUrl: Option<string>, aboutUsUrl: Option<string>, privacyPolicyUrl: Option<string>,
    termsAndConditionUrl: Option<string>, appVersion: Option<string>, appVersionDetail: Option<string>,
    instaId: Option<string>)

  // Primary keys ("Pk") and natural keys of the tables.

  function AdminPk(a: AdminRow): string { a.id }
  function AdminEmail(a: AdminRow): string { a.email }
  function EventPk(e: Event): string { e.id }
  function CategoryPk(c: EventCategory): string { c.id }
  function VenuePk(v: Venue): string { v.id }
  function FacilityPk(f: VenueFacility): string { f.id }
  function ContactPk(c: VenueContact): string { c.id }
  function PhotoPk(p: VenuePhoto): string { p.id }
  function IntroPk(i: EventIntro): string { i.id }
  function ExplorePk(e: PreEventExplore): string { e.id }
  function HappeningPk(h: PreEventHappening): string { h.id }
  function SessionPk(s: EventSession): string { s.id }
  function DayPk(d: EventDay): string { d.id }
  function DuringPk(d: DuringEventContent): string { d.id }
  function PostPk(p: PostEventContent): string { p.id }
  function OtpPk(o: AppOtp): string { o.id }
  function UserPk(u: AppUser): string { u.id }
  function DevicePk(d: AppDevice): string { d.id }

  /** An assignment is identified by the admin and the event it links. */
  function AssignmentKey(a: AdminEvent): (string, string) { (a.adminId, a.eventId) }

  /** The (event, country code, phone number) an OTP was issued for. */
  function OtpKey(o: AppOtp): (string, string, string) { (o.eventId, o.countryCode, o.phoneNumber) }

  /** The (event, country code, phone number) a mobile user signed in with. */
  function UserKey(u: AppUser): (string, string, string) { (u.eventId, u.countryCode, u.phoneNumber) }

  /** The (user, event, push token) a device is registered under. */
  function DeviceKey(d: AppDevice): (string, string, string) { (d.userId, d.eventId, d.fcmToken) }
}
