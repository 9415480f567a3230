/**
 * The store the handlers talk to, held in memory: one sequence of rows per table.
 * A handler that writes changes only the tables it names in its frame.
 */
module Database {
  import opened Types
  import opened Seqs

  class Db {
    var admins: seq<AdminRow>
    var adminEvents: seq<AdminEvent>
    var events: seq<Event>
    var categories: seq<EventCategory>
    var venues: seq<Venue>
    var facilities: seq<VenueFacility>
    var contacts: seq<VenueContact>
    var photos: seq<VenuePhoto>
    var intros: seq<EventIntro>
    var explores: seq<PreEventExplore>
    var happenings: seq<PreEventHappening>
    var sessions: seq<EventSession>
    var days: seq<EventDay>
    var duringContent: seq<DuringEventContent>
    var postContent: seq<PostEventContent>
    var otps: seq<AppOtp>
    var users: seq<AppUser>
    var devices: seq<AppDevice>
    var profileSettings: seq<ProfileSettings>

    /**
     * The constraints the database enforces: every primary key is unique, admin
     * emails are unique, and the mobile tables keep one row per natural key.
     */
    predicate Valid()
      reads this
    {
      && Unique(admins, AdminPk) && Unique(admins, AdminEmail)
      && Unique(events, EventPk)
      && Unique(categories, CategoryPk)
      && Unique(venues, VenuePk)
      && Unique(facilities, FacilityPk)
      && Unique(contacts, ContactPk)
      && Unique(photos, PhotoPk)
      && Unique(intros, IntroPk)
      && Unique(explores, ExplorePk)
      && Unique(happenings, HappeningPk)
      && Unique(sessions, SessionPk)
      && Unique(days, DayPk)
      && Unique(duringContent, DuringPk)
      && Unique(postContent, PostPk)
      && Unique(otps, OtpPk) && Unique(otps, OtpKey)
      && Unique(users, UserPk) && Unique(users, UserKey)
      && Unique(devices, DevicePk) && Unique(devices, DeviceKey)
    }

    /** A store with every table empty. */
    constructor ()
      ensures Valid()
      ensures admins == [] && adminEvents == [] && events == [] && categories == []
      ensures venues == [] && facilities == [] && contacts == [] && photos == []
      ensures intros == [] && explores == [] && happenings == [] && sessions == [] && days == []
      ensures duringContent == [] && postContent == []
      ensures otps == [] && users == [] && devices == [] && profileSettings == []
    {
      admins, adminEvents, events, categories := [], [], [], [];
      venues, facilities, contacts, photos := [], [], [], [];
      intros, explores, happenings, sessions, days := [], [], [], [], [];
      duringContent, postContent := [], [];
      otps, users, devices, profileSettings := [], [], [], [];
    }
  }
}
