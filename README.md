# Glimpse admin panel — a Dafny model of its server side

Glimpse is an event platform. Its admin panel (a Next.js application over a
Supabase database) has two kinds of clients:

- admins, who sign in with email and password and are identified by an
  `admin_id` cookie. Super admins manage everything; event admins see only
  the events they are assigned to.
- the mobile app, whose users sign in to one event with a phone number and
  a four-digit one-time code (OTP), and then read the event's look and venue
  and edit their profile.

This project models the libraries under `lib/` (admins, events, event
content, venues, categories, image upload) and the API route handlers built
on them, together with the URL rule of the image component. The database is
a class, `Database.Db`, with one sequence field per table. `Db.Valid()`
states the key constraints:

- every primary key is unique;
- admin e-mails are unique;
- the natural keys of `app_otps` and `app_users` (event, country code, phone)
  are unique;
- the natural key of `app_devices` (user, event, push token) is unique.

Library calls that write become methods with field-granular `modifies`
clauses (`modifies db`otps`), so every table they do not name is provably
unchanged. Reads become functions.

Route handlers come in these shapes:

- a handler that only reads is a function from the tables and the request to
  a `Http.Response`, which is a failure (status, message) or a success
  (status, payload);
- a handler that writes is a method. Its contract gives each error reply in
  the order the handler checks for it, and states the new tables through
  the library calls it makes (admin, venue, category and event creation, OTP
  issuing, profile edits);
- the code-verification and app-info handlers also write. Each first runs a
  pure `Check` function for its validation and gates, and its method is
  stated in terms of `Check` and of pure functions for the tables after the
  writes (`UserStep`, `DeviceStep`, `Touched`);
- the venue-details handler only reads, but it is a method
  (`AppVenueDetailsRoute.Handle`), because the handler reassigns its two
  parameters step by step as it falls back from the query to the body and
  then to the headers. Its contract is the pure `RequestUser`,
  `RequestEvent` and `FetchVenueDetails`.

Everything outside the program is a parameter:

- the clock (`now`, in milliseconds) and `Math.random` (a fraction
  `num / den`, or a base-36 digit string);
- the ids the database assigns (`newId`);
- bcrypt (a `hash` or `verify` function value);
- whether a store call fails (`storeError`-style flags).

An insert fails when its flag is set or its key is already taken. JavaScript
truthiness (`x || d`, `!x`) and `??` are written out as `Truthy`, `Or`,
`OrNull` and `Coalesce`. A JSON field that may be left out, be `null` or
carry a value is `Field<T>`.

## Model

| member | source | states |
|---|---|---|
| Auth.NewAdminRow | lib/auth.ts:39-70 | the stored row keeps the password only as its hash, with the given id, email, name and role |
| Auth.LoginAdmin | lib/auth.ts:13-37 | no admin has that email ⇒ null; a result is that admin without its hash, and the password verified against the stored hash |
| Auth.LoginAdminExact | lib/auth.ts:13-37 | with unique emails, sign-in succeeds exactly when the password verifies against that admin's hash |
| Auth.LoginAfterCreate | lib/auth.ts:13-70 | an admin just created signs in with the password they were created with |
| Auth.GetAdminById | lib/auth.ts:72-90 | found iff the id is a key; the result is that admin without its hash |
| Auth.GetAllAdmins | lib/auth.ts:92-108 | every admin without its hash, in table order; [] when the read fails |
| Auth.CreateAdmin | lib/auth.ts:39-70 | succeeds iff the store does not fail and both id and email are free; appends the hashed row and keeps the keys unique |
| Auth.DeleteAdmin | lib/auth.ts:110-127 | reports success iff the store does not fail, whether or not a row matched; removes exactly the rows with that id |
| Auth.GetAfterDelete | lib/auth.ts:72-127 | after a delete the id is unknown and every other admin is still found |
| Categories.GetAllCategories | lib/categories.ts:4-21 | a permutation of the table, sorted by name; [] on a read error |
| Categories.GetCategoryById | lib/categories.ts:23-40 | found iff the id is a key; the result has that id |
| Categories.CreateCategory | lib/categories.ts:42-63 | succeeds iff the store does not fail and the id is free; appends the row, which is then found by id |
| Categories.ApplyCategoryPatch | lib/categories.ts:65-84 | a given name or description is written, a left-out one kept, a null description cleared; the id never changes |
| Categories.UpdateCategory | lib/categories.ts:65-84 | succeeds iff the store does not fail and the id exists; the row read back is the patched original |
| Categories.DeleteCategory | lib/categories.ts:86-103 | success iff the store does not fail; afterwards the id is unknown |
| Categories.UpdateCategoryKeepsOthers | lib/categories.ts:65-84 | an update leaves every other category unchanged |
| Events.RandomSuffix | lib/events.ts:4-6 | `substring(2, end)` of the base-36 rendering, upper-cased, character by character |
| Events.GenerateEventId | lib/events.ts:4-6 | the id starts with `EVT-` |
| Events.EventIdParts | lib/events.ts:4-6 | the id splits on '-' into `EVT`, the clock reading and the random part |
| Events.GenerateLoginCode | lib/events.ts:8-10 | at most 8 characters, exactly 8 for a long enough rendering, never a lower-case letter |
| Events.ChooseLoginCode | lib/events.ts:22 | a non-empty supplied code wins, otherwise a generated one |
| Events.NewEvent | lib/events.ts:24-37 | the inserted row: the generated ids and code, active, enabled, created by the caller, with every optional column null |
| Events.CreateEvent | lib/events.ts:12-50 | succeeds iff the store does not fail and the id is free; the row is active, enabled, created by the caller, and appended |
| Events.GetAllEvents | lib/events.ts:52-75 | the enabled events (all with `includeDisabled`) as a permutation, newest first; [] on error |
| Events.AssignedEventIds | lib/events.ts:103-113 | exactly the events with an assignment row for the admin |
| Events.GetEventsByAdminId | lib/events.ts:96-137 | super admin: every event, disabled ones too; event admin: exactly the enabled events assigned to them; newest first; [] on error |
| Events.NoAssignmentsNoEvents | lib/events.ts:96-137 | an event admin with no assignments sees nothing |
| Events.AssignAdminToEvent | lib/events.ts:139-158 | success iff the store does not fail; appends the (admin, event) row |
| Events.RemoveAdminFromEvent | lib/events.ts:160-178 | success iff the store does not fail; removes exactly the rows matching both ids |
| Events.AssignMakesVisible | lib/events.ts:96-158 | after an assignment the enabled event is among the event admin's events |
| Events.RemoveMakesInvisible | lib/events.ts:96-178 | after the assignment is removed the event is no longer among them |
| Events.GetEventById | lib/events.ts:77-94 | found iff the id is a key; the result has that id |
| Events.AssignedAdminIds | lib/events.ts:187-197 | exactly the admins with an assignment row for the event |
| Events.AdminsWithIds | lib/events.ts:203-206 | every admin whose id is assigned, without hash, and nothing else |
| Events.EventContentFor | lib/events.ts:213-233 | each collection holds exactly the event's rows (same multiset, so no row lost or duplicated), in ascending `sort_order`, or [] when its query failed |
| Events.EventSessions | lib/events.ts:222-231 | exactly the event's sessions (same multiset), in ascending `sort_order`, or [] when the query failed |
| Events.EventDays | lib/events.ts:223-232 | exactly the event's days (same multiset), in ascending `sort_order`, or [] when the query failed |
| Events.GetEventWithAssignedAdmins | lib/events.ts:180-238 | null iff the event is unknown; a failed assignment or admin query, or nobody assigned, gives no admins and no content; otherwise the assigned admins and the content |
| Events.WithAttrs | lib/events.ts:240-262 | the given columns are overwritten, all others kept |
| Events.EventsAfterUpdate | lib/events.ts:240-262 | only rows with that id change, and keys stay unique |
| Events.GetEventAfterUpdate | lib/events.ts:240-262 | reading the event back after an update gives it with the new columns |
| Events.UpdateEvent | lib/events.ts:240-262 | returns the updated row iff the store does not fail and the id exists; the table becomes EventsAfterUpdate |
| EventContent.OrZero | lib/eventContent.ts:48 | a missing sort order is 0, a given one is kept |
| EventContent.GetEventIntro | lib/eventContent.ts:11-29 | exactly the event's slides, in ascending sort order; [] on error |
| EventContent.AddEventIntro | lib/eventContent.ts:31-63 | succeeds iff no error and the id is free; the row is appended and listed for its event |
| EventContent.RemoveEventIntro | lib/eventContent.ts:65-82 | success iff no error; removes exactly that id |
| EventContent.IntroAfterRemove | lib/eventContent.ts:11-82 | a removed slide is no longer listed; every other slide stays |
| EventContent.GetPreEventExplore | lib/eventContent.ts:85-103 | exactly the event's explore items, in sort order; [] on error |
| EventContent.AddPreEventExplore | lib/eventContent.ts:105-133 | succeeds iff no error and the id is free; appended and listed |
| EventContent.RemovePreEventExplore | lib/eventContent.ts:135-152 | success iff no error; removes exactly that id |
| EventContent.GetPreEventHappening | lib/eventContent.ts:155-173 | exactly the event's happening items, in sort order; [] on error |
| EventContent.AddPreEventHappening | lib/eventContent.ts:175-205 | succeeds iff no error and the id is free; appended and listed |
| EventContent.RemovePreEventHappening | lib/eventContent.ts:207-224 | success iff no error; removes exactly that id |
| EventContent.GetDuringEventContent | lib/eventContent.ts:227-246 | exactly the event's active items, in sort order; [] on error |
| EventContent.ActiveUnlessFalse | lib/eventContent.ts:268 | an item is inactive only when the caller passes false |
| EventContent.AddDuringEventContent | lib/eventContent.ts:248-284 | succeeds iff no error and the id is free; an active item is listed |
| EventContent.GetPostEventContent | lib/eventContent.ts:287-305 | exactly the event's post-event items, in sort order; [] on error |
| EventContent.AddPostEventContent | lib/eventContent.ts:307-340 | succeeds iff no error and the id is free; appended and listed |
| Venues.GetAllVenues | lib/venues.ts:4-21 | a permutation of the table, sorted by name; [] on error |
| Venues.GetVenueById | lib/venues.ts:23-40 | found iff the id is a key |
| Venues.VenueFacilities | lib/venues.ts:49-54 | exactly the venue's facilities, by name; [] when the query failed |
| Venues.VenueContacts | lib/venues.ts:56-61 | exactly the venue's contacts, by name; [] when the query failed |
| Venues.VenuePhotos | lib/venues.ts:63-68 | exactly the venue's photos, by sort order; [] when the query failed |
| Venues.GetVenueWithDetails | lib/venues.ts:42-80 | null iff the venue is unknown; otherwise the venue with its three ordered child lists |
| Venues.FailedChildIsolated | lib/venues.ts:42-80 | a failed child query empties only its own list |
| Venues.ApplyVenuePatch | lib/venues.ts:120-139 | each given field written (a null description, background image or city cleared), left-out ones kept, the id unchanged |
| Venues.CreateVenue | lib/venues.ts:82-118 | succeeds iff no error and the id is free; appended and found by id |
| Venues.UpdateVenue | lib/venues.ts:120-139 | succeeds iff no error and the id exists; the row read back is the patched original |
| Venues.DeleteVenue | lib/venues.ts:141-158 | success iff no error; afterwards the id is unknown |
| Venues.AddVenueFacility | lib/venues.ts:161-183 | succeeds iff no error and the id is free; appended and listed for its venue |
| Venues.RemoveVenueFacility | lib/venues.ts:185-202 | success iff no error; removes exactly that id |
| Venues.AddVenueContact | lib/venues.ts:205-237 | succeeds iff no error and the id is free; appended and listed |
| Venues.RemoveVenueContact | lib/venues.ts:239-256 | success iff no error; removes exactly that id |
| Venues.AddVenuePhoto | lib/venues.ts:259-289 | succeeds iff no error and the id is free; a missing sort order is 0; appended and listed |
| Venues.RemoveVenuePhoto | lib/venues.ts:291-307 | success iff no error; removes exactly that id |
| Venues.FacilityListedAfterAdd | lib/venues.ts:42-80 | a facility added to the table is listed for its venue |
| Venues.ContactListedAfterAdd | lib/venues.ts:42-80 | a contact added to the table is listed for its venue |
| Venues.PhotoListedAfterAdd | lib/venues.ts:42-80 | a photo added to the table is listed for its venue |
| Venues.FacilityAfterRemove | lib/venues.ts:42-80 | a removed facility is no longer listed; the others stay |
| Upload.ParseCategory | lib/upload.ts:5-17 | the category named by a folder text, and the only one |
| Upload.LastPart | lib/upload.ts:37 | the last '.'-separated part holds no dot |
| Upload.Extension | lib/upload.ts:37 | a non-empty extension without dot; the last part when that is non-empty, else `jpg` |
| Upload.LastPartAfterDot | lib/upload.ts:37 | the text after the last dot is the extension |
| Upload.ExtensionEdgeCases | lib/upload.ts:37 | a dot-less name is its own extension; a trailing dot gives `jpg` |
| Upload.FinalFilename | lib/upload.ts:43-48 | `<name>-<ts>.` for a non-empty custom name, otherwise `<ts>-`, as the prefix; `.<ext>` as the suffix |
| Upload.FinalFilenameExtension | lib/upload.ts:43-48 | the stored name keeps the validated extension |
| Upload.JoinUnderImagesRoot | lib/upload.ts:51-53 | joining the root, the category's segments and the name gives the '/'-joined path |
| Upload.UrlNamesWrittenFile | lib/upload.ts:50-66 | the returned URL, under `public`, is the path of the written file |
| Upload.UploadImage | lib/upload.ts:26-67 | accepted iff the MIME type starts with `image/` and the extension is allowed (case-insensitively), with each error message; the stored name is `<name>-<ts>.<ext>` or `<ts>-<6 random base-36 digits>.<ext>`; the URL names the written file and keeps the extension |
| Upload.DeleteTarget | lib/upload.ts:73-82 | a file is targeted iff the path is under `/assets/images/`; it is `public/` plus the path without its leading '/' |
| Upload.DeleteImage | lib/upload.ts:73-92 | fails iff a targeted unlink fails with a code other than ENOENT, passing that error on |
| Upload.DeleteTargetOfPublicUrl | lib/upload.ts:66-82 | deleting an uploaded URL targets the file the upload wrote |
| Upload.DeleteRemovesUploadedFile | lib/upload.ts:26-92 | for every accepted upload, deleting its URL targets exactly its file |
| ImageDisplay.GetImageUrl | components/ImageDisplay.tsx:18-38 | empty ⇒ the fallback or the placeholder; external or '/'-rooted ⇒ unchanged; otherwise under `/assets/images/` |
| ImageDisplay.GetImageUrlRooted | components/ImageDisplay.tsx:18-38 | a non-empty source always comes out external or '/'-rooted |
| ImageDisplay.GetImageUrlIdempotent | components/ImageDisplay.tsx:18-38 | normalising twice is normalising once |
| Http.ResolveSession | app/api/events/route.ts:41-57 | no session iff the cookie is missing or empty; unknown admin iff no admin has that id; otherwise that admin |
| Http.SessionFailure | app/api/events/route.ts:44-57 | 401 exactly without a session, 404 exactly for an unknown admin |
| AdminsRoute.Get | app/api/admins/route.ts:5-42 | the session failure, 403 for an event admin, otherwise 200 with every admin without hash, or with [] when the listing fails |
| MeRoute.Get | app/api/auth/me/route.ts:5-41 | fails exactly with the session failure; otherwise the caller's own admin record |
| AdminsCreateRoute.NormaliseRole | app/api/admins/create/route.ts:42 | super admin iff the role is exactly `super_admin` |
| AdminsCreateRoute.Post | app/api/admins/create/route.ts:5-60 | each error reply; created iff super admin, fields present, insert succeeds; the stored row and reply |
| SetupRoute.Post | app/api/setup/create-super-admin/route.ts:5-78 | 403 once admins exist (a failed listing counts as none); each validation error, the password length counted in UTF-16 code units; created iff all checks pass and the insert succeeds; always a super admin |
| Text.Utf16Length | app/api/setup/create-super-admin/route.ts:28 | `password.length` counts UTF-16 code units: between one and two per character, exactly one each when no character is outside the Basic Multilingual Plane, exactly two each when all are |
| Text.Utf16LengthAppend | app/api/setup/create-super-admin/route.ts:28 | the code-unit count of a concatenation is the sum of the counts |
| SetupRoute.Get | app/api/setup/create-super-admin/route.ts:81-95 | setup needed iff the listing is empty, with the count |
| VenuesRoute.Get | app/api/venues/route.ts:6-36 | the session failure, or every venue by name |
| VenuesRoute.Post | app/api/venues/route.ts:38-93 | each error reply; created iff authenticated, name and address present and the insert succeeds |
| CategoriesRoute.Get | app/api/categories/route.ts:6-36 | the session failure, or every category by name |
| CategoriesRoute.Post | app/api/categories/route.ts:38-87 | each error reply; created iff authenticated, name present and the insert succeeds |
| EventsRoute.Get | app/api/events/route.ts:6-37 | the session failure, or the caller's visible events |
| EventsRoute.TruthyUpdates | app/api/events/route.ts:110-128 | the update object holds exactly the non-empty optional fields, with their values |
| EventsRoute.BuildUpdates | app/api/events/route.ts:110-128 | the field-by-field loop builds exactly TruthyUpdates |
| EventsRoute.NewAssignments | app/api/events/route.ts:136-141 | one row per listed admin whose insert did not fail, all for this event; one per listed admin when nothing fails |
| EventsRoute.KeptIndices | app/api/events/route.ts:136-141 | exactly the positions whose insert did not fail, in ascending order |
| EventsRoute.NewAssignmentsOnlyKept | app/api/events/route.ts:136-141 | the rows are, in order, one per position whose insert did not fail, and nothing else |
| EventsRoute.AssignAll | app/api/events/route.ts:136-141 | the loop appends exactly NewAssignments |
| EventsRoute.Populated | app/api/events/route.ts:130-133 | the row with every truthy optional column written when the update runs and succeeds, the other columns kept, nothing else added |
| EventsRoute.Populate | app/api/events/route.ts:130-133 | the new row gets the truthy columns when the update runs and succeeds |
| EventsRoute.CreateFromBody | app/api/events/route.ts:93-143 | created iff the insert succeeds; the stored row is populated, the assignments appended, the reply the row as first inserted |
| EventsRoute.Post | app/api/events/route.ts:39-151 | each error reply in order (session, role, body, name, insert); nothing written on failure |
| UploadImageRoute.AcceptedAreCategories | app/api/upload/image/route.ts:48-60 | every accepted folder is an image category |
| UploadImageRoute.Post | app/api/upload/image/route.ts:6-84 | the session failure, missing file, missing or unaccepted category, a thrown error as 500 with its message; success is the library's URL |
| UploadImageRoute.IntroFolderRejected | app/api/upload/image/route.ts:48-67 | the library knows `events/intro` but the route refuses it with 400 |
| AppOtps.OtpValue | app/api/app/auth/login/route.ts:5-7 | the code value is between 1000 and 9999 |
| AppOtps.GenerateOtp | app/api/app/auth/login/route.ts:5-7 | the code is always four decimal digits |
| AppOtps.IssuedOtp | app/api/app/auth/login/route.ts:77-101 | the issued row is unverified, expires ten minutes later, keyed by event, country code and phone |
| AppOtps.Supersede | app/api/app/auth/login/route.ts:82-101 | every earlier code for that phone and event is gone and the new row is there |
| AppOtps.SupersedeKeepsKeysUnique | app/api/app/auth/login/route.ts:82-101 | after issuing there is one code per phone and event, and ids stay unique |
| AppOtps.MatchOtp | app/api/app/auth/verify-otp/route.ts:102-111 | a match is a row with that event, phone and code, unverified and unexpired; none iff no row qualifies |
| AppOtps.MarkVerified | app/api/app/auth/verify-otp/route.ts:125-128 | only the matched row is marked verified |
| AppOtps.FreshCodeAccepted | app/api/app/auth/verify-otp/route.ts:102-111 | a freshly issued code is accepted before it expires |
| AppOtps.SupersededCodeRejected | app/api/app/auth/login/route.ts:82-88 | after a new code is issued every other code for that phone and event is refused |
| AppOtps.ExpiredAfterLifetime | app/api/app/auth/verify-otp/route.ts:110 | ten minutes after issuing no code is accepted |
| AppOtps.ConsumedCodeRejected | app/api/app/auth/verify-otp/route.ts:102-128 | a used code is refused afterwards |
| AppEvents.FindByPublicId | app/api/app/events/get-login-code/route.ts:18-22 | the event with that public id; none iff no event has it |
| AppEvents.ResolveByCode | app/api/app/auth/login/route.ts:30-52 | by login code first, by public id otherwise; none iff neither matches |
| AppEvents.ResolveById | app/api/app/info/route.ts:54-73 | by primary id first, by public id otherwise; none iff neither matches |
| AppEvents.GateEvent | app/api/app/auth/login/route.ts:54-75 | not found, disabled, or (when status is checked) not active, in that order; otherwise open |
| AppEvents.GateFailure | app/api/app/venue/details/route.ts:115-134 | 404 with the endpoint's message for a missing event, 403 for a disabled or inactive one |
| AppDevices.DeviceTypeOf | app/api/app/auth/verify-otp/route.ts:183-189 | android iff the lower-cased platform mentions android; ios iff not and it mentions ios, iphone or ipad; else web |
| AppDevices.DeviceTypeIgnoresCase | app/api/app/auth/verify-otp/route.ts:183-189 | the device type does not depend on letter case |
| AppDevices.NewDevice | app/api/app/auth/verify-otp/route.ts:202-212 | the new device row under (user, event, token), with its type, platform and non-empty versions |
| AppDevices.RefreshOnSignIn | app/api/app/auth/verify-otp/route.ts:221-229 | platform and time written, each version replaced only by a non-empty one, the key and type kept |
| AppDevices.RefreshOnOpen | app/api/app/info/route.ts:115-123 | only platform and update time change |
| AppDevices.RefreshRulesAgreeWithoutVersions | app/api/app/info/route.ts:115-123 | with no versions given, the sign-in refresh is the open refresh |
| AppLoginRoute.IssuedRow | app/api/app/auth/login/route.ts:77-101 | the row to insert carries the submitted phone key, a four-digit code and the ten-minute expiry |
| AppLoginRoute.Post | app/api/app/auth/login/route.ts:9-117 | each error reply; the gate; on success the earlier codes are replaced by the new one, returned with expires_in 600; a failed insert still clears the old codes |
| AppVerifyRoute.Check | app/api/app/auth/verify-otp/route.ts:10-122 | missing fields, phone and OTP format, event lookup and gate, then 401 iff no code matches; a match is exactly the row MatchOtp finds |
| AppVerifyRoute.UserStep | app/api/app/auth/verify-otp/route.ts:130-178 | an unknown phone number gets a new row unless its insert fails; a known one keeps its id and key and takes a differing non-empty username unless the rename fails |
| AppVerifyRoute.UserStepKeepsOthers | app/api/app/auth/verify-otp/route.ts:130-178 | the user step keeps both user keys unique, stores its row under the phone number's key and keeps every other user |
| AppVerifyRoute.GetOrCreateUser | app/api/app/auth/verify-otp/route.ts:130-178 | the lookup, insert and rename steps produce UserStep; the user returned is the one stored under the key |
| AppVerifyRoute.SignInRefreshKeepsKeys | app/api/app/auth/verify-otp/route.ts:221-229 | refreshing a device keeps both device keys unique and leaves the refreshed row under its key |
| AppVerifyRoute.DeviceStep | app/api/app/auth/verify-otp/route.ts:191-238 | a new device unless its insert fails; an existing one refreshed by the sign-in rule, or kept when the update fails |
| AppVerifyRoute.DeviceStepKeepsOthers | app/api/app/auth/verify-otp/route.ts:191-238 | the device step keeps both device keys unique, stores its row under its key and keeps every other device |
| AppVerifyRoute.RegisterDevice | app/api/app/auth/verify-otp/route.ts:191-238 | the lookup and update-or-insert steps produce DeviceStep; the device returned is the one stored under (user, event, token) |
| AppVerifyRoute.DeviceReply | app/api/app/auth/verify-otp/route.ts:258-266 | the device's id twice, its type and token, and a version falling back to the app version and then 1.0.0 |
| AppVerifyRoute.Reply | app/api/app/auth/verify-otp/route.ts:242-266 | the user's id, name or '', and country code + phone; the event's colours or #5550B7 and #FFFFFF, the request's app version or 1.0.0, no forced update; the device only when there is one |
| AppVerifyRoute.AdmitReply | app/api/app/auth/verify-otp/route.ts:130-272 | 500 "Failed to create user" exactly when the phone number is unknown and its insert fails; otherwise 200 with the caller's phone number and the event |
| AppVerifyRoute.AdmitReplyIsStored | app/api/app/auth/verify-otp/route.ts:130-272 | a successful reply carries the user and device exactly as the new tables store them |
| AppVerifyRoute.Admit | app/api/app/auth/verify-otp/route.ts:124-272 | the code is marked used, the users table becomes UserStep's, the devices table DeviceStep's only when a user exists and token and platform are given, and the reply is AdmitReply |
| AppVerifyRoute.Post | app/api/app/auth/verify-otp/route.ts:4-284 | a rejection is Check's reply and writes nothing; after a match the code is consumed, the users and devices tables are the steps' and the reply is AdmitReply, carrying the stored rows |
| AppVerifyRoute.VerifyAcceptsIssuedCode | app/api/app/auth/verify-otp/route.ts:102-122 | the code the login endpoint issued passes verification while fresh |
| AppVerifyRoute.VerifyRejectsOtherCode | app/api/app/auth/verify-otp/route.ts:102-122 | any other code is answered 401 |
| AppVerifyRoute.VerifyRejectsAfterExpiry | app/api/app/auth/verify-otp/route.ts:110-122 | after ten minutes the issued code is answered 401 |
| AppVerifyRoute.VerifyRejectsReusedCode | app/api/app/auth/verify-otp/route.ts:109-128 | a code that was used is answered 401 |
| AppInfoRoute.AppVersion | app/api/app/info/route.ts:138-145 | the first settings row's non-empty app version, else 1.0.0 |
| AppInfoRoute.Check | app/api/app/info/route.ts:6-94 | each error reply; passes iff the event id is given, any user id is valid and known, and the event is found and enabled |
| AppInfoRoute.InactiveEventPasses | app/api/app/info/route.ts:85-94 | an enabled event passes whatever its status |
| AppInfoRoute.Touched | app/api/app/info/route.ts:106-135 | a failed write changes nothing; a known device keeps the table's length; otherwise at most the new device is appended |
| AppInfoRoute.TouchedKeepsKeysUnique | app/api/app/info/route.ts:96-135 | the device write keeps device ids and (user, event, token) unique |
| AppInfoRoute.TouchedRegisters | app/api/app/info/route.ts:96-135 | after the write a device for (user, event, token) has the platform; an existing one keeps id, type and versions |
| AppInfoRoute.TouchDevice | app/api/app/info/route.ts:106-135 | the lookup-then-update-or-insert steps produce Touched |
| AppInfoRoute.Reply | app/api/app/info/route.ts:148-159 | theme `default`, the event's colours or #5550B7 and #FFFFFF, the settings' app version, no forced update, the splash image or null |
| AppInfoRoute.Get | app/api/app/info/route.ts:4-161 | a rejection writes nothing; otherwise the device write when user, token and platform are given, and the event's colors and app version |
| AppVenueDetailsRoute.FromBody | app/api/app/venue/details/route.ts:14-16 | `data` first when it carries the value, else the top level |
| AppVenueDetailsRoute.RequestUser | app/api/app/venue/details/route.ts:5-29 | a query value, even empty, beats the body, which beats the header |
| AppVenueDetailsRoute.RequestEvent | app/api/app/venue/details/route.ts:5-29 | the same precedence for the event id |
| AppVenueDetailsRoute.GetParams | app/api/app/venue/details/route.ts:5-29 | the step-by-step reading gives RequestUser and RequestEvent |
| AppVenueDetailsRoute.EmptyQueryValueHidesFallbacks | app/api/app/venue/details/route.ts:7-10 | an empty query value blocks body and header, so the request is refused |
| AppVenueDetailsRoute.Project | app/api/app/venue/details/route.ts:174-197 | each child list mapped entry by entry, in order, with the same length |
| AppVenueDetailsRoute.FetchVenueDetails | app/api/app/venue/details/route.ts:74-198 | each error reply (user format, user, event gate, no venue, unknown venue); success exactly when every check passes and the linked venue exists, and it is the projected venue |
| AppVenueDetailsRoute.Handle | app/api/app/venue/details/route.ts:31-72 | 400 iff either parameter is missing or empty; otherwise FetchVenueDetails |
| AppProfileRoute.CheckUser | app/api/app/profile/route.ts:10-38 | missing, malformed, unknown user ⇒ 400, 400, 404; passes iff valid and known |
| AppProfileRoute.SettingsReply | app/api/app/profile/route.ts:41-77 | no settings ⇒ the fixed defaults; otherwise the first row with "" as null and the version and detail defaulted |
| AppProfileRoute.Get | app/api/app/profile/route.ts:4-85 | the user checks, then the settings reply |
| AppProfileRoute.GetIsUserIndependent | app/api/app/profile/route.ts:41-77 | every known user sees the same settings |
| AppProfileRoute.ApplyEdit | app/api/app/profile/edit/route.ts:40-44 | a given field is written, null clears, a left-out field is kept; id and key unchanged |
| AppProfileRoute.EmptyPatchIsIdentity | app/api/app/profile/edit/route.ts:46-60 | an empty patch writes nothing |
| AppProfileRoute.Put | app/api/app/profile/edit/route.ts:4-94 | each error reply; an empty patch answers the stored row; otherwise only that user is updated and the reply is the edited row |
| AppProfileRoute.EditKeepsOthers | app/api/app/profile/edit/route.ts:63-68 | an edit leaves every other user unchanged |
| AppLoginCodeRoute.Post | app/api/app/events/get-login-code/route.ts:5-46 | 400 without an event id, 404 iff no event has that public id, otherwise its login code |
| AppLoginCodeRoute.LoginCodeLeadsBack | app/api/app/events/get-login-code/route.ts:18-36 | with unique login codes, the code handed out leads sign-in back to the same event |

## Left out

- Name order: the reads ordered by name (venues, categories, facilities, contacts) use `Text.LexLe`, a comparison of character codes in which "Banana" sorts before "apple". The database sorts by its collation, which usually differs.
- Id equality: ids are compared as exact strings. The UUID format check accepts upper-case hex digits, and a Postgres `uuid` column would match an upper-case `user_id` that `HasKey` rejects (app/api/app/info/route.ts:37-41, app/api/app/profile/route.ts:27-31, app/api/app/venue/details/route.ts:83-87).
- Events.UpdateEvent: the patch is a `map<EventAttr, string>`, so it can write only the optional decorating columns: category, venue, colours, images and the three welcome texts. `updateEvent` (lib/events.ts:240-262) accepts any `Partial<Event>`, but its one caller (app/api/events/route.ts:110-133) passes only these columns and only with truthy values. Writing name, description, status, `is_enabled` or the dates, or writing null, is not expressible.
- Floating-point columns (venue latitude and longitude) are not modelled.
- `created_at` is kept only on events, where it orders listings.
- `updated_at` is kept only on devices, where the refresh writes it.
- File-system effects of uploads and deletes are not modelled: directory creation, the write and the unlink. The model computes which path is written or removed; paths are not normalised.
- Concurrency is not modelled. Each handler runs alone on one database state.
- `.single()` on a query that matches several rows is an error in the store. The model takes the first match instead.
  - Under `Db.Valid()`, the natural-key lookups match at most one row.
  - Login codes are not required to be unique.
- A single-row read whose store call fails reads as "not found". The list reads carry an explicit error flag.
- Case mapping and `trim()` cover ASCII only, and the UUID test is an ASCII regular expression.
- `deleteVenue` does not cascade to the venue's children here; no cascade rules are modelled.
- Success message strings and the `success: true` / `status: 1` wrapper fields are not modelled.
- The app endpoints' error bodies differ in shape: `{error}`, or `{message, status: 0, data}`. Here every error is a status and one message text.
- A failing delete of the earlier one-time codes at sign-in is not modelled: the delete always succeeds.
- JSON values in request bodies are taken to be strings already. A number or object where text is expected is not modelled.
- AppInfoRoute.Get: the device write's failures are a flag whose effect is "nothing written". The source ignores the write's result and this model does too, so no error is replied.
- A thrown exception inside a handler is modelled only where a precise input causes it, such as a body that is not JSON (then `None`) or an upload write error. Other driver faults are not modelled.
- The setup GET and POST treat a failed admin listing as an empty one. This follows the library, which returns [] on error, so setup stays open when the listing fails.
