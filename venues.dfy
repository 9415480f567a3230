/**
 * Venues (lib/venues.ts) and their facilities, contacts and photos: sorted
 * reads, creation, sparse updates, and deletes by id. On a store error a list
 * read gives [], a create or update null, a delete false.
 */
module Venues {
  import opened Wrappers
  import opened Types
  import opened Seqs
  import opened Database
  import Text

  function VenueName(v: Venue): string { v.name }
  function FacilityName(f: VenueFacility): string { f.name }
  function ContactName(c: VenueContact): string { c.name }
  function PhotoOrder(p: VenuePhoto): int { p.sortOrder }

  /** Every venue, by name ascending. */
  function GetAllVenues(venues: seq<Venue>, storeError: bool): (r: seq<Venue>)
    ensures storeError ==> r == []
    ensures !storeError ==> multiset(r) == multiset(venues)
    ensures forall i :: 0 < i < |r| ==> Text.LexLe(r[i - 1].name, r[i].name)
  {
    if storeError then [] else SortByText(venues, VenueName)
  }

  /** The venue with that id; an unknown id gives null. */
  function GetVenueById(venues: seq<Venue>, id: string): (r: Option<Venue>)
    ensures r.Some? <==> HasKey(venues, VenuePk, id)
    ensures r.Some? ==> r.value in venues && r.value.id == id
  {
    FindByKey(venues, VenuePk, id)
  }

  /** The venue's facilities by name ascending; [] when the query failed. */
  function VenueFacilities(facilities: seq<VenueFacility>, venueId: string, failed: bool): (r: seq<VenueFacility>)
    ensures failed ==> r == []
    ensures !failed ==> forall x :: multiset(r)[x] == if x.venueId == venueId then multiset(facilities)[x] else 0
    ensures forall i :: 0 < i < |r| ==> Text.LexLe(r[i - 1].name, r[i].name)
  {
    if failed then [] else SelectSortedByText(facilities, (x: VenueFacility) => x.venueId == venueId, FacilityName)
  }

  /** The venue's contacts by name ascending; [] when the query failed. */
  function VenueContacts(contacts: seq<VenueContact>, venueId: string, failed: bool): (r: seq<VenueContact>)
    ensures failed ==> r == []
    ensures !failed ==> forall x :: multiset(r)[x] == if x.venueId == venueId then multiset(contacts)[x] else 0
    ensures forall i :: 0 < i < |r| ==> Text.LexLe(r[i - 1].name, r[i].name)
  {
    if failed then [] else SelectSortedByText(contacts, (x: VenueContact) => x.venueId == venueId, ContactName)
  }

  /** The venue's photos by sort order ascending; [] when the query failed. */
  function VenuePhotos(photos: seq<VenuePhoto>, venueId: string, failed: bool): (r: seq<VenuePhoto>)
    ensures failed ==> r == []
    ensures !failed ==> forall x :: multiset(r)[x] == if x.venueId == venueId then multiset(photos)[x] else 0
    ensures forall i :: 0 < i < |r| ==> r[i - 1].sortOrder <= r[i].sortOrder
  {
    if failed then [] else SelectSorted(photos, (x: VenuePhoto) => x.venueId == venueId, PhotoOrder)
  }

  /** The child queries of the detailed read, each of which can fail on its own. */
  datatype VenueChild = FacilitiesQuery | ContactsQuery | PhotosQuery

  datatype VenueWithDetails = VenueWithDetails(
    venue: Venue, facilities: seq<VenueFacility>, contacts: seq<VenueContact>, photos: seq<VenuePhoto>)

  /**
   * A venue with its children. A missing venue gives null; a failed child query
   * empties that collection and leaves the other two as they are.
   */
  function GetVenueWithDetails(
    venues: seq<Venue>, facilities: seq<VenueFacility>, contacts: seq<VenueContact>, photos: seq<VenuePhoto>,
    id: string, failed: set<VenueChild>)
    : (r: Option<VenueWithDetails>)
    ensures r.None? <==> !HasKey(venues, VenuePk, id)
    ensures r.Some? ==> r.value.venue in venues && r.value.venue.id == id
    ensures r.Some? ==> r.value.facilities == VenueFacilities(facilities, id, FacilitiesQuery in failed)
    ensures r.Some? ==> r.value.contacts == VenueContacts(contacts, id, ContactsQuery in failed)
    ensures r.Some? ==> r.value.photos == VenuePhotos(photos, id, PhotosQuery in failed)
  {
    match GetVenueById(venues, id)
    case None => None
    case Some(v) =>
      Some(VenueWithDetails(
        v,
        VenueFacilities(facilities, id, FacilitiesQuery in failed),
        VenueContacts(contacts, id, ContactsQuery in failed),
        VenuePhotos(photos, id, PhotosQuery in failed)))
  }

  /** A failed child query changes only its own collection in the detailed read. */
  lemma FailedChildIsolated(
    venues: seq<Venue>, facilities: seq<VenueFacility>, contacts: seq<VenueContact>, photos: seq<VenuePhoto>,
    id: string, failed: set<VenueChild>, child: VenueChild)
    requires HasKey(venues, VenuePk, id)
    ensures
      var a := GetVenueWithDetails(venues, facilities, contacts, photos, id, failed).value;
      var b := GetVenueWithDetails(venues, facilities, contacts, photos, id, failed + {child}).value;
      && (child == FacilitiesQuery ==> b.facilities == [] && b.contacts == a.contacts && b.photos == a.photos)
      && (child == ContactsQuery ==> b.contacts == [] && b.facilities == a.facilities && b.photos == a.photos)
      && (child == PhotosQuery ==> b.photos == [] && b.facilities == a.facilities && b.contacts == a.contacts)
      && b.venue == a.venue
  {
    var grown := failed + {child};
    assert FacilitiesQuery in grown <==> FacilitiesQuery in failed || child == FacilitiesQuery;
    assert ContactsQuery in grown <==> ContactsQuery in failed || child == ContactsQuery;
    assert PhotosQuery in grown <==> PhotosQuery in failed || child == PhotosQuery;
  }

  /** The fields an update may write; a left-out field keeps its value. */
  datatype VenuePatch = VenuePatch(
    name: Option<string>, address: Option<string>,
    description: Field<string>, bgImageUrl: Field<string>, city: Field<string>)

  function ApplyVenuePatch(v: Venue, p: VenuePatch): (r: Venue)
    ensures r.id == v.id
    ensures r.name == (if p.name.Some? then p.name.value else v.name)
    ensures r.address == (if p.address.Some? then p.address.value else v.address)
    ensures p.description.Undefined? ==> r.description == v.description
    ensures p.description.Null? ==> r.description.None?
    ensures p.description.Present? ==> r.description == Some(p.description.value)
    ensures p.bgImageUrl.Undefined? ==> r.bgImageUrl == v.bgImageUrl
    ensures p.bgImageUrl.Null? ==> r.bgImageUrl.None?
    ensures p.bgImageUrl.Present? ==> r.bgImageUrl == Some(p.bgImageUrl.value)
    ensures p.city.Undefined? ==> r.city == v.city
    ensures p.city.Null? ==> r.city.None?
    ensures p.city.Present? ==> r.city == Some(p.city.value)
  {
    Venue(
      v.id, p.name.GetOr(v.name), p.address.GetOr(v.address),
      ApplyField(p.description, v.description), ApplyField(p.bgImageUrl, v.bgImageUrl), ApplyField(p.city, v.city))
  }

  function VenuePatcher(p: VenuePatch): Venue -> Venue {
    (v: Venue) => ApplyVenuePatch(v, p)
  }

  method CreateVenue(
    db: Db, name: string, address: string, description: Option<string>, bgImageUrl: Option<string>, city: Option<string>,
    newId: string, storeError: bool)
    returns (r: Option<Venue>)
    requires db.Valid()
    modifies db`venues
    ensures db.Valid()
    ensures r.Some? <==> !storeError && !HasKey(old(db.venues), VenuePk, newId)
    ensures r.Some? ==> r.value == Venue(newId, name, address, description, bgImageUrl, city)
    ensures db.venues == if r.Some? then old(db.venues) + [r.value] else old(db.venues)
    ensures r.Some? ==> GetVenueById(db.venues, newId) == r
  {
    if storeError || HasKey(db.venues, VenuePk, newId) {
      return None;
    }
    var row := Venue(newId, name, address, description, bgImageUrl, city);
    FindByKeyAfterAppend(db.venues, VenuePk, row);
    UniqueAppend(db.venues, VenuePk, row);
    db.venues := db.venues + [row];
    r := Some(row);
  }

  /** Writes the given fields of the venue with that id and returns the updated row. */
  method UpdateVenue(db: Db, id: string, patch: VenuePatch, storeError: bool) returns (r: Option<Venue>)
    requires db.Valid()
    modifies db`venues
    ensures db.Valid()
    ensures r.Some? <==> !storeError && HasKey(old(db.venues), VenuePk, id)
    ensures db.venues == if storeError then old(db.venues) else UpdateKey(old(db.venues), VenuePk, id, VenuePatcher(patch))
    ensures r.Some? ==> GetVenueById(db.venues, id) == r
    ensures r.Some? ==> exists v :: v in old(db.venues) && v.id == id && r.value == ApplyVenuePatch(v, patch)
  {
    if storeError {
      return None;
    }
    var found := GetVenueById(db.venues, id);
    UniqueUpdateKey(db.venues, VenuePk, id, VenuePatcher(patch), VenuePk);
    if found.Some? {
      FindByKeyAfterUpdate(db.venues, VenuePk, VenuePatcher(patch), found.value);
      r := Some(ApplyVenuePatch(found.value, patch));
    } else {
      r := None;
    }
    db.venues := UpdateKey(db.venues, VenuePk, id, VenuePatcher(patch));
  }

  method DeleteVenue(db: Db, id: string, storeError: bool) returns (ok: bool)
    requires db.Valid()
    modifies db`venues
    ensures db.Valid()
    ensures ok == !storeError
    ensures db.venues == if ok then RemoveKey(old(db.venues), VenuePk, id) else old(db.venues)
    ensures ok ==> GetVenueById(db.venues, id).None?
  {
    if storeError {
      return false;
    }
    UniqueRemoveKey(db.venues, VenuePk, id, VenuePk);
    db.venues := RemoveKey(db.venues, VenuePk, id);
    ok := true;
  }

  method AddVenueFacility(db: Db, venueId: string, name: string, imageUrl: Option<string>, newId: string, storeError: bool)
    returns (r: Option<VenueFacility>)
    requires db.Valid()
    modifies db`facilities
    ensures db.Valid()
    ensures r.Some? <==> !storeError && !HasKey(old(db.facilities), FacilityPk, newId)
    ensures r.Some? ==> r.value == VenueFacility(newId, venueId, name, imageUrl)
    ensures db.facilities == if r.Some? then old(db.facilities) + [r.value] else old(db.facilities)
    ensures r.Some? ==> r.value in VenueFacilities(db.facilities, venueId, false)
  {
    if storeError || HasKey(db.facilities, FacilityPk, newId) {
      return None;
    }
    var row := VenueFacility(newId, venueId, name, imageUrl);
    UniqueAppend(db.facilities, FacilityPk, row);
    FacilityListedAfterAdd(db.facilities, row);
    db.facilities := db.facilities + [row];
    r := Some(row);
  }

  method RemoveVenueFacility(db: Db, id: string, storeError: bool) returns (ok: bool)
    requires db.Valid()
    modifies db`facilities
    ensures db.Valid()
    ensures ok == !storeError
    ensures db.facilities == if ok then RemoveKey(old(db.facilities), FacilityPk, id) else old(db.facilities)
  {
    if storeError {
      return false;
    }
    UniqueRemoveKey(db.facilities, FacilityPk, id, FacilityPk);
    db.facilities := RemoveKey(db.facilities, FacilityPk, id);
    ok := true;
  }

  method AddVenueContact(
    db: Db, venueId: string, name: string, imageUrl: Option<string>, phoneNumber: Option<string>, email: Option<string>,
    newId: string, storeError: bool)
    returns (r: Option<VenueContact>)
    requires db.Valid()
    modifies db`contacts
    ensures db.Valid()
    ensures r.Some? <==> !storeError && !HasKey(old(db.contacts), ContactPk, newId)
    ensures r.Some? ==> r.value == VenueContact(newId, venueId, name, imageUrl, phoneNumber, email)
    ensures db.contacts == if r.Some? then old(db.contacts) + [r.value] else old(db.contacts)
    ensures r.Some? ==> r.value in VenueContacts(db.contacts, venueId, false)
  {
    if storeError || HasKey(db.contacts, ContactPk, newId) {
      return None;
    }
    var row := VenueContact(newId, venueId, name, imageUrl, phoneNumber, email);
    UniqueAppend(db.contacts, ContactPk, row);
    ContactListedAfterAdd(db.contacts, row);
    db.contacts := db.contacts + [row];
    r := Some(row);
  }

  method RemoveVenueContact(db: Db, id: string, storeError: bool) returns (ok: bool)
    requires db.Valid()
    modifies db`contacts
    ensures db.Valid()
    ensures ok == !storeError
    ensures db.contacts == if ok then RemoveKey(old(db.contacts), ContactPk, id) else old(db.contacts)
  {
    if storeError {
      return false;
    }
    UniqueRemoveKey(db.contacts, ContactPk, id, ContactPk);
    db.contacts := RemoveKey(db.contacts, ContactPk, id);
    ok := true;
  }

  /** A photo without a sort order is stored with sort order 0. */
  method AddVenuePhoto(
    db: Db, venueId: string, imageUrl: string, altText: Option<string>, sortOrder: Option<int>,
    newId: string, storeError: bool)
    returns (r: Option<VenuePhoto>)
    requires db.Valid()
    modifies db`photos
    ensures db.Valid()
    ensures r.Some? <==> !storeError && !HasKey(old(db.photos), PhotoPk, newId)
    ensures r.Some? ==> r.value == VenuePhoto(newId, venueId, imageUrl, altText, sortOrder.GetOr(0))
    ensures r.Some? && sortOrder.None? ==> r.value.sortOrder == 0
    ensures db.photos == if r.Some? then old(db.photos) + [r.value] else old(db.photos)
    ensures r.Some? ==> r.value in VenuePhotos(db.photos, venueId, false)
  {
    if storeError || HasKey(db.photos, PhotoPk, newId) {
      return None;
    }
    var row := VenuePhoto(newId, venueId, imageUrl, altText, sortOrder.GetOr(0));
    UniqueAppend(db.photos, PhotoPk, row);
    PhotoListedAfterAdd(db.photos, row);
    db.photos := db.photos + [row];
    r := Some(row);
  }

  method RemoveVenuePhoto(db: Db, id: string, storeError: bool) returns (ok: bool)
    requires db.Valid()
    modifies db`photos
    ensures db.Valid()
    ensures ok == !storeError
    ensures db.photos == if ok then RemoveKey(old(db.photos), PhotoPk, id) else old(db.photos)
  {
    if storeError {
      return false;
    }
    UniqueRemoveKey(db.photos, PhotoPk, id, PhotoPk);
    db.photos := RemoveKey(db.photos, PhotoPk, id);
    ok := true;
  }

  /** A child added to the table appears in its venue's listing. */
  lemma {:induction false} FacilityListedAfterAdd(facilities: seq<VenueFacility>, row: VenueFacility)
    ensures row in VenueFacilities(facilities + [row], row.venueId, false)
  {
    assert multiset(VenueFacilities(facilities + [row], row.venueId, false))[row] > 0;
  }

  lemma {:induction false} ContactListedAfterAdd(contacts: seq<VenueContact>, row: VenueContact)
    ensures row in VenueContacts(contacts + [row], row.venueId, false)
  {
    assert multiset(VenueContacts(contacts + [row], row.venueId, false))[row] > 0;
  }

  lemma {:induction false} PhotoListedAfterAdd(photos: seq<VenuePhoto>, row: VenuePhoto)
    ensures row in VenuePhotos(photos + [row], row.venueId, false)
  {
    assert multiset(VenuePhotos(photos + [row], row.venueId, false))[row] > 0;
  }

  /** A removed child no longer appears in its venue's listing; every other child stays. */
  lemma FacilityAfterRemove(facilities: seq<VenueFacility>, id: string, x: VenueFacility)
    requires x in facilities
    ensures x in VenueFacilities(RemoveKey(facilities, FacilityPk, id), x.venueId, false) <==> x.id != id
  {
    var rest := RemoveKey(facilities, FacilityPk, id);
    var r := VenueFacilities(rest, x.venueId, false);
    assert x in r <==> multiset(r)[x] > 0;
    assert x in rest <==> multiset(rest)[x] > 0;
  }
}
