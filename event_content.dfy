/**
 * Event content (lib/eventContent.ts): intro slides, pre-event explore and
 * happening items, during-event and post-event content. Getters filter by event
 * and order by `sort_order`; adders insert one row with defaults; removers
 * delete by id. On a store error a getter gives [], an adder null, a remover false.
 */
module EventContent {
  import opened Wrappers
  import opened Types
  import opened Seqs
  import opened Database

  /** `sortOrder || 0`: a missing sort order is stored as 0. */
  function OrZero(sortOrder: Option<int>): (r: int)
    ensures sortOrder.None? ==> r == 0
    ensures sortOrder.Some? ==> r == sortOrder.value
  {
    sortOrder.GetOr(0)
  }

  function IntroOrder(x: EventIntro): int { x.sortOrder }
  function ExploreOrder(x: PreEventExplore): int { x.sortOrder }
  function HappeningOrder(x: PreEventHappening): int { x.sortOrder }
  function DuringOrder(x: DuringEventContent): int { x.sortOrder }
  function PostOrder(x: PostEventContent): int { x.sortOrder }

  // Intro

  /** The event's intro slides in ascending sort order. */
  function GetEventIntro(intros: seq<EventIntro>, eventId: string, storeError: bool): (r: seq<EventIntro>)
    ensures storeError ==> r == []
    ensures !storeError ==> forall x :: multiset(r)[x] == if x.eventId == eventId then multiset(intros)[x] else 0
    ensures forall i :: 0 < i < |r| ==> r[i - 1].sortOrder <= r[i].sortOrder
  {
    if storeError then [] else SelectSorted(intros, (x: EventIntro) => x.eventId == eventId, IntroOrder)
  }

  method AddEventIntro(
    db: Db, eventId: string, title: string, imageUrl: string, description: Option<string>, sortOrder: Option<int>,
    newId: string, storeError: bool)
    returns (r: Option<EventIntro>)
    requires db.Valid()
    modifies db`intros
    ensures db.Valid()
    ensures r.Some? <==> !storeError && !HasKey(old(db.intros), IntroPk, newId)
    ensures r.Some? ==> r.value == EventIntro(newId, eventId, title, description, imageUrl, OrZero(sortOrder))
    ensures db.intros == if r.Some? then old(db.intros) + [r.value] else old(db.intros)
    ensures r.Some? ==> r.value in GetEventIntro(db.intros, eventId, false)
  {
    if storeError || HasKey(db.intros, IntroPk, newId) {
      return None;
    }
    var row := EventIntro(newId, eventId, title, description, imageUrl, OrZero(sortOrder));
    UniqueAppend(db.intros, IntroPk, row);
    db.intros := db.intros + [row];
    r := Some(row);
  }

  method RemoveEventIntro(db: Db, id: string, storeError: bool) returns (ok: bool)
    requires db.Valid()
    modifies db`intros
    ensures db.Valid()
    ensures ok == !storeError
    ensures db.intros == if ok then RemoveKey(old(db.intros), IntroPk, id) else old(db.intros)
  {
    if storeError {
      return false;
    }
    UniqueRemoveKey(db.intros, IntroPk, id, IntroPk);
    db.intros := RemoveKey(db.intros, IntroPk, id);
    ok := true;
  }

  // Pre-event explore

  function GetPreEventExplore(explores: seq<PreEventExplore>, eventId: string, storeError: bool): (r: seq<PreEventExplore>)
    ensures storeError ==> r == []
    ensures !storeError ==> forall x :: multiset(r)[x] == if x.eventId == eventId then multiset(explores)[x] else 0
    ensures forall i :: 0 < i < |r| ==> r[i - 1].sortOrder <= r[i].sortOrder
  {
    if storeError then [] else SelectSorted(explores, (x: PreEventExplore) => x.eventId == eventId, ExploreOrder)
  }

  /** The sort order is a parameter that defaults to 0 when the caller leaves it out. */
  method AddPreEventExplore(
    db: Db, eventId: string, name: string, imageUrl: string, newId: string, storeError: bool, sortOrder: int := 0)
    returns (r: Option<PreEventExplore>)
    requires db.Valid()
    modifies db`explores
    ensures db.Valid()
    ensures r.Some? <==> !storeError && !HasKey(old(db.explores), ExplorePk, newId)
    ensures r.Some? ==> r.value == PreEventExplore(newId, eventId, name, imageUrl, sortOrder)
    ensures db.explores == if r.Some? then old(db.explores) + [r.value] else old(db.explores)
    ensures r.Some? ==> r.value in GetPreEventExplore(db.explores, eventId, false)
  {
    if storeError || HasKey(db.explores, ExplorePk, newId) {
      return None;
    }
    var row := PreEventExplore(newId, eventId, name, imageUrl, sortOrder);
    UniqueAppend(db.explores, ExplorePk, row);
    db.explores := db.explores + [row];
    r := Some(row);
  }

  method RemovePreEventExplore(db: Db, id: string, storeError: bool) returns (ok: bool)
    requires db.Valid()
    modifies db`explores
    ensures db.Valid()
    ensures ok == !storeError
    ensures db.explores == if ok then RemoveKey(old(db.explores), ExplorePk, id) else old(db.explores)
  {
    if storeError {
      return false;
    }
    UniqueRemoveKey(db.explores, ExplorePk, id, ExplorePk);
    db.explores := RemoveKey(db.explores, ExplorePk, id);
    ok := true;
  }

  // Pre-event happening

  function GetPreEventHappening(happenings: seq<PreEventHappening>, eventId: string, storeError: bool): (r: seq<PreEventHappening>)
    ensures storeError ==> r == []
    ensures !storeError ==> forall x :: multiset(r)[x] == if x.eventId == eventId then multiset(happenings)[x] else 0
    ensures forall i :: 0 < i < |r| ==> r[i - 1].sortOrder <= r[i].sortOrder
  {
    if storeError then [] else SelectSorted(happenings, (x: PreEventHappening) => x.eventId == eventId, HappeningOrder)
  }

  method AddPreEventHappening(
    db: Db, eventId: string, imageUrl: string, altText: Option<string>, sortOrder: Option<int>,
    newId: string, storeError: bool)
    returns (r: Option<PreEventHappening>)
    requires db.Valid()
    modifies db`happenings
    ensures db.Valid()
    ensures r.Some? <==> !storeError && !HasKey(old(db.happenings), HappeningPk, newId)
    ensures r.Some? ==> r.value == PreEventHappening(newId, eventId, imageUrl, altText, OrZero(sortOrder))
    ensures db.happenings == if r.Some? then old(db.happenings) + [r.value] else old(db.happenings)
    ensures r.Some? ==> r.value in GetPreEventHappening(db.happenings, eventId, false)
  {
    if storeError || HasKey(db.happenings, HappeningPk, newId) {
      return None;
    }
    var row := PreEventHappening(newId, eventId, imageUrl, altText, OrZero(sortOrder));
    UniqueAppend(db.happenings, HappeningPk, row);
    db.happenings := db.happenings + [row];
    r := Some(row);
  }

  method RemovePreEventHappening(db: Db, id: string, storeError: bool) returns (ok: bool)
    requires db.Valid()
    modifies db`happenings
    ensures db.Valid()
    ensures ok == !storeError
    ensures db.happenings == if ok then RemoveKey(old(db.happenings), HappeningPk, id) else old(db.happenings)
  {
    if storeError {
      return false;
    }
    UniqueRemoveKey(db.happenings, HappeningPk, id, HappeningPk);
    db.happenings := RemoveKey(db.happenings, HappeningPk, id);
    ok := true;
  }

  // During-event content

  /** Only the event's active items, in ascending sort order. */
  function GetDuringEventContent(items: seq<DuringEventContent>, eventId: string, storeError: bool): (r: seq<DuringEventContent>)
    ensures storeError ==> r == []
    ensures !storeError ==> forall x :: multiset(r)[x] == if x.eventId == eventId && x.isActive then multiset(items)[x] else 0
    ensures forall i :: 0 < i < |r| ==> r[i - 1].sortOrder <= r[i].sortOrder
  {
    if storeError then []
    else SelectSorted(items, (x: DuringEventContent) => x.eventId == eventId && x.isActive, DuringOrder)
  }

  /** `isActive !== false`: an item is active unless the caller says false. */
  function ActiveUnlessFalse(isActive: Option<bool>): (b: bool)
    ensures !b <==> isActive == Some(false)
  {
    isActive != Some(false)
  }

  method AddDuringEventContent(
    db: Db, eventId: string, contentType: string, title: Option<string>, content: Option<string>,
    mediaUrl: Option<string>, isActive: Option<bool>, sortOrder: Option<int>, newId: string, storeError: bool)
    returns (r: Option<DuringEventContent>)
    requires db.Valid()
    modifies db`duringContent
    ensures db.Valid()
    ensures r.Some? <==> !storeError && !HasKey(old(db.duringContent), DuringPk, newId)
    ensures r.Some? ==> r.value == DuringEventContent(
      newId, eventId, contentType, title, content, mediaUrl, ActiveUnlessFalse(isActive), OrZero(sortOrder))
    ensures db.duringContent == if r.Some? then old(db.duringContent) + [r.value] else old(db.duringContent)
    ensures r.Some? && isActive != Some(false) ==> r.value in GetDuringEventContent(db.duringContent, eventId, false)
  {
    if storeError || HasKey(db.duringContent, DuringPk, newId) {
      return None;
    }
    var row := DuringEventContent(newId, eventId, contentType, title, content, mediaUrl, ActiveUnlessFalse(isActive), OrZero(sortOrder));
    UniqueAppend(db.duringContent, DuringPk, row);
    db.duringContent := db.duringContent + [row];
    r := Some(row);
  }

  // Post-event content

  function GetPostEventContent(items: seq<PostEventContent>, eventId: string, storeError: bool): (r: seq<PostEventContent>)
    ensures storeError ==> r == []
    ensures !storeError ==> forall x :: multiset(r)[x] == if x.eventId == eventId then multiset(items)[x] else 0
    ensures forall i :: 0 < i < |r| ==> r[i - 1].sortOrder <= r[i].sortOrder
  {
    if storeError then [] else SelectSorted(items, (x: PostEventContent) => x.eventId == eventId, PostOrder)
  }

  method AddPostEventContent(
    db: Db, eventId: string, contentType: string, title: Option<string>, content: Option<string>,
    mediaUrl: Option<string>, sortOrder: Option<int>, newId: string, storeError: bool)
    returns (r: Option<PostEventContent>)
    requires db.Valid()
    modifies db`postContent
    ensures db.Valid()
    ensures r.Some? <==> !storeError && !HasKey(old(db.postContent), PostPk, newId)
    ensures r.Some? ==> r.value == PostEventContent(newId, eventId, contentType, title, content, mediaUrl, OrZero(sortOrder))
    ensures db.postContent == if r.Some? then old(db.postContent) + [r.value] else old(db.postContent)
    ensures r.Some? ==> r.value in GetPostEventContent(db.postContent, eventId, false)
  {
    if storeError || HasKey(db.postContent, PostPk, newId) {
      return None;
    }
    var row := PostEventContent(newId, eventId, contentType, title, content, mediaUrl, OrZero(sortOrder));
    UniqueAppend(db.postContent, PostPk, row);
    db.postContent := db.postContent + [row];
    r := Some(row);
  }

  /** A removed intro slide no longer appears among its event's slides; the other slides stay. */
  lemma {:induction false} IntroAfterRemove(intros: seq<EventIntro>, id: string, eventId: string, x: EventIntro)
    requires x in intros && x.eventId == eventId
    ensures x in GetEventIntro(RemoveKey(intros, IntroPk, id), eventId, false) <==> x.id != id
  {
    var rest := RemoveKey(intros, IntroPk, id);
    var r := GetEventIntro(rest, eventId, false);
    assert x in r <==> multiset(r)[x] > 0;
    assert x in rest <==> multiset(rest)[x] > 0;
  }
}
