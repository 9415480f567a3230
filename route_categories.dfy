/** The admin categories endpoint (app/api/categories/route.ts): any signed-in admin may list and create. */
module CategoriesRoute {
  import opened Wrappers
  import opened Types
  import opened Seqs
  import opened Database
  import opened Http
  import Text
  import Categories

  /** GET: the session chain, then every category by name. */
  function Get(admins: seq<AdminRow>, categories: seq<EventCategory>, cookie: Option<string>, storeError: bool)
    : (r: Response<seq<EventCategory>>)
    ensures r.Failure? <==> !ResolveSession(admins, cookie).Authenticated?
    ensures r.Failure? ==> r == SessionFailure(ResolveSession(admins, cookie))
    ensures r.Success? ==> r.status == 200 && (forall i :: 0 < i < |r.data| ==> Text.LexLe(r.data[i - 1].name, r.data[i].name))
    ensures r.Success? && storeError ==> r.data == []
    ensures r.Success? && !storeError ==> multiset(r.data) == multiset(categories)
  {
    var s := ResolveSession(admins, cookie);
    if !s.Authenticated? then SessionFailure(s) else Success(200, Categories.GetAllCategories(categories, storeError))
  }

  datatype CreateCategoryBody = CreateCategoryBody(name: Option<string>, description: Option<string>)

  /** POST: the session chain (no role check), then a name is required, then one insert. */
  method Post(db: Db, cookie: Option<string>, body: Option<CreateCategoryBody>, newId: string, storeError: bool)
    returns (r: Response<EventCategory>)
    requires db.Valid()
    modifies db`categories
    ensures db.Valid()
    ensures !ResolveSession(db.admins, cookie).Authenticated? ==> r == SessionFailure(ResolveSession(db.admins, cookie))
    ensures ResolveSession(db.admins, cookie).Authenticated? && body.Some? && !Truthy(body.value.name) ==>
      r == Failure(400, "Category name is required")
    ensures ResolveSession(db.admins, cookie).Authenticated? && body.None? ==> r == Failure(500, InternalError)
    ensures ResolveSession(db.admins, cookie).Authenticated? && body.Some? && Truthy(body.value.name) && r.Failure? ==>
      r == Failure(500, "Failed to create category")
    ensures r.Success? <==>
      && ResolveSession(db.admins, cookie).Authenticated? && body.Some? && Truthy(body.value.name)
      && !storeError && !HasKey(old(db.categories), CategoryPk, newId)
    ensures r.Success? ==> r.status == 201 && r.data == EventCategory(newId, body.value.name.value, body.value.description)
    ensures db.categories == if r.Success? then old(db.categories) + [r.data] else old(db.categories)
  {
    var s := ResolveSession(db.admins, cookie);
    if !s.Authenticated? {
      return SessionFailure(s);
    }
    if body.None? {
      return Failure(500, InternalError);
    }
    var b := body.value;
    if !Truthy(b.name) {
      return Failure(400, "Category name is required");
    }
    var created := Categories.CreateCategory(db, b.name.value, b.description, newId, storeError);
    if created.None? {
      return Failure(500, "Failed to create category");
    }
    r := Success(201, created.value);
  }
}
