/**
 * Event categories (lib/categories.ts): a sorted listing, lookup by id,
 * creation, sparse update and delete.
 */
module Categories {
  import opened Wrappers
  import opened Types
  import opened Seqs
  import opened Database
  import Text

  function CategoryName(c: EventCategory): string { c.name }

  /** Every category by name ascending; a failed read gives []. */
  function GetAllCategories(categories: seq<EventCategory>, storeError: bool): (r: seq<EventCategory>)
    ensures storeError ==> r == []
    ensures !storeError ==> multiset(r) == multiset(categories)
    ensures forall i :: 0 < i < |r| ==> Text.LexLe(r[i - 1].name, r[i].name)
  {
    if storeError then [] else SortByText(categories, CategoryName)
  }

  /** The category with that id; an unknown id gives null. */
  function GetCategoryById(categories: seq<EventCategory>, id: string): (r: Option<EventCategory>)
    ensures r.Some? <==> HasKey(categories, CategoryPk, id)
    ensures r.Some? ==> r.value in categories && r.value.id == id
  {
    FindByKey(categories, CategoryPk, id)
  }

  method CreateCategory(db: Db, name: string, description: Option<string>, newId: string, storeError: bool)
    returns (r: Option<EventCategory>)
    requires db.Valid()
    modifies db`categories
    ensures db.Valid()
    ensures r.Some? <==> !storeError && !HasKey(old(db.categories), CategoryPk, newId)
    ensures r.Some? ==> r.value == EventCategory(newId, name, description)
    ensures db.categories == if r.Some? then old(db.categories) + [r.value] else old(db.categories)
    ensures r.Some? ==> GetCategoryById(db.categories, newId) == r
  {
    if storeError || HasKey(db.categories, CategoryPk, newId) {
      return None;
    }
    var row := EventCategory(newId, name, description);
    FindByKeyAfterAppend(db.categories, CategoryPk, row);
    UniqueAppend(db.categories, CategoryPk, row);
    db.categories := db.categories + [row];
    r := Some(row);
  }

  /** The fields an update may write; a left-out field keeps its value. */
  datatype CategoryPatch = CategoryPatch(name: Option<string>, description: Field<string>)

  function ApplyCategoryPatch(c: EventCategory, p: CategoryPatch): (r: EventCategory)
    ensures r.id == c.id
    ensures r.name == (if p.name.Some? then p.name.value else c.name)
    ensures p.description.Undefined? ==> r.description == c.description
    ensures p.description.Null? ==> r.description.None?
    ensures p.description.Present? ==> r.description == Some(p.description.value)
  {
    EventCategory(c.id, p.name.GetOr(c.name), ApplyField(p.description, c.description))
  }

  function CategoryPatcher(p: CategoryPatch): EventCategory -> EventCategory {
    (c: EventCategory) => ApplyCategoryPatch(c, p)
  }

  /** Writes the given fields of the category with that id, and only of it. */
  method UpdateCategory(db: Db, id: string, patch: CategoryPatch, storeError: bool) returns (r: Option<EventCategory>)
    requires db.Valid()
    modifies db`categories
    ensures db.Valid()
    ensures r.Some? <==> !storeError && HasKey(old(db.categories), CategoryPk, id)
    ensures db.categories == if storeError then old(db.categories)
                             else UpdateKey(old(db.categories), CategoryPk, id, CategoryPatcher(patch))
    ensures r.Some? ==> GetCategoryById(db.categories, id) == r
    ensures r.Some? ==> exists c :: c in old(db.categories) && c.id == id && r.value == ApplyCategoryPatch(c, patch)
  {
    if storeError {
      return None;
    }
    var found := GetCategoryById(db.categories, id);
    UniqueUpdateKey(db.categories, CategoryPk, id, CategoryPatcher(patch), CategoryPk);
    if found.Some? {
      FindByKeyAfterUpdate(db.categories, CategoryPk, CategoryPatcher(patch), found.value);
      r := Some(ApplyCategoryPatch(found.value, patch));
    } else {
      r := None;
    }
    db.categories := UpdateKey(db.categories, CategoryPk, id, CategoryPatcher(patch));
  }

  method DeleteCategory(db: Db, id: string, storeError: bool) returns (ok: bool)
    requires db.Valid()
    modifies db`categories
    ensures db.Valid()
    ensures ok == !storeError
    ensures db.categories == if ok then RemoveKey(old(db.categories), CategoryPk, id) else old(db.categories)
    ensures ok ==> GetCategoryById(db.categories, id).None?
  {
    if storeError {
      return false;
    }
    UniqueRemoveKey(db.categories, CategoryPk, id, CategoryPk);
    db.categories := RemoveKey(db.categories, CategoryPk, id);
    ok := true;
  }

  /** An update leaves every other category as it was. */
  lemma {:induction false} UpdateCategoryKeepsOthers(categories: seq<EventCategory>, id: string, patch: CategoryPatch, c: EventCategory)
    requires Unique(categories, CategoryPk)
    requires c in categories && c.id != id
    ensures GetCategoryById(UpdateKey(categories, CategoryPk, id, CategoryPatcher(patch)), c.id) == Some(c)
  {
    var r := UpdateKey(categories, CategoryPk, id, CategoryPatcher(patch));
    var i :| 0 <= i < |categories| && categories[i] == c;
    assert r[i] == c;
    UniqueUpdateKey(categories, CategoryPk, id, CategoryPatcher(patch), CategoryPk);
    FindByKeyUnique(r, CategoryPk, c);
  }
}
