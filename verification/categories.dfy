/**
  The category service: creation, the active listing, patch updates and
  the guarded soft delete.
 */
module Categories {
  import opened Wrappers
  import opened Inventory
  import opened Listing

  /** The fields an update may supply; `None` leaves the field as it is. */
  datatype CategoryPatch = CategoryPatch(name: Option<string>, active: Option<bool>)

  /** Creates an active category; nothing is logged. */
  function CreateCategory(s: Store, name: string, newId: CategoryId): (r: (Store, CategoryId))
    requires newId !in s.categories
    ensures var (t, id) := r;
      && id == newId
      && t.categories.Keys == s.categories.Keys + {id}
      && t.categories[id] == Category(name, true)
      && (forall c :: c in s.categories ==> t.categories[c] == s.categories[c])
      && t == s.(categories := t.categories)
  {
    (s.(categories := s.categories[newId := Category(name, true)]), newId)
  }

  /** The listing view of the category table. */
  function CategoryEntries(s: Store): map<nat, Entry> {
    map c | c in s.categories :: Entry(s.categories[c].name, s.categories[c].active)
  }

  /** The active categories, ordered by name. */
  method GetAllCategories(s: Store) returns (ids: seq<CategoryId>)
    ensures forall c :: c in ids <==> c in s.categories && s.categories[c].active
    ensures Distinct(ids)
    ensures forall i, j :: 0 <= i < j < |ids| ==> NameLe(s.categories[ids[i]].name, s.categories[ids[j]].name)
  {
    var entries := CategoryEntries(s);
    ids := ListActive(entries);
    forall i, j | 0 <= i < j < |ids|
      ensures NameLe(s.categories[ids[i]].name, s.categories[ids[j]].name)
    {
      assert NameLe(NameOf(entries, ids[i]), NameOf(entries, ids[j]));
    }
  }

  /** Changes the supplied fields of a category; updating a missing row is refused. */
  function UpdateCategory(s: Store, id: CategoryId, patch: CategoryPatch): (r: Outcome<Store>)
    ensures id !in s.categories <==> r == Err(StoreRejected)
    ensures r.Err? ==> r == Err(StoreRejected)
    ensures r.Ok? ==>
      var t := r.value;
      && t.categories.Keys == s.categories.Keys
      && t.categories[id].name == patch.name.GetOr(s.categories[id].name)
      && t.categories[id].active == patch.active.GetOr(s.categories[id].active)
      && (forall c :: c in s.categories && c != id ==> t.categories[c] == s.categories[c])
      && t == s.(categories := t.categories)
  {
    if id !in s.categories then Err(StoreRejected)
    else
      var c := s.categories[id];
      Ok(s.(categories := s.categories[id := Category(patch.name.GetOr(c.name), patch.active.GetOr(c.active))]))
  }

  /** Some active part still points at category `id`. */
  predicate InUse(s: Store, id: CategoryId) {
    exists p :: p in s.parts && s.parts[p].categoryId == id && s.parts[p].active
  }

  /**
    Soft-deletes a category unless an active part uses it. The guard
    runs before the update, so a refused delete leaves the category as
    it was; a missing category with no parts is refused by the update.
   */
  function DeleteCategory(s: Store, id: CategoryId): (r: Outcome<Store>)
    ensures InUse(s, id) <==> r == Err(CategoryInUse)
    ensures !InUse(s, id) && id !in s.categories <==> r == Err(StoreRejected)
    ensures r.Ok? <==> !InUse(s, id) && id in s.categories
    ensures r.Ok? ==>
      var t := r.value;
      && t.categories.Keys == s.categories.Keys
      && t.categories[id] == s.categories[id].(active := false)
      && (forall c :: c in s.categories && c != id ==> t.categories[c] == s.categories[c])
      && t == s.(categories := t.categories)
  {
    if InUse(s, id) then Err(CategoryInUse)
    else if id !in s.categories then Err(StoreRejected)
    else Ok(s.(categories := s.categories[id := s.categories[id].(active := false)]))
  }

  /** Every active part sits in an active category: what the delete guard protects. */
  ghost predicate ActiveCover(s: Store) {
    forall p :: p in s.parts && s.parts[p].active ==>
      s.parts[p].categoryId in s.categories && s.categories[s.parts[p].categoryId].active
  }

  /** A successful delete never leaves an active part in an inactive category. */
  lemma DeleteCategoryKeepsCover(s: Store, id: CategoryId)
    requires ActiveCover(s)
    requires DeleteCategory(s, id).Ok?
    ensures ActiveCover(DeleteCategory(s, id).value)
  {
    var t := DeleteCategory(s, id).value;
    forall p | p in t.parts && t.parts[p].active
      ensures t.parts[p].categoryId in t.categories && t.categories[t.parts[p].categoryId].active
    {
      assert s.parts[p].categoryId != id;
    }
  }

  /**
    The guard lives only in the delete: whenever an active part uses a
    category, the delete is refused, yet an update that clears the active
    flag goes through and leaves that part in an inactive category.
   */
  lemma UpdateCategoryBypassesGuard(s: Store, id: CategoryId)
    requires ActiveCover(s) && InUse(s, id)
    ensures DeleteCategory(s, id) == Err(CategoryInUse)
    ensures UpdateCategory(s, id, CategoryPatch(None, Some(false))).Ok?
    ensures !ActiveCover(UpdateCategory(s, id, CategoryPatch(None, Some(false))).value)
  {
    var p :| p in s.parts && s.parts[p].categoryId == id && s.parts[p].active;
    var t := UpdateCategory(s, id, CategoryPatch(None, Some(false))).value;
    assert t.parts[p].active && t.parts[p].categoryId == id && !t.categories[id].active;
  }

  /** Applying the same update twice changes nothing the first did not. */
  lemma UpdateCategoryIdempotent(s: Store, id: CategoryId, patch: CategoryPatch)
    requires UpdateCategory(s, id, patch).Ok?
    ensures UpdateCategory(UpdateCategory(s, id, patch).value, id, patch) == UpdateCategory(s, id, patch)
  {
    var t := UpdateCategory(s, id, patch).value;
    assert t.categories[id := t.categories[id]] == t.categories;
  }

  /** Updating a category never removes a row, so every part keeps its category. */
  lemma UpdateCategoryKeepsValid(s: Store, id: CategoryId, patch: CategoryPatch)
    requires Valid(s)
    requires UpdateCategory(s, id, patch).Ok?
    ensures Valid(UpdateCategory(s, id, patch).value)
  {
  }

  /** A fresh category is active and no part uses it yet, so the cover is kept. */
  lemma CreateCategoryKeepsCover(s: Store, name: string, newId: CategoryId)
    requires newId !in s.categories && ActiveCover(s)
    ensures ActiveCover(CreateCategory(s, name, newId).0)
    ensures Valid(s) ==> Valid(CreateCategory(s, name, newId).0)
  {
  }

  /**
    In a store whose parts all name existing categories, a category just
    created is used by no part, so deleting it succeeds and only flips its
    active flag.
   */
  lemma CreateThenDeleteCategory(s: Store, name: string, newId: CategoryId)
    requires newId !in s.categories && Valid(s)
    ensures DeleteCategory(CreateCategory(s, name, newId).0, newId)
      == Ok(s.(categories := s.categories[newId := Category(name, false)]))
  {
    var t := CreateCategory(s, name, newId).0;
    assert !InUse(t, newId) by {
      forall p | p in t.parts ensures t.parts[p].categoryId != newId {
        assert s.parts[p].categoryId in s.categories;
      }
    }
    assert t.categories[newId := Category(name, false)] == s.categories[newId := Category(name, false)];
  }
}
