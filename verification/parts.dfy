/**
  The part service: creation with its zero-quantity receipt, the active
  listing, lookup with the balance, patch updates and soft deletion.
  Part numbers (SKUs) are unique across the table and every part names
  an existing category.
 */
module Parts {
  import opened Wrappers
  import opened Inventory
  import opened Listing

  /** The fields an update may supply; `None` leaves the field as it is. */
  datatype PartPatch = PartPatch(
    name: Option<string>,
    sku: Option<string>,
    categoryId: Option<CategoryId>,
    description: Option<string>,
    active: Option<bool>)

  /** Some part other than `except` already carries `sku`. */
  predicate SkuTaken(s: Store, sku: string, except: Option<PartId>) {
    exists p :: p in s.parts && Some(p) != except && s.parts[p].sku == sku
  }

  /** No two parts share a SKU: the table's unique key. */
  ghost predicate UniqueSkus(s: Store) {
    forall p, q :: p in s.parts && q in s.parts && p != q ==> s.parts[p].sku != s.parts[q].sku
  }

  /** The receipt logged for a new part: zero units, tagged with the category's name. */
  function CreatedReceipt(part: PartId, categoryName: string): Activity {
    Activity(Receive, Some(part), Some(0), None, None, Some(categoryName))
  }

  /**
    Creates an active part and logs one receipt of zero units for it.
    The insert is refused for an unknown category or a SKU already in use.
   */
  function CreatePart(s: Store, name: string, sku: string, category: CategoryId,
                      description: Option<string>, newId: PartId): (r: Outcome<(Store, PartId)>)
    requires newId !in s.parts
    ensures r.Err? <==> category !in s.categories || SkuTaken(s, sku, None)
    ensures r.Err? ==> r.error == StoreRejected
    ensures r.Ok? ==>
      var (t, id) := r.value;
      && id == newId
      && t.parts.Keys == s.parts.Keys + {id}
      && t.parts[id] == Part(name, sku, category, description, true)
      && (forall p :: p in s.parts ==> t.parts[p] == s.parts[p])
      && t.ledger == s.ledger + [CreatedReceipt(id, s.categories[category].name)]
      && t == s.(parts := t.parts, ledger := t.ledger)
  {
    if category !in s.categories || SkuTaken(s, sku, None) then Err(StoreRejected)
    else
      Ok((s.(parts := s.parts[newId := Part(name, sku, category, description, true)],
             ledger := s.ledger + [CreatedReceipt(newId, s.categories[category].name)]), newId))
  }

  /** The listing view of the part table. */
  function PartEntries(s: Store): map<nat, Entry> {
    map p | p in s.parts :: Entry(s.parts[p].name, s.parts[p].active)
  }

  /** The active parts, ordered by name. */
  method GetAllParts(s: Store) returns (ids: seq<PartId>)
    ensures forall p :: p in ids <==> p in s.parts && s.parts[p].active
    ensures Distinct(ids)
    ensures forall i, j :: 0 <= i < j < |ids| ==> NameLe(s.parts[ids[i]].name, s.parts[ids[j]].name)
  {
    var entries := PartEntries(s);
    ids := ListActive(entries);
    forall i, j | 0 <= i < j < |ids|
      ensures NameLe(s.parts[ids[i]].name, s.parts[ids[j]].name)
    {
      assert NameLe(NameOf(entries, ids[i]), NameOf(entries, ids[j]));
    }
  }

  /** One part with its balance, when it has a balance row; an unknown id is a 404, inactive parts are found too. */
  function GetPartById(s: Store, id: PartId): (r: Outcome<(Part, Option<int>)>)
    ensures id !in s.parts <==> r == Err(NotFound)
    ensures r.Err? ==> r == Err(NotFound)
    ensures r.Ok? ==> r.value.0 == s.parts[id]
    ensures r.Ok? ==> (r.value.1.Some? <==> id in s.balances)
    ensures r.Ok? && id in s.balances ==> r.value.1 == Some(s.balances[id])
  {
    if id !in s.parts then Err(NotFound)
    else Ok((s.parts[id], if id in s.balances then Some(s.balances[id]) else None))
  }

  /** The part row after an update: supplied fields replace, absent ones stay. */
  function Patched(p: Part, patch: PartPatch): Part {
    Part(patch.name.GetOr(p.name), patch.sku.GetOr(p.sku), patch.categoryId.GetOr(p.categoryId),
         if patch.description.Some? then patch.description else p.description,
         patch.active.GetOr(p.active))
  }

  /**
    Changes the supplied fields of a part. Updating a missing row, moving
    it to an unknown category or taking another part's SKU is refused.
   */
  function UpdatePart(s: Store, id: PartId, patch: PartPatch): (r: Outcome<Store>)
    ensures r.Err? <==>
      || id !in s.parts
      || (patch.categoryId.Some? && patch.categoryId.value !in s.categories)
      || (patch.sku.Some? && SkuTaken(s, patch.sku.value, Some(id)))
    ensures r.Err? ==> r.error == StoreRejected
    ensures r.Ok? ==> r.value.parts.Keys == s.parts.Keys
    ensures r.Ok? ==>
      var t := r.value;
      var (was, now) := (s.parts[id], t.parts[id]);
      && now.name == patch.name.GetOr(was.name)
      && now.sku == patch.sku.GetOr(was.sku)
      && now.categoryId == patch.categoryId.GetOr(was.categoryId)
      && now.description == (if patch.description.Some? then patch.description else was.description)
      && now.active == patch.active.GetOr(was.active)
      && (forall p :: p in s.parts && p != id ==> t.parts[p] == s.parts[p])
      && t == s.(parts := t.parts)
  {
    if id !in s.parts then Err(StoreRejected)
    else if patch.categoryId.Some? && patch.categoryId.value !in s.categories then Err(StoreRejected)
    else if patch.sku.Some? && SkuTaken(s, patch.sku.value, Some(id)) then Err(StoreRejected)
    else Ok(s.(parts := s.parts[id := Patched(s.parts[id], patch)]))
  }

  /** Soft-deletes a part: only its active flag changes, and its SKU stays taken. */
  function DeletePart(s: Store, id: PartId): (r: Outcome<Store>)
    ensures id !in s.parts <==> r == Err(StoreRejected)
    ensures r.Err? ==> r == Err(StoreRejected)
    ensures r.Ok? ==>
      && r.value.parts.Keys == s.parts.Keys
      && r.value.parts[id] == s.parts[id].(active := false)
      && (forall p :: p in s.parts && p != id ==> r.value.parts[p] == s.parts[p])
      && r.value == s.(parts := r.value.parts)
  {
    if id !in s.parts then Err(StoreRejected)
    else Ok(s.(parts := s.parts[id := s.parts[id].(active := false)]))
  }

  /** Creating a part keeps SKUs unique. */
  lemma CreatePartKeepsSkusUnique(s: Store, name: string, sku: string, category: CategoryId,
                                  description: Option<string>, newId: PartId)
    requires newId !in s.parts && UniqueSkus(s)
    requires CreatePart(s, name, sku, category, description, newId).Ok?
    ensures UniqueSkus(CreatePart(s, name, sku, category, description, newId).value.0)
  {
    var t := CreatePart(s, name, sku, category, description, newId).value.0;
    forall p, q | p in t.parts && q in t.parts && p != q ensures t.parts[p].sku != t.parts[q].sku {
      if p == newId {
        assert !(q in s.parts && Some(q) != None && s.parts[q].sku == sku);
      } else if q == newId {
        assert !(p in s.parts && Some(p) != None && s.parts[p].sku == sku);
      }
    }
  }

  /** Updating a part keeps SKUs unique. */
  lemma UpdatePartKeepsSkusUnique(s: Store, id: PartId, patch: PartPatch)
    requires UniqueSkus(s)
    requires UpdatePart(s, id, patch).Ok?
    ensures UniqueSkus(UpdatePart(s, id, patch).value)
  {
    var t := UpdatePart(s, id, patch).value;
    forall p, q | p in t.parts && q in t.parts && p != q ensures t.parts[p].sku != t.parts[q].sku {
      if patch.sku.Some? {
        if p == id {
          assert !(q in s.parts && Some(q) != Some(id) && s.parts[q].sku == patch.sku.value);
        } else if q == id {
          assert !(p in s.parts && Some(p) != Some(id) && s.parts[p].sku == patch.sku.value);
        }
      }
    }
  }

  /** A soft delete keeps the row, so SKUs stay unique. */
  lemma DeletePartKeepsSkusUnique(s: Store, id: PartId)
    requires UniqueSkus(s)
    requires DeletePart(s, id).Ok?
    ensures UniqueSkus(DeletePart(s, id).value)
  {
    var t := DeletePart(s, id).value;
    forall p, q | p in t.parts && q in t.parts && p != q ensures t.parts[p].sku != t.parts[q].sku {
      assert t.parts[p].sku == s.parts[p].sku && t.parts[q].sku == s.parts[q].sku;
    }
  }

  /** A deleted part's SKU stays taken: creating another part with it is refused. */
  lemma DeletedSkuStaysTaken(s: Store, id: PartId, name: string, category: CategoryId,
                             description: Option<string>, newId: PartId)
    requires DeletePart(s, id).Ok? && newId !in s.parts
    ensures CreatePart(DeletePart(s, id).value, name, s.parts[id].sku, category, description, newId) == Err(StoreRejected)
  {
    var t := DeletePart(s, id).value;
    assert id in t.parts && Some(id) != None && t.parts[id].sku == s.parts[id].sku;
  }

  /** A deleted part is still found by id, now inactive, with its balance. */
  lemma DeletedPartStillFound(s: Store, id: PartId)
    requires DeletePart(s, id).Ok?
    ensures GetPartById(DeletePart(s, id).value, id).Ok?
    ensures GetPartById(DeletePart(s, id).value, id).value.0 == s.parts[id].(active := false)
    ensures GetPartById(DeletePart(s, id).value, id).value.1 == GetPartById(s, id).value.1
  {
  }
}
