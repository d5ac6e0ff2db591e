/**
  The product service: creating and deleting products and moving part
  quantities in and out of them. Every change to a product's parts is
  written to the link table and to the ledger in one transaction.
 */
module Products {
  import opened Wrappers
  import opened Inventory
  import opened Availability

  /** Only the product, link and ledger tables may differ between `s` and `t`. */
  predicate KeepsCatalogue(s: Store, t: Store) {
    && t.projects == s.projects
    && t.parts == s.parts
    && t.categories == s.categories
    && t.templates == s.templates
    && t.templateParts == s.templateParts
    && t.assignees == s.assignees
    && t.balances == s.balances
    && t.users == s.users
  }

  /** Creates a product in an existing project and logs `product-created`. */
  function CreateProduct(s: Store, project: ProjectId, name: string, newId: ProductId): (r: Outcome<(Store, ProductId)>)
    requires FreshProduct(s, newId)
    ensures project !in s.projects <==> r == Err(MissingRecord)
    ensures r.Err? ==> r == Err(MissingRecord)
    ensures r.Ok? ==>
      var (t, id) := r.value;
      && id !in s.products
      && t.products.Keys == s.products.Keys + {id}
      && t.products[id] == Product(project, name)
      && (forall p :: p in s.products ==> t.products[p] == s.products[p])
      && t.links == s.links
      && t.ledger == s.ledger + [Notice(ProductCreated, Some(project), Some(id))]
      && KeepsCatalogue(s, t)
  {
    if project !in s.projects then Err(MissingRecord)
    else
      Ok((s.(products := s.products[newId := Product(project, name)],
             ledger := s.ledger + [Notice(ProductCreated, Some(project), Some(newId))]), newId))
  }

  /** Renames a product; updating a missing row is refused by the database. */
  function UpdateProduct(s: Store, product: ProductId, name: string): (r: Outcome<Store>)
    ensures product !in s.products <==> r == Err(StoreRejected)
    ensures r.Err? ==> r == Err(StoreRejected)
    ensures r.Ok? ==>
      && r.value.products.Keys == s.products.Keys
      && r.value.products[product].name == name
      && r.value.products[product].projectId == s.products[product].projectId
      && (forall p :: p in s.products && p != product ==> r.value.products[p] == s.products[p])
      && r.value.links == s.links && r.value.ledger == s.ledger
      && KeepsCatalogue(s, r.value)
  {
    if product !in s.products then Err(StoreRejected)
    else Ok(s.(products := s.products[product := s.products[product].(name := name)]))
  }

  /** `order` lists every part linked to `product` exactly once, in the order the database returns the rows. */
  ghost predicate Enumerates(order: seq<PartId>, links: map<(ProductId, PartId), int>, product: ProductId) {
    && Distinct(order)
    && forall x :: x in order <==> (product, x) in links
  }

  /** One `return` row per listed part, carrying the part's link quantity. */
  function Returns(links: map<(ProductId, PartId), int>, project: ProjectId, product: ProductId, order: seq<PartId>): (rows: seq<Activity>)
    ensures |rows| == |order|
    ensures forall i :: 0 <= i < |order| ==> rows[i] == ReturnRow(order[i], LinkQty(links, product, order[i]), project, product)
  {
    if order == [] then []
    else [ReturnRow(order[0], LinkQty(links, product, order[0]), project, product)] + Returns(links, project, product, order[1..])
  }

  /** The link table without any row of `product`. */
  function Unlink(links: map<(ProductId, PartId), int>, product: ProductId): map<(ProductId, PartId), int> {
    map k | k in links && k.0 != product :: links[k]
  }

  /**
    Deletes a product: one `return` row per linked part, then all its
    links go, then `product-deleted` is logged and the product row goes.
   */
  function DeleteProduct(s: Store, product: ProductId, order: seq<PartId>): (r: Outcome<Store>)
    requires Enumerates(order, s.links, product)
    ensures product !in s.products <==> r == Err(NotFound)
    ensures r.Err? ==> r == Err(NotFound)
    ensures r.Ok? ==>
      var t := r.value;
      var project := s.products[product].projectId;
      && t.products == s.products - {product}
      && (forall x :: (product, x) !in t.links)
      && (forall k :: k in s.links && k.0 != product ==> k in t.links && t.links[k] == s.links[k])
      && (forall k :: k in t.links ==> k in s.links)
      && |t.ledger| == |s.ledger| + |order| + 1
      && t.ledger[..|s.ledger|] == s.ledger
      && (forall i :: 0 <= i < |order| ==>
            t.ledger[|s.ledger| + i] == ReturnRow(order[i], s.links[(product, order[i])], project, product))
      && t.ledger[|t.ledger| - 1] == Notice(ProductDeleted, Some(project), Some(product))
      && KeepsCatalogue(s, t)
  {
    if product !in s.products then Err(NotFound)
    else
      var project := s.products[product].projectId;
      var rows := Returns(s.links, project, product, order) + [Notice(ProductDeleted, Some(project), Some(product))];
      Ok(s.(products := s.products - {product},
            links := Unlink(s.links, product),
            ledger := s.ledger + rows))
  }

  /**
    Adds a part to a product. The stock check comes first, so a part that
    is already linked but short reports insufficiency, not duplication.
   */
  function AddPartToProduct(s: Store, product: ProductId, part: PartId, quantity: int): (r: Outcome<Store>)
    ensures IsShort(s.balances, part, quantity) ==> r == Err(InsufficientInventory)
    ensures !IsShort(s.balances, part, quantity) && (product, part) in s.links ==> r == Err(AlreadyAllocated)
    ensures r.Ok? <==>
      !IsShort(s.balances, part, quantity) && (product, part) !in s.links && product in s.products && part in s.parts
    ensures (!IsShort(s.balances, part, quantity) && (product, part) !in s.links &&
             (product !in s.products || part !in s.parts)) ==> r == Err(StoreRejected)
    ensures r.Ok? ==>
      var t := r.value;
      && t.links.Keys == s.links.Keys + {(product, part)}
      && t.links[(product, part)] == quantity
      && (forall k :: k in s.links ==> t.links[k] == s.links[k])
      && t.products == s.products
      && t.ledger == s.ledger + [AllocationRow(part, quantity, None, product)]
      && KeepsCatalogue(s, t)
  {
    if IsShort(s.balances, part, quantity) then Err(InsufficientInventory)
    else if (product, part) in s.links then Err(AlreadyAllocated)
    // the new link row's foreign keys
    else if product !in s.products || part !in s.parts then Err(StoreRejected)
    else
      Ok(s.(links := s.links[(product, part) := quantity],
            ledger := s.ledger + [AllocationRow(part, quantity, None, product)]))
  }

  /** The ledger rows that record moving a link by `delta`. */
  function DeltaRows(part: PartId, product: ProductId, delta: int): seq<Activity> {
    if delta > 0 then [AllocationRow(part, delta, None, product)]
    else if delta < 0 then [DeallocationRow(part, -delta, product)]
    else []
  }

  /**
    Sets a linked part's quantity. Only an increase consults the balance,
    and only for the increase; the ledger records the signed difference
    as one allocation or one deallocation, or nothing when it is zero.
   */
  function UpdatePartInProduct(s: Store, product: ProductId, part: PartId, newQuantity: int): (r: Outcome<Store>)
    ensures newQuantity <= 0 ==> r == Err(InvalidQuantity)
    ensures newQuantity > 0 && (product, part) !in s.links ==> r == Err(NotFound)
    ensures newQuantity > 0 && (product, part) in s.links ==>
      var delta := newQuantity - s.links[(product, part)];
      && (r.Err? <==> delta > 0 && IsShort(s.balances, part, delta))
      && (r.Err? ==> r.error == InsufficientInventory)
    ensures r.Ok? ==>
      var t := r.value;
      var delta := newQuantity - s.links[(product, part)];
      && t.links == s.links[(product, part) := newQuantity]
      && t.products == s.products
      && (delta > 0 ==> t.ledger == s.ledger + [AllocationRow(part, delta, None, product)])
      && (delta < 0 ==> t.ledger == s.ledger + [DeallocationRow(part, -delta, product)] && -delta > 0)
      && (delta == 0 ==> t.ledger == s.ledger)
      && KeepsCatalogue(s, t)
  {
    if newQuantity <= 0 then Err(InvalidQuantity)
    else if (product, part) !in s.links then Err(NotFound)
    else
      var delta := newQuantity - s.links[(product, part)];
      if delta > 0 && IsShort(s.balances, part, delta) then Err(InsufficientInventory)
      else
        Ok(s.(links := s.links[(product, part) := newQuantity],
              ledger := s.ledger + DeltaRows(part, product, delta)))
  }

  /** Unlinks a part and logs one deallocation of the whole removed quantity. */
  function RemovePartFromProduct(s: Store, product: ProductId, part: PartId): (r: Outcome<Store>)
    ensures (product, part) !in s.links <==> r == Err(NotFound)
    ensures r.Err? ==> r == Err(NotFound)
    ensures r.Ok? ==>
      var t := r.value;
      && t.links.Keys == s.links.Keys - {(product, part)}
      && (forall k :: k in t.links ==> t.links[k] == s.links[k])
      && t.products == s.products
      && t.ledger == s.ledger + [DeallocationRow(part, s.links[(product, part)], product)]
      && KeepsCatalogue(s, t)
  {
    if (product, part) !in s.links then Err(NotFound)
    else
      Ok(s.(links := s.links - {(product, part)},
            ledger := s.ledger + [DeallocationRow(part, s.links[(product, part)], product)]))
  }

  /**
    A change that does not increase the quantity never reads the balance:
    the outcome is the same under any balance snapshot.
   */
  lemma UpdateIgnoresBalancesUnlessIncreasing(s: Store, balances: map<PartId, int>, product: ProductId, part: PartId, newQuantity: int)
    requires (product, part) in s.links ==> newQuantity <= s.links[(product, part)]
    ensures var r := UpdatePartInProduct(s, product, part, newQuantity);
      var r' := UpdatePartInProduct(s.(balances := balances), product, part, newQuantity);
      && r.Ok? == r'.Ok?
      && (r.Err? ==> r.error == r'.error)
      && (r.Ok? ==> r'.value == r.value.(balances := balances))
  {
  }
}
