/**
  Properties that relate several services: every allocation service keeps
  the ledger's account equal to the link table, the template application
  refuses exactly what the availability check reports, and the foreign
  keys stay intact.
 */
module Invariants {
  import opened Wrappers
  import opened Inventory
  import opened Ledger
  import opened Availability
  import opened Products
  import opened Projects
  import Templates
  import Categories
  import Parts
  import Activities

  // ---------------------------------------------------------------------
  // The allocation account
  // ---------------------------------------------------------------------

  /** Adding a part to a product moves the account and the link by the same quantity. */
  lemma AddPartKeepsBalance(s: Store, product: ProductId, part: PartId, quantity: int)
    requires Balanced(s)
    requires AddPartToProduct(s, product, part, quantity).Ok?
    ensures Balanced(AddPartToProduct(s, product, part, quantity).value)
  {
    var t := AddPartToProduct(s, product, part, quantity).value;
    var row := AllocationRow(part, quantity, None, product);
    AppendOne(s.ledger, row, s.links, t.links, product, part);
  }

  /** Changing a link's quantity books exactly the difference. */
  lemma UpdatePartKeepsBalance(s: Store, product: ProductId, part: PartId, newQuantity: int)
    requires Balanced(s)
    requires UpdatePartInProduct(s, product, part, newQuantity).Ok?
    ensures Balanced(UpdatePartInProduct(s, product, part, newQuantity).value)
  {
    var t := UpdatePartInProduct(s, product, part, newQuantity).value;
    var delta := newQuantity - s.links[(product, part)];
    if delta > 0 {
      AppendOne(s.ledger, AllocationRow(part, delta, None, product), s.links, t.links, product, part);
    } else if delta < 0 {
      AppendOne(s.ledger, DeallocationRow(part, -delta, product), s.links, t.links, product, part);
    } else {
      assert t.links == s.links;
    }
  }

  /** Removing a link books its whole quantity back. */
  lemma RemovePartKeepsBalance(s: Store, product: ProductId, part: PartId)
    requires Balanced(s)
    requires RemovePartFromProduct(s, product, part).Ok?
    ensures Balanced(RemovePartFromProduct(s, product, part).value)
  {
    var t := RemovePartFromProduct(s, product, part).value;
    AppendOne(s.ledger, DeallocationRow(part, s.links[(product, part)], product), s.links, t.links, product, part);
  }

  /** The return rows of a product deletion take back exactly the listed links. */
  lemma {:induction false} NetReturns(links: map<(ProductId, PartId), int>, project: ProjectId, product: ProductId,
                                      order: seq<PartId>, p: ProductId, q: PartId)
    requires Distinct(order)
    ensures Net(Returns(links, project, product, order), p, q)
      == if p == product && q in order then -LinkQty(links, product, q) else 0
  {
    if order != [] {
      var rows := Returns(links, project, product, order);
      assert rows[1..] == Returns(links, project, product, order[1..]);
      NetReturns(links, project, product, order[1..], p, q);
      assert q in order <==> q == order[0] || q in order[1..] by {
        assert order == [order[0]] + order[1..];
      }
    }
  }

  /** Deleting a product returns every link it held, so the account of each of its pairs drops to zero with the link. */
  lemma DeleteProductKeepsBalance(s: Store, product: ProductId, order: seq<PartId>)
    requires Balanced(s)
    requires Enumerates(order, s.links, product)
    requires DeleteProduct(s, product, order).Ok?
    ensures Balanced(DeleteProduct(s, product, order).value)
  {
    var t := DeleteProduct(s, product, order).value;
    var project := s.products[product].projectId;
    var backs := Returns(s.links, project, product, order);
    var notice := Notice(ProductDeleted, Some(project), Some(product));
    assert t.ledger == s.ledger + (backs + [notice]);
    forall p: ProductId, q: PartId ensures Net(t.ledger, p, q) == LinkQty(t.links, p, q) {
      NetAppend(s.ledger, backs + [notice], p, q);
      NetAppend(backs, [notice], p, q);
      assert Net([notice], p, q) == 0;
      NetReturns(s.links, project, product, order, p, q);
    }
  }

  /** The total quantity the lines ask of `part`. */
  function QtyIn(lines: seq<TemplateLine>, part: PartId): int {
    if lines == [] then 0
    else (if lines[0].partId == part then lines[0].quantity else 0) + QtyIn(lines[1..], part)
  }

  lemma {:induction false} QtyInAbsent(lines: seq<TemplateLine>, part: PartId)
    requires part !in PartIdsOf(lines)
    ensures QtyIn(lines, part) == 0
  {
    if lines != [] {
      assert PartIdsOf(lines) == [lines[0].partId] + PartIdsOf(lines[1..]);
      QtyInAbsent(lines[1..], part);
    }
  }

  /** A template's allocation rows book each line's quantity against the new product. */
  lemma {:induction false} NetAllocations(lines: seq<TemplateLine>, project: ProjectId, id: ProductId,
                                          p: ProductId, q: PartId)
    ensures Net(Allocations(lines, project, id), p, q) == if p == id then QtyIn(lines, q) else 0
  {
    if lines != [] {
      var rows := Allocations(lines, project, id);
      assert rows[1..] == Allocations(lines[1..], project, id);
      NetAllocations(lines[1..], project, id, p, q);
    }
  }

  /** With each part listed once, the placed link of a listed part carries its line's quantity. */
  lemma {:induction false} PlaceQty(links: map<(ProductId, PartId), int>, id: ProductId, lines: seq<TemplateLine>, q: PartId)
    requires Distinct(PartIdsOf(lines))
    ensures LinkQty(Place(links, id, lines), id, q)
      == if q in PartIdsOf(lines) then QtyIn(lines, q) else LinkQty(links, id, q)
    decreases lines
  {
    if lines != [] {
      var ids := PartIdsOf(lines);
      assert ids == [lines[0].partId] + PartIdsOf(lines[1..]);
      assert ids[1..] == PartIdsOf(lines[1..]);
      var links' := links[(id, lines[0].partId) := lines[0].quantity];
      PlaceQty(links', id, lines[1..], q);
      if q == lines[0].partId {
        QtyInAbsent(lines[1..], q);
      }
    }
  }

  /** Stamping a product out of a template books one allocation per link it creates. */
  lemma AddProductFromTemplateKeepsBalance(s: Store, project: ProjectId, template: TemplateId,
                                           productName: Option<string>, newId: ProductId)
    requires Balanced(s) && FreshProduct(s, newId)
    requires AddProductFromTemplate(s, project, template, productName, newId).Ok?
    ensures Balanced(AddProductFromTemplate(s, project, template, productName, newId).value.0)
  {
    var t := AddProductFromTemplate(s, project, template, productName, newId).value.0;
    var lines := LinesOf(s, template);
    var name := ProductNameFor(productName, s.templates[template].name);
    assert t == Stamp(s, project, name, lines, newId);
    assert t.links == Place(s.links, newId, lines);
    assert t.ledger == s.ledger + Allocations(lines, project, newId);
    forall p: ProductId, q: PartId ensures Net(t.ledger, p, q) == LinkQty(t.links, p, q) {
      NetAppend(s.ledger, Allocations(lines, project, newId), p, q);
      NetAllocations(lines, project, newId, p, q);
      if p == newId {
        assert (newId, q) !in s.links;
        PlaceQty(s.links, newId, lines, q);
        if q !in PartIdsOf(lines) {
          QtyInAbsent(lines, q);
        }
      } else {
        assert (p, q) in t.links <==> (p, q) in s.links;
      }
    }
  }

  /** Creating a product logs a notice that books nothing. */
  lemma CreateProductKeepsBalance(s: Store, project: ProjectId, name: string, newId: ProductId)
    requires Balanced(s) && FreshProduct(s, newId)
    requires CreateProduct(s, project, name, newId).Ok?
    ensures Balanced(CreateProduct(s, project, name, newId).value.0)
  {
    AppendNeutral(s.ledger, [Notice(ProductCreated, Some(project), Some(newId))], s.links);
  }

  /** A new part's zero receipt names no product and books nothing. */
  lemma CreatePartKeepsBalance(s: Store, name: string, sku: string, category: CategoryId,
                               description: Option<string>, newId: PartId)
    requires Balanced(s) && newId !in s.parts
    requires Parts.CreatePart(s, name, sku, category, description, newId).Ok?
    ensures Balanced(Parts.CreatePart(s, name, sku, category, description, newId).value.0)
  {
    AppendNeutral(s.ledger, [Parts.CreatedReceipt(newId, s.categories[category].name)], s.links);
  }

  /** A status change logs a notice that books nothing. */
  lemma UpdateProjectStatusKeepsBalance(s: Store, project: ProjectId, status: Status,
                                        details: Option<DispatchDetails>, now: Time)
    requires Balanced(s)
    requires UpdateProjectStatus(s, project, status, details, now).Ok?
    ensures Balanced(UpdateProjectStatus(s, project, status, details, now).value)
  {
    AppendNeutral(s.ledger, [Notice(ProjectStatusChange, Some(project), None)], s.links);
  }

  /** A team change logs a notice that books nothing. */
  lemma UpdateProjectTeamKeepsBalance(s: Store, project: ProjectId, assigneeIds: seq<UserId>)
    requires Balanced(s)
    requires UpdateProjectTeam(s, project, assigneeIds).Ok?
    ensures Balanced(UpdateProjectTeam(s, project, assigneeIds).value)
  {
    AppendNeutral(s.ledger, [Notice(ProjectTeamChange, Some(project), None)], s.links);
  }

  /** A new project's notice books nothing. */
  lemma CreateProjectKeepsBalance(s: Store, name: string, description: Option<string>,
                                  assigneeIds: seq<UserId>, newId: ProjectId)
    requires Balanced(s) && newId !in s.projects && newId !in s.assignees
    requires CreateProject(s, name, description, assigneeIds, newId).Ok?
    ensures Balanced(CreateProject(s, name, description, assigneeIds, newId).value.0)
  {
    AppendNeutral(s.ledger, [Notice(ProjectCreated, Some(newId), None)], s.links);
  }

  /** A row that moves a nonzero quantity of a part into or out of a product. */
  predicate Moves(a: Activity) {
    && a.partId.Some? && a.productId.Some? && a.qty.Some? && a.qty.value != 0
    && (a.event == ProjectAllocation || a.event == ProjectDeallocation || a.event == Return)
  }

  lemma MovesIffEffect(a: Activity)
    ensures Moves(a) <==> Effect(a, a.productId.GetOr(0), a.partId.GetOr(0)) != 0
    ensures !Moves(a) ==> forall p: ProductId, q: PartId :: Effect(a, p, q) == 0
  {
  }

  /**
    Posting an activity directly keeps the account in agreement exactly
    when the row moves nothing: the service writes no link, so a posted
    allocation, deallocation or return with a quantity desynchronises them.
   */
  lemma CreateActivityBalanceIff(s: Store, row: Activity)
    requires Balanced(s)
    requires Activities.CreateActivity(s, row).Ok?
    ensures Balanced(Activities.CreateActivity(s, row).value) <==> !Moves(row)
  {
    var t := Activities.CreateActivity(s, row).value;
    var row' := t.ledger[|s.ledger|];
    assert t.ledger == s.ledger + [row'];
    assert Moves(row') == Moves(row);
    MovesIffEffect(row');
    forall p: ProductId, q: PartId ensures Net(t.ledger, p, q) == Net(s.ledger, p, q) + Effect(row', p, q) {
      NetAppend(s.ledger, [row'], p, q);
    }
    if Moves(row') {
      var (p, q) := (row'.productId.value, row'.partId.value);
      assert Net(t.ledger, p, q) != LinkQty(t.links, p, q);
    }
  }

  // ---------------------------------------------------------------------
  // The shortage rule
  // ---------------------------------------------------------------------

  /**
    A template application is refused for shortage exactly when some line
    is short under the rule the availability check uses, and the refusal
    carries the same report that check computes.
   */
  lemma {:induction false} TemplateApplicationFollowsShortageRule(s: Store, project: ProjectId, template: TemplateId,
                                                                  productName: Option<string>, newId: ProductId)
    requires FreshProduct(s, newId) && template in s.templates && project in s.projects
    ensures var r := AddProductFromTemplate(s, project, template, productName, newId);
      var lines := LinesOf(s, template);
      && ((r.Err? && r.error.ShortageReport?) <==>
          exists i :: 0 <= i < |lines| && IsShort(s.balances, lines[i].partId, lines[i].quantity))
      && (r.Err? && r.error.ShortageReport? ==> r.error.shortages == Shortages(lines, s.parts, s.balances))
  {
    NoShortagesIffCovered(LinesOf(s, template), s.parts, s.balances);
  }

  // ---------------------------------------------------------------------
  // Inverses
  // ---------------------------------------------------------------------

  /** Two rows whose effects cancel leave every pair's account where it was. */
  lemma {:induction false} CancellingPair(ledger: seq<Activity>, a: Activity, b: Activity)
    requires forall p: ProductId, q: PartId :: Effect(a, p, q) + Effect(b, p, q) == 0
    ensures forall p: ProductId, q: PartId :: Net(ledger + [a, b], p, q) == Net(ledger, p, q)
  {
    forall p: ProductId, q: PartId ensures Net(ledger + [a, b], p, q) == Net(ledger, p, q) {
      NetAppend(ledger, [a, b], p, q);
      assert [b][1..] == [];
      assert Net([b], p, q) == Effect(b, p, q);
      assert [a, b][1..] == [b];
      assert Net([a, b], p, q) == Effect(a, p, q) + Net([b], p, q);
    }
  }

  /** Removing a part just added restores the link table, and the two ledger rows cancel out. */
  lemma AddThenRemoveRestoresLinks(s: Store, product: ProductId, part: PartId, quantity: int)
    requires AddPartToProduct(s, product, part, quantity).Ok?
    ensures var t := AddPartToProduct(s, product, part, quantity).value;
      var u := RemovePartFromProduct(t, product, part);
      && u.Ok?
      && u.value.links == s.links
      && u.value.products == s.products
      && (forall p: ProductId, q: PartId :: Net(u.value.ledger, p, q) == Net(s.ledger, p, q))
  {
    var t := AddPartToProduct(s, product, part, quantity).value;
    var u := RemovePartFromProduct(t, product, part).value;
    assert u.links == s.links;
    var (a, b) := (AllocationRow(part, quantity, None, product), DeallocationRow(part, quantity, product));
    assert u.ledger == s.ledger + [a, b];
    CancellingPair(s.ledger, a, b);
  }

  /** Going back down to a link's previous quantity never consults the balance, so it always succeeds. */
  lemma RevertDownSucceeds(s: Store, product: ProductId, part: PartId, newQuantity: int)
    requires UpdatePartInProduct(s, product, part, newQuantity).Ok?
    requires 0 < s.links[(product, part)] <= newQuantity
    ensures UpdatePartInProduct(UpdatePartInProduct(s, product, part, newQuantity).value,
                                product, part, s.links[(product, part)]).Ok?
  {
    var t := UpdatePartInProduct(s, product, part, newQuantity).value;
    assert t.links[(product, part)] == newQuantity;
  }

  /** Setting a link back to its previous quantity restores the link table, and the two changes cancel out in the account. */
  lemma UpdateThenRevertRestoresLinks(s: Store, product: ProductId, part: PartId, newQuantity: int)
    requires UpdatePartInProduct(s, product, part, newQuantity).Ok?
    requires UpdatePartInProduct(UpdatePartInProduct(s, product, part, newQuantity).value,
                                 product, part, s.links[(product, part)]).Ok?
    ensures var u := UpdatePartInProduct(UpdatePartInProduct(s, product, part, newQuantity).value,
                                         product, part, s.links[(product, part)]).value;
      && u.links == s.links
      && forall p: ProductId, q: PartId :: Net(u.ledger, p, q) == Net(s.ledger, p, q)
  {
    var k := (product, part);
    var back := s.links[k];
    var t := UpdatePartInProduct(s, product, part, newQuantity).value;
    var u := UpdatePartInProduct(t, product, part, back).value;
    assert t.links == s.links[k := newQuantity];
    assert u.links == t.links[k := back];
    assert u.links == s.links;
    var delta := newQuantity - back;
    if delta > 0 {
      var (a, b) := (AllocationRow(part, delta, None, product), DeallocationRow(part, delta, product));
      assert u.ledger == s.ledger + [a, b];
      CancellingPair(s.ledger, a, b);
    } else if delta < 0 {
      var (a, b) := (DeallocationRow(part, -delta, product), AllocationRow(part, -delta, None, product));
      assert u.ledger == s.ledger + [a, b];
      CancellingPair(s.ledger, a, b);
    }
  }

  // ---------------------------------------------------------------------
  // Referential integrity and status timestamps
  // ---------------------------------------------------------------------

  lemma CreateProductKeepsValid(s: Store, project: ProjectId, name: string, newId: ProductId)
    requires Valid(s) && FreshProduct(s, newId)
    requires CreateProduct(s, project, name, newId).Ok?
    ensures Valid(CreateProduct(s, project, name, newId).value.0)
  {
  }

  lemma DeleteProductKeepsValid(s: Store, product: ProductId, order: seq<PartId>)
    requires Valid(s) && Enumerates(order, s.links, product)
    requires DeleteProduct(s, product, order).Ok?
    ensures Valid(DeleteProduct(s, product, order).value)
  {
  }

  lemma AddPartKeepsValid(s: Store, product: ProductId, part: PartId, quantity: int)
    requires Valid(s)
    requires AddPartToProduct(s, product, part, quantity).Ok?
    ensures Valid(AddPartToProduct(s, product, part, quantity).value)
  {
  }

  /** The template's lines point at existing parts, so the stamped links do too. */
  lemma AddProductFromTemplateKeepsValid(s: Store, project: ProjectId, template: TemplateId,
                                         productName: Option<string>, newId: ProductId)
    requires Valid(s) && FreshProduct(s, newId)
    requires AddProductFromTemplate(s, project, template, productName, newId).Ok?
    ensures Valid(AddProductFromTemplate(s, project, template, productName, newId).value.0)
  {
    var t := AddProductFromTemplate(s, project, template, productName, newId).value.0;
    var lines := LinesOf(s, template);
    assert PartsExist(s, lines);
    assert Stamps(s, t, project, lines, newId);
    assert t.parts == s.parts && t.projects == s.projects && t.templateParts == s.templateParts;
    forall k | k in t.links ensures k.0 in t.products && k.1 in t.parts {
      if k !in s.links {
        var ids := PartIdsOf(lines);
        var i :| 0 <= i < |ids| && ids[i] == k.1;
        assert lines[i].partId == k.1;
      }
    }
  }

  lemma CreateProjectKeepsValid(s: Store, name: string, description: Option<string>,
                                assigneeIds: seq<UserId>, newId: ProjectId)
    requires Valid(s) && newId !in s.projects && newId !in s.assignees
    requires CreateProject(s, name, description, assigneeIds, newId).Ok?
    ensures Valid(CreateProject(s, name, description, assigneeIds, newId).value.0)
  {
  }

  lemma UpdateProjectTeamKeepsValid(s: Store, project: ProjectId, assigneeIds: seq<UserId>)
    requires Valid(s)
    requires UpdateProjectTeam(s, project, assigneeIds).Ok?
    ensures Valid(UpdateProjectTeam(s, project, assigneeIds).value)
  {
  }

  lemma CreateTemplateKeepsValid(s: Store, name: string, description: Option<string>,
                                 partsList: Option<seq<TemplateLine>>, newId: TemplateId)
    requires Valid(s) && newId !in s.templates && newId !in s.templateParts
    requires Templates.CreateTemplate(s, name, description, partsList, newId).Ok?
    ensures Valid(Templates.CreateTemplate(s, name, description, partsList, newId).value.0)
  {
    var t := Templates.CreateTemplate(s, name, description, partsList, newId).value.0;
    assert t == s.(templates := t.templates, templateParts := t.templateParts);
    forall x | x in t.templateParts ensures x in t.templates && PartsExist(t, t.templateParts[x]) {
      if x == newId {
        assert t.templateParts[x] == partsList.value;
      } else {
        assert t.templateParts[x] == s.templateParts[x];
      }
    }
  }

  lemma UpdateTemplateKeepsValid(s: Store, id: TemplateId, patch: Templates.TemplatePatch)
    requires Valid(s)
    requires Templates.UpdateTemplate(s, id, patch).Ok?
    ensures Valid(Templates.UpdateTemplate(s, id, patch).value)
  {
  }

  lemma CreatePartKeepsValid(s: Store, name: string, sku: string, category: CategoryId,
                             description: Option<string>, newId: PartId)
    requires Valid(s) && newId !in s.parts
    requires Parts.CreatePart(s, name, sku, category, description, newId).Ok?
    ensures Valid(Parts.CreatePart(s, name, sku, category, description, newId).value.0)
  {
    var t := Parts.CreatePart(s, name, sku, category, description, newId).value.0;
    forall x | x in t.templateParts ensures PartsExist(t, t.templateParts[x]) {
      assert PartsExist(s, s.templateParts[x]);
    }
  }

  lemma UpdatePartKeepsValid(s: Store, id: PartId, patch: Parts.PartPatch)
    requires Valid(s)
    requires Parts.UpdatePart(s, id, patch).Ok?
    ensures Valid(Parts.UpdatePart(s, id, patch).value)
  {
    var t := Parts.UpdatePart(s, id, patch).value;
    forall x | x in t.templateParts ensures PartsExist(t, t.templateParts[x]) {
      assert PartsExist(s, s.templateParts[x]);
    }
  }

  /** A status change stamps the time of the state it enters, so closed projects keep their timestamps. */
  lemma UpdateProjectStatusKeepsStamped(s: Store, project: ProjectId, status: Status,
                                        details: Option<DispatchDetails>, now: Time)
    requires Stamped(s)
    requires UpdateProjectStatus(s, project, status, details, now).Ok?
    ensures Stamped(UpdateProjectStatus(s, project, status, details, now).value)
  {
  }

  lemma CreateProjectKeepsStamped(s: Store, name: string, description: Option<string>,
                                  assigneeIds: seq<UserId>, newId: ProjectId)
    requires Stamped(s) && newId !in s.projects && newId !in s.assignees
    requires CreateProject(s, name, description, assigneeIds, newId).Ok?
    ensures Stamped(CreateProject(s, name, description, assigneeIds, newId).value.0)
  {
  }

  // ---------------------------------------------------------------------
  // Renames and soft deletes
  // ---------------------------------------------------------------------

  /** A rename touches neither links nor ledger and keeps the product in its project. */
  lemma UpdateProductKeepsInvariants(s: Store, product: ProductId, name: string)
    requires UpdateProduct(s, product, name).Ok?
    ensures Valid(s) ==> Valid(UpdateProduct(s, product, name).value)
    ensures Balanced(s) ==> Balanced(UpdateProduct(s, product, name).value)
  {
  }

  /** A soft-deleted project keeps its row, so nothing pointing at it dangles. */
  lemma DeleteProjectKeepsInvariants(s: Store, project: ProjectId)
    requires DeleteProject(s, project).Ok?
    ensures Valid(s) ==> Valid(DeleteProject(s, project).value)
    ensures Balanced(s) ==> Balanced(DeleteProject(s, project).value)
    ensures Stamped(s) ==> Stamped(DeleteProject(s, project).value)
  {
  }

  /** A soft-deleted template keeps its row and lines, which stay retrievable. */
  lemma DeleteTemplateKeepsInvariants(s: Store, id: TemplateId)
    requires Templates.DeleteTemplate(s, id).Ok?
    ensures Valid(s) ==> Valid(Templates.DeleteTemplate(s, id).value)
    ensures Balanced(s) ==> Balanced(Templates.DeleteTemplate(s, id).value)
    ensures Templates.GetTemplateById(Templates.DeleteTemplate(s, id).value, id).Ok?
    ensures Templates.GetTemplateById(Templates.DeleteTemplate(s, id).value, id).value.1 == LinesOf(s, id)
  {
  }

  /** A soft-deleted part keeps its row: links and template lines still point at it. */
  lemma DeletePartKeepsInvariants(s: Store, id: PartId)
    requires Parts.DeletePart(s, id).Ok?
    ensures Valid(s) ==> Valid(Parts.DeletePart(s, id).value)
    ensures Balanced(s) ==> Balanced(Parts.DeletePart(s, id).value)
    ensures Categories.ActiveCover(s) ==> Categories.ActiveCover(Parts.DeletePart(s, id).value)
  {
    var t := Parts.DeletePart(s, id).value;
    if Valid(s) {
      forall x | x in t.templateParts ensures PartsExist(t, t.templateParts[x]) {
        assert PartsExist(s, s.templateParts[x]);
      }
    }
  }

  /** Categories are outside the link and ledger tables, so the account is untouched. */
  lemma CategoryChangesKeepBalance(s: Store, id: CategoryId, patch: Categories.CategoryPatch)
    ensures Balanced(s) && Categories.UpdateCategory(s, id, patch).Ok? ==>
      Balanced(Categories.UpdateCategory(s, id, patch).value)
    ensures Balanced(s) && Categories.DeleteCategory(s, id).Ok? ==>
      Balanced(Categories.DeleteCategory(s, id).value)
    ensures Valid(s) && Categories.DeleteCategory(s, id).Ok? ==>
      Valid(Categories.DeleteCategory(s, id).value)
  {
  }
}
