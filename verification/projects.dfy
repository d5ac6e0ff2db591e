/**
  The project service: stamping a product out of a template, status and
  team changes, creation, soft deletion, and the per-project part totals.
 */
module Projects {
  import opened Wrappers
  import opened Inventory
  import opened Availability
  import opened Products

  /** The link table after inserting one row per template line for `product`. */
  function Place(links: map<(ProductId, PartId), int>, product: ProductId, lines: seq<TemplateLine>): (r: map<(ProductId, PartId), int>)
    ensures forall k :: k in r <==> k in links || (k.0 == product && k.1 in PartIdsOf(lines))
    ensures forall k :: k in links && !(k.0 == product && k.1 in PartIdsOf(lines)) ==> r[k] == links[k]
    ensures Distinct(PartIdsOf(lines)) ==>
      forall i :: 0 <= i < |lines| ==> r[(product, lines[i].partId)] == lines[i].quantity
    decreases lines
  {
    if lines == [] then links
    else
      assert PartIdsOf(lines) == [lines[0].partId] + PartIdsOf(lines[1..]);
      Place(links[(product, lines[0].partId) := lines[0].quantity], product, lines[1..])
  }

  /** One `project-allocation` row per template line, in template order. */
  function Allocations(lines: seq<TemplateLine>, project: ProjectId, product: ProductId): (rows: seq<Activity>)
    ensures |rows| == |lines|
    ensures forall i :: 0 <= i < |lines| ==>
      rows[i] == AllocationRow(lines[i].partId, lines[i].quantity, Some(project), product)
  {
    if lines == [] then []
    else [AllocationRow(lines[0].partId, lines[0].quantity, Some(project), product)]
         + Allocations(lines[1..], project, product)
  }

  /** The new product's name: the requested one unless it is absent or empty. */
  function ProductNameFor(productName: Option<string>, templateName: string): string {
    if productName.Some? && productName.value != "" then productName.value else templateName
  }

  /**
    Creates a product from a template. Both rows must exist; every line is
    checked against its balance before anything is written, and any
    shortage aborts with the full report. The link table's key refuses a
    template that names a part twice.
   */
  function AddProductFromTemplate(s: Store, project: ProjectId, template: TemplateId,
                                  productName: Option<string>, newId: ProductId): (r: Outcome<(Store, ProductId)>)
    requires FreshProduct(s, newId)
    ensures template !in s.templates || project !in s.projects ==> r == Err(MissingRecord)
    ensures template in s.templates && project in s.projects ==>
      var lines := LinesOf(s, template);
      var report := Shortages(lines, s.parts, s.balances);
      && (report != [] ==> r == Err(ShortageReport(report)))
      && (report == [] && !Distinct(PartIdsOf(lines)) ==> r == Err(StoreRejected))
      && (report == [] && Distinct(PartIdsOf(lines)) ==> r.Ok?)
    ensures r.Ok? ==>
      && r.value.1 == newId
      && Stamps(s, r.value.0, project, LinesOf(s, template), newId)
      && (productName.Some? && productName.value != "" ==> r.value.0.products[newId].name == productName.value)
      && (productName.None? || productName.value == "" ==> r.value.0.products[newId].name == s.templates[template].name)
  {
    if template !in s.templates || project !in s.projects then Err(MissingRecord)
    else
      var lines := LinesOf(s, template);
      var report := Shortages(lines, s.parts, s.balances);
      if report != [] then Err(ShortageReport(report))
      else if !Distinct(PartIdsOf(lines)) then Err(StoreRejected)
      else Ok((Stamp(s, project, ProductNameFor(productName, s.templates[template].name), lines, newId), newId))
  }

  /**
    `t` is `s` with product `id` added to `project`, one link per line
    carrying the line's quantity, and one allocation row per line, in
    line order, appended to the ledger.
   */
  ghost predicate Stamps(s: Store, t: Store, project: ProjectId, lines: seq<TemplateLine>, id: ProductId) {
    && ProductStamped(s.products, t.products, project, id)
    && LinksStamped(s.links, t.links, lines, id)
    && LedgerStamped(s.ledger, t.ledger, lines, project, id)
    && KeepsCatalogue(s, t)
  }

  /** `products'` is `products` plus a new product `id` of `project`. */
  ghost predicate ProductStamped(products: map<ProductId, Product>, products': map<ProductId, Product>,
                                 project: ProjectId, id: ProductId) {
    && id !in products
    && products'.Keys == products.Keys + {id}
    && products'[id].projectId == project
    && (forall p :: p in products ==> products'[p] == products[p])
  }

  /** `links'` is `links` plus one link per line of product `id`, with the line's quantity. */
  ghost predicate LinksStamped(links: map<(ProductId, PartId), int>, links': map<(ProductId, PartId), int>,
                               lines: seq<TemplateLine>, id: ProductId) {
    && (forall i :: 0 <= i < |lines| ==>
          (id, lines[i].partId) in links' && links'[(id, lines[i].partId)] == lines[i].quantity)
    && (forall k :: k in links' ==> k in links || (k.0 == id && k.1 in PartIdsOf(lines)))
    && (forall k :: k in links ==> k in links' && links'[k] == links[k])
  }

  /** `ledger'` is `ledger` followed by one allocation row per line, in line order. */
  ghost predicate LedgerStamped(ledger: seq<Activity>, ledger': seq<Activity>, lines: seq<TemplateLine>,
                                project: ProjectId, id: ProductId) {
    && |ledger'| == |ledger| + |lines|
    && ledger'[..|ledger|] == ledger
    && (forall i :: 0 <= i < |lines| ==>
          ledger'[|ledger| + i] == AllocationRow(lines[i].partId, lines[i].quantity, Some(project), id))
  }

  /** The transaction of a template application: the product row, its links and its allocation rows. */
  function Stamp(s: Store, project: ProjectId, name: string, lines: seq<TemplateLine>, newId: ProductId): (t: Store)
    requires FreshProduct(s, newId) && Distinct(PartIdsOf(lines))
    ensures Stamps(s, t, project, lines, newId)
    ensures t.products[newId].name == name
  {
    var t := s.(products := s.products[newId := Product(project, name)],
                links := Place(s.links, newId, lines),
                ledger := s.ledger + Allocations(lines, project, newId));
    StampFacts(s, t, project, name, lines, newId);
    t
  }

  lemma StampFacts(s: Store, t: Store, project: ProjectId, name: string, lines: seq<TemplateLine>, newId: ProductId)
    requires FreshProduct(s, newId) && Distinct(PartIdsOf(lines))
    requires t.products == s.products[newId := Product(project, name)]
    requires t.links == Place(s.links, newId, lines)
    requires t.ledger == s.ledger + Allocations(lines, project, newId)
    requires KeepsCatalogue(s, t)
    ensures Stamps(s, t, project, lines, newId)
  {
    assert ProductStamped(s.products, t.products, project, newId);
    StampedLinks(s.links, t.links, lines, newId);
    StampedLedger(s.ledger, t.ledger, lines, project, newId);
  }

  lemma StampedLinks(links: map<(ProductId, PartId), int>, links': map<(ProductId, PartId), int>, lines: seq<TemplateLine>, newId: ProductId)
    requires forall k :: k in links ==> k.0 != newId
    requires Distinct(PartIdsOf(lines))
    requires links' == Place(links, newId, lines)
    ensures LinksStamped(links, links', lines, newId)
  {
    var ids := PartIdsOf(lines);
    forall i | 0 <= i < |lines|
      ensures (newId, lines[i].partId) in links' && links'[(newId, lines[i].partId)] == lines[i].quantity
    {
      assert ids[i] == lines[i].partId;
      assert lines[i].partId in ids;
    }
  }

  lemma StampedLedger(ledger: seq<Activity>, ledger': seq<Activity>, lines: seq<TemplateLine>, project: ProjectId, newId: ProductId)
    requires ledger' == ledger + Allocations(lines, project, newId)
    ensures LedgerStamped(ledger, ledger', lines, project, newId)
  {
    assert ledger'[..|ledger|] == ledger;
  }

  /** Every project in a closing state carries the time it got there. */
  ghost predicate Stamped(s: Store) {
    forall p :: p in s.projects ==>
      && (s.projects[p].status == Dispatched ==> s.projects[p].dispatchedAt.Some?)
      && (s.projects[p].status == Cancelled ==> s.projects[p].cancelledAt.Some?)
  }

  /** Only the project and assignee tables and the ledger may differ between `s` and `t`. */
  predicate KeepsInventory(s: Store, t: Store) {
    && t.products == s.products
    && t.parts == s.parts
    && t.categories == s.categories
    && t.templates == s.templates
    && t.links == s.links
    && t.templateParts == s.templateParts
    && t.balances == s.balances
    && t.users == s.users
  }

  /**
    A project row after a status change. `dispatched` stamps `dispatchedAt`
    and, when details come with it, the four dispatch fields; `cancelled`
    stamps `cancelledAt`; `in-progress` stamps nothing. Name, description
    and active flag are untouched.
   */
  function Restatus(p: Project, status: Status, details: Option<DispatchDetails>, now: Time): (q: Project)
    ensures q.status == status
    ensures q.dispatchedAt == (if status == Dispatched then Some(now) else p.dispatchedAt)
    ensures q.cancelledAt == (if status == Cancelled then Some(now) else p.cancelledAt)
    ensures q.dispatch == (if status == Dispatched && details.Some? then details else p.dispatch)
    ensures q.name == p.name && q.description == p.description && q.active == p.active
  {
    match status
    case Dispatched =>
      p.(status := status, dispatchedAt := Some(now), dispatch := if details.Some? then details else p.dispatch)
    case Cancelled => p.(status := status, cancelledAt := Some(now))
    case InProgress => p.(status := status)
  }

  /** Sets a project's status and logs one `project-status-change` row. */
  function UpdateProjectStatus(s: Store, project: ProjectId, status: Status,
                               details: Option<DispatchDetails>, now: Time): (r: Outcome<Store>)
    ensures project !in s.projects <==> r == Err(NotFound)
    ensures r.Err? ==> r == Err(NotFound)
    ensures r.Ok? ==>
      && r.value.projects == s.projects[project := Restatus(s.projects[project], status, details, now)]
      && r.value.assignees == s.assignees
      && r.value.ledger == s.ledger + [Notice(ProjectStatusChange, Some(project), None)]
      && KeepsInventory(s, r.value)
  {
    if project !in s.projects then Err(NotFound)
    else
      Ok(s.(projects := s.projects[project := Restatus(s.projects[project], status, details, now)],
            ledger := s.ledger + [Notice(ProjectStatusChange, Some(project), None)]))
  }

  /**
    Creates an in-progress project with exactly the listed assignees.
    The assignee table's key refuses a list naming a user twice, and its
    foreign key a list naming an unknown user; either rolls the whole
    creation back.
   */
  function CreateProject(s: Store, name: string, description: Option<string>,
                         assigneeIds: seq<UserId>, newId: ProjectId): (r: Outcome<(Store, ProjectId)>)
    requires newId !in s.projects && newId !in s.assignees
    ensures r.Err? <==> !Distinct(assigneeIds) || !KnownUsers(s, assigneeIds)
    ensures r.Err? ==> r.error == StoreRejected
    ensures r.Ok? ==> r.value.1 == newId
    ensures r.Ok? ==>
      && r.value.0.projects.Keys == s.projects.Keys + {newId}
      && r.value.0.projects[newId] == Project(name, description, InProgress, None, None, None, true)
      && (forall p :: p in s.projects ==> r.value.0.projects[p] == s.projects[p])
    ensures r.Ok? ==> forall u :: u in TeamOf(r.value.0, newId) <==> u in assigneeIds
    ensures r.Ok? ==> r.value.0.assignees == s.assignees[newId := Members(assigneeIds)]
    ensures r.Ok? ==> r.value.0.ledger == s.ledger + [Notice(ProjectCreated, Some(newId), None)]
    ensures r.Ok? ==> KeepsInventory(s, r.value.0)
  {
    if !Distinct(assigneeIds) || !KnownUsers(s, assigneeIds) then Err(StoreRejected)
    else
      Ok((s.(projects := s.projects[newId := Project(name, description, InProgress, None, None, None, true)],
             assignees := s.assignees[newId := Members(assigneeIds)],
             ledger := s.ledger + [Notice(ProjectCreated, Some(newId), None)]), newId))
  }

  /**
    Replaces a project's team wholesale: every previous assignee goes, the
    listed ones come in. A repeated or unknown user rolls the change back.
   */
  function UpdateProjectTeam(s: Store, project: ProjectId, assigneeIds: seq<UserId>): (r: Outcome<Store>)
    ensures project !in s.projects ==> r == Err(MissingRecord)
    ensures project in s.projects ==> (r.Err? <==> !Distinct(assigneeIds) || !KnownUsers(s, assigneeIds))
    ensures project in s.projects && r.Err? ==> r.error == StoreRejected
    ensures r.Ok? ==>
      var t := r.value;
      && (forall u :: u in TeamOf(t, project) <==> u in assigneeIds)
      && t.assignees == s.assignees[project := Members(assigneeIds)]
      && t.projects == s.projects
      && t.ledger == s.ledger + [Notice(ProjectTeamChange, Some(project), None)]
      && KeepsInventory(s, t)
  {
    if project !in s.projects then Err(MissingRecord)
    else if !Distinct(assigneeIds) || !KnownUsers(s, assigneeIds) then Err(StoreRejected)
    else
      Ok(s.(assignees := s.assignees[project := Members(assigneeIds)],
            ledger := s.ledger + [Notice(ProjectTeamChange, Some(project), None)]))
  }

  /** Deactivates a project; nothing else changes and nothing is logged. */
  function DeleteProject(s: Store, project: ProjectId): (r: Outcome<Store>)
    ensures project !in s.projects <==> r == Err(StoreRejected)
    ensures r.Err? ==> r == Err(StoreRejected)
    ensures r.Ok? ==>
      var t := r.value;
      && t.projects.Keys == s.projects.Keys
      && !t.projects[project].active
      && t.projects[project] == s.projects[project].(active := false)
      && (forall p :: p in s.projects && p != project ==> t.projects[p] == s.projects[p])
      && t.assignees == s.assignees && t.ledger == s.ledger
      && KeepsInventory(s, t)
  {
    if project !in s.projects then Err(StoreRejected)
    else Ok(s.(projects := s.projects[project := s.projects[project].(active := false)]))
  }

  /** `rows` lists each link of the project's products exactly once, in the database's order. */
  ghost predicate ProjectRows(s: Store, project: ProjectId, rows: seq<(ProductId, PartId)>) {
    && Distinct(rows)
    && forall k :: k in rows <==> k in s.links && k.0 in s.products && s.products[k.0].projectId == project
  }

  /** Adds one link's quantity to the running totals, as the listing loop's body does. */
  function Bump(totals: map<PartId, int>, part: PartId, quantity: int): map<PartId, int> {
    // a present but zero total is falsy in the service and is overwritten, not added to
    if part in totals && totals[part] != 0 then totals[part := totals[part] + quantity]
    else totals[part := quantity]
  }

  /** The running totals after visiting `rows` in order. */
  function Tally(rows: seq<(ProductId, PartId)>, links: map<(ProductId, PartId), int>): map<PartId, int> {
    if rows == [] then map[]
    else
      var last := rows[|rows| - 1];
      Bump(Tally(rows[..|rows| - 1], links), last.1, LinkQty(links, last.0, last.1))
  }

  /** The reference total: the sum of the link quantities of `part` over `rows`. */
  function SumFor(rows: seq<(ProductId, PartId)>, links: map<(ProductId, PartId), int>, part: PartId): int {
    if rows == [] then 0
    else
      var last := rows[|rows| - 1];
      SumFor(rows[..|rows| - 1], links, part) + (if last.1 == part then LinkQty(links, last.0, last.1) else 0)
  }

  /** The loop's totals are the per-part sums, keyed by exactly the parts that occur. */
  lemma {:induction false} TallyIsSum(rows: seq<(ProductId, PartId)>, links: map<(ProductId, PartId), int>)
    ensures forall x :: x in Tally(rows, links) <==> exists i :: 0 <= i < |rows| && rows[i].1 == x
    ensures forall x :: x in Tally(rows, links) ==> Tally(rows, links)[x] == SumFor(rows, links, x)
  {
    if rows != [] {
      var n := |rows| - 1;
      var front := rows[..n];
      TallyIsSum(front, links);
      forall x ensures (x in Tally(rows, links) <==> exists i :: 0 <= i < |rows| && rows[i].1 == x) {
        if x in Tally(front, links) {
          var i :| 0 <= i < |front| && front[i].1 == x;
          assert rows[i] == front[i];
        }
        if exists i :: 0 <= i < |rows| && rows[i].1 == x {
          var i :| 0 <= i < |rows| && rows[i].1 == x;
          if i < n {
            assert front[i] == rows[i];
          }
        }
      }
      forall x | x in Tally(rows, links) ensures Tally(rows, links)[x] == SumFor(rows, links, x) {
        if x != rows[n].1 {
          assert SumFor(rows, links, x) == SumFor(front, links, x);
        } else if x !in Tally(front, links) {
          SumAbsent(front, links, x);
        }
      }
    }
  }

  lemma {:induction false} SumAbsent(rows: seq<(ProductId, PartId)>, links: map<(ProductId, PartId), int>, part: PartId)
    requires forall i :: 0 <= i < |rows| ==> rows[i].1 != part
    ensures SumFor(rows, links, part) == 0
  {
    if rows != [] {
      SumAbsent(rows[..|rows| - 1], links, part);
    }
  }

  /**
    Totals a project's parts across all its products: a part is present
    exactly when some product of the project links it, with the sum of
    those links' quantities.
   */
  function GetProjectTotalParts(s: Store, project: ProjectId, rows: seq<(ProductId, PartId)>): (r: Outcome<map<PartId, int>>)
    requires ProjectRows(s, project, rows)
    ensures project !in s.projects <==> r == Err(NotFound)
    ensures r.Err? ==> r == Err(NotFound)
    ensures r.Ok? ==> forall x :: x in r.value <==>
      exists product :: (product, x) in s.links && product in s.products && s.products[product].projectId == project
    ensures r.Ok? ==> forall x :: x in r.value ==> r.value[x] == SumFor(rows, s.links, x)
  {
    if project !in s.projects then Err(NotFound)
    else
      TallyIsSum(rows, s.links);
      var totals := Tally(rows, s.links);
      assert forall x :: x in totals <==>
        exists product :: (product, x) in s.links && product in s.products && s.products[product].projectId == project
      by {
        forall x ensures x in totals <==>
          exists product :: (product, x) in s.links && product in s.products && s.products[product].projectId == project
        {
          if x in totals {
            var i :| 0 <= i < |rows| && rows[i].1 == x;
            assert rows[i] in rows;
          }
          if exists product :: (product, x) in s.links && product in s.products && s.products[product].projectId == project {
            var product :| (product, x) in s.links && product in s.products && s.products[product].projectId == project;
            assert (product, x) in rows;
            var i :| 0 <= i < |rows| && rows[i] == (product, x);
          }
        }
      }
      Ok(totals)
  }
}
