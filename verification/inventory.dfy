/**
  The database of the inventory back end, as one immutable record.

  Every table the services touch is a map from id to row; association
  tables (product parts, template parts, project assignees) are maps keyed
  by their owner; the activity table is an append-only sequence.
  Inventory balances are a read-only snapshot: the trigger that maintains
  them is not part of this model.
 */
module Inventory {
  import opened Wrappers

  type ProjectId = nat
  type ProductId = nat
  type PartId = nat
  type CategoryId = nat
  type TemplateId = nat
  type UserId = nat

  /** A point in time, supplied by the caller wherever a service reads the clock. */
  type Time = int

  datatype Status = InProgress | Dispatched | Cancelled

  /** The four dispatch columns a `dispatched` status change may fill in. */
  datatype DispatchDetails = DispatchDetails(
    dispatchDatetime: string,
    fromLocation: string,
    toLocation: string,
    receivingPerson: string)

  datatype Project = Project(
    name: string,
    description: Option<string>,
    status: Status,
    dispatchedAt: Option<Time>,
    cancelledAt: Option<Time>,
    dispatch: Option<DispatchDetails>,
    active: bool)

  /** Products are deleted physically, so they carry no active flag. */
  datatype Product = Product(projectId: ProjectId, name: string)

  datatype Part = Part(
    name: string,
    sku: string,
    categoryId: CategoryId,
    description: Option<string>,
    active: bool)

  datatype Category = Category(name: string, active: bool)

  datatype Template = Template(name: string, description: Option<string>, active: bool)

  /** One line of a template's parts list. */
  datatype TemplateLine = TemplateLine(partId: PartId, quantity: int)

  /** The event types the services write; `OtherEvent` is any name a client posts. */
  datatype EventType =
    | Receive
    | Return
    | ProjectAllocation
    | ProjectDeallocation
    | ProductCreated
    | ProductDeleted
    | ProjectCreated
    | ProjectStatusChange
    | ProjectTeamChange
    | OtherEvent(name: string)

  /**
    One ledger row. `qty` is `None` on rows whose writer does not set it;
    actor, notes, tags and timestamps are not modelled.
   */
  datatype Activity = Activity(
    event: EventType,
    partId: Option<PartId>,
    qty: Option<int>,
    projectId: Option<ProjectId>,
    productId: Option<ProductId>,
    categoryName: Option<string>)

  datatype Store = Store(
    projects: map<ProjectId, Project>,
    products: map<ProductId, Product>,
    parts: map<PartId, Part>,
    categories: map<CategoryId, Category>,
    templates: map<TemplateId, Template>,
    links: map<(ProductId, PartId), int>,
    templateParts: map<TemplateId, seq<TemplateLine>>,
    assignees: map<ProjectId, set<UserId>>,
    users: set<UserId>,
    balances: map<PartId, int>,
    ledger: seq<Activity>)

  /** One entry of a shortage report. */
  datatype Shortage = Shortage(partId: PartId, partName: string, needed: int, available: int)

  /**
    The failures a service call can end in. Every failure happens before
    its transaction commits, so the store is left as it was.
   */
  datatype Error =
    | NotFound                                  // thrown with status 404
    | MissingRecord                             // a plain "not found" Error without a status: 500
    | InvalidQuantity                           // 400
    | InsufficientInventory                     // 409, one part
    | ShortageReport(shortages: seq<Shortage>)  // 409 carrying every short line
    | AlreadyAllocated                          // 409, the part is already in the product
    | CategoryInUse                             // 409, active parts still use the category
    | StoreRejected                             // the database refuses the statement: 500

  type Outcome<T> = Result<T, Error>

  /** The quantity of `part` allocated to `product`, 0 when they are not linked. */
  function LinkQty(links: map<(ProductId, PartId), int>, product: ProductId, part: PartId): int {
    if (product, part) in links then links[(product, part)] else 0
  }

  /** A template's parts list; a template without rows has the empty list. */
  function LinesOf(s: Store, template: TemplateId): seq<TemplateLine> {
    if template in s.templateParts then s.templateParts[template] else []
  }

  /** A project's team; a project without assignee rows has the empty team. */
  function TeamOf(s: Store, project: ProjectId): set<UserId> {
    if project in s.assignees then s.assignees[project] else {}
  }

  /** No element occurs twice. */
  predicate Distinct<T(==)>(xs: seq<T>) {
    xs == [] || (xs[0] !in xs[1..] && Distinct(xs[1..]))
  }

  /** The set of users a request lists; a listed id may repeat. */
  function Members(ids: seq<UserId>): (m: set<UserId>)
    ensures forall u :: u in m <==> u in ids
  {
    if ids == [] then {} else {ids[0]} + Members(ids[1..])
  }

  /** Every listed id names an existing user (the project_assignees foreign key). */
  predicate KnownUsers(s: Store, ids: seq<UserId>) {
    forall i :: 0 <= i < |ids| ==> ids[i] in s.users
  }

  function PartIdsOf(lines: seq<TemplateLine>): (ids: seq<PartId>)
    ensures |ids| == |lines|
    ensures forall i :: 0 <= i < |lines| ==> ids[i] == lines[i].partId
  {
    if lines == [] then [] else [lines[0].partId] + PartIdsOf(lines[1..])
  }

  /** Every line of the list names an existing part (the template_parts foreign key). */
  predicate PartsExist(s: Store, lines: seq<TemplateLine>) {
    forall i :: 0 <= i < |lines| ==> lines[i].partId in s.parts
  }

  /** A product id the database has not handed out: no product row and no link row uses it. */
  predicate FreshProduct(s: Store, id: ProductId) {
    id !in s.products && forall k :: k in s.links ==> k.0 != id
  }

  /**
    Referential integrity the database's foreign keys maintain: every
    link, template line, product, part and assignee row points at an
    existing row.
   */
  ghost predicate Valid(s: Store) {
    && (forall k :: k in s.links ==> k.0 in s.products && k.1 in s.parts)
    && (forall t :: t in s.templateParts ==> t in s.templates && PartsExist(s, s.templateParts[t]))
    && (forall p :: p in s.products ==> s.products[p].projectId in s.projects)
    && (forall p :: p in s.parts ==> s.parts[p].categoryId in s.categories)
    && (forall p :: p in s.assignees ==> p in s.projects && s.assignees[p] <= s.users)
  }

  /** A ledger row allocating `qty` units of `part` to `product`. */
  function AllocationRow(part: PartId, qty: int, project: Option<ProjectId>, product: ProductId): Activity {
    Activity(ProjectAllocation, Some(part), Some(qty), project, Some(product), None)
  }

  /** A ledger row releasing `qty` units of `part` from `product`. */
  function DeallocationRow(part: PartId, qty: int, product: ProductId): Activity {
    Activity(ProjectDeallocation, Some(part), Some(qty), None, Some(product), None)
  }

  /** A ledger row returning `qty` units of `part` to stock when `product` is deleted. */
  function ReturnRow(part: PartId, qty: int, project: ProjectId, product: ProductId): Activity {
    Activity(Return, Some(part), Some(qty), Some(project), Some(product), None)
  }

  /** A ledger row that names no part: creation, deletion and status notices. */
  function Notice(event: EventType, project: Option<ProjectId>, product: Option<ProductId>): Activity {
    Activity(event, None, None, project, product, None)
  }
}
