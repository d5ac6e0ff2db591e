# Drone inventory back end: the allocation protocol in Dafny

This project models the service layer of a small inventory and project-tracking
back end. Projects own products. Each product holds quantities of parts through
product–part links. Every change to stock is recorded in an append-only activity
ledger, from which a database trigger derives each part's available balance.
Products can be stamped out of templates (reusable parts lists). Categories,
parts and templates are deleted softly.

The whole database is one immutable `Store` record (`Inventory.Store`):
- maps from id to row for projects, products, parts, categories and templates;
- the product–part link table, keyed by `(product, part)`;
- template parts lists, project teams, the set of known user ids and the balance snapshot;
- the ledger, a sequence of `Activity` rows.

Each service call is a pure function from a store and its arguments to
`Result<…, Error>`. An `Err` carries no store, which models the rollback of the
call's transaction: on failure nothing changes.

The service calls and where they live:

| module | service calls |
|---|---|
| `Products` | `createProduct`, `updateProduct`, `deleteProduct`, `addPartToProduct`, `updatePartInProduct`, `removePartFromProduct` |
| `Projects` | `addProductFromTemplate`, `updateProjectStatus`, `createProject`, `updateProjectTeam`, `deleteProject`, `getProjectTotalParts` |
| `Templates` | `createTemplate`, `getTemplateById`, `updateTemplate`, `deleteTemplate`, `getAllTemplates`, `checkTemplateAvailability` |
| `Categories` | `createCategory`, `getAllCategories`, `updateCategory`, `deleteCategory` |
| `Parts` | `createPart`, `getAllParts`, `getPartById`, `updatePart`, `deletePart` |
| `Activities` | `createActivity`, `getAllActivities` |

Shared pieces:
- `Availability` holds the single shortage rule and the shortage report. Both the
  template check and the template application use them.
- `Ledger` reads the ledger as an allocation account.
- `Listing` is the "active rows ordered by name" query.
- `Invariants` relates the services to each other.

The central property is `Ledger.Balanced`. For every `(product, part)` pair, the
ledger's allocations minus its deallocations and returns equal the link
quantity, or 0 when there is no link. Every service that writes links preserves
it. Posting an activity directly preserves it exactly when the posted row moves
no quantity.

Modelling choices:
- Ids the database generates (`newId`) are parameters. A `requires` says they
  are fresh.
- Where the result depends on the order in which the database returns rows, that
  order is a parameter, and a `requires` says it lists each relevant row once:
  - `DeleteProduct` takes the order of its return rows;
  - `GetProjectTotalParts` takes the order in which it visits the links.
  - Template lines are the exception: they keep the order in which they were
    stored (see "Left out").
- Clock readings are a `now` parameter.
- Failures:

  | failure | model |
  |---|---|
  | thrown with status 404 | `NotFound` |
  | plain `Error('… not found')`, which reaches the client as a 500 | `MissingRecord` |
  | the database refusing a statement: update of a missing row, foreign key, unique key | `StoreRejected` |

- The database constraints the services rely on are modelled:
  - the `(product, part)` key of the link table, so a template naming a part
    twice fails when it is applied;
  - the `(project, user)` key of the assignee table, so a list naming a user
    twice fails;
  - the assignee table's foreign key to the users table, so a list naming an
    unknown user fails;
  - unique part numbers (SKUs);
  - the foreign keys of client-supplied ids.
- JavaScript truthiness is modelled where it decides a branch:
  - an empty `productName` falls back to the template name;
  - an empty `category_name` is looked up from the part;
  - a present `partsList`, even an empty one, replaces a template's lines;
  - a zero running total in `getProjectTotalParts` is overwritten instead of
    added to. `Projects.TallyIsSum` shows that this still yields the sum.

## Model

| member | source | states |
|---|---|---|
| `Products.CreateProduct` | src/services/product.service.ts:5-39 | A missing project fails with a plain not-found error. Otherwise exactly one product row is added to that project. The only ledger change is one `product-created` row naming project and product. Links and catalogue tables are unchanged. |
| `Products.UpdateProduct` | src/services/product.service.ts:42-49 | Renames an existing product and keeps its project. A missing product is refused by the database. |
| `Products.Returns` | src/services/product.service.ts:72-83 | One `return` row per listed link, in order, each carrying that link's quantity and the product's project. |
| `Products.DeleteProduct` | src/services/product.service.ts:52-116 | A missing product is a 404. Otherwise: one `return` row per link with the link's quantity, then one `product-deleted` row last. No link of the product survives. Other links are untouched. The product row is gone. |
| `Products.AddPartToProduct` | src/services/product.service.ts:119-175 | Insufficient stock (no balance row, or available < quantity) is reported first, even for a part that is already linked. Then an existing link is a 409. A missing product or part row is then refused by the link's foreign keys. Success happens exactly when stock covers the quantity, the link is new and both rows exist. Success adds exactly that link with the given quantity and one `project-allocation` row of that quantity. |
| `Products.UpdatePartInProduct` | src/services/product.service.ts:178-263 | A quantity ≤ 0 is a 400 before any lookup. A missing link is a 404. Only a positive delta consults the balance, and it fails iff the delta is not covered. On success the link equals the new quantity and the ledger gains one allocation of +delta, one deallocation of −delta (positive), or nothing when delta is 0. |
| `Products.UpdateIgnoresBalancesUnlessIncreasing` | src/services/product.service.ts:206-219 | A change that does not raise the quantity gives the same outcome under any balance snapshot. |
| `Products.RemovePartFromProduct` | src/services/product.service.ts:266-308 | A missing link is a 404. Otherwise exactly that link is removed and one `project-deallocation` row of the removed quantity is appended. |
| `Availability.ShortagesFollowLines` | src/services/project.service.ts:52-68 | The shortage report is complete and ordered. Its k-th entry reports the k-th short line, line positions strictly increase, and a line is reported iff it is short. Each entry carries needed = the line quantity and available = the balance, or 0 without a balance row. |
| `Availability.NoShortagesIffCovered` | src/services/template.service.ts:161-164 | The report is empty iff every line is covered by its balance, which is the meaning of `canCreate`. |
| `Availability.CollectShortages` | src/services/template.service.ts:144-159 | The services' loop, one balance lookup per line pushing each shortage, builds exactly the reference report. |
| `Projects.AddProductFromTemplate` | src/services/project.service.ts:22-127 | A missing template or project fails before any write. Any shortage fails with the full report and writes nothing. A template naming a part twice is refused by the link key. Otherwise the call succeeds. The product is named `productName` unless that is absent or empty, else the template name. |
| `Projects.Stamp` | src/services/project.service.ts:85-126 | The transaction adds exactly one product to the project. It adds one link per line, carrying the line's quantity, and one `project-allocation` row per line, in line order, with the line quantity and the project and product ids. Other products and links are untouched. |
| `Projects.Place` | src/services/project.service.ts:97-103 | The links created for a parts list are exactly one per listed part. With distinct parts, each carries its line's quantity. Existing links are unchanged. |
| `Projects.Allocations` | src/services/project.service.ts:108-121 | One allocation row per template line, in order, with the line's part and quantity. |
| `Projects.Restatus` | src/services/project.service.ts:144-163 | `dispatched` stamps the dispatch time, plus the four dispatch fields only when details are given. `cancelled` stamps the cancellation time. `in-progress` stamps neither. Name, description and active flag are kept. |
| `Projects.UpdateProjectStatus` | src/services/project.service.ts:129-187 | A missing project is a 404. Otherwise only that project's row changes, as `Restatus` describes. Exactly one `project-status-change` row is appended. |
| `Projects.CreateProject` | src/services/project.service.ts:189-228 | Creates an `in-progress`, active project with no dispatch data. Its team is exactly the listed users, empty for an empty list. One `project-created` row is logged. A list naming a user twice, or naming an unknown user, is refused and nothing is created. |
| `Inventory.Members` | src/services/project.service.ts:204-212 | The team a list of user ids writes: a user is a member iff the list names them. |
| `Projects.UpdateProjectTeam` | src/services/project.service.ts:330-371 | A missing project fails. Otherwise the team becomes exactly the listed users, with no previous member kept unless listed. Other teams are untouched. One `project-team-change` row is logged. A list naming a user twice, or naming an unknown user, is refused and the old team stays. |
| `Projects.DeleteProject` | src/services/project.service.ts:297-306 | Only the project's active flag is cleared. Nothing is logged. |
| `Projects.TallyIsSum` | src/services/project.service.ts:394-406 | Despite the falsy-zero branch, the loop's totals hold a part iff some visited link names it, and the value is the sum of those links' quantities. |
| `Projects.GetProjectTotalParts` | src/services/project.service.ts:375-409 | A missing project is a 404. Otherwise a part is a key iff some product of the project links it, and its value is the sum of its link quantities over the project's products. |
| `Templates.CreateTemplate` | src/services/template.service.ts:11-44 | Creates an active template whose parts list is exactly the given one, or empty when none or an empty one is given. A line naming a missing part rolls back the whole creation. |
| `Templates.GetTemplateById` | src/services/template.service.ts:63-84 | An unknown template is a 404. Otherwise the call returns its row and parts list. |
| `Templates.UpdateTemplate` | src/services/template.service.ts:87-130 | Supplied fields replace and absent ones stay. A supplied parts list replaces the old one wholesale, and no old line survives. Without a list the lines are untouched. A missing row or a line naming a missing part is refused. |
| `Templates.DeleteTemplate` | src/services/template.service.ts:133-139 | Only the template's active flag is cleared. |
| `Templates.GetAllTemplates` | src/services/template.service.ts:47-60 | Lists exactly the active templates, each once, ordered by name. |
| `Templates.CheckTemplateAvailability` | src/services/template.service.ts:142-165 | An unknown template is a 404. Otherwise the shortages are the shared report over the template's lines, and `canCreate` holds iff every line is covered. |
| `Categories.CreateCategory` | src/services/category.service.ts:5-12 | Adds one active category with the given name. Nothing else changes. |
| `Categories.GetAllCategories` | src/services/category.service.ts:15-22 | Lists exactly the active categories, each once, ordered by name. |
| `Categories.UpdateCategory` | src/services/category.service.ts:26-35 | Changes only the supplied fields of an existing category. A missing one is refused. |
| `Categories.DeleteCategory` | src/services/category.service.ts:39-62 | Fails with 409 iff an active part uses the category, leaving it unchanged. A missing category without parts is refused by the update. It succeeds exactly when the category exists and no active part uses it, and then the only change is clearing its active flag. |
| `Categories.DeleteCategoryKeepsCover` | src/services/category.service.ts:39-62 | A successful delete never leaves an active part in an inactive category. |
| `Categories.UpdateCategoryBypassesGuard` | src/services/category.service.ts:26-62 | For every store where active parts sit in active categories and an active part uses category `id`: the delete is refused with 409, but an update clearing the active flag succeeds and leaves that part in an inactive category. |
| `Categories.UpdateCategoryIdempotent` | src/services/category.service.ts:26-35 | Repeating a successful update with the same fields gives the same store. |
| `Categories.UpdateCategoryKeepsValid` | src/services/category.service.ts:26-35 | An update removes no category, so every part still names an existing one. |
| `Categories.CreateCategoryKeepsCover` | src/services/category.service.ts:5-12 | A new category keeps active parts in active categories and keeps every foreign key satisfied. |
| `Categories.CreateThenDeleteCategory` | src/services/category.service.ts:5-62 | When every part names an existing category, a category just created is unused, so deleting it succeeds and leaves it present and inactive. |
| `Parts.CreatePart` | src/services/part.service.ts:5-39 | An unknown category or a SKU already in use is refused. Otherwise exactly one active part is added, and exactly one `receive` row is logged with quantity 0, the new part's id and its category's name. |
| `Parts.GetAllParts` | src/services/part.service.ts:42-56 | Lists exactly the active parts, each once, ordered by name. |
| `Parts.GetPartById` | src/services/part.service.ts:59-74 | An unknown part is a 404, and inactive parts are found too. The result carries the part's balance iff it has a balance row. |
| `Parts.UpdatePart` | src/services/part.service.ts:77-98 | Changes only the supplied fields. A missing part, an unknown category or another part's SKU is refused. |
| `Parts.DeletePart` | src/services/part.service.ts:102-108 | Only the part's active flag is cleared. |
| `Parts.DeletePartKeepsSkusUnique` | src/services/part.service.ts:102-108 | A soft delete keeps part numbers unique. |
| `Parts.DeletedSkuStaysTaken` | src/services/part.service.ts:5-22 | After a part is deleted, creating another part with its SKU is refused: the row still holds the SKU. |
| `Parts.DeletedPartStillFound` | src/services/part.service.ts:59-74 | A deleted part is still found by id, now inactive, with the same balance as before. |
| `Parts.CreatePartKeepsSkusUnique` | src/services/part.service.ts:12-22 | Creating a part keeps part numbers unique. |
| `Parts.UpdatePartKeepsSkusUnique` | src/services/part.service.ts:84-96 | Updating a part keeps part numbers unique. |
| `Listing.ListActive` | src/services/category.service.ts:16-21 | The listing query returns exactly the active rows, each once, ordered by name. |
| `Activities.ResolveCategoryName` | src/services/activity.service.ts:11-22 | A non-empty supplied category name is kept verbatim. Without a part nothing is looked up. With a part and a blank name, the part's category name is used when the part exists. Otherwise the supplied value stays. |
| `Activities.CreateActivity` | src/services/activity.service.ts:7-46 | Appends exactly one row carrying the resolved category name. A row naming an unknown part is refused. Nothing else changes. |
| `Activities.PageCount` | src/services/activity.service.ts:77 | `totalPages` is the ceiling of count / limit: the smallest page count whose pages hold every row. |
| `Activities.GetAllActivities` | src/services/activity.service.ts:50-80 | Skips the first (page − 1) × limit rows, newest first, and returns at most `limit` rows after them. It echoes page, limit and the total count, and gives the ceiling page count. |
| `Activities.EveryRowOnItsPage` | src/services/activity.service.ts:50-80 | Every ledger row appears on some page no later than `totalPages`, at the position its rank calls for. |
| `Activities.PagesPastTheEndAreEmpty` | src/services/activity.service.ts:50-80 | A page past `totalPages` is empty. |
| `Invariants.AddPartKeepsBalance` | src/services/product.service.ts:151-171 | Adding a part keeps every pair's ledger account equal to its link quantity. |
| `Invariants.UpdatePartKeepsBalance` | src/services/product.service.ts:221-259 | Changing a link's quantity keeps the ledger account equal to the links. |
| `Invariants.RemovePartKeepsBalance` | src/services/product.service.ts:284-305 | Removing a link keeps the ledger account equal to the links. |
| `Invariants.DeleteProductKeepsBalance` | src/services/product.service.ts:71-112 | Deleting a product keeps the ledger account equal to the links: each of its pairs is returned in full and drops to 0. |
| `Invariants.NetReturns` | src/services/product.service.ts:72-88 | The return rows of a product deletion book back, for each listed part of that product, exactly its link quantity, and touch no other pair. |
| `Invariants.AddProductFromTemplateKeepsBalance` | src/services/project.service.ts:85-126 | Stamping a product out of a template keeps the ledger account equal to the links. |
| `Invariants.CreateProductKeepsBalance` | src/services/product.service.ts:24-35 | The `product-created` row books nothing. |
| `Invariants.CreatePartKeepsBalance` | src/services/part.service.ts:24-34 | The zero-quantity receipt of a new part books nothing. |
| `Invariants.UpdateProjectStatusKeepsBalance` | src/services/project.service.ts:173-183 | The status-change row books nothing. |
| `Invariants.UpdateProjectTeamKeepsBalance` | src/services/project.service.ts:357-367 | The team-change row books nothing. |
| `Invariants.CreateProjectKeepsBalance` | src/services/project.service.ts:214-224 | The project-created row books nothing. |
| `Invariants.CreateActivityBalanceIff` | src/services/activity.service.ts:7-46 | Posting a row directly keeps the account equal to the links iff the row moves no quantity. A posted allocation, deallocation or return of a product's part desynchronises them. |
| `Invariants.TemplateApplicationFollowsShortageRule` | src/services/project.service.ts:52-79 | A template application is refused for shortage iff some line is short under the shared rule. The refusal carries the same report the availability check returns. |
| `Invariants.AddThenRemoveRestoresLinks` | src/services/product.service.ts:119-309 | Removing a part just added always succeeds. It restores the link table, and the two ledger rows cancel in every pair's account. |
| `Invariants.RevertDownSucceeds` | src/services/product.service.ts:206-219 | Setting a link back down to its earlier quantity never consults the balance and succeeds. |
| `Invariants.UpdateThenRevertRestoresLinks` | src/services/product.service.ts:221-259 | Reverting a quantity change restores the link table, and the two ledger rows cancel in every pair's account. |
| `Invariants.CreateProductKeepsValid` | src/services/product.service.ts:8-22 | Creating a product keeps every foreign key satisfied. |
| `Invariants.DeleteProductKeepsValid` | src/services/product.service.ts:91-112 | Deleting a product removes its links with it, so no link dangles. |
| `Invariants.AddPartKeepsValid` | src/services/product.service.ts:151-158 | Adding a part keeps every foreign key satisfied. |
| `Invariants.AddProductFromTemplateKeepsValid` | src/services/project.service.ts:97-103 | Stamped links point at the new product and at existing parts. |
| `Invariants.CreateProjectKeepsValid` | src/services/project.service.ts:204-212 | The new team belongs to the new project. |
| `Invariants.UpdateProjectTeamKeepsValid` | src/services/project.service.ts:341-355 | Replacing a team keeps every foreign key satisfied. |
| `Invariants.CreateTemplateKeepsValid` | src/services/template.service.ts:27-36 | The new template's lines point at existing parts. |
| `Invariants.UpdateTemplateKeepsValid` | src/services/template.service.ts:108-122 | Replacement lines point at existing parts. |
| `Invariants.CreatePartKeepsValid` | src/services/part.service.ts:12-22 | A new part sits in an existing category. |
| `Invariants.UpdatePartKeepsValid` | src/services/part.service.ts:84-96 | A moved part sits in an existing category. |
| `Invariants.UpdateProjectStatusKeepsStamped` | src/services/project.service.ts:152-163 | A dispatched project always has a dispatch time, and a cancelled one a cancellation time. |
| `Invariants.CreateProjectKeepsStamped` | src/services/project.service.ts:196-202 | A new project starts in progress, so the status timestamps stay consistent. |
| `Invariants.UpdateProductKeepsInvariants` | src/services/product.service.ts:42-49 | A rename keeps every foreign key satisfied and the ledger account equal to the links. |
| `Invariants.DeleteProjectKeepsInvariants` | src/services/project.service.ts:297-306 | A project's soft delete keeps every foreign key satisfied, the ledger account equal to the links, and the status timestamps consistent. |
| `Invariants.DeleteTemplateKeepsInvariants` | src/services/template.service.ts:133-139 | A template's soft delete keeps every foreign key satisfied and the ledger account equal to the links. The template stays retrievable with the same lines. |
| `Invariants.DeletePartKeepsInvariants` | src/services/part.service.ts:102-108 | A part's soft delete keeps every foreign key satisfied, the ledger account equal to the links, and active parts in active categories. |
| `Invariants.CategoryChangesKeepBalance` | src/services/category.service.ts:26-62 | Category updates and deletes leave the ledger account equal to the links. A successful delete keeps every foreign key satisfied. |

## Left out

- The trigger that maintains inventory balances. Its code is not part of the repository. Balances are a read-only snapshot input, and no rule about how activities change them is assumed.
- Concurrency and isolation. This includes the race between the template shortage check and the transaction that follows it. Each transaction is atomic and reads the state it starts from.
- `createPart` is two separate statements with no transaction. It is modelled as atomic, so a failure between the part insert and its receipt row is out of scope.
- Controllers, routes, the server bootstrap and the error-to-HTTP middleware. These are HTTP wiring. The controllers' falsy checks on required fields are not modelled.
  - No `quantity > 0` guard is added to `addPartToProduct`; the service has none.
- The user service, which is plain CRUD. The users table is a set of ids that no modelled call changes.
- `getAllProjects`, `getProjectById` and `updateProject`. They are plain queries and a plain patch update, outside the allocation protocol.
- Timestamps other than the status stamps: `created_at`, `updated_at`, and the parsing of dispatch and invoice dates. Dispatch details are kept as strings.
- Free-text and display fields: actor, notes, tags, the project name copy, counterparty, purpose, and invoice fields.
- Activity rows carry only event type, part, quantity, project, product and category name.
- The category name written on template allocation rows is not modelled. `addProductFromTemplate` stores the part's category id there, or `'Unknown'`.
- `Activities.GetAllActivities`: requires `page >= 1` and `limit >= 1`. The controller's `parseInt(...) || default` lets negative values through, and how the database treats a negative skip or take is outside the repository. The ledger's append order stands in for `created_at` descending order. Rows written in one statement share a timestamp and may come back in either order, which the model does not capture.
- `Listing.ListActive`: names are ordered by code point. The database's collation is not modelled. Rows with equal names may come in either order.
- Response shapes: included relations, `_count` selections and the returned rows. The list services return ids in order, and the record behind each id is the store's row.
- `Availability.Report`: the part name is `""` when the part row is missing. The template-parts foreign key rules this out in a valid store.
- Foreign keys not visible in the repository are not assumed:
  - whether activity rows reference projects or products;
  - whether the database's event-type enum refuses names a client posts.
- Unique constraints not visible in the repository are not assumed: category names, template names, and `(template, part)` pairs in template lists.
- `Projects.AddProductFromTemplate`: neither the template's nor the project's active flag is checked, because `addProductFromTemplate` checks neither.
- Template lines come back in the order of the list stored at creation or replacement. The services fetch them without an `orderBy`, so the database may return them in another order. The order of the shortage report and of the allocation rows follows that order.
