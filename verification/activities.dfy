/**
  The activity service: posting a ledger row directly, with the category
  name filled in from the part when the client gives none, and reading
  the ledger newest first, one page at a time.
 */
module Activities {
  import opened Wrappers
  import opened Inventory

  /** A missing or empty category name, both of which the service treats as absent. */
  predicate Blank(name: Option<string>) {
    name.None? || name.value == ""
  }

  /**
    The category name a posted row carries: the supplied one when it is
    not blank; otherwise the name of the part's category when the row
    names a part whose category exists; otherwise the supplied value.
   */
  function ResolveCategoryName(s: Store, part: Option<PartId>, given: Option<string>): (name: Option<string>)
    ensures !Blank(given) ==> name == given
    ensures part.None? ==> name == given
    ensures part.Some? && Blank(given) && part.value in s.parts && s.parts[part.value].categoryId in s.categories ==>
      name == Some(s.categories[s.parts[part.value].categoryId].name)
    ensures part.Some? && part.value !in s.parts ==> name == given
    ensures name != given ==>
      part.Some? && Blank(given) && part.value in s.parts && s.parts[part.value].categoryId in s.categories
  {
    if part.Some? && Blank(given) then
      if part.value in s.parts && s.parts[part.value].categoryId in s.categories then
        Some(s.categories[s.parts[part.value].categoryId].name)
      else given
    else given
  }

  /**
    Appends one client-supplied row to the ledger, with its category name
    resolved. A row naming an unknown part is refused by the part foreign key.
   */
  function CreateActivity(s: Store, row: Activity): (r: Outcome<Store>)
    ensures r.Err? <==> row.partId.Some? && row.partId.value !in s.parts
    ensures r.Err? ==> r.error == StoreRejected
    ensures r.Ok? ==>
      && |r.value.ledger| == |s.ledger| + 1
      && r.value.ledger[..|s.ledger|] == s.ledger
      && r.value.ledger[|s.ledger|] == row.(categoryName := ResolveCategoryName(s, row.partId, row.categoryName))
      && r.value == s.(ledger := r.value.ledger)
  {
    if row.partId.Some? && row.partId.value !in s.parts then Err(StoreRejected)
    else Ok(s.(ledger := s.ledger + [row.(categoryName := ResolveCategoryName(s, row.partId, row.categoryName))]))
  }

  /** The ledger as the listing shows it: most recent row first. */
  function Newest(ledger: seq<Activity>): (r: seq<Activity>)
    ensures |r| == |ledger|
    ensures forall i :: 0 <= i < |ledger| ==> r[i] == ledger[|ledger| - 1 - i]
  {
    seq(|ledger|, i requires 0 <= i < |ledger| => ledger[|ledger| - 1 - i])
  }

  /** `a <= b` scales by any non-negative factor. */
  lemma MulMonotone(a: int, b: int, c: nat)
    requires a <= b
    ensures a * c <= b * c
  {
    assert b * c - a * c == (b - a) * c;
  }

  /** The number of pages of `limit` rows needed for `count` rows: the ceiling of their quotient. */
  function PageCount(count: nat, limit: nat): (pages: nat)
    requires limit >= 1
    ensures pages * limit >= count
    ensures pages == 0 || (pages - 1) * limit < count
  {
    var q := (count + limit - 1) / limit;
    var m := (count + limit - 1) % limit;
    assert count + limit - 1 == q * limit + m;
    assert (q - 1) * limit == q * limit - limit;
    q
  }

  /** The number of rows the listing passes over before page `page`. */
  function Skip(page: int, limit: int): (k: nat)
    requires page >= 1 && limit >= 1
    ensures k == (page - 1) * limit
  {
    MulMonotone(0, page - 1, limit);
    (page - 1) * limit
  }

  /** One page of the listing and the pagination block echoed with it. */
  datatype Page = Page(data: seq<Activity>, totalItems: nat, currentPage: int, pageSize: int, totalPages: nat)

  /**
    Page `page` of the ledger, `limit` rows per page, newest first: the
    rows after the first `(page - 1) * limit`, at most `limit` of them.
   */
  function GetAllActivities(s: Store, page: int, limit: int): (r: Page)
    requires page >= 1 && limit >= 1
    ensures var (n, skip) := (|s.ledger|, Skip(page, limit));
      && |r.data| == (if skip >= n then 0 else if n - skip < limit then n - skip else limit)
      && (forall i :: 0 <= i < |r.data| ==> r.data[i] == s.ledger[n - 1 - (skip + i)])
    ensures r.totalItems == |s.ledger| && r.currentPage == page && r.pageSize == limit
    ensures r.totalPages * limit >= |s.ledger|
    ensures r.totalPages == 0 || (r.totalPages - 1) * limit < |s.ledger|
  {
    var n := |s.ledger|;
    var skip := Skip(page, limit);
    var lo := if skip < n then skip else n;
    var hi := if skip + limit < n then skip + limit else n;
    var data := Newest(s.ledger)[lo..hi];
    assert forall i :: 0 <= i < |data| ==> data[i] == Newest(s.ledger)[skip + i];
    Page(data, n, page, limit, PageCount(n, limit))
  }

  /** The page that shows the row at position `j`, counting from the newest. */
  function PageOfRow(j: nat, limit: int): (page: int)
    requires limit >= 1
    ensures page >= 1
    ensures Skip(page, limit) <= j < Skip(page, limit) + limit
  {
    var q := j / limit;
    assert j == q * limit + j % limit;
    q + 1
  }

  /** Every row of the ledger is shown on the page its position calls for, and that page exists. */
  lemma EveryRowOnItsPage(s: Store, limit: int, j: nat)
    requires limit >= 1 && j < |s.ledger|
    ensures var page := PageOfRow(j, limit);
      var r := GetAllActivities(s, page, limit);
      && page <= r.totalPages
      && 0 <= j - Skip(page, limit) < |r.data|
      && r.data[j - Skip(page, limit)] == s.ledger[|s.ledger| - 1 - j]
  {
    var page := PageOfRow(j, limit);
    var r := GetAllActivities(s, page, limit);
    if r.totalPages < page {
      MulMonotone(r.totalPages, page - 1, limit);
    }
  }

  /** A page past the last one is empty. */
  lemma PagesPastTheEndAreEmpty(s: Store, page: int, limit: int)
    requires limit >= 1 && page > GetAllActivities(s, 1, limit).totalPages
    ensures GetAllActivities(s, page, limit).data == []
  {
    var pages := GetAllActivities(s, 1, limit).totalPages;
    MulMonotone(pages, page - 1, limit);
  }
}
