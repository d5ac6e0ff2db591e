/**
  The activity ledger read as an allocation account: for every
  (product, part) pair, allocations add and deallocations and returns
  subtract. The allocation services keep this account equal to the
  product's link quantity.
 */
module Ledger {
  import opened Wrappers
  import opened Inventory

  /** What one ledger row contributes to the allocation of `part` to `product`. */
  function Effect(a: Activity, product: ProductId, part: PartId): int {
    if a.partId == Some(part) && a.productId == Some(product) && a.qty.Some? then
      match a.event
      case ProjectAllocation => a.qty.value
      case ProjectDeallocation => -a.qty.value
      case Return => -a.qty.value
      case _ => 0
    else 0
  }

  /** The net quantity of `part` the ledger has allocated to `product`. */
  function Net(ledger: seq<Activity>, product: ProductId, part: PartId): int {
    if ledger == [] then 0 else Effect(ledger[0], product, part) + Net(ledger[1..], product, part)
  }

  lemma {:induction false} NetAppend(a: seq<Activity>, b: seq<Activity>, product: ProductId, part: PartId)
    ensures Net(a + b, product, part) == Net(a, product, part) + Net(b, product, part)
  {
    if a == [] {
      assert a + b == b;
    } else {
      assert (a + b)[1..] == a[1..] + b;
      NetAppend(a[1..], b, product, part);
    }
  }

  /** The ledger's account agrees with the link table on every pair. */
  ghost predicate Agrees(ledger: seq<Activity>, links: map<(ProductId, PartId), int>) {
    forall product: ProductId, part: PartId :: Net(ledger, product, part) == LinkQty(links, product, part)
  }

  ghost predicate Balanced(s: Store) {
    Agrees(s.ledger, s.links)
  }

  /** Appending rows that touch no allocation keeps the ledger in agreement with the links. */
  lemma {:induction false} AppendNeutral(ledger: seq<Activity>, rows: seq<Activity>, links: map<(ProductId, PartId), int>)
    requires Agrees(ledger, links)
    requires forall i :: 0 <= i < |rows| ==> rows[i].productId.None? || rows[i].partId.None?
    ensures Agrees(ledger + rows, links)
  {
    forall product: ProductId, part: PartId
      ensures Net(ledger + rows, product, part) == LinkQty(links, product, part)
    {
      NetAppend(ledger, rows, product, part);
      NeutralRows(rows, product, part);
    }
  }

  lemma {:induction false} NeutralRows(rows: seq<Activity>, product: ProductId, part: PartId)
    requires forall i :: 0 <= i < |rows| ==> rows[i].productId.None? || rows[i].partId.None?
    ensures Net(rows, product, part) == 0
  {
    if rows != [] {
      assert rows[0].productId.None? || rows[0].partId.None?;
      NeutralRows(rows[1..], product, part);
    }
  }

  /**
    Appending one row that moves `delta` units of `part` into `product`
    keeps the agreement when the link quantity moves by the same amount.
   */
  lemma {:induction false} AppendOne(ledger: seq<Activity>, row: Activity, links: map<(ProductId, PartId), int>,
                                     links': map<(ProductId, PartId), int>, product: ProductId, part: PartId)
    requires Agrees(ledger, links)
    requires Effect(row, product, part) == LinkQty(links', product, part) - LinkQty(links, product, part)
    requires forall p: ProductId, q: PartId :: (p, q) != (product, part) ==> Effect(row, p, q) == 0
    requires forall k :: k != (product, part) ==> (k in links <==> k in links')
    requires forall k :: k != (product, part) && k in links ==> links[k] == links'[k]
    ensures Agrees(ledger + [row], links')
  {
    forall p: ProductId, q: PartId
      ensures Net(ledger + [row], p, q) == LinkQty(links', p, q)
    {
      NetAppend(ledger, [row], p, q);
      assert Net([row], p, q) == Effect(row, p, q);
      if (p, q) != (product, part) {
        assert LinkQty(links', p, q) == LinkQty(links, p, q);
      }
    }
  }
}
