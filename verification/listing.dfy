/**
  The "all active rows, ordered by name" listings of categories, parts and
  templates. Names compare code point by code point, shorter prefix first;
  rows with equal names may come in either order.
 */
module Listing {
  import opened Inventory

  /** `a` sorts no later than `b`: lexicographic order on code points. */
  predicate NameLe(a: string, b: string) {
    a == [] || (b != [] && (a[0] < b[0] || (a[0] == b[0] && NameLe(a[1..], b[1..]))))
  }

  lemma {:induction false} NameLeTotal(a: string, b: string)
    ensures NameLe(a, b) || NameLe(b, a)
  {
    if a != [] && b != [] && a[0] == b[0] {
      NameLeTotal(a[1..], b[1..]);
    }
  }

  lemma {:induction false} NameLeTransitive(a: string, b: string, c: string)
    requires NameLe(a, b) && NameLe(b, c)
    ensures NameLe(a, c)
  {
    if a != [] && a[0] == b[0] && b[0] == c[0] {
      NameLeTransitive(a[1..], b[1..], c[1..]);
    }
  }

  /** What a listing needs to know of a row. */
  datatype Entry = Entry(name: string, active: bool)

  /** The listed name of row `k`. */
  function NameOf(entries: map<nat, Entry>, k: nat): string {
    if k in entries then entries[k].name else ""
  }

  /** Every earlier id's name sorts no later than every later one's. */
  predicate Sorted(ids: seq<nat>, entries: map<nat, Entry>) {
    forall i, j :: 0 <= i < j < |ids| ==> NameLe(NameOf(entries, ids[i]), NameOf(entries, ids[j]))
  }

  /** Inserts `k` before the first id whose name sorts after it. */
  function Insert(ids: seq<nat>, k: nat, entries: map<nat, Entry>): seq<nat> {
    if ids == [] then [k]
    else if NameLe(NameOf(entries, k), NameOf(entries, ids[0])) then [k] + ids
    else [ids[0]] + Insert(ids[1..], k, entries)
  }

  /** Insertion adds exactly `k`. */
  lemma {:induction false} InsertMembers(ids: seq<nat>, k: nat, entries: map<nat, Entry>)
    ensures forall x :: x in Insert(ids, k, entries) <==> x in ids || x == k
  {
    if ids != [] && !NameLe(NameOf(entries, k), NameOf(entries, ids[0])) {
      InsertMembers(ids[1..], k, entries);
      assert ids == [ids[0]] + ids[1..];
    }
  }

  /** Insertion keeps a duplicate-free list duplicate-free when `k` is new. */
  lemma {:induction false} InsertDistinct(ids: seq<nat>, k: nat, entries: map<nat, Entry>)
    requires Distinct(ids) && k !in ids
    ensures Distinct(Insert(ids, k, entries))
  {
    if ids != [] && !NameLe(NameOf(entries, k), NameOf(entries, ids[0])) {
      InsertDistinct(ids[1..], k, entries);
      InsertMembers(ids[1..], k, entries);
      var r := Insert(ids, k, entries);
      assert r[1..] == Insert(ids[1..], k, entries);
    }
  }

  /** Insertion keeps a sorted list sorted. */
  lemma {:induction false} InsertSorted(ids: seq<nat>, k: nat, entries: map<nat, Entry>)
    requires Sorted(ids, entries)
    ensures Sorted(Insert(ids, k, entries), entries)
  {
    var nk := NameOf(entries, k);
    if ids == [] {
    } else if NameLe(nk, NameOf(entries, ids[0])) {
      var r := [k] + ids;
      forall i, j | 0 <= i < j < |r| ensures NameLe(NameOf(entries, r[i]), NameOf(entries, r[j])) {
        if i == 0 {
          if j > 1 {
            NameLeTransitive(nk, NameOf(entries, ids[0]), NameOf(entries, ids[j - 1]));
          }
        } else {
          assert r[i] == ids[i - 1] && r[j] == ids[j - 1];
        }
      }
    } else {
      var rest := ids[1..];
      assert Sorted(rest, entries) by {
        forall i, j | 0 <= i < j < |rest| ensures NameLe(NameOf(entries, rest[i]), NameOf(entries, rest[j])) {
          assert rest[i] == ids[i + 1] && rest[j] == ids[j + 1];
        }
      }
      InsertSorted(rest, k, entries);
      InsertMembers(rest, k, entries);
      var tail := Insert(rest, k, entries);
      var r := [ids[0]] + tail;
      NameLeTotal(nk, NameOf(entries, ids[0]));
      forall j | 0 < j < |r| ensures NameLe(NameOf(entries, r[0]), NameOf(entries, r[j])) {
        assert r[j] == tail[j - 1];
        assert r[j] in tail;
        if r[j] != k {
          var m :| 0 <= m < |rest| && rest[m] == r[j];
          assert ids[m + 1] == r[j];
        }
      }
      forall i, j | 0 < i < j < |r| ensures NameLe(NameOf(entries, r[i]), NameOf(entries, r[j])) {
        assert r[i] == tail[i - 1] && r[j] == tail[j - 1];
      }
    }
  }

  /**
    The active rows, each once, ordered by name. Rows are taken in an
    arbitrary order and inserted one at a time.
   */
  method ListActive(entries: map<nat, Entry>) returns (ids: seq<nat>)
    ensures forall k :: k in ids <==> k in entries && entries[k].active
    ensures Distinct(ids)
    ensures Sorted(ids, entries)
  {
    ids := [];
    var pending := entries.Keys;
    while pending != {}
      invariant pending <= entries.Keys
      invariant forall k :: k in ids <==> k in entries && entries[k].active && k !in pending
      invariant Distinct(ids)
      invariant Sorted(ids, entries)
      decreases |pending|
    {
      var k :| k in pending;
      if entries[k].active {
        InsertMembers(ids, k, entries);
        InsertDistinct(ids, k, entries);
        InsertSorted(ids, k, entries);
        ids := Insert(ids, k, entries);
      }
      pending := pending - {k};
    }
  }
}
