/**
  The availability rule shared by single-part allocation and by template
  checks: a need is short when the part has no balance row or its
  available quantity is below the need. A shortage report lists every
  short template line, in template order.
 */
module Availability {
  import opened Wrappers
  import opened Inventory

  /** The shortage rule: no balance row, or fewer units available than needed. */
  predicate IsShort(balances: map<PartId, int>, part: PartId, needed: int) {
    part !in balances || balances[part] < needed
  }

  /** The available quantity a report shows: the balance, or 0 without a balance row. */
  function Available(balances: map<PartId, int>, part: PartId): int {
    if part in balances then balances[part] else 0
  }

  /** The part's display name; the template_parts foreign key guarantees the row exists. */
  function PartName(parts: map<PartId, Part>, part: PartId): string {
    if part in parts then parts[part].name else ""
  }

  /** The report entry for one short line. */
  function Report(line: TemplateLine, parts: map<PartId, Part>, balances: map<PartId, int>): Shortage {
    Shortage(line.partId, PartName(parts, line.partId), line.quantity, Available(balances, line.partId))
  }

  /** The shortage report for a parts list, built line by line as the services do. */
  function Shortages(lines: seq<TemplateLine>, parts: map<PartId, Part>, balances: map<PartId, int>): seq<Shortage>
  {
    if lines == [] then []
    else
      var last := lines[|lines| - 1];
      Shortages(lines[..|lines| - 1], parts, balances)
        + (if IsShort(balances, last.partId, last.quantity) then [Report(last, parts, balances)] else [])
  }

  /** The positions of the short lines, in increasing order. */
  function ShortIndices(lines: seq<TemplateLine>, balances: map<PartId, int>): seq<nat>
  {
    if lines == [] then []
    else
      var n := |lines| - 1;
      ShortIndices(lines[..n], balances) + (if IsShort(balances, lines[n].partId, lines[n].quantity) then [n] else [])
  }

  /**
    The report is complete and in order: its k-th entry reports the
    k-th short line, positions strictly increase, and every short line
    (and only a short line) is reported.
   */
  lemma {:induction false} ShortagesFollowLines(lines: seq<TemplateLine>, parts: map<PartId, Part>, balances: map<PartId, int>)
    ensures var idx := ShortIndices(lines, balances);
      var report := Shortages(lines, parts, balances);
      && |idx| == |report|
      && (forall k :: 0 <= k < |idx| ==> idx[k] < |lines| && report[k] == Report(lines[idx[k]], parts, balances))
      && (forall k, l :: 0 <= k < l < |idx| ==> idx[k] < idx[l])
      && (forall i :: 0 <= i < |lines| ==> (i in idx <==> IsShort(balances, lines[i].partId, lines[i].quantity)))
  {
    if lines != [] {
      var n := |lines| - 1;
      var front := lines[..n];
      ShortagesFollowLines(front, parts, balances);
      var idx0 := ShortIndices(front, balances);
      var idx := ShortIndices(lines, balances);
      assert forall k :: 0 <= k < |idx0| ==> idx0[k] < n;
      assert forall i :: 0 <= i < n ==> lines[i] == front[i];
      if IsShort(balances, lines[n].partId, lines[n].quantity) {
        assert idx == idx0 + [n];
      } else {
        assert idx == idx0;
      }
    }
  }

  /** A list has no shortage exactly when every line is covered by its balance. */
  lemma {:induction false} NoShortagesIffCovered(lines: seq<TemplateLine>, parts: map<PartId, Part>, balances: map<PartId, int>)
    ensures Shortages(lines, parts, balances) == []
        <==> forall i :: 0 <= i < |lines| ==> !IsShort(balances, lines[i].partId, lines[i].quantity)
  {
    ShortagesFollowLines(lines, parts, balances);
    var idx := ShortIndices(lines, balances);
    if Shortages(lines, parts, balances) != [] {
      assert idx[0] in idx;
    }
  }

  /** The availability loop as the services write it: one balance lookup per line, pushing each shortage. */
  method CollectShortages(lines: seq<TemplateLine>, parts: map<PartId, Part>, balances: map<PartId, int>)
    returns (shortages: seq<Shortage>)
    ensures shortages == Shortages(lines, parts, balances)
  {
    shortages := [];
    var i := 0;
    while i < |lines|
      invariant 0 <= i <= |lines|
      invariant shortages == Shortages(lines[..i], parts, balances)
    {
      var item := lines[i];
      if item.partId !in balances || balances[item.partId] < item.quantity {
        var available := if item.partId in balances then balances[item.partId] else 0;
        shortages := shortages + [Shortage(item.partId, PartName(parts, item.partId), item.quantity, available)];
      }
      assert lines[..i + 1][..i] == lines[..i];
      i := i + 1;
    }
    assert lines[..|lines|] == lines;
  }
}
