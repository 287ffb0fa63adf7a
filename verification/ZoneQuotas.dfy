/** The zones most in need of search, each with the candidates that lie in it entirely. */
module ZoneQuotas {

  import opened Finite
  import opened Rectangles
  import opened Tilings
  import opened CoverageZones

  datatype QuotaTask = QuotaTask(id: string, search: bool, bbox: Option<Rect>)

  /** A zone and the part of it that nobody has searched or is about to. */
  datatype Deficit = Deficit(zone: ZoneId, gap: real)

  datatype Quota = Quota(zone: ZoneId, candidates: seq<string>)

  /** The larger gap first, then the name. */
  predicate Needier(rank: ZoneId -> int, a: Deficit, b: Deficit) {
    a.gap > b.gap || (a.gap == b.gap && rank(a.zone) < rank(b.zone))
  }

  function InsertDeficit(rank: ZoneId -> int, d: Deficit, rows: seq<Deficit>): (r: seq<Deficit>)
    ensures multiset(r) == multiset(rows) + multiset{d}
  {
    if rows == [] then [d] else
      var n := |rows| - 1;
      assert rows == rows[..n] + [rows[n]];
      if Needier(rank, d, rows[n]) then InsertDeficit(rank, d, rows[..n]) + [rows[n]] else rows + [d]
  }

  /** The rows from a threshold on, the neediest first. */
  function Ranked(rank: ZoneId -> int, rows: seq<Deficit>, threshold: real): seq<Deficit> {
    if rows == [] then [] else
      var n := |rows| - 1;
      var before := Ranked(rank, rows[..n], threshold);
      if rows[n].gap >= threshold then InsertDeficit(rank, rows[n], before) else before
  }

  ghost predicate InOrder(rank: ZoneId -> int, rows: seq<Deficit>) {
    forall i: nat, j: nat :: i < j < |rows| ==> !Needier(rank, rows[j], rows[i])
  }

  ghost predicate NoneNeedier(rank: ZoneId -> int, rows: seq<Deficit>, last: Deficit) {
    forall d :: d in rows ==> !Needier(rank, last, d)
  }

  lemma LastInOrder(rank: ZoneId -> int, rows: seq<Deficit>, last: Deficit)
    requires InOrder(rank, rows) && NoneNeedier(rank, rows, last)
    ensures InOrder(rank, rows + [last])
  {
  }

  lemma {:induction false} InsertInOrder(rank: ZoneId -> int, d: Deficit, rows: seq<Deficit>)
    requires InOrder(rank, rows)
    ensures InOrder(rank, InsertDeficit(rank, d, rows))
  {
    if rows != [] {
      var n := |rows| - 1;
      assert rows == rows[..n] + [rows[n]];
      if Needier(rank, d, rows[n]) {
        var front := InsertDeficit(rank, d, rows[..n]);
        InsertInOrder(rank, d, rows[..n]);
        forall x | x in front
          ensures !Needier(rank, rows[n], x)
        {
          assert x in multiset(front);
          assert x == d || x in rows[..n];
        }
        LastInOrder(rank, front, rows[n]);
      } else {
        LastInOrder(rank, rows, d);
      }
    }
  }

  /** Ranking sorts, and keeps exactly the rows from the threshold on. */
  lemma {:induction false} RankedInOrder(rank: ZoneId -> int, rows: seq<Deficit>, threshold: real)
    ensures InOrder(rank, Ranked(rank, rows, threshold))
    ensures forall d :: d in Ranked(rank, rows, threshold) <==> d in rows && d.gap >= threshold
    ensures forall d :: multiset(Ranked(rank, rows, threshold))[d] == if d.gap >= threshold then multiset(rows)[d] else 0
  {
    if rows != [] {
      var n := |rows| - 1;
      var before := Ranked(rank, rows[..n], threshold);
      RankedInOrder(rank, rows[..n], threshold);
      assert rows == rows[..n] + [rows[n]];
      InsertInOrder(rank, rows[n], before);
      var r := Ranked(rank, rows, threshold);
      assert forall d :: d in r <==> d in multiset(r);
    }
  }

  /** The largest gap comes first, and of equal gaps the zone first by name. */
  lemma RankedMeans(rank: ZoneId -> int, rows: seq<Deficit>, threshold: real, i: nat, j: nat)
    requires i < j < |Ranked(rank, rows, threshold)|
    ensures var r := Ranked(rank, rows, threshold);
            r[i].gap > r[j].gap || (r[i].gap == r[j].gap && rank(r[i].zone) <= rank(r[j].zone))
  {
    RankedInOrder(rank, rows, threshold);
    assert !Needier(rank, Ranked(rank, rows, threshold)[j], Ranked(rank, rows, threshold)[i]);
  }

  // ----------------------------------------------------------------------- candidates

  /** The searches that lie in a tile entirely, each ID once. */
  function Contained(tile: Rect, tasks: seq<QuotaTask>): (r: seq<string>)
    ensures forall id :: id in r <==> exists t :: t in tasks && t.id == id && t.search && t.bbox.Some? && tile.Contains(t.bbox.value)
    ensures Distinct(r)
  {
    if tasks == [] then [] else
      var n := |tasks| - 1;
      assert tasks == tasks[..n] + [tasks[n]];
      var before, t := Contained(tile, tasks[..n]), tasks[n];
      if t.search && t.bbox.Some? && Within(tile, t.bbox.value) && t.id !in before then before + [t.id] else before
  }

  predicate Within(tile: Rect, b: Rect) { tile.x0 <= b.x0 && b.x1 <= tile.x1 && tile.y0 <= b.y0 && b.y1 <= tile.y1 }

  ghost predicate BoxesProper(tasks: seq<QuotaTask>) {
    forall t :: t in tasks && t.bbox.Some? ==> t.bbox.value.Proper()
  }

  ghost predicate UniqueTasks(tasks: seq<QuotaTask>) {
    forall s, t :: s in tasks && t in tasks && s.id == t.id ==> s == t
  }

  /** What quotas for the rows of a summary are. */
  ghost predicate AreQuotas(p: ZonePartition, rows: seq<Deficit>, tasks: seq<QuotaTask>, threshold: real, maxSlots: Option<int>, quotas: seq<Quota>)
    requires p.zoneCols > 0 && p.zoneRows > 0
  {
    var deficit := Ranked(p.rank, rows, threshold);
    && |quotas| == (if maxSlots.Some? && maxSlots.value < |deficit| then maxSlots.value else |deficit|)
    && forall k: nat :: k < |quotas| ==> quotas[k] == Quota(deficit[k].zone, Contained(p.Box(deficit[k].zone), tasks))
  }

  method BuildQuotas(p: ZonePartition, rows: seq<Deficit>, tasks: seq<QuotaTask>, threshold: real, maxSlots: Option<int>)
    returns (quotas: Option<seq<Quota>>)
    requires p.Valid() && BoxesProper(tasks) && forall d :: d in rows ==> d.zone in p.ids
    ensures quotas.None? <==> !(0.0 <= threshold <= 1.0) || (maxSlots.Some? && maxSlots.value < 0)
    ensures quotas.Some? ==> AreQuotas(p, rows, tasks, threshold, maxSlots, quotas.value)
  {
    hide Contained, Ranked;
    if !(0.0 <= threshold <= 1.0) || (maxSlots.Some? && maxSlots.value < 0) {
      return None;
    }
    var deficit := Ranked(p.rank, rows, threshold);
    var count := if maxSlots.Some? && maxSlots.value < |deficit| then maxSlots.value else |deficit|;
    var built: seq<Quota> := [];
    for k := 0 to count
      invariant |built| == k
      invariant forall i: nat :: i < k ==> built[i] == Quota(deficit[i].zone, Contained(p.Box(deficit[i].zone), tasks))
    {
      built := built + [Quota(deficit[k].zone, Contained(p.Box(deficit[k].zone), tasks))];
    }
    return Some(built);
  }

  /** A candidate is offered for one zone only. */
  lemma QuotasShareNoTask(p: ZonePartition, rows: seq<Deficit>, tasks: seq<QuotaTask>, threshold: real, maxSlots: Option<int>,
                          quotas: seq<Quota>, i: nat, j: nat, id: string)
    requires p.Valid() && BoxesProper(tasks) && UniqueTasks(tasks) && forall d :: d in rows ==> d.zone in p.ids
    requires AreQuotas(p, rows, tasks, threshold, maxSlots, quotas) && i < |quotas| && j < |quotas|
    requires id in quotas[i].candidates && id in quotas[j].candidates
    ensures quotas[i].zone == quotas[j].zone
  {
    hide Ranked, Edge, Tile, IsPrefix, Ordered;
    var deficit := Ranked(p.rank, rows, threshold);
    RankedInOrder(p.rank, rows, threshold);
    assert deficit[i] in deficit && deficit[j] in deficit;
    var a, b := deficit[i].zone, deficit[j].zone;
    var s :| s in tasks && s.id == id && s.search && s.bbox.Some? && p.Box(a).Contains(s.bbox.value);
    var t :| t in tasks && t.id == id && t.search && t.bbox.Some? && p.Box(b).Contains(t.bbox.value);
    NoBoxInTwoZones(p, a, b, s.bbox.value);
  }

  /** A zone in deficit that gets no quota is no needier than any zone that does, and all slots are used. */
  lemma LeftOutIsNotNeedier(p: ZonePartition, rows: seq<Deficit>, tasks: seq<QuotaTask>, threshold: real, maxSlots: Option<int>,
                            quotas: seq<Quota>, d: Deficit)
    requires p.zoneCols > 0 && p.zoneRows > 0 && AreQuotas(p, rows, tasks, threshold, maxSlots, quotas)
    requires d in rows && d.gap >= threshold && forall k: nat :: k < |quotas| ==> quotas[k].zone != d.zone
    ensures maxSlots == Some(|quotas|)
    ensures forall k: nat :: k < |quotas| ==>
              exists e :: e in rows && e.zone == quotas[k].zone && (e.gap > d.gap || (e.gap == d.gap && p.rank(e.zone) <= p.rank(d.zone)))
  {
    hide Ranked, Contained;
    var deficit := Ranked(p.rank, rows, threshold);
    RankedInOrder(p.rank, rows, threshold);
    assert d in deficit;
    var i: nat :| i < |deficit| && deficit[i] == d;
    assert i >= |quotas|;
    forall k: nat | k < |quotas|
      ensures exists e :: e in rows && e.zone == quotas[k].zone && (e.gap > d.gap || (e.gap == d.gap && p.rank(e.zone) <= p.rank(d.zone)))
    {
      RankedMeans(p.rank, rows, threshold, k, i);
      assert deficit[k] in deficit;
    }
  }
}
