/** Who is responsible for a cell, zone by zone, and that all figures of fresh coverage agree. */
module Responsibility {

  import opened Finite
  import opened Rectangles
  import opened CoverageZones
  import opened CoverageMetrics

  /** Recorded times lie between zero and now. */
  ghost predicate TimesWithin(last: Times, now: real)
    reads last
  {
    forall x: nat, y: nat :: x < last.Length0 && y < last.Length1 && last[x, y].Some? ==> 0.0 <= last[x, y].value <= now
  }

  method CheckTimes(last: Times, now: real) returns (ok: bool)
    ensures ok <==> TimesWithin(last, now)
  {
    for x := 0 to last.Length0
      invariant forall c: nat, r: nat :: c < x && r < last.Length1 && last[c, r].Some? ==> 0.0 <= last[c, r].value <= now
    {
      for y := 0 to last.Length1
        invariant forall c: nat, r: nat :: c < x && r < last.Length1 && last[c, r].Some? ==> 0.0 <= last[c, r].value <= now
        invariant forall r: nat :: r < y && last[x, r].Some? ==> 0.0 <= last[x, r].value <= now
      {
        if last[x, y].Some? && !(0.0 <= last[x, y].value <= now) {
          return false;
        }
      }
    }
    return true;
  }

  /** The five classes of fixed cells. */
  datatype Classes = Classes(recent: array2<bool>, deferredWeather: array2<bool>, assignedDue: array2<bool>, geometry: array2<bool>,
                             waitingDue: array2<bool>)

  ghost predicate Partition(whole: set<Cell>, a: set<Cell>, b: set<Cell>, c: set<Cell>, d: set<Cell>, e: set<Cell>) {
    whole == a + b + c + d + e && a !! b && (a + b) !! c && (a + b + c) !! d && (a + b + c + d) !! e
  }

  /** Fresh cells; of the rest what weather forbids; of the rest what is assigned; of the rest what no
      legal candidate covers; and what waits for one. Every fixed cell is in exactly one class. */
  method Classify(fixed: array2<bool>, last: Times, now: real, minutes: real, feasible: array2<bool>, taken: array2<bool>,
                  legal: array2<bool>)
    returns (classes: Option<Classes>)
    ensures classes.None? <==> now < 0.0 || !SameShape(fixed, last) || !TimesWithin(last, now) || !SameSize(fixed, feasible)
                               || !SameSize(fixed, taken) || !SameSize(fixed, legal)
    ensures classes.Some? ==>
              var c := classes.value; var whole := FreeCells(fixed);
              && Partition(whole, FreeCells(c.recent), FreeCells(c.deferredWeather), FreeCells(c.assignedDue), FreeCells(c.geometry),
                           FreeCells(c.waitingDue))
              && FreeCells(c.recent) == Recent(fixed, last, now, minutes)
              && FreeCells(c.deferredWeather) == whole - FreeCells(c.recent) - FreeCells(feasible)
              && FreeCells(c.assignedDue) == (whole - FreeCells(c.recent)) * FreeCells(feasible) * FreeCells(taken)
              && FreeCells(c.waitingDue) == (whole - FreeCells(c.recent)) * FreeCells(feasible) * FreeCells(legal) - FreeCells(taken)
  {
    hide FreeCells, Recent, TimesWithin;
    if now < 0.0 || !SameShape(fixed, last) {
      return None;
    }
    var inTime := CheckTimes(last, now);
    if !inTime || !SameSize(fixed, feasible) || !SameSize(fixed, taken) || !SameSize(fixed, legal) {
      return None;
    }
    var recent := RecentMask(fixed, last, now, minutes);
    var remaining := WithoutMask(fixed, recent);
    var deferred := WithoutMask(remaining, feasible);
    var flyable := BothMask(remaining, feasible);
    var due := BothMask(flyable, taken);
    var open := WithoutMask(flyable, due);
    var blocked := WithoutMask(open, legal);
    var waiting := BothMask(open, legal);
    RecentIsFixed(fixed, last, now, minutes);
    Peeled(FreeCells(fixed), FreeCells(recent), FreeCells(feasible), FreeCells(taken), FreeCells(legal));
    return Some(Classes(recent, deferred, due, blocked, waiting));
  }

  lemma RecentIsFixed(fixed: array2<bool>, last: Times, now: real, minutes: real)
    requires SameShape(fixed, last)
    ensures Recent(fixed, last, now, minutes) <= FreeCells(fixed)
  {
  }

  /** Taking one class after the other off what is left partitions the whole. */
  lemma Peeled(whole: set<Cell>, recent: set<Cell>, feasible: set<Cell>, taken: set<Cell>, legal: set<Cell>)
    requires recent <= whole
    ensures var left := whole - recent; var flyable := left * feasible; var due := flyable * taken; var open := flyable - due;
            && Partition(whole, recent, left - feasible, due, open - legal, open * legal)
            && open * legal == left * feasible * legal - taken
  {
  }

  // ----------------------------------------------------------------------- zone figures

  datatype ZoneRow = ZoneRow(zone: ZoneId, fixedCells: nat, unseen: nat, overdue: nat)

  ghost function Unseen(fixed: array2<bool>, last: Times): set<Cell>
    requires SameShape(fixed, last)
    reads fixed, last
  {
    set p | p in FreeCells(fixed) && last[p.0, p.1].None?
  }

  ghost function Overdue(fixed: array2<bool>, last: Times, now: real, minutes: real): set<Cell>
    requires SameShape(fixed, last)
    reads fixed, last
  {
    set p | p in FreeCells(fixed) && last[p.0, p.1].Some? && last[p.0, p.1].value <= now - minutes
  }

  /** The count of cells of a box. */
  method CountInside(mask: array2<bool>, box: Rect) returns (count: nat)
    ensures count == |Inside(FreeCells(mask), box)|
  {
    var part := InsideMask(mask, box);
    count := CountTrue(part);
  }

  method InsideMask(mask: array2<bool>, box: Rect) returns (part: array2<bool>)
    ensures fresh(part) && FreeCells(part) == Inside(FreeCells(mask), box)
  {
    part := new bool[mask.Length0, mask.Length1]((x, y) reads mask requires 0 <= x < mask.Length0 && 0 <= y < mask.Length1 =>
      mask[x, y] && box.x0 <= x < box.x1 && box.y0 <= y < box.y1);
  }

  method UnseenMask(fixed: array2<bool>, last: Times) returns (mask: array2<bool>)
    requires SameShape(fixed, last)
    ensures fresh(mask) && FreeCells(mask) == Unseen(fixed, last)
  {
    mask := new bool[fixed.Length0, fixed.Length1]((x, y) reads fixed, last requires
      0 <= x < fixed.Length0 && 0 <= y < fixed.Length1 && SameShape(fixed, last) => fixed[x, y] && last[x, y].None?);
  }

  method OverdueMask(fixed: array2<bool>, last: Times, now: real, minutes: real) returns (mask: array2<bool>)
    requires SameShape(fixed, last)
    ensures fresh(mask) && FreeCells(mask) == Overdue(fixed, last, now, minutes)
  {
    mask := new bool[fixed.Length0, fixed.Length1]((x, y) reads fixed, last requires
      0 <= x < fixed.Length0 && 0 <= y < fixed.Length1 && SameShape(fixed, last) =>
      fixed[x, y] && last[x, y].Some? && last[x, y].value <= now - minutes);
  }

  ghost predicate IsRow(p: ZonePartition, last: Times, now: real, minutes: real, row: ZoneRow, z: ZoneId)
    requires p.zoneCols > 0 && p.zoneRows > 0 && SameShape(p.fixed, last)
    reads p, p.fixed, last
  {
    && row.zone == z && row.fixedCells == |Inside(FreeCells(p.fixed), p.Box(z))|
    && row.unseen == |Inside(Unseen(p.fixed, last), p.Box(z))|
    && row.overdue == |Inside(Overdue(p.fixed, last, now, minutes), p.Box(z))|
  }

  /** One row for every zone. */
  method Summarize(p: ZonePartition, last: Times, now: real, minutes: real) returns (rows: seq<ZoneRow>)
    requires p.Valid() && SameShape(p.fixed, last)
    ensures |rows| == |p.ids| && forall k: nat :: k < |rows| ==> IsRow(p, last, now, minutes, rows[k], p.ids[k])
  {
    hide FreeCells, Inside, Unseen, Overdue, Tile, Edge, IsPrefix, Ordered;
    var unseen := UnseenMask(p.fixed, last);
    var overdue := OverdueMask(p.fixed, last, now, minutes);
    rows := [];
    for k := 0 to |p.ids|
      invariant |rows| == k && FreeCells(unseen) == Unseen(p.fixed, last) && FreeCells(overdue) == Overdue(p.fixed, last, now, minutes)
      invariant forall i: nat :: i < k ==> IsRow(p, last, now, minutes, rows[i], p.ids[i])
    {
      var z := p.ids[k];
      var a := CountInside(p.fixed, p.Box(z));
      var b := CountInside(unseen, p.Box(z));
      var c := CountInside(overdue, p.Box(z));
      rows := rows + [ZoneRow(z, a, b, c)];
    }
  }

  /** The cells of a set, zone by zone. */
  ghost function ZoneSum(p: ZonePartition, cells: set<Cell>, n: nat): nat
    requires p.zoneCols > 0 && p.zoneRows > 0 && n <= |p.ids|
    reads p
  {
    if n == 0 then 0 else ZoneSum(p, cells, n - 1) + |Inside(cells, p.Box(p.ids[n - 1]))|
  }

  /** The cells that lie in one of the first zones. */
  ghost function InZones(p: ZonePartition, cells: set<Cell>, n: nat): set<Cell>
    requires p.zoneCols > 0 && p.zoneRows > 0 && n <= |p.ids|
    reads p
  {
    if n == 0 then {} else InZones(p, cells, n - 1) + Inside(cells, p.Box(p.ids[n - 1]))
  }

  lemma {:induction false} InSomeZone(p: ZonePartition, cells: set<Cell>, n: nat, cell: Cell)
    requires p.zoneCols > 0 && p.zoneRows > 0 && n <= |p.ids|
    ensures cell in InZones(p, cells, n) <==> exists i: nat :: i < n && cell in Inside(cells, p.Box(p.ids[i]))
  {
    hide Inside, Tile;
    if n > 0 {
      var m := n - 1;
      InSomeZone(p, cells, m, cell);
      if cell in InZones(p, cells, n) && cell !in InZones(p, cells, m) {
        assert cell in Inside(cells, p.Box(p.ids[m]));
      }
    }
  }

  lemma {:induction false} SumIsUnion(p: ZonePartition, cells: set<Cell>, n: nat)
    requires p.Valid() && n <= |p.ids| && cells <= FreeCells(p.fixed)
    ensures ZoneSum(p, cells, n) == |InZones(p, cells, n)|
  {
    hide Tile, IsPrefix, IsZone;
    if n > 0 {
      var m := n - 1;
      SumIsUnion(p, cells, m);
      forall cell | cell in InZones(p, cells, m)
        ensures cell !in Inside(cells, p.Box(p.ids[m]))
      {
        InSomeZone(p, cells, m, cell);
        NotInLater(p, cells, m, cell);
      }
      DisjointCard(InZones(p, cells, m), Inside(cells, p.Box(p.ids[m])));
    }
  }

  lemma NotInLater(p: ZonePartition, cells: set<Cell>, m: nat, cell: Cell)
    requires p.Valid() && m < |p.ids| && cells <= FreeCells(p.fixed)
    requires exists i: nat :: i < m && cell in Inside(cells, p.Box(p.ids[i]))
    ensures cell !in Inside(cells, p.Box(p.ids[m]))
  {
    hide Tile, IsPrefix, IsZone;
    var i: nat :| i < m && cell in Inside(cells, p.Box(p.ids[i]));
    assert p.ids[i] in p.ids && p.ids[m] in p.ids;
    if cell in Inside(cells, p.Box(p.ids[m])) {
      ZonesApart(p, p.ids[i], p.ids[m], cell.0, cell.1);
    }
  }

  /** Counting fixed cells zone by zone counts each of them once. */
  lemma ZonesCountOnce(p: ZonePartition, cells: set<Cell>)
    requires p.Valid() && cells <= FreeCells(p.fixed)
    ensures ZoneSum(p, cells, |p.ids|) == |cells|
  {
    hide Edge, IndexOf, IsPrefix, Ordered;
    SumIsUnion(p, cells, |p.ids|);
    forall cell | cell in cells
      ensures cell in InZones(p, cells, |p.ids|)
    {
      HasZone(p, cells, cell);
      InSomeZone(p, cells, |p.ids|, cell);
    }
    forall cell | cell in InZones(p, cells, |p.ids|)
      ensures cell in cells
    {
      InSomeZone(p, cells, |p.ids|, cell);
    }
    assert InZones(p, cells, |p.ids|) == cells;
  }

  lemma HasZone(p: ZonePartition, cells: set<Cell>, cell: Cell)
    requires p.Valid() && cells <= FreeCells(p.fixed) && cell in cells
    ensures exists i: nat :: i < |p.ids| && cell in Inside(cells, p.Box(p.ids[i]))
  {
    hide Edge, IndexOf, IsPrefix, Ordered, Tile;
    var x: nat, y: nat := cell.0, cell.1;
    var z := (IndexOf(x, p.zoneCols, p.fixed.Length0), IndexOf(y, p.zoneRows, p.fixed.Length1));
    OneTile(x, p.zoneCols, p.fixed.Length0, 0);
    OneTile(y, p.zoneRows, p.fixed.Length1, 0);
    TilesPartition(p.zoneCols, p.zoneRows, p.fixed.Length0, p.fixed.Length1, x, y, z);
    assert cell in Inside(FreeCells(p.fixed), p.Box(z)) && cell in Inside(cells, p.Box(z));
    assert z in p.ids;
  }

  // ------------------------------------------------------------------------ agreement

  lemma StatesCover(fixed: array2<bool>, last: Times, now: real, minutes: real)
    requires SameShape(fixed, last) && TimesWithin(last, now)
    ensures FreeCells(fixed) == Unseen(fixed, last) + Overdue(fixed, last, now, minutes) + Recent(fixed, last, now, minutes)
  {
    forall p | p in FreeCells(fixed)
      ensures p in Unseen(fixed, last) || p in Overdue(fixed, last, now, minutes) || p in Recent(fixed, last, now, minutes)
    {
      var x: nat, y: nat := p.0, p.1;
      assert last[x, y].Some? ==> last[x, y].value <= now;
    }
  }

  lemma StatesApart(fixed: array2<bool>, last: Times, now: real, minutes: real)
    requires SameShape(fixed, last)
    ensures Unseen(fixed, last) !! Overdue(fixed, last, now, minutes)
    ensures (Unseen(fixed, last) + Overdue(fixed, last, now, minutes)) !! Recent(fixed, last, now, minutes)
  {
  }

  /** Every fixed cell is unseen, overdue or fresh. */
  lemma ThreeStates(fixed: array2<bool>, last: Times, now: real, minutes: real)
    requires SameShape(fixed, last) && TimesWithin(last, now)
    ensures FreeCells(fixed) == Unseen(fixed, last) + Overdue(fixed, last, now, minutes) + Recent(fixed, last, now, minutes)
    ensures |Recent(fixed, last, now, minutes)| == |FreeCells(fixed)| - |Unseen(fixed, last)| - |Overdue(fixed, last, now, minutes)|
  {
    hide FreeCells, Unseen, Overdue, Recent, TimesWithin;
    StatesCover(fixed, last, now, minutes);
    StatesApart(fixed, last, now, minutes);
    DisjointCard(Unseen(fixed, last), Overdue(fixed, last, now, minutes));
    DisjointCard(Unseen(fixed, last) + Overdue(fixed, last, now, minutes), Recent(fixed, last, now, minutes));
  }

  ghost function FixedTotal(rows: seq<ZoneRow>): nat { if rows == [] then 0 else FixedTotal(rows[..|rows| - 1]) + rows[|rows| - 1].fixedCells }
  ghost function UnseenTotal(rows: seq<ZoneRow>): nat { if rows == [] then 0 else UnseenTotal(rows[..|rows| - 1]) + rows[|rows| - 1].unseen }
  ghost function OverdueTotal(rows: seq<ZoneRow>): nat { if rows == [] then 0 else OverdueTotal(rows[..|rows| - 1]) + rows[|rows| - 1].overdue }

  lemma {:induction false} TotalsAreSums(p: ZonePartition, last: Times, now: real, minutes: real, rows: seq<ZoneRow>)
    requires p.Valid() && SameShape(p.fixed, last) && |rows| <= |p.ids|
    requires forall k: nat :: k < |rows| ==> IsRow(p, last, now, minutes, rows[k], p.ids[k])
    ensures FixedTotal(rows) == ZoneSum(p, FreeCells(p.fixed), |rows|)
    ensures UnseenTotal(rows) == ZoneSum(p, Unseen(p.fixed, last), |rows|)
    ensures OverdueTotal(rows) == ZoneSum(p, Overdue(p.fixed, last, now, minutes), |rows|)
  {
    hide FreeCells, Inside, Unseen, Overdue, Tile, IsPrefix, IsZone, Ordered;
    if rows != [] {
      var n := |rows| - 1;
      TotalsAreSums(p, last, now, minutes, rows[..n]);
      assert IsRow(p, last, now, minutes, rows[n], p.ids[n]);
    }
  }

  /** What is neither unseen nor overdue, added up over the zones, is what is fresh. */
  lemma ZoneRowsGiveFresh(p: ZonePartition, last: Times, now: real, minutes: real, rows: seq<ZoneRow>)
    requires p.Valid() && SameShape(p.fixed, last) && TimesWithin(last, now)
    requires |rows| == |p.ids| && forall k: nat :: k < |rows| ==> IsRow(p, last, now, minutes, rows[k], p.ids[k])
    ensures FixedTotal(rows) == |FreeCells(p.fixed)|
    ensures FixedTotal(rows) - UnseenTotal(rows) - OverdueTotal(rows) == |Recent(p.fixed, last, now, minutes)|
  {
    hide FreeCells, Inside, Recent, Tile, IsPrefix, IsZone, Ordered;
    TotalsAreSums(p, last, now, minutes, rows);
    ZonesCountOnce(p, FreeCells(p.fixed));
    ZonesCountOnce(p, Unseen(p.fixed, last));
    ZonesCountOnce(p, Overdue(p.fixed, last, now, minutes));
    ThreeStates(p.fixed, last, now, minutes);
  }

  /** What the metrics keep can be handed to the other two: the recorded times lie between zero and now. */
  lemma RecordedTimesFit(m: CoverageMetrics, now: real)
    requires m.Valid() && (m.lastRecord.Some? ==> m.lastRecord.value <= now)
    ensures TimesWithin(m.last, now)
  {
    forall x: nat, y: nat | x < m.last.Length0 && y < m.last.Length1 && m.last[x, y].Some?
      ensures 0.0 <= m.last[x, y].value <= now
    {
      LastScanIsLast(m.history, (x, y));
      var i: nat :| i < |m.history| && m.history[i].at == m.last[x, y].value;
      assert m.history[i].at <= m.history[|m.history| - 1].at;
    }
  }

  lemma SameRecent(fixed: array2<bool>, other: array2<bool>, last: Times, now: real, minutes: real)
    requires SameShape(fixed, last) && SameShape(other, last) && FreeCells(fixed) == FreeCells(other)
    ensures Recent(fixed, last, now, minutes) == Recent(other, last, now, minutes)
  {
    hide IsRecent;
    forall p
      ensures p in Recent(fixed, last, now, minutes) <==> p in Recent(other, last, now, minutes)
    {
      assert p in FreeCells(fixed) <==> p in FreeCells(other);
    }
  }

  const PRIMARY_WINDOW := 60.0

  lemma PrimaryWindow(m: CoverageMetrics, s: Snapshot, now: real, feasible: array2<bool>)
    requires SameShape(m.fixed, m.last) && m.Reports(s, now, feasible)
    ensures |s.windows| == 3 && s.windows[1].covered == |Recent(m.fixed, m.last, now, PRIMARY_WINDOW)|
  {
    hide Recent, FreeCells, Seen;
    assert m.CountsWindow(s.windows[1], now, WINDOWS[1], feasible);
  }

  /** The three places that count the cells fresh in the primary window: a snapshot of the metrics, the classes of
      responsibility, and the rows of the zones. */
  datatype FreshCounts = FreshCounts(snapshot: nat, classes: nat, fixedCells: nat, unseen: nat, overdue: nat)

  /** Whatever scans are recorded, the three counts are the same number. */
  method FreshCountsAgree(m: CoverageMetrics, p: ZonePartition, scans: seq<(seq<Cell>, real)>, now: real,
                          feasible: array2<bool>, taken: array2<bool>, legal: array2<bool>)
    returns (counts: Option<FreshCounts>)
    requires m.Valid() && p.Valid() && SameSize(p.fixed, m.fixed) && FreeCells(p.fixed) == FreeCells(m.fixed)
    modifies m, m.last
    ensures m.Valid()
    ensures counts.None? <==> now < 0.0 || (m.lastRecord.Some? && now < m.lastRecord.value)
                              || !SameSize(m.fixed, feasible) || !SameSize(m.fixed, taken) || !SameSize(m.fixed, legal)
    ensures counts.Some? ==>
              counts.value.snapshot == counts.value.classes == counts.value.fixedCells - counts.value.unseen - counts.value.overdue
  {
    hide *;
    for k := 0 to |scans|
      invariant m.Valid() && p.Valid() && SameSize(p.fixed, m.fixed) && FreeCells(p.fixed) == FreeCells(m.fixed)
    {
      var (cells, at) := scans[k];
      var _ := m.RecordSar(cells, at);
    }
    MetricsShape(m, p);
    var snapshot := m.TakeSnapshot(now, feasible);
    if snapshot.None? {
      return None;
    }
    RecordedTimesFit(m, now);
    var classes := Classify(m.fixed, m.last, now, PRIMARY_WINDOW, feasible, taken, legal);
    if classes.None? {
      return None;
    }
    var recent := CountTrue(classes.value.recent);
    PrimaryWindow(m, snapshot.value, now, feasible);
    var rows := Summarize(p, m.last, now, PRIMARY_WINDOW);
    SameRecent(p.fixed, m.fixed, m.last, now, PRIMARY_WINDOW);
    ZoneRowsGiveFresh(p, m.last, now, PRIMARY_WINDOW, rows);
    var fixedCells, unseen, overdue := Totals(rows);
    counts := Some(FreshCounts(snapshot.value.windows[1].covered, recent, fixedCells, unseen, overdue));
  }

  lemma MetricsShape(m: CoverageMetrics, p: ZonePartition)
    requires m.Valid() && SameSize(p.fixed, m.fixed)
    ensures SameShape(m.fixed, m.last) && SameShape(p.fixed, m.last)
  {
  }

  method Totals(rows: seq<ZoneRow>) returns (fixedCells: nat, unseen: nat, overdue: nat)
    ensures fixedCells == FixedTotal(rows) && unseen == UnseenTotal(rows) && overdue == OverdueTotal(rows)
  {
    fixedCells, unseen, overdue := 0, 0, 0;
    for k := 0 to |rows|
      invariant fixedCells == FixedTotal(rows[..k]) && unseen == UnseenTotal(rows[..k]) && overdue == OverdueTotal(rows[..k])
    {
      assert rows[..k + 1][..k] == rows[..k];
      fixedCells, unseen, overdue := fixedCells + rows[k].fixedCells, unseen + rows[k].unseen, overdue + rows[k].overdue;
    }
    assert rows[..|rows|] == rows;
  }
}
