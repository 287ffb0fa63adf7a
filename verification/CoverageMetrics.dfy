/** Rolling coverage from the last scan of every cell, and what it says about all scans. */
module CoverageMetrics {

  import opened Finite
  import opened Rectangles
  import opened CoverageZones

  /** One recorded scan. */
  datatype Scan = Scan(cells: set<Cell>, at: real)

  /** The last scan of a cell. */
  ghost function LastScan(history: seq<Scan>, cell: Cell): Option<real> {
    if history == [] then None
    else if cell in history[|history| - 1].cells then Some(history[|history| - 1].at)
    else LastScan(history[..|history| - 1], cell)
  }

  ghost predicate Ascending(history: seq<Scan>) {
    forall i: nat, j: nat :: i < j < |history| ==> history[i].at <= history[j].at
  }

  /** Some scan of the cell falls into the window, which is open on the left. */
  ghost predicate ScannedWithin(history: seq<Scan>, cell: Cell, now: real, minutes: real) {
    exists i: nat :: i < |history| && cell in history[i].cells && now - minutes < history[i].at <= now
  }

  ghost predicate EverScanned(history: seq<Scan>, cell: Cell) {
    exists i: nat :: i < |history| && cell in history[i].cells
  }

  lemma {:induction false} LastScanIsLast(history: seq<Scan>, cell: Cell)
    requires Ascending(history)
    ensures LastScan(history, cell).Some? <==> EverScanned(history, cell)
    ensures LastScan(history, cell).Some? ==>
              exists i: nat :: i < |history| && cell in history[i].cells && history[i].at == LastScan(history, cell).value
    ensures forall i: nat :: i < |history| && cell in history[i].cells ==>
              LastScan(history, cell).Some? && history[i].at <= LastScan(history, cell).value
  {
    if history != [] {
      var n := |history| - 1;
      if cell in history[n].cells {
        assert EverScanned(history, cell);
      } else {
        var before := history[..n];
        LastScanIsLast(before, cell);
        if LastScan(before, cell).Some? {
          var i: nat :| i < n && cell in before[i].cells && before[i].at == LastScan(before, cell).value;
          assert history[i] == before[i];
        }
        forall i: nat | i < |history| && cell in history[i].cells
          ensures LastScan(history, cell).Some? && history[i].at <= LastScan(history, cell).value
        {
          assert before[i] == history[i];
        }
      }
    }
  }

  /** The last scan alone tells whether any scan falls into a window that reaches to now. */
  lemma LastScanTells(history: seq<Scan>, cell: Cell, now: real, minutes: real)
    requires Ascending(history) && forall i: nat :: i < |history| ==> history[i].at <= now
    ensures var last := LastScan(history, cell);
            last.Some? && last.value > now - minutes <==> ScannedWithin(history, cell, now, minutes)
  {
    LastScanIsLast(history, cell);
  }

  // ------------------------------------------------------------------------- counting

  /** The cells up to a position, column by column. */
  ghost function Upto(cells: set<Cell>, x: int, y: int): set<Cell> {
    set p: Cell | p in cells && (p.0 < x || (p.0 == x && p.1 < y))
  }

  lemma UptoStep(cells: set<Cell>, x: int, y: int)
    ensures |Upto(cells, x, y + 1)| == |Upto(cells, x, y)| + if (x, y) in cells then 1 else 0
  {
    var one: set<Cell> := if (x, y) in cells then {(x, y)} else {};
    assert Upto(cells, x, y + 1) == Upto(cells, x, y) + one;
    DisjointCard(Upto(cells, x, y), one);
  }

  method CountTrue(mask: array2<bool>) returns (count: nat)
    ensures count == |FreeCells(mask)|
  {
    hide FreeCells, Upto;
    ghost var cells := FreeCells(mask);
    var total := 0;
    FreeEnds(mask);
    for x := 0 to mask.Length0
      invariant total == |Upto(cells, x, 0)|
    {
      for y := 0 to mask.Length1
        invariant total == |Upto(cells, x, y)|
      {
        UptoStep(cells, x, y);
        FreeIs(mask, x, y);
        if mask[x, y] {
          total := total + 1;
        }
      }
      NextColumn(mask, x);
    }
    return total;
  }

  lemma FreeIs(mask: array2<bool>, x: nat, y: nat)
    requires x < mask.Length0 && y < mask.Length1
    ensures (x, y) in FreeCells(mask) <==> mask[x, y]
  {
  }

  lemma FreeEnds(mask: array2<bool>)
    ensures |Upto(FreeCells(mask), 0, 0)| == 0 && Upto(FreeCells(mask), mask.Length0, 0) == FreeCells(mask)
  {
    assert Upto(FreeCells(mask), 0, 0) == {};
  }

  lemma NextColumn(mask: array2<bool>, x: int)
    ensures Upto(FreeCells(mask), x, mask.Length1) == Upto(FreeCells(mask), x + 1, 0)
  {
  }

  // -------------------------------------------------------------------------- windows

  type Times = array2<Option<real>>

  predicate SameShape(fixed: array2<bool>, last: Times) { fixed.Length0 == last.Length0 && fixed.Length1 == last.Length1 }

  /** Fixed cells whose last scan is no older than the window. */
  ghost function Recent(fixed: array2<bool>, last: Times, now: real, minutes: real): set<Cell>
    requires SameShape(fixed, last)
    reads fixed, last
  {
    set p | p in FreeCells(fixed) && last[p.0, p.1].Some? && now - minutes < last[p.0, p.1].value <= now
  }

  ghost function Seen(fixed: array2<bool>, last: Times, now: real): set<Cell>
    requires SameShape(fixed, last)
    reads fixed, last
  {
    set p | p in FreeCells(fixed) && last[p.0, p.1].Some? && last[p.0, p.1].value <= now
  }

  /** A longer window covers more. */
  lemma WindowsNest(fixed: array2<bool>, last: Times, now: real, shorter: real, longer: real)
    requires SameShape(fixed, last) && shorter <= longer
    ensures Recent(fixed, last, now, shorter) <= Recent(fixed, last, now, longer) <= Seen(fixed, last, now) <= FreeCells(fixed)
    ensures |Recent(fixed, last, now, shorter)| <= |Recent(fixed, last, now, longer)| <= |Seen(fixed, last, now)| <= |FreeCells(fixed)|
  {
    SubsetCard(Recent(fixed, last, now, shorter), Recent(fixed, last, now, longer));
    SubsetCard(Recent(fixed, last, now, longer), Seen(fixed, last, now));
    SubsetCard(Seen(fixed, last, now), FreeCells(fixed));
  }

  predicate IsRecent(last: Option<real>, now: real, minutes: real) {
    last.Some? && last.value <= now && last.value > now - minutes
  }

  datatype WindowCount = WindowCount(minutes: real, covered: nat, searchable: nat, complete: bool)

  datatype Snapshot = Snapshot(fixedCells: nat, searchableCells: nat, everScanned: nat, windows: seq<WindowCount>)

  const WINDOWS: seq<real> := [30.0, 60.0, 120.0]

  predicate SameSize(a: array2<bool>, b: array2<bool>) { a.Length0 == b.Length0 && a.Length1 == b.Length1 }

  lemma AlsoSame(a: array2<bool>, b: array2<bool>, c: array2<bool>)
    requires SameSize(a, b) && SameSize(b, c)
    ensures SameSize(a, c)
  {
  }

  method RecentMask(fixed: array2<bool>, last: Times, now: real, minutes: real) returns (mask: array2<bool>)
    requires SameShape(fixed, last)
    ensures fresh(mask) && SameSize(mask, fixed) && FreeCells(mask) == Recent(fixed, last, now, minutes)
  {
    mask := new bool[fixed.Length0, fixed.Length1]((x, y) reads fixed, last requires
      0 <= x < fixed.Length0 && 0 <= y < fixed.Length1 && SameShape(fixed, last) => fixed[x, y] && IsRecent(last[x, y], now, minutes));
  }

  method SeenMask(fixed: array2<bool>, last: Times, now: real) returns (mask: array2<bool>)
    requires SameShape(fixed, last)
    ensures fresh(mask) && SameSize(mask, fixed) && FreeCells(mask) == Seen(fixed, last, now)
  {
    mask := new bool[fixed.Length0, fixed.Length1]((x, y) reads fixed, last requires
      0 <= x < fixed.Length0 && 0 <= y < fixed.Length1 && SameShape(fixed, last) => fixed[x, y] && last[x, y].Some? && last[x, y].value <= now);
  }

  method BothMask(a: array2<bool>, b: array2<bool>) returns (mask: array2<bool>)
    requires SameSize(a, b)
    ensures fresh(mask) && SameSize(mask, a) && FreeCells(mask) == FreeCells(a) * FreeCells(b)
  {
    mask := new bool[a.Length0, a.Length1]((x, y) reads a, b requires
      0 <= x < a.Length0 && 0 <= y < a.Length1 && SameSize(a, b) => a[x, y] && b[x, y]);
  }

  method WithoutMask(a: array2<bool>, b: array2<bool>) returns (mask: array2<bool>)
    requires SameSize(a, b)
    ensures fresh(mask) && SameSize(mask, a) && FreeCells(mask) == FreeCells(a) - FreeCells(b)
  {
    mask := new bool[a.Length0, a.Length1]((x, y) reads a, b requires
      0 <= x < a.Length0 && 0 <= y < a.Length1 && SameSize(a, b) => a[x, y] && !b[x, y]);
  }

  class CoverageMetrics {
    const fixed: array2<bool>
    const last: Times
    var lastRecord: Option<real>
    ghost var history: seq<Scan>

    ghost predicate Valid()
      reads this, fixed, last
    {
      && SameShape(fixed, last) && Ascending(history)
      && lastRecord == (if history == [] then None else Some(history[|history| - 1].at))
      && (forall i: nat :: i < |history| ==> history[i].at >= 0.0)
      && forall x: nat, y: nat :: x < fixed.Length0 && y < fixed.Length1 ==>
           last[x, y] == if fixed[x, y] then LastScan(history, (x, y)) else None
    }

    constructor (mask: array2<bool>)
      ensures Valid() && history == [] && fresh(last) && fresh(fixed) && FreeCells(fixed) == FreeCells(mask)
    {
      var copy := new bool[mask.Length0, mask.Length1]((x, y) reads mask requires 0 <= x < mask.Length0 && 0 <= y < mask.Length1 => mask[x, y]);
      var never := new Option<real>[mask.Length0, mask.Length1]((x, y) => None);
      fixed, last, lastRecord, history := copy, never, None, [];
      new;
      assert FreeCells(fixed) == FreeCells(mask);
    }

    predicate InMap(cell: Cell) { 0 <= cell.0 < fixed.Length0 && 0 <= cell.1 < fixed.Length1 }

    /** Record a scan. A time before the last one, or a cell off the map, is refused as a whole. */
    method RecordSar(cells: seq<Cell>, at: real) returns (ok: bool)
      requires Valid()
      modifies this, last
      ensures Valid()
      ensures ok <==> at >= 0.0 && (old(lastRecord).Some? ==> old(lastRecord).value <= at) && forall k :: 0 <= k < |cells| ==> InMap(cells[k])
      ensures history == if ok then old(history) + [Scan((set k | 0 <= k < |cells| :: cells[k]), at)] else old(history)
      ensures !ok ==> forall x: nat, y: nat :: x < last.Length0 && y < last.Length1 ==> last[x, y] == old(last[x, y])
    {
      if at < 0.0 || (lastRecord.Some? && at < lastRecord.value) {
        return false;
      }
      for k := 0 to |cells|
        invariant forall i :: 0 <= i < k ==> InMap(cells[i])
      {
        if !InMap(cells[k]) {
          return false;
        }
      }
      ghost var before := history;
      ghost var scanned := set k | 0 <= k < |cells| :: cells[k];
      Mark(cells, at);
      lastRecord := Some(at);
      history := history + [Scan(scanned, at)];
      forall x: nat, y: nat | x < fixed.Length0 && y < fixed.Length1
        ensures last[x, y] == if fixed[x, y] then LastScan(history, (x, y)) else None
      {
        ScanAdded(before, Scan(scanned, at), (x, y));
        assert (x, y) in cells <==> (x, y) in scanned;
      }
      return true;
    }

    /** Stamp the fixed ones among the cells. */
    method Mark(cells: seq<Cell>, at: real)
      requires SameShape(fixed, last) && forall k :: 0 <= k < |cells| ==> InMap(cells[k])
      modifies last
      ensures forall x: nat, y: nat :: x < fixed.Length0 && y < fixed.Length1 ==>
                last[x, y] == if fixed[x, y] && (x, y) in cells then Some(at) else old(last[x, y])
    {
      for k := 0 to |cells|
        invariant forall x: nat, y: nat :: x < fixed.Length0 && y < fixed.Length1 ==>
                    last[x, y] == if fixed[x, y] && (x, y) in cells[..k] then Some(at) else old(last[x, y])
      {
        var (col, row) := cells[k];
        assert cells[..k + 1] == cells[..k] + [cells[k]];
        if fixed[col, row] {
          last[col, row] := Some(at);
        }
      }
      assert cells[..|cells|] == cells;
    }

    /** How many fixed cells were scanned within a window, and how many of those can be searched now. */
    method CountWindow(now: real, minutes: real, feasible: array2<bool>) returns (w: WindowCount)
      requires SameShape(fixed, last) && SameSize(fixed, feasible)
      ensures w.minutes == minutes && (w.complete <==> now >= minutes)
      ensures w.covered == |Recent(fixed, last, now, minutes)|
      ensures w.searchable == |Recent(fixed, last, now, minutes) * FreeCells(feasible)|
    {
      hide *;
      var recent := RecentMask(fixed, last, now, minutes);
      AlsoSame(recent, fixed, feasible);
      var both := BothMask(recent, feasible);
      var covered := CountTrue(recent);
      var searchable := CountTrue(both);
      w := WindowCount(minutes, covered, searchable, now >= minutes);
    }

    /** The figures at a time no earlier than the last scan. */
    method TakeSnapshot(now: real, feasible: array2<bool>) returns (snapshot: Option<Snapshot>)
      requires Valid()
      ensures snapshot.None? <==> now < 0.0 || (lastRecord.Some? && now < lastRecord.value) || !SameSize(fixed, feasible)
      ensures snapshot.Some? ==> Reports(snapshot.value, now, feasible)
    {
      if now < 0.0 || (lastRecord.Some? && now < lastRecord.value) || !SameSize(fixed, feasible) {
        return None;
      }
      var taken := Figures(now, feasible);
      return Some(taken);
    }

    method Figures(now: real, feasible: array2<bool>) returns (s: Snapshot)
      requires SameShape(fixed, last) && SameSize(fixed, feasible)
      ensures Reports(s, now, feasible)
    {
      hide *;
      var fixedCells := CountTrue(fixed);
      var current := BothMask(fixed, feasible);
      var searchable := CountTrue(current);
      var seen := SeenMask(fixed, last, now);
      var ever := CountTrue(seen);
      var windows: seq<WindowCount> := [];
      for k := 0 to |WINDOWS|
        invariant |windows| == k
        invariant forall i: nat :: i < k ==> CountsWindow(windows[i], now, WINDOWS[i], feasible)
      {
        var w := CountWindow(now, WINDOWS[k], feasible);
        Counted(this, w, now, WINDOWS[k], feasible);
        windows := windows + [w];
      }
      s := Snapshot(fixedCells, searchable, ever, windows);
      Reported(this, s, now, feasible);
    }

    ghost predicate CountsWindow(w: WindowCount, now: real, minutes: real, feasible: array2<bool>)
      requires SameShape(fixed, last)
      reads this, fixed, last, feasible
    {
      && w.minutes == minutes && (w.complete <==> now >= minutes)
      && w.covered == |Recent(fixed, last, now, minutes)|
      && w.searchable == |Recent(fixed, last, now, minutes) * FreeCells(feasible)|
    }

    ghost predicate Reports(s: Snapshot, now: real, feasible: array2<bool>)
      requires SameShape(fixed, last)
      reads this, fixed, last, feasible
    {
      && s.fixedCells == |FreeCells(fixed)| && s.searchableCells == |FreeCells(fixed) * FreeCells(feasible)|
      && s.everScanned == |Seen(fixed, last, now)| && |s.windows| == |WINDOWS|
      && forall i: nat :: i < |WINDOWS| ==> CountsWindow(s.windows[i], now, WINDOWS[i], feasible)
    }
  }

  lemma Counted(m: CoverageMetrics, w: WindowCount, now: real, minutes: real, feasible: array2<bool>)
    requires SameShape(m.fixed, m.last) && w.minutes == minutes && (w.complete <==> now >= minutes)
    requires w.covered == |Recent(m.fixed, m.last, now, minutes)|
    requires w.searchable == |Recent(m.fixed, m.last, now, minutes) * FreeCells(feasible)|
    ensures m.CountsWindow(w, now, minutes, feasible)
  {
  }

  lemma Reported(m: CoverageMetrics, s: Snapshot, now: real, feasible: array2<bool>)
    requires SameShape(m.fixed, m.last)
    requires s.fixedCells == |FreeCells(m.fixed)| && s.searchableCells == |FreeCells(m.fixed) * FreeCells(feasible)|
    requires s.everScanned == |Seen(m.fixed, m.last, now)| && |s.windows| == |WINDOWS|
    requires forall i: nat :: i < |WINDOWS| ==> m.CountsWindow(s.windows[i], now, WINDOWS[i], feasible)
    ensures m.Reports(s, now, feasible)
  {
  }

  /** The fixed cells that some recorded scan within the window covered. */
  ghost function ScannedCells(fixed: set<Cell>, history: seq<Scan>, now: real, minutes: real): set<Cell> {
    set p | p in fixed && ScannedWithin(history, p, now, minutes)
  }

  ghost function EverCells(fixed: set<Cell>, history: seq<Scan>): set<Cell> {
    set p | p in fixed && EverScanned(history, p)
  }

  /** The matrix of last scans gives the same windows as the full history of scans. */
  lemma MatrixIsHistory(m: CoverageMetrics, now: real, minutes: real)
    requires m.Valid() && (m.lastRecord.Some? ==> m.lastRecord.value <= now)
    ensures Recent(m.fixed, m.last, now, minutes) == ScannedCells(FreeCells(m.fixed), m.history, now, minutes)
    ensures Seen(m.fixed, m.last, now) == EverCells(FreeCells(m.fixed), m.history)
  {
    forall i: nat | i < |m.history|
      ensures m.history[i].at <= now
    {
      assert m.history[i].at <= m.history[|m.history| - 1].at;
    }
    forall x: nat, y: nat | x < m.fixed.Length0 && y < m.fixed.Length1 && m.fixed[x, y]
      ensures IsRecent(m.last[x, y], now, minutes) <==> ScannedWithin(m.history, (x, y), now, minutes)
      ensures m.last[x, y].Some? && m.last[x, y].value <= now <==> EverScanned(m.history, (x, y))
    {
      LastScanTells(m.history, (x, y), now, minutes);
      LastScanIsLast(m.history, (x, y));
    }
  }

  /** A snapshot says what the full history says, and its windows grow. */
  lemma SnapshotIsHistory(m: CoverageMetrics, s: Snapshot, now: real, feasible: array2<bool>)
    requires m.Valid() && (m.lastRecord.Some? ==> m.lastRecord.value <= now) && m.Reports(s, now, feasible)
    ensures s.everScanned == |EverCells(FreeCells(m.fixed), m.history)|
    ensures forall i: nat :: i < |s.windows| ==>
              s.windows[i].minutes == WINDOWS[i] && s.windows[i].covered == |ScannedCells(FreeCells(m.fixed), m.history, now, WINDOWS[i])|
    ensures s.windows[0].covered <= s.windows[1].covered <= s.windows[2].covered <= s.everScanned <= s.fixedCells
  {
    hide FreeCells, Recent, Seen, ScannedCells, EverCells;
    forall i: nat | i < |WINDOWS|
      ensures s.windows[i].minutes == WINDOWS[i] && s.windows[i].covered == |ScannedCells(FreeCells(m.fixed), m.history, now, WINDOWS[i])|
    {
      MatrixIsHistory(m, now, WINDOWS[i]);
      assert m.CountsWindow(s.windows[i], now, WINDOWS[i], feasible);
    }
    MatrixIsHistory(m, now, 30.0);
    assert m.CountsWindow(s.windows[0], now, WINDOWS[0], feasible);
    assert m.CountsWindow(s.windows[1], now, WINDOWS[1], feasible);
    assert m.CountsWindow(s.windows[2], now, WINDOWS[2], feasible);
    WindowsNest(m.fixed, m.last, now, 30.0, 60.0);
    WindowsNest(m.fixed, m.last, now, 60.0, 120.0);
  }

  lemma ScanAdded(history: seq<Scan>, scan: Scan, cell: Cell)
    ensures LastScan(history + [scan], cell) == if cell in scan.cells then Some(scan.at) else LastScan(history, cell)
  {
    assert (history + [scan])[..|history|] == history;
  }
}
