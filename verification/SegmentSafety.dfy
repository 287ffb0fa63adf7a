/** When a vessel may move along a segment of the chart. */
module SegmentSafety {

  import opened Finite
  import opened SegmentClip

  /** The bounds of an island. */
  type Island = b: Bounds | b.Ordered() witness Bounds(0.0, 0.0, 0.0, 0.0)

  /** The land of a chart: the size of the chart, and the cells that are land. */
  datatype Mask = Mask(cols: nat, rows: nat, cells: set<(int, int)>) {
    predicate Has(c: int, r: int) { 0 <= c < cols && 0 <= r < rows && (c, r) in cells }
  }

  /** The land an array of booleans draws. */
  ghost function LandOf(mask: array2<bool>): (land: Mask)
    reads mask
    ensures forall c: nat, r: nat :: land.Has(c, r) <==> c < mask.Length0 && r < mask.Length1 && mask[c, r]
  {
    Mask(mask.Length0, mask.Length1, set c, r | 0 <= c < mask.Length0 && 0 <= r < mask.Length1 && mask[c, r] :: (c, r))
  }

  /** The stretch of chart border a vessel may leave through: which axis, which side, and where. */
  datatype Gate = Gate(axis: int, sign: int, boundary: real, cross: real)

  ghost predicate GateFits(gate: Option<Gate>, cols: nat, rows: nat) {
    gate.Some? ==>
      && 0 <= gate.value.axis <= 1 && (gate.value.sign == 1 || gate.value.sign == -1)
      && gate.value.boundary == if gate.value.sign == -1 then 0.0
                                else if gate.value.axis == 0 then cols as real else rows as real
  }

  predicate Exited(gate: Option<Gate>, p: Point) {
    gate.Some?
    && (if gate.value.sign == 1 then Coordinate(p, gate.value.axis) >= gate.value.boundary
        else Coordinate(p, gate.value.axis) < gate.value.boundary)
    && Abs(Coordinate(p, 1 - gate.value.axis) - gate.value.cross) < 0.5
  }

  /** The gate at a point of the chart's border. */
  function GateFor(cols: nat, rows: nat, p: Point): Option<Gate> {
    if p.x == 0.0 then Some(Gate(0, -1, 0.0, p.y))
    else if p.x == cols as real - 1.0 then Some(Gate(0, 1, cols as real, p.y))
    else if p.y == 0.0 then Some(Gate(1, -1, 0.0, p.x))
    else if p.y == rows as real - 1.0 then Some(Gate(1, 1, rows as real, p.x))
    else None
  }

  /** The gate of a vessel whose route ends at a point, if it may leave: the end is on the border, on water. */
  /** A vessel has left through the gate of an end point on a border when it is beyond that border, less than half a cell
      from the end point along it. */
  lemma ExitedMeans(cols: nat, rows: nat, p: Point, q: Point)
    requires 0.0 <= p.x < cols as real && 0.0 <= p.y < rows as real
    ensures p.x == 0.0 ==> (Exited(GateFor(cols, rows, p), q) <==> q.x < 0.0 && p.y - 0.5 < q.y < p.y + 0.5)
    ensures p.x != 0.0 && p.x == cols as real - 1.0 ==>
              (Exited(GateFor(cols, rows, p), q) <==> q.x >= cols as real && p.y - 0.5 < q.y < p.y + 0.5)
    ensures p.x != 0.0 && p.x != cols as real - 1.0 && p.y == 0.0 ==>
              (Exited(GateFor(cols, rows, p), q) <==> q.y < 0.0 && p.x - 0.5 < q.x < p.x + 0.5)
    ensures p.x != 0.0 && p.x != cols as real - 1.0 && p.y != 0.0 && p.y == rows as real - 1.0 ==>
              (Exited(GateFor(cols, rows, p), q) <==> q.y >= rows as real && p.x - 0.5 < q.x < p.x + 0.5)
    ensures p.x != 0.0 && p.x != cols as real - 1.0 && p.y != 0.0 && p.y != rows as real - 1.0 ==> !Exited(GateFor(cols, rows, p), q)
  {
  }

  function GateOf(land: Mask, exit: Option<Point>): Option<Gate> {
    if exit.None? || !InChart(exit.value, land.cols, land.rows) || land.Has(exit.value.x.Floor, exit.value.y.Floor) then None
    else GateFor(land.cols, land.rows, exit.value)
  }

  lemma GateOfFits(land: Mask, exit: Option<Point>)
    ensures GateFits(GateOf(land, exit), land.cols, land.rows)
  {
  }

  method ExitGate(mask: array2<bool>, exit: Option<Point>) returns (gate: Option<Gate>)
    ensures gate == GateOf(LandOf(mask), exit)
  {
    if exit.None? || !InChart(exit.value, mask.Length0, mask.Length1) {
      return None;
    }
    var c, r := exit.value.x.Floor, exit.value.y.Floor;
    if mask[c, r] {
      return None;
    }
    return GateFor(mask.Length0, mask.Length1, exit.value);
  }

  predicate InChart(p: Point, cols: nat, rows: nat) {
    0.0 <= p.x < cols as real && 0.0 <= p.y < rows as real
  }

  /** Where the segment crosses the line of the gate. */
  function Crossing(start: Point, end: Point, gate: Gate): real
    requires Coordinate(end, gate.axis) != Coordinate(start, gate.axis)
  {
    var ratio := (gate.boundary - Coordinate(start, gate.axis)) / (Coordinate(end, gate.axis) - Coordinate(start, gate.axis));
    Coordinate(start, 1 - gate.axis) + ratio * (Coordinate(end, 1 - gate.axis) - Coordinate(start, 1 - gate.axis))
  }

  /** Where the line through both ends meets the border of the gate. */
  lemma CrossingMeans(start: Point, end: Point, gate: Gate, t: real)
    requires Coordinate(end, gate.axis) != Coordinate(start, gate.axis)
    requires Coordinate(start, gate.axis) + t * (Coordinate(end, gate.axis) - Coordinate(start, gate.axis)) == gate.boundary
    ensures Crossing(start, end, gate)
         == Coordinate(start, 1 - gate.axis) + t * (Coordinate(end, 1 - gate.axis) - Coordinate(start, 1 - gate.axis))
  {
    var way := Coordinate(end, gate.axis) - Coordinate(start, gate.axis);
    assert (gate.boundary - Coordinate(start, gate.axis)) / way == t;
  }

  function Inflated(b: Bounds, margin: real): Bounds {
    Bounds(b.x0 - margin, b.y0 - margin, b.x1 + margin, b.y1 + margin)
  }

  function CellBox(c: int, r: int, margin: real): Bounds {
    Bounds(c as real - margin, r as real - margin, c as real + 1.0 + margin, r as real + 1.0 + margin)
  }

  /** The segment as the box test sees it. */
  function Seen(start: Point, end: Point): Point {
    Straightened(start, end, BOX_TOLERANCE, false)
  }

  ghost predicate EndsAllowed(start: Point, end: Point, cols: nat, rows: nat, gate: Option<Gate>) {
    && (InChart(start, cols, rows) || Exited(gate, start))
    && (InChart(end, cols, rows) || Exited(gate, end))
  }

  /** Leaving the chart is through the gate. */
  ghost predicate LeavesThroughGate(start: Point, end: Point, gate: Option<Gate>) {
    Exited(gate, end) && !Exited(gate, start) ==>
      Coordinate(end, gate.value.axis) != Coordinate(start, gate.value.axis)
      && Abs(Crossing(start, end, gate.value) - gate.value.cross) < 0.5
  }

  ghost predicate ClearsIslands(start: Point, end: Point, islands: seq<Island>, margin: real) {
    forall b :: b in islands ==> !Meets(start, Seen(start, end), Inflated(b, margin))
  }

  ghost predicate ClearsLand(start: Point, end: Point, land: Mask, margin: real) {
    forall c: nat, r: nat :: land.Has(c, r) ==> !Meets(start, Seen(start, end), CellBox(c, r, margin))
  }

  ghost predicate IsSafe(start: Point, end: Point, land: Mask, islands: seq<Island>, margin: real, gate: Option<Gate>) {
    && EndsAllowed(start, end, land.cols, land.rows, gate)
    && LeavesThroughGate(start, end, gate)
    && ClearsIslands(start, end, islands, margin)
    && ClearsLand(start, end, land, margin)
  }

  // ------------------------------------------------------------------- the window

  function WindowLow(a: real, b: real, margin: real): nat {
    var low := (Least(a, b) - margin).Floor - 1;
    if low < 0 then 0 else low
  }

  function WindowHigh(a: real, b: real, margin: real, size: nat): int {
    var high := (Most(a, b) + margin).Floor + 1;
    if size < high then size else high
  }

  lemma Product(a: real, b: real)
    requires a >= 0.0 && b >= 0.0
    ensures a * b >= 0.0
  {
  }

  lemma Scaled(t: real, d: real) returns (part: real)
    requires 0.0 <= t <= 1.0
    ensures part == t * d && (0.0 <= part <= d || d <= part <= 0.0)
  {
    part := t * d;
    assert (1.0 - t) * d == d - part;
    if d >= 0.0 {
      Product(t, d);
      Product(1.0 - t, d);
    } else {
      Product(t, -d);
      Product(1.0 - t, -d);
      assert t * -d == -part && (1.0 - t) * -d == -((1.0 - t) * d);
    }
  }

  /** Every point of a segment, straightened or not, lies between its ends on each axis. */
  lemma BetweenEnds(s: real, e: real, d: real, t: real)
    requires 0.0 <= t <= 1.0 && (d == 0.0 || d == e - s)
    ensures Least(s, e) <= s + t * d <= Most(s, e)
  {
    var part := Scaled(t, d);
    BetweenOrdered(s, e, d, part);
  }

  lemma BetweenOrdered(s: real, e: real, d: real, part: real)
    requires d == 0.0 || d == e - s
    requires (0.0 <= part <= d) || (d <= part <= 0.0)
    ensures Least(s, e) <= s + part <= Most(s, e)
  {
  }

  /** A cell whose box the axis reaches lies in the window. */
  lemma ReachedInWindow(a: real, b: real, margin: real, size: nat, k: nat, x: real)
    requires margin >= 0.0 && k < size && Least(a, b) <= x <= Most(a, b)
    requires k as real - margin <= x <= k as real + 1.0 + margin
    ensures WindowLow(a, b, margin) <= k < WindowHigh(a, b, margin, size)
  {
    assert Least(a, b) - margin <= k as real + 1.0 + margin + 0.0 - margin + 0.0;
    assert (Least(a, b) - margin).Floor as real <= Least(a, b) - margin;
    assert Most(a, b) + margin < (Most(a, b) + margin).Floor as real + 1.0;
  }

  /** Land outside the window cannot be met, so the window is as good as the whole mask. */
  lemma MetInWindow(start: Point, end: Point, c: nat, r: nat, margin: real, cols: nat, rows: nat)
    requires margin >= 0.0 && c < cols && r < rows && Meets(start, Seen(start, end), CellBox(c, r, margin))
    ensures WindowLow(start.x, end.x, margin) <= c < WindowHigh(start.x, end.x, margin, cols)
    ensures WindowLow(start.y, end.y, margin) <= r < WindowHigh(start.y, end.y, margin, rows)
  {
    var seen, box := Seen(start, end), CellBox(c, r, margin);
    var t: real :| MeetsAt(start, seen, box, t);
    SeenDisplacement(start, end);
    AxisInWindow(start.x, end.x, seen.x - start.x, t, margin, cols, c);
    AxisInWindow(start.y, end.y, seen.y - start.y, t, margin, rows, r);
  }

  lemma SeenDisplacement(start: Point, end: Point)
    ensures Seen(start, end).x - start.x == 0.0 || Seen(start, end).x - start.x == end.x - start.x
    ensures Seen(start, end).y - start.y == 0.0 || Seen(start, end).y - start.y == end.y - start.y
  {
  }

  lemma AxisInWindow(s: real, e: real, d: real, t: real, margin: real, size: nat, k: nat)
    requires margin >= 0.0 && k < size && 0.0 <= t <= 1.0 && (d == 0.0 || d == e - s)
    requires Within(s, d, k as real - margin, k as real + 1.0 + margin, t)
    ensures WindowLow(s, e, margin) <= k < WindowHigh(s, e, margin, size)
  {
    hide WindowLow, WindowHigh;
    BetweenEnds(s, e, d, t);
    ReachedInWindow(s, e, margin, size, k, s + t * d);
  }

  /** Scan the land cells in the window around the segment. */
  method LandClear(start: Point, end: Point, mask: array2<bool>, margin: real) returns (clear: bool)
    requires margin >= 0.0
    ensures clear <==> ClearsLand(start, end, LandOf(mask), margin)
  {
    hide Meets, Straightened;
    var c0, c1 := WindowLow(start.x, end.x, margin), WindowHigh(start.x, end.x, margin, mask.Length0);
    var r0, r1 := WindowLow(start.y, end.y, margin), WindowHigh(start.y, end.y, margin, mask.Length1);
    var c := c0;
    while c < c1
      invariant c0 <= c
      invariant forall i: nat, j: nat :: c0 <= i < c && i < c1 && r0 <= j < r1 && mask[i, j] ==>
                  !Meets(start, Seen(start, end), CellBox(i, j, margin))
      decreases c1 - c
    {
      var r := r0;
      while r < r1
        invariant r0 <= r
        invariant forall j: nat :: r0 <= j < r && j < r1 && mask[c, j] ==>
                    !Meets(start, Seen(start, end), CellBox(c, j, margin))
        decreases r1 - r
      {
        if mask[c, r] {
          var hit := IntersectsBox(start, end, CellBox(c, r, margin));
          if hit {
            return false;
          }
        }
        r := r + 1;
      }
      c := c + 1;
    }
    forall i: nat, j: nat | i < mask.Length0 && j < mask.Length1 && mask[i, j]
      ensures !Meets(start, Seen(start, end), CellBox(i, j, margin))
    {
      if Meets(start, Seen(start, end), CellBox(i, j, margin)) {
        MetInWindow(start, end, i, j, margin, mask.Length0, mask.Length1);
      }
    }
    return true;
  }

  /** Leaving the chart moves along the axis of the gate, so the crossing point is defined. */
  lemma LeavingMoves(start: Point, end: Point, cols: nat, rows: nat, gate: Option<Gate>)
    requires GateFits(gate, cols, rows) && EndsAllowed(start, end, cols, rows, gate)
    requires Exited(gate, end) && !Exited(gate, start)
    ensures Coordinate(end, gate.value.axis) != Coordinate(start, gate.value.axis)
  {
  }

  method SegmentIsSafe(start: Point, end: Point, mask: array2<bool>, islands: seq<Island>, margin: real, exit: Option<Point>)
    returns (safe: bool)
    requires margin >= 0.0
    ensures safe <==> IsSafe(start, end, LandOf(mask), islands, margin, GateOf(LandOf(mask), exit))
  {
    hide Meets, Straightened, ClearsLand, GateFor, GateOf;
    var gate := ExitGate(mask, exit);
    GateOfFits(LandOf(mask), exit);
    if !((InChart(start, mask.Length0, mask.Length1) || Exited(gate, start))
         && (InChart(end, mask.Length0, mask.Length1) || Exited(gate, end))) {
      return false;
    }
    if Exited(gate, end) && !Exited(gate, start) {
      LeavingMoves(start, end, mask.Length0, mask.Length1, gate);
      if Abs(Crossing(start, end, gate.value) - gate.value.cross) >= 0.5 {
        return false;
      }
    }
    for k := 0 to |islands|
      invariant forall j :: 0 <= j < k ==> !Meets(start, Seen(start, end), Inflated(islands[j], margin))
    {
      assert islands[k] in islands;
      var hit := IntersectsBox(start, end, Inflated(islands[k], margin));
      if hit {
        return false;
      }
    }
    safe := LandClear(start, end, mask, margin);
  }
}
