/** Does a segment meet an axis-aligned rectangle?  Two clipping loops, one specification.

    Both loops treat a displacement below a tolerance as zero.  So, for every input, each
    decides exactly whether the segment with its small displacements straightened out
    meets the closed rectangle; when no displacement is small, that is the segment itself.
  */
module SegmentClip {

  datatype Point = Point(x: real, y: real)

  datatype Bounds = Bounds(x0: real, y0: real, x1: real, y1: real) {
    predicate Ordered() { x0 <= x1 && y0 <= y1 }
  }

  const BOX_TOLERANCE := 0.00000000000001
  const ISLAND_TOLERANCE := 0.000000000001

  function Abs(x: real): real { if x < 0.0 then -x else x }
  function Least(x: real, y: real): real { if x < y then x else y }
  function Most(x: real, y: real): real { if x < y then y else x }

  function Coordinate(p: Point, axis: int): real { if axis == 0 then p.x else p.y }
  function Low(b: Bounds, axis: int): real { if axis == 0 then b.x0 else b.y0 }
  function High(b: Bounds, axis: int): real { if axis == 0 then b.x1 else b.y1 }

  /** Is a displacement too small to count?  The box test uses `<`, the island test `<=`. */
  predicate Negligible(d: real, tolerance: real, closed: bool) {
    if closed then Abs(d) <= tolerance else Abs(d) < tolerance
  }

  /** The displacement along an axis, zero if it is negligible. */
  function Displacement(start: Point, end: Point, axis: int, tolerance: real, closed: bool): real {
    var d := Coordinate(end, axis) - Coordinate(start, axis);
    if Negligible(d, tolerance, closed) then 0.0 else d
  }

  /** The end of the segment once its negligible displacements are straightened out. */
  function Straightened(start: Point, end: Point, tolerance: real, closed: bool): Point {
    Point(start.x + Displacement(start, end, 0, tolerance, closed), start.y + Displacement(start, end, 1, tolerance, closed))
  }

  /** The point at `t` along a displacement from `s` lies between `low` and `high`. */
  ghost predicate Within(s: real, d: real, low: real, high: real, t: real) {
    low <= s + t * d <= high
  }

  /** Some point of the closed segment lies in the closed rectangle. */
  ghost predicate Meets(start: Point, end: Point, b: Bounds) {
    exists t: real :: MeetsAt(start, end, b, t)
  }

  ghost predicate MeetsAt(start: Point, end: Point, b: Bounds, t: real) {
    && 0.0 <= t <= 1.0
    && Within(start.x, end.x - start.x, b.x0, b.x1, t)
    && Within(start.y, end.y - start.y, b.y0, b.y1, t)
  }

  lemma StraightenedIsSame(start: Point, end: Point, tolerance: real, closed: bool)
    requires forall axis :: 0 <= axis < 2 ==>
               Coordinate(start, axis) == Coordinate(end, axis)
               || !Negligible(Coordinate(end, axis) - Coordinate(start, axis), tolerance, closed)
    ensures Straightened(start, end, tolerance, closed) == end
  {
    assert Coordinate(end, 0) == end.x && Coordinate(end, 1) == end.y;
    assert Coordinate(start, 0) == start.x && Coordinate(start, 1) == start.y;
  }

  // ------------------------------------------------------------------ one axis

  lemma QuotientBelow(x: real, d: real, t: real)
    requires d > 0.0
    ensures x / d <= t <==> x <= t * d
  {
    var q := x / d;
    assert q * d == x;
    assert (t - q) * d == t * d - x;
    assert t >= q ==> (t - q) * d >= 0.0;
    assert t < q ==> (q - t) * d > 0.0;
  }

  lemma QuotientAbove(x: real, d: real, t: real)
    requires d < 0.0
    ensures x / d <= t <==> t * d <= x
  {
    var q := x / d;
    assert q * d == x;
    assert (t - q) * d == t * d - x;
    assert t >= q ==> (t - q) * -d >= 0.0;
    assert t < q ==> (q - t) * -d > 0.0;
  }

  lemma AxisInterval(s: real, d: real, low: real, high: real, t: real)
    requires d != 0.0 && low <= high
    ensures Least((low - s) / d, (high - s) / d) <= t <= Most((low - s) / d, (high - s) / d) <==> Within(s, d, low, high, t)
  {
    if d > 0.0 {
      QuotientBelow(low - s, d, t);
      QuotientBelow(high - s, d, t);
      QuotientBelow(low - s, d, (high - s) / d);
      assert (high - s) / d * d == high - s;
    } else {
      QuotientAbove(low - s, d, t);
      QuotientAbove(high - s, d, t);
      QuotientAbove(high - s, d, (low - s) / d);
      assert (low - s) / d * d == low - s;
    }
    QuotientOrder(s, d, low, high, t);
  }

  lemma QuotientOrder(s: real, d: real, low: real, high: real, t: real)
    requires d != 0.0 && low <= high
    ensures d > 0.0 ==> (low - s) / d <= (high - s) / d && (t <= (high - s) / d <==> s + t * d <= high)
    ensures d < 0.0 ==> (high - s) / d <= (low - s) / d && (t <= (low - s) / d <==> low <= s + t * d)
  {
    var a, b := (low - s) / d, (high - s) / d;
    assert a * d == low - s && b * d == high - s;
    assert (b - a) * d == high - low;
    assert d > 0.0 && b < a ==> (a - b) * d > 0.0;
    assert d < 0.0 && a < b ==> (b - a) * -d > 0.0;
    assert (b - t) * d == high - s - t * d && (a - t) * d == low - s - t * d;
    assert d > 0.0 && t <= b ==> (b - t) * d >= 0.0;
    assert d > 0.0 && t > b ==> (t - b) * d > 0.0;
    assert d < 0.0 && t <= a ==> (a - t) * -d >= 0.0;
    assert d < 0.0 && t > a ==> (t - a) * -d > 0.0;
  }

  /** The parameters the first `n` axes allow. */
  ghost predicate Allowed(start: Point, end: Point, b: Bounds, n: int, t: real) {
    && 0.0 <= t <= 1.0
    && (n > 0 ==> Within(start.x, end.x - start.x, b.x0, b.x1, t))
    && (n > 1 ==> Within(start.y, end.y - start.y, b.y0, b.y1, t))
  }

  ghost predicate IntervalIs(start: Point, end: Point, b: Bounds, n: int, t0: real, t1: real) {
    forall t: real :: t0 <= t <= t1 <==> Allowed(start, end, b, n, t)
  }

  lemma NarrowAxis(start: Point, end: Point, b: Bounds, axis: int, t0: real, t1: real, d: real)
    requires 0 <= axis < 2 && b.Ordered() && IntervalIs(start, end, b, axis, t0, t1)
    requires d == Coordinate(end, axis) - Coordinate(start, axis) && d != 0.0
    ensures var s := Coordinate(start, axis);
            var p, q := (Low(b, axis) - s) / d, (High(b, axis) - s) / d;
            IntervalIs(start, end, b, axis + 1, Most(t0, Least(p, q)), Least(t1, Most(p, q)))
  {
    var s := Coordinate(start, axis);
    var p, q := (Low(b, axis) - s) / d, (High(b, axis) - s) / d;
    var n := axis + 1;
    forall t: real
      ensures Most(t0, Least(p, q)) <= t <= Least(t1, Most(p, q)) <==> Allowed(start, end, b, n, t)
    {
      AxisInterval(s, d, Low(b, axis), High(b, axis), t);
      assert t0 <= t <= t1 <==> Allowed(start, end, b, axis, t);
    }
  }

  lemma FlatAxis(start: Point, end: Point, b: Bounds, axis: int, t0: real, t1: real)
    requires 0 <= axis < 2 && IntervalIs(start, end, b, axis, t0, t1)
    requires Coordinate(end, axis) == Coordinate(start, axis)
    ensures Low(b, axis) <= Coordinate(start, axis) <= High(b, axis) ==> IntervalIs(start, end, b, axis + 1, t0, t1)
    ensures !(Low(b, axis) <= Coordinate(start, axis) <= High(b, axis)) ==> !Meets(start, end, b)
  {
    forall t: real
      ensures Within(Coordinate(start, axis), 0.0, Low(b, axis), High(b, axis), t)
              <==> Low(b, axis) <= Coordinate(start, axis) <= High(b, axis)
    {
    }
    if Low(b, axis) <= Coordinate(start, axis) <= High(b, axis) {
      var n := axis + 1;
      forall t: real
        ensures t0 <= t <= t1 <==> Allowed(start, end, b, n, t)
      {
        assert t0 <= t <= t1 <==> Allowed(start, end, b, axis, t);
      }
    } else {
      forall t: real
        ensures !MeetsAt(start, end, b, t)
      {
        assert Within(Coordinate(start, axis), 0.0, Low(b, axis), High(b, axis), t)
               <==> Low(b, axis) <= Coordinate(start, axis) <= High(b, axis);
      }
    }
  }

  lemma EmptyInterval(start: Point, end: Point, b: Bounds, n: int, t0: real, t1: real)
    requires 0 <= n <= 2 && IntervalIs(start, end, b, n, t0, t1) && t0 > t1
    ensures !Meets(start, end, b)
  {
    forall t: real
      ensures !MeetsAt(start, end, b, t)
    {
      assert t0 <= t <= t1 <==> Allowed(start, end, b, n, t);
    }
  }

  lemma FullInterval(start: Point, end: Point, b: Bounds, t0: real, t1: real)
    requires IntervalIs(start, end, b, 2, t0, t1) && t0 <= t1
    ensures Meets(start, end, b)
  {
    assert t0 <= t0 <= t1 <==> Allowed(start, end, b, 2, t0);
    assert MeetsAt(start, end, b, t0);
  }

  lemma UnitInterval(start: Point, end: Point, b: Bounds)
    ensures IntervalIs(start, end, b, 0, 0.0, 1.0)
  {
  }

  /** The box test of the ship navigator. */
  method IntersectsBox(start: Point, end: Point, b: Bounds) returns (hit: bool)
    requires b.Ordered()
    ensures hit <==> Meets(start, Straightened(start, end, BOX_TOLERANCE, false), b)
  {
    hide Meets, IntervalIs;
    ghost var end' := Straightened(start, end, BOX_TOLERANCE, false);
    var t0, t1 := 0.0, 1.0;
    UnitInterval(start, end', b);
    for axis := 0 to 2
      invariant IntervalIs(start, end', b, axis, t0, t1) && t0 <= t1
    {
      var delta := Coordinate(end, axis) - Coordinate(start, axis);
      var low, high := Low(b, axis), High(b, axis);
      if Abs(delta) < BOX_TOLERANCE {
        FlatAxis(start, end', b, axis, t0, t1);
        if Coordinate(start, axis) < low || Coordinate(start, axis) > high {
          return false;
        }
      } else {
        NarrowAxis(start, end', b, axis, t0, t1, delta);
        var p, q := (low - Coordinate(start, axis)) / delta, (high - Coordinate(start, axis)) / delta;
        t0, t1 := Most(t0, Least(p, q)), Least(t1, Most(p, q));
        if t0 > t1 {
          EmptyInterval(start, end', b, axis + 1, t0, t1);
          return false;
        }
      }
    }
    FullInterval(start, end', b, t0, t1);
    return true;
  }

  // ----------------------------------------------------------- one side at a time

  /** The side conditions of the island test: `p` times the parameter stays at or below `q`. */
  function SideP(d: Point, k: int): real {
    if k == 0 then -d.x else if k == 1 then d.x else if k == 2 then -d.y else d.y
  }

  function SideQ(start: Point, b: Bounds, k: int): real {
    if k == 0 then start.x - b.x0 else if k == 1 then b.x1 - start.x
    else if k == 2 then start.y - b.y0 else b.y1 - start.y
  }

  ghost predicate SidesHold(start: Point, d: Point, b: Bounds, n: int, t: real) {
    0.0 <= t <= 1.0 && forall k: int :: 0 <= k < n ==> SideHolds(start, d, b, k, t)
  }

  ghost predicate SideHolds(start: Point, d: Point, b: Bounds, k: int, t: real) {
    SideP(d, k) * t <= SideQ(start, b, k)
  }

  ghost predicate SideInterval(start: Point, d: Point, b: Bounds, n: int, t0: real, t1: real) {
    forall t: real :: t0 <= t <= t1 <==> SidesHold(start, d, b, n, t)
  }

  lemma AllSidesIsMeeting(start: Point, end: Point, b: Bounds, t: real)
    ensures SidesHold(start, Point(end.x - start.x, end.y - start.y), b, 4, t) <==> MeetsAt(start, end, b, t)
  {
    var d := Point(end.x - start.x, end.y - start.y);
    assert SideHolds(start, d, b, 0, t) <==> b.x0 <= start.x + t * d.x;
    assert SideHolds(start, d, b, 1, t) <==> start.x + t * d.x <= b.x1;
    assert SideHolds(start, d, b, 2, t) <==> b.y0 <= start.y + t * d.y;
    assert SideHolds(start, d, b, 3, t) <==> start.y + t * d.y <= b.y1;
  }

  lemma SideRatio(p: real, q: real, t: real)
    requires p != 0.0
    ensures p < 0.0 ==> (p * t <= q <==> q / p <= t)
    ensures p > 0.0 ==> (p * t <= q <==> t <= q / p)
  {
    var r := q / p;
    assert r * p == q;
    assert (t - r) * p == p * t - q;
    assert p > 0.0 && t > r ==> (t - r) * p > 0.0;
    assert p > 0.0 && t <= r ==> (r - t) * p >= 0.0;
    assert p < 0.0 && t < r ==> (r - t) * -p > 0.0;
    assert p < 0.0 && t >= r ==> (t - r) * -p >= 0.0;
  }

  lemma OneMoreSide(start: Point, d: Point, b: Bounds, k: int, t: real)
    requires 0 <= k < 4
    ensures SidesHold(start, d, b, k + 1, t) <==> SidesHold(start, d, b, k, t) && SideHolds(start, d, b, k, t)
  {
  }

  lemma NarrowSide(start: Point, d: Point, b: Bounds, k: int, t0: real, t1: real)
    requires 0 <= k < 4 && SideInterval(start, d, b, k, t0, t1) && SideP(d, k) != 0.0
    ensures var ratio := SideQ(start, b, k) / SideP(d, k);
            SideInterval(start, d, b, k + 1, if SideP(d, k) < 0.0 then Most(t0, ratio) else t0,
                         if SideP(d, k) < 0.0 then t1 else Least(t1, ratio))
  {
    var ratio := SideQ(start, b, k) / SideP(d, k);
    var t0' := if SideP(d, k) < 0.0 then Most(t0, ratio) else t0;
    var t1' := if SideP(d, k) < 0.0 then t1 else Least(t1, ratio);
    var n := k + 1;
    forall t: real
      ensures t0' <= t <= t1' <==> SidesHold(start, d, b, n, t)
    {
      SideRatio(SideP(d, k), SideQ(start, b, k), t);
      OneMoreSide(start, d, b, k, t);
      assert t0 <= t <= t1 <==> SidesHold(start, d, b, k, t);
    }
  }

  lemma FlatSide(start: Point, d: Point, b: Bounds, k: int, t0: real, t1: real)
    requires 0 <= k < 4 && SideInterval(start, d, b, k, t0, t1) && SideP(d, k) == 0.0
    ensures SideQ(start, b, k) >= 0.0 ==> SideInterval(start, d, b, k + 1, t0, t1)
    ensures SideQ(start, b, k) < 0.0 ==> forall t: real :: !SidesHold(start, d, b, 4, t)
  {
    forall t: real
      ensures SideHolds(start, d, b, k, t) <==> SideQ(start, b, k) >= 0.0
    {
    }
    if SideQ(start, b, k) >= 0.0 {
      var n := k + 1;
      forall t: real
        ensures t0 <= t <= t1 <==> SidesHold(start, d, b, n, t)
      {
        OneMoreSide(start, d, b, k, t);
        assert t0 <= t <= t1 <==> SidesHold(start, d, b, k, t);
      }
    } else {
      forall t: real
        ensures !SidesHold(start, d, b, 4, t)
      {
        assert SideHolds(start, d, b, k, t) <==> SideQ(start, b, k) >= 0.0;
      }
    }
  }

  lemma NoParameter(start: Point, end: Point, d: Point, b: Bounds)
    requires d == Point(end.x - start.x, end.y - start.y) && forall t: real :: !SidesHold(start, d, b, 4, t)
    ensures !Meets(start, end, b)
  {
    forall t: real
      ensures !MeetsAt(start, end, b, t)
    {
      AllSidesIsMeeting(start, end, b, t);
    }
  }

  lemma EmptySides(start: Point, end: Point, b: Bounds, k: int, t0: real, t1: real)
    requires 0 <= k <= 4 && t0 > t1 && SideInterval(start, Point(end.x - start.x, end.y - start.y), b, k, t0, t1)
    ensures !Meets(start, end, b)
  {
    var d := Point(end.x - start.x, end.y - start.y);
    forall t: real
      ensures !SidesHold(start, d, b, 4, t)
    {
      assert t0 <= t <= t1 <==> SidesHold(start, d, b, k, t);
    }
    NoParameter(start, end, d, b);
  }

  lemma FullSides(start: Point, end: Point, b: Bounds, t0: real, t1: real)
    requires t0 <= t1 && SideInterval(start, Point(end.x - start.x, end.y - start.y), b, 4, t0, t1)
    ensures Meets(start, end, b)
  {
    assert t0 <= t0 <= t1 <==> SidesHold(start, Point(end.x - start.x, end.y - start.y), b, 4, t0);
    AllSidesIsMeeting(start, end, b, t0);
  }

  lemma UnitSides(start: Point, d: Point, b: Bounds)
    ensures SideInterval(start, d, b, 0, 0.0, 1.0)
  {
  }

  /** The segment test of an island. */
  method IntersectsSegment(start: Point, end: Point, b: Bounds) returns (hit: bool)
    ensures hit <==> Meets(start, Straightened(start, end, ISLAND_TOLERANCE, true), b)
  {
    hide Meets, SideInterval, SidesHold;
    var dx, dy := end.x - start.x, end.y - start.y;
    ghost var end' := Straightened(start, end, ISLAND_TOLERANCE, true);
    ghost var d := Point(end'.x - start.x, end'.y - start.y);
    var t0, t1 := 0.0, 1.0;
    UnitSides(start, d, b);
    for k := 0 to 4
      invariant SideInterval(start, d, b, k, t0, t1) && t0 <= t1
    {
      var p, q := SideP(Point(dx, dy), k), SideQ(start, b, k);
      assert SideP(d, k) == if Abs(p) <= ISLAND_TOLERANCE then 0.0 else p;
      if Abs(p) <= ISLAND_TOLERANCE {
        FlatSide(start, d, b, k, t0, t1);
        if q < 0.0 {
          NoParameter(start, end', d, b);
          return false;
        }
      } else {
        NarrowSide(start, d, b, k, t0, t1);
        var ratio := q / p;
        if p < 0.0 {
          if ratio > t1 {
            EmptySides(start, end', b, k + 1, Most(t0, ratio), t1);
            return false;
          }
          t0 := Most(t0, ratio);
        } else {
          if ratio < t0 {
            EmptySides(start, end', b, k + 1, t0, Least(t1, ratio));
            return false;
          }
          t1 := Least(t1, ratio);
        }
      }
    }
    FullSides(start, end', b, t0, t1);
    return true;
  }
}
