/** Fixed tiles over the chart, and the zone a box belongs to by prefix sums. */
module CoverageZones {

  import opened Finite
  import opened Rectangles
  import opened Tilings

  /** A tile by column and row; the name of a zone is made from both. */
  type ZoneId = (nat, nat)

  // ---------------------------------------------------------------------------- tiles

  /** Where tile `i` of `n` begins; the last one ends at the border. */
  function Edge(i: nat, n: nat, size: nat): nat
    requires n > 0
  {
    if i < n then i * (size / n) else size
  }

  function Tile(z: ZoneId, zoneCols: nat, zoneRows: nat, cols: nat, rows: nat): Rect
    requires zoneCols > 0 && zoneRows > 0
  {
    Rect(Edge(z.0, zoneCols, cols), Edge(z.1, zoneRows, rows), Edge(z.0 + 1, zoneCols, cols), Edge(z.1 + 1, zoneRows, rows))
  }

  /** The tile a coordinate lies in. */
  function IndexOf(x: nat, n: nat, size: nat): nat
    requires n > 0
  {
    var width := size / n;
    if width == 0 || x / width >= n then n - 1 else x / width
  }

  lemma {:induction false} TimesMonotone(a: nat, b: nat, w: nat)
    requires a <= b
    ensures a * w <= b * w && (a < b ==> a * w + w <= b * w)
  {
    if a < b {
      TimesMonotone(a, b - 1, w);
      OneMoreTimes(b - 1, w);
    }
  }

  lemma WidthFits(n: nat, size: nat)
    requires n > 0
    ensures n * (size / n) <= size && (n - 1) * (size / n) <= size
  {
    TimesMonotone(n - 1, n, size / n);
  }

  lemma EdgeMonotone(i: nat, j: nat, n: nat, size: nat)
    requires n > 0 && i <= j
    ensures Edge(i, n, size) <= Edge(j, n, size) <= size
  {
    WidthFits(n, size);
    if j < n {
      TimesMonotone(i, j, size / n);
      TimesMonotone(j, n, size / n);
    } else if i < n {
      TimesMonotone(i, n - 1, size / n);
    }
  }

  /** A coordinate of the chart lies in exactly one tile. */
  lemma OneTile(x: nat, n: nat, size: nat, i: nat)
    requires n > 0 && x < size && i < n
    ensures Edge(i, n, size) <= x < Edge(i + 1, n, size) <==> i == IndexOf(x, n, size)
    ensures IndexOf(x, n, size) < n
  {
    var k := IndexOf(x, n, size);
    IndexHolds(x, n, size);
    if i < k {
      EdgeMonotone(i + 1, k, n, size);
    } else if k < i {
      EdgeMonotone(k + 1, i, n, size);
    }
  }

  lemma IndexHolds(x: nat, n: nat, size: nat)
    requires n > 0 && x < size
    ensures var k := IndexOf(x, n, size); k < n && Edge(k, n, size) <= x < Edge(k + 1, n, size)
  {
    var w := size / n;
    if w > 0 {
      DivBounds(x, w);
    }
    IndexWithin(x, n, size, w, if w > 0 then x / w else 0);
  }

  /** The same, for a tile width `w` and the number `d` of whole tiles before `x`. */
  lemma IndexWithin(x: nat, n: nat, size: nat, w: nat, d: nat)
    requires n > 0 && x < size && (w > 0 ==> d * w <= x < d * w + w)
    ensures var k := if w == 0 || d >= n then n - 1 else d;
            k < n && k * w <= x && x < if k + 1 < n then (k + 1) * w else size
  {
    if w == 0 {
      TimesZero(n - 1, w);
    } else if d >= n {
      TimesMonotone(n - 1, d, w);
    } else {
      OneMoreTimes(d, w);
    }
  }

  lemma TimesZero(a: nat, w: nat)
    requires w == 0
    ensures a * w == 0
  {
  }

  lemma OneMoreTimes(d: nat, w: nat)
    ensures (d + 1) * w == d * w + w
  {
  }

  lemma DivBounds(x: nat, w: nat)
    requires w > 0
    ensures x / w * w <= x < x / w * w + w
  {
  }

  /** The tiles partition the chart, however many they are: every cell is in one and only one. */
  lemma TilesPartition(zoneCols: nat, zoneRows: nat, cols: nat, rows: nat, x: nat, y: nat, z: ZoneId)
    requires zoneCols > 0 && zoneRows > 0 && x < cols && y < rows && z.0 < zoneCols && z.1 < zoneRows
    ensures Tile(z, zoneCols, zoneRows, cols, rows).Has(x, y) <==> z == (IndexOf(x, zoneCols, cols), IndexOf(y, zoneRows, rows))
    ensures IndexOf(x, zoneCols, cols) < zoneCols && IndexOf(y, zoneRows, rows) < zoneRows
  {
    hide Edge, IndexOf;
    OneTile(x, zoneCols, cols, z.0);
    OneTile(y, zoneRows, rows, z.1);
  }

  /** A tile lies on the chart. */
  lemma TileFits(z: ZoneId, zoneCols: nat, zoneRows: nat, cols: nat, rows: nat)
    requires zoneCols > 0 && zoneRows > 0
    ensures var t := Tile(z, zoneCols, zoneRows, cols, rows);
            0 <= t.x0 <= t.x1 <= cols && 0 <= t.y0 <= t.y1 <= rows
  {
    hide Edge;
    EdgeMonotone(z.0, z.0 + 1, zoneCols, cols);
    EdgeMonotone(z.1, z.1 + 1, zoneRows, rows);
  }

  // ------------------------------------------------------------------------- counting

  /** The cells left of `c` and below `r`. */
  ghost function Corner(cells: set<Cell>, c: int, r: int): set<Cell> {
    set p: Cell | p in cells && p.0 < c && p.1 < r
  }

  /** Those of them in the last row. */
  ghost function Strip(cells: set<Cell>, c: int, r: int): set<Cell> {
    set p: Cell | p in cells && p.0 < c && p.1 == r - 1
  }

  ghost function Inside(cells: set<Cell>, b: Rect): set<Cell> {
    set p: Cell | p in cells && b.Has(p.0, p.1)
  }

  lemma DisjointCard(a: set<Cell>, b: set<Cell>)
    requires a !! b
    ensures |a + b| == |a| + |b|
  {
  }

  lemma StripStep(cells: set<Cell>, c: int, r: int)
    ensures |Strip(cells, c + 1, r)| == |Strip(cells, c, r)| + if (c, r - 1) in cells then 1 else 0
  {
    var one: set<Cell> := if (c, r - 1) in cells then {(c, r - 1)} else {};
    assert Strip(cells, c + 1, r) == Strip(cells, c, r) + one;
    DisjointCard(Strip(cells, c, r), one);
  }

  lemma CornerStep(cells: set<Cell>, c: int, r: int)
    ensures |Corner(cells, c, r + 1)| == |Corner(cells, c, r)| + |Strip(cells, c, r + 1)|
  {
    assert Corner(cells, c, r + 1) == Corner(cells, c, r) + Strip(cells, c, r + 1);
    DisjointCard(Corner(cells, c, r), Strip(cells, c, r + 1));
  }

  /** Four corners give the count of a box. */
  lemma BoxFromCorners(cells: set<Cell>, b: Rect)
    requires b.x0 <= b.x1 && b.y0 <= b.y1
    ensures |Inside(cells, b)| == |Corner(cells, b.x1, b.y1)| - |Corner(cells, b.x0, b.y1)| - |Corner(cells, b.x1, b.y0)|
                                 + |Corner(cells, b.x0, b.y0)|
  {
    var low := set p: Cell | p in cells && b.x0 <= p.0 < b.x1 && p.1 < b.y0;
    assert Corner(cells, b.x1, b.y1) == Corner(cells, b.x0, b.y1) + (low + Inside(cells, b));
    assert Corner(cells, b.x1, b.y0) == Corner(cells, b.x0, b.y0) + low;
    DisjointCard(Corner(cells, b.x0, b.y1), low + Inside(cells, b));
    DisjointCard(low, Inside(cells, b));
    DisjointCard(Corner(cells, b.x0, b.y0), low);
  }

  /** Every entry counts the cells before it. */
  ghost predicate IsPrefix(cells: set<Cell>, prefix: array2<int>)
    reads prefix
  {
    forall c: nat, r: nat :: c < prefix.Length0 && r < prefix.Length1 ==> prefix[c, r] == |Corner(cells, c, r)|
  }

  ghost predicate InChart(cells: set<Cell>, cols: nat, rows: nat) {
    forall p :: p in cells ==> 0 <= p.0 < cols && 0 <= p.1 < rows
  }

  /** Add up along one axis, then along the other. */
  method PrefixSums(fixed: array2<bool>) returns (prefix: array2<int>)
    ensures fresh(prefix) && prefix.Length0 == fixed.Length0 + 1 && prefix.Length1 == fixed.Length1 + 1
    ensures IsPrefix(FreeCells(fixed), prefix)
  {
    hide FreeCells, Corner, Strip;
    var cols, rows := fixed.Length0, fixed.Length1;
    ghost var cells := FreeCells(fixed);
    FreeInChart(fixed);
    prefix := new int[cols + 1, rows + 1]((c, r) reads fixed requires 0 <= c <= fixed.Length0 && 0 <= r <= fixed.Length1 =>
      if c > 0 && r > 0 && fixed[c - 1, r - 1] then 1 else 0);
    Padded(fixed, prefix);
    NoStrips(cells, cols, rows);
    for c := 1 to cols + 1
      invariant forall x: nat, y: nat :: x < c && y <= rows ==> prefix[x, y] == |Strip(cells, x, y)|
      invariant forall x: nat, y: nat :: c <= x <= cols && y <= rows ==> prefix[x, y] == if (x - 1, y - 1) in cells then 1 else 0
    {
      for r := 0 to rows + 1
        invariant forall x: nat, y: nat :: x < c && y <= rows ==> prefix[x, y] == |Strip(cells, x, y)|
        invariant forall y: nat :: y < r ==> prefix[c, y] == |Strip(cells, c, y)|
        invariant forall y: nat :: r <= y <= rows ==> prefix[c, y] == if (c - 1, y - 1) in cells then 1 else 0
        invariant forall x: nat, y: nat :: c < x <= cols && y <= rows ==> prefix[x, y] == if (x - 1, y - 1) in cells then 1 else 0
      {
        StripStep(cells, c - 1, r);
        prefix[c, r] := prefix[c, r] + prefix[c - 1, r];
      }
    }
    NoCorners(cells, cols, rows);
    for r := 1 to rows + 1
      invariant forall x: nat, y: nat :: x <= cols && y < r ==> prefix[x, y] == |Corner(cells, x, y)|
      invariant forall x: nat, y: nat :: x <= cols && r <= y <= rows ==> prefix[x, y] == |Strip(cells, x, y)|
    {
      for c := 0 to cols + 1
        invariant forall x: nat, y: nat :: x <= cols && y < r ==> prefix[x, y] == |Corner(cells, x, y)|
        invariant forall x: nat :: x < c ==> prefix[x, r] == |Corner(cells, x, r)|
        invariant forall x: nat :: c <= x <= cols ==> prefix[x, r] == |Strip(cells, x, r)|
        invariant forall x: nat, y: nat :: x <= cols && r < y <= rows ==> prefix[x, y] == |Strip(cells, x, y)|
      {
        CornerStep(cells, c, r - 1);
        prefix[c, r] := prefix[c, r] + prefix[c, r - 1];
      }
    }
  }

  lemma FreeInChart(fixed: array2<bool>)
    ensures InChart(FreeCells(fixed), fixed.Length0, fixed.Length1)
  {
  }

  lemma Padded(fixed: array2<bool>, prefix: array2<int>)
    requires prefix.Length0 == fixed.Length0 + 1 && prefix.Length1 == fixed.Length1 + 1
    requires forall c: nat, r: nat :: c <= fixed.Length0 && r <= fixed.Length1 ==>
               prefix[c, r] == if c > 0 && r > 0 && fixed[c - 1, r - 1] then 1 else 0
    ensures forall c: nat, r: nat :: c <= fixed.Length0 && r <= fixed.Length1 ==>
              prefix[c, r] == if (c - 1, r - 1) in FreeCells(fixed) then 1 else 0
  {
  }

  lemma NoStrips(cells: set<Cell>, cols: nat, rows: nat)
    requires InChart(cells, cols, rows)
    ensures forall y: nat :: y <= rows ==> |Strip(cells, 0, y)| == 0 && !((-1, y - 1) in cells)
    ensures forall x: nat :: x <= cols ==> |Strip(cells, x, 0)| == 0
  {
    forall y: nat
      ensures |Strip(cells, 0, y)| == 0
    {
      assert Strip(cells, 0, y) == {};
    }
    forall x: nat
      ensures |Strip(cells, x, 0)| == 0
    {
      assert Strip(cells, x, 0) == {};
    }
  }

  lemma NoCorners(cells: set<Cell>, cols: nat, rows: nat)
    requires InChart(cells, cols, rows)
    ensures forall x: nat :: x <= cols ==> |Corner(cells, x, 0)| == 0 == |Strip(cells, x, 0)|
  {
    forall x: nat
      ensures |Corner(cells, x, 0)| == 0 == |Strip(cells, x, 0)|
    {
      assert Corner(cells, x, 0) == {} == Strip(cells, x, 0);
    }
  }

  // ----------------------------------------------------------------- zones of a chart

  /** The fixed cells of a box that lie in a tile. */
  ghost function Overlap(cells: set<Cell>, box: Rect, tile: Rect): nat { |Inside(Inside(cells, box), tile)| }

  function Common(a: Rect, b: Rect): Rect {
    Rect(if a.x0 < b.x0 then b.x0 else a.x0, if a.y0 < b.y0 then b.y0 else a.y0,
         if b.x1 < a.x1 then b.x1 else a.x1, if b.y1 < a.y1 then b.y1 else a.y1)
  }

  lemma CommonInside(cells: set<Cell>, box: Rect, tile: Rect)
    ensures Inside(Inside(cells, box), tile) == Inside(cells, Common(tile, box))
  {
  }

  /** The names of zones in their order. */
  ghost predicate Ordered(rank: ZoneId -> int, ids: seq<ZoneId>) {
    forall i: nat, j: nat :: i < j < |ids| ==> rank(ids[i]) < rank(ids[j])
  }

  ghost predicate OneToOne(rank: ZoneId -> int) { forall a, b :: rank(a) == rank(b) ==> a == b }

  function InsertId(rank: ZoneId -> int, z: ZoneId, ids: seq<ZoneId>): (r: seq<ZoneId>)
    ensures forall y :: y in r <==> y == z || y in ids
  {
    if ids == [] then [z]
    else if rank(z) < rank(ids[0]) then [z] + ids
    else
      assert ids == [ids[0]] + ids[1..];
      [ids[0]] + InsertId(rank, z, ids[1..])
  }

  lemma {:induction false} InsertOrdered(rank: ZoneId -> int, z: ZoneId, ids: seq<ZoneId>)
    requires OneToOne(rank) && Ordered(rank, ids) && z !in ids
    ensures Ordered(rank, InsertId(rank, z, ids))
  {
    if ids != [] {
      assert ids[0] in ids;
      if rank(z) > rank(ids[0]) {
        InsertOrdered(rank, z, ids[1..]);
        FirstStays(rank, z, ids, InsertId(rank, z, ids[1..]));
      } else {
        assert rank(z) < rank(ids[0]);
      }
    }
  }

  lemma FirstStays(rank: ZoneId -> int, z: ZoneId, ids: seq<ZoneId>, rest: seq<ZoneId>)
    requires ids != [] && Ordered(rank, ids) && Ordered(rank, rest) && rank(ids[0]) < rank(z)
    requires var tail := ids[1..]; forall y :: y in rest <==> y == z || y in tail
    ensures Ordered(rank, [ids[0]] + rest)
  {
    var tail := ids[1..];
    forall j: nat | j < |rest|
      ensures rank(ids[0]) < rank(rest[j])
    {
      assert rest[j] in rest;
      if rest[j] != z {
        var k: nat :| k < |tail| && tail[k] == rest[j];
        assert ids[k + 1] == rest[j];
      }
    }
  }

  method AnyFixed(fixed: array2<bool>, box: Rect) returns (some: bool)
    requires 0 <= box.x0 <= box.x1 <= fixed.Length0 && 0 <= box.y0 <= box.y1 <= fixed.Length1
    ensures some <==> Inside(FreeCells(fixed), box) != {}
  {
    for x := box.x0 to box.x1
      invariant forall c, r :: box.x0 <= c < x && box.y0 <= r < box.y1 ==> !fixed[c, r]
    {
      for y := box.y0 to box.y1
        invariant forall c, r :: box.x0 <= c < x && box.y0 <= r < box.y1 ==> !fixed[c, r]
        invariant forall r :: box.y0 <= r < y ==> !fixed[x, r]
      {
        if fixed[x, y] {
          assert (x, y) in Inside(FreeCells(fixed), box);
          return true;
        }
      }
    }
    return false;
  }

  /** The tile is in the grid of tiles and has a fixed cell. */
  ghost predicate IsZone(cells: set<Cell>, z: ZoneId, zoneCols: nat, zoneRows: nat, cols: nat, rows: nat) {
    zoneCols > 0 && zoneRows > 0 && z.0 < zoneCols && z.1 < zoneRows && Inside(cells, Tile(z, zoneCols, zoneRows, cols, rows)) != {}
  }

  /** List the tiles with a fixed cell by name: tiles without one are no zones. */
  method ListZones(fixed: array2<bool>, zoneCols: nat, zoneRows: nat, rank: ZoneId -> int) returns (ids: seq<ZoneId>)
    requires zoneCols > 0 && zoneRows > 0 && OneToOne(rank)
    ensures Ordered(rank, ids)
    ensures forall z :: z in ids <==> IsZone(FreeCells(fixed), z, zoneCols, zoneRows, fixed.Length0, fixed.Length1)
  {
    hide FreeCells, Inside, Tile, Edge, Ordered, OneToOne;
    ids := [];
    NoIds(rank);
    for col := 0 to zoneCols
      invariant Ordered(rank, ids)
      invariant forall z :: z in ids <==> z.0 < col && IsZone(FreeCells(fixed), z, zoneCols, zoneRows, fixed.Length0, fixed.Length1)
    {
      for row := 0 to zoneRows
        invariant Ordered(rank, ids)
        invariant forall z :: z in ids <==> (z.0 < col || (z.0 == col && z.1 < row))
                                            && IsZone(FreeCells(fixed), z, zoneCols, zoneRows, fixed.Length0, fixed.Length1)
      {
        var z := (col, row);
        TileFits(z, zoneCols, zoneRows, fixed.Length0, fixed.Length1);
        var some := AnyFixed(fixed, Tile(z, zoneCols, zoneRows, fixed.Length0, fixed.Length1));
        if some {
          InsertOrdered(rank, z, ids);
          ids := InsertId(rank, z, ids);
        }
      }
    }
  }

  lemma NoIds(rank: ZoneId -> int)
    ensures Ordered(rank, [])
  {
  }

  datatype Found = Refused | Nowhere | Zone(id: ZoneId)

  class ZonePartition {
    const fixed: array2<bool>
    const prefix: array2<int>
    const zoneCols: nat
    const zoneRows: nat
    const rank: ZoneId -> int
    var ids: seq<ZoneId>

    ghost predicate Valid()
      reads this, fixed, prefix
    {
      && zoneCols > 0 && zoneRows > 0 && OneToOne(rank)
      && prefix.Length0 == fixed.Length0 + 1 && prefix.Length1 == fixed.Length1 + 1
      && IsPrefix(FreeCells(fixed), prefix)
      && Ordered(rank, ids)
      && forall z :: z in ids <==> IsZone(FreeCells(fixed), z, zoneCols, zoneRows, fixed.Length0, fixed.Length1)
    }

    /** The tile of a zone. */
    function Box(z: ZoneId): Rect
      requires zoneCols > 0 && zoneRows > 0
    {
      Tile(z, zoneCols, zoneRows, fixed.Length0, fixed.Length1)
    }

    /** Tiles without a fixed cell are no zones. */
    constructor (mask: array2<bool>, zoneCols: nat, zoneRows: nat, rank: ZoneId -> int)
      requires zoneCols > 0 && zoneRows > 0 && mask.Length0 > 0 && mask.Length1 > 0 && OneToOne(rank)
      ensures Valid() && fresh(fixed) && fresh(prefix) && FreeCells(fixed) == FreeCells(mask)
      ensures fixed.Length0 == mask.Length0 && fixed.Length1 == mask.Length1
      ensures this.zoneCols == zoneCols && this.zoneRows == zoneRows && this.rank == rank
    {
      var copy := new bool[mask.Length0, mask.Length1]((x, y) reads mask requires 0 <= x < mask.Length0 && 0 <= y < mask.Length1 => mask[x, y]);
      var sums := PrefixSums(copy);
      this.fixed, this.prefix, this.zoneCols, this.zoneRows, this.rank := copy, sums, zoneCols, zoneRows, rank;
      var zones := ListZones(copy, zoneCols, zoneRows, rank);
      this.ids := zones;
      new;
      assert FreeCells(fixed) == FreeCells(mask);
    }

    /** The fixed cells that a box and a zone have in common, from the prefix sums. */
    method CountCommon(z: ZoneId, box: Rect) returns (count: int)
      requires Valid() && z in ids
      ensures count == Overlap(FreeCells(fixed), box, Box(z))
    {
      hide FreeCells, Corner, Inside, Tile;
      TileFits(z, zoneCols, zoneRows, fixed.Length0, fixed.Length1);
      var b := Common(Box(z), box);
      CommonInside(FreeCells(fixed), box, Box(z));
      if b.x0 < b.x1 && b.y0 < b.y1 {
        BoxFromCorners(FreeCells(fixed), b);
        count := prefix[b.x1, b.y1] - prefix[b.x0, b.y1] - prefix[b.x1, b.y0] + prefix[b.x0, b.y0];
      } else {
        NothingInside(FreeCells(fixed), b);
        count := 0;
      }
    }

    /** The zone that shares most fixed cells with a box, the first by name among equals. */
    ghost predicate IsBest(z: ZoneId, box: Rect)
      requires zoneCols > 0 && zoneRows > 0
      reads this, fixed
    {
      var cells := FreeCells(fixed);
      && z in ids && Overlap(cells, box, Box(z)) > 0
      && forall y :: y in ids ==>
           Overlap(cells, box, Box(y)) < Overlap(cells, box, Box(z))
           || (Overlap(cells, box, Box(y)) == Overlap(cells, box, Box(z)) && rank(z) <= rank(y))
    }

    method ZoneOfBox(box: Rect) returns (found: Found)
      requires Valid()
      ensures found.Refused? <==> !box.Proper()
      ensures found.Nowhere? <==> box.Proper() && Inside(FreeCells(fixed), box) == {}
      ensures found.Zone? ==> IsBest(found.id, box)
    {
      hide FreeCells, Inside, Overlap, Tile, IsPrefix;
      if box.x0 >= box.x1 || box.y0 >= box.y1 {
        return Refused;
      }
      var counts: seq<int> := [];
      for k := 0 to |ids|
        invariant |counts| == k
        invariant forall i: nat :: i < k ==> counts[i] == Overlap(FreeCells(fixed), box, Box(ids[i]))
      {
        var count := CountCommon(ids[k], box);
        counts := counts + [count];
      }
      var best: nat := 0;
      for k := 0 to |ids|
        invariant best <= k && (k > 0 ==> best < k)
        invariant forall i: nat :: i < k ==> counts[i] <= counts[best] && (counts[i] == counts[best] ==> best <= i)
      {
        if counts[best] < counts[k] {
          best := k;
        }
      }
      FixedCellHasZone(this, box);
      if ids == [] || counts[best] == 0 {
        forall z | z in ids
          ensures Overlap(FreeCells(fixed), box, Box(z)) == 0
        {
          var i: nat :| i < |ids| && ids[i] == z;
          assert counts[i] <= counts[best];
        }
        return Nowhere;
      }
      assert ids[best] in ids;
      forall y | y in ids
        ensures Overlap(FreeCells(fixed), box, Box(y)) < Overlap(FreeCells(fixed), box, Box(ids[best]))
                || (Overlap(FreeCells(fixed), box, Box(y)) == Overlap(FreeCells(fixed), box, Box(ids[best])) && rank(ids[best]) <= rank(y))
      {
        var i: nat :| i < |ids| && ids[i] == y;
        assert counts[i] <= counts[best];
      }
      return Zone(ids[best]);
    }

    method ContainsBox(z: ZoneId, box: Rect) returns (contained: bool)
      requires Valid() && z in ids
      ensures contained <==> box.Proper() && Box(z).Contains(box)
    {
      var t := Box(z);
      contained := t.x0 <= box.x0 < box.x1 <= t.x1 && t.y0 <= box.y0 < box.y1 <= t.y1;
    }
  }

  /** An empty mask or a number of tiles that is not positive is refused. */
  method NewPartition(mask: array2<bool>, zoneCols: int, zoneRows: int, rank: ZoneId -> int) returns (p: Option<ZonePartition>)
    requires OneToOne(rank)
    ensures p.None? <==> mask.Length0 == 0 || mask.Length1 == 0 || zoneCols <= 0 || zoneRows <= 0
    ensures p.Some? ==> p.value.Valid() && FreeCells(p.value.fixed) == FreeCells(mask)
    ensures p.Some? ==> p.value.zoneCols == zoneCols && p.value.zoneRows == zoneRows && p.value.rank == rank
    ensures p.Some? ==> p.value.fixed.Length0 == mask.Length0 && p.value.fixed.Length1 == mask.Length1
  {
    if mask.Length0 == 0 || mask.Length1 == 0 || zoneCols <= 0 || zoneRows <= 0 {
      return None;
    }
    var made := new ZonePartition(mask, zoneCols, zoneRows, rank);
    return Some(made);
  }

  lemma NothingInside(cells: set<Cell>, b: Rect)
    requires !b.Proper()
    ensures |Inside(cells, b)| == 0
  {
    assert Inside(cells, b) == {};
  }

  /** A fixed cell of the box lies in a zone, and that zone overlaps the box. */
  lemma FixedCellHasZone(p: ZonePartition, box: Rect)
    requires p.Valid()
    ensures Inside(FreeCells(p.fixed), box) == {} <==> forall z :: z in p.ids ==> Overlap(FreeCells(p.fixed), box, p.Box(z)) == 0
  {
    hide Edge, IndexOf, Tile, IsPrefix, Ordered;
    var cells := FreeCells(p.fixed);
    if Inside(cells, box) != {} {
      var cell :| cell in Inside(cells, box);
      var x: nat, y: nat := cell.0, cell.1;
      var z := (IndexOf(x, p.zoneCols, p.fixed.Length0), IndexOf(y, p.zoneRows, p.fixed.Length1));
      OneTile(x, p.zoneCols, p.fixed.Length0, 0);
      OneTile(y, p.zoneRows, p.fixed.Length1, 0);
      TilesPartition(p.zoneCols, p.zoneRows, p.fixed.Length0, p.fixed.Length1, x, y, z);
      assert cell in Inside(cells, p.Box(z));
      assert z in p.ids;
      assert cell in Inside(Inside(cells, box), p.Box(z));
    } else {
      forall z | z in p.ids
        ensures Overlap(cells, box, p.Box(z)) == 0
      {
        assert Inside(Inside(cells, box), p.Box(z)) == {};
      }
    }
  }

  /** Two zones have no cell in common. */
  lemma ZonesApart(p: ZonePartition, a: ZoneId, b: ZoneId, x: nat, y: nat)
    requires p.Valid() && a in p.ids && b in p.ids && x < p.fixed.Length0 && y < p.fixed.Length1
    requires p.Box(a).Has(x, y) && p.Box(b).Has(x, y)
    ensures a == b
  {
    hide Edge, IndexOf, IsPrefix, Ordered;
    TilesPartition(p.zoneCols, p.zoneRows, p.fixed.Length0, p.fixed.Length1, x, y, a);
    TilesPartition(p.zoneCols, p.zoneRows, p.fixed.Length0, p.fixed.Length1, x, y, b);
  }

  /** A box inside a zone maps back to that zone as soon as it has a fixed cell. */
  lemma ContainedMapsBack(p: ZonePartition, z: ZoneId, box: Rect)
    requires p.Valid() && z in p.ids && p.Box(z).Contains(box) && Inside(FreeCells(p.fixed), box) != {}
    ensures p.IsBest(z, box)
    ensures forall y :: p.IsBest(y, box) ==> y == z
  {
    hide Edge, IndexOf, Tile, IsPrefix, Ordered;
    var cells := FreeCells(p.fixed);
    assert Inside(Inside(cells, box), p.Box(z)) == Inside(cells, box);
    forall y | y in p.ids && y != z
      ensures Overlap(cells, box, p.Box(y)) == 0
    {
      if Inside(Inside(cells, box), p.Box(y)) != {} {
        var cell :| cell in Inside(Inside(cells, box), p.Box(y));
        ZonesApart(p, y, z, cell.0, cell.1);
      }
    }
  }

  /** No box fits into two zones, so the quota lists of different zones share no task. */
  lemma NoBoxInTwoZones(p: ZonePartition, a: ZoneId, b: ZoneId, box: Rect)
    requires p.Valid() && a in p.ids && b in p.ids && box.Proper()
    requires p.Box(a).Contains(box) && p.Box(b).Contains(box)
    ensures a == b
  {
    hide Edge, Tile, IsPrefix, Ordered;
    TileFits(a, p.zoneCols, p.zoneRows, p.fixed.Length0, p.fixed.Length1);
    ZonesApart(p, a, b, box.x0, box.y0);
  }
}
