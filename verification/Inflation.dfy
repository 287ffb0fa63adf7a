/** The land of a chart drawn larger, so that whatever keeps off it has room for the clearance. */
module Inflation {

  import opened SegmentClip
  import opened SegmentSafety

  function Ceiling(x: real): int { -((-x).Floor) }

  /** Where a slice ends: a negative end counts from the far side. */
  function SliceEnd(end: int, size: nat): int {
    if end >= 0 then end else if size + end < 0 then 0 else size + end
  }

  /** The cells of one axis that an island takes. */
  predicate Takes(low: real, high: real, k: int, size: nat) {
    var end := if size < high.Floor + 1 then size as int else high.Floor + 1;
    (if low.Floor < 0 then 0 else low.Floor) <= k < SliceEnd(end, size) && k < size
  }

  predicate TakenBy(b: Island, c: int, r: int, land: Mask) {
    Takes(b.x0, b.x1, c, land.cols) && Takes(b.y0, b.y1, r, land.rows)
  }

  /** The land with the islands drawn in. */
  ghost function Filled(land: Mask, islands: seq<Island>): Mask {
    Mask(land.cols, land.rows, set c, r | 0 <= c < land.cols && 0 <= r < land.rows &&
      (land.Has(c, r) || exists i: nat :: i < |islands| && TakenBy(islands[i], c, r, land)) :: (c, r))
  }

  /** Every cell within so many cells, along both axes, of a cell of the land. */
  ghost function Grown(land: Mask, radius: nat): Mask {
    Mask(land.cols, land.rows, set c, r | 0 <= c < land.cols && 0 <= r < land.rows &&
      (exists i: nat, j: nat :: i <= 2 * radius && j <= 2 * radius && Hit(land, c, r, radius, i, j)) :: (c, r))
  }

  ghost predicate Hit(land: Mask, c: int, r: int, radius: nat, i: nat, j: nat) {
    land.Has(c + i - radius, r + j - radius)
  }

  ghost function InflatedLand(land: Mask, islands: seq<Island>, clearance: real): Mask
    requires clearance >= 0.0
  {
    Grown(Filled(land, islands), Ceiling(clearance))
  }

  /** A cell of the grown land is exactly one near a cell of the land. */
  lemma GrownIsNear(land: Mask, radius: nat, c: nat, r: nat)
    requires c < land.cols && r < land.rows
    ensures Grown(land, radius).Has(c, r) <==>
              exists a: int, b: int :: land.Has(a, b) && a <= c + radius && c <= a + radius && b <= r + radius && r <= b + radius
  {
    if a: int, b: int :| land.Has(a, b) && a <= c + radius && c <= a + radius && b <= r + radius && r <= b + radius {
      var i: nat, j: nat := a - c + radius, b - r + radius;
      assert Hit(land, c, r, radius, i, j);
    }
    if Grown(land, radius).Has(c, r) {
      var i: nat, j: nat :| i <= 2 * radius && j <= 2 * radius && Hit(land, c, r, radius, i, j);
      assert land.Has(c + i - radius, r + j - radius);
    }
  }

  // ------------------------------------------------------------------ the loops

  ghost predicate Drawn(mask: array2<bool>, land: Mask)
    reads mask
  {
    && mask.Length0 == land.cols && mask.Length1 == land.rows
    && forall c: nat, r: nat :: c < mask.Length0 && r < mask.Length1 ==> (mask[c, r] <==> land.Has(c, r))
  }

  method Copied(mask: array2<bool>) returns (copy: array2<bool>)
    ensures fresh(copy) && Drawn(copy, LandOf(mask))
  {
    copy := new bool[mask.Length0, mask.Length1];
    forall c, r | 0 <= c < mask.Length0 && 0 <= r < mask.Length1 {
      copy[c, r] := mask[c, r];
    }
  }

  lemma FilledNone(land: Mask, mask: array2<bool>)
    requires Drawn(mask, land)
    ensures Drawn(mask, Filled(land, []))
  {
  }

  lemma FilledNext(land: Mask, islands: seq<Island>, b: Island, c: nat, r: nat)
    requires c < land.cols && r < land.rows
    ensures Filled(land, islands + [b]).Has(c, r) <==> Filled(land, islands).Has(c, r) || TakenBy(b, c, r, land)
  {
    hide TakenBy;
    var more := islands + [b];
    assert forall i: nat :: i < |islands| ==> more[i] == islands[i];
    assert more[|islands|] == b;
  }

  method FillIsland(mask: array2<bool>, b: Island, ghost land: Mask, ghost islands: seq<Island>)
    requires Drawn(mask, Filled(land, islands))
    modifies mask
    ensures Drawn(mask, Filled(land, islands + [b]))
  {
    hide TakenBy, Filled;
    ghost var before := Filled(land, islands);
    SizesKept(land, islands, b);
    var grid := Mask(mask.Length0, mask.Length1, {});
    forall c, r | 0 <= c < mask.Length0 && 0 <= r < mask.Length1 {
      mask[c, r] := mask[c, r] || TakenBy(b, c, r, grid);
    }
    forall c: nat, r: nat | c < mask.Length0 && r < mask.Length1
      ensures mask[c, r] <==> Filled(land, islands + [b]).Has(c, r)
    {
      FilledNext(land, islands, b, c, r);
      SameSizes(b, c, r, grid, land);
    }
  }

  lemma SizesKept(land: Mask, islands: seq<Island>, b: Island)
    ensures Filled(land, islands).cols == Filled(land, islands + [b]).cols == land.cols
    ensures Filled(land, islands).rows == Filled(land, islands + [b]).rows == land.rows
  {
  }

  lemma SameSizes(b: Island, c: int, r: int, grid: Mask, land: Mask)
    requires grid.cols == land.cols && grid.rows == land.rows
    ensures TakenBy(b, c, r, grid) <==> TakenBy(b, c, r, land)
  {
  }

  /** The shift by `(i, j)` comes before the shift by `(dc, dr)`. */
  predicate Sooner(i: nat, j: nat, dc: nat, dr: nat, width: nat) {
    (i < dc && j < width) || (i == dc && j < dr)
  }

  /** The cell is land, or is hit by one of the shifts made so far. */
  ghost predicate HitSoFar(land: Mask, c: int, r: int, radius: nat, dc: nat, dr: nat) {
    land.Has(c, r) || exists i: nat, j: nat :: Sooner(i, j, dc, dr, 2 * radius + 1) && Hit(land, c, r, radius, i, j)
  }

  ghost predicate ShiftedSoFar(mask: array2<bool>, land: Mask, radius: nat, dc: nat, dr: nat)
    reads mask
  {
    && mask.Length0 == land.cols && mask.Length1 == land.rows
    && forall c: nat, r: nat :: c < mask.Length0 && r < mask.Length1 ==> (mask[c, r] <==> HitSoFar(land, c, r, radius, dc, dr))
  }

  lemma HitNext(land: Mask, c: int, r: int, radius: nat, dc: nat, dr: nat)
    requires dr < 2 * radius + 1
    ensures HitSoFar(land, c, r, radius, dc, dr + 1) <==> HitSoFar(land, c, r, radius, dc, dr) || Hit(land, c, r, radius, dc, dr)
  {
    hide Hit;
    var width, next := 2 * radius + 1, dr + 1;
    assert forall i: nat, j: nat :: Sooner(i, j, dc, next, width) <==> Sooner(i, j, dc, dr, width) || (i == dc && j == dr);
    assert Sooner(dc, dr, dc, next, width);
  }

  lemma RowDone(mask: array2<bool>, land: Mask, radius: nat, dc: nat)
    requires ShiftedSoFar(mask, land, radius, dc, 2 * radius + 1)
    ensures ShiftedSoFar(mask, land, radius, dc + 1, 0)
  {
    hide Hit;
    var width, next := 2 * radius + 1, dc + 1;
    assert forall i: nat, j: nat :: Sooner(i, j, dc, width, width) <==> Sooner(i, j, next, 0, width);
  }

  lemma AllDone(mask: array2<bool>, land: Mask, radius: nat)
    requires ShiftedSoFar(mask, land, radius, 2 * radius + 1, 0)
    ensures Drawn(mask, Grown(land, radius))
  {
    var width := 2 * radius + 1;
    forall c: nat, r: nat | c < mask.Length0 && r < mask.Length1
      ensures mask[c, r] <==> Grown(land, radius).Has(c, r)
    {
      if land.Has(c, r) {
        assert Hit(land, c, r, radius, radius, radius);
      }
      assert forall i: nat, j: nat :: Sooner(i, j, width, 0, width) <==> i <= 2 * radius && j <= 2 * radius;
    }
  }

  method Shift(result: array2<bool>, base: array2<bool>, ghost land: Mask, radius: nat, dc: nat, dr: nat)
    requires base != result && Drawn(base, land) && ShiftedSoFar(result, land, radius, dc, dr) && dr < 2 * radius + 1
    modifies result
    ensures ShiftedSoFar(result, land, radius, dc, dr + 1)
  {
    hide HitSoFar;
    var cols, rows := base.Length0, base.Length1;
    forall c, r | 0 <= c < cols && 0 <= r < rows {
      result[c, r] := result[c, r]
        || (0 <= c + dc - radius < cols && 0 <= r + dr - radius < rows && base[c + dc - radius, r + dr - radius]);
    }
    forall c: nat, r: nat | c < cols && r < rows
      ensures result[c, r] <==> HitSoFar(land, c, r, radius, dc, dr + 1)
    {
      HitNext(land, c, r, radius, dc, dr);
    }
  }

  /** Draw in the islands, then grow by the clearance rounded up to whole cells: one shift of the whole mask
      after the other. */
  method InflatedMask(mask: array2<bool>, islands: seq<Island>, clearance: real) returns (result: array2<bool>)
    requires clearance >= 0.0
    ensures fresh(result) && Drawn(result, InflatedLand(LandOf(mask), islands, clearance))
  {
    hide Filled, Grown, HitSoFar, Sooner;
    var radius := Ceiling(clearance);
    ghost var land := LandOf(mask);
    var base := Copied(mask);
    FilledNone(land, base);
    for k := 0 to |islands|
      invariant Drawn(base, Filled(land, islands[..k]))
    {
      FillIsland(base, islands[k], land, islands[..k]);
      assert islands[..k] + [islands[k]] == islands[..k + 1];
    }
    assert islands[..|islands|] == islands;
    ghost var filled := Filled(land, islands);
    LandIsDrawn(base, filled);
    result := Copied(base);
    NoneShifted(result, filled, radius);
    for dc := 0 to 2 * radius + 1
      invariant Drawn(base, filled) && ShiftedSoFar(result, filled, radius, dc, 0)
    {
      for dr := 0 to 2 * radius + 1
        invariant Drawn(base, filled) && ShiftedSoFar(result, filled, radius, dc, dr)
      {
        Shift(result, base, filled, radius, dc, dr);
      }
      RowDone(result, filled, radius, dc);
    }
    AllDone(result, filled, radius);
  }

  lemma LandIsDrawn(mask: array2<bool>, land: Mask)
    requires Drawn(mask, land)
    ensures forall other: array2<bool> :: Drawn(other, LandOf(mask)) ==> Drawn(other, land)
  {
  }

  lemma NoneShifted(mask: array2<bool>, land: Mask, radius: nat)
    requires Drawn(mask, land)
    ensures ShiftedSoFar(mask, land, radius, 0, 0)
  {
  }
}
