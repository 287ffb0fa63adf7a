/** Partition of the searchable cells into one compact rectangle per search aircraft:
    peel off largest free rectangles, then split them or fold the surplus ones together.
  */
module Partition {

  import opened Finite
  import opened Rectangles
  import opened Tilings

  // ---------------------------------------------------------------------- peeling

  /** The cells left once `boxes` are taken out. */
  ghost function Left(cells: set<Cell>, boxes: seq<Rect>): set<Cell> {
    if boxes == [] then cells else Left(cells, boxes[..|boxes| - 1]) - CellsOf(boxes[|boxes| - 1])
  }

  /** Each box is the largest free rectangle of what the ones before it left. */
  ghost predicate IsPeeling(cells: set<Cell>, boxes: seq<Rect>) {
    forall i: nat :: i < |boxes| ==> IsLargest(Left(cells, boxes[..i]), boxes[i])
  }

  lemma {:induction false} LeftAreUncovered(cells: set<Cell>, boxes: seq<Rect>, x: int, y: int)
    ensures (x, y) in Left(cells, boxes) <==> (x, y) in cells && !Covers(boxes, x, y)
  {
    if boxes != [] {
      var n := |boxes| - 1;
      LeftAreUncovered(cells, boxes[..n], x, y);
      assert boxes == boxes[..n] + [boxes[n]];
      assert Covers(boxes, x, y) <==> Covers(boxes[..n], x, y) || boxes[n].Has(x, y);
    }
  }

  /** A peeled box shares no cell with the boxes peeled before it. */
  lemma PeeledApart(cells: set<Cell>, boxes: seq<Rect>, i: nat, j: nat)
    requires IsPeeling(cells, boxes) && i < j < |boxes|
    ensures boxes[i].Proper() && boxes[j].Proper() && !Intersects(boxes[i], boxes[j]) && boxes[i] != boxes[j]
  {
    assert IsLargest(Left(cells, boxes[..i]), boxes[i]);
    assert IsLargest(Left(cells, boxes[..j]), boxes[j]);
    IntersectsIsSharing(boxes[i], boxes[j]);
    forall x, y | boxes[j].Has(x, y)
      ensures !boxes[i].Has(x, y)
    {
      LeftAreUncovered(cells, boxes[..j], x, y);
      assert boxes[..j][i] == boxes[i];
    }
    assert boxes[j].Has(boxes[j].x0, boxes[j].y0);
  }

  /** A peeling that leaves nothing tiles the mask. */
  lemma PeelingTiles(cells: set<Cell>, boxes: seq<Rect>)
    requires IsPeeling(cells, boxes) && Left(cells, boxes) == {}
    ensures Tiles(boxes, cells)
  {
    forall i, j | 0 <= i < j < |boxes|
      ensures boxes[i] != boxes[j] && !Intersects(boxes[i], boxes[j])
    {
      PeeledApart(cells, boxes, i, j);
    }
    forall b | b in boxes
      ensures b.Proper()
    {
      var i: nat :| i < |boxes| && boxes[i] == b;
      assert IsLargest(Left(cells, boxes[..i]), boxes[i]);
    }
    forall x, y
      ensures (x, y) in cells <==> Covers(boxes, x, y)
    {
      LeftAreUncovered(cells, boxes, x, y);
      if Covers(boxes, x, y) {
        PeeledIsFree(cells, boxes, x, y);
      }
    }
  }

  lemma PeeledIsFree(cells: set<Cell>, boxes: seq<Rect>, x: int, y: int)
    requires IsPeeling(cells, boxes) && Covers(boxes, x, y)
    ensures (x, y) in cells
  {
    var b :| b in boxes && b.Has(x, y);
    var i: nat :| i < |boxes| && boxes[i] == b;
    assert IsLargest(Left(cells, boxes[..i]), boxes[i]);
    LeftAreUncovered(cells, boxes[..i], x, y);
  }

  method AnyFree(mask: array2<bool>) returns (found: bool)
    ensures found <==> FreeCells(mask) != {}
  {
    for x := 0 to mask.Length0
      invariant forall i, j :: 0 <= i < x && 0 <= j < mask.Length1 ==> !mask[i, j]
    {
      for y := 0 to mask.Length1
        invariant forall i, j :: 0 <= i < x && 0 <= j < mask.Length1 ==> !mask[i, j]
        invariant forall j :: 0 <= j < y ==> !mask[x, j]
      {
        if mask[x, y] {
          assert (x as int, y as int) in FreeCells(mask);
          return true;
        }
      }
    }
    return false;
  }

  /** Block all cells of `r`. */
  method Clear(mask: array2<bool>, r: Rect)
    requires 0 <= r.x0 && r.x1 <= mask.Length0 && 0 <= r.y0 && r.y1 <= mask.Length1
    modifies mask
    ensures FreeCells(mask) == old(FreeCells(mask)) - CellsOf(r)
  {
    forall x, y | r.x0 <= x < r.x1 && r.y0 <= y < r.y1 {
      mask[x, y] := false;
    }
  }

  lemma LargestInGrid(mask: array2<bool>, r: Rect)
    requires IsLargest(FreeCells(mask), r)
    ensures 0 <= r.x0 && r.x1 <= mask.Length0 && 0 <= r.y0 && r.y1 <= mask.Length1
    ensures (r.x0, r.y0) in FreeCells(mask) && (r.x0, r.y0) in CellsOf(r)
  {
    assert r.Has(r.x0, r.y0) && r.Has(r.x1 - 1, r.y1 - 1);
  }

  lemma PeelOne(cells: set<Cell>, boxes: seq<Rect>, r: Rect)
    requires IsPeeling(cells, boxes) && IsLargest(Left(cells, boxes), r)
    ensures IsPeeling(cells, boxes + [r])
    ensures Left(cells, boxes + [r]) == Left(cells, boxes) - CellsOf(r)
  {
    var longer := boxes + [r];
    assert longer[..|boxes|] == boxes;
    forall i: nat | i < |longer|
      ensures IsLargest(Left(cells, longer[..i]), longer[i])
    {
      if i < |boxes| {
        assert longer[..i] == boxes[..i];
      }
    }
  }

  /** Take out largest free rectangles until none is left. */
  method Peel(remaining: array2<bool>) returns (boxes: seq<Rect>)
    modifies remaining
    ensures IsPeeling(old(FreeCells(remaining)), boxes) && Left(old(FreeCells(remaining)), boxes) == {}
  {
    hide *;
    ghost var cells := FreeCells(remaining);
    boxes := [];
    PeelNothing(cells);
    var more := AnyFree(remaining);
    while more
      invariant IsPeeling(cells, boxes) && Left(cells, boxes) == FreeCells(remaining)
      invariant more <==> FreeCells(remaining) != {}
      decreases |FreeCells(remaining)|, more
    {
      ghost var before := FreeCells(remaining);
      var best := LargestRectangle(remaining);
      var r := best.value;
      LargestInGrid(remaining, r);
      PeelOne(cells, boxes, r);
      boxes := boxes + [r];
      Clear(remaining, r);
      SubsetCard(FreeCells(remaining), before);
      more := AnyFree(remaining);
    }
  }

  lemma PeelNothing(cells: set<Cell>)
    ensures IsPeeling(cells, []) && Left(cells, []) == cells
  {
  }

  // --------------------------------------------------------------------- splitting

  datatype Cut = Cut(imbalance: real, length: int, axis: int, offset: int)

  /** The order in which cuts are preferred: balance, then the longer side, then axis and offset. */
  predicate CutBefore(a: Cut, b: Cut) {
    || a.imbalance < b.imbalance
    || (a.imbalance == b.imbalance && a.length > b.length)
    || (a.imbalance == b.imbalance && a.length == b.length && a.axis < b.axis)
    || (a.imbalance == b.imbalance && a.length == b.length && a.axis == b.axis && a.offset < b.offset)
  }

  function Length(box: Rect, axis: int): int {
    if axis == 0 then box.Width() else box.Height()
  }

  function Abs(x: real): real { if x < 0.0 then -x else x }

  /** A cut that leaves at least one cell per aircraft on either side. */
  predicate LegalCut(box: Rect, count: nat, axis: int, offset: int) {
    && 0 <= axis <= 1 && 1 <= offset < Length(box, axis)
    && offset * Length(box, 1 - axis) >= count / 2
    && (Length(box, axis) - offset) * Length(box, 1 - axis) >= count - count / 2
  }

  function CutAt(box: Rect, count: nat, axis: int, offset: int): Cut
    requires box.Area() > 0 && count > 0
  {
    Cut(Abs((offset * Length(box, 1 - axis)) as real / box.Area() as real - (count / 2) as real / count as real),
        Length(box, axis), axis, offset)
  }

  ghost predicate IsBestCut(box: Rect, count: nat, cut: Cut)
    requires box.Area() > 0 && count > 0
  {
    && LegalCut(box, count, cut.axis, cut.offset) && cut == CutAt(box, count, cut.axis, cut.offset)
    && forall axis, offset :: LegalCut(box, count, axis, offset) ==> !CutBefore(CutAt(box, count, axis, offset), cut)
  }

  ghost predicate NoCut(box: Rect, count: nat) {
    forall axis, offset :: !LegalCut(box, count, axis, offset)
  }

  /** The best legal cut, if there is any. */
  method ChooseCut(box: Rect, count: nat) returns (best: Option<Cut>)
    requires box.Proper() && box.Area() > 0 && count > 0
    ensures best.None? ==> NoCut(box, count)
    ensures best.Some? ==> IsBestCut(box, count, best.value)
  {
    hide Rect.Area, Abs;
    best := None;
    for axis := 0 to 2
      invariant BestCutSoFar(box, count, axis, 1, best)
    {
      var length := Length(box, axis);
      var offset := 1;
      while offset < length
        invariant 1 <= offset && BestCutSoFar(box, count, axis, offset, best)
      {
        if LegalCut(box, count, axis, offset) {
          var cut := CutAt(box, count, axis, offset);
          if best.None? || CutBefore(cut, best.value) {
            best := Some(cut);
          }
        }
        offset := offset + 1;
      }
    }
  }

  /** `best` is the best of the legal cuts up to `axis` and `offset`. */
  ghost predicate BestCutSoFar(box: Rect, count: nat, axis: int, offset: int, best: Option<Cut>)
    requires box.Area() > 0 && count > 0
  {
    && (best.Some? ==> LegalCut(box, count, best.value.axis, best.value.offset)
                       && best.value == CutAt(box, count, best.value.axis, best.value.offset))
    && forall a, o :: LegalCut(box, count, a, o) && (a < axis || (a == axis && o < offset)) ==>
         best.Some? && !CutBefore(CutAt(box, count, a, o), best.value)
  }

  function FirstPart(box: Rect, cut: Cut): Rect {
    if cut.axis == 0 then Rect(box.x0, box.y0, box.x0 + cut.offset, box.y1)
    else Rect(box.x0, box.y0, box.x1, box.y0 + cut.offset)
  }

  function SecondPart(box: Rect, cut: Cut): Rect {
    if cut.axis == 0 then Rect(box.x0 + cut.offset, box.y0, box.x1, box.y1)
    else Rect(box.x0, box.y0 + cut.offset, box.x1, box.y1)
  }

  lemma ProperHasArea(box: Rect)
    requires box.Proper()
    ensures box.Area() > 0
  {
    LargerProduct(1, 1, box.Width(), box.Height());
  }

  /** The guillotine splitting of `box` for `count` aircraft. */
  ghost predicate SplitOf(box: Rect, count: nat, parts: seq<Rect>)
    requires box.Proper() && count > 0
    decreases count
  {
    ProperHasArea(box);
    if count == 1 || NoCut(box, count) then parts == [box]
    else
      exists cut, p, q ::
        && IsBestCut(box, count, cut)
        && SplitOf(FirstPart(box, cut), count / 2, p)
        && SplitOf(SecondPart(box, cut), count - count / 2, q)
        && parts == p + q
  }

  method Split(box: Rect, count: nat) returns (parts: seq<Rect>)
    requires box.Proper() && count > 0
    ensures SplitOf(box, count, parts)
    decreases count
  {
    ProperHasArea(box);
    if count == 1 {
      return [box];
    }
    var best := ChooseCut(box, count);
    if best.None? {
      return [box];
    }
    var cut := best.value;
    var first := Split(FirstPart(box, cut), count / 2);
    var second := Split(SecondPart(box, cut), count - count / 2);
    assert !NoCut(box, count);
    return first + second;
  }

  /** All parts lie in the box, cover it, and do not meet. */
  ghost predicate Dissects(box: Rect, parts: seq<Rect>) {
    && AllProper(parts) && Separate(parts)
    && (forall p :: p in parts ==> box.Contains(p))
    && forall x, y :: box.Has(x, y) ==> Covers(parts, x, y)
  }

  /** How far the first part is off its share of the cells, times the number of parts. */
  ghost function Deviation(box: Rect, count: nat, axis: int, offset: int): int {
    var off := FirstPart(box, Cut(0.0, 0, axis, offset)).Area() * count - (count / 2) * box.Area();
    if off < 0 then -off else off
  }

  lemma ScaledDifference(x: real, a: real, h: real, c: real)
    requires a > 0.0 && c > 0.0
    ensures (x / a - h / c) * (a * c) == x * c - h * a
  {
    assert x / a * a == x && h / c * c == h;
    assert (x / a - h / c) * (a * c) == x / a * a * c - h / c * c * a;
  }

  lemma ProductReal(x: int, y: int)
    ensures (x * y) as real == x as real * y as real
  {
  }

  lemma ScaledImbalance(x: int, a: int, h: int, c: int)
    requires a > 0 && c > 0
    ensures Abs(x as real / a as real - h as real / c as real) * (a as real * c as real)
         == (if x * c - h * a < 0 then -(x * c - h * a) else x * c - h * a) as real
  {
    hide Abs;
    var d, m := x as real / a as real - h as real / c as real, a as real * c as real;
    Positive(a, c);
    ScaledDifference(x as real, a as real, h as real, c as real);
    ProductReal(x, c);
    ProductReal(h, a);
    assert d * m == (x * c - h * a) as real;
    ScaledAbs(d, m);
  }

  lemma ScaledAbs(d: real, m: real)
    requires m > 0.0
    ensures Abs(d) * m == if d * m < 0.0 then -(d * m) else d * m
  {
    ScaledSign(d, m);
  }

  lemma FirstPartArea(box: Rect, axis: int, offset: int)
    requires 0 <= axis <= 1
    ensures FirstPart(box, Cut(0.0, 0, axis, offset)).Area() == offset * Length(box, 1 - axis)
  {
  }

  lemma ImbalanceIs(box: Rect, count: nat, axis: int, offset: int)
    requires box.Area() > 0 && count > 0 && 0 <= axis <= 1
    ensures CutAt(box, count, axis, offset).imbalance * (box.Area() as real * count as real) == Deviation(box, count, axis, offset) as real
  {
    hide Abs, Rect.Area, Length, FirstPart;
    FirstPartArea(box, axis, offset);
    ScaledImbalance(offset * Length(box, 1 - axis), box.Area(), count / 2, count);
  }

  lemma ScaledSign(d: real, m: real)
    requires m > 0.0
    ensures (d < 0.0 <==> d * m < 0.0) && (-d) * m == -(d * m)
  {
  }

  lemma ScaledOrder(x: real, y: real, m: real)
    requires m > 0.0
    ensures x <= y <==> x * m <= y * m
    ensures x == y <==> x * m == y * m
  {
  }

  lemma CutFields(box: Rect, count: nat, axis: int, offset: int)
    requires box.Area() > 0 && count > 0
    ensures var cut := CutAt(box, count, axis, offset); cut.axis == axis && cut.offset == offset && cut.length == Length(box, axis)
  {
  }

  lemma BestIsBefore(box: Rect, count: nat, cut: Cut, axis: int, offset: int)
    requires box.Area() > 0 && count > 0 && IsBestCut(box, count, cut) && LegalCut(box, count, axis, offset)
    ensures 0 <= cut.axis <= 1 && 0 <= axis <= 1
    ensures cut == CutAt(box, count, cut.axis, cut.offset) && !CutBefore(CutAt(box, count, axis, offset), cut)
  {
    hide CutAt, CutBefore, Rect.Area, Length;
  }

  /** Either part of a legal cut has a cell for each of its pieces. */
  lemma PartsHaveRoom(box: Rect, count: nat, cut: Cut)
    requires LegalCut(box, count, cut.axis, cut.offset)
    ensures FirstPart(box, cut).Area() >= count / 2 && SecondPart(box, cut).Area() >= count - count / 2
  {
  }

  /** The best cut leaves its first part closest to its share of the cells. Of cuts equally close it takes one across
      the longer way, then along the first axis, then the first. */
  lemma BestCutMeans(box: Rect, count: nat, cut: Cut, axis: int, offset: int)
    requires box.Area() > 0 && count > 0 && IsBestCut(box, count, cut) && LegalCut(box, count, axis, offset)
    ensures var best, other := Deviation(box, count, cut.axis, cut.offset), Deviation(box, count, axis, offset);
            && best <= other
            && (best == other ==> Length(box, axis) <= Length(box, cut.axis))
            && (best == other && Length(box, axis) == Length(box, cut.axis) ==> cut.axis < axis || (cut.axis == axis && cut.offset <= offset))
  {
    hide *;
    BestIsBefore(box, count, cut, axis, offset);
    var m := box.Area() as real * count as real;
    Positive(box.Area(), count);
    CutFields(box, count, cut.axis, cut.offset);
    CutFields(box, count, axis, offset);
    ImbalanceIs(box, count, cut.axis, cut.offset);
    ImbalanceIs(box, count, axis, offset);
    ScaledOrder(cut.imbalance, CutAt(box, count, axis, offset).imbalance, m);
    CutOrder(CutAt(box, count, axis, offset), cut);
  }

  lemma Positive(a: int, b: int)
    requires a > 0 && b > 0
    ensures a as real * b as real > 0.0
  {
  }

  lemma CutOrder(a: Cut, b: Cut)
    requires !CutBefore(a, b)
    ensures b.imbalance <= a.imbalance && (a.imbalance == b.imbalance ==> a.length <= b.length)
    ensures a.imbalance == b.imbalance && a.length == b.length ==> b.axis < a.axis || (b.axis == a.axis && b.offset <= a.offset)
  {
  }

  lemma PartsDissect(box: Rect, cut: Cut, count: nat, p: seq<Rect>, q: seq<Rect>)
    requires box.Proper() && LegalCut(box, count, cut.axis, cut.offset)
    requires Dissects(FirstPart(box, cut), p) && Dissects(SecondPart(box, cut), q)
    ensures Dissects(box, p + q)
  {
    JoinSeparate(p, q, FirstPart(box, cut), SecondPart(box, cut));
    forall x, y | box.Has(x, y)
      ensures Covers(p + q, x, y)
    {
      assert FirstPart(box, cut).Has(x, y) || SecondPart(box, cut).Has(x, y);
      assert Covers(p, x, y) || Covers(q, x, y);
    }
  }

  lemma {:induction false} SplitDissects(box: Rect, count: nat, parts: seq<Rect>)
    requires box.Proper() && count > 0 && SplitOf(box, count, parts)
    ensures Dissects(box, parts) && 1 <= |parts| <= count
    decreases count
  {
    hide *;
    ProperHasArea(box);
    if count == 1 || NoCut(box, count) {
      OnlyOne(box, count, parts);
    } else {
      var cut, p, q := OpenSplit(box, count, parts);
      BestIsLegal(box, count, cut);
      SplitDissects(FirstPart(box, cut), count / 2, p);
      SplitDissects(SecondPart(box, cut), count - count / 2, q);
      PartsDissect(box, cut, count, p, q);
    }
  }

  lemma BestIsLegal(box: Rect, count: nat, cut: Cut)
    requires box.Area() > 0 && count > 0 && IsBestCut(box, count, cut)
    ensures LegalCut(box, count, cut.axis, cut.offset)
  {
  }

  lemma OnlyOne(box: Rect, count: nat, parts: seq<Rect>)
    requires box.Proper() && count > 0 && SplitOf(box, count, parts) && (count == 1 || NoCut(box, count))
    ensures parts == [box] && Dissects(box, parts)
  {
    assert box in [box];
  }

  lemma BestCutIsUnique(box: Rect, count: nat, cut: Cut, cut': Cut)
    requires box.Area() > 0 && count > 0 && IsBestCut(box, count, cut) && IsBestCut(box, count, cut')
    ensures cut == cut'
  {
    hide LegalCut, CutAt, Rect.Area;
    assert !CutBefore(CutAt(box, count, cut.axis, cut.offset), cut');
    assert !CutBefore(CutAt(box, count, cut'.axis, cut'.offset), cut);
  }

  /** The cut a splitting starts with, and the splittings of the two parts. */
  lemma OpenSplit(box: Rect, count: nat, parts: seq<Rect>) returns (cut: Cut, p: seq<Rect>, q: seq<Rect>)
    requires box.Proper() && box.Area() > 0 && count > 1 && !NoCut(box, count) && SplitOf(box, count, parts)
    ensures IsBestCut(box, count, cut) && FirstPart(box, cut).Proper() && SecondPart(box, cut).Proper()
    ensures SplitOf(FirstPart(box, cut), count / 2, p) && SplitOf(SecondPart(box, cut), count - count / 2, q)
    ensures parts == p + q
  {
    cut, p, q :|
      && IsBestCut(box, count, cut)
      && SplitOf(FirstPart(box, cut), count / 2, p)
      && SplitOf(SecondPart(box, cut), count - count / 2, q)
      && parts == p + q;
  }

  lemma NoSplit(box: Rect, count: nat, parts: seq<Rect>)
    requires box.Proper() && count > 0 && (count == 1 || NoCut(box, count)) && SplitOf(box, count, parts)
    ensures parts == [box]
  {
  }

  /** Nothing is left to chance: a box and a count have one splitting. */
  lemma {:induction false} SplitIsUnique(box: Rect, count: nat, parts: seq<Rect>, parts': seq<Rect>)
    requires box.Proper() && count > 0 && SplitOf(box, count, parts) && SplitOf(box, count, parts')
    ensures parts == parts'
    decreases count
  {
    hide *;
    ProperHasArea(box);
    if count == 1 || NoCut(box, count) {
      NoSplit(box, count, parts);
      NoSplit(box, count, parts');
    } else {
      var cut, p, q := OpenSplit(box, count, parts);
      var cut', p', q' := OpenSplit(box, count, parts');
      BestCutIsUnique(box, count, cut, cut');
      SplitIsUnique(FirstPart(box, cut), count / 2, p, p');
      SplitIsUnique(SecondPart(box, cut), count - count / 2, q, q');
    }
  }
}
