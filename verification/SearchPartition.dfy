/** The partition of a search mask into at most `slots` boxes. */
module SearchPartition {

  import opened Finite
  import opened Rectangles
  import opened Tilings
  import opened Partition
  import opened Merging

  datatype Result<+T> = Ok(value: T) | Err(error: string)

  // ------------------------------------------------------------- growing the counts

  ghost function Sum(counts: seq<nat>): nat {
    if counts == [] then 0 else Sum(counts[..|counts| - 1]) + counts[|counts| - 1]
  }

  lemma {:induction false} SumAfterStep(counts: seq<nat>, i: nat)
    requires i < |counts|
    ensures Sum(counts[i := counts[i] + 1]) == Sum(counts) + 1
  {
    var n := |counts| - 1;
    if i == n {
      assert counts[i := counts[i] + 1][..n] == counts[..n];
    } else {
      SumAfterStep(counts[..n], i);
      assert counts[i := counts[i] + 1][..n] == counts[..n][i := counts[i] + 1];
    }
  }

  lemma {:induction false} SumOfOnes(n: nat)
    ensures Sum(seq(n, _ => 1)) == n
  {
    if n > 0 {
      assert seq(n, _ => 1)[..n - 1] == seq(n - 1, _ => 1);
      SumOfOnes(n - 1);
    }
  }

  /** The share of a box per aircraft if it got one more. */
  function Share(box: Rect, count: nat): real {
    box.Area() as real / (count + 1) as real
  }

  /** The first of the boxes that have room for one more, with the largest share. */
  ghost predicate IsNeediest(boxes: seq<Rect>, counts: seq<nat>, i: nat)
    requires |boxes| == |counts|
  {
    && i < |boxes| && counts[i] < boxes[i].Area()
    && forall j: nat :: j < |boxes| && counts[j] < boxes[j].Area() ==>
         Share(boxes[j], counts[j]) < Share(boxes[i], counts[i])
         || (Share(boxes[j], counts[j]) == Share(boxes[i], counts[i]) && i <= j)
  }

  method FindNeediest(boxes: seq<Rect>, counts: seq<nat>) returns (index: Option<nat>)
    requires |boxes| == |counts|
    ensures index.None? ==> forall i: nat :: i < |boxes| ==> counts[i] >= boxes[i].Area()
    ensures index.Some? ==> IsNeediest(boxes, counts, index.value)
  {
    hide Share, Rect.Area;
    index := None;
    for i := 0 to |boxes|
      invariant index.None? ==> forall j: nat :: j < i ==> counts[j] >= boxes[j].Area()
      invariant index.Some? ==> index.value < i && counts[index.value] < boxes[index.value].Area()
      invariant index.Some? ==> forall j: nat :: j < i && counts[j] < boxes[j].Area() ==>
                  Share(boxes[j], counts[j]) < Share(boxes[index.value], counts[index.value])
                  || (Share(boxes[j], counts[j]) == Share(boxes[index.value], counts[index.value]) && index.value <= j)
    {
      if counts[i] < boxes[i].Area() {
        if index.None? || Share(boxes[i], counts[i]) > Share(boxes[index.value], counts[index.value]) {
          index := Some(i);
        }
      }
    }
  }

  /** A box that got more than one would have been passed over for box `j` only if `j` were needier. */
  ghost predicate NotPassedOver(boxes: seq<Rect>, counts: seq<nat>, i: nat, j: nat)
    requires |boxes| == |counts| && i < |boxes| && j < |boxes|
  {
    counts[i] > 1 && counts[j] < boxes[j].Area() ==>
      Share(boxes[j], counts[j]) < Share(boxes[i], counts[i] - 1)
      || (Share(boxes[j], counts[j]) == Share(boxes[i], counts[i] - 1) && i <= j)
  }

  /** Every slot went to the neediest box: the last one of any box was worth no less there than it would be
      in any other box that has room, and the earlier box takes a tie.  No box has more than its cells. */
  ghost predicate FairlyShared(boxes: seq<Rect>, counts: seq<nat>) {
    && |boxes| == |counts|
    && (forall i: nat :: i < |counts| ==> 0 < counts[i] && (counts[i] == 1 || counts[i] <= boxes[i].Area()))
    && forall i: nat, j: nat :: i < |boxes| && j < |boxes| ==> NotPassedOver(boxes, counts, i, j)
  }

  /** All slots are handed out, or no box has room for one more. */
  ghost predicate HandedOut(boxes: seq<Rect>, counts: seq<nat>, slots: nat) {
    && |boxes| == |counts| && Sum(counts) <= slots
    && (Sum(counts) < slots ==> forall i: nat :: i < |boxes| ==> counts[i] >= boxes[i].Area())
  }

  lemma QuotientFalls(x: real, a: real, b: real)
    requires x > 0.0 && 0.0 < a < b
    ensures x / b < x / a
  {
    var p, q := x / a, x / b;
    assert p * a == x && q * b == x;
    if q >= p {
      assert q * b >= p * b;
      assert p * b > p * a;
    }
  }

  lemma ShareFalls(box: Rect, m: nat, n: nat)
    requires m <= n && box.Area() > 0
    ensures Share(box, n) <= Share(box, m) && (m < n ==> Share(box, n) < Share(box, m))
  {
    hide Rect.Area;
    if m < n {
      QuotientFalls(box.Area() as real, (m + 1) as real, (n + 1) as real);
    }
  }

  lemma FairAtFirst(boxes: seq<Rect>)
    ensures FairlyShared(boxes, seq(|boxes|, _ => 1))
  {
  }

  lemma FairNext(boxes: seq<Rect>, counts: seq<nat>, k: nat)
    requires FairlyShared(boxes, counts) && IsNeediest(boxes, counts, k)
    ensures FairlyShared(boxes, counts[k := counts[k] + 1])
  {
    hide Share, Rect.Area;
    var more := counts[k := counts[k] + 1];
    ShareFalls(boxes[k], counts[k], counts[k] + 1);
    forall i: nat, j: nat | i < |boxes| && j < |boxes|
      ensures NotPassedOver(boxes, more, i, j)
    {
      assert NotPassedOver(boxes, counts, i, j);
    }
  }

  /** Aircraft per box: one each, then one more for the neediest until none is left or no box has room. */
  method GrowCounts(boxes: seq<Rect>, slots: nat) returns (counts: seq<nat>)
    requires |boxes| <= slots
    ensures |counts| == |boxes| && (forall i: nat :: i < |counts| ==> counts[i] > 0)
    ensures FairlyShared(boxes, counts) && HandedOut(boxes, counts, slots)
  {
    hide Sum, IsNeediest, NotPassedOver, Rect.Area;
    counts := seq(|boxes|, _ => 1);
    SumOfOnes(|boxes|);
    FairAtFirst(boxes);
    var total := |boxes|;
    while total < slots
      invariant FairlyShared(boxes, counts) && total == Sum(counts) <= slots
      decreases slots - total
    {
      var index := FindNeediest(boxes, counts);
      if index.None? {
        return;
      }
      NeediestInside(boxes, counts, index.value);
      SumAfterStep(counts, index.value);
      FairNext(boxes, counts, index.value);
      counts := counts[index.value := counts[index.value] + 1];
      total := total + 1;
    }
  }

  /** Unequal counts of equal sum differ in both directions. */
  lemma {:induction false} DifferBothWays(a: seq<nat>, b: seq<nat>)
    requires |a| == |b|
    ensures Sum(a) < Sum(b) ==> exists i: nat :: i < |a| && a[i] < b[i]
    ensures Sum(a) == Sum(b) && a != b ==> exists i: nat :: i < |a| && a[i] < b[i]
  {
    if a != [] {
      var n := |a| - 1;
      DifferBothWays(a[..n], b[..n]);
      assert a == a[..n] + [a[n]] && b == b[..n] + [b[n]];
      if i: nat :| i < n && a[..n][i] < b[..n][i] {
        assert a[i] < b[i];
      } else if a[n] < b[n] {
        assert exists i: nat :: i < |a| && a[i] < b[i];
      }
    }
  }

  lemma QuotientOrder(x: int, m: nat, y: int, n: nat)
    requires m > 0 && n > 0
    ensures x as real / m as real <= y as real / n as real <==> x * n <= y * m
    ensures x as real / m as real < y as real / n as real <==> x * n < y * m
  {
    var p, q := x as real / m as real, y as real / n as real;
    assert p * m as real == x as real && q * n as real == y as real;
    var k := m as real * n as real;
    assert p * k == (x * n) as real && q * k == (y * m) as real;
    assert k > 0.0;
    assert p < q <==> p * k < q * k;
  }

  /** The part every slot of a box gets is, after a fair sharing, at least what another box with room would give with
      one slot more; and larger, if that other box comes first. */
  lemma FairMeans(boxes: seq<Rect>, counts: seq<nat>, i: nat, j: nat)
    requires FairlyShared(boxes, counts) && i < |boxes| && j < |boxes| && counts[i] > 1 && counts[j] < boxes[j].Area()
    ensures boxes[j].Area() * counts[i] <= boxes[i].Area() * (counts[j] + 1)
    ensures j < i ==> boxes[j].Area() * counts[i] < boxes[i].Area() * (counts[j] + 1)
  {
    hide Rect.Area;
    assert NotPassedOver(boxes, counts, i, j);
    QuotientOrder(boxes[j].Area(), counts[j] + 1, boxes[i].Area(), counts[i]);
  }


  /** The number of slots determines how many each box gets. */
  lemma FairCountsAreUnique(boxes: seq<Rect>, a: seq<nat>, b: seq<nat>)
    requires FairlyShared(boxes, a) && FairlyShared(boxes, b) && Sum(a) == Sum(b)
    ensures a == b
  {
    hide Sum, Share, Rect.Area;
    if a != b {
      DifferBothWays(a, b);
      DifferBothWays(b, a);
      var j: nat :| j < |a| && a[j] < b[j];
      var i: nat :| i < |b| && b[i] < a[i];
      assert NotPassedOver(boxes, a, i, j) && NotPassedOver(boxes, b, j, i);
      ShareFalls(boxes[i], b[i], a[i] - 1);
      ShareFalls(boxes[j], a[j], b[j] - 1);
    }
  }

  lemma NeediestInside(boxes: seq<Rect>, counts: seq<nat>, i: nat)
    requires |boxes| == |counts| && IsNeediest(boxes, counts, i)
    ensures i < |boxes|
  {
  }

  // ------------------------------------------------------------- splitting all boxes

  /** The parts of boxes that do not meet, put together, are separate, and cover the same cells. */
  ghost predicate Refines(boxes: seq<Rect>, parts: seq<Rect>) {
    && AllProper(parts) && Separate(parts)
    && (forall p :: p in parts ==> exists b :: b in boxes && b.Contains(p))
    && forall x, y :: Covers(boxes, x, y) ==> Covers(parts, x, y)
  }

  lemma RefineOneMore(boxes: seq<Rect>, parts: seq<Rect>, box: Rect, more: seq<Rect>)
    requires AllProper(boxes + [box]) && Separate(boxes + [box])
    requires Refines(boxes, parts) && Dissects(box, more)
    ensures Refines(boxes + [box], parts + more)
  {
    var all := parts + more;
    forall p, q | p in parts && q in more
      ensures p != q && !Intersects(p, q) && !Intersects(q, p)
    {
      var b :| b in boxes && b.Contains(p);
      var i: nat :| i < |boxes| && boxes[i] == b;
      assert (boxes + [box])[i] == b && (boxes + [box])[|boxes|] == box;
      assert b in boxes + [box] && box in boxes + [box] && b != box;
    }
    forall i, j | 0 <= i < j < |all|
      ensures all[i] != all[j]
    {
      if i < |parts| <= j {
        assert all[i] in parts && all[j] in more;
      }
    }
    forall p | p in all
      ensures exists b :: b in boxes + [box] && b.Contains(p)
    {
      if p in parts {
        var b :| b in boxes && b.Contains(p);
        assert b in boxes + [box];
      } else {
        assert box in boxes + [box];
      }
    }
    forall x, y | Covers(boxes + [box], x, y)
      ensures Covers(all, x, y)
    {
      var b :| b in boxes + [box] && b.Has(x, y);
      if b in boxes {
        assert Covers(boxes, x, y) && Covers(parts, x, y);
      } else {
        assert Covers(more, x, y);
      }
    }
  }

  /** The parts are the splittings of the boxes for their counts, one after the other. */
  ghost predicate SplitsInto(boxes: seq<Rect>, counts: seq<nat>, parts: seq<Rect>) {
    |boxes| == |counts|
    && if boxes == [] then parts == []
       else
         var n := |boxes| - 1;
         boxes[n].Proper() && counts[n] > 0
         && exists rest, more :: SplitsInto(boxes[..n], counts[..n], rest) && SplitOf(boxes[n], counts[n], more) && parts == rest + more
  }

  /** Boxes and counts determine the parts. */
  lemma {:induction false} PartsAreUnique(boxes: seq<Rect>, counts: seq<nat>, parts: seq<Rect>, parts': seq<Rect>)
    requires SplitsInto(boxes, counts, parts) && SplitsInto(boxes, counts, parts')
    ensures parts == parts'
  {
    if boxes != [] {
      var n := |boxes| - 1;
      var rest, more :| SplitsInto(boxes[..n], counts[..n], rest) && SplitOf(boxes[n], counts[n], more) && parts == rest + more;
      var rest', more' :| SplitsInto(boxes[..n], counts[..n], rest') && SplitOf(boxes[n], counts[n], more') && parts' == rest' + more';
      PartsAreUnique(boxes[..n], counts[..n], rest, rest');
      SplitIsUnique(boxes[n], counts[n], more, more');
    }
  }

  lemma SplitsNext(boxes: seq<Rect>, counts: seq<nat>, i: nat, parts: seq<Rect>, more: seq<Rect>)
    requires |boxes| == |counts| && i < |boxes| && boxes[i].Proper() && counts[i] > 0
    requires SplitsInto(boxes[..i], counts[..i], parts) && SplitOf(boxes[i], counts[i], more)
    ensures SplitsInto(boxes[..i + 1], counts[..i + 1], parts + more)
  {
    var prefix, numbers := boxes[..i + 1], counts[..i + 1];
    assert prefix[..i] == boxes[..i] && numbers[..i] == counts[..i];
  }

  lemma SplitsNothing()
    ensures SplitsInto([], [], [])
  {
  }

  /** Split every box for its count. */
  method SplitAll(boxes: seq<Rect>, counts: seq<nat>) returns (parts: seq<Rect>)
    requires AllProper(boxes) && Separate(boxes) && |counts| == |boxes|
    requires forall i: nat :: i < |counts| ==> counts[i] > 0
    ensures Refines(boxes, parts) && |parts| <= Sum(counts) && SplitsInto(boxes, counts, parts)
  {
    hide Refines, Dissects, Separate, SplitOf, SplitsInto;
    parts := [];
    SplitsNothing();
    assert Refines([], []) by { NothingRefines(); }
    for i := 0 to |boxes|
      invariant Refines(boxes[..i], parts) && |parts| <= Sum(counts[..i]) && SplitsInto(boxes[..i], counts[..i], parts)
    {
      assert boxes[i] in boxes;
      var more := Split(boxes[i], counts[i]);
      SplitDissects(boxes[i], counts[i], more);
      PrefixSeparate(boxes, i + 1);
      assert boxes[..i + 1] == boxes[..i] + [boxes[i]];
      RefineOneMore(boxes[..i], parts, boxes[i], more);
      assert counts[..i + 1][..i] == counts[..i];
      SplitsNext(boxes, counts, i, parts, more);
      parts := parts + more;
    }
    assert boxes[..|boxes|] == boxes && counts[..|counts|] == counts;
  }

  lemma NothingRefines()
    ensures Refines([], [])
  {
  }

  lemma PrefixSeparate(boxes: seq<Rect>, n: nat)
    requires AllProper(boxes) && Separate(boxes) && n <= |boxes|
    ensures AllProper(boxes[..n]) && Separate(boxes[..n])
  {
  }

  /** Parts that refine a tiling tile the same cells. */
  lemma RefinedTiles(boxes: seq<Rect>, parts: seq<Rect>, cells: set<Cell>)
    requires Tiles(boxes, cells) && Refines(boxes, parts)
    ensures Tiles(parts, cells)
  {
    forall x, y | Covers(parts, x, y)
      ensures Covers(boxes, x, y)
    {
      var p :| p in parts && p.Has(x, y);
      var b :| b in boxes && b.Contains(p);
      assert b.Has(x, y);
    }
  }

  // ------------------------------------------------------------------ area bounds

  function CeilDiv(a: int, b: int): int
    requires b > 0
  {
    -((-a) / b)
  }

  lemma CeilDivIsCeiling(a: int, b: int)
    requires b > 0
    ensures (CeilDiv(a, b) - 1) * b < a <= CeilDiv(a, b) * b
    ensures a > 0 ==> CeilDiv(a, b) > 0
  {
    var q, r := (-a) / b, (-a) % b;
    assert -a == q * b + r && 0 <= r < b;
    assert q >= 0 ==> q * b >= 0;
  }

  /** How many parts a box needs to respect the upper bound and stay compact. */
  function PartsNeeded(box: Rect, maxArea: nat): int
    requires box.Proper() && maxArea > 0
  {
    var long := if box.Width() < box.Height() then box.Height() else box.Width();
    Upper(CeilDiv(box.Area(), maxArea), CeilDiv(long, 2 * box.ShorterSide()))
  }

  ghost predicate Bounded(box: Rect, minArea: nat, maxArea: nat) {
    minArea <= box.Area() <= maxArea
  }

  ghost predicate AllBounded(boxes: seq<Rect>, minArea: nat, maxArea: nat) {
    forall b :: b in boxes ==> Bounded(b, minArea, maxArea)
  }

  /** Separate boxes inside the mask, each within the area bounds. */
  ghost predicate FitsMask(boxes: seq<Rect>, cells: set<Cell>) {
    && AllProper(boxes) && Separate(boxes)
    && forall x, y :: Covers(boxes, x, y) ==> (x, y) in cells
  }

  lemma AtLeastOnePart(box: Rect, maxArea: nat)
    requires box.Proper() && maxArea > 0
    ensures PartsNeeded(box, maxArea) > 0
  {
    ProperHasArea(box);
    CeilDivIsCeiling(box.Area(), maxArea);
  }

  /** How many parts each box needs. */
  function Needed(boxes: seq<Rect>, maxArea: nat): (counts: seq<nat>)
    requires AllProper(boxes) && maxArea > 0
    ensures |counts| == |boxes|
    ensures forall i: nat :: i < |boxes| ==> boxes[i].Proper() && counts[i] == PartsNeeded(boxes[i], maxArea) > 0
  {
    if boxes == [] then [] else
      var n := |boxes| - 1;
      assert boxes[n] in boxes;
      AtLeastOnePart(boxes[n], maxArea);
      Needed(boxes[..n], maxArea) + [PartsNeeded(boxes[n], maxArea)]
  }

  /** The parts needed are enough to bring every one under the bound on average, and one fewer is not,
      or leaves a box more than twice as long as wide on average. */
  lemma NeededIsLeast(box: Rect, maxArea: nat)
    requires box.Proper() && maxArea > 0
    ensures var long := if box.Width() < box.Height() then box.Height() else box.Width();
            var n := PartsNeeded(box, maxArea);
            && box.Area() <= n * maxArea && long <= n * (2 * box.ShorterSide())
            && (box.Area() > (n - 1) * maxArea || long > (n - 1) * (2 * box.ShorterSide()))
  {
    hide Rect.Area;
    var long := if box.Width() < box.Height() then box.Height() else box.Width();
    var n, p, q := PartsNeeded(box, maxArea), CeilDiv(box.Area(), maxArea), CeilDiv(long, 2 * box.ShorterSide());
    CeilDivIsCeiling(box.Area(), maxArea);
    CeilDivIsCeiling(long, 2 * box.ShorterSide());
    MoreIsMore(p, n, maxArea);
    MoreIsMore(q, n, 2 * box.ShorterSide());
  }

  lemma MoreIsMore(a: int, b: int, c: nat)
    requires a <= b
    ensures a * c <= b * c
  {
  }

  /** A box that needs no splitting stays as it is. */
  lemma {:induction false} WholeStays(boxes: seq<Rect>, counts: seq<nat>, parts: seq<Rect>, i: nat)
    requires SplitsInto(boxes, counts, parts) && i < |boxes| && counts[i] == 1
    ensures boxes[i] in parts
  {
    var n := |boxes| - 1;
    var rest, more :| SplitsInto(boxes[..n], counts[..n], rest) && SplitOf(boxes[n], counts[n], more) && parts == rest + more;
    if i < n {
      WholeStays(boxes[..n], counts[..n], rest, i);
    } else {
      NoSplit(boxes[n], 1, more);
    }
  }

  method BoundedParts(boxes: seq<Rect>, maxArea: nat) returns (parts: seq<Rect>)
    requires AllProper(boxes) && Separate(boxes) && maxArea > 0
    ensures Refines(boxes, parts)
    ensures SplitsInto(boxes, Needed(boxes, maxArea), parts) && |parts| <= Sum(Needed(boxes, maxArea))
  {
    hide PartsNeeded, Sum, SplitsInto;
    var counts: seq<nat> := [];
    for i := 0 to |boxes|
      invariant |counts| == i && forall j: nat :: j < i ==> counts[j] > 0
      invariant forall j: nat :: j < i ==> boxes[j].Proper() && counts[j] == PartsNeeded(boxes[j], maxArea)
    {
      assert boxes[i] in boxes;
      AtLeastOnePart(boxes[i], maxArea);
      counts := counts + [PartsNeeded(boxes[i], maxArea)];
    }
    assert counts == Needed(boxes, maxArea);
    parts := SplitAll(boxes, counts);
  }

  /** The boxes within the bounds. */
  function KeepBounded(boxes: seq<Rect>, minArea: nat, maxArea: nat): (r: seq<Rect>)
    ensures forall b :: b in r <==> b in boxes && Bounded(b, minArea, maxArea)
    ensures Distinct(boxes) ==> Distinct(r)
  {
    if boxes == [] then [] else
      var n := |boxes| - 1;
      assert boxes == boxes[..n] + [boxes[n]];
      var r := KeepBounded(boxes[..n], minArea, maxArea);
      assert Distinct(boxes) ==> Distinct(boxes[..n]) && boxes[n] !in boxes[..n];
      if minArea <= boxes[n].Area() <= maxArea then r + [boxes[n]] else r
  }

  lemma KeptFit(boxes: seq<Rect>, kept: seq<Rect>, cells: set<Cell>)
    requires FitsMask(boxes, cells) && Distinct(kept) && forall b :: b in kept ==> b in boxes
    ensures FitsMask(kept, cells)
  {
    forall x, y | Covers(kept, x, y)
      ensures Covers(boxes, x, y)
    {
    }
  }

  /** The first of the largest boxes that two minimal boxes would fit in. */
  ghost predicate IsWidest(boxes: seq<Rect>, minArea: nat, i: nat) {
    && i < |boxes| && boxes[i].Area() >= 2 * minArea
    && forall j: nat :: j < |boxes| && boxes[j].Area() >= 2 * minArea ==>
         boxes[j].Area() < boxes[i].Area() || (boxes[j].Area() == boxes[i].Area() && i <= j)
  }

  method FindWidest(boxes: seq<Rect>, minArea: nat) returns (index: Option<nat>)
    ensures index.None? ==> forall i: nat :: i < |boxes| ==> boxes[i].Area() < 2 * minArea
    ensures index.Some? ==> IsWidest(boxes, minArea, index.value)
  {
    hide Rect.Area;
    index := None;
    for i := 0 to |boxes|
      invariant index.None? ==> forall j: nat :: j < i ==> boxes[j].Area() < 2 * minArea
      invariant index.Some? ==> index.value < i && boxes[index.value].Area() >= 2 * minArea
      invariant index.Some? ==> forall j: nat :: j < i && boxes[j].Area() >= 2 * minArea ==>
                  boxes[j].Area() < boxes[index.value].Area()
                  || (boxes[j].Area() == boxes[index.value].Area() && index.value <= j)
    {
      if boxes[i].Area() >= 2 * minArea && (index.None? || boxes[i].Area() > boxes[index.value].Area()) {
        index := Some(i);
      }
    }
  }

  /** Box `i` replaced by its parts. */
  function Replaced(boxes: seq<Rect>, i: nat, parts: seq<Rect>): seq<Rect>
    requires i < |boxes|
  {
    boxes[..i] + parts + boxes[i + 1..]
  }

  lemma RefinesItself(boxes: seq<Rect>)
    requires AllProper(boxes) && Separate(boxes)
    ensures Refines(boxes, boxes)
  {
  }

  lemma ReplacedFits(boxes: seq<Rect>, i: nat, parts: seq<Rect>, cells: set<Cell>)
    requires FitsMask(boxes, cells) && i < |boxes| && Dissects(boxes[i], parts)
    ensures FitsMask(Replaced(boxes, i, parts), cells)
  {
    hide Dissects, Refines;
    var rest, box := Without(boxes, i), boxes[i];
    assert boxes == boxes[..i] + [box] + boxes[i + 1..];
    SeparatePermutation(boxes, rest + [box]);
    WithoutFacts(boxes, i);
    RefinesItself(rest);
    RefineOneMore(rest, rest, box, parts);
    SeparatePermutation(rest + parts, Replaced(boxes, i, parts));
    RefinedFits(rest + [box], rest + parts, cells);
  }

  lemma RefinedFits(boxes: seq<Rect>, parts: seq<Rect>, cells: set<Cell>)
    requires FitsMask(boxes, cells) && Refines(boxes, parts)
    ensures FitsMask(parts, cells)
  {
    forall x, y | Covers(parts, x, y)
      ensures Covers(boxes, x, y)
    {
      var p :| p in parts && p.Has(x, y);
      var b :| b in boxes && b.Contains(p);
      assert b.Has(x, y);
    }
  }

  lemma ReplacedBounded(boxes: seq<Rect>, i: nat, parts: seq<Rect>, minArea: nat, maxArea: nat)
    requires AllBounded(boxes, minArea, maxArea) && i < |boxes| && Dissects(boxes[i], parts)
    requires forall p :: p in parts ==> p.Area() >= minArea
    ensures AllBounded(Replaced(boxes, i, parts), minArea, maxArea)
  {
    hide Rect.Area;
    forall p | p in parts
      ensures Bounded(p, minArea, maxArea)
    {
      assert boxes[i] in boxes;
      AreaWithin(boxes[i], p);
    }
  }

  lemma AreaWithin(box: Rect, p: Rect)
    requires p.Proper() && box.Contains(p)
    ensures p.Area() <= box.Area()
  {
    LargerProduct(p.Width(), p.Height(), box.Width(), box.Height());
  }

  /** Halving gives two parts, both large enough. */
  ghost predicate Halves(box: Rect, minArea: nat, parts: seq<Rect>) {
    box.Proper() && SplitOf(box, 2, parts) && |parts| == 2 && parts[0].Area() >= minArea && parts[1].Area() >= minArea
  }

  /** The first of the largest boxes is halved. */
  ghost predicate HalfStep(before: seq<Rect>, after: seq<Rect>, minArea: nat, i: nat, parts: seq<Rect>) {
    IsWidest(before, minArea, i) && Halves(before[i], minArea, parts) && after == Replaced(before, i, parts)
  }

  ghost predicate Halved(before: seq<Rect>, after: seq<Rect>, minArea: nat) {
    exists i: nat, parts :: HalfStep(before, after, minArea, i, parts)
  }

  ghost predicate HalvingRun(run: seq<seq<Rect>>, minArea: nat) {
    run != [] && forall k: nat :: k + 1 < |run| ==> Halved(run[k], run[k + 1], minArea)
  }

  /** No box is large enough to be halved, or the first of the largest cannot be. */
  ghost predicate Stuck(boxes: seq<Rect>, minArea: nat) {
    || (forall i: nat :: i < |boxes| ==> boxes[i].Area() < 2 * minArea)
    || (exists i: nat :: IsWidest(boxes, minArea, i) && forall parts :: !Halves(boxes[i], minArea, parts))
  }

  lemma CannotHalve(boxes: seq<Rect>, minArea: nat, i: nat, parts: seq<Rect>)
    requires IsWidest(boxes, minArea, i) && boxes[i].Proper() && SplitOf(boxes[i], 2, parts)
    requires |parts| != 2 || parts[0].Area() < minArea || parts[1].Area() < minArea
    ensures Stuck(boxes, minArea)
  {
    hide SplitOf, Rect.Area;
    forall other
      ensures !Halves(boxes[i], minArea, other)
    {
      if Halves(boxes[i], minArea, other) {
        SplitIsUnique(boxes[i], 2, parts, other);
      }
    }
  }

  lemma NoneLarge(boxes: seq<Rect>, minArea: nat)
    requires forall i: nat :: i < |boxes| ==> boxes[i].Area() < 2 * minArea
    ensures Stuck(boxes, minArea)
  {
  }

  lemma RunNext(run: seq<seq<Rect>>, minArea: nat, i: nat, parts: seq<Rect>, after: seq<Rect>)
    requires HalvingRun(run, minArea) && HalfStep(run[|run| - 1], after, minArea, i, parts)
    ensures HalvingRun(run + [after], minArea)
  {
    hide HalfStep;
    var more := run + [after];
    forall k: nat | k + 1 < |more|
      ensures Halved(more[k], more[k + 1], minArea)
    {
      if k + 1 < |run| {
        assert Halved(run[k], run[k + 1], minArea);
      }
    }
  }

  lemma HalfStepIs(before: seq<Rect>, i: nat, parts: seq<Rect>, minArea: nat)
    requires IsWidest(before, minArea, i) && before[i].Proper() && SplitOf(before[i], 2, parts)
    requires |parts| == 2 && parts[0].Area() >= minArea && parts[1].Area() >= minArea
    ensures HalfStep(before, Replaced(before, i, parts), minArea, i, parts)
  {
    hide SplitOf, Rect.Area;
  }

  lemma RunOfOne(boxes: seq<Rect>, minArea: nat)
    ensures HalvingRun([boxes], minArea)
  {
  }

  /** Halve the largest boxes until there is one per slot, or the largest cannot be halved within the bounds. */
  method HalveLargest(boxes0: seq<Rect>, slots: nat, minArea: nat, maxArea: nat, ghost cells: set<Cell>)
    returns (boxes: seq<Rect>, ghost run: seq<seq<Rect>>)
    requires FitsMask(boxes0, cells) && AllBounded(boxes0, minArea, maxArea) && |boxes0| <= slots
    ensures FitsMask(boxes, cells) && AllBounded(boxes, minArea, maxArea) && |boxes0| <= |boxes| <= slots
    ensures HalvingRun(run, minArea) && run[0] == boxes0 && run[|run| - 1] == boxes
    ensures |boxes| == slots || Stuck(boxes, minArea)
  {
    hide FitsMask, AllBounded, SplitOf, IsWidest, Rect.Area, Dissects, HalfStep, HalvingRun, Stuck;
    boxes, run := boxes0, [boxes0];
    RunOfOne(boxes0, minArea);
    while |boxes| < slots
      invariant FitsMask(boxes, cells) && AllBounded(boxes, minArea, maxArea) && |boxes0| <= |boxes| <= slots
      invariant run != [] && HalvingRun(run, minArea) && run[0] == boxes0 && run[|run| - 1] == boxes
      decreases slots - |boxes|
    {
      var index := FindWidest(boxes, minArea);
      if index.None? {
        NoneLarge(boxes, minArea);
        break;
      }
      var i := index.value;
      WidestInside(boxes, minArea, i);
      BoxProper(boxes, cells, i);
      var parts := Split(boxes[i], 2);
      SplitDissects(boxes[i], 2, parts);
      if |parts| != 2 || parts[0].Area() < minArea || parts[1].Area() < minArea {
        CannotHalve(boxes, minArea, i, parts);
        break;
      }
      HalfStepIs(boxes, i, parts, minArea);
      RunNext(run, minArea, i, parts, Replaced(boxes, i, parts));
      ReplacedFits(boxes, i, parts, cells);
      ReplacedBounded(boxes, i, parts, minArea, maxArea);
      boxes := Replaced(boxes, i, parts);
      run := run + [boxes];
    }
  }

  lemma WidestInside(boxes: seq<Rect>, minArea: nat, i: nat)
    requires IsWidest(boxes, minArea, i)
    ensures i < |boxes|
  {
  }

  lemma BoxProper(boxes: seq<Rect>, cells: set<Cell>, i: nat)
    requires FitsMask(boxes, cells) && i < |boxes|
    ensures boxes[i].Proper()
  {
    assert boxes[i] in boxes;
  }

  // ------------------------------------------------------------------- the partition

  /** The request is turned down. */
  predicate BadRequest(slots: int, minArea: int, maxArea: Option<int>) {
    slots < 0 || minArea < 1 || (maxArea.Some? && maxArea.value < minArea)
  }

  /** `result` came from `boxes` by the merging run `run`. */
  ghost predicate MergedFrom(boxes: seq<Rect>, slots: nat, run: seq<seq<Rect>>, result: seq<Rect>) {
    && MergeRun(run) && run[0] == boxes && |run[|run| - 1]| == slots
    && result == SortBoxes(ByPlace, run[|run| - 1])
  }

  /** `result` came from `boxes` by handing the slots out to the neediest and splitting for them. */
  ghost predicate SharedFrom(boxes: seq<Rect>, slots: nat, result: seq<Rect>) {
    exists counts, parts :: FairlyShared(boxes, counts) && HandedOut(boxes, counts, slots) && SplitsInto(boxes, counts, parts)
                            && result == SortBoxes(ByPlace, parts)
  }

  /** `fitted` are the parts within the bounds of the boxes, split as the bound demands. */
  ghost predicate FittedFrom(boxes: seq<Rect>, minArea: nat, maxArea: nat, fitted: seq<Rect>) {
    AllProper(boxes) && maxArea > 0
    && exists parts :: SplitsInto(boxes, Needed(boxes, maxArea), parts)
                       && fitted == SortBoxes(BySize, KeepBounded(parts, minArea, maxArea))
  }

  /** `result` came from `boxes` by halving the largest while there were slots left. */
  ghost predicate HalvedFrom(boxes: seq<Rect>, slots: nat, minArea: nat, run: seq<seq<Rect>>, result: seq<Rect>) {
    && HalvingRun(run, minArea) && run[0] == boxes && result == SortBoxes(ByPlace, run[|run| - 1])
    && (|run[|run| - 1]| == slots || Stuck(run[|run| - 1], minArea))
  }

  /** Without area bounds: the peeled boxes are split if there are slots for all of them, and merged if not. */
  ghost predicate UnboundedResult(cells: set<Cell>, slots: nat, peeled: seq<Rect>, run: seq<seq<Rect>>, result: seq<Rect>) {
    if |peeled| <= slots then
      Tiles(result, cells) && |peeled| <= |result| <= slots && SharedFrom(SortBoxes(BySize, peeled), slots, result)
    else MergedFrom(SortBoxes(BySize, peeled), slots, run, result)
  }

  /** With area bounds: boxes within the bounds, merged only if they fill the slots. */
  ghost predicate BoundedResult(cells: set<Cell>, slots: nat, minArea: nat, maxArea: nat,
                                fitted: seq<Rect>, run: seq<seq<Rect>>, result: seq<Rect>)
  {
    && FitsMask(fitted, cells) && AllBounded(fitted, minArea, maxArea)
    && if |fitted| < slots then FitsMask(result, cells) && AllBounded(result, minArea, maxArea) && |result| <= slots
                                && HalvedFrom(fitted, slots, minArea, run, result)
       else MergedFrom(fitted, slots, run, result)
  }

  method SplitPeeled(boxes: seq<Rect>, slots: nat, ghost cells: set<Cell>) returns (result: seq<Rect>)
    requires Tiles(boxes, cells) && |boxes| <= slots
    ensures Tiles(result, cells) && |boxes| <= |result| <= slots && SharedFrom(boxes, slots, result)
  {
    hide Refines, FairlyShared, SplitsInto, SortBoxes;
    var counts := GrowCounts(boxes, slots);
    var parts := SplitAll(boxes, counts);
    RefinedTiles(boxes, parts, cells);
    RefinedCount(boxes, parts);
    result := SortBoxes(ByPlace, parts);
    TilesPermutation(parts, result, cells);
  }

  ghost predicate HoldsPart(boxes: seq<Rect>, parts: seq<Rect>, i: nat, j: nat) {
    i < |boxes| && j < |parts| && boxes[i].Contains(parts[j])
  }

  lemma SomePartInside(boxes: seq<Rect>, parts: seq<Rect>, i: nat)
    requires AllProper(boxes) && Separate(boxes) && Refines(boxes, parts) && i < |boxes|
    ensures exists j: nat :: HoldsPart(boxes, parts, i, j)
  {
    var x, y := boxes[i].x0, boxes[i].y0;
    assert boxes[i] in boxes && boxes[i].Has(x, y);
    assert Covers(boxes, x, y) && Covers(parts, x, y);
    var p :| p in parts && p.Has(x, y);
    var b :| b in boxes && b.Contains(p);
    assert b.Has(x, y);
    IntersectsIsSharing(b, boxes[i]);
    var j: nat :| j < |parts| && parts[j] == p;
    assert HoldsPart(boxes, parts, i, j);
  }

  lemma PartInOneBox(boxes: seq<Rect>, parts: seq<Rect>, i: nat, k: nat, j: nat)
    requires AllProper(boxes) && Separate(boxes) && AllProper(parts)
    requires HoldsPart(boxes, parts, i, j) && HoldsPart(boxes, parts, k, j)
    ensures i == k
  {
    var p := parts[j];
    assert p in parts && p.Proper() && boxes[i] in boxes && boxes[k] in boxes;
    assert boxes[i].Has(p.x0, p.y0) && boxes[k].Has(p.x0, p.y0);
    IntersectsIsSharing(boxes[i], boxes[k]);
  }

  /** Every box holds at least one of the parts. */
  lemma RefinedCount(boxes: seq<Rect>, parts: seq<Rect>)
    requires AllProper(boxes) && Separate(boxes) && Refines(boxes, parts)
    ensures |boxes| <= |parts|
  {
    hide Separate, AllProper;
    assert AllProper(parts) by { RefinesParts(boxes, parts); }
    hide Refines;
    forall i: nat | i in Below(|boxes|)
      ensures exists j: nat :: HoldsPart(boxes, parts, i, j)
    {
      SomePartInside(boxes, parts, i);
    }
    var home: map<nat, nat> := map i: nat | i in Below(|boxes|) :: var j: nat :| HoldsPart(boxes, parts, i, j); j;
    assert forall i :: i in home ==> HoldsPart(boxes, parts, i, home[i]);
    forall i: nat, k: nat | i in home && k in home && home[i] == home[k]
      ensures i == k
    {
      PartInOneBox(boxes, parts, i, k, home[i]);
    }
    InjectionBounds(home, Below(|parts|));
    assert home.Keys == Below(|boxes|);
    assert |home| == |home.Keys|;
  }

  lemma RefinesParts(boxes: seq<Rect>, parts: seq<Rect>)
    requires Refines(boxes, parts)
    ensures AllProper(parts)
  {
  }

  method FitBounds(boxes: seq<Rect>, slots: nat, minArea: nat, maxArea: nat, ghost cells: set<Cell>)
    returns (result: seq<Rect>, ghost fitted: seq<Rect>, ghost run: seq<seq<Rect>>)
    requires Tiles(boxes, cells) && 0 < minArea <= maxArea
    ensures BoundedResult(cells, slots, minArea, maxArea, fitted, run, result) && FittedFrom(boxes, minArea, maxArea, fitted)
  {
    hide Refines, KeepBounded, SortBoxes, SplitsInto, Needed, HalvingRun, Stuck;
    run := [];
    var parts := BoundedParts(boxes, maxArea);
    RefinedTiles(boxes, parts, cells);
    var kept := KeepBounded(parts, minArea, maxArea);
    KeptFit(parts, kept, cells);
    var sorted := SortBoxes(BySize, kept);
    SortedFits(kept, sorted, cells, minArea, maxArea);
    fitted := sorted;
    if |sorted| >= slots {
      result, run := MergeToSlots(sorted, slots);
    } else {
      var halved;
      halved, run := HalveLargest(sorted, slots, minArea, maxArea, cells);
      result := SortBoxes(ByPlace, halved);
      SortedFits(halved, result, cells, minArea, maxArea);
    }
  }

  lemma SortedFits(a: seq<Rect>, b: seq<Rect>, cells: set<Cell>, minArea: nat, maxArea: nat)
    requires FitsMask(a, cells) && AllBounded(a, minArea, maxArea) && multiset(a) == multiset(b)
    ensures FitsMask(b, cells) && AllBounded(b, minArea, maxArea) && |a| == |b|
  {
    SeparatePermutation(a, b);
  }

  method PartitionSearchMask(mask: array2<bool>, slots: int, minArea: int, maxArea: Option<int>)
    returns (r: Result<seq<Rect>>, ghost peeled: seq<Rect>, ghost fitted: seq<Rect>, ghost run: seq<seq<Rect>>)
    ensures r.Err? <==> BadRequest(slots, minArea, maxArea)
    ensures r.Ok? && slots == 0 ==> r.value == []
    ensures r.Ok? && slots > 0 ==> IsPeeling(FreeCells(mask), peeled) && Left(FreeCells(mask), peeled) == {}
    ensures r.Ok? && slots > 0 && maxArea.None? ==> UnboundedResult(FreeCells(mask), slots, peeled, run, r.value)
    ensures r.Ok? && slots > 0 && maxArea.Some? ==>
              BoundedResult(FreeCells(mask), slots, minArea, maxArea.value, fitted, run, r.value)
              && FittedFrom(SortBoxes(BySize, peeled), minArea, maxArea.value, fitted)
  {
    hide IsPeeling, Left, Tiles, BoundedResult, MergeRun, SortBoxes, FittedFrom, SharedFrom;
    peeled, fitted, run := [], [], [];
    if slots < 0 {
      return Err("expected a 2D mask and non-negative slot count"), [], [], [];
    }
    if minArea < 1 || (maxArea.Some? && maxArea.value < minArea) {
      return Err("invalid partition area bounds"), [], [], [];
    }
    if slots == 0 {
      return Ok([]), [], [], [];
    }
    ghost var cells := FreeCells(mask);
    var remaining := new bool[mask.Length0, mask.Length1]((x, y) reads mask
      requires 0 <= x < mask.Length0 && 0 <= y < mask.Length1 => mask[x, y]);
    assert FreeCells(remaining) == cells;
    var boxes := Peel(remaining);
    peeled := boxes;
    PeelingTiles(cells, boxes);
    var sorted := SortBoxes(BySize, boxes);
    SortedTiles(boxes, sorted, cells);
    var result: seq<Rect>;
    if maxArea.Some? {
      result, fitted, run := FitBounds(sorted, slots, minArea, maxArea.value, cells);
    } else if |sorted| > slots {
      TilesParts(sorted, cells);
      result, run := MergeToSlots(sorted, slots);
    } else {
      result := SplitPeeled(sorted, slots, cells);
    }
    assert FreeCells(mask) == cells;
    r := Ok(result);
  }

  lemma SortedTiles(boxes: seq<Rect>, sorted: seq<Rect>, cells: set<Cell>)
    requires Tiles(boxes, cells) && sorted == SortBoxes(BySize, boxes)
    ensures Tiles(sorted, cells) && |sorted| == |boxes|
  {
    TilesPermutation(boxes, sorted, cells);
  }

  lemma TilesParts(boxes: seq<Rect>, cells: set<Cell>)
    requires Tiles(boxes, cells)
    ensures AllProper(boxes) && Separate(boxes)
  {
  }

  /** A merged partition: exactly one box per slot, pairwise apart, and no cell of the boxes it came
      from is lost except with a box that was dropped. */
  lemma MergedPartition(boxes: seq<Rect>, slots: nat, run: seq<seq<Rect>>, result: seq<Rect>)
    requires AllProper(boxes) && Separate(boxes) && MergedFrom(boxes, slots, run, result)
    ensures |result| == slots && AllProper(result) && Separate(result)
    ensures forall x, y :: Covers(boxes, x, y) ==> Covers(result, x, y) || WasDropped(run, x, y)
  {
    RunKeeps(run);
    SeparatePermutation(run[|run| - 1], result);
  }
}
