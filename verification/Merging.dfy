/** Folding surplus boxes into their neighbours until one is left per slot.

    A run is the sequence of families the loop goes through.  Each step takes the
    smallest box and either unites it with the neighbour whose union wastes least and
    meets no third box, or drops it when there is no such neighbour.
  */
module Merging {

  import opened Finite
  import opened Rectangles
  import opened Tilings

  function Lower(a: int, b: int): int { if a < b then a else b }
  function Upper(a: int, b: int): int { if a < b then b else a }

  function UnionRect(a: Rect, b: Rect): Rect {
    Rect(Lower(a.x0, b.x0), Lower(a.y0, b.y0), Upper(a.x1, b.x1), Upper(a.y1, b.y1))
  }

  /** Smaller area first, then coordinates. */
  predicate Smaller(a: Rect, b: Rect) {
    a.Area() < b.Area() || (a.Area() == b.Area() && Before(a, b))
  }

  ghost predicate IsSmallest(boxes: seq<Rect>, i: nat) {
    && i < |boxes|
    && (forall j: nat :: j < |boxes| ==> !Smaller(boxes[j], boxes[i]))
    && (forall j: nat :: j < i ==> Smaller(boxes[i], boxes[j]))
  }

  /** Uniting boxes `i` and `t` meets no third box. */
  ghost predicate LegalTarget(boxes: seq<Rect>, i: nat, t: nat) {
    && i < |boxes| && t < |boxes| && t != i
    && forall j: nat :: j < |boxes| && j != i && j != t ==> !Intersects(UnionRect(boxes[i], boxes[t]), boxes[j])
  }

  /** The blocked or foreign cells a union would enclose. */
  function Waste(boxes: seq<Rect>, i: nat, t: nat): int
    requires i < |boxes| && t < |boxes|
  {
    UnionRect(boxes[i], boxes[t]).Area() - boxes[t].Area() - boxes[i].Area()
  }

  /** Least waste; among equals the last one. */
  ghost predicate IsBestTarget(boxes: seq<Rect>, i: nat, t: nat) {
    && LegalTarget(boxes, i, t)
    && forall u: nat :: LegalTarget(boxes, i, u) ==>
         Waste(boxes, i, t) < Waste(boxes, i, u) || (Waste(boxes, i, t) == Waste(boxes, i, u) && u <= t)
  }

  function Without(boxes: seq<Rect>, i: nat): seq<Rect>
    requires i < |boxes|
  {
    boxes[..i] + boxes[i + 1..]
  }

  function WithoutBoth(boxes: seq<Rect>, i: nat, t: nat): seq<Rect>
    requires i < |boxes| && t < |boxes| && i != t
  {
    if i < t then Without(Without(boxes, t), i) else Without(Without(boxes, i), t)
  }

  /** Box `i` is the smallest and is dropped: no neighbour can take it. */
  ghost predicate DropStep(before: seq<Rect>, after: seq<Rect>, i: nat) {
    && IsSmallest(before, i) && (forall t: nat :: !LegalTarget(before, i, t))
    && after == Without(before, i)
  }

  /** Box `i` is the smallest and is united with box `t`. */
  ghost predicate UniteStep(before: seq<Rect>, after: seq<Rect>, i: nat, t: nat) {
    && IsSmallest(before, i) && IsBestTarget(before, i, t)
    && after == WithoutBoth(before, i, t) + [UnionRect(before[i], before[t])]
  }

  ghost predicate MergeStep(before: seq<Rect>, after: seq<Rect>) {
    || (exists i: nat :: DropStep(before, after, i))
    || (exists i: nat, t: nat :: UniteStep(before, after, i, t))
  }

  ghost predicate MergeRun(run: seq<seq<Rect>>) {
    run != [] && forall k: nat :: k + 1 < |run| ==> MergeStep(run[k], run[k + 1])
  }

  // ------------------------------------------------------------ what a step keeps

  lemma WithoutFacts(boxes: seq<Rect>, i: nat)
    requires i < |boxes| && Separate(boxes)
    ensures |Without(boxes, i)| == |boxes| - 1 && Separate(Without(boxes, i))
    ensures forall b :: b in Without(boxes, i) <==> b in boxes && b != boxes[i]
  {
    var r := Without(boxes, i);
    forall b
      ensures b in r <==> b in boxes && b != boxes[i]
    {
      if b in boxes && b != boxes[i] {
        var j: nat :| j < |boxes| && boxes[j] == b;
        if j < i { assert r[j] == b; } else { assert r[j - 1] == b; }
      }
    }
    forall j, k | 0 <= j < k < |r|
      ensures r[j] != r[k]
    {
      assert r[j] == boxes[if j < i then j else j + 1];
      assert r[k] == boxes[if k < i then k else k + 1];
    }
  }

  lemma WithoutBothFacts(boxes: seq<Rect>, i: nat, t: nat)
    requires i < |boxes| && t < |boxes| && i != t && Separate(boxes)
    ensures |WithoutBoth(boxes, i, t)| == |boxes| - 2 && Separate(WithoutBoth(boxes, i, t))
    ensures forall b :: b in WithoutBoth(boxes, i, t) <==> b in boxes && b != boxes[i] && b != boxes[t]
  {
    var (low, high) := if i < t then (i, t) else (t, i);
    WithoutFacts(boxes, high);
    assert Without(boxes, high)[low] == boxes[low];
    WithoutFacts(Without(boxes, high), low);
  }

  lemma UnionContains(a: Rect, b: Rect)
    ensures UnionRect(a, b).Contains(a) && UnionRect(a, b).Contains(b)
    ensures a.Proper() && b.Proper() ==> UnionRect(a, b).Proper()
    ensures forall c: Rect :: c.Contains(a) && c.Contains(b) ==> c.Contains(UnionRect(a, b))
  {
  }

  /** The smallest box has the fewest cells; of equally small ones it comes first by its corners, and of equal ones by
      its place. */
  lemma SmallestMeans(boxes: seq<Rect>, i: nat, j: nat)
    requires IsSmallest(boxes, i) && j < |boxes|
    ensures boxes[i].Area() <= boxes[j].Area()
    ensures boxes[i].Area() == boxes[j].Area() ==> Before(boxes[i], boxes[j]) || (boxes[i] == boxes[j] && i <= j)
  {
    hide Rect.Area;
  }

  /** The box a smallest one joins is one whose union with it meets no third box and takes in the fewest other cells, the
      last of equally good ones. */
  lemma BestTargetMeans(boxes: seq<Rect>, i: nat, t: nat, u: nat)
    requires IsBestTarget(boxes, i, t) && LegalTarget(boxes, i, u)
    ensures i < |boxes| && t < |boxes| && u < |boxes|
    ensures var more, other := UnionRect(boxes[i], boxes[t]).Area() - boxes[i].Area() - boxes[t].Area(),
                               UnionRect(boxes[i], boxes[u]).Area() - boxes[i].Area() - boxes[u].Area();
            more < other || (more == other && u <= t)
  {
    hide Rect.Area, UnionRect;
  }

  /** A step leaves one box fewer, still separate, and loses no cell but those of a dropped box. */
  ghost predicate Keeps(before: seq<Rect>, after: seq<Rect>) {
    && AllProper(after) && Separate(after) && |after| == |before| - 1
    && forall x, y :: Covers(before, x, y) ==>
         Covers(after, x, y) || exists i: nat :: DropStep(before, after, i) && before[i].Has(x, y)
  }

  lemma DropKeeps(before: seq<Rect>, after: seq<Rect>, i: nat)
    requires AllProper(before) && Separate(before) && DropStep(before, after, i)
    ensures Keeps(before, after)
  {
    WithoutFacts(before, i);
    forall x, y | Covers(before, x, y)
      ensures Covers(after, x, y) || before[i].Has(x, y)
    {
      var b :| b in before && b.Has(x, y);
      if b != before[i] { assert b in after; }
    }
  }

  /** A box apart from all boxes of a list joins it. */
  lemma AppendSeparate(rest: seq<Rect>, b: Rect)
    requires AllProper(rest) && Separate(rest) && b.Proper()
    requires forall c :: c in rest ==> !Intersects(c, b) && !Intersects(b, c)
    ensures AllProper(rest + [b]) && Separate(rest + [b])
  {
    var all := rest + [b];
    assert forall c :: c in all <==> c in rest || c == b;
    assert b !in rest;
    forall i, j | 0 <= i < j < |all|
      ensures all[i] != all[j]
    {
      assert all[i] in rest;
    }
  }

  lemma UniteSeparate(before: seq<Rect>, i: nat, t: nat)
    requires AllProper(before) && Separate(before) && LegalTarget(before, i, t)
    ensures var union := UnionRect(before[i], before[t]);
            var after := WithoutBoth(before, i, t) + [union];
            AllProper(after) && Separate(after) && |after| == |before| - 1
  {
    var union := UnionRect(before[i], before[t]);
    var rest := WithoutBoth(before, i, t);
    WithoutBothFacts(before, i, t);
    UnionContains(before[i], before[t]);
    forall b | b in rest
      ensures !Intersects(b, union) && !Intersects(union, b)
    {
      var j: nat :| j < |before| && before[j] == b;
      assert j != i && j != t;
    }
    AppendSeparate(rest, union);
  }

  lemma UniteKeeps(before: seq<Rect>, after: seq<Rect>, i: nat, t: nat)
    requires AllProper(before) && Separate(before) && UniteStep(before, after, i, t)
    ensures Keeps(before, after)
  {
    UniteSeparate(before, i, t);
    WithoutBothFacts(before, i, t);
    var union := UnionRect(before[i], before[t]);
    UnionContains(before[i], before[t]);
    forall x, y | Covers(before, x, y)
      ensures Covers(after, x, y)
    {
      var b :| b in before && b.Has(x, y);
      if b == before[i] || b == before[t] {
        assert union in after && union.Has(x, y);
      } else {
        assert b in after;
      }
    }
  }

  lemma StepKeeps(before: seq<Rect>, after: seq<Rect>)
    requires AllProper(before) && Separate(before) && MergeStep(before, after)
    ensures Keeps(before, after)
  {
    hide DropStep, UniteStep, Keeps;
    if i: nat :| DropStep(before, after, i) {
      DropKeeps(before, after, i);
    } else {
      var i: nat, t: nat :| UniteStep(before, after, i, t);
      UniteKeeps(before, after, i, t);
    }
  }

  /** Some box of the run that has the cell was dropped for want of a neighbour. */
  ghost predicate WasDropped(run: seq<seq<Rect>>, x: int, y: int) {
    exists k: nat, i: nat :: k + 1 < |run| && DropStep(run[k], run[k + 1], i) && run[k][i].Has(x, y)
  }

  /** Over a whole run: one box fewer per step, always separate, and every covered cell stays covered
      unless it lay in a dropped box. */
  lemma {:induction false} RunKeeps(run: seq<seq<Rect>>)
    requires MergeRun(run) && AllProper(run[0]) && Separate(run[0])
    ensures AllProper(run[|run| - 1]) && Separate(run[|run| - 1])
    ensures |run[|run| - 1]| == |run[0]| - (|run| - 1)
    ensures forall x, y :: Covers(run[0], x, y) ==> Covers(run[|run| - 1], x, y) || WasDropped(run, x, y)
  {
    if |run| > 1 {
      var n := |run| - 1;
      var shorter := run[..n];
      forall k: nat | k + 1 < |shorter|
        ensures MergeStep(shorter[k], shorter[k + 1])
      {
        assert MergeStep(run[k], run[k + 1]);
      }
      RunKeeps(shorter);
      assert MergeStep(run[n - 1], run[n - 1 + 1]);
      StepKeeps(run[n - 1], run[n]);
      forall x, y | Covers(run[0], x, y)
        ensures Covers(run[n], x, y) || WasDropped(run, x, y)
      {
        LaterCover(run, x, y);
      }
    }
  }

  lemma LaterCover(run: seq<seq<Rect>>, x: int, y: int)
    requires |run| > 1 && Keeps(run[|run| - 2], run[|run| - 1])
    requires Covers(run[..|run| - 1][|run| - 2], x, y) || WasDropped(run[..|run| - 1], x, y)
    ensures Covers(run[|run| - 1], x, y) || WasDropped(run, x, y)
  {
    var n := |run| - 1;
    var shorter := run[..n];
    if WasDropped(shorter, x, y) {
      var k: nat, i: nat :| k + 1 < |shorter| && DropStep(shorter[k], shorter[k + 1], i) && shorter[k][i].Has(x, y);
      assert DropStep(run[k], run[k + 1], i) && run[k][i].Has(x, y);
    } else {
      assert Covers(run[n - 1], x, y);
      if !Covers(run[n], x, y) {
        var i: nat :| DropStep(run[n - 1], run[n], i) && run[n - 1][i].Has(x, y);
        assert DropStep(run[n - 1], run[n - 1 + 1], i);
      }
    }
  }

  // ------------------------------------------------------------------------- the loop

  lemma SmallerIsTotal(a: Rect, b: Rect, c: Rect)
    ensures !Smaller(a, a)
    ensures a == b || Smaller(a, b) || Smaller(b, a)
    ensures Smaller(a, b) && Smaller(b, c) ==> Smaller(a, c)
  {
    hide Rect.Area;
  }

  method FindSmallest(boxes: seq<Rect>) returns (index: nat)
    requires boxes != []
    ensures IsSmallest(boxes, index)
  {
    hide Smaller;
    index := 0;
    SmallerIsTotal(boxes[0], boxes[0], boxes[0]);
    for i := 1 to |boxes|
      invariant index < i
      invariant forall j: nat :: j < i ==> !Smaller(boxes[j], boxes[index])
      invariant forall j: nat :: j < index ==> Smaller(boxes[index], boxes[j])
    {
      forall j: nat | j < i
        ensures Smaller(boxes[i], boxes[index]) ==> Smaller(boxes[i], boxes[j]) && !Smaller(boxes[j], boxes[i])
      {
        SmallerIsTotal(boxes[i], boxes[index], boxes[j]);
        SmallerIsTotal(boxes[index], boxes[j], boxes[i]);
        SmallerIsTotal(boxes[i], boxes[j], boxes[i]);
      }
      SmallerIsTotal(boxes[i], boxes[i], boxes[i]);
      if Smaller(boxes[i], boxes[index]) {
        index := i;
      }
    }
  }

  method IsLegalTarget(boxes: seq<Rect>, i: nat, t: nat) returns (legal: bool)
    requires i < |boxes| && t < |boxes| && i != t
    ensures legal <==> LegalTarget(boxes, i, t)
  {
    var union := UnionRect(boxes[i], boxes[t]);
    for j := 0 to |boxes|
      invariant forall k: nat :: k < j && k != i && k != t ==> !Intersects(union, boxes[k])
    {
      if j != i && j != t && Intersects(union, boxes[j]) {
        return false;
      }
    }
    return true;
  }

  method FindTarget(boxes: seq<Rect>, index: nat) returns (target: Option<nat>)
    requires index < |boxes|
    ensures target.None? ==> forall t: nat :: !LegalTarget(boxes, index, t)
    ensures target.Some? ==> IsBestTarget(boxes, index, target.value)
  {
    hide LegalTarget, Waste;
    target := None;
    LegalIsInside(boxes, index);
    for other := 0 to |boxes|
      invariant target.None? ==> forall t: nat :: t < other ==> !LegalTarget(boxes, index, t)
      invariant target.Some? ==> target.value < other && LegalTarget(boxes, index, target.value)
      invariant target.Some? ==> forall u: nat :: u < other && LegalTarget(boxes, index, u) ==>
                  Waste(boxes, index, target.value) < Waste(boxes, index, u)
                  || (Waste(boxes, index, target.value) == Waste(boxes, index, u) && u <= target.value)
    {
      if other != index {
        var legal := IsLegalTarget(boxes, index, other);
        if legal && (target.None? || Waste(boxes, index, other) <= Waste(boxes, index, target.value)) {
          target := Some(other);
        }
      }
    }
  }

  lemma LegalIsInside(boxes: seq<Rect>, index: nat)
    ensures forall t: nat :: LegalTarget(boxes, index, t) ==> t < |boxes| && t != index
  {
  }

  /** Merge until at most `slots` boxes are left; `run` is the way there. */
  method MergeToSlots(boxes0: seq<Rect>, slots: nat) returns (result: seq<Rect>, ghost run: seq<seq<Rect>>)
    requires AllProper(boxes0) && Separate(boxes0)
    ensures MergeRun(run) && run[0] == boxes0
    ensures |run[|run| - 1]| == if |boxes0| > slots then slots else |boxes0|
    ensures result == SortBoxes(ByPlace, run[|run| - 1])
    ensures |result| == (if |boxes0| > slots then slots else |boxes0|) && AllProper(result) && Separate(result)
  {
    hide *;
    var boxes := boxes0;
    run := [boxes];
    StartRun(boxes);
    while |boxes| > slots
      invariant MergeRun(run) && run != [] && run[0] == boxes0 && run[|run| - 1] == boxes
      invariant AllProper(boxes) && Separate(boxes)
      invariant |boxes0| > slots ==> |boxes| >= slots
      invariant |boxes0| <= slots ==> boxes == boxes0
      decreases |boxes|
    {
      var index := FindSmallest(boxes);
      SmallestInside(boxes, index);
      var target := FindTarget(boxes, index);
      ghost var before := boxes;
      if target.None? {
        boxes := Without(boxes, index);
        IsDrop(before, boxes, index);
      } else {
        TargetInside(boxes, index, target.value);
        var merged := UnionRect(boxes[index], boxes[target.value]);
        boxes := WithoutBoth(boxes, index, target.value) + [merged];
        IsUnite(before, boxes, index, target.value);
      }
      StepKeepsParts(before, boxes);
      ExtendRun(run, boxes);
      run := run + [boxes];
    }
    result := SortBoxes(ByPlace, boxes);
    SeparatePermutation(result, boxes);
  }

  lemma StartRun(boxes: seq<Rect>)
    ensures MergeRun([boxes])
  {
  }

  lemma ExtendRun(run: seq<seq<Rect>>, boxes: seq<Rect>)
    requires MergeRun(run) && run != [] && MergeStep(run[|run| - 1], boxes)
    ensures MergeRun(run + [boxes])
  {
    forall k: nat | k + 1 < |run + [boxes]|
      ensures MergeStep((run + [boxes])[k], (run + [boxes])[k + 1])
    {
      if k + 1 < |run| {
        assert MergeStep(run[k], run[k + 1]);
      }
    }
  }

  lemma SmallestInside(boxes: seq<Rect>, i: nat)
    requires IsSmallest(boxes, i)
    ensures i < |boxes|
  {
  }

  lemma TargetInside(boxes: seq<Rect>, i: nat, t: nat)
    requires IsBestTarget(boxes, i, t)
    ensures t < |boxes| && t != i
  {
  }

  lemma IsDrop(before: seq<Rect>, after: seq<Rect>, i: nat)
    requires IsSmallest(before, i) && i < |before| && (forall t: nat :: !LegalTarget(before, i, t))
    requires after == Without(before, i)
    ensures MergeStep(before, after)
  {
    assert DropStep(before, after, i);
  }

  lemma IsUnite(before: seq<Rect>, after: seq<Rect>, i: nat, t: nat)
    requires IsSmallest(before, i) && IsBestTarget(before, i, t) && i < |before| && t < |before| && i != t
    requires after == WithoutBoth(before, i, t) + [UnionRect(before[i], before[t])]
    ensures MergeStep(before, after)
  {
    assert UniteStep(before, after, i, t);
  }

  lemma StepKeepsParts(before: seq<Rect>, after: seq<Rect>)
    requires AllProper(before) && Separate(before) && MergeStep(before, after)
    ensures AllProper(after) && Separate(after) && |after| == |before| - 1
  {
    StepKeeps(before, after);
  }
}
