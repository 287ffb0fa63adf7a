/** Families of pairwise separate rectangles, and the sorts that reorder them. */
module Tilings {

  import opened Finite
  import opened Rectangles

  predicate Intersects(a: Rect, b: Rect) {
    a.x0 < b.x1 && b.x0 < a.x1 && a.y0 < b.y1 && b.y0 < a.y1
  }

  /** The comparison decides whether two rectangles share a cell. */
  lemma IntersectsIsSharing(a: Rect, b: Rect)
    requires a.Proper() && b.Proper()
    ensures Intersects(a, b) <==> exists x, y :: a.Has(x, y) && b.Has(x, y)
  {
    if Intersects(a, b) {
      var x, y := if a.x0 < b.x0 then b.x0 else a.x0, if a.y0 < b.y0 then b.y0 else a.y0;
      assert a.Has(x, y) && b.Has(x, y);
    }
  }

  ghost predicate AllProper(boxes: seq<Rect>) {
    forall b :: b in boxes ==> b.Proper()
  }

  ghost predicate Separate(boxes: seq<Rect>) {
    Distinct(boxes) && forall a, b :: a in boxes && b in boxes && a != b ==> !Intersects(a, b)
  }

  ghost predicate Covers(boxes: seq<Rect>, x: int, y: int) {
    exists b :: b in boxes && b.Has(x, y)
  }

  /** Every cell in exactly one box, and no other cell in any. */
  ghost predicate Tiles(boxes: seq<Rect>, cells: set<Cell>) {
    && AllProper(boxes) && Separate(boxes)
    && forall x, y :: (x, y) in cells <==> Covers(boxes, x, y)
  }

  /** In a tiling a cell lies in one box only. */
  lemma TilesOnce(boxes: seq<Rect>, cells: set<Cell>, i: nat, j: nat, x: int, y: int)
    requires Tiles(boxes, cells) && i < |boxes| && j < |boxes|
    requires boxes[i].Has(x, y) && boxes[j].Has(x, y)
    ensures i == j
  {
    IntersectsIsSharing(boxes[i], boxes[j]);
  }

  lemma SeparatePermutation(a: seq<Rect>, b: seq<Rect>)
    requires multiset(a) == multiset(b)
    ensures |a| == |b| && forall x :: x in a <==> x in b
    ensures Separate(a) <==> Separate(b)
    ensures AllProper(a) <==> AllProper(b)
    ensures forall x, y :: Covers(a, x, y) <==> Covers(b, x, y)
  {
    SamePermutation(a, b);
  }

  lemma TilesPermutation(a: seq<Rect>, b: seq<Rect>, cells: set<Cell>)
    requires multiset(a) == multiset(b) && Tiles(a, cells)
    ensures |a| == |b| && Tiles(b, cells)
  {
    SeparatePermutation(a, b);
  }

  /** Separate families inside separate boxes are separate together. */
  lemma JoinSeparate(p: seq<Rect>, q: seq<Rect>, a: Rect, b: Rect)
    requires Separate(p) && Separate(q) && AllProper(p) && AllProper(q) && !Intersects(a, b)
    requires forall r :: r in p ==> a.Contains(r)
    requires forall r :: r in q ==> b.Contains(r)
    ensures Separate(p + q) && AllProper(p + q)
  {
    var all := p + q;
    forall x, y | x in p && y in q
      ensures !Intersects(x, y) && !Intersects(y, x) && x != y
    {
      InsideApart(a, b, x, y);
    }
    forall i, j | 0 <= i < j < |all|
      ensures all[i] != all[j]
    {
      if i < |p| <= j {
        assert all[i] in p && all[j] in q;
      } else if j < |p| {
        assert p[i] != p[j];
      } else {
        assert q[i - |p|] != q[j - |p|];
      }
    }
  }

  lemma InsideApart(a: Rect, b: Rect, x: Rect, y: Rect)
    requires a.Contains(x) && b.Contains(y) && x.Proper() && y.Proper() && !Intersects(a, b)
    ensures !Intersects(x, y) && !Intersects(y, x) && x != y
  {
  }

  // ------------------------------------------------------------------------ sorts

  datatype Order = BySize | ByPlace

  /** `BySize` puts larger boxes first; ties, and `ByPlace`, go by coordinates. */
  predicate Precedes(order: Order, a: Rect, b: Rect) {
    match order
    case BySize => a.Area() > b.Area() || (a.Area() == b.Area() && Before(a, b))
    case ByPlace => Before(a, b)
  }

  function InsertBox(order: Order, box: Rect, sorted: seq<Rect>): (r: seq<Rect>)
    ensures multiset(r) == multiset{box} + multiset(sorted)
  {
    if sorted == [] || !Precedes(order, sorted[0], box) then [box] + sorted
    else
      assert sorted == [sorted[0]] + sorted[1..];
      [sorted[0]] + InsertBox(order, box, sorted[1..])
  }

  function SortBoxes(order: Order, boxes: seq<Rect>): (r: seq<Rect>)
    ensures multiset(r) == multiset(boxes)
  {
    if boxes == [] then []
    else
      assert boxes == [boxes[0]] + boxes[1..];
      InsertBox(order, boxes[0], SortBoxes(order, boxes[1..]))
  }

  ghost predicate InOrder(order: Order, s: seq<Rect>) {
    forall i, j :: 0 <= i < j < |s| ==> !Precedes(order, s[j], s[i])
  }

  lemma {:induction false} InsertKeepsSorted(order: Order, box: Rect, sorted: seq<Rect>)
    requires InOrder(order, sorted)
    ensures InOrder(order, InsertBox(order, box, sorted))
  {
    hide Precedes;
    var r := InsertBox(order, box, sorted);
    if sorted == [] {
    } else if !Precedes(order, sorted[0], box) {
      forall j | 0 < j < |r|
        ensures !Precedes(order, r[j], box)
      {
        if j > 1 {
          PrecedesOrNot(order, sorted[j - 1], sorted[0], box);
        }
      }
    } else {
      var rest := InsertBox(order, box, sorted[1..]);
      InsertKeepsSorted(order, box, sorted[1..]);
      forall j | 0 < j < |r|
        ensures !Precedes(order, r[j], r[0])
      {
        assert r[j] == rest[j - 1] && r[j] in multiset(rest);
        if r[j] == box {
          PrecedesOrNot(order, box, sorted[0], sorted[0]);
          PrecedesAntisymmetric(order, sorted[0], box);
        } else {
          assert r[j] in sorted[1..];
        }
      }
    }
  }

  lemma PrecedesOrNot(order: Order, a: Rect, b: Rect, c: Rect)
    ensures !Precedes(order, a, b) && !Precedes(order, b, c) ==> !Precedes(order, a, c)
  {
    hide Rect.Area;
  }

  lemma PrecedesAntisymmetric(order: Order, a: Rect, b: Rect)
    ensures Precedes(order, a, b) ==> !Precedes(order, b, a)
  {
    hide Rect.Area;
  }

  lemma {:induction false} SortIsSorted(order: Order, boxes: seq<Rect>)
    ensures InOrder(order, SortBoxes(order, boxes))
  {
    if boxes != [] {
      SortIsSorted(order, boxes[1..]);
      InsertKeepsSorted(order, boxes[0], SortBoxes(order, boxes[1..]));
    }
  }

  /** By size the largest come first and equally large ones by their corners; by place only the corners count. */
  lemma SortedMeans(order: Order, boxes: seq<Rect>, i: nat, j: nat)
    requires i < j < |SortBoxes(order, boxes)|
    ensures var s := SortBoxes(order, boxes);
            && (order == BySize ==> s[i].Area() > s[j].Area() || (s[i].Area() == s[j].Area() && (Before(s[i], s[j]) || s[i] == s[j])))
            && (order == ByPlace ==> Before(s[i], s[j]) || s[i] == s[j])
  {
    hide Rect.Area, SortBoxes;
    SortIsSorted(order, boxes);
    assert !Precedes(order, SortBoxes(order, boxes)[j], SortBoxes(order, boxes)[i]);
  }
}
