/** The largest free rectangle of a bit mask, found row by row with a monotone stack.

    Rectangles are half-open.  `Better` is the order the search maximises: area, then the
    shorter side, then the smaller coordinates.  A rectangle that contains another is
    never worse, so it is enough that the stack offers some rectangle around every free one.
  */
module Rectangles {

  import opened Finite

  datatype Rect = Rect(x0: int, y0: int, x1: int, y1: int) {
    function Width(): int { x1 - x0 }
    function Height(): int { y1 - y0 }
    function Area(): int { Width() * Height() }
    function ShorterSide(): int { if Width() < Height() then Width() else Height() }
    ghost predicate Proper() { x0 < x1 && y0 < y1 }
    ghost predicate Has(x: int, y: int) { x0 <= x < x1 && y0 <= y < y1 }
    ghost predicate Contains(r: Rect) { x0 <= r.x0 && r.x1 <= x1 && y0 <= r.y0 && r.y1 <= y1 }
  }

  type Cell = (int, int)

  ghost function CellsOf(r: Rect): set<Cell> {
    set x, y | r.x0 <= x < r.x1 && r.y0 <= y < r.y1 :: (x, y)
  }

  /** All of `r` is free. */
  ghost predicate IsFree(cells: set<Cell>, r: Rect) {
    r.Proper() && forall x, y :: r.Has(x, y) ==> (x, y) in cells
  }

  // ----------------------------------------------------------------- the order

  /** The coordinates of `a` come before those of `b`. */
  predicate Before(a: Rect, b: Rect) {
    || a.x0 < b.x0
    || (a.x0 == b.x0 && a.y0 < b.y0)
    || (a.x0 == b.x0 && a.y0 == b.y0 && a.x1 < b.x1)
    || (a.x0 == b.x0 && a.y0 == b.y0 && a.x1 == b.x1 && a.y1 < b.y1)
  }

  predicate Better(a: Rect, b: Rect) {
    || a.Area() > b.Area()
    || (a.Area() == b.Area() && a.ShorterSide() > b.ShorterSide())
    || (a.Area() == b.Area() && a.ShorterSide() == b.ShorterSide() && Before(a, b))
  }

  /** `Better` is a strict total order. */
  lemma BetterIsTotal(a: Rect, b: Rect, c: Rect)
    ensures !Better(a, a)
    ensures a == b || Better(a, b) || Better(b, a)
    ensures Better(a, b) && Better(b, c) ==> Better(a, c)
  {
    hide Rect.Area;
  }

  lemma WiderProduct(w: int, w': int, h: int)
    requires 0 < w <= w' && 0 < h
    ensures w * h <= w' * h
    ensures w < w' ==> w * h < w' * h
  {
    assert w' * h - w * h == (w' - w) * h;
  }

  lemma LargerProduct(w: int, h: int, w': int, h': int)
    requires 0 < w <= w' && 0 < h <= h'
    ensures w * h <= w' * h'
    ensures w * h == w' * h' ==> w == w' && h == h'
  {
    WiderProduct(w, w', h);
    WiderProduct(h, h', w');
    assert h * w' == w' * h && h' * w' == w' * h';
  }

  /** A rectangle is at least as good as any it contains. */
  lemma ContainerIsNoWorse(r: Rect, inner: Rect)
    requires inner.Proper() && r.Contains(inner)
    ensures !Better(inner, r)
  {
    LargerProduct(inner.Width(), inner.Height(), r.Width(), r.Height());
    if inner.Area() == r.Area() {
      assert inner == r;
    }
    hide Rect.Area;
  }

  // ------------------------------------------------------------- one row of the scan

  /** The rectangle of columns `l` to `r` and height `h` that stands on row `row`. */
  function Standing(row: int, l: int, r: int, h: int): Rect {
    Rect(l, row + 1 - h, r, row + 1)
  }

  /** Every column from `l` to `r` is at least `h` high. */
  ghost predicate Fits(heights: seq<nat>, l: nat, r: nat, h: nat) {
    l < r <= |heights| && h > 0 && forall x :: l <= x < r ==> heights[x] >= h
  }

  /** `best` is at least as good as `r`. */
  ghost predicate Matches(best: Option<Rect>, r: Rect) {
    best.Some? && !Better(r, best.value)
  }

  datatype Bar = Bar(left: nat, height: nat)

  ghost predicate StackOk(heights: seq<nat>, col: nat, stack: seq<Bar>) {
    && col <= |heights|
    && (forall k: nat :: k < |stack| ==> Fits(heights, stack[k].left, col, stack[k].height))
    && (forall j: nat, k: nat :: j < k < |stack| ==> stack[j].left < stack[k].left && stack[j].height < stack[k].height)
  }

  /** Some bar of the stack reaches at least as far left and at least as high. */
  ghost predicate Offered(stack: seq<Bar>, l: nat, h: nat) {
    exists k: nat :: k < |stack| && stack[k].left <= l && stack[k].height >= h
  }

  /** Every rectangle that ends at or before `col` is matched or still on offer. */
  ghost predicate AllMatched(heights: seq<nat>, row: int, col: nat, stack: seq<Bar>, best: Option<Rect>) {
    forall l: nat, r: nat, h: nat :: r <= col && Fits(heights, l, r, h) ==>
      Matches(best, Standing(row, l, r, h)) || Offered(stack, l, h)
  }

  /** Every rectangle of height at most `h0` that reaches `col` is on offer, or starts at `start` or later. */
  ghost predicate AllOpenOffered(heights: seq<nat>, col: nat, stack: seq<Bar>, h0: nat, start: nat) {
    forall l: nat, h: nat :: h <= h0 && Fits(heights, l, col, h) ==> Offered(stack, l, h) || start <= l
  }

  /** `best` is the old best or stands on this row, and only improves. */
  ghost predicate FromRow(heights: seq<nat>, row: int, before: Option<Rect>, best: Option<Rect>) {
    && (before.Some? ==> Matches(best, before.value))
    && (best == before
        || exists l: nat, r: nat, h: nat :: Fits(heights, l, r, h) && best == Some(Standing(row, l, r, h)))
  }

  function Pick(best: Option<Rect>, r: Rect): Option<Rect> {
    if best.None? || Better(r, best.value) then Some(r) else best
  }

  lemma PickMatches(best: Option<Rect>, r: Rect, other: Rect)
    ensures Matches(Pick(best, r), r)
    ensures Matches(best, other) ==> Matches(Pick(best, r), other)
  {
    hide Rect.Area, Better;
    BetterIsTotal(r, r, r);
    if best.Some? {
      BetterIsTotal(other, r, best.value);
      BetterIsTotal(r, best.value, other);
    }
  }

  /** Popping the top bar as its rectangle ends here. */
  lemma Popped(heights: seq<nat>, row: int, col: nat, stack: seq<Bar>, before: Option<Rect>, best: Option<Rect>)
    requires StackOk(heights, col, stack) && stack != []
    requires AllMatched(heights, row, col, stack, best) && FromRow(heights, row, before, best)
    ensures var n := |stack| - 1;
            var best' := Pick(best, Standing(row, stack[n].left, col, stack[n].height));
            && StackOk(heights, col, stack[..n])
            && AllMatched(heights, row, col, stack[..n], best') && FromRow(heights, row, before, best')
  {
    hide Better, Rect.Area;
    var n := |stack| - 1;
    var box := Standing(row, stack[n].left, col, stack[n].height);
    var best' := Pick(best, box);
    forall l: nat, r: nat, h: nat | r <= col && Fits(heights, l, r, h)
      ensures Matches(best', Standing(row, l, r, h)) || Offered(stack[..n], l, h)
    {
      var inner := Standing(row, l, r, h);
      PickMatches(best, box, inner);
      if !Matches(best, inner) {
        var k: nat :| k < |stack| && stack[k].left <= l && stack[k].height >= h;
        if k == n {
          ContainerIsNoWorse(box, inner);
          BetterThanContainer(best', box, inner);
        } else {
          assert stack[..n][k] == stack[k];
        }
      }
    }
    if before.Some? {
      PickMatches(best, box, before.value);
    }
    assert Fits(heights, stack[n].left, col, stack[n].height);
  }

  lemma BetterThanContainer(best: Option<Rect>, box: Rect, inner: Rect)
    requires Matches(best, box) && !Better(inner, box)
    ensures Matches(best, inner)
  {
    hide Rect.Area, Better;
    BetterIsTotal(inner, best.value, box);
    BetterIsTotal(box, inner, best.value);
  }

  lemma PoppedOpen(heights: seq<nat>, col: nat, stack: seq<Bar>, h0: nat, start: nat)
    requires StackOk(heights, col, stack) && stack != [] && stack[|stack| - 1].left < start
    requires AllOpenOffered(heights, col, stack, h0, start)
    ensures AllOpenOffered(heights, col, stack[..|stack| - 1], h0, stack[|stack| - 1].left)
  {
    var n := |stack| - 1;
    forall l: nat, h: nat | h <= h0 && Fits(heights, l, col, h)
      ensures Offered(stack[..n], l, h) || stack[n].left <= l
    {
      if Offered(stack, l, h) {
        var k: nat :| k < |stack| && stack[k].left <= l && stack[k].height >= h;
        if k < n {
          assert stack[..n][k] == stack[k];
        }
      }
    }
  }

  /** Every rectangle that reaches `col` is on offer. */
  ghost predicate AllOpen(heights: seq<nat>, col: nat, stack: seq<Bar>) {
    forall l: nat, h: nat :: Fits(heights, l, col, h) ==> Offered(stack, l, h)
  }

  /** The stack once a bar of height `h` starting at `start` is there, if it is not already. */
  function WithBar(stack: seq<Bar>, start: nat, h: nat): seq<Bar> {
    if h > 0 && (stack == [] || stack[|stack| - 1].height < h) then stack + [Bar(start, h)] else stack
  }

  lemma OfferedStays(stack: seq<Bar>, start: nat, h0: nat, l: nat, h: nat)
    requires Offered(stack, l, h)
    ensures Offered(WithBar(stack, start, h0), l, h)
  {
    var k: nat :| k < |stack| && stack[k].left <= l && stack[k].height >= h;
    assert WithBar(stack, start, h0)[k] == stack[k];
  }

  /** What holds in column `col` once all bars higher than its height are popped. */
  ghost predicate Trimmed(heights: seq<nat>, col: nat, stack: seq<Bar>, start: nat) {
    && col < |heights| && start <= col && StackOk(heights, col, stack)
    && (forall k: nat :: k < |stack| ==> stack[k].left < start && stack[k].height <= heights[col])
    && (forall x :: start <= x < col ==> heights[x] >= heights[col])
    && AllOpenOffered(heights, col, stack, heights[col], start)
  }

  lemma NextStack(heights: seq<nat>, col: nat, stack: seq<Bar>, start: nat)
    requires Trimmed(heights, col, stack, start)
    ensures StackOk(heights, col + 1, WithBar(stack, start, heights[col]))
  {
    hide AllOpenOffered;
    var stack' := WithBar(stack, start, heights[col]);
    forall k: nat | k < |stack'|
      ensures Fits(heights, stack'[k].left, col + 1, stack'[k].height)
    {
      if k < |stack| {
        StillFits(heights, col, stack, start, k);
      }
    }
  }

  lemma StillFits(heights: seq<nat>, col: nat, stack: seq<Bar>, start: nat, k: nat)
    requires Trimmed(heights, col, stack, start) && k < |stack|
    ensures Fits(heights, stack[k].left, col + 1, stack[k].height)
  {
    assert Fits(heights, stack[k].left, col, stack[k].height);
  }

  lemma NextOpen(heights: seq<nat>, col: nat, stack: seq<Bar>, start: nat)
    requires Trimmed(heights, col, stack, start)
    ensures AllOpen(heights, col + 1, WithBar(stack, start, heights[col]))
  {
    var stack' := WithBar(stack, start, heights[col]);
    forall l: nat, h: nat | Fits(heights, l, col + 1, h)
      ensures Offered(stack', l, h)
    {
      assert heights[col] >= h;
      if start <= l {
        var last := |stack'| - 1;
        assert stack'[last].left <= l && stack'[last].height >= h;
      } else {
        assert Fits(heights, l, col, h);
        OfferedStays(stack, start, heights[col], l, h);
      }
    }
  }

  lemma NextMatched(heights: seq<nat>, row: int, col: nat, stack: seq<Bar>, start: nat, best: Option<Rect>)
    requires Trimmed(heights, col, stack, start) && AllMatched(heights, row, col, stack, best)
    ensures AllMatched(heights, row, col + 1, WithBar(stack, start, heights[col]), best)
  {
    hide Better;
    NextOpen(heights, col, stack, start);
    forall l: nat, r: nat, h: nat | r <= col + 1 && Fits(heights, l, r, h)
      ensures Matches(best, Standing(row, l, r, h)) || Offered(WithBar(stack, start, heights[col]), l, h)
    {
      if r <= col && !Matches(best, Standing(row, l, r, h)) {
        OfferedStays(stack, start, heights[col], l, h);
      }
    }
  }

  /** Scan one row of the histogram.  The result is at least as good as the old best and as every
      free rectangle that stands on the row. */
  method ScanRow(heights: seq<nat>, row: int, before: Option<Rect>) returns (best: Option<Rect>)
    ensures FromRow(heights, row, before, best)
    ensures forall l: nat, r: nat, h: nat :: Fits(heights, l, r, h) ==> Matches(best, Standing(row, l, r, h))
  {
    hide *;
    best := before;
    var stack: seq<Bar> := [];
    // The scan runs one column past the end, where the height is zero.
    ghost var padded := heights + [0];
    StartRow(padded, row, before);
    for col := 0 to |heights| + 1
      invariant StackOk(padded, col, stack) && AllOpen(padded, col, stack)
      invariant AllMatched(padded, row, col, stack, best) && FromRow(padded, row, before, best)
    {
      var height := if col < |heights| then heights[col] else 0;
      var start: nat := col;
      assert height == padded[col];
      StartColumn(padded, col, stack);
      while stack != [] && stack[|stack| - 1].height > height
        invariant StackOk(padded, col, stack) && LeftOf(stack, start) && start <= col
        invariant forall x :: start <= x < col ==> padded[x] >= height
        invariant AllOpenOffered(padded, col, stack, height, start)
        invariant AllMatched(padded, row, col, stack, best) && FromRow(padded, row, before, best)
        decreases |stack|
      {
        var n := |stack| - 1;
        PopFacts(padded, col, stack, start);
        Popped(padded, row, col, stack, before, best);
        PoppedOpen(padded, col, stack, height, start);
        best := Pick(best, Standing(row, stack[n].left, col, stack[n].height));
        start := stack[n].left;
        stack := stack[..n];
      }
      IsTrimmed(padded, col, stack, start);
      NextStack(padded, col, stack, start);
      NextOpen(padded, col, stack, start);
      NextMatched(padded, row, col, stack, start, best);
      stack := WithBar(stack, start, height);
    }
    Unpad(heights, row, stack, before, best);
  }

  lemma LastColumnCarries(heights: seq<nat>, col: nat, stack: seq<Bar>)
    requires StackOk(heights, col, stack) && stack != []
    ensures 0 < col <= |heights| && heights[col - 1] > 0
  {
    assert Fits(heights, stack[0].left, col, stack[0].height);
  }

  /** Past the padding the stack is empty, and the padding adds no rectangle. */
  lemma Unpad(heights: seq<nat>, row: int, stack: seq<Bar>, before: Option<Rect>, best: Option<Rect>)
    requires StackOk(heights + [0], |heights| + 1, stack)
    requires AllMatched(heights + [0], row, |heights| + 1, stack, best) && FromRow(heights + [0], row, before, best)
    ensures FromRow(heights, row, before, best)
    ensures forall l: nat, r: nat, h: nat :: Fits(heights, l, r, h) ==> Matches(best, Standing(row, l, r, h))
  {
    hide Better;
    var padded := heights + [0];
    assert padded[|heights|] == 0;
    if stack != [] {
      LastColumnCarries(padded, |padded|, stack);
    }
    forall l: nat, r: nat, h: nat | Fits(heights, l, r, h)
      ensures Matches(best, Standing(row, l, r, h))
    {
      assert Fits(padded, l, r, h);
    }
    if best != before {
      var l: nat, r: nat, h: nat :| Fits(padded, l, r, h) && best == Some(Standing(row, l, r, h));
      assert padded[r - 1] >= h && padded[|heights|] == 0;
      assert forall x :: l <= x < r ==> heights[x] == padded[x];
      assert Fits(heights, l, r, h);
    }
  }

  /** All bars start left of `start`. */
  ghost predicate LeftOf(stack: seq<Bar>, start: nat) {
    forall k: nat :: k < |stack| ==> stack[k].left < start
  }

  lemma StartRow(heights: seq<nat>, row: int, before: Option<Rect>)
    ensures StackOk(heights, 0, []) && AllOpen(heights, 0, []) && AllMatched(heights, row, 0, [], before)
    ensures FromRow(heights, row, before, before)
  {
    if before.Some? {
      BetterIsTotal(before.value, before.value, before.value);
    }
  }

  lemma StartColumn(heights: seq<nat>, col: nat, stack: seq<Bar>)
    requires col < |heights| && StackOk(heights, col, stack) && AllOpen(heights, col, stack)
    ensures LeftOf(stack, col) && AllOpenOffered(heights, col, stack, heights[col], col)
  {
  }

  lemma PopFacts(heights: seq<nat>, col: nat, stack: seq<Bar>, start: nat)
    requires StackOk(heights, col, stack) && stack != [] && LeftOf(stack, start)
    ensures var n := |stack| - 1;
            && stack[n].left < start && LeftOf(stack[..n], stack[n].left)
            && stack[n].left < col <= |heights|
            && forall x :: stack[n].left <= x < col ==> heights[x] >= stack[n].height
  {
    var n := |stack| - 1;
    assert Fits(heights, stack[n].left, col, stack[n].height);
  }

  lemma IsTrimmed(heights: seq<nat>, col: nat, stack: seq<Bar>, start: nat)
    requires col < |heights| && start <= col && StackOk(heights, col, stack) && LeftOf(stack, start)
    requires stack == [] || stack[|stack| - 1].height <= heights[col]
    requires forall x :: start <= x < col ==> heights[x] >= heights[col]
    requires AllOpenOffered(heights, col, stack, heights[col], start)
    ensures Trimmed(heights, col, stack, start)
  {
  }

  // -------------------------------------------------------------- the whole mask

  ghost predicate InGrid(cells: set<Cell>, cols: nat, rows: nat) {
    forall x, y :: (x, y) in cells ==> 0 <= x < cols && 0 <= y < rows
  }

  /** `heights[x]` counts the free cells of column `x` from `row` upwards, to the first blocked one. */
  ghost predicate HeightsAt(cells: set<Cell>, row: int, heights: seq<nat>) {
    forall x: nat :: x < |heights| ==>
      && heights[x] <= row + 1
      && (forall y :: row + 1 - heights[x] <= y <= row ==> (x, y) in cells)
      && (x, row - heights[x]) !in cells
  }

  /** A rectangle standing on the row is free exactly if the columns under it are high enough. */
  lemma StandingIsFree(cells: set<Cell>, cols: nat, rows: nat, row: int, heights: seq<nat>, l: nat, r: nat, h: nat)
    requires InGrid(cells, cols, rows) && HeightsAt(cells, row, heights) && |heights| == cols
    requires l < r && h > 0
    ensures IsFree(cells, Standing(row, l, r, h)) <==> Fits(heights, l, r, h)
  {
    var box := Standing(row, l, r, h);
    if IsFree(cells, box) {
      assert box.Has(r - 1, row);
      forall x | l <= x < r
        ensures heights[x] >= h
      {
        if heights[x] < h {
          assert box.Has(x, row - heights[x]);
        }
      }
    }
    if Fits(heights, l, r, h) {
      forall x, y | box.Has(x, y)
        ensures (x, y) in cells
      {
        assert heights[x] >= h;
      }
    }
  }

  /** `best` is the best of the free rectangles that stand on a row below `rows`. */
  ghost predicate BestBelow(cells: set<Cell>, row: int, best: Option<Rect>) {
    && (best.Some? ==> IsFree(cells, best.value))
    && forall r :: IsFree(cells, r) && r.y1 <= row ==> Matches(best, r)
  }

  lemma RowDone(cells: set<Cell>, cols: nat, rows: nat, row: nat, heights: seq<nat>, before: Option<Rect>, best: Option<Rect>)
    requires InGrid(cells, cols, rows) && HeightsAt(cells, row, heights) && |heights| == cols
    requires BestBelow(cells, row, before) && FromRow(heights, row, before, best)
    requires forall l: nat, r: nat, h: nat :: Fits(heights, l, r, h) ==> Matches(best, Standing(row, l, r, h))
    ensures BestBelow(cells, row + 1, best)
  {
    hide Better;
    forall r | IsFree(cells, r) && r.y1 <= row + 1
      ensures Matches(best, r)
    {
      if r.y1 <= row {
        BetterThanBefore(before, best, r);
      } else {
        assert r.Has(r.x0, r.y0);
        assert r == Standing(row, r.x0, r.x1, r.y1 - r.y0);
        StandingIsFree(cells, cols, rows, row, heights, r.x0, r.x1, r.y1 - r.y0);
      }
    }
    if best != before {
      var l: nat, r: nat, h: nat :| Fits(heights, l, r, h) && best == Some(Standing(row, l, r, h));
      StandingIsFree(cells, cols, rows, row, heights, l, r, h);
    }
  }

  lemma BetterThanBefore(before: Option<Rect>, best: Option<Rect>, r: Rect)
    requires Matches(before, r) && (before.Some? ==> Matches(best, before.value))
    ensures Matches(best, r)
  {
    hide Better, Rect.Area;
    BetterIsTotal(before.value, r, best.value);
    BetterIsTotal(r, before.value, best.value);
  }

  lemma HeightsStep(cells: set<Cell>, row: nat, heights: seq<nat>, heights': seq<nat>)
    requires |heights| == |heights'| && HeightsAt(cells, row - 1, heights)
    requires forall x: nat :: x < |heights| ==> heights'[x] == if (x, row) in cells then heights[x] + 1 else 0
    ensures HeightsAt(cells, row, heights')
  {
  }

  /** The free cells of a mask. */
  ghost function FreeCells(mask: array2<bool>): set<Cell>
    reads mask
  {
    set x: int, y: int | 0 <= x < mask.Length0 && 0 <= y < mask.Length1 && mask[x, y] :: (x, y)
  }

  /** `r` is a free rectangle, and no free rectangle is better. */
  ghost predicate IsLargest(cells: set<Cell>, r: Rect) {
    IsFree(cells, r) && forall other :: IsFree(cells, other) ==> !Better(other, r)
  }

  /** The largest free rectangle of a mask that has a free cell. */
  method LargestRectangle(mask: array2<bool>) returns (best: Option<Rect>)
    ensures best.None? <==> FreeCells(mask) == {}
    ensures best.Some? ==> IsLargest(FreeCells(mask), best.value)
  {
    hide *;
    ghost var cells := FreeCells(mask);
    var cols, rows := mask.Length0, mask.Length1;
    var heights: seq<nat> := seq(cols, x => 0);
    best := None;
    StartMask(mask, heights);
    for row := 0 to rows
      invariant |heights| == cols && HeightsAt(cells, row - 1, heights)
      invariant BestBelow(cells, row, best)
    {
      var taller: seq<nat> := [];
      for x := 0 to cols
        invariant |taller| == x
        invariant forall k: nat :: k < x ==> taller[k] == if mask[k, row] then heights[k] + 1 else 0
      {
        taller := taller + [if mask[x, row] then heights[x] + 1 else 0];
      }
      RowHeights(mask, row, heights, taller);
      heights := taller;
      var before := best;
      best := ScanRow(heights, row, before);
      RowDone(cells, cols, rows, row, heights, before, best);
    }
    MaskDone(mask, best);
  }

  lemma RowHeights(mask: array2<bool>, row: nat, heights: seq<nat>, taller: seq<nat>)
    requires row < mask.Length1 && |heights| == |taller| == mask.Length0
    requires HeightsAt(FreeCells(mask), row - 1, heights)
    requires forall k: nat :: k < |taller| ==> taller[k] == if mask[k, row] then heights[k] + 1 else 0
    ensures HeightsAt(FreeCells(mask), row, taller)
    ensures InGrid(FreeCells(mask), mask.Length0, mask.Length1)
  {
    HeightsStep(FreeCells(mask), row, heights, taller);
  }

  lemma StartMask(mask: array2<bool>, heights: seq<nat>)
    requires |heights| == mask.Length0 && forall x: nat :: x < |heights| ==> heights[x] == 0
    ensures HeightsAt(FreeCells(mask), -1, heights) && BestBelow(FreeCells(mask), 0, None)
    ensures InGrid(FreeCells(mask), mask.Length0, mask.Length1)
  {
    forall r | IsFree(FreeCells(mask), r) && r.y1 <= 0
      ensures false
    {
      assert r.Has(r.x0, r.y0);
    }
  }

  lemma MaskDone(mask: array2<bool>, best: Option<Rect>)
    requires BestBelow(FreeCells(mask), mask.Length1, best)
    ensures best.None? <==> FreeCells(mask) == {}
    ensures best.Some? ==> IsLargest(FreeCells(mask), best.value)
  {
    var cells := FreeCells(mask);
    forall r | IsFree(cells, r)
      ensures r.y1 <= mask.Length1
    {
      assert r.Has(r.x0, r.y1 - 1);
    }
    if cells != {} {
      var x, y :| (x, y) in cells;
      assert IsFree(cells, Rect(x, y, x + 1, y + 1));
    }
    if best.Some? {
      assert best.value.Has(best.value.x0, best.value.y0);
    }
  }
}
