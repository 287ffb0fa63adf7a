/** Minimum-cost maximum flow on unit-capacity residual graphs, by successive shortest paths.

    The graph stores each edge as a pair of arcs, one in the list of either end.  A
    pushed edge has moved its unit of capacity to the reverse arc, so a node passes on
    as much flow as it receives exactly when the capacity left in its list is what it
    was before any push.
  */
module MinCostFlow {

  import opened Finite
  import opened ShortestPaths

  /** Both arcs of an edge name each other, and one unit of capacity sits on one of them. */
  ghost predicate PairedArc(g: Graph, v: nat, i: nat)
    requires HasArc(g, v, i)
  {
    var arc := g[v][i];
    && arc.to != v && HasArc(g, arc.to, arc.reverse)
    && 0 <= arc.capacity <= 1
    && var back := g[arc.to][arc.reverse];
       back.to == v && back.reverse == i && back.cost == -arc.cost && arc.capacity + back.capacity == 1
  }

  ghost predicate Paired(g: Graph) {
    forall v: nat, i: nat :: HasArc(g, v, i) ==> PairedArc(g, v, i)
  }

  ghost predicate SameShape(g: Graph, g': Graph) {
    && |g| == |g'|
    && (forall v: nat :: v < |g| ==> |g[v]| == |g'[v]|)
    && forall v: nat, i: nat :: HasArc(g, v, i) && HasArc(g', v, i) ==>
         g'[v][i] == g[v][i].(capacity := g'[v][i].capacity)
  }

  /** The capacity left in an adjacency list. */
  ghost function Capacity(arcs: seq<Arc>): int {
    if arcs == [] then 0 else Capacity(arcs[..|arcs| - 1]) + arcs[|arcs| - 1].capacity
  }

  lemma {:induction false} CapacityAfterUpdate(arcs: seq<Arc>, i: nat, arc: Arc)
    requires i < |arcs|
    ensures Capacity(arcs[i := arc]) == Capacity(arcs) - arcs[i].capacity + arc.capacity
  {
    var n := |arcs| - 1;
    if i == n {
      assert arcs[i := arc][..n] == arcs[..n];
    } else {
      CapacityAfterUpdate(arcs[..n], i, arc);
      assert arcs[i := arc][..n] == arcs[..n][i := arc];
    }
  }

  lemma {:induction false} CapacityNonNegative(arcs: seq<Arc>)
    requires forall i: nat :: i < |arcs| ==> 0 <= arcs[i].capacity
    ensures 0 <= Capacity(arcs)
  {
    if arcs != [] {
      CapacityNonNegative(arcs[..|arcs| - 1]);
    }
  }

  /** Move the unit of capacity of the arc `g[u][i]` to its reverse arc. */
  function Pushed(g: Graph, u: nat, i: nat): (g': Graph)
    requires u < |g| && i < |g[u]| && g[u][i].to < |g| && g[u][i].to != u
    requires g[u][i].reverse < |g[g[u][i].to]|
    ensures |g'| == |g|
  {
    var v, r := g[u][i].to, g[u][i].reverse;
    g[u := g[u][i := g[u][i].(capacity := 0)]]
     [v := g[v][r := g[v][r].(capacity := 1)]]
  }

  /** Pushing along an arc without reduced cost keeps the graph paired and priced, and moves one
      unit of capacity from its tail to its head. */
  lemma PushKeeps(g: Graph, u: nat, i: nat, p: seq<real>)
    requires Paired(g) && InRange(g) && Priced(g, p) && HasArc(g, u, i) && g[u][i].capacity == 1
    requires p[g[u][i].to] == p[u] + g[u][i].cost
    ensures var v := g[u][i].to; var g' := Pushed(g, u, i);
            && Paired(g') && InRange(g') && Priced(g', p) && SameShape(g, g')
            && Capacity(g'[u]) == Capacity(g[u]) - 1 && Capacity(g'[v]) == Capacity(g[v]) + 1
            && (forall w: nat :: w < |g| && w != u && w != v ==> g'[w] == g[w])
  {
    var v, r := g[u][i].to, g[u][i].reverse;
    var g' := Pushed(g, u, i);
    assert PairedArc(g, u, i);
    CapacityAfterUpdate(g[u], i, g[u][i].(capacity := 0));
    CapacityAfterUpdate(g[v], r, g[v][r].(capacity := 1));
    PushShape(g, u, i);
    PushPaired(g, u, i);
    PushPriced(g, u, i, p);
  }

  lemma PushShape(g: Graph, u: nat, i: nat)
    requires Paired(g) && InRange(g) && HasArc(g, u, i)
    ensures PairedArc(g, u, i) && SameShape(g, Pushed(g, u, i)) && InRange(Pushed(g, u, i))
  {
    var g' := Pushed(g, u, i);
    assert PairedArc(g, u, i);
    forall w: nat, j: nat | HasArc(g', w, j)
      ensures HasArc(g, w, j) && g'[w][j] == g[w][j].(capacity := g'[w][j].capacity)
    {
    }
  }

  lemma PushPaired(g: Graph, u: nat, i: nat)
    requires Paired(g) && InRange(g) && HasArc(g, u, i) && g[u][i].capacity == 1
    requires PairedArc(g, u, i)
    ensures Paired(Pushed(g, u, i))
  {
    var g' := Pushed(g, u, i);
    forall w: nat, j: nat | HasArc(g', w, j)
      ensures PairedArc(g', w, j)
    {
      assert HasArc(g, w, j) && PairedArc(g, w, j);
      assert PairedArc(g, g[w][j].to, g[w][j].reverse);
    }
  }

  lemma PushPriced(g: Graph, u: nat, i: nat, p: seq<real>)
    requires Paired(g) && InRange(g) && Priced(g, p) && HasArc(g, u, i) && PairedArc(g, u, i)
    requires p[g[u][i].to] == p[u] + g[u][i].cost
    ensures Priced(Pushed(g, u, i), p)
  {
    var g' := Pushed(g, u, i);
    forall w: nat, j: nat | HasArc(g', w, j) && g'[w][j].capacity > 0 && g'[w][j].to < |g'|
      ensures p[g'[w][j].to] <= p[w] + g'[w][j].cost
    {
      assert HasArc(g, w, j);
    }
  }

  // ----------------------------------------------------------- prices from labels

  /** An upper bound on the reduced labels of the first `n` nodes. */
  ghost function KeyBound(p: seq<real>, dist: seq<Distance>, n: nat): (k: real)
    requires n <= |p| == |dist|
    ensures forall v: nat :: v < n && dist[v].Finite? ==> dist[v].value - p[v] <= k
  {
    if n == 0 then 0.0 else
      var k := KeyBound(p, dist, n - 1);
      if dist[n - 1].Finite? && dist[n - 1].value - p[n - 1] > k then dist[n - 1].value - p[n - 1] else k
  }

  /** The labels are new prices; the unlabelled nodes are lifted out of the way. */
  ghost function LabelPrices(p: seq<real>, dist: seq<Distance>): (p': seq<real>)
    requires |p| == |dist|
    ensures |p'| == |p|
  {
    var k := KeyBound(p, dist, |p|);
    seq(|p|, v requires 0 <= v < |p| => if dist[v].Finite? then dist[v].value else p[v] + k)
  }

  lemma LabelPricesArePrices(g: Graph, p: seq<real>, dist: seq<Distance>)
    requires InRange(g) && Priced(g, p) && |dist| == |g| && Relaxed(g, dist)
    ensures Priced(g, LabelPrices(p, dist))
  {
    var p' := LabelPrices(p, dist);
    forall v: nat, i: nat | HasArc(g, v, i) && g[v][i].capacity > 0 && g[v][i].to < |g|
      ensures p'[g[v][i].to] <= p'[v] + g[v][i].cost
    {
      assert NodeRelaxed(g, dist, v);
      assert ArcRelaxed(g, dist, v, i);
      assert p[g[v][i].to] <= p[v] + g[v][i].cost;
    }
  }

  /** What the search hands over to the augmentation: a chain of links without reduced cost
      leading from every linked node back to the source. */
  ghost predicate TightLinks(g: Graph, p: seq<real>, source: nat, prev: seq<Link>, rank: seq<nat>) {
    && |prev| == |rank| == |g| == |p| && source < |g| && prev[source] == None
    && forall v: nat :: v < |g| && prev[v].Some? ==> TightLink(g, p, source, prev, rank, v)
  }

  ghost predicate TightLink(g: Graph, p: seq<real>, source: nat, prev: seq<Link>, rank: seq<nat>, v: nat)
    requires |prev| == |rank| == |g| == |p| && v < |g| && prev[v].Some?
  {
    var (u, i) := prev[v].value;
    && HasArc(g, u, i) && g[u][i].to == v && g[u][i].capacity == 1
    && p[v] == p[u] + g[u][i].cost && rank[u] < rank[v]
    && (u == source || prev[u].Some?)
  }

  lemma TreeLinksAreTight(g: Graph, p: seq<real>, source: nat, dist: seq<Distance>, prev: seq<Link>, rank: seq<nat>)
    requires Tree(g, p, source, dist, prev, rank) && Relaxed(g, dist) && Paired(g)
    ensures TightLinks(g, LabelPrices(p, dist), source, prev, rank)
  {
    forall v: nat | v < |g| && prev[v].Some?
      ensures TightLink(g, LabelPrices(p, dist), source, prev, rank, v)
    {
      var (u, i) := prev[v].value;
      assert GoodLink(g, dist, v, u, i);
      assert NodeRelaxed(g, dist, u) && ArcRelaxed(g, dist, u, i);
      assert PairedArc(g, u, i);
    }
  }

  /** Nothing residual leaves `cut`. */
  ghost predicate Closed(g: Graph, cut: set<nat>) {
    forall v: nat, i: nat :: v in cut && HasArc(g, v, i) && g[v][i].capacity > 0 ==> g[v][i].to in cut
  }

  ghost function Labelled(dist: seq<Distance>): set<nat> {
    set v: nat | v < |dist| && dist[v].Finite? :: v
  }

  lemma LabelledIsClosed(g: Graph, dist: seq<Distance>)
    requires InRange(g) && |dist| == |g| && Relaxed(g, dist)
    ensures Closed(g, Labelled(dist))
  {
    forall v: nat, i: nat | v in Labelled(dist) && HasArc(g, v, i) && g[v][i].capacity > 0
      ensures g[v][i].to in Labelled(dist)
    {
      assert NodeRelaxed(g, dist, v) && ArcRelaxed(g, dist, v, i);
    }
  }

  // ------------------------------------------------------------------ augmentation

  /** `g` arose from `g0` by pushing along the links from `node` on to `sink`. */
  ghost predicate PushedFrom(g0: Graph, g: Graph, p: seq<real>, rank: seq<nat>, sink: nat, node: nat)
    requires |rank| == |g0|
  {
    && Paired(g) && InRange(g) && Priced(g, p) && SameShape(g0, g) && node < |g| && sink < |g|
    && (forall v: nat :: v < |g| && rank[v] < rank[node] ==> g[v] == g0[v])
    && forall v: nat :: v < |g| ==>
         Capacity(g[v]) == Capacity(g0[v]) + (if v == sink then 1 else 0) - (if v == node then 1 else 0)
  }

  lemma PushBack(g0: Graph, g: Graph, p: seq<real>, source: nat, prev: seq<Link>, rank: seq<nat>, sink: nat, node: nat)
    requires TightLinks(g0, p, source, prev, rank) && PushedFrom(g0, g, p, rank, sink, node)
    requires prev[node].Some?
    ensures var (u, i) := prev[node].value;
            && u < |g| && i < |g[u]| && g[u][i].to == node && node != u && g[u][i].reverse < |g[node]|
            && rank[u] < rank[node] && (u == source || prev[u].Some?)
            && PushedFrom(g0, Pushed(g, u, i), p, rank, sink, u)
  {
    hide Pushed, Priced, InRange, Capacity;
    var (u, i) := prev[node].value;
    assert TightLink(g0, p, source, prev, rank, node);
    assert g[u] == g0[u];
    assert HasArc(g, u, i) && PairedArc(g, u, i);
    PushKeeps(g, u, i, p);
    var g' := Pushed(g, u, i);
    forall v: nat, j: nat | HasArc(g0, v, j) && HasArc(g', v, j)
      ensures g'[v][j] == g0[v][j].(capacity := g'[v][j].capacity)
    {
      assert HasArc(g, v, j);
    }
  }

  /** Flip the links from `sink` back to `source`. */
  method Augment(g0: Graph, source: nat, sink: nat, prev: seq<Link>, ghost p: seq<real>, ghost rank: seq<nat>)
    returns (g: Graph)
    requires Paired(g0) && InRange(g0) && Priced(g0, p) && TightLinks(g0, p, source, prev, rank)
    requires sink < |g0| && prev[sink].Some?
    ensures PushedFrom(g0, g, p, rank, sink, source)
  {
    hide *;
    g := g0;
    var node: nat := sink;
    StartPush(g0, p, source, prev, rank, sink);
    while node != source
      invariant |prev| == |rank| == |g0| == |g| && node < |prev|
      invariant PushedFrom(g0, g, p, rank, sink, node)
      invariant node == source || prev[node].Some?
      decreases rank[node]
    {
      PushBack(g0, g, p, source, prev, rank, sink, node);
      var (u, i) := prev[node].value;
      g := Pushed(g, u, i);
      node := u;
      StillInRange(g0, g, p, rank, sink, node);
    }
  }

  lemma StartPush(g: Graph, p: seq<real>, source: nat, prev: seq<Link>, rank: seq<nat>, sink: nat)
    requires Paired(g) && InRange(g) && Priced(g, p) && TightLinks(g, p, source, prev, rank) && sink < |g|
    ensures |prev| == |rank| == |g| && PushedFrom(g, g, p, rank, sink, sink)
  {
  }

  lemma StillInRange(g0: Graph, g: Graph, p: seq<real>, rank: seq<nat>, sink: nat, node: nat)
    requires |rank| == |g0| && PushedFrom(g0, g, p, rank, sink, node)
    ensures node < |g| == |g0|
  {
  }

  // ------------------------------------------------------------------- whole run

  /** Every inner node still passes on what it receives. */
  ghost predicate Balanced(g0: Graph, g: Graph, source: nat, sink: nat) {
    && SameShape(g0, g)
    && forall v: nat :: v < |g| && v != source && v != sink ==> Capacity(g[v]) == Capacity(g0[v])
  }

  /** What holds of the graph between two augmentations. */
  ghost predicate Flow(g0: Graph, g: Graph, p: seq<real>, source: nat, sink: nat) {
    && source < |g| && sink < |g| && source != sink
    && Paired(g) && InRange(g) && Priced(g, p) && Balanced(g0, g, source, sink)
  }

  lemma AugmentKeepsFlow(g0: Graph, g: Graph, g': Graph, p: seq<real>, p': seq<real>, rank: seq<nat>,
                         source: nat, sink: nat)
    requires Flow(g0, g, p, source, sink) && |rank| == |g| && PushedFrom(g, g', p', rank, sink, source)
    ensures Flow(g0, g', p', source, sink) && |g'| == |g|
    ensures 0 <= Capacity(g'[source]) < Capacity(g[source])
  {
    forall v: nat, j: nat | HasArc(g0, v, j) && HasArc(g', v, j)
      ensures g'[v][j] == g0[v][j].(capacity := g'[v][j].capacity)
    {
      assert HasArc(g, v, j);
    }
    forall i: nat | i < |g'[source]|
      ensures 0 <= g'[source][i].capacity
    {
      assert HasArc(g', source, i) && PairedArc(g', source, i);
    }
    CapacityNonNegative(g'[source]);
  }

  lemma FlowBasics(g0: Graph, g: Graph, p: seq<real>, source: nat, sink: nat)
    requires Flow(g0, g, p, source, sink)
    ensures Paired(g) && InRange(g) && Priced(g, p) && source < |g| && sink < |g| && source != sink
    ensures |p| == |g|
  {
  }

  ghost predicate Residual(g: Graph, v: nat, w: nat) {
    exists i: nat :: HasArc(g, v, i) && g[v][i].capacity > 0 && g[v][i].to == w
  }

  /** A walk along residual arcs. */
  ghost predicate IsWalk(g: Graph, walk: seq<nat>) {
    walk != [] && forall i: nat :: i + 1 < |walk| ==> Residual(g, walk[i], walk[i + 1])
  }

  lemma {:induction false} WalkStaysInCut(g: Graph, cut: set<nat>, walk: seq<nat>, n: nat)
    requires Closed(g, cut) && IsWalk(g, walk) && walk[0] in cut && n < |walk|
    ensures walk[n] in cut
  {
    if n > 0 {
      var m := n - 1;
      WalkStaysInCut(g, cut, walk, m);
      assert Residual(g, walk[m], walk[m + 1]);
    }
  }

  /** Across a closed cut no walk leads. */
  lemma CutStopsWalks(g: Graph, cut: set<nat>, source: nat, sink: nat)
    requires Closed(g, cut) && source in cut && sink !in cut
    ensures forall walk :: IsWalk(g, walk) && walk[0] == source ==> walk[|walk| - 1] != sink
  {
    hide Closed, Residual;
    forall walk | IsWalk(g, walk) && walk[0] == source
      ensures walk[|walk| - 1] != sink
    {
      WalkStaysInCut(g, cut, walk, |walk| - 1);
    }
  }

  /** Push along shortest paths until the sink is out of reach.  The certificate is a closed cut
      that separates sink from source, and prices. */
  method Saturate(g0: Graph, source: nat, sink: nat, ghost p0: seq<real>)
    returns (g: Graph, ghost p: seq<real>, ghost cut: set<nat>)
    requires Flow(g0, g0, p0, source, sink)
    ensures Flow(g0, g, p, source, sink)
    ensures Closed(g, cut) && source in cut && sink !in cut
    ensures forall walk :: IsWalk(g, walk) && walk[0] == source ==> walk[|walk| - 1] != sink
  {
    hide *;
    g, p := g0, p0;
    FlowBasics(g0, g, p, source, sink);
    while true
      invariant Flow(g0, g, p, source, sink)
      invariant source < |g|
      decreases Capacity(g[source])
    {
      FlowBasics(g0, g, p, source, sink);
      var dist, prev;
      ghost var rank;
      dist, prev, rank := Search(g, source, p);
      SearchBasics(g, p, source, dist, prev, rank, sink);
      if prev[sink].None? {
        LabelledIsClosed(g, dist);
        cut := Labelled(dist);
        CutStopsWalks(g, cut, source, sink);
        return;
      }
      LabelPricesArePrices(g, p, dist);
      TreeLinksAreTight(g, p, source, dist, prev, rank);
      ghost var p' := LabelPrices(p, dist);
      var g' := Augment(g, source, sink, prev, p', rank);
      AugmentKeepsFlow(g0, g, g', p, p', rank, source, sink);
      g, p := g', p';
    }
  }

  lemma SearchBasics(g: Graph, p: seq<real>, source: nat, dist: seq<Distance>, prev: seq<Link>, rank: seq<nat>, sink: nat)
    requires Tree(g, p, source, dist, prev, rank) && sink < |g| && sink != source
    ensures |dist| == |prev| == |rank| == |g| == |p|
    ensures source in Labelled(dist)
    ensures prev[sink].None? ==> sink !in Labelled(dist)
  {
  }
}
