/** Residual graphs with unit capacities, and the Bellman-Ford search over them.

    The search is proved against *prices*: node prices under which no residual arc
    has a negative reduced cost, which is to say the residual graph has no negative
    cycle.  Prices give both halves of correctness.  They bound every label from
    below, so that the predecessor links cannot close a cycle; and they order the
    nodes by reduced distance, so that every pass settles at least one more node and
    `n - 1` passes settle them all.
  */
module ShortestPaths {

  import opened Finite

  /** One entry of an adjacency list: `reverse` is its partner's index in the list of `to`. */
  datatype Arc = Arc(to: nat, reverse: nat, capacity: int, cost: real)

  type Graph = seq<seq<Arc>>

  datatype Distance = Infinite | Finite(value: real)

  /** A predecessor: the node and the index of the arc in its list. */
  type Link = Option<(nat, nat)>

  ghost predicate HasArc(g: Graph, v: nat, i: nat) {
    v < |g| && i < |g[v]|
  }

  ghost predicate InRange(g: Graph) {
    forall v: nat, i: nat :: HasArc(g, v, i) ==> g[v][i].to < |g| && g[v][i].to != v
  }

  /** No residual arc has a negative reduced cost under `p`. */
  ghost predicate Priced(g: Graph, p: seq<real>) {
    && |p| == |g|
    && forall v: nat, i: nat :: HasArc(g, v, i) && g[v][i].capacity > 0 && g[v][i].to < |g| ==>
         p[g[v][i].to] <= p[v] + g[v][i].cost
  }

  // ------------------------------------------------------------------ labels

  ghost predicate AtMost(a: Distance, b: Distance) {
    b.Infinite? || (a.Finite? && a.value <= b.value)
  }

  /** The distance label of `v`, reduced by its price. */
  ghost function Key(p: seq<real>, dist: seq<Distance>, v: nat): Distance
    requires v < |p| && v < |dist|
  {
    if dist[v].Infinite? then Infinite else Finite(dist[v].value - p[v])
  }

  ghost predicate ArcRelaxed(g: Graph, dist: seq<Distance>, v: nat, i: nat)
    requires InRange(g) && |dist| == |g| && HasArc(g, v, i)
  {
    dist[v].Finite? && g[v][i].capacity > 0 ==>
      AtMost(dist[g[v][i].to], Finite(dist[v].value + g[v][i].cost))
  }

  ghost predicate NodeRelaxed(g: Graph, dist: seq<Distance>, v: nat)
    requires InRange(g) && |dist| == |g|
  {
    forall i: nat :: HasArc(g, v, i) ==> ArcRelaxed(g, dist, v, i)
  }

  ghost predicate Relaxed(g: Graph, dist: seq<Distance>)
    requires InRange(g) && |dist| == |g|
  {
    forall v: nat :: v < |g| ==> NodeRelaxed(g, dist, v)
  }

  /** A link names a residual arc into `v` that is at least as good as the label of `v`. */
  ghost predicate GoodLink(g: Graph, dist: seq<Distance>, v: nat, u: nat, i: nat)
    requires |dist| == |g| && v < |g|
  {
    && HasArc(g, u, i) && g[u][i].to == v && g[u][i].capacity > 0
    && dist[u].Finite? && dist[v].Finite?
    && dist[u].value + g[u][i].cost <= dist[v].value
  }

  /** The links form a tree rooted at `source` over the labelled nodes; `rank` witnesses that
      following links terminates. */
  ghost predicate Tree(g: Graph, p: seq<real>, source: nat,
                       dist: seq<Distance>, prev: seq<Link>, rank: seq<nat>) {
    && InRange(g) && Priced(g, p) && source < |g|
    && |dist| == |prev| == |rank| == |g|
    && dist[source] == Finite(0.0) && prev[source] == None
    && (forall v: nat :: v < |g| && v != source ==> (dist[v].Finite? <==> prev[v].Some?))
    && (forall v: nat :: v < |g| ==> AtMost(Finite(-p[source]), Key(p, dist, v)))
    && (forall v: nat :: v < |g| && prev[v].Some? ==>
          GoodLink(g, dist, v, prev[v].value.0, prev[v].value.1)
          && rank[prev[v].value.0] < rank[v])
  }

  // ------------------------------------------------------ links never close a cycle

  ghost predicate Ranked(prev: seq<Link>, rank: seq<nat>) {
    && |prev| == |rank|
    && forall v: nat :: v < |prev| && prev[v].Some? ==>
         prev[v].value.0 < |prev| && rank[prev[v].value.0] < rank[v]
  }

  ghost predicate Descends(prev: seq<Link>, rank: seq<nat>, w: nat, v: nat)
    requires Ranked(prev, rank) && w < |prev|
    decreases rank[w]
  {
    w == v || (prev[w].Some? && Descends(prev, rank, prev[w].value.0, v))
  }

  /** Reduced distance only grows along links. */
  lemma {:induction false} DescendantsAreFarther(g: Graph, p: seq<real>, source: nat, dist: seq<Distance>,
                                                 prev: seq<Link>, rank: seq<nat>, w: nat, v: nat)
    requires Tree(g, p, source, dist, prev, rank) && Ranked(prev, rank) && w < |g| && v < |g|
    requires Descends(prev, rank, w, v) && dist[w].Finite?
    ensures dist[v].Finite? && AtMost(Key(p, dist, v), Key(p, dist, w))
    decreases rank[w]
  {
    if w != v {
      var u := prev[w].value.0;
      assert GoodLink(g, dist, w, u, prev[w].value.1);
      DescendantsAreFarther(g, p, source, dist, prev, rank, u, v);
    }
  }

  ghost function Reranked(prev: seq<Link>, rank: seq<nat>, u: nat, v: nat): (r: seq<nat>)
    requires Ranked(prev, rank) && u < |prev|
    ensures |r| == |rank|
  {
    seq(|rank|, w requires 0 <= w < |rank| =>
      if Descends(prev, rank, w, v) then rank[w] + rank[u] + 1 else rank[w])
  }

  /** Hanging `v` below `u` keeps the links ranked, unless `u` already hangs below `v`. */
  lemma RerankedIsRanked(prev: seq<Link>, rank: seq<nat>, u: nat, v: nat, i: nat)
    requires Ranked(prev, rank) && u < |prev| && v < |prev|
    requires !Descends(prev, rank, u, v)
    ensures Ranked(prev[v := Some((u, i))], Reranked(prev, rank, u, v))
  {
    var prev' := prev[v := Some((u, i))];
    var rank' := Reranked(prev, rank, u, v);
    forall w: nat | w < |prev'| && prev'[w].Some?
      ensures rank'[prev'[w].value.0] < rank'[w]
    {
      if w != v {
        var x := prev[w].value.0;
        assert Descends(prev, rank, x, v) <==> Descends(prev, rank, w, v);
      }
    }
  }

  lemma TreeIsRanked(g: Graph, p: seq<real>, source: nat, dist: seq<Distance>, prev: seq<Link>, rank: seq<nat>)
    requires Tree(g, p, source, dist, prev, rank)
    ensures Ranked(prev, rank)
  {
    forall v: nat | v < |prev| && prev[v].Some?
      ensures prev[v].value.0 < |prev| && rank[prev[v].value.0] < rank[v]
    {
      assert GoodLink(g, dist, v, prev[v].value.0, prev[v].value.1);
    }
  }

  /** Improving the label of `v` through an arc from `u` keeps the tree. */
  lemma RelaxKeepsTree(g: Graph, p: seq<real>, source: nat, dist: seq<Distance>, prev: seq<Link>, rank: seq<nat>,
                       u: nat, i: nat) returns (rank': seq<nat>)
    requires Tree(g, p, source, dist, prev, rank)
    requires HasArc(g, u, i) && g[u][i].capacity > 0 && dist[u].Finite?
    requires !AtMost(dist[g[u][i].to], Finite(dist[u].value + g[u][i].cost))
    ensures var v := g[u][i].to;
            Tree(g, p, source, dist[v := Finite(dist[u].value + g[u][i].cost)], prev[v := Some((u, i))], rank')
  {
    var v := g[u][i].to;
    TreeIsRanked(g, p, source, dist, prev, rank);
    if Descends(prev, rank, u, v) {
      DescendantsAreFarther(g, p, source, dist, prev, rank, u, v);
      assert false;
    }
    RerankedIsRanked(prev, rank, u, v, i);
    rank' := Reranked(prev, rank, u, v);
    RelaxedTree(g, p, source, dist, prev, rank, u, i, rank');
  }

  lemma RelaxedTree(g: Graph, p: seq<real>, source: nat, dist: seq<Distance>, prev: seq<Link>, rank: seq<nat>,
                    u: nat, i: nat, rank': seq<nat>)
    requires Tree(g, p, source, dist, prev, rank)
    requires HasArc(g, u, i) && g[u][i].capacity > 0 && dist[u].Finite?
    requires !AtMost(dist[g[u][i].to], Finite(dist[u].value + g[u][i].cost))
    requires Ranked(prev[g[u][i].to := Some((u, i))], rank')
    ensures var v := g[u][i].to;
            Tree(g, p, source, dist[v := Finite(dist[u].value + g[u][i].cost)], prev[v := Some((u, i))], rank')
  {
    var v := g[u][i].to;
    var dist' := dist[v := Finite(dist[u].value + g[u][i].cost)];
    var prev' := prev[v := Some((u, i))];
    assert AtMost(Finite(-p[source]), Key(p, dist, u));
    assert p[v] <= p[u] + g[u][i].cost;
    assert v != source;
    forall w: nat | w < |g|
      ensures AtMost(Finite(-p[source]), Key(p, dist', w))
    {
      assert AtMost(Finite(-p[source]), Key(p, dist, w));
    }
    forall w: nat | w < |g| && prev'[w].Some?
      ensures GoodLink(g, dist', w, prev'[w].value.0, prev'[w].value.1)
      ensures rank'[prev'[w].value.0] < rank'[w]
    {
      if w != v {
        assert GoodLink(g, dist, w, prev[w].value.0, prev[w].value.1);
      }
    }
  }

  // ---------------------------------------------------------- passes settle nodes

  /** The nodes of `settled` are no farther than any other, and their arcs are relaxed. */
  ghost predicate Settled(g: Graph, p: seq<real>, dist: seq<Distance>, settled: set<nat>)
    requires InRange(g) && |dist| == |p| == |g|
  {
    && (forall v :: v in settled ==> v < |g| && NodeRelaxed(g, dist, v))
    && forall v, u: nat :: v in settled && u < |g| && u !in settled ==> AtMost(Key(p, dist, v), Key(p, dist, u))
  }

  /** `next` is the closest node that is not settled yet. */
  ghost predicate Frontier(g: Graph, p: seq<real>, dist: seq<Distance>, settled: set<nat>, next: nat)
    requires InRange(g) && |dist| == |p| == |g|
  {
    && Settled(g, p, dist, settled)
    && next < |g| && next !in settled
    && forall u: nat :: u < |g| && u !in settled ==> AtMost(Key(p, dist, next), Key(p, dist, u))
  }

  /** Labels only improve, and never those of the settled nodes and the next one. */
  ghost predicate Improves(settled: set<nat>, next: nat, before: seq<Distance>, after: seq<Distance>) {
    && |before| == |after|
    && (forall v: nat :: v < |before| ==> AtMost(after[v], before[v]))
    && forall v: nat :: v < |before| && (v in settled || v == next) ==> after[v] == before[v]
  }

  /** Relaxing one arc cannot touch the settled nodes nor the next one. */
  lemma RelaxKeepsFrontier(g: Graph, p: seq<real>, dist: seq<Distance>, settled: set<nat>, next: nat, u: nat, i: nat)
    requires InRange(g) && Priced(g, p) && |dist| == |g|
    requires Frontier(g, p, dist, settled, next)
    requires HasArc(g, u, i) && g[u][i].capacity > 0 && dist[u].Finite?
    requires !AtMost(dist[g[u][i].to], Finite(dist[u].value + g[u][i].cost))
    ensures var dist' := dist[g[u][i].to := Finite(dist[u].value + g[u][i].cost)];
            Frontier(g, p, dist', settled, next) && Improves(settled, next, dist, dist')
  {
    var v := g[u][i].to;
    var d := Finite(dist[u].value + g[u][i].cost);
    var dist' := dist[v := d];
    assert !ArcRelaxed(g, dist, u, i);
    assert AtMost(Key(p, dist, next), Key(p, dist, u));
    assert p[v] <= p[u] + g[u][i].cost;
    assert AtMost(Key(p, dist, next), Key(p, dist', v));
    assert v !in settled && v != next;
    forall w | w in settled
      ensures NodeRelaxed(g, dist', w)
    {
      assert NodeRelaxed(g, dist, w);
      ImprovedStaysRelaxed(g, dist, dist', w);
    }
    SettledKeys(g, p, dist, dist', settled, next, v);
  }

  lemma SettledKeys(g: Graph, p: seq<real>, dist: seq<Distance>, dist': seq<Distance>, settled: set<nat>, next: nat, v: nat)
    requires InRange(g) && |p| == |dist| == |dist'| == |g| && v < |g|
    requires Frontier(g, p, dist, settled, next)
    requires dist' == dist[v := dist'[v]] && v !in settled && v != next
    requires AtMost(Key(p, dist, next), Key(p, dist', v))
    ensures forall w, u: nat :: w in settled && u < |g| && u !in settled ==> AtMost(Key(p, dist', w), Key(p, dist', u))
    ensures forall u: nat :: u < |g| && u !in settled ==> AtMost(Key(p, dist', next), Key(p, dist', u))
  {
    forall u: nat | u < |g| && u !in settled
      ensures AtMost(Key(p, dist', next), Key(p, dist', u))
    {
      assert AtMost(Key(p, dist, next), Key(p, dist, u));
    }
    forall w, u: nat | w in settled && u < |g| && u !in settled
      ensures AtMost(Key(p, dist', w), Key(p, dist', u))
    {
      assert w < |g|;
      assert AtMost(Key(p, dist, w), Key(p, dist, next));
    }
  }

  lemma ImprovedStaysRelaxed(g: Graph, dist: seq<Distance>, dist': seq<Distance>, v: nat)
    requires InRange(g) && |dist| == |dist'| == |g| && v < |g|
    requires NodeRelaxed(g, dist, v) && dist'[v] == dist[v]
    requires forall w: nat :: w < |g| ==> AtMost(dist'[w], dist[w])
    ensures NodeRelaxed(g, dist', v)
  {
    forall i: nat | HasArc(g, v, i)
      ensures ArcRelaxed(g, dist', v, i)
    {
      assert ArcRelaxed(g, dist, v, i);
      assert AtMost(dist'[g[v][i].to], dist[g[v][i].to]);
    }
  }

  /** Scan the arcs of one labelled node. */
  method ScanNode(g: Graph, ghost p: seq<real>, ghost source: nat, node: nat,
                  dist0: seq<Distance>, prev0: seq<Link>, ghost rank0: seq<nat>,
                  ghost settled: set<nat>, ghost next: nat)
    returns (dist: seq<Distance>, prev: seq<Link>, changed: bool, ghost rank: seq<nat>)
    requires Tree(g, p, source, dist0, prev0, rank0) && Frontier(g, p, dist0, settled, next)
    requires node < |g| && dist0[node].Finite?
    ensures Tree(g, p, source, dist, prev, rank) && Frontier(g, p, dist, settled, next)
    ensures Improves(settled, next, dist0, dist)
    ensures NodeRelaxed(g, dist, node)
    ensures !changed ==> dist == dist0
  {
    hide Tree, Frontier, Priced, NodeRelaxed;
    dist, prev, rank, changed := dist0, prev0, rank0, false;
    TreeBasics(g, p, source, dist, prev, rank);
    for i := 0 to |g[node]|
      invariant Tree(g, p, source, dist, prev, rank)
      invariant |dist| == |prev| == |g| && InRange(g) && |p| == |g|
      invariant Frontier(g, p, dist, settled, next)
      invariant Improves(settled, next, dist0, dist)
      invariant dist[node] == dist0[node]
      invariant PrefixRelaxed(g, dist, node, i)
      invariant !changed ==> dist == dist0
    {
      var arc := g[node][i];
      assert HasArc(g, node, i);
      if arc.capacity > 0 {
        var candidate := dist[node].value + arc.cost;
        if dist[arc.to].Infinite? || candidate < dist[arc.to].value {
          TreeBasics(g, p, source, dist, prev, rank);
          RelaxKeepsFrontier(g, p, dist, settled, next, node, i);
          rank := RelaxKeepsTree(g, p, source, dist, prev, rank, node, i);
          PrefixStaysRelaxed(g, dist, node, i, arc.to, Finite(candidate));
          dist, prev := dist[arc.to := Finite(candidate)], prev[arc.to := Some((node, i))];
          changed := true;
        }
      }
    }
    AllArcsRelaxed(g, dist, node);
  }

  lemma TreeBasics(g: Graph, p: seq<real>, source: nat, dist: seq<Distance>, prev: seq<Link>, rank: seq<nat>)
    requires Tree(g, p, source, dist, prev, rank)
    ensures |dist| == |prev| == |rank| == |p| == |g| && InRange(g) && Priced(g, p)
  {
  }

  ghost predicate PrefixRelaxed(g: Graph, dist: seq<Distance>, v: nat, n: nat)
    requires InRange(g) && |dist| == |g|
  {
    forall k: nat :: k < n && HasArc(g, v, k) ==> ArcRelaxed(g, dist, v, k)
  }

  lemma PrefixStaysRelaxed(g: Graph, dist: seq<Distance>, v: nat, n: nat, to: nat, d: Distance)
    requires InRange(g) && |dist| == |g| && to < |g| && to != v
    requires PrefixRelaxed(g, dist, v, n) && AtMost(d, dist[to])
    ensures PrefixRelaxed(g, dist[to := d], v, n)
  {
    forall k: nat | k < n && HasArc(g, v, k)
      ensures ArcRelaxed(g, dist[to := d], v, k)
    {
      assert ArcRelaxed(g, dist, v, k);
    }
  }

  lemma AllArcsRelaxed(g: Graph, dist: seq<Distance>, v: nat)
    requires InRange(g) && |dist| == |g| && v < |g|
    requires PrefixRelaxed(g, dist, v, |g[v]|)
    ensures NodeRelaxed(g, dist, v)
  {
  }

  /** One pass over all nodes: the next node becomes settled; a pass without change means every
      arc is relaxed. */
  method Pass(g: Graph, ghost p: seq<real>, ghost source: nat,
              dist0: seq<Distance>, prev0: seq<Link>, ghost rank0: seq<nat>,
              ghost settled: set<nat>, ghost next: nat)
    returns (dist: seq<Distance>, prev: seq<Link>, changed: bool, ghost rank: seq<nat>)
    requires Tree(g, p, source, dist0, prev0, rank0) && Frontier(g, p, dist0, settled, next)
    ensures Tree(g, p, source, dist, prev, rank)
    ensures Settled(g, p, dist, settled + {next})
    ensures !changed ==> Relaxed(g, dist)
  {
    hide Tree, Frontier, Priced, NodeRelaxed, Settled;
    dist, prev, rank, changed := dist0, prev0, rank0, false;
    TreeBasics(g, p, source, dist, prev, rank);
    for node := 0 to |g|
      invariant Tree(g, p, source, dist, prev, rank)
      invariant |dist| == |prev| == |g| && InRange(g) && |p| == |g|
      invariant Frontier(g, p, dist, settled, next)
      invariant next < node ==> NodeRelaxed(g, dist, next)
      invariant !changed ==> forall v: nat :: v < node ==> NodeRelaxed(g, dist, v)
    {
      if dist[node].Finite? {
        ghost var before := dist;
        var moved;
        dist, prev, moved, rank := ScanNode(g, p, source, node, dist, prev, rank, settled, next);
        TreeBasics(g, p, source, dist, prev, rank);
        changed := changed || moved;
        if next < node {
          ImprovedStaysRelaxed(g, before, dist, next);
        }
      } else {
        UnlabelledIsRelaxed(g, dist, node);
      }
    }
    SettleNext(g, p, dist, settled, next);
  }

  lemma UnlabelledIsRelaxed(g: Graph, dist: seq<Distance>, v: nat)
    requires InRange(g) && |dist| == |g| && v < |g| && dist[v].Infinite?
    ensures NodeRelaxed(g, dist, v)
  {
  }

  lemma SettleNext(g: Graph, p: seq<real>, dist: seq<Distance>, settled: set<nat>, next: nat)
    requires InRange(g) && |dist| == |p| == |g|
    requires Frontier(g, p, dist, settled, next) && NodeRelaxed(g, dist, next)
    ensures Settled(g, p, dist, settled + {next}) && next < |g|
  {
  }

  /** While some node is not settled, one of those left is closest. */
  lemma NextExists(g: Graph, p: seq<real>, dist: seq<Distance>, settled: set<nat>) returns (next: nat)
    requires InRange(g) && |dist| == |p| == |g|
    requires Settled(g, p, dist, settled) && |settled| < |g|
    ensures Frontier(g, p, dist, settled, next)
  {
    var left := Below(|g|) - settled;
    SplitCard(Below(|g|), settled);
    SubsetCard(Below(|g|) * settled, settled);
    next := Closest(p, dist, left);
  }

  lemma {:induction false} Closest(p: seq<real>, dist: seq<Distance>, nodes: set<nat>) returns (next: nat)
    requires |p| == |dist| && nodes != {} && forall v :: v in nodes ==> v < |p|
    ensures next in nodes && forall u :: u in nodes ==> AtMost(Key(p, dist, next), Key(p, dist, u))
    decreases |nodes|
  {
    hide Key;
    var first :| first in nodes;
    next := first;
    var rest := nodes - {first};
    assert forall u :: u in nodes ==> u == first || u in rest;
    if rest != {} {
      var other := Closest(p, dist, rest);
      if !AtMost(Key(p, dist, first), Key(p, dist, other)) {
        next := other;
      } else {
        forall u | u in rest
          ensures AtMost(Key(p, dist, first), Key(p, dist, u))
        {
          assert AtMost(Key(p, dist, other), Key(p, dist, u));
        }
      }
    }
  }

  /** All but one node settled means all arcs relaxed. */
  lemma AlmostAllSettled(g: Graph, p: seq<real>, source: nat, dist: seq<Distance>, prev: seq<Link>, rank: seq<nat>,
                         settled: set<nat>)
    requires Tree(g, p, source, dist, prev, rank)
    requires Settled(g, p, dist, settled) && |settled| == |g| - 1
    ensures Relaxed(g, dist)
  {
    var z := NextExists(g, p, dist, settled);
    assert settled + {z} <= Below(|g|);
    SubsetCard(settled + {z}, Below(|g|));
    forall i: nat | HasArc(g, z, i)
      ensures ArcRelaxed(g, dist, z, i)
    {
      var v := g[z][i].to;
      assert v in settled + {z};
      assert AtMost(Key(p, dist, v), Key(p, dist, z));
    }
    assert NodeRelaxed(g, dist, z);
  }

  /** Bellman-Ford from `source`: on return every residual arc is relaxed, and the links form a
      tree over exactly the labelled nodes. */
  method Search(g: Graph, source: nat, ghost p: seq<real>)
    returns (dist: seq<Distance>, prev: seq<Link>, ghost rank: seq<nat>)
    requires InRange(g) && Priced(g, p) && source < |g|
    ensures Tree(g, p, source, dist, prev, rank)
    ensures Relaxed(g, dist)
  {
    hide Tree, Frontier, Priced, NodeRelaxed, Settled, Relaxed;
    dist := seq(|g|, v => Infinite);
    prev := seq(|g|, v => None);
    rank := seq(|g|, v => 0);
    dist := dist[source := Finite(0.0)];
    StartTree(g, p, source, dist, prev, rank);
    TreeBasics(g, p, source, dist, prev, rank);
    ghost var settled: set<nat> := {};
    for iteration := 0 to |g| - 1
      invariant Tree(g, p, source, dist, prev, rank)
      invariant |dist| == |p| == |g| && InRange(g)
      invariant Settled(g, p, dist, settled) && |settled| == iteration
    {
      ghost var next := NextExists(g, p, dist, settled);
      FrontierIsFresh(g, p, dist, settled, next);
      var changed;
      dist, prev, changed, rank := Pass(g, p, source, dist, prev, rank, settled, next);
      TreeBasics(g, p, source, dist, prev, rank);
      settled := settled + {next};
      if !changed {
        return;
      }
    }
    AlmostAllSettled(g, p, source, dist, prev, rank, settled);
  }

  lemma StartTree(g: Graph, p: seq<real>, source: nat, dist: seq<Distance>, prev: seq<Link>, rank: seq<nat>)
    requires InRange(g) && Priced(g, p) && source < |g|
    requires |dist| == |prev| == |rank| == |g|
    requires dist[source] == Finite(0.0)
    requires forall v: nat :: v < |g| ==> prev[v] == None && (v != source ==> dist[v] == Infinite)
    ensures Tree(g, p, source, dist, prev, rank)
    ensures Settled(g, p, dist, {})
  {
  }

  lemma FrontierIsFresh(g: Graph, p: seq<real>, dist: seq<Distance>, settled: set<nat>, next: nat)
    requires InRange(g) && |dist| == |p| == |g| && Frontier(g, p, dist, settled, next)
    ensures next !in settled && next < |g|
  {
  }
}
