/** Reading a saturated quota network node by node: an inner node with one edge on one side uses
    exactly one edge on its other side when that edge is used, and none otherwise.
  */
module QuotaConservation {

  import opened Finite
  import opened Matching
  import opened ShortestPaths
  import opened MinCostFlow
  import opened QuotaNetwork

  ghost function Sum(s: seq<int>): int {
    if s == [] then 0 else Sum(s[..|s| - 1]) + s[|s| - 1]
  }

  lemma {:induction false} SumIsCapacityChange(before: seq<Arc>, after: seq<Arc>, s: seq<int>)
    requires |before| == |after| == |s|
    requires forall i :: 0 <= i < |s| ==> s[i] == after[i].capacity - before[i].capacity
    ensures Sum(s) == Capacity(after) - Capacity(before)
  {
    if s != [] {
      var n := |s| - 1;
      SumIsCapacityChange(before[..n], after[..n], s[..n]);
    }
  }

  /** `x`, or its opposite. */
  ghost function Signed(plus: bool, x: int): int {
    if plus then x else -x
  }

  /** One entry of one sign balanced by entries of the other sign, each at most one in size. */
  ghost predicate Turns(s: seq<int>, r: nat, plus: bool) {
    && r < |s| && 0 <= Signed(plus, s[r]) <= 1
    && forall i: nat :: i < |s| && i != r ==> -1 <= Signed(plus, s[i]) <= 0
  }

  lemma OtherSign(s: seq<int>, r: nat, plus: bool, i: nat)
    requires Turns(s, r, plus) && i < |s| && i != r
    ensures Signed(plus, s[i]) <= 0
  {
  }

  lemma {:induction false} SumBelow(s: seq<int>, plus: bool)
    requires forall i: nat :: i < |s| ==> -1 <= Signed(plus, s[i]) <= 0
    ensures Signed(plus, Sum(s)) <= 0
    ensures forall i: nat :: i < |s| ==> Signed(plus, Sum(s)) <= Signed(plus, s[i])
    ensures forall i: nat, j: nat :: i < j < |s| ==> Signed(plus, Sum(s)) <= Signed(plus, s[i]) + Signed(plus, s[j])
    ensures Signed(plus, Sum(s)) < 0 ==> exists i: nat :: i < |s| && Signed(plus, s[i]) == -1
  {
    if s != [] {
      var n := |s| - 1;
      var t := s[..n];
      SumBelow(t, plus);
      if Signed(plus, Sum(t)) < 0 {
        var i: nat :| i < |t| && Signed(plus, t[i]) == -1;
        assert s[i] == t[i];
      }
    }
  }

  lemma {:induction false} SumWithout(s: seq<int>, r: nat)
    requires r < |s|
    ensures Sum(s[r := 0]) == Sum(s) - s[r]
  {
    var n := |s| - 1;
    if r == n {
      assert s[r := 0][..n] == s[..n];
    } else {
      SumWithout(s[..n], r);
      assert s[r := 0][..n] == s[..n][r := 0];
    }
  }

  /** Balanced: the lone entry is zero and so are all, or it is matched by exactly one other. */
  lemma BalancedTurn(s: seq<int>, r: nat, plus: bool)
    requires Turns(s, r, plus) && Sum(s) == 0
    ensures s[r] == 0 ==> forall i: nat :: i < |s| ==> s[i] == 0
    ensures s[r] != 0 ==> exists i: nat :: i < |s| && i != r && s[i] != 0
    ensures forall i: nat, j: nat :: i < j < |s| && i != r && j != r ==> s[i] == 0 || s[j] == 0
  {
    var t := s[r := 0];
    SumWithout(s, r);
    SumBelow(t, plus);
    assert Signed(plus, Sum(t)) == -Signed(plus, s[r]);
    if s[r] != 0 {
      var i: nat :| i < |t| && Signed(plus, t[i]) == -1;
      assert i != r && s[i] == t[i] && s[i] != 0;
    } else {
      forall i: nat | i < |s|
        ensures s[i] == 0
      {
        assert Signed(plus, Sum(t)) <= Signed(plus, t[i]);
      }
    }
    forall i: nat, j: nat | i < j < |s| && i != r && j != r
      ensures s[i] == 0 || s[j] == 0
    {
      assert Signed(plus, Sum(t)) <= Signed(plus, t[i]) + Signed(plus, t[j]);
    }
  }

  // ---------------------------------------------------------------- edges in use

  /** A saturated run of the network of `problem`. */
  ghost predicate Solved(problem: Problem, g0: Graph, g: Graph, handles: Handles, p: seq<real>, nodes: NodeIndex) {
    && problem.Valid()
    && Indexed(problem, Labels(problem), nodes)
    && Built(problem, g0, Labels(problem), handles)
    && (forall e :: e in handles <==> IsEdge(problem, e))
    && Flow(g0, g, p, nodes.source, nodes.sink)
  }

  /** The unit of capacity of `e` has been pushed. */
  ghost predicate Used(g: Graph, handles: Handles, e: Edge) {
    e in handles && HasArc(g, handles[e].0, handles[e].1) && g[handles[e].0][handles[e].1].capacity == 0
  }

  /** The arc that carries edge `Edge(labels[v], labels[g0[v][i].to])`, or its reverse, changed
      capacity exactly if the edge is used. */
  lemma ArcChange(problem: Problem, g0: Graph, g: Graph, handles: Handles, p: seq<real>, nodes: NodeIndex, v: nat, i: nat)
    requires Solved(problem, g0, g, handles, p, nodes) && HasArc(g0, v, i)
    ensures |Labels(problem)| == |g0| == |g| && HasArc(g, v, i) && g0[v][i].to < |g0|
    ensures var labels := Labels(problem);
            var e, back := Edge(labels[v], labels[g0[v][i].to]), Edge(labels[g0[v][i].to], labels[v]);
            var change := g[v][i].capacity - g0[v][i].capacity;
            || (e in handles && back !in handles && handles[e] == (v, i) && change == if Used(g, handles, e) then -1 else 0)
            || (back in handles && e !in handles && change == if Used(g, handles, back) then 1 else 0)
  {
    hide LabelOf, Labels;
    var labels := Labels(problem);
    var w := g0[v][i].to;
    var e, back := Edge(labels[v], labels[w]), Edge(labels[w], labels[v]);
    assert ArcOfEdge(problem, g0, labels, handles, v, i);
    assert PairedArc(g0, v, i);
    assert HasArc(g, v, i) && PairedArc(g, v, i);
    if e in handles {
      HandleIs(problem, g0, labels, handles, e, v, i);
    } else {
      HandleIs(problem, g0, labels, handles, back, w, g0[v][i].reverse);
      assert HasArc(g, w, g0[v][i].reverse);
    }
  }

  /** An arc between the ends of an edge, starting at its tail, is the one its handle names. */
  lemma HandleIs(problem: Problem, g0: Graph, labels: seq<Node>, handles: Handles, e: Edge, v: nat, i: nat)
    requires Built(problem, g0, labels, handles) && e in handles
    requires HasArc(g0, v, i) && g0[v][i].to < |g0| && labels[v] == e.a && labels[g0[v][i].to] == e.b
    ensures handles[e] == (v, i) && Edge(e.b, e.a) !in handles
  {
    var (v', i') := handles[e];
    assert HandleOf(g0, labels, e, handles[e]);
    assert v' == v && g0[v][i'].to == g0[v][i].to;
  }

  lemma SolvedBasics(problem: Problem, g0: Graph, g: Graph, handles: Handles, p: seq<real>, nodes: NodeIndex)
    requires Solved(problem, g0, g, handles, p, nodes)
    ensures Built(problem, g0, Labels(problem), handles) && |Labels(problem)| == |g0| == |g| == |p|
  {
  }

  /** The capacity changes in the list of an inner node cancel out. */
  lemma InnerNodeBalances(problem: Problem, g0: Graph, g: Graph, handles: Handles, p: seq<real>, nodes: NodeIndex, v: nat)
    returns (s: seq<int>)
    requires Solved(problem, g0, g, handles, p, nodes)
    requires v < |g0| && v != nodes.source && v != nodes.sink
    ensures |g0| == |g| && |g0[v]| == |g[v]| == |s| && Sum(s) == 0
    ensures forall i: nat :: i < |s| ==> s[i] == g[v][i].capacity - g0[v][i].capacity
  {
    s := seq(|g0[v]|, i requires 0 <= i < |g0[v]| => g[v][i].capacity - g0[v][i].capacity);
    SumIsCapacityChange(g0[v], g[v], s);
  }

  /** The arc of `e` seen from its head. */
  lemma BackArc(problem: Problem, g0: Graph, handles: Handles, e: Edge, v: nat) returns (i: nat)
    requires Built(problem, g0, Labels(problem), handles) && e in handles && At(Labels(problem), v, e.b)
    ensures HasArc(g0, v, i) && g0[v][i].to < |g0| && Labels(problem)[g0[v][i].to] == e.a
  {
    hide LabelOf, Labels;
    var (w, j) := handles[e];
    assert HandleOf(g0, Labels(problem), e, handles[e]);
    assert PairedArc(g0, w, j);
    i := g0[w][j].reverse;
    assert g0[w][j].to == v;
  }

  /** A node with the single incoming edge from `m`. */
  lemma OneIn(problem: Problem, g0: Graph, g: Graph, handles: Handles, p: seq<real>, nodes: NodeIndex, v: nat, n: Node, m: Node)
    requires Solved(problem, g0, g, handles, p, nodes) && At(Labels(problem), v, n)
    requires v != nodes.source && v != nodes.sink
    requires Edge(m, n) in handles && forall x :: Edge(x, n) in handles ==> x == m
    ensures Used(g, handles, Edge(m, n)) <==> exists x :: Used(g, handles, Edge(n, x))
    ensures forall x, y :: Used(g, handles, Edge(n, x)) && Used(g, handles, Edge(n, y)) ==> x == y
  {
    hide LabelOf, Labels, Solved, Built, Turns, Sum;
    SolvedBasics(problem, g0, g, handles, p, nodes);
    var labels := Labels(problem);
    var s := InnerNodeBalances(problem, g0, g, handles, p, nodes, v);
    var r := BackArc(problem, g0, handles, Edge(m, n), v);
    ArcChange(problem, g0, g, handles, p, nodes, v, r);
    InTurn(problem, g0, g, handles, p, nodes, v, n, m, r, s);
    BalancedTurn(s, r, true);
    if Used(g, handles, Edge(m, n)) {
      var i: nat :| i < |s| && i != r && s[i] != 0;
      ArcChange(problem, g0, g, handles, p, nodes, v, i);
      OtherSign(s, r, true, i);
      assert Used(g, handles, Edge(n, labels[g0[v][i].to]));
    }
    forall x, y | Used(g, handles, Edge(n, x)) && Used(g, handles, Edge(n, y))
      ensures x == y && Used(g, handles, Edge(m, n))
    {
      var i := OutArc(problem, g0, g, handles, p, nodes, v, n, x);
      var j := OutArc(problem, g0, g, handles, p, nodes, v, n, y);
      ArcChange(problem, g0, g, handles, p, nodes, v, i);
      ArcChange(problem, g0, g, handles, p, nodes, v, j);
    }
  }

  lemma OutArc(problem: Problem, g0: Graph, g: Graph, handles: Handles, p: seq<real>, nodes: NodeIndex, v: nat, n: Node, x: Node)
    returns (i: nat)
    requires Solved(problem, g0, g, handles, p, nodes) && At(Labels(problem), v, n)
    requires Edge(n, x) in handles
    ensures HasArc(g0, v, i) && g0[v][i].to < |g0| == |Labels(problem)| && Labels(problem)[g0[v][i].to] == x
    ensures handles[Edge(n, x)] == (v, i)
  {
    hide LabelOf, Labels, Solved, Built;
    SolvedBasics(problem, g0, g, handles, p, nodes);
    HandleIsArc(problem, g0, handles, Edge(n, x));
    SolvedLabels(problem, g0, g, handles, p, nodes);
    i := handles[Edge(n, x)].1;
    SameNumber(Labels(problem), v, handles[Edge(n, x)].0, n);
  }

  lemma HandleIsArc(problem: Problem, g0: Graph, handles: Handles, e: Edge)
    requires Built(problem, g0, Labels(problem), handles) && e in handles
    ensures HandleOf(g0, Labels(problem), e, handles[e])
  {
    hide LabelOf, Labels;
  }

  lemma SolvedLabels(problem: Problem, g0: Graph, g: Graph, handles: Handles, p: seq<real>, nodes: NodeIndex)
    requires Solved(problem, g0, g, handles, p, nodes)
    ensures Distinct(Labels(problem))
  {
    hide LabelOf, Labels, Built, Flow;
  }

  lemma SameNumber(labels: seq<Node>, v: nat, w: nat, n: Node)
    requires Distinct(labels) && At(labels, v, n) && At(labels, w, n)
    ensures v == w
  {
  }

  /** Two arcs of a node lead to nodes of different labels. */
  lemma OneArcTo(problem: Problem, g0: Graph, g: Graph, handles: Handles, p: seq<real>, nodes: NodeIndex, v: nat, i: nat, r: nat)
    requires Solved(problem, g0, g, handles, p, nodes) && HasArc(g0, v, i) && HasArc(g0, v, r) && i != r
    ensures |g0| == |Labels(problem)| && g0[v][i].to < |g0| && g0[v][r].to < |g0|
    ensures Labels(problem)[g0[v][i].to] != Labels(problem)[g0[v][r].to]
  {
    hide LabelOf, Labels, ArcOfEdge, HandleOf, Paired;
  }

  lemma InTurn(problem: Problem, g0: Graph, g: Graph, handles: Handles, p: seq<real>, nodes: NodeIndex, v: nat, n: Node, m: Node,
               r: nat, s: seq<int>)
    requires Solved(problem, g0, g, handles, p, nodes) && At(Labels(problem), v, n)
    requires Edge(m, n) in handles && forall x :: Edge(x, n) in handles ==> x == m
    requires HasArc(g0, v, r) && |g| == |g0| == |Labels(problem)| && |g[v]| == |g0[v]| == |s|
    requires g0[v][r].to < |g0| && Labels(problem)[g0[v][r].to] == m
    requires forall i: nat :: i < |s| ==> s[i] == g[v][i].capacity - g0[v][i].capacity
    ensures Turns(s, r, true)
  {
    hide LabelOf, Labels, Solved, Used;
    ArcChange(problem, g0, g, handles, p, nodes, v, r);
    forall i: nat | i < |s| && i != r
      ensures -1 <= s[i] <= 0
    {
      assert HasArc(g0, v, i);
      ArcChange(problem, g0, g, handles, p, nodes, v, i);
      OneArcTo(problem, g0, g, handles, p, nodes, v, i, r);
    }
  }

  /** A node with the single outgoing edge to `m`. */
  lemma OneOut(problem: Problem, g0: Graph, g: Graph, handles: Handles, p: seq<real>, nodes: NodeIndex, v: nat, n: Node, m: Node)
    requires Solved(problem, g0, g, handles, p, nodes) && At(Labels(problem), v, n)
    requires v != nodes.source && v != nodes.sink
    requires Edge(n, m) in handles && forall x :: Edge(n, x) in handles ==> x == m
    ensures Used(g, handles, Edge(n, m)) <==> exists x :: Used(g, handles, Edge(x, n))
    ensures forall x, y :: Used(g, handles, Edge(x, n)) && Used(g, handles, Edge(y, n)) ==> x == y
  {
    hide LabelOf, Labels, Solved, Built, Turns, Sum;
    SolvedBasics(problem, g0, g, handles, p, nodes);
    var labels := Labels(problem);
    var s := InnerNodeBalances(problem, g0, g, handles, p, nodes, v);
    var r := OutArc(problem, g0, g, handles, p, nodes, v, n, m);
    ArcChange(problem, g0, g, handles, p, nodes, v, r);
    OutTurn(problem, g0, g, handles, p, nodes, v, n, m, r, s);
    BalancedTurn(s, r, false);
    if Used(g, handles, Edge(n, m)) {
      var i: nat :| i < |s| && i != r && s[i] != 0;
      ArcChange(problem, g0, g, handles, p, nodes, v, i);
      assert Used(g, handles, Edge(labels[g0[v][i].to], n));
    }
    forall x, y | Used(g, handles, Edge(x, n)) && Used(g, handles, Edge(y, n))
      ensures x == y && Used(g, handles, Edge(n, m))
    {
      var i := BackArc(problem, g0, handles, Edge(x, n), v);
      var j := BackArc(problem, g0, handles, Edge(y, n), v);
      ArcChange(problem, g0, g, handles, p, nodes, v, i);
      ArcChange(problem, g0, g, handles, p, nodes, v, j);
    }
  }

  lemma OutTurn(problem: Problem, g0: Graph, g: Graph, handles: Handles, p: seq<real>, nodes: NodeIndex, v: nat, n: Node, m: Node,
                r: nat, s: seq<int>)
    requires Solved(problem, g0, g, handles, p, nodes) && At(Labels(problem), v, n)
    requires Edge(n, m) in handles && forall x :: Edge(n, x) in handles ==> x == m
    requires HasArc(g0, v, r) && |g| == |g0| == |Labels(problem)| && |g[v]| == |g0[v]| == |s|
    requires g0[v][r].to < |g0| && Labels(problem)[g0[v][r].to] == m
    requires forall i: nat :: i < |s| ==> s[i] == g[v][i].capacity - g0[v][i].capacity
    ensures Turns(s, r, false)
  {
    hide LabelOf, Labels, Solved, Used;
    ArcChange(problem, g0, g, handles, p, nodes, v, r);
    forall i: nat | i < |s| && i != r
      ensures 0 <= s[i] <= 1
    {
      assert HasArc(g0, v, i);
      ArcChange(problem, g0, g, handles, p, nodes, v, i);
      OneArcTo(problem, g0, g, handles, p, nodes, v, i, r);
    }
  }
}
