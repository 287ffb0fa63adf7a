/** From a saturated quota network to the zone assignment it stands for, and why no assignment
    serves more zones, nor the same number at a lower total transit cost.

    Both bounds are one argument.  Give every edge a weight that is at most zero where
    the flow uses the edge and at least zero where it does not: then the edges of the
    flow weigh no more than those of any assignment.  A closed cut is one such weighting,
    and counts zones; prices are another, and count transit cost.
  */
module QuotaAssignment {

  import opened Finite
  import opened Matching
  import opened ShortestPaths
  import opened MinCostFlow
  import opened QuotaNetwork
  import opened QuotaConservation

  /** The task and the aircraft that serve each zone that is served. */
  type Assignment = map<nat, (Task, Uav)>

  ghost predicate IsAssignment(problem: Problem, a: Assignment) {
    && (forall k :: k in a ==> k < |problem.quotas| && a[k].0 in problem.quotas[k].candidates
                               && a[k].0 in problem.adjacency && a[k].1 in problem.adjacency[a[k].0])
    && (forall k, j :: k in a && j in a && k != j ==> a[k].0 != a[j].0 && a[k].1 != a[j].1)
  }

  /** The total transit cost of the zones below `n`. */
  ghost function TransitCost(problem: Problem, a: Assignment, n: nat): real {
    if n == 0 then 0.0
    else TransitCost(problem, a, n - 1) + if n - 1 in a then problem.Cost(a[n - 1].0, a[n - 1].1) else 0.0
  }

  ghost function Total(problem: Problem, a: Assignment): real {
    TransitCost(problem, a, |problem.quotas|)
  }

  /** Most zones served, and cheapest among the assignments that serve as many. */
  ghost predicate IsOptimal(problem: Problem, a: Assignment) {
    && IsAssignment(problem, a)
    && forall other :: IsAssignment(problem, other) ==>
         |other| <= |a| && (|other| == |a| ==> Total(problem, a) <= Total(problem, other))
  }

  // --------------------------------------------------------------- conservation

  ghost predicate ZonesPass(problem: Problem, used: set<Edge>) {
    && (forall k: nat :: k < |problem.quotas| ==>
          (Edge(Source, Zone(k)) in used <==> exists t :: Edge(Zone(k), Entry(t)) in used))
    && (forall k: nat, t, t' :: Edge(Zone(k), Entry(t)) in used && Edge(Zone(k), Entry(t')) in used ==> t == t')
  }

  ghost predicate EntriesPass(problem: Problem, used: set<Edge>) {
    && (forall t :: t in problem.tasks ==>
          (Edge(Entry(t), Exit(t)) in used <==> exists k: nat :: Edge(Zone(k), Entry(t)) in used))
    && (forall t, k: nat, k': nat :: Edge(Zone(k), Entry(t)) in used && Edge(Zone(k'), Entry(t)) in used ==> k == k')
  }

  ghost predicate ExitsPass(problem: Problem, used: set<Edge>) {
    && (forall t :: t in problem.tasks ==>
          (Edge(Entry(t), Exit(t)) in used <==> exists u :: Edge(Exit(t), Craft(u)) in used))
    && (forall t, u, u' :: Edge(Exit(t), Craft(u)) in used && Edge(Exit(t), Craft(u')) in used ==> u == u')
  }

  ghost predicate CraftsPass(problem: Problem, used: set<Edge>) {
    && (forall u :: u in problem.uavs ==>
          (Edge(Craft(u), Sink) in used <==> exists t :: Edge(Exit(t), Craft(u)) in used))
    && (forall u, t, t' :: Edge(Exit(t), Craft(u)) in used && Edge(Exit(t'), Craft(u)) in used ==> t == t')
  }

  /** Flow in equals flow out at every inner node, in terms of the edges used. */
  ghost predicate Conserving(problem: Problem, used: set<Edge>) {
    && (forall e :: e in used ==> IsEdge(problem, e))
    && ZonesPass(problem, used) && EntriesPass(problem, used) && ExitsPass(problem, used) && CraftsPass(problem, used)
  }

  ghost function UsedEdges(g: Graph, handles: Handles): set<Edge> {
    set e | e in handles && Used(g, handles, e)
  }

  lemma ZoneConserves(problem: Problem, g0: Graph, g: Graph, handles: Handles, p: seq<real>, nodes: NodeIndex, k: nat)
    requires Solved(problem, g0, g, handles, p, nodes) && k < |problem.quotas|
    ensures Used(g, handles, Edge(Source, Zone(k))) <==> exists t :: Used(g, handles, Edge(Zone(k), Entry(t)))
    ensures forall t, t' :: Used(g, handles, Edge(Zone(k), Entry(t))) && Used(g, handles, Edge(Zone(k), Entry(t'))) ==> t == t'
  {
    hide LabelOf, Labels, Flow, Built;
    assert IsEdge(problem, Edge(Source, Zone(k)));
    OneIn(problem, g0, g, handles, p, nodes, nodes.zones[k], Zone(k), Source);
    if Used(g, handles, Edge(Source, Zone(k))) {
      var x :| Used(g, handles, Edge(Zone(k), x));
      assert IsEdge(problem, Edge(Zone(k), x));
      assert Used(g, handles, Edge(Zone(k), Entry(x.task)));
    }
  }

  lemma EntryConserves(problem: Problem, g0: Graph, g: Graph, handles: Handles, p: seq<real>, nodes: NodeIndex, t: Task)
    requires Solved(problem, g0, g, handles, p, nodes) && t in problem.tasks
    ensures Used(g, handles, Edge(Entry(t), Exit(t))) <==> exists k: nat :: Used(g, handles, Edge(Zone(k), Entry(t)))
    ensures forall k: nat, k': nat :: Used(g, handles, Edge(Zone(k), Entry(t))) && Used(g, handles, Edge(Zone(k'), Entry(t))) ==> k == k'
  {
    hide LabelOf, Labels, Flow, Built;
    assert IsEdge(problem, Edge(Entry(t), Exit(t)));
    OneOut(problem, g0, g, handles, p, nodes, nodes.entry[t], Entry(t), Exit(t));
    if Used(g, handles, Edge(Entry(t), Exit(t))) {
      var x :| Used(g, handles, Edge(x, Entry(t)));
      assert IsEdge(problem, Edge(x, Entry(t)));
      assert Used(g, handles, Edge(Zone(x.k), Entry(t)));
    }
  }

  lemma ExitConserves(problem: Problem, g0: Graph, g: Graph, handles: Handles, p: seq<real>, nodes: NodeIndex, t: Task)
    requires Solved(problem, g0, g, handles, p, nodes) && t in problem.tasks
    ensures Used(g, handles, Edge(Entry(t), Exit(t))) <==> exists u :: Used(g, handles, Edge(Exit(t), Craft(u)))
    ensures forall u, u' :: Used(g, handles, Edge(Exit(t), Craft(u))) && Used(g, handles, Edge(Exit(t), Craft(u'))) ==> u == u'
  {
    hide LabelOf, Labels, Flow, Built;
    assert IsEdge(problem, Edge(Entry(t), Exit(t)));
    OneIn(problem, g0, g, handles, p, nodes, nodes.exit[t], Exit(t), Entry(t));
    if Used(g, handles, Edge(Entry(t), Exit(t))) {
      var x :| Used(g, handles, Edge(Exit(t), x));
      assert IsEdge(problem, Edge(Exit(t), x));
      assert Used(g, handles, Edge(Exit(t), Craft(x.uav)));
    }
  }

  lemma CraftConserves(problem: Problem, g0: Graph, g: Graph, handles: Handles, p: seq<real>, nodes: NodeIndex, u: Uav)
    requires Solved(problem, g0, g, handles, p, nodes) && u in problem.uavs
    ensures Used(g, handles, Edge(Craft(u), Sink)) <==> exists t :: Used(g, handles, Edge(Exit(t), Craft(u)))
    ensures forall t, t' :: Used(g, handles, Edge(Exit(t), Craft(u))) && Used(g, handles, Edge(Exit(t'), Craft(u))) ==> t == t'
  {
    hide LabelOf, Labels, Flow, Built;
    assert IsEdge(problem, Edge(Craft(u), Sink));
    OneOut(problem, g0, g, handles, p, nodes, nodes.craft[u], Craft(u), Sink);
    if Used(g, handles, Edge(Craft(u), Sink)) {
      var x :| Used(g, handles, Edge(x, Craft(u)));
      assert IsEdge(problem, Edge(x, Craft(u)));
      assert Used(g, handles, Edge(Exit(x.task), Craft(u)));
    }
  }

  lemma SolvedConserves(problem: Problem, g0: Graph, g: Graph, handles: Handles, p: seq<real>, nodes: NodeIndex)
    requires Solved(problem, g0, g, handles, p, nodes)
    ensures Conserving(problem, UsedEdges(g, handles))
  {
    hide Solved, IsEdge;
    var used := UsedEdges(g, handles);
    assert forall e :: e in used <==> Used(g, handles, e);
    assert forall e :: e in used ==> IsEdge(problem, e) by { UsedAreEdges(problem, g0, g, handles, p, nodes); }
    forall k: nat | k < |problem.quotas|
      ensures Edge(Source, Zone(k)) in used <==> exists t :: Edge(Zone(k), Entry(t)) in used
      ensures forall t, t' :: Edge(Zone(k), Entry(t)) in used && Edge(Zone(k), Entry(t')) in used ==> t == t'
    {
      ZoneConserves(problem, g0, g, handles, p, nodes, k);
    }
    forall t | t in problem.tasks
      ensures Edge(Entry(t), Exit(t)) in used <==> exists k: nat :: Edge(Zone(k), Entry(t)) in used
      ensures forall k: nat, k': nat :: Edge(Zone(k), Entry(t)) in used && Edge(Zone(k'), Entry(t)) in used ==> k == k'
      ensures Edge(Entry(t), Exit(t)) in used <==> exists u :: Edge(Exit(t), Craft(u)) in used
      ensures forall u, u' :: Edge(Exit(t), Craft(u)) in used && Edge(Exit(t), Craft(u')) in used ==> u == u'
    {
      EntryConserves(problem, g0, g, handles, p, nodes, t);
      ExitConserves(problem, g0, g, handles, p, nodes, t);
    }
    forall u | u in problem.uavs
      ensures Edge(Craft(u), Sink) in used <==> exists t :: Edge(Exit(t), Craft(u)) in used
      ensures forall t, t' :: Edge(Exit(t), Craft(u)) in used && Edge(Exit(t'), Craft(u)) in used ==> t == t'
    {
      CraftConserves(problem, g0, g, handles, p, nodes, u);
    }
    EdgeEnds(problem, g0, g, handles, p, nodes);
  }

  lemma UsedAreEdges(problem: Problem, g0: Graph, g: Graph, handles: Handles, p: seq<real>, nodes: NodeIndex)
    requires Solved(problem, g0, g, handles, p, nodes)
    ensures forall e :: e in UsedEdges(g, handles) ==> IsEdge(problem, e)
  {
  }

  /** Edges only name zones, tasks and aircraft of the problem. */
  lemma EdgeEnds(problem: Problem, g0: Graph, g: Graph, handles: Handles, p: seq<real>, nodes: NodeIndex)
    requires Solved(problem, g0, g, handles, p, nodes)
    ensures forall k: nat, t :: IsEdge(problem, Edge(Zone(k), Entry(t))) ==> k < |problem.quotas| && t in problem.tasks
    ensures forall t, u :: IsEdge(problem, Edge(Exit(t), Craft(u))) ==> t in problem.tasks && u in problem.uavs
  {
  }

  // ------------------------------------------------------------------ extraction

  /** `a` follows the used edges from every zone the source sends flow to. */
  ghost predicate Follows(problem: Problem, used: set<Edge>, a: Assignment) {
    && (forall k: nat :: k in a <==> Edge(Source, Zone(k)) in used)
    && (forall k: nat :: k in a ==> Edge(Zone(k), Entry(a[k].0)) in used && Edge(Exit(a[k].0), Craft(a[k].1)) in used)
  }

  ghost function PathEdges(k: nat, t: Task, u: Uav): set<Edge> {
    {Edge(Source, Zone(k)), Edge(Zone(k), Entry(t)), Edge(Entry(t), Exit(t)), Edge(Exit(t), Craft(u)), Edge(Craft(u), Sink)}
  }

  ghost predicate OnPath(a: Assignment, e: Edge) {
    exists k :: k in a && e in PathEdges(k, a[k].0, a[k].1)
  }

  /** Following the used edges yields an assignment, and every used edge lies on one of its paths. */
  lemma FollowedIsAssignment(problem: Problem, used: set<Edge>, a: Assignment)
    requires problem.Valid() && Conserving(problem, used) && Follows(problem, used, a)
    ensures IsAssignment(problem, a)
  {
    forall k | k in a
      ensures k < |problem.quotas| && a[k].0 in problem.quotas[k].candidates
      ensures a[k].0 in problem.adjacency && a[k].1 in problem.adjacency[a[k].0]
    {
      assert IsEdge(problem, Edge(Zone(k), Entry(a[k].0)));
      assert IsEdge(problem, Edge(Exit(a[k].0), Craft(a[k].1)));
    }
    forall k, j | k in a && j in a && k != j
      ensures a[k].0 != a[j].0 && a[k].1 != a[j].1
    {
      assert Edge(Zone(k), Entry(a[k].0)) in used && Edge(Zone(j), Entry(a[j].0)) in used;
      assert Edge(Exit(a[k].0), Craft(a[k].1)) in used && Edge(Exit(a[j].0), Craft(a[j].1)) in used;
    }
  }

  lemma UsedIsOnPath(problem: Problem, used: set<Edge>, a: Assignment, e: Edge)
    requires problem.Valid() && Conserving(problem, used) && Follows(problem, used, a) && e in used
    ensures OnPath(a, e)
  {
    assert IsEdge(problem, e);
    match e.b
    case Zone(k) =>
      assert e in PathEdges(k, a[k].0, a[k].1);
    case Entry(t) =>
      ZoneOfTask(problem, used, a, e.a.k, t);
      assert e in PathEdges(e.a.k, a[e.a.k].0, a[e.a.k].1);
    case Exit(t) =>
      var k: nat :| Edge(Zone(k), Entry(t)) in used;
      ZoneOfTask(problem, used, a, k, t);
      assert e in PathEdges(k, a[k].0, a[k].1);
    case Craft(u) =>
      var k := CraftOfTask(problem, used, a, e.a.task, u);
      assert e in PathEdges(k, a[k].0, a[k].1);
    case Sink =>
      var t :| Edge(Exit(t), Craft(e.a.uav)) in used;
      var k := CraftOfTask(problem, used, a, t, e.a.uav);
      assert e in PathEdges(k, a[k].0, a[k].1);
  }

  lemma ZoneOfTask(problem: Problem, used: set<Edge>, a: Assignment, k: nat, t: Task)
    requires problem.Valid() && Conserving(problem, used) && Follows(problem, used, a)
    requires Edge(Zone(k), Entry(t)) in used
    ensures k in a && a[k].0 == t
  {
    assert IsEdge(problem, Edge(Zone(k), Entry(t)));
    assert Edge(Source, Zone(k)) in used;
    assert Edge(Zone(k), Entry(a[k].0)) in used;
  }

  lemma CraftOfTask(problem: Problem, used: set<Edge>, a: Assignment, t: Task, u: Uav) returns (k: nat)
    requires problem.Valid() && Conserving(problem, used) && Follows(problem, used, a)
    requires Edge(Exit(t), Craft(u)) in used
    ensures k in a && a[k] == (t, u)
  {
    assert IsEdge(problem, Edge(Exit(t), Craft(u)));
    assert Edge(Entry(t), Exit(t)) in used;
    k :| Edge(Zone(k), Entry(t)) in used;
    ZoneOfTask(problem, used, a, k, t);
    assert Edge(Exit(a[k].0), Craft(a[k].1)) in used;
  }

  lemma TaskIsUsed(problem: Problem, used: set<Edge>, k: nat, t: Task, u: Uav)
    requires problem.Valid() && Conserving(problem, used)
    requires Edge(Zone(k), Entry(t)) in used && Edge(Exit(t), Craft(u)) in used
    ensures Edge(Entry(t), Exit(t)) in used && Edge(Craft(u), Sink) in used
  {
    assert IsEdge(problem, Edge(Exit(t), Craft(u)));
    assert t in problem.tasks && u in problem.uavs;
    hide ZonesPass, ExitsPass;
  }

  lemma PathIsUsed(problem: Problem, used: set<Edge>, a: Assignment, k: nat)
    requires problem.Valid() && Conserving(problem, used) && Follows(problem, used, a) && k in a
    ensures PathEdges(k, a[k].0, a[k].1) <= used
  {
    hide Conserving;
    TaskIsUsed(problem, used, k, a[k].0, a[k].1);
  }

  // ---------------------------------------------------------------- weighing edges

  ghost function Weigh(s: set<Edge>, w: Edge -> real): real
    decreases |s|
  {
    if s == {} then 0.0 else
      var e :| e in s;
      w(e) + Weigh(s - {e}, w)
  }

  lemma {:induction false} WeighOne(s: set<Edge>, w: Edge -> real, e: Edge)
    requires e in s
    ensures Weigh(s, w) == w(e) + Weigh(s - {e}, w)
    decreases |s|
  {
    var x :| x in s && Weigh(s, w) == w(x) + Weigh(s - {x}, w);
    if x != e {
      WeighOne(s - {x}, w, e);
      WeighOne(s - {e}, w, x);
      assert s - {x} - {e} == s - {e} - {x};
    }
  }

  lemma {:induction false} WeighUnion(s: set<Edge>, t: set<Edge>, w: Edge -> real)
    requires s !! t
    ensures Weigh(s + t, w) == Weigh(s, w) + Weigh(t, w)
    decreases |s|
  {
    if s == {} {
      assert s + t == t;
    } else {
      var e :| e in s;
      WeighOne(s, w, e);
      WeighOne(s + t, w, e);
      assert s + t - {e} == (s - {e}) + t;
      WeighUnion(s - {e}, t, w);
    }
  }

  lemma {:induction false} WeighSign(s: set<Edge>, w: Edge -> real)
    ensures (forall e :: e in s ==> w(e) >= 0.0) ==> Weigh(s, w) >= 0.0
    ensures (forall e :: e in s ==> w(e) <= 0.0) ==> Weigh(s, w) <= 0.0
    decreases |s|
  {
    if s != {} {
      var e :| e in s && Weigh(s, w) == w(e) + Weigh(s - {e}, w);
      WeighSign(s - {e}, w);
    }
  }

  /** Edges that all weigh at most zero, against edges that weigh at least zero elsewhere. */
  lemma LightestEdges(used: set<Edge>, other: set<Edge>, w: Edge -> real)
    requires forall e :: e in used ==> w(e) <= 0.0
    requires forall e :: e in other && e !in used ==> w(e) >= 0.0
    ensures Weigh(used, w) <= Weigh(other, w)
  {
    assert used == (used * other) + (used - other);
    assert other == (used * other) + (other - used);
    WeighUnion(used * other, used - other, w);
    WeighUnion(used * other, other - used, w);
    WeighSign(used - other, w);
    WeighSign(other - used, w);
  }

  ghost function PathWeight(k: nat, t: Task, u: Uav, w: Edge -> real): real {
    w(Edge(Source, Zone(k))) + w(Edge(Zone(k), Entry(t))) + w(Edge(Entry(t), Exit(t)))
    + w(Edge(Exit(t), Craft(u))) + w(Edge(Craft(u), Sink))
  }

  lemma WeighPath(k: nat, t: Task, u: Uav, w: Edge -> real)
    ensures Weigh(PathEdges(k, t, u), w) == PathWeight(k, t, u, w)
  {
    var e1, e2, e3 := Edge(Source, Zone(k)), Edge(Zone(k), Entry(t)), Edge(Entry(t), Exit(t));
    var e4, e5 := Edge(Exit(t), Craft(u)), Edge(Craft(u), Sink);
    WeighOne({e1, e2, e3, e4, e5}, w, e1);
    assert {e1, e2, e3, e4, e5} - {e1} == {e2, e3, e4, e5};
    WeighOne({e2, e3, e4, e5}, w, e2);
    assert {e2, e3, e4, e5} - {e2} == {e3, e4, e5};
    WeighOne({e3, e4, e5}, w, e3);
    assert {e3, e4, e5} - {e3} == {e4, e5};
    WeighOne({e4, e5}, w, e4);
    assert {e4, e5} - {e4} == {e5};
    WeighOne({e5}, w, e5);
    assert {e5} - {e5} == {};
  }

  /** The edges on the paths of the zones below `n`. */
  ghost function EdgesOf(a: Assignment, n: nat): set<Edge> {
    if n == 0 then {}
    else EdgesOf(a, n - 1) + if n - 1 in a then PathEdges(n - 1, a[n - 1].0, a[n - 1].1) else {}
  }

  ghost function PathsWeight(a: Assignment, n: nat, w: Edge -> real): real {
    if n == 0 then 0.0
    else PathsWeight(a, n - 1, w) + if n - 1 in a then PathWeight(n - 1, a[n - 1].0, a[n - 1].1, w) else 0.0
  }

  lemma {:induction false} EdgesOfArePaths(a: Assignment, n: nat, e: Edge)
    ensures e in EdgesOf(a, n) <==> exists k :: k in a && k < n && e in PathEdges(k, a[k].0, a[k].1)
  {
    if n > 0 {
      EdgesOfArePaths(a, n - 1, e);
    }
  }

  lemma {:induction false} WeighPaths(problem: Problem, a: Assignment, n: nat, w: Edge -> real)
    requires IsAssignment(problem, a)
    ensures Weigh(EdgesOf(a, n), w) == PathsWeight(a, n, w)
  {
    if n > 0 {
      WeighPaths(problem, a, n - 1, w);
      if n - 1 in a {
        var path := PathEdges(n - 1, a[n - 1].0, a[n - 1].1);
        forall e | e in path
          ensures e !in EdgesOf(a, n - 1)
        {
          EdgesOfArePaths(a, n - 1, e);
        }
        WeighUnion(EdgesOf(a, n - 1), path, w);
        WeighPath(n - 1, a[n - 1].0, a[n - 1].1, w);
      } else {
        assert EdgesOf(a, n) == EdgesOf(a, n - 1);
      }
    }
  }

  lemma UsedAreItsPaths(problem: Problem, used: set<Edge>, a: Assignment)
    requires problem.Valid() && Conserving(problem, used) && Follows(problem, used, a)
    ensures used == EdgesOf(a, |problem.quotas|)
  {
    hide Conserving, Follows;
    FollowedIsAssignment(problem, used, a);
    forall e
      ensures e in used <==> e in EdgesOf(a, |problem.quotas|)
    {
      EdgesOfArePaths(a, |problem.quotas|, e);
      if e in used {
        UsedIsOnPath(problem, used, a, e);
      }
      if e in EdgesOf(a, |problem.quotas|) {
        var k :| k in a && k < |problem.quotas| && e in PathEdges(k, a[k].0, a[k].1);
        PathIsUsed(problem, used, a, k);
      }
    }
  }

  // ---------------------------------------------------------------------- duality

  /** The price of a node, read off the node numbers. */
  ghost function PriceAt(labels: seq<Node>, p: seq<real>, n: Node): real {
    if exists v: nat :: At(labels, v, n) && v < |p| then
      var v: nat :| At(labels, v, n) && v < |p|;
      p[v]
    else 0.0
  }

  lemma PriceAtNumber(labels: seq<Node>, p: seq<real>, n: Node, v: nat)
    requires Distinct(labels) && At(labels, v, n) && v < |p|
    ensures PriceAt(labels, p, n) == p[v]
  {
  }

  /** The cost of an edge reduced by the prices of its ends. */
  ghost function ReducedCost(problem: Problem, labels: seq<Node>, p: seq<real>, e: Edge): real {
    EdgeCost(problem, e) + PriceAt(labels, p, e.a) - PriceAt(labels, p, e.b)
  }

  /** The number of zones below `n` that are served. */
  ghost function Served(a: Assignment, n: nat): nat {
    if n == 0 then 0 else Served(a, n - 1) + if n - 1 in a then 1 else 0
  }

  lemma {:induction false} ServedIsCard(a: Assignment, n: nat)
    ensures Served(a, n) == |a.Keys * Below(n)|
  {
    if n > 0 {
      var k := n - 1;
      ServedIsCard(a, k);
      BelowStep(a.Keys, k);
    } else {
      assert a.Keys * Below(0) == {};
    }
  }

  lemma BelowStep(keys: set<nat>, k: nat)
    ensures |keys * Below(k + 1)| == |keys * Below(k)| + if k in keys then 1 else 0
  {
    var before, after := keys * Below(k), keys * Below(k + 1);
    if k in keys {
      assert after == before + {k};
    } else {
      assert after == before;
    }
  }

  lemma ServedIsAll(a: Assignment, n: nat)
    requires forall k :: k in a ==> k < n
    ensures Served(a, n) == |a|
  {
    ServedIsCard(a, n);
    assert a.Keys * Below(n) == a.Keys;
    assert |a| == |a.Keys|;
  }

  /** Along a path the prices cancel but for its ends. */
  lemma PathPricesCancel(problem: Problem, labels: seq<Node>, p: seq<real>, k: nat, t: Task, u: Uav)
    ensures PathWeight(k, t, u, e => ReducedCost(problem, labels, p, e))
         == problem.Cost(t, u) + (PriceAt(labels, p, Source) - PriceAt(labels, p, Sink))
  {
  }

  ghost function Times(n: nat, d: real): real {
    n as real * d
  }

  lemma OneMore(n: nat, d: real)
    ensures Times(n + 1, d) == Times(n, d) + d && Times(0, d) == 0.0
  {
  }

  lemma {:induction false} PricesCancel(problem: Problem, labels: seq<Node>, p: seq<real>, a: Assignment, n: nat)
    ensures PathsWeight(a, n, e => ReducedCost(problem, labels, p, e))
         == TransitCost(problem, a, n) + Times(Served(a, n), PriceAt(labels, p, Source) - PriceAt(labels, p, Sink))
  {
    hide PathWeight, PriceAt, ReducedCost, Times;
    OneMore(0, PriceAt(labels, p, Source) - PriceAt(labels, p, Sink));
    if n > 0 {
      PricesCancel(problem, labels, p, a, n - 1);
      if n - 1 in a {
        PathPricesCancel(problem, labels, p, n - 1, a[n - 1].0, a[n - 1].1);
        OneMore(Served(a, n - 1), PriceAt(labels, p, Source) - PriceAt(labels, p, Sink));
      }
    }
  }

  /** Reduced costs are at most zero on used edges and at least zero on the others. */
  ghost predicate Slack(problem: Problem, handles: Handles, used: set<Edge>, labels: seq<Node>, p: seq<real>) {
    forall e :: e in handles ==>
      if e in used then ReducedCost(problem, labels, p, e) <= 0.0 else ReducedCost(problem, labels, p, e) >= 0.0
  }

  /** The edge `e` in the saturated graph: its arc, and the reverse arc. */
  lemma EdgeInGraph(problem: Problem, g0: Graph, g: Graph, handles: Handles, p: seq<real>, nodes: NodeIndex, e: Edge)
    returns (v: nat, i: nat, w: nat, j: nat)
    requires Solved(problem, g0, g, handles, p, nodes) && e in handles
    ensures HasArc(g, v, i) && handles[e] == (v, i) && At(Labels(problem), v, e.a)
    ensures g[v][i].to == w && g[v][i].cost == EdgeCost(problem, e)
    ensures HasArc(g, w, j) && g[w][j].to == v && g[w][j].cost == -EdgeCost(problem, e) && At(Labels(problem), w, e.b)
    ensures if Used(g, handles, e) then g[w][j].capacity == 1 else g[v][i].capacity == 1
  {
    hide LabelOf, Labels;
    v, i := handles[e].0, handles[e].1;
    assert HandleOf(g0, Labels(problem), e, handles[e]);
    assert ArcOfEdge(problem, g0, Labels(problem), handles, v, i);
    assert HasArc(g, v, i) && PairedArc(g, v, i);
    w, j := g[v][i].to, g[v][i].reverse;
    assert g[v][i] == g0[v][i].(capacity := g[v][i].capacity);
  }

  lemma PricesGiveSlack(problem: Problem, g0: Graph, g: Graph, handles: Handles, p: seq<real>, nodes: NodeIndex)
    requires Solved(problem, g0, g, handles, p, nodes)
    ensures Slack(problem, handles, UsedEdges(g, handles), Labels(problem), p)
  {
    hide LabelOf, Labels;
    forall e | e in handles
      ensures if e in UsedEdges(g, handles) then ReducedCost(problem, Labels(problem), p, e) <= 0.0
              else ReducedCost(problem, Labels(problem), p, e) >= 0.0
    {
      var v, i, w, j := EdgeInGraph(problem, g0, g, handles, p, nodes, e);
      PriceAtNumber(Labels(problem), p, e.a, v);
      PriceAtNumber(Labels(problem), p, e.b, w);
      assert Priced(g, p);
    }
  }

  /** The problem with free transit, in which a cut is a set of prices. */
  ghost function FreeTransit(problem: Problem): Problem {
    problem.(transit := map[], unknownCost := 0.0)
  }

  ghost function CutPrices(cut: set<nat>, n: nat): seq<real> {
    seq(n, v => if v in cut then 0.0 else 1.0)
  }

  lemma CutGivesSlack(problem: Problem, g0: Graph, g: Graph, handles: Handles, p: seq<real>, nodes: NodeIndex, cut: set<nat>)
    requires Solved(problem, g0, g, handles, p, nodes) && Closed(g, cut)
    ensures Slack(FreeTransit(problem), handles, UsedEdges(g, handles), Labels(problem), CutPrices(cut, |g|))
  {
    hide LabelOf, Labels, Built, Indexed, Flow;
    var y := CutPrices(cut, |g|);
    forall e | e in handles
      ensures if e in UsedEdges(g, handles) then ReducedCost(FreeTransit(problem), Labels(problem), y, e) <= 0.0
              else ReducedCost(FreeTransit(problem), Labels(problem), y, e) >= 0.0
    {
      var v, i, w, j := EdgeInGraph(problem, g0, g, handles, p, nodes, e);
      SolvedBasics(problem, g0, g, handles, p, nodes);
      PriceAtNumber(Labels(problem), y, e.a, v);
      PriceAtNumber(Labels(problem), y, e.b, w);
    }
  }

  /** With slack on its side, no assignment weighs less than the followed one. */
  lemma SlackBounds(priced: Problem, problem: Problem, handles: Handles, used: set<Edge>, labels: seq<Node>, p: seq<real>,
                    a: Assignment, other: Assignment)
    requires problem.Valid() && Conserving(problem, used) && Follows(problem, used, a)
    requires forall e :: e in handles <==> IsEdge(problem, e)
    requires Slack(priced, handles, used, labels, p) && IsAssignment(problem, other)
    ensures var n := |problem.quotas|; var d := PriceAt(labels, p, Source) - PriceAt(labels, p, Sink);
            TransitCost(priced, a, n) + Times(Served(a, n), d) <= TransitCost(priced, other, n) + Times(Served(other, n), d)
  {
    hide *;
    var n := |problem.quotas|;
    var w := e => ReducedCost(priced, labels, p, e);
    FollowedIsAssignment(problem, used, a);
    UsedAreItsPaths(problem, used, a);
    OnlyEdges(problem, used);
    PathsAreEdges(problem, other, n);
    SlackSigns(priced, handles, used, EdgesOf(other, n), labels, p);
    LightestEdges(used, EdgesOf(other, n), w);
    WeighPaths(problem, a, n, w);
    WeighPaths(problem, other, n, w);
    PricesCancel(priced, labels, p, a, n);
    PricesCancel(priced, labels, p, other, n);
  }

  lemma SlackSigns(priced: Problem, handles: Handles, used: set<Edge>, other: set<Edge>, labels: seq<Node>, p: seq<real>)
    requires Slack(priced, handles, used, labels, p)
    requires forall e :: e in used || e in other ==> e in handles
    ensures forall e :: e in used ==> ReducedCost(priced, labels, p, e) <= 0.0
    ensures forall e :: e in other && e !in used ==> ReducedCost(priced, labels, p, e) >= 0.0
  {
  }

  lemma OnlyEdges(problem: Problem, used: set<Edge>)
    requires Conserving(problem, used)
    ensures forall e :: e in used ==> IsEdge(problem, e)
  {
  }

  lemma PathsAreEdges(problem: Problem, a: Assignment, n: nat)
    requires problem.Valid() && IsAssignment(problem, a)
    ensures forall e :: e in EdgesOf(a, n) ==> IsEdge(problem, e)
  {
    forall e | e in EdgesOf(a, n)
      ensures IsEdge(problem, e)
    {
      EdgesOfArePaths(a, n, e);
    }
  }

  lemma {:induction false} FreeTransitIsFree(problem: Problem, a: Assignment, n: nat)
    ensures TransitCost(FreeTransit(problem), a, n) == 0.0
  {
    if n > 0 {
      FreeTransitIsFree(problem, a, n - 1);
    }
  }

  /** The assignment read off a saturated network is optimal. */
  lemma FlowIsOptimal(problem: Problem, g0: Graph, g: Graph, handles: Handles, p: seq<real>, nodes: NodeIndex,
                      cut: set<nat>, a: Assignment)
    requires Solved(problem, g0, g, handles, p, nodes)
    requires Closed(g, cut) && nodes.source in cut && nodes.sink !in cut
    requires Follows(problem, UsedEdges(g, handles), a)
    ensures IsOptimal(problem, a)
  {
    hide *;
    var used := UsedEdges(g, handles);
    SolvedConserves(problem, g0, g, handles, p, nodes);
    SolvedFacts(problem, g0, g, handles, p, nodes);
    FollowedIsAssignment(problem, used, a);
    forall other | IsAssignment(problem, other)
      ensures |other| <= |a| && (|other| == |a| ==> Total(problem, a) <= Total(problem, other))
    {
      AtMostAsMany(problem, g0, g, handles, p, nodes, cut, a, other);
      AtLeastAsDear(problem, g0, g, handles, p, nodes, a, other);
    }
    AllBoundsGiveOptimal(problem, a);
  }

  lemma AllBoundsGiveOptimal(problem: Problem, a: Assignment)
    requires IsAssignment(problem, a)
    requires forall other :: IsAssignment(problem, other) ==>
               |other| <= |a| && (|other| == |a| ==> Total(problem, a) <= Total(problem, other))
    ensures IsOptimal(problem, a)
  {
  }

  lemma SolvedFacts(problem: Problem, g0: Graph, g: Graph, handles: Handles, p: seq<real>, nodes: NodeIndex)
    requires Solved(problem, g0, g, handles, p, nodes)
    ensures problem.Valid() && (forall e :: e in handles <==> IsEdge(problem, e))
    ensures |Labels(problem)| == |g| == |p| && Distinct(Labels(problem))
    ensures At(Labels(problem), nodes.source, Source) && At(Labels(problem), nodes.sink, Sink)
  {
  }

  lemma AtMostAsMany(problem: Problem, g0: Graph, g: Graph, handles: Handles, p: seq<real>, nodes: NodeIndex,
                     cut: set<nat>, a: Assignment, other: Assignment)
    requires Solved(problem, g0, g, handles, p, nodes)
    requires Closed(g, cut) && nodes.source in cut && nodes.sink !in cut
    requires Conserving(problem, UsedEdges(g, handles)) && Follows(problem, UsedEdges(g, handles), a)
    requires IsAssignment(problem, a) && IsAssignment(problem, other)
    ensures |other| <= |a|
  {
    hide Conserving, Follows, Solved, IsEdge, Labels, LabelOf, Problem.Valid;
    SolvedFacts(problem, g0, g, handles, p, nodes);
    var n := |problem.quotas|;
    var y := CutPrices(cut, |g|);
    CutGivesSlack(problem, g0, g, handles, p, nodes, cut);
    SlackBounds(FreeTransit(problem), problem, handles, UsedEdges(g, handles), Labels(problem), y, a, other);
    FreeTransitIsFree(problem, a, n);
    FreeTransitIsFree(problem, other, n);
    PriceAtNumber(Labels(problem), y, Source, nodes.source);
    PriceAtNumber(Labels(problem), y, Sink, nodes.sink);
    ServedIsAll(a, n);
    ServedIsAll(other, n);
  }

  lemma AtLeastAsDear(problem: Problem, g0: Graph, g: Graph, handles: Handles, p: seq<real>, nodes: NodeIndex,
                      a: Assignment, other: Assignment)
    requires Solved(problem, g0, g, handles, p, nodes)
    requires Conserving(problem, UsedEdges(g, handles)) && Follows(problem, UsedEdges(g, handles), a)
    requires IsAssignment(problem, a) && IsAssignment(problem, other)
    ensures |other| == |a| ==> Total(problem, a) <= Total(problem, other)
  {
    hide Conserving, Follows, Solved, IsEdge, Labels, LabelOf, Problem.Valid, Times, PriceAt, TransitCost;
    SolvedFacts(problem, g0, g, handles, p, nodes);
    PricesGiveSlack(problem, g0, g, handles, p, nodes);
    SlackBounds(problem, problem, handles, UsedEdges(g, handles), Labels(problem), p, a, other);
    ServedIsAll(a, |problem.quotas|);
    ServedIsAll(other, |problem.quotas|);
  }

  // ------------------------------------------------------------- reading it back

  /** The handle maps record all the edges of the problem, and name arcs of `g`. */
  ghost predicate Readable(problem: Problem, g: Graph, handles: Handles, zoneTask: ZoneHandles, taskUav: CraftHandles) {
    && (forall e :: e in handles <==> IsEdge(problem, e))
    && (forall e :: e in handles ==> HasArc(g, handles[e].0, handles[e].1))
    && ZonesRecorded(handles, zoneTask) && CraftsRecorded(handles, taskUav)
  }

  lemma ReadZoneEdge(problem: Problem, g: Graph, handles: Handles, zoneTask: ZoneHandles, taskUav: CraftHandles, k: nat, t: Task)
    requires Readable(problem, g, handles, zoneTask, taskUav)
    ensures (k, t) in zoneTask <==> Edge(Zone(k), Entry(t)) in handles
    ensures (k, t) in zoneTask ==>
              HasArc(g, zoneTask[(k, t)].0, zoneTask[(k, t)].1)
              && (g[zoneTask[(k, t)].0][zoneTask[(k, t)].1].capacity == 0 <==> Edge(Zone(k), Entry(t)) in UsedEdges(g, handles))
  {
  }

  lemma ReadCraftEdge(problem: Problem, g: Graph, handles: Handles, zoneTask: ZoneHandles, taskUav: CraftHandles, t: Task, u: Uav)
    requires Readable(problem, g, handles, zoneTask, taskUav) && problem.Valid()
    requires t in problem.adjacency && u in problem.adjacency[t]
    ensures (t, u) in taskUav && HasArc(g, taskUav[(t, u)].0, taskUav[(t, u)].1)
    ensures g[taskUav[(t, u)].0][taskUav[(t, u)].1].capacity == 0 <==> Edge(Exit(t), Craft(u)) in UsedEdges(g, handles)
  {
    assert IsEdge(problem, Edge(Exit(t), Craft(u)));
  }

  /** The first aircraft of `t` whose edge is saturated. */
  method FindCraft(problem: Problem, g: Graph, taskUav: CraftHandles, t: Task,
                   ghost handles: Handles, ghost zoneTask: ZoneHandles)
    returns (found: Option<Uav>)
    requires problem.Valid() && Readable(problem, g, handles, zoneTask, taskUav) && t in problem.adjacency
    ensures found.Some? ==> Edge(Exit(t), Craft(found.value)) in UsedEdges(g, handles)
    ensures found.None? ==> forall u :: u in problem.adjacency[t] ==> Edge(Exit(t), Craft(u)) !in UsedEdges(g, handles)
  {
    hide Readable, UsedEdges, Problem.Valid;
    var uavs := problem.adjacency[t];
    for i := 0 to |uavs|
      invariant forall j :: 0 <= j < i ==> Edge(Exit(t), Craft(uavs[j])) !in UsedEdges(g, handles)
    {
      ReadCraftEdge(problem, g, handles, zoneTask, taskUav, t, uavs[i]);
      var (v, k) := taskUav[(t, uavs[i])];
      if g[v][k].capacity == 0 {
        return Some(uavs[i]);
      }
    }
    return None;
  }

  /** Some used edges lead on from zone `k`, or none do. */
  ghost predicate ZoneResult(used: set<Edge>, k: nat, found: Option<(Task, Uav)>) {
    match found
    case None => forall t :: Edge(Zone(k), Entry(t)) !in used
    case Some((t, u)) => Edge(Zone(k), Entry(t)) in used && Edge(Exit(t), Craft(u)) in used
  }

  /** The first candidate of zone `k` whose edge is saturated, with its aircraft. */
  method FindForZone(problem: Problem, minimum: map<Task, real>, g: Graph, zoneTask: ZoneHandles, taskUav: CraftHandles, k: nat,
                     ghost handles: Handles)
    returns (found: Option<(Task, Uav)>)
    requires problem.Valid() && Readable(problem, g, handles, zoneTask, taskUav) && k < |problem.quotas|
    requires Conserving(problem, UsedEdges(g, handles))
    ensures ZoneResult(UsedEdges(g, handles), k, found)
  {
    hide Readable, UsedEdges, Conserving, Problem.Valid;
    var order := QuotaOrder(minimum, problem.quotas[k].candidates);
    SamePermutation(order, problem.quotas[k].candidates);
    ghost var used := UsedEdges(g, handles);
    for j := 0 to |order|
      invariant forall i :: 0 <= i < j ==> Edge(Zone(k), Entry(order[i])) !in used
    {
      var t := order[j];
      ReadZoneEdge(problem, g, handles, zoneTask, taskUav, k, t);
      CandidateIsTask(problem, k, t);
      if (k, t) in zoneTask {
        var (v, i) := zoneTask[(k, t)];
        if g[v][i].capacity == 0 {
          var craft := FindCraft(problem, g, taskUav, t, handles, zoneTask);
          LeadsOn(problem, used, k, t);
          return Some((t, craft.value));
        }
      } else {
        NotUsed(g, handles, Edge(Zone(k), Entry(t)));
      }
    }
    OnlyCandidates(problem, used, k);
    return None;
  }

  lemma NotUsed(g: Graph, handles: Handles, e: Edge)
    requires e !in handles
    ensures e !in UsedEdges(g, handles)
  {
  }

  lemma CandidateIsTask(problem: Problem, k: nat, t: Task)
    requires problem.Valid() && k < |problem.quotas| && t in problem.quotas[k].candidates
    ensures t in problem.adjacency
  {
  }

  lemma LeadsOn(problem: Problem, used: set<Edge>, k: nat, t: Task)
    requires problem.Valid() && Conserving(problem, used) && Edge(Zone(k), Entry(t)) in used
    ensures t in problem.adjacency && exists u :: u in problem.adjacency[t] && Edge(Exit(t), Craft(u)) in used
  {
    assert IsEdge(problem, Edge(Zone(k), Entry(t)));
    assert Edge(Entry(t), Exit(t)) in used;
    var u :| Edge(Exit(t), Craft(u)) in used;
    assert IsEdge(problem, Edge(Exit(t), Craft(u)));
  }

  lemma OnlyCandidates(problem: Problem, used: set<Edge>, k: nat)
    requires Conserving(problem, used) && k < |problem.quotas|
    ensures forall t :: Edge(Zone(k), Entry(t)) in used ==> t in problem.quotas[k].candidates
  {
    forall t | Edge(Zone(k), Entry(t)) in used
      ensures t in problem.quotas[k].candidates
    {
      assert IsEdge(problem, Edge(Zone(k), Entry(t)));
    }
  }

  ghost predicate FollowsBelow(used: set<Edge>, a: Assignment, n: nat) {
    && (forall k :: k in a ==> k < n)
    && (forall k: nat :: k < n ==> ZoneResult(used, k, if k in a then Some(a[k]) else None))
  }

  lemma FollowedBelowAll(problem: Problem, used: set<Edge>, a: Assignment)
    requires Conserving(problem, used) && FollowsBelow(used, a, |problem.quotas|)
    ensures Follows(problem, used, a)
  {
    forall k: nat
      ensures k in a <==> Edge(Source, Zone(k)) in used
    {
      if k < |problem.quotas| {
        assert ZoneResult(used, k, if k in a then Some(a[k]) else None);
      }
      assert Edge(Source, Zone(k)) in used ==> IsEdge(problem, Edge(Source, Zone(k)));
    }
    forall k: nat | k in a
      ensures Edge(Zone(k), Entry(a[k].0)) in used && Edge(Exit(a[k].0), Craft(a[k].1)) in used
    {
      assert ZoneResult(used, k, Some(a[k]));
    }
  }

  /** Read the assignment off a saturated network, zone by zone. */
  method Extract(problem: Problem, minimum: map<Task, real>, g: Graph, zoneTask: ZoneHandles, taskUav: CraftHandles,
                 ghost handles: Handles)
    returns (a: Assignment)
    requires problem.Valid() && Readable(problem, g, handles, zoneTask, taskUav)
    requires Conserving(problem, UsedEdges(g, handles))
    ensures Follows(problem, UsedEdges(g, handles), a)
  {
    hide Readable, UsedEdges, Conserving, Problem.Valid, ZoneResult;
    a := map[];
    for k := 0 to |problem.quotas|
      invariant FollowsBelow(UsedEdges(g, handles), a, k)
    {
      var found := FindForZone(problem, minimum, g, zoneTask, taskUav, k, handles);
      if found.Some? {
        a := a[k := found.value];
      }
    }
    FollowedBelowAll(problem, UsedEdges(g, handles), a);
  }

  // ------------------------------------------------------------------ the whole run

  ghost function LevelPrice(level: nat, floor: real): real {
    if level == 0 then 0.0 else LevelPrice(level - 1, floor) + floor
  }

  /** Prices for a network nothing has been pushed through, one per level. */
  ghost function LevelPrices(labels: seq<Node>, floor: real): (p: seq<real>)
    ensures |p| == |labels|
  {
    seq(|labels|, v requires 0 <= v < |labels| => LevelPrice(labels[v].Level(), floor))
  }

  /** A cost no edge undercuts. */
  lemma {:induction false} CostFloor(transit: map<(Task, Uav), real>, unknown: real) returns (floor: real)
    ensures floor <= 0.0 && floor <= unknown && forall e :: e in transit ==> floor <= transit[e]
    decreases |transit|
  {
    if transit == map[] {
      floor := if unknown < 0.0 then unknown else 0.0;
    } else {
      var e :| e in transit;
      var rest := transit - {e};
      assert |rest.Keys| < |transit.Keys| by { assert rest.Keys == transit.Keys - {e}; }
      var low := CostFloor(rest, unknown);
      floor := if transit[e] < low then transit[e] else low;
      assert forall x :: x in transit ==> x == e || (x in rest && rest[x] == transit[x]);
    }
  }

  lemma LevelPricesArePrices(problem: Problem, g: Graph, labels: seq<Node>, handles: Handles, floor: real)
    requires Built(problem, g, labels, handles)
    requires forall e :: e in handles ==> IsEdge(problem, e)
    requires floor <= 0.0 && floor <= problem.unknownCost
    requires forall e :: e in problem.transit ==> floor <= problem.transit[e]
    ensures Priced(g, LevelPrices(labels, floor))
  {
    hide Paired;
    var p := LevelPrices(labels, floor);
    forall v: nat, i: nat | HasArc(g, v, i) && g[v][i].capacity > 0 && g[v][i].to < |g|
      ensures p[g[v][i].to] <= p[v] + g[v][i].cost
    {
      assert ArcOfEdge(problem, g, labels, handles, v, i);
      EdgeClimbsOneLevel(problem, Edge(labels[v], labels[g[v][i].to]), floor);
    }
  }

  lemma EdgeClimbsOneLevel(problem: Problem, e: Edge, floor: real)
    requires IsEdge(problem, e) && floor <= 0.0 && floor <= problem.unknownCost
    requires forall e :: e in problem.transit ==> floor <= problem.transit[e]
    ensures LevelPrice(e.b.Level(), floor) <= LevelPrice(e.a.Level(), floor) + EdgeCost(problem, e)
  {
    assert e.b.Level() == e.a.Level() + 1;
  }

  lemma StartFlow(problem: Problem, g: Graph, handles: Handles, nodes: NodeIndex) returns (p: seq<real>)
    requires Built(problem, g, Labels(problem), handles) && Indexed(problem, Labels(problem), nodes)
    requires forall e :: e in handles ==> IsEdge(problem, e)
    ensures Flow(g, g, p, nodes.source, nodes.sink)
  {
    hide LabelOf, Labels;
    var floor := CostFloor(problem.transit, problem.unknownCost);
    p := LevelPrices(Labels(problem), floor);
    LevelPricesArePrices(problem, g, Labels(problem), handles, floor);
  }

  lemma ReadableAfter(problem: Problem, g0: Graph, g: Graph, handles: Handles, p: seq<real>, nodes: NodeIndex,
                      zoneTask: ZoneHandles, taskUav: CraftHandles)
    requires Solved(problem, g0, g, handles, p, nodes)
    requires ZonesRecorded(handles, zoneTask) && CraftsRecorded(handles, taskUav)
    ensures Readable(problem, g, handles, zoneTask, taskUav)
  {
    forall e | e in handles
      ensures HasArc(g, handles[e].0, handles[e].1)
    {
      assert HandleOf(g0, Labels(problem), e, handles[e]);
    }
  }

  /** Serve as many zones as possible, each with a task of its own list on an aircraft of its own,
      at the least total transit cost. */
  method SolveQuotas(problem: Problem, minimum: map<Task, real>) returns (a: Assignment)
    requires problem.Valid()
    ensures IsOptimal(problem, a)
  {
    hide *;
    var g0, nodes, zoneTask, taskUav;
    ghost var handles;
    g0, nodes, zoneTask, taskUav, handles := BuildNetwork(problem, minimum);
    ghost var p0 := StartFlow(problem, g0, handles, nodes);
    var g;
    ghost var p, cut;
    g, p, cut := Saturate(g0, nodes.source, nodes.sink, p0);
    IsSolved(problem, g0, g, handles, p, nodes);
    SolvedConserves(problem, g0, g, handles, p, nodes);
    ReadableAfter(problem, g0, g, handles, p, nodes, zoneTask, taskUav);
    a := Extract(problem, minimum, g, zoneTask, taskUav, handles);
    FlowIsOptimal(problem, g0, g, handles, p, nodes, cut, a);
  }

  lemma IsSolved(problem: Problem, g0: Graph, g: Graph, handles: Handles, p: seq<real>, nodes: NodeIndex)
    requires problem.Valid() && Indexed(problem, Labels(problem), nodes)
    requires Built(problem, g0, Labels(problem), handles) && Flow(g0, g, p, nodes.source, nodes.sink)
    requires forall e :: e in handles <==> IsEdge(problem, e)
    ensures Solved(problem, g0, g, handles, p, nodes)
  {
  }
}
