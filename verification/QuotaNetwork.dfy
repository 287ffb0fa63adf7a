/** The flow network of the zone quotas: source - zone - task entry - task exit - aircraft - sink.

    A task is split in two nodes so that it can serve one zone only, even when it is a
    candidate of several.
  */
module QuotaNetwork {

  import opened Finite
  import opened Matching
  import opened ShortestPaths
  import opened MinCostFlow

  datatype Quota = Quota(zone: string, candidates: seq<Task>)

  /** The zones that ask for a search, the tasks and aircraft that can serve them, who can fly what,
      the transit minutes known, and the price of an unknown transit. */
  datatype Problem = Problem(quotas: seq<Quota>, tasks: seq<Task>, uavs: seq<Uav>, adjacency: Adjacency,
                             transit: map<(Task, Uav), real>, unknownCost: real)
  {
    ghost predicate Valid() {
      && Distinct(tasks) && Distinct(uavs)
      && (forall t :: t in adjacency <==> t in tasks)
      && (forall t :: t in adjacency ==> Distinct(adjacency[t]))
      && (forall t, u :: t in adjacency && u in adjacency[t] ==> u in uavs)
      && (forall k: nat :: k < |quotas| ==> Distinct(quotas[k].candidates))
      && (forall k: nat, t :: k < |quotas| && t in quotas[k].candidates ==> t in tasks)
    }

    function Cost(t: Task, u: Uav): real {
      if (t, u) in transit then transit[(t, u)] else unknownCost
    }
  }

  datatype Node = Source | Zone(k: nat) | Entry(task: Task) | Exit(task: Task) | Craft(uav: Uav) | Sink {
    ghost function Level(): nat {
      match this
      case Source => 0 case Zone(_) => 1 case Entry(_) => 2
      case Exit(_) => 3 case Craft(_) => 4 case Sink => 5
    }
  }

  datatype Edge = Edge(a: Node, b: Node)

  ghost predicate IsEdge(problem: Problem, e: Edge) {
    match (e.a, e.b)
    case (Source, Zone(k)) => k < |problem.quotas|
    case (Zone(k), Entry(t)) => k < |problem.quotas| && t in problem.quotas[k].candidates
    case (Entry(t), Exit(t')) => t == t' && t in problem.tasks
    case (Exit(t), Craft(u)) => t in problem.adjacency && u in problem.adjacency[t]
    case (Craft(u), Sink) => u in problem.uavs
    case _ => false
  }

  ghost function EdgeCost(problem: Problem, e: Edge): real {
    match (e.a, e.b)
    case (Exit(t), Craft(u)) => problem.Cost(t, u)
    case _ => 0.0
  }

  /** Where an edge starts: the node and the index of its arc in that node's list. */
  type Handles = map<Edge, (nat, nat)>

  ghost predicate HandleOf(g: Graph, labels: seq<Node>, e: Edge, h: (nat, nat)) {
    && |labels| == |g| && HasArc(g, h.0, h.1) && labels[h.0] == e.a
    && g[h.0][h.1].to < |g| && labels[g[h.0][h.1].to] == e.b
  }

  /** Every arc is an edge of `handles` taken in one direction or the other. */
  ghost predicate ArcOfEdge(problem: Problem, g: Graph, labels: seq<Node>, handles: Handles, v: nat, i: nat)
    requires |labels| == |g| && HasArc(g, v, i) && g[v][i].to < |g|
  {
    var a, b := labels[v], labels[g[v][i].to];
    || (Edge(a, b) in handles && g[v][i].capacity == 1 && g[v][i].cost == EdgeCost(problem, Edge(a, b)))
    || (Edge(b, a) in handles && g[v][i].capacity == 0 && g[v][i].cost == -EdgeCost(problem, Edge(b, a)))
  }

  /** The graph of exactly the edges in `handles`, nothing pushed yet. */
  ghost predicate Built(problem: Problem, g: Graph, labels: seq<Node>, handles: Handles) {
    && |labels| == |g| && Distinct(labels) && Paired(g) && InRange(g)
    && (forall v: nat, i: nat :: HasArc(g, v, i) ==> ArcOfEdge(problem, g, labels, handles, v, i))
    && (forall e :: e in handles ==> e.a.Level() < e.b.Level() && HandleOf(g, labels, e, handles[e]))
    && (forall v: nat, i: nat, j: nat :: HasArc(g, v, i) && HasArc(g, v, j) && i != j ==> g[v][i].to != g[v][j].to)
  }

  /** Append an edge of capacity one and its reverse arc. */
  function WithEdge(g: Graph, v: nat, w: nat, cost: real): (g': Graph)
    requires v < |g| && w < |g| && v != w
    ensures |g'| == |g|
  {
    g[v := g[v] + [Arc(w, |g[w]|, 1, cost)]]
     [w := g[w] + [Arc(v, |g[v]|, 0, -cost)]]
  }

  lemma AddEdgeKeepsBuilt(problem: Problem, g: Graph, labels: seq<Node>, handles: Handles, v: nat, w: nat, cost: real)
    requires Built(problem, g, labels, handles) && v < |g| && w < |g|
    requires labels[v].Level() < labels[w].Level()
    requires Edge(labels[v], labels[w]) !in handles && cost == EdgeCost(problem, Edge(labels[v], labels[w]))
    ensures v != w
    ensures Built(problem, WithEdge(g, v, w, cost), labels, handles[Edge(labels[v], labels[w]) := (v, |g[v]|)])
  {
    var e := Edge(labels[v], labels[w]);
    var g' := WithEdge(g, v, w, cost);
    var handles' := handles[e := (v, |g[v]|)];
    AddEdgeArcs(problem, g, labels, handles, v, w, cost);
    AddEdgeHandles(problem, g, labels, handles, v, w, cost);
    AddEdgeSimple(problem, g, labels, handles, v, w, cost);
  }

  lemma AddEdgeArcs(problem: Problem, g: Graph, labels: seq<Node>, handles: Handles, v: nat, w: nat, cost: real)
    requires Built(problem, g, labels, handles) && v < |g| && w < |g| && v != w
    requires cost == EdgeCost(problem, Edge(labels[v], labels[w]))
    ensures var g' := WithEdge(g, v, w, cost);
            var handles' := handles[Edge(labels[v], labels[w]) := (v, |g[v]|)];
            && Paired(g') && InRange(g')
            && (forall x: nat, i: nat :: HasArc(g', x, i) ==> ArcOfEdge(problem, g', labels, handles', x, i))
  {
    var g' := WithEdge(g, v, w, cost);
    var handles' := handles[Edge(labels[v], labels[w]) := (v, |g[v]|)];
    forall x: nat, i: nat | HasArc(g', x, i)
      ensures PairedArc(g', x, i) && g'[x][i].to < |g'|
      ensures ArcOfEdge(problem, g', labels, handles', x, i)
    {
      if HasArc(g, x, i) {
        assert PairedArc(g, x, i) && ArcOfEdge(problem, g, labels, handles, x, i);
        assert g'[x][i] == g[x][i];
      }
    }
  }

  lemma AddEdgeHandles(problem: Problem, g: Graph, labels: seq<Node>, handles: Handles, v: nat, w: nat, cost: real)
    requires Built(problem, g, labels, handles) && v < |g| && w < |g| && v != w
    ensures var g' := WithEdge(g, v, w, cost);
            var e := Edge(labels[v], labels[w]);
            && (forall x :: x in handles ==> HandleOf(g', labels, x, handles[x]))
            && HandleOf(g', labels, e, (v, |g[v]|))
  {
    var g' := WithEdge(g, v, w, cost);
    forall x | x in handles
      ensures HandleOf(g', labels, x, handles[x])
    {
      assert HandleOf(g, labels, x, handles[x]);
    }
    assert g'[v][|g[v]|].to == w;
  }

  lemma AddEdgeSimple(problem: Problem, g: Graph, labels: seq<Node>, handles: Handles, v: nat, w: nat, cost: real)
    requires Built(problem, g, labels, handles) && v < |g| && w < |g| && v != w
    requires labels[v].Level() < labels[w].Level() && Edge(labels[v], labels[w]) !in handles
    ensures var g' := WithEdge(g, v, w, cost);
            forall x: nat, i: nat, j: nat :: HasArc(g', x, i) && HasArc(g', x, j) && i != j ==> g'[x][i].to != g'[x][j].to
  {
    var g' := WithEdge(g, v, w, cost);
    assert Edge(labels[w], labels[v]) !in handles;
    forall i: nat | HasArc(g, v, i)
      ensures g[v][i].to != w
    {
      assert ArcOfEdge(problem, g, labels, handles, v, i);
    }
    forall i: nat | HasArc(g, w, i)
      ensures g[w][i].to != v
    {
      assert ArcOfEdge(problem, g, labels, handles, w, i);
    }
    forall x: nat, i: nat, j: nat | HasArc(g', x, i) && HasArc(g', x, j) && i < j
      ensures g'[x][i].to != g'[x][j].to
    {
      assert HasArc(g, x, i);
      assert g'[x][i] == g[x][i];
      if HasArc(g, x, j) {
        assert g'[x][j] == g[x][j];
      }
    }
  }

  // ------------------------------------------------------------------ candidate order

  /** Does `a` come before `b`: known minimum transit first, then the shorter one. */
  predicate Sooner(minimum: map<Task, real>, a: Task, b: Task) {
    a in minimum && (b !in minimum || minimum[a] < minimum[b])
  }

  function InsertTask(minimum: map<Task, real>, t: Task, sorted: seq<Task>): (r: seq<Task>)
    ensures multiset(r) == multiset{t} + multiset(sorted)
  {
    if sorted == [] || !Sooner(minimum, sorted[0], t) then [t] + sorted
    else
      assert sorted == [sorted[0]] + sorted[1..];
      [sorted[0]] + InsertTask(minimum, t, sorted[1..])
  }

  /** The candidates in the order they are tried: a stable sort by minimum transit. */
  function QuotaOrder(minimum: map<Task, real>, tasks: seq<Task>): (r: seq<Task>)
    ensures multiset(r) == multiset(tasks)
  {
    if tasks == [] then []
    else
      assert tasks == [tasks[0]] + tasks[1..];
      InsertTask(minimum, tasks[0], QuotaOrder(minimum, tasks[1..]))
  }

  ghost predicate Ordered(minimum: map<Task, real>, s: seq<Task>) {
    forall i, j :: 0 <= i < j < |s| ==> !Sooner(minimum, s[j], s[i])
  }

  lemma {:induction false} InsertKeepsOrder(minimum: map<Task, real>, t: Task, sorted: seq<Task>)
    requires Ordered(minimum, sorted)
    ensures Ordered(minimum, InsertTask(minimum, t, sorted))
  {
    var r := InsertTask(minimum, t, sorted);
    if sorted == [] || !Sooner(minimum, sorted[0], t) {
    } else {
      var rest := InsertTask(minimum, t, sorted[1..]);
      InsertKeepsOrder(minimum, t, sorted[1..]);
      forall j | 0 < j < |r|
        ensures !Sooner(minimum, r[j], r[0])
      {
        assert r[j] == rest[j - 1] && r[j] in multiset(rest);
        assert r[j] == t || r[j] in sorted[1..];
      }
    }
  }

  lemma {:induction false} QuotaOrderIsOrdered(minimum: map<Task, real>, tasks: seq<Task>)
    ensures Ordered(minimum, QuotaOrder(minimum, tasks))
  {
    if tasks != [] {
      QuotaOrderIsOrdered(minimum, tasks[1..]);
      InsertKeepsOrder(minimum, tasks[0], QuotaOrder(minimum, tasks[1..]));
    }
  }

  // ------------------------------------------------------------------ building

  datatype NodeIndex = NodeIndex(source: nat, zones: seq<nat>, entry: map<Task, nat>, exit: map<Task, nat>,
                                 craft: map<Uav, nat>, sink: nat)

  ghost predicate At(labels: seq<Node>, v: nat, n: Node) {
    v < |labels| && labels[v] == n
  }

  ghost predicate Indexed(problem: Problem, labels: seq<Node>, nodes: NodeIndex) {
    && Distinct(labels)
    && At(labels, nodes.source, Source) && At(labels, nodes.sink, Sink)
    && |nodes.zones| == |problem.quotas|
    && (forall k: nat :: k < |problem.quotas| ==> At(labels, nodes.zones[k], Zone(k)))
    && (forall t :: t in problem.tasks ==> t in nodes.entry && At(labels, nodes.entry[t], Entry(t)))
    && (forall t :: t in problem.tasks ==> t in nodes.exit && At(labels, nodes.exit[t], Exit(t)))
    && (forall u :: u in problem.uavs ==> u in nodes.craft && At(labels, nodes.craft[u], Craft(u)))
  }

  /** What node number `v` stands for. */
  ghost function LabelOf(problem: Problem, v: nat): Node {
    var z, n := |problem.quotas|, |problem.tasks|;
    if v == 0 then Source
    else if v < 1 + z then Zone(v - 1)
    else if v < 1 + z + n then Entry(problem.tasks[v - 1 - z])
    else if v < 1 + z + 2 * n then Exit(problem.tasks[v - 1 - z - n])
    else if v < 1 + z + 2 * n + |problem.uavs| then Craft(problem.uavs[v - 1 - z - 2 * n])
    else Sink
  }

  ghost function Labels(problem: Problem): (labels: seq<Node>)
    ensures |labels| == 2 + |problem.quotas| + 2 * |problem.tasks| + |problem.uavs|
  {
    seq(2 + |problem.quotas| + 2 * |problem.tasks| + |problem.uavs|, v requires 0 <= v => LabelOf(problem, v))
  }

  lemma LabelsAreDistinct(problem: Problem)
    requires Distinct(problem.tasks) && Distinct(problem.uavs)
    ensures Distinct(Labels(problem))
  {
    forall v, w | 0 <= v < w < |Labels(problem)|
      ensures LabelOf(problem, v) != LabelOf(problem, w)
    {
    }
  }

  /** Consecutive numbers for the items, from `offset` on. */
  method Number<T(==)>(items: seq<T>, offset: nat) returns (index: map<T, nat>)
    requires Distinct(items)
    ensures Numbered(items, offset, index)
  {
    index := map[];
    for i := 0 to |items|
      invariant Numbered(items[..i], offset, index)
    {
      index := index[items[i] := offset + i];
    }
  }

  /** The items carry consecutive numbers from `offset` on. */
  ghost predicate Numbered<T>(items: seq<T>, offset: nat, index: map<T, nat>) {
    forall j: nat :: j < |items| ==> items[j] in index && index[items[j]] == offset + j
  }

  lemma TaskNumbers(problem: Problem, offset: nat, index: map<Task, nat>)
    requires offset == 1 + |problem.quotas| || offset == 1 + |problem.quotas| + |problem.tasks|
    requires Numbered(problem.tasks, offset, index)
    ensures forall t :: t in problem.tasks ==> t in index && At(Labels(problem), index[t],
              if offset == 1 + |problem.quotas| && |problem.tasks| > 0 then Entry(t) else Exit(t))
  {
    forall t | t in problem.tasks
      ensures t in index && At(Labels(problem), index[t],
                if offset == 1 + |problem.quotas| then Entry(t) else Exit(t))
    {
      var j :| 0 <= j < |problem.tasks| && problem.tasks[j] == t;
      assert index[problem.tasks[j]] == offset + j;
      assert Labels(problem)[offset + j] == LabelOf(problem, offset + j);
    }
  }

  lemma CraftNumbers(problem: Problem, index: map<Uav, nat>)
    requires Numbered(problem.uavs, 1 + |problem.quotas| + 2 * |problem.tasks|, index)
    ensures forall u :: u in problem.uavs ==> u in index && At(Labels(problem), index[u], Craft(u))
  {
    var offset := 1 + |problem.quotas| + 2 * |problem.tasks|;
    forall u | u in problem.uavs
      ensures u in index && At(Labels(problem), index[u], Craft(u))
    {
      var j :| 0 <= j < |problem.uavs| && problem.uavs[j] == u;
      assert index[problem.uavs[j]] == offset + j;
      assert Labels(problem)[offset + j] == LabelOf(problem, offset + j);
    }
  }

  lemma NodesAreIndexed(problem: Problem, nodes: NodeIndex)
    requires problem.Valid()
    requires |nodes.zones| == |problem.quotas| && forall k: nat :: k < |problem.quotas| ==> nodes.zones[k] == 1 + k
    requires Numbered(problem.tasks, 1 + |problem.quotas|, nodes.entry)
    requires Numbered(problem.tasks, 1 + |problem.quotas| + |problem.tasks|, nodes.exit)
    requires Numbered(problem.uavs, 1 + |problem.quotas| + 2 * |problem.tasks|, nodes.craft)
    requires nodes.source == 0 && nodes.sink == |Labels(problem)| - 1
    ensures Indexed(problem, Labels(problem), nodes)
  {
    LabelsAreDistinct(problem);
    TaskNumbers(problem, 1 + |problem.quotas|, nodes.entry);
    TaskNumbers(problem, 1 + |problem.quotas| + |problem.tasks|, nodes.exit);
    CraftNumbers(problem, nodes.craft);
    assert Labels(problem)[nodes.sink] == LabelOf(problem, nodes.sink);
    assert Labels(problem)[0] == LabelOf(problem, 0);
    forall k: nat | k < |problem.quotas|
      ensures At(Labels(problem), nodes.zones[k], Zone(k))
    {
      assert Labels(problem)[1 + k] == LabelOf(problem, 1 + k);
    }
    hide LabelOf, Labels;
  }

  /** Number the nodes: the source, the zones, the entry and exit of each task, the aircraft, the sink. */
  method MakeNodes(problem: Problem) returns (nodes: NodeIndex, count: nat)
    requires problem.Valid()
    ensures Indexed(problem, Labels(problem), nodes) && |Labels(problem)| == count
  {
    hide LabelOf, Labels, Indexed;
    var z, n := |problem.quotas|, |problem.tasks|;
    var zones: seq<nat> := [];
    for k := 0 to z
      invariant |zones| == k && forall j: nat :: j < k ==> zones[j] == 1 + j
    {
      zones := zones + [1 + k];
    }
    var entry := Number(problem.tasks, 1 + z);
    var exit := Number(problem.tasks, 1 + z + n);
    var craft := Number(problem.uavs, 1 + z + 2 * n);
    nodes := NodeIndex(0, zones, entry, exit, craft, 1 + z + 2 * n + |problem.uavs|);
    count := nodes.sink + 1;
    NodesAreIndexed(problem, nodes);
  }

  method AddEdge(problem: Problem, g0: Graph, ghost handles0: Handles, v: nat, w: nat, cost: real,
                 ghost a: Node, ghost b: Node)
    returns (g: Graph, handle: (nat, nat), ghost handles: Handles)
    requires Built(problem, g0, Labels(problem), handles0)
    requires At(Labels(problem), v, a) && At(Labels(problem), w, b) && a.Level() < b.Level()
    requires Edge(a, b) !in handles0 && cost == EdgeCost(problem, Edge(a, b))
    ensures v < |g0| && w < |g0| && g == WithEdge(g0, v, w, cost) && handle == (v, |g0[v]|)
    ensures handles == handles0[Edge(a, b) := handle]
    ensures Built(problem, g, Labels(problem), handles)
  {
    hide LabelOf, Labels;
    AddEdgeKeepsBuilt(problem, g0, Labels(problem), handles0, v, w, cost);
    handle := (v, |g0[v]|);
    g := WithEdge(g0, v, w, cost);
    handles := handles0[Edge(a, b) := handle];
  }

  /** The edges present once `src` source edges, the zones below `k`, and the candidates `tried` of
      zone `k` are in. */
  ghost predicate InZones(problem: Problem, src: nat, k: nat, tried: seq<Task>, e: Edge) {
    match (e.a, e.b)
    case (Source, Zone(x)) => x < src
    case (Zone(x), Entry(t)) => (x < k && x < |problem.quotas| && t in problem.quotas[x].candidates) || (x == k && t in tried)
    case _ => false
  }

  /** The same for the tasks: `through` task edges, the aircraft of the tasks below `i`, and `tried` of task `i`. */
  ghost predicate InTasks(problem: Problem, through: nat, i: nat, tried: seq<Uav>, e: Edge)
    requires through <= |problem.tasks| && i <= |problem.tasks|
  {
    match (e.a, e.b)
    case (Entry(t), Exit(t')) => t == t' && t in problem.tasks[..through]
    case (Exit(t), Craft(u)) =>
      || (t in problem.tasks[..i] && t in problem.adjacency && u in problem.adjacency[t])
      || (i < |problem.tasks| && t == problem.tasks[i] && u in tried)
    case _ => InZones(problem, |problem.quotas|, |problem.quotas|, [], e)
  }

  ghost predicate InCrafts(problem: Problem, m: nat, e: Edge)
    requires m <= |problem.uavs|
  {
    match (e.a, e.b)
    case (Craft(u), Sink) => u in problem.uavs[..m]
    case _ => InTasks(problem, |problem.tasks|, |problem.tasks|, [], e)
  }

  type ZoneHandles = map<(nat, Task), (nat, nat)>
  type CraftHandles = map<(Task, Uav), (nat, nat)>

  ghost predicate ZonesRecorded(handles: Handles, zoneTask: ZoneHandles) {
    forall k: nat, t :: ((k, t) in zoneTask <==> Edge(Zone(k), Entry(t)) in handles)
      && ((k, t) in zoneTask ==> zoneTask[(k, t)] == handles[Edge(Zone(k), Entry(t))])
  }

  ghost predicate CraftsRecorded(handles: Handles, taskUav: CraftHandles) {
    forall t, u :: ((t, u) in taskUav <==> Edge(Exit(t), Craft(u)) in handles)
      && ((t, u) in taskUav ==> taskUav[(t, u)] == handles[Edge(Exit(t), Craft(u))])
  }

  lemma EmptyNetwork(problem: Problem, g: Graph)
    requires problem.Valid() && |g| == |Labels(problem)| && forall v: nat :: v < |g| ==> g[v] == []
    ensures Built(problem, g, Labels(problem), map[])
  {
    LabelsAreDistinct(problem);
  }

  ghost predicate ZoneStage(problem: Problem, handles: Handles, src: nat, k: nat, tried: seq<Task>) {
    forall e :: e in handles <==> InZones(problem, src, k, tried, e)
  }

  ghost predicate TaskStage(problem: Problem, handles: Handles, through: nat, i: nat, tried: seq<Uav>)
    requires through <= |problem.tasks| && i <= |problem.tasks|
  {
    forall e :: e in handles <==> InTasks(problem, through, i, tried, e)
  }

  ghost predicate CraftStage(problem: Problem, handles: Handles, m: nat)
    requires m <= |problem.uavs|
  {
    forall e :: e in handles <==> InCrafts(problem, m, e)
  }

  method AddCandidates(problem: Problem, nodes: NodeIndex, k: nat, order: seq<Task>,
                       g0: Graph, ghost handles0: Handles, zoneTask0: ZoneHandles)
    returns (g: Graph, ghost handles: Handles, zoneTask: ZoneHandles)
    requires Indexed(problem, Labels(problem), nodes) && k < |problem.quotas|
    requires multiset(order) == multiset(problem.quotas[k].candidates) && problem.Valid()
    requires Built(problem, g0, Labels(problem), handles0)
    requires ZoneStage(problem, handles0, k + 1, k, []) && ZonesRecorded(handles0, zoneTask0)
    ensures Built(problem, g, Labels(problem), handles)
    ensures ZoneStage(problem, handles, k + 1, k + 1, []) && ZonesRecorded(handles, zoneTask)
  {
    hide LabelOf, Labels, Built, ZoneStage, ZonesRecorded;
    g, handles, zoneTask := g0, handles0, zoneTask0;
    SamePermutation(order, problem.quotas[k].candidates);
    for j := 0 to |order|
      invariant Built(problem, g, Labels(problem), handles)
      invariant ZoneStage(problem, handles, k + 1, k, order[..j]) && ZonesRecorded(handles, zoneTask)
    {
      var t := order[j];
      assert t in problem.quotas[k].candidates;
      if t in nodes.entry {
        var handle;
        CandidateIsNew(problem, handles, k, order, j);
        ghost var before := handles;
        g, handle, handles := AddEdge(problem, g, handles, nodes.zones[k], nodes.entry[t], 0.0, Zone(k), Entry(t));
        CandidateAdded(problem, before, zoneTask, k, order, j, handle);
        zoneTask := zoneTask[(k, t) := handle];
      }
    }
    ZoneDone(problem, handles, k, order);
  }

  lemma CandidateIsNew(problem: Problem, handles: Handles, k: nat, order: seq<Task>, j: nat)
    requires j < |order| && Distinct(order) && ZoneStage(problem, handles, k + 1, k, order[..j])
    ensures Edge(Zone(k), Entry(order[j])) !in handles
  {
    assert !InZones(problem, k + 1, k, order[..j], Edge(Zone(k), Entry(order[j])));
  }

  lemma CandidateAdded(problem: Problem, handles: Handles, zoneTask: ZoneHandles, k: nat, order: seq<Task>, j: nat,
                       handle: (nat, nat))
    requires j < |order| && ZoneStage(problem, handles, k + 1, k, order[..j]) && ZonesRecorded(handles, zoneTask)
    ensures var handles' := handles[Edge(Zone(k), Entry(order[j])) := handle];
            && ZoneStage(problem, handles', k + 1, k, order[..j + 1])
            && ZonesRecorded(handles', zoneTask[(k, order[j]) := handle])
  {
    var handles' := handles[Edge(Zone(k), Entry(order[j])) := handle];
    forall e
      ensures e in handles' <==> InZones(problem, k + 1, k, order[..j + 1], e)
    {
      assert e in handles <==> InZones(problem, k + 1, k, order[..j], e);
    }
  }

  lemma ZoneDone(problem: Problem, handles: Handles, k: nat, order: seq<Task>)
    requires k < |problem.quotas| && forall t :: t in order <==> t in problem.quotas[k].candidates
    requires ZoneStage(problem, handles, k + 1, k, order[..|order|])
    ensures ZoneStage(problem, handles, k + 1, k + 1, [])
  {
    forall e
      ensures e in handles <==> InZones(problem, k + 1, k + 1, [], e)
    {
      assert e in handles <==> InZones(problem, k + 1, k, order[..|order|], e);
    }
  }

  lemma ZoneStarted(problem: Problem, handles: Handles, zoneTask: ZoneHandles, k: nat, handle: (nat, nat))
    requires k < |problem.quotas| && ZoneStage(problem, handles, k, k, []) && ZonesRecorded(handles, zoneTask)
    ensures Edge(Source, Zone(k)) !in handles
    ensures ZoneStage(problem, handles[Edge(Source, Zone(k)) := handle], k + 1, k, [])
    ensures ZonesRecorded(handles[Edge(Source, Zone(k)) := handle], zoneTask)
  {
    assert !InZones(problem, k, k, [], Edge(Source, Zone(k)));
    var handles' := handles[Edge(Source, Zone(k)) := handle];
    forall e
      ensures e in handles' <==> InZones(problem, k + 1, k, [], e)
    {
      assert e in handles <==> InZones(problem, k, k, [], e);
    }
  }

  method AddZones(problem: Problem, minimum: map<Task, real>, nodes: NodeIndex, g0: Graph)
    returns (g: Graph, ghost handles: Handles, zoneTask: ZoneHandles)
    requires problem.Valid() && Indexed(problem, Labels(problem), nodes)
    requires Built(problem, g0, Labels(problem), map[])
    ensures Built(problem, g, Labels(problem), handles)
    ensures ZoneStage(problem, handles, |problem.quotas|, |problem.quotas|, []) && ZonesRecorded(handles, zoneTask)
  {
    hide LabelOf, Labels, Built, ZonesRecorded;
    g, handles, zoneTask := g0, map[], map[];
    assert ZonesRecorded(handles, zoneTask) by { NothingRecorded(); }
    for k := 0 to |problem.quotas|
      invariant Built(problem, g, Labels(problem), handles)
      invariant ZoneStage(problem, handles, k, k, []) && ZonesRecorded(handles, zoneTask)
    {
      hide ZoneStage;
      var handle;
      ghost var before := handles;
      ZoneStarted(problem, handles, zoneTask, k, (0, 0));
      g, handle, handles := AddEdge(problem, g, handles, nodes.source, nodes.zones[k], 0.0, Source, Zone(k));
      ZoneStarted(problem, before, zoneTask, k, handle);
      var order := QuotaOrder(minimum, problem.quotas[k].candidates);
      g, handles, zoneTask := AddCandidates(problem, nodes, k, order, g, handles, zoneTask);
    }
  }

  lemma NothingRecorded()
    ensures ZonesRecorded(map[], map[])
    ensures CraftsRecorded(map[], map[])
  {
  }

  lemma CraftIsNew(problem: Problem, handles: Handles, i: nat, j: nat)
    requires problem.Valid() && i < |problem.tasks| && j < |problem.adjacency[problem.tasks[i]]|
    requires TaskStage(problem, handles, i + 1, i, problem.adjacency[problem.tasks[i]][..j])
    ensures Edge(Exit(problem.tasks[i]), Craft(problem.adjacency[problem.tasks[i]][j])) !in handles
  {
    var t := problem.tasks[i];
    assert Distinct(problem.adjacency[t]);
    assert !InTasks(problem, i + 1, i, problem.adjacency[t][..j], Edge(Exit(t), Craft(problem.adjacency[t][j])));
  }

  lemma CraftAdded(problem: Problem, handles: Handles, zoneTask: ZoneHandles, taskUav: CraftHandles, i: nat, j: nat,
                   handle: (nat, nat))
    requires problem.Valid() && i < |problem.tasks| && j < |problem.adjacency[problem.tasks[i]]|
    requires TaskStage(problem, handles, i + 1, i, problem.adjacency[problem.tasks[i]][..j])
    requires ZonesRecorded(handles, zoneTask) && CraftsRecorded(handles, taskUav)
    ensures var t := problem.tasks[i]; var u := problem.adjacency[t][j];
            var handles' := handles[Edge(Exit(t), Craft(u)) := handle];
            && TaskStage(problem, handles', i + 1, i, problem.adjacency[t][..j + 1])
            && ZonesRecorded(handles', zoneTask) && CraftsRecorded(handles', taskUav[(t, u) := handle])
  {
    var t := problem.tasks[i];
    var u := problem.adjacency[t][j];
    var handles' := handles[Edge(Exit(t), Craft(u)) := handle];
    forall e
      ensures e in handles' <==> InTasks(problem, i + 1, i, problem.adjacency[t][..j + 1], e)
    {
      assert e in handles <==> InTasks(problem, i + 1, i, problem.adjacency[t][..j], e);
    }
  }

  lemma TaskDone(problem: Problem, handles: Handles, i: nat)
    requires problem.Valid() && i < |problem.tasks|
    requires var crafts := problem.adjacency[problem.tasks[i]]; TaskStage(problem, handles, i + 1, i, crafts[..|crafts|])
    ensures TaskStage(problem, handles, i + 1, i + 1, [])
  {
    var crafts := problem.adjacency[problem.tasks[i]];
    forall e
      ensures e in handles <==> InTasks(problem, i + 1, i + 1, [], e)
    {
      assert e in handles <==> InTasks(problem, i + 1, i, crafts[..|crafts|], e);
    }
  }

  lemma TaskStarted(problem: Problem, handles: Handles, zoneTask: ZoneHandles, taskUav: CraftHandles, i: nat,
                    handle: (nat, nat))
    requires problem.Valid() && i < |problem.tasks| && TaskStage(problem, handles, i, i, [])
    requires ZonesRecorded(handles, zoneTask) && CraftsRecorded(handles, taskUav)
    ensures var e := Edge(Entry(problem.tasks[i]), Exit(problem.tasks[i]));
            && e !in handles
            && TaskStage(problem, handles[e := handle], i + 1, i, [])
            && ZonesRecorded(handles[e := handle], zoneTask) && CraftsRecorded(handles[e := handle], taskUav)
  {
    var x := Edge(Entry(problem.tasks[i]), Exit(problem.tasks[i]));
    assert !InTasks(problem, i, i, [], x);
    var handles' := handles[x := handle];
    forall e
      ensures e in handles' <==> InTasks(problem, i + 1, i, [], e)
    {
      assert e in handles <==> InTasks(problem, i, i, [], e);
    }
  }

  method AddCrafts(problem: Problem, nodes: NodeIndex, i: nat, g0: Graph, ghost handles0: Handles,
                   ghost zoneTask: ZoneHandles, taskUav0: CraftHandles)
    returns (g: Graph, ghost handles: Handles, taskUav: CraftHandles)
    requires problem.Valid() && Indexed(problem, Labels(problem), nodes) && i < |problem.tasks|
    requires Built(problem, g0, Labels(problem), handles0)
    requires TaskStage(problem, handles0, i + 1, i, [])
    requires ZonesRecorded(handles0, zoneTask) && CraftsRecorded(handles0, taskUav0)
    ensures Built(problem, g, Labels(problem), handles)
    ensures TaskStage(problem, handles, i + 1, i + 1, [])
    ensures ZonesRecorded(handles, zoneTask) && CraftsRecorded(handles, taskUav)
  {
    hide LabelOf, Labels, Built, TaskStage, ZonesRecorded, CraftsRecorded;
    g, handles, taskUav := g0, handles0, taskUav0;
    var t := problem.tasks[i];
    var crafts := problem.adjacency[t];
    for j := 0 to |crafts|
      invariant Built(problem, g, Labels(problem), handles)
      invariant TaskStage(problem, handles, i + 1, i, crafts[..j])
      invariant ZonesRecorded(handles, zoneTask) && CraftsRecorded(handles, taskUav)
    {
      var u := crafts[j];
      var handle;
      CraftIsNew(problem, handles, i, j);
      ghost var before := handles;
      g, handle, handles := AddEdge(problem, g, handles, nodes.exit[t], nodes.craft[u], problem.Cost(t, u),
                                    Exit(t), Craft(u));
      CraftAdded(problem, before, zoneTask, taskUav, i, j, handle);
      taskUav := taskUav[(t, u) := handle];
    }
    TaskDone(problem, handles, i);
  }

  method AddTasks(problem: Problem, nodes: NodeIndex, g0: Graph, ghost handles0: Handles, ghost zoneTask: ZoneHandles)
    returns (g: Graph, ghost handles: Handles, taskUav: CraftHandles)
    requires problem.Valid() && Indexed(problem, Labels(problem), nodes)
    requires Built(problem, g0, Labels(problem), handles0)
    requires TaskStage(problem, handles0, 0, 0, [])
    requires ZonesRecorded(handles0, zoneTask) && CraftsRecorded(handles0, map[])
    ensures Built(problem, g, Labels(problem), handles)
    ensures TaskStage(problem, handles, |problem.tasks|, |problem.tasks|, [])
    ensures ZonesRecorded(handles, zoneTask) && CraftsRecorded(handles, taskUav)
  {
    hide LabelOf, Labels, Built, TaskStage, ZonesRecorded, CraftsRecorded;
    g, handles, taskUav := g0, handles0, map[];
    for i := 0 to |problem.tasks|
      invariant Built(problem, g, Labels(problem), handles)
      invariant TaskStage(problem, handles, i, i, [])
      invariant ZonesRecorded(handles, zoneTask) && CraftsRecorded(handles, taskUav)
    {
      var t := problem.tasks[i];
      var handle;
      ghost var before := handles;
      TaskStarted(problem, handles, zoneTask, taskUav, i, (0, 0));
      g, handle, handles := AddEdge(problem, g, handles, nodes.entry[t], nodes.exit[t], 0.0, Entry(t), Exit(t));
      TaskStarted(problem, before, zoneTask, taskUav, i, handle);
      g, handles, taskUav := AddCrafts(problem, nodes, i, g, handles, zoneTask, taskUav);
    }
  }

  lemma SinkAdded(problem: Problem, handles: Handles, zoneTask: ZoneHandles, taskUav: CraftHandles, m: nat,
                  handle: (nat, nat))
    requires problem.Valid() && m < |problem.uavs| && CraftStage(problem, handles, m)
    requires ZonesRecorded(handles, zoneTask) && CraftsRecorded(handles, taskUav)
    ensures var e := Edge(Craft(problem.uavs[m]), Sink);
            && e !in handles
            && CraftStage(problem, handles[e := handle], m + 1)
            && ZonesRecorded(handles[e := handle], zoneTask) && CraftsRecorded(handles[e := handle], taskUav)
  {
    var x := Edge(Craft(problem.uavs[m]), Sink);
    assert !InCrafts(problem, m, x);
    var handles' := handles[x := handle];
    forall e
      ensures e in handles' <==> InCrafts(problem, m + 1, e)
    {
      assert e in handles <==> InCrafts(problem, m, e);
    }
  }

  lemma AllEdgesIn(problem: Problem, handles: Handles)
    requires problem.Valid() && CraftStage(problem, handles, |problem.uavs|)
    ensures forall e :: e in handles <==> IsEdge(problem, e)
  {
    assert problem.uavs[..|problem.uavs|] == problem.uavs && problem.tasks[..|problem.tasks|] == problem.tasks;
    forall e
      ensures e in handles <==> IsEdge(problem, e)
    {
      assert e in handles <==> InCrafts(problem, |problem.uavs|, e);
    }
  }

  lemma StagesMeet(problem: Problem, handles: Handles)
    requires problem.Valid()
    ensures ZoneStage(problem, handles, |problem.quotas|, |problem.quotas|, []) ==> TaskStage(problem, handles, 0, 0, [])
    ensures TaskStage(problem, handles, |problem.tasks|, |problem.tasks|, []) ==> CraftStage(problem, handles, 0)
  {
    if ZoneStage(problem, handles, |problem.quotas|, |problem.quotas|, []) {
      forall e
        ensures e in handles <==> InTasks(problem, 0, 0, [], e)
      {
        assert e in handles <==> InZones(problem, |problem.quotas|, |problem.quotas|, [], e);
      }
    }
    if TaskStage(problem, handles, |problem.tasks|, |problem.tasks|, []) {
      forall e
        ensures e in handles <==> InCrafts(problem, 0, e)
      {
        assert e in handles <==> InTasks(problem, |problem.tasks|, |problem.tasks|, [], e);
      }
    }
  }

  /** The whole network: exactly the edges of the problem, with their handles. */
  method BuildNetwork(problem: Problem, minimum: map<Task, real>)
    returns (g: Graph, nodes: NodeIndex, zoneTask: ZoneHandles, taskUav: CraftHandles, ghost handles: Handles)
    requires problem.Valid()
    ensures Indexed(problem, Labels(problem), nodes)
    ensures Built(problem, g, Labels(problem), handles)
    ensures forall e :: e in handles <==> IsEdge(problem, e)
    ensures ZonesRecorded(handles, zoneTask) && CraftsRecorded(handles, taskUav)
  {
    hide LabelOf, Labels, Built, TaskStage, ZoneStage, ZonesRecorded, CraftsRecorded, Indexed;
    var count;
    nodes, count := MakeNodes(problem);
    g := seq(count, v => []);
    EmptyNetwork(problem, g);
    g, handles, zoneTask := AddZones(problem, minimum, nodes, g);
    StagesMeet(problem, handles);
    NoCraftsYet(problem, handles);
    g, handles, taskUav := AddTasks(problem, nodes, g, handles, zoneTask);
    StagesMeet(problem, handles);
    g, handles := AddSinks(problem, nodes, g, handles, zoneTask, taskUav);
    AllEdgesIn(problem, handles);
  }

  lemma NoCraftsYet(problem: Problem, handles: Handles)
    requires ZoneStage(problem, handles, |problem.quotas|, |problem.quotas|, [])
    ensures CraftsRecorded(handles, map[])
  {
    forall t, u
      ensures Edge(Exit(t), Craft(u)) !in handles
    {
      assert !InZones(problem, |problem.quotas|, |problem.quotas|, [], Edge(Exit(t), Craft(u)));
    }
  }

  method AddSinks(problem: Problem, nodes: NodeIndex, g0: Graph, ghost handles0: Handles,
                  ghost zoneTask: ZoneHandles, ghost taskUav: CraftHandles)
    returns (g: Graph, ghost handles: Handles)
    requires problem.Valid() && Indexed(problem, Labels(problem), nodes)
    requires Built(problem, g0, Labels(problem), handles0) && CraftStage(problem, handles0, 0)
    requires ZonesRecorded(handles0, zoneTask) && CraftsRecorded(handles0, taskUav)
    ensures Built(problem, g, Labels(problem), handles) && CraftStage(problem, handles, |problem.uavs|)
    ensures ZonesRecorded(handles, zoneTask) && CraftsRecorded(handles, taskUav)
  {
    hide LabelOf, Labels, Built, CraftStage, ZonesRecorded, CraftsRecorded;
    g, handles := g0, handles0;
    for m := 0 to |problem.uavs|
      invariant Built(problem, g, Labels(problem), handles) && CraftStage(problem, handles, m)
      invariant ZonesRecorded(handles, zoneTask) && CraftsRecorded(handles, taskUav)
    {
      var u := problem.uavs[m];
      var handle;
      ghost var before := handles;
      SinkAdded(problem, handles, zoneTask, taskUav, m, (0, 0));
      g, handle, handles := AddEdge(problem, g, handles, nodes.craft[u], nodes.sink, 0.0, Craft(u), Sink);
      SinkAdded(problem, before, zoneTask, taskUav, m, handle);
    }
  }
}
