/** The search budget of one scheduling round: how many new searches are asked for, which tasks
    must be among them, and whether the fleet can meet the budget.
  */
module CoverageConstraint {

  import opened Finite
  import opened Matching
  import opened QuotaNetwork
  import opened QuotaAssignment

  datatype Result<+T> = Ok(value: T) | Err(error: string)

  datatype FeasibleEdge = FeasibleEdge(task: Task, uav: Uav, transit: Option<real>)

  datatype Request = Request(active: int, reserved: Option<int>, pending: int,
                             available: seq<Uav>, representatives: seq<Task>, edges: seq<FeasibleEdge>,
                             fraction: real, quotas: seq<Quota>, healthy: Option<int>, searchLimit: Option<int>,
                             diversion: Option<real>)
  {
    /** What the quota inputs guarantee by construction. */
    ghost predicate WellFormed() {
      forall k: nat :: k < |quotas| ==>
        && quotas[k].zone != "" && Distinct(quotas[k].candidates)
        && "" !in quotas[k].candidates
    }
  }

  datatype ZoneRequirement = ZoneRequirement(zone: string, count: nat, representatives: seq<Task>, mustService: seq<Task>)

  datatype Constraint = Constraint(desired: int, active: int, required: int, representatives: seq<Task>,
                                   mustService: seq<Task>, infeasible: Option<string>,
                                   zones: seq<ZoneRequirement>, zoneInfeasible: seq<(string, string)>,
                                   reserved: int, pending: int, diversionCredit: Option<int>)

  /** The checks the constraint's constructor performs. */
  ghost predicate ZoneAccepted(z: ZoneRequirement) {
    && z.zone != "" && Distinct(z.representatives) && Distinct(z.mustService)
    && "" !in z.representatives && "" !in z.mustService
    && forall t :: t in z.mustService ==> t in z.representatives
  }

  ghost predicate Accepted(c: Constraint) {
    && c.desired >= 0 && c.active >= 0 && c.required >= 0 && c.reserved >= 0 && c.pending >= 0
    && c.active <= c.reserved && c.active + c.pending <= c.reserved
    && c.required <= c.desired
    && (c.diversionCredit.Some? ==> c.diversionCredit.value >= 0)
    && "" !in c.representatives
    && (forall t :: t in c.mustService ==> t in c.representatives)
    && c.infeasible != Some("")
    && (forall i: nat :: i < |c.zones| ==> ZoneAccepted(c.zones[i]))
    && (forall i: nat, j: nat :: i < j < |c.zones| ==> c.zones[i].zone != c.zones[j].zone)
    && (forall i: nat, t :: i < |c.zones| && t in c.zones[i].representatives ==> t in c.representatives)
  }

  // ------------------------------------------------------------------ preparation

  /** First occurrences only, in order. */
  function Dedupe<T(==,!new)>(s: seq<T>): (r: seq<T>)
    ensures Distinct(r)
    ensures forall x :: x in r <==> x in s
  {
    if s == [] then [] else
      var rest := Dedupe(s[..|s| - 1]);
      var last := s[|s| - 1];
      assert s == s[..|s| - 1] + [last];
      if last in rest then rest else rest + [last]
  }

  predicate StringLess(a: string, b: string) {
    b != "" && (a == "" || a[0] < b[0] || (a[0] == b[0] && StringLess(a[1..], b[1..])))
  }

  function InsertString(x: string, s: seq<string>): (r: seq<string>)
    ensures multiset(r) == multiset{x} + multiset(s)
  {
    if s == [] || !StringLess(s[0], x) then [x] + s
    else
      assert s == [s[0]] + s[1..];
      [s[0]] + InsertString(x, s[1..])
  }

  function SortStrings(s: seq<string>): (r: seq<string>)
    ensures multiset(r) == multiset(s)
  {
    if s == [] then []
    else
      assert s == [s[0]] + s[1..];
      InsertString(s[0], SortStrings(s[1..]))
  }

  /** `t` can be flown by `u`, according to the first `n` edges. */
  ghost predicate CanFly(edges: seq<FeasibleEdge>, n: nat, t: Task, u: Uav)
    requires n <= |edges|
  {
    exists i: nat :: i < n && edges[i].task == t && edges[i].uav == u
  }

  ghost predicate TransitKnown(edges: seq<FeasibleEdge>, n: nat, t: Task, u: Uav, x: real)
    requires n <= |edges|
  {
    exists i: nat :: i < n && edges[i] == FeasibleEdge(t, u, Some(x))
  }

  /** `transit` holds, for tasks and aircraft in scope, the shortest transit known from the first `n` edges. */
  ghost predicate ShortestTransits(edges: seq<FeasibleEdge>, n: nat, tasks: seq<Task>, uavs: seq<Uav>,
                                   transit: map<(Task, Uav), real>)
    requires n <= |edges|
  {
    && (forall t, u :: (t, u) in transit ==> t in tasks && u in uavs && TransitKnown(edges, n, t, u, transit[(t, u)]))
    && (forall t, u, x :: t in tasks && u in uavs && TransitKnown(edges, n, t, u, x) ==>
          (t, u) in transit && transit[(t, u)] <= x)
  }

  /** `minimum` holds, for every task with a known transit, the least of them. */
  ghost predicate LeastTransits(transit: map<(Task, Uav), real>, minimum: map<Task, real>) {
    && (forall t :: t in minimum ==> exists u :: (t, u) in transit && transit[(t, u)] == minimum[t])
    && (forall t, u :: (t, u) in transit ==> t in minimum && minimum[t] <= transit[(t, u)])
  }

  /** Shortest transit per task and aircraft, and per task. */
  method CollectTransits(edges: seq<FeasibleEdge>, tasks: seq<Task>, uavs: seq<Uav>)
    returns (transit: map<(Task, Uav), real>, minimum: map<Task, real>)
    ensures ShortestTransits(edges, |edges|, tasks, uavs, transit)
    ensures LeastTransits(transit, minimum)
  {
    hide LeastTransits;
    LeastOfNone();
    transit, minimum := map[], map[];
    for i := 0 to |edges|
      invariant ShortestTransits(edges, i, tasks, uavs, transit) && LeastTransits(transit, minimum)
    {
      var e := edges[i];
      ghost var before, least := transit, minimum;
      if e.task in tasks && e.uav in uavs && e.transit.Some? {
        var x := e.transit.value;
        LeastNext(before, least, e.task, e.uav, x);
        if e.task !in minimum || x < minimum[e.task] {
          minimum := minimum[e.task := x];
        }
        if (e.task, e.uav) !in transit || x < transit[(e.task, e.uav)] {
          transit := transit[(e.task, e.uav) := x];
        }
      }
      TransitStep(edges, i, tasks, uavs, before, transit);
    }
  }

  lemma LeastOfNone()
    ensures LeastTransits(map[], map[])
  {
  }

  lemma LeastNext(transit: map<(Task, Uav), real>, minimum: map<Task, real>, t: Task, u: Uav, x: real)
    requires LeastTransits(transit, minimum)
    ensures LeastTransits(if (t, u) !in transit || x < transit[(t, u)] then transit[(t, u) := x] else transit,
                          if t !in minimum || x < minimum[t] then minimum[t := x] else minimum)
  {
    var more := if (t, u) !in transit || x < transit[(t, u)] then transit[(t, u) := x] else transit;
    var least := if t !in minimum || x < minimum[t] then minimum[t := x] else minimum;
    forall s | s in least
      ensures exists v :: (s, v) in more && more[(s, v)] == least[s]
    {
      if s == t && least != minimum {
        assert (t, u) in more && more[(t, u)] == x;
      } else {
        var v :| (s, v) in transit && transit[(s, v)] == minimum[s];
        assert (s, v) in more && more[(s, v)] == least[s];
      }
    }
  }

  /** The candidates of a zone are tried by their least transit, unknown ones last: what an earlier one
      offers is no worse than what a later one does. */
  lemma OrderIsByTransit(transit: map<(Task, Uav), real>, minimum: map<Task, real>, candidates: seq<Task>, i: nat, j: nat, u: Uav)
    requires LeastTransits(transit, minimum) && i < j < |QuotaOrder(minimum, candidates)|
    requires (QuotaOrder(minimum, candidates)[j], u) in transit
    ensures var earlier, later := QuotaOrder(minimum, candidates)[i], QuotaOrder(minimum, candidates)[j];
            exists v :: (earlier, v) in transit && transit[(earlier, v)] <= transit[(later, u)]
  {
    QuotaOrderIsOrdered(minimum, candidates);
    var earlier, later := QuotaOrder(minimum, candidates)[i], QuotaOrder(minimum, candidates)[j];
    assert !Sooner(minimum, later, earlier);
  }

  lemma TransitStep(edges: seq<FeasibleEdge>, i: nat, tasks: seq<Task>, uavs: seq<Uav>,
                    before: map<(Task, Uav), real>, after: map<(Task, Uav), real>)
    requires i < |edges| && ShortestTransits(edges, i, tasks, uavs, before)
    requires var e := edges[i];
             if e.task in tasks && e.uav in uavs && e.transit.Some?
                && ((e.task, e.uav) !in before || e.transit.value < before[(e.task, e.uav)])
             then after == before[(e.task, e.uav) := e.transit.value]
             else after == before
    ensures ShortestTransits(edges, i + 1, tasks, uavs, after)
  {
    var e := edges[i];
    forall t, u | (t, u) in after
      ensures t in tasks && u in uavs && TransitKnown(edges, i + 1, t, u, after[(t, u)])
    {
      if after == before || (t, u) != (e.task, e.uav) {
        assert TransitKnown(edges, i, t, u, before[(t, u)]);
        var j: nat :| j < i && edges[j] == FeasibleEdge(t, u, Some(before[(t, u)]));
        assert j < i + 1;
      } else {
        assert edges[i] == FeasibleEdge(t, u, Some(after[(t, u)]));
      }
    }
    var n := i + 1;
    forall t, u, x | t in tasks && u in uavs && TransitKnown(edges, n, t, u, x)
      ensures (t, u) in after && after[(t, u)] <= x
    {
      var j: nat :| j < i + 1 && edges[j] == FeasibleEdge(t, u, Some(x));
      if j < i {
        assert TransitKnown(edges, i, t, u, x);
      }
    }
  }

  /** The aircraft of one task, sorted and without repetition. */
  function UavsOf(edges: seq<FeasibleEdge>, uavs: seq<Uav>, t: Task): (r: seq<Uav>)
    ensures Distinct(r)
    ensures forall u :: u in r <==> u in uavs && CanFly(edges, |edges|, t, u)
  {
    var listed := Listed(edges, |edges|, uavs, t);
    SamePermutation(SortStrings(Dedupe(listed)), Dedupe(listed));
    SortStrings(Dedupe(listed))
  }

  function Listed(edges: seq<FeasibleEdge>, n: nat, uavs: seq<Uav>, t: Task): (r: seq<Uav>)
    requires n <= |edges|
    ensures forall u :: u in r <==> u in uavs && CanFly(edges, n, t, u)
  {
    if n == 0 then [] else
      var r := Listed(edges, n - 1, uavs, t);
      var e := edges[n - 1];
      assert forall u :: CanFly(edges, n, t, u) <==> CanFly(edges, n - 1, t, u) || (e.task == t && e.uav == u);
      if e.task == t && e.uav in uavs then r + [e.uav] else r
  }

  /** The quota problem of a request over the tasks and aircraft in scope. */
  ghost predicate ProblemOf(quotas: seq<Quota>, tasks: seq<Task>, uavs: seq<Uav>, edges: seq<FeasibleEdge>, problem: Problem) {
    && problem.Valid()
    && problem.quotas == quotas && problem.tasks == tasks && problem.uavs == uavs
    && (forall t, u :: t in problem.adjacency && u in problem.adjacency[t] <==>
          t in tasks && u in uavs && CanFly(edges, |edges|, t, u))
    && ShortestTransits(edges, |edges|, tasks, uavs, problem.transit)
    && (forall e :: e in problem.transit ==> problem.transit[e] < problem.unknownCost)
  }

  method UnknownTransitCost(transit: map<(Task, Uav), real>) returns (cost: real)
    ensures forall e :: e in transit ==> transit[e] + 1000000.0 <= cost
    ensures transit == map[] ==> cost == 1000000.0
    ensures transit != map[] ==> exists e :: e in transit && cost == transit[e] + 1000000.0
  {
    var left := transit.Keys;
    if left == {} {
      return 1000000.0;
    }
    var first :| first in left;
    var largest := transit[first];
    while left != {}
      invariant left <= transit.Keys
      invariant forall e :: e in transit && e !in left ==> transit[e] <= largest
      invariant exists e :: e in transit && transit[e] == largest
      decreases left
    {
      var e :| e in left;
      left := left - {e};
      if largest < transit[e] {
        largest := transit[e];
      }
    }
    cost := largest + 1000000.0;
  }

  ghost predicate IsShortest(edges: seq<FeasibleEdge>, t: Task, u: Uav, x: real) {
    TransitKnown(edges, |edges|, t, u, x) && forall y :: TransitKnown(edges, |edges|, t, u, y) ==> x <= y
  }

  /** A pair costs the shortest transit reported for it; one without a report costs more than every reported one. */
  lemma CostMeans(quotas: seq<Quota>, tasks: seq<Task>, uavs: seq<Uav>, edges: seq<FeasibleEdge>, problem: Problem, t: Task, u: Uav)
    requires ProblemOf(quotas, tasks, uavs, edges, problem) && t in tasks && u in uavs
    ensures (exists x :: TransitKnown(edges, |edges|, t, u, x)) ==> IsShortest(edges, t, u, problem.Cost(t, u))
    ensures (forall x :: !TransitKnown(edges, |edges|, t, u, x)) ==>
              forall s, v, x :: s in tasks && v in uavs && IsShortest(edges, s, v, x) ==> x < problem.Cost(t, u)
  {
    hide TransitKnown, CanFly;
  }

  method Prepare(quotas: seq<Quota>, tasks: seq<Task>, uavs: seq<Uav>, edges: seq<FeasibleEdge>)
    returns (problem: Problem, minimum: map<Task, real>)
    requires Distinct(tasks) && Distinct(uavs)
    requires forall k: nat :: k < |quotas| ==> Distinct(quotas[k].candidates)
    requires forall k: nat, t :: k < |quotas| && t in quotas[k].candidates ==> t in tasks
    ensures ProblemOf(quotas, tasks, uavs, edges, problem) && LeastTransits(problem.transit, minimum)
  {
    hide *;
    var adjacency: Adjacency := map t | t in tasks :: UavsOf(edges, uavs, t);
    var transit;
    transit, minimum := CollectTransits(edges, tasks, uavs);
    var unknown := UnknownTransitCost(transit);
    problem := Problem(quotas, tasks, uavs, adjacency, transit, unknown);
    PreparedIs(quotas, tasks, uavs, edges, problem);
  }

  lemma PreparedIs(quotas: seq<Quota>, tasks: seq<Task>, uavs: seq<Uav>, edges: seq<FeasibleEdge>, problem: Problem)
    requires Distinct(tasks) && Distinct(uavs)
    requires forall k: nat :: k < |quotas| ==> Distinct(quotas[k].candidates)
    requires forall k: nat, t :: k < |quotas| && t in quotas[k].candidates ==> t in tasks
    requires problem == Problem(quotas, tasks, uavs, map t | t in tasks :: UavsOf(edges, uavs, t), problem.transit, problem.unknownCost)
    requires ShortestTransits(edges, |edges|, tasks, uavs, problem.transit)
    requires forall e :: e in problem.transit ==> problem.transit[e] + 1000000.0 <= problem.unknownCost
    ensures ProblemOf(quotas, tasks, uavs, edges, problem)
  {
    hide UavsOf, CanFly, ShortestTransits, Finite.Distinct;
  }

  // ------------------------------------------------------- from assignment to obligations

  /** The aircraft and tasks of the zones below `n`. */
  ghost function Witnesses(a: Assignment, n: nat): map<Uav, Task> {
    if n == 0 then map[]
    else if n - 1 in a then Witnesses(a, n - 1)[a[n - 1].1 := a[n - 1].0]
    else Witnesses(a, n - 1)
  }

  /** The tasks of the zones below `n`, in zone order. */
  ghost function ServedTasks(a: Assignment, n: nat): seq<Task> {
    if n == 0 then []
    else if n - 1 in a then ServedTasks(a, n - 1) + [a[n - 1].0]
    else ServedTasks(a, n - 1)
  }

  ghost function ZoneRequirements(quotas: seq<Quota>, a: Assignment, n: nat): seq<ZoneRequirement>
    requires n <= |quotas|
  {
    if n == 0 then []
    else if n - 1 in a then
      ZoneRequirements(quotas, a, n - 1) + [ZoneRequirement(quotas[n - 1].zone, 1, quotas[n - 1].candidates, [a[n - 1].0])]
    else ZoneRequirements(quotas, a, n - 1)
  }

  const NO_REPRESENTATIVE := "no_feasible_zone_representative"

  ghost function Unserved(quotas: seq<Quota>, a: Assignment, n: nat): seq<(string, string)>
    requires n <= |quotas|
  {
    if n == 0 then []
    else if n - 1 in a then Unserved(quotas, a, n - 1)
    else Unserved(quotas, a, n - 1) + [(quotas[n - 1].zone, NO_REPRESENTATIVE)]
  }

  lemma {:induction false} WitnessesAre(a: Assignment, n: nat, u: Uav)
    ensures u in Witnesses(a, n) ==> exists k: nat :: k < n && k in a && a[k] == (Witnesses(a, n)[u], u)
    ensures (exists k: nat :: k < n && k in a && a[k].1 == u) ==> u in Witnesses(a, n)
  {
    if n > 0 {
      WitnessesAre(a, n - 1, u);
    }
  }

  lemma {:induction false} ServedTasksAre(a: Assignment, n: nat, t: Task)
    ensures t in ServedTasks(a, n) <==> exists k: nat :: k < n && k in a && a[k].0 == t
  {
    if n > 0 {
      ServedTasksAre(a, n - 1, t);
    }
  }

  lemma {:induction false} ServedTasksDistinct(problem: Problem, a: Assignment, n: nat)
    requires IsAssignment(problem, a)
    ensures Distinct(ServedTasks(a, n)) && |ServedTasks(a, n)| == Served(a, n) <= n
  {
    if n > 0 {
      ServedTasksDistinct(problem, a, n - 1);
      if n - 1 in a {
        ServedTasksAre(a, n - 1, a[n - 1].0);
      }
    }
  }

  /** The witnesses of an assignment are a matching that places exactly the served tasks. */
  lemma WitnessesMatch(problem: Problem, a: Assignment)
    requires IsAssignment(problem, a)
    ensures IsMatching(problem.adjacency, Witnesses(a, |problem.quotas|))
    ensures forall t :: t in ServedTasks(a, |problem.quotas|) ==> Placed(Witnesses(a, |problem.quotas|), t)
  {
    var n := |problem.quotas|;
    var w := Witnesses(a, n);
    forall u | u in w
      ensures w[u] in problem.adjacency && u in problem.adjacency[w[u]]
    {
      WitnessesAre(a, n, u);
    }
    forall u, v | u in w && v in w && w[u] == w[v]
      ensures u == v
    {
      WitnessesAre(a, n, u);
      WitnessesAre(a, n, v);
    }
    forall t | t in ServedTasks(a, n)
      ensures Placed(w, t)
    {
      ServedTasksAre(a, n, t);
      var k: nat :| k < n && k in a && a[k].0 == t;
      WitnessesAre(a, n, a[k].1);
      assert a[k].1 in w;
      var j: nat :| j < n && j in a && a[j] == (w[a[k].1], a[k].1);
      assert w[a[k].1] == t;
    }
  }

  /** Read the obligations off the assignment, zone by zone. */
  method Publish(problem: Problem, a: Assignment)
    returns (zones: seq<ZoneRequirement>, unserved: seq<(string, string)>, tasks: seq<Task>, witnesses: map<Uav, Task>)
    requires IsAssignment(problem, a)
    ensures zones == ZoneRequirements(problem.quotas, a, |problem.quotas|)
    ensures unserved == Unserved(problem.quotas, a, |problem.quotas|)
    ensures tasks == ServedTasks(a, |problem.quotas|)
    ensures witnesses == Witnesses(a, |problem.quotas|)
  {
    zones, unserved, tasks, witnesses := [], [], [], map[];
    for k := 0 to |problem.quotas|
      invariant zones == ZoneRequirements(problem.quotas, a, k) && unserved == Unserved(problem.quotas, a, k)
      invariant tasks == ServedTasks(a, k) && witnesses == Witnesses(a, k)
    {
      if k in a {
        var (t, u) := a[k];
        tasks := tasks + [t];
        witnesses := witnesses[u := t];
        zones := zones + [ZoneRequirement(problem.quotas[k].zone, 1, problem.quotas[k].candidates, [t])];
      } else {
        unserved := unserved + [(problem.quotas[k].zone, NO_REPRESENTATIVE)];
      }
    }
  }

  function Min(x: int, y: int): int { if x < y then x else y }
  function Max(x: int, y: int): int { if x < y then y else x }
  function Ceil(x: real): int { -((-x).Floor) }

  /** The searches still wanted once the active and the pending ones are counted. */
  function Residual(desired: int, active: int, pending: int): nat {
    Max(0, desired - active - pending)
  }

  /** The share of the fleet that is to search. */
  function Share(request: Request, available: nat): real {
    var healthy := if request.healthy.None? then available else request.healthy.value;
    healthy as real * request.fraction
  }

  function Desired(request: Request, available: nat): int {
    var wanted := Ceil(Share(request, available));
    if request.searchLimit.None? then wanted else Min(wanted, request.searchLimit.value)
  }

  /** The part of the desired searches that may be diverted. */
  function Credit(desired: int, fraction: real): int { (desired as real * fraction).Floor }

  function Reserved(request: Request): int {
    if request.reserved.None? then request.active + request.pending else request.reserved.value
  }

  const BAD_DIVERSION := "diversion_max_fraction must be finite in [0, 1] or None"
  const BAD_COUNT := "healthy_count, active_search_count, and matchable_pending_count must be non-negative integers"
  const BAD_RESERVED := "reserved_search_count must be a non-negative integer"
  const TOO_MANY_ACTIVE := "active_search_count exceeds reserved_search_count"
  const TOO_MANY_PENDING := "matchable_pending_count exceeds reserved pending capacity"
  const BAD_FRACTION := "fraction must be finite and in (0, 1]"
  const BAD_REPRESENTATIVES := "representatives must contain task IDs or task objects"
  const ZONE_TWICE := "duplicate quota zone"

  /** Why the numbers of a request are refused, if they are. */
  function CountsRefusal(request: Request): Option<string> {
    if request.diversion.Some? && !(0.0 <= request.diversion.value <= 1.0) then
      Some(BAD_DIVERSION)
    else if (request.healthy.Some? && request.healthy.value < 0) || request.active < 0 || request.pending < 0 then
      Some(BAD_COUNT)
    else if Reserved(request) < 0 then Some(BAD_RESERVED)
    else if request.active > Reserved(request) then Some(TOO_MANY_ACTIVE)
    else if request.active + request.pending > Reserved(request) then
      Some(TOO_MANY_PENDING)
    else None
  }

  /** Why a request is refused, if it is. */
  function Refusal(request: Request): Option<string> {
    if CountsRefusal(request).Some? then CountsRefusal(request)
    else if !(0.0 < request.fraction <= 1.0) then Some(BAD_FRACTION)
    else if "" in request.representatives then Some(BAD_REPRESENTATIVES)
    else
      var quotas := QuotaInputs(request);
      if |Dedupe(Zones(quotas))| != |quotas| then Some(ZONE_TWICE) else None
  }

  function QuotaInputs(request: Request): seq<Quota> {
    var residual := Residual(Desired(request, |Dedupe(request.available)|), request.active, request.pending);
    if residual < |request.quotas| then request.quotas[..residual] else request.quotas
  }

  function Zones(quotas: seq<Quota>): (r: seq<string>)
    ensures |r| == |quotas| && forall k: nat :: k < |r| ==> r[k] == quotas[k].zone
  {
    if quotas == [] then [] else Zones(quotas[..|quotas| - 1]) + [quotas[|quotas| - 1].zone]
  }

  function Candidates(quotas: seq<Quota>): (r: seq<Task>)
    ensures forall t :: t in r <==> exists k: nat :: k < |quotas| && t in quotas[k].candidates
  {
    if quotas == [] then [] else
      var n := |quotas| - 1;
      var r := Candidates(quotas[..n]) + quotas[n].candidates;
      assert forall t :: t in r ==> exists k: nat :: k < |quotas| && t in quotas[k].candidates by {
        forall t | t in r
          ensures exists k: nat :: k < |quotas| && t in quotas[k].candidates
        {
          if t in Candidates(quotas[..n]) {
            var k: nat :| k < n && t in quotas[..n][k].candidates;
            assert t in quotas[k].candidates;
          } else {
            assert t in quotas[n].candidates;
          }
        }
      }
      assert forall t, k: nat :: k < |quotas| && t in quotas[k].candidates ==> t in r by {
        forall t, k: nat | k < |quotas| && t in quotas[k].candidates
          ensures t in r
        {
          if k < n { assert t in quotas[..n][k].candidates; }
        }
      }
      r
  }

  /** The tasks of a round: the representatives, then the candidates of the zones asked for. */
  function Tasks(request: Request): seq<Task> {
    Dedupe(Dedupe(request.representatives) + Candidates(QuotaInputs(request)))
  }

  /** The first task of `tasks` that `m` places. */
  function FirstPlaced(tasks: seq<Task>, m: map<Uav, Task>): (r: seq<Task>)
    ensures |r| <= 1 && forall t :: t in r ==> t in tasks && t in m.Values
    ensures (exists t :: t in tasks && t in m.Values) ==> |r| == 1
  {
    if tasks == [] then [] else if tasks[0] in m.Values then [tasks[0]] else FirstPlaced(tasks[1..], m)
  }

  /** How an accepted request is answered: an optimal quota assignment, a maximum matching that keeps
      placing its tasks, and the obligations that follow from the two. */
  ghost predicate Answers(request: Request, problem: Problem, a: Assignment, matched: map<Uav, Task>, c: Constraint) {
    var uavs, quotas := Dedupe(request.available), QuotaInputs(request);
    var n, desired := |quotas|, Desired(request, |uavs|);
    && ProblemOf(quotas, Tasks(request), uavs, request.edges, problem)
    && IsOptimal(problem, a)
    && IsMatching(problem.adjacency, matched) && IsMaximum(problem.adjacency, matched)
    && (forall t :: t in ServedTasks(a, n) ==> Placed(matched, t))
    && c.desired == desired && c.active == request.active && c.pending == request.pending
    && c.reserved == Reserved(request) && c.representatives == Tasks(request)
    && c.required == Min(Residual(desired, request.active, request.pending), |matched|)
    && c.infeasible == (if request.active + request.pending + |matched| >= desired then None
                        else Some("insufficient_available_resources"))
    && c.zones == ZoneRequirements(quotas, a, n) && c.zoneInfeasible == Unserved(quotas, a, n)
    && c.mustService == (if ServedTasks(a, n) != [] then ServedTasks(a, n)
                         else if c.required > 0 then FirstPlaced(Tasks(request), matched)
                         else [])
    && c.diversionCredit == (if request.diversion.None? then None
                             else Some(Credit(desired, request.diversion.value)))
  }

  // ------------------------------------------------- the answer in terms of the request alone

  /** The aircraft the fraction refers to: the healthy ones if counted, or else the different ones available. */
  ghost function Fleet(request: Request): int {
    if request.healthy.Some? then request.healthy.value else |set u | u in request.available|
  }

  /** `d` searches are wanted in all: the fraction of the fleet rounded up, but no more than the limit. */
  ghost predicate Wanted(request: Request, d: int) {
    var share := Fleet(request) as real * request.fraction;
    match request.searchLimit
    case None => (d - 1) as real < share <= d as real
    case Some(limit) => if limit as real < share then d == limit else (d - 1) as real < share <= d as real
  }

  /** The zones considered when `d` searches are wanted: the first ones, as many as are still missing. */
  ghost function Considered(request: Request, d: int): (n: nat)
    ensures n <= |request.quotas|
  {
    var missing := d - request.active - request.pending;
    if missing < 0 then 0 else if missing < |request.quotas| then missing else |request.quotas|
  }

  /** Nothing is wrong with a request for `d` searches. */
  ghost predicate Admissible(request: Request, d: int) {
    && d >= 0 && request.active >= 0 && request.pending >= 0
    && (request.healthy.Some? ==> request.healthy.value >= 0)
    && (request.reserved.Some? ==> request.active + request.pending <= request.reserved.value)
    && 0.0 < request.fraction <= 1.0
    && (request.diversion.Some? ==> 0.0 <= request.diversion.value <= 1.0)
    && "" !in request.representatives
    && forall i: nat, j: nat :: i < j < Considered(request, d) ==> request.quotas[i].zone != request.quotas[j].zone
  }

  /** The numbers of the answer when `slots` tasks can be placed. */
  ghost predicate Budgeted(request: Request, slots: nat, c: Constraint) {
    var missing := c.desired - request.active - request.pending;
    && Wanted(request, c.desired) && c.active == request.active && c.pending == request.pending
    && c.reserved == (if request.reserved.Some? then request.reserved.value else request.active + request.pending)
    && c.required == (if missing <= 0 then 0 else if missing <= slots then missing else slots)
    && c.infeasible == (if missing <= slots then None else Some("insufficient_available_resources"))
    && match request.diversion
       case None => c.diversionCredit == None
       case Some(x) => && c.diversionCredit.Some?
                       && c.diversionCredit.value as real <= c.desired as real * x < (c.diversionCredit.value + 1) as real
  }

  /** `x` occurs in `s`, and `y` not before it. */
  ghost predicate ComesFirst<T(!new)>(s: seq<T>, x: T, y: T) {
    exists p: nat :: p < |s| && s[p] == x && y !in s[..p]
  }

  /** `x` is listed ahead of `y`: among the representatives, or as a candidate of the first `n` zones. */
  ghost predicate ListedAhead(request: Request, n: nat, x: Task, y: Task)
    requires n <= |request.quotas|
  {
    if x in request.representatives then ComesFirst(request.representatives, x, y)
    else
      && y !in request.representatives
      && exists k: nat :: k < n && ComesFirst(request.quotas[k].candidates, x, y)
                          && forall j: nat :: j < k ==> y !in request.quotas[j].candidates
  }

  /** `tasks` are the tasks of the round, each once, in the order in which they are first listed. */
  ghost predicate InListedOrder(request: Request, n: nat, tasks: seq<Task>)
    requires n <= |request.quotas|
  {
    && Distinct(tasks)
    && (forall t :: t in tasks <==> t in request.representatives || exists k: nat :: k < n && t in request.quotas[k].candidates)
    && forall i: nat, j: nat :: i < j < |tasks| ==> ListedAhead(request, n, tasks[i], tasks[j])
  }

  /** The zones in `served` are answered for, those in `rest` reported, both in order, and there are no others. */
  ghost predicate Settled(request: Request, n: nat, a: Assignment, c: Constraint, served: seq<nat>, rest: seq<nat>)
    requires n <= |request.quotas|
  {
    && (forall k: nat :: k < n && k in a ==> k in served) && (forall i: nat :: i < |served| ==> served[i] < n && served[i] in a)
    && (forall k: nat :: k < n && k !in a ==> k in rest) && (forall i: nat :: i < |rest| ==> rest[i] < n && rest[i] !in a)
    && (forall i: nat, j: nat :: i < j < |served| ==> served[i] < served[j])
    && (forall i: nat, j: nat :: i < j < |rest| ==> rest[i] < rest[j])
    && |c.zones| == |served| && |c.zoneInfeasible| == |rest|
    && (forall i: nat :: i < |served| ==>
          c.zones[i] == ZoneRequirement(request.quotas[served[i]].zone, 1, request.quotas[served[i]].candidates, [a[served[i]].0]))
    && (forall i: nat :: i < |rest| ==> c.zoneInfeasible[i] == (request.quotas[rest[i]].zone, "no_feasible_zone_representative"))
    && (served != [] ==> |c.mustService| == |served| && forall i: nat :: i < |served| ==> c.mustService[i] == a[served[i]].0)
  }

  /** Without a served zone, the first task that can be placed must be serviced, if a search is required at all. */
  ghost predicate OldestIfNone(matched: map<Uav, Task>, c: Constraint) {
    c.zones == [] ==>
      if c.required == 0 then c.mustService == []
      else exists p: nat :: p < |c.representatives| && c.mustService == [c.representatives[p]]
                            && c.representatives[p] in matched.Values
                            && forall q: nat :: q < p ==> c.representatives[q] !in matched.Values
  }

  lemma {:induction false} SizeOfDistinct<T>(s: seq<T>)
    requires Distinct(s)
    ensures |set x | x in s| == |s|
  {
    if s != [] {
      var t := s[..|s| - 1];
      SizeOfDistinct(t);
      assert (set x | x in s) == (set x | x in t) + {s[|s| - 1]};
    }
  }

  lemma DifferentOnes<T(!new)>(s: seq<T>)
    ensures |Dedupe(s)| == |set x | x in s|
  {
    SizeOfDistinct(Dedupe(s));
    assert (set x | x in Dedupe(s)) == set x | x in s;
  }

  lemma {:induction false} DedupeKeepsFirsts<T(!new)>(s: seq<T>, i: nat, j: nat)
    requires i < j < |Dedupe(s)|
    ensures ComesFirst(s, Dedupe(s)[i], Dedupe(s)[j])
  {
    var t, last := s[..|s| - 1], s[|s| - 1];
    var x, y := Dedupe(s)[i], Dedupe(s)[j];
    if j < |Dedupe(t)| {
      DedupeKeepsFirsts(t, i, j);
      var p: nat :| p < |t| && t[p] == x && y !in t[..p];
      assert s[p] == x && s[..p] == t[..p];
    } else {
      assert x in t && y !in t;
      var p: nat :| p < |t| && t[p] == x;
      assert s[p] == x && s[..p] == t[..p];
    }
  }

  lemma CeilRoundsUp(x: real)
    ensures (Ceil(x) - 1) as real < x <= Ceil(x) as real
  {
  }

  lemma RoundedUpIsOne(x: real, d: int, e: int)
    requires (d - 1) as real < x <= d as real
    ensures (e - 1) as real < x <= e as real ==> d == e
    ensures e as real < x <==> e < d
  {
  }

  lemma ShareOfFleet(request: Request)
    ensures Share(request, |Dedupe(request.available)|) == Fleet(request) as real * request.fraction
  {
    hide *;
    DifferentOnes(request.available);
    FleetIs(request, |Dedupe(request.available)|);
    ShareIs(request, |Dedupe(request.available)|, Fleet(request));
  }

  lemma FleetIs(request: Request, available: nat)
    requires available == |set u | u in request.available|
    ensures Fleet(request) == if request.healthy.None? then available else request.healthy.value
  {
  }

  lemma ShareIs(request: Request, available: nat, fleet: int)
    requires fleet == if request.healthy.None? then available else request.healthy.value
    ensures Share(request, available) == fleet as real * request.fraction
  {
  }

  lemma WantedIs(request: Request)
    ensures Wanted(request, Desired(request, |Dedupe(request.available)|))
    ensures forall d :: Wanted(request, d) ==> d == Desired(request, |Dedupe(request.available)|)
  {
    hide Ceil, Dedupe, Share;
    DifferentOnes(request.available);
    var share := Share(request, |Dedupe(request.available)|);
    ShareOfFleet(request);
    var up := Ceil(share);
    CeilRoundsUp(share);
    var desired := Desired(request, |Dedupe(request.available)|);
    if request.searchLimit.Some? {
      RoundedUpIsOne(share, up, request.searchLimit.value);
    }
    assert desired == if request.searchLimit.None? then up else Min(up, request.searchLimit.value);
    forall d | Wanted(request, d)
      ensures d == desired
    {
      RoundedUpIsOne(share, up, d);
    }
  }

  lemma ConsideredIs(request: Request)
    ensures var n := Considered(request, Desired(request, |Dedupe(request.available)|));
            |QuotaInputs(request)| == n && QuotaInputs(request) == request.quotas[..n]
  {
    hide Desired;
  }

  lemma {:induction false} DedupeShorter<T(!new)>(s: seq<T>)
    ensures |Dedupe(s)| <= |s| && (Distinct(s) ==> Dedupe(s) == s)
  {
    if s != [] {
      var t := s[..|s| - 1];
      DedupeShorter(t);
      assert s == t + [s[|s| - 1]];
    }
  }

  /** Nothing is wrong with a request exactly when it is admissible for the number of searches it wants. */
  lemma RefusedMeans(request: Request)
    ensures var d := Desired(request, |Dedupe(request.available)|);
            Refusal(request).None? && d >= 0 <==> Admissible(request, d)
  {
    hide Refusal, Desired, QuotaInputs, Dedupe, Zones;
    ConsideredIs(request);
    var quotas := QuotaInputs(request);
    DedupeOfDistinct(Zones(quotas));
    DedupeShorter(Zones(quotas));
    ZonesDiffer(quotas);
    RefusedWhen(request);
  }

  lemma ZonesDiffer(quotas: seq<Quota>)
    ensures Distinct(Zones(quotas)) <==> forall i: nat, j: nat :: i < j < |quotas| ==> quotas[i].zone != quotas[j].zone
  {
  }

  lemma CountsRefusedWhen(request: Request)
    ensures CountsRefusal(request).None? <==>
              && request.active >= 0 && request.pending >= 0
              && (request.healthy.Some? ==> request.healthy.value >= 0)
              && (request.reserved.Some? ==> request.active + request.pending <= request.reserved.value)
              && (request.diversion.Some? ==> 0.0 <= request.diversion.value <= 1.0)
  {
    hide BAD_DIVERSION, BAD_COUNT, BAD_RESERVED, TOO_MANY_ACTIVE, TOO_MANY_PENDING;
  }

  lemma RefusedWhen(request: Request)
    ensures var zones := Zones(QuotaInputs(request));
            Refusal(request).None? <==>
              && request.active >= 0 && request.pending >= 0
              && (request.healthy.Some? ==> request.healthy.value >= 0)
              && (request.reserved.Some? ==> request.active + request.pending <= request.reserved.value)
              && 0.0 < request.fraction <= 1.0
              && (request.diversion.Some? ==> 0.0 <= request.diversion.value <= 1.0)
              && "" !in request.representatives
              && |Dedupe(zones)| == |zones|
  {
    hide QuotaInputs, Dedupe, Zones, CountsRefusal;
    CountsRefusedWhen(request);
    assert |Zones(QuotaInputs(request))| == |QuotaInputs(request)|;
  }

  /** A candidate list read in zone order. */
  lemma {:induction false} CandidatesInOrder(quotas: seq<Quota>, x: Task, y: Task)
    requires ComesFirst(Candidates(quotas), x, y)
    ensures exists k: nat :: k < |quotas| && ComesFirst(quotas[k].candidates, x, y)
                             && forall j: nat :: j < k ==> y !in quotas[j].candidates
  {
    var p: nat :| p < |Candidates(quotas)| && Candidates(quotas)[p] == x && y !in Candidates(quotas)[..p];
    if quotas == [] {
      assert false;
    }
    var n := |quotas| - 1;
    var front, last := Candidates(quotas[..n]), quotas[n].candidates;
    assert Candidates(quotas) == front + last;
    if p < |front| {
      assert front[p] == x && front[..p] == Candidates(quotas)[..p];
      CandidatesInOrder(quotas[..n], x, y);
      var k: nat :| k < n && ComesFirst(quotas[..n][k].candidates, x, y) && forall j: nat :: j < k ==> y !in quotas[..n][j].candidates;
      assert quotas[..n][k] == quotas[k];
      forall j: nat | j < k
        ensures y !in quotas[j].candidates
      {
        assert quotas[..n][j] == quotas[j];
      }
    } else {
      var q := p - |front|;
      assert Candidates(quotas)[..p] == front + last[..q];
      assert last[q] == x;
      assert ComesFirst(quotas[n].candidates, x, y);
      forall j: nat | j < n
        ensures y !in quotas[j].candidates
      {
        assert quotas[..n][j] == quotas[j];
        assert y !in front;
      }
    }
  }

  lemma FirstInOneOf(a: seq<Task>, b: seq<Task>, x: Task, y: Task)
    requires ComesFirst(a + b, x, y)
    ensures ComesFirst(a, x, y) || (x !in a && y !in a && ComesFirst(b, x, y))
  {
    var p: nat :| p < |a + b| && (a + b)[p] == x && y !in (a + b)[..p];
    if p < |a| {
      assert a[p] == x && (a + b)[..p] == a[..p];
    } else {
      var q := p - |a|;
      assert (a + b)[..p] == a + b[..q] && b[q] == x;
      if x in a {
        var i: nat :| i < |a| && a[i] == x;
        assert y !in a[..i];
      }
    }
  }

  lemma PlaceOf(s: seq<Task>, x: Task) returns (p: nat)
    requires x in s
    ensures p < |s| && s[p] == x
  {
    p :| p < |s| && s[p] == x;
  }

  lemma FirstBeforeDedupe(s: seq<Task>, x: Task, y: Task)
    requires x != y && ComesFirst(Dedupe(s), x, y)
    ensures ComesFirst(s, x, y)
  {
    var d := Dedupe(s);
    var i: nat :| i < |d| && d[i] == x && y !in d[..i];
    if y in s {
      var j: nat :| j < |d| && d[j] == y;
      forall k | 0 <= k < i
        ensures d[k] != y
      {
        assert d[..i][k] == d[k];
      }
      DedupeKeepsFirsts(s, i, j);
    } else {
      assert x in d;
      var p := PlaceOf(s, x);
      assert y !in s[..p];
    }
  }

  lemma ListedPlaces(reps: seq<Task>, candidates: seq<Task>, x: Task, y: Task)
    requires x != y && ComesFirst(Dedupe(reps) + candidates, x, y)
    ensures if x in reps then ComesFirst(reps, x, y) else y !in reps && ComesFirst(candidates, x, y)
  {
    hide Dedupe;
    FirstInOneOf(Dedupe(reps), candidates, x, y);
    if ComesFirst(Dedupe(reps), x, y) {
      FirstBeforeDedupe(reps, x, y);
    }
  }

  lemma TasksInOrder(request: Request)
    ensures InListedOrder(request, |QuotaInputs(request)|, Tasks(request))
  {
    hide Dedupe, Candidates, ComesFirst;
    ConsideredIs(request);
    var n, tasks := |QuotaInputs(request)|, Tasks(request);
    var quotas := QuotaInputs(request);
    assert forall k: nat :: k < n ==> quotas[k] == request.quotas[k];
    var listed := Dedupe(request.representatives) + Candidates(quotas);
    forall i: nat, j: nat | i < j < |tasks|
      ensures ListedAhead(request, n, tasks[i], tasks[j])
    {
      DedupeKeepsFirsts(listed, i, j);
      ListedPlaces(request.representatives, Candidates(quotas), tasks[i], tasks[j]);
      if tasks[i] !in request.representatives {
        CandidatesInOrder(quotas, tasks[i], tasks[j]);
      }
    }
  }

  lemma {:induction false} FirstPlacedIs(tasks: seq<Task>, m: map<Uav, Task>)
    requires exists t :: t in tasks && t in m.Values
    ensures exists p: nat :: p < |tasks| && FirstPlaced(tasks, m) == [tasks[p]] && tasks[p] in m.Values
                             && forall q: nat :: q < p ==> tasks[q] !in m.Values
  {
    if tasks[0] in m.Values {
      assert FirstPlaced(tasks, m) == [tasks[0]];
    } else {
      var rest := tasks[1..];
      assert exists t :: t in rest && t in m.Values by {
        var t :| t in tasks && t in m.Values;
        assert t in rest;
      }
      FirstPlacedIs(rest, m);
      var p: nat :| p < |rest| && FirstPlaced(rest, m) == [rest[p]] && rest[p] in m.Values
                    && forall q: nat :: q < p ==> rest[q] !in m.Values;
      forall q: nat | q < p + 1
        ensures tasks[q] !in m.Values
      {
        if q > 0 {
          var h := q - 1;
          assert rest[h] == tasks[q];
        }
      }
      assert tasks[p + 1] == rest[p];
    }
  }

  /** The zones below `n` that are not served, in order. */
  ghost function UnservedZones(a: Assignment, n: nat): (r: seq<nat>)
    ensures forall i: nat :: i < |r| ==> r[i] < n
    ensures forall i: nat, j: nat :: i < j < |r| ==> r[i] < r[j]
  {
    if n == 0 then []
    else if n - 1 !in a then UnservedZones(a, n - 1) + [n - 1]
    else UnservedZones(a, n - 1)
  }

  lemma {:induction false} ZonesSplit(a: Assignment, n: nat, k: nat)
    ensures k in ServedZones(a, n) <==> k < n && k in a
    ensures k in UnservedZones(a, n) <==> k < n && k !in a
  {
    if n > 0 {
      ZonesSplit(a, n - 1, k);
    }
  }

  lemma {:induction false} ServedInOrder(a: Assignment, n: nat)
    ensures |ServedTasks(a, n)| == |ServedZones(a, n)|
    ensures forall i: nat :: i < |ServedZones(a, n)| ==> ServedZones(a, n)[i] in a && ServedTasks(a, n)[i] == a[ServedZones(a, n)[i]].0
  {
    if n > 0 {
      ServedInOrder(a, n - 1);
    }
  }

  lemma {:induction false} UnservedInOrder(quotas: seq<Quota>, a: Assignment, n: nat)
    requires n <= |quotas|
    ensures |Unserved(quotas, a, n)| == |UnservedZones(a, n)|
    ensures forall i: nat :: i < |UnservedZones(a, n)| ==>
              Unserved(quotas, a, n)[i] == (quotas[UnservedZones(a, n)[i]].zone, "no_feasible_zone_representative")
  {
    if n > 0 {
      UnservedInOrder(quotas, a, n - 1);
    }
  }

  /** What an answer says, in terms of the request, the assignment and the matching alone. */
  lemma AnswerMeans(request: Request, problem: Problem, a: Assignment, matched: map<Uav, Task>, c: Constraint)
    requires Answers(request, problem, a, matched, c)
    ensures Budgeted(request, |matched|, c)
    ensures var n := Considered(request, c.desired);
            && problem.quotas == request.quotas[..n] && InListedOrder(request, n, c.representatives)
            && (exists served, rest :: Settled(request, n, a, c, served, rest))
    ensures OldestIfNone(matched, c)
  {
    hide *;
    WantedIs(request);
    ConsideredIs(request);
    TasksInOrder(request);
    AnswerBudget(request, problem, a, matched, c);
    AnswerZones(request, problem, a, matched, c);
    AnswerOldest(request, problem, a, matched, c);
  }

  lemma AnswerBudget(request: Request, problem: Problem, a: Assignment, matched: map<Uav, Task>, c: Constraint)
    requires Answers(request, problem, a, matched, c)
    ensures Budgeted(request, |matched|, c) && c.representatives == Tasks(request)
    ensures problem.quotas == QuotaInputs(request) && c.desired == Desired(request, |Dedupe(request.available)|)
  {
    hide IsOptimal, Matching.IsMaximum, Matching.IsMatching, QuotaInputs, Dedupe, ServedTasks, Tasks, Unserved,
         ZoneRequirements, FirstPlaced, Desired, Wanted;
    WantedIs(request);
  }

  lemma AnswerZones(request: Request, problem: Problem, a: Assignment, matched: map<Uav, Task>, c: Constraint)
    requires Answers(request, problem, a, matched, c)
    ensures exists served, rest :: Settled(request, Considered(request, c.desired), a, c, served, rest)
  {
    hide *;
    ConsideredIs(request);
    AnswerBudget(request, problem, a, matched, c);
    AnswerLists(request, problem, a, matched, c);
    OptimalFacts(problem, a);
    var n := Considered(request, c.desired);
    ZonesSettled(request, n, problem, a, c);
  }

  lemma AnswerLists(request: Request, problem: Problem, a: Assignment, matched: map<Uav, Task>, c: Constraint)
    requires Answers(request, problem, a, matched, c)
    ensures var n := |QuotaInputs(request)|;
            && IsOptimal(problem, a) && problem.Valid()
            && c.zones == ZoneRequirements(QuotaInputs(request), a, n) && c.zoneInfeasible == Unserved(QuotaInputs(request), a, n)
            && (ServedTasks(a, n) != [] ==> c.mustService == ServedTasks(a, n))
  {
    hide IsOptimal, Matching.IsMaximum, Matching.IsMatching, Dedupe, Tasks, FirstPlaced, Desired, ZoneRequirements, ServedTasks,
         Unserved, QuotaInputs, Reserved, Residual;
  }

  lemma ZonesSettled(request: Request, n: nat, problem: Problem, a: Assignment, c: Constraint)
    requires n <= |request.quotas| && problem.quotas == request.quotas[..n] && IsAssignment(problem, a)
    requires c.zones == ZoneRequirements(problem.quotas, a, n) && c.zoneInfeasible == Unserved(problem.quotas, a, n)
    requires ServedTasks(a, n) != [] ==> c.mustService == ServedTasks(a, n)
    ensures exists served, rest :: Settled(request, n, a, c, served, rest)
  {
    hide QuotaAssignment.IsAssignment, ZoneRequirements, Unserved, ServedTasks, ServedZones, UnservedZones;
    var served, rest := ServedZones(a, n), UnservedZones(a, n);
    RequirementsAre(problem, a, n);
    ServedInOrder(a, n);
    UnservedInOrder(problem.quotas, a, n);
    forall k: nat
      ensures k in served <==> k < n && k in a
      ensures k in rest <==> k < n && k !in a
    {
      ZonesSplit(a, n, k);
    }
    forall i: nat | i < |served|
      ensures c.zones[i] == ZoneRequirement(request.quotas[served[i]].zone, 1, request.quotas[served[i]].candidates, [a[served[i]].0])
    {
      assert IsRequirement(problem, a, c.zones[i], served[i]);
      assert problem.quotas[served[i]] == request.quotas[served[i]];
    }
    forall i: nat | i < |rest|
      ensures c.zoneInfeasible[i] == (request.quotas[rest[i]].zone, "no_feasible_zone_representative") && rest[i] !in a
    {
      assert rest[i] in rest;
      assert problem.quotas[rest[i]] == request.quotas[rest[i]];
    }
    assert Settled(request, n, a, c, served, rest);
  }

  lemma PlacedOneIsListed(request: Request, problem: Problem, a: Assignment, matched: map<Uav, Task>, c: Constraint)
    requires Answers(request, problem, a, matched, c) && c.required > 0
    ensures exists t :: t in Tasks(request) && t in matched.Values
  {
    hide IsOptimal, Dedupe, Desired, ServedTasks, ZoneRequirements, Unserved, QuotaInputs, Tasks;
    assert |matched| > 0;
    assert |matched| == |matched.Keys|;
    var u :| u in matched;
    assert matched[u] in problem.adjacency && matched[u] in matched.Values;
  }

  lemma AnswerOldest(request: Request, problem: Problem, a: Assignment, matched: map<Uav, Task>, c: Constraint)
    requires Answers(request, problem, a, matched, c)
    ensures OldestIfNone(matched, c)
  {
    hide *;
    var n := |QuotaInputs(request)|;
    AnswerBudget(request, problem, a, matched, c);
    AnswerLists(request, problem, a, matched, c);
    OptimalFacts(problem, a);
    ServedInOrder(a, n);
    RequirementsAre(problem, a, n);
    if c.zones == [] {
      assert ServedTasks(a, n) == [];
      UnservedOldest(request, problem, a, matched, c);
      if c.required > 0 {
        PlacedOneIsListed(request, problem, a, matched, c);
        FirstPlacedIs(Tasks(request), matched);
      }
      OldestHolds(request, matched, c);
    } else {
      NothingOldest(matched, c);
    }
  }

  lemma OldestHolds(request: Request, matched: map<Uav, Task>, c: Constraint)
    requires c.representatives == Tasks(request) && c.required >= 0
    requires c.mustService == if c.required > 0 then FirstPlaced(Tasks(request), matched) else []
    requires c.required > 0 ==>
      exists p: nat :: p < |Tasks(request)| && FirstPlaced(Tasks(request), matched) == [Tasks(request)[p]]
                       && Tasks(request)[p] in matched.Values
                       && forall q: nat :: q < p ==> Tasks(request)[q] !in matched.Values
    ensures OldestIfNone(matched, c)
  {
    hide Tasks, FirstPlaced;
  }

  lemma NothingOldest(matched: map<Uav, Task>, c: Constraint)
    requires c.zones != []
    ensures OldestIfNone(matched, c)
  {
  }

  lemma UnservedOldest(request: Request, problem: Problem, a: Assignment, matched: map<Uav, Task>, c: Constraint)
    requires Answers(request, problem, a, matched, c) && ServedTasks(a, |QuotaInputs(request)|) == []
    ensures c.required >= 0
    ensures c.mustService == if c.required > 0 then FirstPlaced(Tasks(request), matched) else []
  {
    hide ProblemOf, IsOptimal, Matching.IsMaximum, Matching.IsMatching, Dedupe, Tasks, FirstPlaced, Desired, ZoneRequirements,
         ServedTasks, Unserved, QuotaInputs, Reserved;
  }

  lemma TasksCoverCandidates(request: Request)
    requires request.WellFormed()
    ensures Distinct(Tasks(request)) && Distinct(Dedupe(request.available))
    ensures forall k: nat :: k < |QuotaInputs(request)| ==> Distinct(QuotaInputs(request)[k].candidates)
    ensures forall k: nat, t :: k < |QuotaInputs(request)| && t in QuotaInputs(request)[k].candidates ==> t in Tasks(request)
  {
    forall k: nat, t | k < |QuotaInputs(request)| && t in QuotaInputs(request)[k].candidates
      ensures t in Tasks(request)
    {
      assert t in Candidates(QuotaInputs(request));
      assert t in Dedupe(request.representatives) + Candidates(QuotaInputs(request));
    }
  }

  lemma InScope(problem: Problem, uavs: seq<Uav>)
    requires problem.Valid() && problem.uavs == uavs
    ensures Within(problem.adjacency, set u | u in uavs)
    ensures forall t :: t in problem.adjacency <==> t in problem.tasks
  {
  }

  /** Only a negative limit makes the desired count negative. */
  lemma NegativeIsByLimit(request: Request, available: nat)
    requires Refusal(request).None?
    ensures Desired(request, available) < 0 <==> request.searchLimit.Some? && request.searchLimit.value < 0
  {
    hide Refusal;
    RefusalBounds(request);
    assert Share(request, available) >= 0.0;
  }

  /** A request for nothing with a limit of minus one: nothing listed is wrong with it, and it is refused. */
  lemma NegativeLimitRefused()
    ensures var request := Request(0, None, 0, [], [], [], 1.0, [], None, Some(-1), None);
            request.WellFormed() && Refusal(request).None? && Desired(request, |Dedupe(request.available)|) == -1
  {
  }

  method BuildConstraint(request: Request)
    returns (r: Result<Constraint>, ghost problem: Problem, ghost a: Assignment, ghost matched: map<Uav, Task>)
    requires request.WellFormed()
    ensures Refusal(request).Some? ==> r == Err(Refusal(request).value)
    ensures Refusal(request).None? ==> (r.Ok? <==> Desired(request, |Dedupe(request.available)|) >= 0)
    ensures Refusal(request).None? ==> (r.Err? <==> request.searchLimit.Some? && request.searchLimit.value < 0)
    ensures r.Ok? ==> Refusal(request).None? && Answers(request, problem, a, matched, r.value) && Accepted(r.value)
    ensures r.Ok? <==> exists d :: Wanted(request, d) && Admissible(request, d)
    ensures r.Ok? ==> Budgeted(request, |matched|, r.value) && OldestIfNone(matched, r.value)
    ensures r.Ok? ==> var n := Considered(request, r.value.desired);
                      && problem.quotas == request.quotas[..n] && InListedOrder(request, n, r.value.representatives)
                      && exists served, rest :: Settled(request, n, a, r.value, served, rest)
  {
    hide *;
    problem, a, matched := Problem([], [], [], map[], map[], 0.0), map[], map[];
    WantedIs(request);
    RefusedMeans(request);
    var refusal := Refusal(request);
    if refusal.Some? {
      return Err(refusal.value), problem, a, matched;
    }
    var uavs := Dedupe(request.available);
    var desired := Desired(request, |uavs|);
    var residual := Residual(desired, request.active, request.pending);
    var quotas := QuotaInputs(request);
    var tasks := Tasks(request);
    TasksCoverCandidates(request);
    var quotaProblem, minimum := Prepare(quotas, tasks, uavs, request.edges);
    ProblemFacts(quotas, tasks, uavs, request.edges, quotaProblem);
    var assignment := SolveQuotas(quotaProblem, minimum);
    OptimalFacts(quotaProblem, assignment);
    var zones, unserved, served, witnesses := Publish(quotaProblem, assignment);
    WitnessesMatch(quotaProblem, assignment);
    InScope(quotaProblem, uavs);
    var matcher := new Matcher(quotaProblem.adjacency, (set u | u in uavs), witnesses);
    matcher.MatchAll(tasks);
    var slots := |matcher.matched|;
    var required := Min(residual, slots);
    var infeasible := if request.active + request.pending + slots >= desired then None
                      else Some("insufficient_available_resources");
    var mustService := if served != [] then served
                       else if required > 0 then FirstPlaced(tasks, matcher.matched) else [];
    var credit := if request.diversion.None? then None else Some(Credit(desired, request.diversion.value));
    var c := Constraint(desired, request.active, required, tasks, mustService, infeasible, zones, unserved,
                        Reserved(request), request.pending, credit);
    problem, a, matched := quotaProblem, assignment, matcher.matched;
    AnswersHolds(request, problem, a, matched, c);
    NegativeIsByLimit(request, |uavs|);
    if desired < 0 {
      return Err("desired_search_count must be a non-negative integer"), problem, a, matched;
    }
    AnswersAccepted(request, problem, a, matched, c);
    AnswerMeans(request, problem, a, matched, c);
    return Ok(c), problem, a, matched;
  }

  lemma ProblemFacts(quotas: seq<Quota>, tasks: seq<Task>, uavs: seq<Uav>, edges: seq<FeasibleEdge>, problem: Problem)
    requires ProblemOf(quotas, tasks, uavs, edges, problem)
    ensures problem.Valid() && problem.quotas == quotas && problem.tasks == tasks && problem.uavs == uavs
  {
  }

  lemma OptimalFacts(problem: Problem, a: Assignment)
    requires IsOptimal(problem, a)
    ensures IsAssignment(problem, a)
  {
  }

  lemma AnswersHolds(request: Request, problem: Problem, a: Assignment, matched: map<Uav, Task>, c: Constraint)
    requires var uavs, quotas := Dedupe(request.available), QuotaInputs(request);
             var n, desired := |quotas|, Desired(request, |uavs|);
             var residual := Residual(desired, request.active, request.pending);
             var required := Min(residual, |matched|);
             && ProblemOf(quotas, Tasks(request), uavs, request.edges, problem)
             && IsOptimal(problem, a)
             && IsMatching(problem.adjacency, matched) && IsMaximum(problem.adjacency, matched)
             && (forall t :: t in ServedTasks(a, n) ==> Placed(Witnesses(a, n), t))
             && (forall t :: Placed(Witnesses(a, n), t) ==> Placed(matched, t))
             && c == Constraint(desired, request.active, required, Tasks(request),
                       if ServedTasks(a, n) != [] then ServedTasks(a, n)
                       else if required > 0 then FirstPlaced(Tasks(request), matched) else [],
                       if request.active + request.pending + |matched| >= desired then None
                       else Some("insufficient_available_resources"),
                       ZoneRequirements(quotas, a, n), Unserved(quotas, a, n), Reserved(request), request.pending,
                       if request.diversion.None? then None else Some(Credit(desired, request.diversion.value)))
    ensures Answers(request, problem, a, matched, c)
  {
  }

  lemma {:induction false} DedupeOfDistinct(s: seq<string>)
    ensures |Dedupe(s)| <= |s| && (|Dedupe(s)| == |s| ==> Distinct(s))
  {
    if s != [] {
      var t := s[..|s| - 1];
      DedupeOfDistinct(t);
      assert s == t + [s[|s| - 1]];
    }
  }

  /** The zones below `n` that are served, in order. */
  ghost function ServedZones(a: Assignment, n: nat): (r: seq<nat>)
    ensures forall i: nat :: i < |r| ==> r[i] < n
    ensures forall i: nat, j: nat :: i < j < |r| ==> r[i] < r[j]
  {
    if n == 0 then []
    else if n - 1 in a then ServedZones(a, n - 1) + [n - 1]
    else ServedZones(a, n - 1)
  }

  /** The zone requirements are those of the served zones, in order. */
  lemma {:induction false} RequirementsAre(problem: Problem, a: Assignment, n: nat)
    requires IsAssignment(problem, a) && n <= |problem.quotas|
    ensures |ZoneRequirements(problem.quotas, a, n)| == |ServedZones(a, n)|
    ensures forall i: nat :: i < |ServedZones(a, n)| ==>
              IsRequirement(problem, a, ZoneRequirements(problem.quotas, a, n)[i], ServedZones(a, n)[i])
  {
    if n > 0 {
      RequirementsAre(problem, a, n - 1);
      if n - 1 in a {
        assert IsRequirement(problem, a, ZoneRequirement(problem.quotas[n - 1].zone, 1, problem.quotas[n - 1].candidates, [a[n - 1].0]), n - 1);
      }
    }
  }

  ghost predicate IsRequirement(problem: Problem, a: Assignment, z: ZoneRequirement, k: nat) {
    && k < |problem.quotas| && k in a
    && z == ZoneRequirement(problem.quotas[k].zone, 1, problem.quotas[k].candidates, [a[k].0])
  }

  lemma CreditNonNegative(desired: int, fraction: real)
    requires desired >= 0 && fraction >= 0.0
    ensures Credit(desired, fraction) >= 0
  {
    assert desired as real * fraction >= 0.0;
  }

  /** Every check of the constructor passes. */
  lemma AnswersAccepted(request: Request, problem: Problem, a: Assignment, matched: map<Uav, Task>, c: Constraint)
    requires request.WellFormed() && Refusal(request).None? && Answers(request, problem, a, matched, c)
    requires c.desired >= 0
    ensures Accepted(c)
  {
    hide *;
    AnswerParts(request, problem, a, matched, c);
    ProblemFacts(QuotaInputs(request), Tasks(request), Dedupe(request.available), request.edges, problem);
    OptimalFacts(problem, a);
    NoEmptyNames(request);
    AcceptedZones(request, problem, a, c);
    MustServiceAreTasks(request, problem, a, matched, c);
    AcceptedNumbers(request, problem, a, matched, c);
    AllAccepted(c);
  }

  lemma AllAccepted(c: Constraint)
    requires c.desired >= 0 && c.active >= 0 && c.required >= 0 && c.reserved >= 0 && c.pending >= 0
    requires c.active <= c.reserved && c.active + c.pending <= c.reserved && c.required <= c.desired
    requires c.diversionCredit.Some? ==> c.diversionCredit.value >= 0
    requires "" !in c.representatives && forall t :: t in c.mustService ==> t in c.representatives
    requires c.infeasible != Some("")
    requires forall i: nat :: i < |c.zones| ==> ZoneAccepted(c.zones[i])
    requires forall i: nat, j: nat :: i < j < |c.zones| ==> c.zones[i].zone != c.zones[j].zone
    requires forall i: nat, t :: i < |c.zones| && t in c.zones[i].representatives ==> t in c.representatives
    ensures Accepted(c)
  {
  }

  lemma AnswerParts(request: Request, problem: Problem, a: Assignment, matched: map<Uav, Task>, c: Constraint)
    requires Answers(request, problem, a, matched, c)
    ensures ProblemOf(QuotaInputs(request), Tasks(request), Dedupe(request.available), request.edges, problem)
    ensures IsOptimal(problem, a)
    ensures c.zones == ZoneRequirements(QuotaInputs(request), a, |QuotaInputs(request)|)
    ensures c.representatives == Tasks(request)
    ensures c.infeasible != Some("")
  {
  }

  lemma AcceptedNumbers(request: Request, problem: Problem, a: Assignment, matched: map<Uav, Task>, c: Constraint)
    requires Refusal(request).None? && Answers(request, problem, a, matched, c) && c.desired >= 0
    ensures c.active >= 0 && c.required >= 0 && c.reserved >= 0 && c.pending >= 0
    ensures c.active <= c.reserved && c.active + c.pending <= c.reserved && c.required <= c.desired
    ensures c.diversionCredit.Some? ==> c.diversionCredit.value >= 0
  {
    hide Answers, Refusal, Reserved, Credit;
    AnswerNumbers(request, problem, a, matched, c);
    RefusalBounds(request);
    if request.diversion.Some? {
      CreditNonNegative(c.desired, request.diversion.value);
    }
  }

  lemma RefusalBounds(request: Request)
    requires Refusal(request).None?
    ensures request.active >= 0 && request.pending >= 0 && request.active + request.pending <= Reserved(request)
    ensures request.diversion.Some? ==> request.diversion.value >= 0.0
    ensures 0.0 < request.fraction && (request.healthy.Some? ==> request.healthy.value >= 0)
    ensures "" !in request.representatives
  {
    hide QuotaInputs, Dedupe, Zones, CountsRefusal;
    CountsRefusedWhen(request);
  }

  lemma AnswerNumbers(request: Request, problem: Problem, a: Assignment, matched: map<Uav, Task>, c: Constraint)
    requires Answers(request, problem, a, matched, c)
    ensures c.active == request.active && c.pending == request.pending && c.reserved == Reserved(request)
    ensures c.required == Min(Residual(c.desired, request.active, request.pending), |matched|)
    ensures c.diversionCredit == if request.diversion.None? then None
                                 else Some(Credit(c.desired, request.diversion.value))
  {
    hide ProblemOf, IsOptimal, Matching.IsMaximum, Matching.IsMatching, Desired, QuotaInputs, Dedupe, ServedTasks, Tasks,
         Unserved, ZoneRequirements, FirstPlaced, Reserved, Min, Residual;
  }

  lemma DistinctZones(request: Request)
    requires Refusal(request).None?
    ensures var quotas := QuotaInputs(request);
            forall i: nat, j: nat :: i < j < |quotas| ==> quotas[i].zone != quotas[j].zone
  {
    DedupeOfDistinct(Zones(QuotaInputs(request)));
  }

  lemma NoEmptyNames(request: Request)
    requires request.WellFormed() && Refusal(request).None?
    ensures "" !in Tasks(request)
  {
    hide Refusal;
    RefusalBounds(request);
    assert forall k: nat :: k < |QuotaInputs(request)| ==> QuotaInputs(request)[k] == request.quotas[k];
  }

  lemma AcceptedZones(request: Request, problem: Problem, a: Assignment, c: Constraint)
    requires request.WellFormed() && Refusal(request).None?
    requires IsAssignment(problem, a) && problem.quotas == QuotaInputs(request)
    requires problem.Valid() && problem.tasks == c.representatives
    requires c.zones == ZoneRequirements(problem.quotas, a, |problem.quotas|)
    ensures forall i: nat :: i < |c.zones| ==> ZoneAccepted(c.zones[i])
    ensures forall i: nat, t :: i < |c.zones| && t in c.zones[i].representatives ==> t in c.representatives
    ensures forall i: nat, j: nat :: i < j < |c.zones| ==> c.zones[i].zone != c.zones[j].zone
  {
    hide Refusal;
    var served := ServedZones(a, |problem.quotas|);
    RequirementsAre(problem, a, |problem.quotas|);
    DistinctZones(request);
    forall i: nat | i < |c.zones|
      ensures ZoneAccepted(c.zones[i])
      ensures forall t :: t in c.zones[i].representatives ==> t in c.representatives
    {
      assert IsRequirement(problem, a, c.zones[i], served[i]);
      assert problem.quotas[served[i]] == request.quotas[served[i]];
    }
    forall i: nat, j: nat | i < j < |c.zones|
      ensures c.zones[i].zone != c.zones[j].zone
    {
      assert IsRequirement(problem, a, c.zones[i], served[i]) && IsRequirement(problem, a, c.zones[j], served[j]);
    }
  }

  lemma MustServiceAreTasks(request: Request, problem: Problem, a: Assignment, matched: map<Uav, Task>, c: Constraint)
    requires Answers(request, problem, a, matched, c) && IsAssignment(problem, a)
    ensures forall t :: t in c.mustService ==> t in c.representatives
  {
    forall t | t in c.mustService
      ensures t in c.representatives
    {
      ServedTasksAre(a, |QuotaInputs(request)|, t);
    }
  }

  // ------------------------------------------------------------ what the answer means

  /** Between two nested sets there is one of every size in between. */
  lemma {:induction false} SetBetween<T>(low: set<T>, high: set<T>, n: nat) returns (s: set<T>)
    requires low <= high && |low| <= n <= |high|
    ensures low <= s <= high && |s| == n
    decreases n - |low|
  {
    if |low| == n {
      s := low;
    } else {
      if low == high {
        assert false;
      }
      var x :| x in high && x !in low;
      s := SetBetween(low + {x}, high, n);
    }
  }

  /** The aircraft that hold the tasks of `tasks`. */
  ghost function HoldersOf(m: map<Uav, Task>, tasks: seq<Task>): set<Uav> {
    set u | u in m && m[u] in tasks
  }

  lemma {:induction false} HoldersCount(m: map<Uav, Task>, tasks: seq<Task>)
    requires OnePlace(m, {}) && Distinct(tasks) && forall t :: t in tasks ==> Placed(m, t)
    ensures |HoldersOf(m, tasks)| == |tasks|
  {
    if tasks == [] {
      assert HoldersOf(m, tasks) == {};
    } else {
      var n := |tasks| - 1;
      var rest, last := tasks[..n], tasks[n];
      assert tasks == rest + [last];
      HoldersCount(m, rest);
      assert Placed(m, last);
      var u :| u in m && u !in {} && m[u] == last;
      assert HoldersOf(m, tasks) == HoldersOf(m, rest) + {u};
      assert u !in HoldersOf(m, rest);
    }
  }

  /** A matching cut down to some of its aircraft is a matching. */
  lemma Restrict(adjacency: Adjacency, m: map<Uav, Task>, us: set<Uav>, tasks: seq<Task>)
    requires IsMatching(adjacency, m) && HoldersOf(m, tasks) <= us <= m.Keys
    requires forall t :: t in tasks ==> Placed(m, t)
    ensures var m' := map u | u in m && u in us :: m[u];
            IsMatching(adjacency, m') && |m'| == |us| && forall t :: t in tasks ==> Placed(m', t)
  {
    var m' := map u | u in m && u in us :: m[u];
    assert m'.Keys == us;
    assert |m'| == |m'.Keys|;
    forall t | t in tasks
      ensures Placed(m', t)
    {
      var u :| u in m && u !in {} && m[u] == t;
      assert u in HoldersOf(m, tasks);
      assert u in m' && m'[u] == t;
    }
  }

  /** The must-service tasks are placed together, distinct, and no more than the searches required. */
  lemma MustServiceFits(request: Request, problem: Problem, a: Assignment, matched: map<Uav, Task>, c: Constraint)
    requires Answers(request, problem, a, matched, c)
    ensures Distinct(c.mustService) && |c.mustService| <= c.required <= |matched|
    ensures forall t :: t in c.mustService ==> Placed(matched, t)
  {
    hide ProblemOf, Matching.IsMaximum, Desired, Dedupe;
    var n := |QuotaInputs(request)|;
    OptimalFacts(problem, a);
    ServedTasksDistinct(problem, a, n);
    if ServedTasks(a, n) != [] {
      HoldersCount(matched, ServedTasks(a, n));
      SubsetCard(HoldersOf(matched, ServedTasks(a, n)), matched.Keys);
      assert |matched| == |matched.Keys|;
    } else {
      forall t | t in FirstPlaced(Tasks(request), matched)
        ensures Placed(matched, t)
      {
        PlacedIsValue(matched, t);
      }
    }
  }

  /** The obligations can be met together: some matching serves exactly the required number of
      tasks, and every must-service task among them. */
  lemma ObligationsAreSatisfiable(request: Request, problem: Problem, a: Assignment, matched: map<Uav, Task>, c: Constraint)
    requires Answers(request, problem, a, matched, c)
    ensures exists m :: IsMatching(problem.adjacency, m) && |m| == c.required && forall t :: t in c.mustService ==> Placed(m, t)
  {
    hide *;
    MustServiceFits(request, problem, a, matched, c);
    MatchingParts(request, problem, a, matched, c);
    HoldersCount(matched, c.mustService);
    HoldersAmong(matched, c.mustService);
    var us := SetBetween(HoldersOf(matched, c.mustService), matched.Keys, c.required);
    Restrict(problem.adjacency, matched, us, c.mustService);
  }

  lemma HoldersAmong(m: map<Uav, Task>, tasks: seq<Task>)
    ensures HoldersOf(m, tasks) <= m.Keys && |m| == |m.Keys|
  {
  }

  lemma MatchingParts(request: Request, problem: Problem, a: Assignment, matched: map<Uav, Task>, c: Constraint)
    requires Answers(request, problem, a, matched, c)
    ensures IsMatching(problem.adjacency, matched) && OnePlace(matched, {})
  {
  }

  /** No reason for infeasibility is given exactly when the whole residual budget is required. */
  lemma FeasibleMeansBudgetMet(request: Request, problem: Problem, a: Assignment, matched: map<Uav, Task>, c: Constraint)
    requires Answers(request, problem, a, matched, c)
    ensures c.infeasible == None <==> c.required == Residual(c.desired, c.active, c.pending)
  {
    hide ProblemOf, IsOptimal, Matching.IsMaximum, Matching.IsMatching, Dedupe;
  }
}
