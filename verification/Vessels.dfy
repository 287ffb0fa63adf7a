/** A vessel, the navigators that plan for it, and the execution of a planned route.

    A navigator reads the vessel it is bound to and stamps every route with the vessel's
    generation, so that a route planned before the last change is recognised as stale.
  */
module Vessels {

  import opened Finite
  import opened SegmentClip
  import opened SegmentSafety
  import Inflation
  import opened ShipMotion
  import opened ShipPlanner

  const CLOCK_SLACK := 0.000000001

  datatype Parameters = Parameters(headingOffset: real, zigzagHeading: real, phase: real, zigzagPeriod: real, speed: real)

  /** A route as planned; a route nobody planned has no navigator. */
  datatype Route = Route(
    poses: seq<Pose>, commands: seq<Command>, indices: seq<nat>, initial: MotionState,
    generatedAt: real, ready: bool, reason: string, chart: Chart, generation: nat, navigator: Navigator?)

  /** Every cursor a command leads to exists. */
  ghost predicate CursorsFit(route: Route) {
    route.indices == [] || |route.indices| == |route.commands| + 1
  }

  /** The route is what its commands do to its initial state, and every segment of it is safe. */
  ghost predicate SafeRoute(w: World, route: Route) {
    && w.maxTurnRate > 0.0 && Timed(route.commands) && CursorsFit(route)
    && var states := Rollout(w, route.initial, route.commands);
       route.poses == Poses(states) && AllSafe(w, states)
  }

  /** Where a run of commands ends. */
  function RolloutEnd(w: World, initial: MotionState, commands: seq<Command>): MotionState
    requires w.maxTurnRate > 0.0
  {
    Rollout(w, initial, commands)[|commands|]
  }

  /** A braking step from here with this heading, no longer than a full one, is not safe. */
  ghost predicate CannotBrakeOn(w: World, state: MotionState, heading: real) {
    w.maxTurnRate > 0.0 && exists dt: real :: dt <= w.step && BrakingBlocked(w, state, heading, dt)
  }

  /** Braking with some heading held cannot go on. */
  ghost predicate Stuck(w: World, state: MotionState) {
    exists heading: real :: CannotBrakeOn(w, state, heading)
  }

  /** Braking commands last `time` minutes, unless braking on is not safe; none is longer than a step. */
  ghost predicate BrakesFor(w: World, initial: MotionState, heading: real, commands: seq<Command>, time: real) {
    && w.maxTurnRate > 0.0 && (forall c :: c in commands ==> c.duration <= w.step)
    && (TotalTime(commands) >= time - EPSILON || CannotBrakeOn(w, RolloutEnd(w, initial, commands), heading))
  }

  lemma StuckHere(w: World, state: MotionState, heading: real)
    requires CannotBrakeOn(w, state, heading)
    ensures Stuck(w, state)
  {
  }

  lemma ChainRoute(w: World, states: seq<MotionState>, commands: seq<Command>)
    requires Chain(w, states, commands)
    ensures w.maxTurnRate > 0.0 && |states| == |commands| + 1 && states == Rollout(w, states[0], commands)
    ensures RolloutEnd(w, states[0], commands) == states[|states| - 1]
  {
    ChainIsRollout(w, states, commands);
  }

  lemma BrakedRoute(w: World, states: seq<MotionState>, commands: seq<Command>, heading: real, duration: real, time: real,
                    blocked: bool)
    requires Chain(w, states, commands) && time <= duration
    requires !blocked ==> TotalTime(commands) >= duration - EPSILON
    requires blocked ==> BrakingBlocked(w, states[|states| - 1], heading, Least(w.step, duration - TotalTime(commands)))
    requires BrakingPace(w, heading, duration, commands)
    ensures states != [] && BrakesFor(w, states[0], heading, commands, time)
  {
    hide Chain, TotalTime, BrakingBlocked;
    ChainRoute(w, states, commands);
    forall c | c in commands
      ensures c.duration <= w.step
    {
      var i: nat :| i < |commands| && commands[i] == c;
      assert BrakingAt(w.step, heading, duration, commands, i);
    }
  }

  ghost predicate BrakeCommands(heading: real, commands: seq<Command>) {
    forall c :: c in commands ==> c.heading == heading && c.speed == 0.0
  }

  lemma PacedBrakes(w: World, heading: real, duration: real, commands: seq<Command>)
    requires BrakingPace(w, heading, duration, commands)
    ensures BrakeCommands(heading, commands)
  {
    forall c | c in commands
      ensures c.heading == heading && c.speed == 0.0
    {
      var i: nat :| i < |commands| && commands[i] == c;
      assert BrakingAt(w.step, heading, duration, commands, i);
    }
  }

  ghost predicate SeesCharts(view: Chart -> World) {
    forall chart :: view(chart).Usable() && view(chart).chart == chart && view(chart).KnowsChart()
  }

  lemma Sees(view: Chart -> World, chart: Chart)
    requires SeesCharts(view)
    ensures view(chart).Usable() && view(chart).maxTurnRate > 0.0 && view(chart).chart == chart && view(chart).KnowsChart()
    ensures view(chart).maxAcceleration > 0.0
  {
    hide World.KnowsChart;
  }

  /** A world that sees every chart as it is. */
  ghost function Truly(chart: Chart): World {
    var gate, larger := GateOf(chart.land, None), Inflation.InflatedLand(chart.land, chart.islands, 0.0);
    World(chart, None, (state, heading, dt) => 0.0, (state: MotionState, heading, rate, speed, dt) => state.pose,
          (a, b) => IsSafe(At(a), At(b), chart.land, chart.islands, 0.0, gate), p => Exited(gate, At(p)),
          p => IsSafe(At(p), At(p), larger, chart.islands, 0.0, GateOf(larger, None)),
          (p, i) => (0.0, i), (p, i) => i, i => 0.0, (a, b) => 0.0, (a, b) => 0.0, (a, b, radius) => None,
          1.0, 1.0, 0.0, 1.0, 1.0, 1.0, 1.0, 1.0, 0.0, 1.0, !OpenWater(chart))
  }

  /** What is asked of a view can be met. */
  lemma SomeViewSees()
    ensures exists view :: SeesCharts(view)
  {
    hide IsSafe, Exited, GateOf, Inflation.InflatedLand, OpenWater;
    assert SeesCharts(Truly);
  }

  /** The nominal reference: the orders followed for one horizon, or off the chart. */
  ghost predicate IsReference(w: World, orders: Orders, initial: MotionState, now: real, index: nat, line: Line) {
    w.maxTurnRate > 0.0
    && var r := Reference(initial, 0.0, w.horizon, now, index);
       exists n: nat :: line == Join(Outset(r), Steps(w, orders, r, n)) && Lasts(w, orders, r, n)
                        && !Continues(w, ReferenceAt(w, orders, r, n))
  }

  lemma ReferenceFound(w: World, orders: Orders, initial: MotionState, now: real, index: nat, line: Line, n: nat)
    requires w.maxTurnRate > 0.0
    requires var r := Reference(initial, 0.0, w.horizon, now, index);
             line == Join(Outset(r), Steps(w, orders, r, n)) && Lasts(w, orders, r, n)
             && !Continues(w, ReferenceAt(w, orders, r, n))
    ensures IsReference(w, orders, initial, now, index, line)
  {
  }

  /** The vessel can brake from the end of the line. */
  ghost predicate StopsAtEnd(w: World, line: Line) {
    w.Usable() && line.states != []
    && var last := line.states[|line.states| - 1]; CanBrake(w, last, last.pose.heading)
  }

  /** A safe line that the reference, extended, becomes by at most eight splices, and that
      ends where the vessel can brake. */
  ghost predicate ReadyLine(w: World, orders: Orders, now: real, reference: Line, line: Line) {
    && reference.Sound(w) && reference.states != [] && reference.indices != []
    && line.Sound(w) && line.states != [] && AllSafe(w, line.states) && StopsAtEnd(w, line)
    && exists n: nat, splices: nat ::
      && Lasts(w, orders, Beyond(now, reference), n) && splices <= MAX_DEPTH
      && Detoured(w, orders, now, Extended(w, orders, now, reference, n), line, splices)
  }

  lemma RepairedLine(w: World, orders: Orders, now: real, reference: Line, n: nat, track: Line, line: Line, splices: nat)
    requires w.Usable() && reference.Sound(w) && reference.states != [] && reference.indices != []
    requires Lasts(w, orders, Beyond(now, reference), n) && track == Extended(w, orders, now, reference, n)
    requires Detoured(w, orders, now, track, line, splices)
    ensures line.Sound(w) && line.states != [] && line.indices != [] && line.states[0] == reference.states[0]
    ensures splices == 0 ==> line == track
    ensures n == 0 ==> track == reference
  {
    hide Chain, Detoured, TotalTime;
    ExtendedIsSound(w, orders, now, reference, n);
    DetouredIsSound(w, orders, now, track, line, splices);
    LastOf(w, line);
    assert track.states[0] == reference.states[0];
    if n == 0 {
      ExtendedIsSound(w, orders, now, reference, 0);
    }
  }

  lemma StopsWhen(w: World, line: Line)
    requires w.Usable() && line.states != []
    ensures var last := line.states[|line.states| - 1];
            StopsAtEnd(w, line) <==> CanBrake(w, last, last.pose.heading)
  {
  }

  lemma LineIsReady(w: World, orders: Orders, now: real, reference: Line, n: nat, line: Line, splices: nat)
    requires w.maxTurnRate > 0.0 && reference.Sound(w) && reference.states != [] && reference.indices != []
    requires Lasts(w, orders, Beyond(now, reference), n) && splices <= MAX_DEPTH
    requires Detoured(w, orders, now, Extended(w, orders, now, reference, n), line, splices)
    requires line.Sound(w) && line.states != [] && AllSafe(w, line.states) && StopsAtEnd(w, line)
    ensures ReadyLine(w, orders, now, reference, line)
  {
  }

  /** Every leg of a safe route is clear of land and islands. */
  lemma SafeRouteIsClear(w: World, route: Route)
    requires SafeRoute(w, route) && w.KnowsChart()
    ensures ClearWay(w, route.poses)
  {
    hide World.KnowsChart, AllSafe, ClearWay, Rollout;
    SafeIsClear(w, Rollout(w, route.initial, route.commands));
  }

  lemma ReadyLineIsClear(w: World, orders: Orders, now: real, reference: Line, line: Line)
    requires ReadyLine(w, orders, now, reference, line) && w.KnowsChart()
    ensures ClearWay(w, Poses(line.states))
  {
    hide World.KnowsChart, AllSafe, ClearWay, Detoured, Lasts, Extended, StopsAtEnd, Chain;
    SafeIsClear(w, line.states);
  }

  lemma ObstacleMeans(w: World)
    requires w.KnowsChart()
    ensures w.anyObstacle <==> !OpenWater(w.chart)
  {
  }

  /** What the reference, extended by `n` steps, is repaired into, if the vessel can brake at its end. */
  ghost predicate Becomes(w: World, orders: Orders, now: real, reference: Line, n: nat, line: Line) {
    && w.Usable() && reference.states != [] && reference.indices != []
    && MendsTo(w, orders, now, Extended(w, orders, now, reference, n), RadiusOf(w, reference.states), 0, line)
    && StopsAtEnd(w, line)
  }

  ghost predicate ExtendedTo(w: World, orders: Orders, now: real, reference: Line, n: nat) {
    w.Usable() && reference.states != [] && reference.indices != [] && TrackedTo(w, orders, now, reference, 0, n)
  }

  lemma ExtendedSo(w: World, orders: Orders, now: real, reference: Line, n: nat)
    requires w.Usable() && reference.states != [] && reference.indices != [] && TrackedTo(w, orders, now, reference, 0, n)
    ensures ExtendedTo(w, orders, now, reference, n)
  {
    hide World.Usable, TrackedTo;
  }

  lemma BecomesNothing(w: World, orders: Orders, now: real, reference: Line, n: nat)
    requires w.Usable() && reference.states != [] && reference.indices != []
    requires !Mends(w, orders, now, Extended(w, orders, now, reference, n), RadiusOf(w, reference.states), 0)
    ensures forall line :: !Becomes(w, orders, now, reference, n, line)
  {
    hide RadiusOf, Extended, Mends, MendsTo, StopsAtEnd;
    var longer, radius := Extended(w, orders, now, reference, n), RadiusOf(w, reference.states);
    forall line: Line
      ensures !Becomes(w, orders, now, reference, n, line)
    {
      if MendsTo(w, orders, now, longer, radius, 0, line) {
        MendsToOnce(w, orders, now, longer, radius, 0, line, line);
      }
    }
  }

  lemma BecomesThis(w: World, orders: Orders, now: real, reference: Line, n: nat, line: Line)
    requires w.Usable() && reference.states != [] && reference.indices != []
    requires MendsTo(w, orders, now, Extended(w, orders, now, reference, n), RadiusOf(w, reference.states), 0, line)
    ensures Becomes(w, orders, now, reference, n, line) <==> StopsAtEnd(w, line)
    ensures forall other :: Becomes(w, orders, now, reference, n, other) ==> other == line
  {
    hide RadiusOf, Extended, MendsTo, StopsAtEnd, Mends;
    var longer, radius := Extended(w, orders, now, reference, n), RadiusOf(w, reference.states);
    forall other: Line | Becomes(w, orders, now, reference, n, other)
      ensures other == line
    {
      MendsToOnce(w, orders, now, longer, radius, 0, line, other);
    }
  }

  /** Look for a line to follow: the reference, repaired, if the vessel can brake at its end. */
  method FindLine(w: World, orders: Orders, initial: MotionState, now: real, index: nat)
    returns (found: Option<Line>, why: string, ghost reference: Line, ghost n: nat)
    requires w.Usable() && w.KnowsChart()
    ensures IsReference(w, orders, initial, now, index, reference)
    ensures found.Some? ==> ReadyLine(w, orders, now, reference, found.value) && ClearWay(w, Poses(found.value.states))
    ensures found.Some? ==> found.value.states != [] && found.value.states[0] == initial
    ensures AllSafe(w, reference.states) && OpenWater(w.chart) ==>
              (found.Some? <==> StopsAtEnd(w, reference)) && (found.Some? ==> found.value == reference)
    ensures found.None? ==> why != ""
    ensures ExtendedTo(w, orders, now, reference, n)
    ensures found.Some? ==> Becomes(w, orders, now, reference, n, found.value)
    ensures found.None? ==> forall line :: !Becomes(w, orders, now, reference, n, line)
  {
    hide *;
    UsableTurns(w);
    ObstacleMeans(w);
    var rolled, steps := RollReference(w, orders, Reference(initial, 0.0, w.horizon, now, index));
    reference := rolled;
    ReferenceFound(w, orders, initial, now, index, rolled, steps);
    var track := new Track(rolled);
    var repaired, steps0, splices := Repair(w, orders, now, track, 0);
    n := steps0;
    ExtendedSo(w, orders, now, rolled, n);
    if repaired.None? {
      BecomesNothing(w, orders, now, rolled, n);
      return None, "no dynamically safe route", reference, n;
    }
    var line := repaired.value.line;
    BecomesThis(w, orders, now, rolled, n, line);
    RepairedLine(w, orders, now, rolled, n, track.line, line, splices);
    var last := line.states[|line.states| - 1];
    StopsWhen(w, line);
    var reserve := CanStop(w, last);
    if !reserve {
      return None, "insufficient stopping reserve", reference, n;
    }
    LineIsReady(w, orders, now, rolled, n, line, splices);
    ReadyLineIsClear(w, orders, now, rolled, line);
    return Some(line), "", reference, n;
  }

  lemma ReadyRoute(w: World, orders: Orders, now: real, reference: Line, line: Line, route: Route)
    requires ReadyLine(w, orders, now, reference, line) && route.initial == line.states[0]
    requires route.commands == line.commands && route.poses == Poses(line.states)
    requires route.indices == line.indices || route.indices == []
    ensures SafeRoute(w, route) && line.indices != []
    ensures RolloutEnd(w, route.initial, route.commands) == line.states[|line.states| - 1]
  {
    hide Chain, AllSafe, Timed, Rollout, Detoured, TotalTime, Extended, Lasts, StopsAtEnd, CanBrake;
    LastOf(w, line);
    ChainRoute(w, line.states, line.commands);
  }

  lemma UsableTurns(w: World)
    requires w.Usable()
    ensures w.maxTurnRate > 0.0 && EPSILON > 0.0 && MAX_DEPTH > 0
  {
  }

  class Navigator {
    const ship: Ship
    const view: Chart -> World
    const swing: (Parameters, real, real) -> real
    var land: Mask
    var islands: seq<Island>

    constructor (ship: Ship, view: Chart -> World, swing: (Parameters, real, real) -> real)
      ensures this.ship == ship && this.view == view && this.swing == swing
      ensures land == ship.Land() && islands == []
    {
      this.ship, this.view, this.swing := ship, view, swing;
      land, islands := ship.Land(), [];
    }

    ghost predicate Valid() { SeesCharts(view) }

    /** The chart in force with a mask, and the world as this navigator sees it then. */
    function Charted(mask: Mask): Chart
      reads this, ship`version
    {
      Chart(ship.version, mask, islands)
    }

    function Guarding(mask: Mask): World
      reads this, ship`version
    {
      view(Charted(mask))
    }

    /** A route that only brakes: as long as asked, or until braking on is not safe. */
    method BrakingRoute(initial: MotionState, now: real, mask: Mask, reason: string, atLeast: real) returns (route: Route)
      requires Valid()
      ensures SafeRoute(Guarding(mask), route) && !route.ready && route.indices == []
      ensures ClearWay(Guarding(mask), route.poses)
      ensures route.initial == initial && route.generatedAt == now && reason <= route.reason
      ensures route.navigator == this && route.generation == ship.generation && route.chart == Charted(mask)
      ensures BrakeCommands(initial.pose.heading, route.commands)
      ensures BrakesFor(Guarding(mask), initial, initial.pose.heading, route.commands, atLeast)
    {
      hide Chain, AllSafe, BrakingPace, TotalTime, Timed, SeesCharts, BrakesFor, BrakeCommands, Rollout, World.KnowsChart, ClearWay;
      var w := Guarding(mask);
      Sees(view, Charted(mask));
      var duration := Most(Most(atLeast, w.horizon), initial.speed / w.maxAcceleration);
      var states, commands, blocked := Brake(w, initial, duration);
      ChainRoute(w, states, commands);
      BrakedRoute(w, states, commands, initial.pose.heading, duration, atLeast, blocked);
      PacedBrakes(w, initial.pose.heading, duration, commands);
      var why := if blocked then reason + "; insufficient clearance for continued braking" else reason;
      route := Route(Poses(states), commands, [], initial, now, false, why, Charted(mask), ship.generation, this);
      SafeRouteIsClear(w, route);
    }

    method Install(parameters: Option<Parameters>, now: real)
      modifies ship`generation, ship`parameters, ship`installedAt
      ensures ship.generation == old(ship.generation) + 1 && ship.parameters == parameters && ship.installedAt == now
    {
      ship.generation := ship.generation + 1;
      ship.parameters := parameters;
      ship.installedAt := now;
    }

    /** What the parameters ask for: the normal route, or a weaving heading at a set speed. */
    function OrdersFor(parameters: Option<Parameters>, tangent: real, installedAt: real): Orders {
      match parameters
      case None => Normal
      case Some(p) => Commanded(time => swing(p, tangent, time - installedAt), p.speed)
    }

    /** Plan from the vessel's state. The route that comes back is always safe to follow: a
        ready one ends where the vessel can still brake, any other one only brakes. */
    method Plan(pose: Pose, parameters: Option<Parameters>, tangent: real, now: real, mask: Mask)
      returns (route: Route, ghost reference: Line, ghost line: Option<Line>, ghost n: nat)
      requires Valid()
      modifies this`land, ship`generation, ship`parameters, ship`installedAt
      ensures ship.generation > old(ship.generation) && ship.parameters == parameters
      ensures land == if ship.land.Some? then ship.land.value else mask
      ensures route.initial == MotionState(pose, ship.state.speed, ship.state.yawRate) && route.generatedAt == now
      ensures route.navigator == this && route.generation == ship.generation && route.chart == Charted(land)
      ensures SafeRoute(Guarding(land), route) && route.ready == line.Some?
      ensures Guarding(land).chart == Charted(land) && Guarding(land).KnowsChart() && ClearWay(Guarding(land), route.poses)
      ensures IsReference(Guarding(land), OrdersFor(parameters, tangent, ship.installedAt), route.initial, now, ship.routeIndex, reference)
      ensures line.Some? ==> ReadyLine(Guarding(land), OrdersFor(parameters, tangent, ship.installedAt), now, reference, line.value)
      ensures ExtendedTo(Guarding(land), OrdersFor(parameters, tangent, ship.installedAt), now, reference, n)
      ensures line.Some? ==> Becomes(Guarding(land), OrdersFor(parameters, tangent, ship.installedAt), now, reference, n, line.value)
      ensures line.None? ==> forall other ::
                !Becomes(Guarding(land), OrdersFor(parameters, tangent, ship.installedAt), now, reference, n, other)
      ensures line.Some? ==> route.commands == line.value.commands && route.poses == Poses(line.value.states)
      ensures line.Some? ==> route.indices == if parameters.None? then line.value.indices else []
      ensures line.None? ==> BrakeCommands(pose.heading, route.commands) && route.indices == []
      ensures AllSafe(Guarding(land), reference.states) && OpenWater(Charted(land)) ==>
                (line.Some? <==> StopsAtEnd(Guarding(land), reference)) && (line.Some? ==> line.value == reference)
    {
      hide SafeRoute, IsReference, ReadyLine, StopsAtEnd, AllSafe, Line.Sound, BrakeCommands, BrakesFor, SeesCharts, World.Usable,
           World.KnowsChart, ClearWay, OpenWater, Becomes, ExtendedTo;
      land := if ship.land.Some? then ship.land.value else mask;
      if parameters != ship.parameters {
        Install(parameters, now);
      }
      ship.generation := ship.generation + 1;
      var w := Guarding(land);
      Sees(view, Charted(land));
      var initial := MotionState(pose, ship.state.speed, ship.state.yawRate);
      var found, why;
      found, why, reference, n := FindLine(w, OrdersFor(parameters, tangent, ship.installedAt), initial, now, ship.routeIndex);
      line := found;
      if found.None? {
        route := BrakingRoute(initial, now, land, why, 0.0);
      } else {
        var states, commands := found.value.states, found.value.commands;
        route := Route(Poses(states), commands, if parameters.None? then found.value.indices else [], initial, now, true, "",
                       Charted(land), ship.generation, this);
        ReadyRoute(w, OrdersFor(parameters, tangent, ship.installedAt), now, reference, found.value, route);
      }
    }
  }

  // ------------------------------------------------------------------- whole commands

  /** The clock time is a number of whole commands. */
  ghost predicate WholeCommands(commands: seq<Command>, time: real) {
    exists k: nat :: k <= |commands| && TotalTime(commands[..k]) == time
  }

  lemma {:induction false} TimeGrows(commands: seq<Command>, i: nat, k: nat)
    requires Timed(commands) && i <= k <= |commands|
    ensures TotalTime(commands[..i]) <= TotalTime(commands[..k])
    ensures i < k ==> TotalTime(commands[..i]) + commands[i].duration <= TotalTime(commands[..k])
    decreases k - i
  {
    if i < k {
      var j := k - 1;
      TimeGrows(commands, i, j);
      assert commands[..k] == commands[..j] + [commands[j]];
      TotalTimeStep(commands[..j], commands[j]);
    }
  }

  /** While time is left of a whole number of commands, the next of them fits whole. */
  lemma NextFits(commands: seq<Command>, next: nat, time: real)
    requires Timed(commands) && WholeCommands(commands, time) && next <= |commands|
    requires time - TotalTime(commands[..next]) > EPSILON
    ensures next < |commands| && TotalTime(commands[..next]) + commands[next].duration <= time
  {
    var k: nat :| k <= |commands| && TotalTime(commands[..k]) == time;
    if k <= next {
      TimeGrows(commands, k, next);
    } else {
      TimeGrows(commands, next, k);
    }
  }

  /** Commands that fill a whole time up to the clock's resolution fill it exactly. */
  lemma WholeOrShort(commands: seq<Command>, next: nat, time: real)
    requires Timed(commands) && WholeCommands(commands, time) && next <= |commands|
    requires time - EPSILON <= TotalTime(commands[..next]) <= time + EPSILON
    ensures TotalTime(commands[..next]) == time
  {
    var k: nat :| k <= |commands| && TotalTime(commands[..k]) == time;
    if k < next {
      TimeGrows(commands, k, next);
    } else {
      TimeGrows(commands, next, k);
    }
  }

  /** A route followed so far stays safe for one more command. */
  lemma PlannedStep(w: World, route: Route, next: nat)
    requires SafeRoute(w, route) && next < |route.commands|
    ensures w.maxTurnRate > 0.0
    ensures var here := RolloutEnd(w, route.initial, route.commands[..next]);
            var there := RolloutEnd(w, route.initial, route.commands[..next + 1]);
            there == Obey(w, here, route.commands[next]) && w.safe(here.pose, there.pose)
  {
    hide Obey;
    var states, n := Rollout(w, route.initial, route.commands), next + 1;
    RolloutPrefix(w, route.initial, route.commands, next);
    RolloutPrefix(w, route.initial, route.commands, n);
    RolloutIsChain(w, route.initial, route.commands);
    assert SegmentSafe(w, states, next);
    assert states[next + 1] == Obey(w, states[next], route.commands[next]);
  }

  /** The cursor after `count` whole commands of a route. */
  function CursorAfter(index: nat, indices: seq<nat>, count: nat): nat
    requires indices == [] || count < |indices|
  {
    if indices == [] || count == 0 then index else indices[count]
  }

  // ------------------------------------------------------------------------ execution

  /** How the vessel got from one state to another: a chain of safe segments. */
  ghost predicate Moved(w: World, from: MotionState, to: MotionState, states: seq<MotionState>, executed: seq<Command>) {
    && Chain(w, states, executed) && AllSafe(w, states) && states != []
    && states[0] == from && states[|states| - 1] == to
  }

  /** Only the last state may be off the chart, and it is exactly when the vessel has departed. */
  ghost predicate ExitsLast(w: World, states: seq<MotionState>, departed: bool) {
    forall i: nat :: 0 < i < |states| ==> (w.exited(states[i].pose) <==> i == |states| - 1 && departed)
  }

  /** The record of an execution: how the vessel moved, the poses it passed, and when it left. */
  ghost predicate Trip(w: World, from: MotionState, to: MotionState, states: seq<MotionState>, executed: seq<Command>,
                       actual: seq<Pose>, departed: bool)
  {
    Moved(w, from, to, states, executed) && ExitsLast(w, states, departed) && actual == Poses(states)
  }

  /** The vessel stays on the chart until it departs, and then it is off the chart beyond its gate. */
  ghost predicate StaysOrLeaves(w: World, poses: seq<Pose>, departed: bool) {
    && (forall i: nat :: 0 < i < |poses| && (i < |poses| - 1 || !departed) ==> InChart(At(poses[i]), w.chart.land.cols, w.chart.land.rows))
    && (departed && |poses| > 1 ==> Exited(w.Way(), At(poses[|poses| - 1])))
  }

  /** A trip keeps clear of land and islands, and goes over the border of the chart through the gate only. */
  lemma TripIsClear(w: World, from: MotionState, to: MotionState, states: seq<MotionState>, executed: seq<Command>,
                    actual: seq<Pose>, departed: bool)
    requires Trip(w, from, to, states, executed, actual, departed) && w.KnowsChart()
    ensures ClearWay(w, actual) && StaysOrLeaves(w, actual, departed)
  {
    SafeIsClear(w, states);
    TripStays(w, states, departed);
  }

  lemma TripStays(w: World, states: seq<MotionState>, departed: bool)
    requires ClearWay(w, Poses(states)) && ExitsLast(w, states, departed) && w.KnowsChart()
    ensures StaysOrLeaves(w, Poses(states), departed)
  {
    hide Meets, GateOf;
    var poses := Poses(states);
    forall i: nat | 0 < i < |poses|
      ensures Exited(w.Way(), At(poses[i])) <==> i == |poses| - 1 && departed
      ensures InChart(At(poses[i]), w.chart.land.cols, w.chart.land.rows) || Exited(w.Way(), At(poses[i]))
    {
      var k := i - 1;
      assert LegPasses(w, poses, k);
      assert w.exited(states[i].pose) <==> Exited(w.Way(), At(poses[i]));
    }
  }

  /** Braking so far has followed its commands. */
  ghost predicate BrakedSo(w: World, start: MotionState, heading: real, left: real, commands: seq<Command>, next: nat, state: MotionState,
                           remaining: real)
  {
    && w.maxTurnRate > 0.0 && next <= |commands| && BrakesFor(w, start, heading, commands, left)
    && state == RolloutEnd(w, start, commands[..next]) && remaining == left - TotalTime(commands[..next])
  }

  /** A safe route that starts here and the time for a whole number of its commands. */
  ghost predicate Followable(w: World, route: Route, from: MotionState, time: real) {
    SafeRoute(w, route) && route.initial == from && WholeCommands(route.commands, time)
  }

  /** A followable route has been followed so far. */
  ghost predicate FollowedSo(route: Route, commands: seq<Command>, indices: seq<nat>, next: nat, braking: bool,
                             executed: seq<Command>, index0: nat, index: nat)
  {
    && !braking && commands == route.commands && indices == route.indices && next <= |commands|
    && executed == commands[..next] && CursorsFit(route) && index == CursorAfter(index0, indices, next)
  }

  lemma MoveStart(w: World, state: MotionState)
    requires w.maxTurnRate > 0.0
    ensures Trip(w, state, state, [state], [], [state.pose], false) && TotalTime([]) == 0.0
  {
  }

  lemma MoveOn(w: World, from: MotionState, state: MotionState, states: seq<MotionState>, executed: seq<Command>,
               actual: seq<Pose>, command: Command)
    requires w.maxTurnRate > 0.0 && Trip(w, from, state, states, executed, actual, false)
    requires w.safe(state.pose, Obey(w, state, command).pose)
    ensures var next := Obey(w, state, command);
            Trip(w, from, next, states + [next], executed + [command], actual + [next.pose], w.exited(next.pose))
    ensures TotalTime(executed + [command]) == TotalTime(executed) + command.duration
  {
    hide Obey, TotalTime;
    var next := Obey(w, state, command);
    ChainAppend(w, states, executed, command);
    SafeAppend(w, states, next);
    TotalTimeStep(executed, command);
  }

  lemma RolloutStep(w: World, initial: MotionState, commands: seq<Command>, next: nat)
    requires w.maxTurnRate > 0.0 && next < |commands|
    ensures RolloutEnd(w, initial, commands[..next + 1]) == Obey(w, RolloutEnd(w, initial, commands[..next]), commands[next])
    ensures TotalTime(commands[..next + 1]) == TotalTime(commands[..next]) + commands[next].duration
  {
    hide Obey, TotalTime;
    assert commands[..next + 1] == commands[..next] + [commands[next]];
    TotalTimeStep(commands[..next], commands[next]);
    var more := commands[..next + 1];
    assert more[..|more| - 1] == commands[..next];
  }

  /** The commands only brake: with the heading given until that is not safe any more, and from there on with
      the heading the vessel has then. */
  ghost predicate OnlyBrakes(w: World, heading: real, states: seq<MotionState>, executed: seq<Command>) {
    exists cut: nat :: BrakesTwice(w, heading, states, executed, cut)
  }

  ghost predicate BrakesTwice(w: World, heading: real, states: seq<MotionState>, executed: seq<Command>, cut: nat) {
    && cut <= |executed| && cut < |states|
    && BrakeCommands(heading, executed[..cut]) && BrakeCommands(states[cut].pose.heading, executed[cut..])
    && (cut < |executed| ==> CannotBrakeOn(w, states[cut], heading))
  }

  /** The heading is held for the whole time exactly if braking with it was never given up, or given up for the same
      heading; and it is not given up where braking with it can go on. */
  lemma HeadingHeld(w: World, heading: real, states: seq<MotionState>, executed: seq<Command>, cut: nat)
    requires BrakesTwice(w, heading, states, executed, cut)
    ensures BrakeCommands(heading, executed) <==> cut == |executed| || states[cut].pose.heading == heading
    ensures (forall i: nat :: i < |states| ==> !CannotBrakeOn(w, states[i], heading)) ==> BrakeCommands(heading, executed)
  {
    hide CannotBrakeOn;
    assert executed == executed[..cut] + executed[cut..];
    if cut < |executed| {
      assert executed[cut..][0] == executed[cut] && executed[cut] in executed && executed[cut] in executed[cut..];
    }
  }

  /** A route of braking commands, long enough for the time unless braking on is not safe. */
  ghost predicate BrakingOnly(w: World, heading: real, route: Route, from: MotionState, time: real) {
    BrakeCommands(heading, route.commands) && Timed(route.commands) && route.indices == [] && BrakesFor(w, from, heading, route.commands, time)
  }

  /** Braking up to here, before (`cut` is not set) or after the heading was given up. */
  ghost predicate BrakedUpTo(w: World, heading0: real, states: seq<MotionState>, executed: seq<Command>, cut: Option<nat>, heading: real) {
    match cut
    case None => heading == heading0 && BrakeCommands(heading0, executed)
    case Some(k) =>
      && k <= |executed| && k < |states| && heading == states[k].pose.heading && CannotBrakeOn(w, states[k], heading0)
      && BrakeCommands(heading0, executed[..k]) && BrakeCommands(heading, executed[k..])
  }

  lemma BrakedUpToStart(w: World, heading: real, state: MotionState)
    ensures BrakedUpTo(w, heading, [state], [], None, heading)
  {
  }

  lemma BrakedUpToNext(w: World, heading0: real, states: seq<MotionState>, executed: seq<Command>, cut: Option<nat>, heading: real,
                       commands: seq<Command>, next: nat, dt: real, candidate: MotionState)
    requires BrakedUpTo(w, heading0, states, executed, cut, heading)
    requires BrakeCommands(heading, commands) && next < |commands|
    ensures BrakedUpTo(w, heading0, states + [candidate], executed + [Command(dt, commands[next].heading, commands[next].speed)], cut, heading)
  {
    hide CannotBrakeOn;
    assert commands[next] in commands;
    if cut.Some? {
      var k, more := cut.value, executed + [Command(dt, commands[next].heading, commands[next].speed)];
      assert more[..k] == executed[..k] && more[k..] == executed[k..] + [more[|executed|]];
    }
  }

  lemma GivenUpHere(w: World, heading0: real, states: seq<MotionState>, executed: seq<Command>, heading: real)
    requires BrakedUpTo(w, heading0, states, executed, None, heading) && |states| == |executed| + 1
    requires CannotBrakeOn(w, states[|executed|], heading)
    ensures BrakedUpTo(w, heading0, states, executed, Some(|executed|), states[|executed|].pose.heading)
  {
    hide CannotBrakeOn;
    assert executed[..|executed|] == executed && executed[|executed|..] == [];
  }

  lemma OnlyBraked(w: World, heading0: real, states: seq<MotionState>, executed: seq<Command>, cut: Option<nat>, heading: real)
    requires BrakedUpTo(w, heading0, states, executed, cut, heading) && |states| == |executed| + 1
    ensures OnlyBrakes(w, heading0, states, executed)
  {
    hide CannotBrakeOn;
    var k := if cut.Some? then cut.value else |executed|;
    assert executed[..|executed|] == executed && executed[|executed|..] == [];
    assert BrakesTwice(w, heading0, states, executed, k);
  }

  /** A route that can be followed is being followed, and its status stands. */
  ghost predicate Faithful(w: World, route: Route, from: MotionState, time: real, commands: seq<Command>, indices: seq<nat>, next: nat,
                           braking: bool, executed: seq<Command>, index0: nat, index: nat, stands: bool)
  {
    Followable(w, route, from, time) ==> FollowedSo(route, commands, indices, next, braking, executed, index0, index) && stands
  }

  lemma FaithfulStart(w: World, route: Route, from: MotionState, time: real, index: nat)
    requires CursorsFit(route)
    ensures Faithful(w, route, from, time, route.commands, route.indices, 0, false, [], index, index, true)
  {
    hide Followable;
    FollowStart(route, index);
  }

  lemma NotFaithful(w: World, route: Route, from: MotionState, time: real, commands: seq<Command>, indices: seq<nat>, next: nat,
                    braking: bool, executed: seq<Command>, index0: nat, index: nat, stands: bool)
    requires !Followable(w, route, from, time)
    ensures Faithful(w, route, from, time, commands, indices, next, braking, executed, index0, index, stands)
  {
    hide Followable, FollowedSo;
  }

  lemma FaithfulEnd(w: World, route: Route, from: MotionState, time: real, commands: seq<Command>, indices: seq<nat>, next: nat,
                    braking: bool, executed: seq<Command>, index0: nat, index: nat, stands: bool)
    requires Faithful(w, route, from, time, commands, indices, next, braking, executed, index0, index, stands)
    ensures Followable(w, route, from, time) ==>
              FollowedSo(route, route.commands, route.indices, |executed|, false, executed, index0, index) && stands && !braking
  {
    hide Followable;
    if Followable(w, route, from, time) {
      FollowEnd(route, commands, indices, next, braking, executed, index0, index);
    }
  }

  /** A route that can be followed goes on: there is a next command, it fits whole, and it is safe. */
  lemma FollowNow(w: World, route: Route, time: real, commands: seq<Command>, indices: seq<nat>, next: nat,
                  braking: bool, executed: seq<Command>, from: MotionState, state: MotionState, states: seq<MotionState>,
                  actual: seq<Pose>, index0: nat, index: nat, stands: bool)
    requires Faithful(w, route, from, time, commands, indices, next, braking, executed, index0, index, stands)
    requires Trip(w, from, state, states, executed, actual, false) && time - TotalTime(executed) > EPSILON && next <= |commands|
    requires w.maxTurnRate > 0.0
    ensures next == |commands| ==> !Followable(w, route, from, time)
    ensures next < |commands| ==>
              var dt := if time - TotalTime(executed) >= commands[next].duration - EPSILON then commands[next].duration else time - TotalTime(executed);
              var done := Command(dt, commands[next].heading, commands[next].speed);
              && (!w.safe(state.pose, Obey(w, state, done).pose) ==> !Followable(w, route, from, time))
              && (indices == [] || next + 1 < |indices| ==>
                    Faithful(w, route, from, time, commands, indices, next + 1, braking, executed + [done], index0,
                             if indices != [] && dt == commands[next].duration then indices[next + 1] else index, stands))
  {
    hide Followable, Obey, TotalTime, FollowedSo, Trip;
    if Followable(w, route, from, time) {
      FollowOn(w, route, time, commands, indices, next, braking, executed, from, state, states, actual, index0, index);
    }
  }

  /** What the braking under way started from, how long it was to last, and where the first heading was given up. */
  datatype Braking = Braking(start: MotionState, left: real, heading: real, cut: Option<nat>)

  function Switched(b: Braking, straight: bool, state: MotionState, remaining: real, count: nat): Braking {
    Braking(state, remaining, state.pose.heading, if straight then Some(count) else b.cut)
  }

  /** The braking commands left fit the time left; a route that only brakes has been followed so far. */
  ghost predicate BrakeState(w: World, straight: bool, heading0: real, braking: bool, b: Braking, commands: seq<Command>, next: nat,
                             state: MotionState, remaining: real, states: seq<MotionState>, executed: seq<Command>)
  {
    && (braking || straight ==>
          BrakeCommands(b.heading, commands) && Timed(commands)
          && (remaining > EPSILON ==> BrakedSo(w, b.start, b.heading, b.left, commands, next, state, remaining)))
    && (straight ==> (b.cut.Some? <==> braking) && BrakedUpTo(w, heading0, states, executed, b.cut, b.heading))
  }

  lemma BrakeStateStart(w: World, straight: bool, heading0: real, route: Route, state: MotionState, time: real)
    requires w.maxTurnRate > 0.0 && straight == BrakingOnly(w, heading0, route, state, time)
    ensures BrakeState(w, straight, heading0, false, Braking(state, time, heading0, None), route.commands, 0, state, time, [state], [])
    ensures straight ==> route.indices == []
  {
    hide BrakeCommands, BrakesFor, BrakedSo, BrakedUpTo, Timed;
    BrakedUpToStart(w, heading0, state);
    if straight {
      BrakeBegun(w, state, heading0, time, route.commands);
    }
  }

  /** Braking that is used up before its time cannot go on safely. */
  lemma BrakeStateOver(w: World, straight: bool, heading0: real, braking: bool, b: Braking, commands: seq<Command>,
                       state: MotionState, remaining: real, states: seq<MotionState>, executed: seq<Command>)
    requires BrakeState(w, straight, heading0, braking, b, commands, |commands|, state, remaining, states, executed) && remaining > EPSILON
    ensures braking || straight ==> CannotBrakeOn(w, state, b.heading)
  {
    hide BrakeCommands, BrakedSo, BrakedUpTo, Timed, CannotBrakeOn;
    if braking || straight {
      BrakesExhausted(w, b.start, b.heading, b.left, commands, state, remaining);
    }
  }

  lemma BrakeStateBlocked(w: World, straight: bool, heading0: real, braking: bool, b: Braking, commands: seq<Command>, next: nat, dt: real,
                          state: MotionState, remaining: real, states: seq<MotionState>, executed: seq<Command>)
    requires BrakeState(w, straight, heading0, braking, b, commands, next, state, remaining, states, executed)
    requires w.maxTurnRate > 0.0 && next < |commands| && (dt == commands[next].duration || EPSILON < dt <= commands[next].duration)
    requires remaining > EPSILON && !w.safe(state.pose, Obey(w, state, Command(dt, commands[next].heading, commands[next].speed)).pose)
    ensures braking || straight ==> CannotBrakeOn(w, state, b.heading)
  {
    hide BrakeCommands, BrakedSo, BrakedUpTo, Timed, CannotBrakeOn, Obey;
    if braking || straight {
      NoLongerThanAStep(w, b.start, b.heading, b.left, commands, next, state, remaining);
      UnsafeBraking(w, state, b.heading, commands, next, dt);
    }
  }

  lemma BrakeStateSwitch(w: World, straight: bool, heading0: real, b: Braking, gone: seq<Command>, next: nat, commands: seq<Command>,
                         state: MotionState, remaining: real, states: seq<MotionState>, executed: seq<Command>)
    requires BrakeState(w, straight, heading0, false, b, gone, next, state, remaining, states, executed)
    requires |states| == |executed| + 1 && states[|executed|] == state && (straight ==> CannotBrakeOn(w, state, b.heading))
    requires BrakeCommands(state.pose.heading, commands) && Timed(commands)
    requires BrakedSo(w, state, state.pose.heading, remaining, commands, 0, state, remaining)
    ensures BrakeState(w, straight, heading0, true, Switched(b, straight, state, remaining, |executed|), commands, 0, state, remaining,
                       states, executed)
  {
    hide BrakeCommands, BrakedSo, BrakedUpTo, Timed, CannotBrakeOn;
    if straight {
      GivenUpHere(w, heading0, states, executed, b.heading);
    }
  }

  lemma BrakeStateNext(w: World, straight: bool, heading0: real, braking: bool, b: Braking, commands: seq<Command>, next: nat, dt: real,
                       state: MotionState, remaining: real, states: seq<MotionState>, executed: seq<Command>)
    requires BrakeState(w, straight, heading0, braking, b, commands, next, state, remaining, states, executed)
    requires w.maxTurnRate > 0.0 && next < |commands| && remaining > EPSILON && (dt == commands[next].duration || dt == remaining)
    ensures var done := Command(dt, commands[next].heading, commands[next].speed);
            var candidate := Obey(w, state, done);
            BrakeState(w, straight, heading0, braking, b, commands, next + 1, candidate, remaining - dt, states + [candidate], executed + [done])
  {
    hide BrakeCommands, BrakedSo, BrakedUpTo, Timed, Obey;
    var candidate := Obey(w, state, Command(dt, commands[next].heading, commands[next].speed));
    if (braking || straight) && dt == commands[next].duration {
      BrakedOn(w, b.start, b.heading, b.left, commands, next, state, remaining);
    }
    if straight {
      BrakedUpToNext(w, heading0, states, executed, b.cut, b.heading, commands, next, dt, candidate);
    }
  }

  lemma BrakeStateEnd(w: World, straight: bool, heading0: real, braking: bool, b: Braking, commands: seq<Command>, next: nat,
                      state: MotionState, remaining: real, states: seq<MotionState>, executed: seq<Command>)
    requires BrakeState(w, straight, heading0, braking, b, commands, next, state, remaining, states, executed)
    requires |states| == |executed| + 1
    ensures straight ==> OnlyBrakes(w, heading0, states, executed)
  {
    hide BrakeCommands, BrakedSo, BrakedUpTo, Timed, OnlyBrakes;
    if straight {
      OnlyBraked(w, heading0, states, executed, b.cut, b.heading);
    }
  }

  lemma TripSizes(w: World, from: MotionState, to: MotionState, states: seq<MotionState>, executed: seq<Command>,
                  actual: seq<Pose>, departed: bool)
    requires Trip(w, from, to, states, executed, actual, departed)
    ensures |states| == |executed| + 1 && states[|executed|] == to
  {
  }

  lemma BrakeBegun(w: World, start: MotionState, heading: real, left: real, commands: seq<Command>)
    requires w.maxTurnRate > 0.0 && BrakesFor(w, start, heading, commands, left)
    ensures BrakedSo(w, start, heading, left, commands, 0, start, left)
  {
    assert commands[..0] == [];
  }

  lemma BrakedOn(w: World, start: MotionState, heading: real, left: real, commands: seq<Command>, next: nat, state: MotionState,
                 remaining: real)
    requires BrakedSo(w, start, heading, left, commands, next, state, remaining) && next < |commands| && w.maxTurnRate > 0.0
    ensures BrakedSo(w, start, heading, left, commands, next + 1, Obey(w, state, commands[next]), remaining - commands[next].duration)
  {
    hide Obey, TotalTime, RolloutEnd, BrakesFor;
    RolloutStep(w, start, commands, next);
  }

  lemma NoLongerThanAStep(w: World, start: MotionState, heading: real, left: real, commands: seq<Command>, next: nat, state: MotionState,
                          remaining: real)
    requires BrakedSo(w, start, heading, left, commands, next, state, remaining) && next < |commands|
    ensures commands[next].duration <= w.step
  {
    hide RolloutEnd, TotalTime, CannotBrakeOn;
    assert commands[next] in commands;
  }

  lemma BrakesExhausted(w: World, start: MotionState, heading: real, left: real, commands: seq<Command>, state: MotionState, remaining: real)
    requires BrakedSo(w, start, heading, left, commands, |commands|, state, remaining) && remaining > EPSILON
    ensures CannotBrakeOn(w, state, heading)
  {
    hide TotalTime, RolloutEnd, CannotBrakeOn;
    assert commands[..|commands|] == commands;
  }

  lemma FollowOn(w: World, route: Route, time: real, commands: seq<Command>, indices: seq<nat>, next: nat,
                 braking: bool, executed: seq<Command>, from: MotionState, state: MotionState, states: seq<MotionState>,
                 actual: seq<Pose>, index0: nat, index: nat)
    requires Followable(w, route, from, time) && FollowedSo(route, commands, indices, next, braking, executed, index0, index)
    requires Trip(w, from, state, states, executed, actual, false) && time - TotalTime(executed) > EPSILON
    ensures next < |commands| && commands[next].duration <= time - TotalTime(executed) && w.maxTurnRate > 0.0
    ensures w.safe(state.pose, Obey(w, state, commands[next]).pose)
    ensures indices != [] ==> next + 1 < |indices|
    ensures FollowedSo(route, commands, indices, next + 1, braking, executed + [commands[next]], index0,
                       if indices == [] then index else indices[next + 1])
  {
    hide Obey, TotalTime, AllSafe, RolloutEnd, Timed, WholeCommands;
    NextFits(commands, next, time);
    PlannedStep(w, route, next);
    ChainRoute(w, states, executed);
    var more := next + 1;
    assert commands[..more] == commands[..next] + [commands[next]];
  }

  lemma GuardSees(guard: Navigator, mask: Mask)
    requires guard.Valid()
    ensures guard.Guarding(mask).Usable() && guard.Guarding(mask).KnowsChart() && guard.Guarding(mask).chart == guard.Charted(mask)
  {
    Sees(guard.view, guard.Charted(mask));
  }

  lemma OutOfDateIs(ship: Ship, route: Route)
    ensures ship.OutOfDate(route) == (|| route.initial != ship.state || route.generation != ship.generation
                                      || route.generatedAt < ship.motionTime - CLOCK_SLACK
                                      || route.navigator == null || route.navigator.ship != ship
                                      || route.chart != ship.ChartFor(route)
                                      || route.chart.land != route.navigator.land || route.chart.islands != route.navigator.islands)
  {
  }

  /** The test for a stale route finds exactly the routes that are out of date. */
  lemma ForceIs(ship: Ship, route: Route, guard: Navigator, mask: Mask, outdated: bool)
    requires outdated == (|| route.initial != ship.state || route.generation != ship.generation
                          || route.generatedAt < ship.motionTime - CLOCK_SLACK
                          || route.navigator == null || route.navigator.ship != ship
                          || route.chart != guard.Charted(mask)
                          || route.chart.land != route.navigator.land || route.chart.islands != route.navigator.islands)
    requires guard.ship == ship
    ensures ship.IsStale(route, guard, mask) <==> outdated
  {
  }

  lemma BrakesOnly(w: World, heading: real, route: Route, from: MotionState, time: real)
    requires BrakeCommands(heading, route.commands) && Timed(route.commands) && route.indices == [] && BrakesFor(w, from, heading, route.commands, time)
    ensures BrakingOnly(w, heading, route, from, time)
  {
  }

  lemma SightSees(ship: Ship, route: Route)
    requires ship.Valid() && (route.navigator != null ==> route.navigator.Valid())
    ensures ship.SightFor(route).chart == ship.ChartFor(route) && ship.SightFor(route).KnowsChart()
  {
    hide SeesCharts, World.KnowsChart;
    var chart := ship.ChartFor(route);
    Sees(ship.view, chart);
    if ship.navigator != null {
      Sees(ship.navigator.view, chart);
    } else if route.navigator != null {
      Sees(route.navigator.view, chart);
    }
  }

  lemma FollowableNow(w: World, route: Route, from: MotionState, time: real)
    requires SafeRoute(w, route) && route.initial == from && WholeCommands(route.commands, time)
    ensures Followable(w, route, from, time)
  {
  }

  /** A fresh route is not stale for the navigator that guards it. */
  lemma FreshIsCurrent(ship: Ship, route: Route, guard: Navigator, mask: Mask)
    requires ship.IsFresh(route) && guard == route.navigator
    requires mask == if ship.land.Some? then ship.land.value else guard.land
    ensures !ship.IsStale(route, guard, mask) && route.initial == ship.state
    ensures guard.Guarding(mask) == guard.Guarding(guard.land)
  {
  }

  lemma BrakingFits(w: World, route: Route)
    requires SafeRoute(w, route)
    ensures CursorsFit(route)
  {
  }

  /** The poses passed are the first planned ones, up to the time asked for or off the chart. */
  ghost predicate Reproduces(w: World, route: Route, time: real, actual: seq<Pose>, count: nat, departed: bool) {
    && count <= |route.commands| && count < |route.poses| && actual == route.poses[..count + 1] && CursorsFit(route)
    && (departed || TotalTime(route.commands[..count]) == time)
  }

  lemma Followed(w: World, route: Route, time: real, actual: seq<Pose>, states: seq<MotionState>, executed: seq<Command>,
                 from: MotionState, to: MotionState, departed: bool, index0: nat, index: nat)
    requires Followable(w, route, from, time) && Trip(w, from, to, states, executed, actual, departed)
    requires FollowedSo(route, route.commands, route.indices, |executed|, false, executed, index0, index)
    requires departed || TotalTime(executed) >= time - EPSILON
    requires TotalTime(executed) <= time + EPSILON
    ensures Reproduces(w, route, time, actual, |executed|, departed) && executed == route.commands[..|executed|]
    ensures index == CursorAfter(index0, route.indices, |executed|)
  {
    hide TotalTime, AllSafe, WholeCommands, Timed;
    var count := |executed|;
    ChainRoute(w, states, executed);
    RolloutPrefix(w, route.initial, route.commands, count);
    if !departed {
      WholeOrShort(route.commands, count, time);
    }
  }

  lemma BrakesAreTimed(w: World, route: Route)
    requires SafeRoute(w, route)
    ensures Timed(route.commands)
  {
  }

  lemma UnsafeBraking(w: World, state: MotionState, heading: real, commands: seq<Command>, next: nat, dt: real)
    requires w.maxTurnRate > 0.0 && BrakeCommands(heading, commands) && next < |commands|
    requires Timed(commands) && (dt == commands[next].duration || EPSILON < dt <= commands[next].duration) && commands[next].duration <= w.step
    requires !w.safe(state.pose, Obey(w, state, Command(dt, commands[next].heading, commands[next].speed)).pose)
    ensures CannotBrakeOn(w, state, heading)
  {
    hide Roll;
    assert commands[next] in commands;
    assert BrakingBlocked(w, state, heading, dt);
  }

  lemma FollowEnd(route: Route, commands: seq<Command>, indices: seq<nat>, next: nat, braking: bool,
                  executed: seq<Command>, index0: nat, index: nat)
    requires FollowedSo(route, commands, indices, next, braking, executed, index0, index)
    ensures FollowedSo(route, route.commands, route.indices, |executed|, false, executed, index0, index)
  {
  }

  lemma FollowStart(route: Route, index: nat)
    requires CursorsFit(route)
    ensures FollowedSo(route, route.commands, route.indices, 0, false, [], index, index)
    ensures route.indices == [] || |route.indices| == |route.commands| + 1
  {
  }

  /** What an execution was asked to do, and from where. */
  datatype Errand = Errand(w: World, route: Route, from: MotionState, time: real, straight: bool, heading0: real, index0: nat)

  /** How an execution stands: the trip so far, the commands being obeyed, and what has become of the route. */
  ghost predicate Underway(o: Errand, braking: bool, b: Braking, commands: seq<Command>, indices: seq<nat>, next: nat, state: MotionState,
                           states: seq<MotionState>, executed: seq<Command>, actual: seq<Pose>, departed: bool, index: nat, stands: bool)
  {
    && o.w.maxTurnRate > 0.0 && next <= |commands| && (indices == [] || |indices| == |commands| + 1)
    && Trip(o.w, o.from, state, states, executed, actual, departed)
    && BrakeState(o.w, o.straight, o.heading0, braking, b, commands, next, state, o.time - TotalTime(executed), states, executed)
    && Faithful(o.w, o.route, o.from, o.time, commands, indices, next, braking, executed, o.index0, index, stands)
    && (braking || o.straight ==> indices == []) && (o.straight ==> index == o.index0)
    && (forall i :: i in indices ==> i in o.route.indices) && (index == o.index0 || index in o.route.indices)
  }

  lemma UnderwayStart(o: Errand)
    requires o.w.maxTurnRate > 0.0 && CursorsFit(o.route) && o.straight == BrakingOnly(o.w, o.heading0, o.route, o.from, o.time)
    ensures TotalTime([]) == 0.0
    ensures Underway(o, false, Braking(o.from, o.time, o.heading0, None), o.route.commands, o.route.indices, 0, o.from,
                     [o.from], [], [o.from.pose], false, o.index0, true)
  {
    hide Trip, BrakeState, Faithful, BrakingOnly;
    MoveStart(o.w, o.from);
    FollowStart(o.route, o.index0);
    FaithfulStart(o.w, o.route, o.from, o.time, o.index0);
    BrakeStateStart(o.w, o.straight, o.heading0, o.route, o.from, o.time);
  }

  /** There is no next command. */
  lemma UnderwayOver(o: Errand, braking: bool, b: Braking, commands: seq<Command>, indices: seq<nat>, state: MotionState,
                     states: seq<MotionState>, executed: seq<Command>, actual: seq<Pose>, index: nat, stands: bool)
    requires Underway(o, braking, b, commands, indices, |commands|, state, states, executed, actual, false, index, stands)
    requires o.time - TotalTime(executed) > EPSILON
    ensures !Followable(o.w, o.route, o.from, o.time) && (braking || o.straight ==> CannotBrakeOn(o.w, state, b.heading))
  {
    hide Trip, BrakeState, Faithful, TotalTime, Followable, CannotBrakeOn;
    FollowNow(o.w, o.route, o.time, commands, indices, |commands|, braking, executed, o.from, state, states, actual, o.index0, index, stands);
    BrakeStateOver(o.w, o.straight, o.heading0, braking, b, commands, state, o.time - TotalTime(executed), states, executed);
  }

  function Portion(command: Command, remaining: real): Command {
    Command(if remaining >= command.duration - EPSILON then command.duration else remaining, command.heading, command.speed)
  }

  /** The next command is not safe. */
  lemma UnderwayBlocked(o: Errand, braking: bool, b: Braking, commands: seq<Command>, indices: seq<nat>, next: nat, state: MotionState,
                        states: seq<MotionState>, executed: seq<Command>, actual: seq<Pose>, index: nat, stands: bool)
    requires Underway(o, braking, b, commands, indices, next, state, states, executed, actual, false, index, stands)
    requires o.time - TotalTime(executed) > EPSILON && next < |commands| && o.w.maxTurnRate > 0.0
    requires !o.w.safe(state.pose, Obey(o.w, state, Portion(commands[next], o.time - TotalTime(executed))).pose)
    ensures !Followable(o.w, o.route, o.from, o.time) && (braking || o.straight ==> CannotBrakeOn(o.w, state, b.heading))
  {
    hide Trip, BrakeState, Faithful, TotalTime, Followable, CannotBrakeOn, Obey;
    FollowNow(o.w, o.route, o.time, commands, indices, next, braking, executed, o.from, state, states, actual, o.index0, index, stands);
    BrakeStateBlocked(o.w, o.straight, o.heading0, braking, b, commands, next, Portion(commands[next], o.time - TotalTime(executed)).duration,
                      state, o.time - TotalTime(executed), states, executed);
  }

  /** The next command is safe and obeyed. */
  lemma UnderwayNext(o: Errand, braking: bool, b: Braking, commands: seq<Command>, indices: seq<nat>, next: nat, state: MotionState,
                     states: seq<MotionState>, executed: seq<Command>, actual: seq<Pose>, index: nat, stands: bool)
    requires Underway(o, braking, b, commands, indices, next, state, states, executed, actual, false, index, stands)
    requires o.time - TotalTime(executed) > EPSILON && next < |commands| && o.w.maxTurnRate > 0.0
    requires o.w.safe(state.pose, Obey(o.w, state, Portion(commands[next], o.time - TotalTime(executed))).pose)
    ensures var done := Portion(commands[next], o.time - TotalTime(executed));
            var candidate := Obey(o.w, state, done);
            && TotalTime(executed + [done]) == TotalTime(executed) + done.duration
            && (indices == [] || next + 1 < |indices|)
            && Underway(o, braking, b, commands, indices, next + 1, candidate, states + [candidate], executed + [done],
                        actual + [candidate.pose], o.w.exited(candidate.pose),
                        if indices != [] && done.duration == commands[next].duration then indices[next + 1] else index, stands)
  {
    hide Trip, BrakeState, Faithful, TotalTime, Followable, CannotBrakeOn, Obey;
    var done := Portion(commands[next], o.time - TotalTime(executed));
    FollowNow(o.w, o.route, o.time, commands, indices, next, braking, executed, o.from, state, states, actual, o.index0, index, stands);
    MoveOn(o.w, o.from, state, states, executed, actual, done);
    BrakeStateNext(o.w, o.straight, o.heading0, braking, b, commands, next, done.duration, state, o.time - TotalTime(executed), states, executed);
  }

  lemma UnderwaySwitch(o: Errand, b: Braking, gone: seq<Command>, indices: seq<nat>, next: nat, commands: seq<Command>, state: MotionState,
                       states: seq<MotionState>, executed: seq<Command>, actual: seq<Pose>, index: nat, stands: bool)
    requires Underway(o, false, b, gone, indices, next, state, states, executed, actual, false, index, stands)
    requires !Followable(o.w, o.route, o.from, o.time) && (o.straight ==> CannotBrakeOn(o.w, state, b.heading))
    requires BrakeCommands(state.pose.heading, commands) && Timed(commands)
    requires BrakedSo(o.w, state, state.pose.heading, o.time - TotalTime(executed), commands, 0, state, o.time - TotalTime(executed))
    ensures var b' := Switched(b, o.straight, state, o.time - TotalTime(executed), |executed|);
            && Underway(o, true, b', commands, [], 0, state, states, executed, actual, false, index, true)
            && Underway(o, true, b', commands, [], 0, state, states, executed, actual, false, index, false)
  {
    hide Trip, BrakeState, Faithful, TotalTime, Followable, CannotBrakeOn, BrakeCommands, Timed, BrakedSo;
    TripSizes(o.w, o.from, state, states, executed, actual, false);
    var b' := Switched(b, o.straight, state, o.time - TotalTime(executed), |executed|);
    BrakeStateSwitch(o.w, o.straight, o.heading0, b, gone, next, commands, state, o.time - TotalTime(executed), states, executed);
    NotFaithful(o.w, o.route, o.from, o.time, commands, [], 0, true, executed, o.index0, index, true);
    NotFaithful(o.w, o.route, o.from, o.time, commands, [], 0, true, executed, o.index0, index, false);
  }

  lemma UnderwayAnyhow(o: Errand, braking: bool, b: Braking, commands: seq<Command>, indices: seq<nat>, next: nat, state: MotionState,
                       states: seq<MotionState>, executed: seq<Command>, actual: seq<Pose>, departed: bool, index: nat, stands: bool)
    requires Underway(o, braking, b, commands, indices, next, state, states, executed, actual, departed, index, stands)
    requires !Followable(o.w, o.route, o.from, o.time)
    ensures Underway(o, braking, b, commands, indices, next, state, states, executed, actual, departed, index, true)
    ensures Underway(o, braking, b, commands, indices, next, state, states, executed, actual, departed, index, false)
  {
    hide Trip, BrakeState, TotalTime, Followable;
  }

  lemma UnderwayEnd(o: Errand, braking: bool, b: Braking, commands: seq<Command>, indices: seq<nat>, next: nat, state: MotionState,
                    states: seq<MotionState>, executed: seq<Command>, actual: seq<Pose>, departed: bool, index: nat, stands: bool)
    requires Underway(o, braking, b, commands, indices, next, state, states, executed, actual, departed, index, stands)
    ensures Trip(o.w, o.from, state, states, executed, actual, departed) && (index == o.index0 || index in o.route.indices)
    ensures Followable(o.w, o.route, o.from, o.time) ==>
              FollowedSo(o.route, o.route.commands, o.route.indices, |executed|, false, executed, o.index0, index) && stands && !braking
    ensures o.straight ==> OnlyBrakes(o.w, o.heading0, states, executed) && index == o.index0
  {
    hide Trip, BrakeState, Faithful, TotalTime, Followable, FollowedSo, OnlyBrakes;
    TripSizes(o.w, o.from, state, states, executed, actual, departed);
    BrakeStateEnd(o.w, o.straight, o.heading0, braking, b, commands, next, state, o.time - TotalTime(executed), states, executed);
    FaithfulEnd(o.w, o.route, o.from, o.time, commands, indices, next, braking, executed, o.index0, index, stands);
  }

  lemma PortionFits(command: Command, remaining: real)
    requires remaining > EPSILON
    ensures Portion(command, remaining).duration <= remaining + EPSILON
  {
  }

  lemma UnderwaySizes(o: Errand, braking: bool, b: Braking, commands: seq<Command>, indices: seq<nat>, next: nat, state: MotionState,
                      states: seq<MotionState>, executed: seq<Command>, actual: seq<Pose>, departed: bool, index: nat, stands: bool)
    requires Underway(o, braking, b, commands, indices, next, state, states, executed, actual, departed, index, stands)
    ensures o.w.maxTurnRate > 0.0 && next <= |commands| && (indices == [] || |indices| == |commands| + 1)
  {
    hide Trip, BrakeState, Faithful, TotalTime;
  }

  class Ship {
    var state: MotionState
    var routeIndex: nat
    var motionTime: real
    var generation: nat
    var version: nat
    var departed: bool
    var ready: bool
    var reason: string
    var land: Option<Mask>
    var parameters: Option<Parameters>
    var installedAt: real
    var navigator: Navigator?
    const view: Chart -> World
    const swing: (Parameters, real, real) -> real

    /** The bound chart, or open water. */
    function Land(): Mask
      reads this
    {
      if land.Some? then land.value else Mask(30, 30, {})
    }

    ghost predicate Valid()
      reads this`navigator
    {
      SeesCharts(view) && (navigator != null ==> navigator.Valid() && navigator.ship == this)
    }

    /** The chart in force for the execution of a route. */
    function ChartFor(route: Route): Chart
      reads this, navigator, route.navigator
    {
      if navigator != null then Chart(version, if land.Some? then land.value else navigator.land, navigator.islands)
      else if route.navigator != null && route.navigator.ship == this then
        Chart(version, if land.Some? then land.value else route.navigator.land, route.navigator.islands)
      else Chart(version, Land(), [])
    }

    /** The world in force for the execution of a route: the chart bound to the vessel, as seen by
        the vessel's own navigator, the route's, or a new one. */
    function SightFor(route: Route): World
      requires Valid()
      reads this, navigator, route.navigator
    {
      if navigator != null then navigator.view(ChartFor(route))
      else if route.navigator != null && route.navigator.ship == this then route.navigator.view(ChartFor(route))
      else view(ChartFor(route))
    }

    /** The navigator that guards an execution: the vessel's own, the route's, or a new one. */
    method Guard(route: Route) returns (guard: Navigator)
      requires Valid() && (route.navigator != null ==> route.navigator.Valid())
      modifies this`navigator
      ensures guard.Valid() && guard.ship == this && Valid()
      ensures old(navigator) != null ==> guard == old(navigator)
      ensures old(navigator) == null && route.navigator != null && route.navigator.ship == this ==> guard == route.navigator
      ensures navigator == old(navigator) || (fresh(navigator) && guard == navigator)
      ensures old(IsFresh(route)) ==> guard == route.navigator && IsFresh(route)
      ensures guard.Guarding(if land.Some? then land.value else guard.land) == old(SightFor(route))
      ensures guard.Charted(if land.Some? then land.value else guard.land) == old(ChartFor(route))
    {
      if navigator != null {
        return navigator;
      }
      if route.navigator != null && route.navigator.ship == this {
        return route.navigator;
      }
      guard := new Navigator(this, view, swing);
      navigator := guard;
    }

    /** The route was not planned for this vessel as it is now, on the chart in force. */
    predicate IsStale(route: Route, guard: Navigator, mask: Mask)
      reads this, guard, guard.ship, route.navigator, if route.navigator == null then {} else {route.navigator.ship}
    {
      || route.initial != state || route.navigator == null
      || route.generatedAt < motionTime - CLOCK_SLACK || route.generation != generation
      || route.navigator.ship != this
      || route.chart != route.navigator.Charted(route.navigator.land)
      || route.chart != guard.Charted(mask)
    }

    /** The route starts somewhere else, or was planned before the vessel's clock or before its last change, for
        another vessel, or on another chart than the one in force. */
    ghost predicate OutOfDate(route: Route)
      reads this, navigator, route.navigator, if route.navigator == null then {} else {route.navigator.ship}
    {
      || route.initial != state
      || route.generation != generation
      || route.generatedAt < motionTime - CLOCK_SLACK
      || route.navigator == null || route.navigator.ship != this
      || route.chart != ChartFor(route)
      || route.chart.land != route.navigator.land || route.chart.islands != route.navigator.islands
    }

    /** A route planned for the vessel as it is, by the navigator that will guard it. */
    predicate IsFresh(route: Route)
      reads this, route.navigator, if route.navigator == null then {} else {route.navigator.ship}
    {
      && route.navigator != null && route.navigator.ship == this && (navigator == null || navigator == route.navigator)
      && route.initial == state && route.generatedAt >= motionTime - CLOCK_SLACK && route.generation == generation
      && route.chart == route.navigator.Charted(route.navigator.land) && (land.Some? ==> land.value == route.chart.land)
    }

    /** Give the route up and brake: the commands for it, planned from here. */
    method SwitchToBraking(guard: Navigator, mask: Mask, w: World, why: string, left: real) returns (commands: seq<Command>)
      requires guard.Valid() && guard.ship == this && w == guard.Guarding(mask) && w.Usable()
      modifies this`ready, this`reason
      ensures !ready && BrakeCommands(state.pose.heading, commands) && Timed(commands)
      ensures BrakedSo(w, state, state.pose.heading, left, commands, 0, state, left)
    {
      hide *;
      UsableTurns(w);
      var brakes := guard.BrakingRoute(state, motionTime, mask, why, left);
      BrakeBegun(w, state, state.pose.heading, left, brakes.commands);
      BrakesAreTimed(w, brakes);
      ready, reason := false, brakes.reason;
      commands := brakes.commands;
    }

    /** Give the commands up for braking from here. */
    method GiveUp(guard: Navigator, mask: Mask, why: string, left: real, ghost o: Errand, ghost b: Braking, ghost gone: seq<Command>,
                  ghost indices: seq<nat>, ghost next: nat, ghost states: seq<MotionState>, ghost executed: seq<Command>,
                  ghost actual: seq<Pose>, ghost stands: bool)
      returns (commands: seq<Command>, ghost b': Braking)
      requires guard.Valid() && guard.ship == this && o.w == guard.Guarding(mask) && o.w.Usable() && left == o.time - TotalTime(executed)
      requires Underway(o, false, b, gone, indices, next, state, states, executed, actual, false, routeIndex, stands)
      requires !Followable(o.w, o.route, o.from, o.time) && (o.straight ==> CannotBrakeOn(o.w, state, b.heading))
      modifies this`ready, this`reason
      ensures !ready
      ensures Underway(o, true, b', commands, [], 0, state, states, executed, actual, false, routeIndex, true)
      ensures Underway(o, true, b', commands, [], 0, state, states, executed, actual, false, routeIndex, false)
    {
      hide *;
      commands := SwitchToBraking(guard, mask, guard.Guarding(mask), why, left);
      b' := Switched(b, o.straight, state, left, |executed|);
      UnderwaySwitch(o, b, gone, indices, next, commands, state, states, executed, actual, routeIndex, stands);
    }

    /** The commands cannot go on: braking takes over, or stops with the reason given if it already has. */
    method BrakeOrStop(guard: Navigator, mask: Mask, why: string, stuck: string, braking: bool, left: real, commands0: seq<Command>,
                       indices0: seq<nat>, next0: nat, ghost o: Errand, ghost b: Braking, ghost states: seq<MotionState>,
                       ghost executed: seq<Command>, ghost actual: seq<Pose>, ghost stands: bool)
      returns (commands: seq<Command>, indices: seq<nat>, next: nat, stopped: bool, ghost b': Braking)
      requires guard.Valid() && guard.ship == this && o.w == guard.Guarding(mask) && o.w.Usable() && left == o.time - TotalTime(executed)
      requires Underway(o, braking, b, commands0, indices0, next0, state, states, executed, actual, false, routeIndex, stands)
      requires !Followable(o.w, o.route, o.from, o.time) && (braking || o.straight ==> CannotBrakeOn(o.w, state, b.heading))
      requires braking ==> !ready
      modifies this`ready, this`reason
      ensures !ready && stopped == braking && (stopped ==> Stuck(o.w, state) && (reason == if stuck == "" then old(reason) else stuck))
      ensures if stopped then commands == commands0 && indices == indices0 && next == next0 else indices == [] && next == 0
      ensures Underway(o, true, b', commands, indices, next, state, states, executed, actual, false, routeIndex, true)
      ensures Underway(o, true, b', commands, indices, next, state, states, executed, actual, false, routeIndex, false)
    {
      hide *;
      if braking {
        if stuck != "" {
          ready, reason := false, stuck;
        }
        UnderwayAnyhow(o, braking, b, commands0, indices0, next0, state, states, executed, actual, false, routeIndex, stands);
        StuckHere(o.w, state, b.heading);
        return commands0, indices0, next0, true, b;
      }
      commands, b' := GiveUp(guard, mask, why, left, o, b, commands0, indices0, next0, states, executed, actual, stands);
      indices, next, stopped := [], 0, false;
    }

    /** The vessel is at the end of a step, and at the step's cursor if it was a whole command. */
    method Move(w: World, candidate: MotionState, dt: real, cursor: Option<nat>)
      modifies this`state, this`routeIndex, this`motionTime, this`departed
      ensures state == candidate && motionTime == old(motionTime) + dt
      ensures routeIndex == if cursor.Some? then cursor.value else old(routeIndex)
      ensures departed <==> old(departed) || w.exited(candidate.pose)
    {
      state := candidate;
      if cursor.Some? {
        routeIndex := cursor.value;
      }
      motionTime := motionTime + dt;
      if w.exited(candidate.pose) {
        departed := true;
      }
    }

    /** The loop over the commands of a route, with braking taking over when the route ends
        or is blocked. */
    method Execute(guard: Navigator, mask: Mask, w: World, route: Route, time: real, ghost heading0: real)
      returns (actual: seq<Pose>, ghost states: seq<MotionState>, ghost executed: seq<Command>)
      requires guard.Valid() && guard.ship == this && w == guard.Guarding(mask) && w.Usable()
      requires CursorsFit(route) && time > 0.0 && !departed
      modifies this`state, this`routeIndex, this`motionTime, this`departed, this`ready, this`reason
      ensures Trip(w, old(state), state, states, executed, actual, departed)
      ensures motionTime == old(motionTime) + TotalTime(executed) && TotalTime(executed) <= time + EPSILON
      ensures departed || TotalTime(executed) >= time - EPSILON || (!ready && Stuck(w, state))
      ensures routeIndex == old(routeIndex) || routeIndex in route.indices
      ensures Followable(w, route, old(state), time) ==>
                FollowedSo(route, route.commands, route.indices, |executed|, false, executed, old(routeIndex), routeIndex)
                && ready == old(ready) && reason == old(reason) && (departed || TotalTime(executed) >= time - EPSILON)
      ensures ready ==> old(ready)
      ensures BrakingOnly(w, heading0, route, old(state), time) ==>
                OnlyBrakes(w, heading0, states, executed) && routeIndex == old(routeIndex)
    {
      hide *;
      UsableTurns(w);
      ghost var time0, ready0, reason0 := motionTime, ready, reason;
      ghost var o := Errand(w, route, state, time, BrakingOnly(w, heading0, route, state, time), heading0, routeIndex);
      ghost var b := Braking(state, time, heading0, None);
      states, executed := [state], [];
      actual := [state.pose];
      var remaining := time;
      var commands, indices := route.commands, route.indices;
      var next: nat := 0;
      var braking := false;
      var stopped := false;
      UnderwayStart(o);
      while remaining > EPSILON && !departed && !stopped
        invariant Underway(o, braking, b, commands, indices, next, state, states, executed, actual, departed, routeIndex,
                           ready == ready0 && reason == reason0)
        invariant motionTime == time0 + TotalTime(executed) && remaining == time - TotalTime(executed) && remaining >= -EPSILON
        invariant (braking ==> !ready) && (ready ==> ready0) && (stopped ==> braking && Stuck(w, state))
        decreases !stopped, !braking, |commands| - next
      {
        ghost var stands := ready == ready0 && reason == reason0;
        UnderwaySizes(o, braking, b, commands, indices, next, state, states, executed, actual, departed, routeIndex, stands);
        if next == |commands| {
          UnderwayOver(o, braking, b, commands, indices, state, states, executed, actual, routeIndex, stands);
          var why := if route.reason == "" then "route horizon exhausted" else route.reason;
          commands, indices, next, stopped, b := BrakeOrStop(guard, mask, why, "", braking, remaining, commands, indices, next, o, b, states,
                                                             executed, actual, stands);
          braking := true;
        } else {
          var done := Portion(commands[next], remaining);
          var candidate := Obey(w, state, done);
          if !w.safe(state.pose, candidate.pose) {
            UnderwayBlocked(o, braking, b, commands, indices, next, state, states, executed, actual, routeIndex, stands);
            commands, indices, next, stopped, b := BrakeOrStop(guard, mask, "execution segment blocked",
                                                               "insufficient clearance for continued braking", braking, remaining, commands,
                                                               indices, next, o, b, states, executed, actual, stands);
            braking := true;
          } else {
            UnderwayNext(o, braking, b, commands, indices, next, state, states, executed, actual, routeIndex, stands);
            PortionFits(commands[next], remaining);
            next := next + 1;
            Move(w, candidate, done.duration, if indices != [] && done.duration == commands[next - 1].duration then Some(indices[next]) else None);
            actual := actual + [candidate.pose];
            states, executed := states + [candidate], executed + [done];
            remaining := remaining - done.duration;
          }
        }
      }
      UnderwayEnd(o, braking, b, commands, indices, next, state, states, executed, actual, departed, routeIndex,
                  ready == ready0 && reason == reason0);
    }

    /** Check the route, and replace it by braking if it is stale. */
    method Adopt(route: Route, dt: real) returns (guard: Navigator, mask: Mask, sight: World, current: Route)
      requires Valid() && CursorsFit(route) && (route.navigator != null ==> route.navigator.Valid())
      modifies this`motionTime, this`ready, this`reason, this`navigator
      ensures old(navigator) != null ==> navigator == old(navigator)
      ensures Valid() && guard.Valid() && guard.ship == this
      ensures sight == guard.Guarding(mask) == old(SightFor(route)) && sight.Usable()
      ensures CursorsFit(current) && motionTime >= old(motionTime) && ready == current.ready && reason == current.reason
      ensures old(IsFresh(route)) ==> current == route && route.initial == state
      ensures old(OutOfDate(route)) ==>
                !ready && "stale or unvalidated route/map" <= reason && BrakingOnly(sight, state.pose.heading, current, state, dt)
      ensures !old(OutOfDate(route)) ==> current == route
    {
      hide *;
      ghost var isFresh, outdated := IsFresh(route), OutOfDate(route);
      OutOfDateIs(this, route);
      guard := Guard(route);
      mask := if land.Some? then land.value else guard.land;
      if isFresh {
        FreshIsCurrent(this, route, guard, mask);
      }
      sight := guard.Guarding(mask);
      GuardSees(guard, mask);
      ForceIs(this, route, guard, mask, outdated);
      current := route;
      if IsStale(route, guard, mask) {
        current := guard.BrakingRoute(state, motionTime, mask, "stale or unvalidated route/map", dt);
        BrakingFits(sight, current);
        BrakesAreTimed(sight, current);
        BrakesOnly(sight, state.pose.heading, current, state, dt);
      }
      motionTime := if motionTime < current.generatedAt then current.generatedAt else motionTime;
      ready, reason := current.ready, current.reason;
    }

    /** Check the route, replace it by braking if it is stale, and execute it. */
    method Run(route: Route, dt: real)
      returns (actual: seq<Pose>, ghost w: World, ghost states: seq<MotionState>, ghost executed: seq<Command>)
      requires Valid() && CursorsFit(route) && (route.navigator != null ==> route.navigator.Valid())
      requires !departed && dt > 0.0
      modifies this`state, this`routeIndex, this`motionTime, this`departed, this`ready, this`reason, this`navigator
      ensures old(navigator) != null ==> navigator == old(navigator)
      ensures Valid() && w == old(SightFor(route))
      ensures Trip(w, old(state), state, states, executed, actual, departed)
      ensures TotalTime(executed) <= dt + EPSILON && motionTime >= old(motionTime) + TotalTime(executed)
      ensures departed || TotalTime(executed) >= dt - EPSILON || (!ready && Stuck(w, state))
      ensures old(IsFresh(route)) && WholeCommands(route.commands, dt) && SafeRoute(w, route) ==>
                Reproduces(w, route, dt, actual, |executed|, departed)
                && ready == route.ready && reason == route.reason && executed == route.commands[..|executed|]
                && routeIndex == CursorAfter(old(routeIndex), route.indices, |executed|)
      ensures old(OutOfDate(route)) ==>
                !ready && OnlyBrakes(w, old(state).pose.heading, states, executed) && routeIndex == old(routeIndex)
    {
      hide *;
      ghost var isFresh, state0, index0 := IsFresh(route), state, routeIndex;
      var guard, mask, sight, current := Adopt(route, dt);
      w := sight;
      actual, states, executed := Execute(guard, mask, sight, current, dt, state.pose.heading);
      if isFresh && WholeCommands(route.commands, dt) && SafeRoute(sight, route) {
        FollowableNow(sight, route, state0, dt);
        Followed(sight, route, dt, actual, states, executed, state0, state, departed, index0, routeIndex);
      }
    }

    /** Execute timed controls for `dt` minutes. */
    method Advance(route: Route, dt: real)
      returns (actual: seq<Pose>, ghost w: World, ghost states: seq<MotionState>, ghost executed: seq<Command>)
      requires Valid() && CursorsFit(route) && (route.navigator != null ==> route.navigator.Valid())
      modifies this`state, this`routeIndex, this`motionTime, this`departed, this`ready, this`reason, this`navigator
      ensures old(navigator) != null ==> navigator == old(navigator)
      ensures Valid() && w == old(SightFor(route))
      ensures old(departed) || dt <= 0.0 ==> actual == [state.pose] && unchanged(this)
      ensures w.chart == old(ChartFor(route)) && w.KnowsChart()
      ensures !old(departed) && dt > 0.0 ==>
                && Trip(w, old(state), state, states, executed, actual, departed)
                && ClearWay(w, actual) && StaysOrLeaves(w, actual, departed)
      ensures !old(departed) && dt > 0.0 ==>
                TotalTime(executed) <= dt + EPSILON && motionTime >= old(motionTime) + TotalTime(executed)
                && (departed || TotalTime(executed) >= dt - EPSILON || (!ready && Stuck(w, state)))
      ensures !old(departed) && dt > 0.0 && old(IsFresh(route)) && WholeCommands(route.commands, dt) && SafeRoute(w, route) ==>
                Reproduces(w, route, dt, actual, |executed|, departed)
                && ready == route.ready && reason == route.reason && executed == route.commands[..|executed|]
                && routeIndex == w.cursor(state.pose, CursorAfter(old(routeIndex), route.indices, |executed|))
      ensures !old(departed) && dt > 0.0 && old(OutOfDate(route)) ==>
                !ready && OnlyBrakes(w, old(state).pose.heading, states, executed) && routeIndex == w.cursor(state.pose, old(routeIndex))
    {
      hide *;
      SightSees(this, route);
      if departed || dt <= 0.0 {
        actual, states, executed := [state.pose], [], [];
        w := SightFor(route);
        return;
      }
      var sight := SightFor(route);
      ghost var state0 := state;
      actual, w, states, executed := Run(route, dt);
      TripIsClear(w, state0, state, states, executed, actual, departed);
      routeIndex := sight.cursor(state.pose, routeIndex);
    }

    /** Plan from where the vessel is, and go. The plan is fresh, so for a whole number of its
        commands the vessel goes exactly where the plan says. */
    method Step(dt: real, islands: seq<Island>)
      returns (actual: seq<Pose>, ghost route: Option<Route>, ghost w: World, ghost states: seq<MotionState>,
               ghost executed: seq<Command>)
      requires Valid()
      modifies this, navigator
      ensures Valid()
      ensures old(departed) || dt <= 0.0 ==> actual == [state.pose] && unchanged(this)
      ensures !old(departed) && dt > 0.0 ==>
                && Trip(w, old(state), state, states, executed, actual, departed)
                && w.chart == Chart(version, Land(), islands) && w.KnowsChart()
                && ClearWay(w, actual) && StaysOrLeaves(w, actual, departed)
                && navigator != null && w == navigator.view(Chart(version, Land(), islands))
                && route.Some? && SafeRoute(w, route.value) && ClearWay(w, route.value.poses) && route.value.initial == old(state)
                && (WholeCommands(route.value.commands, dt) ==>
                      Reproduces(w, route.value, dt, actual, |executed|, departed) && ready == route.value.ready)
    {
      hide World.KnowsChart, ClearWay, StaysOrLeaves, OpenWater, Becomes, ExtendedTo, SeesCharts, Trip, WholeCommands, SafeRoute, TotalTime, CannotBrakeOn, World.Usable, ReadyLine, IsReference,
           BrakeCommands, StopsAtEnd, AllSafe, CursorsFit, Reproduces, CursorAfter, IsStale;
      if departed || dt <= 0.0 {
        actual, route, states, executed := [state.pose], None, [], [];
        w := view(Chart(version, Land(), []));
        return;
      }
      if navigator == null {
        navigator := new Navigator(this, view, swing);
      }
      var planner := navigator;
      planner.islands := islands;
      var sight := planner.Guarding(Land());
      routeIndex := sight.cursor(state.pose, routeIndex);
      var planned, reference, line, n := planner.Plan(state.pose, parameters, sight.leg(routeIndex), motionTime, Land());
      route := Some(planned);
      BrakingFits(planner.Guarding(planner.land), planned);
      assert IsFresh(planned);
      actual, w, states, executed := Advance(planned, dt);
    }
  }
}
