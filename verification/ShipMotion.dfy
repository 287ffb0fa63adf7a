/** How a vessel moves, and what a route is.

    Turning, travel, guidance and path search are functions the vessel's world supplies, and
    so are the tests of segments and places; but a world that knows its chart tests them as
    the chart says.  Only the arithmetic of speed is spelled out, because braking depends on it.
  */
module ShipMotion {

  import opened Finite
  import opened SegmentClip
  import opened SegmentSafety
  import opened Inflation

  datatype Pose = Pose(x: real, y: real, heading: real)

  datatype MotionState = MotionState(pose: Pose, speed: real, yawRate: real)

  datatype Command = Command(duration: real, heading: real, speed: real)

  /** What a vessel plans with: the version of the chart, its land, and the islands on it. */
  datatype Chart = Chart(version: nat, land: Mask, islands: seq<Island>)

  /** Nothing on the chart is in the way. */
  ghost predicate OpenWater(chart: Chart) {
    chart.islands == [] && forall c: nat, r: nat :: !chart.land.Has(c, r)
  }

  function At(p: Pose): Point { Point(p.x, p.y) }

  datatype World = World(
    chart: Chart, exit: Option<Point>,
    turn: (MotionState, real, real) -> real,
    travel: (MotionState, real, real, real, real) -> Pose,
    safe: (Pose, Pose) -> bool,
    exited: Pose -> bool,
    roomy: Pose -> bool,
    guide: (Pose, nat) -> (real, nat),
    cursor: (Pose, nat) -> nat,
    leg: nat -> real,
    bearing: (Pose, Pose) -> real,
    distance: (Pose, Pose) -> real,
    search: (Pose, Pose, real) -> Option<seq<Pose>>,
    maxAcceleration: real, maxTurnRate: real, turnSpeedLoss: real, yawTimeConstant: real, headingGain: real,
    cellSize: real, step: real, horizon: real, clearance: real, activitySpeed: real, anyObstacle: bool)
  {
    ghost predicate Usable() {
      maxAcceleration > 0.0 && step > EPSILON && cellSize > 0.0 && maxTurnRate > 0.0 && headingGain > 0.0
    }

    /** Where the vessel may leave the chart. */
    function Way(): Option<Gate> { GateOf(chart.land, exit) }

    /** The segment keeps the clearance from land and islands, and leaves the chart through the gate only. */
    ghost predicate Passes(a: Pose, b: Pose) {
      IsSafe(At(a), At(b), chart.land, chart.islands, clearance, Way())
    }

    /** The place is clear on the chart as drawn for the path search. */
    ghost predicate HasRoom(p: Pose)
      requires clearance >= 0.0
    {
      var larger := InflatedLand(chart.land, chart.islands, clearance);
      IsSafe(At(p), At(p), larger, chart.islands, clearance, GateOf(larger, exit))
    }

    /** The tests of the world are those of its chart. */
    ghost predicate KnowsChart() {
      && clearance >= 0.0
      && (forall a: Pose, b: Pose :: safe(a, b) <==> Passes(a, b))
      && (forall p: Pose :: exited(p) <==> Exited(Way(), At(p)))
      && (forall p: Pose :: roomy(p) <==> HasRoom(p))
      && (anyObstacle <==> !OpenWater(chart))
    }
  }

  const EPSILON := 0.0000000001

  function Clamp(x: real, limit: real): real { Most(-limit, Least(limit, x)) }

  /** Speed after `dt`, towards the commanded speed less what turning costs. */
  function NextSpeed(w: World, state: MotionState, rate: real, speed: real, dt: real): real
    requires w.maxTurnRate > 0.0
  {
    var target := Target(w, rate, speed);
    var next := Most(0.0, state.speed + Clamp(target - state.speed, w.maxAcceleration * dt));
    if next < EPSILON then 0.0 else next
  }

  /** What turning leaves of a speed. */
  function Target(w: World, rate: real, speed: real): real
    requires w.maxTurnRate > 0.0
  {
    Most(0.0, speed) * (1.0 - w.turnSpeedLoss * Abs(rate) / w.maxTurnRate)
  }

  /** A speed kept within reach of the present one: never negative, and the one wanted if that is in reach. */
  lemma WithinReach(now: real, wanted: real, reach: real)
    requires now >= 0.0 && reach >= 0.0
    ensures var next := Most(0.0, now + Clamp(wanted - now, reach));
            && next >= 0.0 && Abs(next - now) <= reach && (wanted >= 0.0 && Abs(wanted - now) <= reach ==> next == wanted)
            && (wanted >= 0.0 ==> next <= Most(now, wanted))
  {
  }

  /** What is left of a speed on a straight way, and in the tightest turn. */
  lemma TargetSpeed(w: World, rate: real, speed: real)
    requires w.maxTurnRate > 0.0 && speed >= 0.0
    ensures rate == 0.0 ==> Target(w, rate, speed) == speed
    ensures rate == w.maxTurnRate || rate == -w.maxTurnRate ==> Target(w, rate, speed) == speed * (1.0 - w.turnSpeedLoss)
  {
    if rate == 0.0 {
      assert w.turnSpeedLoss * Abs(rate) == 0.0;
    }
    if rate == w.maxTurnRate || rate == -w.maxTurnRate {
      assert Abs(rate) == w.maxTurnRate;
      QuotientOfProduct(w.turnSpeedLoss, w.maxTurnRate);
    }
  }

  lemma NextSpeedIs(w: World, state: MotionState, rate: real, speed: real, dt: real)
    requires w.maxTurnRate > 0.0
    ensures var raw := Most(0.0, state.speed + Clamp(Target(w, rate, speed) - state.speed, w.maxAcceleration * dt));
            NextSpeed(w, state, rate, speed, dt) == if raw < EPSILON then 0.0 else raw
  {
  }

  /** The speed changes by no more than the acceleration allows, or the vessel stops. */
  lemma NextSpeedMeans(w: World, state: MotionState, rate: real, speed: real, dt: real)
    requires w.maxTurnRate > 0.0 && w.maxAcceleration >= 0.0 && dt >= 0.0 && state.speed >= 0.0 && speed >= 0.0
    ensures var next, reach := NextSpeed(w, state, rate, speed, dt), w.maxAcceleration * dt;
            next >= 0.0 && (next == 0.0 || Abs(next - state.speed) <= reach)
  {
    hide *;
    NotNegative(w.maxAcceleration, dt);
    WithinReach(state.speed, Target(w, rate, speed), w.maxAcceleration * dt);
    NextSpeedIs(w, state, rate, speed, dt);
  }

  /** The speed asked for is reached once it is in reach: on a straight way in full, in the tightest turn less the whole
      loss. */
  lemma SpeedReached(w: World, state: MotionState, rate: real, speed: real, dt: real)
    requires w.maxTurnRate > 0.0 && w.maxAcceleration >= 0.0 && dt >= 0.0 && state.speed >= 0.0 && speed >= 0.0
    requires rate == 0.0 || rate == w.maxTurnRate || rate == -w.maxTurnRate
    ensures var kept := if rate == 0.0 then speed else speed * (1.0 - w.turnSpeedLoss);
            kept >= EPSILON && Abs(kept - state.speed) <= w.maxAcceleration * dt ==> NextSpeed(w, state, rate, speed, dt) == kept
  {
    hide Target, NextSpeed, Most, Clamp, Abs;
    NotNegative(w.maxAcceleration, dt);
    TargetSpeed(w, rate, speed);
    WithinReach(state.speed, Target(w, rate, speed), w.maxAcceleration * dt);
    NextSpeedIs(w, state, rate, speed, dt);
  }

  lemma NotNegative(x: real, y: real)
    requires x >= 0.0 && y >= 0.0
    ensures x * y >= 0.0
  {
  }

  lemma QuotientOfProduct(x: real, y: real)
    requires y > 0.0
    ensures x * y / y == x
  {
  }


  /** One step of motion under a commanded heading and speed. */
  function Roll(w: World, state: MotionState, heading: real, speed: real, dt: real): MotionState
    requires w.maxTurnRate > 0.0
  {
    var rate := w.turn(state, heading, dt);
    var next := NextSpeed(w, state, rate, speed, dt);
    MotionState(w.travel(state, heading, rate, next, dt), next, rate)
  }

  function Obey(w: World, state: MotionState, command: Command): MotionState
    requires w.maxTurnRate > 0.0
  {
    Roll(w, state, command.heading, command.speed, command.duration)
  }

  // --------------------------------------------------------------------- chains

  /** Each state is the one before it under its command. */
  ghost predicate Chain(w: World, states: seq<MotionState>, commands: seq<Command>) {
    && w.maxTurnRate > 0.0 && |states| == |commands| + 1
    && forall i: nat :: i < |commands| ==> states[i + 1] == Obey(w, states[i], commands[i])
  }

  ghost predicate SegmentSafe(w: World, states: seq<MotionState>, i: nat) {
    i + 1 < |states| ==> w.safe(states[i].pose, states[i + 1].pose)
  }

  ghost predicate AllSafe(w: World, states: seq<MotionState>) {
    forall i: nat :: i < |states| ==> SegmentSafe(w, states, i)
  }

  lemma ChainAppend(w: World, states: seq<MotionState>, commands: seq<Command>, command: Command)
    requires Chain(w, states, commands)
    ensures Chain(w, states + [Obey(w, states[|states| - 1], command)], commands + [command])
  {
    var longer, more := states + [Obey(w, states[|states| - 1], command)], commands + [command];
    forall i: nat | i < |more|
      ensures longer[i + 1] == Obey(w, longer[i], more[i])
    {
      if i < |commands| {
        assert states[i + 1] == Obey(w, states[i], commands[i]);
      }
    }
  }

  lemma SafeAppend(w: World, states: seq<MotionState>, next: MotionState)
    requires AllSafe(w, states) && states != [] && w.safe(states[|states| - 1].pose, next.pose)
    ensures AllSafe(w, states + [next])
  {
    var longer := states + [next];
    forall i: nat | i < |longer|
      ensures SegmentSafe(w, longer, i)
    {
      if i < |states| {
        assert SegmentSafe(w, states, i);
      }
    }
  }

  /** A chain cut at one of its states and continued from there by another chain. */
  lemma ChainSplice(w: World, states: seq<MotionState>, commands: seq<Command>, anchor: nat,
                    detour: seq<MotionState>, detourCommands: seq<Command>)
    requires Chain(w, states, commands) && Chain(w, detour, detourCommands)
    requires anchor < |states| && detour[0] == states[anchor]
    ensures Chain(w, states[..anchor] + detour, commands[..anchor] + detourCommands)
    ensures (states[..anchor] + detour)[0] == states[0]
  {
    var all, more := states[..anchor] + detour, commands[..anchor] + detourCommands;
    forall i: nat | i < |more|
      ensures all[i + 1] == Obey(w, all[i], more[i])
    {
      if i < anchor {
        assert states[i + 1] == Obey(w, states[i], commands[i]);
      } else {
        var k: nat := i - anchor;
        assert detour[k + 1] == Obey(w, detour[k], detourCommands[k]);
        assert all[i] == detour[k] && all[i + 1] == detour[k + 1] && more[i] == detourCommands[k];
      }
    }
  }

  function Poses(states: seq<MotionState>): (r: seq<Pose>)
    ensures |r| == |states| && forall i: nat :: i < |r| ==> r[i] == states[i].pose
  {
    seq(|states|, i requires 0 <= i < |states| => states[i].pose)
  }

  // --------------------------------------------------------------- clear of land

  ghost predicate LegPasses(w: World, poses: seq<Pose>, i: nat) {
    i + 1 < |poses| ==> w.Passes(poses[i], poses[i + 1])
  }

  /** Every leg keeps the clearance from land and islands, and leaves the chart through the gate only. */
  ghost predicate ClearWay(w: World, poses: seq<Pose>) {
    forall i: nat :: i < |poses| ==> LegPasses(w, poses, i)
  }

  lemma SafeIsClear(w: World, states: seq<MotionState>)
    requires w.KnowsChart() && AllSafe(w, states)
    ensures ClearWay(w, Poses(states))
  {
    hide IsSafe;
    forall i: nat | i < |states|
      ensures LegPasses(w, Poses(states), i)
    {
      assert SegmentSafe(w, states, i);
    }
  }

  predicate Inside(p: Point, b: Bounds) { b.x0 <= p.x <= b.x1 && b.y0 <= p.y <= b.y1 }

  /** The point at `t` on a leg, as the box test sees the leg. */
  function PointOn(a: Pose, b: Pose, t: real): Point {
    var start, end := At(a), Seen(At(a), At(b));
    Point(start.x + t * (end.x - start.x), start.y + t * (end.y - start.y))
  }

  /** No point of a clear leg comes as near as the clearance to a land cell or an island. */
  lemma NoPointNear(w: World, a: Pose, b: Pose, t: real)
    requires w.Passes(a, b) && 0.0 <= t <= 1.0
    ensures forall c: nat, r: nat :: w.chart.land.Has(c, r) ==> !Inside(PointOn(a, b, t), CellBox(c, r, w.clearance))
    ensures forall island :: island in w.chart.islands ==> !Inside(PointOn(a, b, t), Inflated(island, w.clearance))
  {
    hide Straightened;
    forall c: nat, r: nat | w.chart.land.Has(c, r)
      ensures !Inside(PointOn(a, b, t), CellBox(c, r, w.clearance))
    {
      NotMet(a, b, CellBox(c, r, w.clearance), t);
    }
    forall island | island in w.chart.islands
      ensures !Inside(PointOn(a, b, t), Inflated(island, w.clearance))
    {
      NotMet(a, b, Inflated(island, w.clearance), t);
    }
  }

  lemma NotMet(a: Pose, b: Pose, box: Bounds, t: real)
    requires !Meets(At(a), Seen(At(a), At(b)), box) && 0.0 <= t <= 1.0
    ensures !Inside(PointOn(a, b, t), box)
  {
    hide Straightened;
    var start, end := At(a), Seen(At(a), At(b));
    assert !MeetsAt(start, end, box, t);
    assert Within(start.x, end.x - start.x, box.x0, box.x1, t) <==> box.x0 <= PointOn(a, b, t).x <= box.x1;
    assert Within(start.y, end.y - start.y, box.y0, box.y1, t) <==> box.y0 <= PointOn(a, b, t).y <= box.y1;
  }

  /** On open water a way that stays on the chart is safe. */
  lemma OpenWaterIsSafe(w: World, states: seq<MotionState>)
    requires w.KnowsChart() && OpenWater(w.chart)
    requires forall s :: s in states ==> InChart(At(s.pose), w.chart.land.cols, w.chart.land.rows)
    ensures AllSafe(w, states)
  {
    hide Meets, GateOf;
    GateOfFits(w.chart.land, w.exit);
    forall i: nat | i < |states|
      ensures SegmentSafe(w, states, i)
    {
      if i + 1 < |states| {
        var a, b := states[i], states[i + 1];
        assert a in states && b in states;
        InsideIsNotOut(At(b.pose), w.chart.land.cols, w.chart.land.rows, w.Way());
        assert w.Passes(a.pose, b.pose);
      }
    }
  }

  lemma InsideIsNotOut(p: Point, cols: nat, rows: nat, gate: Option<Gate>)
    requires InChart(p, cols, rows) && GateFits(gate, cols, rows)
    ensures !Exited(gate, p)
  {
  }

  // --------------------------------------------------------------------- braking

  /** How often a speed can lose `rate * dt` until nothing is left, at most. */
  function Portions(rate: real, dt: real, speed: real): int
    requires rate > 0.0 && dt > 0.0
  {
    StepPositive(rate, dt);
    if speed > EPSILON then (speed / (rate * dt)).Floor + 1 else 0
  }

  /** The number of brakings that bring a speed down to nothing, at most. */
  function BrakingSteps(w: World, speed: real): (n: int)
    requires w.maxAcceleration > 0.0 && w.step > 0.0
  {
    Portions(w.maxAcceleration, w.step, speed)
  }

  lemma StepPositive(a: real, b: real)
    requires a > 0.0 && b > 0.0
    ensures a * b > 0.0
  {
  }

  lemma ZeroFactor(a: real, d: real)
    requires d > 0.0 && a * d == 0.0
    ensures a == 0.0
  {
    if a > 0.0 {
      StepPositive(a, d);
    } else if a < 0.0 {
      StepPositive(-a, d);
    }
  }

  lemma QuotientLess(x: real, d: real)
    requires d > 0.0
    ensures (x - d) / d == x / d - 1.0
    ensures x > 0.0 ==> x / d > 0.0
  {
    var q := x / d;
    assert q * d == x;
    var r := (x - d) / d;
    assert r * d == x - d;
    ZeroFactor(r - (q - 1.0), d);
    assert x > 0.0 && q <= 0.0 ==> q * d <= 0.0;
  }

  lemma PortionTaken(rate: real, dt: real, speed: real, next: real)
    requires rate > 0.0 && dt > 0.0 && speed > EPSILON && 0.0 <= next && (next == 0.0 || next == speed - rate * dt)
    ensures 0 <= Portions(rate, dt, next) < Portions(rate, dt, speed)
  {
    StepPositive(rate, dt);
    QuotientLess(speed, rate * dt);
    if next > EPSILON {
      QuotientLess(next, rate * dt);
    }
  }

  /** Braking either stops the vessel or takes off a full step of speed. */
  lemma BrakingSlows(w: World, state: MotionState, heading: real)
    requires w.Usable() && state.speed > EPSILON
    ensures 0 <= BrakingSteps(w, Roll(w, state, heading, 0.0, w.step).speed) < BrakingSteps(w, state.speed)
  {
    hide NextSpeed;
    var rate := w.turn(state, heading, w.step);
    BrakedSpeed(w, state, rate);
    PortionTaken(w.maxAcceleration, w.step, state.speed, NextSpeed(w, state, rate, 0.0, w.step));
  }

  lemma BrakedSpeed(w: World, state: MotionState, rate: real)
    requires w.Usable() && state.speed > EPSILON
    ensures var next := NextSpeed(w, state, rate, 0.0, w.step);
            next == 0.0 || next == state.speed - w.maxAcceleration * w.step
    ensures NextSpeed(w, state, rate, 0.0, w.step) >= 0.0
  {
    StepPositive(w.maxAcceleration, w.step);
    var factor := 1.0 - w.turnSpeedLoss * Abs(rate) / w.maxTurnRate;
    assert Most(0.0, 0.0) * factor == 0.0;
  }

  /** The vessel can be brought to a stop, or off the chart, along safe segments only. */
  ghost predicate CanBrake(w: World, state: MotionState, heading: real)
    requires w.Usable()
    decreases BrakingSteps(w, state.speed)
  {
    if state.speed <= EPSILON || w.exited(state.pose) then true
    else
      BrakingSlows(w, state, heading);
      var next := Roll(w, state, heading, 0.0, w.step);
      w.safe(state.pose, next.pose) && CanBrake(w, next, heading)
  }

  /** The state after `n` braking steps. */
  function BrakedAfter(w: World, state: MotionState, heading: real, n: nat): MotionState
    requires w.maxTurnRate > 0.0
  {
    if n == 0 then state else Roll(w, BrakedAfter(w, state, heading, n - 1), heading, 0.0, w.step)
  }

  ghost predicate Halted(w: World, state: MotionState) { state.speed <= EPSILON || w.exited(state.pose) }

  ghost predicate BrakeStepSafe(w: World, state: MotionState, heading: real, k: nat)
    requires w.maxTurnRate > 0.0
  {
    w.safe(BrakedAfter(w, state, heading, k).pose, BrakedAfter(w, state, heading, k + 1).pose)
  }

  ghost predicate HaltsAfter(w: World, state: MotionState, heading: real, n: nat)
    requires w.maxTurnRate > 0.0
  {
    Halted(w, BrakedAfter(w, state, heading, n)) && forall k: nat :: k < n ==> BrakeStepSafe(w, state, heading, k)
  }

  lemma {:induction false} BrakedShift(w: World, state: MotionState, heading: real, n: nat)
    requires w.maxTurnRate > 0.0
    ensures BrakedAfter(w, state, heading, n + 1) == BrakedAfter(w, Roll(w, state, heading, 0.0, w.step), heading, n)
  {
    hide Roll;
    if n > 0 {
      BrakedShift(w, state, heading, n - 1);
    }
  }

  lemma HaltsShift(w: World, state: MotionState, heading: real, n: nat)
    requires w.maxTurnRate > 0.0
    ensures var next := Roll(w, state, heading, 0.0, w.step);
            HaltsAfter(w, state, heading, n + 1) <==> w.safe(state.pose, next.pose) && HaltsAfter(w, next, heading, n)
  {
    hide Roll;
    var next := Roll(w, state, heading, 0.0, w.step);
    forall k: nat
      ensures BrakeStepSafe(w, state, heading, k + 1) <==> BrakeStepSafe(w, next, heading, k)
    {
      BrakedShift(w, state, heading, k);
      BrakedShift(w, state, heading, k + 1);
    }
    BrakedShift(w, state, heading, n);
    assert BrakedAfter(w, state, heading, 0) == state && BrakedAfter(w, state, heading, 1) == next;
    ShiftAll(w, state, next, heading, n);
  }

  lemma ShiftAll(w: World, state: MotionState, next: MotionState, heading: real, n: nat)
    requires w.maxTurnRate > 0.0
    requires forall k: nat :: BrakeStepSafe(w, state, heading, k + 1) <==> BrakeStepSafe(w, next, heading, k)
    ensures (forall k: nat :: k < n + 1 ==> BrakeStepSafe(w, state, heading, k))
            <==> BrakeStepSafe(w, state, heading, 0) && forall k: nat :: k < n ==> BrakeStepSafe(w, next, heading, k)
  {
    hide BrakeStepSafe;
    if BrakeStepSafe(w, state, heading, 0) && forall k: nat :: k < n ==> BrakeStepSafe(w, next, heading, k) {
      forall k: nat | k < n + 1
        ensures BrakeStepSafe(w, state, heading, k)
      {
        if k > 0 {
          var j := k - 1;
          assert BrakeStepSafe(w, state, heading, j + 1) <==> BrakeStepSafe(w, next, heading, j);
        }
      }
    }
    if forall k: nat :: k < n + 1 ==> BrakeStepSafe(w, state, heading, k) {
      forall k: nat | k < n
        ensures BrakeStepSafe(w, next, heading, k)
      {
        assert BrakeStepSafe(w, state, heading, k + 1);
      }
    }
  }

  /** The vessel can brake exactly if some number of braking steps, all of them safe, brings it to a stop or off the chart. */
  lemma {:induction false} CanBrakeMeans(w: World, state: MotionState, heading: real)
    requires w.Usable()
    ensures CanBrake(w, state, heading) <==> exists n: nat :: HaltsAfter(w, state, heading, n)
    decreases BrakingSteps(w, state.speed)
  {
    hide Roll, BrakingSteps, HaltsAfter;
    if Halted(w, state) {
      HaltsAtOnce(w, state, heading);
    } else {
      BrakingSlows(w, state, heading);
      var next := Roll(w, state, heading, 0.0, w.step);
      CanBrakeMeans(w, next, heading);
      HaltsAtOnce(w, state, heading);
      if n: nat :| HaltsAfter(w, state, heading, n) {
        assert n != 0;
        HaltsShift(w, state, heading, n - 1);
      }
      if m: nat :| HaltsAfter(w, next, heading, m) {
        HaltsShift(w, state, heading, m);
      }
    }
  }

  lemma HaltsAtOnce(w: World, state: MotionState, heading: real)
    requires w.maxTurnRate > 0.0
    ensures HaltsAfter(w, state, heading, 0) <==> Halted(w, state)
  {
  }

  method CanStop(w: World, state0: MotionState) returns (ok: bool)
    requires w.Usable()
    ensures ok <==> CanBrake(w, state0, state0.pose.heading)
  {
    hide BrakingSteps, Roll;
    var heading := state0.pose.heading;
    var state := state0;
    while state.speed > EPSILON
      invariant CanBrake(w, state0, heading) <==> CanBrake(w, state, heading)
      decreases BrakingSteps(w, state.speed)
    {
      if w.exited(state.pose) {
        return true;
      }
      BrakingSlows(w, state, heading);
      var candidate := Roll(w, state, heading, 0.0, w.step);
      if !w.safe(state.pose, candidate.pose) {
        return false;
      }
      state := candidate;
    }
    return true;
  }

  // ------------------------------------------------------------------ the clock

  /** The number of steps of at most `step` from `elapsed` to `duration`, at most. */
  function StepsLeft(step: real, elapsed: real, duration: real): int
    requires step > 0.0
  {
    if elapsed < duration - EPSILON then ((duration - elapsed) / step).Floor + 1 else 0
  }

  /** The last step is cut short; each step takes one off. */
  lemma StepTaken(step: real, elapsed: real, duration: real)
    requires step > EPSILON && elapsed < duration - EPSILON
    ensures Least(step, duration - elapsed) > EPSILON
    ensures 0 <= StepsLeft(step, elapsed + Least(step, duration - elapsed), duration) < StepsLeft(step, elapsed, duration)
  {
    QuotientLess(duration - elapsed, step);
    if step < duration - elapsed {
      assert duration - (elapsed + step) == (duration - elapsed) - step;
      if elapsed + step < duration - EPSILON {
        QuotientLess(duration - elapsed - step, step);
      }
    }
  }
}
