/** Routes for a vessel: roll the reference out, and splice detours into it until it is safe. */
module ShipPlanner {

  import opened Finite
  import opened SegmentClip
  import opened ShipMotion

  const MAX_DEPTH := 8
  const EXTENSION := 120.0

  /** Follow the normal route, or the heading and speed a command gives. */
  datatype Orders = Normal | Commanded(heading: real -> real, speed: real)

  /** A rolled-out stretch of motion: a cursor into the normal route belongs to every state. */
  datatype Line = Line(states: seq<MotionState>, commands: seq<Command>, indices: seq<nat>)
  {
    ghost predicate Sound(w: World) { Chain(w, states, commands) && |indices| == |states| && Timed(commands) }
  }

  /** Every command lasts longer than the clock's resolution. */
  ghost predicate Timed(commands: seq<Command>) {
    forall i: nat :: i < |commands| ==> commands[i].duration > EPSILON
  }

  lemma TimedJoin(a: seq<Command>, b: seq<Command>)
    requires Timed(a) && Timed(b)
    ensures Timed(a + b)
  {
  }

  function Join(a: Line, b: Line): Line {
    Line(a.states + b.states, a.commands + b.commands, a.indices + b.indices)
  }

  /** Heading and cursor the orders give at a pose and a time. */
  function Guidance(w: World, orders: Orders, pose: Pose, index: nat, time: real): (real, nat) {
    match orders
    case Normal => w.guide(pose, index)
    case Commanded(heading, _) => (heading(time), index)
  }

  function OrderedSpeed(w: World, orders: Orders): real {
    match orders
    case Normal => w.activitySpeed
    case Commanded(_, speed) => speed
  }

  // ------------------------------------------------------------------ the reference

  /** Where a reference rollout stands. */
  datatype Reference = Reference(state: MotionState, elapsed: real, duration: real, start: real, index: nat)

  predicate Continues(w: World, r: Reference) {
    r.elapsed < r.duration - EPSILON && !w.exited(r.state.pose)
  }

  function ReferenceCommand(w: World, orders: Orders, r: Reference): Command {
    Command(Least(w.step, r.duration - r.elapsed),
            Guidance(w, orders, r.state.pose, r.index, r.start + r.elapsed).0, OrderedSpeed(w, orders))
  }

  function NextReference(w: World, orders: Orders, r: Reference): Reference
    requires w.maxTurnRate > 0.0
  {
    var command := ReferenceCommand(w, orders, r);
    Reference(Obey(w, r.state, command), r.elapsed + command.duration, r.duration, r.start,
              Guidance(w, orders, r.state.pose, r.index, r.start + r.elapsed).1)
  }

  function ReferenceAt(w: World, orders: Orders, r: Reference, n: nat): Reference
    requires w.maxTurnRate > 0.0
  {
    if n == 0 then r else NextReference(w, orders, ReferenceAt(w, orders, r, n - 1))
  }

  /** The first `n` steps of a reference. */
  function Steps(w: World, orders: Orders, r: Reference, n: nat): (line: Line)
    requires w.maxTurnRate > 0.0
    ensures |line.states| == |line.commands| == |line.indices| == n
  {
    if n == 0 then Line([], [], []) else
      var before, after := ReferenceAt(w, orders, r, n - 1), ReferenceAt(w, orders, r, n);
      Join(Steps(w, orders, r, n - 1), Line([after.state], [ReferenceCommand(w, orders, before)], [after.index]))
  }

  ghost predicate Starts(line: Line, r: Reference) {
    line.states != [] && line.states[|line.states| - 1] == r.state
  }

  lemma JoinStep(w: World, orders: Orders, line: Line, r: Reference, n: nat)
    requires w.maxTurnRate > 0.0
    ensures var before, after := ReferenceAt(w, orders, r, n), ReferenceAt(w, orders, r, n + 1);
            Join(line, Steps(w, orders, r, n + 1))
            == Join(Join(line, Steps(w, orders, r, n)), Line([after.state], [ReferenceCommand(w, orders, before)], [after.index]))
  {
  }

  /** The reference goes on for at least `n` steps. */
  ghost predicate Lasts(w: World, orders: Orders, r: Reference, n: nat)
    requires w.maxTurnRate > 0.0
  {
    forall i: nat :: i < n ==> Continues(w, ReferenceAt(w, orders, r, i))
  }

  lemma {:induction false} ReferenceIsSound(w: World, orders: Orders, line: Line, r: Reference, n: nat)
    requires w.Usable() && line.Sound(w) && Starts(line, r) && Lasts(w, orders, r, n)
    ensures Join(line, Steps(w, orders, r, n)).Sound(w)
    ensures Starts(Join(line, Steps(w, orders, r, n)), ReferenceAt(w, orders, r, n))
  {
    hide Chain, Obey;
    LastOf(w, line);
    if n == 0 {
      assert Join(line, Steps(w, orders, r, 0)) == line;
    } else {
      var m := n - 1;
      ReferenceIsSound(w, orders, line, r, m);
      JoinStep(w, orders, line, r, m);
      var so, before := Join(line, Steps(w, orders, r, m)), ReferenceAt(w, orders, r, m);
      assert Continues(w, before);
      StepTaken(w.step, before.elapsed, before.duration);
      ChainAppend(w, so.states, so.commands, ReferenceCommand(w, orders, before));
    }
  }

  /** The heading and the cursor that the orders give at a state, and the speed they ask for. */
  ghost predicate AsOrdered(w: World, orders: Orders, pose: Pose, index: nat, time: real, heading: real, next: nat) {
    match orders
    case Normal => (heading, next) == w.guide(pose, index)
    case Commanded(headingAt, _) => heading == headingAt(time) && next == index
  }

  /** Step `i` of a line rolled out from `start`: it follows the orders, at their speed, for a whole step or
      for what is left of the time. */
  ghost predicate FollowsAt(w: World, orders: Orders, line: Line, start: real, left: real, i: nat) {
    i < |line.commands| && i + 1 < |line.indices| && |line.states| == |line.indices|
    && AsOrdered(w, orders, line.states[i].pose, line.indices[i], start + TotalTime(line.commands[..i]), line.commands[i].heading, line.indices[i + 1])
    && line.commands[i].speed == (if orders.Normal? then w.activitySpeed else orders.speed)
    && line.commands[i].duration == Least(w.step, left - TotalTime(line.commands[..i]))
  }

  /** The time of a reference is that of its commands. */
  lemma {:induction false} ElapsedIsTime(w: World, orders: Orders, r: Reference, n: nat)
    requires w.maxTurnRate > 0.0
    ensures var at := ReferenceAt(w, orders, r, n);
            at.elapsed == r.elapsed + TotalTime(Steps(w, orders, r, n).commands) && at.duration == r.duration && at.start == r.start
  {
    hide Obey, Guidance, OrderedSpeed;
    if n > 0 {
      ElapsedIsTime(w, orders, r, n - 1);
      var before, after := Steps(w, orders, r, n - 1).commands, Steps(w, orders, r, n).commands;
      assert after[..|after| - 1] == before;
    }
  }

  lemma {:induction false} StepsShare(w: World, orders: Orders, r: Reference, i: nat, n: nat)
    requires w.maxTurnRate > 0.0 && i <= n
    ensures var few, all := Steps(w, orders, r, i), Steps(w, orders, r, n);
            few.states == all.states[..i] && few.commands == all.commands[..i] && few.indices == all.indices[..i]
    decreases n - i
  {
    hide ReferenceAt, ReferenceCommand;
    if i < n {
      StepsShare(w, orders, r, i, n - 1);
    }
  }

  lemma ReferenceStep(w: World, orders: Orders, r: Reference)
    requires w.maxTurnRate > 0.0
    ensures var command, next := ReferenceCommand(w, orders, r), NextReference(w, orders, r);
            && AsOrdered(w, orders, r.state.pose, r.index, r.start + r.elapsed, command.heading, next.index)
            && command.speed == (if orders.Normal? then w.activitySpeed else orders.speed)
            && command.duration == Least(w.step, r.duration - r.elapsed)
  {
    hide Obey;
  }

  lemma StepThere(w: World, orders: Orders, r: Reference, n: nat, i: nat)
    requires w.maxTurnRate > 0.0 && i < n
    ensures Steps(w, orders, r, n).commands[i] == ReferenceCommand(w, orders, ReferenceAt(w, orders, r, i))
    ensures Steps(w, orders, r, n).commands[..i] == Steps(w, orders, r, i).commands
    ensures ReferenceAt(w, orders, r, i + 1) == NextReference(w, orders, ReferenceAt(w, orders, r, i))
  {
    hide ReferenceCommand, NextReference;
    var m := i + 1;
    StepsShare(w, orders, r, i, n);
    StepsShare(w, orders, r, m, n);
    assert Steps(w, orders, r, m).commands[i] == ReferenceCommand(w, orders, ReferenceAt(w, orders, r, i));
    assert Steps(w, orders, r, m).commands[i] == Steps(w, orders, r, n).commands[i];
  }

  /** Every step of a rolled-out reference follows the orders at the time it is taken. */
  lemma ReferenceFollows(w: World, orders: Orders, r: Reference, n: nat, i: nat)
    requires w.maxTurnRate > 0.0 && i < n
    ensures FollowsAt(w, orders, Join(Line([r.state], [], [r.index]), Steps(w, orders, r, n)), r.start + r.elapsed, r.duration - r.elapsed, i)
  {
    hide TotalTime, AsOrdered, ReferenceCommand, NextReference, ReferenceAt, Steps;
    var line := Join(Line([r.state], [], [r.index]), Steps(w, orders, r, n));
    StepThere(w, orders, r, n, i);
    ElapsedIsTime(w, orders, r, i);
    ReferenceStep(w, orders, ReferenceAt(w, orders, r, i));
    StateThere(w, orders, r, n, i);
    StateThere(w, orders, r, n, i + 1);
    assert line.commands == Steps(w, orders, r, n).commands;
  }

  lemma StateThere(w: World, orders: Orders, r: Reference, n: nat, i: nat)
    requires w.maxTurnRate > 0.0 && i <= n
    ensures var line, at := Join(Line([r.state], [], [r.index]), Steps(w, orders, r, n)), ReferenceAt(w, orders, r, i);
            line.states[i] == at.state && line.indices[i] == at.index
  {
    hide Obey, NextReference;
    if i > 0 {
      StepsShare(w, orders, r, i, n);
      var k := i - 1;
      assert Steps(w, orders, r, i).states[k] == Steps(w, orders, r, n).states[k];
      assert Steps(w, orders, r, i).indices[k] == Steps(w, orders, r, n).indices[k];
    }
  }

  // --------------------------------------------------------------------- collisions

  ghost predicate FirstUnsafe(w: World, states: seq<MotionState>, i: nat) {
    && i + 1 < |states| && !w.safe(states[i].pose, states[i + 1].pose)
    && forall k: nat :: k < i ==> SegmentSafe(w, states, k)
  }

  lemma FirstUnsafeIsUnsafe(w: World, states: seq<MotionState>, i: nat)
    requires FirstUnsafe(w, states, i)
    ensures !AllSafe(w, states)
  {
    assert !SegmentSafe(w, states, i);
  }

  /** The first unsafe segment, if there is one. */
  method FindCollision(w: World, states: seq<MotionState>) returns (collision: Option<nat>)
    ensures collision.None? <==> AllSafe(w, states)
    ensures collision.Some? ==> FirstUnsafe(w, states, collision.value)
  {
    var i: nat := 0;
    while i + 1 < |states|
      invariant forall k: nat :: k < i ==> SegmentSafe(w, states, k)
    {
      if !w.safe(states[i].pose, states[i + 1].pose) {
        FirstUnsafeIsUnsafe(w, states, i);
        return Some(i);
      }
      i := i + 1;
    }
    return None;
  }

  lemma UnsafeStep(w: World, states: seq<MotionState>, next: MotionState)
    requires states != [] && AllSafe(w, states) && !w.safe(states[|states| - 1].pose, next.pose)
    ensures FirstUnsafe(w, states + [next], |states| - 1)
  {
    forall k: nat | k < |states| - 1
      ensures SegmentSafe(w, states + [next], k)
    {
      assert SegmentSafe(w, states, k);
    }
  }

  // ------------------------------------------------------------------------ resuming

  /** A line continued by commands with new headings, their durations and speeds kept. */
  function Resumed(w: World, orders: Orders, time: real, line: Line, rest: seq<Command>): Line
    requires w.maxTurnRate > 0.0 && line.states != [] && line.indices != []
    decreases |rest|
  {
    if rest == [] then line else
      var last := line.states[|line.states| - 1];
      var steer := Guidance(w, orders, last.pose, line.indices[|line.indices| - 1], time);
      var command := Command(rest[0].duration, steer.0, rest[0].speed);
      Resumed(w, orders, time + rest[0].duration,
              Join(line, Line([Obey(w, last, command)], [command], [steer.1])), rest[1..])
  }

  /** The commands `more` ask for the durations and speeds of `rest`. */
  ghost predicate SamePace(more: seq<Command>, rest: seq<Command>) {
    |more| == |rest|
    && forall i: nat :: i < |rest| ==> more[i].duration == rest[i].duration && more[i].speed == rest[i].speed
  }

  lemma {:induction false} ResumedIsSound(w: World, orders: Orders, time: real, line: Line, rest: seq<Command>)
    requires line.Sound(w) && Timed(rest)
    ensures Resumed(w, orders, time, line, rest).Sound(w)
    ensures line.states <= Resumed(w, orders, time, line, rest).states
    ensures line.commands <= Resumed(w, orders, time, line, rest).commands
    ensures line.indices <= Resumed(w, orders, time, line, rest).indices
    ensures SamePace(Resumed(w, orders, time, line, rest).commands[|line.commands|..], rest)
    decreases |rest|
  {
    hide Chain, Obey;
    if rest != [] {
      LastOf(w, line);
      var last := line.states[|line.states| - 1];
      var steer := Guidance(w, orders, last.pose, line.indices[|line.indices| - 1], time);
      var command := Command(rest[0].duration, steer.0, rest[0].speed);
      var longer := Join(line, Line([Obey(w, last, command)], [command], [steer.1]));
      ChainAppend(w, line.states, line.commands, command);
      ResumedIsSound(w, orders, time + rest[0].duration, longer, rest[1..]);
      var all := Resumed(w, orders, time, line, rest);
      assert all == Resumed(w, orders, time + rest[0].duration, longer, rest[1..]);
      PaceStep(all.commands, line.commands, command, rest);
    } else {
      LastOf(w, line);
    }
  }

  /** Step `i` of a resumed line steers as ordered from where it is, at the time it is taken. */
  ghost predicate SteersAt(w: World, orders: Orders, line: Line, start: real, from: nat, i: nat) {
    from <= i < |line.commands| && i + 1 < |line.indices| && |line.states| == |line.indices|
    && AsOrdered(w, orders, line.states[i].pose, line.indices[i], start + TotalTime(line.commands[from..i]), line.commands[i].heading, line.indices[i + 1])
  }

  /** Every resumed step steers as ordered. */
  lemma {:induction false} ResumedFollows(w: World, orders: Orders, time: real, line: Line, rest: seq<Command>, i: nat)
    requires line.Sound(w) && Timed(rest) && |line.commands| <= i < |line.commands| + |rest|
    ensures SteersAt(w, orders, Resumed(w, orders, time, line, rest), time, |line.commands|, i)
    decreases |rest|
  {
    hide Chain, Obey, TotalTime, AsOrdered, SteersAt, Resumed;
    LastOf(w, line);
    ResumedIsSound(w, orders, time, line, rest);
    LastOf(w, Resumed(w, orders, time, line, rest));
    var from, longer, later := |line.commands|, ResumeStep(w, orders, time, line, rest[0]), time + rest[0].duration;
    ResumeStepIs(w, orders, time, line, rest);
    var all := Resumed(w, orders, time, line, rest);
    if i > from {
      ResumedFollows(w, orders, later, longer, rest[1..], i);
      SteersLater(w, orders, all, time, later, from, i);
    } else {
      ResumedIsSound(w, orders, later, longer, rest[1..]);
      SteersFirst(w, orders, time, line, rest, all);
    }
  }

  /** One resumed step. */
  function ResumeStep(w: World, orders: Orders, time: real, line: Line, command: Command): Line
    requires w.maxTurnRate > 0.0 && line.states != [] && line.indices != []
  {
    var last := line.states[|line.states| - 1];
    var steer := Guidance(w, orders, last.pose, line.indices[|line.indices| - 1], time);
    var steered := Command(command.duration, steer.0, command.speed);
    Join(line, Line([Obey(w, last, steered)], [steered], [steer.1]))
  }

  lemma ResumeStepIs(w: World, orders: Orders, time: real, line: Line, rest: seq<Command>)
    requires line.Sound(w) && rest != [] && Timed(rest)
    ensures |line.states| == |line.indices| == |line.commands| + 1 && w.maxTurnRate > 0.0
    ensures var longer := ResumeStep(w, orders, time, line, rest[0]);
            && longer.Sound(w) && Timed(rest[1..]) && |longer.commands| == |line.commands| + 1
            && Resumed(w, orders, time, line, rest) == Resumed(w, orders, time + rest[0].duration, longer, rest[1..])
    ensures |line.commands| < |Resumed(w, orders, time, line, rest).commands|
            && Resumed(w, orders, time, line, rest).commands[|line.commands|].duration == rest[0].duration
  {
    hide Obey;
    LastOf(w, line);
    var last := line.states[|line.states| - 1];
    var steer := Guidance(w, orders, last.pose, line.indices[|line.indices| - 1], time);
    ChainAppend(w, line.states, line.commands, Command(rest[0].duration, steer.0, rest[0].speed));
    ResumedIsSound(w, orders, time, line, rest);
  }

  lemma SteersLater(w: World, orders: Orders, all: Line, time: real, later: real, from: nat, i: nat)
    requires SteersAt(w, orders, all, later, from + 1, i) && later == time + all.commands[from].duration
    ensures SteersAt(w, orders, all, time, from, i)
  {
    hide AsOrdered, TotalTime;
    FirstAside(all.commands[from..i]);
    assert all.commands[from..i][1..] == all.commands[from + 1..i];
  }

  lemma {:induction false} FirstAside(commands: seq<Command>)
    requires commands != []
    ensures TotalTime(commands) == commands[0].duration + TotalTime(commands[1..])
  {
    var k := |commands| - 1;
    if k > 0 {
      FirstAside(commands[..k]);
      assert commands[..k][1..] == commands[1..][..k - 1];
    } else {
      assert commands[..0] == [] && commands[1..] == [];
    }
  }

  lemma SteersFirst(w: World, orders: Orders, time: real, line: Line, rest: seq<Command>, all: Line)
    requires line.Sound(w) && rest != [] && all.Sound(w)
    requires w.maxTurnRate > 0.0 && line.states != [] && line.indices != []
    requires var longer := ResumeStep(w, orders, time, line, rest[0]);
             longer.states <= all.states && longer.commands <= all.commands && longer.indices <= all.indices
    ensures SteersAt(w, orders, all, time, |line.commands|, |line.commands|)
  {
    hide Obey;
    LastOf(w, line);
    LastOf(w, all);
    var k := |line.commands|;
    assert all.commands[k..k] == [];
    var longer := ResumeStep(w, orders, time, line, rest[0]);
    assert longer.states[k] == all.states[k] && longer.commands[k] == all.commands[k];
    assert longer.indices[k] == all.indices[k] && longer.indices[k + 1] == all.indices[k + 1];
  }

  lemma LastOf(w: World, line: Line)
    requires line.Sound(w)
    ensures w.maxTurnRate > 0.0 && |line.states| == |line.indices| == |line.commands| + 1
  {
  }

  lemma PaceStep(all: seq<Command>, before: seq<Command>, command: Command, rest: seq<Command>)
    requires before + [command] <= all && rest != []
    requires command.duration == rest[0].duration && command.speed == rest[0].speed
    requires SamePace(all[|before| + 1..], rest[1..])
    ensures before <= all && SamePace(all[|before|..], rest)
  {
    var more := all[|before|..];
    assert more == [command] + all[|before| + 1..];
    forall i: nat | i < |rest|
      ensures more[i].duration == rest[i].duration && more[i].speed == rest[i].speed
    {
      if i > 0 {
        var k := i - 1;
        assert more[i] == all[|before| + 1..][k] && rest[i] == rest[1..][k];
      }
    }
  }

  method Resume(w: World, orders: Orders, start: real, line0: Line, rest: seq<Command>) returns (line: Line)
    requires w.maxTurnRate > 0.0 && line0.states != [] && line0.indices != []
    ensures line == Resumed(w, orders, start, line0, rest)
  {
    hide Obey, Guidance;
    line := line0;
    var time := start;
    for i := 0 to |rest|
      invariant line.states != [] && line.indices != []
      invariant Resumed(w, orders, time, line, rest[i..]) == Resumed(w, orders, start, line0, rest)
    {
      var state, index := line.states[|line.states| - 1], line.indices[|line.indices| - 1];
      var steer := Guidance(w, orders, state.pose, index, time);
      var command := Command(rest[i].duration, steer.0, rest[i].speed);
      assert rest[i..][0] == rest[i] && rest[i..][1..] == rest[i + 1..];
      line := Join(line, Line([Obey(w, state, command)], [command], [steer.1]));
      time := time + rest[i].duration;
    }
    assert rest[|rest|..] == [];
  }

  // ------------------------------------------------------------------------- splices

  function TotalTime(commands: seq<Command>): real {
    if commands == [] then 0.0 else TotalTime(commands[..|commands| - 1]) + commands[|commands| - 1].duration
  }

  method SumDurations(commands: seq<Command>) returns (total: real)
    ensures total == TotalTime(commands)
  {
    total := 0.0;
    for i := 0 to |commands|
      invariant total == TotalTime(commands[..i])
    {
      assert commands[..i + 1][..i] == commands[..i];
      total := total + commands[i].duration;
    }
    assert commands[..|commands|] == commands;
  }

  function Repeated(index: nat, n: nat): (r: seq<nat>)
    ensures |r| == n && forall i: nat :: i < n ==> r[i] == index
  {
    seq(n, i => index)
  }

  /** The approach, then the detour with the cursor held where the approach left it until
      the goal is reached. */
  function Stitched(from: Line, anchor: nat, goal: nat, detour: seq<MotionState>, commands: seq<Command>): Line
    requires anchor < goal < |from.states| && |from.indices| == |from.states| == |from.commands| + 1
    requires |detour| == |commands| + 1
  {
    Line(from.states[..anchor] + detour, from.commands[..anchor] + commands,
         from.indices[..anchor] + Repeated(from.indices[anchor], |detour| - 1) + [from.indices[goal]])
  }

  ghost predicate UnderWay(w: World, start: MotionState, speed: real, states: seq<MotionState>, commands: seq<Command>) {
    && Chain(w, states, commands) && AllSafe(w, states) && states[0] == start
    && forall c :: c in commands ==> c.duration == w.step && c.speed == speed
  }

  /** A drive along a detour: safe, at one speed, in whole steps, from a given state. */
  ghost predicate SafeDrive(w: World, start: MotionState, speed: real, detour: seq<MotionState>, commands: seq<Command>) {
    UnderWay(w, start, speed, detour, commands) && commands != []
  }

  /** Where a splice leaves the line and rejoins it: around the first collision, at a state
      with room to spare. */
  ghost predicate SplicePoints(w: World, from: Line, anchor: nat, collision: nat, goal: nat) {
    && anchor <= collision < goal < |from.states| && FirstUnsafe(w, from.states, collision)
    && w.roomy(from.states[goal].pose)
  }

  ghost predicate Spliced(w: World, orders: Orders, now: real, from: Line, to: Line, anchor: nat, collision: nat, goal: nat,
                          detour: seq<MotionState>, commands: seq<Command>)
  {
    && from.Sound(w) && SplicePoints(w, from, anchor, collision, goal)
    && SafeDrive(w, from.states[anchor], from.commands[anchor].speed, detour, commands)
    && var stitched := Stitched(from, anchor, goal, detour, commands);
       to == Resumed(w, orders, now + TotalTime(stitched.commands), stitched, from.commands[goal..])
  }

  lemma StitchedIsSound(w: World, from: Line, anchor: nat, collision: nat, goal: nat,
                        detour: seq<MotionState>, commands: seq<Command>)
    requires w.Usable() && from.Sound(w) && SplicePoints(w, from, anchor, collision, goal)
    requires SafeDrive(w, from.states[anchor], from.commands[anchor].speed, detour, commands)
    ensures |from.indices| == |from.states| == |from.commands| + 1 && |detour| == |commands| + 1
    ensures var stitched := Stitched(from, anchor, goal, detour, commands);
            stitched.Sound(w) && AllSafe(w, stitched.states) && stitched.states[0] == from.states[0]
  {
    ChainSplice(w, from.states, from.commands, anchor, detour, commands);
    SafeSplice(w, from.states, anchor, collision, detour);
  }

  lemma SafeSplice(w: World, states: seq<MotionState>, anchor: nat, collision: nat, detour: seq<MotionState>)
    requires anchor <= collision && FirstUnsafe(w, states, collision)
    requires AllSafe(w, detour) && detour != [] && detour[0] == states[anchor]
    ensures AllSafe(w, states[..anchor] + detour)
  {
    var all := states[..anchor] + detour;
    forall i: nat | i < |all|
      ensures SegmentSafe(w, all, i)
    {
      if i < anchor {
        assert SegmentSafe(w, states, i);
      } else {
        var k: nat := i - anchor;
        assert SegmentSafe(w, detour, k);
        assert all[i] == detour[k];
        assert i + 1 < |all| ==> all[i + 1] == detour[k + 1];
      }
    }
  }

  /** A splice keeps a chain a chain, keeps where it starts, and is safe up to its rejoin;
      after that it repeats the pace of what it rejoins. */
  lemma SpliceIsSound(w: World, orders: Orders, now: real, from: Line, to: Line, anchor: nat, collision: nat, goal: nat,
                      detour: seq<MotionState>, commands: seq<Command>)
    requires w.Usable() && Spliced(w, orders, now, from, to, anchor, collision, goal, detour, commands)
    ensures to.Sound(w) && to.states[0] == from.states[0]
    ensures from.states[..anchor] + detour <= to.states && AllSafe(w, from.states[..anchor] + detour)
    ensures |from.commands[..anchor] + commands| <= |to.commands|
    ensures SamePace(to.commands[|from.commands[..anchor] + commands|..], from.commands[goal..])
  {
    hide Chain, AllSafe, FirstUnsafe, Resumed, SafeDrive, SamePace, TotalTime;
    StitchedIsSound(w, from, anchor, collision, goal, detour, commands);
    var stitched := Stitched(from, anchor, goal, detour, commands);
    ResumedIsSound(w, orders, now + TotalTime(stitched.commands), stitched, from.commands[goal..]);
    LastOf(w, stitched);
  }

  /** `to` is `from` after `n` splices. */
  ghost predicate Detoured(w: World, orders: Orders, now: real, from: Line, to: Line, n: nat)
    decreases n
  {
    if n == 0 then to == from else
      exists mid: Line, anchor: nat, collision: nat, goal: nat, detour: seq<MotionState>, commands: seq<Command> ::
        Spliced(w, orders, now, from, mid, anchor, collision, goal, detour, commands) && Detoured(w, orders, now, mid, to, n - 1)
  }

  lemma DetouredStep(w: World, orders: Orders, now: real, from: Line, mid: Line, to: Line, anchor: nat, collision: nat, goal: nat,
                     detour: seq<MotionState>, commands: seq<Command>, n: nat)
    requires Spliced(w, orders, now, from, mid, anchor, collision, goal, detour, commands)
    requires Detoured(w, orders, now, mid, to, n)
    ensures Detoured(w, orders, now, from, to, n + 1)
  {
    hide Spliced;
    var more := n + 1;
    assert Detoured(w, orders, now, mid, to, more - 1);
  }

  /** However many splices it takes, a route stays a chain from where it started. */
  lemma {:induction false} DetouredIsSound(w: World, orders: Orders, now: real, from: Line, to: Line, n: nat)
    requires w.Usable() && from.Sound(w) && Detoured(w, orders, now, from, to, n)
    ensures to.Sound(w) && to.states[0] == from.states[0]
    ensures n == 0 ==> to == from
    ensures n > 0 ==> !AllSafe(w, from.states)
    decreases n
  {
    hide Chain, AllSafe, Resumed, SafeDrive, TotalTime, Stitched, Line.Sound;
    if n > 0 {
      var mid: Line, anchor: nat, collision: nat, goal: nat, detour: seq<MotionState>, commands: seq<Command> :|
        Spliced(w, orders, now, from, mid, anchor, collision, goal, detour, commands)
        && Detoured(w, orders, now, mid, to, n - 1);
      SpliceIsSound(w, orders, now, from, mid, anchor, collision, goal, detour, commands);
      FirstUnsafeIsUnsafe(w, from.states, collision);
      DetouredIsSound(w, orders, now, mid, to, n - 1);
    }
  }

  // ---------------------------------------------------------------------- dimensions

  function Cells(w: World, knots: real): real
    requires w.Usable()
  {
    knots * 1.852 / 60.0 / w.cellSize
  }

  function TopSpeed(states: seq<MotionState>): (top: real)
    requires states != []
    ensures forall s :: s in states ==> s.speed <= top
    ensures exists s :: s in states && s.speed == top
  {
    if |states| == 1 then assert states[0] in states; states[0].speed else
      var rest := TopSpeed(states[1..]);
      assert forall s :: s in states ==> s == states[0] || s in states[1..];
      if rest < states[0].speed then assert states[0] in states; states[0].speed else rest
  }

  function TurningRadius(w: World, cells: real): real
    requires w.Usable()
  {
    Most(0.1, cells * (1.0 / w.maxTurnRate + w.yawTimeConstant + 1.0 / w.headingGain))
  }

  function Ceiling(x: real): int { -((-x).Floor) }

  /** The radius is made of the tightest turn, the way sailed while it sets in, and that while the heading settles. */
  lemma TurningRadiusMeans(w: World, cells: real)
    requires w.Usable()
    ensures TurningRadius(w, cells) >= 0.1
    ensures var way := cells / w.maxTurnRate + cells * w.yawTimeConstant + cells / w.headingGain;
            if way >= 0.1 then TurningRadius(w, cells) == way else TurningRadius(w, cells) == 0.1
  {
    var a, b, c := 1.0 / w.maxTurnRate, w.yawTimeConstant, 1.0 / w.headingGain;
    Distribute(cells, a, b, c);
    Divided(cells, w.maxTurnRate);
    Divided(cells, w.headingGain);
  }

  lemma Distribute(x: real, a: real, b: real, c: real)
    ensures x * (a + b + c) == x * a + x * b + x * c
  {
  }

  lemma Divided(x: real, y: real)
    requires y > 0.0
    ensures x * (1.0 / y) == x / y
  {
  }

  /** Speeds are in knots, distances in cells and times in minutes: an hour at a speed covers 1.852 kilometres for each
      knot. */
  lemma CellsMeans(w: World, knots: real)
    requires w.Usable()
    ensures Cells(w, knots) * 60.0 * w.cellSize == knots * 1.852
  {
  }

  /** The look-ahead covers three turning radii, and the clearance twice, once in full cells. */
  lemma ApproachTimeMeans(w: World, cells: real, radius: real)
    requires cells >= 0.000001
    ensures var rounded := ApproachTime(w, cells, radius) * cells - 3.0 * radius - w.clearance;
            w.clearance <= rounded < w.clearance + 1.0 && rounded.Floor as real == rounded
  {
    var n := Ceiling(w.clearance);
    var x := 3.0 * radius + n as real + w.clearance;
    assert x / cells * cells == x;
    assert (n as real).Floor == n;
    assert ApproachTime(w, cells, radius) * cells - 3.0 * radius - w.clearance == n as real;
  }

  /** A drive has arrived within the way of a step at the higher of its two speeds, and within 0.12 cells in any case. */
  lemma ReachMeans(w: World, initial: MotionState, speed: real)
    requires w.Usable()
    ensures var r, top := Reach(w, initial, speed), if initial.speed < speed then speed else initial.speed;
            r >= 0.12 && r >= Cells(w, top) * w.step && (r == 0.12 || r == Cells(w, top) * w.step)
  {
  }

  function ApproachTime(w: World, cells: real, radius: real): real {
    (3.0 * radius + Ceiling(w.clearance) as real + w.clearance) / Most(cells, 0.000001)
  }

  // ------------------------------------------------------------------- choosing goals

  ghost predicate Ascending(s: seq<nat>) { forall i, j :: 0 <= i < j < |s| ==> s[i] < s[j] }
  ghost predicate Descending(s: seq<nat>) { forall i, j :: 0 <= i < j < |s| ==> s[i] > s[j] }

  /** The states from `first` on with room around them. */
  function Candidates(w: World, states: seq<MotionState>, first: nat): (r: seq<nat>)
    ensures forall j: nat :: j in r <==> first <= j < |states| && w.roomy(states[j].pose)
    ensures Ascending(r)
    decreases |states| - first
  {
    if first >= |states| then [] else
      var rest := Candidates(w, states, first + 1);
      if !w.roomy(states[first].pose) then rest else
        AscendPair(first, rest);
        [first] + rest
  }

  lemma AscendPair(first: nat, rest: seq<nat>)
    requires Ascending(rest) && forall j :: j in rest ==> first < j
    ensures Ascending([first] + rest)
  {
    assert forall i: nat :: i < |rest| ==> rest[i] in rest;
  }

  lemma AscendSplit(s: seq<nat>)
    requires Ascending(s) && s != []
    ensures Ascending(s[..|s| - 1]) && forall j :: j in s <==> j in s[..|s| - 1] || j == s[|s| - 1]
    ensures var before, last := s[..|s| - 1], s[|s| - 1]; forall j :: j in before ==> j < last
  {
    assert s == s[..|s| - 1] + [s[|s| - 1]];
  }

  lemma AscendLast(rest: seq<nat>, last: nat)
    requires Ascending(rest) && forall j :: j in rest ==> j < last
    ensures Ascending(rest + [last])
  {
    assert forall i: nat :: i < |rest| ==> rest[i] in rest;
  }

  /** Those candidates at least `room` from where the collision is. */
  function Distant(w: World, states: seq<MotionState>, collision: nat, candidates: seq<nat>, room: real): (r: seq<nat>)
    requires collision < |states| && Ascending(candidates)
    requires forall i: nat :: i < |candidates| ==> candidates[i] < |states|
    ensures forall j :: j in r <==> j in candidates && w.distance(states[j].pose, states[collision].pose) >= room
    ensures Ascending(r)
  {
    if candidates == [] then [] else
      AscendSplit(candidates);
      var k := |candidates| - 1;
      var last, rest := candidates[k], Distant(w, states, collision, candidates[..k], room);
      if w.distance(states[last].pose, states[collision].pose) < room then rest else
        AscendLast(rest, last);
        rest + [last]
  }

  /** At most three goals: the first, the middle and the last choice, furthest first when
      none of the candidates is far away. */
  function Goals(candidates: seq<nat>, distant: seq<nat>): (r: seq<nat>)
    requires candidates != [] && Ascending(candidates) && Ascending(distant)
    ensures r != [] && |r| <= 3
    ensures forall j :: j in r ==> j in if distant == [] then candidates else distant
    ensures distant != [] ==> Ascending(r) && r[0] == distant[0]
    ensures distant == [] ==> Descending(r) && r[0] == candidates[|candidates| - 1]
    ensures var choices := if distant == [] then candidates else distant;
            forall j :: j in r <==> j == choices[0] || j == choices[|choices| / 2] || j == choices[|choices| - 1]
  {
    var choices := if distant == [] then candidates else distant;
    var first, middle, last := choices[0], choices[|choices| / 2], choices[|choices| - 1];
    assert first <= middle <= last;
    var low := if middle == first then [first] else [first, middle];
    var high := if middle == first then [middle] else [middle, first];
    if distant != [] then low + (if last == middle then [] else [last])
    else (if last == middle then [] else [last]) + high
  }

  /** The last state, up to the collision, with room to turn before it; the first state if there is none. */
  ghost predicate IsAnchor(w: World, states: seq<MotionState>, collision: nat, room: real, anchor: nat) {
    && anchor <= collision < |states|
    && (anchor == 0 || w.distance(states[anchor].pose, states[collision].pose) >= room)
    && forall k: nat :: anchor < k <= collision ==> w.distance(states[k].pose, states[collision].pose) < room
  }

  /** Walk back from the collision until there is room to turn. */
  method Approach(w: World, states: seq<MotionState>, collision: nat, room: real) returns (anchor: nat)
    requires collision < |states|
    ensures IsAnchor(w, states, collision, room, anchor)
  {
    anchor := collision;
    while anchor > 0 && w.distance(states[anchor].pose, states[collision].pose) < room
      invariant anchor <= collision
      invariant forall k :: anchor < k <= collision ==> w.distance(states[k].pose, states[collision].pose) < room
    {
      anchor := anchor - 1;
    }
  }

  // -------------------------------------------------------------------- the geometry

  function Length(w: World, geometry: seq<Pose>): real {
    if |geometry| < 2 then 0.0
    else
      var last := |geometry| - 1;
      Length(w, geometry[..last]) + w.distance(geometry[last - 1], geometry[last])
  }

  method PathLength(w: World, geometry: seq<Pose>) returns (length: real)
    ensures length == Length(w, geometry)
  {
    length := 0.0;
    var i := 1;
    while i < |geometry|
      invariant 1 <= i && (i <= |geometry| ==> length == Length(w, geometry[..i]))
      invariant i <= |geometry| || |geometry| < 2
      invariant |geometry| < 2 ==> length == 0.0
    {
      assert geometry[..i + 1][..i] == geometry[..i];
      length := length + w.distance(geometry[i - 1], geometry[i]);
      i := i + 1;
    }
    assert i == |geometry| ==> geometry[..i] == geometry;
  }

  /** How near the end of a path counts as there. */
  function Reach(w: World, initial: MotionState, speed: real): real
    requires w.Usable()
  {
    Most(0.12, Cells(w, Most(speed, initial.speed)) * w.step)
  }

  function TurnAhead(w: World, cells: real): real
    requires w.Usable()
  {
    Most(0.25, cells * (w.yawTimeConstant + 1.0 / w.headingGain))
  }

  function StepLimit(w: World, cells: real, length: real): int
    requires w.Usable()
  {
    Ceiling((length / Most(cells, 0.000001) * 3.0 + 10.0) / w.step)
  }

  /** Only the last state of a drive is within reach of its end. */
  ghost predicate Arrives(w: World, states: seq<MotionState>, end: Pose, reach: real) {
    states != [] && forall i: nat :: 0 < i < |states| ==>
      (w.distance(states[i].pose, end) < reach <==> i == |states| - 1)
  }

  ghost predicate NotThere(w: World, states: seq<MotionState>, end: Pose, reach: real) {
    forall i: nat :: 0 < i < |states| ==> w.distance(states[i].pose, end) >= reach
  }

  lemma UnderWayStep(w: World, start: MotionState, speed: real, states: seq<MotionState>, commands: seq<Command>, heading: real)
    requires UnderWay(w, start, speed, states, commands)
    requires w.maxTurnRate > 0.0 && states != []
    requires var next := Obey(w, states[|states| - 1], Command(w.step, heading, speed));
             w.safe(states[|states| - 1].pose, next.pose)
    ensures var command := Command(w.step, heading, speed);
            SafeDrive(w, start, speed, states + [Obey(w, states[|states| - 1], command)], commands + [command])
  {
    hide Obey;
    var command := Command(w.step, heading, speed);
    ChainAppend(w, states, commands, command);
    SafeAppend(w, states, Obey(w, states[|states| - 1], command));
  }

  lemma SetOut(w: World, start: MotionState, speed: real)
    requires w.maxTurnRate > 0.0
    ensures UnderWay(w, start, speed, [start], [])
  {
  }

  /** The next corner is no farther than this one. */
  ghost predicate Passed(w: World, pose: Pose, geometry: seq<Pose>, k: nat) {
    k + 1 < |geometry| && w.distance(pose, geometry[k + 1]) <= w.distance(pose, geometry[k])
  }

  /** Progress along a path is local and never goes back: it stops at the first corner not passed yet, and
      before the last one. */
  ghost predicate ProgressTo(w: World, pose: Pose, geometry: seq<Pose>, from: nat, index: nat) {
    && from <= index && index + 1 < |geometry|
    && (index + 2 == |geometry| || !Passed(w, pose, geometry, index))
    && forall k: nat :: from <= k < index ==> Passed(w, pose, geometry, k)
  }

  /** The corner to steer for: the first one ahead that is out of reach, or the last. */
  ghost predicate Steers(w: World, pose: Pose, geometry: seq<Pose>, index: nat, ahead: real, target: nat) {
    && index < target < |geometry|
    && (target + 1 == |geometry| || w.distance(pose, geometry[target]) >= ahead)
    && forall k: nat :: index < k < target ==> w.distance(pose, geometry[k]) < ahead
  }

  method Corner(w: World, pose: Pose, geometry: seq<Pose>, from: nat, ahead: real) returns (index: nat, target: nat)
    requires from + 1 < |geometry|
    ensures ProgressTo(w, pose, geometry, from, index) && Steers(w, pose, geometry, index, ahead, target)
  {
    index := from;
    while index < |geometry| - 2 && w.distance(pose, geometry[index + 1]) <= w.distance(pose, geometry[index])
      invariant from <= index < |geometry| - 1
      invariant forall k: nat :: from <= k < index ==> Passed(w, pose, geometry, k)
    {
      assert Passed(w, pose, geometry, index);
      index := index + 1;
    }
    target := index + 1;
    while target < |geometry| - 1 && w.distance(pose, geometry[target]) < ahead
      invariant index < target < |geometry|
      invariant forall k: nat :: index < k < target ==> w.distance(pose, geometry[k]) < ahead
    {
      target := target + 1;
    }
  }

  /** A step steered for a corner of the path. */
  ghost predicate Steered(w: World, geometry: seq<Pose>, speed: real, ahead: real, pose: Pose, from: nat, index: nat, command: Command) {
    ProgressTo(w, pose, geometry, from, index)
    && exists target: nat :: Steers(w, pose, geometry, index, ahead, target)
                             && command == Command(w.step, w.bearing(pose, geometry[target]), speed)
  }

  /** There is one corner to steer for. */
  lemma SteeredOnce(w: World, geometry: seq<Pose>, speed: real, ahead: real, pose: Pose, from: nat, i: nat, j: nat, c: Command, d: Command)
    requires Steered(w, geometry, speed, ahead, pose, from, i, c) && Steered(w, geometry, speed, ahead, pose, from, j, d)
    ensures i == j && c == d
  {
    assert i < j ==> Passed(w, pose, geometry, i);
    assert j < i ==> Passed(w, pose, geometry, j);
  }

  /** The course steered along a path: `progress` counts the corners passed. */
  ghost predicate Course(w: World, initial: MotionState, geometry: seq<Pose>, speed: real,
                         states: seq<MotionState>, commands: seq<Command>, progress: seq<nat>)
  {
    && w.Usable() && Chain(w, states, commands) && states[0] == initial && |progress| == |states| && progress[0] == 0
    && forall i: nat :: i < |commands| ==> CourseStep(w, initial, geometry, speed, states, commands, progress, i)
  }

  ghost predicate CourseStep(w: World, initial: MotionState, geometry: seq<Pose>, speed: real,
                             states: seq<MotionState>, commands: seq<Command>, progress: seq<nat>, i: nat)
    requires w.Usable()
  {
    i < |states| && i < |commands| && i + 1 < |progress|
    && Steered(w, geometry, speed, Lookahead(w, initial, speed), states[i].pose, progress[i], progress[i + 1], commands[i])
  }

  function Lookahead(w: World, initial: MotionState, speed: real): real
    requires w.Usable()
  {
    TurnAhead(w, Cells(w, Most(speed, initial.speed)))
  }

  function DriveLimit(w: World, initial: MotionState, geometry: seq<Pose>, speed: real): int
    requires w.Usable()
  {
    StepLimit(w, Cells(w, Most(speed, initial.speed)), Length(w, geometry))
  }

  /** The drive along a path: the course, safe all the way, up to the first state near the path's end, within the limit. */
  ghost predicate Drives(w: World, initial: MotionState, geometry: seq<Pose>, speed: real, states: seq<MotionState>, commands: seq<Command>) {
    && w.Usable() && |geometry| >= 2 && 0 < |commands| <= DriveLimit(w, initial, geometry, speed)
    && (exists progress :: Course(w, initial, geometry, speed, states, commands, progress))
    && AllSafe(w, states) && Arrives(w, states, geometry[|geometry| - 1], Reach(w, initial, speed))
  }

  /** Two courses along one path agree as far as both go. */
  lemma {:induction false} CoursesAgree(w: World, initial: MotionState, geometry: seq<Pose>, speed: real,
                                        s: seq<MotionState>, c: seq<Command>, p: seq<nat>,
                                        t: seq<MotionState>, d: seq<Command>, q: seq<nat>, i: nat)
    requires Course(w, initial, geometry, speed, s, c, p) && Course(w, initial, geometry, speed, t, d, q)
    requires i <= |c| && i <= |d|
    ensures |s| == |p| == |c| + 1 && |t| == |q| == |d| + 1
    ensures s[i] == t[i] && p[i] == q[i] && (i > 0 ==> c[i - 1] == d[i - 1])
  {
    hide Steered, Obey;
    if i > 0 {
      var k := i - 1;
      CoursesAgree(w, initial, geometry, speed, s, c, p, t, d, q, k);
      assert CourseStep(w, initial, geometry, speed, s, c, p, k) && CourseStep(w, initial, geometry, speed, t, d, q, k);
      SteeredOnce(w, geometry, speed, Lookahead(w, initial, speed), s[k].pose, p[k], p[k + 1], q[k + 1], c[k], d[k]);
      assert s[k + 1] == Obey(w, s[k], c[k]) && t[k + 1] == Obey(w, t[k], d[k]);
    }
  }

  /** The shorter of two courses along one path is the beginning of the longer. */
  lemma CoursesShare(w: World, initial: MotionState, geometry: seq<Pose>, speed: real,
                     s: seq<MotionState>, c: seq<Command>, p: seq<nat>,
                     t: seq<MotionState>, d: seq<Command>, q: seq<nat>)
    requires Course(w, initial, geometry, speed, s, c, p) && Course(w, initial, geometry, speed, t, d, q) && |c| <= |d|
    ensures |s| == |c| + 1 && s <= t && c <= d
  {
    hide Course;
    CourseSizes(w, initial, geometry, speed, s, c, p);
    CourseSizes(w, initial, geometry, speed, t, d, q);
    forall i: nat | i <= |c|
      ensures s[i] == t[i] && (i > 0 ==> c[i - 1] == d[i - 1])
    {
      CoursesAgree(w, initial, geometry, speed, s, c, p, t, d, q, i);
    }
    forall i: nat | i < |c|
      ensures c[i] == d[i]
    {
      CoursesAgree(w, initial, geometry, speed, s, c, p, t, d, q, i + 1);
    }
  }

  lemma ArrivesOnce(w: World, s: seq<MotionState>, t: seq<MotionState>, end: Pose, reach: real)
    requires Arrives(w, s, end, reach) && Arrives(w, t, end, reach) && |s| > 1 && s <= t
    ensures s == t
  {
    var last := |s| - 1;
    assert s[last] == t[last];
  }

  /** A path has at most one drive. */
  lemma DrivesOnce(w: World, initial: MotionState, geometry: seq<Pose>, speed: real,
                   s: seq<MotionState>, c: seq<Command>, t: seq<MotionState>, d: seq<Command>)
    requires Drives(w, initial, geometry, speed, s, c) && Drives(w, initial, geometry, speed, t, d)
    ensures s == t && c == d
  {
    hide Course, AllSafe, Arrives, DriveLimit, Reach;
    var p :| Course(w, initial, geometry, speed, s, c, p);
    var q :| Course(w, initial, geometry, speed, t, d, q);
    CourseSizes(w, initial, geometry, speed, s, c, p);
    CourseSizes(w, initial, geometry, speed, t, d, q);
    if |c| <= |d| {
      CoursesShare(w, initial, geometry, speed, s, c, p, t, d, q);
      ArrivesOnce(w, s, t, geometry[|geometry| - 1], Reach(w, initial, speed));
    } else {
      CoursesShare(w, initial, geometry, speed, t, d, q, s, c, p);
      ArrivesOnce(w, t, s, geometry[|geometry| - 1], Reach(w, initial, speed));
    }
  }

  /** A course not there yet that cannot go on safely, or has used its steps up, leads to no drive. */
  lemma NoDrive(w: World, initial: MotionState, geometry: seq<Pose>, speed: real,
                s: seq<MotionState>, c: seq<Command>, p: seq<nat>, index: nat, command: Command)
    requires |geometry| >= 2 && Course(w, initial, geometry, speed, s, c, p)
    requires NotThere(w, s, geometry[|geometry| - 1], Reach(w, initial, speed)) && |s| == |c| + 1 == |p|
    requires || |c| >= DriveLimit(w, initial, geometry, speed)
             || (Steered(w, geometry, speed, Lookahead(w, initial, speed), s[|c|].pose, p[|c|], index, command)
                 && !w.safe(s[|c|].pose, Obey(w, s[|c|], command).pose))
    ensures forall t, d :: !Drives(w, initial, geometry, speed, t, d)
  {
    hide *;
    forall t: seq<MotionState>, d: seq<Command>
      ensures !Drives(w, initial, geometry, speed, t, d)
    {
      NotThisDrive(w, initial, geometry, speed, s, c, p, index, command, t, d);
    }
  }

  lemma NotThisDrive(w: World, initial: MotionState, geometry: seq<Pose>, speed: real,
                     s: seq<MotionState>, c: seq<Command>, p: seq<nat>, index: nat, command: Command,
                     t: seq<MotionState>, d: seq<Command>)
    requires |geometry| >= 2 && Course(w, initial, geometry, speed, s, c, p)
    requires NotThere(w, s, geometry[|geometry| - 1], Reach(w, initial, speed)) && |s| == |c| + 1 == |p|
    requires || |c| >= DriveLimit(w, initial, geometry, speed)
             || (Steered(w, geometry, speed, Lookahead(w, initial, speed), s[|c|].pose, p[|c|], index, command)
                 && !w.safe(s[|c|].pose, Obey(w, s[|c|], command).pose))
    ensures !Drives(w, initial, geometry, speed, t, d)
  {
    hide Course, Steered, Obey, Arrives, Reach, AllSafe, DriveLimit, NotThere;
    if Drives(w, initial, geometry, speed, t, d) {
      var q :| Course(w, initial, geometry, speed, t, d, q);
      CourseSizes(w, initial, geometry, speed, t, d, q);
      if |d| <= |c| {
        CoursesShare(w, initial, geometry, speed, t, d, q, s, c, p);
        CannotBeThere(w, s, t, geometry[|geometry| - 1], Reach(w, initial, speed));
      } else {
        GoesOnSafely(w, initial, geometry, speed, s, c, p, index, command, t, d, q);
      }
    }
  }

  lemma CannotBeThere(w: World, s: seq<MotionState>, t: seq<MotionState>, end: Pose, reach: real)
    requires NotThere(w, s, end, reach) && |t| > 1 && t <= s
    ensures !Arrives(w, t, end, reach)
  {
    var last := |t| - 1;
    assert s[last] == t[last];
  }

  lemma GoesOnSafely(w: World, initial: MotionState, geometry: seq<Pose>, speed: real,
                     s: seq<MotionState>, c: seq<Command>, p: seq<nat>, index: nat, command: Command,
                     t: seq<MotionState>, d: seq<Command>, q: seq<nat>)
    requires Course(w, initial, geometry, speed, s, c, p) && Course(w, initial, geometry, speed, t, d, q)
    requires |s| == |c| + 1 == |p| && |d| > |c| && AllSafe(w, t)
    requires Steered(w, geometry, speed, Lookahead(w, initial, speed), s[|c|].pose, p[|c|], index, command)
    ensures w.maxTurnRate > 0.0 && w.safe(s[|c|].pose, Obey(w, s[|c|], command).pose)
  {
    hide Steered, Obey;
    var n := |c|;
    CoursesAgree(w, initial, geometry, speed, s, c, p, t, d, q, n);
    assert CourseStep(w, initial, geometry, speed, t, d, q, n);
    SteeredOnce(w, geometry, speed, Lookahead(w, initial, speed), s[n].pose, p[n], index, q[n + 1], command, d[n]);
    assert t[n + 1] == Obey(w, t[n], d[n]);
    assert SegmentSafe(w, t, n);
  }

  lemma CourseNext(w: World, initial: MotionState, geometry: seq<Pose>, speed: real,
                   s: seq<MotionState>, c: seq<Command>, p: seq<nat>, index: nat, command: Command)
    requires Course(w, initial, geometry, speed, s, c, p) && |s| == |c| + 1 == |p|
    requires Steered(w, geometry, speed, Lookahead(w, initial, speed), s[|c|].pose, p[|c|], index, command)
    ensures Course(w, initial, geometry, speed, s + [Obey(w, s[|c|], command)], c + [command], p + [index])
  {
    hide Steered, Obey;
    var t, d, q := s + [Obey(w, s[|c|], command)], c + [command], p + [index];
    ChainAppend(w, s, c, command);
    forall i: nat | i < |d|
      ensures CourseStep(w, initial, geometry, speed, t, d, q, i)
    {
      if i < |c| {
        assert CourseStep(w, initial, geometry, speed, s, c, p, i);
      }
    }
  }

  lemma CourseStart(w: World, initial: MotionState, geometry: seq<Pose>, speed: real)
    requires w.Usable()
    ensures Course(w, initial, geometry, speed, [initial], [], [0])
  {
  }

  lemma CourseSizes(w: World, initial: MotionState, geometry: seq<Pose>, speed: real, s: seq<MotionState>, c: seq<Command>, p: seq<nat>)
    requires Course(w, initial, geometry, speed, s, c, p)
    ensures |s| == |c| + 1 == |p|
  {
  }

  lemma DriveEnds(w: World, initial: MotionState, geometry: seq<Pose>, speed: real, s: seq<MotionState>, c: seq<Command>, p: seq<nat>)
    requires w.Usable() && |geometry| >= 2 && Course(w, initial, geometry, speed, s, c, p)
    requires SafeDrive(w, initial, speed, s, c) && |c| <= DriveLimit(w, initial, geometry, speed)
    requires Arrives(w, s, geometry[|geometry| - 1], Reach(w, initial, speed))
    ensures Drives(w, initial, geometry, speed, s, c)
  {
    hide Course;
  }

  lemma ArrivesNow(w: World, states: seq<MotionState>, next: MotionState, end: Pose, reach: real)
    requires states != [] && NotThere(w, states, end, reach)
    ensures w.distance(next.pose, end) < reach ==> Arrives(w, states + [next], end, reach)
    ensures w.distance(next.pose, end) >= reach ==> NotThere(w, states + [next], end, reach)
  {
  }

  lemma NotThereYet(w: World, initial: MotionState, end: Pose, reach: real)
    ensures NotThere(w, [initial], end, reach)
  {
  }

  lemma DriveUnderWay(w: World, start: MotionState, speed: real, states: seq<MotionState>, commands: seq<Command>)
    requires SafeDrive(w, start, speed, states, commands)
    ensures UnderWay(w, start, speed, states, commands)
  {
  }

  lemma TooShort(w: World, initial: MotionState, geometry: seq<Pose>, speed: real)
    requires |geometry| < 2
    ensures forall s, c :: !Drives(w, initial, geometry, speed, s, c)
  {
  }

  /** Drive along a path: the first state near its end closes the drive, an unsafe segment
      or too long a drive gives it up. */
  method FollowGeometry(w: World, initial: MotionState, geometry: seq<Pose>, speed: real)
    returns (drive: Option<(seq<MotionState>, seq<Command>)>)
    requires w.Usable()
    ensures |geometry| < 2 ==> drive.None?
    ensures drive.Some? ==> SafeDrive(w, initial, speed, drive.value.0, drive.value.1)
    ensures drive.Some? ==> Arrives(w, drive.value.0, geometry[|geometry| - 1], Reach(w, initial, speed))
    ensures drive.Some? ==> Drives(w, initial, geometry, speed, drive.value.0, drive.value.1)
    ensures drive.None? ==> forall s, c :: !Drives(w, initial, geometry, speed, s, c)
  {
    hide *;
    if |geometry| < 2 {
      TooShort(w, initial, geometry, speed);
      return None;
    }
    UsableRate(w);
    var state, states, commands := initial, [initial], [];
    ghost var progress: seq<nat> := [0];
    SetOut(w, initial, speed);
    CourseStart(w, initial, geometry, speed);
    var ahead, reach, end := Lookahead(w, initial, speed), Reach(w, initial, speed), geometry[|geometry| - 1];
    NotThereYet(w, initial, end, reach);
    var length := PathLength(w, geometry);
    var limit := StepLimit(w, Cells(w, Most(speed, initial.speed)), length);
    LimitIs(w, initial, geometry, speed);
    var index: nat := 0;
    var i := 0;
    while i < limit
      invariant index + 1 < |geometry| && |states| == |commands| + 1 == |progress| && i == |commands|
      invariant state == states[|states| - 1] && index == progress[|progress| - 1]
      invariant UnderWay(w, initial, speed, states, commands) && NotThere(w, states, end, reach)
      invariant Course(w, initial, geometry, speed, states, commands, progress)
    {
      var next, target := Corner(w, state.pose, geometry, index, ahead);
      var heading := w.bearing(state.pose, geometry[target]);
      var command := Command(w.step, heading, speed);
      SteeredFor(w, geometry, speed, ahead, state.pose, index, next, target);
      var candidate := Obey(w, state, command);
      if !w.safe(state.pose, candidate.pose) {
        NoDrive(w, initial, geometry, speed, states, commands, progress, next, command);
        return None;
      }
      UnderWayStep(w, initial, speed, states, commands, heading);
      CourseNext(w, initial, geometry, speed, states, commands, progress, next, command);
      ArrivesNow(w, states, candidate, end, reach);
      state, index := candidate, next;
      states, commands, progress := states + [state], commands + [command], progress + [next];
      if w.distance(state.pose, end) < reach {
        DriveEnds(w, initial, geometry, speed, states, commands, progress);
        return Some((states, commands));
      }
      DriveUnderWay(w, initial, speed, states, commands);
      i := i + 1;
    }
    NoDrive(w, initial, geometry, speed, states, commands, progress, 0, Command(0.0, 0.0, 0.0));
    return None;
  }

  lemma LimitIs(w: World, initial: MotionState, geometry: seq<Pose>, speed: real)
    requires w.Usable()
    ensures DriveLimit(w, initial, geometry, speed) == StepLimit(w, Cells(w, Most(speed, initial.speed)), Length(w, geometry))
  {
  }

  lemma SteeredFor(w: World, geometry: seq<Pose>, speed: real, ahead: real, pose: Pose, from: nat, index: nat, target: nat)
    requires ProgressTo(w, pose, geometry, from, index) && Steers(w, pose, geometry, index, ahead, target)
    ensures index + 1 < |geometry| && target < |geometry|
    ensures Steered(w, geometry, speed, ahead, pose, from, index, Command(w.step, w.bearing(pose, geometry[target]), speed))
  {
  }

  lemma UsableRate(w: World)
    requires w.Usable()
    ensures w.maxTurnRate > 0.0
  {
  }

  // -------------------------------------------------------------------------- tracks

  /** The parallel lists a repair extends in place. */
  class Track {
    var line: Line

    constructor (line: Line)
      ensures this.line == line
    {
      this.line := line;
    }

    method Extend(more: Line)
      modifies this
      ensures line == Join(old(line), more)
    {
      line := Join(line, more);
    }
  }

  /** The reference beyond a line, at most `EXTENSION` minutes of it. */
  function Beyond(now: real, line: Line): Reference
    requires line.states != [] && line.indices != []
  {
    Reference(line.states[|line.states| - 1], 0.0, EXTENSION, now + TotalTime(line.commands), line.indices[|line.indices| - 1])
  }

  function Extended(w: World, orders: Orders, now: real, line: Line, n: nat): Line
    requires w.maxTurnRate > 0.0 && line.states != [] && line.indices != []
  {
    Join(line, Steps(w, orders, Beyond(now, line), n))
  }

  lemma ExtendedIsSound(w: World, orders: Orders, now: real, line: Line, n: nat)
    requires w.Usable() && line.Sound(w) && line.states != [] && line.indices != []
    requires Lasts(w, orders, Beyond(now, line), n)
    ensures var longer := Extended(w, orders, now, line, n);
            longer.Sound(w) && Starts(longer, ReferenceAt(w, orders, Beyond(now, line), n))
            && |longer.states| == |line.states| + n
    ensures Extended(w, orders, now, line, 0) == line && ReferenceAt(w, orders, Beyond(now, line), 0) == Beyond(now, line)
  {
    hide Chain;
    LastOf(w, line);
    ReferenceIsSound(w, orders, line, Beyond(now, line), n);
  }

  lemma FirstUnsafeStays(w: World, states: seq<MotionState>, more: seq<MotionState>, i: nat)
    requires FirstUnsafe(w, states, i) && states <= more
    ensures FirstUnsafe(w, more, i)
  {
    forall k: nat | k < i
      ensures SegmentSafe(w, more, k)
    {
      assert SegmentSafe(w, states, k);
    }
  }

  /** A reference that stays safe until it ends, or for `time` minutes in all. */
  ghost predicate ClearAhead(w: World, orders: Orders, now: real, line: Line, time: real)
    requires w.maxTurnRate > 0.0 && line.states != [] && line.indices != []
  {
    exists n: nat ::
      && AllSafe(w, Extended(w, orders, now, line, n).states)
      && var r := ReferenceAt(w, orders, Beyond(now, line), n);
         !Continues(w, r) || TotalTime(line.commands) + r.elapsed >= time - EPSILON
  }

  lemma LastsStep(w: World, orders: Orders, r: Reference, n: nat)
    requires w.maxTurnRate > 0.0
    ensures Lasts(w, orders, r, 0)
    ensures Lasts(w, orders, r, n) && Continues(w, ReferenceAt(w, orders, r, n)) ==> Lasts(w, orders, r, n + 1)
  {
  }

  /** One more step of the reference is either safe, or the first collision. */
  lemma ExtendedStep(w: World, orders: Orders, now: real, line: Line, n: nat)
    requires w.Usable() && line.Sound(w) && line.states != [] && line.indices != []
    requires Lasts(w, orders, Beyond(now, line), n) && AllSafe(w, Extended(w, orders, now, line, n).states)
    ensures var longer := Extended(w, orders, now, line, n + 1);
            var here, next := ReferenceAt(w, orders, Beyond(now, line), n), ReferenceAt(w, orders, Beyond(now, line), n + 1);
            if w.safe(here.state.pose, next.state.pose) then AllSafe(w, longer.states)
            else FirstUnsafe(w, longer.states, |line.commands| + n)
  {
    hide Chain, AllSafe, FirstUnsafe;
    ExtendedIsSound(w, orders, now, line, n);
    var r := Beyond(now, line);
    JoinStep(w, orders, line, r, n);
    var so := Extended(w, orders, now, line, n).states;
    var here, next := ReferenceAt(w, orders, r, n), ReferenceAt(w, orders, r, n + 1);
    LastOf(w, line);
    if w.safe(here.state.pose, next.state.pose) {
      SafeAppend(w, so, next.state);
    } else {
      UnsafeStep(w, so, next.state);
    }
  }

  /** Look ahead along the reference; a collision there extends the track up to it. */
  method Preview(w: World, orders: Orders, now: real, track: Track, r0: Reference, elapsed0: real, time: real)
    returns (collision: Option<nat>, r: Reference, ghost n: nat)
    requires w.Usable() && track.line.Sound(w) && AllSafe(w, track.line.states)
    requires track.line.states != [] && track.line.indices != []
    requires r0 == Beyond(now, track.line) && elapsed0 == TotalTime(track.line.commands)
    modifies track
    ensures r == ReferenceAt(w, orders, r0, n) && Lasts(w, orders, r0, n)
    ensures collision.None? ==> track.line == old(track.line) && ClearAhead(w, orders, now, track.line, time)
    ensures collision.Some? ==> track.line == Extended(w, orders, now, old(track.line), n)
    ensures collision.Some? ==> FirstUnsafe(w, track.line.states, collision.value)
    ensures collision.Some? ==> n > 0 && AllSafe(w, Extended(w, orders, now, old(track.line), n - 1).states)
                                && elapsed0 + ReferenceAt(w, orders, r0, n - 1).elapsed < time - EPSILON
  {
    hide *;
    UsableStep(w);
    UsableRate(w);
    ghost var line := track.line;
    var preview := Line([], [], []);
    var elapsed := elapsed0;
    r, n := r0, 0;
    PreviewStart(w, orders, now, line);
    while elapsed < time - EPSILON && Continues(w, r)
      invariant track.line == line
      invariant Lasts(w, orders, r0, n)
      invariant preview == Steps(w, orders, r0, n) && r == ReferenceAt(w, orders, r0, n) && |preview.commands| == n
      invariant elapsed == elapsed0 + r.elapsed
      invariant AllSafe(w, Extended(w, orders, now, line, n).states)
      decreases StepsLeft(w.step, r.elapsed, r.duration)
    {
      LastsStep(w, orders, r0, n);
      ExtendedStep(w, orders, now, line, n);
      ReferenceShrinks(w, orders, r);
      PreviewStep(w, orders, now, line, n);
      var command, next := ReferenceCommand(w, orders, r), NextReference(w, orders, r);
      var previous := r;
      preview := Join(preview, Line([next.state], [command], [next.index]));
      elapsed := elapsed + command.duration;
      r, n := next, n + 1;
      if !w.safe(previous.state.pose, next.state.pose) {
        collision := Some(|track.line.commands| + |preview.commands| - 1);
        track.Extend(preview);
        return;
      }
    }
    collision := None;
    ClearSoFar(w, orders, now, line, n, time);
  }

  lemma PreviewStart(w: World, orders: Orders, now: real, line: Line)
    requires w.Usable() && line.Sound(w) && AllSafe(w, line.states) && line.states != [] && line.indices != []
    ensures var r := Beyond(now, line);
            Lasts(w, orders, r, 0) && Steps(w, orders, r, 0) == Line([], [], []) && ReferenceAt(w, orders, r, 0) == r && r.elapsed == 0.0
    ensures AllSafe(w, Extended(w, orders, now, line, 0).states)
  {
    hide AllSafe;
    ExtendedIsSound(w, orders, now, line, 0);
  }

  lemma PreviewStep(w: World, orders: Orders, now: real, line: Line, n: nat)
    requires w.Usable() && line.states != [] && line.indices != []
    ensures var r0, m := Beyond(now, line), n + 1;
            var r := ReferenceAt(w, orders, r0, n);
            var command, next := ReferenceCommand(w, orders, r), NextReference(w, orders, r);
            && next == ReferenceAt(w, orders, r0, m) && next.elapsed == r.elapsed + command.duration
            && Join(Steps(w, orders, r0, n), Line([next.state], [command], [next.index])) == Steps(w, orders, r0, m)
            && Join(line, Steps(w, orders, r0, m)) == Extended(w, orders, now, line, m)
            && |Steps(w, orders, r0, m).commands| == m
  {
    hide Obey, Guidance, OrderedSpeed, TotalTime;
  }

  lemma ClearSoFar(w: World, orders: Orders, now: real, line: Line, n: nat, time: real)
    requires w.Usable() && line.states != [] && line.indices != [] && AllSafe(w, Extended(w, orders, now, line, n).states)
    requires var r := ReferenceAt(w, orders, Beyond(now, line), n);
             !Continues(w, r) || TotalTime(line.commands) + r.elapsed >= time - EPSILON
    ensures ClearAhead(w, orders, now, line, time)
  {
    hide AllSafe, TotalTime, Continues, ReferenceAt;
  }

  lemma {:induction false} CandidatesGrow(w: World, states: seq<MotionState>, next: MotionState, first: nat)
    requires first <= |states|
    ensures Candidates(w, states + [next], first) == Candidates(w, states, first) + if w.roomy(next.pose) then [|states|] else []
    decreases |states| - first
  {
    if first < |states| {
      CandidatesGrow(w, states, next, first + 1);
    } else {
      assert Candidates(w, states + [next], first + 1) == [];
    }
  }

  /** All candidates but the last are nearer than `room` to the collision. */
  ghost predicate NearBefore(w: World, states: seq<MotionState>, collision: nat, candidates: seq<nat>, count: int, room: real) {
    collision < |states| && forall i: nat :: i < count && i < |candidates| ==>
      candidates[i] < |states| && w.distance(states[candidates[i]].pose, states[collision].pose) < room
  }

  lemma NearStep(w: World, states: seq<MotionState>, next: MotionState, collision: nat, candidates: seq<nat>, room: real)
    requires NearBefore(w, states, collision, candidates, |candidates|, room)
    ensures NearBefore(w, states + [next], collision, candidates, |candidates|, room)
    ensures var more := candidates + [|states|];
            NearBefore(w, states + [next], collision, more, |more| - 1, room)
            && (NearBefore(w, states + [next], collision, more, |more|, room)
                <==> w.distance(next.pose, states[collision].pose) < room)
  {
    var more := candidates + [|states|];
    assert more[|candidates|] == |states|;
  }

  lemma NearEnough(w: World, states: seq<MotionState>, collision: nat, candidates: seq<nat>, room: real)
    requires collision < |states|
    ensures NearBefore(w, states, collision, [], 0, room)
    ensures NearBefore(w, states, collision, candidates, |candidates|, room) ==>
              NearBefore(w, states, collision, candidates, |candidates| - 1, room)
  {
  }

  /** Some state behind the collision has room around it and is far enough away. */
  ghost predicate RoomAhead(w: World, states: seq<MotionState>, collision: nat, room: real) {
    collision < |states| && exists j: nat :: j < |states| && j in Candidates(w, states, collision + 1)
                                             && w.distance(states[j].pose, states[collision].pose) >= room
  }

  lemma RoomIsNotNear(w: World, states: seq<MotionState>, collision: nat, room: real)
    requires collision < |states|
    ensures var candidates := Candidates(w, states, collision + 1);
            RoomAhead(w, states, collision, room) <==> !NearBefore(w, states, collision, candidates, |candidates|, room)
  {
    CandidatesWithin(w, states, collision + 1);
    var candidates := Candidates(w, states, collision + 1);
    hide Candidates;
    assert forall i: nat :: i < |candidates| ==> candidates[i] in candidates;
  }

  /** None of the extensions from `m` on, before the `n`th, has reached room. */
  ghost predicate NoRoomBefore(w: World, orders: Orders, now: real, line: Line, collision: nat, room: real, m: nat, n: nat)
    requires w.maxTurnRate > 0.0 && line.states != [] && line.indices != []
  {
    forall k: nat :: m <= k < n ==> !RoomAhead(w, Extended(w, orders, now, line, k).states, collision, room)
  }

  lemma NoRoomYet(w: World, orders: Orders, now: real, line: Line, collision: nat, room: real, m: nat, n: nat)
    requires w.maxTurnRate > 0.0 && line.states != [] && line.indices != []
    requires m <= n && NoRoomBefore(w, orders, now, line, collision, room, m, n)
    ensures NoRoomBefore(w, orders, now, line, collision, room, n, n)
    ensures !RoomAhead(w, Extended(w, orders, now, line, n).states, collision, room) ==>
              NoRoomBefore(w, orders, now, line, collision, room, m, n + 1)
  {
    hide RoomAhead;
  }

  /** The next state of the reference, joined to the track. */
  lemma RoomyStep(w: World, orders: Orders, now: real, line: Line, n: nat, longer: Line, collision: nat, r: Reference)
    requires w.maxTurnRate > 0.0 && line.states != [] && line.indices != []
    requires longer == Extended(w, orders, now, line, n) && r == ReferenceAt(w, orders, Beyond(now, line), n)
    requires FirstUnsafe(w, longer.states, collision)
    ensures var next, m := NextReference(w, orders, r), n + 1;
            && next == ReferenceAt(w, orders, Beyond(now, line), m)
            && Join(longer, Line([next.state], [ReferenceCommand(w, orders, r)], [next.index])) == Extended(w, orders, now, line, m)
            && Extended(w, orders, now, line, m).states == longer.states + [next.state]
            && FirstUnsafe(w, longer.states + [next.state], collision)
            && Candidates(w, longer.states + [next.state], collision + 1)
               == Candidates(w, longer.states, collision + 1) + if w.roomy(next.state.pose) then [|longer.states|] else []
  {
    hide Candidates, Obey, Guidance, OrderedSpeed, TotalTime, SegmentSafe;
    var next := NextReference(w, orders, r);
    JoinStep(w, orders, line, Beyond(now, line), n);
    CandidatesGrow(w, longer.states, next.state, collision + 1);
    FirstUnsafeStays(w, longer.states, longer.states + [next.state], collision);
  }

  lemma UsableStep(w: World)
    requires w.Usable()
    ensures w.step > 0.0
  {
  }

  lemma ReferenceShrinks(w: World, orders: Orders, r: Reference)
    requires w.Usable() && Continues(w, r)
    ensures w.step > 0.0 && w.maxTurnRate > 0.0
    ensures var next := NextReference(w, orders, r);
            next.duration == r.duration && 0 <= StepsLeft(w.step, next.elapsed, next.duration) < StepsLeft(w.step, r.elapsed, r.duration)
  {
    hide Obey, Guidance, OrderedSpeed, StepsLeft;
    StepTaken(w.step, r.elapsed, r.duration);
  }

  /** Extend the track along the reference, collecting states with room, until one is far enough away. */
  method ExtendUntilRoomy(w: World, orders: Orders, now: real, track: Track, r0: Reference, ghost n0: nat, ghost line: Line,
                          collision: nat, room: real)
    returns (candidates: seq<nat>, ghost n: nat)
    requires w.Usable() && line.Sound(w) && line.states != [] && line.indices != []
    requires r0 == ReferenceAt(w, orders, Beyond(now, line), n0) && track.line == Extended(w, orders, now, line, n0)
    requires Lasts(w, orders, Beyond(now, line), n0)
    requires FirstUnsafe(w, track.line.states, collision) && Candidates(w, track.line.states, collision + 1) == []
    modifies track
    ensures track.line == Extended(w, orders, now, line, n) && Lasts(w, orders, Beyond(now, line), n)
    ensures FirstUnsafe(w, track.line.states, collision)
    ensures candidates == Candidates(w, track.line.states, collision + 1)
    ensures NearBefore(w, track.line.states, collision, candidates, |candidates| - 1, room)
    ensures NearBefore(w, track.line.states, collision, candidates, |candidates|, room) ==>
              !Continues(w, ReferenceAt(w, orders, Beyond(now, line), n))
    ensures n0 <= n && NoRoomBefore(w, orders, now, line, collision, room, n0, n) && old(track.line.states) <= track.line.states
    ensures RoomAhead(w, track.line.states, collision, room) || !Continues(w, ReferenceAt(w, orders, Beyond(now, line), n))
  {
    hide *;
    UsableRate(w);
    NothingBefore(w, orders, now, line, collision, room, n0);
    candidates, n := [], n0;
    var r := r0;
    UsableStep(w);
    LastOf(w, line);
    CollisionWithin(w, track.line.states, collision);
    NearEnough(w, track.line.states, collision, candidates, room);
    while Continues(w, r)
      invariant Lasts(w, orders, Beyond(now, line), n)
      invariant track.line == Extended(w, orders, now, line, n) && r == ReferenceAt(w, orders, Beyond(now, line), n)
      invariant FirstUnsafe(w, track.line.states, collision) && collision < |track.line.states|
      invariant candidates == Candidates(w, track.line.states, collision + 1)
      invariant NearBefore(w, track.line.states, collision, candidates, |candidates|, room)
      invariant n0 <= n && NoRoomBefore(w, orders, now, line, collision, room, n0, n) && old(track.line.states) <= track.line.states
      decreases StepsLeft(w.step, r.elapsed, r.duration)
    {
      ReferenceShrinks(w, orders, r);
      LastsStep(w, orders, Beyond(now, line), n);
      RoomIsNotNear(w, track.line.states, collision, room);
      NoRoomYet(w, orders, now, line, collision, room, n0, n);
      RoomyStep(w, orders, now, line, n, track.line, collision, r);
      var command, next := ReferenceCommand(w, orders, r), NextReference(w, orders, r);
      ghost var before := track.line.states;
      NearStep(w, before, next.state, collision, candidates, room);
      track.Extend(Line([next.state], [command], [next.index]));
      r, n := next, n + 1;
      if w.roomy(next.state.pose) {
        candidates := candidates + [|track.line.states| - 1];
        if w.distance(next.state.pose, track.line.states[collision].pose) >= room {
          RoomIsNotNear(w, track.line.states, collision, room);
          return;
        }
      }
    }
    NearEnough(w, track.line.states, collision, candidates, room);
  }

  lemma NothingBefore(w: World, orders: Orders, now: real, line: Line, collision: nat, room: real, m: nat)
    requires w.maxTurnRate > 0.0 && line.states != [] && line.indices != []
    ensures NoRoomBefore(w, orders, now, line, collision, room, m, m)
  {
  }

  lemma Undetoured(w: World, orders: Orders, now: real, line: Line)
    ensures Detoured(w, orders, now, line, line, 0)
  {
  }

  lemma CandidatesWithin(w: World, states: seq<MotionState>, first: nat)
    ensures var r := Candidates(w, states, first);
            Ascending(r) && forall i: nat :: i < |r| ==> r[i] < |states|
  {
    var r := Candidates(w, states, first);
    assert forall i: nat :: i < |r| ==> r[i] in r;
  }

  lemma SplicedHere(w: World, orders: Orders, now: real, from: Line, to: Line, anchor: nat, collision: nat, goal: nat,
                    detour: seq<MotionState>, commands: seq<Command>)
    requires w.Usable() && from.Sound(w) && SplicePoints(w, from, anchor, collision, goal)
    requires SafeDrive(w, from.states[anchor], from.commands[anchor].speed, detour, commands)
    requires var stitched := Stitched(from, anchor, goal, detour, commands);
             stitched.Sound(w) && to == Resumed(w, orders, now + TotalTime(stitched.commands), stitched, from.commands[goal..])
    ensures Spliced(w, orders, now, from, to, anchor, collision, goal, detour, commands)
    ensures to.Sound(w)
  {
    hide Chain, AllSafe, FirstUnsafe, Resumed, SafeDrive, SamePace, TotalTime, Stitched;
    SpliceIsSound(w, orders, now, from, to, anchor, collision, goal, detour, commands);
  }

  function AheadTime(w: World, states: seq<MotionState>): real
    requires w.Usable() && states != []
  {
    var cells := Cells(w, TopSpeed(states));
    ApproachTime(w, cells, TurningRadius(w, cells))
  }

  function RadiusOf(w: World, states: seq<MotionState>): real
    requires w.Usable() && states != []
  {
    TurningRadius(w, Cells(w, TopSpeed(states)))
  }

  ghost predicate LooksAhead(w: World, orders: Orders, now: real, line: Line)
    requires w.Usable() && line.states != [] && line.indices != []
  {
    ClearAhead(w, orders, now, line, AheadTime(w, line.states))
  }

  /** The detour from the anchor to the goal: the path found, the drive along it, and the rest of the line resumed. */
  ghost predicate DetourBy(w: World, orders: Orders, now: real, from: Line, anchor: nat, goal: nat, radius: real, mid: Line,
                           detour: seq<MotionState>, commands: seq<Command>)
  {
    && w.Usable() && from.Sound(w) && anchor < goal < |from.states|
    && var path := w.search(from.states[anchor].pose, from.states[goal].pose, radius);
       path.Some? && Drives(w, from.states[anchor], path.value, from.commands[anchor].speed, detour, commands)
       && |detour| == |commands| + 1
       && var stitched := Stitched(from, anchor, goal, detour, commands);
          mid == Resumed(w, orders, now + TotalTime(stitched.commands), stitched, from.commands[goal..])
  }

  ghost predicate DetourTo(w: World, orders: Orders, now: real, from: Line, anchor: nat, goal: nat, radius: real, mid: Line) {
    exists detour, commands :: DetourBy(w, orders, now, from, anchor, goal, radius, mid, detour, commands)
  }

  /** Anchor and goal determine the detour. */
  lemma DetourOnce(w: World, orders: Orders, now: real, from: Line, anchor: nat, goal: nat, radius: real, mid: Line, mid': Line)
    requires DetourTo(w, orders, now, from, anchor, goal, radius, mid) && DetourTo(w, orders, now, from, anchor, goal, radius, mid')
    ensures mid == mid'
  {
    hide Drives, Resumed, Stitched, TotalTime, Line.Sound, World.Usable;
    var s, c :| DetourBy(w, orders, now, from, anchor, goal, radius, mid, s, c);
    var t, d :| DetourBy(w, orders, now, from, anchor, goal, radius, mid', t, d);
    var path := w.search(from.states[anchor].pose, from.states[goal].pose, radius);
    LastOf(w, from);
    DrivesOnce(w, from.states[anchor], path.value, from.commands[anchor].speed, s, c, t, d);
  }

  lemma NoPath(w: World, orders: Orders, now: real, from: Line, anchor: nat, goal: nat, radius: real)
    requires from.Sound(w) && anchor < goal < |from.states|
    requires var path := w.search(from.states[anchor].pose, from.states[goal].pose, radius);
             path.None? || forall s, c :: !Drives(w, from.states[anchor], path.value, from.commands[anchor].speed, s, c)
    ensures forall mid :: !DetourTo(w, orders, now, from, anchor, goal, radius, mid)
  {
    hide Drives, Resumed, Stitched, TotalTime;
  }

  lemma DetourHere(w: World, orders: Orders, now: real, from: Line, anchor: nat, goal: nat, radius: real, mid: Line,
                   detour: seq<MotionState>, commands: seq<Command>)
    requires w.Usable() && from.Sound(w) && anchor < goal < |from.states| && |detour| == |commands| + 1
    requires var path := w.search(from.states[anchor].pose, from.states[goal].pose, radius);
             path.Some? && Drives(w, from.states[anchor], path.value, from.commands[anchor].speed, detour, commands)
    requires var stitched := Stitched(from, anchor, goal, detour, commands);
             stitched.states != [] && stitched.indices != []
             && mid == Resumed(w, orders, now + TotalTime(stitched.commands), stitched, from.commands[goal..])
    ensures DetourTo(w, orders, now, from, anchor, goal, radius, mid)
  {
    hide Drives, Resumed, Stitched, TotalTime;
    assert DetourBy(w, orders, now, from, anchor, goal, radius, mid, detour, commands);
  }

  lemma PointsWithin(w: World, from: Line, anchor: nat, collision: nat, goal: nat)
    requires from.Sound(w) && SplicePoints(w, from, anchor, collision, goal)
    ensures anchor < goal < |from.states| == |from.commands| + 1
  {
  }

  /** One detour: search a path from the anchor to the goal, drive along it, and resume the
      rest of the line behind it. */
  method Detour(w: World, orders: Orders, now: real, from: Line, anchor: nat, collision: nat, goal: nat, radius: real)
    returns (rejoined: Option<Line>, ghost detour: seq<MotionState>, ghost commands: seq<Command>)
    requires w.Usable() && from.Sound(w) && SplicePoints(w, from, anchor, collision, goal)
    ensures rejoined.Some? ==>
              rejoined.value.Sound(w) && Spliced(w, orders, now, from, rejoined.value, anchor, collision, goal, detour, commands)
    ensures rejoined.Some? ==> DetourTo(w, orders, now, from, anchor, goal, radius, rejoined.value)
    ensures rejoined.None? ==> forall mid :: !DetourTo(w, orders, now, from, anchor, goal, radius, mid)
  {
    hide Chain, AllSafe, FirstUnsafe, Obey, TotalTime, Resumed, Spliced, Arrives, SafeDrive, Line.Sound, Drives, DetourTo;
    LastOf(w, from);
    PointsWithin(w, from, anchor, collision, goal);
    detour, commands := [], [];
    var geometry := w.search(from.states[anchor].pose, from.states[goal].pose, radius);
    if geometry.None? {
      NoPath(w, orders, now, from, anchor, goal, radius);
      return None, detour, commands;
    }
    var drive := FollowGeometry(w, from.states[anchor], geometry.value, from.commands[anchor].speed);
    if drive.None? {
      NoPath(w, orders, now, from, anchor, goal, radius);
      return None, detour, commands;
    }
    var (states, controls) := drive.value;
    StitchedIsSound(w, from, anchor, collision, goal, states, controls);
    var stitched := Stitched(from, anchor, goal, states, controls);
    LastOf(w, stitched);
    var started := SumDurations(stitched.commands);
    var line := Resume(w, orders, now + started, stitched, from.commands[goal..]);
    SplicedHere(w, orders, now, from, line, anchor, collision, goal, states, controls);
    DetourHere(w, orders, now, from, anchor, goal, radius, line, states, controls);
    return Some(line), states, controls;
  }

  /** The goals of a collision: those of the states with room behind it. */
  function GoalsOf(w: World, states: seq<MotionState>, collision: nat, room: real): seq<nat>
    requires collision < |states|
  {
    var candidates := Candidates(w, states, collision + 1);
    if candidates == [] then [] else
      CandidatesWithin(w, states, collision + 1);
      Goals(candidates, Distant(w, states, collision, candidates, room))
  }

  lemma GoalsAreBehind(w: World, states: seq<MotionState>, collision: nat, room: real)
    requires collision < |states|
    ensures var goals := GoalsOf(w, states, collision, room);
            |goals| <= 3 && forall j :: j in goals ==> collision < j < |states| && w.roomy(states[j].pose)
  {
    CandidatesWithin(w, states, collision + 1);
  }

  lemma PointsHold(w: World, line: Line, anchor: nat, collision: nat, goal: nat)
    requires FirstUnsafe(w, line.states, collision) && anchor <= collision < goal < |line.states| && w.roomy(line.states[goal].pose)
    ensures SplicePoints(w, line, anchor, collision, goal)
  {
  }

  lemma CollisionWithin(w: World, states: seq<MotionState>, collision: nat)
    requires FirstUnsafe(w, states, collision)
    ensures collision + 1 < |states| && !AllSafe(w, states)
  {
    FirstUnsafeIsUnsafe(w, states, collision);
  }

  lemma LooksAheadWhenClear(w: World, orders: Orders, now: real, line: Line, cells: real)
    requires w.Usable() && line.states != [] && line.indices != [] && cells == Cells(w, TopSpeed(line.states))
    ensures ApproachTime(w, cells, TurningRadius(w, cells)) == AheadTime(w, line.states)
    ensures ClearAhead(w, orders, now, line, AheadTime(w, line.states)) ==> LooksAhead(w, orders, now, line)
  {
  }

  /** No collision is near: the line is safe, and so is what is looked at beyond it. */
  ghost predicate Clear(w: World, orders: Orders, now: real, line: Line, depth: nat)
    requires w.Usable() && line.states != [] && line.indices != []
  {
    AllSafe(w, line.states) && (depth == 0 && w.anyObstacle ==> LooksAhead(w, orders, now, line))
  }

  /** The first collision is on the line itself, or the look-ahead meets it at its `n`th step, in time. */
  ghost predicate FoundAhead(w: World, orders: Orders, now: real, line: Line, depth: nat, n: nat)
    requires w.Usable() && line.states != [] && line.indices != []
  {
    if !AllSafe(w, line.states) then n == 0
    else depth == 0 && w.anyObstacle && n > 0 && MetAhead(w, orders, now, line, n, AheadTime(w, line.states))
  }

  ghost predicate MetAhead(w: World, orders: Orders, now: real, line: Line, n: nat, time: real)
    requires w.Usable() && line.states != [] && line.indices != [] && n > 0
  {
    && Lasts(w, orders, Beyond(now, line), n)
    && AllSafe(w, Extended(w, orders, now, line, n - 1).states) && !AllSafe(w, Extended(w, orders, now, line, n).states)
    && TotalTime(line.commands) + ReferenceAt(w, orders, Beyond(now, line), n - 1).elapsed < time - EPSILON
  }

  lemma {:induction false} ElapsedGrows(w: World, orders: Orders, r: Reference, i: nat, j: nat)
    requires w.Usable() && i <= j && Lasts(w, orders, r, j)
    ensures ReferenceAt(w, orders, r, i).elapsed <= ReferenceAt(w, orders, r, j).elapsed
    decreases j - i
  {
    hide Obey, Guidance, OrderedSpeed;
    if i < j {
      var k := j - 1;
      assert Continues(w, ReferenceAt(w, orders, r, k));
      ElapsedGrows(w, orders, r, i, k);
      var before := ReferenceAt(w, orders, r, k);
      StepTaken(w.step, before.elapsed, before.duration);
    }
  }

  lemma {:induction false} StepsPrefix(w: World, orders: Orders, r: Reference, i: nat, j: nat)
    requires w.maxTurnRate > 0.0 && i <= j
    ensures Steps(w, orders, r, i).states <= Steps(w, orders, r, j).states
    decreases j - i
  {
    hide ReferenceAt, ReferenceCommand;
    if i < j {
      StepsPrefix(w, orders, r, i, j - 1);
    }
  }

  lemma SafePrefix(w: World, states: seq<MotionState>, more: seq<MotionState>)
    requires states <= more && AllSafe(w, more)
    ensures AllSafe(w, states)
  {
    forall i: nat | i < |states|
      ensures SegmentSafe(w, states, i)
    {
      assert SegmentSafe(w, more, i);
    }
  }

  /** What lies ahead cannot be clear and have a collision, within the same time. */
  lemma AheadFound(w: World, orders: Orders, now: real, line: Line, n: nat)
    requires w.Usable() && line.states != [] && line.indices != []
    requires n > 0 && MetAhead(w, orders, now, line, n, AheadTime(w, line.states))
    ensures !LooksAhead(w, orders, now, line)
  {
    hide AllSafe, TotalTime, Steps, ReferenceAt, AheadTime, Continues;
    var time := AheadTime(w, line.states);
    forall k: nat
      ensures !(AllSafe(w, Extended(w, orders, now, line, k).states)
                && var r := ReferenceAt(w, orders, Beyond(now, line), k);
                   !Continues(w, r) || TotalTime(line.commands) + r.elapsed >= time - EPSILON)
    {
      if k >= n {
        StepsPrefix(w, orders, Beyond(now, line), n, k);
        if AllSafe(w, Extended(w, orders, now, line, k).states) {
          SafePrefix(w, Extended(w, orders, now, line, n).states, Extended(w, orders, now, line, k).states);
        }
      } else {
        var last := n - 1;
        assert Continues(w, ReferenceAt(w, orders, Beyond(now, line), k));
        assert Lasts(w, orders, Beyond(now, line), last);
        ElapsedGrows(w, orders, Beyond(now, line), k, last);
      }
    }
  }

  lemma MetThere(w: World, orders: Orders, now: real, line: Line, n: nat, time: real)
    requires w.Usable() && line.states != [] && line.indices != [] && n > 0 && Lasts(w, orders, Beyond(now, line), n)
    requires AllSafe(w, Extended(w, orders, now, line, n - 1).states) && !AllSafe(w, Extended(w, orders, now, line, n).states)
    requires TotalTime(line.commands) + ReferenceAt(w, orders, Beyond(now, line), n - 1).elapsed < time - EPSILON
    ensures MetAhead(w, orders, now, line, n, time)
  {
  }

  lemma ClearOrNot(w: World, orders: Orders, now: real, line: Line, depth: nat)
    requires w.Usable() && line.states != [] && line.indices != []
    ensures !AllSafe(w, line.states) ==> FoundAhead(w, orders, now, line, depth, 0) && !Clear(w, orders, now, line, depth)
    ensures AllSafe(w, line.states) ==>
              (Clear(w, orders, now, line, depth) <==> (depth == 0 && w.anyObstacle ==> LooksAhead(w, orders, now, line)))
    ensures AllSafe(w, line.states) && depth == 0 && w.anyObstacle ==>
              forall n: nat :: n > 0 && MetAhead(w, orders, now, line, n, AheadTime(w, line.states)) ==> FoundAhead(w, orders, now, line, depth, n)
  {
    hide LooksAhead, MetAhead, AllSafe;
  }

  /** The first collision of the track, or of the reference just beyond it. */
  method Collide(w: World, orders: Orders, now: real, track: Track, depth: nat, radius: real, cells: real)
    returns (collision: Option<nat>, extension: Reference, ghost n: nat)
    requires w.Usable() && track.line.Sound(w)
    requires track.line.states != [] && track.line.indices != []
    requires cells == Cells(w, TopSpeed(track.line.states)) && radius == TurningRadius(w, cells)
    modifies track
    ensures track.line == Extended(w, orders, now, old(track.line), n) && (depth > 0 ==> n == 0)
    ensures Lasts(w, orders, Beyond(now, old(track.line)), n)
    ensures extension == ReferenceAt(w, orders, Beyond(now, old(track.line)), n)
    ensures AllSafe(w, old(track.line.states)) && !w.anyObstacle ==> collision.None?
    ensures if collision.None? then n == 0 && track.line == old(track.line) && AllSafe(w, track.line.states)
            else FirstUnsafe(w, track.line.states, collision.value)
    ensures collision.None? && depth == 0 && w.anyObstacle ==> LooksAhead(w, orders, now, track.line)
    ensures collision.None? ==> Clear(w, orders, now, old(track.line), depth)
    ensures collision.Some? ==> FoundAhead(w, orders, now, old(track.line), depth, n) && !Clear(w, orders, now, old(track.line), depth)
  {
    hide *;
    ghost var line := track.line;
    n := 0;
    LastOf(w, line);
    LastsStep(w, orders, Beyond(now, line), 0);
    ExtendedIsSound(w, orders, now, line, 0);
    collision := FindCollision(w, track.line.states);
    var elapsed := SumDurations(track.line.commands);
    var start := Beyond(now, track.line);
    extension := start;
    if collision.None? && depth == 0 && w.anyObstacle {
      LooksAheadWhenClear(w, orders, now, line, cells);
      collision, extension, n := Preview(w, orders, now, track, extension, elapsed, ApproachTime(w, cells, radius));
      if collision.None? {
        extension, n := start, 0;
      } else {
        CollisionWithin(w, track.line.states, collision.value);
        MetThere(w, orders, now, line, n, AheadTime(w, line.states));
        AheadFound(w, orders, now, line, n);
      }
    }
    ClearOrNot(w, orders, now, line, depth);
  }

  /** If there is no room behind the collision, the line is extended until there is enough, or the reference ends;
      otherwise it is left as it is. */
  ghost predicate ReachesRoom(w: World, orders: Orders, now: real, line: Line, depth: nat, collision: nat, room: real, m: nat, n: nat)
    requires w.maxTurnRate > 0.0 && line.states != [] && line.indices != []
  {
    if depth > 0 || Candidates(w, Extended(w, orders, now, line, m).states, collision + 1) != [] then n == m
    else
      && m <= n && NoRoomBefore(w, orders, now, line, collision, room, m, n)
      && (RoomAhead(w, Extended(w, orders, now, line, n).states, collision, room) || !Continues(w, ReferenceAt(w, orders, Beyond(now, line), n)))
  }

  /** Where to rejoin the line, after extending the track if that is needed to find room. */
  method SelectGoals(w: World, orders: Orders, now: real, track: Track, depth: nat, collision: nat, extension: Reference,
                     ghost n0: nat, ghost line: Line, room: real)
    returns (goals: seq<nat>, ghost n: nat)
    requires w.Usable() && line.Sound(w) && line.states != [] && line.indices != [] && (depth > 0 ==> n0 == 0)
    requires extension == ReferenceAt(w, orders, Beyond(now, line), n0) && track.line == Extended(w, orders, now, line, n0)
    requires FirstUnsafe(w, track.line.states, collision) && Lasts(w, orders, Beyond(now, line), n0)
    modifies track
    ensures track.line == Extended(w, orders, now, line, n) && (depth > 0 ==> n == 0)
    ensures Lasts(w, orders, Beyond(now, line), n) && ReachesRoom(w, orders, now, line, depth, collision, room, n0, n)
    ensures FirstUnsafe(w, track.line.states, collision) && old(track.line.states) <= track.line.states
    ensures collision < |track.line.states| && goals == GoalsOf(w, track.line.states, collision, room)
    ensures forall k: nat :: k < |goals| ==> collision < goals[k] < |track.line.states| && w.roomy(track.line.states[goals[k]].pose)
    ensures |goals| <= 3
  {
    hide *;
    n := n0;
    CollisionWithin(w, track.line.states, collision);
    UsableRate(w);
    RoomReached(w, orders, now, line, depth, collision, room, n0);
    var candidates := Candidates(w, track.line.states, collision + 1);
    if candidates == [] && depth == 0 {
      candidates, n := ExtendUntilRoomy(w, orders, now, track, extension, n, line, collision, room);
      CollisionWithin(w, track.line.states, collision);
    }
    goals := ChooseGoals(w, track.line.states, collision, candidates, room);
    GoalsAreBehind(w, track.line.states, collision, room);
    assert forall k: nat :: k < |goals| ==> goals[k] in goals;
  }

  lemma RoomReached(w: World, orders: Orders, now: real, line: Line, depth: nat, collision: nat, room: real, m: nat)
    requires w.maxTurnRate > 0.0 && line.states != [] && line.indices != []
    ensures var candidates := Candidates(w, Extended(w, orders, now, line, m).states, collision + 1);
            if depth > 0 || candidates != [] then ReachesRoom(w, orders, now, line, depth, collision, room, m, m)
            else forall n: nat :: m <= n && NoRoomBefore(w, orders, now, line, collision, room, m, n)
                   && (RoomAhead(w, Extended(w, orders, now, line, n).states, collision, room)
                       || !Continues(w, ReferenceAt(w, orders, Beyond(now, line), n)))
                   ==> ReachesRoom(w, orders, now, line, depth, collision, room, m, n)
  {
    hide Candidates, Extended, NoRoomBefore, RoomAhead, Continues, ReferenceAt;
  }

  /** The goals to try. */
  method ChooseGoals(w: World, states: seq<MotionState>, collision: nat, candidates: seq<nat>, room: real) returns (goals: seq<nat>)
    requires collision < |states| && candidates == Candidates(w, states, collision + 1)
    ensures goals == GoalsOf(w, states, collision, room)
  {
    if candidates == [] {
      return [];
    }
    CandidatesWithin(w, states, collision + 1);
    goals := Goals(candidates, Distant(w, states, collision, candidates, room));
  }

  // ----------------------------------------------------------------- what can be repaired

  /** How far the track is extended before a line is repaired. */
  ghost predicate TrackedTo(w: World, orders: Orders, now: real, line: Line, depth: nat, n: nat)
    requires w.Usable() && line.states != [] && line.indices != []
  {
    if Clear(w, orders, now, line, depth) then n == 0
    else exists m: nat, at: nat :: TrackedVia(w, orders, now, line, depth, n, m, at)
  }

  ghost predicate TrackedVia(w: World, orders: Orders, now: real, line: Line, depth: nat, n: nat, m: nat, at: nat)
    requires w.Usable() && line.states != [] && line.indices != []
  {
    && FoundAhead(w, orders, now, line, depth, m) && FirstUnsafe(w, Extended(w, orders, now, line, m).states, at)
    && if depth >= MAX_DEPTH then n == m else ReachesRoom(w, orders, now, line, depth, at, 2.0 * RadiusOf(w, line.states), m, n)
  }

  /** The first collision of a line, and where a detour around it leaves the line. */
  ghost predicate Around(w: World, states: seq<MotionState>, radius: real, at: nat, anchor: nat) {
    FirstUnsafe(w, states, at) && IsAnchor(w, states, at, 3.0 * radius, anchor)
  }

  ghost predicate SomeGoalMends(w: World, orders: Orders, now: real, line: Line, radius: real, depth: nat, at: nat, anchor: nat)
    requires depth < MAX_DEPTH
    decreases MAX_DEPTH - depth, 1
  {
    at < |line.states| && exists goal: nat :: goal in GoalsOf(w, line.states, at, 2.0 * radius)
                                               && GoalMends(w, orders, now, line, anchor, goal, radius, depth)
  }

  /** The detour to this goal exists, and leaves a line that can be repaired. */
  ghost predicate GoalMends(w: World, orders: Orders, now: real, line: Line, anchor: nat, goal: nat, radius: real, depth: nat)
    requires depth < MAX_DEPTH
    decreases MAX_DEPTH - depth, 0
  {
    exists mid: Line :: DetourTo(w, orders, now, line, anchor, goal, radius, mid)
                        && w.Usable() && mid.states != [] && Mends(w, orders, now, mid, RadiusOf(w, mid.states), depth + 1)
  }

  /** The line can be repaired: it is safe, or a detour to one of the goals leaves a line that can be. */
  ghost predicate Mends(w: World, orders: Orders, now: real, line: Line, radius: real, depth: nat)
    decreases MAX_DEPTH - depth, 2
  {
    AllSafe(w, line.states)
    || (depth < MAX_DEPTH
        && exists at: nat, anchor: nat :: Around(w, line.states, radius, at, anchor)
                                          && SomeGoalMends(w, orders, now, line, radius, depth, at, anchor))
  }

  /** No goal before the `k`th mends the line. */
  ghost predicate NoneBefore(w: World, orders: Orders, now: real, line: Line, anchor: nat, goals: seq<nat>, k: nat, radius: real, depth: nat)
    requires depth < MAX_DEPTH
  {
    k <= |goals| && forall j: nat :: j < k ==> !GoalMends(w, orders, now, line, anchor, goals[j], radius, depth)
  }

  /** What the line becomes: it stays if it is safe, and else the first goal that mends it is taken. */
  ghost predicate MendsTo(w: World, orders: Orders, now: real, line: Line, radius: real, depth: nat, result: Line)
    decreases MAX_DEPTH - depth
  {
    if AllSafe(w, line.states) then result == line
    else depth < MAX_DEPTH
         && exists at: nat, anchor: nat, k: nat, mid: Line ::
              && Around(w, line.states, radius, at, anchor) && Taken(w, orders, now, line, radius, depth, at, anchor, k, mid)
              && w.Usable() && mid.states != [] && MendsTo(w, orders, now, mid, RadiusOf(w, mid.states), depth + 1, result)
  }

  ghost predicate Taken(w: World, orders: Orders, now: real, line: Line, radius: real, depth: nat, at: nat, anchor: nat, k: nat, mid: Line)
    requires depth < MAX_DEPTH
  {
    at < |line.states|
    && var goals := GoalsOf(w, line.states, at, 2.0 * radius);
       k < |goals| && NoneBefore(w, orders, now, line, anchor, goals, k, radius, depth)
       && DetourTo(w, orders, now, line, anchor, goals[k], radius, mid)
  }

  lemma AroundOnce(w: World, states: seq<MotionState>, radius: real, at: nat, anchor: nat, at': nat, anchor': nat)
    requires Around(w, states, radius, at, anchor) && Around(w, states, radius, at', anchor')
    ensures at == at' && anchor == anchor'
  {
    assert at < at' ==> SegmentSafe(w, states, at);
    assert at' < at ==> SegmentSafe(w, states, at');
  }

  lemma AnchorStays(w: World, states: seq<MotionState>, more: seq<MotionState>, at: nat, room: real, anchor: nat)
    requires IsAnchor(w, states, at, room, anchor) && states <= more
    ensures IsAnchor(w, more, at, room, anchor)
  {
  }

  lemma AroundHere(w: World, states: seq<MotionState>, radius: real, at: nat, anchor: nat)
    requires FirstUnsafe(w, states, at) && IsAnchor(w, states, at, 3.0 * radius, anchor)
    ensures Around(w, states, radius, at, anchor)
  {
  }

  /** A safe line needs no repair. */
  lemma SafeMends(w: World, orders: Orders, now: real, line: Line, radius: real, depth: nat)
    requires AllSafe(w, line.states)
    ensures Mends(w, orders, now, line, radius, depth) && MendsTo(w, orders, now, line, radius, depth, line)
  {
    hide AllSafe;
  }

  lemma TooDeep(w: World, orders: Orders, now: real, line: Line, radius: real, depth: nat)
    requires !AllSafe(w, line.states) && depth >= MAX_DEPTH
    ensures !Mends(w, orders, now, line, radius, depth)
  {
    hide AllSafe;
  }

  lemma NoGoalMends(w: World, orders: Orders, now: real, line: Line, radius: real, depth: nat, at: nat, anchor: nat)
    requires depth < MAX_DEPTH && Around(w, line.states, radius, at, anchor) && !AllSafe(w, line.states) && at < |line.states|
    requires var goals := GoalsOf(w, line.states, at, 2.0 * radius);
             NoneBefore(w, orders, now, line, anchor, goals, |goals|, radius, depth)
    ensures !Mends(w, orders, now, line, radius, depth)
  {
    hide AllSafe, Around, GoalMends, GoalsOf;
    forall at': nat, anchor': nat | Around(w, line.states, radius, at', anchor')
      ensures !SomeGoalMends(w, orders, now, line, radius, depth, at', anchor')
    {
      AroundOnce(w, line.states, radius, at, anchor, at', anchor');
    }
  }

  lemma GoalFails(w: World, orders: Orders, now: real, line: Line, anchor: nat, goal: nat, radius: real, depth: nat, mid: Option<Line>)
    requires depth < MAX_DEPTH
    requires mid.None? ==> forall other :: !DetourTo(w, orders, now, line, anchor, goal, radius, other)
    requires mid.Some? ==> DetourTo(w, orders, now, line, anchor, goal, radius, mid.value)
    requires mid.Some? ==> w.Usable() && mid.value.states != []
                           && !Mends(w, orders, now, mid.value, RadiusOf(w, mid.value.states), depth + 1)
    ensures !GoalMends(w, orders, now, line, anchor, goal, radius, depth)
  {
    hide DetourTo, Mends, RadiusOf, World.Usable;
    forall other: Line | DetourTo(w, orders, now, line, anchor, goal, radius, other)
      ensures mid == Some(other)
    {
      if mid.Some? {
        DetourOnce(w, orders, now, line, anchor, goal, radius, mid.value, other);
      }
    }
  }

  lemma GoalTaken(w: World, orders: Orders, now: real, line: Line, radius: real, depth: nat, at: nat, anchor: nat, k: nat, mid: Line, result: Line)
    requires depth < MAX_DEPTH && Around(w, line.states, radius, at, anchor) && !AllSafe(w, line.states) && at < |line.states|
    requires Taken(w, orders, now, line, radius, depth, at, anchor, k, mid)
    requires w.Usable() && mid.states != [] && Mends(w, orders, now, mid, RadiusOf(w, mid.states), depth + 1)
    requires MendsTo(w, orders, now, mid, RadiusOf(w, mid.states), depth + 1, result)
    ensures Mends(w, orders, now, line, radius, depth) && MendsTo(w, orders, now, line, radius, depth, result)
  {
    hide AllSafe, Around, GoalsOf, NoneBefore, DetourTo, RadiusOf, World.Usable;
    var goals := GoalsOf(w, line.states, at, 2.0 * radius);
    assert goals[k] in goals && GoalMends(w, orders, now, line, anchor, goals[k], radius, depth);
    assert SomeGoalMends(w, orders, now, line, radius, depth, at, anchor);
  }

  lemma TakenHere(w: World, orders: Orders, now: real, line: Line, radius: real, depth: nat, at: nat, anchor: nat, k: nat, mid: Line)
    requires depth < MAX_DEPTH && at < |line.states|
    requires var goals := GoalsOf(w, line.states, at, 2.0 * radius);
             k < |goals| && NoneBefore(w, orders, now, line, anchor, goals, k, radius, depth)
             && DetourTo(w, orders, now, line, anchor, goals[k], radius, mid)
    ensures Taken(w, orders, now, line, radius, depth, at, anchor, k, mid)
  {
  }

  lemma NoneNext(w: World, orders: Orders, now: real, line: Line, anchor: nat, goals: seq<nat>, k: nat, radius: real, depth: nat)
    requires depth < MAX_DEPTH
    ensures NoneBefore(w, orders, now, line, anchor, goals, 0, radius, depth)
    ensures k < |goals| && NoneBefore(w, orders, now, line, anchor, goals, k, radius, depth)
            && !GoalMends(w, orders, now, line, anchor, goals[k], radius, depth) ==>
              NoneBefore(w, orders, now, line, anchor, goals, k + 1, radius, depth)
  {
    hide GoalMends;
  }

  /** What a line becomes is determined, and only a line that can be repaired becomes anything. */
  lemma {:induction false} MendsToOnce(w: World, orders: Orders, now: real, line: Line, radius: real, depth: nat, r: Line, r': Line)
    requires MendsTo(w, orders, now, line, radius, depth, r) && MendsTo(w, orders, now, line, radius, depth, r')
    ensures r == r' && Mends(w, orders, now, line, radius, depth)
    decreases MAX_DEPTH - depth
  {
    hide AllSafe, Around, Taken, RadiusOf, World.Usable, SomeGoalMends;
    if !AllSafe(w, line.states) {
      var at: nat, anchor: nat, k: nat, mid: Line :|
        && Around(w, line.states, radius, at, anchor) && Taken(w, orders, now, line, radius, depth, at, anchor, k, mid)
        && w.Usable() && mid.states != [] && MendsTo(w, orders, now, mid, RadiusOf(w, mid.states), depth + 1, r);
      var at': nat, anchor': nat, k': nat, mid': Line :|
        && Around(w, line.states, radius, at', anchor') && Taken(w, orders, now, line, radius, depth, at', anchor', k', mid')
        && w.Usable() && mid'.states != [] && MendsTo(w, orders, now, mid', RadiusOf(w, mid'.states), depth + 1, r');
      AroundOnce(w, line.states, radius, at, anchor, at', anchor');
      MendsToOnce(w, orders, now, mid, RadiusOf(w, mid.states), depth + 1, r, r);
      MendsToOnce(w, orders, now, mid', RadiusOf(w, mid'.states), depth + 1, r', r');
      TakenOnce(w, orders, now, line, radius, depth, at, anchor, k, mid, k', mid');
      MendsToOnce(w, orders, now, mid, RadiusOf(w, mid.states), depth + 1, r, r');
      TakenMends(w, orders, now, line, radius, depth, at, anchor, k, mid);
    }
  }

  lemma TakenMends(w: World, orders: Orders, now: real, line: Line, radius: real, depth: nat, at: nat, anchor: nat, k: nat, mid: Line)
    requires depth < MAX_DEPTH && Taken(w, orders, now, line, radius, depth, at, anchor, k, mid)
    requires w.Usable() && mid.states != [] && Mends(w, orders, now, mid, RadiusOf(w, mid.states), depth + 1)
    ensures SomeGoalMends(w, orders, now, line, radius, depth, at, anchor)
  {
    hide GoalsOf, NoneBefore, DetourTo, RadiusOf, World.Usable, Mends;
    var goals := GoalsOf(w, line.states, at, 2.0 * radius);
    assert goals[k] in goals && GoalMends(w, orders, now, line, anchor, goals[k], radius, depth);
  }

  lemma TakenOnce(w: World, orders: Orders, now: real, line: Line, radius: real, depth: nat, at: nat, anchor: nat,
                  k: nat, mid: Line, k': nat, mid': Line)
    requires depth < MAX_DEPTH && w.Usable() && mid.states != [] && mid'.states != []
    requires Taken(w, orders, now, line, radius, depth, at, anchor, k, mid) && Mends(w, orders, now, mid, RadiusOf(w, mid.states), depth + 1)
    requires Taken(w, orders, now, line, radius, depth, at, anchor, k', mid') && Mends(w, orders, now, mid', RadiusOf(w, mid'.states), depth + 1)
    ensures k == k' && mid == mid'
  {
    hide GoalsOf, DetourTo, RadiusOf, World.Usable, Mends;
    var goals := GoalsOf(w, line.states, at, 2.0 * radius);
    assert GoalMends(w, orders, now, line, anchor, goals[k], radius, depth);
    assert GoalMends(w, orders, now, line, anchor, goals[k'], radius, depth);
    DetourOnce(w, orders, now, line, anchor, goals[k], radius, mid, mid');
  }

  // ---------------------------------------------------------------------------- repairing

  lemma TrackedThere(w: World, orders: Orders, now: real, line: Line, depth: nat, n: nat, m: nat, at: nat)
    requires w.Usable() && line.states != [] && line.indices != []
    requires !Clear(w, orders, now, line, depth) && FoundAhead(w, orders, now, line, depth, m)
    requires FirstUnsafe(w, Extended(w, orders, now, line, m).states, at)
    requires if depth >= MAX_DEPTH then n == m else ReachesRoom(w, orders, now, line, depth, at, 2.0 * RadiusOf(w, line.states), m, n)
    ensures TrackedTo(w, orders, now, line, depth, n)
  {
    hide Clear, FoundAhead, FirstUnsafe, ReachesRoom, RadiusOf, Extended, World.Usable;
    assert TrackedVia(w, orders, now, line, depth, n, m, at);
  }

  lemma TrackedClear(w: World, orders: Orders, now: real, line: Line, depth: nat)
    requires w.Usable() && line.states != [] && line.indices != [] && Clear(w, orders, now, line, depth)
    ensures TrackedTo(w, orders, now, line, depth, 0)
  {
    hide Clear, World.Usable;
  }

  lemma RadiusIs(w: World, states: seq<MotionState>)
    requires w.Usable() && states != []
    ensures RadiusOf(w, states) == TurningRadius(w, Cells(w, TopSpeed(states)))
  {
  }

  /** Make the reference safe. It comes back as it is when no collision is near; otherwise
      up to eight detours replace parts of it, and each of them rejoins it further on.  It is given up
      exactly if no goal of any collision leads to a repair. */
  method Repair(w: World, orders: Orders, now: real, track: Track, depth: nat)
    returns (repaired: Option<Track>, ghost n: nat, ghost splices: nat)
    requires w.Usable() && track.line.Sound(w) && depth <= MAX_DEPTH
    requires track.line.states != [] && track.line.indices != []
    modifies track
    ensures track.line == Extended(w, orders, now, old(track.line), n) && (depth > 0 ==> n == 0)
    ensures Lasts(w, orders, Beyond(now, old(track.line)), n) && TrackedTo(w, orders, now, old(track.line), depth, n)
    ensures repaired.Some? <==> Mends(w, orders, now, track.line, RadiusOf(w, old(track.line.states)), depth)
    ensures repaired.Some? ==> MendsTo(w, orders, now, track.line, RadiusOf(w, old(track.line.states)), depth, repaired.value.line)
    ensures AllSafe(w, track.line.states) <==> repaired == Some(track)
    ensures repaired == Some(track) ==> n == 0 && splices == 0
    ensures AllSafe(w, old(track.line.states)) && !w.anyObstacle ==> repaired == Some(track)
    ensures repaired == Some(track) && depth == 0 && w.anyObstacle ==> LooksAhead(w, orders, now, track.line)
    ensures repaired.Some? ==> repaired.value == track || fresh(repaired.value)
    ensures repaired.Some? ==> splices <= MAX_DEPTH - depth && AllSafe(w, repaired.value.line.states)
    ensures repaired.Some? ==> Detoured(w, orders, now, track.line, repaired.value.line, splices)
    decreases MAX_DEPTH - depth
  {
    hide *;
    ghost var line := track.line;
    LastOf(w, line);
    var cells := Cells(w, TopSpeed(track.line.states));
    var radius := TurningRadius(w, cells);
    RadiusIs(w, track.line.states);
    var collision, extension, m := Collide(w, orders, now, track, depth, radius, cells);
    n := m;
    if collision.None? {
      Undetoured(w, orders, now, line);
      SafeMends(w, orders, now, line, radius, depth);
      TrackedClear(w, orders, now, line, depth);
      return Some(track), 0, 0;
    }
    var at := collision.value;
    CollisionWithin(w, track.line.states, at);
    if depth >= MAX_DEPTH {
      TooDeep(w, orders, now, track.line, radius, depth);
      TrackedThere(w, orders, now, line, depth, n, m, at);
      return None, n, 0;
    }
    var anchor := Approach(w, track.line.states, at, 3.0 * radius);
    ghost var approached := track.line.states;
    var goals;
    goals, n := SelectGoals(w, orders, now, track, depth, at, extension, n, line, 2.0 * radius);
    CollisionWithin(w, track.line.states, at);
    ExtendedIsSound(w, orders, now, line, n);
    TrackedThere(w, orders, now, line, depth, n, m, at);
    AnchorStays(w, approached, track.line.states, at, 3.0 * radius, anchor);
    AroundHere(w, track.line.states, radius, at, anchor);
    NoneNext(w, orders, now, track.line, anchor, goals, 0, radius, depth);
    for k := 0 to |goals|
      invariant track.line == Extended(w, orders, now, line, n)
      invariant NoneBefore(w, orders, now, track.line, anchor, goals, k, radius, depth)
    {
      AnchorWithin(w, track.line.states, radius, at, anchor);
      PointsHold(w, track.line, anchor, at, goals[k]);
      var rejoined, detour, commands := Detour(w, orders, now, track.line, anchor, at, goals[k], radius);
      if rejoined.Some? {
        TakenHere(w, orders, now, track.line, radius, depth, at, anchor, k, rejoined.value);
        var next := new Track(rejoined.value);
        ghost var more;
        repaired, more := RepairRest(w, orders, now, next, rejoined.value, depth);
        if repaired.Some? {
          GoalTaken(w, orders, now, track.line, radius, depth, at, anchor, k, rejoined.value, repaired.value.line);
          DetouredStep(w, orders, now, track.line, rejoined.value, repaired.value.line, anchor, at, goals[k], detour, commands, more);
          return repaired, n, more + 1;
        }
      }
      GoalFails(w, orders, now, track.line, anchor, goals[k], radius, depth, rejoined);
      NoneNext(w, orders, now, track.line, anchor, goals, k, radius, depth);
    }
    NoGoalMends(w, orders, now, track.line, radius, depth, at, anchor);
    return None, n, 0;
  }

  lemma AnchorWithin(w: World, states: seq<MotionState>, radius: real, at: nat, anchor: nat)
    requires Around(w, states, radius, at, anchor)
    ensures anchor <= at
  {
  }

  /** The repair of a spliced line: the track is not the caller's, and is not extended again. */
  method RepairRest(w: World, orders: Orders, now: real, next: Track, rejoined: Line, depth: nat)
    returns (repaired: Option<Track>, ghost splices: nat)
    requires w.Usable() && next.line == rejoined && rejoined.Sound(w) && depth < MAX_DEPTH
    modifies next
    ensures rejoined.states != []
    ensures repaired.Some? <==> Mends(w, orders, now, rejoined, RadiusOf(w, rejoined.states), depth + 1)
    ensures repaired.Some? ==> MendsTo(w, orders, now, rejoined, RadiusOf(w, rejoined.states), depth + 1, repaired.value.line)
    ensures repaired.Some? ==> repaired.value == next || fresh(repaired.value)
    ensures repaired.Some? ==> splices < MAX_DEPTH - depth && AllSafe(w, repaired.value.line.states)
    ensures repaired.Some? ==> Detoured(w, orders, now, rejoined, repaired.value.line, splices)
    decreases MAX_DEPTH - depth, 0
  {
    hide *;
    LastOf(w, rejoined);
    LastsStep(w, orders, Beyond(now, rejoined), 0);
    ExtendedIsSound(w, orders, now, rejoined, 0);
    ghost var m;
    repaired, m, splices := Repair(w, orders, now, next, depth + 1);
  }

  // ------------------------------------------------------------------ the nominal roll

  function Outset(r: Reference): Line { Line([r.state], [], [r.index]) }

  /** Roll the reference out until it ends. */
  method RollReference(w: World, orders: Orders, r0: Reference) returns (line: Line, ghost n: nat)
    requires w.Usable()
    ensures line == Join(Outset(r0), Steps(w, orders, r0, n)) && line.Sound(w)
    ensures Lasts(w, orders, r0, n) && !Continues(w, ReferenceAt(w, orders, r0, n))
    ensures line.states != [] && line.indices != [] && line.states[0] == r0.state
  {
    hide Obey, Guidance, OrderedSpeed, StepsLeft, Continues;
    line, n := Outset(r0), 0;
    var r := r0;
    UsableStep(w);
    while Continues(w, r)
      invariant line == Join(Outset(r0), Steps(w, orders, r0, n)) && r == ReferenceAt(w, orders, r0, n)
      invariant Lasts(w, orders, r0, n)
      decreases StepsLeft(w.step, r.elapsed, r.duration)
    {
      ReferenceShrinks(w, orders, r);
      LastsStep(w, orders, r0, n);
      JoinStep(w, orders, Outset(r0), r0, n);
      var command, next := ReferenceCommand(w, orders, r), NextReference(w, orders, r);
      line := Join(line, Line([next.state], [command], [next.index]));
      r, n := next, n + 1;
    }
    ReferenceIsSound(w, orders, Outset(r0), r0, n);
    LastOf(w, line);
    assert line.states[0] == r0.state;
  }

  // ------------------------------------------------------------------------- rollouts

  /** The states a run of commands goes through. */
  function Rollout(w: World, initial: MotionState, commands: seq<Command>): (states: seq<MotionState>)
    requires w.maxTurnRate > 0.0
    ensures |states| == |commands| + 1
    decreases |commands|
  {
    if commands == [] then [initial] else
      var k := |commands| - 1;
      var before := Rollout(w, initial, commands[..k]);
      before + [Obey(w, before[k], commands[k])]
  }

  lemma {:induction false} RolloutIsChain(w: World, initial: MotionState, commands: seq<Command>)
    requires w.maxTurnRate > 0.0
    ensures Chain(w, Rollout(w, initial, commands), commands) && Rollout(w, initial, commands)[0] == initial
    decreases |commands|
  {
    if commands != [] {
      var k := |commands| - 1;
      RolloutIsChain(w, initial, commands[..k]);
      ChainAppend(w, Rollout(w, initial, commands[..k]), commands[..k], commands[k]);
      assert commands == commands[..k] + [commands[k]];
    }
  }

  /** Dynamics are deterministic: a chain is the rollout of its commands. */
  lemma {:induction false} ChainIsRollout(w: World, states: seq<MotionState>, commands: seq<Command>)
    requires Chain(w, states, commands)
    ensures states == Rollout(w, states[0], commands)
    decreases |commands|
  {
    if commands != [] {
      var k := |commands| - 1;
      assert Chain(w, states[..|states| - 1], commands[..k]) by {
        forall i: nat | i < k
          ensures states[..|states| - 1][i + 1] == Obey(w, states[..|states| - 1][i], commands[..k][i])
        {
          assert states[i + 1] == Obey(w, states[i], commands[i]);
        }
      }
      ChainIsRollout(w, states[..|states| - 1], commands[..k]);
      assert states[k + 1] == Obey(w, states[k], commands[k]);
      assert states == states[..k + 1] + [states[k + 1]];
    }
  }

  /** A rollout of fewer commands is the beginning of the rollout of all. */
  lemma {:induction false} RolloutPrefix(w: World, initial: MotionState, commands: seq<Command>, n: nat)
    requires w.maxTurnRate > 0.0 && n <= |commands|
    ensures Rollout(w, initial, commands[..n]) == Rollout(w, initial, commands)[..n + 1]
    decreases |commands|
  {
    if n < |commands| {
      var k := |commands| - 1;
      RolloutPrefix(w, initial, commands[..k], n);
      assert commands[..k][..n] == commands[..n];
    } else {
      assert commands[..n] == commands;
    }
  }

  // -------------------------------------------------------------------------- braking

  ghost predicate BrakingAt(step: real, heading: real, duration: real, commands: seq<Command>, i: nat) {
    i < |commands| ==> commands[i] == Command(Least(step, duration - TotalTime(commands[..i])), heading, 0.0)
  }

  /** Full steps while they fit, then what is left. */
  ghost predicate BrakingPace(w: World, heading: real, duration: real, commands: seq<Command>) {
    forall i: nat :: i < |commands| ==> BrakingAt(w.step, heading, duration, commands, i)
  }

  /** The next braking step would not be safe. */
  ghost predicate BrakingBlocked(w: World, state: MotionState, heading: real, dt: real)
    requires w.maxTurnRate > 0.0
  {
    dt > EPSILON && !w.safe(state.pose, Roll(w, state, heading, 0.0, dt).pose)
  }

  lemma TotalTimeStep(commands: seq<Command>, command: Command)
    ensures TotalTime(commands + [command]) == TotalTime(commands) + command.duration
  {
    assert (commands + [command])[..|commands|] == commands;
  }

  lemma BrakingStep(w: World, heading: real, duration: real, commands: seq<Command>)
    requires BrakingPace(w, heading, duration, commands)
    ensures var command := Command(Least(w.step, duration - TotalTime(commands)), heading, 0.0);
            BrakingPace(w, heading, duration, commands + [command])
            && TotalTime(commands + [command]) == TotalTime(commands) + command.duration
  {
    hide TotalTime;
    var command := Command(Least(w.step, duration - TotalTime(commands)), heading, 0.0);
    TotalTimeStep(commands, command);
    var more := commands + [command];
    assert more[..|commands|] == commands;
    forall i: nat | i < |more|
      ensures BrakingAt(w.step, heading, duration, more, i)
    {
      if i < |commands| {
        assert BrakingAt(w.step, heading, duration, commands, i);
        assert more[..i] == commands[..i];
      }
    }
  }

  /** Brake straight ahead for as long as that is safe. */
  method Brake(w: World, initial: MotionState, duration: real)
    returns (states: seq<MotionState>, commands: seq<Command>, blocked: bool)
    requires w.Usable()
    ensures Chain(w, states, commands) && AllSafe(w, states) && states[0] == initial && Timed(commands)
    ensures BrakingPace(w, initial.pose.heading, duration, commands)
    ensures !blocked ==> TotalTime(commands) >= duration - EPSILON
    ensures blocked ==> BrakingBlocked(w, states[|states| - 1], initial.pose.heading, Least(w.step, duration - TotalTime(commands)))
  {
    hide Chain, AllSafe, Roll, BrakingPace, TotalTime, StepsLeft, Timed;
    states, commands := [initial], [];
    var heading, elapsed := initial.pose.heading, 0.0;
    Standing(w, initial, duration);
    while elapsed < duration - EPSILON
      invariant states != [] && states[0] == initial && elapsed == TotalTime(commands)
      invariant Chain(w, states, commands) && AllSafe(w, states) && BrakingPace(w, heading, duration, commands) && Timed(commands)
      decreases StepsLeft(w.step, elapsed, duration)
    {
      var state := states[|states| - 1];
      var dt := Least(w.step, duration - elapsed);
      StepTaken(w.step, elapsed, duration);
      var command := Command(dt, heading, 0.0);
      var candidate := Roll(w, state, heading, 0.0, dt);
      if !w.safe(state.pose, candidate.pose) {
        return states, commands, true;
      }
      BrakingStep(w, heading, duration, commands);
      ChainAppend(w, states, commands, command);
      SafeAppend(w, states, candidate);
      OneTimed(command);
      TimedJoin(commands, [command]);
      states, commands := states + [candidate], commands + [command];
      elapsed := elapsed + dt;
    }
    blocked := false;
  }

  lemma OneTimed(command: Command)
    requires command.duration > EPSILON
    ensures Timed([command])
  {
  }

  lemma Standing(w: World, initial: MotionState, duration: real)
    requires w.Usable()
    ensures Chain(w, [initial], []) && AllSafe(w, [initial]) && Timed([])
    ensures BrakingPace(w, initial.pose.heading, duration, []) && TotalTime([]) == 0.0
  {
  }
}
