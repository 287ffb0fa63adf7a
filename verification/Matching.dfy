/** Augmenting-path matching of representative search tasks onto idle aircraft.

    `Matcher.Visit` is the recursive search that tries to place one task, moving
    already placed tasks out of the way.  A failed search leaves a *dead* region
    behind: a set of aircraft, all of them taken, that the tasks holding them can
    never leave.  No later search changes a dead region, which is why one pass
    over the tasks already yields a maximum matching.
  */
module Matching {

  import opened Finite

  type Task = string
  type Uav = string

  /** Which aircraft can legally fly which task, in the order they are tried. */
  type Adjacency = map<Task, seq<Uav>>

  ghost predicate Within(adjacency: Adjacency, available: set<Uav>) {
    forall t, u :: t in adjacency && u in adjacency[t] ==> u in available
  }

  ghost predicate OnEdges(adjacency: Adjacency, m: map<Uav, Task>) {
    forall u :: u in m ==> m[u] in adjacency && u in adjacency[m[u]]
  }

  /** Leaving the aircraft in `free` aside, no task is placed on two aircraft. */
  ghost predicate OnePlace(m: map<Uav, Task>, free: set<Uav>) {
    forall u, v :: u in m && v in m && u !in free && v !in free && m[u] == m[v] ==> u == v
  }

  ghost predicate IsMatching(adjacency: Adjacency, m: map<Uav, Task>) {
    OnePlace(m, {}) && OnEdges(adjacency, m)
  }

  /** `t` is placed on an aircraft not in `free`. */
  ghost predicate PlacedOutside(m: map<Uav, Task>, free: set<Uav>, t: Task) {
    exists u :: u in m && u !in free && m[u] == t
  }

  ghost predicate Placed(m: map<Uav, Task>, t: Task) {
    PlacedOutside(m, {}, t)
  }

  /** Every aircraft of `t` lies in `us`. */
  ghost predicate Confined(adjacency: Adjacency, t: Task, us: set<Uav>) {
    t in adjacency && forall u :: u in adjacency[t] ==> u in us
  }

  /** The aircraft that `after` adds to `before` are taken, by tasks confined to `after`. */
  ghost predicate Exhausted(adjacency: Adjacency, m: map<Uav, Task>, before: set<Uav>, after: set<Uav>) {
    forall u :: u in after && u !in before ==> u in m && Confined(adjacency, m[u], after)
  }

  /** All of `us` is taken, by tasks that have no aircraft outside `us`. */
  ghost predicate Dead(adjacency: Adjacency, m: map<Uav, Task>, us: set<Uav>) {
    Exhausted(adjacency, m, {}, us)
  }

  /** The aircraft currently held by `t`. */
  ghost function Holds(m: map<Uav, Task>, t: Task): set<Uav> {
    set u | u in m && m[u] == t
  }

  ghost predicate AgreeOn(m: map<Uav, Task>, m': map<Uav, Task>, us: set<Uav>) {
    forall u :: u in us ==> (u in m <==> u in m') && (u in m ==> m'[u] == m[u])
  }

  /** What a successful search started at `t` does: leaving aside the aircraft `held` that `t` held
      before, the tasks placed are the old ones and `t`, still each on one aircraft; one more
      aircraft is used; the aircraft in `kept` keep their tasks. */
  ghost predicate Augmented(m: map<Uav, Task>, m': map<Uav, Task>, t: Task, held: set<Uav>, kept: set<Uav>) {
    && m.Keys <= m'.Keys
    && |m'| == |m| + 1
    && OnePlace(m', held)
    && (forall x :: PlacedOutside(m', held, x) <==> x == t || PlacedOutside(m, held, x))
    && AgreeOn(m, m', kept)
  }

  class Matcher {
    const adjacency: Adjacency
    const available: set<Uav>
    var matched: map<Uav, Task>

    ghost predicate Valid()
      reads this
    {
      && OnEdges(adjacency, matched)
      && OnePlace(matched, {})
      && Within(adjacency, available)
    }

    constructor (adjacency: Adjacency, available: set<Uav>, witnesses: map<Uav, Task>)
      requires Within(adjacency, available)
      requires IsMatching(adjacency, witnesses)
      ensures Valid() && this.adjacency == adjacency && this.available == available
      ensures matched == witnesses
    {
      this.adjacency, this.available, this.matched := adjacency, available, witnesses;
    }

    /** Try to place `task`, recursing into the task that blocks it.  `held` are the aircraft that
        `task` holds already (none, or the one its caller is about to take over); `dead` is any dead
        region: the search leaves it alone, and fails if the task has nowhere else to go. */
    method Visit(task: Task, seen: set<Uav>, ghost held: set<Uav>, ghost dead: set<Uav>)
      returns (ok: bool, after: set<Uav>)
      requires OnEdges(adjacency, matched) && OnePlace(matched, {})
      requires Within(adjacency, available)
      requires task in adjacency
      requires held == Holds(matched, task) && held <= seen <= available
      requires Dead(adjacency, matched, dead)
      modifies this`matched
      ensures seen <= after <= available
      ensures !ok ==> matched == old(matched) && Confined(adjacency, task, after)
                      && Exhausted(adjacency, matched, seen, after)
      ensures ok ==> Augmented(old(matched), matched, task, held, seen + dead)
                     && OnEdges(adjacency, matched)
      ensures ok ==> !Confined(adjacency, task, dead)
      decreases available - seen
    {
      hide *;
      after := seen;
      var uavs := adjacency[task];
      NothingExhausted(adjacency, matched, seen);
      for i := 0 to |uavs|
        invariant matched == old(matched)
        invariant seen <= after <= available
        invariant forall k :: 0 <= k < i ==> uavs[k] in after
        invariant Exhausted(adjacency, matched, seen, after)
      {
        var uav := uavs[i];
        if uav !in after {
          ghost var before := after;
          UavAvailable(adjacency, available, task, uav);
          after := after + {uav};
          if uav !in matched {
            ClaimFree(adjacency, matched, task, uav, held, seen, dead);
            matched := matched[uav := task];
            return true, after;
          }
          var previous := matched[uav];
          HolderOf(adjacency, matched, uav);
          var moved;
          moved, after := Visit(previous, after, {uav}, dead);
          if moved {
            TakeOver(adjacency, old(matched), matched, task, uav, held, seen, before, dead);
            matched := matched[uav := task];
            return true, after;
          }
          Backtrack(adjacency, matched, seen, before, uav, after);
        }
      }
      AllSeen(adjacency, task, after);
      return false, after;
    }

    /** One search per task that nothing has placed yet, in order. */
    method MatchAll(tasks: seq<Task>)
      requires Valid()
      requires forall t :: t in adjacency <==> t in tasks
      modifies this`matched
      ensures Valid() && IsMatching(adjacency, matched)
      ensures old(matched).Keys <= matched.Keys
      ensures forall t :: Placed(old(matched), t) ==> Placed(matched, t)
      ensures IsMaximum(adjacency, matched)
    {
      hide *;
      ghost var dead: set<Uav> := {};
      StartDead(this);
      for i := 0 to |tasks|
        invariant Valid() && OnEdges(adjacency, matched) && OnePlace(matched, {})
        invariant Within(adjacency, available)
        invariant old(matched).Keys <= matched.Keys
        invariant forall t :: Placed(old(matched), t) ==> Placed(matched, t)
        invariant Dead(adjacency, matched, dead)
        invariant forall k :: 0 <= k < i ==> Placed(matched, tasks[k]) || Confined(adjacency, tasks[k], dead)
      {
        var task := tasks[i];
        PlacedIsValue(matched, task);
        if task !in matched.Values {
          ghost var before := matched;
          var ok, after := Visit(task, {}, {}, dead);
          if ok {
            AfterSuccess(adjacency, before, matched, task, dead);
          } else {
            AfterFailure(adjacency, before, tasks[..i], dead, after);
            dead := dead + after;
          }
          StillValid(this);
        }
      }
      DeadRegionIsMaximum(adjacency, matched, tasks, dead);
    }
  }

  ghost predicate IsMaximum(adjacency: Adjacency, m: map<Uav, Task>) {
    forall other :: IsMatching(adjacency, other) ==> |other| <= |m|
  }

  lemma StartDead(matcher: Matcher)
    requires matcher.Valid()
    ensures Dead(matcher.adjacency, matcher.matched, {})
    ensures OnEdges(matcher.adjacency, matcher.matched) && OnePlace(matcher.matched, {})
    ensures Within(matcher.adjacency, matcher.available)
  {
  }

  lemma StillValid(matcher: Matcher)
    requires OnEdges(matcher.adjacency, matcher.matched) && OnePlace(matcher.matched, {})
    requires Within(matcher.adjacency, matcher.available)
    ensures matcher.Valid() && IsMatching(matcher.adjacency, matcher.matched)
  {
  }

  lemma PlacedIsValue(m: map<Uav, Task>, task: Task)
    ensures task in m.Values <==> Placed(m, task)
    ensures task !in m.Values ==> Holds(m, task) == {}
  {
  }

  /** A successful search keeps what was placed, adds its task, and keeps the dead region dead. */
  lemma AfterSuccess(adjacency: Adjacency, m: map<Uav, Task>, m': map<Uav, Task>, task: Task, dead: set<Uav>)
    requires Augmented(m, m', task, {}, {} + dead)
    requires Dead(adjacency, m, dead)
    ensures OnePlace(m', {}) && m.Keys <= m'.Keys && Placed(m', task)
    ensures forall t :: Placed(m, t) ==> Placed(m', t)
    ensures Dead(adjacency, m', dead)
  {
    assert AgreeOn(m, m', {} + dead);
  }

  /** A failed search enlarges the dead region, and its task is confined to it. */
  lemma AfterFailure(adjacency: Adjacency, m: map<Uav, Task>, failed: seq<Task>, dead: set<Uav>, after: set<Uav>)
    requires Dead(adjacency, m, dead) && Exhausted(adjacency, m, {}, after)
    ensures Dead(adjacency, m, dead + after)
    ensures forall t :: Confined(adjacency, t, after) || Confined(adjacency, t, dead) ==> Confined(adjacency, t, dead + after)
  {
  }

  lemma DeadRegionIsMaximum(adjacency: Adjacency, m: map<Uav, Task>, tasks: seq<Task>, dead: set<Uav>)
    requires OnEdges(adjacency, m) && OnePlace(m, {})
    requires Dead(adjacency, m, dead)
    requires forall t :: t in adjacency <==> t in tasks
    requires forall k :: 0 <= k < |tasks| ==> Placed(m, tasks[k]) || Confined(adjacency, tasks[k], dead)
    ensures IsMatching(adjacency, m) && IsMaximum(adjacency, m)
  {
    forall other | IsMatching(adjacency, other)
      ensures |other| <= |m|
    {
      DeadRegionBounds(adjacency, m, other, dead);
    }
  }

  lemma UavAvailable(adjacency: Adjacency, available: set<Uav>, task: Task, uav: Uav)
    requires Within(adjacency, available) && task in adjacency && uav in adjacency[task]
    ensures uav in available
  {
  }

  lemma AllSeen(adjacency: Adjacency, task: Task, after: set<Uav>)
    requires task in adjacency && forall k :: 0 <= k < |adjacency[task]| ==> adjacency[task][k] in after
    ensures Confined(adjacency, task, after)
  {
  }

  lemma NothingExhausted(adjacency: Adjacency, m: map<Uav, Task>, us: set<Uav>)
    ensures Exhausted(adjacency, m, us, us)
  {
  }

  lemma HolderOf(adjacency: Adjacency, m: map<Uav, Task>, uav: Uav)
    requires OnEdges(adjacency, m) && OnePlace(m, {}) && uav in m
    ensures m[uav] in adjacency && Holds(m, m[uav]) == {uav}
  {
  }

  lemma Backtrack(adjacency: Adjacency, m: map<Uav, Task>, seen: set<Uav>, before: set<Uav>, uav: Uav, after: set<Uav>)
    requires Exhausted(adjacency, m, seen, before) && uav in m && before + {uav} <= after
    requires Exhausted(adjacency, m, before + {uav}, after) && Confined(adjacency, m[uav], after)
    ensures Exhausted(adjacency, m, seen, after)
  {
  }

  lemma ClaimFree(adjacency: Adjacency, m: map<Uav, Task>, task: Task, uav: Uav,
                  held: set<Uav>, seen: set<Uav>, dead: set<Uav>)
    requires OnEdges(adjacency, m) && OnePlace(m, {})
    requires task in adjacency && uav in adjacency[task] && uav !in m && uav !in seen
    requires held == Holds(m, task) && held <= seen && Dead(adjacency, m, dead)
    ensures Augmented(m, m[uav := task], task, held, seen + dead)
    ensures OnEdges(adjacency, m[uav := task]) && !Confined(adjacency, task, dead)
  {
    hide Dead, OnePlace, OnEdges, AgreeOn, Confined;
    FreeIsNotDead(adjacency, m, task, uav, dead);
    PlacesAfterClaim(m, task, uav, held);
    ClaimKeeps(adjacency, m, task, uav, seen + dead);
  }

  lemma ClaimKeeps(adjacency: Adjacency, m: map<Uav, Task>, task: Task, uav: Uav, kept: set<Uav>)
    requires OnEdges(adjacency, m) && task in adjacency && uav in adjacency[task] && uav !in m && uav !in kept
    ensures OnEdges(adjacency, m[uav := task]) && AgreeOn(m, m[uav := task], kept)
    ensures m.Keys <= m[uav := task].Keys && |m[uav := task]| == |m| + 1
  {
    assert m[uav := task].Keys == m.Keys + {uav};
  }

  lemma FreeIsNotDead(adjacency: Adjacency, m: map<Uav, Task>, task: Task, uav: Uav, dead: set<Uav>)
    requires Dead(adjacency, m, dead) && uav !in m && task in adjacency && uav in adjacency[task]
    ensures uav !in dead && !Confined(adjacency, task, dead)
  {
  }

  lemma PlacesAfterClaim(m: map<Uav, Task>, task: Task, uav: Uav, held: set<Uav>)
    requires OnePlace(m, {}) && uav !in m && uav !in held && held == Holds(m, task)
    ensures OnePlace(m[uav := task], held)
    ensures forall x :: PlacedOutside(m[uav := task], held, x) <==> x == task || PlacedOutside(m, held, x)
  {
    var m' := m[uav := task];
    assert uav in m' && m'[uav] == task;
    forall x
      ensures PlacedOutside(m', held, x) <==> x == task || PlacedOutside(m, held, x)
    {
      if PlacedOutside(m, held, x) {
        var u :| u in m && u !in held && m[u] == x;
        assert u in m' && m'[u] == x;
      }
    }
  }

  /** The blocking task found a new place, so `uav` passes to `task`. */
  lemma TakeOver(adjacency: Adjacency, m: map<Uav, Task>, m1: map<Uav, Task>, task: Task, uav: Uav,
                 held: set<Uav>, seen: set<Uav>, before: set<Uav>, dead: set<Uav>)
    requires OnePlace(m, {}) && OnEdges(adjacency, m1)
    requires task in adjacency && uav in adjacency[task] && uav in m && uav !in before
    requires held == Holds(m, task) && held <= seen <= before && Dead(adjacency, m, dead)
    requires Augmented(m, m1, m[uav], {uav}, before + {uav} + dead)
    requires !Confined(adjacency, m[uav], dead)
    ensures Augmented(m, m1[uav := task], task, held, seen + dead)
    ensures OnEdges(adjacency, m1[uav := task]) && !Confined(adjacency, task, dead)
  {
    var m2 := m1[uav := task];
    assert uav !in dead;
    assert m2.Keys == m1.Keys;
    assert AgreeOn(m, m1, before + {uav} + dead);
    PlacesAfterTakeOver(m, m1, task, uav, held, before + {uav} + dead);
  }

  lemma PlacesAfterTakeOver(m: map<Uav, Task>, m1: map<Uav, Task>, task: Task, uav: Uav, held: set<Uav>, kept: set<Uav>)
    requires OnePlace(m, {}) && uav in m && uav !in held
    requires held == Holds(m, task) && held <= kept && uav in kept
    requires Augmented(m, m1, m[uav], {uav}, kept)
    ensures OnePlace(m1[uav := task], held)
    ensures forall x :: PlacedOutside(m1[uav := task], held, x) <==> x == task || PlacedOutside(m, held, x)
  {
    var m2 := m1[uav := task];
    assert m[uav] != task;
    forall u | u in m1 && u != uav && m1[u] == task
      ensures u in held
    {
      assert PlacedOutside(m1, {uav}, task);
      var h :| h in m && h != uav && m[h] == task;
      assert h in held && m1[h] == task;
    }
    forall x
      ensures PlacedOutside(m2, held, x) <==> x == task || PlacedOutside(m, held, x)
    {
      if x == task {
        assert uav in m2 && m2[uav] == task;
      } else {
        if PlacedOutside(m, held, x) {
          var u0 :| u0 in m && u0 !in held && m[u0] == x;
          assert x == m[uav] || PlacedOutside(m, {uav}, x);
          assert PlacedOutside(m1, {uav}, x);
          var u :| u in m1 && u != uav && m1[u] == x;
          assert u in m2 && m2[u] == x && u !in held;
        }
        if PlacedOutside(m2, held, x) {
          var u :| u in m2 && u !in held && m2[u] == x;
          assert u != uav && PlacedOutside(m1, {uav}, x);
          if x == m[uav] {
            assert uav in m && uav !in held;
          } else {
            assert PlacedOutside(m, {uav}, x);
            var v :| v in m && v != uav && m[v] == x;
            assert v !in held;
          }
        }
      }
    }
  }

  /** A matching whose unplaced tasks are all confined to one dead region is maximum. */
  lemma DeadRegionBounds(adjacency: Adjacency, m: map<Uav, Task>, other: map<Uav, Task>, dead: set<Uav>)
    requires IsMatching(adjacency, m) && IsMatching(adjacency, other)
    requires Dead(adjacency, m, dead)
    requires forall t :: t in adjacency ==> Placed(m, t) || Confined(adjacency, t, dead)
    ensures |other| <= |m|
  {
    hide Confined, Placed;
    var outside := other.Keys - dead;
    forall u | u in outside
      ensures exists v :: HomeOf(m, dead, other[u], v)
    {
      FindsHome(adjacency, m, dead, other, u);
    }
    assert dead <= m.Keys;
    var home: map<Uav, Uav> := map u | u in outside :: var v :| HomeOf(m, dead, other[u], v); v;
    forall x, y | x in home && y in home && home[x] == home[y]
      ensures x == y
    {
      assert HomeOf(m, dead, other[x], home[x]) && HomeOf(m, dead, other[y], home[y]);
    }
    InjectionBounds(home, m.Keys - dead);
    CountByRegion(m, other, dead, home);
  }

  ghost predicate HomeOf(m: map<Uav, Task>, dead: set<Uav>, t: Task, v: Uav) {
    v in m && v !in dead && m[v] == t
  }

  lemma FindsHome(adjacency: Adjacency, m: map<Uav, Task>, dead: set<Uav>, other: map<Uav, Task>, u: Uav)
    requires OnEdges(adjacency, other) && Dead(adjacency, m, dead)
    requires forall t :: t in adjacency ==> Placed(m, t) || Confined(adjacency, t, dead)
    requires u in other && u !in dead
    ensures exists v :: HomeOf(m, dead, other[u], v)
  {
    assert !Confined(adjacency, other[u], dead);
    var v :| v in m && v !in {} && m[v] == other[u];
    assert HomeOf(m, dead, other[u], v);
  }

  lemma CountByRegion(m: map<Uav, Task>, other: map<Uav, Task>, dead: set<Uav>, home: map<Uav, Uav>)
    requires dead <= m.Keys && home.Keys == other.Keys - dead && |home| <= |m.Keys - dead|
    ensures |other| <= |m|
  {
    SplitCard(other.Keys, dead);
    SplitCard(m.Keys, dead);
    SubsetCard(other.Keys * dead, dead);
    assert m.Keys * dead == dead;
    assert |home| == |home.Keys| && |other| == |other.Keys| && |m| == |m.Keys|;
  }
}
