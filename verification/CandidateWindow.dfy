/** Choosing the bounded, non-overlapping set of candidates that scheduling works on. */
module CandidateWindow {

  import opened Finite
  import opened Rectangles
  import opened Tilings

  /** A candidate; urgent work is everything that is not an ordinary search. */
  datatype SearchTask = SearchTask(id: string, ordinary: bool, bbox: Option<Rect>, intent: bool)

  /** The zones of the chart: where a box lies, and whether it lies there entirely. */
  datatype Zones = Zones(zoneOf: Rect -> Option<string>, contains: (string, Rect) -> bool)

  datatype Window = Window(tasks: seq<SearchTask>, representatives: seq<string>, sources: seq<(string, string)>)

  type Group = (string, seq<SearchTask>)

  // ---------------------------------------------------------------------- task lists

  predicate HasId(tasks: seq<SearchTask>, id: string) { exists i: nat :: i < |tasks| && tasks[i].id == id }

  ghost predicate UniqueIds(tasks: seq<SearchTask>) {
    forall i: nat, j: nat :: i < j < |tasks| ==> tasks[i].id != tasks[j].id
  }

  /** The first candidate of every ID; an empty ID does not count. */
  function Firsts(ranked: seq<SearchTask>): (r: seq<SearchTask>)
    ensures UniqueIds(r) && !HasId(r, "")
    ensures forall t :: t in ranked && t.id != "" ==> HasId(r, t.id)
    ensures forall t :: t in r ==> t in ranked
  {
    if ranked == [] then [] else
      var n := |ranked| - 1;
      var before, t := Firsts(ranked[..n]), ranked[n];
      assert ranked == ranked[..n] + [t];
      if t.id == "" || HasId(before, t.id) then before
      else
        assert forall id :: HasId(before, id) ==> HasId(before + [t], id) by { Longer(before, t); }
        assert (before + [t])[|before|].id == t.id;
        before + [t]
  }

  lemma Longer(tasks: seq<SearchTask>, t: SearchTask)
    ensures forall id :: HasId(tasks, id) ==> HasId(tasks + [t], id)
  {
    forall id | HasId(tasks, id)
      ensures HasId(tasks + [t], id)
    {
      var i: nat :| i < |tasks| && tasks[i].id == id;
      assert (tasks + [t])[i].id == id;
    }
  }

  function Chosen(tasks: seq<SearchTask>, ordinary: bool): (r: seq<SearchTask>)
    ensures forall t :: t in r <==> t in tasks && t.ordinary == ordinary
  {
    if tasks == [] then [] else
      var n := |tasks| - 1;
      assert tasks == tasks[..n] + [tasks[n]];
      Chosen(tasks[..n], ordinary) + if tasks[n].ordinary == ordinary then [tasks[n]] else []
  }

  /** A task whose box overlaps the box of one of `others`. */
  predicate Overlaps(t: SearchTask, others: seq<SearchTask>) {
    t.bbox.Some? && exists i: nat :: i < |others| && others[i].bbox.Some? && Intersects(t.bbox.value, others[i].bbox.value)
  }

  ghost predicate Apart(tasks: seq<SearchTask>) {
    && (forall i: nat :: i < |tasks| ==> tasks[i].bbox.Some?)
    && forall i: nat, j: nat :: i < j < |tasks| ==> !Intersects(tasks[i].bbox.value, tasks[j].bbox.value)
  }

  lemma ApartNext(tasks: seq<SearchTask>, t: SearchTask)
    requires Apart(tasks) && t.bbox.Some? && !Overlaps(t, tasks)
    ensures Apart(tasks + [t])
  {
    forall i: nat | i < |tasks|
      ensures !Intersects(tasks[i].bbox.value, t.bbox.value)
    {
      assert !Intersects(t.bbox.value, tasks[i].bbox.value);
    }
  }

  lemma OverlapsMore(t: SearchTask, others: seq<SearchTask>, more: seq<SearchTask>)
    requires Overlaps(t, others) && forall o :: o in others ==> o in more
    ensures Overlaps(t, more)
  {
    var i: nat :| i < |others| && others[i].bbox.Some? && Intersects(t.bbox.value, others[i].bbox.value);
    assert others[i] in more;
  }

  // ------------------------------------------------------------------------- rotation

  /** What the groups before `n` have left from their indices on. */
  ghost function RestOf(groups: seq<Group>, indices: seq<nat>, n: nat): multiset<SearchTask>
    requires Fits(groups, indices) && n <= |groups|
  {
    if n == 0 then multiset{} else RestOf(groups, indices, n - 1) + multiset(groups[n - 1].1[indices[n - 1]..])
  }

  ghost predicate Fits(groups: seq<Group>, indices: seq<nat>) {
    |indices| == |groups| && forall z: nat :: z < |groups| ==> indices[z] <= |groups[z].1|
  }

  lemma {:induction false} RestSame(groups: seq<Group>, indices: seq<nat>, z: nat, j: nat, n: nat)
    requires Fits(groups, indices) && n <= z < |groups| && j <= |groups[z].1|
    ensures RestOf(groups, indices[z := j], n) == RestOf(groups, indices, n)
  {
    if n > 0 {
      RestSame(groups, indices, z, j, n - 1);
    }
  }

  /** Moving one index on takes the tasks passed out of the rest. */
  lemma {:induction false} RestAdvance(groups: seq<Group>, indices: seq<nat>, z: nat, j: nat, n: nat)
    requires Fits(groups, indices) && z < n <= |groups| && indices[z] <= j <= |groups[z].1|
    ensures RestOf(groups, indices, n) == RestOf(groups, indices[z := j], n) + multiset(groups[z].1[indices[z]..j])
  {
    var m := n - 1;
    if z == m {
      RestSame(groups, indices, z, j, m);
      assert groups[z].1[indices[z]..] == groups[z].1[indices[z]..j] + groups[z].1[j..];
    } else {
      RestAdvance(groups, indices, z, j, m);
      SwapEnd(RestOf(groups, indices, m), RestOf(groups, indices[z := j], m), multiset(groups[z].1[indices[z]..j]),
              multiset(groups[m].1[indices[m]..]));
    }
  }

  lemma SwapEnd(a: multiset<SearchTask>, b: multiset<SearchTask>, x: multiset<SearchTask>, y: multiset<SearchTask>)
    requires a == b + x
    ensures a + y == b + y + x
  {
  }

  lemma {:induction false} RestEmpty(groups: seq<Group>, indices: seq<nat>, n: nat)
    requires Fits(groups, indices) && n <= |groups| && forall z: nat :: z < n ==> indices[z] == |groups[z].1|
    ensures RestOf(groups, indices, n) == multiset{}
  {
    if n > 0 {
      RestEmpty(groups, indices, n - 1);
    }
  }

  /** The next task of a group that overlaps nothing yet; the ones before it are passed over. */
  method PickNext(tasks: seq<SearchTask>, from: nat, rotated: seq<SearchTask>) returns (next: nat, found: bool)
    requires from <= |tasks| && forall t :: t in tasks ==> t.bbox.Some?
    ensures from <= next <= |tasks| && (from < |tasks| ==> from < next)
    ensures found ==> from < next && !Overlaps(tasks[next - 1], rotated) && AllOverlap(tasks[from..next - 1], rotated)
    ensures !found ==> next == |tasks| && AllOverlap(tasks[from..next], rotated)
  {
    next := from;
    while next < |tasks|
      invariant from <= next <= |tasks| && AllOverlap(tasks[from..next], rotated)
    {
      var t := tasks[next];
      next := next + 1;
      if !Overlaps(t, rotated) {
        assert tasks[from..next - 1] == tasks[from..next][..next - 1 - from];
        return next, true;
      }
      assert tasks[from..next] == tasks[from..next - 1] + [t];
    }
    found := false;
  }

  ghost predicate AllOverlap(tasks: seq<SearchTask>, others: seq<SearchTask>) {
    forall t :: t in tasks ==> Overlaps(t, others)
  }

  lemma AllOverlapMore(tasks: seq<SearchTask>, others: seq<SearchTask>, t: SearchTask)
    requires AllOverlap(tasks, others)
    ensures AllOverlap(tasks, others + [t])
  {
    forall x | x in tasks
      ensures Overlaps(x, others + [t])
    {
      OverlapsMore(x, others, others + [t]);
    }
  }

  lemma AllOverlapJoin(a: seq<SearchTask>, b: seq<SearchTask>, others: seq<SearchTask>)
    requires AllOverlap(a, others) && AllOverlap(b, others)
    ensures AllOverlap(a + b, others)
  {
  }

  /** A pick: the round, and the group it was made from. */
  type Pick = (nat, nat)

  predicate Sooner(p: Pick, q: Pick) { p.0 < q.0 || (p.0 == q.0 && p.1 < q.1) }

  /** Rounds go over the groups in order, one pick each; a group picked from in a round was picked
      from in every round before. */
  ghost predicate Fair(groups: seq<Group>, rotated: seq<SearchTask>, picks: seq<Pick>) {
    && |picks| == |rotated|
    && (forall i: nat :: i < |picks| ==> picks[i].1 < |groups| && rotated[i] in groups[picks[i].1].1)
    && (forall i: nat, j: nat :: i < j < |picks| ==> Sooner(picks[i], picks[j]))
    && forall i: nat :: i < |picks| && picks[i].0 > 0 ==> (picks[i].0 - 1, picks[i].1) in picks
  }

  /** Everything in the groups has been taken into the rotation, passed over, or is left. */
  ghost predicate Accounted(groups: seq<Group>, indices: seq<nat>, rotated: seq<SearchTask>, skipped: seq<SearchTask>,
                            all: multiset<SearchTask>)
  {
    Fits(groups, indices) && multiset(rotated) + multiset(skipped) + RestOf(groups, indices, |groups|) == all
    && Apart(rotated) && AllOverlap(skipped, rotated)
  }

  lemma TakeOne(groups: seq<Group>, indices: seq<nat>, rotated: seq<SearchTask>, skipped: seq<SearchTask>, all: multiset<SearchTask>,
                z: nat, next: nat, found: bool)
    requires Accounted(groups, indices, rotated, skipped, all) && z < |groups| && indices[z] <= next <= |groups[z].1|
    requires forall t :: t in groups[z].1 ==> t.bbox.Some?
    requires found ==> indices[z] < next && !Overlaps(groups[z].1[next - 1], rotated)
                       && AllOverlap(groups[z].1[indices[z]..next - 1], rotated)
    requires !found ==> AllOverlap(groups[z].1[indices[z]..next], rotated)
    ensures var passed := if found then groups[z].1[indices[z]..next - 1] else groups[z].1[indices[z]..next];
            var rotated' := if found then rotated + [groups[z].1[next - 1]] else rotated;
            Accounted(groups, indices[z := next], rotated', skipped + passed, all)
    ensures |RestOf(groups, indices[z := next], |groups|)| + (next - indices[z]) == |RestOf(groups, indices, |groups|)|
  {
    hide Overlaps, Apart, AllOverlap, RestOf;
    var tasks, from := groups[z].1, indices[z];
    RestAdvance(groups, indices, z, next, |groups|);
    var rest := RestOf(groups, indices[z := next], |groups|);
    if found {
      var t, passed := tasks[next - 1], tasks[from..next - 1];
      assert t in tasks;
      ApartNext(rotated, t);
      AllOverlapMore(skipped, rotated, t);
      AllOverlapMore(passed, rotated, t);
      AllOverlapJoin(skipped, passed, rotated + [t]);
      assert tasks[from..next] == passed + [t];
      MoveOver(rotated, [t], skipped, passed, rest, tasks[from..next], all);
    } else {
      AllOverlapJoin(skipped, tasks[from..next], rotated);
      assert rotated + [] == rotated;
      MoveOver(rotated, [], skipped, tasks[from..next], rest, tasks[from..next], all);
    }
  }

  /** Tasks that leave the rest join the rotation or are passed over. */
  lemma MoveOver(rotated: seq<SearchTask>, picked: seq<SearchTask>, skipped: seq<SearchTask>, passed: seq<SearchTask>,
                 rest: multiset<SearchTask>, moved: seq<SearchTask>, all: multiset<SearchTask>)
    requires multiset(rotated) + multiset(skipped) + (rest + multiset(moved)) == all && moved == passed + picked
    ensures multiset(rotated + picked) + multiset(skipped + passed) + rest == all
    ensures |rest + multiset(moved)| == |rest| + |moved|
  {
  }

  predicate Unfinished(groups: seq<Group>, indices: seq<nat>)
    requires |indices| == |groups|
  {
    exists z: nat :: z < |groups| && indices[z] < |groups[z].1|
  }

  /** Groups with tasks left were picked from in the last round they took part in: the current one
      for the groups before `z`, the one before for the others. */
  ghost predicate Running(groups: seq<Group>, indices: seq<nat>, picks: seq<Pick>, round: nat, z: nat)
    requires |indices| == |groups|
  {
    && (forall y: nat :: y < z && y < |groups| && indices[y] < |groups[y].1| ==> (round, y) in picks)
    && (forall y: nat :: z <= y < |groups| && indices[y] < |groups[y].1| && round > 0 ==> (round - 1, y) in picks)
    && (forall i: nat :: i < |picks| ==> picks[i].0 < round || (picks[i].0 == round && picks[i].1 < z))
  }

  lemma PickOne(groups: seq<Group>, indices: seq<nat>, rotated: seq<SearchTask>, picks: seq<Pick>, round: nat, z: nat, next: nat, t: SearchTask)
    requires Fits(groups, indices) && Fair(groups, rotated, picks) && z < |groups| && Running(groups, indices, picks, round, z)
    requires indices[z] < next <= |groups[z].1| && t in groups[z].1
    ensures Fair(groups, rotated + [t], picks + [(round, z)])
    ensures Running(groups, indices[z := next], picks + [(round, z)], round, z + 1)
  {
    hide Fair, Running;
    PickIsFair(groups, indices, rotated, picks, round, z, t);
    PickRuns(groups, indices, picks, round, z, next);
  }

  lemma PickIsFair(groups: seq<Group>, indices: seq<nat>, rotated: seq<SearchTask>, picks: seq<Pick>, round: nat, z: nat, t: SearchTask)
    requires |indices| == |groups| && Fair(groups, rotated, picks) && z < |groups| && Running(groups, indices, picks, round, z)
    requires indices[z] < |groups[z].1| && t in groups[z].1
    ensures Fair(groups, rotated + [t], picks + [(round, z)])
  {
    var more := picks + [(round, z)];
    assert more[|picks|] == (round, z);
    forall i: nat | i < |more| && more[i].0 > 0
      ensures (more[i].0 - 1, more[i].1) in more
    {
      var p := if i < |picks| then (picks[i].0 - 1, picks[i].1) else (round - 1, z);
      assert p in picks;
    }
  }

  lemma PickRuns(groups: seq<Group>, indices: seq<nat>, picks: seq<Pick>, round: nat, z: nat, next: nat)
    requires |indices| == |groups| && z < |groups| && Running(groups, indices, picks, round, z)
    ensures Running(groups, indices[z := next], picks + [(round, z)], round, z + 1)
  {
    var more, later := picks + [(round, z)], indices[z := next];
    assert more[|picks|] == (round, z);
    forall y: nat | y < z + 1 && y < |groups| && later[y] < |groups[y].1|
      ensures (round, y) in more
    {
      assert y < z ==> (round, y) in picks;
    }
    forall y: nat | z + 1 <= y < |groups| && later[y] < |groups[y].1| && round > 0
      ensures (round - 1, y) in more
    {
      assert (round - 1, y) in picks;
    }
  }

  lemma PassOne(groups: seq<Group>, indices: seq<nat>, picks: seq<Pick>, round: nat, z: nat)
    requires Fits(groups, indices) && z < |groups| && Running(groups, indices, picks, round, z)
    ensures Running(groups, indices[z := |groups[z].1|], picks, round, z + 1)
  {
  }

  lemma NextRound(groups: seq<Group>, indices: seq<nat>, picks: seq<Pick>, round: nat)
    requires |indices| == |groups| && Running(groups, indices, picks, round, |groups|)
    ensures Running(groups, indices, picks, round + 1, 0)
  {
  }

  /** Round after round, take the next usable task of every group. */
  method Rotate(groups: seq<Group>) returns (rotated: seq<SearchTask>, ghost skipped: seq<SearchTask>, ghost picks: seq<Pick>)
    requires forall z: nat, t :: z < |groups| && t in groups[z].1 ==> t.bbox.Some?
    ensures Apart(rotated) && AllOverlap(skipped, rotated) && Fair(groups, rotated, picks)
    ensures multiset(rotated) + multiset(skipped) == RestOf(groups, seq(|groups|, i => 0), |groups|)
  {
    hide *;
    rotated, skipped, picks := [], [], [];
    var indices := seq(|groups|, i => 0);
    Outset(groups);
    ghost var all := RestOf(groups, indices, |groups|);
    ghost var round := 0;
    while Unfinished(groups, indices)
      invariant |indices| == |groups| && Fits(groups, indices)
      invariant Accounted(groups, indices, rotated, skipped, all)
      invariant Fair(groups, rotated, picks) && Running(groups, indices, picks, round, 0)
      decreases |RestOf(groups, indices, |groups|)|
    {
      ghost var before := |RestOf(groups, indices, |groups|)|;
      ghost var indices0 := indices;
      for z := 0 to |groups|
        invariant |indices| == |groups| && Fits(groups, indices)
        invariant Accounted(groups, indices, rotated, skipped, all)
        invariant Fair(groups, rotated, picks) && Running(groups, indices, picks, round, z)
        invariant |RestOf(groups, indices, |groups|)| <= before
        invariant forall y: nat :: z <= y < |groups| ==> indices[y] == indices0[y]
        invariant (exists y: nat :: y < z && indices0[y] < |groups[y].1|) ==> |RestOf(groups, indices, |groups|)| < before
      {
        Bound(groups, indices, z);
        var from := indices[z];
        var next, found := PickNext(groups[z].1, from, rotated);
        TakeOne(groups, indices, rotated, skipped, all, z, next, found);
        StaysFit(groups, indices, z, next);
        if found {
          var t := groups[z].1[next - 1];
          PickOne(groups, indices, rotated, picks, round, z, next, t);
          skipped := skipped + groups[z].1[from..next - 1];
          rotated, picks := rotated + [t], picks + [(round, z)];
        } else {
          PassOne(groups, indices, picks, round, z);
          skipped := skipped + groups[z].1[from..next];
        }
        indices := indices[z := next];
      }
      NextRound(groups, indices, picks, round);
      Progress(groups, indices0);
      round := round + 1;
    }
    AllTaken(groups, indices, rotated, skipped, all);
  }

  lemma Outset(groups: seq<Group>)
    ensures var indices := seq(|groups|, i => 0);
            && Fits(groups, indices) && Accounted(groups, indices, [], [], RestOf(groups, indices, |groups|))
            && Fair(groups, [], []) && Running(groups, indices, [], 0, 0)
  {
  }

  lemma Bound(groups: seq<Group>, indices: seq<nat>, z: nat)
    requires Fits(groups, indices) && z < |groups|
    ensures indices[z] <= |groups[z].1|
  {
  }

  lemma StaysFit(groups: seq<Group>, indices: seq<nat>, z: nat, next: nat)
    requires Fits(groups, indices) && z < |groups| && next <= |groups[z].1|
    ensures Fits(groups, indices[z := next])
  {
  }

  lemma Progress(groups: seq<Group>, indices: seq<nat>)
    requires |indices| == |groups| && Unfinished(groups, indices)
    ensures exists y: nat :: y < |groups| && indices[y] < |groups[y].1|
  {
  }

  lemma AllTaken(groups: seq<Group>, indices: seq<nat>, rotated: seq<SearchTask>, skipped: seq<SearchTask>, all: multiset<SearchTask>)
    requires |indices| == |groups| && !Unfinished(groups, indices) && Accounted(groups, indices, rotated, skipped, all)
    ensures Apart(rotated) && AllOverlap(skipped, rotated) && multiset(rotated) + multiset(skipped) == all
  {
    forall z: nat | z < |groups|
      ensures indices[z] == |groups[z].1|
    {
    }
    RestEmpty(groups, indices, |groups|);
  }

  // ------------------------------------------------------------------------- grouping

  /** The zone a task belongs to. */
  function ZoneOf(zones: Zones, t: SearchTask): Option<string> {
    if t.bbox.None? then None else zones.zoneOf(t.bbox.value)
  }

  /** The tasks of a zone, in order. */
  function InZone(zones: Zones, tasks: seq<SearchTask>, zone: string): (r: seq<SearchTask>)
    ensures forall t :: t in r <==> t in tasks && ZoneOf(zones, t) == Some(zone)
  {
    if tasks == [] then [] else
      var n := |tasks| - 1;
      assert tasks == tasks[..n] + [tasks[n]];
      InZone(zones, tasks[..n], zone) + if ZoneOf(zones, tasks[n]) == Some(zone) then [tasks[n]] else []
  }

  function Zoned(zones: Zones, tasks: seq<SearchTask>): (r: seq<SearchTask>)
    ensures forall t :: t in r <==> t in tasks && ZoneOf(zones, t).Some?
  {
    if tasks == [] then [] else
      var n := |tasks| - 1;
      assert tasks == tasks[..n] + [tasks[n]];
      Zoned(zones, tasks[..n]) + if ZoneOf(zones, tasks[n]).Some? then [tasks[n]] else []
  }

  /** The zones of tasks, in the order they first come up. */
  function ZoneNames(zones: Zones, tasks: seq<SearchTask>): (r: seq<string>)
    ensures forall z :: z in r <==> exists t :: t in tasks && ZoneOf(zones, t) == Some(z)
    ensures Distinct(r)
  {
    if tasks == [] then [] else
      var n := |tasks| - 1;
      assert tasks == tasks[..n] + [tasks[n]];
      var before, zone := ZoneNames(zones, tasks[..n]), ZoneOf(zones, tasks[n]);
      assert forall z :: z in before ==> exists t :: t in tasks && ZoneOf(zones, t) == Some(z);
      if zone.None? || zone.value in before then before else before + [zone.value]
  }

  /** All tasks of the groups before `n`. */
  ghost function Flat(groups: seq<Group>, n: nat): multiset<SearchTask>
    requires n <= |groups|
  {
    if n == 0 then multiset{} else Flat(groups, n - 1) + multiset(groups[n - 1].1)
  }

  lemma {:induction false} FlatIsRest(groups: seq<Group>, n: nat)
    requires n <= |groups|
    ensures Flat(groups, n) == RestOf(groups, seq(|groups|, i => 0), n)
  {
    if n > 0 {
      FlatIsRest(groups, n - 1);
      assert groups[n - 1].1[0..] == groups[n - 1].1;
    }
  }

  lemma {:induction false} FlatSame(groups: seq<Group>, others: seq<Group>, n: nat)
    requires n <= |groups| && n <= |others| && forall z: nat :: z < n ==> multiset(groups[z].1) == multiset(others[z].1)
    ensures Flat(groups, n) == Flat(others, n)
  {
    if n > 0 {
      FlatSame(groups, others, n - 1);
    }
  }

  lemma {:induction false} FlatSet(groups: seq<Group>, z: nat, t: SearchTask, n: nat)
    requires z < n <= |groups|
    ensures Flat(groups[z := (groups[z].0, groups[z].1 + [t])], n) == Flat(groups, n) + multiset{t}
  {
    var later, m := groups[z := (groups[z].0, groups[z].1 + [t])], n - 1;
    if z == m {
      FlatSame(groups, later, m);
    } else {
      FlatSet(groups, z, t, m);
    }
  }

  /** One group for each zone, in the order the zones come up, each with its tasks in order. */
  ghost predicate Grouped(zones: Zones, tasks: seq<SearchTask>, groups: seq<Group>) {
    && |groups| == |ZoneNames(zones, tasks)|
    && (forall z: nat :: z < |groups| ==> groups[z] == (ZoneNames(zones, tasks)[z], InZone(zones, tasks, ZoneNames(zones, tasks)[z])))
    && Flat(groups, |groups|) == multiset(Zoned(zones, tasks))
  }

  lemma InZoneNext(zones: Zones, tasks: seq<SearchTask>, i: nat, zone: string)
    requires i < |tasks|
    ensures InZone(zones, tasks[..i + 1], zone)
         == if ZoneOf(zones, tasks[i]) == Some(zone) then InZone(zones, tasks[..i], zone) + [tasks[i]] else InZone(zones, tasks[..i], zone)
  {
    assert tasks[..i + 1][..i] == tasks[..i];
  }

  lemma ZonedNext(zones: Zones, tasks: seq<SearchTask>, i: nat)
    requires i < |tasks|
    ensures Zoned(zones, tasks[..i + 1])
         == if ZoneOf(zones, tasks[i]).Some? then Zoned(zones, tasks[..i]) + [tasks[i]] else Zoned(zones, tasks[..i])
  {
    assert tasks[..i + 1][..i] == tasks[..i];
  }

  lemma ZoneNamesNext(zones: Zones, tasks: seq<SearchTask>, i: nat)
    requires i < |tasks|
    ensures var names, zone := ZoneNames(zones, tasks[..i]), ZoneOf(zones, tasks[i]);
            ZoneNames(zones, tasks[..i + 1]) == if zone.None? || zone.value in names then names else names + [zone.value]
  {
    assert tasks[..i + 1][..i] == tasks[..i];
  }

  lemma GroupStep(zones: Zones, tasks: seq<SearchTask>, i: nat, groups: seq<Group>, k: nat)
    requires i < |tasks| && Grouped(zones, tasks[..i], groups) && ZoneOf(zones, tasks[i]).Some?
    requires k <= |groups| && (k < |groups| ==> groups[k].0 == ZoneOf(zones, tasks[i]).value)
    requires k == |groups| ==> ZoneOf(zones, tasks[i]).value !in ZoneNames(zones, tasks[..i])
    ensures var t, zone := tasks[i], ZoneOf(zones, tasks[i]).value;
            Grouped(zones, tasks[..i + 1], if k == |groups| then groups + [(zone, [t])] else groups[k := (zone, groups[k].1 + [t])])
  {
    hide InZone, ZoneNames, Zoned, Flat, ZoneOf;
    var before, after, t, zone := tasks[..i], tasks[..i + 1], tasks[i], ZoneOf(zones, tasks[i]).value;
    var names := ZoneNames(zones, before);
    ZoneNamesNext(zones, tasks, i);
    ZonedNext(zones, tasks, i);
    if k == |groups| {
      NewGroup(zones, tasks, i, groups, zone);
    } else {
      assert names[k] == zone && zone in names;
      FlatSet(groups, k, t, |groups|);
      var later := groups[k := (zone, groups[k].1 + [t])];
      assert later == groups[k := (groups[k].0, groups[k].1 + [t])];
      assert ZoneNames(zones, after) == names;
      forall z: nat | z < |later|
        ensures later[z] == (names[z], InZone(zones, after, names[z]))
      {
        InZoneNext(zones, tasks, i, names[z]);
        assert z != k ==> names[z] != names[k];
      }
    }
  }

  lemma NewGroup(zones: Zones, tasks: seq<SearchTask>, i: nat, groups: seq<Group>, zone: string)
    requires i < |tasks| && Grouped(zones, tasks[..i], groups) && ZoneOf(zones, tasks[i]) == Some(zone)
    requires zone !in ZoneNames(zones, tasks[..i])
    ensures Grouped(zones, tasks[..i + 1], groups + [(zone, [tasks[i]])])
  {
    hide InZone, ZoneNames, Zoned, Flat, ZoneOf;
    var before, after, t := tasks[..i], tasks[..i + 1], tasks[i];
    var names, later := ZoneNames(zones, before), groups + [(zone, [t])];
    ZoneNamesNext(zones, tasks, i);
    ZonedNext(zones, tasks, i);
    FlatAdd(groups, (zone, [t]));
    NoneInZone(zones, before, zone);
    forall z: nat | z < |later|
      ensures later[z] == (ZoneNames(zones, after)[z], InZone(zones, after, ZoneNames(zones, after)[z]))
    {
      if z < |groups| {
        assert names[z] in names;
        InZoneNext(zones, tasks, i, names[z]);
        assert names[z] != zone;
      } else {
        InZoneNext(zones, tasks, i, zone);
        assert InZone(zones, after, zone) == [t];
      }
    }
  }

  lemma FlatAdd(groups: seq<Group>, g: Group)
    ensures Flat(groups + [g], |groups| + 1) == Flat(groups, |groups|) + multiset(g.1)
  {
    FlatSame(groups, groups + [g], |groups|);
  }

  lemma {:induction false} NoneInZone(zones: Zones, tasks: seq<SearchTask>, zone: string)
    requires zone !in ZoneNames(zones, tasks)
    ensures InZone(zones, tasks, zone) == []
  {
    if tasks != [] {
      var n := |tasks| - 1;
      assert tasks[..n + 1] == tasks;
      ZoneNamesNext(zones, tasks, n);
      NoneInZone(zones, tasks[..n], zone);
    }
  }

  lemma SkipStep(zones: Zones, tasks: seq<SearchTask>, i: nat, groups: seq<Group>)
    requires i < |tasks| && Grouped(zones, tasks[..i], groups) && ZoneOf(zones, tasks[i]).None?
    ensures Grouped(zones, tasks[..i + 1], groups)
  {
    hide InZone, ZoneNames, Zoned, Flat, ZoneOf;
    ZoneNamesNext(zones, tasks, i);
    ZonedNext(zones, tasks, i);
    forall z: nat | z < |groups|
      ensures InZone(zones, tasks[..i + 1], groups[z].0) == InZone(zones, tasks[..i], groups[z].0)
    {
      InZoneNext(zones, tasks, i, groups[z].0);
    }
  }

  method FindGroup(groups: seq<Group>, zone: string) returns (k: nat)
    ensures k <= |groups| && (k < |groups| ==> groups[k].0 == zone)
    ensures k == |groups| ==> forall z: nat :: z < |groups| ==> groups[z].0 != zone
  {
    k := 0;
    while k < |groups| && groups[k].0 != zone
      invariant k <= |groups| && forall z: nat :: z < k ==> groups[z].0 != zone
    {
      k := k + 1;
    }
  }

  method GroupByZone(zones: Zones, tasks: seq<SearchTask>) returns (groups: seq<Group>)
    ensures Grouped(zones, tasks, groups)
  {
    hide Grouped, InZone, ZoneNames;
    groups := [];
    NoGroups(zones, tasks);
    for i := 0 to |tasks|
      invariant Grouped(zones, tasks[..i], groups)
    {
      var t := tasks[i];
      if t.bbox.Some? {
        var zone := zones.zoneOf(t.bbox.value);
        if zone.Some? {
          var k := FindGroup(groups, zone.value);
          if k == |groups| {
            NotNamed(zones, tasks[..i], groups, zone.value);
          }
          GroupStep(zones, tasks, i, groups, k);
          groups := if k == |groups| then groups + [(zone.value, [t])] else groups[k := (zone.value, groups[k].1 + [t])];
        } else {
          SkipStep(zones, tasks, i, groups);
        }
      } else {
        SkipStep(zones, tasks, i, groups);
      }
    }
    assert tasks[..|tasks|] == tasks;
  }

  lemma NoGroups(zones: Zones, tasks: seq<SearchTask>)
    ensures Grouped(zones, tasks[..0], [])
  {
  }

  lemma NotNamed(zones: Zones, tasks: seq<SearchTask>, groups: seq<Group>, zone: string)
    requires Grouped(zones, tasks, groups) && forall z: nat :: z < |groups| ==> groups[z].0 != zone
    ensures zone !in ZoneNames(zones, tasks)
  {
    var names := ZoneNames(zones, tasks);
    assert forall z: nat :: z < |names| ==> groups[z].0 == names[z];
  }

  /** Where a task of a zone comes: intent first, then what the zone contains entirely. */
  function Key(zones: Zones, zone: string, t: SearchTask): nat
    requires t.bbox.Some?
  {
    (if t.intent then 0 else 2) + if zones.contains(zone, t.bbox.value) then 0 else 1
  }

  ghost predicate Boxed(tasks: seq<SearchTask>) { forall t :: t in tasks ==> t.bbox.Some? }

  /** Insert behind everything with the same key, as a stable sort does. */
  function InsertTask(zones: Zones, zone: string, sorted: seq<SearchTask>, t: SearchTask): (r: seq<SearchTask>)
    requires Boxed(sorted) && t.bbox.Some?
    ensures multiset(r) == multiset(sorted) + multiset{t} && Boxed(r)
  {
    if sorted == [] then [t] else
      var n := |sorted| - 1;
      assert sorted == sorted[..n] + [sorted[n]];
      assert sorted[n] in sorted;
      assert forall x :: x in sorted[..n] ==> x in sorted;
      if Key(zones, zone, sorted[n]) <= Key(zones, zone, t) then InsertedLast(sorted, t); sorted + [t]
      else
        var front := InsertTask(zones, zone, sorted[..n], t);
        InsertedLast(front, sorted[n]);
        front + [sorted[n]]
  }

  lemma InsertedLast(tasks: seq<SearchTask>, t: SearchTask)
    requires Boxed(tasks) && t.bbox.Some?
    ensures Boxed(tasks + [t])
  {
  }

  function Preferred(zones: Zones, zone: string, tasks: seq<SearchTask>): (r: seq<SearchTask>)
    requires Boxed(tasks)
    ensures multiset(r) == multiset(tasks) && Boxed(r)
  {
    if tasks == [] then [] else
      var n := |tasks| - 1;
      assert tasks == tasks[..n] + [tasks[n]];
      assert tasks[n] in tasks;
      InsertTask(zones, zone, Preferred(zones, zone, tasks[..n]), tasks[n])
  }

  ghost predicate ByKey(zones: Zones, zone: string, tasks: seq<SearchTask>) {
    Boxed(tasks) && forall i: nat, j: nat :: i < j < |tasks| ==>
      tasks[i].bbox.Some? && tasks[j].bbox.Some? && Key(zones, zone, tasks[i]) <= Key(zones, zone, tasks[j])
  }

  /** What is intended comes first, and of the rest and of the intended what the zone contains entirely. */
  lemma ByKeyMeans(zones: Zones, zone: string, tasks: seq<SearchTask>, i: nat, j: nat)
    requires ByKey(zones, zone, tasks) && i < j < |tasks|
    ensures tasks[i].bbox.Some? && tasks[j].bbox.Some? && (tasks[j].intent ==> tasks[i].intent)
    ensures tasks[i].intent == tasks[j].intent && zones.contains(zone, tasks[j].bbox.value) ==> zones.contains(zone, tasks[i].bbox.value)
  {
  }

  ghost predicate AtMost(zones: Zones, zone: string, tasks: seq<SearchTask>, key: nat) {
    forall t :: t in tasks ==> t.bbox.Some? && Key(zones, zone, t) <= key
  }

  lemma ByKeyLast(zones: Zones, zone: string, tasks: seq<SearchTask>, t: SearchTask)
    requires ByKey(zones, zone, tasks) && t.bbox.Some? && AtMost(zones, zone, tasks, Key(zones, zone, t))
    ensures ByKey(zones, zone, tasks + [t])
  {
    hide Key;
    InsertedLast(tasks, t);
  }

  lemma ByKeyParts(zones: Zones, zone: string, tasks: seq<SearchTask>)
    requires ByKey(zones, zone, tasks) && tasks != []
    ensures var n := |tasks| - 1;
            && tasks[n].bbox.Some? && ByKey(zones, zone, tasks[..n]) && Boxed(tasks[..n])
            && AtMost(zones, zone, tasks[..n], Key(zones, zone, tasks[n])) && AtMost(zones, zone, tasks, Key(zones, zone, tasks[n]))
  {
    hide Key;
    var n := |tasks| - 1;
    assert tasks == tasks[..n] + [tasks[n]];
    assert tasks[n] in tasks;
    assert forall x :: x in tasks[..n] ==> x in tasks;
  }

  lemma AtMostBoth(zones: Zones, zone: string, tasks: seq<SearchTask>, t: SearchTask, all: seq<SearchTask>, key: nat)
    requires AtMost(zones, zone, tasks, key) && t.bbox.Some? && Key(zones, zone, t) <= key
    requires multiset(all) == multiset(tasks) + multiset{t}
    ensures AtMost(zones, zone, all, key)
  {
    hide Key;
    forall x | x in all
      ensures x == t || x in tasks
    {
      assert x in multiset(all);
    }
  }

  lemma {:induction false} InsertByKey(zones: Zones, zone: string, sorted: seq<SearchTask>, t: SearchTask)
    requires ByKey(zones, zone, sorted) && t.bbox.Some?
    ensures ByKey(zones, zone, InsertTask(zones, zone, sorted, t))
  {
    hide Key, ByKey, AtMost;
    if sorted == [] {
      OneByKey(zones, zone, t);
    } else {
      var n := |sorted| - 1;
      ByKeyParts(zones, zone, sorted);
      if Key(zones, zone, sorted[n]) <= Key(zones, zone, t) {
        AtMostMore(zones, zone, sorted, Key(zones, zone, sorted[n]), Key(zones, zone, t));
        ByKeyLast(zones, zone, sorted, t);
      } else {
        var front := InsertTask(zones, zone, sorted[..n], t);
        InsertByKey(zones, zone, sorted[..n], t);
        AtMostBoth(zones, zone, sorted[..n], t, front, Key(zones, zone, sorted[n]));
        ByKeyLast(zones, zone, front, sorted[n]);
      }
    }
  }

  lemma OneByKey(zones: Zones, zone: string, t: SearchTask)
    requires t.bbox.Some?
    ensures ByKey(zones, zone, [t]) && ByKey(zones, zone, [])
  {
  }

  lemma AtMostMore(zones: Zones, zone: string, tasks: seq<SearchTask>, key: nat, more: nat)
    requires AtMost(zones, zone, tasks, key) && key <= more
    ensures AtMost(zones, zone, tasks, more)
  {
  }

  /** Sorting a group puts it in the order of the keys and keeps its tasks. */
  lemma {:induction false} PreferredByKey(zones: Zones, zone: string, tasks: seq<SearchTask>)
    requires Boxed(tasks)
    ensures ByKey(zones, zone, Preferred(zones, zone, tasks))
  {
    hide Key, ByKey;
    if tasks == [] {
      NoneByKey(zones, zone);
    } else {
      var n := |tasks| - 1;
      assert forall x :: x in tasks[..n] ==> x in tasks;
      PreferredByKey(zones, zone, tasks[..n]);
      assert tasks[n] in tasks;
      InsertByKey(zones, zone, Preferred(zones, zone, tasks[..n]), tasks[n]);
    }
  }

  lemma NoneByKey(zones: Zones, zone: string)
    ensures ByKey(zones, zone, [])
  {
  }

  // ------------------------------------------------------------------ one per zone

  /** Sort every group. */
  method SortGroups(zones: Zones, groups0: seq<Group>) returns (groups: seq<Group>)
    requires forall z: nat :: z < |groups0| ==> Boxed(groups0[z].1)
    ensures |groups| == |groups0|
    ensures forall z: nat :: z < |groups| ==> groups[z] == (groups0[z].0, Preferred(zones, groups0[z].0, groups0[z].1))
  {
    hide Preferred, Boxed;
    groups := groups0;
    for z := 0 to |groups|
      invariant |groups| == |groups0|
      invariant forall y: nat :: y < z ==> Boxed(groups0[y].1) && groups[y] == (groups0[y].0, Preferred(zones, groups0[y].0, groups0[y].1))
      invariant forall y: nat :: z <= y < |groups| ==> groups[y] == groups0[y]
    {
      var (zone, tasks) := groups[z];
      groups := groups[z := (zone, Preferred(zones, zone, tasks))];
    }
  }

  /** The groups of the tasks, each in the order of its keys. */
  ghost predicate SortedGroups(zones: Zones, tasks: seq<SearchTask>, groups: seq<Group>) {
    && |groups| == |ZoneNames(zones, tasks)|
    && forall z: nat :: z < |groups| ==>
         && groups[z].0 == ZoneNames(zones, tasks)[z] && Boxed(InZone(zones, tasks, groups[z].0))
         && groups[z].1 == Preferred(zones, groups[z].0, InZone(zones, tasks, groups[z].0))
  }

  /** Ordinary work with a zone, taken in rounds over the zones: what is left out overlaps what is taken. */
  method RotateZones(zones: Zones, ordinary: seq<SearchTask>)
    returns (rotated: seq<SearchTask>, ghost groups: seq<Group>, ghost skipped: seq<SearchTask>, ghost picks: seq<Pick>)
    ensures SortedGroups(zones, ordinary, groups) && Fair(groups, rotated, picks)
    ensures Apart(rotated) && AllOverlap(skipped, rotated)
    ensures multiset(rotated) + multiset(skipped) == multiset(Zoned(zones, ordinary))
  {
    hide *;
    var grouped := GroupByZone(zones, ordinary);
    GroupsAreBoxed(zones, ordinary, grouped);
    var sorted := SortGroups(zones, grouped);
    SortedFlat(zones, ordinary, grouped, sorted);
    groups := sorted;
    rotated, skipped, picks := Rotate(sorted);
  }

  lemma GroupsAreBoxed(zones: Zones, tasks: seq<SearchTask>, groups: seq<Group>)
    requires Grouped(zones, tasks, groups)
    ensures forall z: nat :: z < |groups| ==> Boxed(groups[z].1)
  {
    forall z: nat | z < |groups|
      ensures Boxed(groups[z].1)
    {
      forall t | t in groups[z].1
        ensures t.bbox.Some?
      {
        assert t in InZone(zones, tasks, groups[z].0);
      }
    }
  }

  lemma SortedFlat(zones: Zones, tasks: seq<SearchTask>, groups: seq<Group>, sorted: seq<Group>)
    requires Grouped(zones, tasks, groups) && |sorted| == |groups|
    requires forall z: nat :: z < |groups| ==> Boxed(groups[z].1) && sorted[z] == (groups[z].0, Preferred(zones, groups[z].0, groups[z].1))
    ensures SortedGroups(zones, tasks, sorted)
    ensures RestOf(sorted, seq(|sorted|, i => 0), |sorted|) == multiset(Zoned(zones, tasks))
    ensures forall z: nat, t :: z < |sorted| && t in sorted[z].1 ==> t.bbox.Some?
  {
    hide InZone, ZoneNames, Zoned, Preferred, Flat, RestOf;
    FlatSame(groups, sorted, |groups|);
    FlatIsRest(sorted, |sorted|);
  }

  // ------------------------------------------------------------------------ selection

  lemma UniqueNext(tasks: seq<SearchTask>, t: SearchTask)
    requires UniqueIds(tasks) && !HasId(tasks, t.id)
    ensures UniqueIds(tasks + [t])
  {
  }

  lemma UniqueAmong(all: seq<SearchTask>, some: seq<SearchTask>)
    requires UniqueIds(all) && multiset(some) <= multiset(all)
    ensures UniqueIds(some)
  {
    forall i: nat, j: nat | i < j < |some|
      ensures some[i].id != some[j].id
    {
      assert some[i] in multiset(some) && some[j] in multiset(some);
      var x: nat :| x < |all| && all[x] == some[i];
      var y: nat :| y < |all| && all[y] == some[j];
      if some[i].id == some[j].id {
        assert x == y;
        TwiceThere(some, i, j);
        UniqueOnce(all, x);
      }
    }
  }

  lemma TwiceThere(tasks: seq<SearchTask>, i: nat, j: nat)
    requires i < j < |tasks| && tasks[i] == tasks[j]
    ensures multiset(tasks)[tasks[i]] >= 2
  {
    assert tasks == tasks[..i] + [tasks[i]] + tasks[i + 1..j] + [tasks[j]] + tasks[j + 1..];
  }

  lemma UniqueOnce(tasks: seq<SearchTask>, x: nat)
    requires UniqueIds(tasks) && x < |tasks|
    ensures multiset(tasks)[tasks[x]] == 1
  {
    assert tasks == tasks[..x] + [tasks[x]] + tasks[x + 1..];
    assert tasks[x] !in tasks[..x] && tasks[x] !in tasks[x + 1..];
  }

  /** The task is taken, has no box, or overlaps a task taken. */
  ghost predicate Settled(t: SearchTask, taken: seq<SearchTask>) {
    t in taken || t.bbox.None? || Overlaps(t, taken)
  }

  lemma SettledMore(taken: seq<SearchTask>, more: seq<SearchTask>)
    requires forall o :: o in taken ==> o in more
    ensures forall t :: Settled(t, taken) ==> Settled(t, more)
  {
    hide Overlaps;
    forall t | Settled(t, taken)
      ensures Settled(t, more)
    {
      if Overlaps(t, taken) {
        OverlapsMore(t, taken, more);
      }
    }
  }

  // ------------------------------------------------------------------ taking in order

  predicate Free(t: SearchTask, taken: seq<SearchTask>) { t.bbox.Some? && !Overlaps(t, taken) }

  predicate FreeOrdinary(t: SearchTask, taken: seq<SearchTask>) { t.ordinary && !HasId(taken, t.id) && t.bbox.Some? && !Overlaps(t, taken) }

  predicate NewUrgent(t: SearchTask, taken: seq<SearchTask>) { !t.ordinary && !HasId(taken, t.id) }

  type Test = (SearchTask, seq<SearchTask>) -> bool

  /** Go through the tasks in order and take those that pass, while there is room. */
  ghost function Taken(tasks: seq<SearchTask>, start: seq<SearchTask>, limit: nat, passes: Test): (r: seq<SearchTask>)
    ensures start <= r
  {
    if tasks == [] then start else
      var n := |tasks| - 1;
      var r := Taken(tasks[..n], start, limit, passes);
      if |r| < limit && passes(tasks[n], r) then r + [tasks[n]] else r
  }

  lemma TakenNext(tasks: seq<SearchTask>, i: nat, start: seq<SearchTask>, limit: nat, passes: Test)
    requires i < |tasks|
    ensures var r := Taken(tasks[..i], start, limit, passes);
            Taken(tasks[..i + 1], start, limit, passes) == if |r| < limit && passes(tasks[i], r) then r + [tasks[i]] else r
  {
    assert tasks[..i + 1][..i] == tasks[..i];
  }

  /** What is taken first stays, and once there is no room nothing is added. */
  lemma {:induction false} TakenOnward(tasks: seq<SearchTask>, i: nat, start: seq<SearchTask>, limit: nat, passes: Test)
    requires i <= |tasks|
    ensures Taken(tasks[..i], start, limit, passes) <= Taken(tasks, start, limit, passes)
    ensures |Taken(tasks[..i], start, limit, passes)| >= limit ==> Taken(tasks[..i], start, limit, passes) == Taken(tasks, start, limit, passes)
    decreases |tasks| - i
  {
    if i < |tasks| {
      TakenNext(tasks, i, start, limit, passes);
      TakenOnward(tasks, i + 1, start, limit, passes);
    } else {
      assert tasks[..i] == tasks;
    }
  }

  /** A task left out either did not pass beside those taken before it, or came when all the room was taken; those
      taken before it come before it in the order. */
  lemma LeftOut(tasks: seq<SearchTask>, i: nat, start: seq<SearchTask>, limit: nat, passes: Test)
    requires i < |tasks| && tasks[i] !in Taken(tasks, start, limit, passes)
    ensures var before := Taken(tasks[..i], start, limit, passes);
            && before <= Taken(tasks, start, limit, passes) && (forall t :: t in before ==> t in start || t in tasks[..i])
            && (!passes(tasks[i], before) || (|before| >= limit && before == Taken(tasks, start, limit, passes)))
  {
    TakenFrom(tasks[..i], start, limit, passes);
    TakenNext(tasks, i, start, limit, passes);
    TakenOnward(tasks, i, start, limit, passes);
    TakenOnward(tasks, i + 1, start, limit, passes);
    var r, all := Taken(tasks[..i + 1], start, limit, passes), Taken(tasks, start, limit, passes);
    assert forall t :: t in r ==> t in all by {
      assert all[..|r|] == r;
    }
  }

  lemma {:induction false} TakenFrom(tasks: seq<SearchTask>, start: seq<SearchTask>, limit: nat, passes: Test)
    ensures forall t :: t in Taken(tasks, start, limit, passes) ==> t in start || t in tasks
  {
    if tasks != [] {
      TakenFrom(tasks[..|tasks| - 1], start, limit, passes);
    }
  }

  /** Take tasks in order as long as they overlap none taken before, up to a limit. */
  method TakeRepresentatives(tasks: seq<SearchTask>, limit: nat) returns (taken: seq<SearchTask>)
    requires UniqueIds(tasks)
    ensures |taken| <= limit && Apart(taken) && UniqueIds(taken) && forall t :: t in taken ==> t in tasks
    ensures |taken| < limit ==> forall t :: t in tasks ==> Settled(t, taken)
    ensures taken == Taken(tasks, [], limit, Free)
  {
    hide Overlaps, Apart, UniqueIds, Settled, Taken;
    taken := [];
    NoneTaken(tasks, [], limit, Free);
    NothingTaken();
    var i := 0;
    while i < |tasks| && |taken| < limit
      invariant i <= |tasks| && |taken| <= limit
      invariant Apart(taken) && UniqueIds(taken) && forall t :: t in taken ==> t in tasks[..i]
      invariant forall t :: t in tasks[..i] ==> Settled(t, taken)
      invariant taken == Taken(tasks[..i], [], limit, Free)
    {
      var t := tasks[i];
      assert tasks[..i + 1] == tasks[..i] + [t];
      TakenNext(tasks, i, [], limit, Free);
      if t.bbox.Some? && !Overlaps(t, taken) {
        NotYet(tasks, i, taken);
        UniqueNext(taken, t);
        ApartNext(taken, t);
        SettledMore(taken, taken + [t]);
        taken := taken + [t];
      }
      SettledNow(t, taken);
      i := i + 1;
    }
    TakenOnward(tasks, i, [], limit, Free);
    assert |taken| < limit ==> tasks[..i] == tasks;
  }

  lemma NoneTaken(tasks: seq<SearchTask>, start: seq<SearchTask>, limit: nat, passes: Test)
    ensures Taken(tasks[..0], start, limit, passes) == start
  {
  }

  lemma NothingTaken()
    ensures Apart([]) && UniqueIds([])
  {
  }

  lemma NotYet(tasks: seq<SearchTask>, i: nat, taken: seq<SearchTask>)
    requires UniqueIds(tasks) && i < |tasks| && forall t :: t in taken ==> t in tasks[..i]
    ensures !HasId(taken, tasks[i].id)
  {
    forall k: nat | k < |taken|
      ensures taken[k].id != tasks[i].id
    {
      assert taken[k] in tasks[..i];
    }
  }

  lemma SettledNow(t: SearchTask, taken: seq<SearchTask>)
    requires t.bbox.None? || Overlaps(t, taken) || t in taken
    ensures Settled(t, taken)
  {
  }

  /** What holds of a selection while it grows: unique, from the candidates, ordinary work apart. */
  ghost predicate Sound(normalized: seq<SearchTask>, selected: seq<SearchTask>) {
    UniqueIds(selected) && (forall t :: t in selected ==> t in normalized) && Apart(Chosen(selected, true))
  }

  lemma ChosenNext(tasks: seq<SearchTask>, t: SearchTask, ordinary: bool)
    ensures Chosen(tasks + [t], ordinary) == if t.ordinary == ordinary then Chosen(tasks, ordinary) + [t] else Chosen(tasks, ordinary)
  {
    assert (tasks + [t])[..|tasks|] == tasks;
  }

  lemma GrowOrdinary(normalized: seq<SearchTask>, selected: seq<SearchTask>, t: SearchTask)
    requires Sound(normalized, selected) && t in normalized && t.ordinary && t.bbox.Some? && !HasId(selected, t.id)
    requires !Overlaps(t, selected)
    ensures Sound(normalized, selected + [t])
  {
    hide Apart, UniqueIds, Chosen;
    UniqueNext(selected, t);
    ChosenNext(selected, t, true);
    if Overlaps(t, Chosen(selected, true)) {
      OverlapsMore(t, Chosen(selected, true), selected);
    }
    ApartNext(Chosen(selected, true), t);
  }

  lemma GrowUrgent(normalized: seq<SearchTask>, selected: seq<SearchTask>, t: SearchTask)
    requires Sound(normalized, selected) && t in normalized && !t.ordinary && !HasId(selected, t.id)
    ensures Sound(normalized, selected + [t])
  {
    hide Apart, UniqueIds, Chosen;
    UniqueNext(selected, t);
    ChosenNext(selected, t, true);
  }

  lemma SameTask(normalized: seq<SearchTask>, selected: seq<SearchTask>, t: SearchTask)
    requires UniqueIds(normalized) && Sound(normalized, selected) && t in normalized
    ensures HasId(selected, t.id) <==> t in selected
  {
    if HasId(selected, t.id) {
      var i: nat :| i < |selected| && selected[i].id == t.id;
      assert selected[i] in normalized;
    }
  }

  /** Spend what capacity is left on ordinary work that overlaps nothing selected. */
  method FillOrdinary(normalized: seq<SearchTask>, selected0: seq<SearchTask>, capacity: nat) returns (selected: seq<SearchTask>)
    requires UniqueIds(normalized) && Sound(normalized, selected0) && |selected0| <= capacity
    ensures Sound(normalized, selected) && selected0 <= selected && |selected| <= capacity
    ensures |selected| < capacity ==> forall t :: t in normalized && t.ordinary ==> Settled(t, selected)
    ensures selected == Taken(normalized, selected0, capacity, FreeOrdinary)
  {
    hide Overlaps, UniqueIds, HasId, Settled, Sound, Taken;
    selected := selected0;
    NoneTaken(normalized, selected0, capacity, FreeOrdinary);
    for i := 0 to |normalized|
      invariant Sound(normalized, selected) && selected0 <= selected && |selected| <= capacity
      invariant |selected| < capacity ==> forall t :: t in normalized[..i] && t.ordinary ==> Settled(t, selected)
      invariant selected == Taken(normalized[..i], selected0, capacity, FreeOrdinary)
    {
      var t := normalized[i];
      TakenNext(normalized, i, selected0, capacity, FreeOrdinary);
      assert normalized[..i + 1] == normalized[..i] + [t];
      SameTask(normalized, selected, t);
      if |selected| < capacity && !HasId(selected, t.id) && t.ordinary && t.bbox.Some? && !Overlaps(t, selected) {
        GrowOrdinary(normalized, selected, t);
        SettledMore(selected, selected + [t]);
        selected := selected + [t];
      }
      if t.ordinary && |selected| < capacity {
        SettledNow(t, selected);
      }
    }
    assert normalized[..|normalized|] == normalized;
  }

  /** And then on urgent work. */
  method FillUrgent(normalized: seq<SearchTask>, selected0: seq<SearchTask>, capacity: nat) returns (selected: seq<SearchTask>)
    requires UniqueIds(normalized) && Sound(normalized, selected0) && |selected0| <= capacity
    ensures Sound(normalized, selected) && selected0 <= selected && |selected| <= capacity
    ensures |selected| < capacity ==> forall t :: t in normalized && !t.ordinary ==> t in selected
    ensures forall t :: t in selected && t.ordinary ==> t in selected0
    ensures selected == Taken(normalized, selected0, capacity, NewUrgent)
  {
    hide UniqueIds, HasId, Sound, Taken;
    selected := selected0;
    NoneTaken(normalized, selected0, capacity, NewUrgent);
    var i := 0;
    while i < |normalized| && |selected| < capacity
      invariant i <= |normalized| && Sound(normalized, selected) && selected0 <= selected && |selected| <= capacity
      invariant forall t :: t in normalized[..i] && !t.ordinary ==> t in selected
      invariant forall t :: t in selected && t.ordinary ==> t in selected0
      invariant selected == Taken(normalized[..i], selected0, capacity, NewUrgent)
    {
      var t := normalized[i];
      TakenNext(normalized, i, selected0, capacity, NewUrgent);
      assert normalized[..i + 1] == normalized[..i] + [t];
      SameTask(normalized, selected, t);
      if !HasId(selected, t.id) && !t.ordinary {
        GrowUrgent(normalized, selected, t);
        selected := selected + [t];
      }
      i := i + 1;
    }
    TakenOnward(normalized, i, selected0, capacity, NewUrgent);
    assert |selected| < capacity ==> normalized[..i] == normalized;
  }

  // ----------------------------------------------------------------------- the window

  function Min(x: int, y: int): int { if y < x then y else x }

  /** How much of the window is kept for ordinary work. */
  function ReserveCount(reserve: int, capacity: int, ordinary: nat): (r: int)
    ensures r <= reserve && r <= capacity && r <= ordinary && (r == reserve || r == capacity || r == ordinary)
  {
    Min(Min(reserve, capacity), ordinary)
  }

  function Names(tasks: seq<SearchTask>): (r: seq<string>)
    ensures |r| == |tasks| && forall i: nat :: i < |r| ==> r[i] == tasks[i].id
  {
    seq(|tasks|, i requires 0 <= i < |tasks| => tasks[i].id)
  }

  function Sources(tasks: seq<SearchTask>): (r: seq<(string, string)>)
    ensures |r| == |tasks| && forall i: nat :: i < |r| ==> r[i] == (tasks[i].id, if tasks[i].ordinary then "ordinary" else "urgent")
  {
    seq(|tasks|, i requires 0 <= i < |tasks| => (tasks[i].id, if tasks[i].ordinary then "ordinary" else "urgent"))
  }

  /** The checks a window makes of itself. */
  ghost predicate Accepted(w: Window) {
    && UniqueIds(w.tasks) && !HasId(w.tasks, "")
    && (forall id :: id in w.representatives ==> HasId(w.tasks, id))
    && (forall i: nat, j: nat :: i < j < |w.sources| ==> w.sources[i].0 != w.sources[j].0)
    && (forall i: nat :: i < |w.sources| ==> HasId(w.tasks, w.sources[i].0))
  }

  lemma {:induction false} ChosenAmong(tasks: seq<SearchTask>, ordinary: bool)
    ensures multiset(Chosen(tasks, ordinary)) <= multiset(tasks)
  {
    if tasks != [] {
      var n := |tasks| - 1;
      assert tasks == tasks[..n] + [tasks[n]];
      ChosenAmong(tasks[..n], ordinary);
      ChosenNext(tasks[..n], tasks[n], ordinary);
    }
  }

  lemma {:induction false} ZonedAmong(zones: Zones, tasks: seq<SearchTask>)
    ensures multiset(Zoned(zones, tasks)) <= multiset(tasks)
  {
    hide ZoneOf;
    if tasks != [] {
      var n := |tasks| - 1;
      assert tasks == tasks[..n] + [tasks[n]] && tasks[..n + 1] == tasks;
      ZonedAmong(zones, tasks[..n]);
      ZonedNext(zones, tasks, n);
    }
  }

  /** What the reserve is filled from. */
  ghost function Reservable(ordinary: seq<SearchTask>, zones: Option<Zones>): seq<SearchTask> {
    if zones.Some? then Zoned(zones.value, ordinary) else ordinary
  }

  /** `pool` is the ordinary work the reserve is filled from, in the order it is tried: as ranked, or in rotation over
      the zones. */
  ghost predicate PoolOrder(ordinary: seq<SearchTask>, zones: Option<Zones>, pool: seq<SearchTask>) {
    match zones
    case None => pool == ordinary
    case Some(z) => Apart(pool) && exists groups, picks :: SortedGroups(z, ordinary, groups) && Fair(groups, pool, picks)
  }

  /** The ordinary work for the reserve, in the order it is tried. */
  method Pool(ordinary: seq<SearchTask>, zones: Option<Zones>) returns (pool: seq<SearchTask>)
    requires UniqueIds(ordinary)
    ensures UniqueIds(pool) && forall t :: t in pool ==> t in ordinary
    ensures forall t :: t in Reservable(ordinary, zones) ==> Settled(t, pool)
    ensures PoolOrder(ordinary, zones, pool)
    ensures if zones.Some? then Apart(pool) else pool == ordinary
  {
    hide UniqueIds, Overlaps, Fair, SortedGroups, Apart, AllOverlap, Zoned;
    if zones.None? {
      pool := ordinary;
    } else {
      var rotated, groups, skipped, picks := RotateZones(zones.value, ordinary);
      pool := rotated;
      ZonedAmong(zones.value, ordinary);
      UniqueAmong(ordinary, rotated);
      RotationSettles(zones.value, ordinary, rotated, skipped);
    }
  }

  lemma RotationSettles(zones: Zones, ordinary: seq<SearchTask>, rotated: seq<SearchTask>, skipped: seq<SearchTask>)
    requires AllOverlap(skipped, rotated) && multiset(rotated) + multiset(skipped) == multiset(Zoned(zones, ordinary))
    ensures forall t :: t in Zoned(zones, ordinary) ==> Settled(t, rotated)
    ensures forall t :: t in rotated ==> t in Zoned(zones, ordinary)
  {
    hide Overlaps, Zoned;
    forall t | t in Zoned(zones, ordinary)
      ensures Settled(t, rotated)
    {
      assert t in multiset(Zoned(zones, ordinary));
      assert t in multiset(rotated) || t in multiset(skipped);
    }
    forall t | t in rotated
      ensures t in Zoned(zones, ordinary)
    {
      assert t in multiset(rotated) + multiset(skipped);
      assert t in multiset(Zoned(zones, ordinary));
    }
  }

  /** Urgent work first, then the reserve. */
  lemma FirstSelection(normalized: seq<SearchTask>, urgent: seq<SearchTask>, k: nat, taken: seq<SearchTask>)
    requires UniqueIds(normalized) && urgent == Chosen(normalized, false) && k <= |urgent|
    requires Apart(taken) && UniqueIds(taken) && forall t :: t in taken ==> t in Chosen(normalized, true)
    ensures Sound(normalized, urgent[..k] + taken) && Chosen(urgent[..k] + taken, true) == taken
  {
    hide Apart, UniqueIds, Chosen;
    var first := urgent[..k];
    ChosenAmong(normalized, false);
    UniqueAmong(normalized, urgent);
    UniqueStart(urgent, k);
    assert forall t :: t in first ==> t in urgent;
    AllUrgent(first);
    AllOrdinary(taken);
    ChosenJoin(first, taken);
    assert [] + taken == taken;
    UniqueJoin(normalized, first, taken);
  }

  lemma UniqueStart(tasks: seq<SearchTask>, k: nat)
    requires UniqueIds(tasks) && k <= |tasks|
    ensures UniqueIds(tasks[..k])
  {
  }

  lemma UniqueJoin(normalized: seq<SearchTask>, a: seq<SearchTask>, b: seq<SearchTask>)
    requires UniqueIds(normalized) && UniqueIds(a) && UniqueIds(b)
    requires forall t :: t in a ==> t in normalized && !t.ordinary
    requires forall t :: t in b ==> t in normalized && t.ordinary
    ensures UniqueIds(a + b)
  {
    var all := a + b;
    forall i: nat, j: nat | i < j < |all|
      ensures all[i].id != all[j].id
    {
      if i < |a| <= j {
        assert all[i] in a && all[j] in b;
        var x: nat :| x < |normalized| && normalized[x] == all[i];
        var y: nat :| y < |normalized| && normalized[y] == all[j];
      }
    }
  }

  lemma {:induction false} AllUrgent(tasks: seq<SearchTask>)
    requires forall t :: t in tasks ==> !t.ordinary
    ensures Chosen(tasks, true) == []
  {
    if tasks != [] {
      var n := |tasks| - 1;
      assert tasks == tasks[..n] + [tasks[n]];
      AllUrgent(tasks[..n]);
      ChosenNext(tasks[..n], tasks[n], true);
    }
  }

  lemma {:induction false} AllOrdinary(tasks: seq<SearchTask>)
    requires forall t :: t in tasks ==> t.ordinary
    ensures Chosen(tasks, true) == tasks
  {
    if tasks != [] {
      var n := |tasks| - 1;
      assert tasks == tasks[..n] + [tasks[n]];
      AllOrdinary(tasks[..n]);
      ChosenNext(tasks[..n], tasks[n], true);
    }
  }

  lemma NoneChosen()
    ensures Chosen([], true) == []
  {
  }

  lemma {:induction false} ChosenJoin(a: seq<SearchTask>, b: seq<SearchTask>)
    ensures Chosen(a + b, true) == Chosen(a, true) + Chosen(b, true)
  {
    hide Chosen;
    if b == [] {
      assert a + b == a;
      NoneChosen();
      assert Chosen(a, true) + [] == Chosen(a, true);
    } else {
      var n := |b| - 1;
      assert b == b[..n] + [b[n]] && a + b == a + b[..n] + [b[n]];
      ChosenJoin(a, b[..n]);
      ChosenNext(a + b[..n], b[n], true);
      ChosenNext(b[..n], b[n], true);
    }
  }

  /** The representatives: ordinary work of the window, filtered once more for overlaps. */
  method Represent(tasks: seq<SearchTask>) returns (names: seq<string>)
    requires Apart(tasks)
    ensures names == Names(tasks)
  {
    names := [];
    var kept: seq<SearchTask> := [];
    for i := 0 to |tasks|
      invariant kept == tasks[..i] && names == Names(tasks[..i])
    {
      assert !Overlaps(tasks[i], kept) by { ApartBefore(tasks, i); }
      if tasks[i].bbox.Some? && !Overlaps(tasks[i], kept) {
        assert tasks[..i + 1] == tasks[..i] + [tasks[i]];
        names := names + [tasks[i].id];
        kept := kept + [tasks[i]];
      }
    }
    assert tasks[..|tasks|] == tasks;
  }

  lemma ApartBefore(tasks: seq<SearchTask>, i: nat)
    requires Apart(tasks) && i < |tasks|
    ensures !Overlaps(tasks[i], tasks[..i])
  {
    forall k: nat | k < i
      ensures !Intersects(tasks[i].bbox.value, tasks[k].bbox.value)
    {
      assert !Intersects(tasks[k].bbox.value, tasks[i].bbox.value);
    }
  }

  method Normalize(ranked: seq<SearchTask>) returns (tasks: seq<SearchTask>)
    ensures tasks == Firsts(ranked)
  {
    hide UniqueIds, HasId;
    tasks := [];
    for i := 0 to |ranked|
      invariant tasks == Firsts(ranked[..i])
    {
      assert ranked[..i + 1][..i] == ranked[..i];
      if ranked[i].id != "" && !HasId(tasks, ranked[i].id) {
        tasks := tasks + [ranked[i]];
      }
    }
    assert ranked[..|ranked|] == ranked;
  }

  /** If the window has room left, nothing usable was left out of it. */
  ghost predicate Exhausts(normalized: seq<SearchTask>, tasks: seq<SearchTask>) {
    && (forall t :: t in normalized && !t.ordinary ==> t in tasks)
    && (forall t :: t in normalized && t.ordinary ==> Settled(t, tasks))
  }

  /** What a window for these candidates is. */
  ghost predicate IsWindow(normalized: seq<SearchTask>, reserve: int, capacity: int, zones: Option<Zones>, w: Window) {
    && |w.tasks| <= capacity && Sound(normalized, w.tasks)
    && (|w.tasks| < capacity ==> Exhausts(normalized, w.tasks))
    && w.representatives == Names(Chosen(w.tasks, true)) && w.sources == Sources(w.tasks)
    && KeepsShares(Chosen(normalized, true), Chosen(normalized, false), reserve, capacity, zones, w.tasks)
    && exists pool :: PoolOrder(Chosen(normalized, true), zones, pool) && FillsInOrder(normalized, reserve, capacity, pool, w.tasks)
  }

  /** The window: the urgent tasks the reserve leaves room for, then the reserve from the pool in its order, then
      ordinary and then urgent work as ranked. */
  ghost predicate FillsInOrder(normalized: seq<SearchTask>, reserve: int, capacity: int, pool: seq<SearchTask>, tasks: seq<SearchTask>) {
    var ordinary, urgent := Chosen(normalized, true), Chosen(normalized, false);
    var kept := ReserveCount(reserve, capacity, |ordinary|);
    var first := Min(capacity - kept, |urgent|);
    && 0 <= kept && 0 <= first <= |urgent| && 0 <= capacity
    && var started := urgent[..first] + Taken(pool, [], kept, Free);
       tasks == Taken(normalized, Taken(normalized, started, capacity, FreeOrdinary), capacity, NewUrgent)
  }

  /** A task of the pool that the reserve of a window left out overlaps one taken before it, or comes after all of
      them. */
  lemma ReserveLeftOut(pool: seq<SearchTask>, i: nat, kept: nat)
    requires i < |pool| && pool[i].bbox.Some? && pool[i] !in Taken(pool, [], kept, Free)
    ensures var taken := Taken(pool, [], kept, Free);
            if |Taken(pool[..i], [], kept, Free)| < kept
            then exists k: nat, j: nat :: k < |taken| && j < i && taken[k] == pool[j] && taken[k].bbox.Some?
                                          && Intersects(pool[i].bbox.value, taken[k].bbox.value)
            else |taken| == kept && forall t :: t in taken ==> t in pool[..i]
  {
    LeftOut(pool, i, [], kept, Free);
    TakenWithin(pool[..i], [], kept, Free);
    var before, taken := Taken(pool[..i], [], kept, Free), Taken(pool, [], kept, Free);
    if |before| < kept {
      var k: nat :| k < |before| && before[k].bbox.Some? && Intersects(pool[i].bbox.value, before[k].bbox.value);
      assert before[k] in pool[..i];
      var j: nat :| j < i && pool[..i][j] == before[k];
      assert taken[k] == before[k] == pool[j];
    } else {
      TakenOnward(pool, i, [], kept, Free);
    }
  }

  lemma {:induction false} TakenWithin(tasks: seq<SearchTask>, start: seq<SearchTask>, limit: nat, passes: Test)
    requires |start| <= limit
    ensures |Taken(tasks, start, limit, passes)| <= limit
  {
    if tasks != [] {
      TakenWithin(tasks[..|tasks| - 1], start, limit, passes);
    }
  }

  /** Both kinds of work get their share: the first urgent tasks open the window, and the reserve is
      used up unless every task it could be used for overlaps ordinary work of the window. */
  ghost predicate KeepsShares(ordinary: seq<SearchTask>, urgent: seq<SearchTask>, reserve: int, capacity: int, zones: Option<Zones>,
                              tasks: seq<SearchTask>)
  {
    var kept := ReserveCount(reserve, capacity, |ordinary|);
    var first := Min(capacity - kept, |urgent|);
    && 0 <= first <= |urgent| && urgent[..first] <= tasks
    && (|Chosen(tasks, true)| >= kept || forall t :: t in Reservable(ordinary, zones) ==> Settled(t, Chosen(tasks, true)))
  }

  /** Choose the window: first the urgent tasks that the reserve leaves room for, then the reserve, then
      whatever ordinary and urgent work still fits. */
  method SelectWindow(ranked: seq<SearchTask>, reserve: int, capacity: int, now: real, zones: Option<Zones>)
    returns (window: Option<Window>)
    ensures window.None? <==> reserve < 0 || capacity <= 0 || now < 0.0
    ensures window.Some? ==> IsWindow(Firsts(ranked), reserve, capacity, zones, window.value) && Accepted(window.value)
  {
    hide *;
    if reserve < 0 || capacity <= 0 || now < 0.0 {
      return None;
    }
    var normalized := Normalize(ranked);
    var ordinary, urgent := Chosen(normalized, true), Chosen(normalized, false);
    var kept := ReserveCount(reserve, capacity, |ordinary|);
    var first := Min(capacity - kept, |urgent|);
    SharesFit(reserve, capacity, |ordinary|, |urgent|);
    ChosenAmong(normalized, true);
    UniqueAmong(normalized, ordinary);
    var pool := Pool(ordinary, zones);
    var taken := TakeRepresentatives(pool, kept);
    FirstSelection(normalized, urgent, first, taken);
    var started := urgent[..first] + taken;
    var filled := FillOrdinary(normalized, started, capacity);
    var selected := FillUrgent(normalized, filled, capacity);
    Shares(normalized, reserve, capacity, zones, pool, taken, started, selected);
    if |selected| < capacity {
      Complete(normalized, filled, selected);
    }
    OrdinaryIsApart(normalized, selected);
    var names := Represent(Chosen(selected, true));
    var w := Window(selected, names, Sources(selected));
    FillsIs(normalized, reserve, capacity, pool, kept, first, selected);
    WindowIs(normalized, reserve, capacity, zones, pool, w);
    WindowAccepted(normalized, w);
    return Some(w);
  }

  lemma SharesFit(reserve: int, capacity: int, ordinary: nat, urgent: nat)
    requires reserve >= 0 && capacity > 0
    ensures var kept := ReserveCount(reserve, capacity, ordinary);
            0 <= kept <= capacity && 0 <= Min(capacity - kept, urgent) <= urgent && Min(capacity - kept, urgent) + kept <= capacity
  {
  }

  lemma Shares(normalized: seq<SearchTask>, reserve: int, capacity: int, zones: Option<Zones>, pool: seq<SearchTask>, taken: seq<SearchTask>,
               started: seq<SearchTask>, selected: seq<SearchTask>)
    requires reserve >= 0 && capacity > 0
    requires var ordinary, urgent := Chosen(normalized, true), Chosen(normalized, false);
             var kept := ReserveCount(reserve, capacity, |ordinary|);
             var first := Min(capacity - kept, |urgent|);
             && 0 <= first <= |urgent| && started == urgent[..first] + taken && Chosen(started, true) == taken
             && (|taken| < kept ==> forall t :: t in pool ==> Settled(t, taken))
             && (forall t :: t in Reservable(ordinary, zones) ==> Settled(t, pool))
    requires if zones.Some? then Apart(pool) else pool == Chosen(normalized, true)
    requires (forall t :: t in taken ==> t in pool) && started <= selected
    ensures KeepsShares(Chosen(normalized, true), Chosen(normalized, false), reserve, capacity, zones, selected)
  {
    hide Overlaps, Apart, Settled, ReserveCount, Min, Chosen, Reservable;
    var ordinary := Chosen(normalized, true);
    var kept := ReserveCount(reserve, capacity, |ordinary|);
    StartStays(started, selected);
    if |taken| < kept {
      PoolSettles(ordinary, zones, pool, taken);
      SettledMore(taken, Chosen(selected, true));
    }
  }

  lemma StartStays(started: seq<SearchTask>, selected: seq<SearchTask>)
    requires started <= selected
    ensures Chosen(started, true) <= Chosen(selected, true)
  {
    ChosenJoin(started, selected[|started|..]);
    assert selected == started + selected[|started|..];
  }

  /** In a pool that is apart, a task that overlaps one of those taken is taken itself. */
  lemma TakenAll(pool: seq<SearchTask>, taken: seq<SearchTask>, t: SearchTask)
    requires Apart(pool) && (forall x :: x in taken ==> x in pool) && t in pool && Settled(t, taken)
    ensures t in taken
  {
    if t !in taken {
      var i: nat :| i < |taken| && taken[i].bbox.Some? && Intersects(t.bbox.value, taken[i].bbox.value);
      assert taken[i] in pool;
      var x: nat :| x < |pool| && pool[x] == taken[i];
      var y: nat :| y < |pool| && pool[y] == t;
      if x != y {
        BothApart(pool, y, x);
      }
    }
  }

  lemma BothApart(pool: seq<SearchTask>, x: nat, y: nat)
    requires Apart(pool) && x < |pool| && y < |pool| && x != y
    ensures !Intersects(pool[x].bbox.value, pool[y].bbox.value)
  {
    assert Intersects(pool[x].bbox.value, pool[y].bbox.value) <==> Intersects(pool[y].bbox.value, pool[x].bbox.value);
  }

  /** If the reserve was not used up, everything it could be used for is settled. */
  lemma PoolSettles(ordinary: seq<SearchTask>, zones: Option<Zones>, pool: seq<SearchTask>, taken: seq<SearchTask>)
    requires if zones.Some? then Apart(pool) else pool == ordinary
    requires (forall t :: t in taken ==> t in pool) && (forall t :: t in pool ==> Settled(t, taken))
    requires forall t :: t in Reservable(ordinary, zones) ==> Settled(t, pool)
    ensures forall t :: t in Reservable(ordinary, zones) ==> Settled(t, taken)
  {
    hide Overlaps, Apart, Zoned;
    if zones.Some? {
      forall t | t in pool
        ensures t in taken
      {
        TakenAll(pool, taken, t);
      }
      SettledMore(pool, taken);
    }
  }

  lemma Complete(normalized: seq<SearchTask>, filled: seq<SearchTask>, selected: seq<SearchTask>)
    requires filled <= selected
    requires forall t :: t in normalized && t.ordinary ==> Settled(t, filled)
    requires forall t :: t in normalized && !t.ordinary ==> t in selected
    ensures Exhausts(normalized, selected)
  {
    hide Overlaps;
    SettledMore(filled, selected);
  }

  lemma OrdinaryIsApart(normalized: seq<SearchTask>, selected: seq<SearchTask>)
    requires Sound(normalized, selected)
    ensures Apart(Chosen(selected, true))
  {
  }

  lemma FillsIs(normalized: seq<SearchTask>, reserve: int, capacity: nat, pool: seq<SearchTask>, kept: nat, first: nat, tasks: seq<SearchTask>)
    requires kept == ReserveCount(reserve, capacity, |Chosen(normalized, true)|)
    requires first == Min(capacity - kept, |Chosen(normalized, false)|) && first <= |Chosen(normalized, false)|
    requires var started := Chosen(normalized, false)[..first] + Taken(pool, [], kept, Free);
             tasks == Taken(normalized, Taken(normalized, started, capacity, FreeOrdinary), capacity, NewUrgent)
    ensures FillsInOrder(normalized, reserve, capacity, pool, tasks)
  {
    hide Chosen, Taken, ReserveCount, Min;
  }

  lemma WindowIs(normalized: seq<SearchTask>, reserve: int, capacity: int, zones: Option<Zones>, pool: seq<SearchTask>, w: Window)
    requires |w.tasks| <= capacity && Sound(normalized, w.tasks)
    requires |w.tasks| < capacity ==> Exhausts(normalized, w.tasks)
    requires w.representatives == Names(Chosen(w.tasks, true)) && w.sources == Sources(w.tasks)
    requires KeepsShares(Chosen(normalized, true), Chosen(normalized, false), reserve, capacity, zones, w.tasks)
    requires PoolOrder(Chosen(normalized, true), zones, pool) && FillsInOrder(normalized, reserve, capacity, pool, w.tasks)
    ensures IsWindow(normalized, reserve, capacity, zones, w)
  {
    hide Chosen, PoolOrder, FillsInOrder, KeepsShares, Sound, Exhausts, Names, Sources;
  }

  lemma WindowAccepted(normalized: seq<SearchTask>, w: Window)
    requires !HasId(normalized, "") && Sound(normalized, w.tasks)
    requires w.representatives == Names(Chosen(w.tasks, true)) && w.sources == Sources(w.tasks)
    ensures Accepted(w)
  {
    hide Apart;
    forall i: nat | i < |w.tasks|
      ensures w.tasks[i].id != "" && HasId(w.tasks, w.tasks[i].id)
    {
      assert w.tasks[i] in normalized;
    }
    forall id | id in w.representatives
      ensures HasId(w.tasks, id)
    {
      var i: nat :| i < |w.representatives| && w.representatives[i] == id;
      var t := Chosen(w.tasks, true)[i];
      assert t in w.tasks;
    }
  }
}
