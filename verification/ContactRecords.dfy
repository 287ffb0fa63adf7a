/** Contacts, their histories, and what holds of a contact store at all times. */
module ContactRecords {

  import opened Finite

  type SampleId = nat
  type ContactId = nat

  datatype Vec = Vec(x: real, y: real)

  datatype Source = Ais | Sar | Eo

  /** One fix of a contact; sample IDs are numbered in the order of their names. */
  datatype Sample = Sample(id: SampleId, contact: ContactId, at: real, source: Source, sourceId: string,
                           position: Vec, velocity: Option<Vec>, uncertainty: real)

  datatype ContactState = Pending | Queued | Approaching | Observing | Tracking | Cleared | Lost | Departed

  datatype VesselClass = Unknown | TypeI | TypeII

  datatype Activity = UnknownActivity | Normal | Suspected | Confirmed

  datatype Assessment = Assessment(id: string, probe: string, revision: nat, at: real, vesselClass: VesselClass,
                                   confidence: real, evidence: set<SampleId>)

  datatype Contact = Contact(
    id: ContactId, revision: nat, state: ContactState, vesselClass: VesselClass, mmsi: Option<string>,
    firstSeen: real, lastSeen: real, position: Vec, velocity: Option<Vec>, uncertainty: real,
    uav: Option<string>, probe: Option<string>, assessment: Option<Assessment>, clearedAt: Option<real>,
    notBefore: real, samples: seq<Sample>, activity: Activity)

  datatype Config = Config(window: real, maxSamples: nat, staleAfter: real, gate: real, margin: real, maxGap: real,
                           cooldown: real, confidenceMin: real, recheck: real)

  // ------------------------------------------------------------------------- trimming

  predicate Earlier(s: Sample, t: Sample) { s.at < t.at || (s.at == t.at && s.id < t.id) }

  function Insert(s: Sample, sorted: seq<Sample>): (r: seq<Sample>)
    ensures multiset(r) == multiset(sorted) + multiset{s}
  {
    if sorted == [] || !Earlier(sorted[0], s) then [s] + sorted else
      assert sorted == [sorted[0]] + sorted[1..];
      [sorted[0]] + Insert(s, sorted[1..])
  }

  function Sorted(samples: seq<Sample>): (r: seq<Sample>)
    ensures multiset(r) == multiset(samples)
  {
    if samples == [] then [] else
      assert samples == samples[..|samples| - 1] + [samples[|samples| - 1]];
      Insert(samples[|samples| - 1], Sorted(samples[..|samples| - 1]))
  }

  /** The samples not older than `cutoff`. */
  function Active(samples: seq<Sample>, cutoff: real): seq<Sample> {
    if samples == [] then [] else (if samples[0].at >= cutoff then [samples[0]] else []) + Active(samples[1..], cutoff)
  }

  /** The last `n`; all of them if `n` is 0, as a slice from `-0` is. */
  function Tail(samples: seq<Sample>, n: nat): seq<Sample> {
    if n == 0 || |samples| <= n then samples else samples[|samples| - n..]
  }

  function Retained(samples: seq<Sample>, now: real, config: Config): seq<Sample> {
    Tail(Active(Sorted(samples), now - config.window), config.maxSamples)
  }

  predicate HasId(samples: seq<Sample>, id: SampleId) { exists i: nat :: i < |samples| && samples[i].id == id }

  function Without(samples: seq<Sample>, kept: seq<Sample>): seq<Sample> {
    if samples == [] then [] else (if HasId(kept, samples[0].id) then [] else [samples[0]]) + Without(samples[1..], kept)
  }

  function Dropped(samples: seq<Sample>, now: real, config: Config): seq<Sample> {
    Without(Sorted(samples), Retained(samples, now, config))
  }

  /** The IDs of samples, with their multiplicity. */
  ghost function Ids(samples: seq<Sample>): multiset<SampleId> {
    if samples == [] then multiset{} else multiset{samples[0].id} + Ids(samples[1..])
  }

  lemma {:induction false} IdsJoin(a: seq<Sample>, b: seq<Sample>)
    ensures Ids(a + b) == Ids(a) + Ids(b)
  {
    if a == [] {
      assert a + b == b;
    } else {
      assert (a + b)[1..] == a[1..] + b;
      IdsJoin(a[1..], b);
    }
  }

  lemma {:induction false} HasIsIds(samples: seq<Sample>, id: SampleId)
    ensures HasId(samples, id) <==> id in Ids(samples)
  {
    if samples != [] {
      HasIsIds(samples[1..], id);
      if HasId(samples, id) {
        var i: nat :| i < |samples| && samples[i].id == id;
        if i > 0 {
          var k := i - 1;
          assert samples[1..][k].id == id;
        }
      }
      if HasId(samples[1..], id) {
        var k: nat :| k < |samples[1..]| && samples[1..][k].id == id;
        assert samples[k + 1].id == id;
      }
      if samples[0].id == id {
        assert HasId(samples, id);
      }
    }
  }

  lemma OneId(s: Sample)
    ensures Ids([s]) == multiset{s.id} && Ids([]) == multiset{}
  {
    assert [s][1..] == [];
  }

  lemma {:induction false} InsertIds(s: Sample, sorted: seq<Sample>)
    ensures Ids(Insert(s, sorted)) == Ids(sorted) + multiset{s.id}
  {
    if sorted == [] {
    } else if !Earlier(sorted[0], s) {
      IdsJoin([s], sorted);
    } else {
      InsertIds(s, sorted[1..]);
      IdsJoin([sorted[0]], Insert(s, sorted[1..]));
    }
  }

  lemma {:induction false} SortedIds(samples: seq<Sample>)
    ensures Ids(Sorted(samples)) == Ids(samples)
  {
    hide Ids, Insert;
    if samples != [] {
      var n := |samples| - 1;
      SortedIds(samples[..n]);
      InsertIds(samples[n], Sorted(samples[..n]));
      assert samples == samples[..n] + [samples[n]];
      IdsJoin(samples[..n], [samples[n]]);
      OneId(samples[n]);
    }
  }

  lemma Front(samples: seq<Sample>)
    requires samples != []
    ensures samples == [samples[0]] + samples[1..] && Ids(samples) == multiset{samples[0].id} + Ids(samples[1..])
  {
  }

  lemma {:induction false} ActiveIds(samples: seq<Sample>, cutoff: real)
    ensures Ids(Active(samples, cutoff)) <= Ids(samples)
  {
    hide Ids;
    if samples != [] {
      ActiveIds(samples[1..], cutoff);
      Front(samples);
      if samples[0].at >= cutoff {
        IdsJoin([samples[0]], Active(samples[1..], cutoff));
        OneId(samples[0]);
      } else {
        assert Active(samples, cutoff) == Active(samples[1..], cutoff);
      }
    }
  }

  lemma TailIds(samples: seq<Sample>, n: nat)
    ensures Ids(Tail(samples, n)) <= Ids(samples)
  {
    if 0 < n < |samples| {
      var k := |samples| - n;
      assert samples == samples[..k] + samples[k..];
      IdsJoin(samples[..k], samples[k..]);
    }
  }

  lemma Empty()
    ensures Ids([]) == multiset{}
  {
  }

  lemma {:induction false} WithoutIds(samples: seq<Sample>, kept: seq<Sample>, id: SampleId)
    ensures Ids(Without(samples, kept))[id] == if HasId(kept, id) then 0 else Ids(samples)[id]
  {
    hide Ids, HasId;
    if samples != [] {
      WithoutIds(samples[1..], kept, id);
      Front(samples);
      OneId(samples[0]);
      if HasId(kept, samples[0].id) {
        assert Without(samples, kept) == Without(samples[1..], kept);
      } else {
        assert Without(samples, kept) == [samples[0]] + Without(samples[1..], kept);
        IdsJoin([samples[0]], Without(samples[1..], kept));
      }
    } else {
      Empty();
    }
  }

  /** No ID twice. */
  ghost predicate OnceEach(ids: multiset<SampleId>) { forall id :: ids[id] <= 1 }

  /** Trimming a history splits it: what is not retained goes to the archive. */
  lemma TrimSplits(samples: seq<Sample>, now: real, config: Config)
    requires OnceEach(Ids(samples))
    ensures Ids(Retained(samples, now, config)) + Ids(Dropped(samples, now, config)) == Ids(samples)
  {
    hide Retained, Dropped, Sorted, Active, Tail, Without, Ids, HasId;
    var kept, gone := Retained(samples, now, config), Dropped(samples, now, config);
    TrimBounds(samples, now, config);
    forall id
      ensures Ids(kept)[id] + Ids(gone)[id] == Ids(samples)[id]
    {
      assert Ids(samples)[id] <= 1;
      DroppedIds(samples, now, config, id);
      HasIsIds(kept, id);
    }
    assert forall id :: (Ids(kept) + Ids(gone))[id] == Ids(samples)[id];
  }

  lemma TrimBounds(samples: seq<Sample>, now: real, config: Config)
    ensures Ids(Retained(samples, now, config)) <= Ids(samples)
  {
    hide Ids, Sorted, Active, Tail;
    SortedIds(samples);
    ActiveIds(Sorted(samples), now - config.window);
    TailIds(Active(Sorted(samples), now - config.window), config.maxSamples);
  }

  lemma DroppedIds(samples: seq<Sample>, now: real, config: Config, id: SampleId)
    ensures Ids(Dropped(samples, now, config))[id] == if HasId(Retained(samples, now, config), id) then 0 else Ids(samples)[id]
  {
    SortedIds(samples);
    WithoutIds(Sorted(samples), Retained(samples, now, config), id);
  }

  // ----------------------------------------------------------------- retained samples

  ghost predicate InTime(samples: seq<Sample>) {
    forall i: nat, j: nat :: i < j < |samples| ==> !Earlier(samples[j], samples[i])
  }

  lemma {:induction false} InsertInTime(s: Sample, sorted: seq<Sample>)
    requires InTime(sorted)
    ensures InTime(Insert(s, sorted))
  {
    if sorted != [] && Earlier(sorted[0], s) {
      var rest := Insert(s, sorted[1..]);
      InsertInTime(s, sorted[1..]);
      forall j: nat | j < |rest|
        ensures !Earlier(rest[j], sorted[0])
      {
        assert rest[j] in multiset(rest);
        assert rest[j] == s || rest[j] in sorted[1..];
        if rest[j] != s {
          var k: nat :| k < |sorted[1..]| && sorted[1..][k] == rest[j];
          assert sorted[k + 1] == rest[j];
        }
      }
    }
  }

  lemma {:induction false} SortedInTime(samples: seq<Sample>)
    ensures InTime(Sorted(samples))
  {
    if samples != [] {
      SortedInTime(samples[..|samples| - 1]);
      InsertInTime(samples[|samples| - 1], Sorted(samples[..|samples| - 1]));
    }
  }

  lemma {:induction false} ActiveKeeps(samples: seq<Sample>, cutoff: real)
    requires InTime(samples)
    ensures InTime(Active(samples, cutoff))
    ensures forall s :: s in Active(samples, cutoff) <==> s in samples && s.at >= cutoff
  {
    if samples != [] {
      var rest := samples[1..];
      assert InTime(rest);
      ActiveKeeps(rest, cutoff);
      assert samples == [samples[0]] + rest;
      ActiveFront(samples, Active(rest, cutoff));
    }
  }

  lemma ActiveFront(samples: seq<Sample>, active: seq<Sample>)
    requires samples != [] && InTime(samples) && InTime(active)
    requires var rest := samples[1..]; forall s :: s in active ==> s in rest
    ensures InTime([samples[0]] + active)
  {
    var all := [samples[0]] + active;
    forall i: nat, j: nat | i < j < |all|
      ensures !Earlier(all[j], all[i])
    {
      var h := j - 1;
      assert active[h] == all[j];
      if i == 0 {
        var rest := samples[1..];
        assert active[h] in rest;
        var k: nat :| k < |rest| && rest[k] == active[h];
        assert samples[k + 1] == active[h];
      } else {
        var g := i - 1;
        assert active[g] == all[i];
      }
    }
  }

  /** What a history keeps: in time, inside the window, at most so many, and the latest of those. */
  lemma RetainedAreLatest(samples: seq<Sample>, now: real, config: Config)
    requires config.maxSamples > 0
    ensures var kept := Retained(samples, now, config);
            && InTime(kept) && |kept| <= config.maxSamples
            && (forall s :: s in kept ==> s in samples && s.at >= now - config.window)
            && (forall s, t :: s in samples && s.at >= now - config.window && s !in kept && t in kept ==> !Earlier(t, s))
            && (|kept| < config.maxSamples ==> forall s :: s in samples && s.at >= now - config.window ==> s in kept)
  {
    hide Sorted, Active;
    var active := Active(Sorted(samples), now - config.window);
    SortedInTime(samples);
    ActiveKeeps(Sorted(samples), now - config.window);
    assert forall s :: s in samples <==> s in multiset(samples);
    assert forall s :: s in Sorted(samples) <==> s in multiset(Sorted(samples));
    TailIsLatest(active, config.maxSamples);
  }

  lemma TailIsLatest(active: seq<Sample>, n: nat)
    requires InTime(active) && n > 0
    ensures var kept := Tail(active, n);
            && InTime(kept) && |kept| <= n && (forall s :: s in kept ==> s in active)
            && (forall s, t :: s in active && s !in kept && t in kept ==> !Earlier(t, s))
            && (|kept| < n ==> kept == active)
  {
    var kept := Tail(active, n);
    forall s, t | s in active && s !in kept && t in kept
      ensures !Earlier(t, s)
    {
      var k := |active| - |kept|;
      assert kept == active[k..];
      assert active == active[..k] + kept;
      assert s in active[..k];
      var i: nat :| i < k && active[i] == s;
      var j: nat :| j < |kept| && kept[j] == t;
      assert active[k + j] == t;
    }
  }

  // ------------------------------------------------------------------------ estimates

  function Lower(x: real, y: real): real { if y < x then y else x }
  function Higher(x: real, y: real): real { if x < y then y else x }

  function Scaled(v: Vec, t: real): Vec { Vec(v.x * t, v.y * t) }
  function Shifted(p: Vec, d: Vec): Vec { Vec(p.x + d.x, p.y + d.y) }

  function Rate(from: Vec, to: Vec, dt: real): Vec
    requires dt != 0.0
  {
    Vec((to.x - from.x) / dt, (to.y - from.y) / dt)
  }

  /** Where a contact is taken to be at a time. */
  function Predicted(c: Contact, at: real): Vec {
    if c.velocity.Some? then Shifted(c.position, Scaled(c.velocity.value, at - c.lastSeen)) else c.position
  }

  /** The last sample before `latest` from the same source. */
  function PreviousOf(samples: seq<Sample>, latest: Sample): Option<Sample> {
    if samples == [] then None else
      var s := samples[|samples| - 1];
      if s.source == latest.source && s.sourceId == latest.sourceId && s.at < latest.at then Some(s)
      else PreviousOf(samples[..|samples| - 1], latest)
  }

  lemma {:induction false} PreviousIsEarlier(samples: seq<Sample>, latest: Sample)
    requires PreviousOf(samples, latest).Some?
    ensures PreviousOf(samples, latest).value.at < latest.at
  {
    var s := samples[|samples| - 1];
    if !(s.source == latest.source && s.sourceId == latest.sourceId && s.at < latest.at) {
      PreviousIsEarlier(samples[..|samples| - 1], latest);
    }
  }

  function VelocityOf(samples: seq<Sample>, maxGap: real): Option<Vec>
    requires samples != []
  {
    var latest, before := samples[|samples| - 1], samples[..|samples| - 1];
    if latest.velocity.Some? then latest.velocity
    else
      var previous := PreviousOf(before, latest);
      if previous.None? || latest.at - previous.value.at > maxGap then None
      else
        PreviousIsEarlier(before, latest);
        Some(Rate(previous.value.position, latest.position, latest.at - previous.value.at))
  }

  /** Position and velocity from the latest sample. */
  function Estimate(c: Contact, maxGap: real): Contact {
    if c.samples == [] then c else
      var latest := c.samples[|c.samples| - 1];
      c.(position := latest.position, velocity := VelocityOf(c.samples, maxGap), uncertainty := latest.uncertainty)
  }

  /** A contact with one more sample, its history trimmed to `samples`. */
  function Observed(c: Contact, s: Sample, samples: seq<Sample>, now: real, config: Config): Contact {
    var first := if c.revision == 0 then s.at else Lower(c.firstSeen, s.at);
    var last := if c.revision == 0 then s.at else Higher(c.lastSeen, s.at);
    var found := c.state == Lost && now - s.at <= config.staleAfter;
    Estimate(c.(revision := c.revision + 1, samples := samples, firstSeen := first, lastSeen := last,
                notBefore := if c.revision == 0 then s.at else c.notBefore,
                state := if found then (if c.vesselClass == TypeI then Cleared else Pending) else c.state), config.maxGap)
  }

  function Relabelled(samples: seq<Sample>, id: ContactId): (r: seq<Sample>)
    ensures |r| == |samples|
  {
    if samples == [] then [] else [samples[0].(contact := id)] + Relabelled(samples[1..], id)
  }

  lemma {:induction false} RelabelledIds(samples: seq<Sample>, id: ContactId)
    ensures Ids(Relabelled(samples, id)) == Ids(samples)
  {
    if samples != [] {
      RelabelledIds(samples[1..], id);
      var r := Relabelled(samples, id);
      assert r[1..] == Relabelled(samples[1..], id);
    }
  }

  function AssessedAt(c: Contact): real { if c.assessment.Some? then c.assessment.value.at else -1.0 }

  /** The contact that AIS contact `a` and visual contact `k` become; the first assessment wins a tie. */
  function Merged(a: Contact, k: Contact, samples: seq<Sample>, maxGap: real): Contact {
    var owner := if a.uav.Some? then a else k;
    var assessed := if AssessedAt(k) > AssessedAt(a) then k else a;
    var merged := a.(
      revision := a.revision + k.revision + 1, firstSeen := Lower(a.firstSeen, k.firstSeen), lastSeen := Higher(a.lastSeen, k.lastSeen),
      state := if assessed.assessment.Some? then assessed.state else owner.state, assessment := assessed.assessment,
      vesselClass := assessed.vesselClass, activity := assessed.activity, clearedAt := assessed.clearedAt,
      notBefore := Higher(a.notBefore, k.notBefore), uav := owner.uav, probe := owner.probe, samples := samples);
    Estimate(if merged.vesselClass == TypeI then merged.(state := Cleared, uav := None, probe := None) else merged, maxGap)
  }

  // ------------------------------------------------------------- what the estimates mean

  /** Where a vessel on a straight course is at a time. */
  ghost function Course(start: Vec, speed: Vec, at: real): Vec { Vec(start.x + speed.x * at, start.y + speed.y * at) }

  /** All fixes lie on one straight course, and so do the velocities measured with them. */
  ghost predicate OnCourse(samples: seq<Sample>, start: Vec, speed: Vec) {
    forall i: nat :: i < |samples| ==>
      samples[i].position == Course(start, speed, samples[i].at) && (samples[i].velocity.Some? ==> samples[i].velocity.value == speed)
  }

  lemma RateAlong(start: real, speed: real, from: real, to: real)
    requires from < to
    ensures (start + speed * to - (start + speed * from)) / (to - from) == speed
  {
    assert start + speed * to - (start + speed * from) == speed * (to - from);
  }

  lemma RateOnCourse(start: Vec, speed: Vec, from: real, to: real)
    requires from < to
    ensures Rate(Course(start, speed, from), Course(start, speed, to), to - from) == speed
  {
    RateAlong(start.x, speed.x, from, to);
    RateAlong(start.y, speed.y, from, to);
  }

  lemma {:induction false} PreviousIs(samples: seq<Sample>, latest: Sample)
    ensures var p := PreviousOf(samples, latest);
            if p.None? then forall i: nat :: i < |samples| ==> !FromSame(samples[i], latest)
            else exists i: nat :: i < |samples| && p.value == samples[i] && FromSame(samples[i], latest)
                                  && forall j: nat :: i < j < |samples| ==> !FromSame(samples[j], latest)
  {
    if samples != [] {
      var n := |samples| - 1;
      var before := samples[..n];
      PreviousIs(before, latest);
      if !FromSame(samples[n], latest) {
        if PreviousOf(before, latest).Some? {
          var i: nat :| i < n && PreviousOf(before, latest).value == before[i] && FromSame(before[i], latest)
                        && forall j: nat :: i < j < n ==> !FromSame(before[j], latest);
          assert samples[i] == before[i];
          assert forall j: nat :: i < j < n ==> samples[j] == before[j];
        } else {
          assert forall j: nat :: j < n ==> samples[j] == before[j];
        }
      } else {
        assert PreviousOf(samples, latest) == Some(samples[n]);
      }
    }
  }

  /** An earlier fix from the same source. */
  predicate FromSame(s: Sample, latest: Sample) { s.source == latest.source && s.sourceId == latest.sourceId && s.at < latest.at }

  /** The velocity estimated on a straight course is the true one; none is estimated exactly when none was measured
      and no earlier fix of the same source is recent enough. */
  lemma VelocityOnCourse(samples: seq<Sample>, start: Vec, speed: Vec, maxGap: real)
    requires samples != [] && OnCourse(samples, start, speed)
    ensures var latest := samples[|samples| - 1];
            && (VelocityOf(samples, maxGap).Some? ==> VelocityOf(samples, maxGap) == Some(speed))
            && (VelocityOf(samples, maxGap).None? ==>
                  latest.velocity.None? && (PreviousOf(samples[..|samples| - 1], latest).Some? ==>
                    latest.at - PreviousOf(samples[..|samples| - 1], latest).value.at > maxGap))
  {
    hide PreviousOf, Rate, Course;
    var latest, before := samples[|samples| - 1], samples[..|samples| - 1];
    var p := PreviousOf(before, latest);
    PreviousIs(before, latest);
    if latest.velocity.None? && p.Some? && latest.at - p.value.at <= maxGap {
      var i: nat :| i < |before| && p.value == before[i] && FromSame(before[i], latest);
      assert before[i] == samples[i];
      RateOnCourse(start, speed, p.value.at, latest.at);
      assert VelocityOf(samples, maxGap) == Some(Rate(p.value.position, latest.position, latest.at - p.value.at));
      assert samples[|samples| - 1].position == Course(start, speed, latest.at);
    }
  }

  lemma AlongCourse(start: real, speed: real, last: real, at: real)
    ensures start + speed * last + speed * (at - last) == start + speed * at
  {
  }

  lemma FurtherOnCourse(start: Vec, speed: Vec, last: real, at: real)
    ensures Shifted(Course(start, speed, last), Scaled(speed, at - last)) == Course(start, speed, at)
  {
    AlongCourse(start.x, speed.x, last, at);
    AlongCourse(start.y, speed.y, last, at);
  }

  /** A vessel on a straight course is predicted where it will be. */
  lemma PredictedOnCourse(c: Contact, start: Vec, speed: Vec, maxGap: real, at: real)
    requires c.samples != [] && OnCourse(c.samples, start, speed) && c.lastSeen == c.samples[|c.samples| - 1].at
    requires Estimate(c, maxGap).velocity.Some?
    ensures Predicted(Estimate(c, maxGap), at) == Course(start, speed, at)
  {
    hide VelocityOf, OnCourse, Course, Shifted, Scaled;
    VelocityOnCourse(c.samples, start, speed, maxGap);
    LatestOnCourse(c.samples, start, speed);
    FurtherOnCourse(start, speed, c.lastSeen, at);
  }

  lemma LatestOnCourse(samples: seq<Sample>, start: Vec, speed: Vec)
    requires samples != [] && OnCourse(samples, start, speed)
    ensures samples[|samples| - 1].position == Course(start, speed, samples[|samples| - 1].at)
  {
  }

  /** Without a velocity a vessel is predicted where it was seen last. */
  lemma PredictedAtRest(c: Contact, at: real)
    requires c.velocity.None? || c.velocity == Some(Vec(0.0, 0.0))
    ensures Predicted(c, at) == c.position
  {
  }

  /** One more sample: the times spread over it, a lost contact is found again if it is recent, and nothing else about
      the contact changes but what is estimated from the history. */
  lemma ObservedMeans(c: Contact, s: Sample, samples: seq<Sample>, now: real, config: Config)
    ensures var d := Observed(c, s, samples, now, config);
            && d.revision == c.revision + 1 && d.samples == samples
            && (c.revision == 0 ==> d.firstSeen == s.at && d.lastSeen == s.at && d.notBefore == s.at)
            && (c.revision > 0 ==> d.firstSeen <= s.at <= d.lastSeen && d.firstSeen <= c.firstSeen && c.lastSeen <= d.lastSeen
                                   && d.firstSeen in {c.firstSeen, s.at} && d.lastSeen in {c.lastSeen, s.at} && d.notBefore == c.notBefore)
            && (d.state != c.state <==> c.state == Lost && now - s.at <= config.staleAfter)
            && (d.state != c.state ==> d.state == if c.vesselClass == TypeI then Cleared else Pending)
            && (samples != [] ==> d.position == samples[|samples| - 1].position && d.uncertainty == samples[|samples| - 1].uncertainty)
            && d == c.(revision := d.revision, samples := samples, firstSeen := d.firstSeen, lastSeen := d.lastSeen, notBefore := d.notBefore,
                       state := d.state, position := d.position, velocity := d.velocity, uncertainty := d.uncertainty)
  {
    hide VelocityOf;
  }

  /** A merge keeps the later assessment with all that was concluded from it, the first of equally late ones, and one
      of a single contact; the times spread over both. A harmless vessel is cleared and its UAV freed; any other
      keeps the UAV of the AIS contact, or else that of the visual one. */
  lemma MergedMeans(a: Contact, k: Contact, samples: seq<Sample>, maxGap: real)
    requires (a.assessment.Some? ==> a.assessment.value.at >= 0.0) && (k.assessment.Some? ==> k.assessment.value.at >= 0.0)
    ensures var m := Merged(a, k, samples, maxGap);
            var kept := if k.assessment.Some? && (a.assessment.Some? ==> k.assessment.value.at > a.assessment.value.at) then k else a;
            && m.assessment == kept.assessment && m.vesselClass == kept.vesselClass && m.activity == kept.activity
            && m.clearedAt == kept.clearedAt
            && (a.assessment.Some? || k.assessment.Some? ==> m.assessment.Some?)
            && (a.assessment.Some? ==> a.assessment.value.at <= m.assessment.value.at)
            && (k.assessment.Some? ==> k.assessment.value.at <= m.assessment.value.at)
            && m.firstSeen <= a.firstSeen && m.firstSeen <= k.firstSeen && m.firstSeen in {a.firstSeen, k.firstSeen}
            && m.lastSeen >= a.lastSeen && m.lastSeen >= k.lastSeen && m.lastSeen in {a.lastSeen, k.lastSeen}
            && m.notBefore >= a.notBefore && m.notBefore >= k.notBefore && m.notBefore in {a.notBefore, k.notBefore}
            && m.id == a.id && m.mmsi == a.mmsi && m.samples == samples && m.revision == a.revision + k.revision + 1
            && (m.vesselClass == TypeI ==> m.state == Cleared && m.uav.None? && m.probe.None?)
            && (m.vesselClass != TypeI ==>
                  && (m.uav, m.probe) == (if a.uav.Some? then (a.uav, a.probe) else (k.uav, k.probe))
                  && m.state == (if m.assessment.Some? then kept.state else if a.uav.Some? then a.state else k.state))
  {
    hide VelocityOf;
  }

  /** Relabelling gives every sample to the contact, and changes nothing else. */
  lemma {:induction false} RelabelledAre(samples: seq<Sample>, id: ContactId, i: nat)
    requires i < |samples|
    ensures Relabelled(samples, id)[i] == samples[i].(contact := id)
  {
    if i > 0 {
      RelabelledAre(samples[1..], id, i - 1);
    }
  }
}
