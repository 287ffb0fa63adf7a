/** Whole runs of the contact store: when a UAV stays reserved for one contact, and when it need not. */
module ContactRuns {

  import opened Finite
  import opened ContactRecords
  import opened ContactViews
  import opened ContactStore

  datatype Operation =
    | HearAis(signal: Signal, receivedAt: real)
    | Detect(detection: Detection, association: Option<ContactId>)
    | Listen(name: string, track: string, position: Vec, heardAt: real, radius: real)
    | Sweep(sweptAt: real)
    | Book(booked: ContactId, uav: string, probe: Option<string>)
    | Rebook(rebooked: ContactId, owner: string, expectedProbe: Option<string>, newProbe: Option<string>)
    | Unbook(freed: ContactId, freedAt: real, reason: string)
    | Judge(judged: ContactId, outcome: Assessment)
    | Dimension(id: ContactId, vesselClass: VesselClass, classConfidence: real, activity: Activity, activityConfidence: real,
                at: real, expected: Option<nat>)

  /** The contact an assessment is for. */
  function Target(v: View, op: Operation): ContactId
    requires op.Dimension?
  {
    if op.id in v.aliases then v.aliases[op.id] else op.id
  }

  /** The operation confirms a violation, is accepted, and its contact is not listed. */
  ghost predicate Upsets(v: View, op: Operation, config: Config) {
    && op.Dimension? && op.activity == Confirmed
    && var c := Target(v, op);
       && c in v.contacts && v.contacts[c].revision == 0
       && op.at >= 0.0 && (op.expected.Some? ==> op.expected.value == 0)
       && DimensionsFit(op.vesselClass, op.classConfidence, op.activity, op.activityConfidence, config)
  }

  method Operate(store: ContactStore, op: Operation)
    requires store.Valid()
    modifies store
    ensures store.Valid() && Onward(old(store.Seen()), store.Seen())
    ensures old(Orderly(store.Seen())) ==> (Orderly(store.Seen()) <==> !Upsets(old(store.Seen()), op, store.config))
  {
    hide Onward, Orderly, DimensionsFit, Dimensioned;
    hide store.Valid;
    match op
    case HearAis(signal, receivedAt) => var _ := store.IngestAis(signal, receivedAt);
    case Detect(detection, association) => var _ := store.IngestVisual(detection, association);
    case Listen(name, track, position, at, radius) => var _ := store.IngestPassive(name, track, position, at, radius);
    case Sweep(at) => var _, _ := store.Expire(at);
    case Book(c, uav, probe) => var _ := store.Reserve(c, uav, probe);
    case Rebook(c, owner, expected, probe) => var _ := store.TransitionReservation(c, owner, expected, probe);
    case Unbook(c, at, reason) => var _ := store.Release(c, at, reason);
    case Judge(c, outcome) => var _ := store.ApplyAssessment(c, outcome);
    case Dimension(c, class0, confidence, activity, activityConfidence, at, expected) =>
      var _ := store.ApplyDimensions(c, class0, confidence, activity, activityConfidence, at, expected);
  }

  /** None of the first `n` operations upset the order. */
  ghost predicate Undisturbed(states: seq<View>, ops: seq<Operation>, n: nat, config: Config) {
    n <= |ops| && n <= |states| && forall i: nat :: i < n ==> !Upsets(states[i], ops[i], config)
  }

  ghost predicate OrderlySoFar(states: seq<View>, ops: seq<Operation>, config: Config) {
    forall n: nat :: n < |states| && Undisturbed(states, ops, n, config) ==> Orderly(states[n])
  }

  lemma OrderlyOnce(v: View, ops: seq<Operation>, config: Config)
    requires Orderly(v)
    ensures OrderlySoFar([v], ops, config)
  {
  }

  lemma OrderlyNext(states: seq<View>, ops: seq<Operation>, next: View, config: Config)
    requires 0 < |states| <= |ops| && OrderlySoFar(states, ops, config)
    requires var k := |states| - 1; Orderly(states[k]) && !Upsets(states[k], ops[k], config) ==> Orderly(next)
    ensures OrderlySoFar(states + [next], ops, config)
  {
    hide Orderly, Upsets;
    var more := states + [next];
    forall n: nat | n < |more| && Undisturbed(more, ops, n, config)
      ensures Orderly(more[n])
    {
      if n < |states| {
        assert forall i: nat :: i < n ==> more[i] == states[i];
        assert Undisturbed(states, ops, n, config);
      } else {
        var k := n - 1;
        assert more[k] == states[k] && !Upsets(more[k], ops[k], config);
        assert forall i: nat :: i < k ==> more[i] == states[i];
        assert Undisturbed(states, ops, k, config);
      }
    }
  }

  /** In every run a UAV is reserved for one contact, in every state before which no violation was
      confirmed for a contact that is not listed. */
  method Run(store: ContactStore, ops: seq<Operation>) returns (ghost states: seq<View>)
    requires store.Valid() && Orderly(store.Seen())
    modifies store
    ensures store.Valid() && |states| == |ops| + 1
    ensures states[0] == old(store.Seen()) && states[|ops|] == store.Seen()
    ensures forall n: nat :: n <= |ops| ==> Onward(states[0], states[n])
    ensures forall n: nat :: n <= |ops| && Undisturbed(states, ops, n, store.config) ==> Exclusive(states[n])
  {
    hide *;
    states := [store.Seen()];
    OnwardSelf(store.Seen());
    OrderlyOnce(store.Seen(), ops, store.config);
    for k := 0 to |ops|
      invariant store.Valid() && |states| == k + 1
      invariant states[0] == old(store.Seen()) && states[k] == store.Seen()
      invariant forall n: nat :: n <= k ==> Onward(states[0], states[n])
      invariant OrderlySoFar(states, ops, store.config)
    {
      Operate(store, ops[k]);
      OnwardTransitive(states[0], states[k], store.Seen());
      OrderlyNext(states, ops, store.Seen(), store.config);
      states := states + [store.Seen()];
    }
    ExclusiveSoFar(states, ops, store.config);
  }

  lemma ExclusiveSoFar(states: seq<View>, ops: seq<Operation>, config: Config)
    requires OrderlySoFar(states, ops, config)
    ensures forall n: nat :: n < |states| && Undisturbed(states, ops, n, config) ==> Exclusive(states[n])
  {
    hide Exclusive, Undisturbed;
  }

  lemma TargetIs(v: View, op: Operation)
    requires op.Dimension?
    ensures Target(v, op) == if op.id in v.aliases then v.aliases[op.id] else op.id
  {
  }

  ghost predicate HasNone(contacts: map<ContactId, Contact>, uav: string) {
    forall c :: c in contacts ==> contacts[c].uav != Some(uav)
  }

  /** The operation is accepted, and leaves its contact tracked, unlisted and free. */
  lemma UpsetTracks(v: View, op: Operation, config: Config, uav: string)
    requires Orderly(v) && Upsets(v, op, config) && HasNone(v.contacts, uav)
    ensures op.Dimension? && op.activity == Confirmed
    ensures var c := Target(v, op);
            && c in v.contacts && op.at >= 0.0 && (op.expected.Some? ==> op.expected.value == v.contacts[c].revision)
            && DimensionsFit(op.vesselClass, op.classConfidence, op.activity, op.activityConfidence, config)
            && var d := Dimensioned(v.contacts[c], op.vesselClass, op.activity);
               d.revision == 0 && d.state == Tracking && d.uav.None? && HasNone(v.contacts[c := d], uav)
  {
  }

  /** A report just made opens its contact. */
  lemma JustHeard(c: Contact, signal: Signal, was: real, now: real, config: Config)
    requires FirstHeard(c, signal, now, config) && now == Higher(was, signal.at) && signal.at >= was
    requires config.window >= 0.0 && config.staleAfter >= 0.0
    ensures c.state == Pending && c.uav.None?
  {
  }

  lemma OneMoreWithout(contacts: map<ContactId, Contact>, more: map<ContactId, Contact>, d: ContactId, uav: string)
    requires HasNone(contacts, uav) && d in more && more == contacts[d := more[d]] && more[d].uav.None?
    ensures HasNone(more, uav)
  {
  }

  /** A confirmed violation of a contact that is not listed is one step from the reservation of one UAV
      twice: another vessel is heard for the first time, and both contacts are reserved. */
  method Breach(store: ContactStore, op: Operation, signal: Signal, uav: string)
    requires store.Valid() && Orderly(store.Seen()) && Upsets(store.Seen(), op, store.config)
    requires store.config.window >= 0.0 && store.config.staleAfter >= 0.0
    requires !store.Malformed(signal, signal.at) && signal.at >= store.now
    requires signal.mmsi !in store.mmsi && store.aisId(signal.mmsi, signal.at) !in store.accepted
    requires uav != "" && HasNone(store.contacts, uav)
    modifies store
    ensures store.Valid() && !Exclusive(store.Seen())
  {
    hide *;
    SeenIs(store);
    UpsetTracks(store.Seen(), op, store.config, uav);
    TargetIs(store.Seen(), op);
    var c := store.Resolve(op.id);
    ghost var was := store.now;
    var _ := store.ApplyDimensions(op.id, op.vesselClass, op.classConfidence, op.activity, op.activityConfidence, op.at, op.expected);
    ghost var tracked := store.contacts;
    var other := store.IngestAis(signal, signal.at);
    JustHeard(store.contacts[other.value], signal, was, store.now, store.config);
    OneMoreWithout(tracked, store.contacts, other.value, uav);
    var _ := BookTwice(store, c, other.value, uav);
  }

  lemma WellFormed(store: ContactStore, window: real)
    requires window >= 0.0
    ensures var here := Vec(0.0, 0.0);
            && !store.Malformed(Signal("1", 0.0, here, 0.0, here), window + 1.0)
            && !store.Malformed(Signal("2", window + 1.0, here, 0.0, here), window + 1.0)
    ensures Higher(0.0, window + 1.0) == window + 1.0
  {
  }

  lemma OldReportUpsets(store: ContactStore, c: ContactId, signal: Signal, op: Operation, uav: string)
    requires store.Valid() && Orderly(store.Seen()) && store.contacts.Keys == {c}
    requires FirstHeard(store.contacts[c], signal, store.now, store.config)
    requires signal.at < store.now - store.config.window
    requires op == Dimension(c, Unknown, 0.0, Confirmed, Higher(store.config.confidenceMin, 1.0), 0.0, None)
    ensures Upsets(store.Seen(), op, store.config) && HasNone(store.contacts, uav)
  {
    hide Conserved, Paired, MergesJustified, References, MmsiUnique;
  }

  /** From an empty store: a report too old for any history, a violation confirmed for its contact, a
      second vessel, and one UAV reserved for both. */
  method DoubleBooking(config: Config, distance: (Vec, Vec) -> real, aisId: (string, real) -> SampleId, aisUncertainty: real, uav: string)
    returns (store: ContactStore)
    requires config.window >= 0.0 && config.staleAfter >= 0.0 && uav != ""
    requires aisId("1", 0.0) != aisId("2", config.window + 1.0)
    ensures store.Valid() && !Exclusive(store.Seen())
  {
    hide *;
    store := new ContactStore(config, distance, aisId, aisUncertainty);
    SeenIs(store);
    var here := Vec(0.0, 0.0);
    var first, second := Signal("1", 0.0, here, 0.0, here), Signal("2", config.window + 1.0, here, 0.0, here);
    var sure := Higher(config.confidenceMin, 1.0);
    WellFormed(store, config.window);
    var r := store.IngestAis(first, config.window + 1.0);
    SeenIs(store);
    var op := Dimension(r.value, Unknown, 0.0, Confirmed, sure, 0.0, None);
    OldReportUpsets(store, r.value, first, op, uav);
    Breach(store, op, second, uav);
  }

  // ------------------------------------------------------------------ two matches in a row

  /** A vessel known from one report over AIS, lying still. */
  ghost predicate LiesStill(c: Contact, here: Vec) {
    && c.mmsi.Some? && c.revision > 0 && c.state == Pending && c.lastSeen == 0.0 && c.position == here
    && c.velocity == Some(Vec(0.0, 0.0)) && forall i: nat :: i < |c.samples| ==> c.samples[i].source == Ais
  }

  /** A vessel sighted once, with no velocity known. */
  ghost predicate SightedOnce(c: Contact, here: Vec) {
    && c.mmsi.None? && c.revision > 0 && c.state == Pending && c.lastSeen == 1.0 && c.position == here && c.velocity.None?
    && |c.samples| == 1 && c.samples[0].source != Ais
  }

  lemma OneSample(s: Sample, now: real, config: Config)
    requires s.at >= now - config.window
    ensures Retained([s], now, config) == [s]
  {
    assert Sorted([s]) == [s] by {
      assert [s][..0] == [];
    }
    assert Active([s], now - config.window) == [s] by {
      assert [s][1..] == [];
    }
  }

  lemma Lying(signal: Signal, id: SampleId, c: ContactId, uncertainty: real, config: Config)
    requires signal == Signal("1", 0.0, signal.position, 0.0, Vec(0.0, 0.0)) && config.window >= 0.0 && config.staleAfter >= 2.0
    ensures var grown := Grown(map[], Some("1"), ReportOf(signal, id, c, uncertainty), 0.0, config);
            grown.Keys == {c} && LiesStill(grown[c], signal.position)
  {
    hide Retained;
    OneSample(ReportOf(signal, id, c, uncertainty), 0.0, config);
    assert [] + [ReportOf(signal, id, c, uncertainty)] == [ReportOf(signal, id, c, uncertainty)];
  }

  lemma Sighting(known: map<ContactId, Contact>, d: Detection, c: ContactId, config: Config)
    requires c !in known && d.at == 1.0 && d.velocity.None? && d.source != Ais && config.window >= 0.0 && config.staleAfter >= 2.0
    ensures var grown := Grown(known, None, FixOf(d, c), 1.0, config);
            grown == known[c := grown[c]] && SightedOnce(grown[c], d.position)
  {
    hide Retained;
    OneSample(FixOf(d, c), 1.0, config);
    assert [] + [FixOf(d, c)] == [FixOf(d, c)];
  }

  lemma SightedAgain(known: map<ContactId, Contact>, d: Detection, c: ContactId, now: real, config: Config)
    requires c in known
    ensures var grown := Grown(known, None, FixOf(d, c), now, config);
            grown == known[c := grown[c]] && grown[c].mmsi == known[c].mmsi
  {
    hide Retained, VelocityOf;
  }

  /** The only vessel known over AIS is clearly meant by a fix where it lies. */
  lemma StillIsMeant(store: ContactStore, known: map<ContactId, Contact>, a: ContactId, here: Vec, at: real)
    requires a in known && LiesStill(known[a], here) && 0.0 <= at <= store.config.staleAfter
    requires store.distance(here, here) == 0.0 && store.config.gate >= 0.0
    requires forall c :: c in known && c != a ==> known[c].mmsi.None?
    ensures store.Clear(known, a, here, at, Identified)
  {
    assert Predicted(known[a], at) == here;
  }

  lemma NotSightedYet(store: ContactStore, v: View, a: ContactId, here: Vec, d: Detection, c: ContactId)
    requires v.contacts.Keys == {a} && LiesStill(v.contacts[a], here) && v.emitters == map[] && store.Lands(v, d, None, c)
    ensures c == v.counter + 1 && !store.Ambiguous(v, d, None)
  {
    store.LandsIs(v, d, None, c);
    store.ExpectedIs(v, d, None);
    assert SignalsOf(v.emitters, v.aliases) == {};
    assert !InPool(v.contacts[a], Sighted({}));
  }

  lemma SightedThere(store: ContactStore, v: View, a: ContactId, k: ContactId, here: Vec, d: Detection, c: ContactId)
    requires v.contacts.Keys == {a, k} && a != k && LiesStill(v.contacts[a], here) && SightedOnce(v.contacts[k], here)
    requires v.emitters == map[] && store.Lands(v, d, None, c) && d.position == here && 1.0 <= d.at <= 1.0 + store.config.staleAfter
    requires store.distance(here, here) == 0.0 && store.config.gate >= 0.0
    ensures c == k && !store.Ambiguous(v, d, None)
  {
    store.LandsIs(v, d, None, c);
    store.ExpectedIs(v, d, None);
    var pool := Sighted(SignalsOf(v.emitters, v.aliases));
    assert SignalsOf(v.emitters, v.aliases) == {};
    assert !InPool(v.contacts[a], pool) && InPool(v.contacts[k], pool);
    assert Predicted(v.contacts[k], d.at) == here;
    assert store.Clear(v.contacts, k, d.position, d.at, pool);
  }

  lemma NoVisual(v: View, gap: real)
    requires Sound(v, gap) && forall c :: c in v.contacts ==> v.contacts[c].mmsi.Some?
    ensures v.pairs == map[]
  {
    forall k
      ensures k !in v.pairs
    {
      if k in v.pairs {
        PairStands(v, k, gap);
      }
    }
  }

  lemma AfterReport(store: ContactStore, v: View, w: View, signal: Signal, id: SampleId, c: ContactId)
    requires v.contacts == map[] && v.aliases == map[] && w.now == 0.0 && Sound(w, store.config.maxGap)
    requires signal == Signal("1", 0.0, signal.position, 0.0, Vec(0.0, 0.0))
    requires store.config.window >= 0.0 && store.config.staleAfter >= 2.0
    requires store.Reported(v, w, c, signal, id)
    ensures w.contacts.Keys == {c} && LiesStill(w.contacts[c], signal.position) && w.aliases == map[] && w.pairs == map[]
  {
    hide Grown, Conserved, MergesJustified, References, AliasesEnd, MmsiUnique, Latest, Counted;
    var grown := Grown(v.contacts, Some(signal.mmsi), ReportOf(signal, id, c, store.aisUncertainty), w.now, store.config);
    Lying(signal, id, c, store.aisUncertainty, store.config);
    assert !exists k :: store.Clear(grown, k, signal.position, signal.at, Unidentified);
    NoVisual(w, store.config.maxGap);
  }

  lemma AfterFirst(store: ContactStore, v: View, w: View, a: ContactId, d: Detection, c: ContactId)
    requires v.contacts.Keys == {a} && LiesStill(v.contacts[a], d.position) && v.aliases == map[] && v.pairs == map[] && v.emitters == map[]
    requires Sound(v, store.config.maxGap) && w.now == d.at == 1.0 && d.velocity.None? && d.source != Ais
    requires store.config.window >= 0.0 && store.config.staleAfter >= 2.0 && store.config.gate >= 0.0
    requires store.distance(d.position, d.position) == 0.0
    requires store.Lands(v, d, None, c) && store.Detected(v, w, c, d, None)
    ensures c != a && w.contacts.Keys == {a, c} && w.contacts[a] == v.contacts[a] && SightedOnce(w.contacts[c], d.position)
    ensures w.aliases == map[] && w.pairs == map[c := Pairing(a, 1, 1.0)]
  {
    hide Grown, FixOf, Conserved, MergesJustified, References, AliasesEnd, Paired, store.Lands, store.Ambiguous, store.Clear;
    NotSightedYet(store, v, a, d.position, d, c);
    assert c !in v.contacts;
    Sighting(v.contacts, d, c, store.config);
    var grown := Grown(v.contacts, None, FixOf(d, c), w.now, store.config);
    StillIsMeant(store, grown, a, d.position, d.at);
    assert Counted(v.(contacts := grown), w, c, a, d.at, w.now, store.config);
  }

  lemma AfterSecond(store: ContactStore, v: View, w: View, a: ContactId, k: ContactId, d: Detection, c: ContactId)
    requires v.contacts.Keys == {a, k} && a != k && LiesStill(v.contacts[a], d.position) && SightedOnce(v.contacts[k], d.position)
    requires v.aliases == map[] && v.pairs == map[k := Pairing(a, 1, 1.0)] && v.emitters == map[]
    requires w.now == d.at == 2.0 && store.config.maxGap >= 1.0
    requires store.config.window >= 0.0 && store.config.staleAfter >= 2.0 && store.config.gate >= 0.0
    requires store.distance(d.position, d.position) == 0.0
    requires store.Lands(v, d, None, c) && store.Detected(v, w, c, d, None)
    ensures c == k && w.aliases == map[k := a] && w.contacts.Keys == {a}
  {
    hide Grown, FixOf, store.Lands, store.Ambiguous, store.Clear, Merged, Retained, Relabelled;
    SightedThere(store, v, a, k, d.position, d, c);
    SightedAgain(v.contacts, d, c, w.now, store.config);
    var grown := Grown(v.contacts, None, FixOf(d, c), w.now, store.config);
    StillIsMeant(store, grown, a, d.position, d.at);
    assert Counted(v.(contacts := grown), w, c, a, d.at, w.now, store.config);
  }

  /** A vessel heard over AIS and sighted twice where it lies: the first sighting is a contact of its own, the
      second makes the two one. */
  method SeenTwice(config: Config, distance: (Vec, Vec) -> real, aisId: (string, real) -> SampleId, aisUncertainty: real)
    returns (store: ContactStore, heard: Option<ContactId>, first: ContactId, second: ContactId)
    requires config.gate >= 0.0 && config.window >= 0.0 && config.staleAfter >= 2.0 && config.maxGap >= 1.0
    requires distance(Vec(5.0, 5.0), Vec(5.0, 5.0)) == 0.0 && aisId("1", 0.0) == 0
    ensures store.Valid() && heard.Some? && first != heard.value && second == heard.value
    ensures store.contacts.Keys == {heard.value} && store.aliases == map[first := heard.value]
  {
    hide *;
    var here := Vec(5.0, 5.0);
    store := new ContactStore(config, distance, aisId, aisUncertainty);
    SeenIs(store);
    ghost var v0 := store.Seen();
    var signal := Signal("1", 0.0, here, 0.0, Vec(0.0, 0.0));
    var d1 := Detection(1, 1.0, Sar, "sar", here, None, 1.0);
    var d2 := Detection(2, 2.0, Sar, "sar", here, None, 1.0);
    TimesFit(store, signal);
    heard := store.IngestAis(signal, 0.0);
    SeenIs(store);
    ghost var v1 := store.Seen();
    AfterReport(store, v0, v1, signal, aisId("1", 0.0), heard.value);
    first := store.IngestVisual(d1, None);
    SeenIs(store);
    ghost var v2 := store.Seen();
    AfterFirst(store, v1, v2, heard.value, d1, store.accepted[1]);
    EndIs(store.aliases, store.accepted[1]);
    second := store.IngestVisual(d2, None);
    SeenIs(store);
    AfterSecond(store, v2, store.Seen(), heard.value, first, d2, store.accepted[2]);
    EndIs(store.aliases, store.accepted[2]);
  }

  lemma TimesFit(store: ContactStore, signal: Signal)
    requires signal.mmsi == "1" && signal.at == 0.0 && signal.speed == 0.0
    ensures !store.Malformed(signal, 0.0)
    ensures Higher(0.0, 0.0) == 0.0 && Higher(0.0, 1.0) == 1.0 && Higher(1.0, 2.0) == 2.0
  {
  }

  // ------------------------------------------------------------ the life of a reservation

  /** A free contact any UAV may be sent to, for a probe or to track it. */
  ghost predicate Available(c: Contact, now: real, forProbe: bool) {
    c.uav.None? && c.state != Cleared && c.state != Lost && c.state != Departed && (forProbe ==> now >= c.notBefore)
  }

  /** A free contact is reserved exactly when it is available and the UAV has no other; an unfree one only again for
      the same UAV and probe. */
  lemma MayReserveMeans(store: ContactStore, c: ContactId, uav: string, probe: Option<string>)
    requires c in store.contacts && uav != ""
    ensures store.contacts[c].uav.None? ==>
              (store.MayReserve(c, uav, probe) <==>
                 && Available(store.contacts[c], store.now, probe.Some?)
                 && forall d :: d in store.contacts && d != c && store.contacts[d].revision > 0 ==> store.contacts[d].uav != Some(uav))
    ensures store.contacts[c].uav.Some? && store.MayReserve(c, uav, probe) ==>
              store.contacts[c].uav == Some(uav) && store.contacts[c].probe == probe
  {
  }

  /** A released contact is available again unless it is closed; for a probe only after the cooldown, if the mission
      there failed. What was concluded about it stays. */
  lemma ReleasedIsAvailable(c: Contact, at: real, reason: string, now: real, forProbe: bool, config: Config)
    requires c.uav.Some?
    ensures var failed := reason == "timeout" || reason == "probe_timeout" || reason == "approach_timeout" || reason == "target_lost"
                          || reason == "sensor_blocked";
            Available(Released(c, at, reason, config), now, forProbe) <==>
              && c.state != Cleared && c.state != Lost && c.state != Departed
              && (forProbe ==> now >= if failed then at + config.cooldown else c.notBefore)
    ensures var d := Released(c, at, reason, config);
            d == c.(state := d.state, uav := None, probe := None, notBefore := d.notBefore)
            && (d.state != c.state ==> d.state == Pending)
  {
  }

  /** A contact unseen for too long is lost and its UAV freed; a recent sample finds it again, as harmless if it was
      found harmless. */
  lemma LostAndFound(c: Contact, at: real, now: real, s: Sample, samples: seq<Sample>, later: real, config: Config)
    requires c.revision > 0 && c.state != Lost && c.state != Departed
    ensures var d := Expired(c, at, now, config);
            if at - c.lastSeen > config.staleAfter
            then d.state == Lost && d.uav.None? && d.probe.None? && !Available(d, now, false)
            else d == c.(samples := d.samples)
    ensures var d := Observed(Expired(c, at, now, config), s, samples, later, config);
            at - c.lastSeen > config.staleAfter && later - s.at <= config.staleAfter ==>
              if c.vesselClass == TypeI then d.state == Cleared else d.state == Pending && Available(d, later, false)
  {
    hide Retained, VelocityOf;
  }

  /** An assessment of a harmless vessel closes its contact and frees the UAV; it is due again after the recheck time.
      One of a suspect keeps the UAV and has it tracked; an open one changes neither. */
  lemma AssessedMeans(c: Contact, a: Assessment, config: Config)
    ensures var d := Assessed(c, a, config);
            && d.assessment == Some(a) && d.samples == c.samples && d.mmsi == c.mmsi && d.revision == c.revision
            && (a.vesselClass == TypeI ==>
                  d.state == Cleared && d.vesselClass == TypeI && d.uav.None? && d.probe.None? && d.clearedAt == Some(a.at)
                  && d.notBefore == a.at + config.recheck)
            && (a.vesselClass == TypeII ==>
                  d.state == Tracking && d.vesselClass == TypeII && d.uav == c.uav && d.probe == c.probe && d.notBefore == c.notBefore)
            && (a.vesselClass == Unknown ==> d == c.(assessment := Some(a)))
  {
  }

  /** A confirmed violation has the vessel tracked; only that changes the state of a contact, and no reservation. */
  lemma DimensionedMeans(c: Contact, vesselClass: VesselClass, activity: Activity)
    ensures var d := Dimensioned(c, vesselClass, activity);
            && d == c.(activity := activity, vesselClass := d.vesselClass, state := d.state)
            && (d.vesselClass != c.vesselClass ==> d.vesselClass == vesselClass)
            && (vesselClass != Unknown ==> d.vesselClass == vesselClass) && (vesselClass == Unknown ==> d.vesselClass == c.vesselClass)
            && (activity == Confirmed ==> d.state == Tracking) && (activity != Confirmed ==> d.state == c.state)
  {
  }

  /** A position without a sample moves the contact, finds a lost one again, and estimates the velocity from the way
      covered since it was seen. */
  lemma FixedMeans(c: Contact, position: Vec, at: real)
    ensures var d := Fixed(c, position, at);
            && d.position == position && d.revision == c.revision + 1 && d.firstSeen <= at <= d.lastSeen
            && d.firstSeen <= c.firstSeen && c.lastSeen <= d.lastSeen
            && (c.state != Lost ==> d.state == c.state) && (c.state == Lost ==> d.state == if c.vesselClass == TypeI then Cleared else Pending)
            && d == c.(position := position, revision := d.revision, firstSeen := d.firstSeen, lastSeen := d.lastSeen, state := d.state,
                       velocity := d.velocity)
    ensures at - c.lastSeen > TIE && c.revision > 0 ==>
              var d := Fixed(c, position, at);
              d.velocity.Some? && Shifted(c.position, Scaled(d.velocity.value, at - c.lastSeen)) == position
    ensures at - c.lastSeen <= TIE || c.revision == 0 ==> Fixed(c, position, at).velocity == c.velocity
  {
  }

  /** An assessment fits the contact as it was when it was made: one more sample, or the end of the mission, and it is
      refused. It rests on samples the contact has, and a verdict on at least one that was not heard over AIS. */
  lemma FitsOnce(store: ContactStore, c: Contact, a: Assessment, s: Sample, samples: seq<Sample>, at: real, reason: string)
    requires store.Fits(c, a)
    ensures !store.Fits(Observed(c, s, samples, store.now, store.config), a)
    ensures !store.Fits(Released(c, at, reason, store.config), a)
    ensures forall id :: id in a.evidence ==> exists i: nat :: i < |c.samples| && c.samples[i].id == id
    ensures a.vesselClass != Unknown ==>
              a.confidence >= store.config.confidenceMin
              && exists i: nat :: i < |c.samples| && c.samples[i].source != Ais && c.samples[i].id in a.evidence
  {
    ObservedMeans(c, s, samples, store.now, store.config);
  }
}
