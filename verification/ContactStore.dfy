/** The contact store: AIS and visual streams, their association, and reservations. */
module ContactStore {

  import opened Finite
  import opened ContactRecords
  import opened ContactViews

  datatype Signal = Signal(mmsi: string, at: real, position: Vec, speed: real, velocity: Vec)

  datatype Detection = Detection(id: SampleId, at: real, source: Source, sourceId: string, position: Vec,
                                 velocity: Option<Vec>, uncertainty: real)

  /** Which listed contacts a search looks at. */
  datatype Pool = Unidentified | Identified | Sighted(signals: set<ContactId>) | Untracked(signals: set<ContactId>)

  const TIE := 0.000000001

  predicate InPool(c: Contact, pool: Pool) {
    match pool
    case Unidentified => c.mmsi.None?
    case Identified => c.mmsi.Some?
    case Untracked(signals) => c.id !in signals
    case Sighted(signals) => c.id in signals || exists i: nat :: i < |c.samples| && c.samples[i].source != Ais
  }

  function Apart(x: real, y: real): real { if x < y then y - x else x - y }

  predicate Eligible(c: Contact, pool: Pool, at: real, config: Config) {
    c.revision > 0 && InPool(c, pool) && c.state != Departed && Apart(at, c.lastSeen) <= config.staleAfter
  }

  // -------------------------------------------------------------------------- ranking

  type Rank = (real, ContactId)

  predicate Before(x: Rank, y: Rank) { x.0 < y.0 || (x.0 == y.0 && x.1 < y.1) }

  ghost predicate Ascending(ranks: seq<Rank>) { forall i, j :: 0 <= i < j < |ranks| ==> Before(ranks[i], ranks[j]) }

  function InsertRank(x: Rank, ranks: seq<Rank>): (r: seq<Rank>)
    requires Ascending(ranks) && x !in ranks
    ensures Ascending(r) && forall y :: y in r <==> y == x || y in ranks
  {
    if ranks == [] then [x]
    else if Before(x, ranks[0]) then
      [x] + ranks
    else
      assert ranks == [ranks[0]] + ranks[1..];
      var rest := InsertRank(x, ranks[1..]);
      FrontStays(ranks, rest, x);
      [ranks[0]] + rest
  }

  lemma FrontStays(ranks: seq<Rank>, rest: seq<Rank>, x: Rank)
    requires Ascending(ranks) && ranks != [] && x !in ranks && !Before(x, ranks[0])
    requires Ascending(rest) && forall y :: y in rest <==> y == x || y in ranks[1..]
    ensures Ascending([ranks[0]] + rest)
  {
    var all, tail := [ranks[0]] + rest, ranks[1..];
    assert ranks[0] in ranks;
    forall j: nat | j < |rest|
      ensures Before(ranks[0], rest[j])
    {
      assert rest[j] in rest;
      if rest[j] != x {
        var k: nat :| k < |tail| && tail[k] == rest[j];
        assert ranks[k + 1] == rest[j];
      }
    }
  }

  lemma FirstLeast(ranks: seq<Rank>, i: nat)
    requires Ascending(ranks) && i < |ranks|
    ensures ranks[0].0 <= ranks[i].0
  {
    assert i > 0 ==> Before(ranks[0], ranks[i]);
  }

  ghost predicate ListedOrIdle(c: Contact) {
    c.revision > 0 || (c.uav.None? && c.probe.None? && c.state == Lost)
  }

  /** A contact made for the first report with its MMSI; a report that is too old leaves it unlisted. */
  predicate FirstHeard(c: Contact, signal: Signal, now: real, config: Config) {
    && c.mmsi == Some(signal.mmsi) && c.uav.None? && c.probe.None?
    && if signal.at < now - config.window then c.revision == 0 && c.state == Lost
       else c.revision == 1 && c.state == if now - signal.at <= config.staleAfter then Pending else Lost
  }

  /** A contact nothing is known of yet. */
  predicate Blank(c: Contact, owner: Option<string>) {
    c.revision == 0 && c.samples == [] && c.mmsi == owner && c.state == Lost && c.vesselClass == Unknown && c.uav.None? && c.probe.None?
  }

  /** A contact as it is made, before its first sample. */
  function Started(c: ContactId, owner: Option<string>, position: Vec, at: real): Contact {
    Contact(c, 0, Lost, Unknown, owner, at, at, position, None, 0.0, None, None, None, None, at, [], UnknownActivity)
  }

  function FixOf(d: Detection, c: ContactId): Sample {
    Sample(d.id, c, d.at, d.source, d.sourceId, d.position, d.velocity, d.uncertainty)
  }

  function ReportOf(signal: Signal, id: SampleId, c: ContactId, uncertainty: real): Sample {
    Sample(id, c, signal.at, Ais, signal.mmsi, signal.position, Some(signal.velocity), uncertainty)
  }

  /** The contacts after `s` has joined the history of its contact, which is made if there is none. */
  ghost function Grown(known: map<ContactId, Contact>, owner: Option<string>, s: Sample, now: real, config: Config): map<ContactId, Contact> {
    var was := if s.contact in known then known[s.contact] else Started(s.contact, owner, s.position, s.at);
    known[s.contact := Observed(was, s, Retained(was.samples + [s], now, config), now, config)]
  }

  /** The contacts after `k` has become part of `a`. */
  ghost function Fused(known: map<ContactId, Contact>, k: ContactId, a: ContactId, now: real, config: Config): map<ContactId, Contact>
    requires k in known && a in known
  {
    var history := Relabelled(known[a].samples + known[k].samples, a);
    known[a := Merged(known[a], known[k], Retained(history, now, config), config.maxGap)] - {k}
  }

  /** What comes of a match of `k` with `a`: the second in time merges them, one no later than the last
      changes nothing, and any other is the first. */
  ghost predicate Counted(v: View, w: View, k: ContactId, a: ContactId, at: real, now: real, config: Config) {
    if k in v.pairs && at <= v.pairs[k].at then
      w.pairs == v.pairs && w.contacts == v.contacts && w.aliases == v.aliases
    else if k in v.pairs && v.pairs[k].contact == a && at - v.pairs[k].at <= config.maxGap then
      && k in v.contacts && a in v.contacts && w.contacts == Fused(v.contacts, k, a, now, config)
      && w.pairs == v.pairs - {k} && w.aliases == v.aliases[k := a]
    else
      w.pairs == v.pairs[k := Pairing(a, 1, at)] && w.contacts == v.contacts && w.aliases == v.aliases
  }

  /** The pairs without those that others than `k` have with `a`. */
  ghost function OnlyWith(pairs: map<ContactId, Pairing>, a: ContactId, k: Option<ContactId>): map<ContactId, Pairing> {
    map x | x in pairs && (pairs[x].contact != a || k == Some(x)) :: pairs[x]
  }

  /** The end of an alias. */
  ghost function EndOf(aliases: map<ContactId, ContactId>, id: ContactId): ContactId {
    if id in aliases then aliases[id] else id
  }

  /** The contacts that signal tracks lead to. */
  function SignalsOf(emitters: map<string, ContactId>, aliases: map<ContactId, ContactId>): set<ContactId> {
    set e | e in emitters :: if emitters[e] in aliases then aliases[emitters[e]] else emitters[e]
  }

  class ContactStore {
    const config: Config
    const distance: (Vec, Vec) -> real
    const aisId: (string, real) -> SampleId
    const aisUncertainty: real
    var contacts: map<ContactId, Contact>
    var aliases: map<ContactId, ContactId>
    var mmsi: map<string, ContactId>
    var accepted: map<SampleId, ContactId>
    var pairs: map<ContactId, Pairing>
    var archive: seq<Sample>
    var emitters: map<string, ContactId>
    var positions: map<string, ContactId>
    var counter: nat
    var now: real
    ghost var log: seq<Entry>
    ghost var merges: map<ContactId, Merge>

    constructor (config: Config, distance: (Vec, Vec) -> real, aisId: (string, real) -> SampleId, aisUncertainty: real)
      ensures Valid() && Orderly(Seen()) && contacts == map[] && mmsi == map[] && accepted == map[] && counter == 0 && now == 0.0
      ensures this.config == config && this.aisId == aisId && this.distance == distance
      ensures aliases == map[] && pairs == map[] && emitters == map[]
    {
      this.config, this.distance, this.aisId, this.aisUncertainty := config, distance, aisId, aisUncertainty;
      contacts, aliases, mmsi, accepted, pairs, archive := map[], map[], map[], map[], map[], [];
      emitters, positions, counter, now, log, merges := map[], map[], 0, 0.0, [], map[];
      new;
      EmptyIsSound(Seen(), config.maxGap);
    }

    ghost function Seen(): View
      reads this
    {
      View(contacts, aliases, mmsi, accepted, pairs, archive, emitters, positions, counter, now, log, merges)
    }

    ghost predicate Valid()
      reads this
    {
      Sound(Seen(), config.maxGap)
    }

    function Gap(c: Contact, position: Vec, at: real): real {
      distance(position, Predicted(c, at))
    }

    /** Follow aliases to the end. */
    method Resolve(id: ContactId) returns (r: ContactId)
      requires Valid()
      ensures r == if id in aliases then aliases[id] else id
      ensures Known(Seen(), id) <==> r in contacts
      ensures r !in aliases
    {
      hide Conserved, Paired, MergesJustified, References, MmsiUnique;
      r := id;
      while r in aliases
        invariant r == id || (id in aliases && r == aliases[id])
        decreases if r in aliases then if aliases[r] in aliases then 2 else 1 else 0
      {
        r := aliases[r];
      }
    }

    /** Rank the contacts of a pool by their distance at a time. */
    method RankDistances(position: Vec, at: real, pool: Pool) returns (ranks: seq<Rank>)
      requires Valid()
      ensures Ranked(ranks, position, at, pool)
    {
      hide Conserved, Paired, MergesJustified, References, AliasesEnd, Eligible;
      ranks := [];
      var i := 1;
      while i <= counter
        invariant 1 <= i <= counter + 1
        invariant Ascending(ranks)
        invariant forall r :: r in ranks <==> r.1 < i && r.1 in contacts && Eligible(contacts[r.1], pool, at, config)
                                              && r.0 == Gap(contacts[r.1], position, at)
      {
        if i in contacts && Eligible(contacts[i], pool, at, config) {
          ranks := InsertRank((Gap(contacts[i], position, at), i), ranks);
        }
        i := i + 1;
      }
    }
  
    /** `c` is in the pool, and as near as `limit`. */
    ghost predicate Near(c: ContactId, position: Vec, at: real, pool: Pool, limit: real)
      reads this`contacts
    {
      c in contacts && Eligible(contacts[c], pool, at, config) && Gap(contacts[c], position, at) <= limit
    }

    /** `c` is the nearest of the pool, inside the gate. */
    ghost predicate Nearest(c: ContactId, position: Vec, at: real, pool: Pool)
      reads this`contacts
    {
      && Near(c, position, at, pool, config.gate)
      && forall d :: d in contacts && Eligible(contacts[d], pool, at, config) ==>
           Gap(contacts[c], position, at) <= Gap(contacts[d], position, at)
    }

    /** No other contact of the pool comes as near as the nearest one and the margin. */
    ghost predicate Alone(c: ContactId, position: Vec, at: real, pool: Pool)
      reads this`contacts
    {
      c in contacts && forall d :: d in contacts && d != c && Eligible(contacts[d], pool, at, config) ==>
        Gap(contacts[d], position, at) - Gap(contacts[c], position, at) > config.margin
    }

    /** `c` is inside the gate, and the first in line with the next one further off than the margin. */
    ghost predicate Clear(known: map<ContactId, Contact>, c: ContactId, position: Vec, at: real, pool: Pool) {
      && c in known && Eligible(known[c], pool, at, config) && Gap(known[c], position, at) <= config.gate
      && forall d :: d in known && d != c && Eligible(known[d], pool, at, config) ==>
           && Before((Gap(known[c], position, at), c), (Gap(known[d], position, at), d))
           && Gap(known[d], position, at) - Gap(known[c], position, at) > config.margin
    }

    /** Some contact is inside the gate, but none clearly. */
    ghost predicate Unclear(known: map<ContactId, Contact>, position: Vec, at: real, pool: Pool) {
      && (exists c :: c in known && Eligible(known[c], pool, at, config) && Gap(known[c], position, at) <= config.gate)
      && !exists c :: Clear(known, c, position, at, pool)
    }

    /** The detection is where its associated contact is expected. */
    ghost predicate Expected(v: View, d: Detection, association: Option<ContactId>) {
      association.Some? &&
      var k := EndOf(v.aliases, association.value);
      k in v.contacts && v.contacts[k].state != Departed && Gap(v.contacts[k], d.position, d.at) <= config.gate
    }

    /** A detection is one of `c`: of the contact it is associated with if expected there, else of the one
        sighted contact that is clearly meant, else of a new one. */
    ghost predicate Lands(v: View, d: Detection, association: Option<ContactId>, c: ContactId) {
      if Expected(v, d, association) then c == EndOf(v.aliases, association.value)
      else if exists x :: Clear(v.contacts, x, d.position, d.at, Sighted(SignalsOf(v.emitters, v.aliases)))
      then Clear(v.contacts, c, d.position, d.at, Sighted(SignalsOf(v.emitters, v.aliases)))
      else c == v.counter + 1
    }

    /** Several sighted contacts could be meant. */
    ghost predicate Ambiguous(v: View, d: Detection, association: Option<ContactId>) {
      !Expected(v, d, association) && Unclear(v.contacts, d.position, d.at, Sighted(SignalsOf(v.emitters, v.aliases)))
    }

    /** The matches with any of the contacts end. */
    method EndMatches(involved: set<ContactId>)
      requires Valid()
      modifies this`pairs, this`log
      ensures Valid() && Onward(old(Seen()), Seen()) && (old(Orderly(Seen())) ==> Orderly(Seen()))
      ensures forall k :: k in pairs <==> k in old(pairs) && k !in involved && old(pairs)[k].contact !in involved
      ensures forall k :: k in pairs ==> pairs[k] == old(pairs)[k]
    {
      hide *;
      SeenIs(this);
      var broken := set k | k in pairs && (k in involved || pairs[k].contact in involved);
      PairsBroken(Seen(), broken, config.maxGap);
      pairs := pairs - broken;
      log := log + [Broken(broken)];
      SeenIs(this);
      SameContacts(old(Seen()), Seen());
    }

    /** The contact a fix belongs to, if one is clearly the nearest. An ambiguous fix ends the
        matches of every contact that could have been meant. */
    method FindNearest(position: Vec, at: real, pool: Pool) returns (found: Option<ContactId>, tied: bool, ghost reach: real)
      requires Valid()
      modifies this`pairs, this`log
      ensures Valid() && Onward(old(Seen()), Seen()) && (old(Orderly(Seen())) ==> Orderly(Seen()))
      ensures found.Some? ==> Nearest(found.value, position, at, pool) && Alone(found.value, position, at, pool)
      ensures found.Some? <==> exists c :: Clear(contacts, c, position, at, pool)
      ensures found.Some? ==> Clear(contacts, found.value, position, at, pool) && !tied
      ensures tied <==> Unclear(contacts, position, at, pool)
      ensures found.None? && !tied ==> forall c :: !Near(c, position, at, pool, config.gate)
      ensures tied ==> found.None? && exists c :: Nearest(c, position, at, pool) && !Alone(c, position, at, pool)
      ensures !tied ==> pairs == old(pairs) && log == old(log)
      ensures tied ==> reach >= config.gate && forall k :: k in old(pairs) ==>
                (k in pairs <==> !Near(k, position, at, pool, reach) && !Near(old(pairs)[k].contact, position, at, pool, reach))
      ensures forall k :: k in pairs ==> k in old(pairs) && pairs[k] == old(pairs)[k]
    {
      hide *;
      var ranks := RankDistances(position, at, pool);
      if ranks == [] || ranks[0].0 > config.gate {
        NothingNear(ranks, position, at, pool);
        NoneIsClear(ranks, position, at, pool);
        OnwardSelf(Seen());
        return None, false, 0.0;
      }
      FirstIsNearest(ranks, position, at, pool);
      if |ranks| > 1 && ranks[1].0 - ranks[0].0 <= config.margin {
        SecondIsNear(ranks, position, at, pool);
        NoneIsClear(ranks, position, at, pool);
        var limit := Higher(config.gate, ranks[0].0 + config.margin);
        var involved := set r | r in ranks && r.0 <= limit :: r.1;
        HigherIs(config.gate, ranks[0].0 + config.margin);
        EndMatches(involved);
        InvolvedAreNear(ranks, position, at, pool, limit);
        assert Nearest(ranks[0].1, position, at, pool) && !Alone(ranks[0].1, position, at, pool);
        return None, true, limit;
      }
      OnlyOneNear(ranks, position, at, pool);
      FirstIsClear(ranks, position, at, pool);
      OnwardSelf(Seen());
      return Some(ranks[0].1), false, 0.0;
    }

    ghost predicate Ranked(ranks: seq<Rank>, position: Vec, at: real, pool: Pool)
      reads this`contacts
    {
      Ascending(ranks) && forall r :: r in ranks <==>
        r.1 in contacts && Eligible(contacts[r.1], pool, at, config) && r.0 == Gap(contacts[r.1], position, at)
    }

    lemma RankOf(ranks: seq<Rank>, position: Vec, at: real, pool: Pool, c: ContactId) returns (i: nat)
      requires Ranked(ranks, position, at, pool) && c in contacts && Eligible(contacts[c], pool, at, config)
      ensures i < |ranks| && ranks[i] == (Gap(contacts[c], position, at), c)
    {
      assert (Gap(contacts[c], position, at), c) in ranks;
      i :| i < |ranks| && ranks[i] == (Gap(contacts[c], position, at), c);
    }

    lemma InvolvedAreNear(ranks: seq<Rank>, position: Vec, at: real, pool: Pool, limit: real)
      requires Ranked(ranks, position, at, pool)
      ensures forall c :: Near(c, position, at, pool, limit) <==> c in set r | r in ranks && r.0 <= limit :: r.1
    {
      hide Eligible;
      forall c | Near(c, position, at, pool, limit)
        ensures c in set r | r in ranks && r.0 <= limit :: r.1
      {
        assert (Gap(contacts[c], position, at), c) in ranks;
      }
    }

    lemma NothingNear(ranks: seq<Rank>, position: Vec, at: real, pool: Pool)
      requires Ranked(ranks, position, at, pool) && (ranks == [] || ranks[0].0 > config.gate)
      ensures forall c :: !Near(c, position, at, pool, config.gate)
    {
      hide Eligible;
      forall c
        ensures !Near(c, position, at, pool, config.gate)
      {
        if Near(c, position, at, pool, config.gate) {
          var i := RankOf(ranks, position, at, pool, c);
          FirstLeast(ranks, i);
        }
      }
    }

    lemma FirstIsNearest(ranks: seq<Rank>, position: Vec, at: real, pool: Pool)
      requires Ranked(ranks, position, at, pool) && ranks != [] && ranks[0].0 <= config.gate
      ensures Nearest(ranks[0].1, position, at, pool)
    {
      hide Eligible;
      assert ranks[0] in ranks;
      forall d | d in contacts && Eligible(contacts[d], pool, at, config)
        ensures Gap(contacts[ranks[0].1], position, at) <= Gap(contacts[d], position, at)
      {
        var i := RankOf(ranks, position, at, pool, d);
        FirstLeast(ranks, i);
      }
    }

    lemma SecondIsNear(ranks: seq<Rank>, position: Vec, at: real, pool: Pool)
      requires Ranked(ranks, position, at, pool) && |ranks| > 1 && ranks[1].0 - ranks[0].0 <= config.margin
      ensures !Alone(ranks[0].1, position, at, pool)
    {
      hide Eligible;
      assert ranks[0] in ranks && ranks[1] in ranks && Before(ranks[0], ranks[1]);
    }

    lemma FirstIsClear(ranks: seq<Rank>, position: Vec, at: real, pool: Pool)
      requires Ranked(ranks, position, at, pool) && ranks != [] && ranks[0].0 <= config.gate
      requires |ranks| > 1 ==> ranks[1].0 - ranks[0].0 > config.margin
      ensures Clear(contacts, ranks[0].1, position, at, pool) && !Unclear(contacts, position, at, pool)
    {
      hide Eligible;
      assert ranks[0] in ranks;
      forall d | d in contacts && d != ranks[0].1 && Eligible(contacts[d], pool, at, config)
        ensures Before(ranks[0], (Gap(contacts[d], position, at), d)) && Gap(contacts[d], position, at) - ranks[0].0 > config.margin
      {
        var i := RankOf(ranks, position, at, pool, d);
        assert i > 0 && Before(ranks[0], ranks[i]);
        assert i > 1 ==> Before(ranks[1], ranks[i]);
      }
    }

    lemma NoneIsClear(ranks: seq<Rank>, position: Vec, at: real, pool: Pool)
      requires Ranked(ranks, position, at, pool)
      requires ranks == [] || ranks[0].0 > config.gate || (|ranks| > 1 && ranks[1].0 - ranks[0].0 <= config.margin)
      ensures !exists c :: Clear(contacts, c, position, at, pool)
      ensures Unclear(contacts, position, at, pool) <==> ranks != [] && ranks[0].0 <= config.gate
    {
      hide Eligible;
      forall c | c in contacts && Eligible(contacts[c], pool, at, config) && Gap(contacts[c], position, at) <= config.gate
        ensures ranks != [] && ranks[0].0 <= config.gate && !Clear(contacts, c, position, at, pool)
      {
        var i := RankOf(ranks, position, at, pool, c);
        FirstLeast(ranks, i);
        var j := if i == 0 then 1 else 0;
        assert ranks[j] in ranks;
        assert Before(ranks[0], ranks[1]);
        assert i > 0 ==> Before(ranks[0], ranks[i]);
      }
      if ranks != [] {
        assert ranks[0] in ranks;
      }
    }

    lemma OnlyOneNear(ranks: seq<Rank>, position: Vec, at: real, pool: Pool)
      requires Ranked(ranks, position, at, pool) && ranks != []
      requires |ranks| > 1 ==> ranks[1].0 - ranks[0].0 > config.margin
      ensures Alone(ranks[0].1, position, at, pool)
    {
      hide Eligible;
      assert ranks[0] in ranks;
      forall d | d in contacts && d != ranks[0].1 && Eligible(contacts[d], pool, at, config)
        ensures Gap(contacts[d], position, at) - Gap(contacts[ranks[0].1], position, at) > config.margin
      {
        var i := RankOf(ranks, position, at, pool, d);
        assert i > 1 ==> Before(ranks[1], ranks[i]);
      }
    }
  
    // ------------------------------------------------------------------ single writes

    /** Sort a history, drop what is too old or too much, and archive what was dropped. */
    method Trim(samples: seq<Sample>) returns (retained: seq<Sample>)
      modifies this`archive
      ensures retained == Retained(samples, now, config) && archive == old(archive) + Dropped(samples, now, config)
    {
      retained := Retained(samples, now, config);
      archive := archive + Dropped(samples, now, config);
    }

    /** A contact that is not listed before its first sample; its MMSI is registered with it. */
    method Create(position: Vec, at: real, owner: Option<string>) returns (c: ContactId)
      requires Valid() && (owner.Some? ==> owner.value !in mmsi)
      modifies this`contacts, this`counter, this`mmsi
      ensures Valid() && Onward(old(Seen()), Seen()) && (old(Orderly(Seen())) ==> Orderly(Seen()))
      ensures c == counter == old(counter) + 1 && c !in old(contacts)
      ensures c in contacts && contacts == old(contacts)[c := contacts[c]]
      ensures Blank(contacts[c], owner) && contacts[c] == Started(c, owner, position, at)
      ensures mmsi == if owner.Some? then old(mmsi)[owner.value := c] else old(mmsi)
    {
      hide Sound, Onward;
      c := counter + 1;
      var contact := Started(c, owner, position, at);
      Created(Seen(), contact, config.maxGap);
      counter, contacts := c, contacts[c := contact];
      if owner.Some? {
        mmsi := mmsi[owner.value := c];
      }
    }

    /** Rewrite a contact whose history and identity stay. */
    method Rewrite(contact: Contact)
      requires Valid() && contact.id in contacts && contact.mmsi == contacts[contact.id].mmsi
      requires contact.samples == contacts[contact.id].samples
      modifies this`contacts
      ensures Valid() && Onward(old(Seen()), Seen()) && contacts == old(contacts)[contact.id := contact]
      ensures old(Orderly(Seen())) && (contact.uav.None? || contact.uav == old(contacts)[contact.id].uav) && ListedOrIdle(contact) ==>
                Orderly(Seen())
    {
      hide Sound, Onward, Ids, Orderly;
      ghost var before := Seen();
      NothingDropped(before, contact, config.maxGap);
      contacts := contacts[contact.id := contact];
      if Orderly(before) && (contact.uav.None? || contact.uav == before.contacts[contact.id].uav) && ListedOrIdle(contact) {
        OrderlyRevised(before, Seen(), contact);
      }
    }

    /** Put a sample into the history of its contact; one that is too old goes to the archive. */
    method Append(s: Sample) returns (added: bool)
      requires Valid() && s.id !in accepted && s.contact in contacts
      modifies this`contacts, this`archive, this`accepted
      ensures Valid() && Onward(old(Seen()), Seen()) && (old(Orderly(Seen())) ==> Orderly(Seen()))
      ensures accepted == old(accepted)[s.id := s.contact] && (added <==> s.at >= now - config.window)
      ensures !added ==> contacts == old(contacts) && archive == old(archive) + [s]
      ensures added ==>
                var history := old(contacts)[s.contact].samples + [s];
                contacts == old(contacts)[s.contact := Observed(old(contacts)[s.contact], s, Retained(history, now, config), now, config)]
                && archive == old(archive) + Dropped(history, now, config)
    {
      hide *;
      ghost var before := Seen();
      SeenIs(this);
      accepted := accepted[s.id := s.contact];
      if s.at < now - config.window {
        ContactIsKnown(before, s.contact);
        Archived(before, s, s.contact, config.maxGap);
        archive := archive + [s];
        SeenIs(this);
        SameContacts(before, Seen());
        return false;
      }
      var c := contacts[s.contact];
      AppendSplits(before, s, now, config);
      var retained := Trim(c.samples + [s]);
      var grown := Observed(c, s, retained, now, config);
      ObservedKeeps(c, s, retained, now, config);
      Appended(before, grown, s, Dropped(c.samples + [s], now, config), config.maxGap);
      contacts := contacts[s.contact := grown];
      SeenIs(this);
      if Orderly(before) {
        OrderlyRevised(before, Seen(), grown);
      }
      return true;
    }

    /** Merge visual contact `k` into AIS contact `a`: the second match is `at`. */
    method MergeContacts(a: ContactId, k: ContactId, ghost at: real)
      requires Valid() && k in pairs && pairs[k].contact == a && pairs[k].at < at && at - pairs[k].at <= config.maxGap
      modifies this`contacts, this`archive, this`aliases, this`pairs, this`log, this`merges
      ensures k in old(contacts) && a in old(contacts) && k != a
      ensures var history := Relabelled(old(contacts)[a].samples + old(contacts)[k].samples, a);
              var merged := Merged(old(contacts)[a], old(contacts)[k], Retained(history, now, config), config.maxGap);
              Seen() == Merging(old(Seen()), k, a, merged, Dropped(history, now, config), at)
      ensures k in aliases && aliases == old(aliases)[k := a] && a in contacts && k !in contacts
      ensures forall c :: c in old(contacts) && c != k ==> c in contacts && contacts[c].mmsi == old(contacts)[c].mmsi
      ensures Valid() && Onward(old(Seen()), Seen()) && (old(Orderly(Seen())) ==> Orderly(Seen()))
    {
      hide *;
      ghost var before := Seen();
      SeenIs(this);
      PairStands(before, k, config.maxGap);
      var x, y := contacts[a], contacts[k];
      var history := Relabelled(x.samples + y.samples, a);
      MergeTrims(before, a, k, now, config);
      var retained := Trim(history);
      var merged := Merged(x, y, retained, config.maxGap);
      MergedKeeps(x, y, retained, config.maxGap);
      MayMergeNow(before, k, a, merged, at, config.maxGap);
      PairMerged(before, k, a, merged, Dropped(history, now, config), at, config.maxGap);
      contacts := contacts[a := merged] - {k};
      aliases := aliases[k := a];
      merges := merges[k := Merge(a, pairs[k].at, at)];
      pairs := pairs - {k};
      log := log + [Matched(k, a, at)];
      SeenIs(this);
      MergingIs(before, k, a, merged, Dropped(history, now, config), at);
      if Orderly(before) {
        OrderlyMerged(before, Seen(), k, a, merged);
      }
    }

    /** What was known of a match of `k` is forgotten. */
    method DropMatch(k: ContactId)
      requires Valid()
      modifies this`pairs, this`log
      ensures Valid() && Onward(old(Seen()), Seen()) && (old(Orderly(Seen())) ==> Orderly(Seen())) && pairs == old(pairs) - {k}
    {
      hide *;
      SeenIs(this);
      PairsBroken(Seen(), {k}, config.maxGap);
      pairs := pairs - {k};
      log := log + [Broken({k})];
      SeenIs(this);
      SameContacts(old(Seen()), Seen());
    }

    /** One more match: the second of two in time merges the contacts, any other is the first. */
    method Match(k: ContactId, a: ContactId, at: real)
      requires Valid() && k in contacts && contacts[k].mmsi.None? && a in contacts && contacts[a].mmsi.Some?
      requires k in pairs ==> pairs[k].at < at
      modifies this`contacts, this`archive, this`aliases, this`pairs, this`log, this`merges
      ensures Valid() && Onward(old(Seen()), Seen()) && (old(Orderly(Seen())) ==> Orderly(Seen()))
      ensures k in aliases <==> k in old(pairs) && old(pairs)[k].contact == a && at - old(pairs)[k].at <= config.maxGap
      ensures if k in aliases then aliases[k] == a
              else k in pairs && pairs[k] == Pairing(a, 1, at) && contacts == old(contacts) && aliases == old(aliases)
      ensures Counted(old(Seen()), Seen(), k, a, at, now, config)
      ensures forall c :: c in old(contacts) && c != k ==> c in contacts && contacts[c].mmsi == old(contacts)[c].mmsi
    {
      hide *;
      ghost var before := Seen();
      SeenIs(this);
      NoAlias(before, k, config.maxGap);
      if k in pairs {
        PairStands(before, k, config.maxGap);
      }
      var count := if k in pairs && pairs[k].contact == a && at - pairs[k].at <= config.maxGap then pairs[k].count + 1 else 1;
      if count >= 2 {
        MergeContacts(a, k, at);
        MergedConfirms(before, Seen(), k, a, at, now, config);
      } else {
        RecordMatch(k, a, at);
      }
    }

    /** A first match is remembered. */
    method RecordMatch(k: ContactId, a: ContactId, at: real)
      requires Valid() && k in contacts && contacts[k].mmsi.None? && a in contacts && contacts[a].mmsi.Some?
      requires k in pairs ==> pairs[k].at < at
      requires !(k in pairs && pairs[k].contact == a && at - pairs[k].at <= config.maxGap)
      modifies this`pairs, this`log
      ensures Valid() && Onward(old(Seen()), Seen()) && (old(Orderly(Seen())) ==> Orderly(Seen()))
      ensures pairs == old(pairs)[k := Pairing(a, 1, at)] && Counted(old(Seen()), Seen(), k, a, at, now, config)
    {
      hide *;
      ghost var before := Seen();
      SeenIs(this);
      PairMatched(before, k, a, at, config.maxGap);
      pairs := pairs[k := Pairing(a, 1, at)];
      log := log + [Matched(k, a, at)];
      SeenIs(this);
      SameContacts(before, Seen());
      FirstConfirms(before, Seen(), k, a, at, now, config);
    }

    /** A fix matched visual contact `k` with AIS contact `a`, or with none. A match no later than
        the last one changes nothing; the second of two matches in time merges the contacts. */
    method Confirm(k: ContactId, a: Option<ContactId>, at: real)
      requires Valid() && (a.Some? ==> k in contacts && contacts[k].mmsi.None? && a.value in contacts && contacts[a.value].mmsi.Some?)
      modifies this`contacts, this`archive, this`aliases, this`pairs, this`log, this`merges
      ensures Valid() && Onward(old(Seen()), Seen()) && (old(Orderly(Seen())) ==> Orderly(Seen()))
      ensures a.None? ==> pairs == old(pairs) - {k} && contacts == old(contacts) && aliases == old(aliases)
      ensures a.Some? && !(k in old(pairs) && old(pairs)[k].contact == a.value) ==> contacts == old(contacts) && aliases == old(aliases)
      ensures a.Some? && k in old(pairs) && at <= old(pairs)[k].at ==> Seen() == old(Seen())
      ensures a.Some? && (k in old(pairs) ==> old(pairs)[k].at < at) ==>
                (k in aliases <==> k in old(pairs) && old(pairs)[k].contact == a.value && at - old(pairs)[k].at <= config.maxGap)
                && (k in aliases ==> aliases[k] == a.value) && (k !in aliases ==> k in pairs && pairs[k] == Pairing(a.value, 1, at))
      ensures a.Some? ==> Counted(old(Seen()), Seen(), k, a.value, at, now, config)
      ensures k !in aliases ==> contacts == old(contacts) && aliases == old(aliases)
      ensures forall c :: c in old(contacts) && c != k ==> c in contacts && contacts[c].mmsi == old(contacts)[c].mmsi
    {
      hide *;
      ghost var before := Seen();
      SeenIs(this);
      OnwardSelf(before);
      NoAlias(before, k, config.maxGap);
      if a.None? {
        DropMatch(k);
        return;
      }
      if k in pairs && at <= pairs[k].at {
        LateConfirms(before, k, a.value, at, now, config);
        return;
      }
      Match(k, a.value, at);
    }

    /** The matches that others had with `a` end, now that `a` was seen with `k` or with none. */
    method BreakOthers(a: ContactId, k: Option<ContactId>, at: real)
      requires Valid()
      modifies this`contacts, this`archive, this`aliases, this`pairs, this`log, this`merges
      ensures Valid() && Onward(old(Seen()), Seen()) && (old(Orderly(Seen())) ==> Orderly(Seen()))
      ensures contacts == old(contacts) && aliases == old(aliases)
      ensures forall x :: x in pairs <==> x in old(pairs) && (old(pairs)[x].contact != a || k == Some(x))
      ensures forall x :: x in pairs ==> pairs[x] == old(pairs)[x]
    {
      hide *;
      OnwardSelf(Seen());
      var rest := set x | x in pairs && pairs[x].contact == a && k != Some(x);
      while rest != {}
        invariant Valid() && Onward(old(Seen()), Seen()) && (old(Orderly(Seen())) ==> Orderly(Seen()))
        invariant contacts == old(contacts) && aliases == old(aliases)
        invariant forall x :: x in rest ==> x in old(pairs) && old(pairs)[x].contact == a && k != Some(x)
        invariant forall x :: x in pairs <==> x in old(pairs) && (old(pairs)[x].contact != a || k == Some(x) || x in rest)
        invariant forall x :: x in pairs ==> pairs[x] == old(pairs)[x]
        decreases |rest|
      {
        var x: ContactId :| x in rest;
        ghost var middle := Seen();
        Confirm(x, None, at);
        OnwardTransitive(old(Seen()), middle, Seen());
        rest := rest - {x};
      }
    }

    predicate Malformed(signal: Signal, receivedAt: real) {
      receivedAt < 0.0 || signal.at < 0.0 || signal.mmsi == "" || signal.speed < 0.0 || signal.at > receivedAt
    }

    /** The contact an MMSI leads to, made if it is the first time it is heard. */
    method Heard(signal: Signal) returns (c: ContactId)
      requires Valid()
      modifies this`contacts, this`counter, this`mmsi
      ensures Valid() && Onward(old(Seen()), Seen()) && (old(Orderly(Seen())) ==> Orderly(Seen()))
      ensures signal.mmsi in mmsi && c == mmsi[signal.mmsi] && c in contacts && c !in aliases && contacts[c].mmsi == Some(signal.mmsi)
      ensures forall x :: x in old(contacts) ==> x in contacts && contacts[x] == old(contacts)[x]
      ensures mmsi.Keys == old(mmsi).Keys + {signal.mmsi}
      ensures signal.mmsi !in old(mmsi) ==>
                c == old(counter) + 1 && c !in old(contacts) && contacts == old(contacts)[c := contacts[c]] && Blank(contacts[c], Some(signal.mmsi))
      ensures if signal.mmsi in old(mmsi) then c == old(mmsi)[signal.mmsi] && contacts == old(contacts)
              else contacts[c] == Started(c, Some(signal.mmsi), signal.position, signal.at)
    {
      hide *;
      SeenIs(this);
      OnwardSelf(Seen());
      if signal.mmsi !in mmsi {
        c := Create(signal.position, signal.at, Some(signal.mmsi));
      }
      SeenIs(this);
      MmsiContact(Seen(), signal.mmsi, config.maxGap);
      c := Resolve(mmsi[signal.mmsi]);
    }

    /** Look for a visual contact that an AIS fix of `c` may belong to, and count a match if each is
        the other's only choice. */
    method AssociateAis(c: ContactId, position: Vec, at: real)
      requires Valid() && c in contacts && contacts[c].mmsi.Some?
      modifies this`contacts, this`archive, this`aliases, this`pairs, this`log, this`merges
      ensures Valid() && Onward(old(Seen()), Seen()) && (old(Orderly(Seen())) ==> Orderly(Seen()))
      ensures c in contacts && contacts[c].mmsi == old(contacts)[c].mmsi
      ensures (forall k :: k in old(pairs) ==> old(pairs)[k].contact != c) ==> contacts == old(contacts) && aliases == old(aliases)
      ensures Seconded(old(Seen()), Seen(), c, position, at)
    {
      hide *;
      ghost var v0 := Seen();
      SeenIs(this);
      var k, tied, _ := FindNearest(position, at, Unidentified);
      ghost var v1 := Seen();
      if k.Some? {
        NearestIsThere(this, k.value, position, at, Unidentified);
      }
      BreakOthers(c, k, at);
      ghost var v2 := Seen();
      SeenIs(this);
      OnwardTransitive(v0, v1, v2);
      if k.Some? {
        var candidate, shared, _ := FindNearest(Predicted(contacts[k.value], at), at, Identified);
        ghost var v3 := Seen();
        SeenIs(this);
        if candidate.Some? {
          OnlyWithIs(v0.pairs, v3.pairs, c, k);
        }
        OnwardTransitive(v0, v2, v3);
        Confirm(k.value, if candidate == Some(c) && !shared then Some(c) else None, at);
        OnwardTransitive(v0, v3, Seen());
        SeenIs(this);
        MutualSeconded(v0, v3, Seen(), c, k.value, candidate, position, at);
      } else {
        NobodySeconded(v0, Seen(), c, position, at);
      }
    }

    /** What comes of an AIS fix of `c`. The one unidentified contact that is clearly meant is matched with `c`
        if `c` is clearly meant in turn, and loses its match if not; no other keeps a match with `c`. */
    ghost predicate Seconded(v: View, w: View, c: ContactId, position: Vec, at: real) {
      && (forall k :: Clear(v.contacts, k, position, at, Unidentified) ==>
            if Clear(v.contacts, c, Predicted(v.contacts[k], at), at, Identified)
            then Counted(v.(pairs := OnlyWith(v.pairs, c, Some(k))), w, k, c, at, w.now, config)
            else k !in w.pairs && w.contacts == v.contacts && w.aliases == v.aliases)
      && (forall k :: k in w.pairs && w.pairs[k].contact == c ==> Clear(v.contacts, k, position, at, Unidentified))
      && ((!exists k :: Clear(v.contacts, k, position, at, Unidentified)) ==> w.contacts == v.contacts && w.aliases == v.aliases)
    }

    /** What comes of a new report: it is of the contact of its MMSI, and joins its history if not too old. */
    ghost predicate Reported(v: View, w: View, c: ContactId, signal: Signal, id: SampleId) {
      && c == (if signal.mmsi in v.mmsi then v.mmsi[signal.mmsi] else v.counter + 1)
      && (signal.at >= w.now - config.window ==>
            var grown := Grown(v.contacts, Some(signal.mmsi), ReportOf(signal, id, c, aisUncertainty), w.now, config);
            Seconded(v.(contacts := grown), w, c, signal.position, signal.at))
    }

    lemma ReportedIs(v: View, w: View, c: ContactId, signal: Signal, id: SampleId)
      requires c == if signal.mmsi in v.mmsi then v.mmsi[signal.mmsi] else v.counter + 1
      requires signal.at >= w.now - config.window ==>
                 var grown := Grown(v.contacts, Some(signal.mmsi), ReportOf(signal, id, c, aisUncertainty), w.now, config);
                 Seconded(v.(contacts := grown), w, c, signal.position, signal.at)
      ensures Reported(v, w, c, signal, id)
    {
      hide Grown, Seconded;
    }

    lemma ReportedSame(u: View, v: View, w: View, c: ContactId, signal: Signal, id: SampleId)
      requires v == u.(now := v.now) && Reported(v, w, c, signal, id)
      ensures Reported(u, w, c, signal, id)
    {
      hide Grown, Seconded;
      var grown := Grown(v.contacts, Some(signal.mmsi), ReportOf(signal, id, c, aisUncertainty), w.now, config);
      if signal.at >= w.now - config.window {
        SecondedSame(u.(contacts := grown), v.(contacts := grown), w, c, signal.position, signal.at);
      }
    }

    lemma SecondedSame(u: View, v: View, w: View, c: ContactId, position: Vec, at: real)
      requires u.contacts == v.contacts && u.pairs == v.pairs && u.aliases == v.aliases && Seconded(v, w, c, position, at)
      ensures Seconded(u, w, c, position, at)
    {
      hide Clear, Predicted;
    }

    lemma OneIsClear(known: map<ContactId, Contact>, x: ContactId, y: ContactId, position: Vec, at: real, pool: Pool)
      requires Clear(known, x, position, at, pool)
      ensures Clear(known, y, position, at, pool) ==> x == y
    {
      hide Eligible;
    }

    lemma NobodySeconded(v: View, w: View, c: ContactId, position: Vec, at: real)
      requires !exists k :: Clear(v.contacts, k, position, at, Unidentified)
      requires w.contacts == v.contacts && w.aliases == v.aliases && forall x :: x in w.pairs ==> w.pairs[x].contact != c
      ensures Seconded(v, w, c, position, at)
    {
      hide Clear, Counted;
    }

    lemma MutualSeconded(v: View, u: View, w: View, c: ContactId, k: ContactId, candidate: Option<ContactId>, position: Vec, at: real)
      requires Clear(v.contacts, k, position, at, Unidentified) && k in v.contacts && c in v.contacts
      requires u.contacts == v.contacts && u.aliases == v.aliases && forall x :: x in u.pairs ==> x == k || u.pairs[x].contact != c
      requires candidate.Some? <==> exists x :: Clear(v.contacts, x, Predicted(v.contacts[k], at), at, Identified)
      requires candidate.Some? ==> Clear(v.contacts, candidate.value, Predicted(v.contacts[k], at), at, Identified)
      requires candidate.Some? ==> u.pairs == OnlyWith(v.pairs, c, Some(k))
      requires if candidate == Some(c) then Counted(u, w, k, c, at, w.now, config)
               else w.contacts == u.contacts && w.aliases == u.aliases && w.pairs == u.pairs - {k}
      ensures Seconded(v, w, c, position, at)
    {
      hide Clear, Predicted;
      if candidate.Some? {
        OneIsClear(v.contacts, candidate.value, c, Predicted(v.contacts[k], at), at, Identified);
      }
      forall x | Clear(v.contacts, x, position, at, Unidentified)
        ensures x == k
      {
        OneIsClear(v.contacts, k, x, position, at, Unidentified);
      }
    }

    /** The clock never goes back. */
    method Tick(at: real)
      requires Valid()
      modifies this`now
      ensures Valid() && Onward(old(Seen()), Seen()) && (old(Orderly(Seen())) ==> Orderly(Seen())) && now == Higher(old(now), at)
    {
      hide *;
      SeenIs(this);
      HigherIs(now, at);
      TimePasses(Seen(), Higher(now, at), config.maxGap);
      now := Higher(now, at);
      SeenIs(this);
    }

    /** A new report goes to the contact with its MMSI: into its history, or to the archive if too old. */
    method Report(signal: Signal, id: SampleId) returns (c: ContactId, added: bool)
      requires Valid() && id !in accepted
      modifies this`contacts, this`counter, this`mmsi, this`archive, this`accepted
      ensures Valid() && Onward(old(Seen()), Seen()) && (old(Orderly(Seen())) ==> Orderly(Seen()))
      ensures accepted.Keys == old(accepted).Keys + {id} && mmsi.Keys == old(mmsi).Keys + {signal.mmsi} && mmsi[signal.mmsi] == c
      ensures c in contacts && contacts[c].mmsi == Some(signal.mmsi)
      ensures signal.mmsi !in old(mmsi) ==>
                c !in old(contacts) && contacts == old(contacts)[c := contacts[c]] && FirstHeard(contacts[c], signal, now, config)
      ensures c == if signal.mmsi in old(mmsi) then old(mmsi)[signal.mmsi] else old(counter) + 1
      ensures added <==> signal.at >= now - config.window
      ensures added ==> contacts == Grown(old(contacts), Some(signal.mmsi), ReportOf(signal, id, c, aisUncertainty), now, config)
    {
      hide *;
      ghost var v0 := Seen();
      SeenIs(this);
      c := Heard(signal);
      ghost var v1 := Seen();
      SeenIs(this);
      var sample := ReportOf(signal, id, c, aisUncertainty);
      ReportIs(signal, id, c, aisUncertainty);
      added := Append(sample);
      GrownIs(v0.contacts, Some(signal.mmsi), sample, now, config);
      SeenIs(this);
      OnwardTransitive(v0, v1, Seen());
      KeepsMmsi(v1, Seen(), c);
      FirstReport(v1.contacts[c], signal, sample, contacts[c], now, config);
    }

    /** A new report: it joins the history of the contact with its MMSI, and may match a contact seen nearby. */
    method AcceptAis(signal: Signal, id: SampleId) returns (c: ContactId)
      requires Valid() && id !in accepted
      modifies this`contacts, this`counter, this`mmsi, this`archive, this`accepted, this`aliases, this`pairs, this`log, this`merges
      ensures Valid() && Onward(old(Seen()), Seen()) && (old(Orderly(Seen())) ==> Orderly(Seen()))
      ensures accepted.Keys == old(accepted).Keys + {id} && signal.mmsi in mmsi && mmsi[signal.mmsi] == c
      ensures c in contacts && contacts[c].mmsi == Some(signal.mmsi) && mmsi.Keys == old(mmsi).Keys + {signal.mmsi}
      ensures signal.mmsi !in old(mmsi) ==>
                c !in old(contacts) && contacts == old(contacts)[c := contacts[c]] && FirstHeard(contacts[c], signal, now, config)
      ensures Reported(old(Seen()), Seen(), c, signal, id)
    {
      hide *;
      ghost var v0 := Seen();
      SeenIs(this);
      PairsKnown(v0, config.maxGap);
      var added;
      c, added := Report(signal, id);
      ghost var v1 := Seen();
      if added {
        SeenIs(this);
        AssociateAis(c, signal.position, signal.at);
        OnwardTransitive(v0, v1, Seen());
        SecondedSame(v0.(contacts := v1.contacts), v1, Seen(), c, signal.position, signal.at);
      }
      SeenIs(this);
      ReportedIs(v0, Seen(), c, signal, id);
    }

    /** A report over AIS. A report heard before changes nothing; a new one joins the history of the
        contact with its MMSI. */
    method IngestAis(signal: Signal, receivedAt: real) returns (r: Option<ContactId>)
      requires Valid()
      modifies this
      ensures Valid() && Onward(old(Seen()), Seen()) && (old(Orderly(Seen())) ==> Orderly(Seen()))
      ensures r.None? <==> Malformed(signal, receivedAt)
      ensures emitters == old(emitters) && positions == old(positions)
      ensures r.None? || aisId(signal.mmsi, signal.at) in old(accepted) ==> Seen() == old(Seen())
      ensures r.Some? ==> r.value in contacts && aisId(signal.mmsi, signal.at) in accepted
      ensures r.Some? && aisId(signal.mmsi, signal.at) !in old(accepted) ==>
                && accepted.Keys == old(accepted).Keys + {aisId(signal.mmsi, signal.at)} && now == Higher(old(now), receivedAt)
                && mmsi.Keys == old(mmsi).Keys + {signal.mmsi} && mmsi[signal.mmsi] == r.value && contacts[r.value].mmsi == Some(signal.mmsi)
      ensures r.Some? && aisId(signal.mmsi, signal.at) !in old(accepted) && signal.mmsi !in old(mmsi) ==>
                && r.value !in old(contacts) && contacts == old(contacts)[r.value := contacts[r.value]]
                && FirstHeard(contacts[r.value], signal, now, config)
      ensures r.Some? && aisId(signal.mmsi, signal.at) !in old(accepted) ==>
                Reported(old(Seen()), Seen(), r.value, signal, aisId(signal.mmsi, signal.at))
    {
      hide *;
      ghost var before := Seen();
      SeenIs(this);
      OnwardSelf(before);
      if Malformed(signal, receivedAt) {
        return None;
      }
      var id := aisId(signal.mmsi, signal.at);
      if id in accepted {
        SoundReferences(before, config.maxGap);
        var known := Resolve(accepted[id]);
        return Some(known);
      }
      Tick(receivedAt);
      SeenIs(this);
      ghost var timed := Seen();
      var c := AcceptAis(signal, id);
      OnwardTransitive(before, timed, Seen());
      SeenIs(this);
      ReportedSame(before, timed, Seen(), c, signal, id);
      NoAlias(Seen(), c, config.maxGap);
      c := Resolve(c);
      return Some(c);
    }

    /** The contact a detection belongs to: the one it is associated with if that is where it is
        expected, else the clearly nearest sighted one, else a new one. */
    method Locate(d: Detection, association: Option<ContactId>) returns (c: ContactId, tied: bool)
      requires Valid()
      modifies this`contacts, this`counter, this`mmsi, this`pairs, this`log
      ensures Valid() && Onward(old(Seen()), Seen()) && (old(Orderly(Seen())) ==> Orderly(Seen()))
      ensures c in contacts && (tied ==> c !in old(contacts))
      ensures Lands(old(Seen()), d, association, c) && (tied <==> Ambiguous(old(Seen()), d, association))
      ensures contacts == if c in old(contacts) then old(contacts) else old(contacts)[c := Started(c, None, d.position, d.at)]
      ensures !tied ==> pairs == old(pairs)
    {
      hide *;
      ghost var v0 := Seen();
      SeenIs(this);
      OnwardSelf(v0);
      if association.Some? {
        var k := Resolve(association.value);
        ExpectedIs(v0, d, association);
        if k in contacts && contacts[k].state != Departed && Gap(contacts[k], d.position, d.at) <= config.gate {
          LandsIs(v0, d, association, k);
          return k, false;
        }
      } else {
        ExpectedIs(v0, d, association);
      }
      var signals := SignalsOf(emitters, aliases);
      var nearest, unclear, _ := FindNearest(d.position, d.at, Sighted(signals));
      if nearest.Some? {
        NearestIsThere(this, nearest.value, d.position, d.at, Sighted(signals));
        LandsIs(v0, d, association, nearest.value);
        return nearest.value, unclear;
      }
      LandsIs(v0, d, association, counter + 1);
      ghost var v1 := Seen();
      c := Create(d.position, d.at, None);
      tied := unclear;
      OnwardTransitive(v0, v1, Seen());
    }

    lemma ExpectedIs(v: View, d: Detection, association: Option<ContactId>)
      ensures association.None? ==> !Expected(v, d, association)
      ensures association.Some? ==>
                var k := if association.value in v.aliases then v.aliases[association.value] else association.value;
                Expected(v, d, association) <==>
                  k in v.contacts && v.contacts[k].state != Departed && Gap(v.contacts[k], d.position, d.at) <= config.gate
    {
    }

    lemma LandsIs(v: View, d: Detection, association: Option<ContactId>, c: ContactId)
      ensures Ambiguous(v, d, association) <==>
                !Expected(v, d, association) && Unclear(v.contacts, d.position, d.at, Sighted(SignalsOf(v.emitters, v.aliases)))
      ensures Expected(v, d, association) ==>
                (Lands(v, d, association, c) <==> c == if association.value in v.aliases then v.aliases[association.value] else association.value)
      ensures !Expected(v, d, association) ==>
                (Lands(v, d, association, c) <==>
                   if exists x :: Clear(v.contacts, x, d.position, d.at, Sighted(SignalsOf(v.emitters, v.aliases)))
                   then Clear(v.contacts, c, d.position, d.at, Sighted(SignalsOf(v.emitters, v.aliases)))
                   else c == v.counter + 1)
    {
      hide Clear, Unclear, SignalsOf;
      assert Expected(v, d, association) ==> association.Some?;
    }

    /** What comes of a detection that is not too old, taken as one of `c`. */
    ghost predicate Detected(v: View, w: View, c: ContactId, d: Detection, association: Option<ContactId>) {
      var grown := Grown(v.contacts, None, FixOf(d, c), w.now, config);
      if grown[c].mmsi.None? && (association.None? || EndOf(v.aliases, association.value) != c)
      then Compared(v.(contacts := grown), w, c, d, Ambiguous(v, d, association))
      else w.contacts == grown && w.aliases == v.aliases
    }

    lemma DetectedByItself(v: View, u: View, w: View, c: ContactId, d: Detection, association: Option<ContactId>, tied: bool)
      requires u.contacts == Grown(v.contacts, None, FixOf(d, c), w.now, config) && u.aliases == v.aliases && c in u.contacts
      requires tied <==> Ambiguous(v, d, association)
      requires !tied ==> u.pairs == v.pairs
      requires if u.contacts[c].mmsi.None? && (association.None? || EndOf(v.aliases, association.value) != c) then Compared(u, w, c, d, tied)
               else w.contacts == u.contacts && w.aliases == u.aliases
      ensures Detected(v, w, c, d, association)
    {
      hide Compared, Grown, FixOf, Ambiguous, EndOf;
      if Compared(u, w, c, d, tied) {
        ComparedSame(v.(contacts := u.contacts), u, w, c, d, tied);
      }
      assert FixOf(d, c).contact == c by {
        FixIs(d, c);
      }
      GrownIs(v.contacts, None, FixOf(d, c), w.now, config);
    }

    lemma DetectedSame(u: View, v: View, w: View, c: ContactId, d: Detection, association: Option<ContactId>)
      requires v == u.(now := v.now)
      ensures Lands(u, d, association, c) <==> Lands(v, d, association, c)
      ensures Detected(v, w, c, d, association) ==> Detected(u, w, c, d, association)
    {
      hide Clear, Unclear, Compared, Grown, FixOf, Lands, Ambiguous, SignalsOf;
      LandsIs(u, d, association, c);
      LandsIs(v, d, association, c);
      var grown, tied := Grown(v.contacts, None, FixOf(d, c), w.now, config), Ambiguous(v, d, association);
      if Compared(v.(contacts := grown), w, c, d, tied) {
        ComparedSame(u.(contacts := grown), v.(contacts := grown), w, c, d, tied);
      }
    }

    /** What comes of a detection of `c`, a contact without an MMSI, by itself: a match with the one identified
        contact clearly meant, unless several sighted ones could be, and an end to its match otherwise. */
    ghost predicate Compared(v: View, w: View, c: ContactId, d: Detection, tied: bool) {
      && (forall a :: Clear(v.contacts, a, d.position, d.at, Identified) && !tied ==> Counted(v, w, c, a, d.at, w.now, config))
      && (tied || (!exists a :: Clear(v.contacts, a, d.position, d.at, Identified)) ==>
            c !in w.pairs && w.contacts == v.contacts && w.aliases == v.aliases)
    }

    lemma OneCompared(v: View, w: View, c: ContactId, d: Detection, a: Option<ContactId>, tied: bool)
      requires a.Some? <==> exists x :: Clear(v.contacts, x, d.position, d.at, Identified)
      requires a.Some? ==> Clear(v.contacts, a.value, d.position, d.at, Identified)
      requires if a.Some? && !tied then Counted(v, w, c, a.value, d.at, w.now, config)
               else c !in w.pairs && w.contacts == v.contacts && w.aliases == v.aliases
      ensures Compared(v, w, c, d, tied)
    {
      hide Clear, Counted;
      forall x | a.Some? && Clear(v.contacts, x, d.position, d.at, Identified)
        ensures x == a.value
      {
        OneIsClear(v.contacts, a.value, x, d.position, d.at, Identified);
      }
    }

    lemma ComparedSame(u: View, v: View, w: View, c: ContactId, d: Detection, tied: bool)
      requires u.contacts == v.contacts && (!tied ==> u.pairs == v.pairs) && u.aliases == v.aliases && Compared(v, w, c, d, tied)
      ensures Compared(u, w, c, d, tied)
    {
      hide Clear;
    }

    /** Look for an AIS contact that a detection of `c` may belong to. */
    method AssociateVisual(c: ContactId, d: Detection, tied: bool)
      requires Valid() && c in contacts && contacts[c].mmsi.None?
      modifies this`contacts, this`archive, this`aliases, this`pairs, this`log, this`merges
      ensures Valid() && Onward(old(Seen()), Seen()) && (old(Orderly(Seen())) ==> Orderly(Seen()))
      ensures Compared(old(Seen()), Seen(), c, d, tied)
    {
      hide *;
      ghost var v0 := Seen();
      SeenIs(this);
      var a, unclear, _ := FindNearest(d.position, d.at, Identified);
      ghost var v1 := Seen();
      if a.Some? {
        NearestIsThere(this, a.value, d.position, d.at, Identified);
      }
      SeenIs(this);
      Confirm(c, if tied then None else a, d.at);
      OnwardTransitive(v0, v1, Seen());
      SeenIs(this);
      if a.Some? && !tied {
        ConfirmedSame(v0, v1, Seen(), c, a.value, d.at, now, config);
      }
      OneCompared(v0, Seen(), c, d, a, tied);
    }

    /** A new detection joins the history of the contact it belongs to, or the archive if it is too old. */
    method Place(d: Detection, association: Option<ContactId>) returns (c: ContactId, tied: bool, added: bool)
      requires Valid() && d.id !in accepted
      modifies this`contacts, this`counter, this`mmsi, this`archive, this`accepted, this`pairs, this`log
      ensures Valid() && Onward(old(Seen()), Seen()) && (old(Orderly(Seen())) ==> Orderly(Seen()))
      ensures c in contacts && accepted == old(accepted)[d.id := c] && (added <==> d.at >= now - config.window)
      ensures Lands(old(Seen()), d, association, c) && (tied <==> Ambiguous(old(Seen()), d, association))
      ensures contacts == if added then Grown(old(contacts), None, FixOf(d, c), now, config)
                          else if c in old(contacts) then old(contacts) else old(contacts)[c := Started(c, None, d.position, d.at)]
      ensures !tied ==> pairs == old(pairs)
    {
      hide *;
      ghost var v0 := Seen();
      SeenIs(this);
      c, tied := Locate(d, association);
      ghost var v1 := Seen();
      FixIs(d, c);
      added := Append(FixOf(d, c));
      GrownIs(v0.contacts, None, FixOf(d, c), now, config);
      OnwardTransitive(v0, v1, Seen());
    }

    /** A new detection: it joins the history of a contact, and the contact may turn out to be one heard
        over AIS. */
    method AcceptVisual(d: Detection, association: Option<ContactId>) returns (c: ContactId)
      requires Valid() && d.id !in accepted
      modifies this`contacts, this`counter, this`mmsi, this`archive, this`accepted, this`aliases, this`pairs, this`log, this`merges
      ensures Valid() && Onward(old(Seen()), Seen()) && (old(Orderly(Seen())) ==> Orderly(Seen()))
      ensures accepted == old(accepted)[d.id := c] && Known(Seen(), c) && Lands(old(Seen()), d, association, c)
      ensures d.at < now - config.window ==>
                contacts == (if c in old(contacts) then old(contacts) else old(contacts)[c := Started(c, None, d.position, d.at)])
                && aliases == old(aliases)
      ensures d.at >= now - config.window ==> Detected(old(Seen()), Seen(), c, d, association)
    {
      hide *;
      ghost var v0 := Seen();
      SeenIs(this);
      var tied, added;
      c, tied, added := Place(d, association);
      ghost var v2 := Seen();
      SeenIs(this);
      ContactIsKnown(v2, c);
      var k := Resolve(if association.Some? then association.value else c);
      EndIs(v0.aliases, if association.Some? then association.value else c);
      if added && (association.None? || k != c) && contacts[c].mmsi.None? {
        AssociateVisual(c, d, tied);
        OnwardTransitive(v0, v2, Seen());
        StaysKnown(v2, Seen(), c);
      }
      SeenIs(this);
      if added {
        DetectedByItself(v0, v2, Seen(), c, d, association, tied);
      }
    }

    /** A detection by radar or camera. One taken in before changes nothing. */
    method IngestVisual(d: Detection, association: Option<ContactId>) returns (r: ContactId)
      requires Valid()
      modifies this
      ensures Valid() && Onward(old(Seen()), Seen()) && (old(Orderly(Seen())) ==> Orderly(Seen()))
      ensures d.id in old(accepted) ==> Seen() == old(Seen())
      ensures emitters == old(emitters) && positions == old(positions)
      ensures d.id !in old(accepted) ==> accepted.Keys == old(accepted).Keys + {d.id} && now == Higher(old(now), d.at)
      ensures r in contacts && d.id in accepted && r == EndOf(aliases, accepted[d.id])
      ensures d.id !in old(accepted) ==> Lands(old(Seen()), d, association, accepted[d.id])
      ensures d.id !in old(accepted) && d.at < now - config.window ==>
                var c := accepted[d.id];
                contacts == (if c in old(contacts) then old(contacts) else old(contacts)[c := Started(c, None, d.position, d.at)])
                && aliases == old(aliases)
      ensures d.id !in old(accepted) && d.at >= now - config.window ==> Detected(old(Seen()), Seen(), accepted[d.id], d, association)
    {
      hide *;
      ghost var v0 := Seen();
      SeenIs(this);
      OnwardSelf(v0);
      if d.id in accepted {
        SoundReferences(v0, config.maxGap);
        EndIs(aliases, accepted[d.id]);
        r := Resolve(accepted[d.id]);
        return;
      }
      Tick(d.at);
      ghost var v1 := Seen();
      SeenIs(this);
      var c := AcceptVisual(d, association);
      OnwardTransitive(v0, v1, Seen());
      EndIs(aliases, c);
      DetectedSame(v0, v1, Seen(), c, d, association);
      r := Resolve(c);
    }

    /** The contact a new signal track starts on: the only nearest contact without a track, or a new
        one. Two equally near contacts count as none. */
    method StartTrack(position: Vec, at: real, radius: real) returns (c: ContactId)
      requires Valid()
      modifies this`contacts, this`counter, this`mmsi
      ensures Valid() && Onward(old(Seen()), Seen()) && (old(Orderly(Seen())) ==> Orderly(Seen())) && c in contacts
    {
      hide *;
      OnwardSelf(Seen());
      var signals := SignalsOf(emitters, aliases);
      var ranks := RankDistances(position, at, Untracked(signals));
      if ranks != [] && ranks[0].0 <= radius && !(|ranks| > 1 && Apart(ranks[1].0, ranks[0].0) <= TIE) {
        FirstIsThere(this, ranks, position, at, Untracked(signals));
        return ranks[0].1;
      }
      c := Create(position, at, None);
    }

    method Remember(track: string, c: ContactId)
      requires Valid() && c in contacts
      modifies this`emitters
      ensures Valid() && Onward(old(Seen()), Seen()) && (old(Orderly(Seen())) ==> Orderly(Seen()))
      ensures emitters == old(emitters)[track := c]
    {
      hide *;
      SeenIs(this);
      SoundReferences(Seen(), config.maxGap);
      ContactIsKnown(Seen(), c);
      TrackFollowed(Seen(), emitters[track := c], positions, config.maxGap);
      emitters := emitters[track := c];
      SeenIs(this);
    }

    /** The contact of a signal track. */
    method FollowTrack(track: string, position: Vec, at: real, radius: real) returns (c: ContactId)
      requires Valid()
      modifies this`contacts, this`counter, this`mmsi, this`emitters
      ensures Valid() && Onward(old(Seen()), Seen()) && (old(Orderly(Seen())) ==> Orderly(Seen()))
      ensures c in contacts && track in emitters
      ensures track in old(emitters) ==> Seen() == old(Seen())
    {
      hide *;
      ghost var v0 := Seen();
      SeenIs(this);
      OnwardSelf(v0);
      if track in emitters {
        SoundReferences(v0, config.maxGap);
        c := Resolve(emitters[track]);
        return;
      }
      c := StartTrack(position, at, radius);
      ghost var v1 := Seen();
      Remember(track, c);
      OnwardTransitive(v0, v1, Seen());
    }

    /** A position fixed by listening only: it moves the contact of its signal track, but is no sample. */
    method IngestPassive(id: string, track: string, position: Vec, at: real, radius: real) returns (r: Option<ContactId>)
      requires Valid()
      modifies this
      ensures Valid() && Onward(old(Seen()), Seen()) && (old(Orderly(Seen())) ==> Orderly(Seen()))
      ensures r.None? <==> radius <= 0.0 || (id !in old(positions) && at < 0.0)
      ensures r.None? || id in old(positions) ==> Seen() == old(Seen())
      ensures r.Some? ==> r.value in contacts && id in positions
      ensures r.Some? && id !in old(positions) ==>
                contacts[r.value].position == position && contacts[r.value].revision > 0 && accepted == old(accepted) && archive == old(archive)
    {
      hide *;
      ghost var v0 := Seen();
      SeenIs(this);
      OnwardSelf(v0);
      if radius <= 0.0 {
        return None;
      }
      if id in positions {
        SoundReferences(v0, config.maxGap);
        var known := Resolve(positions[id]);
        return Some(known);
      }
      if at < 0.0 {
        return None;
      }
      Tick(at);
      ghost var v1 := Seen();
      var c := FollowTrack(track, position, at, radius);
      ghost var v2 := Seen();
      OnwardTransitive(v0, v1, v2);
      SeenIs(this);
      FixedKeeps(v2, c, position, at, config.maxGap);
      Rewrite(Fixed(contacts[c], position, at));
      ghost var v3 := Seen();
      OnwardTransitive(v0, v2, v3);
      SeenIs(this);
      SoundReferences(v3, config.maxGap);
      ContactIsKnown(v3, c);
      TrackFollowed(v3, emitters, positions[id := c], config.maxGap);
      positions := positions[id := c];
      SeenIs(this);
      OnwardTransitive(v0, v3, Seen());
      return Some(c);
    }

    /** Trim one history, and lose its contact if it was not seen for too long. */
    method ExpireOne(c: ContactId, at: real) returns (lost: bool)
      requires Valid() && c in contacts && contacts[c].revision > 0
      modifies this`contacts, this`archive, this`pairs, this`log
      ensures Valid() && Onward(old(Seen()), Seen()) && (old(Orderly(Seen())) ==> Orderly(Seen()))
      ensures contacts == old(contacts)[c := Expired(old(contacts)[c], at, now, config)]
      ensures lost <==> IsStale(old(contacts)[c], at, config)
    {
      hide *;
      ghost var v0 := Seen();
      SeenIs(this);
      var was := contacts[c];
      var retained := Trim(was.samples);
      lost := IsStale(was, at, config);
      var now0 := Expired(was, at, now, config);
      ExpiredKeeps(v0, c, at, now, config);
      Revised(v0, now0, Dropped(was.samples, now, config), config.maxGap);
      contacts := contacts[c := now0];
      SeenIs(this);
      ghost var v1 := Seen();
      if Orderly(v0) {
        OrderlyRevised(v0, v1, now0);
      }
      if lost {
        DropMatch(c);
        OnwardTransitive(v0, v1, Seen());
      }
    }

    /** Trim every listed history, and lose the contacts not seen for too long: their reservations
        and their matches end. */
    method Expire(at: real) returns (ok: bool, expired: seq<ContactId>)
      requires Valid()
      modifies this
      ensures Valid() && Onward(old(Seen()), Seen()) && (old(Orderly(Seen())) ==> Orderly(Seen()))
      ensures ok <==> at >= 0.0
      ensures !ok ==> Seen() == old(Seen())
      ensures contacts.Keys == old(contacts).Keys && aliases == old(aliases) && accepted == old(accepted)
      ensures ok ==> now == Higher(old(now), at) && forall c :: c in contacts ==>
                contacts[c] == (if contacts[c].revision == 0 then old(contacts)[c]
                                else Expired(old(contacts)[c], at, now, config))
      ensures ok ==> forall c :: c in expired <==> c in old(contacts) && IsStale(old(contacts)[c], at, config)
    {
      hide *;
      expired := [];
      OnwardSelf(Seen());
      SeenIs(this);
      if at < 0.0 {
        return false, [];
      }
      ok := true;
      Tick(at);
      SeenIs(this);
      ghost var contacts0 := contacts;
      IdsWithin(Seen(), config.maxGap);
      UpToStart(contacts, at, now, config);
      var c := 1;
      while c <= counter
        invariant 1 <= c <= counter + 1
        invariant Valid() && Onward(old(Seen()), Seen()) && (old(Orderly(Seen())) ==> Orderly(Seen()))
        invariant ExpiredUpTo(contacts0, contacts, c, at, now, config)
        modifies this`contacts, this`archive, this`pairs, this`log
        invariant forall x :: x in expired <==> x in contacts0 && x < c && IsStale(contacts0[x], at, config)
      {
        ghost var middle, contacts1 := Seen(), contacts;
        UpToAt(contacts0, contacts, c, at, now, config);
        if c in contacts && contacts[c].revision > 0 {
          var lost := ExpireOne(c, at);
          OnwardTransitive(old(Seen()), middle, Seen());
          if lost {
            expired := expired + [c];
          }
        }
        UpToNext(contacts0, contacts1, contacts, c, at, now, config);
        c := c + 1;
      }
      AllExpired(contacts0, contacts, c, at, now, config);
    }

    /** Another listed contact has the UAV. */
    predicate TakenElsewhere(c: ContactId, uav: string)
      reads this`contacts
    {
      exists d :: d in contacts && d != c && contacts[d].revision > 0 && contacts[d].uav == Some(uav)
    }

    /** Whether a contact may be reserved for a UAV: it is open, past its cooldown if it is to be
        probed, not reserved in another way, and the UAV is free. */
    predicate MayReserve(c: ContactId, uav: string, probe: Option<string>)
      reads this`contacts, this`now
    {
      && c in contacts && uav != "" && contacts[c].state !in {Cleared, Lost, Departed}
      && (probe.None? || now >= contacts[c].notBefore)
      && (contacts[c].uav.None? || (contacts[c].uav == Some(uav) && contacts[c].probe == probe))
      && !TakenElsewhere(c, uav)
    }

    method Reserve(id: ContactId, uav: string, probe: Option<string>) returns (ok: bool)
      requires Valid()
      modifies this`contacts
      ensures Valid() && Onward(old(Seen()), Seen()) && (old(Orderly(Seen())) ==> Orderly(Seen()))
      ensures var c := if id in aliases then aliases[id] else id;
              && (ok <==> old(MayReserve(c, uav, probe)))
              && (ok ==> c in old(contacts))
              && contacts == if ok then old(contacts)[c := Reserved(old(contacts)[c], uav, probe)] else old(contacts)
    {
      hide *;
      OnwardSelf(Seen());
      var c := Resolve(id);
      ok := MayReserve(c, uav, probe);
      if ok {
        MayReserveFree(this, c, uav, probe);
        Grant(c, uav, probe);
      }
    }

    method Grant(c: ContactId, uav: string, probe: Option<string>)
      requires Valid() && c in contacts && MayReserve(c, uav, probe)
      modifies this`contacts
      ensures Valid() && Onward(old(Seen()), Seen()) && (old(Orderly(Seen())) ==> Orderly(Seen()))
      ensures contacts == old(contacts)[c := Reserved(old(contacts)[c], uav, probe)]
    {
      hide *;
      ghost var v0 := Seen();
      SeenIs(this);
      var reserved := Reserved(contacts[c], uav, probe);
      ReservedKeeps(v0, c, uav, probe, config.maxGap);
      NothingDropped(v0, reserved, config.maxGap);
      MayReserveFree(this, c, uav, probe);
      contacts := contacts[c := reserved];
      SeenIs(this);
      ReservedOrderly(v0, Seen(), c, reserved);
    }

    /** The operation of an existing reservation changes; only its owner may do that. */
    method TransitionReservation(id: ContactId, uav: string, expected: Option<string>, probe: Option<string>) returns (ok: bool)
      requires Valid()
      modifies this`contacts
      ensures Valid() && Onward(old(Seen()), Seen()) && (old(Orderly(Seen())) ==> Orderly(Seen()))
      ensures var c := if id in aliases then aliases[id] else id;
              && (ok <==> c in old(contacts) && old(contacts)[c].uav == Some(uav) && old(contacts)[c].probe == expected)
              && contacts == if !ok then old(contacts) else
                   old(contacts)[c := old(contacts)[c].(probe := probe, state := if Probes(probe) then Approaching else Tracking)]
    {
      hide *;
      OnwardSelf(Seen());
      var c := Resolve(id);
      ok := c in contacts && contacts[c].uav == Some(uav) && contacts[c].probe == expected;
      if ok {
        ghost var v0 := Seen();
        SeenIs(this);
        ContactIds(v0, config.maxGap);
        ReservedIsListed(v0, c);
        Rewrite(contacts[c].(probe := probe, state := if Probes(probe) then Approaching else Tracking));
      }
    }

    /** A reservation ends. An open contact is pending again, and some endings delay the next probe. */
    method Release(id: ContactId, at: real, reason: string) returns (ok: bool)
      requires Valid()
      modifies this`contacts
      ensures Valid() && Onward(old(Seen()), Seen()) && (old(Orderly(Seen())) ==> Orderly(Seen()))
      ensures var c := if id in aliases then aliases[id] else id;
              (ok <==> at >= 0.0 && c in old(contacts))
              && contacts == if !ok then old(contacts) else old(contacts)[c := Released(old(contacts)[c], at, reason, config)]
    {
      hide *;
      OnwardSelf(Seen());
      var c := Resolve(id);
      ok := at >= 0.0 && c in contacts;
      if ok {
        ghost var v0 := Seen();
        SeenIs(this);
        ContactIds(v0, config.maxGap);
        ReleasedKeeps(v0, c, at, reason, config);
        Rewrite(Released(contacts[c], at, reason, config));
      }
    }

    /** An assessment fits a contact: it names the present history and probe, and a class it settles
        on is confident and rests on what was seen. */
    predicate Fits(c: Contact, a: Assessment) {
      && a.revision == c.revision && c.probe == Some(a.probe) && a.probe != "" && 0.0 <= a.confidence <= 1.0 && a.at >= 0.0
      && (forall id :: id in a.evidence ==> HasId(c.samples, id))
      && (a.vesselClass != Unknown ==>
            a.confidence >= config.confidenceMin
            && exists i: nat :: i < |c.samples| && c.samples[i].source != Ais && c.samples[i].id in a.evidence)
    }

    /** The outcome of a probe. A harmless vessel is cleared and released; a repeated outcome changes nothing. */
    method ApplyAssessment(id: ContactId, a: Assessment) returns (ok: bool)
      requires Valid()
      modifies this`contacts
      ensures Valid() && Onward(old(Seen()), Seen()) && (old(Orderly(Seen())) ==> Orderly(Seen()))
      ensures var c := if id in aliases then aliases[id] else id;
              && (ok <==> c in old(contacts) && (old(contacts)[c].assessment == Some(a) || Fits(old(contacts)[c], a)))
              && contacts == if ok && old(contacts)[c].assessment != Some(a) then old(contacts)[c := Assessed(old(contacts)[c], a, config)]
                             else old(contacts)
    {
      hide *;
      OnwardSelf(Seen());
      var c := Resolve(id);
      if c in contacts && contacts[c].assessment == Some(a) {
        return true;
      }
      ok := c in contacts && Fits(contacts[c], a);
      if ok {
        ghost var v0 := Seen();
        SeenIs(this);
        AssessedKeeps(this, c, a);
        Rewrite(Assessed(contacts[c], a, config));
      }
    }

    /** What was made out of evidence: class and activity. A confirmed violation makes the contact
        tracked, listed or not. */
    method ApplyDimensions(id: ContactId, vesselClass: VesselClass, classConfidence: real, activity: Activity, activityConfidence: real,
                           at: real, expected: Option<nat>) returns (ok: bool)
      requires Valid()
      modifies this`contacts
      ensures Valid() && Onward(old(Seen()), Seen())
      ensures var c := if id in aliases then aliases[id] else id;
              && (ok <==> c in old(contacts) && at >= 0.0 && (expected.Some? ==> expected.value == old(contacts)[c].revision)
                          && DimensionsFit(vesselClass, classConfidence, activity, activityConfidence, config))
              && (contacts == if ok then old(contacts)[c := Dimensioned(old(contacts)[c], vesselClass, activity)] else old(contacts))
              && (ok && old(Orderly(Seen())) ==> (Orderly(Seen()) <==> activity != Confirmed || old(contacts)[c].revision > 0))
      ensures !ok && old(Orderly(Seen())) ==> Orderly(Seen())
      ensures old(Exclusive(Seen())) ==> Exclusive(Seen())
    {
      hide *;
      OnwardSelf(Seen());
      var c := Resolve(id);
      ok := c in contacts && at >= 0.0 && (expected.Some? ==> expected.value == contacts[c].revision)
            && DimensionsFit(vesselClass, classConfidence, activity, activityConfidence, config);
      if ok {
        ghost var v0 := Seen();
        SeenIs(this);
        DimensionedKeeps(v0, c, vesselClass, activity, config.maxGap);
        Rewrite(Dimensioned(contacts[c], vesselClass, activity));
        SeenIs(this);
        SameReservation(v0, Seen(), c);
        if activity == Confirmed && v0.contacts[c].revision == 0 {
          TrackedUnlisted(v0, Seen(), c, vesselClass, activity);
        }
      }
    }
  }

  predicate IsStale(c: Contact, at: real, config: Config) {
    c.revision > 0 && c.state != Lost && c.state != Departed && at - c.lastSeen > config.staleAfter
  }

  /** A listed contact after the clock has moved to `at`. */
  function Expired(c: Contact, at: real, now: real, config: Config): Contact {
    var trimmed := c.(samples := Retained(c.samples, now, config));
    if IsStale(c, at, config) then trimmed.(state := Lost, uav := None, probe := None) else trimmed
  }

  /** An operation is a probe if it has an ID; an empty ID is none. */
  predicate Probes(probe: Option<string>) { probe.Some? && probe.value != "" }

  lemma ContactIds(v: View, gap: real)
    requires Sound(v, gap)
    ensures forall c :: c in v.contacts ==> v.contacts[c].id == c
  {
    hide Conserved, Paired, MergesJustified, AliasesEnd, References;
  }

  function Reserved(c: Contact, uav: string, probe: Option<string>): Contact {
    c.(uav := Some(uav), probe := probe, state := if Probes(probe) then Approaching else Tracking)
  }

  lemma ReservedKeeps(v: View, c: ContactId, uav: string, probe: Option<string>, gap: real)
    requires Sound(v, gap) && c in v.contacts
    ensures var d := Reserved(v.contacts[c], uav, probe);
            d.id == c && d.mmsi == v.contacts[c].mmsi && d.samples == v.contacts[c].samples && d.revision == v.contacts[c].revision
            && d.uav == Some(uav)
  {
    hide Conserved, Paired, MergesJustified, AliasesEnd, References;
  }

  lemma MayReserveFree(store: ContactStore, c: ContactId, uav: string, probe: Option<string>)
    requires store.MayReserve(c, uav, probe)
    ensures c in store.contacts && store.contacts[c].state != Lost
    ensures forall d :: d in store.contacts && d != c && store.contacts[d].revision > 0 ==> store.contacts[d].uav != Some(uav)
  {
  }

  /** Reserving for a UAV no other listed contact has keeps UAVs exclusive: an unlisted contact has none. */
  lemma ReservedOrderly(v: View, w: View, c: ContactId, reserved: Contact)
    requires c in v.contacts && v.contacts[c].state != Lost && w.contacts == v.contacts[c := reserved]
    requires reserved.uav.Some? && reserved.revision == v.contacts[c].revision
    requires forall d :: d in v.contacts && d != c && v.contacts[d].revision > 0 ==> v.contacts[d].uav != reserved.uav
    ensures Orderly(v) ==> Orderly(w)
  {
  }

  lemma ReservedIsListed(v: View, c: ContactId)
    requires c in v.contacts && v.contacts[c].uav.Some?
    ensures Orderly(v) ==> forall d: Contact :: d.revision == v.contacts[c].revision ==> ListedOrIdle(d)
  {
  }

  /** A contact whose reservation has ended; nothing changes if it had none. */
  function Released(c: Contact, at: real, reason: string, config: Config): Contact {
    if c.uav.None? && c.probe.None? then c else
      c.(state := if c.state in {Cleared, Lost, Departed} then c.state else Pending, uav := None, probe := None,
         notBefore := if reason in {"timeout", "probe_timeout", "approach_timeout", "target_lost", "sensor_blocked"}
                      then at + config.cooldown else c.notBefore)
  }

  lemma ReleasedKeeps(v: View, c: ContactId, at: real, reason: string, config: Config)
    requires Sound(v, config.maxGap) && c in v.contacts
    ensures var d := Released(v.contacts[c], at, reason, config);
            d.id == c && d.mmsi == v.contacts[c].mmsi && d.samples == v.contacts[c].samples
            && (d.uav.None? || d.uav == v.contacts[c].uav) && (Orderly(v) ==> ListedOrIdle(d))
  {
    hide Conserved, Paired, MergesJustified, AliasesEnd, References;
  }

  /** A contact after the outcome of its probe. */
  function Assessed(c: Contact, a: Assessment, config: Config): Contact {
    var known := c.(assessment := Some(a), vesselClass := if a.vesselClass == Unknown then c.vesselClass else a.vesselClass);
    match a.vesselClass
    case Unknown => known
    case TypeII => known.(state := Tracking)
    case TypeI => Released(known.(state := Cleared, clearedAt := Some(a.at), notBefore := a.at + config.recheck), a.at, "type_i_released", config)
  }

  lemma AssessedKeeps(store: ContactStore, c: ContactId, a: Assessment)
    requires store.Valid() && c in store.contacts && store.Fits(store.contacts[c], a)
    ensures var d := Assessed(store.contacts[c], a, store.config);
            d.id == c && d.mmsi == store.contacts[c].mmsi && d.samples == store.contacts[c].samples
            && (d.uav.None? || d.uav == store.contacts[c].uav) && (Orderly(store.Seen()) ==> ListedOrIdle(d))
  {
    hide Conserved, Paired, MergesJustified, AliasesEnd, References;
  }

  predicate DimensionsFit(vesselClass: VesselClass, classConfidence: real, activity: Activity, activityConfidence: real, config: Config) {
    && (vesselClass != Unknown ==> classConfidence >= config.confidenceMin)
    && (activity == Confirmed ==> activityConfidence >= config.confidenceMin)
    && (activity != UnknownActivity ==> activityConfidence > 0.0)
  }

  function Dimensioned(c: Contact, vesselClass: VesselClass, activity: Activity): Contact {
    c.(activity := activity, vesselClass := if vesselClass == Unknown then c.vesselClass else vesselClass,
       state := if activity == Confirmed then Tracking else c.state)
  }

  lemma DimensionedKeeps(v: View, c: ContactId, vesselClass: VesselClass, activity: Activity, gap: real)
    requires Sound(v, gap) && c in v.contacts
    ensures var d := Dimensioned(v.contacts[c], vesselClass, activity);
            d.id == c && d.mmsi == v.contacts[c].mmsi && d.samples == v.contacts[c].samples && d.uav == v.contacts[c].uav
            && (Orderly(v) && (activity != Confirmed || v.contacts[c].revision > 0) ==> ListedOrIdle(d))
  {
    hide Conserved, Paired, MergesJustified, AliasesEnd, References;
  }

  lemma SameReservation(v: View, w: View, c: ContactId)
    requires c in v.contacts && c in w.contacts && w.contacts == v.contacts[c := w.contacts[c]] && w.contacts[c].uav == v.contacts[c].uav
    ensures Exclusive(v) ==> Exclusive(w)
  {
  }

  /** Tracking a contact that is not listed is the one way to upset the order. */
  lemma TrackedUnlisted(v: View, w: View, c: ContactId, vesselClass: VesselClass, activity: Activity)
    requires c in v.contacts && w.contacts == v.contacts[c := Dimensioned(v.contacts[c], vesselClass, activity)]
    requires activity == Confirmed && v.contacts[c].revision == 0
    ensures !Orderly(w)
  {
    assert c in w.contacts;
  }

  /** A tracked contact that is not listed can be reserved, and its UAV then reserved again: the
      search for a taken UAV looks at listed contacts only. */
  method BookTwice(store: ContactStore, c: ContactId, d: ContactId, uav: string) returns (both: bool)
    requires store.Valid() && c in store.contacts && d in store.contacts && c != d && uav != ""
    requires store.contacts[c].revision == 0 && store.contacts[c].state == Tracking && store.contacts[c].uav.None?
    requires store.contacts[d].state == Pending && store.contacts[d].uav.None?
    requires forall x :: x in store.contacts ==> store.contacts[x].uav != Some(uav)
    modifies store`contacts
    ensures both && store.Valid() && !Exclusive(store.Seen())
  {
    hide Conserved, Paired, MergesJustified, MmsiUnique, References, Onward;
    var first := store.Reserve(c, uav, None);
    var second := store.Reserve(d, uav, None);
    both := first && second;
    assert store.contacts[c].uav == store.contacts[d].uav == Some(uav);
  }

  lemma ExpiredKeeps(v: View, c: ContactId, at: real, now: real, config: Config)
    requires Sound(v, config.maxGap) && c in v.contacts
    ensures var was := v.contacts[c]; var d := Expired(was, at, now, config);
            d.id == c && d.mmsi == was.mmsi && (d.uav.None? || d.uav == was.uav) && d.revision == was.revision
            && Ids(d.samples) + Ids(Dropped(was.samples, now, config)) == Ids(was.samples)
  {
    hide Ids, Retained, Dropped, Conserved, Paired, MergesJustified, AliasesEnd, References;
    HistoryOnce(v, c);
    TrimSplits(v.contacts[c].samples, now, config);
  }

  lemma IdsWithin(v: View, gap: real)
    requires Sound(v, gap)
    ensures forall c :: c in v.contacts ==> 1 <= c <= v.counter
  {
    hide Conserved, Paired, MergesJustified, AliasesEnd, References;
  }

  /** The contacts below `n` have been looked at, the others have not. */
  ghost predicate ExpiredUpTo(before: map<ContactId, Contact>, after: map<ContactId, Contact>, n: nat, at: real, now: real, config: Config) {
    after.Keys == before.Keys && forall c :: c in before ==>
      after[c] == if c < n && before[c].revision > 0 then Expired(before[c], at, now, config) else before[c]
  }

  lemma UpToAt(before: map<ContactId, Contact>, after: map<ContactId, Contact>, n: nat, at: real, now: real, config: Config)
    requires ExpiredUpTo(before, after, n, at, now, config)
    ensures n in after <==> n in before
    ensures n in after ==> after[n] == before[n]
    ensures n in after && after[n].revision == 0 ==> !IsStale(after[n], at, config)
  {
  }

  lemma UpToNext(before: map<ContactId, Contact>, middle: map<ContactId, Contact>, after: map<ContactId, Contact>, n: nat, at: real, now: real,
                 config: Config)
    requires ExpiredUpTo(before, middle, n, at, now, config)
    requires if n in middle && middle[n].revision > 0 then after == middle[n := Expired(middle[n], at, now, config)] else after == middle
    ensures ExpiredUpTo(before, after, n + 1, at, now, config)
  {
    hide Expired;
  }

  lemma AllExpired(before: map<ContactId, Contact>, after: map<ContactId, Contact>, n: nat, at: real, now: real, config: Config)
    requires ExpiredUpTo(before, after, n, at, now, config) && forall c :: c in before ==> c < n
    ensures after.Keys == before.Keys
    ensures forall c :: c in after ==>
              (if before[c].revision == 0 then after[c] == before[c] else after[c] == Expired(before[c], at, now, config))
              && after[c].revision == before[c].revision
  {
  }

  lemma UpToStart(contacts: map<ContactId, Contact>, at: real, now: real, config: Config)
    requires forall c :: c in contacts ==> 1 <= c
    ensures ExpiredUpTo(contacts, contacts, 1, at, now, config)
  {
  }

  lemma FirstIsThere(store: ContactStore, ranks: seq<Rank>, position: Vec, at: real, pool: Pool)
    requires store.Ranked(ranks, position, at, pool) && ranks != []
    ensures ranks[0].1 in store.contacts
  {
    assert ranks[0] in ranks;
  }

  /** A contact moved to a position without a sample. */
  function Fixed(c: Contact, position: Vec, at: real): Contact {
    var dt := at - c.lastSeen;
    c.(revision := c.revision + 1,
       state := if c.state == Lost then (if c.vesselClass == TypeI then Cleared else Pending) else c.state,
       firstSeen := Lower(c.firstSeen, at), lastSeen := Higher(c.lastSeen, at), position := position,
       velocity := if dt > TIE && c.revision > 0 then Some(Rate(c.position, position, dt)) else c.velocity)
  }

  lemma FixedKeeps(v: View, c: ContactId, position: Vec, at: real, gap: real)
    requires Sound(v, gap) && c in v.contacts
    ensures var d := Fixed(v.contacts[c], position, at);
            d.id == c && d.mmsi == v.contacts[c].mmsi && d.samples == v.contacts[c].samples && d.uav == v.contacts[c].uav
            && d.revision > 0 && d.position == position && ListedOrIdle(d)
  {
    hide Conserved, Paired, MergesJustified, AliasesEnd, References;
  }

  lemma ContactIsKnown(v: View, c: ContactId)
    ensures c in v.contacts ==> Known(v, c)
  {
  }

  lemma StaysKnown(v: View, w: View, c: ContactId)
    requires Onward(v, w) && c in v.contacts
    ensures Known(w, c)
  {
  }

  lemma HigherIs(x: real, y: real)
    ensures Higher(x, y) >= x && Higher(x, y) >= y
  {
  }

  lemma PairsKnown(v: View, gap: real)
    requires Sound(v, gap)
    ensures forall k :: k in v.pairs ==> v.pairs[k].contact in v.contacts
  {
    hide Conserved, MergesJustified, AliasesEnd, MmsiUnique, References, Latest;
    forall k | k in v.pairs
      ensures v.pairs[k].contact in v.contacts
    {
      assert PairingFits(v, k);
    }
  }

  /** A first report of a new contact, in its history or too old for it. */
  lemma FirstReport(blank: Contact, signal: Signal, s: Sample, c: Contact, now: real, config: Config)
    requires s.at == signal.at
    requires if s.at >= now - config.window
             then c == Observed(blank, s, Retained(blank.samples + [s], now, config), now, config) else c == blank
    ensures Blank(blank, Some(signal.mmsi)) ==> FirstHeard(c, signal, now, config)
  {
    hide Retained, VelocityOf;
  }

  /** A contact with an MMSI stays a contact. */
  lemma KeepsMmsi(v: View, w: View, c: ContactId)
    requires Onward(v, w) && c in v.contacts && v.contacts[c].mmsi.Some?
    ensures c in w.contacts && w.contacts[c].mmsi == v.contacts[c].mmsi
  {
  }

  lemma NearestIsThere(store: ContactStore, c: ContactId, position: Vec, at: real, pool: Pool)
    requires store.Nearest(c, position, at, pool)
    ensures c in store.contacts && InPool(store.contacts[c], pool)
    ensures pool == Unidentified ==> store.contacts[c].mmsi.None?
    ensures pool == Identified ==> store.contacts[c].mmsi.Some?
  {
  }

  lemma NoAlias(v: View, k: ContactId, gap: real)
    requires Sound(v, gap)
    ensures k in v.contacts ==> k !in v.aliases
  {
    hide Conserved, Paired, MergesJustified, MmsiUnique, References;
  }

  lemma SeenIs(store: ContactStore)
    ensures store.Seen() == View(store.contacts, store.aliases, store.mmsi, store.accepted, store.pairs, store.archive, store.emitters,
                                 store.positions, store.counter, store.now, store.log, store.merges)
    ensures store.Valid() <==> Sound(store.Seen(), store.config.maxGap)
  {
  }

  lemma MayMergeNow(v: View, k: ContactId, a: ContactId, merged: Contact, at: real, gap: real)
    requires k in v.pairs && v.pairs[k].contact == a && v.pairs[k].at < at && at - v.pairs[k].at <= gap
    requires k in v.contacts && a in v.contacts && merged.id == a && merged.mmsi == v.contacts[a].mmsi
    ensures MayMerge(v, k, a, merged, at, gap)
  {
  }

  lemma MergingIs(v: View, k: ContactId, a: ContactId, merged: Contact, dropped: seq<Sample>, at: real)
    requires k in v.pairs
    ensures Merging(v, k, a, merged, dropped, at)
         == v.(contacts := v.contacts[a := merged] - {k}, aliases := v.aliases[k := a], pairs := v.pairs - {k},
               archive := v.archive + dropped, log := v.log + [Matched(k, a, at)],
               merges := v.merges[k := Merge(a, v.pairs[k].at, at)])
  {
  }

  lemma NothingDropped(v: View, c: Contact, gap: real)
    requires Sound(v, gap) && c.id in v.contacts && c.mmsi == v.contacts[c.id].mmsi && c.samples == v.contacts[c.id].samples
    ensures Sound(v.(contacts := v.contacts[c.id := c]), gap) && Onward(v, v.(contacts := v.contacts[c.id := c]))
  {
    hide Sound, Onward, Ids;
    Empty();
    Revised(v, c, [], gap);
    assert v.archive + [] == v.archive;
  }

  lemma SameContacts(v: View, w: View)
    requires w.contacts == v.contacts
    ensures Orderly(v) ==> Orderly(w)
  {
  }

  lemma AppendSplits(v: View, s: Sample, now: real, config: Config)
    requires Sound(v, config.maxGap) && s.id !in v.accepted && s.contact in v.contacts
    ensures v.contacts[s.contact].id == s.contact
    ensures var history := v.contacts[s.contact].samples + [s];
            Ids(Retained(history, now, config)) + Ids(Dropped(history, now, config)) == Ids(v.contacts[s.contact].samples) + multiset{s.id}
  {
    hide Ids, Retained, Dropped, Conserved, Paired, MergesJustified, AliasesEnd, References;
    var old0 := v.contacts[s.contact].samples;
    HistoryOnce(v, s.contact);
    IdsJoin(old0, [s]);
    OneId(s);
    TrimSplits(old0 + [s], now, config);
  }

  lemma MergedConfirms(v: View, w: View, k: ContactId, a: ContactId, at: real, now: real, config: Config)
    requires k in v.pairs && v.pairs[k].contact == a && v.pairs[k].at < at && at - v.pairs[k].at <= config.maxGap
    requires k in v.contacts && a in v.contacts && k != a
    requires var history := Relabelled(v.contacts[a].samples + v.contacts[k].samples, a);
             var merged := Merged(v.contacts[a], v.contacts[k], Retained(history, now, config), config.maxGap);
             w == Merging(v, k, a, merged, Dropped(history, now, config), at)
    ensures Counted(v, w, k, a, at, now, config)
  {
    hide Merged, Retained, Dropped, Relabelled;
  }

  lemma FirstConfirms(v: View, w: View, k: ContactId, a: ContactId, at: real, now: real, config: Config)
    requires k in v.pairs ==> v.pairs[k].at < at
    requires !(k in v.pairs && v.pairs[k].contact == a && at - v.pairs[k].at <= config.maxGap)
    requires w.pairs == v.pairs[k := Pairing(a, 1, at)] && w.contacts == v.contacts && w.aliases == v.aliases
    ensures Counted(v, w, k, a, at, now, config)
  {
  }

  lemma LateConfirms(v: View, k: ContactId, a: ContactId, at: real, now: real, config: Config)
    requires k in v.pairs && at <= v.pairs[k].at
    ensures Counted(v, v, k, a, at, now, config)
  {
  }

  lemma ConfirmedSame(u: View, v: View, w: View, k: ContactId, a: ContactId, at: real, now: real, config: Config)
    requires u.contacts == v.contacts && u.pairs == v.pairs && u.aliases == v.aliases && Counted(v, w, k, a, at, now, config)
    ensures Counted(u, w, k, a, at, now, config)
  {
  }

  lemma ReportIs(signal: Signal, id: SampleId, c: ContactId, uncertainty: real)
    ensures ReportOf(signal, id, c, uncertainty) == Sample(id, c, signal.at, Ais, signal.mmsi, signal.position, Some(signal.velocity), uncertainty)
  {
  }

  lemma FixIs(d: Detection, c: ContactId)
    ensures FixOf(d, c) == Sample(d.id, c, d.at, d.source, d.sourceId, d.position, d.velocity, d.uncertainty)
  {
  }

  lemma GrownIs(known: map<ContactId, Contact>, owner: Option<string>, s: Sample, now: real, config: Config)
    ensures var was := if s.contact in known then known[s.contact] else Started(s.contact, owner, s.position, s.at);
            var more := known[s.contact := was];
            && Grown(known, owner, s, now, config) == more[s.contact := Observed(was, s, Retained(was.samples + [s], now, config), now, config)]
            && (s.contact in known ==> more == known)
  {
    hide Observed, Retained, Started;
  }

  lemma OnlyWithIs(pairs: map<ContactId, Pairing>, left: map<ContactId, Pairing>, a: ContactId, k: Option<ContactId>)
    requires forall x :: x in left <==> x in pairs && (pairs[x].contact != a || k == Some(x))
    requires forall x :: x in left ==> left[x] == pairs[x]
    ensures left == OnlyWith(pairs, a, k)
  {
  }

  lemma EndIs(aliases: map<ContactId, ContactId>, id: ContactId)
    ensures EndOf(aliases, id) == if id in aliases then aliases[id] else id
  {
  }

  lemma ObservedKeeps(c: Contact, s: Sample, samples: seq<Sample>, now: real, config: Config)
    ensures var d := Observed(c, s, samples, now, config);
            d.id == c.id && d.mmsi == c.mmsi && d.samples == samples && d.uav == c.uav && d.revision == c.revision + 1
  {
    hide VelocityOf;
  }

  lemma PairStands(v: View, k: ContactId, gap: real)
    requires Sound(v, gap) && k in v.pairs
    ensures k in v.contacts && v.pairs[k].contact in v.contacts && k != v.pairs[k].contact
    ensures v.contacts[k].mmsi.None? && v.contacts[v.pairs[k].contact].mmsi.Some? && v.pairs[k].count == 1
    ensures v.contacts[v.pairs[k].contact].id == v.pairs[k].contact
  {
    hide Latest, Conserved;
    assert PairingFits(v, k);
  }

  lemma MergeTrims(v: View, a: ContactId, k: ContactId, now: real, config: Config)
    requires Sound(v, config.maxGap) && a in v.contacts && k in v.contacts && a != k
    ensures var history := Relabelled(v.contacts[a].samples + v.contacts[k].samples, a);
            Ids(Retained(history, now, config)) + Ids(Dropped(history, now, config))
            == Ids(v.contacts[a].samples) + Ids(v.contacts[k].samples)
  {
    hide Ids, Retained, Dropped, Conserved, Paired, MergesJustified, AliasesEnd, References, Relabelled;
    HistoriesApart(v, a, k);
    IdsJoin(v.contacts[a].samples, v.contacts[k].samples);
    RelabelledIds(v.contacts[a].samples + v.contacts[k].samples, a);
    TrimSplits(Relabelled(v.contacts[a].samples + v.contacts[k].samples, a), now, config);
  }

  lemma MergedKeeps(a: Contact, k: Contact, samples: seq<Sample>, maxGap: real)
    ensures var m := Merged(a, k, samples, maxGap);
            m.id == a.id && m.mmsi == a.mmsi && m.samples == samples && m.revision == a.revision + k.revision + 1
            && (m.uav.None? || m.uav == a.uav || m.uav == k.uav)
  {
    hide VelocityOf;
  }

  lemma EmptyIsSound(v: View, gap: real)
    requires v == View(map[], map[], map[], map[], map[], [], map[], map[], 0, 0.0, [], map[])
    ensures Sound(v, gap) && Orderly(v)
  {
    Empty();
  }
}
