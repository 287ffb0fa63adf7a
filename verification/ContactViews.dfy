/** What a contact store knows, and what holds of it in every reachable state.

    The log and the record of merges are not kept by the store itself: they say what the
    association of AIS and visual contacts has seen so far.
  */
module ContactViews {

  import opened Finite
  import opened ContactRecords

  /** A visual contact waits for its match with an AIS contact to be confirmed. */
  datatype Pairing = Pairing(contact: ContactId, count: nat, at: real)

  /** What the association found out: a match, or an end to the matches of some contacts. */
  datatype Entry = Matched(visual: ContactId, ais: ContactId, at: real) | Broken(visuals: set<ContactId>)

  /** A merge into `ais`, after two matches. */
  datatype Merge = Merge(ais: ContactId, first: real, second: real)

  datatype View = View(
    contacts: map<ContactId, Contact>, aliases: map<ContactId, ContactId>, mmsi: map<string, ContactId>,
    accepted: map<SampleId, ContactId>, pairs: map<ContactId, Pairing>, archive: seq<Sample>,
    emitters: map<string, ContactId>, positions: map<string, ContactId>, counter: nat, now: real,
    log: seq<Entry>, merges: map<ContactId, Merge>)

  function Concerns(e: Entry, k: ContactId): bool {
    match e
    case Matched(visual, _, _) => visual == k
    case Broken(visuals) => k in visuals
  }

  /** The last entry about a contact. */
  function Latest(log: seq<Entry>, k: ContactId): Option<Entry> {
    if log == [] then None
    else if Concerns(log[|log| - 1], k) then Some(log[|log| - 1])
    else Latest(log[..|log| - 1], k)
  }

  ghost predicate Known(v: View, id: ContactId) { id in v.contacts || id in v.aliases }

  // ----------------------------------------------------------------------- invariants

  /** An alias is no contact, and leads in one step to a contact with an MMSI. */
  ghost predicate AliasesEnd(v: View) {
    forall k :: k in v.aliases ==>
      k !in v.contacts && k <= v.counter && v.aliases[k] in v.contacts && v.contacts[v.aliases[k]].mmsi.Some?
  }

  /** An MMSI belongs to one contact, and a contact with an MMSI stays found by it. */
  ghost predicate MmsiUnique(v: View) {
    && (forall c :: c in v.contacts ==> v.contacts[c].id == c && 1 <= c <= v.counter)
    && (forall m :: m in v.mmsi ==> v.mmsi[m] in v.contacts && v.contacts[v.mmsi[m]].mmsi == Some(m))
    && (forall c :: c in v.contacts && v.contacts[c].mmsi.Some? ==>
          v.contacts[c].mmsi.value in v.mmsi && v.mmsi[v.contacts[c].mmsi.value] == c)
  }

  ghost predicate References(v: View) {
    && (forall i :: i in v.accepted ==> Known(v, v.accepted[i]))
    && (forall e :: e in v.emitters ==> Known(v, v.emitters[e]))
    && (forall p :: p in v.positions ==> Known(v, v.positions[p]))
  }

  /** The sample IDs in the histories of the contacts up to `n`. */
  ghost function Held(contacts: map<ContactId, Contact>, n: nat): multiset<SampleId> {
    if n == 0 then multiset{} else Held(contacts, n - 1) + if n in contacts then Ids(contacts[n].samples) else multiset{}
  }

  /** Every accepted sample is once in one history or in the archive, and nothing else is. */
  ghost predicate Conserved(v: View) {
    Ids(v.archive) + Held(v.contacts, v.counter) == multiset(v.accepted.Keys)
  }

  /** The pairs are the matches nothing has ended yet. */
  ghost predicate Paired(v: View) {
    && (forall k :: k in v.pairs ==> k in v.contacts && PairingFits(v, k))
    && (forall k :: k in v.contacts && k !in v.pairs ==> !IsMatched(Latest(v.log, k)))
    && (forall i: nat :: i < |v.log| && v.log[i].Matched? ==> v.log[i].visual <= v.counter)
  }

  ghost predicate PairingFits(v: View, k: ContactId)
    requires k in v.pairs && k in v.contacts
  {
    var p := v.pairs[k];
    && v.contacts[k].mmsi.None? && p.contact in v.contacts && v.contacts[p.contact].mmsi.Some? && p.count == 1
    && Latest(v.log, k) == Some(Matched(k, p.contact, p.at))
  }

  ghost predicate IsMatched(e: Option<Entry>) { e.Some? && e.value.Matched? }

  /** Two matches of the same pair, the second later but not too late, and nothing about the
      visual contact in between. */
  ghost predicate MatchedTwice(log: seq<Entry>, k: ContactId, m: Merge, gap: real) {
    && m.first < m.second && m.second - m.first <= gap
    && exists i: nat, j: nat :: i < j < |log| && log[i] == Matched(k, m.ais, m.first) && log[j] == Matched(k, m.ais, m.second)
                                && Silent(log, i, j, k)
  }

  ghost predicate Silent(log: seq<Entry>, i: nat, j: nat, k: ContactId) {
    j <= |log| && forall h: nat :: i < h < j ==> !Concerns(log[h], k)
  }

  ghost predicate MergesJustified(v: View, gap: real) {
    && v.merges.Keys == v.aliases.Keys
    && forall k :: k in v.merges ==> v.merges[k].ais == v.aliases[k] && MatchedTwice(v.log, k, v.merges[k], gap)
  }

  ghost predicate Sound(v: View, gap: real) {
    AliasesEnd(v) && MmsiUnique(v) && References(v) && Conserved(v) && Paired(v) && MergesJustified(v, gap)
  }

  /** A UAV is reserved for one contact. */
  ghost predicate Exclusive(v: View) {
    forall c, d :: c in v.contacts && d in v.contacts && v.contacts[c].uav.Some? && v.contacts[c].uav == v.contacts[d].uav ==> c == d
  }

  /** A contact that is not listed yet is lost and free. */
  ghost predicate UnlistedIdle(v: View) {
    forall c :: c in v.contacts && v.contacts[c].revision == 0 ==>
      v.contacts[c].uav.None? && v.contacts[c].probe.None? && v.contacts[c].state == Lost
  }

  ghost predicate Orderly(v: View) { Exclusive(v) && UnlistedIdle(v) }

  /** What is never undone: aliases, owners of MMSIs, accepted samples, the archive, the log. */
  ghost predicate Onward(v: View, w: View) {
    && (forall k :: k in v.aliases ==> k in w.aliases && w.aliases[k] == v.aliases[k])
    && (forall c :: c in v.contacts ==>
          (c in w.contacts && w.contacts[c].mmsi == v.contacts[c].mmsi) || (c in w.aliases && v.contacts[c].mmsi.None?))
    && (forall m :: m in v.mmsi ==> m in w.mmsi && w.mmsi[m] == v.mmsi[m])
    && (forall i :: i in v.accepted ==> i in w.accepted)
    && v.archive <= w.archive && v.log <= w.log && v.now <= w.now && v.counter <= w.counter
  }

  lemma OnwardTransitive(u: View, v: View, w: View)
    requires Onward(u, v) && Onward(v, w)
    ensures Onward(u, w)
  {
  }

  lemma OnwardSelf(v: View)
    ensures Onward(v, v)
  {
  }

  // ------------------------------------------------------------------------- histories

  lemma {:induction false} HeldSame(contacts: map<ContactId, Contact>, others: map<ContactId, Contact>, n: nat)
    requires forall c :: c <= n ==> (c in contacts <==> c in others) && (c in contacts ==> others[c].samples == contacts[c].samples)
    ensures Held(contacts, n) == Held(others, n)
  {
    if n > 0 {
      HeldSame(contacts, others, n - 1);
    }
  }

  lemma AddBoth(a: multiset<SampleId>, b: multiset<SampleId>, c: multiset<SampleId>, d: multiset<SampleId>, x: multiset<SampleId>)
    requires a + b == c + d
    ensures a + x + b == c + x + d
  {
    forall id
      ensures (a + x + b)[id] == (c + x + d)[id]
    {
      assert (a + b)[id] == (c + d)[id];
    }
  }

  lemma {:induction false} HeldSet(contacts: map<ContactId, Contact>, k: ContactId, c: Contact, n: nat)
    requires k in contacts && 1 <= k <= n
    ensures Held(contacts[k := c], n) + Ids(contacts[k].samples) == Held(contacts, n) + Ids(c.samples)
  {
    hide Ids;
    var m := n - 1;
    if k == n {
      HeldSame(contacts, contacts[k := c], m);
    } else {
      HeldSet(contacts, k, c, m);
      var x := if n in contacts then Ids(contacts[n].samples) else multiset{};
      AddBoth(Held(contacts[k := c], m), Ids(contacts[k].samples), Held(contacts, m), Ids(c.samples), x);
    }
  }

  lemma {:induction false} HeldDrop(contacts: map<ContactId, Contact>, k: ContactId, n: nat)
    requires k in contacts && 1 <= k <= n
    ensures Held(contacts - {k}, n) + Ids(contacts[k].samples) == Held(contacts, n)
  {
    hide Ids;
    var m := n - 1;
    if k == n {
      HeldSame(contacts, contacts - {k}, m);
    } else {
      HeldDrop(contacts, k, m);
      var x := if n in contacts then Ids(contacts[n].samples) else multiset{};
      AddBoth(Held(contacts - {k}, m), Ids(contacts[k].samples), Held(contacts, m), multiset{}, x);
    }
  }

  lemma {:induction false} HeldIds(contacts: map<ContactId, Contact>, k: ContactId, n: nat)
    requires k in contacts && 1 <= k <= n
    ensures Ids(contacts[k].samples) <= Held(contacts, n)
  {
    hide Ids;
    if k < n {
      HeldIds(contacts, k, n - 1);
    }
  }

  lemma HeldPair(contacts: map<ContactId, Contact>, c: ContactId, d: ContactId, n: nat)
    requires c in contacts && d in contacts && c != d && 1 <= c <= n && 1 <= d <= n
    ensures Ids(contacts[c].samples) + Ids(contacts[d].samples) <= Held(contacts, n)
  {
    hide Ids, Held;
    HeldDrop(contacts, c, n);
    HeldIds(contacts - {c}, d, n);
  }

  /** No history has an ID twice, it shares none with the archive, and all its IDs are accepted. */
  lemma HistoryOnce(v: View, c: ContactId)
    requires Conserved(v) && MmsiUnique(v) && c in v.contacts
    ensures OnceEach(Ids(v.contacts[c].samples)) && OnceEach(Ids(v.contacts[c].samples) + Ids(v.archive))
    ensures forall id :: id in Ids(v.contacts[c].samples) ==> id in v.accepted
  {
    hide Ids, Held;
    HeldIds(v.contacts, c, v.counter);
    WithinKeys(Ids(v.contacts[c].samples) + Ids(v.archive), v.accepted.Keys);
    assert Ids(v.contacts[c].samples) <= Ids(v.contacts[c].samples) + Ids(v.archive);
    WithinKeys(Ids(v.contacts[c].samples), v.accepted.Keys);
  }

  /** Two histories share no ID. */
  lemma HistoriesApart(v: View, c: ContactId, d: ContactId)
    requires Conserved(v) && MmsiUnique(v) && c in v.contacts && d in v.contacts && c != d
    ensures OnceEach(Ids(v.contacts[c].samples) + Ids(v.contacts[d].samples))
  {
    hide Ids, Held;
    HeldPair(v.contacts, c, d, v.counter);
    WithinKeys(Ids(v.contacts[c].samples) + Ids(v.contacts[d].samples), v.accepted.Keys);
  }

  lemma WithinKeys(ids: multiset<SampleId>, keys: set<SampleId>)
    requires ids <= multiset(keys)
    ensures OnceEach(ids) && forall id :: id in ids ==> id in keys
  {
  }

  // ------------------------------------------------------------------ single steps

  lemma {:induction false} LatestFound(log: seq<Entry>, k: ContactId)
    requires Latest(log, k).Some?
    ensures exists i: nat :: i < |log| && log[i] == Latest(log, k).value && Concerns(log[i], k) && Silent(log, i, |log|, k)
  {
    var n := |log| - 1;
    if Concerns(log[n], k) {
      assert Silent(log, n, |log|, k);
    } else {
      LatestFound(log[..n], k);
      var i: nat :| i < n && log[..n][i] == Latest(log[..n], k).value && Concerns(log[..n][i], k) && Silent(log[..n], i, n, k);
      forall h: nat | i < h < |log|
        ensures !Concerns(log[h], k)
      {
        assert h < n ==> log[..n][h] == log[h];
      }
      assert log[i] == log[..n][i];
    }
  }

  lemma LatestNext(log: seq<Entry>, e: Entry, k: ContactId)
    ensures Latest(log + [e], k) == if Concerns(e, k) then Some(e) else Latest(log, k)
  {
    assert (log + [e])[..|log|] == log;
  }

  lemma MatchedTwiceStays(log: seq<Entry>, e: Entry, k: ContactId, m: Merge, gap: real)
    requires MatchedTwice(log, k, m, gap)
    ensures MatchedTwice(log + [e], k, m, gap)
  {
    var i: nat, j: nat :| i < j < |log| && log[i] == Matched(k, m.ais, m.first) && log[j] == Matched(k, m.ais, m.second)
                          && Silent(log, i, j, k);
    var longer := log + [e];
    assert longer[i] == log[i] && longer[j] == log[j];
    forall h: nat | i < h < j
      ensures !Concerns(longer[h], k)
    {
      assert longer[h] == log[h];
    }
    assert Silent(longer, i, j, k);
  }

  /** Contacts may be rewritten as long as each keeps its MMSI. */
  ghost predicate SameIdentity(v: View, w: View) {
    && w.contacts.Keys == v.contacts.Keys
    && (forall c :: c in v.contacts ==> w.contacts[c].id == c && w.contacts[c].mmsi == v.contacts[c].mmsi)
    && w.aliases == v.aliases && w.mmsi == v.mmsi && w.counter == v.counter
  }

  /** Everything but conservation and the association survives a rewrite of contacts. */
  lemma Rewritten(v: View, w: View, gap: real)
    requires Sound(v, gap) && SameIdentity(v, w)
    requires w.emitters == v.emitters || (forall e :: e in w.emitters ==> Known(w, w.emitters[e]))
    requires w.positions == v.positions || (forall p :: p in w.positions ==> Known(w, w.positions[p]))
    requires forall i :: i in w.accepted ==> Known(w, w.accepted[i])
    ensures AliasesEnd(w) && MmsiUnique(w) && References(w)
  {
    hide Conserved, Paired, MergesJustified;
  }

  /** The association does not look at histories. */
  lemma PairsStay(v: View, w: View, gap: real)
    requires Paired(v) && MergesJustified(v, gap) && SameIdentity(v, w) && w.log == v.log && w.pairs == v.pairs && w.merges == v.merges
    ensures Paired(w) && MergesJustified(w, gap)
  {
    hide Latest;
  }

  /** A contact is rewritten, and part of its history goes to the archive. */
  lemma Revised(v: View, c: Contact, dropped: seq<Sample>, gap: real)
    requires Sound(v, gap) && c.id in v.contacts && c.mmsi == v.contacts[c.id].mmsi
    requires Ids(c.samples) + Ids(dropped) == Ids(v.contacts[c.id].samples)
    ensures Sound(v.(contacts := v.contacts[c.id := c], archive := v.archive + dropped), gap)
    ensures Onward(v, v.(contacts := v.contacts[c.id := c], archive := v.archive + dropped))
  {
    hide Ids, Held, Latest, Paired, MergesJustified, References, AliasesEnd;
    var w := v.(contacts := v.contacts[c.id := c], archive := v.archive + dropped);
    assert SameIdentity(v, w);
    Rereferred(v, w);
    Rewritten(v, w, gap);
    PairsStay(v, w, gap);
    HeldSet(v.contacts, c.id, c, v.counter);
    IdsJoin(v.archive, dropped);
    Balance(Ids(v.archive), Ids(dropped), Held(w.contacts, w.counter), Ids(c.samples), Held(v.contacts, v.counter),
            Ids(v.contacts[c.id].samples), multiset{});
  }

  lemma Rereferred(v: View, w: View)
    requires References(v) && SameIdentity(v, w) && w.accepted == v.accepted
    ensures forall i :: i in w.accepted ==> Known(w, w.accepted[i])
  {
  }

  /** IDs moved from a history to the archive, and new ones. */
  lemma Balance(archive: multiset<SampleId>, dropped: multiset<SampleId>, after: multiset<SampleId>, kept: multiset<SampleId>,
                before: multiset<SampleId>, old0: multiset<SampleId>, more: multiset<SampleId>)
    requires after + old0 == before + kept && kept + dropped == old0 + more
    ensures archive + dropped + after == archive + before + more
  {
    forall id
      ensures (archive + dropped + after)[id] == (archive + before + more)[id]
    {
      assert (after + old0)[id] == (before + kept)[id];
      assert (kept + dropped)[id] == (old0 + more)[id];
    }
  }

  /** A new sample enters the history of a contact, and what the history drops the archive. */
  lemma Appended(v: View, c: Contact, s: Sample, dropped: seq<Sample>, gap: real)
    requires Sound(v, gap) && c.id in v.contacts && c.mmsi == v.contacts[c.id].mmsi && s.id !in v.accepted
    requires Ids(c.samples) + Ids(dropped) == Ids(v.contacts[c.id].samples) + multiset{s.id}
    ensures var w := v.(contacts := v.contacts[c.id := c], archive := v.archive + dropped, accepted := v.accepted[s.id := c.id]);
            Sound(w, gap) && Onward(v, w)
  {
    hide Ids, Held, Latest, Paired, MergesJustified, References, AliasesEnd;
    var w := v.(contacts := v.contacts[c.id := c], archive := v.archive + dropped, accepted := v.accepted[s.id := c.id]);
    assert SameIdentity(v, w);
    Referred(v, w, s.id, c.id);
    Rewritten(v, w, gap);
    PairsStay(v, w, gap);
    HeldSet(v.contacts, c.id, c, v.counter);
    IdsJoin(v.archive, dropped);
    Balance(Ids(v.archive), Ids(dropped), Held(w.contacts, w.counter), Ids(c.samples), Held(v.contacts, v.counter),
            Ids(v.contacts[c.id].samples), multiset{s.id});
    OneMoreKey(v.accepted, s.id, c.id);
  }

  lemma Referred(v: View, w: View, i: SampleId, k: ContactId)
    requires References(v) && SameIdentity(v, w) && w.accepted == v.accepted[i := k] && Known(w, k)
    ensures forall i :: i in w.accepted ==> Known(w, w.accepted[i])
  {
  }

  lemma OneMoreKey(accepted: map<SampleId, ContactId>, i: SampleId, k: ContactId)
    requires i !in accepted
    ensures multiset(accepted[i := k].Keys) == multiset(accepted.Keys) + multiset{i}
  {
    assert accepted[i := k].Keys == accepted.Keys + {i};
  }

  /** A sample too old for any history goes to the archive at once. */
  lemma Archived(v: View, s: Sample, k: ContactId, gap: real)
    requires Sound(v, gap) && s.id !in v.accepted && Known(v, k)
    ensures var w := v.(archive := v.archive + [s], accepted := v.accepted[s.id := k]);
            Sound(w, gap) && Onward(v, w)
  {
    hide Ids, Held, Latest, Paired, MergesJustified, References, AliasesEnd;
    var w := v.(archive := v.archive + [s], accepted := v.accepted[s.id := k]);
    assert MmsiUnique(v);
    assert SameIdentity(v, w);
    Referred(v, w, s.id, k);
    Rewritten(v, w, gap);
    PairsStay(v, w, gap);
    IdsJoin(v.archive, [s]);
    OneId(s);
    OneMoreKey(v.accepted, s.id, k);
    assert Ids(v.archive) + multiset{s.id} + Held(v.contacts, v.counter) == Ids(v.archive) + Held(v.contacts, v.counter) + multiset{s.id};
  }

  /** A contact for something new. */
  lemma Created(v: View, c: Contact, gap: real)
    requires Sound(v, gap) && c.id == v.counter + 1 && c.samples == [] && (c.mmsi.Some? ==> c.mmsi.value !in v.mmsi)
    ensures var w := v.(contacts := v.contacts[c.id := c], counter := c.id,
                        mmsi := if c.mmsi.Some? then v.mmsi[c.mmsi.value := c.id] else v.mmsi);
            Sound(w, gap) && Onward(v, w) && c.id !in v.contacts
  {
    hide Ids, Held, Latest, Paired, MergesJustified, Conserved, AliasesEnd, MmsiUnique, References, Onward;
    var w := v.(contacts := v.contacts[c.id := c], counter := c.id,
                mmsi := if c.mmsi.Some? then v.mmsi[c.mmsi.value := c.id] else v.mmsi);
    CreatedIdentity(v, w, c);
    CreatedPairs(v, w, c, gap);
    CreatedConserves(v, w, c);
  }

  lemma CreatedIdentity(v: View, w: View, c: Contact)
    requires AliasesEnd(v) && MmsiUnique(v) && References(v) && c.id == v.counter + 1 && (c.mmsi.Some? ==> c.mmsi.value !in v.mmsi)
    requires w == v.(contacts := v.contacts[c.id := c], counter := c.id,
                     mmsi := if c.mmsi.Some? then v.mmsi[c.mmsi.value := c.id] else v.mmsi)
    ensures AliasesEnd(w) && MmsiUnique(w) && References(w) && Onward(v, w) && c.id !in v.contacts
  {
    hide AliasesEnd, MmsiUnique, References, Onward;
    CreatedAliases(v, w, c);
    CreatedMmsi(v, w, c);
    CreatedOnward(v, w, c);
  }

  lemma CreatedAliases(v: View, w: View, c: Contact)
    requires AliasesEnd(v) && MmsiUnique(v) && c.id == v.counter + 1
    requires w.contacts == v.contacts[c.id := c] && w.aliases == v.aliases && w.counter == c.id
    ensures AliasesEnd(w) && c.id !in v.contacts
  {
  }

  lemma CreatedMmsi(v: View, w: View, c: Contact)
    requires MmsiUnique(v) && c.id == v.counter + 1 && (c.mmsi.Some? ==> c.mmsi.value !in v.mmsi)
    requires w.contacts == v.contacts[c.id := c] && w.counter == c.id
    requires w.mmsi == if c.mmsi.Some? then v.mmsi[c.mmsi.value := c.id] else v.mmsi
    ensures MmsiUnique(w)
  {
  }

  lemma CreatedOnward(v: View, w: View, c: Contact)
    requires References(v) && c.id == v.counter + 1 && c.id !in v.contacts && (c.mmsi.Some? ==> c.mmsi.value !in v.mmsi)
    requires w == v.(contacts := v.contacts[c.id := c], counter := c.id,
                     mmsi := if c.mmsi.Some? then v.mmsi[c.mmsi.value := c.id] else v.mmsi)
    ensures References(w) && Onward(v, w)
  {
  }

  lemma CreatedPairs(v: View, w: View, c: Contact, gap: real)
    requires Paired(v) && MergesJustified(v, gap) && c.id == v.counter + 1 && c.id !in v.contacts
    requires w.contacts == v.contacts[c.id := c] && w.pairs == v.pairs && w.log == v.log && w.counter == c.id
    requires w.aliases == v.aliases && w.merges == v.merges
    ensures Paired(w) && MergesJustified(w, gap)
  {
    hide Latest;
    if IsMatched(Latest(v.log, c.id)) {
      LatestFound(v.log, c.id);
    }
  }

  lemma CreatedConserves(v: View, w: View, c: Contact)
    requires Conserved(v) && MmsiUnique(v) && c.id == v.counter + 1 && c.samples == []
    requires w.contacts == v.contacts[c.id := c] && w.counter == c.id && w.archive == v.archive && w.accepted == v.accepted
    ensures Conserved(w)
  {
    hide Ids;
    Empty();
    HeldSame(v.contacts, w.contacts, v.counter);
  }

  /** Matches of some contacts end. */
  lemma PairsBroken(v: View, ks: set<ContactId>, gap: real)
    requires Sound(v, gap)
    ensures var w := v.(pairs := v.pairs - ks, log := v.log + [Broken(ks)]);
            Sound(w, gap) && Onward(v, w)
  {
    hide Ids, Held, Latest, Conserved, AliasesEnd, MmsiUnique, References;
    var w := v.(pairs := v.pairs - ks, log := v.log + [Broken(ks)]);
    LoggedPairs(v, w, Broken(ks), gap);
    SameKnowledge(v, w);
  }

  /** A match begins, or begins again. */
  lemma PairMatched(v: View, k: ContactId, a: ContactId, at: real, gap: real)
    requires Sound(v, gap) && k in v.contacts && a in v.contacts && v.contacts[k].mmsi.None? && v.contacts[a].mmsi.Some?
    ensures var w := v.(pairs := v.pairs[k := Pairing(a, 1, at)], log := v.log + [Matched(k, a, at)]);
            Sound(w, gap) && Onward(v, w)
  {
    hide Ids, Held, Latest, Conserved, AliasesEnd, References;
    var w := v.(pairs := v.pairs[k := Pairing(a, 1, at)], log := v.log + [Matched(k, a, at)]);
    LoggedPairs(v, w, Matched(k, a, at), gap);
    SameKnowledge(v, w);
  }

  lemma SameKnowledge(v: View, w: View)
    requires w == v.(pairs := w.pairs, log := w.log, merges := w.merges)
    ensures AliasesEnd(v) ==> AliasesEnd(w)
    ensures MmsiUnique(v) ==> MmsiUnique(w)
    ensures References(v) ==> References(w)
    ensures Conserved(v) ==> Conserved(w)
  {
  }

  /** One more entry in the log, with the pairs it leaves. */
  lemma LoggedPairs(v: View, w: View, e: Entry, gap: real)
    requires Paired(v) && MergesJustified(v, gap) && w == v.(pairs := w.pairs, log := v.log + [e])
    requires forall k :: k in w.pairs && !Concerns(e, k) ==> k in v.pairs && w.pairs[k] == v.pairs[k]
    requires forall k :: k in v.pairs && !Concerns(e, k) ==> k in w.pairs
    requires forall k :: k in w.pairs && Concerns(e, k) ==>
               k in v.contacts && v.contacts[k].mmsi.None? && w.pairs[k].contact in v.contacts
               && v.contacts[w.pairs[k].contact].mmsi.Some? && w.pairs[k].count == 1 && e == Matched(k, w.pairs[k].contact, w.pairs[k].at)
    requires e.Matched? ==> e.visual in w.pairs && e.visual <= v.counter
    ensures Paired(w) && MergesJustified(w, gap)
  {
    hide Latest, MatchedTwice;
    forall k
      ensures Latest(w.log, k) == if Concerns(e, k) then Some(e) else Latest(v.log, k)
    {
      LatestNext(v.log, e, k);
    }
    forall k | k in w.merges
      ensures MatchedTwice(w.log, k, w.merges[k], gap)
    {
      MatchedTwiceStays(v.log, e, k, v.merges[k], gap);
    }
  }

  // --------------------------------------------------------------------------- merging

  /** The view after `k` has been merged into `a`. */
  ghost function Merging(v: View, k: ContactId, a: ContactId, merged: Contact, dropped: seq<Sample>, at: real): View
    requires k in v.pairs
  {
    v.(contacts := v.contacts[a := merged] - {k}, aliases := v.aliases[k := a], pairs := v.pairs - {k},
       archive := v.archive + dropped, log := v.log + [Matched(k, a, at)],
       merges := v.merges[k := Merge(a, v.pairs[k].at, at)])
  }

  ghost predicate MayMerge(v: View, k: ContactId, a: ContactId, merged: Contact, at: real, gap: real) {
    && k in v.pairs && v.pairs[k].contact == a && v.pairs[k].at < at && at - v.pairs[k].at <= gap
    && k in v.contacts && a in v.contacts && merged.id == a && merged.mmsi == v.contacts[a].mmsi
  }

  /** The second match of a pair in time merges it. */
  lemma PairMerged(v: View, k: ContactId, a: ContactId, merged: Contact, dropped: seq<Sample>, at: real, gap: real)
    requires Sound(v, gap) && MayMerge(v, k, a, merged, at, gap)
    requires Ids(merged.samples) + Ids(dropped) == Ids(v.contacts[a].samples) + Ids(v.contacts[k].samples)
    ensures Sound(Merging(v, k, a, merged, dropped, at), gap) && Onward(v, Merging(v, k, a, merged, dropped, at))
  {
    hide Ids, Held, Latest, Conserved, Paired, MergesJustified, AliasesEnd, MmsiUnique, References, Merging, Onward;
    var w := Merging(v, k, a, merged, dropped, at);
    MergedIdentity(v, w, k, a, merged, dropped, at, gap);
    MergedConserves(v, w, k, a, merged, dropped, at, gap);
    MergedPairs(v, w, k, a, merged, dropped, at, gap);
    MergedJustified(v, w, k, a, merged, dropped, at, gap);
  }

  lemma MergedIdentity(v: View, w: View, k: ContactId, a: ContactId, merged: Contact, dropped: seq<Sample>, at: real, gap: real)
    requires AliasesEnd(v) && MmsiUnique(v) && References(v) && Paired(v) && MayMerge(v, k, a, merged, at, gap)
    requires w == Merging(v, k, a, merged, dropped, at)
    ensures AliasesEnd(w) && MmsiUnique(w) && References(w) && Onward(v, w)
  {
    hide Latest, AliasesEnd, MmsiUnique, References, Onward;
    assert PairingFits(v, k);
    MergedAliases(v, w, k, a, merged);
    MergedMmsi(v, w, k, a, merged);
    MergedReferences(v, w, k, a, merged);
    MergedOnward(v, w, k, a, merged);
  }

  lemma MergedAliases(v: View, w: View, k: ContactId, a: ContactId, merged: Contact)
    requires AliasesEnd(v) && MmsiUnique(v) && k in v.contacts && a in v.contacts && k != a
    requires v.contacts[k].mmsi.None? && merged.mmsi == v.contacts[a].mmsi && merged.mmsi.Some?
    requires w.contacts == v.contacts[a := merged] - {k} && w.aliases == v.aliases[k := a] && w.counter == v.counter
    ensures AliasesEnd(w)
  {
  }

  lemma MergedMmsi(v: View, w: View, k: ContactId, a: ContactId, merged: Contact)
    requires MmsiUnique(v) && k in v.contacts && a in v.contacts && k != a
    requires v.contacts[k].mmsi.None? && merged.id == a && merged.mmsi == v.contacts[a].mmsi
    requires w.contacts == v.contacts[a := merged] - {k} && w.mmsi == v.mmsi && w.counter == v.counter
    ensures MmsiUnique(w)
  {
  }

  lemma MergedReferences(v: View, w: View, k: ContactId, a: ContactId, merged: Contact)
    requires References(v) && k in v.contacts && a in v.contacts
    requires w.contacts == v.contacts[a := merged] - {k} && w.aliases == v.aliases[k := a]
    requires w.accepted == v.accepted && w.emitters == v.emitters && w.positions == v.positions
    ensures References(w)
  {
    assert forall id :: Known(v, id) ==> Known(w, id);
  }

  lemma MergedOnward(v: View, w: View, k: ContactId, a: ContactId, merged: Contact)
    requires AliasesEnd(v) && k in v.contacts && v.contacts[k].mmsi.None?
    requires a in v.contacts && merged.mmsi == v.contacts[a].mmsi
    requires w.contacts == v.contacts[a := merged] - {k} && w.aliases == v.aliases[k := a]
    requires w.mmsi == v.mmsi && w.accepted == v.accepted && v.archive <= w.archive && v.log <= w.log
    requires w.now == v.now && w.counter == v.counter
    ensures Onward(v, w)
  {
  }

  lemma MergedConserves(v: View, w: View, k: ContactId, a: ContactId, merged: Contact, dropped: seq<Sample>, at: real, gap: real)
    requires Conserved(v) && MmsiUnique(v) && Paired(v) && MayMerge(v, k, a, merged, at, gap)
    requires w == Merging(v, k, a, merged, dropped, at)
    requires Ids(merged.samples) + Ids(dropped) == Ids(v.contacts[a].samples) + Ids(v.contacts[k].samples)
    ensures Conserved(w)
  {
    hide Ids, Held, Latest;
    assert PairingFits(v, k);
    var middle := v.contacts[a := merged];
    HeldSet(v.contacts, a, merged, v.counter);
    HeldDrop(middle, k, v.counter);
    IdsJoin(v.archive, dropped);
    MergeBalance(Ids(v.archive), Ids(dropped), Held(w.contacts, v.counter), Held(middle, v.counter), Held(v.contacts, v.counter),
                 Ids(merged.samples), Ids(v.contacts[a].samples), Ids(v.contacts[k].samples));
  }

  lemma MergeBalance(archive: multiset<SampleId>, dropped: multiset<SampleId>, after: multiset<SampleId>, middle: multiset<SampleId>,
                     before: multiset<SampleId>, kept: multiset<SampleId>, a: multiset<SampleId>, k: multiset<SampleId>)
    requires after + k == middle && middle + a == before + kept && kept + dropped == a + k
    ensures archive + dropped + after == archive + before
  {
    forall id
      ensures (archive + dropped + after)[id] == (archive + before)[id]
    {
      assert (after + k)[id] == middle[id] && (middle + a)[id] == (before + kept)[id];
      assert (kept + dropped)[id] == (a + k)[id];
    }
  }

  lemma MergedPairs(v: View, w: View, k: ContactId, a: ContactId, merged: Contact, dropped: seq<Sample>, at: real, gap: real)
    requires MmsiUnique(v) && Paired(v) && MayMerge(v, k, a, merged, at, gap)
    requires w == Merging(v, k, a, merged, dropped, at)
    ensures Paired(w)
  {
    hide Latest;
    assert PairingFits(v, k);
    forall x
      ensures Latest(w.log, x) == if x == k then Some(Matched(k, a, at)) else Latest(v.log, x)
    {
      LatestNext(v.log, Matched(k, a, at), x);
    }
    forall x | x in w.pairs
      ensures x in w.contacts && PairingFits(w, x)
    {
      assert PairingFits(v, x);
    }
  }

  lemma MergedJustified(v: View, w: View, k: ContactId, a: ContactId, merged: Contact, dropped: seq<Sample>, at: real, gap: real)
    requires Paired(v) && MergesJustified(v, gap) && MayMerge(v, k, a, merged, at, gap)
    requires w == Merging(v, k, a, merged, dropped, at)
    ensures MergesJustified(w, gap)
  {
    hide Latest, MatchedTwice, Paired;
    forall x | x in w.merges
      ensures MatchedTwice(w.log, x, w.merges[x], gap)
    {
      if x == k {
        SecondMatch(v, k, a, at, gap);
      } else {
        MatchedTwiceStays(v.log, Matched(k, a, at), x, v.merges[x], gap);
      }
    }
  }

  lemma SecondMatch(v: View, k: ContactId, a: ContactId, at: real, gap: real)
    requires Paired(v) && k in v.pairs && v.pairs[k].contact == a && v.pairs[k].at < at && at - v.pairs[k].at <= gap
    ensures MatchedTwice(v.log + [Matched(k, a, at)], k, Merge(a, v.pairs[k].at, at), gap)
  {
    hide Latest;
    assert PairingFits(v, k);
    LatestFound(v.log, k);
    var n := |v.log|;
    var i: nat :| i < n && v.log[i] == Matched(k, a, v.pairs[k].at) && Silent(v.log, i, n, k);
    var longer := v.log + [Matched(k, a, at)];
    assert longer[i] == v.log[i] && longer[n] == Matched(k, a, at);
    forall h: nat | i < h < n
      ensures !Concerns(longer[h], k)
    {
      assert longer[h] == v.log[h];
    }
    assert Silent(longer, i, n, k);
  }

  // ----------------------------------------------------------------------- exclusivity

  /** Rewriting one contact keeps reservations exclusive if its own is not taken, or is the old one. */
  lemma OrderlyRevised(v: View, w: View, c: Contact)
    requires Orderly(v) && c.id in v.contacts && w.contacts == v.contacts[c.id := c]
    requires c.uav.None? || c.uav == v.contacts[c.id].uav
    requires c.revision > 0 || (c.uav.None? && c.probe.None? && c.state == Lost)
    ensures Orderly(w)
  {
  }

  /** Merging two contacts leaves the UAV of at most one of them reserved. */
  lemma OrderlyMerged(v: View, w: View, k: ContactId, a: ContactId, merged: Contact)
    requires Orderly(v) && k in v.contacts && a in v.contacts && k != a && w.contacts == v.contacts[a := merged] - {k}
    requires merged.uav.None? || merged.uav == v.contacts[a].uav || merged.uav == v.contacts[k].uav
    requires merged.revision > 0
    ensures Orderly(w)
  {
  }

  /** Time goes on. */
  lemma TimePasses(v: View, t: real, gap: real)
    requires Sound(v, gap) && v.now <= t
    ensures Sound(v.(now := t), gap) && Onward(v, v.(now := t)) && (Orderly(v) ==> Orderly(v.(now := t)))
  {
  }

  /** A signal track gets a contact, and a position is remembered. */
  lemma TrackFollowed(v: View, emitters: map<string, ContactId>, positions: map<string, ContactId>, gap: real)
    requires Sound(v, gap) && (forall e :: e in emitters ==> Known(v, emitters[e])) && (forall p :: p in positions ==> Known(v, positions[p]))
    ensures var w := v.(emitters := emitters, positions := positions);
            Sound(w, gap) && Onward(v, w) && (Orderly(v) ==> Orderly(w))
  {
  }

  lemma SoundReferences(v: View, gap: real)
    requires Sound(v, gap)
    ensures forall i :: i in v.accepted ==> Known(v, v.accepted[i])
    ensures forall e :: e in v.emitters ==> Known(v, v.emitters[e])
    ensures forall p :: p in v.positions ==> Known(v, v.positions[p])
  {
  }

  /** An MMSI leads straight to its contact. */
  lemma MmsiContact(v: View, m: string, gap: real)
    requires Sound(v, gap) && m in v.mmsi
    ensures v.mmsi[m] in v.contacts && v.mmsi[m] !in v.aliases && v.contacts[v.mmsi[m]].mmsi == Some(m)
  {
  }

  // ---------------------------------------------------------------- what this amounts to

  ghost predicate InHistory(v: View, c: ContactId, id: SampleId) { c in v.contacts && id in Ids(v.contacts[c].samples) }

  lemma {:induction false} HeldSomewhere(contacts: map<ContactId, Contact>, n: nat, id: SampleId)
    requires id in Held(contacts, n)
    ensures exists c :: 1 <= c <= n && c in contacts && id in Ids(contacts[c].samples)
  {
    hide Ids;
    if id in Held(contacts, n - 1) {
      HeldSomewhere(contacts, n - 1, id);
    } else {
      assert n in contacts && id in Ids(contacts[n].samples);
    }
  }

  /** An accepted sample is in the archive once and in no history, or not in the archive and once in
      the history of exactly one contact; a sample not accepted is nowhere. */
  lemma AcceptedOnce(v: View, id: SampleId, gap: real)
    requires Sound(v, gap)
    ensures id in v.accepted <==> id in Ids(v.archive) || exists c :: InHistory(v, c, id)
    ensures forall c :: InHistory(v, c, id) ==> Ids(v.contacts[c].samples)[id] == 1 && id !in Ids(v.archive)
    ensures forall c, d :: InHistory(v, c, id) && InHistory(v, d, id) ==> c == d
    ensures Ids(v.archive)[id] <= 1
  {
    hide Ids, Held, Paired, MergesJustified, References, AliasesEnd;
    assert (Ids(v.archive) + Held(v.contacts, v.counter))[id] == multiset(v.accepted.Keys)[id];
    if id in Held(v.contacts, v.counter) {
      HeldSomewhere(v.contacts, v.counter, id);
      var c :| 1 <= c <= v.counter && c in v.contacts && id in Ids(v.contacts[c].samples);
      assert InHistory(v, c, id);
    }
    forall c | InHistory(v, c, id)
      ensures Ids(v.contacts[c].samples)[id] == 1 && id !in Ids(v.archive) && id in v.accepted
    {
      HistoryOnce(v, c);
      assert (Ids(v.contacts[c].samples) + Ids(v.archive))[id] <= 1;
    }
    forall c, d | InHistory(v, c, id) && InHistory(v, d, id)
      ensures c == d
    {
      if c != d {
        HistoriesApart(v, c, d);
        assert (Ids(v.contacts[c].samples) + Ids(v.contacts[d].samples))[id] <= 1;
      }
    }
  }

  /** Following aliases ends after one step at a contact, from any ID ever given to a contact. */
  lemma AliasDepth(v: View, k: ContactId, gap: real)
    requires Sound(v, gap) && k in v.aliases
    ensures v.aliases[k] in v.contacts && v.aliases[k] !in v.aliases && k !in v.contacts
    ensures v.contacts[v.aliases[k]].mmsi.Some?
    ensures exists first: real, second: real :: first < second <= first + gap
              && Matched(k, v.aliases[k], first) in v.log && Matched(k, v.aliases[k], second) in v.log
  {
    hide Conserved, Paired, References, Latest;
    var m := v.merges[k];
    assert MatchedTwice(v.log, k, m, gap);
    assert m.first < m.second <= m.first + gap;
  }

  /** An MMSI has one contact. */
  lemma MmsiExclusive(v: View, c: ContactId, d: ContactId, gap: real)
    requires Sound(v, gap) && c in v.contacts && d in v.contacts
    requires v.contacts[c].mmsi.Some? && v.contacts[c].mmsi == v.contacts[d].mmsi
    ensures c == d
  {
    hide Conserved, Paired, MergesJustified, References;
  }
}
