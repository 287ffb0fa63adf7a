/** Operator feedback on its way into a running session, over a channel that loses and repeats.

    The broker keeps what it has not seen acknowledged; the worker keeps what it has
    delivered but not seen confirmed.  Each heartbeat carries the acknowledgements one way
    and the pending feedback the other.  Requests may be lost, processed late or more than
    once, and replies may be lost.
  */
module FeedbackProtocol {

  import opened Finite
  import opened AgentQueue
  import opened Broker

  // ------------------------------------------------------------------ the worker side

  datatype Inbox = Inbox(delivered: set<nat>, pending: set<nat>, session: seq<nat>)

  /** Hand the items over one by one; the session takes `budget` of them and then fails. */
  function Delivered(inbox: Inbox, items: seq<Item>, budget: nat): Inbox
    decreases |items|
  {
    if items == [] then inbox
    else if items[0].id in inbox.delivered then Delivered(inbox, items[1..], budget)
    else if budget == 0 then inbox
    else
      var id := items[0].id;
      Delivered(Inbox(inbox.delivered + {id}, inbox.pending + {id}, inbox.session + [id]), items[1..], budget - 1)
  }

  /** The worker's record of one run: what reached the session, and what is still to be acknowledged. */
  class FeedbackDelivery {
    var delivered: set<nat>
    var pending: set<nat>
    ghost var session: seq<nat>

    ghost function View(): Inbox
      reads this
    {
      Inbox(delivered, pending, session)
    }

    constructor ()
      ensures View() == Inbox({}, {}, [])
    {
      delivered, pending, session := {}, {}, [];
    }

    method Deliver(items: seq<Item>, budget: nat) returns (ok: bool)
      modifies this
      ensures View() == Delivered(old(View()), items, budget)
      ensures ok ==> forall x :: x in items ==> x.id in delivered
    {
      ghost var start := View();
      var left := budget;
      for i := 0 to |items|
        invariant Delivered(View(), items[i..], left) == Delivered(start, items, budget)
        invariant forall k :: 0 <= k < i ==> items[k].id in delivered
      {
        var id := items[i].id;
        assert items[i..][1..] == items[i + 1..];
        if id !in delivered {
          if left == 0 {
            return false;
          }
          left := left - 1;
          delivered := delivered + {id};
          pending := pending + {id};
          session := session + [id];
        }
      }
      return true;
    }

    method AcknowledgedIds() returns (ids: set<nat>)
      ensures ids == pending
    {
      ids := pending;
    }

    method ConfirmAcknowledged(ids: set<nat>)
      modifies this`pending
      ensures pending == old(pending) - ids
    {
      pending := pending - ids;
    }
  }

  // ------------------------------------------------------------------------ the wire

  /** One run: the broker's job, all feedback that ever arrived for it, every acknowledgement ever
      sent, the heartbeat under way and its reply, and the worker's inbox. */
  datatype Wire = Wire(job: Job, arrived: seq<Item>, sent: set<set<nat>>, outstanding: Option<set<nat>>,
                       reply: Option<seq<Item>>, inbox: Inbox)

  datatype Event =
    | Arrive(item: Item)
    | Send
    | Process(ids: set<nat>)
    | Receive(streaming: bool, budget: nat)
    | Lose

  ghost function Ids(items: seq<Item>): set<nat> {
    set x | x in items :: x.id
  }

  ghost predicate Moves(w: Wire, e: Event, w': Wire) {
    match e
    case Arrive(item) =>
      item.id !in Ids(w.arrived) && |w.job.feedback| + |w.job.accepted| < MAX_FEEDBACK_PER_RUN
      && w' == w.(job := w.job.(feedback := w.job.feedback + [item]), arrived := w.arrived + [item])
    case Send =>
      w.outstanding.None? && w' == w.(outstanding := Some(w.inbox.pending), sent := w.sent + {w.inbox.pending}, reply := None)
    // A request that was sent may be processed at any later time, any number of times.
    case Process(ids) =>
      ids in w.sent
      && var job := Acknowledged(w.job, ids);
         w' == w.(job := job, reply := if w.outstanding == Some(ids) then Some(job.feedback) else w.reply)
    // The reply confirms what was acknowledged; feedback is delivered only into a streaming session.
    case Receive(streaming, budget) =>
      w.outstanding.Some? && w.reply.Some?
      && var confirmed := w.inbox.(pending := w.inbox.pending - w.outstanding.value);
         w' == w.(outstanding := None, reply := None,
                  inbox := if streaming then Delivered(confirmed, w.reply.value, budget) else confirmed)
    case Lose => w' == w.(outstanding := None, reply := None)
  }

  ghost predicate Start(w: Wire) {
    && w.job.feedback == [] && w.job.accepted == [] && w.arrived == [] && w.sent == {}
    && w.outstanding == None && w.reply == None && w.inbox == Inbox({}, {}, [])
  }

  ghost predicate DistinctIds(items: seq<Item>) {
    forall i, j :: 0 <= i < j < |items| ==> items[i].id != items[j].id
  }

  ghost predicate InboxOk(inbox: Inbox, arrived: seq<Item>) {
    && inbox.pending <= inbox.delivered <= Ids(arrived)
    && Distinct(inbox.session) && forall id :: id in inbox.session <==> id in inbox.delivered
  }

  ghost predicate Good(w: Wire) {
    && DistinctIds(w.arrived)
    && w.job.feedback == Keep(w.arrived, Ids(w.job.accepted), false)
    && multiset(w.job.feedback) + multiset(w.job.accepted) == multiset(w.arrived)
    && InboxOk(w.inbox, w.arrived)
    && (forall ids :: ids in w.sent ==> ids <= w.inbox.delivered)
    && Ids(w.job.accepted) <= w.inbox.delivered
    && w.inbox.delivered - w.inbox.pending <= Ids(w.job.accepted)
    && (w.outstanding.Some? ==> w.outstanding.value in w.sent && w.outstanding.value == w.inbox.pending)
    && (w.outstanding.Some? && w.reply.Some? ==> w.outstanding.value <= Ids(w.job.accepted))
    && (w.reply.Some? ==> Ids(w.reply.value) <= Ids(w.arrived))
  }

  // ------------------------------------------------------------------ keeping and moving

  lemma {:induction false} KeepSplits(items: seq<Item>, ids: set<nat>)
    ensures multiset(Keep(items, ids, true)) + multiset(Keep(items, ids, false)) == multiset(items)
  {
    if items != [] {
      assert items == [items[0]] + items[1..];
      KeepSplits(items[1..], ids);
    }
  }

  lemma {:induction false} KeepTwice(items: seq<Item>, a: set<nat>, b: set<nat>)
    ensures Keep(Keep(items, a, false), b, false) == Keep(items, a + b, false)
  {
    if items != [] {
      KeepTwice(items[1..], a, b);
    }
  }

  lemma {:induction false} KeepSame(items: seq<Item>, a: set<nat>, b: set<nat>, accepted: bool)
    requires forall x :: x in items ==> (x.id in a <==> x.id in b)
    ensures Keep(items, a, accepted) == Keep(items, b, accepted)
  {
    if items != [] {
      KeepSame(items[1..], a, b, accepted);
    }
  }

  lemma {:induction false} KeepAppend(items: seq<Item>, item: Item, a: set<nat>)
    requires item.id !in a
    ensures Keep(items + [item], a, false) == Keep(items, a, false) + [item]
  {
    if items == [] {
    } else {
      assert (items + [item])[1..] == items[1..] + [item];
      KeepAppend(items[1..], item, a);
    }
  }

  /** Acknowledging keeps the order of what is left and loses nothing. */
  lemma AcknowledgeConserves(job: Job, arrived: seq<Item>, ids: set<nat>)
    requires job.feedback == Keep(arrived, Ids(job.accepted), false)
    requires multiset(job.feedback) + multiset(job.accepted) == multiset(arrived)
    ensures var job' := Acknowledged(job, ids);
            && job'.feedback == Keep(arrived, Ids(job'.accepted), false)
            && multiset(job'.feedback) + multiset(job'.accepted) == multiset(arrived)
            && Ids(job'.accepted) == Ids(job.accepted) + (ids * Ids(job.feedback))
  {
    var job' := Acknowledged(job, ids);
    var moved := Keep(job.feedback, ids, true);
    KeepSplits(job.feedback, ids);
    assert Ids(moved) == ids * Ids(job.feedback);
    assert Ids(job'.accepted) == Ids(job.accepted) + Ids(moved) by {
      assert forall x :: x in job'.accepted <==> x in job.accepted || x in moved;
    }
    KeepSame(job.feedback, ids, Ids(moved), false);
    KeepTwice(arrived, Ids(job.accepted), Ids(moved));
  }

  lemma {:induction false} DeliverKeeps(inbox: Inbox, items: seq<Item>, budget: nat, arrived: seq<Item>)
    requires InboxOk(inbox, arrived) && Ids(items) <= Ids(arrived)
    ensures var inbox' := Delivered(inbox, items, budget);
            && InboxOk(inbox', arrived) && inbox.delivered <= inbox'.delivered
            && inbox'.delivered - inbox'.pending == inbox.delivered - inbox.pending
            && inbox.session <= inbox'.session
    decreases |items|
  {
    if items != [] {
      assert items[0] in items && items[0].id in Ids(items);
      assert Ids(items[1..]) <= Ids(items);
      var id := items[0].id;
      if id in inbox.delivered {
        DeliverKeeps(inbox, items[1..], budget, arrived);
      } else if budget > 0 {
        DeliverKeeps(Inbox(inbox.delivered + {id}, inbox.pending + {id}, inbox.session + [id]), items[1..], budget - 1, arrived);
      }
    }
  }

  lemma ArriveGood(w: Wire, item: Item, w': Wire)
    requires Good(w) && Moves(w, Arrive(item), w')
    ensures Good(w')
  {
    assert forall x :: x in w'.arrived <==> x in w.arrived || x == item;
    assert Ids(w'.arrived) == Ids(w.arrived) + {item.id};
    KeepAppend(w.arrived, item, Ids(w.job.accepted));
  }

  lemma ProcessGood(w: Wire, ids: set<nat>, w': Wire)
    requires Good(w) && Moves(w, Process(ids), w')
    ensures Good(w')
  {
    AcknowledgeConserves(w.job, w.arrived, ids);
    ItemsAddUp(w.arrived, w.job);
    if w.outstanding == Some(ids) {
      forall id | id in ids
        ensures id in Ids(w'.job.accepted)
      {
        assert id in Ids(w.arrived);
      }
      ItemsAddUp(w.arrived, w'.job);
    }
  }

  /** Every item that arrived is pending or accepted. */
  lemma ItemsAddUp(arrived: seq<Item>, job: Job)
    requires multiset(job.feedback) + multiset(job.accepted) == multiset(arrived)
    ensures Ids(arrived) == Ids(job.feedback) + Ids(job.accepted)
  {
    forall x
      ensures x in arrived <==> x in job.feedback || x in job.accepted
    {
      assert x in arrived <==> x in multiset(arrived);
      assert x in job.feedback <==> x in multiset(job.feedback);
      assert x in job.accepted <==> x in multiset(job.accepted);
    }
  }

  lemma ReceiveGood(w: Wire, streaming: bool, budget: nat, w': Wire)
    requires Good(w) && Moves(w, Receive(streaming, budget), w')
    ensures Good(w')
  {
    var confirmed := w.inbox.(pending := w.inbox.pending - w.outstanding.value);
    if streaming {
      DeliverKeeps(confirmed, w.reply.value, budget, w.arrived);
    }
  }

  lemma MoveGood(w: Wire, e: Event, w': Wire)
    requires Good(w) && Moves(w, e, w')
    ensures Good(w')
  {
    match e
    case Arrive(item) => ArriveGood(w, item, w');
    case Send =>
    case Process(ids) => ProcessGood(w, ids, w');
    case Receive(streaming, budget) => ReceiveGood(w, streaming, budget, w');
    case Lose =>
  }

  ghost predicate IsHistory(states: seq<Wire>, events: seq<Event>) {
    && |states| == |events| + 1 && Start(states[0])
    && forall i: nat :: i < |events| ==> Moves(states[i], events[i], states[i + 1])
  }

  lemma {:induction false} HistoryGood(states: seq<Wire>, events: seq<Event>, i: nat)
    requires IsHistory(states, events) && i < |states|
    ensures Good(states[i])
  {
    if i > 0 {
      HistoryGood(states, events, i - 1);
      MoveGood(states[i - 1], events[i - 1], states[i]);
    }
  }

  /** Whatever is lost or repeated: nothing reaches the session twice, what is accepted was delivered,
      and every item that arrived is pending or accepted, exactly once. */
  lemma FeedbackSafety(states: seq<Wire>, events: seq<Event>, i: nat)
    requires IsHistory(states, events) && i < |states|
    ensures Distinct(states[i].inbox.session)
    ensures forall x :: x in states[i].job.accepted ==> x.id in states[i].inbox.session
    ensures multiset(states[i].job.feedback) + multiset(states[i].job.accepted) == multiset(states[i].arrived)
    ensures DistinctIds(states[i].arrived)
  {
    HistoryGood(states, events, i);
    var w := states[i];
    forall x | x in w.job.accepted
      ensures x.id in w.inbox.session
    {
      assert x.id in Ids(w.job.accepted);
    }
  }

  /** Only an answered heartbeat changes what the worker keeps. */
  lemma {:induction false} InboxHeld(states: seq<Wire>, events: seq<Event>, i: nat, n: nat)
    requires IsHistory(states, events) && i <= n < |states|
    requires forall k :: i <= k < n ==> !events[k].Receive?
    ensures states[n].inbox == states[i].inbox
  {
    if i < n {
      InboxHeld(states, events, i, n - 1);
      assert !events[n - 1].Receive? && Moves(states[n - 1], events[n - 1], states[n - 1 + 1]);
    }
  }

  /** The last answered heartbeat found the session idle.  Whatever was lost, repeated, or arrived
      before, in between or after, from its answer on nothing is left to acknowledge. */
  lemma FinalHeartbeat(states: seq<Wire>, events: seq<Event>, j: nat, n: nat)
    requires IsHistory(states, events) && j < n < |states|
    requires events[j].Receive? && !events[j].streaming
    requires forall k :: j < k < n ==> !events[k].Receive?
    ensures states[n].inbox.pending == {}
  {
    HistoryGood(states, events, j);
    assert Moves(states[j], events[j], states[j + 1]);
    InboxHeld(states, events, j + 1, n);
  }

  /** With nothing left to acknowledge, a successful run requeues exactly the feedback that never
      reached the session, and a failed one requeues all of it; both in order. */
  lemma CompletionRequeues(w: Wire)
    requires Good(w) && w.inbox.pending == {}
    ensures Remaining(w.job, false) == Keep(w.arrived, w.inbox.delivered, false)
    ensures multiset(Remaining(w.job, true)) == multiset(w.arrived)
    ensures Remaining(w.job, true) == w.job.accepted + Keep(w.arrived, w.inbox.delivered, false)
  {
    assert Ids(w.job.accepted) == w.inbox.delivered;
    KeepSame(w.arrived, Ids(w.job.accepted), w.inbox.delivered, false);
  }

  ghost predicate IsRetry(q: Queue, r: RunId, item: Item, episode: string) {
    r in q.jobs && q.jobs[r] == NewJob(OPERATOR, "feedback", item.text, episode)
  }

  /** Requeueing makes one new operator job per item, numbered and ordered like the items. */
  lemma {:induction false} RequeuedJobs(q: Queue, items: seq<Item>, episode: string)
    requires forall r :: r in q.jobs ==> r < q.next
    ensures var q' := Requeued(q, items, episode);
            && q'.next == q.next + |items|
            && (forall r :: r in q.jobs ==> r in q'.jobs && q'.jobs[r] == q.jobs[r])
            && forall i: nat :: i < |items| ==> IsRetry(q', q.next + i, items[i], episode)
    decreases |items|
  {
    if items != [] {
      var q1 := Enqueued(q, OPERATOR, "feedback", items[0].text, episode).0;
      RequeuedJobs(q1, items[1..], episode);
      var q' := Requeued(q, items, episode);
      forall i: nat | i < |items|
        ensures IsRetry(q', q.next + i, items[i], episode)
      {
        if i == 0 {
          assert IsRetry(q1, q.next, items[0], episode);
        } else {
          var k: nat := i - 1;
          assert IsRetry(q', q1.next + k, items[1..][k], episode);
        }
      }
    }
  }

  /** What a run that is over leaves to be done again. */
  ghost function LeftOver(w: Wire, failed: bool): seq<Item> {
    (if failed then w.job.accepted else []) + Keep(w.arrived, w.inbox.delivered, false)
  }

  /** On success that is what never reached the session; on a failure it is everything, once each. */
  ghost predicate LeavesRight(w: Wire, failed: bool) {
    && (failed ==> multiset(LeftOver(w, failed)) == multiset(w.arrived))
    && forall x :: x in w.arrived ==> (x in LeftOver(w, failed) <==> failed || x.id !in w.inbox.session)
  }

  lemma LeavesWhatIsMissing(w: Wire, failed: bool)
    requires Good(w) && w.inbox.pending == {}
    ensures LeftOver(w, failed) == Remaining(w.job, failed) && LeavesRight(w, failed)
  {
    CompletionRequeues(w);
    var left := LeftOver(w, failed);
    assert left == Remaining(w.job, failed);
    forall x | x in w.arrived
      ensures x in left <==> failed || x.id !in w.inbox.session
    {
      if failed {
        assert x in multiset(w.arrived);
        assert x in multiset(left);
      }
    }
  }

  /** One new operator job for each item, in the order of the items, and no other job touched. */
  ghost predicate MadeAgain(q: Queue, q': Queue, r: RunId, left: seq<Item>, episode: string) {
    && q'.next == q.next + |left|
    && (forall i: nat :: i < |left| ==> IsRetry(q', q.next + i, left[i], episode))
    && (forall s :: s in q.jobs && s != r ==> s in q'.jobs && q'.jobs[s] == q.jobs[s])
  }

  lemma FinishedMakes(q: Queue, r: RunId, failed: bool, episode: string)
    requires r in q.jobs && q.jobs[r].status == Running && forall s :: s in q.jobs ==> s < q.next
    ensures MadeAgain(q, Finished(q, r, failed, episode), r, Remaining(q.jobs[r], failed), episode)
  {
    hide Requeued, IsRetry, Remaining;
    var job := q.jobs[r];
    var q1 := q.(jobs := q.jobs[r := job.(status := if failed then Failed else Completed, feedback := [], accepted := [])]);
    RequeuedJobs(q1, Remaining(job, failed), episode);
  }

  /** A run completed at any time after its last answered heartbeat, which found the session idle:
      every item that never reached the session, and after a failure every other one too, becomes an
      operator job of its own. */
  lemma RunEnds(states: seq<Wire>, events: seq<Event>, j: nat, n: nat, q: Queue, r: RunId, failed: bool, episode: string)
    requires IsHistory(states, events) && j < n < |states|
    requires events[j].Receive? && !events[j].streaming
    requires forall k :: j < k < n ==> !events[k].Receive?
    requires r in q.jobs && q.jobs[r].status == Running && forall s :: s in q.jobs ==> s < q.next
    requires q.jobs[r].feedback == states[n].job.feedback && q.jobs[r].accepted == states[n].job.accepted
    ensures LeavesRight(states[n], failed)
    ensures MadeAgain(q, Finished(q, r, failed, episode), r, LeftOver(states[n], failed), episode)
  {
    hide Good, IsHistory, LeftOver, LeavesRight, MadeAgain, Finished;
    HistoryGood(states, events, n);
    FinalHeartbeat(states, events, j, n);
    LeavesWhatIsMissing(states[n], failed);
    FinishedMakes(q, r, failed, episode);
    assert Remaining(q.jobs[r], failed) == Remaining(states[n].job, failed);
  }

  // --------------------------------------------------------- one heartbeat of the code

  /** A heartbeat that nothing disturbs is the moves of the wire one after the other: sent with what is
      to be acknowledged, processed, and answered.  A run that is no longer active is told to stop. */
  method HeartbeatRun(broker: AgentBroker, feedback: FeedbackDelivery, r: RunId, episode: string, current: string,
                      now: real, streaming: bool, budget: nat, ghost w: Wire)
    returns (cancel: bool, ghost w1: Wire, ghost w2: Wire, ghost w3: Wire)
    requires r in broker.jobs ==> w.job == broker.jobs[r]
    requires w.inbox == feedback.View() && w.outstanding.None?
    modifies broker`jobs, feedback
    ensures cancel <==> !Active(old(broker.View()), r, episode, current)
    ensures cancel ==> broker.View() == old(broker.View()) && feedback.View() == old(feedback.View()).(pending := {})
    ensures !cancel ==>
              && Moves(w, Send, w1) && Moves(w1, Process(w.inbox.pending), w2) && Moves(w2, Receive(streaming, budget), w3)
              && feedback.View() == w3.inbox
              && r in broker.jobs && broker.jobs[r] == w3.job.(lease := Some(now + LEASE_SECONDS))
              && forall s :: s in old(broker.jobs) && s != r ==> s in broker.jobs && broker.jobs[s] == old(broker.jobs[s])
  {
    var ids := feedback.AcknowledgedIds();
    var reply := broker.Heartbeat(r, episode, current, ids, now);
    feedback.ConfirmAcknowledged(ids);
    w1 := w.(outstanding := Some(ids), sent := w.sent + {ids}, reply := None);
    w2, w3 := w1, w1;
    if reply.None? {
      return true, w1, w2, w3;
    }
    var job := Acknowledged(w.job, ids);
    w2 := w1.(job := job, reply := Some(job.feedback));
    w3 := w2.(outstanding := None, reply := None, inbox := w.inbox.(pending := {}));
    assert w.inbox.pending - ids == {};
    if streaming {
      w3 := w3.(inbox := Delivered(w3.inbox, job.feedback, budget));
      var _ := feedback.Deliver(reply.value, budget);
    }
    return false, w1, w2, w3;
  }
}
