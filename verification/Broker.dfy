/** The broker: its operations change the queue in place, exactly as `AgentQueue` says. */
module Broker {

  import opened Finite
  import opened AgentQueue

  datatype Result<+T> = Ok(value: T) | Err(error: string)

  /** The jobs when the runs `seen` have been gone through. */
  ghost predicate CancelledSo(q: Queue, target: Option<RunId>, seen: seq<RunId>, jobs: map<RunId, Job>) {
    jobs.Keys == q.jobs.Keys && forall r :: r in jobs ==>
      jobs[r] == if Cancels(q, target, r) && r in seen then q.jobs[r].(status := Cancelled, feedback := []) else q.jobs[r]
  }

  lemma CancelStep(q: Queue, target: Option<RunId>, i: nat, before: map<RunId, Job>, after: map<RunId, Job>)
    requires i < |q.listed| && CancelledSo(q, target, q.listed[..i], before)
    requires var r := q.listed[i];
             after == if (target.None? || target.value == r) && r in before
                         && (before[r].status == Queued || before[r].status == Running)
                      then before[r := before[r].(status := Cancelled, feedback := [])] else before
    ensures CancelledSo(q, target, q.listed[..i + 1], after)
  {
    assert q.listed[..i + 1] == q.listed[..i] + [q.listed[i]];
  }

  lemma AllCancelled(q: Queue, target: Option<RunId>, jobs: map<RunId, Job>)
    requires CancelledSo(q, target, q.listed, jobs)
    ensures jobs == CancelledRuns(q, target).jobs
  {
  }

  class AgentBroker {
    var jobs: map<RunId, Job>
    var listed: seq<RunId>
    var plans: map<PlanId, Plan>
    var grants: seq<Grant>
    var mode: string
    var next: nat
    ghost var started: seq<RunId>

    ghost function View(): Queue
      reads this
    {
      Queue(jobs, listed, plans, grants, mode, next, started)
    }

    constructor (mode: string)
      ensures View() == Queue(map[], [], map[], [], if mode in ["full", "assisted", "request"] then mode else "full", 1, [])
    {
      this.jobs, this.listed, this.plans, this.grants := map[], [], map[], [];
      this.mode := if mode in ["full", "assisted", "request"] then mode else "full";
      this.next, this.started := 1, [];
    }

    /** The first listed job of a status, and of a kind if one is given. */
    method Find(status: Status, kind: Option<string>) returns (r: Option<RunId>)
      ensures r == FirstWith(View(), listed, status, kind)
    {
      for i := 0 to |listed|
        invariant FirstWith(View(), listed, status, kind) == FirstWith(View(), listed[i..], status, kind)
      {
        var x := listed[i];
        if x in jobs && jobs[x].status == status && (kind.None? || jobs[x].kind == kind.value) {
          return Some(x);
        }
      }
      return None;
    }

    method Enqueue(kind: string, source: string, text: string, episode: string) returns (r: RunId)
      modifies this
      ensures (View(), r) == Enqueued(old(View()), kind, source, text, episode)
    {
      var pending: Option<RunId> := None;
      if kind != OPERATOR {
        pending := Find(Queued, Some(kind));
      }
      if pending.Some? {
        var job := jobs[pending.value];
        jobs := jobs[pending.value := job.(text := Cut(text, MAX_MESSAGE_CHARS), coalesced := job.coalesced + 1)];
        return pending.value;
      }
      r := next;
      jobs := jobs[r := NewJob(kind, source, text, episode)];
      listed := Newest(listed + [r]);
      next := next + 1;
    }

    method ExpireLeases(now: real)
      modifies this`jobs
      ensures View() == LeasesExpired(old(View()), now)
      ensures jobs.Keys == old(jobs).Keys
      ensures forall r :: r in jobs ==>
                var was := old(jobs)[r];
                jobs[r] == if r in listed && was.status == Running && was.lease.Some? && was.lease.value <= now then was.(status := Failed) else was
    {
      ghost var q := View();
      for i := 0 to |listed|
        invariant jobs.Keys == q.jobs.Keys
        invariant forall r :: r in jobs ==>
                    jobs[r] == q.jobs[r] || (LeaseOver(q, r, now) && jobs[r] == q.jobs[r].(status := Failed))
        invariant forall k: nat :: k < i && LeaseOver(q, listed[k], now) ==> jobs[listed[k]].status == Failed
      {
        var r := listed[i];
        if r in jobs && jobs[r].status == Running && jobs[r].lease.Some? && jobs[r].lease.value <= now {
          jobs := jobs[r := jobs[r].(status := Failed)];
        }
      }
      AllExpired(q, View(), now);
    }

    method ExpirePlans(simNow: real)
      modifies this`plans
      ensures View() == PlansExpired(old(View()), simNow)
      ensures plans.Keys == old(plans).Keys
      ensures forall p :: p in plans ==>
                var was := old(plans)[p];
                plans[p] == if was.status == PendingApproval && was.expiresAt.Some? && was.expiresAt.value <= simNow
                            then was.(status := Expired) else was
    {
      ghost var q := View();
      var left := plans.Keys;
      while left != {}
        invariant plans.Keys == q.plans.Keys && left <= plans.Keys
        invariant forall p :: p in plans ==>
                    plans[p] == if PlanOver(q.plans[p], simNow) && p !in left then q.plans[p].(status := Expired) else q.plans[p]
        decreases left
      {
        var p :| p in left;
        left := left - {p};
        if plans[p].status == PendingApproval && plans[p].expiresAt.Some? && simNow >= plans[p].expiresAt.value {
          plans := plans[p := plans[p].(status := Expired)];
        }
      }
    }

    method QueueHuman(text: string, delivery: Delivery, episode: string, now: real) returns (r: Result<RunId>)
      modifies this
      ensures text == "" ==> r == Err("invalid_message") && View() == old(View())
      ensures text != "" ==> match HumanQueued(old(View()), text, delivery, episode, now)
                case None => r == Err("feedback_queue_full") && View() == LeasesExpired(old(View()), now)
                case Some((q, run)) => r == Ok(run) && View() == q
    {
      if text == "" {
        return Err("invalid_message");
      }
      ExpireLeases(now);
      var running := Find(Running, None);
      if running.Some? {
        var job := jobs[running.value];
        if |job.feedback| + |job.accepted| >= MAX_FEEDBACK_PER_RUN {
          return Err("feedback_queue_full");
        }
        var item := Item(next, Cut(text, MAX_MESSAGE_CHARS), delivery);
        next := next + 1;
        jobs := jobs[running.value := job.(feedback := job.feedback + [item])];
        return Ok(running.value);
      }
      var run := Enqueue(OPERATOR, "human", text, episode);
      return Ok(run);
    }

    method AnyPending() returns (found: bool)
      ensures found <==> SomePending(View())
    {
      found := exists p :: p in plans && plans[p].status == PendingApproval;
    }

    /** The first of the highest-ranking eligible jobs. */
    method FindNext(deferRoutine: bool) returns (index: Option<nat>)
      ensures index.None? ==> forall r :: !Eligible(View(), r, deferRoutine)
      ensures index.Some? ==> IsNext(View(), deferRoutine, index.value)
    {
      index := None;
      ghost var q := View();
      for i := 0 to |listed|
        invariant index.None? ==> forall j: nat :: j < i ==> !Eligible(q, listed[j], deferRoutine)
        invariant index.Some? ==> index.value < i && Eligible(q, listed[index.value], deferRoutine)
        invariant index.Some? ==> forall j: nat :: j < i && Eligible(q, listed[j], deferRoutine) ==>
                    !Outranks(jobs[listed[j]], jobs[listed[index.value]])
        invariant index.Some? ==> forall j: nat :: j < index.value && Eligible(q, listed[j], deferRoutine) ==>
                    Outranks(jobs[listed[index.value]], jobs[listed[j]])
      {
        var r := listed[i];
        if r in jobs && jobs[r].status == Queued
           && (!deferRoutine || JobPriority(jobs[r].kind) < 2 || SourcePriority(jobs[r].source) < 2) {
          if index.None? || Outranks(jobs[r], jobs[listed[index.value]]) {
            index := Some(i);
          }
        }
      }
    }

    method ClaimNext(deferRoutine: bool, now: real, simNow: real) returns (claimed: Option<RunId>)
      modifies this
      ensures Claims(old(View()), now, simNow, deferRoutine, claimed, View())
    {
      ExpireLeases(now);
      ExpirePlans(simNow);
      ghost var q := View();
      var running := Find(Running, None);
      FindsRunning(q);
      if running.Some? {
        return None;
      }
      var pending := AnyPending();
      if pending {
        return None;
      }
      var index := FindNext(deferRoutine);
      if index.None? {
        return None;
      }
      var r := listed[index.value];
      jobs := jobs[r := jobs[r].(status := Running, lease := Some(now + LEASE_SECONDS))];
      started := started + [r];
      assert Eligible(q, r, deferRoutine);
      return Some(r);
    }

    method ActiveRun(r: RunId, episode: string, current: string) returns (active: bool)
      ensures active <==> Active(View(), r, episode, current)
    {
      active := (episode == "" || episode == current)
                && r in listed && r in jobs && jobs[r].status == Running && jobs[r].episode == current;
    }

    /** `None` tells the worker to stop; otherwise the feedback still pending. */
    method Heartbeat(r: RunId, episode: string, current: string, ids: set<nat>, now: real) returns (feedback: Option<seq<Item>>)
      modifies this`jobs
      ensures if Active(old(View()), r, episode, current)
              then View() == Beaten(old(View()), r, ids, now) && feedback == Some(View().jobs[r].feedback)
              else feedback == None && View() == old(View())
      ensures feedback.Some? <==> (episode == "" || episode == current) && r in listed && r in old(jobs)
                                  && old(jobs)[r].status == Running && old(jobs)[r].episode == current
      ensures feedback.Some? ==> r in jobs && jobs[r].status == Running && jobs[r].lease == Some(now + LEASE_SECONDS)
                                 && forall x :: x in feedback.value <==> x in old(jobs)[r].feedback && x.id !in ids
    {
      var active := ActiveRun(r, episode, current);
      if !active {
        return None;
      }
      var job := jobs[r].(lease := Some(now + LEASE_SECONDS));
      jobs := jobs[r := Acknowledged(job, ids)];
      return Some(jobs[r].feedback);
    }

    method Cancel(target: Option<RunId>)
      modifies this`jobs
      ensures View() == CancelledRuns(old(View()), target)
      ensures jobs.Keys == old(jobs).Keys
      ensures forall r :: r in jobs ==>
                var was := old(jobs)[r];
                jobs[r] == if r in listed && (was.status == Queued || was.status == Running) && (target == None || target == Some(r))
                           then was.(status := Cancelled, feedback := []) else was
    {
      ghost var q := View();
      for i := 0 to |listed|
        invariant CancelledSo(q, target, listed[..i], jobs)
      {
        var r := listed[i];
        ghost var before := jobs;
        if (target.None? || target.value == r) && r in jobs && (jobs[r].status == Queued || jobs[r].status == Running) {
          jobs := jobs[r := jobs[r].(status := Cancelled, feedback := [])];
        }
        CancelStep(q, target, i, before, jobs);
      }
      assert listed[..|listed|] == listed;
      AllCancelled(q, target, jobs);
    }

    method Complete(r: RunId, failed: bool, episode: string)
      requires r in jobs
      modifies this
      ensures View() == Finished(old(View()), r, failed, episode)
      ensures old(jobs)[r].status !in {Running, Queued} ==> View() == old(View())
      ensures old(jobs)[r].status in {Running, Queued} && (forall s :: s in old(jobs) ==> s < old(next)) ==>
                r in jobs && jobs[r] == old(jobs)[r].(status := if failed then Failed else Completed, feedback := [], accepted := [])
    {
      FinishedRun(View(), r, failed, episode);
      var job := jobs[r];
      if job.status != Running && job.status != Queued {
        return;
      }
      jobs := jobs[r := job.(status := if failed then Failed else Completed, feedback := [], accepted := [])];
      var remaining := if failed then job.accepted + job.feedback else job.feedback;
      ghost var q1 := View();
      for i := 0 to |remaining|
        invariant Requeued(View(), remaining[i..], episode) == Requeued(q1, remaining, episode)
      {
        var retry := Enqueue(OPERATOR, "feedback", remaining[i].text, episode);
        assert remaining[i..][1..] == remaining[i + 1..];
      }
    }

    method SubmitPlan(r: RunId, kind: string, domain: seq<real>, auto: Option<bool>, expiresAt: Option<real>) returns (p: PlanId)
      modifies this
      ensures p == old(next) && View() == Submitted(old(View()), r, kind, domain, auto, expiresAt)
      ensures p in plans && plans == old(plans)[p := plans[p]]
      ensures plans[p].status == AutoApproved <==>
                auto == Some(true) || (auto == None && old(mode) == "full")
                || exists g :: g in old(grants) && g.kind == kind && g.domain == domain
      ensures plans[p].status != AutoApproved ==> plans[p].status == PendingApproval
      ensures plans[p].run == r && plans[p].kind == kind && plans[p].domain == domain && plans[p].expiresAt == expiresAt
      ensures next == old(next) + 1 && jobs == old(jobs) && listed == old(listed) && grants == old(grants) && mode == old(mode)
              && started == old(started)
    {
      assert forall g: Grant :: g == Grant(g.kind, g.domain);
      var approved := if auto.Some? then auto.value else mode == "full";
      if !approved && Grant(kind, domain) in grants {
        approved := true;
      }
      p := next;
      plans := plans[p := Plan(r, kind, domain, if approved then AutoApproved else PendingApproval, expiresAt)];
      next := next + 1;
    }

    /** Session grants end with the mode they were given under. */
    method SetAutonomyMode(mode: string) returns (r: Result<string>)
      modifies this`mode, this`grants
      ensures mode !in ["full", "assisted", "request"] ==> r == Err("invalid_autonomy_mode") && View() == old(View())
      ensures mode in ["full", "assisted", "request"] ==> r == Ok(mode) && View() == old(View()).(mode := mode, grants := [])
    {
      if mode !in ["full", "assisted", "request"] {
        return Err("invalid_autonomy_mode");
      }
      this.mode, this.grants := mode, [];
      return Ok(mode);
    }

    method DecidePlan(p: PlanId, decision: Decision, comment: string, episode: string, now: real, simNow: real)
      returns (r: Result<PlanId>)
      modifies this
      ensures decision == Adjust && comment == "" ==> r == Err("comment_required") && View() == old(View())
      ensures !(decision == Adjust && comment == "") ==>
                var q := PlansExpired(old(View()), simNow);
                if p !in q.plans then r == Err("plan_not_found") && View() == q
                else if q.plans[p].status != PendingApproval then r == Err("plan_not_pending") && View() == q
                else r == Ok(p) && View() == DecidedAndTold(q, p, decision, comment, episode, now)
      ensures r == Ok(p) ==>
                && p in plans && p in old(plans)
                && plans[p] == old(plans)[p].(status := if decision == ApproveOnce || decision == ApproveSession then Approved else Rejected)
      ensures r == Ok(p) <==> !(decision == Adjust && comment == "") && p in old(plans) && old(plans)[p].status == PendingApproval
                              && !(old(plans)[p].expiresAt.Some? && old(plans)[p].expiresAt.value <= simNow)
      ensures forall g :: g in grants <==>
                if r == Ok(p) && decision == ApproveSession && g.kind == old(plans)[p].kind then g.domain == old(plans)[p].domain
                else g in old(grants)
    {
      hide *;
      ghost var q0 := View();
      ViewIs(this);
      if decision == Adjust && comment == "" {
        return Err("comment_required");
      }
      ExpirePlans(simNow);
      ViewIs(this);
      SweptMeans(q0, p, simNow);
      if p !in plans {
        return Err("plan_not_found");
      }
      if plans[p].status != PendingApproval {
        return Err("plan_not_pending");
      }
      ghost var q := View();
      Settle(p, decision);
      if decision != ApproveOnce && decision != ApproveSession && comment != "" {
        var told := QueueHuman("审批退回意见：" + comment, Steer, episode, now);
      }
      ToldIs(q, p, decision, comment, episode, now);
      ViewIs(this);
      DecidedMeans(q, p, decision, comment, episode, now);
      return Ok(p);
    }

    /** The operator's decision on a pending plan. */
    method Settle(p: PlanId, decision: Decision)
      requires p in plans
      modifies this`plans, this`grants, this`jobs
      ensures View() == Decided(old(View()), p, decision)
    {
      var plan := plans[p];
      var approved := decision == ApproveOnce || decision == ApproveSession;
      plans := plans[p := plan.(status := if approved then Approved else Rejected)];
      if decision == ApproveSession {
        grants := WithoutKind(grants, plan.kind) + [Grant(plan.kind, plan.domain)];
      }
      if !approved && plan.run in listed && plan.run in jobs {
        jobs := jobs[plan.run := jobs[plan.run].(status := Failed)];
      }
    }
  }

  lemma ViewIs(b: AgentBroker)
    ensures b.View() == Queue(b.jobs, b.listed, b.plans, b.grants, b.mode, b.next, b.started)
  {
  }

  lemma SweptMeans(q: Queue, p: PlanId, simNow: real)
    ensures var q' := PlansExpired(q, simNow);
            && q' == q.(plans := q'.plans) && (p in q'.plans <==> p in q.plans)
            && (p in q'.plans && q'.plans[p].status == PendingApproval <==>
                  p in q.plans && q.plans[p].status == PendingApproval
                  && !(q.plans[p].expiresAt.Some? && q.plans[p].expiresAt.value <= simNow))
            && (p in q'.plans && q'.plans[p].status == PendingApproval ==> q'.plans[p] == q.plans[p])
  {
  }

  lemma ToldIs(q: Queue, p: PlanId, decision: Decision, comment: string, episode: string, now: real)
    requires p in q.plans
    ensures var q1 := Decided(q, p, decision);
            DecidedAndTold(q, p, decision, comment, episode, now)
            == if decision == ApproveOnce || decision == ApproveSession || comment == "" then q1
               else match HumanQueued(q1, "审批退回意见：" + comment, Steer, episode, now)
                    case None => LeasesExpired(q1, now)
                    case Some((q2, _)) => q2
    ensures "审批退回意见：" + comment != ""
  {
    hide HumanQueued, LeasesExpired, Decided;
  }

  /** Only a session approval grants anything, for the kind and the domain of its plan. */
  lemma DecidedMeans(q: Queue, p: PlanId, decision: Decision, comment: string, episode: string, now: real)
    requires p in q.plans
    ensures var q' := DecidedAndTold(q, p, decision, comment, episode, now);
            && q'.plans == q.plans[p := q.plans[p].(status := if decision == ApproveOnce || decision == ApproveSession then Approved else Rejected)]
            && (forall g :: g in q'.grants <==>
                  if decision == ApproveSession && g.kind == q.plans[p].kind then g.domain == q.plans[p].domain else g in q.grants)
            && q'.mode == q.mode
  {
    hide FirstWith, NewJob, Cut, LeaseOver;
    GrantsAre(q.grants, q.plans[p].kind);
    assert forall g: Grant :: g == Grant(g.kind, g.domain);
    var q1 := Decided(q, p, decision);
    HumanKeepsPlans(q1, "审批退回意见：" + comment, Steer, episode, now);
  }

  lemma HumanKeepsPlans(q: Queue, text: string, delivery: Delivery, episode: string, now: real)
    ensures var q1 := LeasesExpired(q, now); q1.plans == q.plans && q1.grants == q.grants && q1.mode == q.mode
    ensures match HumanQueued(q, text, delivery, episode, now)
            case None => true
            case Some((q1, _)) => q1.plans == q.plans && q1.grants == q.grants && q1.mode == q.mode
  {
    hide NewJob, Cut, LeaseOver;
  }

  lemma AllExpired(q: Queue, q': Queue, now: real)
    requires q' == q.(jobs := q'.jobs) && q'.jobs.Keys == q.jobs.Keys
    requires forall r :: r in q'.jobs ==>
               q'.jobs[r] == q.jobs[r] || (LeaseOver(q, r, now) && q'.jobs[r] == q.jobs[r].(status := Failed))
    requires forall k: nat :: k < |q.listed| && LeaseOver(q, q.listed[k], now) ==> q'.jobs[q.listed[k]].status == Failed
    ensures q' == LeasesExpired(q, now)
  {
    forall r | r in q'.jobs && LeaseOver(q, r, now)
      ensures q'.jobs[r].status == Failed
    {
      var k: nat :| k < |q.listed| && q.listed[k] == r;
    }
    assert q'.jobs == LeasesExpired(q, now).jobs;
  }

  lemma {:induction false} GrantsAre(grants: seq<Grant>, kind: string)
    ensures forall g :: g in WithoutKind(grants, kind) <==> g in grants && g.kind != kind
  {
    if grants != [] {
      GrantsAre(grants[1..], kind);
      assert grants == [grants[0]] + grants[1..];
    }
  }

  /** Requeueing leaves every job alone that was there before. */
  lemma {:induction false} RequeueLeaves(q: Queue, items: seq<Item>, episode: string)
    requires forall s :: s in q.jobs ==> s < q.next
    ensures forall s :: s in q.jobs ==> s in Requeued(q, items, episode).jobs && Requeued(q, items, episode).jobs[s] == q.jobs[s]
    decreases |items|
  {
    if items != [] {
      RequeueLeaves(Enqueued(q, OPERATOR, "feedback", items[0].text, episode).0, items[1..], episode);
    }
  }

  lemma FinishedRun(q: Queue, r: RunId, failed: bool, episode: string)
    requires r in q.jobs
    ensures q.jobs[r].status !in {Running, Queued} ==> Finished(q, r, failed, episode) == q
    ensures q.jobs[r].status in {Running, Queued} && (forall s :: s in q.jobs ==> s < q.next) ==>
              r in Finished(q, r, failed, episode).jobs
              && Finished(q, r, failed, episode).jobs[r]
                 == q.jobs[r].(status := if failed then Failed else Completed, feedback := [], accepted := [])
  {
    hide Requeued;
    var job := q.jobs[r];
    var q1 := q.(jobs := q.jobs[r := job.(status := if failed then Failed else Completed, feedback := [], accepted := [])]);
    if forall s :: s in q.jobs ==> s < q.next {
      RequeueLeaves(q1, Remaining(job, failed), episode);
    }
  }

  lemma {:induction false} FirstIs(q: Queue, listed: seq<RunId>, status: Status, kind: Option<string>)
    ensures var f := FirstWith(q, listed, status, kind);
            f.Some? ==> exists i: nat :: i < |listed| && listed[i] == f.value && forall j: nat :: j < i ==> !Suits(q, listed[j], status, kind)
  {
    if listed != [] && FirstWith(q, listed, status, kind).Some? && !Suits(q, listed[0], status, kind) {
      FirstIs(q, listed[1..], status, kind);
      var f := FirstWith(q, listed, status, kind).value;
      var i: nat :| i < |listed[1..]| && listed[1..][i] == f && forall j: nat :: j < i ==> !Suits(q, listed[1..][j], status, kind);
      var k := i + 1;
      forall j: nat | j < k
        ensures !Suits(q, listed[j], status, kind)
      {
        if j > 0 {
          var h := j - 1;
          assert listed[1..][h] == listed[j];
        }
      }
      assert listed[k] == f;
    }
  }

  predicate Suits(q: Queue, r: RunId, status: Status, kind: Option<string>) {
    r in q.jobs && q.jobs[r].status == status && (kind.None? || q.jobs[r].kind == kind.value)
  }

  /** Operator jobs, and the first waiting one of a kind, are new and listed last, and the oldest beyond forty fall
      off; any other joins the first waiting job of its kind. */
  lemma EnqueuedMeans(q: Queue, kind: string, source: string, text: string, episode: string)
    ensures var (q', r) := Enqueued(q, kind, source, text, episode);
            var waiting := exists s :: s in q.listed && Suits(q, s, Queued, Some(kind));
            if kind == OPERATOR || !waiting then
              && r == q.next && q'.next == r + 1 && r in q'.jobs && q'.jobs == q.jobs[r := q'.jobs[r]]
              && q'.jobs[r] == Job(episode, kind, source, text[..if |text| < 4000 then |text| else 4000], Queued, None, [], [], 0)
              && q'.listed == (q.listed + [r])[(if |q.listed| < 40 then 0 else |q.listed| - 39)..]
            else
              && Suits(q, r, Queued, Some(kind)) && q'.listed == q.listed && q'.next == q.next
              && (exists i: nat :: i < |q.listed| && q.listed[i] == r && forall j: nat :: j < i ==> !Suits(q, q.listed[j], Queued, Some(kind)))
              && q'.jobs == q.jobs[r := q.jobs[r].(text := text[..if |text| < 4000 then |text| else 4000], coalesced := q.jobs[r].coalesced + 1)]
  {
    var pending := FirstWith(q, q.listed, Queued, Some(kind));
    FirstIs(q, q.listed, Queued, Some(kind));
    assert Cut(text, MAX_MESSAGE_CHARS) == text[..if |text| < 4000 then |text| else 4000];
    if pending.Some? {
      assert Suits(q, pending.value, Queued, Some(kind));
    }
    if kind != OPERATOR && pending.Some? {
      assert Enqueued(q, kind, source, text, episode).1 == pending.value;
    }
  }

  /** Operator text goes to the run that is still running, unless eight messages wait there or were accepted; without
      one it becomes a job. */
  lemma HumanMeans(q: Queue, text: string, delivery: Delivery, episode: string, now: real)
    ensures var q1, told := LeasesExpired(q, now), HumanQueued(q, text, delivery, episode, now);
            var brief := text[..if |text| < 4000 then |text| else 4000];
            if SomeRunning(q1) then
              exists r :: q1.Lists(r, Running) &&
                if |q1.jobs[r].feedback| + |q1.jobs[r].accepted| >= 8 then told == None
                else told == Some((q1.(next := q1.next + 1,
                                       jobs := q1.jobs[r := q1.jobs[r].(feedback := q1.jobs[r].feedback + [Item(q1.next, brief, delivery)])]), r))
            else told == Some(Enqueued(q1, "operator-message/v1", "human", text, episode))
  {
    hide LeasesExpired, Enqueued;
    var q1 := LeasesExpired(q, now);
    FindsRunning(q1);
    var f := FirstWith(q1, q1.listed, Running, None);
    assert Cut(text, MAX_MESSAGE_CHARS) == text[..if |text| < 4000 then |text| else 4000];
    if f.Some? {
      var r := f.value;
      assert q1.Lists(r, Running);
      if |q1.jobs[r].feedback| + |q1.jobs[r].accepted| < 8 {
        assert HumanQueued(q, text, delivery, episode, now).value.1 == r;
      }
    }
  }

  lemma FindsRunning(q: Queue)
    ensures FirstWith(q, q.listed, Running, None).Some? <==> SomeRunning(q)
  {
    var f := FirstWith(q, q.listed, Running, None);
    if f.Some? {
      assert q.Lists(f.value, Running);
    }
  }

  /** After a rejection with a comment the operator's words are queued; a full feedback queue is let pass. */
  ghost function DecidedAndTold(q: Queue, p: PlanId, decision: Decision, comment: string, episode: string, now: real): Queue
    requires p in q.plans
  {
    var q1 := Decided(q, p, decision);
    if decision == ApproveOnce || decision == ApproveSession || comment == "" then q1
    else match HumanQueued(q1, "审批退回意见：" + comment, Steer, episode, now)
      case None => LeasesExpired(q1, now)
      case Some((q2, _)) => q2
  }
}
