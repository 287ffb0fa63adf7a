/** What holds in every interleaving of broker operations. */
module BrokerRuns {

  import opened Finite
  import opened AgentQueue
  import opened Broker

  datatype Step =
    | Enqueue(kind: string, source: string, text: string, episode: string)
    | Human(text: string, delivery: Delivery, episode: string, now: real)
    | Poll(deferRoutine: bool, now: real, simNow: real)
    | Beat(run: RunId, episode: string, current: string, ids: set<nat>, now: real)
    | Cancel(target: Option<RunId>)
    | Complete(run: RunId, failed: bool, episode: string)
    | Submit(run: RunId, kind: string, domain: seq<real>, auto: Option<bool>, expiresAt: Option<real>)
    | SweepPlans(simNow: real)
    | Decide(plan: PlanId, decision: Decision, comment: string, episode: string, now: real, simNow: real)
    | SetMode(mode: string)

  ghost predicate Next(q: Queue, step: Step, q': Queue) {
    match step
    case Enqueue(kind, source, text, episode) => q' == Enqueued(q, kind, source, text, episode).0
    case Human(text, delivery, episode, now) =>
      (match HumanQueued(q, text, delivery, episode, now)
       case None => q' == LeasesExpired(q, now)
       case Some((q1, _)) => q' == q1)
    case Poll(deferRoutine, now, simNow) => exists claimed :: Claims(q, now, simNow, deferRoutine, claimed, q')
    case Beat(run, episode, current, ids, now) => q' == if Active(q, run, episode, current) then Beaten(q, run, ids, now) else q
    case Cancel(target) => q' == CancelledRuns(q, target)
    case Complete(run, failed, episode) => run in q.jobs && q' == Finished(q, run, failed, episode)
    case Submit(run, kind, domain, auto, expiresAt) => q' == Submitted(q, run, kind, domain, auto, expiresAt)
    case SweepPlans(simNow) => q' == PlansExpired(q, simNow)
    case Decide(plan, decision, comment, episode, now, simNow) =>
      var q1 := PlansExpired(q, simNow);
      q' == if decision == Adjust && comment == "" then q
            else if plan in q1.plans && q1.plans[plan].status == PendingApproval
            then DecidedAndTold(q1, plan, decision, comment, episode, now) else q1
    case SetMode(mode) => q' == if mode in ["full", "assisted", "request"] then q.(mode := mode, grants := []) else q
  }

  /** The invariant. */
  ghost predicate Sound(q: Queue) {
    && Distinct(q.listed) && Distinct(q.started)
    && (forall r :: r in q.listed || r in q.started ==> r in q.jobs)
    && (forall r :: r in q.jobs ==> r < q.next)
    && (forall p :: p in q.plans ==> p < q.next)
    && (forall r :: r in q.started ==> q.jobs[r].status != Queued)
    && (forall r :: r in q.jobs && q.jobs[r].status == Running ==> r in q.started)
    && AtMostOneRunning(q) && OneQueuedPerKind(q)
  }

  ghost predicate AtMostOneRunning(q: Queue) {
    forall r, s :: q.Lists(r, Running) && q.Lists(s, Running) ==> r == s
  }

  ghost predicate OneQueuedPerKind(q: Queue) {
    forall r, s | q.Lists(r, Queued) && q.Lists(s, Queued) && q.jobs[r].kind == q.jobs[s].kind && q.jobs[r].kind != OPERATOR ::
      r == s
  }

  predicate Over(status: Status) {
    status == Completed || status == Failed || status == Cancelled
  }

  /** What no step undoes. */
  ghost predicate Onward(q: Queue, q': Queue) {
    && q.next <= q'.next
    && (forall r :: r in q.jobs ==> r in q'.jobs)
    && (forall r :: r in q.jobs && Over(q.jobs[r].status) ==> Over(q'.jobs[r].status))
    && (forall r :: r in q.jobs && q.jobs[r].status == Running ==> q'.jobs[r].status != Queued)
    && (forall r :: r in q'.listed ==> r in q.listed || r >= q.next)
    && (forall r :: r in q.started ==> r in q'.started)
    && (forall p :: p in q.plans ==> p in q'.plans && (q.plans[p].status != PendingApproval ==> q'.plans[p] == q.plans[p]))
  }

  /** A step that starts nothing: statuses only move on, and new jobs are queued. */
  ghost predicate Quiet(q: Queue, q': Queue) {
    && Onward(q, q') && q'.started == q.started
    && Distinct(q'.listed)
    && (forall r :: r in q'.listed ==> r in q'.jobs)
    && (forall r :: r in q'.jobs ==> r < q'.next)
    && (forall p :: p in q'.plans ==> p < q'.next)
    && (forall r :: r in q'.jobs && q'.jobs[r].status == Running ==> r in q.jobs && q.jobs[r].status == Running)
    && (forall r :: r in q'.jobs && q'.jobs[r].status == Queued ==> r in q.jobs ==> q.jobs[r].status == Queued && q.jobs[r].kind == q'.jobs[r].kind)
  }

  lemma QuietIsSound(q: Queue, q': Queue)
    requires Sound(q) && Quiet(q, q') && OneQueuedPerKind(q')
    ensures Sound(q')
  {
    forall r, s | q'.Lists(r, Running) && q'.Lists(s, Running)
      ensures r == s
    {
      assert q.Lists(r, Running) && q.Lists(s, Running);
    }
  }

  lemma QuietTransitive(q: Queue, q1: Queue, q2: Queue)
    requires Quiet(q, q1) && Quiet(q1, q2)
    ensures Quiet(q, q2)
  {
  }

  lemma OnwardTransitive(q: Queue, q1: Queue, q2: Queue)
    requires Onward(q, q1) && Onward(q1, q2)
    ensures Onward(q, q2)
  {
  }

  // --------------------------------------------------------------- one operation each

  lemma NewestIsDistinct(listed: seq<RunId>, r: RunId)
    requires Distinct(listed) && r !in listed
    ensures Distinct(Newest(listed + [r]))
    ensures forall x :: x in Newest(listed + [r]) ==> x in listed || x == r
  {
  }

  lemma EnqueueSound(q: Queue, kind: string, source: string, text: string, episode: string)
    requires Sound(q)
    ensures var q' := Enqueued(q, kind, source, text, episode).0; Quiet(q, q') && Sound(q')
  {
    hide Quiet;
    var (q', r) := Enqueued(q, kind, source, text, episode);
    EnqueueQuiet(q, kind, source, text, episode);
    forall x, y | q'.Lists(x, Queued) && q'.Lists(y, Queued) && q'.jobs[x].kind == q'.jobs[y].kind && q'.jobs[x].kind != OPERATOR
      ensures x == y
    {
      assert x != q.next ==> q.Lists(x, Queued);
      assert y != q.next ==> q.Lists(y, Queued);
    }
    QuietIsSound(q, q');
  }

  lemma EnqueueQuiet(q: Queue, kind: string, source: string, text: string, episode: string)
    requires Sound(q)
    ensures Quiet(q, Enqueued(q, kind, source, text, episode).0)
  {
    var (q', r) := Enqueued(q, kind, source, text, episode);
    if r == q.next {
      NewestIsDistinct(q.listed, r);
    }
  }

  lemma LeasesSound(q: Queue, now: real)
    requires Sound(q)
    ensures Quiet(q, LeasesExpired(q, now)) && Sound(LeasesExpired(q, now))
  {
    hide Quiet, OneQueuedPerKind, AtMostOneRunning;
    LeasesQuiet(q, now);
    FewerQueued(q, LeasesExpired(q, now));
  }

  lemma LeasesQuiet(q: Queue, now: real)
    requires Sound(q)
    ensures Quiet(q, LeasesExpired(q, now))
  {
    hide OneQueuedPerKind, AtMostOneRunning;
  }

  /** No new queued jobs: still one per kind. */
  lemma FewerQueued(q: Queue, q': Queue)
    requires Sound(q) && Quiet(q, q') && forall r :: q'.Lists(r, Queued) ==> q.Lists(r, Queued)
    ensures Sound(q')
  {
    forall x, y | q'.Lists(x, Queued) && q'.Lists(y, Queued) && q'.jobs[x].kind == q'.jobs[y].kind && q'.jobs[x].kind != OPERATOR
      ensures x == y
    {
      assert q.Lists(x, Queued) && q.Lists(y, Queued);
    }
    QuietIsSound(q, q');
  }

  lemma PlansSound(q: Queue, simNow: real)
    requires Sound(q)
    ensures Quiet(q, PlansExpired(q, simNow)) && Sound(PlansExpired(q, simNow))
  {
    FewerQueued(q, PlansExpired(q, simNow));
  }

  lemma HumanSound(q: Queue, text: string, delivery: Delivery, episode: string, now: real, q': Queue)
    requires Sound(q)
    requires match HumanQueued(q, text, delivery, episode, now)
             case None => q' == LeasesExpired(q, now)
             case Some((q1, _)) => q' == q1
    ensures Quiet(q, q') && Sound(q')
  {
    hide Quiet, Sound;
    var q1 := LeasesExpired(q, now);
    LeasesSound(q, now);
    match FirstWith(q1, q1.listed, Running, None) {
      case None =>
        EnqueueSound(q1, OPERATOR, "human", text, episode);
        QuietTransitive(q, q1, q');
      case Some(r) =>
        if q' != q1 {
          FeedbackSound(q1, r, q1.jobs[r].feedback + [Item(q1.next, Cut(text, MAX_MESSAGE_CHARS), delivery)], q1.next + 1);
          QuietTransitive(q, q1, q');
        }
    }
  }

  lemma FeedbackSound(q: Queue, r: RunId, feedback: seq<Item>, next: nat)
    requires Sound(q) && r in q.jobs && q.next <= next
    ensures var q' := q.(jobs := q.jobs[r := q.jobs[r].(feedback := feedback)], next := next); Quiet(q, q') && Sound(q')
  {
    FewerQueued(q, q.(jobs := q.jobs[r := q.jobs[r].(feedback := feedback)], next := next));
  }

  lemma BeatSound(q: Queue, r: RunId, ids: set<nat>, now: real)
    requires Sound(q) && r in q.jobs
    ensures Quiet(q, Beaten(q, r, ids, now)) && Sound(Beaten(q, r, ids, now))
  {
    FewerQueued(q, Beaten(q, r, ids, now));
  }

  lemma CancelSound(q: Queue, target: Option<RunId>)
    requires Sound(q)
    ensures Quiet(q, CancelledRuns(q, target)) && Sound(CancelledRuns(q, target))
  {
    hide Sound, Quiet;
    OnlyEnds(q, CancelledRuns(q, target));
  }

  lemma OnlyEnds(q: Queue, q': Queue)
    requires Sound(q) && q' == q.(jobs := q'.jobs) && q'.jobs.Keys == q.jobs.Keys
    requires forall r :: r in q.jobs ==> q'.jobs[r] == q.jobs[r] || Over(q'.jobs[r].status)
    ensures Quiet(q, q') && Sound(q')
  {
    hide Quiet, OneQueuedPerKind, AtMostOneRunning;
    EndsQuiet(q, q');
    FewerQueued(q, q');
  }

  lemma EndsQuiet(q: Queue, q': Queue)
    requires Sound(q) && q' == q.(jobs := q'.jobs) && q'.jobs.Keys == q.jobs.Keys
    requires forall r :: r in q.jobs ==> q'.jobs[r] == q.jobs[r] || Over(q'.jobs[r].status)
    ensures Quiet(q, q')
  {
    hide OneQueuedPerKind, AtMostOneRunning;
  }

  lemma {:induction false} RequeueSound(q: Queue, items: seq<Item>, episode: string)
    requires Sound(q)
    ensures Quiet(q, Requeued(q, items, episode)) && Sound(Requeued(q, items, episode))
    decreases |items|
  {
    if items == [] {
    } else {
      hide Quiet, Sound;
      var q1 := Enqueued(q, OPERATOR, "feedback", items[0].text, episode).0;
      EnqueueSound(q, OPERATOR, "feedback", items[0].text, episode);
      RequeueSound(q1, items[1..], episode);
      QuietTransitive(q, q1, Requeued(q, items, episode));
    }
  }

  lemma EndSound(q: Queue, r: RunId, job: Job)
    requires Sound(q) && r in q.jobs && Over(job.status)
    ensures var q' := q.(jobs := q.jobs[r := job]); Quiet(q, q') && Sound(q')
  {
    FewerQueued(q, q.(jobs := q.jobs[r := job]));
  }

  lemma UnchangedQuiet(q: Queue)
    requires Sound(q)
    ensures Quiet(q, q)
  {
  }

  lemma CompleteSound(q: Queue, r: RunId, failed: bool, episode: string)
    requires Sound(q) && r in q.jobs
    ensures Quiet(q, Finished(q, r, failed, episode)) && Sound(Finished(q, r, failed, episode))
  {
    hide Quiet, Sound;
    UnchangedQuiet(q);
    var job := q.jobs[r];
    if job.status == Running || job.status == Queued {
      var ended := job.(status := if failed then Failed else Completed, feedback := [], accepted := []);
      EndSound(q, r, ended);
      var q1 := q.(jobs := q.jobs[r := ended]);
      RequeueSound(q1, Remaining(job, failed), episode);
      QuietTransitive(q, q1, Finished(q, r, failed, episode));
    }
  }

  lemma SubmitSound(q: Queue, r: RunId, kind: string, domain: seq<real>, auto: Option<bool>, expiresAt: Option<real>)
    requires Sound(q)
    ensures var q' := Submitted(q, r, kind, domain, auto, expiresAt); Quiet(q, q') && Sound(q')
  {
    FewerQueued(q, Submitted(q, r, kind, domain, auto, expiresAt));
  }

  lemma DecideSound(q: Queue, p: PlanId, decision: Decision)
    requires Sound(q) && p in q.plans && q.plans[p].status == PendingApproval
    ensures Quiet(q, Decided(q, p, decision)) && Sound(Decided(q, p, decision))
  {
    hide Quiet, OneQueuedPerKind, AtMostOneRunning;
    DecideQuiet(q, p, decision);
    FewerQueued(q, Decided(q, p, decision));
  }

  lemma DecideQuiet(q: Queue, p: PlanId, decision: Decision)
    requires Sound(q) && p in q.plans && q.plans[p].status == PendingApproval
    ensures Quiet(q, Decided(q, p, decision))
  {
    hide OneQueuedPerKind, AtMostOneRunning;
  }

  lemma DecideAndTellSound(q: Queue, p: PlanId, decision: Decision, comment: string, episode: string, now: real)
    requires Sound(q) && p in q.plans && q.plans[p].status == PendingApproval
    ensures var q' := DecidedAndTold(q, p, decision, comment, episode, now); Quiet(q, q') && Sound(q')
  {
    hide Quiet, Sound, Decided;
    var q1 := Decided(q, p, decision);
    var q' := DecidedAndTold(q, p, decision, comment, episode, now);
    DecideSound(q, p, decision);
    if q' != q1 {
      HumanSound(q1, "审批退回意见：" + comment, Steer, episode, now, q');
      QuietTransitive(q, q1, q');
    }
  }

  lemma ModeSound(q: Queue, mode: string)
    requires Sound(q)
    ensures Quiet(q, q.(mode := mode, grants := [])) && Sound(q.(mode := mode, grants := []))
  {
    FewerQueued(q, q.(mode := mode, grants := []));
  }

  /** Starting a queued job when none is running. */
  lemma StartSound(q: Queue, r: RunId, now: real)
    requires Sound(q) && q.Lists(r, Queued) && !SomeRunning(q)
    ensures Onward(q, Started(q, r, now)) && Sound(Started(q, r, now))
  {
    var q' := Started(q, r, now);
    assert r !in q.started;
    forall x | q'.Lists(x, Running)
      ensures x == r
    {
      assert x != r ==> q.Lists(x, Running);
    }
    forall x, y | q'.Lists(x, Queued) && q'.Lists(y, Queued) && q'.jobs[x].kind == q'.jobs[y].kind && q'.jobs[x].kind != OPERATOR
      ensures x == y
    {
      assert q.Lists(x, Queued) && q.Lists(y, Queued);
    }
  }

  lemma PollSound(q: Queue, now: real, simNow: real, deferRoutine: bool, claimed: Option<RunId>, q': Queue)
    requires Sound(q) && Claims(q, now, simNow, deferRoutine, claimed, q')
    ensures Onward(q, q') && Sound(q')
  {
    hide Quiet, Sound, Onward;
    var q0 := LeasesExpired(q, now);
    var q1 := PlansExpired(q0, simNow);
    LeasesSound(q, now);
    PlansSound(q0, simNow);
    QuietTransitive(q, q0, q1);
    QuietOnward(q, q1);
    if q' != q1 {
      var i: nat :| IsNext(q1, deferRoutine, i) && claimed.value == q1.listed[i] && q' == Started(q1, q1.listed[i], now);
      StartSound(q1, q1.listed[i], now);
      OnwardTransitive(q, q1, q');
    }
  }

  lemma QuietOnward(q: Queue, q': Queue)
    requires Quiet(q, q')
    ensures Onward(q, q')
  {
  }

  // ------------------------------------------------------------------- any interleaving

  lemma StepSound(q: Queue, step: Step, q': Queue)
    requires Sound(q) && Next(q, step, q')
    ensures Sound(q') && Onward(q, q')
  {
    hide Quiet, Sound, Onward;
    match step {
      case Poll(deferRoutine, now, simNow) =>
        var claimed :| Claims(q, now, simNow, deferRoutine, claimed, q');
        PollSound(q, now, simNow, deferRoutine, claimed, q');
      case _ =>
        QuietStep(q, step, q');
        QuietOnward(q, q');
    }
  }

  lemma QuietStep(q: Queue, step: Step, q': Queue)
    requires Sound(q) && Next(q, step, q') && !step.Poll?
    ensures Sound(q') && Quiet(q, q')
  {
    hide Quiet, Sound, Onward;
    UnchangedQuiet(q);
    match step {
      case Enqueue(kind, source, text, episode) => EnqueueSound(q, kind, source, text, episode);
      case Human(text, delivery, episode, now) => HumanSound(q, text, delivery, episode, now, q');
      case Beat(run, episode, current, ids, now) =>
        if Active(q, run, episode, current) { BeatSound(q, run, ids, now); }
      case Cancel(target) => CancelSound(q, target);
      case Complete(run, failed, episode) => CompleteSound(q, run, failed, episode);
      case Submit(run, kind, domain, auto, expiresAt) => SubmitSound(q, run, kind, domain, auto, expiresAt);
      case SweepPlans(simNow) => PlansSound(q, simNow);
      case Decide(plan, decision, comment, episode, now, simNow) =>
        var q1 := PlansExpired(q, simNow);
        PlansSound(q, simNow);
        if !(decision == Adjust && comment == "") && plan in q1.plans && q1.plans[plan].status == PendingApproval {
          DecideAndTellSound(q1, plan, decision, comment, episode, now);
          QuietTransitive(q, q1, q');
        }
      case SetMode(mode) => ModeSound(q, mode);
    }
  }

  ghost predicate Fresh(q: Queue) {
    q.jobs == map[] && q.listed == [] && q.plans == map[] && q.started == [] && q.grants == []
  }

  /** The states of a broker from the start, operation by operation. */
  ghost predicate IsRun(states: seq<Queue>, steps: seq<Step>) {
    && |states| == |steps| + 1 && Fresh(states[0])
    && forall i: nat :: i < |steps| ==> Next(states[i], steps[i], states[i + 1])
  }

  lemma {:induction false} RunSound(states: seq<Queue>, steps: seq<Step>, i: nat)
    requires IsRun(states, steps) && i < |states|
    ensures Sound(states[i])
  {
    if i > 0 {
      hide Next;
      var k := i - 1;
      RunSound(states, steps, k);
      assert Next(states[k], steps[k], states[k + 1]);
      StepSound(states[k], steps[k], states[i]);
    }
  }

  lemma {:induction false} RunOnward(states: seq<Queue>, steps: seq<Step>, i: nat, j: nat)
    requires IsRun(states, steps) && i <= j < |states|
    ensures Onward(states[i], states[j])
    decreases j - i
  {
    hide Onward, Sound, Next;
    RunSound(states, steps, i);
    if i == j {
      UnchangedQuiet(states[i]);
      QuietOnward(states[i], states[i]);
    } else {
      var k := j - 1;
      RunOnward(states, steps, i, k);
      RunSound(states, steps, k);
      assert Next(states[k], steps[k], states[k + 1]);
      StepSound(states[k], steps[k], states[j]);
      OnwardTransitive(states[i], states[k], states[j]);
    }
  }

  /** In every reachable state: one listed job runs at most, every run was started at most once, and
      each material kind has at most one queued job. */
  lemma ReachableQueue(states: seq<Queue>, steps: seq<Step>, i: nat)
    requires IsRun(states, steps) && i < |states|
    ensures AtMostOneRunning(states[i]) && OneQueuedPerKind(states[i]) && Distinct(states[i].started)
  {
    RunSound(states, steps, i);
  }

  /** A run that has been started and is not running, or not listed, is never accepted again. */
  lemma StoppedStaysStopped(states: seq<Queue>, steps: seq<Step>, i: nat, j: nat, r: RunId, episode: string, current: string)
    requires IsRun(states, steps) && i <= j < |states|
    requires r in states[i].started && !states[i].Lists(r, Running)
    ensures !states[j].Lists(r, Running) && !Active(states[j], r, episode, current)
  {
    RunSound(states, steps, i);
    RunOnward(states, steps, i, j);
  }

  /** A plan leaves pending approval at most once: after that its record never changes. */
  lemma DecidedStaysDecided(states: seq<Queue>, steps: seq<Step>, i: nat, j: nat, p: PlanId)
    requires IsRun(states, steps) && i <= j < |states|
    requires p in states[i].plans && states[i].plans[p].status != PendingApproval
    ensures p in states[j].plans && states[j].plans[p] == states[i].plans[p]
  {
    RunOnward(states, steps, i, j);
  }

  /** While a plan waits for approval past the sweep, no poll starts anything. */
  lemma NothingClaimedWhilePending(q: Queue, now: real, simNow: real, deferRoutine: bool, claimed: Option<RunId>, q': Queue, p: PlanId)
    requires Claims(q, now, simNow, deferRoutine, claimed, q')
    requires p in q.plans && q.plans[p].status == PendingApproval && !PlanOver(q.plans[p], simNow)
    ensures claimed == None && q'.started == q.started
  {
    var q1 := PlansExpired(LeasesExpired(q, now), simNow);
    assert q1.plans[p].status == PendingApproval;
  }

  // ------------------------------------------------------------------- session grants

  /** The operator approves a waiting plan of this kind for the session. */
  ghost predicate Grants(q: Queue, step: Step, kind: string) {
    step.Decide? && step.decision == ApproveSession && step.plan in q.plans
    && var plan := q.plans[step.plan];
       plan.kind == kind && plan.status == PendingApproval && !(plan.expiresAt.Some? && plan.expiresAt.value <= step.simNow)
  }

  ghost predicate SetsMode(step: Step) {
    step.SetMode? && step.mode in ["full", "assisted", "request"]
  }

  lemma StepGrants(q: Queue, step: Step, q': Queue, g: Grant)
    requires Next(q, step, q')
    ensures g in q'.grants <==>
              if SetsMode(step) then false
              else if Grants(q, step, g.kind) then q.plans[step.plan].domain == g.domain
              else g in q.grants
  {
    hide Claims, Beaten, Acknowledged, DecidedAndTold, PlansExpired, HumanQueued, LeasesExpired, Finished, Requeued, CancelledRuns;
    match step
    case Enqueue(kind, source, text, episode) =>
    case Human(text, delivery, episode, now) => HumanKeepsPlans(q, text, delivery, episode, now);
    case Poll(deferRoutine, now, simNow) => PollGrants(q, step, q');
    case Beat(run, episode, current, ids, now) => BeatGrants(q, run, ids, now);
    case Cancel(target) => CancelGrants(q, target);
    case Complete(run, failed, episode) => FinishedGrants(q, run, failed, episode);
    case Submit(run, kind, domain, auto, expiresAt) =>
    case SweepPlans(simNow) => SweptMeans(q, 0, simNow);
    case Decide(plan, decision, comment, episode, now, simNow) =>
      SweptMeans(q, plan, simNow);
      var q1 := PlansExpired(q, simNow);
      if plan in q1.plans && q1.plans[plan].status == PendingApproval {
        DecidedMeans(q1, plan, decision, comment, episode, now);
      }
    case SetMode(mode) =>
  }

  lemma BeatGrants(q: Queue, r: RunId, ids: set<nat>, now: real)
    ensures r in q.jobs ==> Beaten(q, r, ids, now).grants == q.grants
  {
  }

  lemma CancelGrants(q: Queue, target: Option<RunId>)
    ensures CancelledRuns(q, target).grants == q.grants
  {
  }

  lemma PollGrants(q: Queue, step: Step, q': Queue)
    requires step.Poll? && Next(q, step, q')
    ensures q'.grants == q.grants
  {
    hide IsNext, Eligible, LeaseOver, PlanOver, SomeRunning, SomePending;
  }

  lemma {:induction false} RequeuedGrants(q: Queue, items: seq<Item>, episode: string)
    ensures Requeued(q, items, episode).grants == q.grants
    decreases |items|
  {
    if items != [] {
      RequeuedGrants(Enqueued(q, OPERATOR, "feedback", items[0].text, episode).0, items[1..], episode);
    }
  }

  lemma FinishedGrants(q: Queue, r: RunId, failed: bool, episode: string)
    requires r in q.jobs
    ensures Finished(q, r, failed, episode).grants == q.grants
  {
    hide Requeued;
    var job := q.jobs[r];
    var q1 := q.(jobs := q.jobs[r := job.(status := if failed then Failed else Completed, feedback := [], accepted := [])]);
    RequeuedGrants(q1, Remaining(job, failed), episode);
  }

  /** Step `j` granted what `g` says, and since then no mode was set and nothing else granted for the kind. */
  ghost predicate StandsFrom(states: seq<Queue>, steps: seq<Step>, j: nat, i: nat, g: Grant)
    requires |states| == |steps| + 1
  {
    && j < i < |states| && Grants(states[j], steps[j], g.kind) && states[j].plans[steps[j].plan].domain == g.domain
    && forall k: nat :: j < k < i ==> LeavesGrants(states, steps, k, g.kind)
  }

  ghost predicate LeavesGrants(states: seq<Queue>, steps: seq<Step>, k: nat, kind: string) {
    k < |steps| && k < |states| && !SetsMode(steps[k]) && !Grants(states[k], steps[k], kind)
  }

  /** In every run, what is granted is exactly what the operator approved for the session, since the mode was
      last set and the kind last granted. */
  lemma {:induction false} GrantsRest(states: seq<Queue>, steps: seq<Step>, i: nat, g: Grant)
    requires IsRun(states, steps) && i < |states|
    ensures g in states[i].grants <==> exists j: nat :: StandsFrom(states, steps, j, i, g)
  {
    hide Next, Grants, SetsMode;
    if i > 0 {
      var k := i - 1;
      GrantsRest(states, steps, k, g);
      assert Next(states[k], steps[k], states[k + 1]);
      StepGrants(states[k], steps[k], states[i], g);
      StandsNext(states, steps, k, g);
    }
  }

  lemma StandsNext(states: seq<Queue>, steps: seq<Step>, k: nat, g: Grant)
    requires |states| == |steps| + 1 && k < |steps|
    ensures var i := k + 1;
            (exists j: nat :: StandsFrom(states, steps, j, i, g)) <==>
              if SetsMode(steps[k]) then false
              else if Grants(states[k], steps[k], g.kind) then states[k].plans[steps[k].plan].domain == g.domain
              else exists j: nat :: StandsFrom(states, steps, j, k, g)
  {
    hide SetsMode;
    var i := k + 1;
    SetsNothing(states[k], steps[k], g.kind);
    forall j: nat
      ensures StandsFrom(states, steps, j, i, g) <==>
                (j == k && Grants(states[k], steps[k], g.kind) && states[k].plans[steps[k].plan].domain == g.domain)
                || (StandsFrom(states, steps, j, k, g) && LeavesGrants(states, steps, k, g.kind))
    {
      hide Grants;
      if StandsFrom(states, steps, j, i, g) && j != k {
        assert LeavesGrants(states, steps, k, g.kind);
      }
    }
    if exists j: nat :: StandsFrom(states, steps, j, k, g) {
      var j: nat :| StandsFrom(states, steps, j, k, g);
      assert LeavesGrants(states, steps, k, g.kind) ==> StandsFrom(states, steps, j, i, g);
    }
    if Grants(states[k], steps[k], g.kind) && states[k].plans[steps[k].plan].domain == g.domain {
      assert StandsFrom(states, steps, k, i, g);
    }
  }

  lemma SetsNothing(q: Queue, step: Step, kind: string)
    ensures SetsMode(step) ==> !Grants(q, step, kind)
  {
  }

  /** So in every run a submitted plan needs no approval exactly if its caller says so, or the caller leaves it
      open and the mode is full, or the operator has approved its kind and domain for the session. */
  lemma ApprovalRests(states: seq<Queue>, steps: seq<Step>, i: nat)
    requires IsRun(states, steps) && i < |steps| && steps[i].Submit?
    ensures states[i].next in states[i + 1].plans
    ensures var step, plan := steps[i], states[i + 1].plans[states[i].next];
            && (plan.status == AutoApproved <==>
                  step.auto == Some(true) || (step.auto == None && states[i].mode == "full")
                  || exists j: nat :: StandsFrom(states, steps, j, i, Grant(step.kind, step.domain)))
            && (plan.status != AutoApproved ==> plan.status == PendingApproval)
  {
    hide StandsFrom;
    assert Next(states[i], steps[i], states[i + 1]);
    GrantsRest(states, steps, i, Grant(steps[i].kind, steps[i].domain));
  }

  // ---------------------------------------------------------------------------- leases

  /** The step looks at leases at this time, or not at all. */
  ghost predicate LooksBefore(q: Queue, step: Step, deadline: real) {
    match step
    case Human(_, _, _, now) => now < deadline
    case Poll(_, now, _) => now < deadline
    case Decide(_, _, _, _, now, _) => now < deadline
    case _ => true
  }

  /** Nothing but its lease could end the run in this step. */
  ghost predicate LeavesRun(q: Queue, step: Step, r: RunId) {
    match step
    case Beat(run, _, _, _, _) => run != r
    case Cancel(target) => target.Some? && target.value != r
    case Complete(run, _, _) => run != r
    case Decide(plan, _, _, _, _, _) => plan in q.plans ==> q.plans[plan].run != r
    case _ => true
  }

  ghost predicate RunsUntil(q: Queue, r: RunId, deadline: real) {
    r in q.jobs && q.jobs[r].status == Running && q.jobs[r].lease == Some(deadline)
  }

  ghost predicate SafeStep(states: seq<Queue>, steps: seq<Step>, k: nat, r: RunId, deadline: real) {
    k < |steps| && k < |states| && LooksBefore(states[k], steps[k], deadline) && LeavesRun(states[k], steps[k], r)
  }

  lemma LeaseStep(q: Queue, step: Step, q': Queue, r: RunId, deadline: real)
    requires Sound(q) && Next(q, step, q') && RunsUntil(q, r, deadline) && LooksBefore(q, step, deadline) && LeavesRun(q, step, r)
    ensures RunsUntil(q', r, deadline)
  {
    hide AtMostOneRunning, OneQueuedPerKind, Requeued, Acknowledged, IsNext, SomeRunning, SomePending, DecidedAndTold, HumanQueued, Enqueued,
         Claims, Finished;
    match step
    case Enqueue(kind, source, text, episode) => EnqueueLeaves(q, kind, source, text, episode, r);
    case Human(text, delivery, episode, now) => HumanLeaves(q, text, delivery, episode, now, r, deadline);
    case Poll(deferRoutine, now, simNow) => PollLeaves(q, step, q', r, deadline);
    case Beat(run, episode, current, ids, now) =>
    case Cancel(target) =>
    case Complete(run, failed, episode) => FinishedLeaves(q, run, failed, episode, r);
    case Submit(run, kind, domain, auto, expiresAt) =>
    case SweepPlans(simNow) =>
    case Decide(plan, decision, comment, episode, now, simNow) =>
      var q1 := PlansExpired(q, simNow);
      if !(decision == Adjust && comment == "") && plan in q1.plans && q1.plans[plan].status == PendingApproval {
        DecideLeaves(q1, plan, decision, comment, episode, now, r, deadline);
      }
    case SetMode(mode) =>
  }

  lemma EnqueueLeaves(q: Queue, kind: string, source: string, text: string, episode: string, r: RunId)
    requires r in q.jobs && r < q.next && q.jobs[r].status == Running
    ensures var q' := Enqueued(q, kind, source, text, episode).0; r in q'.jobs && q'.jobs[r] == q.jobs[r] && q.next <= q'.next
  {
    hide NewJob, Cut, Newest;
  }

  lemma ExpiryLeaves(q: Queue, now: real, r: RunId, deadline: real)
    requires RunsUntil(q, r, deadline) && now < deadline
    ensures RunsUntil(LeasesExpired(q, now), r, deadline) && LeasesExpired(q, now).next == q.next
  {
  }

  lemma HumanLeaves(q: Queue, text: string, delivery: Delivery, episode: string, now: real, r: RunId, deadline: real)
    requires RunsUntil(q, r, deadline) && r < q.next && now < deadline
    ensures match HumanQueued(q, text, delivery, episode, now)
            case None => RunsUntil(LeasesExpired(q, now), r, deadline)
            case Some((q', _)) => RunsUntil(q', r, deadline)
  {
    hide Enqueued, LeasesExpired, Cut;
    ExpiryLeaves(q, now, r, deadline);
    EnqueueLeaves(LeasesExpired(q, now), OPERATOR, "human", text, episode, r);
  }

  lemma PollLeaves(q: Queue, step: Step, q': Queue, r: RunId, deadline: real)
    requires step.Poll? && Next(q, step, q') && RunsUntil(q, r, deadline) && step.now < deadline
    ensures RunsUntil(q', r, deadline)
  {
    hide SomeRunning, SomePending, LeaseOver, PlanOver, LeasesExpired;
    ExpiryLeaves(q, step.now, r, deadline);
    var q1 := PlansExpired(LeasesExpired(q, step.now), step.simNow);
    assert RunsUntil(q1, r, deadline);
  }

  lemma {:induction false} RequeueKeepsRun(q: Queue, items: seq<Item>, episode: string, r: RunId)
    requires r in q.jobs && r < q.next && q.jobs[r].status == Running
    ensures r in Requeued(q, items, episode).jobs && Requeued(q, items, episode).jobs[r] == q.jobs[r]
    decreases |items|
  {
    hide Enqueued;
    if items != [] {
      EnqueueLeaves(q, OPERATOR, "feedback", items[0].text, episode, r);
      RequeueKeepsRun(Enqueued(q, OPERATOR, "feedback", items[0].text, episode).0, items[1..], episode, r);
    }
  }

  lemma FinishedLeaves(q: Queue, run: RunId, failed: bool, episode: string, r: RunId)
    requires run in q.jobs && r != run && r in q.jobs && r < q.next && q.jobs[r].status == Running
    ensures r in Finished(q, run, failed, episode).jobs && Finished(q, run, failed, episode).jobs[r] == q.jobs[r]
  {
    hide Requeued;
    var job := q.jobs[run];
    var q1 := q.(jobs := q.jobs[run := job.(status := if failed then Failed else Completed, feedback := [], accepted := [])]);
    RequeueKeepsRun(q1, Remaining(job, failed), episode, r);
  }

  lemma DecideLeaves(q: Queue, p: PlanId, decision: Decision, comment: string, episode: string, now: real, r: RunId, deadline: real)
    requires p in q.plans && q.plans[p].run != r && RunsUntil(q, r, deadline) && r < q.next && now < deadline
    ensures RunsUntil(DecidedAndTold(q, p, decision, comment, episode, now), r, deadline)
  {
    hide HumanQueued, LeasesExpired, WithoutKind;
    var q1 := Decided(q, p, decision);
    HumanLeaves(q1, "审批退回意见：" + comment, Steer, episode, now, r, deadline);
    ExpiryLeaves(q1, now, r, deadline);
  }

  /** A run is not expired while every look at its lease comes before the lease is over: `LEASE_SECONDS` after it
      was claimed or its last accepted heartbeat. */
  lemma {:induction false} LeaseHolds(states: seq<Queue>, steps: seq<Step>, i: nat, j: nat, r: RunId, deadline: real)
    requires IsRun(states, steps) && i <= j < |states| && RunsUntil(states[i], r, deadline)
    requires forall k: nat :: i <= k < j ==> SafeStep(states, steps, k, r, deadline)
    ensures RunsUntil(states[j], r, deadline)
    decreases j - i
  {
    hide Next, LooksBefore, LeavesRun, RunsUntil, Sound;
    if i < j {
      var k := j - 1;
      LeaseHolds(states, steps, i, k, r, deadline);
      RunSound(states, steps, k);
      assert SafeStep(states, steps, k, r, deadline);
      assert Next(states[k], steps[k], states[k + 1]);
      LeaseStep(states[k], steps[k], states[j], r, deadline);
    }
  }

  /** An accepted heartbeat sets the lease to `LEASE_SECONDS` from then. */
  lemma BeatRenews(q: Queue, step: Step, q': Queue)
    requires step.Beat? && Next(q, step, q') && Active(q, step.run, step.episode, step.current)
    ensures RunsUntil(q', step.run, step.now + 15.0)
  {
    hide Acknowledged;
    AcknowledgedKeeps(q.jobs[step.run].(lease := Some(step.now + LEASE_SECONDS)), step.ids);
  }

  lemma AcknowledgedKeeps(job: Job, ids: set<nat>)
    ensures Acknowledged(job, ids).status == job.status && Acknowledged(job, ids).lease == job.lease
  {
  }

  // ---------------------------------------------------------------------------- claiming

  lemma ClaimedGoesFirst(q: Queue, now: real, simNow: real, deferRoutine: bool, claimed: RunId, q': Queue, s: RunId)
    requires Claims(q, now, simNow, deferRoutine, Some(claimed), q')
    ensures q.Lists(claimed, Queued) && Eligible(q, claimed, deferRoutine) && RunsUntil(q', claimed, now + LEASE_SECONDS)
    ensures Eligible(q, s, deferRoutine) ==> !Outranks(q.jobs[s], q.jobs[claimed])
  {
    hide Outranks, JobPriority, SourcePriority;
    var q1 := PlansExpired(LeasesExpired(q, now), simNow);
    var i: nat :| IsNext(q1, deferRoutine, i) && claimed == q1.listed[i] && q' == Started(q1, q1.listed[i], now);
    assert q1.jobs[claimed] == q.jobs[claimed];
    if Eligible(q, s, deferRoutine) {
      assert q1.Lists(s, Queued) && q1.jobs[s] == q.jobs[s];
      var j: nat :| j < |q1.listed| && q1.listed[j] == s;
      assert !Outranks(q1.jobs[q1.listed[j]], q1.jobs[claimed]);
    }
  }

  lemma SomethingClaimed(q: Queue, now: real, simNow: real, deferRoutine: bool, q': Queue, s: RunId)
    requires Claims(q, now, simNow, deferRoutine, None, q') && Eligible(q, s, deferRoutine)
    ensures !NothingInTheWay(q, now, simNow)
  {
    hide JobPriority, SourcePriority;
    var q1 := PlansExpired(LeasesExpired(q, now), simNow);
    assert q1.Lists(s, Queued) && q1.jobs[s] == q.jobs[s];
    assert Eligible(q1, s, deferRoutine);
  }

  /** What a poll starts: a queued job that nothing goes before, with a lease of its own; and it starts one
      whenever nothing runs, no plan waits, and an operator job is queued, or any job and routine is not deferred. */
  lemma ClaimMeans(q: Queue, now: real, simNow: real, deferRoutine: bool, claimed: Option<RunId>, q': Queue, s: RunId)
    requires Claims(q, now, simNow, deferRoutine, claimed, q')
    ensures claimed.Some? ==> q.Lists(claimed.value, Queued) && RunsUntil(q', claimed.value, now + 15.0)
    ensures claimed.Some? && q.Lists(s, Queued) && q.jobs[s].kind == OPERATOR ==> q.jobs[claimed.value].kind == OPERATOR
    ensures claimed.Some? && q.Lists(s, Queued) && q.jobs[s].kind in [LEGACY_PLAN, SELECTION] ==>
              q.jobs[claimed.value].kind in [OPERATOR, LEGACY_PLAN, SELECTION]
    ensures claimed.Some? && q.Lists(s, Queued) && q.jobs[s].kind == q.jobs[claimed.value].kind && q.jobs[s].source in ["human", "feedback"] ==>
              q.jobs[claimed.value].source in ["human", "feedback"]
    ensures claimed.Some? && deferRoutine ==>
              q.jobs[claimed.value].kind in [OPERATOR, LEGACY_PLAN, SELECTION] || q.jobs[claimed.value].source in ["human", "feedback"]
    ensures q.Lists(s, Queued) && (q.jobs[s].kind == OPERATOR || !deferRoutine) && NothingInTheWay(q, now, simNow) ==> claimed.Some?
  {
    hide Claims, RunsUntil, NothingInTheWay;
    if claimed.Some? {
      ClaimedGoesFirst(q, now, simNow, deferRoutine, claimed.value, q', s);
    } else if Eligible(q, s, deferRoutine) {
      SomethingClaimed(q, now, simNow, deferRoutine, q', s);
    }
  }

  /** No run is under its lease and no plan waits for approval. */
  ghost predicate NothingInTheWay(q: Queue, now: real, simNow: real) {
    && (forall r :: r in q.listed && r in q.jobs && q.jobs[r].status == Running ==> q.jobs[r].lease.Some? && q.jobs[r].lease.value <= now)
    && (forall p :: p in q.plans && q.plans[p].status == PendingApproval ==>
          q.plans[p].expiresAt.Some? && q.plans[p].expiresAt.value <= simNow)
  }

  /** Among jobs of one kind and source the one listed first is started first. */
  lemma FirstComeFirst(q: Queue, now: real, simNow: real, deferRoutine: bool, claimed: Option<RunId>, q': Queue, j: nat)
    requires Sound(q) && Claims(q, now, simNow, deferRoutine, claimed, q') && claimed.Some?
    requires j < |q.listed| && q.Lists(q.listed[j], Queued)
    requires q.jobs[q.listed[j]].kind == q.jobs[claimed.value].kind && q.jobs[q.listed[j]].source == q.jobs[claimed.value].source
    ensures exists i: nat :: i <= j && i < |q.listed| && q.listed[i] == claimed.value
  {
    var q1 := PlansExpired(LeasesExpired(q, now), simNow);
    var i: nat :| IsNext(q1, deferRoutine, i) && claimed.value == q1.listed[i] && q' == Started(q1, q1.listed[i], now);
    var s := q.listed[j];
    assert q1.Lists(s, Queued) && q1.jobs[s] == q.jobs[s] && q1.jobs[claimed.value] == q.jobs[claimed.value];
    assert Eligible(q1, s, deferRoutine);
    assert !Outranks(q1.jobs[claimed.value], q1.jobs[s]);
  }
}
