/** The queue of agent jobs as a value, and what each broker operation does to it.

    Jobs are shared objects: a caller may still hold one the broker no longer lists.  So
    `jobs` keeps every job ever created, and `listed` says which ones the broker lists,
    oldest first.  `started` is the history of claims.
  */
module AgentQueue {

  import opened Finite

  type RunId = nat
  type PlanId = nat

  const OPERATOR := "operator-message/v1"
  const LEGACY_PLAN := "legacy-plan/v1"
  const SELECTION := "mission-selection/v1"
  const MAX_JOBS := 40
  const MAX_FEEDBACK_PER_RUN := 8
  const LEASE_SECONDS := 15.0
  const MAX_MESSAGE_CHARS := 4000

  datatype Status = Queued | Running | Completed | Failed | Cancelled

  datatype Delivery = Steer | FollowUp

  datatype Item = Item(id: nat, text: string, delivery: Delivery)

  datatype Job = Job(episode: string, kind: string, source: string, text: string, status: Status,
                     lease: Option<real>, feedback: seq<Item>, accepted: seq<Item>, coalesced: nat)

  datatype PlanStatus = PendingApproval | Approved | AutoApproved | Rejected | Expired

  datatype Plan = Plan(run: RunId, kind: string, domain: seq<real>, status: PlanStatus, expiresAt: Option<real>)

  datatype Grant = Grant(kind: string, domain: seq<real>)

  datatype Queue = Queue(jobs: map<RunId, Job>, listed: seq<RunId>, plans: map<PlanId, Plan>, grants: seq<Grant>,
                         mode: string, next: nat, started: seq<RunId>)
  {
    predicate Lists(r: RunId, status: Status) {
      r in listed && r in jobs && jobs[r].status == status
    }
  }

  function Cut(text: string, n: nat): string {
    if |text| <= n then text else text[..n]
  }

  /** The newest jobs, as many as are listed. */
  function Newest(listed: seq<RunId>): seq<RunId> {
    if |listed| <= MAX_JOBS then listed else listed[|listed| - MAX_JOBS..]
  }

  /** The first listed job of a status, and of a kind if one is given. */
  function FirstWith(q: Queue, listed: seq<RunId>, status: Status, kind: Option<string>): (r: Option<RunId>)
    ensures r.Some? ==> r.value in listed && r.value in q.jobs && q.jobs[r.value].status == status
                        && (kind.Some? ==> q.jobs[r.value].kind == kind.value)
    ensures r.None? ==> forall x :: x in listed && x in q.jobs && q.jobs[x].status == status ==>
                          kind.Some? && q.jobs[x].kind != kind.value
  {
    if listed == [] then None
    else if listed[0] in q.jobs && q.jobs[listed[0]].status == status
            && (kind.None? || q.jobs[listed[0]].kind == kind.value) then Some(listed[0])
    else FirstWith(q, listed[1..], status, kind)
  }

  function NewJob(kind: string, source: string, text: string, episode: string): Job {
    Job(episode, kind, source, Cut(text, MAX_MESSAGE_CHARS), Queued, None, [], [], 0)
  }

  /** Material jobs coalesce by kind; otherwise a new job is listed. */
  function Enqueued(q: Queue, kind: string, source: string, text: string, episode: string): (Queue, RunId) {
    var pending := if kind == OPERATOR then None else FirstWith(q, q.listed, Queued, Some(kind));
    if pending.Some? then
      var job := q.jobs[pending.value];
      (q.(jobs := q.jobs[pending.value := job.(text := Cut(text, MAX_MESSAGE_CHARS), coalesced := job.coalesced + 1)]),
       pending.value)
    else
      (q.(jobs := q.jobs[q.next := NewJob(kind, source, text, episode)],
          listed := Newest(q.listed + [q.next]), next := q.next + 1), q.next)
  }

  predicate LeaseOver(q: Queue, r: RunId, now: real) {
    q.Lists(r, Running) && q.jobs[r].lease.Some? && q.jobs[r].lease.value <= now
  }

  ghost function LeasesExpired(q: Queue, now: real): Queue {
    q.(jobs := map r | r in q.jobs :: if LeaseOver(q, r, now) then q.jobs[r].(status := Failed) else q.jobs[r])
  }

  predicate PlanOver(p: Plan, simNow: real) {
    p.status == PendingApproval && p.expiresAt.Some? && simNow >= p.expiresAt.value
  }

  ghost function PlansExpired(q: Queue, simNow: real): Queue {
    q.(plans := map p | p in q.plans :: if PlanOver(q.plans[p], simNow) then q.plans[p].(status := Expired) else q.plans[p])
  }

  /** Operator text: feedback of the running job if there is one, a job of its own if not. */
  ghost function HumanQueued(q: Queue, text: string, delivery: Delivery, episode: string, now: real): Option<(Queue, RunId)> {
    var q1 := LeasesExpired(q, now);
    match FirstWith(q1, q1.listed, Running, None)
    case None => Some(Enqueued(q1, OPERATOR, "human", text, episode))
    case Some(r) =>
      var job := q1.jobs[r];
      if |job.feedback| + |job.accepted| >= MAX_FEEDBACK_PER_RUN then None
      else
        var item := Item(q1.next, Cut(text, MAX_MESSAGE_CHARS), delivery);
        Some((q1.(jobs := q1.jobs[r := job.(feedback := job.feedback + [item])], next := q1.next + 1), r))
  }

  // ---------------------------------------------------------------- worker lifecycle

  function JobPriority(kind: string): nat {
    if kind == OPERATOR then 0 else if kind == LEGACY_PLAN || kind == SELECTION then 1 else 2
  }

  function SourcePriority(source: string): nat {
    if source == "human" || source == "feedback" then 0 else 2
  }

  predicate Eligible(q: Queue, r: RunId, deferRoutine: bool) {
    q.Lists(r, Queued)
    && (!deferRoutine || JobPriority(q.jobs[r].kind) < 2 || SourcePriority(q.jobs[r].source) < 2)
  }

  predicate Outranks(a: Job, b: Job) {
    JobPriority(a.kind) < JobPriority(b.kind)
    || (JobPriority(a.kind) == JobPriority(b.kind) && SourcePriority(a.source) < SourcePriority(b.source))
  }

  /** The first of the highest-ranking eligible jobs. */
  ghost predicate IsNext(q: Queue, deferRoutine: bool, i: nat) {
    && i < |q.listed| && Eligible(q, q.listed[i], deferRoutine)
    && (forall j: nat :: j < |q.listed| && Eligible(q, q.listed[j], deferRoutine) ==> !Outranks(q.jobs[q.listed[j]], q.jobs[q.listed[i]]))
    && (forall j: nat :: j < i && Eligible(q, q.listed[j], deferRoutine) ==> Outranks(q.jobs[q.listed[i]], q.jobs[q.listed[j]]))
  }

  ghost predicate SomePending(q: Queue) {
    exists p :: p in q.plans && q.plans[p].status == PendingApproval
  }

  ghost predicate SomeRunning(q: Queue) {
    exists r :: q.Lists(r, Running)
  }

  function Started(q: Queue, r: RunId, now: real): Queue
    requires r in q.jobs
  {
    q.(jobs := q.jobs[r := q.jobs[r].(status := Running, lease := Some(now + LEASE_SECONDS))], started := q.started + [r])
  }

  /** A worker poll: what is claimed, and the queue after it. */
  ghost predicate Claims(q: Queue, now: real, simNow: real, deferRoutine: bool, claimed: Option<RunId>, q': Queue) {
    var q1 := PlansExpired(LeasesExpired(q, now), simNow);
    if SomeRunning(q1) || SomePending(q1) || (forall r :: !Eligible(q1, r, deferRoutine)) then claimed == None && q' == q1
    else claimed.Some? && exists i: nat ::
      IsNext(q1, deferRoutine, i) && claimed.value == q1.listed[i] && q' == Started(q1, q1.listed[i], now)
  }

  /** Heartbeats and tool calls are accepted for this run. */
  predicate Active(q: Queue, r: RunId, episode: string, current: string) {
    (episode == "" || episode == current) && q.Lists(r, Running) && q.jobs[r].episode == current
  }

  function Keep(items: seq<Item>, ids: set<nat>, accepted: bool): (r: seq<Item>)
    ensures forall x :: x in r <==> x in items && (x.id in ids <==> accepted)
  {
    if items == [] then []
    else if (items[0].id in ids) == accepted then [items[0]] + Keep(items[1..], ids, accepted)
    else Keep(items[1..], ids, accepted)
  }

  /** Acknowledged feedback moves from pending to accepted, in order. */
  function Acknowledged(job: Job, ids: set<nat>): Job {
    job.(accepted := job.accepted + Keep(job.feedback, ids, true), feedback := Keep(job.feedback, ids, false))
  }

  /** An accepted heartbeat. */
  function Beaten(q: Queue, r: RunId, ids: set<nat>, now: real): Queue
    requires r in q.jobs
  {
    q.(jobs := q.jobs[r := Acknowledged(q.jobs[r].(lease := Some(now + LEASE_SECONDS)), ids)])
  }

  predicate Cancels(q: Queue, target: Option<RunId>, r: RunId) {
    (target.None? || target.value == r) && (q.Lists(r, Queued) || q.Lists(r, Running))
  }

  ghost function CancelledRuns(q: Queue, target: Option<RunId>): Queue {
    q.(jobs := map r | r in q.jobs ::
      if Cancels(q, target, r) then q.jobs[r].(status := Cancelled, feedback := []) else q.jobs[r])
  }

  /** Feedback left over becomes jobs of its own, in order. */
  function Requeued(q: Queue, items: seq<Item>, episode: string): Queue
    decreases |items|
  {
    if items == [] then q
    else Requeued(Enqueued(q, OPERATOR, "feedback", items[0].text, episode).0, items[1..], episode)
  }

  /** What a finished run leaves to be requeued. */
  function Remaining(job: Job, failed: bool): seq<Item> {
    if failed then job.accepted + job.feedback else job.feedback
  }

  function Finished(q: Queue, r: RunId, failed: bool, episode: string): Queue
    requires r in q.jobs
  {
    var job := q.jobs[r];
    if job.status != Running && job.status != Queued then q
    else
      var q1 := q.(jobs := q.jobs[r := job.(status := if failed then Failed else Completed, feedback := [], accepted := [])]);
      Requeued(q1, Remaining(job, failed), episode)
  }

  // ------------------------------------------------------------------------ plans

  predicate Granted(q: Queue, kind: string, domain: seq<real>) {
    Grant(kind, domain) in q.grants
  }

  function Submitted(q: Queue, r: RunId, kind: string, domain: seq<real>, auto: Option<bool>, expiresAt: Option<real>): Queue {
    var approved := (if auto.Some? then auto.value else q.mode == "full") || Granted(q, kind, domain);
    q.(plans := q.plans[q.next := Plan(r, kind, domain, if approved then AutoApproved else PendingApproval, expiresAt)],
       next := q.next + 1)
  }

  datatype Decision = ApproveOnce | ApproveSession | Reject | Adjust

  function WithoutKind(grants: seq<Grant>, kind: string): seq<Grant> {
    if grants == [] then []
    else if grants[0].kind == kind then WithoutKind(grants[1..], kind)
    else [grants[0]] + WithoutKind(grants[1..], kind)
  }

  /** The operator's decision on a pending plan; a rejected plan fails its job. */
  function Decided(q: Queue, p: PlanId, decision: Decision): Queue
    requires p in q.plans
  {
    var plan := q.plans[p];
    var approved := decision == ApproveOnce || decision == ApproveSession;
    var q1 := q.(plans := q.plans[p := plan.(status := if approved then Approved else Rejected)],
                 grants := if decision == ApproveSession then WithoutKind(q.grants, plan.kind) + [Grant(plan.kind, plan.domain)]
                           else q.grants);
    if !approved && plan.run in q.listed && plan.run in q.jobs
    then q1.(jobs := q1.jobs[plan.run := q1.jobs[plan.run].(status := Failed)])
    else q1
  }
}
