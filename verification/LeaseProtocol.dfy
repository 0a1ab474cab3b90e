/** Each transaction of the lease protocol as one function from the database before it to the database
    after it. The functions say at once, for every row, what a transaction leaves behind; the loops that
    produce those rows are in LeaseService, which is proved against them. */
module LeaseProtocol {
  import opened Model

  /** What the foreign keys guarantee: every row's references resolve. */
  predicate WellFormed(c: Cluster) {
    && c.log.Keys == c.jobs.Keys
    && (forall l | l in c.leases :: c.leases[l].job in c.jobs && c.leases[l].node in c.nodes)
  }

  predicate IsCurrent(c: Cluster, l: LeaseId)
    requires l in c.leases && c.leases[l].job in c.jobs
  {
    c.leases[l].epoch == c.jobs[c.leases[l].job].epoch
  }

  // --- Audited transitions ---------------------------------------------------------------------

  /** The job row after a transition to `to`. */
  function Moved(job: Job, to: JobState, now: int): Job {
    job.(state := to,
    startedAt := if (to == Leased || to == Running) && job.startedAt == None then Some(now) else job.startedAt,
    finishedAt := if IsTerminal(to) then Some(now) else job.finishedAt)
  }

  function Logged(log: map<JobId, seq<Event>>, j: JobId, from: JobState, to: JobState): map<JobId, seq<Event>>
    requires j in log
  {
    log[j := log[j] + [Event(Some(from), to)]]
  }

  /** A checked transition: refused, leaving everything untouched, when the table has no such edge. */
  function Transition(c: Cluster, j: JobId, to: JobState, now: int): Outcome<Cluster>
    requires WellFormed(c) && j in c.jobs
  {
    var from := c.jobs[j].state;
    if CanTransition(from, to) then
      Ok(c.(jobs := c.jobs[j := Moved(c.jobs[j], to, now)], log := Logged(c.log, j, from, to)))
    else
      Err(IllegalTransition(from, to))
  }

  /** An audit row that changes no state. */
  function Noted(c: Cluster, j: JobId): Cluster
    requires WellFormed(c) && j in c.jobs
  {
    c.(log := Logged(c.log, j, c.jobs[j].state, c.jobs[j].state))
  }

  // --- Creation, nodes, placement ----------------------------------------------------------------

  function NewJob(world: nat): Job {
    Job(JobState.Queued, world, 0, 0, None, None, None, None, None, None)
  }

  function Create(c: Cluster, j: JobId, world: nat): Cluster {
    if j in c.jobs || j in c.log || world == 0 then c
    else c.(jobs := c.jobs[j := NewJob(world)], log := c.log[j := [Event(None, JobState.Queued)]])
  }

  function Register(c: Cluster, n: NodeId): Cluster {
    if n in c.nodes then c else c.(nodes := c.nodes[n := Node(Offline, 0, 0, None)])
  }

  function SetStatus(c: Cluster, n: NodeId, status: NodeStatus): Cluster {
    if n in c.nodes then c.(nodes := c.nodes[n := c.nodes[n].(status := status)]) else c
  }

  predicate Distinct<T(==)>(s: seq<T>) {
    forall i, k | 0 <= i < k < |s| :: s[i] != s[k]
  }

  /** The guard of a placement: a job waiting for one, a whole cohort of known nodes, unused lease ids. */
  predicate CanPlace(c: Cluster, j: JobId, cohort: seq<NodeId>, ids: seq<LeaseId>) {
    && j in c.jobs && j in c.log
    && c.jobs[j].state in {JobState.Queued, Reassigned}
    && |cohort| == |ids| == c.jobs[j].world
    && 0 < |cohort|
    && (forall n | n in cohort :: n in c.nodes)
    && Distinct(ids)
    && (forall l | l in ids :: l !in c.leases)
  }

  function NewSlot(j: JobId, n: NodeId, epoch: nat, rank: nat, s: Settings, now: int): Lease {
    Lease(j, n, epoch, rank, Pending, now, now + s.ttl, None, None)
  }

  /** The position of `x` in `s`. */
  function IndexOf<T(==)>(s: seq<T>, x: T): (i: nat)
    requires x in s
    ensures i < |s| && s[i] == x
  {
    if s[0] == x then 0 else 1 + IndexOf(s[1..], x)
  }

  function Slots(j: JobId, epoch: nat, cohort: seq<NodeId>, ids: seq<LeaseId>, s: Settings, now: int): map<LeaseId, Lease>
    requires |cohort| == |ids|
  {
    map l | l in ids :: NewSlot(j, cohort[IndexOf(ids, l)], epoch, IndexOf(ids, l), s, now)
  }

  /** A placement mints one epoch and stamps it on a PENDING slot for every rank; rank 0 is the host. */
  function Place(c: Cluster, s: Settings, j: JobId, cohort: seq<NodeId>, ids: seq<LeaseId>, now: int): Cluster {
    if !CanPlace(c, j, cohort, ids) then c
    else
      var job := c.jobs[j];
      var placed := job.(epoch := job.epoch + 1, scheduledNode := Some(cohort[0]), rendezvousNode := Some(cohort[0]));
      Cluster(
        c.jobs[j := Moved(placed, Scheduled, now)],
        c.leases + Slots(j, job.epoch + 1, cohort, ids, s, now),
        c.nodes,
        Logged(c.log, j, job.state, Scheduled))
  }

  // --- Claim ---------------------------------------------------------------------------------------

  /** The slots a claim by node `n` may select: PENDING rows of that node nobody else has locked. */
  function Claimable(c: Cluster, n: NodeId, locked: set<LeaseId>): set<LeaseId> {
    set l | l in c.leases && c.leases[l].node == n && c.leases[l].state == Pending && l !in locked
  }

  /** A claim of slot `l`: it becomes ACTIVE, the first claim of a cohort also moves the job to LEASED,
      and a slot of a superseded attempt is left alone. */
  function ClaimSlot(c: Cluster, s: Settings, n: NodeId, l: LeaseId, now: int): Outcome<Cluster>
    requires WellFormed(c)
  {
    if l !in Claimable(c, n, {}) || !IsCurrent(c, l) then Ok(c)
    else
      var j := c.leases[l].job;
      var granted := c.(leases :=
        c.leases[l := c.leases[l].(state := Active, grantedAt := now, expiresAt := now + s.ttl)]);
      if c.jobs[j].state == Scheduled then Transition(granted, j, Leased, now) else Ok(Noted(granted, j))
  }

  // --- The fence and the calls behind it -------------------------------------------------------------

  /** The checks every lease write passes, in order: existence, ownership, epoch, ACTIVE. */
  function Fence(c: Cluster, l: LeaseId, n: NodeId, epoch: int): Option<Error>
    requires WellFormed(c)
  {
    if l !in c.leases then Some(LeaseNotFound)
    else if c.leases[l].node != n then Some(NotOwner)
    else if epoch != c.jobs[c.leases[l].job].epoch || !IsCurrent(c, l) then Some(StaleEpoch)
    else if c.leases[l].state != Active then Some(NotActive)
    else None
  }

  /** Which leases of an attempt a teardown releases. */
  predicate IsSibling(x: Lease, j: JobId, epoch: nat) {
    x.job == j && x.epoch == epoch && NonTerminal(x.state)
  }

  function Release(x: Lease, now: int): Lease {
    x.(state := Released, releasedAt := Some(now))
  }

  function ReleaseSiblings(leases: map<LeaseId, Lease>, j: JobId, epoch: nat, exclude: set<LeaseId>, now: int)
    : map<LeaseId, Lease>
  {
    map l | l in leases :: if l !in exclude && IsSibling(leases[l], j, epoch) then Release(leases[l], now) else leases[l]
  }

  function Renew(c: Cluster, s: Settings, l: LeaseId, n: NodeId, epoch: int, now: int): Outcome<Cluster>
    requires WellFormed(c)
  {
    var refused := Fence(c, l, n, epoch);
    if refused.Some? then Err(refused.value)
    else
      var j := c.leases[l].job;
      var extended := c.(leases := c.leases[l := c.leases[l].(renewedAt := Some(now), expiresAt := now + s.ttl)]);
      if c.jobs[j].state == Leased then Transition(extended, j, Running, now) else Ok(extended)
  }

  /** Whether a completion's payload replaces the job's stored result. */
  function KeptResult(stored: Option<TrainingResult>, reported: Option<TrainingResult>): Option<TrainingResult> {
    if reported.Some? && (stored == None || HasMetrics(reported)) then reported else stored
  }

  function SettledLease(x: Lease, state: LeaseState, now: int): Lease {
    x.(state := state, releasedAt := Some(now))
  }

  /** Lease `l` finished and its node credited, before its job is completed. */
  function Finished(c: Cluster, l: LeaseId, result: Option<TrainingResult>, now: int): Cluster
    requires WellFormed(c) && l in c.leases
  {
    var x := c.leases[l];
    Cluster(
      c.jobs[x.job := c.jobs[x.job].(result := KeptResult(c.jobs[x.job].result, result))],
      c.leases[l := SettledLease(x, LeaseState.Completed, now)],
      c.nodes[x.node := c.nodes[x.node].(successes := c.nodes[x.node].successes + 1)],
      c.log)
  }

  function Complete(c: Cluster, l: LeaseId, n: NodeId, epoch: int, result: Option<TrainingResult>, now: int)
    : Outcome<Cluster>
    requires WellFormed(c)
  {
    var refused := Fence(c, l, n, epoch);
    if refused.Some? then Err(refused.value)
    else
      var j := c.leases[l].job;
      var done := Finished(c, l, result, now);
      if c.jobs[j].state in {Leased, Running} then Transition(done, j, JobState.Completed, now) else Ok(Noted(done, j))
  }

  function FailedJob(job: Job, reason: string, result: Option<TrainingResult>): Job {
    job.(failureReason := Some(reason), result := if job.result == None then result else job.result)
  }

  function ChargedNode(node: Node, backoff: int, now: int): Node {
    node.(failures := node.failures + 1,
    backoffUntil := if backoff > 0 then Some(now + backoff) else node.backoffUntil)
  }

  /** The attempt of failed lease `l` torn down, before its job is requeued or ended. */
  function FailedAttempt(c: Cluster, l: LeaseId, job: Job, backoff: int, now: int): Cluster
    requires WellFormed(c) && l in c.leases
  {
    var x := c.leases[l];
    Cluster(
      c.jobs[x.job := job.(failedAttempts := job.failedAttempts + 1, scheduledNode := None, rendezvousNode := None)],
      ReleaseSiblings(c.leases[l := SettledLease(x, LeaseState.Failed, now)], x.job, x.epoch, {l}, now),
      c.nodes[x.node := ChargedNode(c.nodes[x.node], backoff, now)],
      c.log)
  }

  /** A reported failure: the node is charged; a live attempt is torn down and, while retries remain,
      requeued with the failing node backed off; past the budget the job fails. */
  function Fail(c: Cluster, s: Settings, l: LeaseId, n: NodeId, epoch: int, reason: string,
                result: Option<TrainingResult>, now: int): Outcome<Cluster>
    requires WellFormed(c)
  {
    var refused := Fence(c, l, n, epoch);
    if refused.Some? then Err(refused.value)
    else
      var j := c.leases[l].job;
      var job := FailedJob(c.jobs[j], reason, result);
      if job.state in {Leased, Running} then
        var retry := job.failedAttempts + 1 <= s.maxRetries;
        Transition(FailedAttempt(c, l, job, if retry then s.failedAttemptBackoff else 0, now), j,
                   if retry then Reassigned else JobState.Failed, now)
      else
        Ok(Noted(Cluster(
                   c.jobs[j := job],
                   c.leases[l := SettledLease(c.leases[l], LeaseState.Failed, now)],
                   c.nodes[n := ChargedNode(c.nodes[n], 0, now)],
                   c.log), j))
  }

  // --- Teardown: the TTL sweep and the failure detector -------------------------------------------------

  /** The jobs whose current attempt loses a member of `lost`. */
  function Doomed(c: Cluster, lost: set<LeaseId>): set<JobId>
    requires WellFormed(c)
  {
    set l | l in lost && l in c.leases && IsCurrent(c, l) :: c.leases[l].job
  }

  /** The leases of node `n` in `lost` that belong to a current attempt. */
  function OnNode(c: Cluster, lost: set<LeaseId>, n: NodeId): set<LeaseId>
    requires WellFormed(c)
  {
    set l | l in lost && l in c.leases && IsCurrent(c, l) && c.leases[l].node == n
  }

  function TornRow(x: Lease, failed: bool, unclaimed: bool, doomed: bool, now: int): Lease {
    if failed then x.(state := Expired)
    else if unclaimed then x.(state := Unclaimed)
    else if doomed && NonTerminal(x.state) then Release(x, now)
    else x
  }

  function TornLease(c: Cluster, failed: set<LeaseId>, unclaimed: set<LeaseId>, now: int, l: LeaseId): Lease
    requires WellFormed(c) && l in c.leases
  {
    TornRow(c.leases[l], l in failed, l in unclaimed,
            c.leases[l].job in Doomed(c, failed + unclaimed) && IsCurrent(c, l), now)
  }

  function TornJob(job: Job, doomed: bool, now: int): Job {
    if doomed && job.state in REASSIGNABLE
    then Moved(job, Reassigned, now).(scheduledNode := None, rendezvousNode := None) else job
  }

  function TornLog(log: seq<Event>, state: JobState, doomed: bool): seq<Event> {
    if doomed && state in REASSIGNABLE then log + [Event(Some(state), Reassigned)] else log
  }

  function TornNode(c: Cluster, failed: set<LeaseId>, unclaimed: set<LeaseId>, backoff: int, now: int, n: NodeId): Node
    requires WellFormed(c) && n in c.nodes
  {
    c.nodes[n].(
    failures := c.nodes[n].failures + |OnNode(c, failed, n)|,
    backoffUntil := if backoff > 0 && OnNode(c, unclaimed, n) != {} then Some(now + backoff) else c.nodes[n].backoffUntil)
  }

  /** Every attempt that lost a member, torn down at once: `failed` expire and charge their nodes,
      `unclaimed` lapse blamelessly, the rest of each cohort is released, each job is requeued once. */
  function Teardown(c: Cluster, failed: set<LeaseId>, unclaimed: set<LeaseId>, backoff: int, now: int): Cluster
    requires WellFormed(c)
  {
    var doomed := Doomed(c, failed + unclaimed);
    Cluster(
      map j | j in c.jobs :: TornJob(c.jobs[j], j in doomed, now),
      map l | l in c.leases :: TornLease(c, failed, unclaimed, now, l),
      map n | n in c.nodes :: TornNode(c, failed, unclaimed, backoff, now, n),
      map j | j in c.log :: TornLog(c.log[j], c.jobs[j].state, j in doomed))
  }

  /** The rows a sweep picks up: overdue, and not skipped because another transaction holds them. */
  function Overdue(c: Cluster, locked: set<LeaseId>, now: int): set<LeaseId> {
    set l | l in c.leases && NonTerminal(c.leases[l].state) && c.leases[l].expiresAt < now && l !in locked
  }

  function InState(c: Cluster, ls: set<LeaseId>, state: LeaseState): set<LeaseId> {
    set l | l in ls && l in c.leases && c.leases[l].state == state
  }

  /** The overdue rows `ls` swept: an ACTIVE lease past its deadline failed, a PENDING one lapsed. */
  function SweepRows(c: Cluster, ls: set<LeaseId>, backoff: int, now: int): Cluster
    requires WellFormed(c)
  {
    Teardown(c, InState(c, ls, Active), InState(c, ls, Pending), backoff, now)
  }

  /** One TTL sweep. */
  function Sweep(c: Cluster, s: Settings, locked: set<LeaseId>, now: int): Cluster
    requires WellFormed(c)
  {
    SweepRows(c, Overdue(c, locked, now), s.unclaimedBackoff, now)
  }

  /** The leases a node declared dead takes down with it. */
  function HeldBy(c: Cluster, n: NodeId): set<LeaseId>
    requires WellFormed(c)
  {
    set l | l in c.leases && c.leases[l].node == n && NonTerminal(c.leases[l].state) && IsCurrent(c, l)
  }

  /** The detector's verdict on one node: only an ONLINE one is flipped and loses its leases. */
  function DeclareDead(c: Cluster, n: NodeId, now: int): Cluster
    requires WellFormed(c)
  {
    if n !in c.nodes || c.nodes[n].status != Online then c
    else
      var flipped := SetStatus(c, n, Offline);
      Teardown(flipped, HeldBy(flipped, n), {}, 0, now)
  }

  lemma TeardownWellFormed(c: Cluster, failed: set<LeaseId>, unclaimed: set<LeaseId>, backoff: int, now: int)
    requires WellFormed(c)
    ensures WellFormed(Teardown(c, failed, unclaimed, backoff, now))
  {
  }

  /** One detector pass: the nodes declared dead, in the order the pass reached them. */
  function Detect(c: Cluster, dead: seq<NodeId>, now: int): (c': Cluster)
    requires WellFormed(c)
    ensures WellFormed(c')
    decreases |dead|
  {
    if dead == [] then c else Detect(DeclareDead(c, dead[0], now), dead[1..], now)
  }

  // --- Cancel --------------------------------------------------------------------------------------

  function ReleaseAll(leases: map<LeaseId, Lease>, j: JobId, now: int): map<LeaseId, Lease> {
    map l | l in leases :: if leases[l].job == j && NonTerminal(leases[l].state) then Release(leases[l], now) else leases[l]
  }

  function Cancel(c: Cluster, j: JobId, now: int): Outcome<Cluster>
    requires WellFormed(c)
  {
    if j !in c.jobs then Err(JobNotFound)
    else Transition(c.(leases := ReleaseAll(c.leases, j, now)), j, JobState.Cancelled, now)
  }

  // --- Runs ------------------------------------------------------------------------------------------

  /** Everything that can happen to the database, with every choice its callers and the clock make. */
  datatype Step =
    | CreateJob(job: JobId, world: nat)
    | RegisterNode(node: NodeId)
    | NodeStatusChange(node: NodeId, status: NodeStatus)
    | PlaceJob(job: JobId, cohort: seq<NodeId>, ids: seq<LeaseId>, now: int)
    | Claim(node: NodeId, lease: LeaseId, now: int)
    | RenewLease(lease: LeaseId, node: NodeId, epoch: int, now: int)
    | CompleteLease(lease: LeaseId, node: NodeId, epoch: int, result: Option<TrainingResult>, now: int)
    | FailLease(lease: LeaseId, node: NodeId, epoch: int, reason: string, result: Option<TrainingResult>, now: int)
    | SweepExpired(locked: set<LeaseId>, now: int)
    | DetectFailures(dead: seq<NodeId>, now: int)
    | CancelJob(job: JobId, now: int)
    | NoteResume(job: JobId)

  /** The outcome of one transaction; an error means its handler rolled everything back. */
  function Attempt(c: Cluster, s: Settings, step: Step): Outcome<Cluster>
    requires WellFormed(c)
  {
    match step
    case CreateJob(j, world) => Ok(Create(c, j, world))
    case RegisterNode(n) => Ok(Register(c, n))
    case NodeStatusChange(n, status) => Ok(SetStatus(c, n, status))
    case PlaceJob(j, cohort, ids, now) => Ok(Place(c, s, j, cohort, ids, now))
    case Claim(n, l, now) => ClaimSlot(c, s, n, l, now)
    case RenewLease(l, n, epoch, now) => Renew(c, s, l, n, epoch, now)
    case CompleteLease(l, n, epoch, result, now) => Complete(c, l, n, epoch, result, now)
    case FailLease(l, n, epoch, reason, result, now) => Fail(c, s, l, n, epoch, reason, result, now)
    case SweepExpired(locked, now) => Ok(Sweep(c, s, locked, now))
    case DetectFailures(dead, now) => Ok(Detect(c, dead, now))
    case CancelJob(j, now) => Cancel(c, j, now)
    case NoteResume(j) => if j in c.jobs then Ok(Noted(c, j)) else Ok(c)
  }

  function Next(c: Cluster, s: Settings, step: Step): Cluster
    requires WellFormed(c)
  {
    var o := Attempt(c, s, step);
    if o.Ok? then o.value else c
  }
}
