/** The records of the control plane and the job state machine
    (orchestrator/models/job.py, orchestrator/models/lease.py, orchestrator/models/node.py). */
module Model {

  datatype Option<+T> = None | Some(value: T)

  type JobId = string
  type LeaseId = nat
  type NodeId = nat

  datatype JobState = Queued | Scheduled | Leased | Running | Completed | Failed | Reassigned | Cancelled

  /** The only legal transitions out of a state. */
  function ValidTransitions(s: JobState): set<JobState> {
    match s
    case Queued => {Scheduled, Cancelled}
    case Scheduled => {Leased, Queued, Reassigned, Cancelled}
    case Leased => {Running, JobState.Completed, JobState.Failed, Reassigned, Cancelled}
    case Running => {JobState.Completed, JobState.Failed, Reassigned, Cancelled}
    case Reassigned => {Scheduled, Cancelled}
    case Completed => {}
    case Failed => {}
    case Cancelled => {}
  }

  predicate IsTerminal(s: JobState) {
    s in {JobState.Completed, JobState.Failed, Cancelled}
  }

  predicate CanTransition(from: JobState, to: JobState) {
    to in ValidTransitions(from)
  }

  /** The states whose doomed attempt is requeued. */
  const REASSIGNABLE: set<JobState> := {Leased, Running, Scheduled}

  /** The transition table agrees with the three constants kept beside it: the declared terminal states
      are exactly the dead ends, the reassignable states are exactly those with an edge to REASSIGNED,
      and cancelling is legal exactly where the job is not terminal. */
  lemma TableIsConsistent(s: JobState)
    ensures IsTerminal(s) <==> forall t :: !CanTransition(s, t)
    ensures s in REASSIGNABLE <==> CanTransition(s, Reassigned)
    ensures !IsTerminal(s) <==> CanTransition(s, Cancelled)
  {
    if !IsTerminal(s) {
      assert CanTransition(s, Cancelled);
    }
  }

  /** The table from the other side: where each state can be entered from, and no state from itself. */
  lemma EnteredFrom(s: JobState)
    ensures CanTransition(s, JobState.Queued) <==> s == Scheduled
    ensures CanTransition(s, Scheduled) <==> s == JobState.Queued || s == Reassigned
    ensures CanTransition(s, Leased) <==> s == Scheduled
    ensures CanTransition(s, Running) <==> s == Leased
    ensures CanTransition(s, JobState.Completed) <==> s == Leased || s == Running
    ensures CanTransition(s, JobState.Failed) <==> s == Leased || s == Running
    ensures CanTransition(s, Reassigned) <==> s == Scheduled || s == Leased || s == Running
    ensures CanTransition(s, Cancelled) <==> s in {JobState.Queued, Scheduled, Leased, Running, Reassigned}
    ensures !CanTransition(s, s)
  {
  }

  datatype LeaseState =
    | Pending | Active
    | Expired | Unclaimed | Released | Completed | Failed

  predicate NonTerminal(s: LeaseState) {
    s == Pending || s == Active
  }

  /** The outcome summary a trainer may attach to a complete or fail call. */
  datatype TrainingResult = TrainingResult(
    finalLoss: Option<real>, finalTestAccuracy: Option<real>, epochsCompleted: Option<nat>, exitCode: Option<int>)

  predicate HasMetrics(r: Option<TrainingResult>) {
    r.Some? && (r.value.finalTestAccuracy.Some? || r.value.finalLoss.Some?)
  }

  datatype Job = Job(
    state: JobState,
    world: nat,
    epoch: nat,
    failedAttempts: nat,
    scheduledNode: Option<NodeId>,
    rendezvousNode: Option<NodeId>,
    result: Option<TrainingResult>,
    failureReason: Option<string>,
    startedAt: Option<int>,
    finishedAt: Option<int>)

  datatype Lease = Lease(
    job: JobId,
    node: NodeId,
    epoch: nat,
    rank: nat,
    state: LeaseState,
    grantedAt: int,
    expiresAt: int,
    renewedAt: Option<int>,
    releasedAt: Option<int>)

  datatype NodeStatus = Online | Offline | Draining

  datatype Node = Node(status: NodeStatus, successes: nat, failures: nat, backoffUntil: Option<int>)

  /** One audit row; `from` is None only on the creation row. */
  datatype Event = Event(from: Option<JobState>, to: JobState)

  datatype Settings = Settings(ttl: int, maxRetries: nat, failedAttemptBackoff: int, unclaimedBackoff: int)

  /** The database: every table the lease protocol reads or writes. */
  datatype Cluster = Cluster(
    jobs: map<JobId, Job>,
    leases: map<LeaseId, Lease>,
    nodes: map<NodeId, Node>,
    log: map<JobId, seq<Event>>)

  const EMPTY := Cluster(map[], map[], map[], map[])

  datatype Error =
    | LeaseNotFound | NotOwner | StaleEpoch | NotActive | JobNotFound
    | IllegalTransition(from: JobState, to: JobState)

  datatype Outcome<+T> = Ok(value: T) | Err(error: Error)
}
