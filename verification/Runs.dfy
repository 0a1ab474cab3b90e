/** Whole runs of the lease protocol: every sequence of transactions, with every choice of caller,
    clock, skipped rows and detector verdict, started from an empty database. */
module Runs {
  import opened Model
  import opened LeaseProtocol
  import opened CohortShape
  import opened Accounting
  import opened Audit
  import opened Evolution

  ghost predicate Inv(c: Cluster, s: Settings) {
    Shape(c) && Books(c, s) && Audited(c)
  }

  /** What one transaction owes the next: the invariant again, and nothing undone. */
  ghost predicate Good(c: Cluster, d: Cluster, s: Settings) {
    Inv(d, s) && Evolves(c, d)
  }

  lemma InvWellFormed(c: Cluster, s: Settings)
    requires Inv(c, s)
    ensures WellFormed(c)
  {
  }

  // --- One step ---------------------------------------------------------------------------------------

  lemma SweepIsGood(c: Cluster, s: Settings, locked: set<LeaseId>, now: int)
    requires Inv(c, s)
    ensures Good(c, Sweep(c, s, locked, now), s)
  {
    var overdue := Overdue(c, locked, now);
    var failed, unclaimed := InState(c, overdue, Active), InState(c, overdue, Pending);
    TeardownShape(c, failed, unclaimed, s.unclaimedBackoff, now);
    TeardownBooks(c, s, failed, unclaimed, s.unclaimedBackoff, now);
    TeardownAudit(c, failed, unclaimed, s.unclaimedBackoff, now);
    TeardownEvolves(c, failed, unclaimed, s.unclaimedBackoff, now);
  }

  lemma StatusIsGood(c: Cluster, s: Settings, n: NodeId, status: NodeStatus)
    requires Inv(c, s)
    ensures Good(c, SetStatus(c, n, status), s)
  {
    GrowShape(c, SetStatus(c, n, status));
    StatusBooks(c, s, n, status);
    NodesAudit(c, SetStatus(c, n, status).nodes);
  }

  lemma DeclareDeadIsGood(c: Cluster, s: Settings, n: NodeId, now: int)
    requires Inv(c, s)
    ensures Good(c, DeclareDead(c, n, now), s)
  {
    if n in c.nodes && c.nodes[n].status == Online {
      var flipped := SetStatus(c, n, Offline);
      StatusIsGood(c, s, n, Offline);
      var held := HeldBy(flipped, n);
      TeardownShape(flipped, held, {}, 0, now);
      TeardownBooks(flipped, s, held, {}, 0, now);
      TeardownAudit(flipped, held, {}, 0, now);
      TeardownEvolves(flipped, held, {}, 0, now);
      EvolvesTrans(c, flipped, DeclareDead(c, n, now));
    }
  }

  lemma {:induction false} DetectIsGood(c: Cluster, s: Settings, dead: seq<NodeId>, now: int)
    requires Inv(c, s)
    ensures Good(c, Detect(c, dead, now), s)
    decreases |dead|
  {
    if dead == [] {
    } else {
      var d := DeclareDead(c, dead[0], now);
      DeclareDeadIsGood(c, s, dead[0], now);
      DetectIsGood(d, s, dead[1..], now);
      EvolvesTrans(c, d, Detect(c, dead, now));
    }
  }

  /** The only ways a transaction is refused: a lease write by its fence, a cancel of an unknown or
      terminal job. No claim, renewal, completion, failure, sweep or detector pass ever meets an
      illegal transition. */
  predicate Refusal(c: Cluster, step: Step, e: Error)
    requires WellFormed(c)
  {
    match step
    case RenewLease(l, n, epoch, _) => Fence(c, l, n, epoch) == Some(e)
    case CompleteLease(l, n, epoch, _, _) => Fence(c, l, n, epoch) == Some(e)
    case FailLease(l, n, epoch, _, _, _) => Fence(c, l, n, epoch) == Some(e)
    case CancelJob(j, _) =>
      if j !in c.jobs then e == JobNotFound
      else IsTerminal(c.jobs[j].state) && e == IllegalTransition(c.jobs[j].state, JobState.Cancelled)
    case _ => false
  }

  /** What is left for the claim and the calls behind the fence once they pass their guards. */
  lemma FencedStepIsGood(c: Cluster, s: Settings, step: Step)
    requires Inv(c, s) && (step.Claim? || step.RenewLease? || step.CompleteLease? || step.FailLease?)
    ensures var o := Attempt(c, s, step); if o.Ok? then Good(c, o.value, s) else Refusal(c, step, o.error)
  {
    match step
    case Claim(n, l, now) =>
      ClaimShape(c, s, n, l, now);
      ClaimBooks(c, s, n, l, now);
      ClaimAudit(c, s, n, l, now);
      ClaimEvolves(c, s, n, l, now);
    case RenewLease(l, n, epoch, now) =>
      if Fence(c, l, n, epoch) == None {
        RenewShape(c, s, l, n, epoch, now);
        RenewBooks(c, s, l, n, epoch, now);
        RenewAudit(c, s, l, n, epoch, now);
        RenewEvolves(c, s, l, n, epoch, now);
      }
    case CompleteLease(l, n, epoch, result, now) =>
      if Fence(c, l, n, epoch) == None {
        CompleteShape(c, l, n, epoch, result, now);
        CompleteBooks(c, s, l, n, epoch, result, now);
        CompleteAudit(c, l, n, epoch, result, now);
        CompleteEvolves(c, l, n, epoch, result, now);
      }
    case FailLease(l, n, epoch, reason, result, now) =>
      if Fence(c, l, n, epoch) == None {
        FailShape(c, s, l, n, epoch, reason, result, now);
        FailBooks(c, s, l, n, epoch, reason, result, now);
        FailAudit(c, s, l, n, epoch, reason, result, now);
        FailEvolves(c, s, l, n, epoch, reason, result, now);
      }
  }

  lemma CreateIsGood(c: Cluster, s: Settings, j: JobId, world: nat)
    requires Inv(c, s)
    ensures Good(c, Create(c, j, world), s)
  {
    CreateShape(c, j, world);
    CreateBooks(c, s, j, world);
    CreateAudit(c, j, world);
  }

  lemma RegisterIsGood(c: Cluster, s: Settings, n: NodeId)
    requires Inv(c, s)
    ensures Good(c, Register(c, n), s)
  {
    GrowShape(c, Register(c, n));
    RegisterBooks(c, s, n);
    NodesAudit(c, Register(c, n).nodes);
  }

  lemma PlaceIsGood(c: Cluster, s: Settings, j: JobId, cohort: seq<NodeId>, ids: seq<LeaseId>, now: int)
    requires Inv(c, s)
    ensures Good(c, Place(c, s, j, cohort, ids, now), s)
  {
    PlaceShape(c, s, j, cohort, ids, now);
    PlaceBooks(c, s, j, cohort, ids, now);
    PlaceAudit(c, s, j, cohort, ids, now);
    PlaceEvolves(c, s, j, cohort, ids, now);
  }

  lemma NotedIsGood(c: Cluster, s: Settings, j: JobId)
    requires Inv(c, s) && j in c.jobs
    ensures Good(c, Noted(c, j), s)
  {
    NotedShape(c, j);
    NotedBooks(c, s, j);
    NotedAudit(c, j);
    NotedEvolves(c, j);
  }

  lemma CancelIsGood(c: Cluster, s: Settings, j: JobId, now: int)
    requires Inv(c, s)
    ensures var o := Cancel(c, j, now);
      if o.Ok? then Good(c, o.value, s) && !IsTerminal(c.jobs[j].state) else Refusal(c, CancelJob(j, now), o.error)
  {
    if j in c.jobs {
      TableIsConsistent(c.jobs[j].state);
      if !IsTerminal(c.jobs[j].state) {
        CancelShape(c, j, now);
        CancelBooks(c, s, j, now);
        CancelAudit(c, j, now);
        CancelEvolves(c, j, now);
      }
    }
  }

  /** Every transaction either keeps the invariant and undoes nothing, or is refused for a stated reason. */
  lemma StepIsGood(c: Cluster, s: Settings, step: Step)
    requires Inv(c, s)
    ensures Good(c, Next(c, s, step), s)
    ensures Attempt(c, s, step).Err? ==> Refusal(c, step, Attempt(c, s, step).error) && Next(c, s, step) == c
  {
    EvolvesRefl(c);
    match step
    case CreateJob(j, world) => CreateIsGood(c, s, j, world);
    case RegisterNode(n) => RegisterIsGood(c, s, n);
    case NodeStatusChange(n, status) => StatusIsGood(c, s, n, status);
    case PlaceJob(j, cohort, ids, now) => PlaceIsGood(c, s, j, cohort, ids, now);
    case SweepExpired(locked, now) => SweepIsGood(c, s, locked, now);
    case DetectFailures(dead, now) => DetectIsGood(c, s, dead, now);
    case CancelJob(j, now) => CancelIsGood(c, s, j, now);
    case NoteResume(j) =>
      if j in c.jobs {
        NotedIsGood(c, s, j);
      }
    case _ => FencedStepIsGood(c, s, step);
  }

  // --- Runs ----------------------------------------------------------------------------------------------

  /** The database after `steps`, from `c`. */
  ghost function RunFrom(c: Cluster, s: Settings, steps: seq<Step>): (d: Cluster)
    requires Inv(c, s)
    ensures Good(c, d, s)
    decreases |steps|
  {
    EvolvesRefl(c);
    if steps == [] then c
    else
      var d := Next(c, s, steps[0]);
      StepIsGood(c, s, steps[0]);
      var e := RunFrom(d, s, steps[1..]);
      EvolvesTrans(c, d, e);
      e
  }

  ghost predicate Reachable(c: Cluster, s: Settings) {
    exists steps: seq<Step> :: ReachedBy(c, s, steps)
  }

  lemma InitInv(s: Settings)
    ensures Inv(EMPTY, s)
  {
    InitShape();
    InitBooks(s);
    InitAudit();
  }

  ghost predicate ReachedBy(c: Cluster, s: Settings, steps: seq<Step>) {
    InitInv(s);
    c == RunFrom(EMPTY, s, steps)
  }

  /** Every reachable database satisfies the whole invariant. */
  lemma ReachableInv(c: Cluster, s: Settings)
    requires Reachable(c, s)
    ensures Inv(c, s)
  {
    var steps: seq<Step> :| ReachedBy(c, s, steps);
    InitInv(s);
  }

  lemma {:induction false} RunConcat(c: Cluster, s: Settings, p: seq<Step>, q: seq<Step>)
    requires Inv(c, s)
    ensures RunFrom(c, s, p + q) == RunFrom(RunFrom(c, s, p), s, q)
    decreases |p|
  {
    if p == [] {
      assert p + q == q;
    } else {
      StepIsGood(c, s, p[0]);
      assert (p + q)[1..] == p[1..] + q;
      RunConcat(Next(c, s, p[0]), s, p[1..], q);
    }
  }
}
