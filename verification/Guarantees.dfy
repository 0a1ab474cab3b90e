/** What the lease protocol promises, over every reachable database and every later run. */
module Guarantees {
  import opened Model
  import opened LeaseProtocol
  import opened CohortShape
  import opened Accounting
  import opened Audit
  import opened Evolution
  import opened Runs

  // --- Cohorts --------------------------------------------------------------------------------------------

  /** Lease `l`, and no other, holds rank `r` of the current attempt of `j`. */
  ghost predicate Holds(c: Cluster, j: JobId, r: nat, l: LeaseId)
    requires j in c.jobs
  {
    Slot(c, l, j, c.jobs[j].epoch, r) && forall m :: Slot(c, m, j, c.jobs[j].epoch, r) ==> m == l
  }

  ghost predicate RankPending(c: Cluster, j: JobId, r: nat)
    requires j in c.jobs
  {
    exists l :: Holds(c, j, r, l) && c.leases[l].state == Pending
  }

  ghost predicate RankLive(c: Cluster, j: JobId, r: nat)
    requires j in c.jobs
  {
    exists l :: Holds(c, j, r, l) && NonTerminal(c.leases[l].state)
  }

  ghost predicate NothingLive(c: Cluster, j: JobId) {
    forall l | l in c.leases && c.leases[l].job == j :: !NonTerminal(c.leases[l].state)
  }

  /** SCHEDULED: every rank has one lease and it is PENDING. LEASED or RUNNING: every rank has one live
      lease and some rank is ACTIVE. QUEUED, REASSIGNED, FAILED, CANCELLED: nothing of the job is live.
      In every state, a lease of an older attempt is terminal and no rank has two live leases. */
  lemma CohortPromise(c: Cluster, s: Settings, j: JobId)
    requires Reachable(c, s) && j in c.jobs
    ensures c.jobs[j].state == Scheduled ==> forall r: nat | r < c.jobs[j].world :: RankPending(c, j, r)
    ensures c.jobs[j].state in {Leased, Running} ==>
              && (forall r: nat | r < c.jobs[j].world :: RankLive(c, j, r))
              && (exists l :: Member(c, l, j, Active))
    ensures c.jobs[j].state in {JobState.Queued, Reassigned, JobState.Failed, Cancelled} ==> NothingLive(c, j)
    ensures forall l | l in c.leases && c.leases[l].job == j && c.leases[l].epoch < c.jobs[j].epoch ::
              !NonTerminal(c.leases[l].state)
    ensures forall l, m | l in c.leases && m in c.leases && c.leases[l].job == c.leases[m].job == j &&
                          c.leases[l].rank == c.leases[m].rank &&
                          NonTerminal(c.leases[l].state) && NonTerminal(c.leases[m].state) :: l == m
  {
    ReachableInv(c, s);
    assert JobShape(c, j);
    assert forall l | l in c.leases :: LeaseShape(c, l);
    forall r: nat | r < c.jobs[j].world && 0 < c.jobs[j].epoch
      ensures c.jobs[j].state == Scheduled ==> RankPending(c, j, r)
      ensures c.jobs[j].state in {Leased, Running} ==> RankLive(c, j, r)
    {
      assert HasSlot(c, j, c.jobs[j].epoch, r);
      var l :| Slot(c, l, j, c.jobs[j].epoch, r);
      assert forall m :: Slot(c, m, j, c.jobs[j].epoch, r) && m != l ==> !Apart(c.leases[l], c.leases[m]);
      assert Holds(c, j, r, l) && LeaseShape(c, l);
    }
    forall l, m | l in c.leases && m in c.leases && c.leases[l].job == c.leases[m].job == j &&
                  c.leases[l].rank == c.leases[m].rank &&
                  NonTerminal(c.leases[l].state) && NonTerminal(c.leases[m].state)
      ensures l == m
    {
      assert l != m ==> Apart(c.leases[l], c.leases[m]);
    }
  }

  // --- Counters and budgets -----------------------------------------------------------------------------------

  /** A node's success count is its number of COMPLETED leases; its failure count is its number of FAILED
      and EXPIRED ones: nothing is charged twice, and the sweep's uncharged branch is never taken. */
  lemma CountersPromise(c: Cluster, s: Settings, n: NodeId)
    requires Reachable(c, s) && n in c.nodes
    ensures c.nodes[n].successes ==
            |set l | l in c.leases && c.leases[l].node == n && c.leases[l].state == LeaseState.Completed|
    ensures c.nodes[n].failures ==
            |set l | l in c.leases && c.leases[l].node == n
                && (c.leases[l].state == LeaseState.Failed || c.leases[l].state == Expired)|
  {
    ReachableInv(c, s);
    assert NodeBooks(c, n);
    assert Credits(c.leases, n) ==
           set l | l in c.leases && c.leases[l].node == n && c.leases[l].state == LeaseState.Completed;
    assert Charges(c.leases, n) ==
           set l | l in c.leases && c.leases[l].node == n
               && (c.leases[l].state == LeaseState.Failed || c.leases[l].state == Expired);
  }

  /** The retry budget: within it unless FAILED, over it by exactly one when FAILED, and spent only on
      reported failures, however many sweeps or detector passes reassigned the job in between. */
  lemma BudgetPromise(c: Cluster, s: Settings, j: JobId)
    requires Reachable(c, s) && j in c.jobs
    ensures c.jobs[j].state == JobState.Failed <==> s.maxRetries < c.jobs[j].failedAttempts
    ensures c.jobs[j].failedAttempts <= s.maxRetries + 1
    ensures c.jobs[j].state != JobState.Completed ==>
              c.jobs[j].failedAttempts ==
              |set l | l in c.leases && c.leases[l].job == j && c.leases[l].state == LeaseState.Failed|
  {
    ReachableInv(c, s);
    assert JobBooks(c, s, j);
    assert Failures(c.leases, j) == set l | l in c.leases && c.leases[l].job == j && c.leases[l].state == LeaseState.Failed;
  }

  /** The audit log of every job replays, and the rendezvous host of a placed job is rank 0's node. */
  lemma AuditPromise(c: Cluster, s: Settings, j: JobId)
    requires Reachable(c, s) && j in c.jobs
    ensures j in c.log && Replays(c.log[j], c.jobs[j].state)
    ensures c.jobs[j].finishedAt.Some? <==> IsTerminal(c.jobs[j].state)
    ensures c.jobs[j].state in {Scheduled, Leased, Running, JobState.Completed} ==>
              exists l :: Slot(c, l, j, c.jobs[j].epoch, 0) && c.jobs[j].rendezvousNode == Some(c.leases[l].node)
  {
    ReachableInv(c, s);
    assert JobAudited(c, j) && JobShape(c, j);
    if c.jobs[j].state in {Scheduled, Leased, Running, JobState.Completed} {
      assert HasSlot(c, j, c.jobs[j].epoch, 0);
      var l :| Slot(c, l, j, c.jobs[j].epoch, 0);
      assert HostIsRankZero(c, l);
    }
  }

  // --- Branches that are never taken ----------------------------------------------------------------------------

  /** Every slot a claim can select belongs to the current attempt, so a claim is empty-handed only when
      nothing is assigned to the node, and granting never fails. */
  lemma ClaimNeverStale(c: Cluster, s: Settings, n: NodeId, l: LeaseId, now: int)
    requires Reachable(c, s) && l in Claimable(c, n, {})
    ensures IsCurrent(c, l)
    ensures ClaimSlot(c, s, n, l, now).Ok? && ClaimSlot(c, s, n, l, now).value.leases[l].state == Active
  {
    ReachableInv(c, s);
    assert LeaseShape(c, l);
    ClaimShape(c, s, n, l, now);
  }

  // --- The failure detector --------------------------------------------------------------------------------------------

  predicate HoldsNothing(c: Cluster, n: NodeId) {
    forall l | l in c.leases && c.leases[l].node == n :: !NonTerminal(c.leases[l].state)
  }

  lemma DeclaredHoldsNothing(c: Cluster, s: Settings, n: NodeId, now: int)
    requires Inv(c, s) && n in c.nodes && c.nodes[n].status == Online
    ensures var d := DeclareDead(c, n, now); n in d.nodes && d.nodes[n].status == Offline && HoldsNothing(d, n)
  {
    hide Books, Audited;
    var flipped := SetStatus(c, n, Offline);
    forall l | l in c.leases && c.leases[l].node == n
      ensures !NonTerminal(DeclareDead(c, n, now).leases[l].state)
    {
      assert LeaseShape(c, l);
      assert NonTerminal(c.leases[l].state) ==> l in HeldBy(flipped, n);
    }
  }

  /** Declaring other nodes dead brings no node back and gives none a lease. */
  lemma DeadStaysDead(c: Cluster, n: NodeId, m: NodeId, now: int)
    requires WellFormed(c) && n in c.nodes && c.nodes[n].status == Offline && HoldsNothing(c, n)
    ensures var d := DeclareDead(c, m, now); n in d.nodes && d.nodes[n].status == Offline && HoldsNothing(d, n)
  {
  }

  lemma {:induction false} DeadStayDead(c: Cluster, s: Settings, n: NodeId, dead: seq<NodeId>, now: int)
    requires Inv(c, s) && n in c.nodes && c.nodes[n].status == Offline && HoldsNothing(c, n)
    ensures var d := Detect(c, dead, now); n in d.nodes && d.nodes[n].status == Offline && HoldsNothing(d, n)
    decreases |dead|
  {
    hide Shape, Books, JobAudited, DeclareDead, HoldsNothing;
    if dead != [] {
      DeadStaysDead(c, n, dead[0], now);
      DeclareDeadIsGood(c, s, dead[0], now);
      DeadStayDead(DeclareDead(c, dead[0], now), s, n, dead[1..], now);
    }
  }

  /** After a detector pass every node it declared dead is OFFLINE and holds no live lease, whatever the
      verdicts were and in whatever order the pass reached the nodes. */
  lemma {:induction false} DetectClears(c: Cluster, s: Settings, dead: seq<NodeId>, now: int, n: NodeId)
    requires Inv(c, s) && n in dead && n in c.nodes
        && (c.nodes[n].status == Online || (c.nodes[n].status == Offline && HoldsNothing(c, n)))
    ensures var d := Detect(c, dead, now); n in d.nodes && d.nodes[n].status == Offline && HoldsNothing(d, n)
    decreases |dead|
  {
    hide Shape, Books, JobAudited, HoldsNothing, Teardown;
    var d := DeclareDead(c, dead[0], now);
    DeclareDeadIsGood(c, s, dead[0], now);
    if c.nodes[n].status == Offline {
      DeadStayDead(c, s, n, dead, now);
    } else if dead[0] == n {
      DeclaredHoldsNothing(c, s, n, now);
      DeadStayDead(d, s, n, dead[1..], now);
    } else {
      StatusKept(c, dead[0], n, now);
      DetectClears(d, s, dead[1..], now, n);
    }
  }

  lemma StatusKept(c: Cluster, m: NodeId, n: NodeId, now: int)
    requires WellFormed(c) && n in c.nodes && n != m
    ensures var d := DeclareDead(c, m, now); n in d.nodes && d.nodes[n].status == c.nodes[n].status
  {
  }

  /** When two nodes of one attempt die together only the one the pass reaches first is charged for it:
      its declaration releases the other's lease, blamelessly. */
  lemma FirstDeadPays(c: Cluster, s: Settings, l: LeaseId, m: LeaseId, now: int)
    requires Inv(c, s) && l in c.leases && m in c.leases && c.leases[l].job == c.leases[m].job
    requires NonTerminal(c.leases[l].state) && NonTerminal(c.leases[m].state)
    requires c.leases[l].node != c.leases[m].node && c.nodes[c.leases[l].node].status == Online
    ensures var a, b := c.leases[l].node, c.leases[m].node;
      var d := DeclareDead(c, a, now);
      && l in d.leases && m in d.leases && a in d.nodes && b in d.nodes
      && d.leases[l].state == Expired && d.leases[m].state == Released
      && c.nodes[a].failures < d.nodes[a].failures && d.nodes[b].failures == c.nodes[b].failures
  {
    hide Books, Audited;
    assert LeaseShape(c, l) && LeaseShape(c, m);
    var a, b := c.leases[l].node, c.leases[m].node;
    var flipped := SetStatus(c, a, Offline);
    var held := HeldBy(flipped, a);
    assert l in held && m !in held && l in OnNode(flipped, held, a);
    assert OnNode(flipped, held, b) == {};
    assert c.leases[m].job in Doomed(flipped, held + {});
  }

  // --- Fencing over whole runs -----------------------------------------------------------------------------------------

  /** Attempt `epoch` of job `j` has happened and nothing of it is live. */
  ghost predicate TornDown(c: Cluster, j: JobId, epoch: nat) {
    && j in c.jobs && epoch <= c.jobs[j].epoch
    && forall l | l in c.leases && c.leases[l].job == j && c.leases[l].epoch == epoch :: !NonTerminal(c.leases[l].state)
  }

  /** When an attempt is torn down: as soon as a later one is minted, and already before that, the moment
      its job is REASSIGNED, FAILED or CANCELLED. */
  lemma TearsDown(c: Cluster, s: Settings, j: JobId, epoch: nat)
    requires Reachable(c, s) && j in c.jobs && epoch <= c.jobs[j].epoch
    requires epoch < c.jobs[j].epoch || c.jobs[j].state in {Reassigned, JobState.Failed, Cancelled}
    ensures TornDown(c, j, epoch)
  {
    ReachableInv(c, s);
    assert forall l | l in c.leases :: LeaseShape(c, l);
  }

  /** Once torn down, always torn down: in every later state every lease of the attempt is the very same
      row, none is added, and every renew, complete or fail naming one, from any node and with any epoch,
      is refused. */
  lemma FencedForever(c: Cluster, s: Settings, j: JobId, epoch: nat, steps: seq<Step>)
    requires Reachable(c, s) && TornDown(c, j, epoch)
    ensures Inv(c, s)
    ensures var d := RunFrom(c, s, steps);
      && TornDown(d, j, epoch)
      && (forall l | l in d.leases && d.leases[l].job == j && d.leases[l].epoch == epoch ::
            && l in c.leases && d.leases[l] == c.leases[l]
            && (forall n, claimed: int :: Fence(d, l, n, claimed).Some?))
  {
    ReachableInv(c, s);
    var d := RunFrom(c, s, steps);
    forall l | l in d.leases && d.leases[l].job == j && d.leases[l].epoch == epoch
      ensures l in c.leases && d.leases[l] == c.leases[l]
    {
      assert l !in c.leases ==> LeaseIsNew(c, d.leases[l]);
      assert LeaseEvolves(c.leases[l], d.leases[l]);
    }
    assert JobEvolves(c.jobs[j], d.jobs[j]);
  }

  /** Terminal leases and terminal jobs are absorbing, a job's start and end stay as first stamped, epochs
      never decrease, and logs only grow. */
  lemma Absorbing(c: Cluster, s: Settings, steps: seq<Step>)
    requires Reachable(c, s)
    ensures Inv(c, s)
    ensures var d := RunFrom(c, s, steps);
      && (forall l | l in c.leases && !NonTerminal(c.leases[l].state) :: l in d.leases && d.leases[l] == c.leases[l])
      && (forall j | j in c.jobs :: j in d.jobs && c.jobs[j].epoch <= d.jobs[j].epoch)
      && (forall j | j in c.jobs && IsTerminal(c.jobs[j].state) ::
            j in d.jobs && d.jobs[j].state == c.jobs[j].state && d.jobs[j].finishedAt == c.jobs[j].finishedAt)
      && (forall j | j in c.jobs && c.jobs[j].startedAt.Some? :: j in d.jobs && d.jobs[j].startedAt == c.jobs[j].startedAt)
      && (forall j | j in c.log :: j in d.log && c.log[j] <= d.log[j])
  {
    ReachableInv(c, s);
    var d := RunFrom(c, s, steps);
    forall l | l in c.leases && !NonTerminal(c.leases[l].state)
      ensures l in d.leases && d.leases[l] == c.leases[l]
    {
      assert LeaseEvolves(c.leases[l], d.leases[l]);
    }
    forall j | j in c.jobs
      ensures j in d.jobs && c.jobs[j].epoch <= d.jobs[j].epoch
      ensures IsTerminal(c.jobs[j].state) ==>
                d.jobs[j].state == c.jobs[j].state && d.jobs[j].finishedAt == c.jobs[j].finishedAt
      ensures c.jobs[j].startedAt.Some? ==> d.jobs[j].startedAt == c.jobs[j].startedAt
    {
      assert JobEvolves(c.jobs[j], d.jobs[j]);
    }
  }

  // --- The job's result ---------------------------------------------------------------------------------------------------

  /** `step` is an accepted completion of a lease of `j` whose payload carries metrics. */
  predicate ReportsMetrics(c: Cluster, s: Settings, step: Step, j: JobId)
    requires WellFormed(c)
  {
    && step.CompleteLease? && HasMetrics(step.result)
    && Attempt(c, s, step).Ok? && c.leases[step.lease].job == j
  }

  lemma {:induction false} DetectKeepsResult(c: Cluster, s: Settings, dead: seq<NodeId>, now: int, j: JobId)
    requires Inv(c, s) && j in c.jobs
    ensures var d := Detect(c, dead, now); j in d.jobs && d.jobs[j].result == c.jobs[j].result
    decreases |dead|
  {
    if dead != [] {
      DeclareDeadIsGood(c, s, dead[0], now);
      DetectKeepsResult(DeclareDead(c, dead[0], now), s, dead[1..], now, j);
    }
  }

  lemma CompletionKeepsMetrics(c: Cluster, s: Settings, step: Step, j: JobId)
    requires WellFormed(c) && j in c.jobs && step.CompleteLease?
    ensures var d := Next(c, s, step);
      && j in d.jobs
      && (ReportsMetrics(c, s, step, j) ==> d.jobs[j].result == step.result)
      && (!ReportsMetrics(c, s, step, j) && HasMetrics(c.jobs[j].result) ==> d.jobs[j].result == c.jobs[j].result)
  {
  }

  lemma FailureKeepsMetrics(c: Cluster, s: Settings, step: Step, j: JobId)
    requires WellFormed(c) && j in c.jobs && step.FailLease?
    ensures var d := Next(c, s, step);
      j in d.jobs && (HasMetrics(c.jobs[j].result) ==> d.jobs[j].result == c.jobs[j].result)
  {
  }

  lemma OthersKeepResult(c: Cluster, s: Settings, step: Step, j: JobId)
    requires WellFormed(c) && j in c.jobs && !step.CompleteLease? && !step.FailLease? && !step.DetectFailures?
    ensures var d := Next(c, s, step); j in d.jobs && d.jobs[j].result == c.jobs[j].result
  {
  }

  lemma ResultStep(c: Cluster, s: Settings, step: Step, j: JobId)
    requires Inv(c, s) && j in c.jobs
    ensures var d := Next(c, s, step);
      && j in d.jobs
      && (ReportsMetrics(c, s, step, j) ==> d.jobs[j].result == step.result)
      && (!ReportsMetrics(c, s, step, j) && HasMetrics(c.jobs[j].result) ==> d.jobs[j].result == c.jobs[j].result)
  {
    match step
    case CompleteLease(_, _, _, _, _) => CompletionKeepsMetrics(c, s, step, j);
    case FailLease(_, _, _, _, _, _) => FailureKeepsMetrics(c, s, step, j);
    case DetectFailures(dead, now) => DetectKeepsResult(c, s, dead, now, j);
    case _ => OthersKeepResult(c, s, step, j);
  }

  /** How many completions carrying metrics job `j` has accepted in `steps`. */
  ghost function Reports(c: Cluster, s: Settings, steps: seq<Step>, j: JobId): nat
    requires Inv(c, s)
    decreases |steps|
  {
    if steps == [] then 0
    else
      StepIsGood(c, s, steps[0]);
      (if ReportsMetrics(c, s, steps[0], j) then 1 else 0) + Reports(Next(c, s, steps[0]), s, steps[1..], j)
  }

  lemma {:induction false} ResultKept(c: Cluster, s: Settings, steps: seq<Step>, j: JobId)
    requires Inv(c, s) && j in c.jobs && HasMetrics(c.jobs[j].result) && Reports(c, s, steps, j) == 0
    ensures j in RunFrom(c, s, steps).jobs && RunFrom(c, s, steps).jobs[j].result == c.jobs[j].result
    decreases |steps|
  {
    if steps != [] {
      StepIsGood(c, s, steps[0]);
      ResultStep(c, s, steps[0], j);
      ResultKept(Next(c, s, steps[0]), s, steps[1..], j);
    }
  }

  /** If exactly one accepted completion in a run carries metrics, the job's result ends as that payload,
      wherever in the run it falls and whatever else the run does. */
  lemma ResultPromise(c: Cluster, s: Settings, before: seq<Step>, report: Step, after: seq<Step>, j: JobId)
    requires Inv(c, s) && j in c.jobs
    requires j in RunFrom(c, s, before).jobs && ReportsMetrics(RunFrom(c, s, before), s, report, j)
    requires Reports(c, s, before + [report] + after, j) == 1
    ensures var d := RunFrom(c, s, before + [report] + after); j in d.jobs && d.jobs[j].result == report.result
  {
    hide Shape, Books, Evolves, Next;
    var mid := RunFrom(c, s, before);
    var rest := [report] + after;
    assert before + [report] + after == before + rest;
    RunConcat(c, s, before, rest);
    ReportsConcat(c, s, before, rest, j);
    StepIsGood(mid, s, report);
    ResultStep(mid, s, report, j);
    assert rest[0] == report && rest[1..] == after;
    ResultKept(Next(mid, s, report), s, after, j);
  }

  lemma {:induction false} ReportsConcat(c: Cluster, s: Settings, p: seq<Step>, q: seq<Step>, j: JobId)
    requires Inv(c, s)
    ensures Reports(c, s, p + q, j) == Reports(c, s, p, j) + Reports(RunFrom(c, s, p), s, q, j)
    decreases |p|
  {
    hide Shape, Books, Evolves, Next;
    if p == [] {
      assert p + q == q;
    } else {
      StepIsGood(c, s, p[0]);
      assert (p + q)[1..] == p[1..] + q;
      ReportsConcat(Next(c, s, p[0]), s, p[1..], q, j);
    }
  }

  /** Once a job's result carries metrics, it carries metrics in every later state. */
  lemma MetricsNeverLost(c: Cluster, s: Settings, steps: seq<Step>, j: JobId)
    requires Inv(c, s) && j in c.jobs && HasMetrics(c.jobs[j].result)
    ensures var d := RunFrom(c, s, steps); j in d.jobs && HasMetrics(d.jobs[j].result)
  {
    assert JobEvolves(c.jobs[j], RunFrom(c, s, steps).jobs[j]);
  }
}
