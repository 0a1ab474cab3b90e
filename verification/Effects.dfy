/** What each transaction does to every row of every table, said once, over the databases a run can reach:
    there the invariants leave fewer cases than the transactions themselves provide for. */
module Effects {
  import opened Model
  import opened LeaseProtocol
  import opened CohortShape
  import opened Accounting
  import opened Audit
  import opened Runs

  predicate Live(x: Lease) {
    x.state in {Pending, Active}
  }

  /** The log of `j` with one more row, from its state to `to`. */
  function Extended(c: Cluster, j: JobId, to: JobState): map<JobId, seq<Event>>
    requires j in c.jobs && j in c.log
  {
    c.log[j := c.log[j] + [Event(Some(c.jobs[j].state), to)]]
  }

  /** What the invariant says of a live lease and its job. */
  lemma LiveMeans(c: Cluster, s: Settings, l: LeaseId)
    requires Inv(c, s) && l in c.leases && Live(c.leases[l])
    ensures c.leases[l].job in c.jobs && c.leases[l].job in c.log && c.leases[l].node in c.nodes
    ensures var job := c.jobs[c.leases[l].job];
      && c.leases[l].epoch == job.epoch
      && job.state in {Scheduled, Leased, Running, JobState.Completed}
      && (job.state == Scheduled ==> c.leases[l].state == Pending)
      && (job.state in {Leased, Running, JobState.Completed} ==> job.startedAt.Some?)
      && (job.finishedAt.Some? <==> job.state == JobState.Completed)
  {
    assert LeaseShape(c, l) && JobAudited(c, c.leases[l].job);
  }

  /** A new job waits at epoch 0; a node is registered once, OFFLINE and with a clean record; its status and a
      note in a job's log are set on their own; and each leaves everything else as it was. */
  lemma Entered(c: Cluster, s: Settings, j: JobId, world: nat, n: NodeId, status: NodeStatus)
    requires Inv(c, s)
    ensures j !in c.jobs && 0 < world ==>
              Create(c, j, world) == Cluster(
                c.jobs[j := Job(JobState.Queued, world, 0, 0, None, None, None, None, None, None)], c.leases, c.nodes,
                c.log[j := [Event(None, JobState.Queued)]])
    ensures j in c.jobs || world == 0 ==> Create(c, j, world) == c
    ensures Register(c, n) == if n in c.nodes then c else c.(nodes := c.nodes[n := Node(Offline, 0, 0, None)])
    ensures n in c.nodes ==> SetStatus(c, n, status).nodes == c.nodes[n := Node(
                               status, c.nodes[n].successes, c.nodes[n].failures, c.nodes[n].backoffUntil)]
    ensures SetStatus(c, n, status) == c.(nodes := SetStatus(c, n, status).nodes)
    ensures n !in c.nodes ==> SetStatus(c, n, status) == c
    ensures j in c.jobs ==> j in c.log && Noted(c, j) == c.(log := Extended(c, j, c.jobs[j].state))
  {
  }

  // --- Placement and claim -----------------------------------------------------------------------------------

  /** A placement of a waiting job on known nodes, with fresh lease ids: one new epoch, for every rank an
      offer good for one TTL, rank 0 the host, and nothing else touched. */
  lemma Placed(c: Cluster, s: Settings, j: JobId, cohort: seq<NodeId>, ids: seq<LeaseId>, now: int)
    requires Inv(c, s) && j in c.jobs && c.jobs[j].state in {JobState.Queued, Reassigned}
    requires |cohort| == |ids| == c.jobs[j].world && forall n | n in cohort :: n in c.nodes
    requires (forall l | l in ids :: l !in c.leases) && forall i, k | 0 <= i < k < |ids| :: ids[i] != ids[k]
    ensures cohort != [] && j in c.log
    ensures var job, d := c.jobs[j], Place(c, s, j, cohort, ids, now);
      && d.nodes == c.nodes && d.log == Extended(c, j, Scheduled)
      && d.jobs == c.jobs[j := job.(state := Scheduled, epoch := job.epoch + 1,
                                    scheduledNode := Some(cohort[0]), rendezvousNode := Some(cohort[0]))]
      && d.leases.Keys == c.leases.Keys + set l | l in ids
      && (forall l | l in c.leases :: d.leases[l] == c.leases[l])
      && (forall r | 0 <= r < |ids| ::
            d.leases[ids[r]] == Lease(j, cohort[r], job.epoch + 1, r, Pending, now, now + s.ttl, None, None))
  {
    hide Inv, Slots, CanPlace;
    MayPlace(c, s, j, cohort, ids);
    var slots := Slots(j, c.jobs[j].epoch + 1, cohort, ids, s, now);
    NewSlots(j, c.jobs[j].epoch + 1, cohort, ids, s, now);
    assert Place(c, s, j, cohort, ids, now).leases == c.leases + slots;
    Merged(c.leases, slots, ids);
  }

  lemma MayPlace(c: Cluster, s: Settings, j: JobId, cohort: seq<NodeId>, ids: seq<LeaseId>)
    requires Inv(c, s) && j in c.jobs && c.jobs[j].state in {JobState.Queued, Reassigned}
    requires |cohort| == |ids| == c.jobs[j].world && forall n | n in cohort :: n in c.nodes
    requires (forall l | l in ids :: l !in c.leases) && forall i, k | 0 <= i < k < |ids| :: ids[i] != ids[k]
    ensures CanPlace(c, j, cohort, ids) && cohort != [] && j in c.log
  {
    assert Cohorts(c);
    hide JobShape, Books, Audited, LeaseShape, Apart, HasSlot;
  }

  lemma Merged(held: map<LeaseId, Lease>, slots: map<LeaseId, Lease>, ids: seq<LeaseId>)
    requires slots.Keys == (set l | l in ids) && forall l | l in ids :: l !in held
    ensures (held + slots).Keys == held.Keys + set l | l in ids
    ensures forall l | l in held :: (held + slots)[l] == held[l]
    ensures forall r | 0 <= r < |ids| :: ids[r] in slots && (held + slots)[ids[r]] == slots[ids[r]]
  {
  }

  /** One offer for each rank of a cohort. */
  lemma NewSlots(j: JobId, epoch: nat, cohort: seq<NodeId>, ids: seq<LeaseId>, s: Settings, now: int)
    requires |cohort| == |ids| && forall i, k | 0 <= i < k < |ids| :: ids[i] != ids[k]
    ensures Slots(j, epoch, cohort, ids, s, now).Keys == set l | l in ids
    ensures forall r | 0 <= r < |ids| ::
              Slots(j, epoch, cohort, ids, s, now)[ids[r]]
              == Lease(j, cohort[r], epoch, r, Pending, now, now + s.ttl, None, None)
  {
    forall r | 0 <= r < |ids|
      ensures IndexOf(ids, ids[r]) == r
    {
      var i := IndexOf(ids, ids[r]);
    }
  }

  /** A claim of an offer waiting on node `n`: it is ACTIVE for one TTL from now, the first of its cohort
      moves the job to LEASED and starts its clock, a later one only leaves a note. */
  lemma Claimed(c: Cluster, s: Settings, n: NodeId, l: LeaseId, now: int)
    requires Inv(c, s) && l in c.leases && c.leases[l].node == n && c.leases[l].state == Pending
    ensures var j := c.leases[l].job;
      && j in c.jobs && j in c.log
      && var job := c.jobs[j];
      && var first := job.state == Scheduled;
      && ClaimSlot(c, s, n, l, now) == Ok(Cluster(
             if first then c.jobs[j := job.(state := Leased, startedAt := Some(StartOf(job, now)))] else c.jobs,
             c.leases[l := c.leases[l].(state := Active, grantedAt := now, expiresAt := now + s.ttl)],
             c.nodes,
             Extended(c, j, if first then Leased else job.state)))
  {
    LiveMeans(c, s, l);
  }

  /** When a job was first started, if that is no later than `now`. */
  function StartOf(job: Job, now: int): int {
    match job.startedAt case Some(t) => t case None => now
  }

  /** A claim never takes anything but an offer to its own node, of the attempt its job is at. */
  lemma ClaimedNothing(c: Cluster, s: Settings, n: NodeId, l: LeaseId, now: int)
    requires WellFormed(c)
    requires !(l in c.leases && c.leases[l].node == n && c.leases[l].state == Pending
               && c.leases[l].epoch == c.jobs[c.leases[l].job].epoch)
    ensures ClaimSlot(c, s, n, l, now) == Ok(c)
  {
  }

  // --- The fence and the calls behind it --------------------------------------------------------------------------

  /** Which check refuses a lease write, and when none does. */
  lemma FenceExact(c: Cluster, l: LeaseId, n: NodeId, epoch: int)
    requires WellFormed(c)
    ensures Fence(c, l, n, epoch) == Some(LeaseNotFound) <==> l !in c.leases
    ensures Fence(c, l, n, epoch) == Some(NotOwner) <==> l in c.leases && c.leases[l].node != n
    ensures Fence(c, l, n, epoch) == Some(StaleEpoch) <==>
            && l in c.leases && c.leases[l].node == n
            && !(epoch == c.leases[l].epoch == c.jobs[c.leases[l].job].epoch)
    ensures Fence(c, l, n, epoch) == Some(NotActive) <==>
            && l in c.leases && c.leases[l].node == n && epoch == c.leases[l].epoch == c.jobs[c.leases[l].job].epoch
            && c.leases[l].state != Active
    ensures Fence(c, l, n, epoch) == None <==>
            && l in c.leases && c.leases[l].node == n && epoch == c.leases[l].epoch == c.jobs[c.leases[l].job].epoch
            && c.leases[l].state == Active
  {
  }

  /** In a reachable database the holder of an ACTIVE lease is never fenced out by a stale epoch: naming its
      own epoch is enough. */
  lemma HolderPasses(c: Cluster, s: Settings, l: LeaseId)
    requires Inv(c, s) && l in c.leases
    ensures Fence(c, l, c.leases[l].node, c.leases[l].epoch) == None <==> c.leases[l].state == Active
  {
    assert LeaseShape(c, l);
  }

  /** An accepted renewal: the lease runs one TTL from now, and a job just claimed is RUNNING. */
  lemma Renewed(c: Cluster, s: Settings, l: LeaseId, n: NodeId, epoch: int, now: int)
    requires Inv(c, s) && Fence(c, l, n, epoch) == None
    ensures var j := c.leases[l].job;
      && j in c.jobs && j in c.log
      && var job := c.jobs[j];
      && var starts := job.state == Leased;
      && Renew(c, s, l, n, epoch, now) == Ok(Cluster(
             if starts then c.jobs[j := job.(state := Running)] else c.jobs,
             c.leases[l := c.leases[l].(renewedAt := Some(now), expiresAt := now + s.ttl)],
             c.nodes,
             if starts then Extended(c, j, Running) else c.log))
  {
    LiveMeans(c, s, l);
  }

  /** Which of two results a job keeps: the first to come, until one comes with metrics. */
  function Better(stored: Option<TrainingResult>, reported: Option<TrainingResult>): Option<TrainingResult> {
    match (stored, reported)
    case (_, None) => stored
    case (None, Some(_)) => reported
    case (Some(_), Some(r)) => if r.finalTestAccuracy.Some? || r.finalLoss.Some? then reported else stored
  }

  /** An accepted completion always leaves the job COMPLETED: finished now if this is the first rank to
      complete, with one row in the log either way; the lease is settled and its node credited. */
  lemma CompletedNow(c: Cluster, s: Settings, l: LeaseId, n: NodeId, epoch: int, result: Option<TrainingResult>, now: int)
    requires Inv(c, s) && Fence(c, l, n, epoch) == None
    ensures var j := c.leases[l].job;
      && j in c.jobs && j in c.log && n in c.nodes
      && var job := c.jobs[j];
      && Complete(c, l, n, epoch, result, now) == Ok(Cluster(
             c.jobs[j := job.(state := JobState.Completed, result := Better(job.result, result),
                              finishedAt := if job.state == JobState.Completed then job.finishedAt else Some(now))],
             c.leases[l := c.leases[l].(state := LeaseState.Completed, releasedAt := Some(now))],
             c.nodes[n := c.nodes[n].(successes := c.nodes[n].successes + 1)],
             Extended(c, j, JobState.Completed)))
  {
    LiveMeans(c, s, l);
    var j := c.leases[l].job;
    var job, done := c.jobs[j], Finished(c, l, result, now);
    var after := job.(state := JobState.Completed, result := Better(job.result, result),
                      finishedAt := if job.state == JobState.Completed then job.finishedAt else Some(now));
    assert KeptResult(job.result, result) == Better(job.result, result);
    assert done.jobs[j := after] == c.jobs[j := after];
    if job.state == JobState.Completed {
      assert job.(result := Better(job.result, result)) == after;
    } else {
      assert Moved(done.jobs[j], JobState.Completed, now) == after;
    }
  }

  /** The job after a reported failure: a live one is placed nowhere, REASSIGNED within its budget and
      FAILED past it; one already completed stays so. The reason is kept, and the result if it is the first. */
  function AfterFailure(job: Job, s: Settings, reason: string, result: Option<TrainingResult>, now: int): Job {
    var told := job.(failureReason := Some(reason), result := if job.result.Some? then job.result else result);
    if job.state == JobState.Completed then told
    else
      var over := s.maxRetries <= job.failedAttempts;
      told.(failedAttempts := job.failedAttempts + 1, scheduledNode := None, rendezvousNode := None,
      state := if over then JobState.Failed else Reassigned, finishedAt := if over then Some(now) else None)
  }

  /** The node after a reported failure: charged, and kept from new work for a while if the job is retried. */
  function AfterCharge(node: Node, job: Job, s: Settings, now: int): Node {
    var retried := job.state != JobState.Completed && job.failedAttempts < s.maxRetries;
    Node(node.status, node.successes, node.failures + 1,
         if retried && 0 < s.failedAttemptBackoff then Some(now + s.failedAttemptBackoff) else node.backoffUntil)
  }

  /** The leases after a reported failure: `l` FAILED, and every other live lease of a live job RELEASED. */
  function AfterFailedLease(leases: map<LeaseId, Lease>, l: LeaseId, j: JobId, live: bool, now: int): map<LeaseId, Lease> {
    map m | m in leases ::
      if m == l then leases[m].(state := LeaseState.Failed, releasedAt := Some(now))
      else if live && leases[m].job == j && Live(leases[m])
      then leases[m].(state := Released, releasedAt := Some(now)) else leases[m]
  }

  /** An accepted failure, row by row. */
  lemma FailedNow(c: Cluster, s: Settings, l: LeaseId, n: NodeId, epoch: int, reason: string,
      result: Option<TrainingResult>, now: int)
    requires Inv(c, s) && Fence(c, l, n, epoch) == None
    ensures var j := c.leases[l].job;
      && j in c.jobs && j in c.log && n in c.nodes
      && var job := c.jobs[j];
      && var after := AfterFailure(job, s, reason, result, now);
      && Fail(c, s, l, n, epoch, reason, result, now) == Ok(Cluster(
             c.jobs[j := after],
             AfterFailedLease(c.leases, l, j, job.state != JobState.Completed, now),
             c.nodes[n := AfterCharge(c.nodes[n], job, s, now)],
             Extended(c, j, after.state)))
  {
    LiveMeans(c, s, l);
    LiveAreCurrent(c, s, c.leases[l].job);
    FailedLeases(c, l, now);
    hide Inv, ReleaseSiblings, AfterFailedLease;
    FailedJobRow(c.jobs[c.leases[l].job], s, reason, result, now);
    var j := c.leases[l].job;
    var after := AfterFailure(c.jobs[j], s, reason, result, now);
    if c.jobs[j].state != JobState.Completed {
      var job := FailedJob(c.jobs[j], reason, result);
      var retry := job.failedAttempts + 1 <= s.maxRetries;
      var torn := FailedAttempt(c, l, job, if retry then s.failedAttemptBackoff else 0, now);
      assert torn.jobs[j := after] == c.jobs[j := after];
    }
  }

  lemma FailedJobRow(job: Job, s: Settings, reason: string, result: Option<TrainingResult>, now: int)
    requires job.state in {Leased, Running, JobState.Completed} && job.startedAt.Some?
    requires job.finishedAt.Some? <==> job.state == JobState.Completed
    ensures var told, retry := FailedJob(job, reason, result), job.failedAttempts + 1 <= s.maxRetries;
      var unplaced := told.(failedAttempts := told.failedAttempts + 1, scheduledNode := None, rendezvousNode := None);
      AfterFailure(job, s, reason, result, now)
      == if job.state == JobState.Completed then told
         else Moved(unplaced, if retry then Reassigned else JobState.Failed, now)
  {
  }

  lemma LiveAreCurrent(c: Cluster, s: Settings, j: JobId)
    requires Inv(c, s) && j in c.jobs
    ensures forall m | m in c.leases && c.leases[m].job == j && Live(c.leases[m]) :: c.leases[m].epoch == c.jobs[j].epoch
  {
    forall m | m in c.leases && c.leases[m].job == j && Live(c.leases[m])
      ensures c.leases[m].epoch == c.jobs[j].epoch
    {
      LiveMeans(c, s, m);
    }
  }

  lemma FailedLeases(c: Cluster, l: LeaseId, now: int)
    requires l in c.leases && c.leases[l].job in c.jobs && c.leases[l].epoch == c.jobs[c.leases[l].job].epoch
    requires forall m | m in c.leases && c.leases[m].job == c.leases[l].job && Live(c.leases[m]) ::
               c.leases[m].epoch == c.leases[l].epoch
    ensures var x := c.leases[l];
      var settled := c.leases[l := SettledLease(x, LeaseState.Failed, now)];
      && AfterFailedLease(c.leases, l, x.job, true, now) == ReleaseSiblings(settled, x.job, x.epoch, {l}, now)
      && AfterFailedLease(c.leases, l, x.job, false, now) == settled
  {
  }

  // --- Cancel and the detector ------------------------------------------------------------------------------------

  /** A cancel: refused exactly for an unknown or finished job; otherwise the job is CANCELLED now and all its
      live leases RELEASED, with no node charged. */
  lemma CancelledNow(c: Cluster, s: Settings, j: JobId, now: int)
    requires Inv(c, s)
    ensures Cancel(c, j, now).Ok? <==> j in c.jobs && c.jobs[j].finishedAt == None
    ensures j in c.jobs && c.jobs[j].finishedAt == None ==>
              && j in c.log
              && Cancel(c, j, now) == Ok(Cluster(
                     c.jobs[j := c.jobs[j].(state := JobState.Cancelled, finishedAt := Some(now))],
                     map l | l in c.leases ::
                       if c.leases[l].job == j && Live(c.leases[l])
                       then c.leases[l].(state := Released, releasedAt := Some(now)) else c.leases[l],
                     c.nodes,
                     Extended(c, j, JobState.Cancelled)))
  {
    if j in c.jobs {
      assert JobAudited(c, j);
      TableIsConsistent(c.jobs[j].state);
      assert ReleaseAll(c.leases, j, now) ==
             map l | l in c.leases ::
               if c.leases[l].job == j && Live(c.leases[l])
               then c.leases[l].(state := Released, releasedAt := Some(now)) else c.leases[l];
    }
  }

  /** Job `j` has a live lease on node `n`. */
  ghost predicate IsHit(c: Cluster, n: NodeId, j: JobId) {
    exists l :: l in c.leases && c.leases[l].node == n && c.leases[l].job == j && Live(c.leases[l])
  }

  /** What is in a detector's hands about one ONLINE node. */
  lemma HeldMeans(c: Cluster, s: Settings, n: NodeId)
    requires Inv(c, s) && n in c.nodes
    ensures forall l :: l in HeldBy(SetStatus(c, n, Offline), n) <==>
              l in c.leases && c.leases[l].node == n && Live(c.leases[l])
    ensures forall j :: j in Doomed(SetStatus(c, n, Offline), HeldBy(SetStatus(c, n, Offline), n)) <==> IsHit(c, n, j)
    ensures forall j | IsHit(c, n, j) ::
              j in c.jobs && c.jobs[j].state in {Scheduled, Leased, Running, JobState.Completed}
  {
    forall l | l in c.leases && c.leases[l].node == n && Live(c.leases[l])
      ensures l in HeldBy(SetStatus(c, n, Offline), n)
      ensures c.jobs[c.leases[l].job].state in {Scheduled, Leased, Running, JobState.Completed}
    {
      LiveMeans(c, s, l);
    }
  }

  lemma DeclaredTables(c: Cluster, n: NodeId, now: int)
    requires WellFormed(c) && n in c.nodes && c.nodes[n].status == Online
    ensures var f := SetStatus(c, n, Offline);
      WellFormed(f) && f.leases == c.leases && f.jobs == c.jobs && f.log == c.log && f.nodes.Keys == c.nodes.Keys
      && DeclareDead(c, n, now) == Teardown(f, HeldBy(f, n), {}, 0, now)
      && HeldBy(f, n) + {} == HeldBy(f, n)
  {
  }

  /** One node declared dead, lease by lease: its own live ones EXPIRED, the others of the jobs it hits
      RELEASED, the rest untouched. */
  lemma DeclaredLease(c: Cluster, s: Settings, n: NodeId, now: int, l: LeaseId)
    requires Inv(c, s) && n in c.nodes && c.nodes[n].status == Online && l in c.leases
    ensures var x, d := c.leases[l], DeclareDead(c, n, now);
      && l in d.leases
      && d.leases[l] == if !Live(x) then x
                        else if x.node == n then x.(state := Expired)
                        else if IsHit(c, n, x.job) then x.(state := Released, releasedAt := Some(now)) else x
  {
    HeldMeans(c, s, n);
    DeclaredTables(c, n, now);
    if Live(c.leases[l]) {
      LiveMeans(c, s, l);
    }
    hide Inv, HeldBy, DeclareDead, IsHit, Doomed;
  }

  /** Job by job: the ones hit, unless completed, are REASSIGNED, placed nowhere, with one row saying so. */
  lemma DeclaredJob(c: Cluster, s: Settings, n: NodeId, now: int, j: JobId)
    requires Inv(c, s) && n in c.nodes && c.nodes[n].status == Online && j in c.jobs
    ensures var job, d := c.jobs[j], DeclareDead(c, n, now);
      && j in d.jobs && j in d.log && j in c.log
      && (if IsHit(c, n, j) && job.state != JobState.Completed
          then && d.jobs[j] == job.(state := Reassigned, scheduledNode := None, rendezvousNode := None)
               && d.log[j] == c.log[j] + [Event(Some(job.state), Reassigned)]
          else d.jobs[j] == job && d.log[j] == c.log[j])
  {
    HeldMeans(c, s, n);
    DeclaredTables(c, n, now);
    hide Inv, HeldBy, DeclareDead, IsHit, Doomed, TornLease, TornNode;
  }

  /** Node by node: the dead one is OFFLINE and charged once for each live lease it held. */
  lemma DeclaredNode(c: Cluster, s: Settings, n: NodeId, now: int, m: NodeId)
    requires Inv(c, s) && n in c.nodes && c.nodes[n].status == Online && m in c.nodes
    ensures var node, d := c.nodes[m], DeclareDead(c, n, now);
      && m in d.nodes
      && d.nodes[m] == if m != n then node
                       else node.(status := Offline,
                       failures := node.failures + |set l | l in c.leases && c.leases[l].node == n && Live(c.leases[l])|)
  {
    hide Inv, HeldBy, DeclareDead, IsHit, Doomed, TornLease, TornJob, TornLog, OnNode, Live;
    InvWellFormed(c, s);
    HeldMeans(c, s, n);
    DeclaredTables(c, n, now);
    var f := SetStatus(c, n, Offline);
    HeldOnNode(f, n, m);
    assert HeldBy(f, n) == set l | l in c.leases && c.leases[l].node == n && Live(c.leases[l]);
  }

  lemma HeldOnNode(f: Cluster, n: NodeId, m: NodeId)
    requires WellFormed(f)
    ensures OnNode(f, HeldBy(f, n), m) == if m == n then HeldBy(f, n) else {}
  {
  }

  /** A node that is not ONLINE is never declared dead. */
  lemma NotDeclared(c: Cluster, n: NodeId, now: int)
    requires WellFormed(c) && (n in c.nodes ==> c.nodes[n].status in {Offline, Draining})
    ensures DeclareDead(c, n, now) == c
  {
  }
}
