/** What a cohort of leases looks like in every job state, and that every transaction keeps it so. */
module CohortShape {
  import opened Model
  import opened LeaseProtocol

  predicate Slot(c: Cluster, l: LeaseId, j: JobId, epoch: nat, rank: nat) {
    l in c.leases && c.leases[l].job == j && c.leases[l].epoch == epoch && c.leases[l].rank == rank
  }

  ghost predicate HasSlot(c: Cluster, j: JobId, epoch: nat, rank: nat) {
    exists l :: Slot(c, l, j, epoch, rank)
  }

  /** Two different leases never hold one rank of one attempt. */
  predicate Apart(x: Lease, y: Lease) {
    x.job == y.job && x.epoch == y.epoch ==> x.rank != y.rank
  }

  /** Every attempt has at most one lease per rank, and the current one has exactly one. */
  ghost predicate Cohorts(c: Cluster) {
    && WellFormed(c)
    && (forall j | j in c.jobs :: 0 < c.jobs[j].world)
    && (forall l | l in c.leases ::
          0 < c.leases[l].epoch <= c.jobs[c.leases[l].job].epoch && c.leases[l].rank < c.jobs[c.leases[l].job].world)
    && (forall l, m {:trigger Apart(c.leases[l], c.leases[m])} | l in c.leases && m in c.leases && l != m ::
          Apart(c.leases[l], c.leases[m]))
    && (forall j, r: nat {:trigger HasSlot(c, j, c.jobs[j].epoch, r)} |
          j in c.jobs && 0 < c.jobs[j].epoch && r < c.jobs[j].world :: HasSlot(c, j, c.jobs[j].epoch, r))
  }

  /** Which states a current-epoch lease may be in, given its job's state. */
  predicate Allows(job: JobState, lease: LeaseState) {
    match job
    case Scheduled => lease == Pending
    case Leased | Running => NonTerminal(lease)
    case Completed => true
    case Queued | Reassigned | Failed | Cancelled => !NonTerminal(lease)
  }

  predicate Member(c: Cluster, l: LeaseId, j: JobId, state: LeaseState)
    requires j in c.jobs
  {
    l in c.leases && c.leases[l].job == j && c.leases[l].epoch == c.jobs[j].epoch && c.leases[l].state == state
  }

  /** The shape of one job's attempts. */
  ghost predicate JobShape(c: Cluster, j: JobId)
    requires j in c.jobs
  {
    var job := c.jobs[j];
    && (job.state == JobState.Queued ==> job.epoch == 0)
    && (job.state in {Scheduled, Leased, Running, JobState.Completed} ==> 0 < job.epoch)
    && (job.state in {Leased, Running} ==> exists l :: Member(c, l, j, Active))
    && (job.state == JobState.Completed ==> exists l :: Member(c, l, j, LeaseState.Completed))
  }

  predicate LeaseShape(c: Cluster, l: LeaseId)
    requires WellFormed(c) && l in c.leases
  {
    if IsCurrent(c, l) then Allows(c.jobs[c.leases[l].job].state, c.leases[l].state)
    else !NonTerminal(c.leases[l].state)
  }

  ghost predicate Shape(c: Cluster) {
    && Cohorts(c)
    && (forall j {:trigger JobShape(c, j)} | j in c.jobs :: JobShape(c, j))
    && (forall l {:trigger LeaseShape(c, l)} | l in c.leases :: LeaseShape(c, l))
  }

  // --- What a transaction leaves alone ---------------------------------------------------------------

  predicate SameSlot(x: Lease, y: Lease) {
    x.job == y.job && x.node == y.node && x.epoch == y.epoch && x.rank == y.rank
  }

  /** No row appears or disappears and no row's identity changes. */
  predicate SameRows(c: Cluster, c': Cluster) {
    && c'.jobs.Keys == c.jobs.Keys && c'.leases.Keys == c.leases.Keys
    && c'.nodes.Keys == c.nodes.Keys && c'.log.Keys == c.log.Keys
    && (forall l | l in c.leases :: SameSlot(c.leases[l], c'.leases[l]))
    && (forall j | j in c.jobs :: c'.jobs[j].world == c.jobs[j].world && c'.jobs[j].epoch == c.jobs[j].epoch)
  }

  /** Only job `j`, its leases and its log may differ. */
  predicate Only(c: Cluster, c': Cluster, j: JobId) {
    && SameRows(c, c')
    && (forall k | k in c.jobs && k != j :: c'.jobs[k] == c.jobs[k])
    && (forall k | k in c.log && k != j :: c'.log[k] == c.log[k])
    && (forall l | l in c.leases && c.leases[l].job != j :: c'.leases[l] == c.leases[l])
  }

  lemma SameRowsKeepCohorts(c: Cluster, c': Cluster)
    requires Cohorts(c) && SameRows(c, c')
    ensures Cohorts(c')
  {
    forall j, r: nat | j in c'.jobs && 0 < c'.jobs[j].epoch && r < c'.jobs[j].world
      ensures HasSlot(c', j, c'.jobs[j].epoch, r)
    {
      assert HasSlot(c, j, c.jobs[j].epoch, r);
      var l :| Slot(c, l, j, c.jobs[j].epoch, r);
      assert Slot(c', l, j, c'.jobs[j].epoch, r);
    }
    forall l, m | l in c'.leases && m in c'.leases && l != m
      ensures Apart(c'.leases[l], c'.leases[m])
    {
      assert Apart(c.leases[l], c.leases[m]);
    }
  }

  /** To keep the shape it is enough to look at the one job a transaction touches. */
  lemma LocalShape(c: Cluster, c': Cluster, j: JobId)
    requires Shape(c) && j in c.jobs && Only(c, c', j)
    requires JobShape(c', j)
    requires WellFormed(c') && forall l | l in c'.leases && c'.leases[l].job == j :: LeaseShape(c', l)
    ensures Shape(c')
  {
    SameRowsKeepCohorts(c, c');
    forall k | k in c'.jobs && k != j
      ensures JobShape(c', k)
    {
      assert JobShape(c, k);
      assert forall l, s :: Member(c, l, k, s) ==> Member(c', l, k, s);
    }
    forall l | l in c'.leases && c'.leases[l].job != j
      ensures LeaseShape(c', l)
    {
      assert LeaseShape(c, l);
    }
  }

  // Each call past the fence, and each cancel, touches one job.

  lemma OnlyTwice(c: Cluster, d: Cluster, e: Cluster, j: JobId)
    requires Only(c, d, j) && Only(d, e, j)
    ensures Only(c, e, j)
  {
  }

  lemma TransitionOnly(c: Cluster, j: JobId, to: JobState, now: int)
    requires WellFormed(c) && j in c.jobs && Transition(c, j, to, now).Ok?
    ensures Only(c, Transition(c, j, to, now).value, j)
  {
  }

  lemma ClaimOnly(c: Cluster, s: Settings, n: NodeId, l: LeaseId, now: int)
    requires WellFormed(c) && l in Claimable(c, n, {}) && IsCurrent(c, l) && ClaimSlot(c, s, n, l, now).Ok?
    ensures Only(c, ClaimSlot(c, s, n, l, now).value, c.leases[l].job)
  {
    hide Only, Transition, Noted;
    var j, y := c.leases[l].job, c.leases[l].(state := Active, grantedAt := now, expiresAt := now + s.ttl);
    RowOnly(c, l, y);
    MovedOrNoted(c, c.(leases := c.leases[l := y]), j, Leased, now);
  }

  lemma RowOnly(c: Cluster, l: LeaseId, y: Lease)
    requires WellFormed(c) && l in c.leases && SameSlot(c.leases[l], y)
    ensures WellFormed(c.(leases := c.leases[l := y])) && Only(c, c.(leases := c.leases[l := y]), c.leases[l].job)
  {
  }

  lemma MovedOrNoted(c: Cluster, d: Cluster, j: JobId, to: JobState, now: int)
    requires WellFormed(d) && j in d.jobs && Only(c, d, j)
    ensures Transition(d, j, to, now).Ok? ==> Only(c, Transition(d, j, to, now).value, j)
    ensures Only(c, Noted(d, j), j)
  {
    hide Only, Transition, Noted;
    if Transition(d, j, to, now).Ok? {
      TransitionOnly(d, j, to, now);
      OnlyTwice(c, d, Transition(d, j, to, now).value, j);
    }
    NotedOnly(d, j);
    OnlyTwice(c, d, Noted(d, j), j);
  }

  lemma RenewOnly(c: Cluster, s: Settings, l: LeaseId, n: NodeId, epoch: int, now: int)
    requires WellFormed(c) && Renew(c, s, l, n, epoch, now).Ok?
    ensures Only(c, Renew(c, s, l, n, epoch, now).value, c.leases[l].job)
  {
    hide Only, Transition, Noted;
    var j, y := c.leases[l].job, c.leases[l].(renewedAt := Some(now), expiresAt := now + s.ttl);
    RowOnly(c, l, y);
    MovedOrNoted(c, c.(leases := c.leases[l := y]), j, Running, now);
  }

  lemma NotedOnly(c: Cluster, j: JobId)
    requires WellFormed(c) && j in c.jobs
    ensures Only(c, Noted(c, j), j)
  {
  }

  lemma FinishedOnly(c: Cluster, l: LeaseId, result: Option<TrainingResult>, now: int)
    requires WellFormed(c) && l in c.leases
    ensures Only(c, Finished(c, l, result, now), c.leases[l].job)
  {
  }

  lemma CompleteOnly(c: Cluster, l: LeaseId, n: NodeId, epoch: int, result: Option<TrainingResult>, now: int)
    requires WellFormed(c) && Complete(c, l, n, epoch, result, now).Ok?
    ensures Only(c, Complete(c, l, n, epoch, result, now).value, c.leases[l].job)
  {
    var j := c.leases[l].job;
    var done := Finished(c, l, result, now);
    FinishedOnly(c, l, result, now);
    if c.jobs[j].state in {Leased, Running} {
      TransitionOnly(done, j, JobState.Completed, now);
    } else {
      NotedOnly(done, j);
    }
    OnlyTwice(c, done, Complete(c, l, n, epoch, result, now).value, j);
  }

  lemma FailedAttemptOnly(c: Cluster, l: LeaseId, job: Job, backoff: int, now: int)
    requires WellFormed(c) && l in c.leases
    requires job.world == c.jobs[c.leases[l].job].world && job.epoch == c.jobs[c.leases[l].job].epoch
    ensures Only(c, FailedAttempt(c, l, job, backoff, now), c.leases[l].job)
  {
  }

  lemma FailOnly(c: Cluster, s: Settings, l: LeaseId, n: NodeId, epoch: int, reason: string,
                 result: Option<TrainingResult>, now: int)
    requires WellFormed(c) && Fail(c, s, l, n, epoch, reason, result, now).Ok?
    ensures Only(c, Fail(c, s, l, n, epoch, reason, result, now).value, c.leases[l].job)
  {
    var j := c.leases[l].job;
    var job := FailedJob(c.jobs[j], reason, result);
    if job.state in {Leased, Running} {
      var retry := job.failedAttempts + 1 <= s.maxRetries;
      var backoff := if retry then s.failedAttemptBackoff else 0;
      var torn := FailedAttempt(c, l, job, backoff, now);
      FailedAttemptOnly(c, l, job, backoff, now);
      TransitionOnly(torn, j, if retry then Reassigned else JobState.Failed, now);
      OnlyTwice(c, torn, Fail(c, s, l, n, epoch, reason, result, now).value, j);
    }
  }

  lemma CancelOnly(c: Cluster, j: JobId, now: int)
    requires WellFormed(c) && Cancel(c, j, now).Ok?
    ensures Only(c, Cancel(c, j, now).value, j)
  {
  }

  lemma TeardownRows(c: Cluster, failed: set<LeaseId>, unclaimed: set<LeaseId>, backoff: int, now: int)
    requires WellFormed(c)
    ensures SameRows(c, Teardown(c, failed, unclaimed, backoff, now))
  {
  }

  // --- Every transaction keeps the shape -----------------------------------------------------------------

  lemma InitShape()
    ensures Shape(EMPTY)
  {
  }

  /** Adding jobs that have never been placed, or nodes, keeps the shape of everything already there. */
  lemma GrowShape(c: Cluster, c': Cluster)
    requires Shape(c) && WellFormed(c') && c'.leases == c.leases && c.jobs.Keys <= c'.jobs.Keys
    requires forall j | j in c.jobs :: c'.jobs[j] == c.jobs[j]
    requires forall j | j in c'.jobs && j !in c.jobs ::
               c'.jobs[j].state == JobState.Queued && c'.jobs[j].epoch == 0 && 0 < c'.jobs[j].world
    ensures Shape(c')
  {
    forall j, r: nat | j in c'.jobs && 0 < c'.jobs[j].epoch && r < c'.jobs[j].world
      ensures HasSlot(c', j, c'.jobs[j].epoch, r)
    {
      assert HasSlot(c, j, c.jobs[j].epoch, r);
      var l :| Slot(c, l, j, c.jobs[j].epoch, r);
      assert Slot(c', l, j, c'.jobs[j].epoch, r);
    }
    forall l, m | l in c'.leases && m in c'.leases && l != m
      ensures Apart(c'.leases[l], c'.leases[m])
    {
      assert Apart(c.leases[l], c.leases[m]);
    }
    forall j | j in c.jobs
      ensures JobShape(c', j)
    {
      assert JobShape(c, j);
      assert forall l, s :: Member(c, l, j, s) ==> Member(c', l, j, s);
    }
    assert forall l | l in c.leases :: LeaseShape(c, l);
  }

  lemma CreateShape(c: Cluster, j: JobId, world: nat)
    requires Shape(c)
    ensures Shape(Create(c, j, world))
  {
    GrowShape(c, Create(c, j, world));
  }

  lemma PlacedSlot(c: Cluster, s: Settings, j: JobId, cohort: seq<NodeId>, ids: seq<LeaseId>, now: int, k: JobId, r: nat)
    requires Cohorts(c) && CanPlace(c, j, cohort, ids) && k in c.jobs && r < c.jobs[k].world
    requires k == j || 0 < c.jobs[k].epoch
    ensures var c' := Place(c, s, j, cohort, ids, now); HasSlot(c', k, c'.jobs[k].epoch, r)
  {
    var c' := Place(c, s, j, cohort, ids, now);
    if k == j {
      assert ids[r] in ids && IndexOf(ids, ids[r]) == r;
      assert Slot(c', ids[r], k, c'.jobs[k].epoch, r);
    } else {
      assert HasSlot(c, k, c.jobs[k].epoch, r);
      var l :| Slot(c, l, k, c.jobs[k].epoch, r);
      assert Slot(c', l, k, c'.jobs[k].epoch, r);
    }
  }

  lemma PlacedApart(c: Cluster, s: Settings, j: JobId, cohort: seq<NodeId>, ids: seq<LeaseId>, now: int, l: LeaseId,
      m: LeaseId)
    requires CanPlace(c, j, cohort, ids) && l != m
    requires l in Place(c, s, j, cohort, ids, now).leases && m in Place(c, s, j, cohort, ids, now).leases
    requires l in c.leases && c.leases[l].job == j ==> c.leases[l].epoch <= c.jobs[j].epoch
    requires m in c.leases && c.leases[m].job == j ==> c.leases[m].epoch <= c.jobs[j].epoch
    requires l in c.leases && m in c.leases ==> Apart(c.leases[l], c.leases[m])
    ensures Apart(Place(c, s, j, cohort, ids, now).leases[l], Place(c, s, j, cohort, ids, now).leases[m])
  {
  }

  lemma PlacedBounds(c: Cluster, s: Settings, j: JobId, cohort: seq<NodeId>, ids: seq<LeaseId>, now: int)
    requires WellFormed(c) && CanPlace(c, j, cohort, ids)
    requires forall l | l in c.leases ::
               0 < c.leases[l].epoch <= c.jobs[c.leases[l].job].epoch && c.leases[l].rank < c.jobs[c.leases[l].job].world
    ensures var c' := Place(c, s, j, cohort, ids, now);
      && WellFormed(c')
      && forall l | l in c'.leases ::
           0 < c'.leases[l].epoch <= c'.jobs[c'.leases[l].job].epoch && c'.leases[l].rank < c'.jobs[c'.leases[l].job].world
  {
  }

  lemma PlacedCohorts(c: Cluster, s: Settings, j: JobId, cohort: seq<NodeId>, ids: seq<LeaseId>, now: int)
    requires Cohorts(c) && CanPlace(c, j, cohort, ids)
    ensures Cohorts(Place(c, s, j, cohort, ids, now))
  {
    var c' := Place(c, s, j, cohort, ids, now);
    PlacedBounds(c, s, j, cohort, ids, now);
    forall k, r: nat | k in c'.jobs && 0 < c'.jobs[k].epoch && r < c'.jobs[k].world
      ensures HasSlot(c', k, c'.jobs[k].epoch, r)
    {
      PlacedSlot(c, s, j, cohort, ids, now, k, r);
    }
    forall l, m | l in c'.leases && m in c'.leases && l != m
      ensures Apart(c'.leases[l], c'.leases[m])
    {
      assert l in c.leases && m in c.leases ==> Apart(c.leases[l], c.leases[m]);
      PlacedApart(c, s, j, cohort, ids, now, l, m);
    }
  }

  lemma PlaceShape(c: Cluster, s: Settings, j: JobId, cohort: seq<NodeId>, ids: seq<LeaseId>, now: int)
    requires Shape(c)
    ensures Shape(Place(c, s, j, cohort, ids, now))
  {
    if CanPlace(c, j, cohort, ids) {
      var c' := Place(c, s, j, cohort, ids, now);
      PlacedCohorts(c, s, j, cohort, ids, now);
      assert JobShape(c, j);
      forall k | k in c'.jobs && k != j
        ensures JobShape(c', k)
      {
        assert JobShape(c, k);
        assert forall l, s :: Member(c, l, k, s) ==> Member(c', l, k, s);
      }
      forall l | l in c'.leases
        ensures LeaseShape(c', l)
      {
        if l in c.leases {
          assert LeaseShape(c, l);
        }
      }
    }
  }

  lemma ClaimShape(c: Cluster, s: Settings, n: NodeId, l: LeaseId, now: int)
    requires Shape(c)
    ensures ClaimSlot(c, s, n, l, now).Ok? && Shape(ClaimSlot(c, s, n, l, now).value)
  {
    var o := ClaimSlot(c, s, n, l, now);
    if l in Claimable(c, n, {}) && IsCurrent(c, l) {
      var j := c.leases[l].job;
      assert LeaseShape(c, l) && JobShape(c, j);
      var c' := o.value;
      ClaimOnly(c, s, n, l, now);
      assert Member(c', l, j, Active);
      if c.jobs[j].state == JobState.Completed {
        var w :| Member(c, w, j, LeaseState.Completed);
        assert Member(c', w, j, LeaseState.Completed);
      }
      forall m | m in c'.leases && c'.leases[m].job == j
        ensures LeaseShape(c', m)
      {
        assert LeaseShape(c, m);
      }
      LocalShape(c, c', j);
    }
  }

  /** Past the fence the job is always LEASED, RUNNING or COMPLETED. */
  lemma FencedState(c: Cluster, l: LeaseId, n: NodeId, epoch: int)
    requires Shape(c) && Fence(c, l, n, epoch) == None
    ensures c.jobs[c.leases[l].job].state in {Leased, Running, JobState.Completed}
    ensures Member(c, l, c.leases[l].job, Active)
  {
    assert LeaseShape(c, l);
  }

  lemma RenewShape(c: Cluster, s: Settings, l: LeaseId, n: NodeId, epoch: int, now: int)
    requires Shape(c) && Fence(c, l, n, epoch) == None
    ensures Renew(c, s, l, n, epoch, now).Ok? && Shape(Renew(c, s, l, n, epoch, now).value)
  {
    FencedState(c, l, n, epoch);
    var j := c.leases[l].job;
    var c' := Renew(c, s, l, n, epoch, now).value;
    assert JobShape(c, j);
    RenewOnly(c, s, l, n, epoch, now);
    assert Member(c', l, j, Active);
    if c.jobs[j].state == JobState.Completed {
      var w :| Member(c, w, j, LeaseState.Completed);
      assert Member(c', w, j, LeaseState.Completed);
    }
    forall m | m in c'.leases && c'.leases[m].job == j
      ensures LeaseShape(c', m)
    {
      assert LeaseShape(c, m);
    }
    LocalShape(c, c', j);
  }

  lemma CompleteShape(c: Cluster, l: LeaseId, n: NodeId, epoch: int, result: Option<TrainingResult>, now: int)
    requires Shape(c) && Fence(c, l, n, epoch) == None
    ensures Complete(c, l, n, epoch, result, now).Ok? && Shape(Complete(c, l, n, epoch, result, now).value)
  {
    hide Complete, Only, Fence;
    FencedState(c, l, n, epoch);
    var j := c.leases[l].job;
    Completes(c, l, n, epoch, result, now);
    CompleteOnly(c, l, n, epoch, result, now);
    var c' := Complete(c, l, n, epoch, result, now).value;
    OnlyRows(c, c', j);
    assert JobShape(c, j);
    forall m | m in c'.leases && c'.leases[m].job == j
      ensures LeaseShape(c', m)
    {
      assert LeaseShape(c, m);
    }
    assert JobShape(c', j);
    LocalShape(c, c', j);
  }

  lemma OnlyRows(c: Cluster, c': Cluster, j: JobId)
    requires WellFormed(c) && Only(c, c', j)
    ensures c'.jobs.Keys == c.jobs.Keys && c'.log.Keys == c.log.Keys && WellFormed(c')
  {
  }

  /** A completed lease's job is completed, and only that lease has changed. */
  lemma Completes(c: Cluster, l: LeaseId, n: NodeId, epoch: int, result: Option<TrainingResult>, now: int)
    requires WellFormed(c) && Fence(c, l, n, epoch) == None
    requires c.jobs[c.leases[l].job].state in {Leased, Running, JobState.Completed}
    ensures var o, j := Complete(c, l, n, epoch, result, now), c.leases[l].job;
      && o.Ok? && o.value.leases == c.leases[l := SettledLease(c.leases[l], LeaseState.Completed, now)]
      && j in o.value.jobs && o.value.jobs[j].state == JobState.Completed && o.value.jobs[j].epoch == c.jobs[j].epoch
      && Member(o.value, l, j, LeaseState.Completed)
  {
  }

  /** After a failed attempt is torn down no lease of it is left running. */
  lemma FailedAttemptEnds(c: Cluster, l: LeaseId, job: Job, backoff: int, now: int, m: LeaseId)
    requires WellFormed(c) && l in c.leases && m in c.leases && IsCurrent(c, l)
    requires c.leases[m].job == c.leases[l].job && LeaseShape(c, m)
    ensures !NonTerminal(FailedAttempt(c, l, job, backoff, now).leases[m].state)
  {
  }

  lemma FailLiveShape(c: Cluster, l: LeaseId, job: Job, backoff: int, to: JobState, now: int)
    requires Shape(c) && l in c.leases && IsCurrent(c, l) && c.jobs[c.leases[l].job].state == job.state
    requires job.state in {Leased, Running} && to in {Reassigned, JobState.Failed}
    requires job.world == c.jobs[c.leases[l].job].world && job.epoch == c.jobs[c.leases[l].job].epoch
    ensures var o := Transition(FailedAttempt(c, l, job, backoff, now), c.leases[l].job, to, now); o.Ok? && Shape(o.value)
  {
    var j := c.leases[l].job;
    var torn := FailedAttempt(c, l, job, backoff, now);
    FailedAttemptOnly(c, l, job, backoff, now);
    var c' := Transition(torn, j, to, now).value;
    TransitionOnly(torn, j, to, now);
    OnlyTwice(c, torn, c', j);
    forall m | m in c'.leases && c'.leases[m].job == j
      ensures LeaseShape(c', m)
    {
      assert LeaseShape(c, m);
      FailedAttemptEnds(c, l, job, backoff, now, m);
    }
    LocalShape(c, c', j);
  }

  lemma FailLateShape(c: Cluster, c': Cluster, l: LeaseId, now: int)
    requires Shape(c) && l in c.leases && IsCurrent(c, l) && c.leases[l].state == Active && WellFormed(c')
    requires Only(c, c', c.leases[l].job) && c'.leases == c.leases[l := SettledLease(c.leases[l], LeaseState.Failed, now)]
    requires c'.jobs[c.leases[l].job].state == c.jobs[c.leases[l].job].state == JobState.Completed
    ensures Shape(c')
  {
    var j := c.leases[l].job;
    assert JobShape(c, j);
    var w :| Member(c, w, j, LeaseState.Completed);
    assert Member(c', w, j, LeaseState.Completed);
    forall m | m in c'.leases && c'.leases[m].job == j
      ensures LeaseShape(c', m)
    {
      assert LeaseShape(c, m);
    }
    LocalShape(c, c', j);
  }

  lemma FailShape(c: Cluster, s: Settings, l: LeaseId, n: NodeId, epoch: int, reason: string,
                  result: Option<TrainingResult>, now: int)
    requires Shape(c) && Fence(c, l, n, epoch) == None
    ensures Fail(c, s, l, n, epoch, reason, result, now).Ok?
    ensures Shape(Fail(c, s, l, n, epoch, reason, result, now).value)
  {
    FencedState(c, l, n, epoch);
    var job := FailedJob(c.jobs[c.leases[l].job], reason, result);
    if job.state in {Leased, Running} {
      var retry := job.failedAttempts + 1 <= s.maxRetries;
      var backoff := if retry then s.failedAttemptBackoff else 0;
      FailLiveShape(c, l, job, backoff, if retry then Reassigned else JobState.Failed, now);
    } else {
      FailOnly(c, s, l, n, epoch, reason, result, now);
      FailLateShape(c, Fail(c, s, l, n, epoch, reason, result, now).value, l, now);
    }
  }

  lemma CancelShape(c: Cluster, j: JobId, now: int)
    requires Shape(c) && j in c.jobs && !IsTerminal(c.jobs[j].state)
    ensures Cancel(c, j, now).Ok? && Shape(Cancel(c, j, now).value)
  {
    TableIsConsistent(c.jobs[j].state);
    var c' := Cancel(c, j, now).value;
    CancelOnly(c, j, now);
    forall m | m in c'.leases && c'.leases[m].job == j
      ensures LeaseShape(c', m)
    {
      assert LeaseShape(c, m);
    }
    LocalShape(c, c', j);
  }

  lemma NotedShape(c: Cluster, j: JobId)
    requires Shape(c) && j in c.jobs
    ensures Shape(Noted(c, j))
  {
    var c' := Noted(c, j);
    assert JobShape(c, j);
    assert forall l, s :: Member(c, l, j, s) ==> Member(c', l, j, s);
    assert forall m | m in c.leases :: LeaseShape(c, m);
    LocalShape(c, c', j);
  }

  lemma TornLeaseShape(c: Cluster, failed: set<LeaseId>, unclaimed: set<LeaseId>, backoff: int, now: int, l: LeaseId)
    requires WellFormed(c) && l in c.leases && LeaseShape(c, l)
    requires l in failed + unclaimed ==> NonTerminal(c.leases[l].state)
    ensures LeaseShape(Teardown(c, failed, unclaimed, backoff, now), l)
  {
    if l in failed + unclaimed {
      assert IsCurrent(c, l);
      assert c.leases[l].job in Doomed(c, failed + unclaimed);
    }
  }

  lemma TornJobShape(c: Cluster, failed: set<LeaseId>, unclaimed: set<LeaseId>, backoff: int, now: int, j: JobId)
    requires WellFormed(c) && j in c.jobs && JobShape(c, j)
    requires forall l | l in failed + unclaimed :: l in c.leases && NonTerminal(c.leases[l].state)
    ensures JobShape(Teardown(c, failed, unclaimed, backoff, now), j)
  {
    var c' := Teardown(c, failed, unclaimed, backoff, now);
    if c.jobs[j].state == JobState.Completed {
      var w :| Member(c, w, j, LeaseState.Completed);
      assert Member(c', w, j, LeaseState.Completed);
    } else if c.jobs[j].state in {Leased, Running} && j !in Doomed(c, failed + unclaimed) {
      var w :| Member(c, w, j, Active);
      assert IsCurrent(c, w) && w !in failed + unclaimed;
      assert Member(c', w, j, Active);
    }
  }

  lemma TeardownShape(c: Cluster, failed: set<LeaseId>, unclaimed: set<LeaseId>, backoff: int, now: int)
    requires Shape(c)
    requires forall l | l in failed + unclaimed :: l in c.leases && NonTerminal(c.leases[l].state)
    ensures Shape(Teardown(c, failed, unclaimed, backoff, now))
  {
    var c' := Teardown(c, failed, unclaimed, backoff, now);
    TeardownRows(c, failed, unclaimed, backoff, now);
    SameRowsKeepCohorts(c, c');
    forall j | j in c'.jobs
      ensures JobShape(c', j)
    {
      assert JobShape(c, j);
      TornJobShape(c, failed, unclaimed, backoff, now, j);
    }
    forall l | l in c'.leases
      ensures LeaseShape(c', l)
    {
      assert LeaseShape(c, l);
      TornLeaseShape(c, failed, unclaimed, backoff, now, l);
    }
  }
}
