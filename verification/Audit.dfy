/** The audit log replays to the job's state, and the job row's stamps and wiring agree with that state. */
module Audit {
  import opened Model
  import opened LeaseProtocol
  import opened CohortShape

  /** Each row continues the one before it, along an edge of the table or in place. */
  predicate Continues(before: Event, after: Event) {
    after.from == Some(before.to) && (after.to == before.to || CanTransition(before.to, after.to))
  }

  /** `log` starts at the creation into QUEUED and replays to `state`. */
  predicate Replays(log: seq<Event>, state: JobState) {
    && log != []
    && log[0] == Event(None, JobState.Queued)
    && (forall i | 0 < i < |log| :: Continues(log[i - 1], log[i]))
    && log[|log| - 1].to == state
  }

  /** What the job row says besides its state. */
  predicate RowAgrees(job: Job) {
    && (job.finishedAt.Some? <==> IsTerminal(job.state))
    && (job.state in {Leased, Running, JobState.Completed, JobState.Failed} ==> job.startedAt.Some?)
    && (job.state == JobState.Failed ==> job.failureReason.Some?)
    && (job.state in {JobState.Queued, Reassigned, JobState.Failed} ==>
          job.scheduledNode == None && job.rendezvousNode == None)
    && (job.state in {Scheduled, Leased, Running, JobState.Completed} ==>
          job.scheduledNode == job.rendezvousNode && job.rendezvousNode.Some?)
  }

  /** The rendezvous host of a placed attempt is the node of its rank 0. */
  predicate HostIsRankZero(c: Cluster, l: LeaseId)
    requires WellFormed(c) && l in c.leases
  {
    var job := c.jobs[c.leases[l].job];
    c.leases[l].rank == 0 && IsCurrent(c, l) && job.state in {Scheduled, Leased, Running, JobState.Completed} ==>
      job.rendezvousNode == Some(c.leases[l].node)
  }

  predicate JobAudited(c: Cluster, j: JobId)
    requires j in c.jobs && j in c.log
  {
    Replays(c.log[j], c.jobs[j].state) && RowAgrees(c.jobs[j])
  }

  ghost predicate Audited(c: Cluster) {
    && WellFormed(c)
    && (forall j {:trigger JobAudited(c, j)} | j in c.jobs :: JobAudited(c, j))
    && (forall l {:trigger HostIsRankZero(c, l)} | l in c.leases :: HostIsRankZero(c, l))
  }

  /** Job `j` either keeps its log and state, or gains one row from its old state to its new one. */
  predicate Advances(c: Cluster, c': Cluster, j: JobId)
    requires j in c.jobs && j in c'.jobs && j in c.log && j in c'.log
  {
    var from, to := c.jobs[j].state, c'.jobs[j].state;
    || (c'.log[j] == c.log[j] && from == to)
    || (c'.log[j] == c.log[j] + [Event(Some(from), to)] && (from == to || CanTransition(from, to)))
  }

  lemma AdvancedReplay(c: Cluster, c': Cluster, j: JobId)
    requires j in c.jobs && j in c'.jobs && j in c.log && j in c'.log && Advances(c, c', j)
    requires Replays(c.log[j], c.jobs[j].state)
    ensures Replays(c'.log[j], c'.jobs[j].state)
  {
  }

  /** It is enough to look at the one job a transaction touches. */
  lemma LocalAudit(c: Cluster, c': Cluster, j: JobId)
    requires Audited(c) && WellFormed(c') && j in c.jobs && Only(c, c', j)
    requires Advances(c, c', j) && RowAgrees(c'.jobs[j])
    requires c'.jobs[j].state in {Scheduled, Leased, Running, JobState.Completed} ==>
               c.jobs[j].state in {Scheduled, Leased, Running, JobState.Completed} &&
               c'.jobs[j].rendezvousNode == c.jobs[j].rendezvousNode
    ensures Audited(c')
  {
    forall k | k in c'.jobs
      ensures JobAudited(c', k)
    {
      assert JobAudited(c, k);
      if k == j {
        AdvancedReplay(c, c', j);
      }
    }
    forall l | l in c'.leases
      ensures HostIsRankZero(c', l)
    {
      HostStays(c, c', j, l);
    }
  }

  lemma HostStays(c: Cluster, c': Cluster, j: JobId, l: LeaseId)
    requires Audited(c) && WellFormed(c') && j in c.jobs && Only(c, c', j) && l in c'.leases
    requires c'.jobs[j].state in {Scheduled, Leased, Running, JobState.Completed} ==>
               c.jobs[j].state in {Scheduled, Leased, Running, JobState.Completed} &&
               c'.jobs[j].rendezvousNode == c.jobs[j].rendezvousNode
    ensures HostIsRankZero(c', l)
  {
    hide JobAudited;
    assert HostIsRankZero(c, l);
  }

  lemma InitAudit()
    ensures Audited(EMPTY)
  {
  }

  lemma CreateAudit(c: Cluster, j: JobId, world: nat)
    requires Audited(c)
    ensures Audited(Create(c, j, world))
  {
    var c' := Create(c, j, world);
    forall k | k in c'.jobs
      ensures JobAudited(c', k)
    {
      if k in c.jobs {
        assert JobAudited(c, k);
      }
    }
    forall l | l in c'.leases
      ensures HostIsRankZero(c', l)
    {
      assert HostIsRankZero(c, l);
    }
  }

  lemma NodesAudit(c: Cluster, nodes: map<NodeId, Node>)
    requires Audited(c) && c.nodes.Keys <= nodes.Keys
    ensures Audited(c.(nodes := nodes))
  {
    var c' := c.(nodes := nodes);
    forall k | k in c'.jobs
      ensures JobAudited(c', k)
    {
      assert JobAudited(c, k);
    }
    forall l | l in c'.leases
      ensures HostIsRankZero(c', l)
    {
      assert HostIsRankZero(c, l);
    }
  }

  lemma PlacedJobAudit(c: Cluster, s: Settings, j: JobId, cohort: seq<NodeId>, ids: seq<LeaseId>, now: int)
    requires WellFormed(c) && CanPlace(c, j, cohort, ids) && JobAudited(c, j)
    ensures JobAudited(Place(c, s, j, cohort, ids, now), j)
  {
    AdvancedReplay(c, Place(c, s, j, cohort, ids, now), j);
  }

  lemma PlacedHost(c: Cluster, s: Settings, j: JobId, cohort: seq<NodeId>, ids: seq<LeaseId>, now: int, l: LeaseId)
    requires WellFormed(c) && CanPlace(c, j, cohort, ids) && l in Place(c, s, j, cohort, ids, now).leases
    requires l in c.leases ==> HostIsRankZero(c, l) && c.leases[l].epoch <= c.jobs[c.leases[l].job].epoch
    ensures WellFormed(Place(c, s, j, cohort, ids, now)) && HostIsRankZero(Place(c, s, j, cohort, ids, now), l)
  {
  }

  lemma PlacedHosts(c: Cluster, s: Settings, j: JobId, cohort: seq<NodeId>, ids: seq<LeaseId>, now: int)
    requires Audited(c) && Cohorts(c) && CanPlace(c, j, cohort, ids)
    ensures WellFormed(Place(c, s, j, cohort, ids, now))
    ensures forall l | l in Place(c, s, j, cohort, ids, now).leases :: HostIsRankZero(Place(c, s, j, cohort, ids, now), l)
  {
    forall l | l in Place(c, s, j, cohort, ids, now).leases
      ensures WellFormed(Place(c, s, j, cohort, ids, now)) && HostIsRankZero(Place(c, s, j, cohort, ids, now), l)
    {
      assert l in c.leases ==> HostIsRankZero(c, l);
      PlacedHost(c, s, j, cohort, ids, now, l);
    }
  }

  lemma PlaceAudit(c: Cluster, s: Settings, j: JobId, cohort: seq<NodeId>, ids: seq<LeaseId>, now: int)
    requires Audited(c) && Cohorts(c)
    ensures Audited(Place(c, s, j, cohort, ids, now))
  {
    if CanPlace(c, j, cohort, ids) {
      var c' := Place(c, s, j, cohort, ids, now);
      PlacedHosts(c, s, j, cohort, ids, now);
      forall k | k in c'.jobs
        ensures JobAudited(c', k)
      {
        assert JobAudited(c, k);
        if k == j {
          PlacedJobAudit(c, s, j, cohort, ids, now);
        }
      }
    }
  }

  lemma NotedAudit(c: Cluster, j: JobId)
    requires Audited(c) && j in c.jobs
    ensures Audited(Noted(c, j))
  {
    NotedOnly(c, j);
    assert JobAudited(c, j);
    LocalAudit(c, Noted(c, j), j);
  }

  lemma ClaimAudit(c: Cluster, s: Settings, n: NodeId, l: LeaseId, now: int)
    requires Audited(c) && Shape(c) && ClaimSlot(c, s, n, l, now).Ok?
    ensures Audited(ClaimSlot(c, s, n, l, now).value)
  {
    if l in Claimable(c, n, {}) && IsCurrent(c, l) {
      ClaimOnly(c, s, n, l, now);
      assert JobAudited(c, c.leases[l].job);
      LocalAudit(c, ClaimSlot(c, s, n, l, now).value, c.leases[l].job);
    }
  }

  lemma RenewAudit(c: Cluster, s: Settings, l: LeaseId, n: NodeId, epoch: int, now: int)
    requires Audited(c) && Renew(c, s, l, n, epoch, now).Ok?
    ensures Audited(Renew(c, s, l, n, epoch, now).value)
  {
    RenewOnly(c, s, l, n, epoch, now);
    assert JobAudited(c, c.leases[l].job);
    LocalAudit(c, Renew(c, s, l, n, epoch, now).value, c.leases[l].job);
  }

  lemma CompleteAudit(c: Cluster, l: LeaseId, n: NodeId, epoch: int, result: Option<TrainingResult>, now: int)
    requires Audited(c) && Complete(c, l, n, epoch, result, now).Ok?
    ensures Audited(Complete(c, l, n, epoch, result, now).value)
  {
    CompleteOnly(c, l, n, epoch, result, now);
    assert JobAudited(c, c.leases[l].job);
    LocalAudit(c, Complete(c, l, n, epoch, result, now).value, c.leases[l].job);
  }

  lemma FailAdvances(c: Cluster, s: Settings, l: LeaseId, n: NodeId, epoch: int, reason: string,
                     result: Option<TrainingResult>, now: int)
    requires Audited(c) && Fail(c, s, l, n, epoch, reason, result, now).Ok?
    ensures var c', j := Fail(c, s, l, n, epoch, reason, result, now).value, c.leases[l].job;
      WellFormed(c') && j in c'.jobs && Advances(c, c', j) && RowAgrees(c'.jobs[j])
  {
    assert JobAudited(c, c.leases[l].job);
  }

  lemma FailAudit(c: Cluster, s: Settings, l: LeaseId, n: NodeId, epoch: int, reason: string,
                  result: Option<TrainingResult>, now: int)
    requires Audited(c) && Fail(c, s, l, n, epoch, reason, result, now).Ok?
    ensures Audited(Fail(c, s, l, n, epoch, reason, result, now).value)
  {
    FailOnly(c, s, l, n, epoch, reason, result, now);
    FailAdvances(c, s, l, n, epoch, reason, result, now);
    LocalAudit(c, Fail(c, s, l, n, epoch, reason, result, now).value, c.leases[l].job);
  }

  lemma CancelAudit(c: Cluster, j: JobId, now: int)
    requires Audited(c) && Cancel(c, j, now).Ok?
    ensures Audited(Cancel(c, j, now).value)
  {
    CancelOnly(c, j, now);
    assert JobAudited(c, j);
    LocalAudit(c, Cancel(c, j, now).value, j);
  }

  lemma TornJobAudit(c: Cluster, failed: set<LeaseId>, unclaimed: set<LeaseId>, backoff: int, now: int, j: JobId)
    requires WellFormed(c) && j in c.jobs && JobAudited(c, j)
    ensures JobAudited(Teardown(c, failed, unclaimed, backoff, now), j)
  {
    AdvancedReplay(c, Teardown(c, failed, unclaimed, backoff, now), j);
  }

  lemma TornHost(c: Cluster, failed: set<LeaseId>, unclaimed: set<LeaseId>, backoff: int, now: int, l: LeaseId)
    requires WellFormed(c) && l in c.leases && HostIsRankZero(c, l)
    ensures HostIsRankZero(Teardown(c, failed, unclaimed, backoff, now), l)
  {
  }

  lemma TeardownAudit(c: Cluster, failed: set<LeaseId>, unclaimed: set<LeaseId>, backoff: int, now: int)
    requires Audited(c)
    ensures Audited(Teardown(c, failed, unclaimed, backoff, now))
  {
    var c' := Teardown(c, failed, unclaimed, backoff, now);
    forall j | j in c'.jobs
      ensures JobAudited(c', j)
    {
      assert JobAudited(c, j);
      TornJobAudit(c, failed, unclaimed, backoff, now, j);
    }
    forall l | l in c'.leases
      ensures HostIsRankZero(c', l)
    {
      assert HostIsRankZero(c, l);
      TornHost(c, failed, unclaimed, backoff, now, l);
    }
  }
}
