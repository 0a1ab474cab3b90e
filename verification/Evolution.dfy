/** What never goes back: the relation between the database and any later state of it. */
module Evolution {
  import opened Model
  import opened LeaseProtocol
  import opened CohortShape

  /** A lease row keeps its identity, never returns to PENDING, and never changes once terminal. */
  predicate LeaseEvolves(x: Lease, y: Lease) {
    && SameSlot(x, y)
    && (x.state == Active ==> y.state != Pending)
    && (!NonTerminal(x.state) ==> y == x)
  }

  predicate JobEvolves(x: Job, y: Job) {
    && y.world == x.world
    && x.epoch <= y.epoch
    && x.failedAttempts <= y.failedAttempts
    && (IsTerminal(x.state) ==> y.state == x.state && y.epoch == x.epoch && y.finishedAt == x.finishedAt)
    && (x.startedAt.Some? ==> y.startedAt == x.startedAt)
    && (HasMetrics(x.result) ==> HasMetrics(y.result))
  }

  predicate NodeEvolves(x: Node, y: Node) {
    x.successes <= y.successes && x.failures <= y.failures
  }

  /** A lease that appears later belongs to a later attempt. */
  predicate LeaseIsNew(c: Cluster, y: Lease) {
    y.job in c.jobs ==> c.jobs[y.job].epoch < y.epoch
  }

  ghost predicate Evolves(c: Cluster, d: Cluster) {
    && c.jobs.Keys <= d.jobs.Keys && c.leases.Keys <= d.leases.Keys
    && c.nodes.Keys <= d.nodes.Keys && c.log.Keys <= d.log.Keys
    && (forall l {:trigger d.leases[l]} {:trigger c.leases[l]} | l in c.leases :: LeaseEvolves(c.leases[l], d.leases[l]))
    && (forall j {:trigger d.jobs[j]} {:trigger c.jobs[j]} | j in c.jobs :: JobEvolves(c.jobs[j], d.jobs[j]))
    && (forall n {:trigger d.nodes[n]} {:trigger c.nodes[n]} | n in c.nodes :: NodeEvolves(c.nodes[n], d.nodes[n]))
    && (forall j {:trigger d.log[j]} {:trigger c.log[j]} | j in c.log :: c.log[j] <= d.log[j])
    && (forall l {:trigger d.leases[l]} | l in d.leases && l !in c.leases :: LeaseIsNew(c, d.leases[l]))
  }

  lemma EvolvesRefl(c: Cluster)
    ensures Evolves(c, c)
  {
  }

  lemma EvolvesTrans(c: Cluster, d: Cluster, e: Cluster)
    requires Evolves(c, d) && Evolves(d, e)
    ensures Evolves(c, e)
  {
    forall l | l in e.leases && l !in c.leases
      ensures LeaseIsNew(c, e.leases[l])
    {
      if l in d.leases {
        assert LeaseEvolves(d.leases[l], e.leases[l]) && LeaseIsNew(c, d.leases[l]);
      } else {
        assert LeaseIsNew(d, e.leases[l]);
        if e.leases[l].job in c.jobs {
          assert JobEvolves(c.jobs[e.leases[l].job], d.jobs[e.leases[l].job]);
        }
      }
    }
    forall l | l in c.leases
      ensures LeaseEvolves(c.leases[l], e.leases[l])
    {
      assert LeaseEvolves(c.leases[l], d.leases[l]) && LeaseEvolves(d.leases[l], e.leases[l]);
    }
    forall j | j in c.jobs
      ensures JobEvolves(c.jobs[j], e.jobs[j])
    {
      assert JobEvolves(c.jobs[j], d.jobs[j]) && JobEvolves(d.jobs[j], e.jobs[j]);
    }
    forall n | n in c.nodes
      ensures NodeEvolves(c.nodes[n], e.nodes[n])
    {
      assert NodeEvolves(c.nodes[n], d.nodes[n]) && NodeEvolves(d.nodes[n], e.nodes[n]);
    }
  }

  lemma PlaceEvolves(c: Cluster, s: Settings, j: JobId, cohort: seq<NodeId>, ids: seq<LeaseId>, now: int)
    ensures Evolves(c, Place(c, s, j, cohort, ids, now))
  {
  }

  lemma TransitionEvolves(c: Cluster, j: JobId, to: JobState, now: int)
    requires WellFormed(c) && j in c.jobs && Transition(c, j, to, now).Ok?
    ensures Evolves(c, Transition(c, j, to, now).value)
  {
  }

  lemma NotedEvolves(c: Cluster, j: JobId)
    requires WellFormed(c) && j in c.jobs
    ensures Evolves(c, Noted(c, j))
  {
  }

  /** Changing one live lease row in place. */
  lemma UpdateEvolves(c: Cluster, l: LeaseId, y: Lease)
    requires l in c.leases && NonTerminal(c.leases[l].state) && LeaseEvolves(c.leases[l], y)
    ensures Evolves(c, c.(leases := c.leases[l := y]))
  {
  }

  lemma ClaimEvolves(c: Cluster, s: Settings, n: NodeId, l: LeaseId, now: int)
    requires WellFormed(c) && ClaimSlot(c, s, n, l, now).Ok?
    ensures Evolves(c, ClaimSlot(c, s, n, l, now).value)
  {
    hide Evolves, Transition, Noted;
    EvolvesRefl(c);
    if l in Claimable(c, n, {}) && IsCurrent(c, l) {
      var y := c.leases[l].(state := Active, grantedAt := now, expiresAt := now + s.ttl);
      var granted, j := c.(leases := c.leases[l := y]), c.leases[l].job;
      UpdateEvolves(c, l, y);
      if c.jobs[j].state == Scheduled {
        TransitionEvolves(granted, j, Leased, now);
      } else {
        NotedEvolves(granted, j);
      }
      EvolvesTrans(c, granted, ClaimSlot(c, s, n, l, now).value);
    }
  }

  lemma RenewEvolves(c: Cluster, s: Settings, l: LeaseId, n: NodeId, epoch: int, now: int)
    requires WellFormed(c) && Renew(c, s, l, n, epoch, now).Ok?
    ensures Evolves(c, Renew(c, s, l, n, epoch, now).value)
  {
    hide Evolves, Transition, Noted;
    var y := c.leases[l].(renewedAt := Some(now), expiresAt := now + s.ttl);
    var extended, j := c.(leases := c.leases[l := y]), c.leases[l].job;
    UpdateEvolves(c, l, y);
    if c.jobs[j].state == Leased {
      TransitionEvolves(extended, j, Running, now);
      EvolvesTrans(c, extended, Renew(c, s, l, n, epoch, now).value);
    }
  }

  lemma FinishedEvolves(c: Cluster, l: LeaseId, result: Option<TrainingResult>, now: int)
    requires WellFormed(c) && l in c.leases && NonTerminal(c.leases[l].state)
    ensures Evolves(c, Finished(c, l, result, now))
  {
  }

  lemma CompleteEvolves(c: Cluster, l: LeaseId, n: NodeId, epoch: int, result: Option<TrainingResult>, now: int)
    requires WellFormed(c) && Complete(c, l, n, epoch, result, now).Ok?
    ensures Evolves(c, Complete(c, l, n, epoch, result, now).value)
  {
    var done, j := Finished(c, l, result, now), c.leases[l].job;
    FinishedEvolves(c, l, result, now);
    if c.jobs[j].state in {Leased, Running} {
      TransitionEvolves(done, j, JobState.Completed, now);
    } else {
      NotedEvolves(done, j);
    }
    EvolvesTrans(c, done, Complete(c, l, n, epoch, result, now).value);
  }

  lemma FailedAttemptEvolves(c: Cluster, l: LeaseId, reason: string, result: Option<TrainingResult>, backoff: int, now: int)
    requires WellFormed(c) && l in c.leases && NonTerminal(c.leases[l].state)
    ensures Evolves(c, FailedAttempt(c, l, FailedJob(c.jobs[c.leases[l].job], reason, result), backoff, now))
  {
  }

  lemma FailedAttemptRows(c: Cluster, l: LeaseId, job: Job, backoff: int, now: int)
    requires WellFormed(c) && l in c.leases
    ensures var d := FailedAttempt(c, l, job, backoff, now); WellFormed(d) && c.leases[l].job in d.jobs
  {
  }

  lemma FailEvolves(c: Cluster, s: Settings, l: LeaseId, n: NodeId, epoch: int, reason: string,
                    result: Option<TrainingResult>, now: int)
    requires WellFormed(c) && Fail(c, s, l, n, epoch, reason, result, now).Ok?
    ensures Evolves(c, Fail(c, s, l, n, epoch, reason, result, now).value)
  {
    var j := c.leases[l].job;
    var job := FailedJob(c.jobs[j], reason, result);
    if job.state in {Leased, Running} {
      hide Evolves, Transition, FailedAttempt;
      var retry := job.failedAttempts + 1 <= s.maxRetries;
      var backoff := if retry then s.failedAttemptBackoff else 0;
      var torn := FailedAttempt(c, l, job, backoff, now);
      FailedAttemptEvolves(c, l, reason, result, backoff, now);
      FailedAttemptRows(c, l, job, backoff, now);
      TransitionEvolves(torn, j, if retry then Reassigned else JobState.Failed, now);
      EvolvesTrans(c, torn, Fail(c, s, l, n, epoch, reason, result, now).value);
    }
  }

  lemma CancelEvolves(c: Cluster, j: JobId, now: int)
    requires WellFormed(c) && Cancel(c, j, now).Ok?
    ensures Evolves(c, Cancel(c, j, now).value)
  {
  }

  lemma TornLeaseEvolves(c: Cluster, failed: set<LeaseId>, unclaimed: set<LeaseId>, now: int, l: LeaseId)
    requires WellFormed(c) && l in c.leases
    requires l in failed + unclaimed ==> NonTerminal(c.leases[l].state)
    ensures LeaseEvolves(c.leases[l], TornLease(c, failed, unclaimed, now, l))
  {
  }

  lemma TornJobEvolves(c: Cluster, failed: set<LeaseId>, unclaimed: set<LeaseId>, backoff: int, now: int, j: JobId)
    requires WellFormed(c) && j in c.jobs
    ensures var d := Teardown(c, failed, unclaimed, backoff, now);
      JobEvolves(c.jobs[j], d.jobs[j]) && c.log[j] <= d.log[j]
  {
  }

  lemma TornNodeEvolves(c: Cluster, failed: set<LeaseId>, unclaimed: set<LeaseId>, backoff: int, now: int, n: NodeId)
    requires WellFormed(c) && n in c.nodes
    ensures NodeEvolves(c.nodes[n], TornNode(c, failed, unclaimed, backoff, now, n))
  {
  }

  lemma TeardownEvolves(c: Cluster, failed: set<LeaseId>, unclaimed: set<LeaseId>, backoff: int, now: int)
    requires WellFormed(c)
    requires forall l | l in failed + unclaimed :: l in c.leases && NonTerminal(c.leases[l].state)
    ensures Evolves(c, Teardown(c, failed, unclaimed, backoff, now))
  {
    var d := Teardown(c, failed, unclaimed, backoff, now);
    forall l | l in c.leases
      ensures LeaseEvolves(c.leases[l], d.leases[l])
    {
      TornLeaseEvolves(c, failed, unclaimed, now, l);
    }
    forall j | j in c.jobs
      ensures JobEvolves(c.jobs[j], d.jobs[j]) && c.log[j] <= d.log[j]
    {
      TornJobEvolves(c, failed, unclaimed, backoff, now, j);
    }
    forall n | n in c.nodes
      ensures NodeEvolves(c.nodes[n], d.nodes[n])
    {
      TornNodeEvolves(c, failed, unclaimed, backoff, now, n);
    }
  }
}
