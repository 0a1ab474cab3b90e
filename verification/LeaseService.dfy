/** The lease service as the code runs it: one object holding the tables, whose methods are the
    transactions. Each walks its rows in loops, in whatever order the database hands them over, and is
    proved to leave exactly what the functions of LeaseProtocol say. */
module LeaseService {
  import opened Model
  import opened LeaseProtocol
  import opened CohortShape
  import opened Batching

  /** A transaction either commits the outcome or reports its error with everything rolled back. */
  predicate Commits(before: Cluster, o: Outcome<Cluster>, after: Cluster, error: Option<Error>) {
    if o.Ok? then after == o.value && error == None else after == before && error == Some(o.error)
  }

  /** The part of a sweep that concerns the jobs in `done`. */
  function OfJobs(c: Cluster, ls: set<LeaseId>, done: set<JobId>): set<LeaseId> {
    set l | l in ls && l in c.leases && c.leases[l].job in done
  }

  /** A slot waiting for node `n` that no other transaction holds. */
  predicate IsOffer(leases: map<LeaseId, Lease>, n: NodeId, locked: set<LeaseId>, l: LeaseId) {
    l in leases && leases[l].node == n && leases[l].state == Pending && l !in locked
  }

  /** Every lease of `lost` belongs to the current attempt of `j`. */
  predicate AllOfAttempt(c: Cluster, j: JobId, lost: set<LeaseId>)
    requires WellFormed(c)
  {
    forall l | l in lost :: l in c.leases && c.leases[l].job == j && IsCurrent(c, l)
  }

  class Service {
    var jobs: map<JobId, Job>
    var leases: map<LeaseId, Lease>
    var nodes: map<NodeId, Node>
    var log: map<JobId, seq<Event>>
    const settings: Settings

    ghost function View(): Cluster
      reads this
    {
      Cluster(jobs, leases, nodes, log)
    }

    constructor (s: Settings)
      ensures View() == EMPTY && settings == s
    {
      jobs, leases, nodes, log := map[], map[], map[], map[];
      settings := s;
    }

    // --- Audited transitions ---------------------------------------------------------------------------

    method RecordJobEvent(j: JobId, from: Option<JobState>, to: JobState)
      requires j in log
      modifies this`log
      ensures log == old(log)[j := old(log)[j] + [Event(from, to)]]
    {
      log := log[j := log[j] + [Event(from, to)]];
    }

    method TransitionJob(j: JobId, to: JobState, now: int) returns (error: Option<Error>)
      requires WellFormed(View()) && j in jobs
      modifies this
      ensures Commits(old(View()), Transition(old(View()), j, to, now), View(), error)
    {
      var from := jobs[j].state;
      if !CanTransition(from, to) {
        return Some(IllegalTransition(from, to));
      }
      if (to == Leased || to == Running) && jobs[j].startedAt == None {
        jobs := jobs[j := jobs[j].(startedAt := Some(now))];
      }
      if IsTerminal(to) {
        jobs := jobs[j := jobs[j].(finishedAt := Some(now))];
      }
      jobs := jobs[j := jobs[j].(state := to)];
      RecordJobEvent(j, Some(from), to);
      error := None;
      assert jobs == old(jobs)[j := Moved(old(jobs)[j], to, now)];
    }

    // --- Creation and placement ---------------------------------------------------------------------------

    method CreateJob(j: JobId, world: nat)
      requires WellFormed(View()) && j !in jobs && 0 < world
      modifies this
      ensures View() == Create(old(View()), j, world)
    {
      jobs := jobs[j := NewJob(world)];
      log := log[j := []];
      RecordJobEvent(j, None, JobState.Queued);
      assert log[j] == [Event(None, JobState.Queued)];
    }

    method InsertSlots(j: JobId, epoch: nat, cohort: seq<NodeId>, ids: seq<LeaseId>, now: int)
      requires |cohort| == |ids| && Distinct(ids)
      modifies this`leases
      ensures leases == old(leases) + Slots(j, epoch, cohort, ids, settings, now)
    {
      ghost var slots := Slots(j, epoch, cohort, ids, settings, now);
      var rank := 0;
      assert SlotsUpTo(slots, ids, 0) == map[];
      while rank < |ids|
        invariant rank <= |ids|
        invariant leases == old(leases) + SlotsUpTo(slots, ids, rank)
      {
        assert ids[rank] in ids && IndexOf(ids, ids[rank]) == rank;
        OneMoreSlot(slots, ids, rank);
        UpdateUnion(old(leases), SlotsUpTo(slots, ids, rank), ids[rank], slots[ids[rank]]);
        leases := leases[ids[rank] := NewSlot(j, cohort[rank], epoch, rank, settings, now)];
        rank := rank + 1;
      }
      assert SlotsUpTo(slots, ids, rank) == slots;
    }

    /** The persisting half of a placement, once the cohort is chosen: mint the epoch once, add one
        PENDING slot a rank, move the job to SCHEDULED. */
    method PlaceJobCohort(j: JobId, cohort: seq<NodeId>, ids: seq<LeaseId>, now: int)
      requires WellFormed(View()) && CanPlace(View(), j, cohort, ids)
      modifies this
      ensures View() == Place(old(View()), settings, j, cohort, ids, now)
    {
      var epoch := jobs[j].epoch + 1;
      jobs := jobs[j := jobs[j].(epoch := epoch)];
      InsertSlots(j, epoch, cohort, ids, now);
      jobs := jobs[j := jobs[j].(rendezvousNode := Some(cohort[0]), scheduledNode := Some(cohort[0]))];
      var error := TransitionJob(j, Scheduled, now);
    }

    // --- Claim -----------------------------------------------------------------------------------------------

    /** The slot a claim selects: of the node's PENDING rows nobody else has locked, one of the lowest epoch. */
    method FirstClaimable(n: NodeId, locked: set<LeaseId>) returns (found: Option<LeaseId>)
      ensures var c := View();
        if Claimable(c, n, locked) == {} then found == None
        else found.Some? && found.value in Claimable(c, n, locked)
             && forall m | m in Claimable(c, n, locked) :: c.leases[found.value].epoch <= c.leases[m].epoch
    {
      found := None;
      var unseen := leases.Keys;
      while unseen != {}
        invariant unseen <= leases.Keys
        invariant found == None ==> Claimable(View(), n, locked) <= unseen
        invariant found.Some? ==> found.value in Claimable(View(), n, locked)
        invariant found.Some? ==> forall m | m in Claimable(View(), n, locked) && m !in unseen ::
                                      leases[found.value].epoch <= leases[m].epoch
        decreases unseen
      {
        var l :| l in unseen;
        unseen := unseen - {l};
        if leases[l].node == n && leases[l].state == Pending && l !in locked &&
           (found == None || leases[l].epoch < leases[found.value].epoch) {
          found := Some(l);
        }
      }
    }

    /** Grants the PENDING slot of node `n` with the lowest epoch, among those no other transaction holds;
        empty-handed when there is none, or when the slot is of a superseded attempt. */
    method ClaimJobForNode(n: NodeId, locked: set<LeaseId>, now: int) returns (granted: Option<LeaseId>)
      requires WellFormed(View())
      modifies this
      ensures var c := old(View());
        if Claimable(c, n, locked) == {} then granted == None && View() == c
        else exists l :: && l in Claimable(c, n, locked)
                         && (forall m | m in Claimable(c, n, locked) :: c.leases[l].epoch <= c.leases[m].epoch)
                         && ClaimSlot(c, settings, n, l, now) == Ok(View())
                         && granted == if IsCurrent(c, l) then Some(l) else None
      ensures granted.Some? ==>
                && IsOffer(old(leases), n, locked, granted.value)
                && forall m | IsOffer(old(leases), n, locked, m) :: old(leases)[granted.value].epoch <= old(leases)[m].epoch
    {
      var found := FirstClaimable(n, locked);
      if found == None {
        return None;
      }
      granted := GrantSlot(n, found.value, now);
    }

    /** A slot activated, unless it is of a superseded attempt; the first of a cohort moves the job to LEASED. */
    method GrantSlot(n: NodeId, l: LeaseId, now: int) returns (granted: Option<LeaseId>)
      requires WellFormed(View()) && l in Claimable(View(), n, {})
      modifies this
      ensures ClaimSlot(old(View()), settings, n, l, now) == Ok(View())
      ensures granted == if IsCurrent(old(View()), l) then Some(l) else None
    {
      var j := leases[l].job;
      if leases[l].epoch != jobs[j].epoch {
        return None;
      }
      leases := leases[l := leases[l].(state := Active, grantedAt := now, expiresAt := now + settings.ttl)];
      if jobs[j].state == Scheduled {
        var error := TransitionJob(j, Leased, now);
      } else {
        RecordJobEvent(j, Some(jobs[j].state), jobs[j].state);
      }
      return Some(l);
    }

    // --- The fence and the calls behind it -----------------------------------------------------------------------

    method LoadFenced(l: LeaseId, n: NodeId, epoch: int) returns (error: Option<Error>)
      requires WellFormed(View())
      ensures error == Fence(View(), l, n, epoch)
    {
      if l !in leases {
        return Some(LeaseNotFound);
      }
      if leases[l].node != n {
        return Some(NotOwner);
      }
      var current := jobs[leases[l].job].epoch;
      if epoch != current || leases[l].epoch != current {
        return Some(StaleEpoch);
      }
      if leases[l].state != Active {
        return Some(NotActive);
      }
      return None;
    }

    method ReleaseRows(rows: set<LeaseId>, now: int)
      requires rows <= leases.Keys
      modifies this`leases
      ensures leases == ReleasedRows(old(leases), rows, now)
    {
      var done: set<LeaseId> := {};
      assert leases == ReleasedRows(leases, {}, now);
      while done != rows
        invariant done <= rows && leases == ReleasedRows(old(leases), done, now)
        decreases rows - done
      {
        var l :| l in rows && l !in done;
        ReleaseOne(old(leases), done, l, now);
        leases := leases[l := leases[l].(state := Released, releasedAt := Some(now))];
        done := done + {l};
      }
    }

    method ReleaseCohortSiblings(j: JobId, epoch: nat, exclude: set<LeaseId>, now: int) returns (count: nat)
      modifies this`leases
      ensures leases == ReleaseSiblings(old(leases), j, epoch, exclude, now)
      ensures count == |SiblingsOf(old(leases), j, epoch, exclude)|
    {
      var siblings := SiblingsOf(leases, j, epoch, exclude);
      ReleaseRows(siblings, now);
      count := |siblings|;
      assert leases == ReleaseSiblings(old(leases), j, epoch, exclude, now);
    }

    method RenewLease(l: LeaseId, n: NodeId, epoch: int, now: int) returns (error: Option<Error>)
      requires WellFormed(View())
      modifies this
      ensures Commits(old(View()), Renew(old(View()), settings, l, n, epoch, now), View(), error)
      ensures error == None ==>
                && l in old(leases)
                && leases == old(leases)[l := old(leases)[l].(renewedAt := Some(now), expiresAt := now + settings.ttl)]
    {
      error := LoadFenced(l, n, epoch);
      if error.Some? {
        return;
      }
      var j := leases[l].job;
      if jobs[j].state == Leased {
        error := TransitionJob(j, Running, now);
      }
      leases := leases[l := leases[l].(renewedAt := Some(now), expiresAt := now + settings.ttl)];
    }

    method CompleteLease(l: LeaseId, n: NodeId, epoch: int, result: Option<TrainingResult>, now: int)
      returns (error: Option<Error>)
      requires WellFormed(View())
      modifies this
      ensures Commits(old(View()), Complete(old(View()), l, n, epoch, result, now), View(), error)
    {
      error := LoadFenced(l, n, epoch);
      if error.Some? {
        return;
      }
      var j := leases[l].job;
      leases := leases[l := leases[l].(state := LeaseState.Completed, releasedAt := Some(now))];
      if result.Some? && (jobs[j].result == None || HasMetrics(result)) {
        jobs := jobs[j := jobs[j].(result := result)];
      }
      nodes := nodes[n := nodes[n].(successes := nodes[n].successes + 1)];
      assert View() == Finished(old(View()), l, result, now) by {
        assert jobs == old(jobs)[j := old(jobs)[j].(result := KeptResult(old(jobs)[j].result, result))];
      }
      if jobs[j].state == Leased || jobs[j].state == Running {
        error := TransitionJob(j, JobState.Completed, now);
      } else {
        RecordJobEvent(j, Some(jobs[j].state), jobs[j].state);
      }
    }

    method SettleFailed(l: LeaseId, reason: string, result: Option<TrainingResult>, now: int)
      requires WellFormed(View()) && l in leases
      modifies this`leases, this`jobs, this`nodes
      ensures var x, c := old(leases)[l], old(View());
        && leases == c.leases[l := SettledLease(x, LeaseState.Failed, now)]
        && jobs == c.jobs[x.job := FailedJob(c.jobs[x.job], reason, result)]
        && nodes == c.nodes[x.node := ChargedNode(c.nodes[x.node], 0, now)]
    {
      var j, n := leases[l].job, leases[l].node;
      leases := leases[l := leases[l].(state := LeaseState.Failed, releasedAt := Some(now))];
      jobs := jobs[j := jobs[j].(failureReason := Some(reason))];
      if result.Some? && jobs[j].result == None {
        jobs := jobs[j := jobs[j].(result := result)];
      }
      assert jobs == old(jobs)[j := FailedJob(old(jobs)[j], reason, result)];
      nodes := nodes[n := nodes[n].(failures := nodes[n].failures + 1)];
    }

    /** Ends the attempt of a lease that has just been settled as failed. */
    method EndFailedAttempt(l: LeaseId, ghost c: Cluster, ghost job: Job, now: int) returns (error: Option<Error>)
      requires WellFormed(c) && WellFormed(View()) && l in c.leases && log == c.log && job.state in {Leased, Running}
      requires leases == c.leases[l := SettledLease(c.leases[l], LeaseState.Failed, now)]
      requires jobs == c.jobs[c.leases[l].job := job]
      requires nodes == c.nodes[c.leases[l].node := ChargedNode(c.nodes[c.leases[l].node], 0, now)]
      modifies this
      ensures var retry := job.failedAttempts + 1 <= settings.maxRetries;
        var torn := FailedAttempt(c, l, job, if retry then settings.failedAttemptBackoff else 0, now);
        error == None && Transition(torn, c.leases[l].job, if retry then Reassigned else JobState.Failed, now) == Ok(View())
    {
      hide FailedAttempt, Transition, ReleaseSiblings, WellFormed;
      var j, n := leases[l].job, leases[l].node;
      ghost var backoff := if job.failedAttempts + 1 <= settings.maxRetries then settings.failedAttemptBackoff else 0;
      AttemptTables(c, l, job, backoff, now);
      var mayRetry := CountFailure(j, n, now);
      var count := ReleaseCohortSiblings(j, leases[l].epoch, {l}, now);
      ghost var torn := FailedAttempt(c, l, job, if mayRetry then settings.failedAttemptBackoff else 0, now);
      error := MoveAndUnplace(j, if mayRetry then Reassigned else JobState.Failed, now, torn);
    }

    /** One more failed attempt of `j`; while it may be retried, the failing node is backed off. */
    method CountFailure(j: JobId, n: NodeId, now: int) returns (mayRetry: bool)
      requires j in jobs && n in nodes
      modifies this`jobs, this`nodes
      ensures jobs == old(jobs)[j := old(jobs)[j].(failedAttempts := old(jobs)[j].failedAttempts + 1)]
      ensures mayRetry == (old(jobs)[j].failedAttempts + 1 <= settings.maxRetries)
      ensures nodes == if mayRetry && settings.failedAttemptBackoff > 0
                       then old(nodes)[n := old(nodes)[n].(backoffUntil := Some(now + settings.failedAttemptBackoff))]
                       else old(nodes)
    {
      jobs := jobs[j := jobs[j].(failedAttempts := jobs[j].failedAttempts + 1)];
      mayRetry := jobs[j].failedAttempts <= settings.maxRetries;
      if mayRetry && settings.failedAttemptBackoff > 0 {
        nodes := nodes[n := nodes[n].(backoffUntil := Some(now + settings.failedAttemptBackoff))];
      }
    }

    /** A transition out of an attempt; the job is on no node any more. */
    method MoveAndUnplace(j: JobId, to: JobState, now: int, ghost torn: Cluster) returns (error: Option<Error>)
      requires WellFormed(View()) && WellFormed(torn) && j in jobs && CanTransition(jobs[j].state, to)
      requires torn == View().(jobs := jobs[j := jobs[j].(scheduledNode := None, rendezvousNode := None)])
      modifies this
      ensures error == None && Transition(torn, j, to, now) == Ok(View())
    {
      ClearWiringLate(View(), torn, j, to, now);
      error := TransitionJob(j, to, now);
      jobs := jobs[j := jobs[j].(scheduledNode := None, rendezvousNode := None)];
    }

    method FailLease(l: LeaseId, n: NodeId, epoch: int, reason: string, result: Option<TrainingResult>, now: int)
      returns (error: Option<Error>)
      requires WellFormed(View())
      modifies this
      ensures Commits(old(View()), Fail(old(View()), settings, l, n, epoch, reason, result, now), View(), error)
    {
      error := LoadFenced(l, n, epoch);
      if error.Some? {
        return;
      }
      var j := leases[l].job;
      SettleFailed(l, reason, result, now);
      if jobs[j].state == Leased || jobs[j].state == Running {
        error := EndFailedAttempt(l, old(View()), jobs[j], now);
      } else {
        RecordJobEvent(j, Some(jobs[j].state), jobs[j].state);
      }
    }

    // --- Teardown --------------------------------------------------------------------------------------------------

    method ExpireOne(l: LeaseId, ghost done: set<LeaseId>, ghost c: Cluster)
      requires WellFormed(c) && l !in done && l in c.leases && IsCurrent(c, l)
      requires leases == Marked(c.leases, done, Expired) && nodes == Charged(c, done)
      modifies this`leases, this`nodes
      ensures leases == Marked(c.leases, done + {l}, Expired) && nodes == Charged(c, done + {l})
    {
      MarkOne(c.leases, done, Expired, l);
      ChargeOne(c, done, l);
      var n := leases[l].node;
      leases := leases[l := leases[l].(state := Expired)];
      nodes := nodes[n := nodes[n].(failures := nodes[n].failures + 1)];
    }

    method ExpireAndCharge(j: JobId, failed: set<LeaseId>, ghost c: Cluster)
      requires c == View() && WellFormed(c) && AllOfAttempt(c, j, failed)
      modifies this`leases, this`nodes
      ensures leases == Marked(c.leases, failed, Expired) && nodes == Charged(c, failed)
    {
      var done: set<LeaseId> := {};
      NothingCharged(c);
      while done != failed
        invariant done <= failed
        invariant leases == Marked(c.leases, done, Expired) && nodes == Charged(c, done)
        decreases failed - done
      {
        var l :| l in failed && l !in done;
        ExpireOne(l, done, c);
        done := done + {l};
      }
    }

    method Lapse(unclaimed: set<LeaseId>)
      requires unclaimed <= leases.Keys
      modifies this`leases
      ensures leases == Marked(old(leases), unclaimed, Unclaimed)
    {
      var done: set<LeaseId> := {};
      assert leases == Marked(leases, {}, Unclaimed);
      while done != unclaimed
        invariant done <= unclaimed
        invariant leases == Marked(old(leases), done, Unclaimed)
        decreases unclaimed - done
      {
        var l :| l in unclaimed && l !in done;
        MarkOne(old(leases), done, Unclaimed, l);
        leases := leases[l := leases[l].(state := Unclaimed)];
        done := done + {l};
      }
    }

    method BackOff(idle: set<NodeId>, until: int)
      modifies this`nodes
      ensures nodes == MaybeBackedOff(old(nodes), idle, true, until)
    {
      nodes := map n | n in nodes :: if n in idle then nodes[n].(backoffUntil := Some(until)) else nodes[n];
    }

    method LapseAndBackOff(unclaimed: set<LeaseId>, backoff: int, now: int)
      requires unclaimed <= leases.Keys
      modifies this`leases, this`nodes
      ensures leases == Marked(old(leases), unclaimed, Unclaimed)
      ensures nodes ==
              MaybeBackedOff(old(nodes), NodesOf(old(leases), unclaimed), unclaimed != {} && backoff > 0, now + backoff)
    {
      var idle := set l | l in unclaimed && l in leases :: leases[l].node;
      Lapse(unclaimed);
      if unclaimed != {} && backoff > 0 {
        BackOff(idle, now + backoff);
      }
    }

    /** Settles the rows of one doomed attempt: the lost leases, their nodes, the siblings. */
    method SettleAttempt(j: JobId, failed: set<LeaseId>, unclaimed: set<LeaseId>, backoff: int, now: int, ghost c: Cluster)
      requires c == View() && WellFormed(c) && j in c.jobs && failed !! unclaimed
      requires AllOfAttempt(c, j, failed + unclaimed) && Doomed(c, failed + unclaimed) == {j}
      modifies this`leases, this`nodes
      ensures leases == Teardown(c, failed, unclaimed, backoff, now).leases
      ensures nodes == Teardown(c, failed, unclaimed, backoff, now).nodes
    {
      ExpireAndCharge(j, failed, c);
      MarkedNodes(c.leases, failed, Expired, unclaimed);
      LapseAndBackOff(unclaimed, backoff, now);
      var count := ReleaseCohortSiblings(j, jobs[j].epoch, failed + unclaimed, now);
      TornLeases(c, j, failed, unclaimed, backoff, now);
      TornNodes(c, failed, unclaimed, backoff, now);
    }

    /** The one reassignment path, shared by the sweep and the detector: `failed` and `unclaimed` are
        current-epoch leases of `j`. */
    method ReassignJobAttempt(j: JobId, failed: set<LeaseId>, unclaimed: set<LeaseId>, backoff: int, now: int)
      returns (moved: bool)
      requires WellFormed(View()) && j in jobs && failed !! unclaimed && failed + unclaimed != {}
      requires AllOfAttempt(View(), j, failed + unclaimed)
      modifies this
      ensures View() == Teardown(old(View()), failed, unclaimed, backoff, now)
      ensures moved == (old(jobs)[j].state in REASSIGNABLE)
    {
      ghost var c := View();
      OnlyDoomed(c, j, failed + unclaimed);
      TornJobs(c, j, failed, unclaimed, backoff, now);
      TeardownWellFormed(c, failed, unclaimed, backoff, now);
      SettleAttempt(j, failed, unclaimed, backoff, now, c);
      if jobs[j].state !in REASSIGNABLE {
        return false;
      }
      var error := TransitionJob(j, Reassigned, now);
      jobs := jobs[j := jobs[j].(scheduledNode := None, rendezvousNode := None)];
      return true;
    }

    /** The rows of superseded attempts a sweep picked up: settled without charge or reassignment. */
    method ClearStale(stale: set<LeaseId>) returns (count: nat)
      requires stale <= leases.Keys
      modifies this`leases
      ensures leases == Swept(old(leases), stale) && count == |stale|
    {
      var done: set<LeaseId> := {};
      count := 0;
      assert leases == Swept(leases, {});
      while done != stale
        invariant done <= stale && leases == Swept(old(leases), done) && count == |done|
        decreases stale - done
      {
        var l :| l in stale && l !in done;
        SweepOne(old(leases), done, l);
        leases := leases[l := leases[l].(state := if leases[l].state == Pending then Unclaimed else Expired)];
        done := done + {l};
        count := count + 1;
      }
    }

    /** One job's share of a sweep: `mine` are its overdue leases. */
    method SweepJob(j: JobId, mine: set<LeaseId>, now: int) returns (count: nat)
      requires WellFormed(View()) && j in jobs && mine != {} && LiveRows(View(), mine)
      requires forall l | l in mine :: leases[l].job == j
      modifies this
      ensures View() == SweepRows(old(View()), mine, settings.unclaimedBackoff, now)
      ensures count == |mine|
    {
      hide Swept, SweepRows, Teardown;
      var current := AtEpoch(leases, mine, jobs[j].epoch);
      var stale := mine - current;
      SplitSweep(View(), j, mine, current, settings.unclaimedBackoff, now);
      count := ClearStale(stale);
      assert |mine| == |stale| + |current|;
      if current == {} {
        return;
      }
      count := count + |current|;
      SweepAttempt(j, current, now);
    }

    /** The overdue leases of a current attempt: the ACTIVE ones timed out, the PENDING ones lapsed. */
    method SweepAttempt(j: JobId, current: set<LeaseId>, now: int)
      requires WellFormed(View()) && j in jobs && current != {} && LiveRows(View(), current)
      requires AllOfAttempt(View(), j, current)
      modifies this
      ensures View() == SweepRows(old(View()), current, settings.unclaimedBackoff, now)
    {
      hide Teardown;
      var timedOut := set l | l in current && l in leases && leases[l].state == Active;
      var unclaimed := set l | l in current && l in leases && leases[l].state == Pending;
      assert timedOut == InState(View(), current, Active) && unclaimed == InState(View(), current, Pending);
      LiveSplit(View(), current);
      var moved := ReassignJobAttempt(j, timedOut, unclaimed, settings.unclaimedBackoff, now);
    }

    /** The rows past their deadline that no other transaction holds. */
    method SelectOverdue(locked: set<LeaseId>, now: int) returns (overdue: set<LeaseId>)
      ensures overdue == Overdue(View(), locked, now)
    {
      overdue := set l | l in leases && leases[l].state in {Active, Pending} && leases[l].expiresAt < now && l !in locked;
    }

    /** The TTL sweep: every job with an overdue row is processed once, in whatever order the grouping
        hands them over, and the number of rows settled is returned. */
    method SweepExpiredLeases(locked: set<LeaseId>, now: int) returns (swept: nat)
      requires WellFormed(View())
      modifies this
      ensures View() == Sweep(old(View()), settings, locked, now)
      ensures swept == |set l | l in old(leases) && old(leases)[l].state in {Active, Pending}
                              && old(leases)[l].expiresAt < now && l !in locked|
    {
      hide SweepRows, WellFormed, Overdue;
      ghost var c := View();
      OverdueIs(c, locked, now);
      var overdue := SelectOverdue(locked, now);
      var byJob := Grouped(leases, overdue);
      var todo := byJob.Keys;
      ghost var done: set<JobId> := {};
      swept := 0;
      NothingSwept(c, overdue, settings.unclaimedBackoff, now);
      while todo != {}
        invariant todo !! done && todo + done == JobsOf(c.leases, overdue)
        invariant View() == SweepRows(c, OfJobs(c, overdue, done), settings.unclaimedBackoff, now)
        invariant swept == |OfJobs(c, overdue, done)|
        decreases todo
      {
        var j :| j in todo;
        NotYetSwept(c, overdue, done, j, settings.unclaimedBackoff, now);
        var count := SweepJob(j, byJob[j], now);
        swept := swept + count;
        todo := todo - {j};
        done := done + {j};
      }
      assert OfJobs(c, overdue, done) == overdue;
    }

    // --- The failure detector ---------------------------------------------------------------------------------------

    /** Reassigns every job the dead node `n` holds a current lease on; returns those that moved. */
    method ReassignNodeJobs(n: NodeId, now: int) returns (moved: set<JobId>)
      requires WellFormed(View())
      modifies this
      ensures View() == Teardown(old(View()), HeldBy(old(View()), n), {}, 0, now)
      ensures moved == MovedJobs(old(View()), HeldBy(old(View()), n), old(jobs).Keys)
    {
      hide Teardown, MovedJobs, AtEpoch;
      ghost var c := View();
      ghost var held := HeldBy(c, n);
      var live := set l | l in leases && leases[l].node == n && NonTerminal(leases[l].state);
      var byJob := Grouped(leases, live);
      var todo := byJob.Keys;
      ghost var done: set<JobId> := {};
      moved := {};
      NothingHeld(c, held, now);
      HeldIsCurrent(c, n, live);
      NoneMoved(c, held);
      while todo != {}
        invariant todo !! done && todo + done == JobsOf(c.leases, live)
        invariant View() == Teardown(c, OfJobs(c, held, done), {}, 0, now)
        invariant moved == MovedJobs(c, held, done)
        decreases todo
      {
        var j :| j in todo;
        OneMoreMoved(c, held, done, j);
        var did := ReassignHeld(j, byJob[j], now, c, live, done);
        if did {
          moved := moved + {j};
        }
        todo := todo - {j};
        done := done + {j};
      }
      AllMoved(c, held, done);
    }

    /** The leases a dead node holds of job `j`, if any is current, fail its attempt. */
    method ReassignHeld(j: JobId, ours: set<LeaseId>, now: int, ghost c: Cluster, ghost live: set<LeaseId>,
                        ghost done: set<JobId>) returns (did: bool)
      requires WellFormed(c) && j in JobsOf(c.leases, live) && j !in done
      requires View() == Teardown(c, OfJobs(c, CurrentOf(c, live), done), {}, 0, now)
      requires ours == Grouped(c.leases, live)[j]
      modifies this
      ensures View() == Teardown(c, OfJobs(c, CurrentOf(c, live), done + {j}), {}, 0, now)
      ensures did == (OfJobs(c, CurrentOf(c, live), {j}) != {} && c.jobs[j].state in REASSIGNABLE)
    {
      hide Teardown, OfJobs, CurrentOf, JobsOf, Grouped, AtEpoch, AllOfAttempt, WellFormed;
      NotYetTorn(c, live, done, j, now);
      var current := AtEpoch(leases, ours, jobs[j].epoch);
      if current == {} {
        return false;
      }
      ghost var none: set<LeaseId> := {};
      assert current + none == current;
      did := ReassignJobAttempt(j, current, {}, 0, now);
    }

    /** One detector pass over the ONLINE nodes no other transaction holds, in whatever order they come;
        `suspected` are those the accrual detector declares failed. */
    method RunFailureDetectionPass(suspected: set<NodeId>, locked: set<NodeId>, now: int) returns (dead: seq<NodeId>)
      requires WellFormed(View())
      modifies this
      ensures View() == Detect(old(View()), dead, now)
      ensures Distinct(dead)
      ensures forall n :: n in dead <==> n in old(nodes) && old(nodes)[n].status == Online && n !in locked && n in suspected
    {
      hide Teardown;
      ghost var c := View();
      var todo := set n | n in nodes && nodes[n].status == Online && n !in locked;
      ghost var all := todo;
      dead := [];
      while todo != {}
        invariant todo <= all && Distinct(dead)
        invariant WellFormed(View()) && View() == Detect(c, dead, now)
        invariant forall n :: n in dead <==> n in all - todo && n in suspected
        invariant forall n | n in todo :: n in nodes && nodes[n].status == Online
        decreases todo
      {
        var n :| n in todo;
        todo := todo - {n};
        if n in suspected {
          ghost var before := View();
          nodes := nodes[n := nodes[n].(status := Offline)];
          TeardownStatus(View(), HeldBy(View(), n), now);
          var moved := ReassignNodeJobs(n, now);
          DetectOneMore(c, dead, n, now);
          dead := dead + [n];
        }
      }
    }

    // --- Cancel --------------------------------------------------------------------------------------------------------

    /** The leases are released before the transition is checked; a refused transition rolls them back. */
    method CancelJob(j: JobId, now: int) returns (error: Option<Error>)
      requires WellFormed(View())
      modifies this
      ensures Commits(old(View()), Cancel(old(View()), j, now), View(), error)
    {
      if j !in jobs {
        return Some(JobNotFound);
      }
      var saved := leases;
      var live := set l | l in leases && leases[l].job == j && NonTerminal(leases[l].state);
      ReleaseRows(live, now);
      assert leases == ReleaseAll(saved, j, now);
      error := TransitionJob(j, JobState.Cancelled, now);
      if error.Some? {
        leases := saved;
      }
    }
  }

  ghost function SlotsUpTo(slots: map<LeaseId, Lease>, ids: seq<LeaseId>, rank: nat): map<LeaseId, Lease>
    requires rank <= |ids| && forall l | l in ids :: l in slots
  {
    map l | l in ids[..rank] :: slots[l]
  }

  lemma OneMoreSlot(slots: map<LeaseId, Lease>, ids: seq<LeaseId>, rank: nat)
    requires rank < |ids| && forall l | l in ids :: l in slots
    ensures SlotsUpTo(slots, ids, rank + 1) == SlotsUpTo(slots, ids, rank)[ids[rank] := slots[ids[rank]]]
  {
    assert ids[..rank + 1] == ids[..rank] + [ids[rank]];
  }

  /** A failed attempt, table by table, as its steps leave them. */
  lemma AttemptTables(c: Cluster, l: LeaseId, job: Job, backoff: int, now: int)
    requires WellFormed(c) && l in c.leases
    ensures var x := c.leases[l];
      var charged := c.nodes[x.node := ChargedNode(c.nodes[x.node], 0, now)];
      var counted := job.(failedAttempts := job.failedAttempts + 1);
      var torn := FailedAttempt(c, l, job, backoff, now);
      var unplaced := c.jobs[x.job := job][x.job := counted];
      && torn == Cluster(unplaced[x.job := counted.(scheduledNode := None, rendezvousNode := None)],
                         ReleaseSiblings(c.leases[l := SettledLease(x, LeaseState.Failed, now)], x.job, x.epoch, {l}, now),
                         if backoff > 0 then charged[x.node := charged[x.node].(backoffUntil := Some(now + backoff))]
                         else charged,
                         c.log)
      && WellFormed(torn) && WellFormed(torn.(jobs := unplaced))
  {
  }

  /** Clearing the job's wiring after the transition or before it comes to the same. */
  lemma ClearWiringLate(d: Cluster, torn: Cluster, j: JobId, to: JobState, now: int)
    requires WellFormed(d) && WellFormed(torn) && j in d.jobs && CanTransition(d.jobs[j].state, to)
    requires torn == d.(jobs := d.jobs[j := d.jobs[j].(scheduledNode := None, rendezvousNode := None)])
    ensures Transition(d, j, to, now).Ok? && Transition(torn, j, to, now).Ok?
    ensures var e := Transition(d, j, to, now).value;
      e.(jobs := e.jobs[j := e.jobs[j].(scheduledNode := None, rendezvousNode := None)])
          == Transition(torn, j, to, now).value
  {
  }

  // --- The tables a teardown builds up, row by row ---------------------------------------------------------

  function Marked(leases: map<LeaseId, Lease>, done: set<LeaseId>, state: LeaseState): map<LeaseId, Lease> {
    map l | l in leases :: if l in done then leases[l].(state := state) else leases[l]
  }

  function Charged(c: Cluster, done: set<LeaseId>): map<NodeId, Node>
    requires WellFormed(c)
  {
    map n | n in c.nodes :: c.nodes[n].(failures := c.nodes[n].failures + |OnNode(c, done, n)|)
  }

  function MaybeBackedOff(nodes: map<NodeId, Node>, idle: set<NodeId>, backing: bool, until: int): map<NodeId, Node> {
    map n | n in nodes :: if backing && n in idle then nodes[n].(backoffUntil := Some(until)) else nodes[n]
  }

  function NodesOf(leases: map<LeaseId, Lease>, ls: set<LeaseId>): set<NodeId> {
    set l | l in ls && l in leases :: leases[l].node
  }

  lemma MarkedNodes(leases: map<LeaseId, Lease>, done: set<LeaseId>, state: LeaseState, ls: set<LeaseId>)
    ensures NodesOf(Marked(leases, done, state), ls) == NodesOf(leases, ls)
  {
  }

  function SiblingsOf(leases: map<LeaseId, Lease>, j: JobId, epoch: nat, exclude: set<LeaseId>): set<LeaseId> {
    set l | l in leases && l !in exclude && IsSibling(leases[l], j, epoch)
  }

  lemma OverdueIs(c: Cluster, locked: set<LeaseId>, now: int)
    ensures Overdue(c, locked, now) ==
            set l | l in c.leases && c.leases[l].state in {Active, Pending} && c.leases[l].expiresAt < now && l !in locked
    ensures forall l | l in Overdue(c, locked, now) :: l in c.leases && NonTerminal(c.leases[l].state)
  {
  }

  /** A release touches the attempt's own live leases, less the excluded ones, and no other row. */
  lemma ReleaseExact(leases: map<LeaseId, Lease>, j: JobId, epoch: nat, exclude: set<LeaseId>, now: int, l: LeaseId)
    requires l in leases
    ensures var x := leases[l];
      var hit := l !in exclude && x.job == j && x.epoch == epoch && x.state in {Pending, Active};
      && (l in SiblingsOf(leases, j, epoch, exclude) <==> hit)
      && l in ReleaseSiblings(leases, j, epoch, exclude, now)
      && ReleaseSiblings(leases, j, epoch, exclude, now)[l]
         == if hit then x.(state := Released, releasedAt := Some(now)) else x
  {
  }

  function ReleasedRows(leases: map<LeaseId, Lease>, done: set<LeaseId>, now: int): map<LeaseId, Lease> {
    map l | l in leases :: if l in done then Release(leases[l], now) else leases[l]
  }

  lemma ReleaseOne(leases: map<LeaseId, Lease>, done: set<LeaseId>, l: LeaseId, now: int)
    requires l in leases && l !in done
    ensures l in ReleasedRows(leases, done, now) && ReleasedRows(leases, done, now)[l] == leases[l]
    ensures ReleasedRows(leases, done + {l}, now) == ReleasedRows(leases, done, now)[l := Release(leases[l], now)]
  {
  }

  lemma MarkOne(leases: map<LeaseId, Lease>, done: set<LeaseId>, state: LeaseState, l: LeaseId)
    requires l in leases && l !in done
    ensures l in Marked(leases, done, state) && Marked(leases, done, state)[l] == leases[l]
    ensures Marked(leases, done + {l}, state) == Marked(leases, done, state)[l := leases[l].(state := state)]
  {
  }

  lemma NothingCharged(c: Cluster)
    requires WellFormed(c)
    ensures Marked(c.leases, {}, Expired) == c.leases && Charged(c, {}) == c.nodes
  {
    assert forall n :: OnNode(c, {}, n) == {};
  }

  lemma ChargeOne(c: Cluster, done: set<LeaseId>, l: LeaseId)
    requires WellFormed(c) && l !in done && l in c.leases && IsCurrent(c, l)
    ensures c.leases[l].node in Charged(c, done)
    ensures var n := c.leases[l].node;
      Charged(c, done + {l}) == Charged(c, done)[n := Charged(c, done)[n].(failures := Charged(c, done)[n].failures + 1)]
  {
    forall n
      ensures |OnNode(c, done + {l}, n)| == |OnNode(c, done, n)| + (if n == c.leases[l].node then 1 else 0)
    {
      if n == c.leases[l].node {
        assert OnNode(c, done + {l}, n) == OnNode(c, done, n) + {l};
      } else {
        assert OnNode(c, done + {l}, n) == OnNode(c, done, n);
      }
    }
  }

  lemma OnlyDoomed(c: Cluster, j: JobId, lost: set<LeaseId>)
    requires WellFormed(c) && j in c.jobs && lost != {}
    requires AllOfAttempt(c, j, lost)
    ensures Doomed(c, lost) == {j}
  {
  }

  lemma TornNodeRow(c: Cluster, failed: set<LeaseId>, unclaimed: set<LeaseId>, backoff: int, now: int, n: NodeId)
    requires WellFormed(c) && n in c.nodes
    requires forall l | l in unclaimed :: l in c.leases && IsCurrent(c, l)
    ensures TornNode(c, failed, unclaimed, backoff, now, n) ==
            MaybeBackedOff(Charged(c, failed), NodesOf(c.leases, unclaimed),
                           unclaimed != {} && backoff > 0, now + backoff)[n]
  {
    if n in NodesOf(c.leases, unclaimed) {
      var l :| l in unclaimed && c.leases[l].node == n;
      assert l in OnNode(c, unclaimed, n);
    }
  }

  /** What the loops leave in the lease table is the teardown of the one job. */
  lemma TornLeases(c: Cluster, j: JobId, failed: set<LeaseId>, unclaimed: set<LeaseId>, backoff: int, now: int)
    requires WellFormed(c) && j in c.jobs && failed !! unclaimed && Doomed(c, failed + unclaimed) == {j}
    ensures Teardown(c, failed, unclaimed, backoff, now).leases ==
            ReleaseSiblings(Marked(Marked(c.leases, failed, Expired), unclaimed, Unclaimed),
                            j, c.jobs[j].epoch, failed + unclaimed, now)
  {
  }

  /** What they leave in the node table. */
  lemma TornNodes(c: Cluster, failed: set<LeaseId>, unclaimed: set<LeaseId>, backoff: int, now: int)
    requires WellFormed(c)
    requires forall l | l in unclaimed :: l in c.leases && IsCurrent(c, l)
    ensures Teardown(c, failed, unclaimed, backoff, now).nodes ==
            MaybeBackedOff(Charged(c, failed), NodesOf(c.leases, unclaimed), unclaimed != {} && backoff > 0, now + backoff)
  {
    var d := Teardown(c, failed, unclaimed, backoff, now);
    var built :=
      MaybeBackedOff(Charged(c, failed), NodesOf(c.leases, unclaimed), unclaimed != {} && backoff > 0, now + backoff);
    forall n | n in c.nodes
      ensures d.nodes[n] == built[n]
    {
      TornNodeRow(c, failed, unclaimed, backoff, now, n);
    }
    SameMaps(d.nodes, built);
  }

  /** What the final transition leaves in the job table and the log. */
  lemma TornJobs(c: Cluster, j: JobId, failed: set<LeaseId>, unclaimed: set<LeaseId>, backoff: int, now: int)
    requires WellFormed(c) && j in c.jobs && Doomed(c, failed + unclaimed) == {j}
    ensures Teardown(c, failed, unclaimed, backoff, now).jobs == c.jobs[j := TornJob(c.jobs[j], true, now)]
    ensures Teardown(c, failed, unclaimed, backoff, now).log == c.log[j := TornLog(c.log[j], c.jobs[j].state, true)]
  {
  }

  lemma UpdateUnion<K, V>(a: map<K, V>, b: map<K, V>, k: K, v: V)
    ensures (a + b)[k := v] == a + b[k := v]
  {
  }

  // --- A sweep, job by job ------------------------------------------------------------------------------------

  function Swept(leases: map<LeaseId, Lease>, done: set<LeaseId>): map<LeaseId, Lease> {
    map l | l in leases ::
      if l in done then leases[l].(state := if leases[l].state == Pending then Unclaimed else Expired) else leases[l]
  }

  lemma SweepOne(leases: map<LeaseId, Lease>, done: set<LeaseId>, l: LeaseId)
    requires l in leases && l !in done
    ensures l in Swept(leases, done) && Swept(leases, done)[l] == leases[l]
    ensures Swept(leases, done + {l}) ==
            Swept(leases, done)[l := leases[l].(state := if leases[l].state == Pending then Unclaimed else Expired)]
  {
  }

  /** Clearing stale rows is a sweep that dooms nothing. */
  lemma StaleSweep(c: Cluster, stale: set<LeaseId>, backoff: int, now: int)
    requires WellFormed(c) && LiveRows(c, stale)
    requires forall l | l in stale :: !IsCurrent(c, l)
    ensures Doomed(c, stale) == {}
    ensures c.(leases := Swept(c.leases, stale)) == SweepRows(c, stale, backoff, now)
  {
    var f, u := InState(c, stale, Active), InState(c, stale, Pending);
    LiveSplit(c, stale);
    var d := SweepRows(c, stale, backoff, now);
    assert forall n :: OnNode(c, f, n) == {} && OnNode(c, u, n) == {};
    SameMaps(d.leases, Swept(c.leases, stale));
    SameMaps(d.nodes, c.nodes);
    SameMaps(d.jobs, c.jobs);
    SameMaps(d.log, c.log);
  }

  /** Stale rows first and the current ones after is the whole job at once. */
  lemma SplitSweep(c: Cluster, j: JobId, mine: set<LeaseId>, current: set<LeaseId>, backoff: int, now: int)
    requires WellFormed(c) && j in c.jobs && LiveRows(c, mine)
    requires forall l | l in mine :: c.leases[l].job == j
    requires current == AtEpoch(c.leases, mine, c.jobs[j].epoch)
    ensures var d := c.(leases := Swept(c.leases, mine - current));
      && WellFormed(d) && LiveRows(d, current) && AllOfAttempt(d, j, current)
      && SweepRows(d, current, backoff, now) == SweepRows(c, mine, backoff, now)
      && (current == {} ==> d == SweepRows(c, mine, backoff, now))
  {
    var stale := mine - current;
    StaleSweep(c, stale, backoff, now);
    SweepTwice(c, stale, current, backoff, now);
    assert stale + current == mine;
  }

  function JobsOf(leases: map<LeaseId, Lease>, ls: set<LeaseId>): set<JobId> {
    set l | l in ls && l in leases :: leases[l].job
  }

  lemma NothingSwept(c: Cluster, overdue: set<LeaseId>, backoff: int, now: int)
    requires WellFormed(c)
    ensures OfJobs(c, overdue, {}) == {} && SweepRows(c, {}, backoff, now) == c
  {
    assert OfJobs(c, overdue, {}) == {};
    StaleSweep(c, {}, backoff, now);
    SameMaps(Swept(c.leases, {}), c.leases);
  }

  function AtEpoch(leases: map<LeaseId, Lease>, ls: set<LeaseId>, epoch: nat): set<LeaseId> {
    set l | l in ls && l in leases && leases[l].epoch == epoch
  }

  /** Rows grouped by the job they belong to. */
  function Grouped(leases: map<LeaseId, Lease>, ls: set<LeaseId>): map<JobId, set<LeaseId>> {
    map j | j in JobsOf(leases, ls) :: set l | l in ls && l in leases && leases[l].job == j
  }

  lemma OneMoreJob(c: Cluster, overdue: set<LeaseId>, done: set<JobId>, j: JobId)
    requires j !in done
    ensures OfJobs(c, overdue, done + {j}) == OfJobs(c, overdue, done) + OfJobs(c, overdue, {j})
    ensures OfJobs(c, overdue, done) !! OfJobs(c, overdue, {j})
    ensures |OfJobs(c, overdue, done + {j})| == |OfJobs(c, overdue, done)| + |OfJobs(c, overdue, {j})|
  {
    assert OfJobs(c, overdue, done + {j}) == OfJobs(c, overdue, done) + OfJobs(c, overdue, {j});
  }

  lemma DoomedAreSwept(c: Cluster, overdue: set<LeaseId>, done: set<JobId>)
    requires WellFormed(c)
    ensures Doomed(c, OfJobs(c, overdue, done)) <= done
  {
  }

  /** The jobs not yet swept are as they were, and sweeping one more extends what has been swept. */
  lemma NotYetSwept(c: Cluster, overdue: set<LeaseId>, done: set<JobId>, j: JobId, backoff: int, now: int)
    requires WellFormed(c) && LiveRows(c, overdue) && j in JobsOf(c.leases, overdue) && j !in done
    ensures var d, mine := SweepRows(c, OfJobs(c, overdue, done), backoff, now), OfJobs(c, overdue, {j});
      && WellFormed(d) && j in d.jobs && mine == Grouped(c.leases, overdue)[j] && mine != {}
      && LiveRows(d, mine) && (forall l | l in mine :: d.leases[l].job == j)
      && SweepRows(d, mine, backoff, now) == SweepRows(c, OfJobs(c, overdue, done + {j}), backoff, now)
      && |OfJobs(c, overdue, done + {j})| == |OfJobs(c, overdue, done)| + |mine|
  {
    hide SweepRows;
    var before, mine := OfJobs(c, overdue, done), OfJobs(c, overdue, {j});
    OneMoreJob(c, overdue, done, j);
    DoomedAreSwept(c, overdue, done);
    SweepTwice(c, before, mine, backoff, now);
    assert mine == Grouped(c.leases, overdue)[j];
    var l :| l in overdue && l in c.leases && c.leases[l].job == j;
    assert l in mine;
  }

  // --- The detector, job by job and node by node ----------------------------------------------------------------

  function CurrentOf(c: Cluster, ls: set<LeaseId>): set<LeaseId>
    requires WellFormed(c)
  {
    set l | l in ls && l in c.leases && IsCurrent(c, l)
  }

  /** The jobs a dead node's reassignment moves: those it holds a live lease of the current attempt of, and
      that have not ended. */
  lemma MovedExact(c: Cluster, n: NodeId, j: JobId)
    requires WellFormed(c) && j in c.jobs
    ensures j in MovedJobs(c, HeldBy(c, n), c.jobs.Keys) <==>
            && c.jobs[j].state in {Scheduled, Leased, Running}
            && exists l :: && l in c.leases && c.leases[l].node == n && c.leases[l].job == j
                           && c.leases[l].state in {Pending, Active} && c.leases[l].epoch == c.jobs[j].epoch
  {
  }

  function MovedJobs(c: Cluster, held: set<LeaseId>, done: set<JobId>): set<JobId>
    requires WellFormed(c)
  {
    set l | l in held && l in c.leases && c.leases[l].job in done
        && c.jobs[c.leases[l].job].state in REASSIGNABLE :: c.leases[l].job
  }

  lemma HeldIsCurrent(c: Cluster, n: NodeId, live: set<LeaseId>)
    requires WellFormed(c) && live == set l | l in c.leases && c.leases[l].node == n && NonTerminal(c.leases[l].state)
    ensures HeldBy(c, n) == CurrentOf(c, live)
  {
  }

  lemma NoneMoved(c: Cluster, held: set<LeaseId>)
    requires WellFormed(c)
    ensures MovedJobs(c, held, {}) == {}
  {
  }

  lemma AllMoved(c: Cluster, held: set<LeaseId>, done: set<JobId>)
    requires WellFormed(c) && forall l | l in held :: l in c.leases && c.leases[l].job in done
    ensures OfJobs(c, held, done) == held && MovedJobs(c, held, done) == MovedJobs(c, held, c.jobs.Keys)
  {
  }

  lemma NothingHeld(c: Cluster, held: set<LeaseId>, now: int)
    requires WellFormed(c)
    ensures OfJobs(c, held, {}) == {} && Teardown(c, {}, {}, 0, now) == c
  {
    NothingSwept(c, held, 0, now);
    assert InState(c, {}, Active) == {} && InState(c, {}, Pending) == {};
  }

  lemma UntouchedJob(c: Cluster, lost: set<LeaseId>, j: JobId, now: int)
    requires WellFormed(c) && j in c.jobs && j !in Doomed(c, lost)
    ensures var d := Teardown(c, lost, {}, 0, now); WellFormed(d) && j in d.jobs && d.jobs[j] == c.jobs[j]
  {
  }

  /** Which of its live leases a job not yet looked at is found to lose. */
  lemma CurrentRows(c: Cluster, d: Cluster, live: set<LeaseId>, j: JobId)
    requires WellFormed(c) && WellFormed(d) && SameRows(c, d) && j in JobsOf(c.leases, live)
    ensures var mine := OfJobs(c, CurrentOf(c, live), {j});
      && mine == AtEpoch(d.leases, Grouped(c.leases, live)[j], d.jobs[j].epoch)
      && AllOfAttempt(d, j, mine)
  {
    forall l | l in c.leases
      ensures d.leases[l].job == c.leases[l].job && d.leases[l].epoch == c.leases[l].epoch
    {
      assert SameSlot(c.leases[l], d.leases[l]);
    }
  }

  lemma OneMoreMoved(c: Cluster, held: set<LeaseId>, done: set<JobId>, j: JobId)
    requires WellFormed(c) && j in c.jobs
    ensures MovedJobs(c, held, done + {j}) ==
            MovedJobs(c, held, done) + if OfJobs(c, held, {j}) != {} && c.jobs[j].state in REASSIGNABLE then {j} else {}
  {
    var moves := OfJobs(c, held, {j}) != {} && c.jobs[j].state in REASSIGNABLE;
    forall k
      ensures k in MovedJobs(c, held, done + {j}) <==> k in MovedJobs(c, held, done) || (k == j && moves)
    {
      if k == j && moves {
        var l :| l in OfJobs(c, held, {j});
        assert l in held && c.leases[l].job == j;
      }
      if k in MovedJobs(c, held, done + {j}) {
        var l :| l in held && l in c.leases && c.leases[l].job == k && k in done + {j} && c.jobs[k].state in REASSIGNABLE;
        assert k == j ==> l in OfJobs(c, held, {j});
      }
    }
  }

  /** A job not yet looked at is as it was; tearing its attempt down extends what has been torn down. */
  lemma NotYetTorn(c: Cluster, live: set<LeaseId>, done: set<JobId>, j: JobId, now: int)
    requires WellFormed(c) && j in JobsOf(c.leases, live) && j !in done
    ensures var held := CurrentOf(c, live);
      var d, e := Teardown(c, OfJobs(c, held, done), {}, 0, now), Teardown(c, OfJobs(c, held, done + {j}), {}, 0, now);
      var mine := OfJobs(c, held, {j});
      && WellFormed(d) && WellFormed(e) && j in d.jobs && d.jobs[j] == c.jobs[j]
      && mine == AtEpoch(d.leases, Grouped(c.leases, live)[j], d.jobs[j].epoch)
      && AllOfAttempt(d, j, mine)
      && Teardown(d, mine, {}, 0, now) == e
      && (mine == {} ==> d == e)
  {
    hide Teardown, Doomed, AtEpoch, AllOfAttempt;
    var held := CurrentOf(c, live);
    var before, mine, none: set<LeaseId> := OfJobs(c, held, done), OfJobs(c, held, {j}), {};
    OneMoreJob(c, held, done, j);
    DoomedAreSwept(c, held, done);
    TeardownTwice(c, before, none, mine, none, 0, now);
    TeardownWellFormed(c, before + mine, none, 0, now);
    TeardownRows(c, before, none, 0, now);
    assert before + none == before && mine + none == mine && none + none == none
        && before + mine == OfJobs(c, held, done + {j});
    UntouchedJob(c, before, j, now);
    CurrentRows(c, Teardown(c, before, none, 0, now), live, j);
  }

  lemma TeardownStatus(c: Cluster, failed: set<LeaseId>, now: int)
    requires WellFormed(c)
    ensures var d := Teardown(c, failed, {}, 0, now);
      WellFormed(d) && d.nodes.Keys == c.nodes.Keys && forall n | n in c.nodes :: d.nodes[n].status == c.nodes[n].status
  {
  }

  lemma {:induction false} DetectOneMore(c: Cluster, dead: seq<NodeId>, n: NodeId, now: int)
    requires WellFormed(c)
    ensures WellFormed(Detect(c, dead, now))
    ensures Detect(c, dead + [n], now) == DeclareDead(Detect(c, dead, now), n, now)
    decreases |dead|
  {
    if dead == [] {
      assert Detect(c, [n], now) == Detect(DeclareDead(c, n, now), [n][1..], now);
    } else {
      assert (dead + [n])[1..] == dead[1..] + [n];
      DetectOneMore(DeclareDead(c, dead[0], now), dead[1..], n, now);
    }
  }
}
