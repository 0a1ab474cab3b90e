/** Deadlines: what a renewal buys a lease, and exactly what a sweep does to every row, in terms of the
    deadlines themselves (orchestrator/services/leases.py). */
module Deadlines {
  import opened Model
  import opened LeaseProtocol
  import opened CohortShape
  import opened Runs
  import Evolution

  // --- Where a deadline comes from ------------------------------------------------------------------------

  /** When a lease was last renewed, or granted if it never was. */
  function Since(x: Lease): int {
    if x.renewedAt.Some? then x.renewedAt.value else x.grantedAt
  }

  predicate InTime(x: Lease, s: Settings) {
    x.expiresAt == Since(x) + s.ttl && (x.state == Pending ==> x.renewedAt == None)
  }

  ghost predicate Timed(c: Cluster, s: Settings) {
    forall l {:trigger InTime(c.leases[l], s)} | l in c.leases :: InTime(c.leases[l], s)
  }

  /** Tearing down and cancelling leave every deadline alone. */
  predicate SameTimes(x: Lease, y: Lease) {
    x.expiresAt == y.expiresAt && x.grantedAt == y.grantedAt && x.renewedAt == y.renewedAt
    && (y.state == Pending ==> x.state == Pending)
  }

  lemma SameTimesKeep(c: Cluster, d: Cluster, s: Settings)
    requires Timed(c, s) && d.leases.Keys == c.leases.Keys
    requires forall l | l in c.leases :: SameTimes(c.leases[l], d.leases[l])
    ensures Timed(d, s)
  {
    forall l | l in d.leases
      ensures InTime(d.leases[l], s)
    {
      assert InTime(c.leases[l], s);
    }
  }

  lemma TeardownTimes(c: Cluster, s: Settings, failed: set<LeaseId>, unclaimed: set<LeaseId>, backoff: int, now: int)
    requires WellFormed(c) && Timed(c, s)
    ensures Timed(Teardown(c, failed, unclaimed, backoff, now), s)
  {
    SameTimesKeep(c, Teardown(c, failed, unclaimed, backoff, now), s);
  }

  lemma {:induction false} DetectTimes(c: Cluster, s: Settings, dead: seq<NodeId>, now: int)
    requires WellFormed(c) && Timed(c, s)
    ensures Timed(Detect(c, dead, now), s)
    decreases |dead|
  {
    hide Teardown;
    if dead != [] {
      var n := dead[0];
      if n in c.nodes && c.nodes[n].status == Online {
        var flipped := SetStatus(c, n, Offline);
        SameTimesKeep(c, flipped, s);
        TeardownTimes(flipped, s, HeldBy(flipped, n), {}, 0, now);
        TeardownWellFormed(flipped, HeldBy(flipped, n), {}, 0, now);
      }
      DetectTimes(DeclareDead(c, n, now), s, dead[1..], now);
    }
  }

  /** One row changed, and perhaps the job and its log with it. */
  lemma OneRowTimes(c: Cluster, d: Cluster, s: Settings, l: LeaseId)
    requires Timed(c, s) && l in c.leases && d.leases.Keys == c.leases.Keys && InTime(d.leases[l], s)
    requires forall m | m in c.leases && m != l :: SameTimes(c.leases[m], d.leases[m])
    ensures Timed(d, s)
  {
    forall m | m in d.leases
      ensures InTime(d.leases[m], s)
    {
      assert InTime(c.leases[m], s);
    }
  }

  lemma FencedTimes(c: Cluster, s: Settings, step: Step)
    requires WellFormed(c) && Timed(c, s)
    requires step.Claim? || step.RenewLease? || step.CompleteLease? || step.FailLease?
    ensures Timed(Next(c, s, step), s)
  {
    hide KeptResult, ChargedNode, Moved;
    var d := Next(c, s, step);
    if d.leases != c.leases {
      assert InTime(c.leases[step.lease], s);
      OneRowTimes(c, d, s, step.lease);
    }
  }

  lemma StepTimes(c: Cluster, s: Settings, step: Step)
    requires WellFormed(c) && Timed(c, s)
    ensures Timed(Next(c, s, step), s)
  {
    match step
    case PlaceJob(j, cohort, ids, now) => PlaceTimes(c, s, j, cohort, ids, now);
    case SweepExpired(locked, now) =>
      var overdue := Overdue(c, locked, now);
      TeardownTimes(c, s, InState(c, overdue, Active), InState(c, overdue, Pending), s.unclaimedBackoff, now);
    case DetectFailures(dead, now) => DetectTimes(c, s, dead, now);
    case Claim(_, _, _) => FencedTimes(c, s, step);
    case RenewLease(_, _, _, _) => FencedTimes(c, s, step);
    case CompleteLease(_, _, _, _, _) => FencedTimes(c, s, step);
    case FailLease(_, _, _, _, _, _) => FencedTimes(c, s, step);
    case _ => SameTimesKeep(c, Next(c, s, step), s);
  }

  lemma PlaceTimes(c: Cluster, s: Settings, j: JobId, cohort: seq<NodeId>, ids: seq<LeaseId>, now: int)
    requires Timed(c, s)
    ensures Timed(Place(c, s, j, cohort, ids, now), s)
  {
    var d := Place(c, s, j, cohort, ids, now);
    forall l | l in d.leases
      ensures InTime(d.leases[l], s)
    {
      assert l in c.leases ==> InTime(c.leases[l], s);
    }
  }

  lemma {:induction false} RunTimes(c: Cluster, s: Settings, steps: seq<Step>)
    requires Inv(c, s) && Timed(c, s)
    ensures Timed(RunFrom(c, s, steps), s)
    decreases |steps|
  {
    hide Inv, Next;
    if steps != [] {
      InvWellFormed(c, s);
      StepIsGood(c, s, steps[0]);
      StepTimes(c, s, steps[0]);
      RunTimes(Next(c, s, steps[0]), s, steps[1..]);
    }
  }

  /** In every reachable database every lease, live or not, runs out one TTL after it was last renewed, or,
      never renewed, after it was offered or claimed. */
  lemma DeadlinePromise(c: Cluster, s: Settings, l: LeaseId)
    requires Reachable(c, s) && l in c.leases
    ensures var x := c.leases[l];
      x.expiresAt == (match x.renewedAt case Some(t) => t + s.ttl case None => x.grantedAt + s.ttl)
  {
    var steps: seq<Step> :| ReachedBy(c, s, steps);
    InitInv(s);
    RunTimes(EMPTY, s, steps);
    assert InTime(c.leases[l], s);
  }

  // --- What a renewal buys ----------------------------------------------------------------------------------

  /** Lease `l` is claimed or finished, has not expired, and is good until `horizon` while it is live. */
  predicate Kept(c: Cluster, l: LeaseId, node: NodeId, horizon: int) {
    && l in c.leases && c.leases[l].node == node && c.leases[l].state !in {Pending, Expired}
    && (c.leases[l].state == Active ==> horizon <= c.leases[l].expiresAt)
  }

  /** Everything but the two ways a lease renewed at `t` may still expire within its TTL: its node is
      declared dead, or its own holder renews it from an earlier time. */
  predicate Spares(step: Step, s: Settings, l: LeaseId, node: NodeId, t: int) {
    match step
    case SweepExpired(_, now) => now <= t + s.ttl
    case RenewLease(m, _, _, now) => m == l ==> t <= now
    case DetectFailures(dead, _) => node !in dead
    case _ => true
  }

  lemma TeardownSpares(c: Cluster, failed: set<LeaseId>, unclaimed: set<LeaseId>, backoff: int, now: int, l: LeaseId,
      node: NodeId, horizon: int)
    requires WellFormed(c) && Kept(c, l, node, horizon) && l !in failed && l !in unclaimed
    ensures Kept(Teardown(c, failed, unclaimed, backoff, now), l, node, horizon)
  {
  }

  lemma {:induction false} DetectSpares(c: Cluster, dead: seq<NodeId>, now: int, l: LeaseId, node: NodeId, horizon: int)
    requires WellFormed(c) && Kept(c, l, node, horizon) && node !in dead
    ensures Kept(Detect(c, dead, now), l, node, horizon)
    decreases |dead|
  {
    hide Teardown;
    if dead != [] {
      var n := dead[0];
      if n in c.nodes && c.nodes[n].status == Online {
        var flipped := SetStatus(c, n, Offline);
        TeardownSpares(flipped, HeldBy(flipped, n), {}, 0, now, l, node, horizon);
        TeardownWellFormed(flipped, HeldBy(flipped, n), {}, 0, now);
      }
      DetectSpares(DeclareDead(c, n, now), dead[1..], now, l, node, horizon);
    }
  }

  lemma StepSpares(c: Cluster, s: Settings, step: Step, l: LeaseId, node: NodeId, t: int)
    requires WellFormed(c) && Kept(c, l, node, t + s.ttl) && Spares(step, s, l, node, t)
    ensures Kept(Next(c, s, step), l, node, t + s.ttl)
  {
    match step
    case SweepExpired(locked, now) =>
      var overdue := Overdue(c, locked, now);
      TeardownSpares(c, InState(c, overdue, Active), InState(c, overdue, Pending), s.unclaimedBackoff, now, l, node,
                     t + s.ttl);
    case DetectFailures(dead, now) => DetectSpares(c, dead, now, l, node, t + s.ttl);
    case _ =>
  }

  lemma {:induction false} RunSpares(c: Cluster, s: Settings, steps: seq<Step>, l: LeaseId, node: NodeId, t: int)
    requires Inv(c, s) && Kept(c, l, node, t + s.ttl) && forall step | step in steps :: Spares(step, s, l, node, t)
    ensures Kept(RunFrom(c, s, steps), l, node, t + s.ttl)
    decreases |steps|
  {
    hide Inv, Next, Kept, Spares;
    if steps != [] {
      InvWellFormed(c, s);
      StepIsGood(c, s, steps[0]);
      assert steps[0] in steps;
      StepSpares(c, s, steps[0], l, node, t);
      RunSpares(Next(c, s, steps[0]), s, steps[1..], l, node, t);
    }
  }

  /** An accepted renewal changes its own lease's clock and no other lease. */
  lemma RenewedRows(c: Cluster, s: Settings, l: LeaseId, n: NodeId, epoch: int, t: int)
    requires WellFormed(c) && Renew(c, s, l, n, epoch, t).Ok?
    ensures var d := Renew(c, s, l, n, epoch, t).value;
      && l in c.leases && l in d.leases
      && d.leases[l] == c.leases[l].(renewedAt := Some(t), expiresAt := t + s.ttl)
      && (forall m | m in c.leases && m != l :: m in d.leases && d.leases[m] == c.leases[m])
      && Kept(d, l, n, t + s.ttl)
  {
  }

  /** A renewal at `t` holds for a whole TTL: after it the lease runs out at `t + ttl`, and whatever happens
      from then on, no sweep up to that time makes it EXPIRED. */
  lemma RenewalHolds(c: Cluster, s: Settings, l: LeaseId, n: NodeId, epoch: int, t: int, steps: seq<Step>)
    requires Reachable(c, s) && WellFormed(c) && Renew(c, s, l, n, epoch, t).Ok?
    requires forall step | step in steps :: Spares(step, s, l, n, t)
    ensures var d := Renew(c, s, l, n, epoch, t).value;
      && Inv(d, s) && l in d.leases
      && d.leases[l] == c.leases[l].(renewedAt := Some(t), expiresAt := t + s.ttl)
      && (forall m | m in c.leases && m != l :: m in d.leases && d.leases[m] == c.leases[m])
      && l in RunFrom(d, s, steps).leases && RunFrom(d, s, steps).leases[l].state != Expired
  {
    hide Inv, Renew, Spares, Evolution.Evolves;
    ReachableInv(c, s);
    StepIsGood(c, s, RenewLease(l, n, epoch, t));
    assert Attempt(c, s, RenewLease(l, n, epoch, t)) == Renew(c, s, l, n, epoch, t);
    RenewedRows(c, s, l, n, epoch, t);
    RunSpares(Renew(c, s, l, n, epoch, t).value, s, steps, l, n, t);
  }

  // --- What a sweep does, row by row --------------------------------------------------------------------------

  /** A live lease past its deadline that no other transaction holds. */
  predicate Lapsed(c: Cluster, locked: set<LeaseId>, now: int, l: LeaseId) {
    l in c.leases && c.leases[l].state in {Pending, Active} && c.leases[l].expiresAt < now && l !in locked
  }

  ghost predicate LosesOne(c: Cluster, locked: set<LeaseId>, now: int, j: JobId) {
    exists l :: Lapsed(c, locked, now, l) && c.leases[l].job == j
  }

  lemma LapsedIsCurrent(c: Cluster, s: Settings, locked: set<LeaseId>, now: int)
    requires Inv(c, s)
    ensures forall l :: l in Overdue(c, locked, now) <==> Lapsed(c, locked, now, l)
    ensures forall l | Lapsed(c, locked, now, l) ::
              IsCurrent(c, l) && c.jobs[c.leases[l].job].state in {Scheduled, Leased, Running, JobState.Completed}
    ensures forall j :: j in Doomed(c, Overdue(c, locked, now)) <==> LosesOne(c, locked, now, j)
  {
    forall l | Lapsed(c, locked, now, l)
      ensures IsCurrent(c, l) && c.jobs[c.leases[l].job].state in {Scheduled, Leased, Running, JobState.Completed}
    {
      assert LeaseShape(c, l);
    }
  }

  /** The sweep never picks up a row of a superseded attempt: its uncharged cleanup finds nothing. */
  lemma SweepNeverStale(c: Cluster, s: Settings, locked: set<LeaseId>, now: int, l: LeaseId)
    requires Reachable(c, s) && (l in Overdue(c, locked, now) || Lapsed(c, locked, now, l))
    ensures l in Overdue(c, locked, now) && Lapsed(c, locked, now, l) && IsCurrent(c, l)
  {
    ReachableInv(c, s);
    LapsedIsCurrent(c, s, locked, now);
  }

  /** Every lease after a sweep, whatever rows it skips: an ACTIVE one past its deadline is EXPIRED, a PENDING
      one UNCLAIMED; the other live leases of a job that lost one are RELEASED; the rest are untouched. */
  lemma SweptLease(c: Cluster, s: Settings, locked: set<LeaseId>, now: int, l: LeaseId)
    requires Reachable(c, s) && l in c.leases
    ensures var x, d := c.leases[l], Sweep(c, s, locked, now);
      && l in d.leases
      && d.leases[l] == if Lapsed(c, locked, now, l) then x.(state := if x.state == Active then Expired else Unclaimed)
                        else if x.state in {Pending, Active} && LosesOne(c, locked, now, x.job)
                        then x.(state := Released, releasedAt := Some(now)) else x
  {
    ReachableInv(c, s);
    LapsedIsCurrent(c, s, locked, now);
    assert LeaseShape(c, l);
  }

  lemma SweepsJob(c: Cluster, s: Settings, locked: set<LeaseId>, now: int, j: JobId)
    requires WellFormed(c) && j in c.jobs
    ensures var d, doomed := Sweep(c, s, locked, now), j in Doomed(c, Overdue(c, locked, now));
      && InState(c, Overdue(c, locked, now), Active) + InState(c, Overdue(c, locked, now), Pending)
         == Overdue(c, locked, now)
      && j in d.jobs && j in d.log && j in c.log
      && d.jobs[j] == TornJob(c.jobs[j], doomed, now) && d.log[j] == TornLog(c.log[j], c.jobs[j].state, doomed)
  {
    hide TornNode, TornLease, TornJob, TornLog, Doomed;
    InOneState(c, locked, now);
  }

  lemma InOneState(c: Cluster, locked: set<LeaseId>, now: int)
    ensures InState(c, Overdue(c, locked, now), Active) + InState(c, Overdue(c, locked, now), Pending)
        == Overdue(c, locked, now)
  {
  }

  /** Every job after a sweep: one that lost a lease, unless it had completed, is REASSIGNED and placed
      nowhere, with exactly one event saying so; the rest are untouched. */
  lemma SweptJob(c: Cluster, s: Settings, locked: set<LeaseId>, now: int, j: JobId)
    requires Reachable(c, s) && j in c.jobs
    ensures var job, d := c.jobs[j], Sweep(c, s, locked, now);
      && j in d.jobs && j in d.log && j in c.log
      && (if LosesOne(c, locked, now, j) && job.state != JobState.Completed
          then && d.jobs[j] == job.(state := Reassigned, scheduledNode := None, rendezvousNode := None)
               && d.log[j] == c.log[j] + [Event(Some(job.state), Reassigned)]
          else d.jobs[j] == job && d.log[j] == c.log[j])
  {
    hide Inv, Sweep, Overdue, Doomed, InState;
    ReachableInv(c, s);
    InvWellFormed(c, s);
    SweepsJob(c, s, locked, now, j);
    LapsedIsCurrent(c, s, locked, now);
  }

  lemma SweepsNode(c: Cluster, s: Settings, locked: set<LeaseId>, now: int, n: NodeId)
    requires WellFormed(c) && n in c.nodes
    ensures var d, overdue := Sweep(c, s, locked, now), Overdue(c, locked, now);
      && n in d.nodes
      && d.nodes[n] == TornNode(c, InState(c, overdue, Active), InState(c, overdue, Pending), s.unclaimedBackoff, now, n)
  {
    hide TornNode, TornLease, TornJob, TornLog, Overdue, InState;
  }

  /** The rows behind a node's charges and behind its backing off. */
  lemma LapsedOnNode(c: Cluster, s: Settings, locked: set<LeaseId>, now: int, n: NodeId, state: LeaseState)
    requires Inv(c, s) && state in {Pending, Active}
    ensures OnNode(c, InState(c, Overdue(c, locked, now), state), n)
            == set l | l in c.leases && Lapsed(c, locked, now, l) && c.leases[l].node == n && c.leases[l].state == state
  {
    LapsedIsCurrent(c, s, locked, now);
    hide Inv;
  }

  /** Every node after a sweep: charged once for each ACTIVE lease of its own that ran out, backed off if an
      offer to it ran out and backing off is on, and otherwise as it was. */
  lemma SweptNode(c: Cluster, s: Settings, locked: set<LeaseId>, now: int, n: NodeId)
    requires Reachable(c, s) && n in c.nodes
    ensures var node, d := c.nodes[n], Sweep(c, s, locked, now);
      var idle := set l | l in c.leases && Lapsed(c, locked, now, l) && c.leases[l].node == n && c.leases[l].state == Pending;
      var faulty := set l | l in c.leases && Lapsed(c, locked, now, l) && c.leases[l].node == n && c.leases[l].state == Active;
      && n in d.nodes
      && d.nodes[n] == node.(
                       failures := node.failures + |faulty|,
                       backoffUntil := if s.unclaimedBackoff > 0 && idle != {} then Some(now + s.unclaimedBackoff)
                                       else node.backoffUntil)
  {
    hide Inv, OnNode, InState, Overdue, Lapsed, Sweep;
    ReachableInv(c, s);
    InvWellFormed(c, s);
    SweepsNode(c, s, locked, now, n);
    LapsedOnNode(c, s, locked, now, n, Active);
    LapsedOnNode(c, s, locked, now, n, Pending);
  }

  lemma SweptTables(c: Cluster, s: Settings, locked: set<LeaseId>, now: int)
    requires Reachable(c, s)
    ensures WellFormed(c)
    ensures var d := Sweep(c, s, locked, now);
      d.leases.Keys == c.leases.Keys && d.jobs.Keys == c.jobs.Keys == d.log.Keys == c.log.Keys && d.nodes.Keys == c.nodes.Keys
  {
    ReachableInv(c, s);
    hide Inv, TornLease, TornJob, TornNode, TornLog;
  }

  /** A sweep that finds nothing past its deadline changes nothing at all. */
  lemma QuietSweep(c: Cluster, s: Settings, locked: set<LeaseId>, now: int)
    requires Reachable(c, s) && forall l :: !Lapsed(c, locked, now, l)
    ensures Sweep(c, s, locked, now) == c
  {
    hide Inv, Sweep, Lapsed, Reachable;
    SweptTables(c, s, locked, now);
    var d := Sweep(c, s, locked, now);
    forall l | l in c.leases
      ensures d.leases[l] == c.leases[l]
    {
      SweptLease(c, s, locked, now, l);
    }
    forall j | j in c.jobs
      ensures d.jobs[j] == c.jobs[j] && d.log[j] == c.log[j]
    {
      SweptJob(c, s, locked, now, j);
    }
    forall n | n in c.nodes
      ensures d.nodes[n] == c.nodes[n]
    {
      SweptNode(c, s, locked, now, n);
    }
    assert d.leases == c.leases && d.jobs == c.jobs && d.log == c.log && d.nodes == c.nodes;
  }
}
