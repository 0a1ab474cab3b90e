/** The counters kept beside the leases (node reliability, a job's failed attempts) against a recount. */
module Accounting {
  import opened Model
  import opened LeaseProtocol
  import opened CohortShape

  function InNode(leases: map<LeaseId, Lease>, n: NodeId, states: set<LeaseState>): set<LeaseId> {
    set l | l in leases && leases[l].node == n && leases[l].state in states
  }

  const FAULTS: set<LeaseState> := {LeaseState.Failed, Expired}
  const OUTCOMES: set<LeaseState> := {LeaseState.Completed, LeaseState.Failed, Expired}

  function Credits(leases: map<LeaseId, Lease>, n: NodeId): set<LeaseId> {
    InNode(leases, n, {LeaseState.Completed})
  }

  function Charges(leases: map<LeaseId, Lease>, n: NodeId): set<LeaseId> {
    InNode(leases, n, FAULTS)
  }

  function Failures(leases: map<LeaseId, Lease>, j: JobId): set<LeaseId> {
    set l | l in leases && leases[l].job == j && leases[l].state == LeaseState.Failed
  }

  predicate NodeBooks(c: Cluster, n: NodeId)
    requires n in c.nodes
  {
    c.nodes[n].successes == |Credits(c.leases, n)| && c.nodes[n].failures == |Charges(c.leases, n)|
  }

  /** A job's budget: spent exactly on its FAILED leases, overdrawn only by a FAILED job, and then by one. */
  predicate JobBooks(c: Cluster, s: Settings, j: JobId)
    requires j in c.jobs
  {
    var job := c.jobs[j];
    && (if job.state == JobState.Failed then job.failedAttempts == s.maxRetries + 1 else job.failedAttempts <= s.maxRetries)
    && job.failedAttempts <= |Failures(c.leases, j)|
    && (job.state != JobState.Completed ==> job.failedAttempts == |Failures(c.leases, j)|)
  }

  ghost predicate Books(c: Cluster, s: Settings) {
    && (forall n {:trigger NodeBooks(c, n)} | n in c.nodes :: NodeBooks(c, n))
    && (forall j {:trigger JobBooks(c, s, j)} | j in c.jobs :: JobBooks(c, s, j))
  }

  // --- Steps that settle no lease ------------------------------------------------------------------------

  predicate SameOutcome(x: Lease, y: Lease) {
    SameSlot(x, y) && (x.state == y.state || (x.state !in OUTCOMES && y.state !in OUTCOMES))
  }

  /** The two tables record the same outcomes, except possibly for the leases in `but`. */
  predicate SameOutcomes(a: map<LeaseId, Lease>, b: map<LeaseId, Lease>, but: set<LeaseId>) {
    && a.Keys <= b.Keys
    && (forall l | l in a :: SameSlot(a[l], b[l]) && (l in but || SameOutcome(a[l], b[l])))
    && (forall l | l in b && l !in a :: b[l].state !in OUTCOMES)
  }

  lemma NeutralSets(a: map<LeaseId, Lease>, b: map<LeaseId, Lease>)
    requires SameOutcomes(a, b, {})
    ensures forall n :: Credits(b, n) == Credits(a, n) && Charges(b, n) == Charges(a, n)
    ensures forall j :: Failures(b, j) == Failures(a, j)
  {
  }

  predicate SameCounts(x: Node, y: Node) {
    x.successes == y.successes && x.failures == y.failures
  }

  predicate SameAttempts(x: Job, y: Job) {
    && x.failedAttempts == y.failedAttempts
    && (x.state == y.state ||
        (x.state !in {JobState.Failed, JobState.Completed} && y.state !in {JobState.Failed, JobState.Completed}))
  }

  /** A step that settles no lease, counts nothing and neither fails nor completes a job keeps the books. */
  lemma NeutralBooks(c: Cluster, c': Cluster, s: Settings)
    requires Books(c, s) && SameOutcomes(c.leases, c'.leases, {})
    requires c.nodes.Keys <= c'.nodes.Keys && c.jobs.Keys <= c'.jobs.Keys
    requires forall n | n in c.nodes :: SameCounts(c.nodes[n], c'.nodes[n])
    requires forall j | j in c.jobs :: SameAttempts(c.jobs[j], c'.jobs[j])
    requires forall n | n in c'.nodes && n !in c.nodes :: NodeBooks(c', n)
    requires forall j | j in c'.jobs && j !in c.jobs :: JobBooks(c', s, j)
    ensures Books(c', s)
  {
    NeutralSets(c.leases, c'.leases);
    forall n | n in c.nodes
      ensures NodeBooks(c', n)
    {
      assert NodeBooks(c, n);
    }
    forall j | j in c.jobs
      ensures JobBooks(c', s, j)
    {
      assert JobBooks(c, s, j);
    }
  }

  lemma InitBooks(s: Settings)
    ensures Books(EMPTY, s)
  {
  }

  lemma CreateBooks(c: Cluster, s: Settings, j: JobId, world: nat)
    requires WellFormed(c) && Books(c, s)
    ensures Books(Create(c, j, world), s)
  {
    var c' := Create(c, j, world);
    if j !in c.jobs && world != 0 {
      assert Failures(c.leases, j) == {};
    }
    NeutralBooks(c, c', s);
  }

  lemma RegisterBooks(c: Cluster, s: Settings, n: NodeId)
    requires WellFormed(c) && Books(c, s)
    ensures Books(Register(c, n), s)
  {
    if n !in c.nodes {
      assert Credits(c.leases, n) == {} && Charges(c.leases, n) == {};
    }
    NeutralBooks(c, Register(c, n), s);
  }

  lemma StatusBooks(c: Cluster, s: Settings, n: NodeId, status: NodeStatus)
    requires Books(c, s)
    ensures Books(SetStatus(c, n, status), s)
  {
    NeutralBooks(c, SetStatus(c, n, status), s);
  }

  lemma PlaceBooks(c: Cluster, s: Settings, j: JobId, cohort: seq<NodeId>, ids: seq<LeaseId>, now: int)
    requires Books(c, s)
    ensures Books(Place(c, s, j, cohort, ids, now), s)
  {
    NeutralBooks(c, Place(c, s, j, cohort, ids, now), s);
  }

  lemma ClaimBooks(c: Cluster, s: Settings, n: NodeId, l: LeaseId, now: int)
    requires Shape(c) && Books(c, s) && ClaimSlot(c, s, n, l, now).Ok?
    ensures Books(ClaimSlot(c, s, n, l, now).value, s)
  {
    NeutralBooks(c, ClaimSlot(c, s, n, l, now).value, s);
  }

  lemma RenewBooks(c: Cluster, s: Settings, l: LeaseId, n: NodeId, epoch: int, now: int)
    requires WellFormed(c) && Books(c, s) && Renew(c, s, l, n, epoch, now).Ok?
    ensures Books(Renew(c, s, l, n, epoch, now).value, s)
  {
    NeutralBooks(c, Renew(c, s, l, n, epoch, now).value, s);
  }

  lemma CancelBooks(c: Cluster, s: Settings, j: JobId, now: int)
    requires WellFormed(c) && Books(c, s) && Cancel(c, j, now).Ok?
    ensures Books(Cancel(c, j, now).value, s)
  {
    NeutralBooks(c, Cancel(c, j, now).value, s);
  }

  lemma NotedBooks(c: Cluster, s: Settings, j: JobId)
    requires WellFormed(c) && Books(c, s) && j in c.jobs
    ensures Books(Noted(c, j), s)
  {
    NeutralBooks(c, Noted(c, j), s);
  }

  // --- Steps that settle leases ------------------------------------------------------------------------------

  lemma AddOne(a: set<LeaseId>, b: set<LeaseId>, l: LeaseId)
    requires l !in a && b == a + {l}
    ensures |b| == |a| + 1
  {
  }

  /** Settling one lease adds it to exactly the sets its new state belongs to. */
  lemma SettledIn(a: map<LeaseId, Lease>, b: map<LeaseId, Lease>, l: LeaseId, n: NodeId, states: set<LeaseState>)
    requires SameOutcomes(a, b, {l}) && l in a && a[l].state !in OUTCOMES && states <= OUTCOMES
    ensures |InNode(b, n, states)| == |InNode(a, n, states)| + (if b[l].state in states && n == b[l].node then 1 else 0)
  {
    forall m | m != l
      ensures m in InNode(b, n, states) <==> m in InNode(a, n, states)
    {
      if m in a {
        assert SameOutcome(a[m], b[m]);
      }
    }
    if n == b[l].node && b[l].state in states {
      AddOne(InNode(a, n, states), InNode(b, n, states), l);
    } else {
      assert InNode(b, n, states) == InNode(a, n, states);
    }
  }

  lemma SettledJob(a: map<LeaseId, Lease>, b: map<LeaseId, Lease>, l: LeaseId, j: JobId)
    requires SameOutcomes(a, b, {l}) && l in a && a[l].state !in OUTCOMES
    ensures |Failures(b, j)| == |Failures(a, j)| + (if b[l].state == LeaseState.Failed && j == b[l].job then 1 else 0)
  {
    if j == b[l].job && b[l].state == LeaseState.Failed {
      AddOne(Failures(a, j), Failures(b, j), l);
    } else {
      assert Failures(b, j) == Failures(a, j);
    }
  }

  /** Lease `l` alone gets an outcome, `state`, and its node's counter alone moves. */
  predicate Settles(c: Cluster, c': Cluster, l: LeaseId, state: LeaseState) {
    && l in c.leases && NonTerminal(c.leases[l].state)
    && SameOutcomes(c.leases, c'.leases, {l}) && c'.leases.Keys == c.leases.Keys && c'.leases[l].state == state
    && c'.nodes.Keys == c.nodes.Keys
    && (forall n | n in c.nodes ::
          && c'.nodes[n].successes ==
             c.nodes[n].successes + (if n == c.leases[l].node && state == LeaseState.Completed then 1 else 0)
          && c'.nodes[n].failures == c.nodes[n].failures + (if n == c.leases[l].node && state in FAULTS then 1 else 0))
  }

  lemma SettledNode(c: Cluster, c': Cluster, l: LeaseId, state: LeaseState, n: NodeId)
    requires Settles(c, c', l, state) && n in c.nodes && NodeBooks(c, n)
    ensures NodeBooks(c', n)
  {
    SettledIn(c.leases, c'.leases, l, n, {LeaseState.Completed});
    SettledIn(c.leases, c'.leases, l, n, FAULTS);
  }

  /** How completing or failing one lease may change the budget of its job, and of no other. */
  predicate Spends(c: Cluster, c': Cluster, s: Settings, l: LeaseId, state: LeaseState)
    requires l in c.leases && c.leases[l].job in c.jobs && c'.jobs.Keys == c.jobs.Keys
  {
    var before, after := c.jobs[c.leases[l].job], c'.jobs[c.leases[l].job];
    if state == LeaseState.Completed then
      after.failedAttempts == before.failedAttempts && before.state != JobState.Failed && after.state == JobState.Completed
    else if before.state == JobState.Completed then
      after.failedAttempts == before.failedAttempts && after.state == JobState.Completed
    else
      && after.failedAttempts == before.failedAttempts + 1
      && before.state != JobState.Failed && after.state != JobState.Completed
      && (after.state == JobState.Failed <==> s.maxRetries < after.failedAttempts)
  }

  lemma SettledBooks(c: Cluster, c': Cluster, s: Settings, l: LeaseId, state: LeaseState)
    requires Books(c, s) && Settles(c, c', l, state) && state in {LeaseState.Completed, LeaseState.Failed}
    requires c.leases[l].job in c.jobs && Only(c, c', c.leases[l].job) && Spends(c, c', s, l, state)
    ensures Books(c', s)
  {
    forall n | n in c'.nodes
      ensures NodeBooks(c', n)
    {
      assert NodeBooks(c, n);
      SettledNode(c, c', l, state, n);
    }
    forall j | j in c'.jobs
      ensures JobBooks(c', s, j)
    {
      assert JobBooks(c, s, j);
      SettledJob(c.leases, c'.leases, l, j);
    }
  }

  lemma CompleteSettles(c: Cluster, l: LeaseId, n: NodeId, epoch: int, result: Option<TrainingResult>, now: int)
    requires WellFormed(c) && Complete(c, l, n, epoch, result, now).Ok?
    ensures Settles(c, Complete(c, l, n, epoch, result, now).value, l, LeaseState.Completed)
  {
  }

  lemma CompleteBooks(c: Cluster, s: Settings, l: LeaseId, n: NodeId, epoch: int, result: Option<TrainingResult>, now: int)
    requires Shape(c) && Books(c, s) && Complete(c, l, n, epoch, result, now).Ok?
    ensures Books(Complete(c, l, n, epoch, result, now).value, s)
  {
    FencedState(c, l, n, epoch);
    CompleteOnly(c, l, n, epoch, result, now);
    CompleteSettles(c, l, n, epoch, result, now);
    SettledBooks(c, Complete(c, l, n, epoch, result, now).value, s, l, LeaseState.Completed);
  }

  lemma FailSettles(c: Cluster, s: Settings, l: LeaseId, n: NodeId, epoch: int, reason: string,
                    result: Option<TrainingResult>, now: int)
    requires WellFormed(c) && Fail(c, s, l, n, epoch, reason, result, now).Ok?
    ensures Settles(c, Fail(c, s, l, n, epoch, reason, result, now).value, l, LeaseState.Failed)
  {
  }

  lemma FailSpends(c: Cluster, s: Settings, l: LeaseId, n: NodeId, epoch: int, reason: string,
                   result: Option<TrainingResult>, now: int)
    requires Shape(c) && Books(c, s) && Fail(c, s, l, n, epoch, reason, result, now).Ok?
    ensures Spends(c, Fail(c, s, l, n, epoch, reason, result, now).value, s, l, LeaseState.Failed)
  {
    FencedState(c, l, n, epoch);
    assert JobBooks(c, s, c.leases[l].job);
  }

  lemma FailBooks(c: Cluster, s: Settings, l: LeaseId, n: NodeId, epoch: int, reason: string,
                  result: Option<TrainingResult>, now: int)
    requires Shape(c) && Books(c, s) && Fail(c, s, l, n, epoch, reason, result, now).Ok?
    ensures Books(Fail(c, s, l, n, epoch, reason, result, now).value, s)
  {
    FailOnly(c, s, l, n, epoch, reason, result, now);
    FailSettles(c, s, l, n, epoch, reason, result, now);
    FailSpends(c, s, l, n, epoch, reason, result, now);
    SettledBooks(c, Fail(c, s, l, n, epoch, reason, result, now).value, s, l, LeaseState.Failed);
  }

  lemma Union(a: set<LeaseId>, b: set<LeaseId>, all: set<LeaseId>)
    requires a !! b && all == a + b
    ensures |all| == |a| + |b|
  {
  }

  lemma TornCharge(c: Cluster, failed: set<LeaseId>, unclaimed: set<LeaseId>, backoff: int, now: int, n: NodeId, l: LeaseId)
    requires WellFormed(c) && l in c.leases
    requires l in failed + unclaimed ==> NonTerminal(c.leases[l].state) && IsCurrent(c, l)
    ensures l in Charges(Teardown(c, failed, unclaimed, backoff, now).leases, n)
      <==> l in Charges(c.leases, n) || l in OnNode(c, failed, n)
    ensures l in Charges(c.leases, n) ==> l !in OnNode(c, failed, n)
  {
    assert Teardown(c, failed, unclaimed, backoff, now).leases[l] == TornLease(c, failed, unclaimed, now, l);
  }

  /** A teardown charges each node exactly once for every lease of it that expires. */
  lemma TornCharges(c: Cluster, failed: set<LeaseId>, unclaimed: set<LeaseId>, backoff: int, now: int, n: NodeId)
    requires WellFormed(c)
    requires forall l | l in failed + unclaimed :: l in c.leases && NonTerminal(c.leases[l].state) && IsCurrent(c, l)
    ensures var c' := Teardown(c, failed, unclaimed, backoff, now);
      |Charges(c'.leases, n)| == |Charges(c.leases, n)| + |OnNode(c, failed, n)|
  {
    var c' := Teardown(c, failed, unclaimed, backoff, now);
    var before, added, after := Charges(c.leases, n), OnNode(c, failed, n), Charges(c'.leases, n);
    forall l | l in c.leases
      ensures l in after <==> l in before || l in added
      ensures l in before ==> l !in added
    {
      TornCharge(c, failed, unclaimed, backoff, now, n, l);
    }
    assert before <= c.leases.Keys && added <= c.leases.Keys && after <= c.leases.Keys;
    Union(before, added, after);
  }

  lemma TornNeutral(c: Cluster, failed: set<LeaseId>, unclaimed: set<LeaseId>, backoff: int, now: int)
    requires WellFormed(c)
    requires forall l | l in failed + unclaimed :: l in c.leases && NonTerminal(c.leases[l].state)
    ensures var c' := Teardown(c, failed, unclaimed, backoff, now);
      && (forall n :: Credits(c'.leases, n) == Credits(c.leases, n))
      && (forall j :: Failures(c'.leases, j) == Failures(c.leases, j))
  {
  }

  lemma TeardownBooks(c: Cluster, s: Settings, failed: set<LeaseId>, unclaimed: set<LeaseId>, backoff: int, now: int)
    requires Shape(c) && Books(c, s)
    requires forall l | l in failed + unclaimed :: l in c.leases && NonTerminal(c.leases[l].state)
    ensures Books(Teardown(c, failed, unclaimed, backoff, now), s)
  {
    var c' := Teardown(c, failed, unclaimed, backoff, now);
    forall l | l in failed + unclaimed
      ensures IsCurrent(c, l)
    {
      assert LeaseShape(c, l);
    }
    TornNeutral(c, failed, unclaimed, backoff, now);
    forall n | n in c'.nodes
      ensures NodeBooks(c', n)
    {
      assert NodeBooks(c, n);
      TornCharges(c, failed, unclaimed, backoff, now, n);
      assert c'.nodes[n] == TornNode(c, failed, unclaimed, backoff, now, n);
    }
    forall j | j in c'.jobs
      ensures JobBooks(c', s, j)
    {
      assert JobBooks(c, s, j);
    }
  }
}
