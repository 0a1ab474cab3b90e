/** Tearing attempts down one job at a time, in any order, is tearing them all down at once. */
module Batching {
  import opened Model
  import opened LeaseProtocol
  import opened CohortShape

  predicate Separate(failed: set<LeaseId>, unclaimed: set<LeaseId>, failed': set<LeaseId>, unclaimed': set<LeaseId>) {
    && failed !! unclaimed && failed' !! unclaimed'
    && failed + unclaimed !! failed' + unclaimed'
  }

  lemma DoomedSame(c: Cluster, d: Cluster, lost: set<LeaseId>)
    requires WellFormed(c) && WellFormed(d) && SameRows(c, d)
    ensures Doomed(d, lost) == Doomed(c, lost)
  {
  }

  lemma DoomedUnion(c: Cluster, a: set<LeaseId>, b: set<LeaseId>, all: set<LeaseId>)
    requires WellFormed(c) && all == a + b
    ensures Doomed(c, all) == Doomed(c, a) + Doomed(c, b)
  {
  }

  lemma OnNodeSame(c: Cluster, d: Cluster, lost: set<LeaseId>, n: NodeId)
    requires WellFormed(c) && WellFormed(d) && SameRows(c, d)
    ensures OnNode(d, lost, n) == OnNode(c, lost, n)
  {
  }

  lemma OnNodeUnion(c: Cluster, a: set<LeaseId>, b: set<LeaseId>, n: NodeId)
    requires WellFormed(c) && a !! b
    ensures OnNode(c, a + b, n) == OnNode(c, a, n) + OnNode(c, b, n)
    ensures |OnNode(c, a + b, n)| == |OnNode(c, a, n)| + |OnNode(c, b, n)|
  {
  }

  lemma TwiceLease(c: Cluster, d: Cluster, f: set<LeaseId>, u: set<LeaseId>, f': set<LeaseId>, u': set<LeaseId>,
                   now: int, l: LeaseId)
    requires WellFormed(c) && WellFormed(d) && SameRows(c, d) && Separate(f, u, f', u') && l in c.leases
    requires d.leases[l] == TornLease(c, f, u, now, l)
    requires l in f' + u' ==> c.leases[l].job !in Doomed(c, f + u)
    ensures TornLease(d, f', u', now, l) == TornLease(c, f + f', u + u', now, l)
  {
  }

  lemma TwiceNode(c: Cluster, d: Cluster, f: set<LeaseId>, u: set<LeaseId>, f': set<LeaseId>, u': set<LeaseId>,
                  backoff: int, now: int, n: NodeId)
    requires WellFormed(c) && WellFormed(d) && SameRows(c, d) && Separate(f, u, f', u') && n in c.nodes
    requires d.nodes[n] == TornNode(c, f, u, backoff, now, n)
    ensures TornNode(d, f', u', backoff, now, n) == TornNode(c, f + f', u + u', backoff, now, n)
  {
    OnNodeSame(c, d, f', n);
    OnNodeSame(c, d, u', n);
    OnNodeUnion(c, f, f', n);
    OnNodeUnion(c, u, u', n);
  }

  lemma JobTwice(job: Job, log: seq<Event>, first: bool, second: bool, now: int)
    ensures var once := TornJob(job, first, now);
      && TornJob(once, second, now) == TornJob(job, first || second, now)
      && TornLog(TornLog(log, job.state, first), once.state, second) == TornLog(log, job.state, first || second)
  {
  }

  lemma SameMaps<K, V>(a: map<K, V>, b: map<K, V>)
    requires a.Keys == b.Keys && forall k | k in a :: a[k] == b[k]
    ensures a == b
  {
  }

  /** Two teardowns in a row are one, as long as the second loses no lease of an attempt the first doomed. */
  lemma TeardownTwice(c: Cluster, f: set<LeaseId>, u: set<LeaseId>, f': set<LeaseId>, u': set<LeaseId>, backoff: int,
      now: int)
    requires WellFormed(c) && Separate(f, u, f', u')
    requires forall l | l in f' + u' && l in c.leases :: c.leases[l].job !in Doomed(c, f + u)
    ensures WellFormed(Teardown(c, f, u, backoff, now))
    ensures Teardown(Teardown(c, f, u, backoff, now), f', u', backoff, now) == Teardown(c, f + f', u + u', backoff, now)
  {
    var d := Teardown(c, f, u, backoff, now);
    TeardownWellFormed(c, f, u, backoff, now);
    TeardownRows(c, f, u, backoff, now);
    var e, once := Teardown(d, f', u', backoff, now), Teardown(c, f + f', u + u', backoff, now);
    forall l | l in c.leases
      ensures e.leases[l] == once.leases[l]
    {
      TwiceLease(c, d, f, u, f', u', now, l);
    }
    SameMaps(e.leases, once.leases);
    forall n | n in c.nodes
      ensures e.nodes[n] == once.nodes[n]
    {
      TwiceNode(c, d, f, u, f', u', backoff, now, n);
    }
    SameMaps(e.nodes, once.nodes);
    DoomedSame(c, d, f' + u');
    DoomedUnion(c, f + u, f' + u', (f + f') + (u + u'));
    forall j | j in c.jobs
      ensures e.jobs[j] == once.jobs[j] && e.log[j] == once.log[j]
    {
      JobTwice(c.jobs[j], c.log[j], j in Doomed(c, f + u), j in Doomed(c, f' + u'), now);
    }
    SameMaps(e.jobs, once.jobs);
    SameMaps(e.log, once.log);
  }

  predicate LiveRows(c: Cluster, ls: set<LeaseId>) {
    forall l | l in ls :: l in c.leases && NonTerminal(c.leases[l].state)
  }

  predicate SameRowsOf(c: Cluster, d: Cluster, ls: set<LeaseId>) {
    forall l | l in ls :: l in c.leases && l in d.leases && d.leases[l] == c.leases[l]
  }

  lemma LiveSplit(c: Cluster, ls: set<LeaseId>)
    requires LiveRows(c, ls)
    ensures InState(c, ls, Active) + InState(c, ls, Pending) == ls
  {
  }

  lemma InStateUnion(c: Cluster, a: set<LeaseId>, b: set<LeaseId>, state: LeaseState)
    ensures InState(c, a + b, state) == InState(c, a, state) + InState(c, b, state)
  {
  }

  lemma InStateSame(c: Cluster, d: Cluster, ls: set<LeaseId>, state: LeaseState)
    requires SameRowsOf(c, d, ls)
    ensures InState(d, ls, state) == InState(c, ls, state)
  {
  }

  /** Sweeping `a` and then `b` is sweeping both, as long as nothing in `b` belongs to an attempt `a` doomed. */
  lemma SweepTwice(c: Cluster, a: set<LeaseId>, b: set<LeaseId>, backoff: int, now: int)
    requires WellFormed(c) && a !! b && LiveRows(c, a) && LiveRows(c, b)
    requires forall l | l in b :: c.leases[l].job !in Doomed(c, a)
    ensures var d := SweepRows(c, a, backoff, now);
      WellFormed(d) && d.jobs.Keys == c.jobs.Keys && SameRowsOf(c, d, b)
          && SweepRows(d, b, backoff, now) == SweepRows(c, a + b, backoff, now)
  {
    var d := SweepRows(c, a, backoff, now);
    LiveSplit(c, a);
    LiveSplit(c, b);
    var f, u, f', u' := InState(c, a, Active), InState(c, a, Pending), InState(c, b, Active), InState(c, b, Pending);
    TeardownTwice(c, f, u, f', u', backoff, now);
    forall l | l in b
      ensures d.leases[l] == c.leases[l]
    {
      assert d.leases[l] == TornLease(c, f, u, now, l);
    }
    InStateSame(c, d, b, Active);
    InStateSame(c, d, b, Pending);
    InStateUnion(c, a, b, Active);
    InStateUnion(c, a, b, Pending);
  }
}
