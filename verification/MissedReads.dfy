/** What a trainer that starts afresh, because its manifest read failed, does to a job's list of checkpoints:
    exactly when the list goes backwards, and that it can (trainer/train.py). */
module MissedReads {
  import opened Model
  import opened LeaseProtocol
  import opened CheckpointAccess
  import opened Checkpoints
  import Runs

  // --- Where the training loop saves ------------------------------------------------------------------------

  /** The positions at which a loop started afresh saves: in an epoch, after every step whose number is a
      multiple of the interval (0 means never); and after each epoch, naming the next one. */
  predicate SavesAt(interval: nat, perEpoch: nat, epoch: nat, step: nat) {
    || (1 <= epoch && 0 < interval && step % interval == 0 && (epoch - 1) * perEpoch < step <= epoch * perEpoch)
    || (2 <= epoch && step == (epoch - 1) * perEpoch)
  }

  /** The first of them. */
  function FirstSave(interval: nat, perEpoch: nat): (nat, nat) {
    if 0 < interval <= perEpoch then (1, interval) else (2, perEpoch)
  }

  lemma FirstSaveIsFirst(interval: nat, perEpoch: nat, epoch: nat, step: nat)
    requires SavesAt(interval, perEpoch, epoch, step)
    ensures var first := FirstSave(interval, perEpoch);
      SavesAt(interval, perEpoch, first.0, first.1) && NotAfter(first.0, first.1, epoch, step)
  {
    if 0 < interval <= perEpoch {
      assert interval % interval == 0;
      if epoch == 1 {
        SmallMultiple(step, interval);
      }
    } else if epoch == 1 {
      SmallMultiple(step, interval);
    }
  }

  lemma SmallMultiple(step: nat, interval: nat)
    requires 0 < interval && step % interval == 0 && 0 < step
    ensures interval <= step
  {
  }

  // --- A run of the loop ---------------------------------------------------------------------------------------

  function Steps(l: LeaseId, n: nat): seq<Action> {
    if n == 0 then [] else Steps(l, n - 1) + [TrainStep(l)]
  }

  /** A fresh start trained up to a position, `perEpoch` steps to every epoch before it. */
  function TrainTo(l: LeaseId, perEpoch: nat, epoch: nat, step: nat): seq<Action>
    decreases epoch
  {
    if epoch <= 1 || step < (epoch - 1) * perEpoch then Steps(l, step)
    else TrainTo(l, perEpoch, epoch - 1, (epoch - 1) * perEpoch) + [EndEpoch(l)] + Steps(l, step - (epoch - 1) * perEpoch)
  }

  /** A save whose every request goes through. */
  function SaveActions(l: LeaseId, suffix: string): seq<Action> {
    [BeginSave(l, suffix, None), PutBlob(l, Landed), GetManifest(l, false), PutManifest(l, Landed)]
  }

  /** `l`'s trainer is at a position, with no upload running. */
  predicate IsAt(sys: System, l: LeaseId, epoch: nat, step: nat) {
    IsTraining(sys, l) && sys.trainers[l].phase == Training(epoch, step) && sys.trainers[l].upload == Idle
  }

  /** Only trainers and the record of finished epochs may differ. */
  predicate SameWorld(sys: System, end: System) {
    end.c == sys.c && end.store == sys.store && end.clean == sys.clean
  }

  lemma {:induction false} StepsReach(sys: System, s: Settings, l: LeaseId, epoch: nat, step: nat, n: nat)
    requires SystemInv(sys, s) && IsAt(sys, l, epoch, step)
    ensures var end := RunActs(sys, s, Steps(l, n)); IsAt(end, l, epoch, step + n) && SameWorld(sys, end)
    decreases n
  {
    hide Runs.Inv, ManifestGood, TrainerGood;
    if n > 0 {
      StepsReach(sys, s, l, epoch, step, n - 1);
      RunActsConcat(sys, s, Steps(l, n - 1), [TrainStep(l)]);
      RunOne(RunActs(sys, s, Steps(l, n - 1)), s, TrainStep(l));
    }
  }

  /** The end of an epoch and the steps after it. */
  lemma EpochReach(sys: System, s: Settings, l: LeaseId, epoch: nat, step: nat, n: nat)
    requires SystemInv(sys, s) && IsAt(sys, l, epoch, step)
    ensures var end := RunActs(sys, s, [EndEpoch(l)] + Steps(l, n)); IsAt(end, l, epoch + 1, step + n) && SameWorld(sys, end)
  {
    hide Runs.Inv, ManifestGood, TrainerGood, RunActs, Steps;
    ActKeeps(sys, s, EndEpoch(l));
    RunOne(sys, s, EndEpoch(l));
    RunActsConcat(sys, s, [EndEpoch(l)], Steps(l, n));
    StepsReach(EpochEnded(sys, l), s, l, epoch + 1, step, n);
  }

  lemma {:induction false} LoopReaches(sys: System, s: Settings, l: LeaseId, perEpoch: nat, epoch: nat, step: nat)
    requires SystemInv(sys, s) && IsAt(sys, l, 1, 0) && 1 <= epoch && (epoch - 1) * perEpoch <= step
    ensures var end := RunActs(sys, s, TrainTo(l, perEpoch, epoch, step)); IsAt(end, l, epoch, step) && SameWorld(sys, end)
    decreases epoch
  {
    hide Runs.Inv, ManifestGood, TrainerGood, RunActs, Steps, IsAt, SystemInv;
    if epoch <= 1 {
      StepsReach(sys, s, l, 1, 0, step);
    } else {
      var done := (epoch - 1) * perEpoch;
      assert (epoch - 2) * perEpoch <= done;
      var before, rest := TrainTo(l, perEpoch, epoch - 1, done), Steps(l, step - done);
      LoopReaches(sys, s, l, perEpoch, epoch - 1, done);
      assert before + [EndEpoch(l)] + rest == before + ([EndEpoch(l)] + rest);
      RunActsConcat(sys, s, before, [EndEpoch(l)] + rest);
      EpochReach(RunActs(sys, s, before), s, l, epoch - 1, done, step - done);
    }
  }

  // --- A save that lands -----------------------------------------------------------------------------------------

  function SavedEntry(sys: System, l: LeaseId, epoch: nat, step: nat, suffix: string): Entry
    requires WellFormed(sys.c) && l in sys.c.leases
  {
    var j := sys.c.leases[l].job;
    Entry(BlobKey(j, epoch, step, suffix), step, epoch, sys.c.jobs[j].world, sys.c.leases[l].epoch, None)
  }

  /** The store with one more checkpoint of a job. */
  function WithEntry(store: Store, j: JobId, e: Entry): Store {
    store[e.key := Blob(e.epoch, e.step)][ManifestKey(j) := Document(Appended(ReadManifest(store, j), e))]
  }

  predicate CanSave(sys: System, l: LeaseId, epoch: nat, step: nat, suffix: string)
    requires WellFormed(sys.c)
  {
    && IsWriter(sys.c, l) && IsUuidText(sys.c.leases[l].job) && IsUuidText(suffix)
    && BlobKey(sys.c.leases[l].job, epoch, step, suffix) !in sys.store
  }

  lemma SaveSteps(sys: System, s: Settings, l: LeaseId, epoch: nat, step: nat, suffix: string)
    requires SystemInv(sys, s) && IsAt(sys, l, epoch, step) && CanSave(sys, l, epoch, step, suffix)
    ensures var a := SaveBegun(sys, l, suffix, None);
      ManifestPut(ManifestGot(BlobPut(a, l, Landed), l, false), l, Landed)
      == sys.(store := WithEntry(sys.store, sys.c.leases[l].job, SavedEntry(sys, l, epoch, step, suffix)))
  {
    hide Runs.Inv, KeyBelongsToJob, BlobName;
    var j, e := sys.c.leases[l].job, SavedEntry(sys, l, epoch, step, suffix);
    assert TrainerGood(sys, l) && ManifestGood(sys, j);
    OwnKeysBelong(j, epoch, step, suffix);
    BlobKeysApart(j, e.key);
    var t := sys.trainers[l];
    var a := SaveBegun(sys, l, suffix, None);
    assert a == WithUpload(sys, l, PuttingBlob(e));
    var b := BlobPut(a, l, Landed);
    assert b == WithUpload(sys.(store := sys.store[e.key := Blob(epoch, step)]), l, ReadingManifest(e));
    var d := ManifestGot(b, l, false);
    assert ReadManifest(b.store, j) == ReadManifest(sys.store, j);
    assert d == WithUpload(b, l, WritingManifest(e, ReadManifest(sys.store, j)));
    assert sys.trainers[l := t] == sys.trainers;
  }

  /** The save of the trainer that may write appends one entry at its position, and changes nothing else. */
  lemma SaveLands(sys: System, s: Settings, l: LeaseId, epoch: nat, step: nat, suffix: string)
    requires SystemInv(sys, s) && IsAt(sys, l, epoch, step) && CanSave(sys, l, epoch, step, suffix)
    ensures RunActs(sys, s, SaveActions(l, suffix))
            == sys.(store := WithEntry(sys.store, sys.c.leases[l].job, SavedEntry(sys, l, epoch, step, suffix)))
  {
    hide Runs.Inv, ManifestGood, TrainerGood, SaveBegun, BlobPut, ManifestGot, ManifestPut, CanSave, WithEntry, IsAt;
    var save := SaveActions(l, suffix);
    SaveSteps(sys, s, l, epoch, step, suffix);
    assert save == [save[0]] + ([save[1]] + ([save[2]] + [save[3]]));
    RunActsConcat(sys, s, [save[0]], [save[1]] + ([save[2]] + [save[3]]));
    RunOne(sys, s, save[0]);
    var a := Act(sys, s, save[0]);
    ActKeeps(sys, s, save[0]);
    RunActsConcat(a, s, [save[1]], [save[2]] + [save[3]]);
    RunOne(a, s, save[1]);
    var b := Act(a, s, save[1]);
    ActKeeps(a, s, save[1]);
    RunActsConcat(b, s, [save[2]], [save[3]]);
    RunOne(b, s, save[2]);
    ActKeeps(b, s, save[2]);
    RunOne(Act(b, s, save[2]), s, save[3]);
  }

  lemma WithEntryLists(store: Store, j: JobId, e: Entry)
    ensures Entries(WithEntry(store, j, e), j) == Entries(store, j) + [e]
    ensures LatestEntry(WithEntry(store, j, e), j) == Some(e)
  {
  }

  /** One more entry keeps a list in order exactly when it is not before the last. */
  lemma InOrderIff(es: seq<Entry>, e: Entry)
    requires InOrder(es) && es != []
    ensures InOrder(es + [e]) <==> NotAfter(es[|es| - 1].epoch, es[|es| - 1].step, e.epoch, e.step)
  {
    assert (es + [e])[|es| - 1] == es[|es| - 1] && (es + [e])[|es|] == e;
    assert forall i | 0 <= i < |es| :: (es + [e])[i] == es[i];
  }

  // --- The missed read ----------------------------------------------------------------------------------------------

  /** A trainer launched for lease `l` whose manifest read fails, trained afresh to a position of its loop,
      earlier saves skipped or lost, and saving there. */
  function MissedRun(l: LeaseId, perEpoch: nat, epoch: nat, step: nat, suffix: string): seq<Action> {
    [Launch(l, true)] + TrainTo(l, perEpoch, epoch, step) + SaveActions(l, suffix)
  }

  lemma LaunchMisses(sys: System, s: Settings, l: LeaseId)
    requires SystemInv(sys, s) && IsWriter(sys.c, l)
    ensures var a := Launched(sys, l, true);
      && SystemInv(a, s) && IsAt(a, l, 1, 0) && a.c == sys.c && a.store == sys.store
      && (LatestEntry(sys.store, sys.c.leases[l].job).Some? ==> !a.clean)
  {
    hide Runs.Inv, ManifestGood, TrainerGood;
    LaunchKeeps(sys, s, l, true);
  }

  lemma MissedRunEnds(sys: System, s: Settings, l: LeaseId, interval: nat, perEpoch: nat, epoch: nat, step: nat,
      suffix: string)
    requires SystemInv(sys, s) && CanSave(sys, l, epoch, step, suffix) && SavesAt(interval, perEpoch, epoch, step)
    ensures var j, end := sys.c.leases[l].job, RunActs(sys, s, MissedRun(l, perEpoch, epoch, step, suffix));
      && end.store == WithEntry(sys.store, j, SavedEntry(sys, l, epoch, step, suffix))
      && (LatestEntry(sys.store, j).Some? ==> !end.clean)
  {
    hide Runs.Inv, ManifestGood, TrainerGood, TrainTo, Launched, SaveActions, WithEntry;
    var launch, train, save := [Launch(l, true)], TrainTo(l, perEpoch, epoch, step), SaveActions(l, suffix);
    RunActsConcat(sys, s, launch + train, save);
    RunActsConcat(sys, s, launch, train);
    RunOne(sys, s, Launch(l, true));
    LaunchMisses(sys, s, l);
    var a := Launched(sys, l, true);
    LoopReaches(a, s, l, perEpoch, epoch, step);
    SaveLands(RunActs(a, s, train), s, l, epoch, step, suffix);
  }

  /** When a missed read puts a job's list out of order: from every state in which no read was missed yet
      and the job has a checkpoint, for every position of the loop at which the first save to land is
      taken, exactly when the checkpoint it missed is after that position. */
  lemma MissedReadGoesBack(sys: System, s: Settings, l: LeaseId, interval: nat, perEpoch: nat, epoch: nat, step: nat,
      suffix: string)
    requires SystemInv(sys, s) && sys.clean && CanSave(sys, l, epoch, step, suffix)
    requires SavesAt(interval, perEpoch, epoch, step) && LatestEntry(sys.store, sys.c.leases[l].job).Some?
    ensures var j, end := sys.c.leases[l].job, RunActs(sys, s, MissedRun(l, perEpoch, epoch, step, suffix));
      var latest := LatestEntry(sys.store, j).value;
      && !end.clean && Entries(end.store, j) == Entries(sys.store, j) + [SavedEntry(sys, l, epoch, step, suffix)]
      && (InOrder(Entries(end.store, j)) <==> NotAfter(latest.epoch, latest.step, epoch, step))
  {
    hide Runs.Inv, ManifestGood, TrainerGood, MissedRun, WithEntry, InOrder, NotAfter, SavesAt;
    var j := sys.c.leases[l].job;
    MissedRunEnds(sys, s, l, interval, perEpoch, epoch, step, suffix);
    WithEntryLists(sys.store, j, SavedEntry(sys, l, epoch, step, suffix));
    OrderedSoFar(sys, s, j);
    LatestIsLast(sys, s, j);
    InOrderIff(Entries(sys.store, j), SavedEntry(sys, l, epoch, step, suffix));
  }

  /** So a missed read is harmless, whichever of the loop's saves is the first to land, if and only if the
      missed checkpoint is not after the first position the loop saves at: `(1, interval)`, or, when an
      epoch is shorter than the interval or there is no interval, the end of the first epoch. */
  lemma HarmlessMiss(latest: Entry, interval: nat, perEpoch: nat)
    ensures var first := FirstSave(interval, perEpoch);
      (forall epoch: nat, step: nat | SavesAt(interval, perEpoch, epoch, step) ::
         NotAfter(latest.epoch, latest.step, epoch, step))
      <==> NotAfter(latest.epoch, latest.step, first.0, first.1)
  {
    var first := FirstSave(interval, perEpoch);
    assert SavesAt(interval, perEpoch, 2, perEpoch);
    FirstSaveIsFirst(interval, perEpoch, 2, perEpoch);
    if NotAfter(latest.epoch, latest.step, first.0, first.1) {
      forall epoch: nat, step: nat | SavesAt(interval, perEpoch, epoch, step)
        ensures NotAfter(latest.epoch, latest.step, epoch, step)
      {
        FirstSaveIsFirst(interval, perEpoch, epoch, step);
      }
    }
  }

  /** Put together, over runs: from every state in which no read was missed yet and the job has a checkpoint,
      every missed run of the loop keeps the list in order if and only if the missed checkpoint is not after
      the first position the loop saves at. The blob suffix is one not yet used at any position. */
  lemma MissedRunsHarmless(sys: System, s: Settings, l: LeaseId, interval: nat, perEpoch: nat, suffix: string)
    requires SystemInv(sys, s) && sys.clean && IsWriter(sys.c, l)
    requires LatestEntry(sys.store, sys.c.leases[l].job).Some?
    requires forall epoch: nat, step: nat :: CanSave(sys, l, epoch, step, suffix)
    ensures var j, first := sys.c.leases[l].job, FirstSave(interval, perEpoch);
      var latest := LatestEntry(sys.store, j).value;
      (forall epoch: nat, step: nat | SavesAt(interval, perEpoch, epoch, step) ::
         InOrder(Entries(RunActs(sys, s, MissedRun(l, perEpoch, epoch, step, suffix)).store, j)))
      <==> NotAfter(latest.epoch, latest.step, first.0, first.1)
  {
    hide Runs.Inv, ManifestGood, TrainerGood, MissedRun, InOrder, NotAfter, SavesAt, FirstSave, CanSave;
    var j, first := sys.c.leases[l].job, FirstSave(interval, perEpoch);
    var latest := LatestEntry(sys.store, j).value;
    forall epoch: nat, step: nat | SavesAt(interval, perEpoch, epoch, step)
      ensures InOrder(Entries(RunActs(sys, s, MissedRun(l, perEpoch, epoch, step, suffix)).store, j))
              <==> NotAfter(latest.epoch, latest.step, epoch, step)
    {
      assert CanSave(sys, l, epoch, step, suffix);
      MissedReadGoesBack(sys, s, l, interval, perEpoch, epoch, step, suffix);
    }
    HarmlessMiss(latest, interval, perEpoch);
  }

  // --- A run that goes backwards -----------------------------------------------------------------------------------

  const JOB: JobId := "a"

  lemma ReachedMore(sys: System, s: Settings, actions: seq<Action>)
    requires Reached(sys, s)
    ensures SystemInv(sys, s) && Reached(RunActs(sys, s, actions), s)
  {
    hide Runs.Inv, ManifestGood, TrainerGood, Act;
    StartInv(s);
    var before: seq<Action> :| sys == RunActs(START, s, before);
    RunActsConcat(START, s, before, actions);
  }

  lemma ReachedNext(sys: System, s: Settings, a: Action)
    requires Reached(sys, s)
    ensures SystemInv(sys, s) && SystemInv(Act(sys, s, a), s) && Reached(Act(sys, s, a), s)
  {
    hide Runs.Inv, ManifestGood, TrainerGood, Act;
    ReachedMore(sys, s, [a]);
    RunOne(sys, s, a);
  }

  /** The one-rank job `JOB` waits to be placed and node 0 is known. */
  predicate Waiting(c: Cluster) {
    && WellFormed(c) && JOB in c.jobs && c.jobs[JOB].world == 1 && 0 in c.nodes
    && c.jobs[JOB].state in {JobState.Queued, Reassigned}
  }

  /** Lease `l` holds `JOB`, until `deadline`. */
  predicate Holding(c: Cluster, l: LeaseId, deadline: int) {
    && WellFormed(c) && IsWriter(c, l) && c.leases[l].job == JOB && c.leases[l].expiresAt == deadline
    && c.jobs[JOB].world == 1 && c.jobs[JOB].state == Leased && 0 in c.nodes
  }

  lemma OneRank(c: Cluster, l: LeaseId)
    requires Waiting(c) && l !in c.leases
    ensures CanPlace(c, JOB, [0], [l])
  {
  }

  lemma Begins(c: Cluster, s: Settings, l: LeaseId, now: int)
    requires Waiting(c) && l !in c.leases
    ensures var d := Next(c, s, PlaceJob(JOB, [0], [l], now));
      WellFormed(d) && Holding(Next(d, s, Claim(0, l, now)), l, now + s.ttl)
    ensures Next(Next(c, s, PlaceJob(JOB, [0], [l], now)), s, Claim(0, l, now)).leases.Keys == c.leases.Keys + {l}
  {
    hide Waiting, Offered, Holding, Place, ClaimSlot;
    Offers(c, s, l, now);
    Takes(Next(c, s, PlaceJob(JOB, [0], [l], now)), s, l, now);
  }

  /** Lease `l` is the one offer of `JOB`, to node 0. */
  predicate Offered(c: Cluster, l: LeaseId) {
    && WellFormed(c) && JOB in c.jobs && c.jobs[JOB].state == Scheduled && c.jobs[JOB].world == 1 && 0 in c.nodes
    && l in c.leases && c.leases[l].job == JOB && c.leases[l].node == 0 && c.leases[l].state == Pending
    && c.leases[l].rank == 0 && IsCurrent(c, l)
  }

  lemma Offers(c: Cluster, s: Settings, l: LeaseId, now: int)
    requires Waiting(c) && l !in c.leases
    ensures WellFormed(c)
    ensures var d := Next(c, s, PlaceJob(JOB, [0], [l], now)); Offered(d, l) && d.leases.Keys == c.leases.Keys + {l}
  {
    hide IndexOf, CanPlace;
    var d := Next(c, s, PlaceJob(JOB, [0], [l], now));
    assert CanPlace(c, JOB, [0], [l]) by { OneRank(c, l); }
    assert IndexOf([l], l) == 0;
    assert d.leases[l] == NewSlot(JOB, 0, c.jobs[JOB].epoch + 1, 0, s, now);
  }

  lemma Takes(d: Cluster, s: Settings, l: LeaseId, now: int)
    requires Offered(d, l)
    ensures WellFormed(d)
    ensures var e := Next(d, s, Claim(0, l, now)); Holding(e, l, now + s.ttl) && e.leases.Keys == d.leases.Keys
  {
  }

  lemma Lapses(c: Cluster, s: Settings, l: LeaseId, deadline: int)
    requires Holding(c, l, deadline)
    ensures var d := Next(c, s, SweepExpired({}, deadline + 1)); Waiting(d) && d.leases.Keys == c.leases.Keys
  {
    var overdue := Overdue(c, {}, deadline + 1);
    assert l in InState(c, overdue, Active);
    assert JOB in Doomed(c, InState(c, overdue, Active) + InState(c, overdue, Pending));
  }

  /** Some reachable state in which `JOB` has never been tried. */
  lemma Submitted(s: Settings) returns (sys: System)
    ensures Reached(sys, s) && Waiting(sys.c) && sys.c.leases == map[] && sys.store == map[] && sys.clean
  {
    hide Runs.Inv, ManifestGood, TrainerGood, SystemInv;
    StartInv(s);
    assert RunActs(START, s, []) == START;
    ReachedNext(START, s, Protocol(CreateJob(JOB, 1)));
    var a := Act(START, s, Protocol(CreateJob(JOB, 1)));
    ReachedNext(a, s, Protocol(RegisterNode(0)));
    sys := Act(a, s, Protocol(RegisterNode(0)));
  }

  /** From there, or after a lapsed attempt, a new lease takes the job. */
  lemma Taken(sys: System, s: Settings, l: LeaseId, now: int) returns (end: System)
    requires Reached(sys, s) && Waiting(sys.c) && l !in sys.c.leases
    ensures Reached(end, s) && Holding(end.c, l, now + s.ttl) && end.c.leases.Keys == sys.c.leases.Keys + {l}
    ensures end.store == sys.store && end.clean == sys.clean
  {
    hide Runs.Inv, ManifestGood, TrainerGood, SystemInv, Next;
    Begins(sys.c, s, l, now);
    ReachedNext(sys, s, Protocol(PlaceJob(JOB, [0], [l], now)));
    var a := Act(sys, s, Protocol(PlaceJob(JOB, [0], [l], now)));
    ReachedNext(a, s, Protocol(Claim(0, l, now)));
    end := Act(a, s, Protocol(Claim(0, l, now)));
  }

  lemma KeysApart(j: JobId, epoch: nat, step: nat, epoch': nat, step': nat, x: string, y: string)
    requires |x| == 1 && |y| == 1 && x != y
    ensures BlobKey(j, epoch, step, x) != BlobKey(j, epoch', step', y)
    ensures BlobKey(j, epoch, step, x) != ManifestKey(j)
  {
    var a, b := BlobKey(j, epoch, step, x), BlobKey(j, epoch', step', y);
    assert a[|a| - 4] == x[0] && b[|b| - 4] == y[0];
    assert x == [x[0]] && y == [y[0]];
    assert a[0] == 'c' && ManifestKey(j)[0] == 'm';
  }

  /** A trainer's next step and the save after it. */
  lemma StepAndSave(sys: System, s: Settings, l: LeaseId, epoch: nat, step: nat, suffix: string) returns (end: System)
    requires Reached(sys, s) && SystemInv(sys, s) && IsAt(sys, l, epoch, step) && CanSave(sys, l, epoch, step + 1, suffix)
    ensures Reached(end, s) && SystemInv(end, s) && IsAt(end, l, epoch, step + 1) && end.c == sys.c && end.clean == sys.clean
    ensures end.store == WithEntry(sys.store, sys.c.leases[l].job, SavedEntry(sys, l, epoch, step + 1, suffix))
  {
    hide Runs.Inv, ManifestGood, TrainerGood, Act, WithEntry;
    ReachedMore(sys, s, Steps(l, 1));
    StepsReach(sys, s, l, epoch, step, 1);
    var mid := RunActs(sys, s, Steps(l, 1));
    SaveLands(mid, s, l, epoch, step + 1, suffix);
    ReachedMore(mid, s, SaveActions(l, suffix));
    end := RunActs(mid, s, SaveActions(l, suffix));
  }

  lemma HoldingMeans(c: Cluster, l: LeaseId, deadline: int)
    requires Holding(c, l, deadline)
    ensures WellFormed(c) && IsWriter(c, l) && c.leases[l].job == JOB && IsUuidText(JOB)
  {
  }

  /** A first attempt's trainer finds no manifest. */
  lemma Started(sys: System, s: Settings, l: LeaseId, deadline: int) returns (end: System)
    requires Reached(sys, s) && Holding(sys.c, l, deadline) && sys.store == map[] && sys.clean
    ensures Reached(end, s) && SystemInv(end, s) && IsAt(end, l, 1, 0)
    ensures end.c == sys.c && end.store == map[] && end.clean
  {
    hide Runs.Inv, ManifestGood, TrainerGood, SystemInv;
    HoldingMeans(sys.c, l, deadline);
    ReachedNext(sys, s, Launch(l, false));
    end := Launched(sys, l, false);
  }

  /** The first attempt: launched, two steps, a save after each. */
  lemma TwoSaves(sys: System, s: Settings) returns (end: System)
    requires Reached(sys, s) && Holding(sys.c, 0, s.ttl) && sys.store == map[] && sys.clean
    ensures Reached(end, s) && SystemInv(end, s) && end.c == sys.c && end.clean
    ensures BlobKey(JOB, 1, 1, "c") !in end.store
    ensures LatestEntry(end.store, JOB).Some?
    ensures LatestEntry(end.store, JOB).value.epoch == 1 && LatestEntry(end.store, JOB).value.step == 2
  {
    hide Runs.Inv, ManifestGood, TrainerGood, Act, BlobKey, ManifestKey, SystemInv;
    HoldingMeans(sys.c, 0, s.ttl);
    var launched := Started(sys, s, 0, s.ttl);
    var first := StepAndSave(launched, s, 0, 1, 0, "a");
    KeysApart(JOB, 1, 2, 1, 1, "b", "a");
    var second := StepAndSave(first, s, 0, 1, 1, "b");
    KeysApart(JOB, 1, 1, 1, 1, "c", "a");
    KeysApart(JOB, 1, 1, 1, 2, "c", "b");
    WithEntryLists(first.store, JOB, SavedEntry(first, 0, 1, 2, "b"));
    end := second;
  }

  /** The attempt's lease lapses and another takes the job. */
  lemma TakenAgain(sys: System, s: Settings, deadline: int) returns (end: System)
    requires Reached(sys, s) && Holding(sys.c, 0, deadline) && sys.c.leases.Keys == {0}
    ensures Reached(end, s) && Holding(end.c, 1, deadline + 1 + s.ttl) && end.store == sys.store && end.clean == sys.clean
  {
    hide Runs.Inv, ManifestGood, TrainerGood, SystemInv, Next, Holding, Waiting;
    HoldingMeans(sys.c, 0, deadline);
    Lapses(sys.c, s, 0, deadline);
    ReachedNext(sys, s, Protocol(SweepExpired({}, deadline + 1)));
    end := Taken(sys.(c := Next(sys.c, s, SweepExpired({}, deadline + 1))), s, 1, deadline + 1);
  }

  /** The list of a reachable state can be out of order, under every setting: an attempt saving at every step
      stores two checkpoints and lapses; the next one misses the manifest and saves after its first step. */
  lemma GoesBackwards(s: Settings) returns (sys: System)
    ensures Reached(sys, s) && !InOrder(Entries(sys.store, JOB))
  {
    hide *;
    var taken := FirstTaken(s);
    var saved := TwoSaves(taken, s);
    var again := TakenAgain(saved, s, s.ttl);
    sys := MissedAgain(again, s, s.ttl + 1 + s.ttl);
  }

  lemma FirstTaken(s: Settings) returns (end: System)
    ensures Reached(end, s) && Holding(end.c, 0, s.ttl) && end.c.leases.Keys == {0} && end.store == map[] && end.clean
  {
    hide Holding, Waiting, Reached;
    var start := Submitted(s);
    end := Taken(start, s, 0, 0);
  }

  lemma MissedAgain(sys: System, s: Settings, deadline: int) returns (end: System)
    requires Reached(sys, s) && Holding(sys.c, 1, deadline) && sys.clean
    requires BlobKey(JOB, 1, 1, "c") !in sys.store && LatestEntry(sys.store, JOB).Some?
    requires LatestEntry(sys.store, JOB).value.epoch == 1 && LatestEntry(sys.store, JOB).value.step == 2
    ensures Reached(end, s) && !InOrder(Entries(end.store, JOB))
  {
    hide Runs.Inv, ManifestGood, TrainerGood, SystemInv, Holding, MissedRun, InOrder;
    HoldingMeans(sys.c, 1, deadline);
    ReachedMore(sys, s, MissedRun(1, 2, 1, 1, "c"));
    MissedReadGoesBack(sys, s, 1, 1, 2, 1, 1, "c");
    end := RunActs(sys, s, MissedRun(1, 2, 1, 1, "c"));
  }
}
