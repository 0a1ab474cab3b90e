/** Checkpoint saving and resuming as trainers really do it (trainer/checkpoint.py, trainer/train.py): an
    unlocked read-modify-write of a manifest over a store that checks the lease fence on every request,
    any number of trainers running at once, interleaved with every lease transaction. */
module Checkpoints {
  import opened Model
  import opened LeaseProtocol
  import opened CohortShape
  import opened Evolution
  import opened CheckpointAccess
  import Runs

  // --- The store ---------------------------------------------------------------------------------------------

  /** One manifest entry; `epoch` is the epoch to resume into. */
  datatype Entry = Entry(key: string, step: nat, epoch: nat, worldSize: nat, leaseEpoch: nat, loss: Option<real>)

  datatype Manifest = Manifest(checkpoints: seq<Entry>, latest: Option<Entry>)

  /** A stored object: a serialised checkpoint with the position saved inside it, or a manifest. */
  datatype Object = Blob(epoch: nat, step: nat) | Document(manifest: Manifest)

  type Store = map<string, Object>

  /** The manifest of a job, or None when there is none yet. */
  function ReadManifest(store: Store, job: JobId): Option<Manifest> {
    var key := ManifestKey(job);
    if key in store && store[key].Document? then Some(store[key].manifest) else None
  }

  /** Whatever is stored under the manifest key parses as a manifest. */
  predicate Readable(store: Store, job: JobId) {
    ManifestKey(job) in store ==> store[ManifestKey(job)].Document?
  }

  function Entries(store: Store, job: JobId): seq<Entry> {
    var m := ReadManifest(store, job);
    if m.Some? then m.value.checkpoints else []
  }

  function LatestEntry(store: Store, job: JobId): Option<Entry> {
    var m := ReadManifest(store, job);
    if m.Some? then m.value.latest else None
  }

  /** The manifest written back after a save: the entry appended to whatever was read, and made latest. */
  function Appended(read: Option<Manifest>, e: Entry): Manifest {
    Manifest((if read.Some? then read.value.checkpoints else []) + [e], Some(e))
  }

  // --- Trainers ----------------------------------------------------------------------------------------------

  /** Where the one background upload of a trainer is. */
  datatype Upload =
    | Idle
    | PuttingBlob(entry: Entry)
    | ReadingManifest(entry: Entry)
    | WritingManifest(entry: Entry, read: Option<Manifest>)

  /** A trainer has read its resume entry and is fetching the blob, or it trains at `epoch` and `step`. */
  datatype Phase = Restoring(entry: Entry) | Training(epoch: nat, step: nat)

  datatype Trainer = Trainer(job: JobId, phase: Phase, upload: Upload)

  /** The database, the store, the running trainers, and two records of the past: which epochs of which
      job were run to their end, and whether every trainer that could write found the checkpoint it had to
      resume from. */
  datatype System = System(
    c: Cluster,
    store: Store,
    trainers: map<LeaseId, Trainer>,
    ran: set<(JobId, nat)>,
    clean: bool)

  /** What the network does to a write: it lands; it lands but the trainer sees an error; it does not land. */
  datatype Fault = Landed | LandedUnseen | Dropped

  datatype Action =
    | Protocol(step: Step)
    | Launch(lease: LeaseId, readFails: bool)
    | Restore(lease: LeaseId, readFails: bool)
    | TrainStep(lease: LeaseId)
    | EndEpoch(lease: LeaseId)
    | BeginSave(lease: LeaseId, suffix: string, loss: Option<real>)
    | PutBlob(lease: LeaseId, fault: Fault)
    | GetManifest(lease: LeaseId, readFails: bool)
    | PutManifest(lease: LeaseId, fault: Fault)

  /** Whether the orchestrator lets lease `l` of `job` read or write `key` right now. */
  predicate Allowed(c: Cluster, l: LeaseId, job: JobId, key: string, write: bool)
    requires WellFormed(c)
  {
    Authorize(c, l, job, l, key, write) == None
  }

  /** The ACTIVE rank-0 lease of a job's current attempt: the only one whose writes are let through. */
  predicate IsWriter(c: Cluster, l: LeaseId)
    requires WellFormed(c)
  {
    l in c.leases && IsCurrent(c, l) && c.leases[l].state == Active && c.leases[l].rank == 0
  }

  /** A trainer process starts (or is restarted) for a lease its agent has claimed: it reads the manifest,
      and if that fails for any reason it starts fresh. The run stops being clean when that makes the one
      trainer that may write miss a checkpoint that is there. */
  function Launched(sys: System, l: LeaseId, readFails: bool): System
    requires WellFormed(sys.c)
  {
    if l !in sys.c.leases || sys.c.leases[l].state == Pending then sys
    else
      var j := sys.c.leases[l].job;
      var allowed := Allowed(sys.c, l, j, ManifestKey(j), false);
      var entry := if allowed && !readFails then LatestEntry(sys.store, j) else None;
      var phase := if entry.Some? then Restoring(entry.value) else Training(1, 0);
      sys.(trainers := sys.trainers[l := Trainer(j, phase, Idle)],
      clean := sys.clean && (IsWriter(sys.c, l) ==> entry == LatestEntry(sys.store, j)))
  }

  /** The blob is fetched and the position restored from the entry; if the fetch fails the trainer dies. */
  function Restored(sys: System, l: LeaseId, readFails: bool): System
    requires WellFormed(sys.c)
  {
    if l !in sys.trainers || !sys.trainers[l].phase.Restoring? then sys
    else
      var t := sys.trainers[l];
      var e := t.phase.entry;
      if Allowed(sys.c, l, t.job, e.key, false) && !readFails && e.key in sys.store
      then sys.(trainers := sys.trainers[l := t.(phase := Training(e.epoch, e.step))])
      else sys.(trainers := sys.trainers - {l})
  }

  predicate IsTraining(sys: System, l: LeaseId) {
    l in sys.trainers && sys.trainers[l].phase.Training?
  }

  function Stepped(sys: System, l: LeaseId): System {
    if !IsTraining(sys, l) then sys
    else
      var t := sys.trainers[l];
      sys.(trainers := sys.trainers[l := t.(phase := Training(t.phase.epoch, t.phase.step + 1))])
  }

  function EpochEnded(sys: System, l: LeaseId): System {
    if !IsTraining(sys, l) then sys
    else
      var t := sys.trainers[l];
      sys.(trainers := sys.trainers[l := t.(phase := Training(t.phase.epoch + 1, t.phase.step))],
      ran := sys.ran + {(t.job, t.phase.epoch)})
  }

  /** A snapshot is taken at the trainer's position and handed to the uploader, if that is free. Right
      after an epoch's end the position already names the next epoch. */
  function SaveBegun(sys: System, l: LeaseId, suffix: string, loss: Option<real>): System
    requires WellFormed(sys.c)
  {
    if !IsTraining(sys, l) || sys.trainers[l].upload != Idle || l !in sys.c.leases then sys
    else
      var t := sys.trainers[l];
      var x := sys.c.leases[l];
      var e := Entry(BlobKey(t.job, t.phase.epoch, t.phase.step, suffix), t.phase.step, t.phase.epoch,
                     sys.c.jobs[x.job].world, x.epoch, loss);
      sys.(trainers := sys.trainers[l := t.(upload := PuttingBlob(e))])
  }

  function WithUpload(sys: System, l: LeaseId, u: Upload): System
    requires l in sys.trainers
  {
    sys.(trainers := sys.trainers[l := sys.trainers[l].(upload := u)])
  }

  /** First write of a save. Its key carries a fresh random suffix, so it names no stored object. */
  function BlobPut(sys: System, l: LeaseId, fault: Fault): System
    requires WellFormed(sys.c)
  {
    if l !in sys.trainers || !sys.trainers[l].upload.PuttingBlob? then sys
    else
      var t, e := sys.trainers[l], sys.trainers[l].upload.entry;
      if Allowed(sys.c, l, t.job, e.key, true) && fault != Dropped && e.key !in sys.store then
        WithUpload(sys.(store := sys.store[e.key := Blob(e.epoch, e.step)]), l,
                   if fault == Landed then ReadingManifest(e) else Idle)
      else
        WithUpload(sys, l, Idle)
  }

  function ManifestGot(sys: System, l: LeaseId, readFails: bool): System
    requires WellFormed(sys.c)
  {
    if l !in sys.trainers || !sys.trainers[l].upload.ReadingManifest? then sys
    else
      var t := sys.trainers[l];
      if Allowed(sys.c, l, t.job, ManifestKey(t.job), false) && !readFails && Readable(sys.store, t.job)
      then WithUpload(sys, l, WritingManifest(t.upload.entry, ReadManifest(sys.store, t.job)))
      else WithUpload(sys, l, Idle)
  }

  function ManifestPut(sys: System, l: LeaseId, fault: Fault): System
    requires WellFormed(sys.c)
  {
    if l !in sys.trainers || !sys.trainers[l].upload.WritingManifest? then sys
    else
      var t := sys.trainers[l];
      var key := ManifestKey(t.job);
      if Allowed(sys.c, l, t.job, key, true) && fault != Dropped
      then WithUpload(sys.(store := sys.store[key := Document(Appended(t.upload.read, t.upload.entry))]), l, Idle)
      else WithUpload(sys, l, Idle)
  }

  function Act(sys: System, s: Settings, a: Action): System
    requires WellFormed(sys.c)
  {
    match a
    case Protocol(step) => sys.(c := Next(sys.c, s, step))
    case Launch(l, fails) => Launched(sys, l, fails)
    case Restore(l, fails) => Restored(sys, l, fails)
    case TrainStep(l) => Stepped(sys, l)
    case EndEpoch(l) => EpochEnded(sys, l)
    case BeginSave(l, suffix, loss) => SaveBegun(sys, l, suffix, loss)
    case PutBlob(l, fault) => BlobPut(sys, l, fault)
    case GetManifest(l, fails) => ManifestGot(sys, l, fails)
    case PutManifest(l, fault) => ManifestPut(sys, l, fault)
  }

  // --- The invariant -------------------------------------------------------------------------------------------

  /** Resume positions compare by epoch first, then step. */
  predicate NotAfter(epoch: nat, step: nat, epoch': nat, step': nat) {
    epoch < epoch' || (epoch == epoch' && step <= step')
  }

  /** Every epoch before `epoch` was run to its end by some attempt of `j`. */
  ghost predicate RanBelow(ran: set<(JobId, nat)>, j: JobId, epoch: nat) {
    1 <= epoch && forall k: nat | 1 <= k < epoch :: (j, k) in ran
  }

  /** The entry names a stored blob whose own epoch and step are the entry's. */
  predicate Stored(store: Store, e: Entry) {
    e.key in store && store[e.key] == Blob(e.epoch, e.step)
  }

  ghost predicate EntryGood(sys: System, j: JobId, e: Entry) {
    Stored(sys.store, e) && RanBelow(sys.ran, j, e.epoch) && KeyBelongsToJob(e.key, j)
  }

  predicate InOrder(es: seq<Entry>) {
    forall i | 0 < i < |es| :: NotAfter(es[i - 1].epoch, es[i - 1].step, es[i].epoch, es[i].step)
  }

  ghost predicate ManifestGood(sys: System, j: JobId) {
    ManifestKey(j) in sys.store ==>
      && sys.store[ManifestKey(j)].Document?
      && var m := sys.store[ManifestKey(j)].manifest;
      && m.checkpoints != [] && m.latest == Some(m.checkpoints[|m.checkpoints| - 1])
      && (forall e | e in m.checkpoints :: EntryGood(sys, j, e))
      && (sys.clean ==> InOrder(m.checkpoints))
  }

  ghost predicate UploadGood(sys: System, j: JobId, u: Upload) {
    match u
    case Idle => true
    case PuttingBlob(e) => RanBelow(sys.ran, j, e.epoch) && BlobPrefix(j) <= e.key
    case ReadingManifest(e) => EntryGood(sys, j, e)
    case WritingManifest(e, _) => EntryGood(sys, j, e)
  }

  ghost predicate PhaseGood(sys: System, j: JobId, p: Phase) {
    match p
    case Restoring(e) => EntryGood(sys, j, e)
    case Training(epoch, _) => RanBelow(sys.ran, j, epoch)
  }

  /** The latest stored position is not after the position `(epoch, step)`. */
  predicate LatestNotAfter(store: Store, j: JobId, epoch: nat, step: nat) {
    var latest := LatestEntry(store, j);
    latest.Some? ==> NotAfter(latest.value.epoch, latest.value.step, epoch, step)
  }

  function PhaseEpoch(p: Phase): nat {
    if p.Restoring? then p.entry.epoch else p.epoch
  }

  function PhaseStep(p: Phase): nat {
    if p.Restoring? then p.entry.step else p.step
  }

  /** latest <= the entry being uploaded <= the trainer's own position. */
  predicate Ahead(store: Store, t: Trainer) {
    && LatestNotAfter(store, t.job, PhaseEpoch(t.phase), PhaseStep(t.phase))
    && (t.upload != Idle ==>
          && LatestNotAfter(store, t.job, t.upload.entry.epoch, t.upload.entry.step)
          && NotAfter(t.upload.entry.epoch, t.upload.entry.step, PhaseEpoch(t.phase), PhaseStep(t.phase)))
  }

  /** What the sole writer can rely on: the manifest it read is the manifest still stored, and, unless a
      manifest read has ever failed, it is ahead of everything stored. */
  predicate WriterGood(store: Store, clean: bool, t: Trainer) {
    && (t.upload.WritingManifest? ==> t.upload.read == ReadManifest(store, t.job))
    && (clean ==> Ahead(store, t))
  }

  ghost predicate TrainerGood(sys: System, l: LeaseId)
    requires WellFormed(sys.c) && l in sys.trainers
  {
    var t := sys.trainers[l];
    && l in sys.c.leases && sys.c.leases[l].state != Pending && sys.c.leases[l].job == t.job
    && PhaseGood(sys, t.job, t.phase)
    && UploadGood(sys, t.job, t.upload)
    && (IsWriter(sys.c, l) ==> WriterGood(sys.store, sys.clean, t))
  }

  ghost predicate SystemInv(sys: System, s: Settings) {
    && WellFormed(sys.c) && Runs.Inv(sys.c, s)
    && (forall j: JobId {:trigger ManifestGood(sys, j)} :: ManifestGood(sys, j))
    && (forall l {:trigger TrainerGood(sys, l)} | l in sys.trainers :: TrainerGood(sys, l))
  }

  const START := System(EMPTY, map[], map[], {}, true)

  lemma StartInv(s: Settings)
    ensures SystemInv(START, s)
  {
    Runs.InitInv(s);
  }

  // --- Why it is kept ------------------------------------------------------------------------------------------------

  /** A claimed lease that may write after a lease transaction could write before it. */
  lemma WriterWasWriter(c: Cluster, d: Cluster, l: LeaseId)
    requires WellFormed(c) && WellFormed(d) && Evolves(c, d)
    requires l in c.leases && c.leases[l].state != Pending && c.leases[l].epoch <= c.jobs[c.leases[l].job].epoch
    requires IsWriter(d, l)
    ensures IsWriter(c, l)
  {
    assert LeaseEvolves(c.leases[l], d.leases[l]) && JobEvolves(c.jobs[c.leases[l].job], d.jobs[c.leases[l].job]);
  }

  lemma EpochsReached(sys: System, s: Settings)
    requires SystemInv(sys, s)
    ensures forall l | l in sys.c.leases :: sys.c.leases[l].epoch <= sys.c.jobs[sys.c.leases[l].job].epoch
  {
    hide ManifestGood, TrainerGood;
  }

  lemma TrainerOutlives(sys: System, s: Settings, d: Cluster, l: LeaseId)
    requires SystemInv(sys, s) && WellFormed(d) && Evolves(sys.c, d) && l in sys.trainers
    ensures TrainerGood(sys.(c := d), l)
  {
    EpochsReached(sys, s);
    hide Runs.Inv, ManifestGood, PhaseGood, UploadGood, WriterGood;
    assert TrainerGood(sys, l);
    assert LeaseEvolves(sys.c.leases[l], d.leases[l]);
    if IsWriter(d, l) {
      WriterWasWriter(sys.c, d, l);
    }
    SameTrainer(sys, d, l);
  }

  lemma SameTrainer(sys: System, d: Cluster, l: LeaseId)
    requires WellFormed(sys.c) && WellFormed(d) && l in sys.trainers && TrainerGood(sys, l)
    requires l in d.leases && LeaseEvolves(sys.c.leases[l], d.leases[l]) && (IsWriter(d, l) ==> IsWriter(sys.c, l))
    ensures TrainerGood(sys.(c := d), l)
  {
    hide WriterGood;
  }

  lemma ProtocolKeeps(sys: System, s: Settings, step: Step)
    requires SystemInv(sys, s)
    ensures SystemInv(sys.(c := Next(sys.c, s, step)), s)
  {
    hide Next, Evolves, Shape, TrainerGood;
    var sys' := sys.(c := Next(sys.c, s, step));
    Runs.StepIsGood(sys.c, s, step);
    forall j: JobId
      ensures ManifestGood(sys', j)
    {
      assert ManifestGood(sys, j);
    }
    forall l | l in sys'.trainers
      ensures TrainerGood(sys', l)
    {
      TrainerOutlives(sys, s, sys'.c, l);
    }
  }

  lemma ManifestKeysDiffer(i: JobId, j: JobId)
    requires i != j
    ensures ManifestKey(i) != ManifestKey(j)
  {
    assert i == ManifestKey(i)[10..|ManifestKey(i)| - 5];
    assert j == ManifestKey(j)[10..|ManifestKey(j)| - 5];
  }

  /** `store'` keeps every object of `store` and adds no manifest. */
  ghost predicate Grows(store: Store, store': Store) {
    && (forall k | k in store :: k in store' && store'[k] == store[k])
    && (forall j: JobId {:trigger ManifestKey(j)} | ManifestKey(j) in store' :: ManifestKey(j) in store)
  }

  /** Trainers coming, going and moving on keep the invariant, whatever blobs appear meanwhile. */
  lemma TrainersKeep(sys: System, sys': System, s: Settings)
    requires SystemInv(sys, s) && sys'.c == sys.c && Grows(sys.store, sys'.store) && sys.ran <= sys'.ran
    requires sys'.clean ==> sys.clean
    requires forall l | l in sys'.trainers && (l in sys.trainers ==> sys'.trainers[l] != sys.trainers[l]) ::
               TrainerGood(sys', l)
    ensures SystemInv(sys', s)
  {
    hide Runs.Inv, KeyBelongsToJob, InOrder, ManifestKey;
    forall j: JobId
      ensures ManifestGood(sys', j)
    {
      assert ManifestGood(sys, j);
    }
    forall l | l in sys'.trainers
      ensures TrainerGood(sys', l)
    {
      if l in sys.trainers && sys'.trainers[l] == sys.trainers[l] {
        assert TrainerGood(sys, l);
        var j := sys.trainers[l].job;
        assert ManifestKey(j) in sys'.store <==> ManifestKey(j) in sys.store;
      }
    }
  }

  lemma LatestIsGood(sys: System, s: Settings, j: JobId)
    requires SystemInv(sys, s) && LatestEntry(sys.store, j).Some?
    ensures EntryGood(sys, j, LatestEntry(sys.store, j).value)
  {
    assert ManifestGood(sys, j);
    var m := sys.store[ManifestKey(j)].manifest;
    assert m.checkpoints[|m.checkpoints| - 1] in m.checkpoints;
  }

  lemma LaunchKeeps(sys: System, s: Settings, l: LeaseId, readFails: bool)
    requires SystemInv(sys, s)
    ensures SystemInv(Launched(sys, l, readFails), s)
  {
    var sys' := Launched(sys, l, readFails);
    if l in sys.c.leases && sys.c.leases[l].state != Pending {
      var j := sys.c.leases[l].job;
      if LatestEntry(sys.store, j).Some? {
        LatestIsGood(sys, s, j);
      }
      assert TrainerGood(sys', l);
      TrainersKeep(sys, sys', s);
    }
  }


  lemma ManifestGotKeeps(sys: System, s: Settings, l: LeaseId, readFails: bool)
    requires SystemInv(sys, s)
    ensures SystemInv(ManifestGot(sys, l, readFails), s)
  {
    hide Runs.Inv, KeyBelongsToJob, ManifestKey, RanBelow, ManifestGood;
    var sys' := ManifestGot(sys, l, readFails);
    if l in sys.trainers && sys.trainers[l].upload.ReadingManifest? {
      assert TrainerGood(sys, l);
      assert TrainerGood(sys', l);
    }
    TrainersKeep(sys, sys', s);
  }

  lemma SaveBegunKeeps(sys: System, s: Settings, l: LeaseId, suffix: string, loss: Option<real>)
    requires SystemInv(sys, s)
    ensures SystemInv(SaveBegun(sys, l, suffix, loss), s)
  {
    hide Runs.Inv, BlobName;
    var sys' := SaveBegun(sys, l, suffix, loss);
    if l in sys.trainers {
      assert TrainerGood(sys, l);
      assert TrainerGood(sys', l);
    }
    TrainersKeep(sys, sys', s);
  }

  lemma RestoredKeeps(sys: System, s: Settings, l: LeaseId, readFails: bool)
    requires SystemInv(sys, s)
    ensures SystemInv(Restored(sys, l, readFails), s)
  {
    hide Runs.Inv, Allowed, ManifestKey, ManifestGood;
    var sys' := Restored(sys, l, readFails);
    if l in sys'.trainers {
      assert TrainerGood(sys, l);
      assert TrainerGood(sys', l);
    }
    TrainersKeep(sys, sys', s);
  }

  lemma SteppedKeeps(sys: System, s: Settings, l: LeaseId)
    requires SystemInv(sys, s)
    ensures SystemInv(Stepped(sys, l), s)
  {
    hide Runs.Inv, Allowed, ManifestKey, ManifestGood;
    if l in sys.trainers {
      assert TrainerGood(sys, l);
      assert TrainerGood(Stepped(sys, l), l);
    }
    TrainersKeep(sys, Stepped(sys, l), s);
  }

  lemma EpochEndedKeeps(sys: System, s: Settings, l: LeaseId)
    requires SystemInv(sys, s)
    ensures SystemInv(EpochEnded(sys, l), s)
  {
    hide Runs.Inv, Allowed, ManifestKey, ManifestGood;
    if l in sys.trainers {
      assert TrainerGood(sys, l);
      assert TrainerGood(EpochEnded(sys, l), l);
    }
    TrainersKeep(sys, EpochEnded(sys, l), s);
  }

  lemma BlobKeysApart(j: JobId, key: string)
    requires BlobPrefix(j) <= key
    ensures forall i: JobId {:trigger ManifestKey(i)} :: ManifestKey(i) != key
  {
    assert key[0] == BlobPrefix(j)[0];
    assert forall i: JobId {:trigger ManifestKey(i)} :: ManifestKey(i)[0] != key[0];
  }

  /** Whatever is allowed is one of the job's own keys. */
  lemma AllowedKey(c: Cluster, l: LeaseId, j: JobId, key: string, write: bool)
    requires WellFormed(c) && Allowed(c, l, j, key, write)
    ensures KeyBelongsToJob(key, j)
  {
  }

  lemma BlobPutKeeps(sys: System, s: Settings, l: LeaseId, fault: Fault)
    requires SystemInv(sys, s)
    ensures SystemInv(BlobPut(sys, l, fault), s)
  {
    hide Runs.Inv, ManifestKey, Allowed, ManifestGood, KeyBelongsToJob;
    var sys' := BlobPut(sys, l, fault);
    if l in sys.trainers && sys.trainers[l].upload.PuttingBlob? {
      var t := sys.trainers[l];
      assert TrainerGood(sys, l);
      BlobKeysApart(t.job, t.upload.entry.key);
      if Allowed(sys.c, l, t.job, t.upload.entry.key, true) {
        AllowedKey(sys.c, l, t.job, t.upload.entry.key, true);
      }
      assert ManifestKey(t.job) in sys'.store <==> ManifestKey(t.job) in sys.store;
      assert TrainerGood(sys', l);
      TrainersKeep(sys, sys', s);
    }
  }

  /** A manifest write that the store lets through appends its entry to the manifest as it stands. */
  lemma LandedAppends(sys: System, s: Settings, l: LeaseId)
    requires SystemInv(sys, s) && l in sys.trainers && sys.trainers[l].upload.WritingManifest?
    requires Allowed(sys.c, l, sys.trainers[l].job, ManifestKey(sys.trainers[l].job), true)
    ensures var t := sys.trainers[l];
      && t.upload.read == ReadManifest(sys.store, t.job)
      && Appended(t.upload.read, t.upload.entry).checkpoints == Entries(sys.store, t.job) + [t.upload.entry]
  {
    assert TrainerGood(sys, l);
  }

  /** Storing a manifest keeps every checkpoint that was stored. */
  lemma EntryStays(sys: System, sys': System, s: Settings, j: JobId, i: JobId, m: Manifest, e: Entry)
    requires SystemInv(sys, s) && sys'.store == sys.store[ManifestKey(j) := Document(m)] && sys'.ran == sys.ran
    requires EntryGood(sys, i, e)
    ensures EntryGood(sys', i, e)
  {
    hide Runs.Inv, TrainerGood, ManifestKey;
    assert ManifestGood(sys, j);
  }

  /** An entry that is not before the latest one keeps the list in order. */
  lemma InOrderSnoc(es: seq<Entry>, e: Entry)
    requires InOrder(es)
    requires es != [] ==> NotAfter(es[|es| - 1].epoch, es[|es| - 1].step, e.epoch, e.step)
    ensures InOrder(es + [e])
  {
  }

  lemma NewManifestGood(sys: System, sys': System, s: Settings, l: LeaseId)
    requires SystemInv(sys, s) && l in sys.trainers && sys.trainers[l].upload.WritingManifest?
    requires Allowed(sys.c, l, sys.trainers[l].job, ManifestKey(sys.trainers[l].job), true)
    requires var t := sys.trainers[l];
      && sys'.store == sys.store[ManifestKey(t.job) := Document(Appended(t.upload.read, t.upload.entry))]
      && sys'.ran == sys.ran && sys'.clean == sys.clean
    ensures ManifestGood(sys', sys.trainers[l].job)
  {
    hide Runs.Inv, EntryGood, InOrder, NotAfter, ManifestKey;
    var t := sys.trainers[l];
    var es, e := Entries(sys.store, t.job), t.upload.entry;
    LandedAppends(sys, s, l);
    assert TrainerGood(sys, l) && ManifestGood(sys, t.job);
    forall x | x in es + [e]
      ensures EntryGood(sys', t.job, x)
    {
      assert EntryGood(sys, t.job, x);
      EntryStays(sys, sys', s, t.job, t.job, Appended(t.upload.read, e), x);
    }
    if sys.clean {
      OrderedSoFar(sys, s, t.job);
      InOrderSnoc(es, e);
    }
  }

  lemma OrderedSoFar(sys: System, s: Settings, j: JobId)
    requires SystemInv(sys, s)
    ensures sys.clean ==> InOrder(Entries(sys.store, j))
    ensures Entries(sys.store, j) != [] ==>
              LatestEntry(sys.store, j) == Some(Entries(sys.store, j)[|Entries(sys.store, j)| - 1])
  {
    assert ManifestGood(sys, j);
  }

  lemma ManifestPutKeeps(sys: System, s: Settings, l: LeaseId, fault: Fault)
    requires SystemInv(sys, s)
    ensures SystemInv(ManifestPut(sys, l, fault), s)
  {
    hide Runs.Inv;
    var sys' := ManifestPut(sys, l, fault);
    if l in sys.trainers && sys.trainers[l].upload.WritingManifest? {
      var t := sys.trainers[l];
      assert TrainerGood(sys, l);
      if Allowed(sys.c, l, t.job, ManifestKey(t.job), true) && fault != Dropped {
        ManifestWritten(sys, sys', s, l);
      } else {
        TrainersKeep(sys, sys', s);
      }
    }
  }

  lemma ManifestWritten(sys: System, sys': System, s: Settings, l: LeaseId)
    requires SystemInv(sys, s) && l in sys.trainers && sys.trainers[l].upload.WritingManifest?
    requires Allowed(sys.c, l, sys.trainers[l].job, ManifestKey(sys.trainers[l].job), true)
    requires sys' == ManifestPut(sys, l, Landed)
    ensures SystemInv(sys', s)
  {
    hide Runs.Inv;
    var t := sys.trainers[l];
    NewManifestGood(sys, sys', s, l);
    forall j: JobId
      ensures ManifestGood(sys', j)
    {
      assert ManifestGood(sys, j) && ManifestGood(sys, t.job);
      if j != t.job {
        ManifestKeysDiffer(j, t.job);
      }
    }
    forall m | m in sys'.trainers
      ensures TrainerGood(sys', m)
    {
      OtherTrainerGood(sys, sys', s, l, m);
    }
  }

  lemma OtherTrainerGood(sys: System, sys': System, s: Settings, l: LeaseId, m: LeaseId)
    requires SystemInv(sys, s) && l in sys.trainers && sys.trainers[l].upload.WritingManifest?
    requires Allowed(sys.c, l, sys.trainers[l].job, ManifestKey(sys.trainers[l].job), true)
    requires sys' == ManifestPut(sys, l, Landed) && m in sys'.trainers
    ensures TrainerGood(sys', m)
  {
    hide Runs.Inv, KeyBelongsToJob, ManifestKey, RanBelow, InOrder;
    assert TrainerGood(sys, m) && TrainerGood(sys, l) && ManifestGood(sys, sys.trainers[l].job);
    if sys.trainers[m].job != sys.trainers[l].job {
      ManifestKeysDiffer(sys.trainers[m].job, sys.trainers[l].job);
    } else if IsWriter(sys.c, m) {
      OneWriter(sys.c, s, l, m, sys.trainers[l].job, ManifestKey(sys.trainers[l].job), ManifestKey(sys.trainers[l].job));
    }
  }

  lemma ActKeeps(sys: System, s: Settings, a: Action)
    requires SystemInv(sys, s)
    ensures SystemInv(Act(sys, s, a), s)
  {
    hide Runs.Inv, ManifestGood, TrainerGood;
    match a
    case Protocol(step) => ProtocolKeeps(sys, s, step);
    case Launch(l, fails) => LaunchKeeps(sys, s, l, fails);
    case PutBlob(l, fault) => BlobPutKeeps(sys, s, l, fault);
    case GetManifest(l, fails) => ManifestGotKeeps(sys, s, l, fails);
    case PutManifest(l, fault) => ManifestPutKeeps(sys, s, l, fault);
    case BeginSave(l, suffix, loss) => SaveBegunKeeps(sys, s, l, suffix, loss);
    case Restore(l, fails) => RestoredKeeps(sys, s, l, fails);
    case TrainStep(l) => SteppedKeeps(sys, s, l);
    case EndEpoch(l) => EpochEndedKeeps(sys, s, l);
  }

  // --- Whole runs ------------------------------------------------------------------------------------------------------

  ghost function RunActs(sys: System, s: Settings, actions: seq<Action>): (end: System)
    requires SystemInv(sys, s)
    ensures SystemInv(end, s)
    decreases |actions|
  {
    if actions == [] then sys
    else
      ActKeeps(sys, s, actions[0]);
      RunActs(Act(sys, s, actions[0]), s, actions[1..])
  }

  lemma {:induction false} RunActsConcat(sys: System, s: Settings, p: seq<Action>, q: seq<Action>)
    requires SystemInv(sys, s)
    ensures RunActs(sys, s, p + q) == RunActs(RunActs(sys, s, p), s, q)
    decreases |p|
  {
    hide Runs.Inv, ManifestGood, TrainerGood, Act;
    if p == [] {
      assert p + q == q;
    } else {
      ActKeeps(sys, s, p[0]);
      assert (p + q)[1..] == p[1..] + q;
      RunActsConcat(Act(sys, s, p[0]), s, p[1..], q);
    }
  }

  lemma RunOne(sys: System, s: Settings, a: Action)
    requires SystemInv(sys, s)
    ensures RunActs(sys, s, [a]) == Act(sys, s, a)
  {
    hide Runs.Inv, ManifestGood, TrainerGood, Act;
    ActKeeps(sys, s, a);
    assert [a][1..] == [];
  }

  ghost predicate Reached(sys: System, s: Settings) {
    StartInv(s);
    exists actions :: sys == RunActs(START, s, actions)
  }

  lemma ReachedInv(sys: System, s: Settings)
    requires Reached(sys, s)
    ensures SystemInv(sys, s)
  {
    StartInv(s);
  }

  /** No object is ever altered or lost, save that a manifest's list may have been extended at its end. */
  ghost predicate Extends(store: Store, store': Store) {
    && (forall k | k in store && store[k].Blob? :: k in store' && store'[k] == store[k])
    && (forall j: JobId {:trigger Entries(store', j)} :: Entries(store, j) <= Entries(store', j))
  }

  lemma ManifestPutExtends(sys: System, s: Settings, l: LeaseId, fault: Fault)
    requires SystemInv(sys, s)
    ensures Extends(sys.store, ManifestPut(sys, l, fault).store)
  {
    hide Runs.Inv;
    var sys' := ManifestPut(sys, l, fault);
    if sys'.store != sys.store {
      var t := sys.trainers[l];
      LandedAppends(sys, s, l);
      assert ManifestGood(sys, t.job);
      forall j: JobId
        ensures Entries(sys.store, j) <= Entries(sys'.store, j)
      {
        if j != t.job {
          ManifestKeysDiffer(j, t.job);
        }
      }
    }
  }

  lemma BlobPutExtends(sys: System, s: Settings, l: LeaseId, fault: Fault)
    requires SystemInv(sys, s)
    ensures Extends(sys.store, BlobPut(sys, l, fault).store)
  {
  }

  lemma ActExtends(sys: System, s: Settings, a: Action)
    requires SystemInv(sys, s)
    ensures Extends(sys.store, Act(sys, s, a).store)
  {
    hide Runs.Inv, ManifestGood, TrainerGood, BlobPut, ManifestPut;
    match a
    case PutBlob(l, fault) => BlobPutExtends(sys, s, l, fault);
    case PutManifest(l, fault) => ManifestPutExtends(sys, s, l, fault);
    case _ =>
  }

  /** No lost update: under every interleaving of lease transactions with any number of trainers' saves,
      and any pattern of failing requests, a job's checkpoint list only ever grows at its end, and no
      stored blob is altered or lost. */
  lemma {:induction false} NoLostUpdate(sys: System, s: Settings, actions: seq<Action>)
    requires SystemInv(sys, s)
    ensures Extends(sys.store, RunActs(sys, s, actions).store)
    decreases |actions|
  {
    hide Runs.Inv, ManifestGood, TrainerGood, Act;
    if actions == [] {
    } else {
      ActKeeps(sys, s, actions[0]);
      ActExtends(sys, s, actions[0]);
      var next := Act(sys, s, actions[0]);
      NoLostUpdate(next, s, actions[1..]);
      var end := RunActs(next, s, actions[1..]);
      forall j: JobId
        ensures Entries(sys.store, j) <= Entries(end.store, j)
      {
        assert Entries(sys.store, j) <= Entries(next.store, j) && Entries(next.store, j) <= Entries(end.store, j);
      }
    }
  }

  /** A save whose manifest write lands is in the list for ever, at the position it was appended at. */
  lemma SavedForever(sys: System, s: Settings, l: LeaseId, fault: Fault, later: seq<Action>)
    requires Reached(sys, s) && l in sys.trainers && sys.trainers[l].upload.WritingManifest? && fault != Dropped
    requires SystemInv(sys, s) && Allowed(sys.c, l, sys.trainers[l].job, ManifestKey(sys.trainers[l].job), true)
    ensures SystemInv(ManifestPut(sys, l, fault), s)
    ensures var t := sys.trainers[l];
      Entries(sys.store, t.job) + [t.upload.entry] <= Entries(RunActs(ManifestPut(sys, l, fault), s, later).store, t.job)
  {
    hide Runs.Inv;
    ReachedInv(sys, s);
    LandedAppends(sys, s, l);
    ManifestPutKeeps(sys, s, l, fault);
    NoLostUpdate(ManifestPut(sys, l, fault), s, later);
  }

  /** Resuming is sound: in every reachable state the latest entry of a job is the last of its list, it
      names a stored blob that holds the same epoch and step, and every epoch before the one it resumes
      into was run to its end by some attempt. */
  lemma ResumeSound(sys: System, s: Settings, j: JobId)
    requires Reached(sys, s) && LatestEntry(sys.store, j).Some?
    ensures var e := LatestEntry(sys.store, j).value;
      && Entries(sys.store, j) != [] && Entries(sys.store, j)[|Entries(sys.store, j)| - 1] == e
      && e.key in sys.store && sys.store[e.key] == Blob(e.epoch, e.step)
      && forall k: nat | 1 <= k < e.epoch :: (j, k) in sys.ran
  {
    ReachedInv(sys, s);
    LatestIsGood(sys, s, j);
    assert ManifestGood(sys, j);
  }

  lemma {:induction false} OrderedPair(es: seq<Entry>, i: nat, k: nat)
    requires InOrder(es) && i < k < |es|
    ensures NotAfter(es[i].epoch, es[i].step, es[k].epoch, es[k].step)
    decreases k
  {
    if i < k - 1 {
      OrderedPair(es, i, k - 1);
    }
  }

  /** Progress never goes backwards, across any number of attempts, as long as no trainer that could write
      missed the checkpoint it had to resume from. */
  lemma NeverBackwards(sys: System, s: Settings, j: JobId, i: nat, k: nat)
    requires Reached(sys, s) && sys.clean && i < k < |Entries(sys.store, j)|
    ensures var es := Entries(sys.store, j); NotAfter(es[i].epoch, es[i].step, es[k].epoch, es[k].step)
  {
    ReachedInv(sys, s);
    assert ManifestGood(sys, j);
    OrderedPair(Entries(sys.store, j), i, k);
  }

  lemma LatestIsLast(sys: System, s: Settings, j: JobId)
    requires SystemInv(sys, s) && LatestEntry(sys.store, j).Some?
    ensures Readable(sys.store, j)
    ensures Entries(sys.store, j) != []
    ensures LatestEntry(sys.store, j).value == Entries(sys.store, j)[|Entries(sys.store, j)| - 1]
  {
    assert ManifestGood(sys, j);
  }
}
