/** What a relaunched trainer starts from (trainer/train.py): the latest checkpoint there is, whoever wrote it. */
module Resuming {
  import opened Model
  import opened LeaseProtocol
  import opened CheckpointAccess
  import opened Checkpoints
  import Runs

  /** A claimed lease of the current attempt that has not been settled: any rank's. */
  predicate IsHolder(c: Cluster, l: LeaseId)
    requires WellFormed(c)
  {
    l in c.leases && IsCurrent(c, l) && c.leases[l].state == Active
  }

  /** `sys` with lease `l`'s trainer, and nothing else, at a position, with no upload running. */
  function At(sys: System, l: LeaseId, j: JobId, epoch: nat, step: nat): System {
    sys.(trainers := sys.trainers[l := Trainer(j, Training(epoch, step), Idle)])
  }

  /** Every rank of the live attempt may read its job's manifest and any key of its job. */
  lemma HolderReads(c: Cluster, l: LeaseId, key: string)
    requires WellFormed(c) && IsHolder(c, l) && KeyBelongsToJob(key, c.leases[l].job)
    ensures Allowed(c, l, c.leases[l].job, key, false)
  {
    hide KeyBelongsToJob;
  }

  /** A trainer launched by any rank of the live attempt, whose reads go through, resumes at exactly the
      position of the job's latest checkpoint, whichever attempt wrote it; and nothing else changes. */
  lemma Resumes(sys: System, s: Settings, l: LeaseId)
    requires SystemInv(sys, s) && IsHolder(sys.c, l) && IsUuidText(sys.c.leases[l].job)
    requires LatestEntry(sys.store, sys.c.leases[l].job).Some?
    ensures var j := sys.c.leases[l].job;
      var e := LatestEntry(sys.store, j).value;
      RunActs(sys, s, [Launch(l, false), Restore(l, false)]) == At(sys, l, j, e.epoch, e.step)
  {
    hide Runs.Inv, KeyBelongsToJob, Allowed, ManifestGood, TrainerGood;
    var j := sys.c.leases[l].job;
    var e := LatestEntry(sys.store, j).value;
    LatestIsGood(sys, s, j);
    OwnManifestBelongs(j);
    HolderReads(sys.c, l, ManifestKey(j));
    HolderReads(sys.c, l, e.key);
    var a := Launched(sys, l, false);
    assert a == sys.(trainers := sys.trainers[l := Trainer(j, Restoring(e), Idle)]);
    assert Restored(a, l, false) == At(sys, l, j, e.epoch, e.step) by {
      assert sys.trainers[l := Trainer(j, Restoring(e), Idle)][l := Trainer(j, Training(e.epoch, e.step), Idle)]
             == sys.trainers[l := Trainer(j, Training(e.epoch, e.step), Idle)];
    }
    RunTwo(sys, s, Launch(l, false), Restore(l, false));
  }

  lemma RunTwo(sys: System, s: Settings, a: Action, b: Action)
    requires SystemInv(sys, s)
    ensures SystemInv(Act(sys, s, a), s)
    ensures RunActs(sys, s, [a, b]) == Act(Act(sys, s, a), s, b)
  {
    hide Runs.Inv, ManifestGood, TrainerGood, Act;
    ActKeeps(sys, s, a);
    assert [a, b] == [a] + [b];
    RunActsConcat(sys, s, [a], [b]);
    RunOne(sys, s, a);
    RunOne(Act(sys, s, a), s, b);
  }

  /** With no checkpoint to resume from, it starts the first epoch at step 0, and so it does, whatever is
      stored, when its manifest read fails or its lease is not live any more. */
  lemma StartsFresh(sys: System, s: Settings, l: LeaseId, readFails: bool)
    requires SystemInv(sys, s) && l in sys.c.leases && sys.c.leases[l].state != Pending
    requires readFails || !IsHolder(sys.c, l) || LatestEntry(sys.store, sys.c.leases[l].job) == None
    ensures var j, d := sys.c.leases[l].job, Launched(sys, l, readFails);
      && RunActs(sys, s, [Launch(l, readFails)]) == d
      && d == At(sys, l, j, 1, 0).(clean := sys.clean && (IsWriter(sys.c, l) ==> LatestEntry(sys.store, j) == None))
  {
    hide Runs.Inv, ManifestGood, TrainerGood, KeyBelongsToJob;
    RunOne(sys, s, Launch(l, readFails));
  }

  /** A trainer that cannot fetch the blob it was to resume from dies, and leaves no other mark. */
  lemma LostBlobKills(sys: System, s: Settings, l: LeaseId)
    requires SystemInv(sys, s) && l in sys.trainers && sys.trainers[l].phase.Restoring?
    ensures RunActs(sys, s, [Restore(l, true)]) == sys.(trainers := sys.trainers - {l})
  {
    hide Runs.Inv, ManifestGood, TrainerGood, Allowed;
    RunOne(sys, s, Restore(l, true));
  }

  /** So no attempt that resumes repeats what an earlier one saved: while no read was missed, its starting
      position is not before that of any checkpoint in the job's list, and every epoch before it was run to
      its end. */
  lemma ResumesAhead(sys: System, s: Settings, l: LeaseId, i: nat)
    requires Reached(sys, s) && SystemInv(sys, s) && sys.clean
    requires IsHolder(sys.c, l) && IsUuidText(sys.c.leases[l].job) && i < |Entries(sys.store, sys.c.leases[l].job)|
    ensures var j, end := sys.c.leases[l].job, RunActs(sys, s, [Launch(l, false), Restore(l, false)]);
      var e := Entries(sys.store, j)[i];
      && IsTraining(end, l) && end.clean
      && var p := end.trainers[l].phase;
      && NotAfter(e.epoch, e.step, p.epoch, p.step)
      && forall k: nat | 1 <= k < p.epoch :: (j, k) in end.ran
  {
    hide Runs.Inv, ManifestGood, TrainerGood, RunActs, Reached, InOrder;
    var j := sys.c.leases[l].job;
    OrderedSoFar(sys, s, j);
    Resumes(sys, s, l);
    ResumeSound(sys, s, j);
    var last := |Entries(sys.store, j)| - 1;
    if i < last {
      NeverBackwards(sys, s, j, i, last);
    }
  }

  // --- Trainers that may not, or not yet ------------------------------------------------------------------------------

  /** A save asked for while an upload runs is dropped; with the uploader free the snapshot is what is uploaded. */
  lemma OneUploadAtATime(sys: System, l: LeaseId, suffix: string, loss: Option<real>)
    requires WellFormed(sys.c) && IsTraining(sys, l) && l in sys.c.leases
    ensures sys.trainers[l].upload != Idle ==> SaveBegun(sys, l, suffix, loss) == sys
    ensures sys.trainers[l].upload == Idle ==>
              var t, x := sys.trainers[l], sys.c.leases[l];
              SaveBegun(sys, l, suffix, loss) == WithUpload(sys, l, PuttingBlob(Entry(
                  BlobKey(t.job, t.phase.epoch, t.phase.step, suffix), t.phase.step, t.phase.epoch,
                  sys.c.jobs[x.job].world, x.epoch, loss)))
  {
    hide BlobKey;
  }

  /** A trainer whose lease is not live any more is shut out at its next request, whichever that is: its upload
      ends there, or, fetching the blob it was to resume from, it dies; and the store is untouched. */
  lemma ShutOut(sys: System, l: LeaseId, readFails: bool, fault: Fault)
    requires WellFormed(sys.c) && l in sys.trainers && !IsHolder(sys.c, l)
    ensures sys.trainers[l].upload.PuttingBlob? ==> BlobPut(sys, l, fault) == WithUpload(sys, l, Idle)
    ensures sys.trainers[l].upload.ReadingManifest? ==> ManifestGot(sys, l, readFails) == WithUpload(sys, l, Idle)
    ensures sys.trainers[l].upload.WritingManifest? ==> ManifestPut(sys, l, fault) == WithUpload(sys, l, Idle)
    ensures sys.trainers[l].phase.Restoring? ==> Restored(sys, l, readFails) == sys.(trainers := sys.trainers - {l})
  {
    hide KeyBelongsToJob;
  }

  /** Ranks other than 0 write nothing. */
  lemma OnlyRankZeroWrites(sys: System, l: LeaseId, fault: Fault)
    requires WellFormed(sys.c) && l in sys.trainers && l in sys.c.leases && sys.c.leases[l].rank != 0
    ensures BlobPut(sys, l, fault).store == sys.store && ManifestPut(sys, l, fault).store == sys.store
  {
    hide KeyBelongsToJob;
  }
}
