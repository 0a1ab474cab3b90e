/** One save run on its own, over a store updated in place (trainer/checkpoint.py). */
module CheckpointStore {
  import opened Model
  import opened LeaseProtocol
  import opened CheckpointAccess
  import opened Checkpoints

  /** What one save leaves in the store: nothing new when the blob write is lost, only the blob when
      anything after it goes wrong, else the blob and the manifest naming it. */
  function Saved(store: Store, job: JobId, e: Entry, blob: Fault, readFails: bool, put: Fault): Store {
    if blob == Dropped then store
    else
      var stored := store[e.key := Blob(e.epoch, e.step)];
      if blob != Landed || readFails || !Readable(stored, job) || put == Dropped then stored
      else stored[ManifestKey(job) := Document(Appended(ReadManifest(stored, job), e))]
  }

  class ObjectStore {
    var objects: Store

    constructor ()
      ensures objects == map[]
    {
      objects := map[];
    }

    /** `raised` when the request failed, or seemed to. */
    method PutBytes(key: string, data: Object, fault: Fault) returns (raised: bool)
      modifies this
      ensures objects == if fault == Dropped then old(objects) else old(objects)[key := data]
      ensures raised == (fault != Landed)
    {
      if fault != Dropped {
        objects := objects[key := data];
      }
      raised := fault != Landed;
    }

    /** The manifest, None when there is none; an error when the request or the parse fails. */
    method GetManifest(job: JobId, fails: bool) returns (raised: bool, manifest: Option<Manifest>)
      ensures raised == (fails || !Readable(objects, job))
      ensures !raised ==> manifest == ReadManifest(objects, job)
    {
      raised, manifest := fails, None;
      if !fails && ManifestKey(job) in objects {
        var raw := objects[ManifestKey(job)];
        if raw.Document? {
          manifest := Some(raw.manifest);
        } else {
          raised := true;
        }
      }
    }

    /** The blob first; only once it is stored the manifest's read-modify-write. */
    method SaveCheckpoint(job: JobId, suffix: string, step: nat, epoch: nat, world: nat, leaseEpoch: nat, loss: Option<real>,
                          blob: Fault, readFails: bool, put: Fault) returns (saved: Option<Entry>)
      modifies this
      ensures var e := Entry(BlobKey(job, epoch, step, suffix), step, epoch, world, leaseEpoch, loss);
        && objects == Saved(old(objects), job, e, blob, readFails, put)
        && (saved.Some? ==> saved.value == e && LatestEntry(objects, job) == saved)
        && (saved.Some? <==>
            blob == Landed && !readFails && Readable(old(objects)[e.key := Blob(epoch, step)], job) && put == Landed)
    {
      var key := BlobKey(job, epoch, step, suffix);
      var raised := PutBytes(key, Blob(epoch, step), blob);
      if raised {
        return None;
      }
      var entry := Entry(key, step, epoch, world, leaseEpoch, loss);
      var read;
      raised, read := GetManifest(job, readFails);
      if raised {
        return None;
      }
      var checkpoints := if read.Some? then read.value.checkpoints else [];
      checkpoints := checkpoints + [entry];
      raised := PutBytes(ManifestKey(job), Document(Manifest(checkpoints, Some(entry))), put);
      saved := if raised then None else Some(entry);
    }
  }

  /** A save is atomic: whichever request fails, every entry that was good stays good, the manifest either
      is untouched or names the new blob, and what it names as latest is stored and whole. */
  lemma SaveIsAtomic(store: Store, job: JobId, e: Entry, blob: Fault, readFails: bool, put: Fault)
    requires BlobPrefix(job) <= e.key && e.key !in store && Readable(store, job)
    requires forall x | x in Entries(store, job) :: Stored(store, x)
    requires LatestEntry(store, job).Some? ==> LatestEntry(store, job).value in Entries(store, job)
    ensures var after := Saved(store, job, e, blob, readFails, put);
      && (ReadManifest(after, job) == ReadManifest(store, job)
          || ReadManifest(after, job) == Some(Appended(ReadManifest(store, job), e)))
      && (forall x | x in Entries(after, job) :: Stored(after, x))
      && (LatestEntry(after, job).Some? ==> Stored(after, LatestEntry(after, job).value))
  {
    assert e.key[0] == BlobPrefix(job)[0] != ManifestKey(job)[0];
    var after := Saved(store, job, e, blob, readFails, put);
    forall x | x in Entries(store, job) + [e] && (x == e ==> x in Entries(after, job))
      ensures Stored(after, x)
    {
      assert x != e ==> x in Entries(store, job);
    }
  }

  /** The three requests of a save, nothing in between: the step-by-step uploader ends with this store. */
  lemma SaveIsThreeSteps(sys: System, l: LeaseId, blob: Fault, readFails: bool, put: Fault)
    requires WellFormed(sys.c) && IsWriter(sys.c, l) && l in sys.trainers && sys.trainers[l].upload.PuttingBlob?
    requires var t := sys.trainers[l];
      && t.job == sys.c.leases[l].job && t.upload.entry.key !in sys.store
      && KeyBelongsToJob(t.upload.entry.key, t.job) && KeyBelongsToJob(ManifestKey(t.job), t.job)
    ensures var t := sys.trainers[l];
      ManifestPut(ManifestGot(BlobPut(sys, l, blob), l, readFails), l, put).store
      == Saved(sys.store, t.job, t.upload.entry, blob, readFails, put)
  {
    hide KeyBelongsToJob, ManifestKey;
  }
}
