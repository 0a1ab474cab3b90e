/** Which checkpoint requests the orchestrator allows (orchestrator/services/checkpoint_access.py), and the
    keys a trainer uses (trainer/checkpoint.py). */
module CheckpointAccess {
  import opened Model
  import opened LeaseProtocol
  import opened CohortShape
  import opened PosixPath
  import opened Decimal
  import Guarantees
  import Runs

  // --- Keys ------------------------------------------------------------------------------------------------

  function ManifestKey(job: JobId): string {
    "manifests/" + job + ".json"
  }

  function BlobPrefix(job: JobId): string {
    "checkpoints/" + job + "/"
  }

  function BlobName(epoch: nat, step: nat, suffix: string): string {
    "e" + Padded(epoch, 3) + "-s" + Padded(step, 8) + "-" + suffix + ".pt"
  }

  function BlobKey(job: JobId, epoch: nat, step: nat, suffix: string): string {
    BlobPrefix(job) + BlobName(epoch, step, suffix)
  }

  predicate KeyBelongsToJob(key: string, job: JobId) {
    if key == "" || key[0] == '/' || '\\' in key then false
    else if NormPath(key) != key then false
    else if key == ManifestKey(job) then true
    else StartsWith(key, BlobPrefix(job)) && '/' !in key[|BlobPrefix(job)|..]
  }

  /** The text of a UUID: hexadecimal digits and hyphens. */
  predicate IsUuidText(s: string) {
    s != "" && forall c | c in s :: IsDigit(c) || 'a' <= c <= 'f' || c == '-'
  }

  lemma UuidIsPlain(s: string)
    requires IsUuidText(s)
    ensures Plain(s) && '\\' !in s
  {
    assert s[0] in s;
  }

  lemma BlobNameIsPlain(epoch: nat, step: nat, suffix: string)
    requires IsUuidText(suffix)
    ensures Plain(BlobName(epoch, step, suffix)) && '\\' !in BlobName(epoch, step, suffix)
  {
    assert BlobName(epoch, step, suffix)[0] == 'e';
  }

  lemma OwnManifestBelongs(job: JobId)
    requires IsUuidText(job)
    ensures KeyBelongsToJob(ManifestKey(job), job)
  {
    UuidIsPlain(job);
    var parts := ["manifests", job + ".json"];
    assert Join(parts[1..], '/') == job + ".json";
    assert Join(parts, '/') == ManifestKey(job);
    assert Plain(parts[0]) && Plain(parts[1]);
    PlainPath(parts);
  }

  lemma OwnBlobBelongs(job: JobId, name: string)
    requires IsUuidText(job) && Plain(name) && '\\' !in name
    ensures KeyBelongsToJob(BlobPrefix(job) + name, job)
  {
    UuidIsPlain(job);
    var parts, key := ["checkpoints", job, name], BlobPrefix(job) + name;
    assert parts[1..] == [job, name] && parts[1..][1..] == [name];
    assert Join(parts[1..], '/') == job + "/" + name;
    assert Join(parts, '/') == key;
    assert Plain(parts[0]) && Plain(parts[1]) && Plain(parts[2]);
    PlainPath(parts);
    assert key[|BlobPrefix(job)|..] == name;
  }

  /** The keys a trainer writes for its own job are always allowed as keys of that job. */
  lemma OwnKeysBelong(job: JobId, epoch: nat, step: nat, suffix: string)
    requires IsUuidText(job) && IsUuidText(suffix)
    ensures KeyBelongsToJob(ManifestKey(job), job)
    ensures KeyBelongsToJob(BlobKey(job, epoch, step, suffix), job)
  {
    OwnManifestBelongs(job);
    BlobNameIsPlain(epoch, step, suffix);
    OwnBlobBelongs(job, BlobName(epoch, step, suffix));
  }

  /** A folder's key with nothing, `.` or `..` in place of a file name is not in normal form. */
  lemma NotAFile(job: JobId, name: string)
    requires IsUuidText(job) && name in {"", ".", ".."}
    ensures NormPath(BlobPrefix(job) + name) != BlobPrefix(job) + name
  {
    UuidIsPlain(job);
    var parts, key := ["checkpoints", job, name], BlobPrefix(job) + name;
    assert Join(parts[1..][1..], '/') == name;
    assert Join(parts[1..], '/') == job + "/" + name;
    assert Join(parts, '/') == key;
    SplitJoin(parts, '/');
    var folder := ["checkpoints", job];
    assert Plain("checkpoints");
    PushPlain([], folder, false);
    assert [] + folder == folder && parts == folder + [name];
    PushSnoc([], folder, name, false);
    assert Push(folder, name, false) == if name == ".." then ["checkpoints"] else folder;
    assert Join(folder[1..], '/') == job && Join(folder, '/') == "checkpoints/" + job;
    assert Join(["checkpoints"], '/') == "checkpoints";
  }

  /** The keys of a job, exactly: its manifest, and the plain file names right inside its folder. */
  lemma KeyExact(key: string, job: JobId)
    requires IsUuidText(job)
    ensures KeyBelongsToJob(key, job) <==>
            || key == "manifests/" + job + ".json"
            || exists name: string :: key == "checkpoints/" + job + "/" + name && Plain(name) && '\\' !in name
  {
    hide NormPath;
    OwnManifestBelongs(job);
    if name: string :| key == BlobPrefix(job) + name && Plain(name) && '\\' !in name {
      OwnBlobBelongs(job, name);
    }
    if KeyBelongsToJob(key, job) && key != ManifestKey(job) {
      var name := key[|BlobPrefix(job)|..];
      assert key == BlobPrefix(job) + name;
      if name in {"", ".", ".."} {
        NotAFile(job, name);
      }
      assert forall c | c in name :: c in key;
    }
  }

  /** No key belongs to two jobs, whatever the job ids look like: a token for one job can never name an
      object of another. */
  lemma NoSharedKey(key: string, a: JobId, b: JobId)
    requires KeyBelongsToJob(key, a) && KeyBelongsToJob(key, b)
    ensures a == b
  {
    hide NormPath, BlobPrefix, ManifestKey;
    KeyStarts(key, a);
    KeyStarts(key, b);
    if key == ManifestKey(a) {
      SameManifest(a, b);
    } else {
      SameFolder(key, a, b);
    }
  }

  /** A job's keys: its manifest, or one file right inside its checkpoint folder. */
  lemma KeyStarts(key: string, job: JobId)
    requires KeyBelongsToJob(key, job)
    ensures key != "" && if key[0] == 'm' then key == ManifestKey(job)
            else key != ManifestKey(job) && BlobPrefix(job) <= key && '/' !in key[|BlobPrefix(job)|..]
  {
  }

  lemma SameManifest(a: JobId, b: JobId)
    requires ManifestKey(a) == ManifestKey(b)
    ensures a == b
  {
    var key := ManifestKey(a);
    assert a == key[10..|key| - 5] && b == key[10..|key| - 5];
  }

  lemma NoneAfter(key: string, i: nat)
    requires i < |key| && '/' !in key[i + 1..]
    ensures forall m | i < m < |key| :: key[m] != '/'
  {
    assert forall m | i < m < |key| :: key[m] == key[i + 1..][m - i - 1];
  }

  lemma SameFolder(key: string, a: JobId, b: JobId)
    requires BlobPrefix(a) <= key && '/' !in key[|BlobPrefix(a)|..]
    requires BlobPrefix(b) <= key && '/' !in key[|BlobPrefix(b)|..]
    ensures a == b
  {
    var i, k := |BlobPrefix(a)| - 1, |BlobPrefix(b)| - 1;
    assert key[i] == BlobPrefix(a)[i] == '/' && key[k] == BlobPrefix(b)[k] == '/';
    NoneAfter(key, i);
    NoneAfter(key, k);
    assert BlobPrefix(a) == key[..i + 1] == BlobPrefix(b);
    assert a == BlobPrefix(a)[12..i] && b == BlobPrefix(b)[12..i];
  }

  // --- Decisions ---------------------------------------------------------------------------------------------

  /** The live-lease check: None when allowed, else the HTTP status it is refused with. */
  function AuthorizeLiveLease(c: Cluster, tokenLease: LeaseId, tokenJob: JobId, pathLease: LeaseId): Option<nat>
    requires WellFormed(c)
  {
    if tokenLease != pathLease then Some(403)
    else if pathLease !in c.leases then Some(404)
    else if c.leases[pathLease].job != tokenJob then Some(403)
    else if !IsCurrent(c, pathLease) then Some(409)
    else if c.leases[pathLease].state != Active then Some(409)
    else None
  }

  function Authorize(c: Cluster, tokenLease: LeaseId, tokenJob: JobId, pathLease: LeaseId, key: string, write: bool)
    : Option<nat>
    requires WellFormed(c)
  {
    var live := AuthorizeLiveLease(c, tokenLease, tokenJob, pathLease);
    if live.Some? then live
    else if write && c.leases[pathLease].rank != 0 then Some(403)
    else if !KeyBelongsToJob(key, tokenJob) then Some(403)
    else None
  }

  /** A holder is refused with 404 exactly for a lease that does not exist, and with 409 exactly when the
      lease endpoints would fence it out, as superseded or as finished. */
  lemma StatusAgreesWithFence(c: Cluster, job: JobId, l: LeaseId)
    requires WellFormed(c) && (l in c.leases ==> c.leases[l].job == job)
    ensures AuthorizeLiveLease(c, l, job, l) == Some(404) <==> l !in c.leases
    ensures AuthorizeLiveLease(c, l, job, l) == Some(409) <==>
            l in c.leases && Fence(c, l, c.leases[l].node, c.leases[l].epoch) in {Some(StaleEpoch), Some(NotActive)}
  {
  }

  /** Everything else that is refused is refused with 403: a token for another lease or another job, a write by
      any rank but 0, a key that is not the job's own. */
  lemma ForbiddenExact(c: Cluster, tokenLease: LeaseId, tokenJob: JobId, l: LeaseId, key: string, write: bool)
    requires WellFormed(c)
    ensures Authorize(c, tokenLease, tokenJob, l, key, write) in {None, Some(403), Some(404), Some(409)}
    ensures Authorize(c, tokenLease, tokenJob, l, key, write) == Some(403) <==>
            || tokenLease != l
            || (l in c.leases && c.leases[l].job != tokenJob)
            || (&& l in c.leases && IsCurrent(c, l) && c.leases[l].state == Active
                && ((write && c.leases[l].rank != 0) || !KeyBelongsToJob(key, tokenJob)))
  {
    hide KeyBelongsToJob;
  }

  /** At any moment at most one lease of a job may write: the ACTIVE rank 0 of its current attempt. */
  lemma OneWriter(c: Cluster, s: Settings, l: LeaseId, m: LeaseId, j: JobId, k: string, k': string)
    requires Runs.Inv(c, s)
    requires Authorize(c, l, j, l, k, true) == None && Authorize(c, m, j, m, k', true) == None
    ensures l == m
  {
    assert l != m ==> Apart(c.leases[l], c.leases[m]);
  }

  /** A write allowed to a token's holder touches an object of its own job only, and is allowed exactly
      when the fence of the lease endpoints would let the holder through. */
  lemma WriteIsFenced(c: Cluster, tokenLease: LeaseId, tokenJob: JobId, l: LeaseId, key: string)
    requires WellFormed(c)
    ensures Authorize(c, tokenLease, tokenJob, l, key, true) == None <==>
            && tokenLease == l && l in c.leases && c.leases[l].job == tokenJob && c.leases[l].rank == 0
            && KeyBelongsToJob(key, tokenJob)
            && Fence(c, l, c.leases[l].node, c.leases[l].epoch) == None
    ensures Authorize(c, tokenLease, tokenJob, l, key, true) == None ==>
              forall other | KeyBelongsToJob(key, other) :: other == tokenJob
  {
    forall other | KeyBelongsToJob(key, other) && KeyBelongsToJob(key, tokenJob)
      ensures other == tokenJob
    {
      NoSharedKey(key, other, tokenJob);
    }
  }

  /** Once an attempt is torn down none of its leases reads or writes a checkpoint ever again, including
      while the job waits to be placed and its epoch has not moved yet. */
  lemma NoAccessAfterTeardown(c: Cluster, s: Settings, j: JobId, epoch: nat, steps: seq<Step>)
    requires Runs.Reachable(c, s) && Guarantees.TornDown(c, j, epoch)
    ensures Runs.Inv(c, s)
    ensures var d := Runs.RunFrom(c, s, steps);
      forall l | l in d.leases && d.leases[l].job == j && d.leases[l].epoch == epoch ::
        forall token, tokenJob :: AuthorizeLiveLease(d, token, tokenJob, l).Some?
  {
    Guarantees.FencedForever(c, s, j, epoch, steps);
  }
}
