# A verified model of the training control plane

The system hands training jobs to volunteer machines. A job is attempted by a cohort of leases, one a rank, that
share an epoch; agents claim, renew, complete and fail them, and a sweep, a failure detector or a user's cancel may
tear an attempt down at any moment. Trainers save checkpoints through an object store that checks their lease on
every request. Around that sit the upload and download of datasets, the dealing of examples to ranks, the score a
scheduler ranks machines by, and the splitting of container logs into lines.

This project models each of these in Dafny and proves what they promise.

## How it is built

* **The lease protocol.** `Model` holds the records and the job state table. `LeaseProtocol` gives every transaction
  as a function from the database before it to the database after it. `LeaseService` is the service as the code runs
  it, a class that updates its tables in place and loops over grouped rows in any order; each method is proved
  against the function (`Batching` shows that sweeping job by job comes to one simultaneous teardown).
  `CohortShape`, `Accounting` and `Audit` are the three parts of the invariant, each kept by every transaction;
  `Evolution` says what never goes back. `Runs` composes them over all runs, and `Guarantees` draws the conclusions.
  `Effects` and `Deadlines` say what each transaction does to every row, with no help from the functions' own parts:
  over the databases a run can reach the invariants leave far fewer cases.
* **Checkpoints.** `CheckpointAccess` decides requests. `Checkpoints` interleaves lease transactions with any number
  of trainers that restore, train and save in three separate requests, any of which may fail; `CheckpointStore` is
  one save run on its own over a store updated in place, and the two are proved to agree. `Resuming` says where a
  relaunched trainer starts, and `MissedReads` gives the exact condition under which one that starts afresh puts the
  list of checkpoints out of order.
* **Datasets.** `DatasetArchive` is the validator, `DatasetLayout` the normaliser's rules and `Planner` its loops.
  `DatasetProofs` and `Normalisation` show exactly when the validator accepts what the normaliser produces, and
  `Upload` puts the two together as an upload goes through them. `ArchivePaths` and `Labels` say what both make of a
  member's name, over the components of its path. What Python's
  `str.lower`, `isspace` and `isdigit` do is a parameter (`Text.Unicode`), of which only one thing is asked: that
  lowering leaves lower-case ASCII alone. `PosixPath` and `Decimal` are the path and number formatting used.
* **Download, Sharding, Reliability, Adaptive, LogLines.** One module each, and `Preferences` for what the
  adaptive score prefers; `Arithmetic` holds the small facts some of them share. Reliability and Adaptive are over
  exact reals, with the square root and the power as parameters known only by their defining properties.

## What was assumed

* A service call and its handler's commit are one atomic step; an error rolls everything back. `SKIP LOCKED` is an
  arbitrary set of rows left out. The detector's verdict on a node is arbitrary.
* A store request is checked and applied in one step. A trainer has one upload running at a time, and a request that
  was given up on does not land later. The random suffix of a blob key is fresh.
* A job's world size is at least one, as the request schema demands.

## Where documentation and code differ

* The comment at `orchestrator/models/job.py:135-137` says a claim advances the epoch; placement does
  (`orchestrator/services/scheduling.py:573-576`), and the model follows it.
* The comment at `orchestrator/models/job.py:151-153` says `scheduled_node_id` is NULL while a job is terminal; a
  completion and a cancel leave it set. `Audit` states exactly when it is set.
* The docstring at `orchestrator/services/jobs.py:184` speaks of ACTIVE leases; a cancel releases PENDING ones too.
* `orchestrator/api/leases.py:343` describes `bytes=a-b` and `bytes=a-`; a number with no hyphen at all is taken as
  the second form. Section 14.1.2 of RFC 9110 requires the hyphen.
* `trainer/checkpoint.py:22-24` says the manifest's read-modify-write is race-free because a reassigned attempt's old
  rank 0 is dead before the new one starts. Nothing ensures that; what makes it race-free is that the store checks
  the lease again on every request (`OneWriter`, `LandedAppends`).
* `trainer/train.py:1308-1312` says an attempt starts fresh when there is no manifest; it also does when reading the
  manifest fails (`trainer/train.py:1320-1321`). `MissedRunsHarmless` says exactly when its saves then overtake a newer
  checkpoint, `GoesBackwards` reaches such a state, and `NeverBackwards` holds while no such read was missed.
* The comment at `trainer/train.py:555-558` says a piece whose request a tunnel cuts is retried on its own. A body that
  ends before its announced length (`orchestrator/api/leases.py:414-417`) makes `read` raise `IncompleteRead`, which
  is neither of the exceptions caught at `trainer/train.py:583`, so the download crashes: for a 16 MiB archive, when
  the first reply announces 8 MiB and closes after 1 (`TwoPiecesOneBreak`). `RetriedUnlessBroken` says exactly when
  the promise holds.
* `DeviceBatches.__len__` is announced for every world size; past two ranks an example the last ranks get nothing,
  which `LengthIsRight` states as an exact condition.

## Model

| member | source | states |
|---|---|---|
| Model.TableIsConsistent | orchestrator/models/job.py:69-115 | the declared terminal states are exactly the table's dead ends, the reassignable states exactly those with an edge to REASSIGNED, and cancelling is legal exactly where a job is not terminal |
| Model.EnteredFrom | orchestrator/models/job.py:69-105 | the same table from the other side: exactly where each state can be entered from, and none from itself |
| Runs.StepIsGood | orchestrator/services/leases.py:97-639 | every transaction, from every state satisfying the invariant, keeps it and undoes nothing; the only refusals are the fence of a lease write and the cancel of an unknown or terminal job, so no claim, renewal, completion, failure, sweep or detector pass past its guards can meet an illegal transition |
| Runs.ReachableInv | orchestrator/services/leases.py:97-823 | the whole invariant (cohort shape, counters, audit log) holds after every sequence of transactions from an empty database |
| Guarantees.CohortPromise | orchestrator/models/lease.py:17-23 | SCHEDULED: every rank holds one PENDING lease; LEASED/RUNNING: every rank holds one live lease and some lease is ACTIVE; QUEUED/REASSIGNED/FAILED/CANCELLED: nothing live; older attempts hold only terminal leases; never two live leases for one rank of a job |
| Guarantees.CountersPromise | orchestrator/services/leases.py:594-607 | in every reachable state a node's success count is its number of COMPLETED leases and its failure count its number of FAILED plus EXPIRED ones |
| Guarantees.BudgetPromise | orchestrator/services/leases.py:477-541 | a job is FAILED exactly when its failed attempts exceed the retry limit, and then by exactly one; for a job not COMPLETED the count is its number of FAILED leases, whatever sweeps and detector passes came in between |
| Guarantees.AuditPromise | orchestrator/services/jobs.py:50-102 | every job's log starts at its creation, each row starts where the one before ended and follows the table or stays put, and the last is the job's state; the end time is stamped exactly on terminal jobs; the rendezvous host of a placed job is its rank 0 |
| Guarantees.ClaimNeverStale | orchestrator/services/leases.py:137-146 | the stale-slot branch of a claim is never taken: every slot it can select is of the current attempt, and granting it succeeds |
| Deadlines.SweepNeverStale | orchestrator/services/leases.py:755-770 | the sweep's uncharged cleanup branch never finds a row: every row it selects is a live, unheld one past its deadline, and of the current attempt |
| Deadlines.DeadlinePromise | orchestrator/services/leases.py:154-297 | in every reachable state every lease runs out one TTL after its last renewal, or, never renewed, after it was offered or claimed |
| Deadlines.RenewalHolds | orchestrator/services/leases.py:266-299 | a renewal at t moves the deadline to t + ttl and touches no other lease; in every later run no sweep up to that time makes the lease EXPIRED, as long as its node is not declared dead and its holder renews with no earlier time |
| Deadlines.SweptLease | orchestrator/services/leases.py:718-783 | whatever rows a sweep skips, a lease becomes EXPIRED exactly when it was ACTIVE, unheld and past its deadline, UNCLAIMED exactly when it was PENDING so, RELEASED exactly when it was live and a sibling ran out; every other row is untouched |
| Deadlines.SweptJob | orchestrator/services/leases.py:731-812 | a job that lost a lease, unless COMPLETED, is REASSIGNED and placed nowhere, with exactly one event; every other job keeps its row and its log |
| Deadlines.SweptNode | orchestrator/services/leases.py:594-624 | a node is charged once for each ACTIVE lease of its own that ran out and backed off exactly when an offer to it did and backing off is on; nothing else of it changes |
| Deadlines.QuietSweep | orchestrator/services/leases.py:717-729 | a sweep that finds no live unheld row past its deadline changes nothing at all |
| Effects.Entered | orchestrator/services/jobs.py:105-143 | creation, registration, a status change and a note each add or set their own row and leave everything else as it was |
| Effects.Placed | orchestrator/services/scheduling.py:573-652 | over reachable databases a placement leaves every old lease alone, gives rank r of the cohort's r-th node an offer good for one TTL at one new epoch, and makes rank 0's node the host |
| Effects.Claimed | orchestrator/services/leases.py:148-178 | a claim of an offer to its node always succeeds: ACTIVE for one TTL, the job LEASED and its clock started by the first rank, one row in the log either way |
| Effects.ClaimedNothing | orchestrator/services/leases.py:118-142 | whatever is no offer to the node, or of a superseded attempt, a claim leaves alone |
| Effects.FenceExact | orchestrator/services/leases.py:181-227 | each refusal of the fence, and passing it, exactly: unknown, another node's, an epoch that is not both the lease's and the job's, not ACTIVE |
| Effects.HolderPasses | orchestrator/services/leases.py:181-227 | in reachable databases the holder of an ACTIVE lease naming its own epoch is never fenced out |
| Effects.Renewed | orchestrator/services/leases.py:266-299 | over reachable databases a renewal sets its lease's clock, moves a LEASED job to RUNNING with one event, and touches nothing else |
| Effects.CompletedNow | orchestrator/services/leases.py:353-417 | every accepted completion leaves the job COMPLETED, finished when the first rank completed, with the better result kept, the lease settled, the node credited and one row in the log |
| Effects.FailedNow | orchestrator/services/leases.py:420-543 | every accepted failure, row by row: the lease FAILED, the live leases of a live job RELEASED, the job REASSIGNED within its budget and FAILED past it, the node charged and backed off exactly when the job is retried |
| Guarantees.DetectClears | orchestrator/services/failure_detection.py:287-351 | after a detector pass every node it declared dead is OFFLINE and holds no live lease, for any verdicts and any order |
| Effects.DeclaredLease | orchestrator/services/failure_detection.py:217-284 | a node declared dead loses exactly its live leases, EXPIRED; the other live leases of the jobs it held are RELEASED; every other lease is untouched |
| Effects.DeclaredJob | orchestrator/services/failure_detection.py:242-281 | exactly the jobs it held a live lease of, unless COMPLETED, are REASSIGNED and placed nowhere, with one event |
| Effects.DeclaredNode | orchestrator/services/failure_detection.py:263-281 | it is OFFLINE and charged once for each live lease it held; no other node changes |
| Effects.NotDeclared | orchestrator/services/failure_detection.py:299-306 | a node that is not ONLINE is never declared dead |
| Effects.CancelledNow | orchestrator/services/jobs.py:183-218 | a cancel is refused exactly for an unknown or finished job; else the job is CANCELLED now, all its live leases RELEASED, and no node charged |
| Guarantees.FirstDeadPays | orchestrator/services/failure_detection.py:254-281 | of two nodes of one attempt that die together only the one reached first is charged; its declaration releases the other's lease |
| Guarantees.TearsDown | orchestrator/services/leases.py:625-639 | an attempt is torn down once a later one is minted, and already when its job is REASSIGNED, FAILED or CANCELLED, before the epoch moves |
| Guarantees.FencedForever | orchestrator/services/leases.py:181-227 | after any further run no lease of a torn-down attempt has changed or been added, and every renew, complete or fail naming one is refused |
| Guarantees.Absorbing | orchestrator/models/job.py:69-105 | terminal leases and terminal jobs never change again, start and end stay as first stamped, epochs never decrease, logs only grow |
| Guarantees.ResultPromise | orchestrator/services/leases.py:376-392 | if exactly one accepted completion in a run carries metrics, the job's result ends as that payload, wherever it falls among the others |
| Guarantees.MetricsNeverLost | orchestrator/services/leases.py:302-312 | once a job's result carries metrics it does so in every later state |
| Batching.TeardownTwice | orchestrator/services/leases.py:552-639 | two teardowns in a row are one, as long as the second loses no lease of an attempt the first doomed |
| Batching.SweepTwice | orchestrator/services/leases.py:731-812 | sweeping one set of overdue rows and then another is sweeping both at once, so the order in which jobs are taken does not matter |
| LeaseService.Service.TransitionJob | orchestrator/services/jobs.py:74-102 | moves the job, stamps its times and appends its row, or refuses and leaves everything untouched |
| LeaseService.Service.CreateJob | orchestrator/services/jobs.py:105-143 | one new QUEUED job at epoch 0 with its creation row |
| LeaseService.Service.PlaceJobCohort | orchestrator/services/scheduling.py:573-652 | the epoch advances by one and every rank gets one PENDING slot stamped with it; rank 0 is the rendezvous host; the job is SCHEDULED |
| LeaseService.Service.ClaimJobForNode | orchestrator/services/leases.py:97-178 | activates the lowest-epoch free PENDING slot of the node, or is empty-handed exactly when there is none or it is of a superseded attempt; what it grants was PENDING, its own and held by no other transaction |
| LeaseService.Service.LoadFenced | orchestrator/services/leases.py:181-227 | refuses in order: unknown lease, wrong owner, stale epoch, not ACTIVE |
| LeaseService.Service.ReleaseCohortSiblings | orchestrator/services/leases.py:230-263 | releases exactly the live leases of the attempt that are not excluded, and counts them |
| LeaseService.Service.RenewLease | orchestrator/services/leases.py:266-299 | past the fence extends the lease, and the first renewal moves the job to RUNNING |
| LeaseService.Service.CompleteLease | orchestrator/services/leases.py:353-417 | past the fence settles the lease, credits its node, keeps the better result and completes a live job or notes the late one |
| LeaseService.Service.FailLease | orchestrator/services/leases.py:420-543 | past the fence charges the node and, for a live job, tears the attempt down and requeues it within the budget or fails it past it |
| LeaseService.Service.ReassignJobAttempt | orchestrator/services/leases.py:552-639 | the one teardown path: failed leases EXPIRED and charged, unclaimed ones UNCLAIMED and backed off, the rest of the cohort RELEASED, the job REASSIGNED if it still can be |
| LeaseService.Service.SweepExpiredLeases | orchestrator/services/leases.py:687-823 | for every order of the jobs and every skipped row the state is that of tearing all doomed attempts down at once, and the number returned is that of the live unheld rows past their deadline |
| LeaseService.ReleaseExact | orchestrator/services/leases.py:246-263 | a release touches the attempt's own live leases, less the excluded ones, and no other row |
| LeaseService.MovedExact | orchestrator/services/failure_detection.py:242-284 | the jobs returned are those the node holds a current live lease of and that have not ended |
| LeaseService.Service.ReassignNodeJobs | orchestrator/services/failure_detection.py:217-284 | every current lease of a dead node fails its attempt once; returns exactly the jobs that moved |
| LeaseService.Service.RunFailureDetectionPass | orchestrator/services/failure_detection.py:287-351 | exactly the suspected, unlocked ONLINE nodes are declared dead, each once, in some order |
| LeaseService.Service.CancelJob | orchestrator/services/jobs.py:183-218 | releases every live lease and cancels, or is refused with everything rolled back |
| CheckpointAccess.OwnKeysBelong | orchestrator/services/checkpoint_access.py:59-74 | the manifest and blob keys a trainer writes for its own job are always keys of that job |
| CheckpointAccess.KeyExact | orchestrator/services/checkpoint_access.py:59-74 | the keys of a job are exactly its manifest and the plain file names right inside its folder |
| CheckpointAccess.NoSharedKey | orchestrator/services/checkpoint_access.py:59-74 | no key belongs to two different jobs, whatever the ids look like |
| CheckpointAccess.StatusAgreesWithFence | orchestrator/services/checkpoint_access.py:86-111 | a holder gets 404 exactly for a lease that does not exist and 409 exactly when the lease endpoints would refuse it as stale or not active |
| CheckpointAccess.ForbiddenExact | orchestrator/services/checkpoint_access.py:86-141 | every other refusal is a 403, exactly for a token of another lease or job, a write by any rank but 0, or a key that is not the job's own |
| CheckpointAccess.OneWriter | orchestrator/services/checkpoint_access.py:114-141 | two leases of one job allowed to write at the same moment are the same lease |
| CheckpointAccess.WriteIsFenced | orchestrator/services/checkpoint_access.py:77-141 | a write is allowed exactly to the token's own lease, rank 0, a key of its own job, when the fence of the lease endpoints would pass; such a key is of no other job |
| CheckpointAccess.NoAccessAfterTeardown | orchestrator/services/checkpoint_access.py:105-110 | in no later state is any lease of a torn-down attempt allowed to read or write a checkpoint, including before the epoch moves |
| PosixPath.PlainPath | orchestrator/services/checkpoint_access.py:67-70 | a relative path of plain components is its own normal form and splits into those components |
| CheckpointStore.ObjectStore.GetManifest | trainer/checkpoint.py:98-105 | the manifest, None when there is none, an error when the request or the parse fails |
| CheckpointStore.ObjectStore.SaveCheckpoint | trainer/checkpoint.py:120-166 | for every pattern of failing requests, exactly what is left in the store; an entry is returned exactly when every request succeeded, and is then the latest |
| CheckpointStore.SaveIsAtomic | trainer/checkpoint.py:130-165 | whichever request fails, the manifest is untouched or extended by the new entry, and everything it names is stored whole |
| CheckpointStore.SaveIsThreeSteps | trainer/checkpoint.py:139-166 | the three steps of the concurrent model, run without interruption, leave the store this method leaves |
| Checkpoints.LandedAppends | trainer/checkpoint.py:154-165 | the manifest a writer read is still the stored one when its write is let through, so the write appends exactly its entry |
| Checkpoints.ActKeeps | trainer/train.py:1308-1415 | every trainer step and every lease transaction keeps the whole-system invariant |
| Checkpoints.NoLostUpdate | trainer/checkpoint.py:120-166 | under every interleaving of lease transactions with any number of trainers' saves and any failing requests, each job's checkpoint list only grows at its end and no stored blob is altered or lost |
| Checkpoints.SavedForever | trainer/checkpoint.py:154-166 | an entry whose manifest write lands stays in the list for ever, at the position it was appended at |
| Checkpoints.ResumeSound | trainer/train.py:1308-1341 | the latest entry is the last of the list, names a stored blob holding the same epoch and step, and every epoch before the one it resumes into was run to its end by some attempt |
| Resuming.Resumes | trainer/train.py:1317-1328 | from every state satisfying the invariant, a trainer launched by any rank of the live attempt, its reads going through, is at exactly the latest checkpoint's epoch and step, and nothing else has changed |
| Resuming.StartsFresh | trainer/train.py:1314-1341 | it starts at epoch 1, step 0 when there is no checkpoint, its manifest read fails or its lease is not live; the run stays clean unless that makes the writer miss a checkpoint |
| Resuming.LostBlobKills | trainer/train.py:1323 | a trainer that cannot fetch the blob it was to resume from dies and leaves no other mark |
| Resuming.ResumesAhead | trainer/train.py:1308-1328 | while no read was missed, an attempt that resumes starts not before any checkpoint in the list, with every earlier epoch run to its end |
| Resuming.OneUploadAtATime | trainer/train.py:1375-1415 | a save asked for while an upload runs is dropped; else a snapshot of the position is what is uploaded |
| Resuming.ShutOut | orchestrator/services/checkpoint_access.py:77-141 | a trainer whose lease is not live any more is shut out at its next request, whichever that is, and the store is untouched |
| Resuming.OnlyRankZeroWrites | orchestrator/services/checkpoint_access.py:135-139 | ranks other than 0 write nothing |
| Checkpoints.NeverBackwards | trainer/train.py:1392-1504 | resume positions in a job's list never go backwards, across attempts, as long as no trainer that may write missed the checkpoint it had to resume from |
| MissedReads.FirstSaveIsFirst | trainer/train.py:1428-1504 | the first position a loop started afresh saves at is (1, interval), or the end of the first epoch when that comes sooner or there is no interval; every other position it saves at is not before it |
| MissedReads.SaveLands | trainer/train.py:1375-1415 | a save of the trainer that may write, with nothing failing, stores one blob and appends one entry at the trainer's position, and changes nothing else |
| MissedReads.MissedReadGoesBack | trainer/train.py:1317-1341 | when a rank-0 trainer misses an existing checkpoint, trains afresh and its first save to land is taken at any position of its loop, the list stays in order if and only if the missed checkpoint is not after that position |
| MissedReads.MissedRunsHarmless | trainer/train.py:1317-1504 | so from every such state every missed run of the loop, whichever of its saves is the first to land, keeps the list in order if and only if the missed checkpoint is not after the first position the loop saves at |
| MissedReads.GoesBackwards | trainer/train.py:1320-1321 | under every setting some reachable state has a list out of order: two saves, a lapsed lease, and a next attempt that misses the manifest |
| Text.IncreasingUnique | orchestrator/services/dataset_layout.py:304-312 | a sorted list of distinct strings is determined by its elements |
| Text.LessExact | orchestrator/services/dataset_layout.py:304 | strings are ordered by the first place where they differ, one that ends there first |
| Text.SortSet | orchestrator/services/dataset_layout.py:304-306 | the strings of a set in increasing order, each once |
| ArchivePaths.SafePathExact | orchestrator/services/dataset_archive.py:126-142 | a member name is safe exactly when it is relative, has no drive, and, read with either slash, never climbs above the extraction directory on its way |
| ArchivePaths.MemberExact | orchestrator/services/dataset_archive.py:119-157 | a member is unsafe exactly when it is not metadata and leaves the directory or is neither a regular file nor a directory |
| ArchivePaths.RegularExact | orchestrator/services/dataset_archive.py:145-157 | of the Unix file types only regular files, directories and no type at all are let through, whatever the permissions |
| ArchivePaths.IgnorableExact | orchestrator/services/dataset_archive.py:119-123 | metadata is what lies in a top folder __macosx and the two metadata files wherever they lie |
| ArchivePaths.PlacementExact | orchestrator/services/dataset_archive.py:205-218 | a member sits in a class exactly when its normalised name is split/class/file, in at most one wrapper |
| ArchivePaths.AcceptableExact | orchestrator/services/dataset_archive.py:160-280 | the archive's verdict as a whole: limits, safety, image types, and the same classes in both splits |
| Labels.NormIs | orchestrator/services/dataset_layout.py:131-132 | a directory's name is compared in lower case and without separators, wherever they stand |
| Labels.NormDrops | orchestrator/services/dataset_layout.py:131-132 | and no separator is left in it, whatever characters it holds |
| Labels.KnownNames | orchestrator/services/dataset_layout.py:58-101 | the documented directory names mean what the documentation says |
| Labels.MeaningfulJoin | orchestrator/services/dataset_layout.py:166 | empty components and `.` ones, wherever they stand, make no difference |
| Labels.RebuiltRun | orchestrator/services/dataset_layout.py:95-138 | each whole run of characters outside the allowlist becomes one underscore, and what surrounds it is rebuilt on its own |
| Labels.SafeClassKeeps | orchestrator/services/dataset_layout.py:135-138 | white space, then dots, underscores and hyphens, go from both ends, and of a text that is safe already the first 64 characters are the class |
| Labels.NoClass | orchestrator/services/dataset_layout.py:135-138 | a text of nothing but white space, or of nothing but dots, underscores and hyphens, names no class |
| Labels.NoSuffix | orchestrator/services/dataset_layout.py:245 | a name without a dot, or with nothing but dots before its last, has no suffix |
| Labels.ImageTypes | orchestrator/services/dataset_layout.py:245-247 | the image types, by the text after a name's last dot |
| Labels.TokenExact | orchestrator/services/dataset_layout.py:141-154 | the label in a file name is the token before its first dot, failing that underscore, failing that hyphen; none when each is empty or a number |
| Labels.LabelExact | orchestrator/services/dataset_layout.py:157-189 | over a path's components: a member has a split and a class exactly when it is an image file, no directory is to be ignored, the last directory naming a split names that one, and the holding directory or the file's token gives the class |
| Labels.LastSplitDecides | orchestrator/services/dataset_layout.py:157-189 | whatever wrapper it stands in, the last directory naming a split decides it |
| Labels.DoubledLayout | orchestrator/services/dataset_layout.py:160-163 | a doubled split directory at any depth resolves as a single one, and the class directory below keeps its name |
| Labels.FlatLayout | orchestrator/services/dataset_layout.py:141-154 | a file right inside a split directory takes its class from the token before the first dot |
| Labels.PlanPlacesWell | orchestrator/services/dataset_layout.py:289-313 | every entry of a plan puts its image into the split its last split-naming directory names, or, when the class came with no test images at all, a training image into test/ |
| Labels.TestStaysTest | orchestrator/services/dataset_layout.py:294-313 | every test image supplied, of a class that is kept, stays in test/ under its class |
| Labels.TargetExact | orchestrator/services/dataset_layout.py:309-313 | a target is its folder, the place's number in six digits or as many as it takes, and the source's suffix in lower case |
| DatasetLayout.SafeClass | orchestrator/services/dataset_layout.py:135-138 | a class name is 1 to 64 characters of the allowlist and does not start with a dot, underscore or hyphen |
| DatasetLayout.ClassifyPath | orchestrator/services/dataset_layout.py:157-189 | the scan over a path's directories: none of them may be an ignored one, the last naming a split decides it, the class is the holding directory or the file name's first token |
| DatasetArchive.Examine | orchestrator/services/dataset_archive.py:189-227 | what one member changes, and exactly when it refuses the upload |
| DatasetArchive.Walk | orchestrator/services/dataset_archive.py:185-227 | the walk fails only for an unacceptable archive, and otherwise its byte count and per-class counts are exact |
| DatasetArchive.SummarizeDatasetArchive | orchestrator/services/dataset_archive.py:160-280 | a summary exactly for archives that pass every limit, path, mode, suffix and class check, with the sorted classes and the exact per-class counts and bytes |
| DatasetProofs.ExtensionOfSlashed | orchestrator/services/dataset_layout.py:240-246 | the suffix read off a raw member name, backslashes and all, is the suffix of its base name |
| DatasetProofs.TargetAccepted | orchestrator/services/dataset_layout.py:308-313 | the validator finds nothing wrong with a generated target and places it in the split and class it was made for |
| DatasetProofs.TargetInjective | orchestrator/services/dataset_layout.py:309-313 | two different places of a plan never get the same target |
| DatasetProofs.CarvedClass | orchestrator/services/dataset_layout.py:289-302 | a class of distinct members without test images and large enough gives every stride-th member, ceil(m/stride) of them, to test and keeps at least one in train; any other class is untouched |
| DatasetProofs.StrideExact | orchestrator/services/dataset_layout.py:293 | the stride is 0 when nothing is held out, else the whole number nearest to the reciprocal, the even one of two, and at least 2 |
| DatasetProofs.KeepInOrder | orchestrator/services/dataset_layout.py:297-301 | what is kept keeps its order |
| Normalisation.NothingLost | orchestrator/services/dataset_layout.py:289-313 | every labelled member of a kept class is the source of exactly one entry, and every entry's source is such a member |
| Normalisation.ClassConserved | orchestrator/services/dataset_layout.py:294-302 | carved or not, a class is placed member for member, however often a name repeats |
| Normalisation.ClassCheck | orchestrator/services/dataset_archive.py:229-258 | for every upload, repeated names and all, the validator's class check passes on the output if and only if every kept class keeps something to train on: it is not carved, or some training name of it stands at no multiple of the stride |
| Normalisation.OutputAccepted | orchestrator/services/dataset_layout.py:192-348 | for every upload that gets a plan the targets are pairwise distinct, and an archive of exactly them passes the validator if and only if every kept class keeps something to train on, the members read come to no more than the byte limit, and the number of classes is within its bounds |
| Normalisation.DistinctNamesSuffice | orchestrator/services/dataset_layout.py:289-313 | when no member name repeats the first two conditions always hold, so only the bounds on the number of classes can refuse the output |
| Normalisation.CopiesRefused | orchestrator/services/dataset_layout.py:296-302 | one training image stored at least stride times is, for every stride and number of copies, planned entirely into test/ and the result refused |
| Planner.Take | orchestrator/services/dataset_layout.py:228-275 | one member of the planning walk: when it refuses the upload, and which group and byte count it adds to |
| Planner.Collect | orchestrator/services/dataset_layout.py:214-275 | the walk refuses exactly the dangerous uploads, and otherwise groups every labelled member in archive order |
| Planner.Carve | orchestrator/services/dataset_layout.py:294-302 | in whatever order the classes are taken, each is carved exactly when it has no test images and is large enough, and left alone otherwise |
| Planner.Number | orchestrator/services/dataset_layout.py:308-313 | the entries of one split, class by class, numbered from zero within each |
| Planner.PlanNormalization | orchestrator/services/dataset_layout.py:192-348 | refused exactly when dangerous, unrecognised exactly when no class has both splits, else the numbered entries of the kept classes in sorted order; every entry puts its image into the split its last split-naming directory names, or was carved for a class without test images |
| Upload.RewriteArchive | orchestrator/services/dataset_layout.py:351-380 | the copy is made exactly when the members read come to no more than the byte limit, and is then the archive of the plan's targets |
| Upload.PrepareArchive | orchestrator/api/datasets.py:142-200 | an upload is stored if and only if the validator accepts it, or normalising is on and its rearrangement would be accepted; what the validator accepts is stored as it came; whatever is stored is acceptable and the summary describes it |
| Download.ByteRange | orchestrator/api/leases.py:340-356 | a range it returns lies inside the object |
| Download.SingleRange | orchestrator/api/leases.py:347-356 | a single range is answered exactly as section 14.1.2 of RFC 9110 says: clipped to the end, and no range when it starts past the end or past its own last position |
| Download.OnlySingleRanges | orchestrator/api/leases.py:343-351 | every header other than a single byte range gets the whole object |
| Download.TotalRoundTrip | orchestrator/api/leases.py:413-417 | the client reads the true size back from the Content-Range the server wrote |
| Download.PieceRoundTrip | trainer/train.py:563-582 | asking for a piece and reading a complete reply, ranged or full, however little a ranged one carries, gives exactly the next bytes of the archive and its true size |
| Download.FetchPiece | trainer/train.py:564-590 | up to five tries, each failure retried: out of tries exactly when five in a row failed, broken off exactly when a body ended before the length announced, else the next bytes of the archive |
| Download.DownloadAndVerify | trainer/train.py:531-608 | for every size, piece size and sequence of replies the download ends where the course of positions says; it crashes exactly at the first body that breaks off, gives up exactly after five failures in a row, and otherwise verifies the archive if and only if no ranged reply came back empty |
| Download.RetriedUnlessBroken | trainer/train.py:555-590 | a download goes as if every body that breaks off were retried like a failure if and only if none of the requests it would then make breaks off; otherwise it crashes |
| Download.OneBreakEnds | trainer/train.py:566-583 | for every archive, piece size and place: one failed request among whole replies costs nothing, one body that breaks off ends the download there |
| Sharding.EqualShards | trainer/train.py:426-440 | every rank gets exactly ceil(n/world) examples if and only if there are none at all or at most twice as many ranks as examples |
| Sharding.ShardAt | trainer/train.py:433-437 | a rank's i-th example is the one at place rank + i * world of the order, started over from the front past its end, and a rank sees as many as there are such places |
| Sharding.ServedOnce | trainer/train.py:433-435 | one epoch over all ranks serves the whole order and its first total-n examples once more; total-n is less than the number of ranks |
| Sharding.NoneLeftOut | trainer/train.py:433-435 | every example is served once or twice, twice exactly when among those first ones |
| Sharding.Batches | trainer/train.py:442-451 | the batches joined are the shard, all but the last full, none empty, and as many as announced |
| Sharding.LengthIsRight | trainer/train.py:438-440 | the announced number of batches is right on every rank if and only if there are no examples or at most twice as many ranks as examples |
| Sharding.HostBatches | trainer/train.py:894-911 | gathered from the host, a rank's batches are the same cuts with the indices of each in increasing order, and together exactly its shard |
| Reliability.WilsonRange | orchestrator/schedulers/reliability.py:44-66 | both clamps are inert: the result is the formula's own value, in [0, s/(s+f)] and below 1 |
| Reliability.MoreSuccesses | orchestrator/schedulers/reliability.py:44-66 | more successes never lower the bound |
| Reliability.MoreFailures | orchestrator/schedulers/reliability.py:44-66 | more failures never raise it |
| Reliability.SmallerRoot | orchestrator/schedulers/reliability.py:57-66 | the result w solves (s - n w)^2 = n z^2 w (1 - w) at or below the observed ratio, and is the largest point there at which the left side is not the smaller |
| Reliability.DecayFades | orchestrator/schedulers/reliability.py:29-41 | an outcome weighs 1 at age 0 and before, and always when decay is off; every further half-life halves its weight; the weight stays in (0, 1] and never grows with age |
| Reliability.Recovers | orchestrator/services/scheduling.py:407-413 | as a node's failures age, all else fixed, its reliability never falls |
| Adaptive.NormalizedRange | orchestrator/schedulers/adaptive.py:118-153 | every normalised load or latency lies in [0, 1] |
| Adaptive.NormalizedGap | orchestrator/schedulers/adaptive.py:126-141 | two normalised values differ by at most their raw difference over the significant spread |
| Preferences.NormalizedExact | orchestrator/schedulers/adaptive.py:148-153 | a known value is normalised to its distance from the pool's least over the wider of the pool's spread and the significant one; an unknown one to 1 |
| Preferences.SlownessExact | orchestrator/schedulers/adaptive.py:163-168 | a measured speed counts as its shortfall from the fastest in proportion, an unmeasured one as a half |
| Preferences.SlownessInert | orchestrator/schedulers/adaptive.py:164-166 | with no speed measured the term is 0 for everyone |
| Preferences.BetterIsPreferred | orchestrator/schedulers/adaptive.py:171-255 | a candidate no worse on load, latency, speed and reliability, and strictly better on one with weight, stands before the other in every top n that holds the other |
| Preferences.TopNIsBest | orchestrator/schedulers/adaptive.py:246-255 | the top n holds as many as asked for or all there are, in strict order, and none left out is better than one chosen |
| Adaptive.SlownessRange | orchestrator/schedulers/adaptive.py:156-168 | slowness lies in [0, 1) and is 0 for the fastest measured candidate |
| Adaptive.SlownessScaleFree | orchestrator/schedulers/adaptive.py:159-162 | slowness does not depend on the unit speeds are measured in |
| Adaptive.JitterCannotOutvote | orchestrator/schedulers/adaptive.py:171-210 | when the weighted reliability gap exceeds the weighted gaps in load and latency plus the weighted slowness gap, the more reliable node scores lower; a gap is at most the raw one over the significant spread and at most 1, and an unmeasured reading counts as worst |
| Adaptive.UnreliableNeverAhead | orchestrator/schedulers/adaptive.py:246-255 | then the less reliable node stands in no top n unless the more reliable one stands before it |
| Adaptive.OrderIndependent | orchestrator/schedulers/adaptive.py:171-255 | with unique names the top n is the same list for every ordering of the candidates |
| Adaptive.RankUnique | orchestrator/schedulers/adaptive.py:229-232 | there is only one order of a set of candidates by score and name |
| Adaptive.BestIsFirst | orchestrator/schedulers/adaptive.py:235-255 | the best candidate is the first of the top n, for every n |
| LogLines.IterSingleStreamLines | agent/runtime/docker_launcher.py:445-484 | however a stream is cut into chunks, the emitted lines are the newline split of the whole decoded text, trailing carriage returns stripped and empty lines dropped |
| LogLines.LinesComeBack | agent/runtime/docker_launcher.py:469-484 | lines written one by one, each ended by a newline with any number of carriage returns before it, come back as the same lines in order, save the empty ones |
| LogLines.SplitAppend | agent/runtime/docker_launcher.py:469-470 | more text only continues the last, unfinished line |
| LogLines.LinesAreWhole | agent/runtime/docker_launcher.py:471-484 | no emitted line is empty, holds a newline or ends in a carriage return |

## Left out

- Database and locking internals: sessions, row locks, flushes and key-share modes, beyond which rows a query selects.
- The choice of a cohort (`orchestrator/services/scheduling.py:503-572`): filters, defer rule, same-network grouping
  and rendezvous choice; any list of known nodes is allowed, so the guarantees hold for every choice.
- The accrual detector's arithmetic (`orchestrator/services/failure_detection.py:104-179`): the verdict is arbitrary.
- Checkpoints.NeverBackwards: asks only that the trainers that may write found the checkpoint there was; the other
  ranks' reads do not matter.
- Checkpoints.ActKeeps: a trainer may take any number of steps and epochs and save at any of them, which covers the
  configured number of epochs, the save interval and waiting for the previous upload.
- The trainer's loop is modelled as steps on values, not as a method, because its steps interleave with everything else.
- Direct access to an S3 store with a trainer's own credentials (`trainer/checkpoint.py:169-244`): its requests do
  not go through the lease check, so none of the checkpoint results apply to it.
- Manifest fields that carry no decision: timestamps, schema version, job id.
- The stored speed of a completed attempt, plain-language messages, event details and metrics counters.
- `last_assigned_at` and heartbeat times of nodes.
- Notes and the number of carved images of a normalisation plan, and which of several faults a refusal names.
- DatasetLayout.Stride: the reciprocal of the test fraction is exact where the code divides in floating point.
- Upload.RewriteArchive: members are copied whole, where the code copies a chunk at a time, and a member is taken to
  hold as many bytes as it declares; the bytes themselves and temporary files are not modelled.
- Zip parsing, and member names a zip reader itself rewrites.
- Download.SingleRange: digits are ASCII; Python's `isdigit` also accepts other digit characters, some of which `int`
  then refuses.
- Download.DownloadAndVerify: a reply without a readable Content-Range does not occur, since the server modelled here
  always writes one; nor does a complete full reply that carries less than the archive. Any exception the client does
  not catch counts as a body that breaks off. Backoff times and progress reports are not modelled. The digest is any
  function.
- Sharding.EqualShards: n/world is rounded up exactly, where the code divides in floating point first.
- Shuffling, augmentation, gathering and the prefetch thread: any order of the examples is allowed.
- Reliability.WilsonRange: rounding of floating-point arithmetic is not modelled, so the clamps' purpose of absorbing
  it is not either.
- MissedReads.MissedReadGoesBack: earlier saves of the run are taken to be skipped or lost before they reach the store,
  and the number of epochs is not bounded.
- Adaptive.JitterCannotOutvote: load and latency weights are not negative.
- LogLines.IterSingleStreamLines: each chunk is decoded by itself, as the code does; a chunk boundary inside a
  multi-byte character therefore shows up in the text, and only otherwise are the lines those of the whole stream.
- Authentication, tokens' signatures, HTTP handlers, agents, containers, model training itself, the dashboard.
