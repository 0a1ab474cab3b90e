/** What becomes of an uploaded dataset archive: stored as it is, stored rearranged, or refused
    (orchestrator/api/datasets.py, and the rewriting in orchestrator/services/dataset_layout.py). */
module Upload {
  import opened Model
  import opened Text
  import opened DatasetArchive
  import opened DatasetLayout
  import opened Normalisation
  import Planner

  /** The Unix mode a written member carries: 0o600, without file-type bits. */
  const WRITTEN_MODE: nat := 384

  lemma {:induction false} BytesUpTo(infos: seq<Member>, entries: seq<Entry>, i: nat)
    requires i <= |entries|
    ensures PlannedBytes(infos, entries[..i]) <= PlannedBytes(infos, entries)
    decreases |entries|
  {
    if i < |entries| {
      assert entries[..|entries| - 1][..i] == entries[..i];
      BytesUpTo(infos, entries[..|entries| - 1], i);
    } else {
      assert entries[..i] == entries;
    }
  }

  /** The plan's members copied out under their targets, metered as they are read; None once they come to
      more than `maxBytes`. */
  method RewriteArchive(infos: seq<Member>, entries: seq<Entry>, maxBytes: nat) returns (out: Option<seq<Member>>)
    ensures out.Some? <==> PlannedBytes(infos, entries) <= maxBytes
    ensures out.Some? ==> Rewritten(infos, entries, out.value)
  {
    hide OpenedSize;
    var destination: seq<Member>, written := [], 0;
    var i := 0;
    while i < |entries|
      invariant 0 <= i <= |entries| && |destination| == i
      invariant written == PlannedBytes(infos, entries[..i]) <= maxBytes
      invariant forall k {:trigger destination[k]} | 0 <= k < i :: IsCopy(infos, entries[k], destination[k])
    {
      var size := OpenedSize(infos, entries[i].source);
      assert entries[..i + 1][..i] == entries[..i];
      BytesUpTo(infos, entries, i + 1);
      written := written + size;
      if written > maxBytes {
        return None;
      }
      destination := destination + [Member(entries[i].target, size, WRITTEN_MODE)];
      i := i + 1;
    }
    assert entries[..i] == entries;
    out := Some(destination);
  }

  /** `classes` lists the kept classes, and an archive of their entries would be accepted. */
  ghost predicate Rearrangeable(u: Unicode, infos: seq<Member>, lim: Limits, stride: nat, classes: seq<string>) {
    && Increasing(classes) && Elements(classes) == KeptClasses(u, infos, stride) != {}
    && (forall c | c in classes :: KeepsTraining(u, infos, stride, c))
    && PlannedBytes(infos, Entries(u, infos, stride, classes)) <= lim.maxBytes
    && lim.minClasses <= |Elements(classes)| <= lim.maxClasses
  }

  /** Whether rearranging saves an upload the validator refuses. */
  ghost predicate Salvageable(u: Unicode, infos: seq<Member>, lim: Limits, stride: nat) {
    !Dangerous(u, infos, lim.maxFiles, lim.maxBytes) && exists classes :: Rearrangeable(u, infos, lim, stride, classes)
  }

  /** `s` describes an archive. */
  ghost predicate Describes(u: Unicode, s: Summary, archive: seq<Member>) {
    && Increasing(s.classes) && Elements(s.classes) == Classes(u, archive, Train)
    && Tallies(u, archive, Train, s.train) && Tallies(u, archive, Test, s.test)
    && s.bytes == Declared(u, archive)
  }

  /** The archive stored for an upload and its summary. An upload is stored exactly when the validator
      accepts it, or it is rearranged and can be salvaged; what the validator accepts is stored as it came;
      and whatever is stored the validator accepts and the summary describes. */
  method PrepareArchive(u: Unicode, infos: seq<Member>, lim: Limits, normalize: bool, testFraction: real)
    returns (stored: Option<(seq<Member>, Summary)>)
    requires u.Valid()
    ensures stored.Some? <==>
            Acceptable(u, infos, lim) || (normalize && Salvageable(u, infos, lim, Stride(testFraction)))
    ensures stored.Some? ==> Acceptable(u, stored.value.0, lim) && Describes(u, stored.value.1, stored.value.0)
    ensures Acceptable(u, infos, lim) ==> stored.value.0 == infos
    ensures stored.Some? && !Acceptable(u, infos, lim) ==>
              exists classes :: Rearrangeable(u, infos, lim, Stride(testFraction), classes)
                && Rewritten(infos, Entries(u, infos, Stride(testFraction), classes), stored.value.0)
  {
    hide Acceptable, Tallies, Classes, Declared, Dangerous, KeptClasses, Entries, Rewritten, Increasing, Stride,
        PlannedBytes, KeepsTraining, Elements;
    var summary := SummarizeDatasetArchive(u, infos, lim);
    if summary.Some? {
      return Some((infos, summary.value));
    }
    if !normalize {
      return None;
    }
    ghost var stride := Stride(testFraction);
    var plan, classes := Planner.PlanNormalization(u, infos, lim.maxFiles, lim.maxBytes, testFraction);
    if plan == Refused {
      return None;
    }
    if plan == Unrecognised {
      return None;
    }
    OneListing(u, infos, lim, stride, classes);
    var rewritten := RewriteArchive(infos, plan.plan.entries, lim.maxBytes);
    if rewritten == None {
      return None;
    }
    OutputJudged(u, infos, lim, stride, classes, rewritten.value);
    var again := SummarizeDatasetArchive(u, rewritten.value, lim);
    stored := if again == None then None else Some((rewritten.value, again.value));
  }

  /** There is only one listing of the kept classes to be salvageable with. */
  lemma OneListing(u: Unicode, infos: seq<Member>, lim: Limits, stride: nat, classes: seq<string>)
    requires Increasing(classes) && Elements(classes) == KeptClasses(u, infos, stride)
    ensures forall other | Rearrangeable(u, infos, lim, stride, other) :: other == classes
  {
    hide Increasing, Elements, KeptClasses, KeepsTraining, PlannedBytes, Entries;
    forall other | Rearrangeable(u, infos, lim, stride, other)
      ensures other == classes
    {
      IncreasingUnique(other, classes);
    }
  }

  lemma OutputJudged(u: Unicode, infos: seq<Member>, lim: Limits, stride: nat, classes: seq<string>, out: seq<Member>)
    requires u.Valid() && !Dangerous(u, infos, lim.maxFiles, lim.maxBytes)
    requires Increasing(classes) && Elements(classes) == KeptClasses(u, infos, stride) != {}
    requires Rewritten(infos, Entries(u, infos, stride, classes), out)
    ensures Acceptable(u, out, lim) <==> Rearrangeable(u, infos, lim, stride, classes)
  {
    hide Dangerous, KeptClasses, Entries, Rewritten, Increasing, PlannedBytes, KeepsTraining, Elements, WellLaidOut,
        Acceptable;
    OutputAccepted(u, infos, stride, classes, out, lim);
  }
}
