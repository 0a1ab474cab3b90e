/** The planning of a normalisation as the orchestrator runs it: one walk that groups the members, then the
    carving of held-out splits, then the numbering of targets. */
module Planner {
  import opened Model
  import opened PosixPath
  import opened Text
  import opened DatasetArchive
  import opened DatasetLayout
  import DatasetProofs
  import Labels

  type Groups = map<string, seq<string>>

  function Get(g: Groups, c: string): seq<string> {
    if c in g then g[c] else []
  }

  /** `g` holds, class by class, the labelled members of a split in archive order. */
  ghost predicate Grouped(u: Unicode, infos: seq<Member>, s: DatasetArchive.Split, g: Groups) {
    forall c {:trigger Labelled(u, infos, s, c)} ::
      (c in g <==> Labelled(u, infos, s, c) != []) && Get(g, c) == Labelled(u, infos, s, c)
  }

  /** The group with one more member added under its label. */
  function Added(u: Unicode, g: Groups, name: string, s: DatasetArchive.Split): Groups {
    var kind := Label(u, name);
    if kind.Some? && kind.value.0 == s then g[kind.value.1 := Get(g, kind.value.1) + [name]] else g
  }

  lemma GroupStep(u: Unicode, infos: seq<Member>, m: Member, s: DatasetArchive.Split, g: Groups)
    requires Grouped(u, infos, s, g)
    ensures Grouped(u, infos + [m], s, Added(u, g, m.name, s))
  {
  }

  lemma {:induction false} BytesGrow(u: Unicode, infos: seq<Member>, i: nat)
    requires i <= |infos|
    ensures LabelledBytes(u, infos[..i]) <= LabelledBytes(u, infos)
    decreases |infos|
  {
    hide Label;
    if i < |infos| {
      assert infos[..|infos| - 1][..i] == infos[..i];
      BytesGrow(u, infos[..|infos| - 1], i);
    } else {
      assert infos[..i] == infos;
    }
  }

  lemma BytesStep(u: Unicode, infos: seq<Member>, m: Member)
    ensures LabelledBytes(u, infos + [m]) == LabelledBytes(u, infos) + if Label(u, m.name).Some? then m.size else 0
  {
    assert (infos + [m])[..|infos|] == infos;
  }

  /** One member of the walk. */
  method Take(u: Unicode, info: Member, train: Groups, test: Groups, declared: nat, maxBytes: nat)
    returns (ok: bool, train': Groups, test': Groups, declared': nat)
    ensures ok <==> Safe(u, info) && (Label(u, info.name).Some? ==> declared + info.size <= maxBytes)
    ensures ok ==>
              && train' == Added(u, train, info.name, Train) && test' == Added(u, test, info.name, Test)
              && declared' == declared + if Label(u, info.name).Some? then info.size else 0
  {
    hide SafePath, IsIgnorable, IsImage, IsRegular, Classify;
    ok, train', test', declared' := true, train, test, declared;
    if IsIgnorable(u, info.name) {
      return;
    }
    if !SafePath(info.name) || !IsRegular(info.mode) {
      ok := false;
      return;
    }
    var base := Basename(Slashed(info.name));
    if IsDir(info.name) || StartsWith(base, ".") || !IsImage(u, base) {
      return;
    }
    var kind := ClassifyPath(u, Slashed(info.name));
    if kind == None {
      return;
    }
    declared' := declared + info.size;
    if declared' > maxBytes {
      ok := false;
      return;
    }
    var (split, class_) := kind.value;
    if split == Train {
      train' := train[class_ := Get(train, class_) + [info.name]];
    } else {
      test' := test[class_ := Get(test, class_) + [info.name]];
    }
  }

  lemma NothingGrouped(u: Unicode)
    ensures Grouped(u, [], Train, map[]) && Grouped(u, [], Test, map[]) && LabelledBytes(u, []) == 0
  {
  }

  lemma OneFaultIsDangerous(u: Unicode, infos: seq<Member>, maxFiles: nat, maxBytes: nat, i: nat)
    requires i < |infos|
    requires !Safe(u, infos[i]) || LabelledBytes(u, infos[..i + 1]) > maxBytes
    ensures Dangerous(u, infos, maxFiles, maxBytes)
  {
    hide Safe, LabelledBytes;
    assert infos[i] in infos;
    BytesGrow(u, infos, i + 1);
  }

  method Collect(u: Unicode, infos: seq<Member>, maxFiles: nat, maxBytes: nat)
    returns (ok: bool, train: Groups, test: Groups, declared: nat)
    requires |infos| <= maxFiles
    ensures ok <==> !Dangerous(u, infos, maxFiles, maxBytes)
    ensures ok ==> Grouped(u, infos, Train, train) && Grouped(u, infos, Test, test) && declared == LabelledBytes(u, infos)
  {
    hide *;
    ok, train, test, declared := true, map[], map[], 0;
    NothingGrouped(u);
    var i := 0;
    while i < |infos|
      invariant 0 <= i <= |infos|
      invariant forall k {:trigger infos[k]} | 0 <= k < i :: Safe(u, infos[k])
      invariant declared == LabelledBytes(u, infos[..i]) <= maxBytes
      invariant Grouped(u, infos[..i], Train, train) && Grouped(u, infos[..i], Test, test)
    {
      assert infos[..i + 1] == infos[..i] + [infos[i]];
      BytesStep(u, infos[..i], infos[i]);
      GroupStep(u, infos[..i], infos[i], Train, train);
      GroupStep(u, infos[..i], infos[i], Test, test);
      ok, train, test, declared := Take(u, infos[i], train, test, declared, maxBytes);
      if !ok {
        OneFaultIsDangerous(u, infos, maxFiles, maxBytes, i);
        return;
      }
      i := i + 1;
    }
    assert infos[..i] == infos;
    NotDangerous(u, infos, maxFiles, maxBytes);
    ok := true;
  }

  lemma NotDangerous(u: Unicode, infos: seq<Member>, maxFiles: nat, maxBytes: nat)
    requires |infos| <= maxFiles && LabelledBytes(u, infos) <= maxBytes
    requires forall k {:trigger infos[k]} | 0 <= k < |infos| :: Safe(u, infos[k])
    ensures !Dangerous(u, infos, maxFiles, maxBytes)
  {
    hide Safe, LabelledBytes;
  }

  function CarvedTrain(train: Groups, test: Groups, stride: nat, c: string): seq<string> {
    FinalTrain(Get(train, c), Get(test, c), stride)
  }

  function CarvedTest(train: Groups, test: Groups, stride: nat, c: string): seq<string> {
    FinalTest(Get(train, c), Get(test, c), stride)
  }

  /** Class `c` after carving: split in two when it has no test images and is large enough, else as it was. */
  predicate IsDone(train: Groups, test: Groups, stride: nat, train': Groups, test': Groups, c: string) {
    && c in train && c in train' && train'[c] == CarvedTrain(train, test, stride, c)
    && Get(test', c) == CarvedTest(train, test, stride, c)
    && (c in test' <==> c in test || IsCarved(train[c], Get(test, c), stride))
  }

  /** A held-out split carved for every class that has none. */
  method Carve(train: Groups, test: Groups, stride: nat) returns (train': Groups, test': Groups)
    ensures train'.Keys == train.Keys
    ensures forall c | c in train :: IsDone(train, test, stride, train', test', c)
    ensures forall c | c !in train && c in test :: c in test' && test'[c] == test[c]
    ensures forall c | c !in train && c !in test :: c !in test'
  {
    hide CarvedTrain, CarvedTest, Keep, Holdout, IsDone;
    train', test' := train, test;
    var rest := train.Keys;
    while rest != {}
      invariant rest <= train.Keys && train'.Keys == train.Keys
      invariant forall c {:trigger IsDone(train, test, stride, train', test', c)} | c in train && c !in rest ::
                  IsDone(train, test, stride, train', test', c)
      invariant forall c | c in rest || c !in train :: Untouched(train, test, train', test', c)
      decreases |rest|
    {
      var c :| c in rest;
      var members := train'[c];
      assert Untouched(train, test, train', test', c);
      ghost var was, was' := train', test';
      if Get(test', c) == [] && stride != 0 && |members| >= stride {
        var held := Holdout(members, stride);
        test' := test'[c := Keep(members, held, true)];
        train' := train'[c := Keep(members, held, false)];
      }
      CarveOne(train, test, stride, was, was', train', test', c);
      rest := rest - {c};
    }
  }

  predicate Untouched(train: Groups, test: Groups, train': Groups, test': Groups, c: string) {
    && (c in train <==> c in train') && (c in test <==> c in test')
    && Get(train', c) == Get(train, c) && Get(test', c) == Get(test, c)
  }

  lemma CarveOne(train: Groups, test: Groups, stride: nat, was: Groups, was': Groups, train': Groups, test': Groups,
      c: string)
    requires c in train && Untouched(train, test, was, was', c)
    requires if IsCarved(train[c], Get(test, c), stride)
             then test' == was'[c := Keep(train[c], Holdout(train[c], stride), true)]
                  && train' == was[c := Keep(train[c], Holdout(train[c], stride), false)]
             else test' == was' && train' == was
    ensures IsDone(train, test, stride, train', test', c)
    ensures forall d | d != c && IsDone(train, test, stride, was, was', d) :: IsDone(train, test, stride, train', test', d)
    ensures forall d | d != c && Untouched(train, test, was, was', d) :: Untouched(train, test, train', test', d)
  {
    hide Keep, Holdout;
  }

  /** The entries of one split, class by class and numbered within each. */
  method Number(u: Unicode, s: DatasetArchive.Split, classes: seq<string>, g: Groups, infos: seq<Member>, stride: nat)
    returns (entries: seq<Entry>)
    requires forall c | c in classes :: c in g && g[c] == Final(u, infos, stride, s, c)
    ensures entries == SplitEntries(u, infos, stride, s, classes)
  {
    hide Final, Target;
    entries := [];
    var i := 0;
    while i < |classes|
      invariant 0 <= i <= |classes|
      invariant entries == SplitEntries(u, infos, stride, s, classes[..i])
    {
      var members := g[classes[i]];
      ghost var before := entries;
      var index := 0;
      while index < |members|
        invariant 0 <= index <= |members|
        invariant entries == before + ClassEntries(u, s, classes[i], members)[..index]
      {
        entries := entries + [Entry(members[index], Target(u, s, classes[i], index, members[index]))];
        index := index + 1;
      }
      assert classes[..i + 1][..i] == classes[..i];
      i := i + 1;
    }
    assert classes[..i] == classes;
  }

  lemma HoldoutNonempty(members: seq<string>, stride: nat)
    requires members != [] && 0 < stride
    ensures Keep(members, Holdout(members, stride), true) != []
  {
    assert members[0] in Holdout(members, stride);
    DatasetProofs.KeepElement(members, Holdout(members, stride), true, members[0]);
  }

  lemma KeptWhenCarved(u: Unicode, infos: seq<Member>, stride: nat, train: Groups, test: Groups, train': Groups,
      test': Groups, c: string)
    requires Grouped(u, infos, Train, train) && Grouped(u, infos, Test, test)
    requires c in train && IsDone(train, test, stride, train', test', c)
    ensures c in test' <==> Final(u, infos, stride, Test, c) != []
  {
    hide Label, Keep, Holdout, Labelled;
    assert Get(train, c) == Labelled(u, infos, Train, c) != [] && Get(test, c) == Labelled(u, infos, Test, c);
    if stride != 0 {
      HoldoutNonempty(train[c], stride);
    }
  }

  /** The classes both splits hold after carving are the kept ones. */
  lemma KeptAreCommon(u: Unicode, infos: seq<Member>, stride: nat, train: Groups, test: Groups, train': Groups,
      test': Groups)
    requires Grouped(u, infos, Train, train) && Grouped(u, infos, Test, test)
    requires forall c | c in train :: IsDone(train, test, stride, train', test', c)
    ensures train.Keys * test'.Keys == KeptClasses(u, infos, stride)
  {
    hide Label, Labelled, Final, IsDone, Grouped, TrainClasses;
    TrainKeys(u, infos, train);
    forall c | c in train
      ensures c in test' <==> Final(u, infos, stride, Test, c) != []
    {
      KeptWhenCarved(u, infos, stride, train, test, train', test', c);
    }
  }

  lemma TrainKeys(u: Unicode, infos: seq<Member>, train: Groups)
    requires Grouped(u, infos, Train, train)
    ensures train.Keys == TrainClasses(u, infos)
  {
    hide Label, Labelled, TrainClasses;
    forall c
      ensures c in train <==> c in TrainClasses(u, infos)
    {
      assert c in train <==> Labelled(u, infos, Train, c) != [];
      LabelledSome(u, infos, c);
    }
  }

  lemma NoTrainNoPlan(u: Unicode, infos: seq<Member>, stride: nat, train: Groups)
    requires Grouped(u, infos, Train, train)
    ensures train.Keys == {} ==> KeptClasses(u, infos, stride) == {}
  {
    hide TrainClasses, Final, Grouped;
    TrainKeys(u, infos, train);
  }

  lemma LabelledSome(u: Unicode, infos: seq<Member>, c: string)
    ensures Labelled(u, infos, Train, c) != [] <==> c in TrainClasses(u, infos)
  {
  }

  lemma CarvedIsFinal(u: Unicode, infos: seq<Member>, stride: nat, train: Groups, test: Groups, c: string)
    requires Grouped(u, infos, Train, train) && Grouped(u, infos, Test, test)
    ensures CarvedTrain(train, test, stride, c) == Final(u, infos, stride, Train, c)
    ensures CarvedTest(train, test, stride, c) == Final(u, infos, stride, Test, c)
  {
  }

  lemma AllPlacedWell(u: Unicode, infos: seq<Member>, stride: nat, classes: seq<string>)
    requires u.Valid() && Increasing(classes)
    ensures forall e | e in Entries(u, infos, stride, classes) ::
              exists c :: c in classes && Labels.WellPlaced(u, infos, e, c)
  {
    hide *;
    var entries := Entries(u, infos, stride, classes);
    forall e | e in entries
      ensures exists c :: c in classes && Labels.WellPlaced(u, infos, e, c)
    {
      var k :| 0 <= k < |entries| && entries[k] == e;
      Labels.PlanPlacesWell(u, infos, stride, classes, k);
    }
  }

  /** The plan for an upload: refused exactly when dangerous, unrecognised exactly when no class can be
      kept, else the numbered entries of the kept classes, `classes` listing them in order, each entry putting
      its image into the split it belongs in. */
  method PlanNormalization(u: Unicode, infos: seq<Member>, maxFiles: nat, maxBytes: nat, testFraction: real)
    returns (r: Planned, ghost classes: seq<string>)
    ensures r == Refused <==> Dangerous(u, infos, maxFiles, maxBytes)
    ensures r == Unrecognised <==>
            !Dangerous(u, infos, maxFiles, maxBytes) && KeptClasses(u, infos, Stride(testFraction)) == {}
    ensures r.Ready? ==>
              && Increasing(classes) && Elements(classes) == KeptClasses(u, infos, Stride(testFraction))
              && r.plan.entries == Entries(u, infos, Stride(testFraction), classes)
              && r.plan.declaredBytes == LabelledBytes(u, infos)
    ensures u.Valid() && r.Ready? ==>
              forall e | e in r.plan.entries :: exists c :: c in classes && Labels.WellPlaced(u, infos, e, c)
  {
    classes := [];
    if |infos| > maxFiles {
      return Refused, [];
    }
    hide Dangerous, Grouped, KeptClasses, LabelledBytes, Stride, Final, SplitEntries, CarvedTrain, CarvedTest,
        IsCarved, Increasing, Labelled, Label;
    var ok, train, test, declared := Collect(u, infos, maxFiles, maxBytes);
    if !ok {
      return Refused, [];
    }
    var stride := Stride(testFraction);
    NoTrainNoPlan(u, infos, stride, train);
    if train == map[] {
      return Unrecognised, [];
    }
    var train', test' := Carve(train, test, stride);
    KeptAreCommon(u, infos, stride, train, test, train', test');
    var common := train'.Keys * test'.Keys;
    if common == {} {
      return Unrecognised, [];
    }
    var sorted := SortSet(common);
    forall c | c in sorted
      ensures c in train' && c in test'
      ensures train'[c] == Final(u, infos, stride, Train, c) && test'[c] == Final(u, infos, stride, Test, c)
    {
      assert c in Elements(sorted) && IsDone(train, test, stride, train', test', c);
      CarvedIsFinal(u, infos, stride, train, test, c);
    }
    var first := Number(u, Train, sorted, train', infos, stride);
    var second := Number(u, Test, sorted, test', infos, stride);
    r, classes := Ready(Plan(first + second, declared)), sorted;
    if u.Valid() {
      AllPlacedWell(u, infos, stride, sorted);
    }
  }
}
