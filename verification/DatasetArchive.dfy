/** What the orchestrator accepts as a dataset archive (orchestrator/services/dataset_archive.py). */
module DatasetArchive {
  import opened Model
  import opened PosixPath
  import opened Text

  /** One archive member as its central directory declares it; `mode` is the Unix mode it was stored with. */
  datatype Member = Member(name: string, size: nat, mode: nat)

  datatype Split = Train | Test

  const ALLOWED_IMAGE_SUFFIXES: set<string> :=
    {".png", ".jpg", ".jpeg", ".bmp", ".gif", ".webp", ".tif", ".tiff", ".ppm", ".pgm"}

  function SplitName(s: Split): string {
    if s == Train then "train" else "test"
  }

  function SplitNamed(name: string): Option<Split> {
    if name == "train" then Some(Train) else if name == "test" then Some(Test) else None
  }

  predicate IsIgnorable(u: Unicode, name: string) {
    var lowered := u.lower(name);
    StartsWith(lowered, "__macosx/") || Basename(lowered) in {".ds_store", "thumbs.db"}
  }

  predicate SafePath(name: string) {
    var normal := NormPath(Slashed(name));
    && !StartsWith(name, "/") && !StartsWith(name, "\\")
    && !(2 <= |name| && name[1] == ':')
    && !StartsWith(normal, "../") && normal != ".." && !StartsWith(normal, "/")
  }

  /** The file-type bits of a Unix mode. */
  function FileType(mode: nat): nat {
    mode / 4096 % 16
  }

  /** A regular file, a directory, or no type at all (archives not made on Unix store none). */
  predicate IsRegular(mode: nat) {
    FileType(mode) in {0, 4, 8}
  }

  predicate IsDir(name: string) {
    name != "" && name[|name| - 1] == '/'
  }

  /** The members that count: not metadata, not directories. */
  predicate Counts(u: Unicode, m: Member) {
    !IsIgnorable(u, m.name) && !IsDir(m.name)
  }

  predicate Safe(u: Unicode, m: Member) {
    IsIgnorable(u, m.name) || (SafePath(m.name) && IsRegular(m.mode))
  }

  /** Where a member sits: its split, class and file name; one wrapping directory is tolerated. */
  function Placement(name: string): Option<(Split, string, string)> {
    var all := PosixPath.Split(NormPath(Slashed(name)), '/');
    var parts := if |all| >= 4 && SplitNamed(all[1]).Some? then all[1..] else all;
    if |parts| != 3 || SplitNamed(parts[0]) == None then None
    else Some((SplitNamed(parts[0]).value, parts[1], parts[2]))
  }

  predicate IsImage(u: Unicode, filename: string) {
    u.lower(Extension(filename)) in ALLOWED_IMAGE_SUFFIXES
  }

  /** Where a member that counts sits. */
  function Spot(u: Unicode, m: Member): Option<(Split, string, string)> {
    if Counts(u, m) then Placement(m.name) else None
  }

  /** A member that lands in a split is an image. */
  predicate IsImageIfPlaced(u: Unicode, m: Member) {
    Spot(u, m).Some? ==> IsImage(u, Spot(u, m).value.2)
  }

  predicate InClass(u: Unicode, m: Member, s: Split, class_: string) {
    Spot(u, m).Some? && Spot(u, m).value.0 == s && Spot(u, m).value.1 == class_
  }

  /** How many members a split holds of a class. */
  function Count(u: Unicode, infos: seq<Member>, s: Split, class_: string): nat {
    if infos == [] then 0
    else Count(u, infos[..|infos| - 1], s, class_) + if InClass(u, infos[|infos| - 1], s, class_) then 1 else 0
  }

  /** The declared uncompressed size of everything that counts. */
  function Declared(u: Unicode, infos: seq<Member>): nat {
    if infos == [] then 0
    else Declared(u, infos[..|infos| - 1]) + if Counts(u, infos[|infos| - 1]) then infos[|infos| - 1].size else 0
  }

  function Classes(u: Unicode, infos: seq<Member>, s: Split): set<string> {
    set m | m in infos && Spot(u, m).Some? && Spot(u, m).value.0 == s :: Spot(u, m).value.1
  }

  datatype Limits = Limits(maxFiles: nat, maxBytes: nat, minClasses: nat, maxClasses: nat)

  /** Everything the validator asks for except the bounds on the number of classes. */
  predicate WellLaidOut(u: Unicode, infos: seq<Member>, lim: Limits) {
    && |infos| <= lim.maxFiles
    && (forall m | m in infos :: Safe(u, m))
    && Declared(u, infos) <= lim.maxBytes
    && (forall m | m in infos :: IsImageIfPlaced(u, m))
    && Classes(u, infos, Train) == Classes(u, infos, Test) != {}
  }

  predicate Acceptable(u: Unicode, infos: seq<Member>, lim: Limits) {
    WellLaidOut(u, infos, lim) && lim.minClasses <= |Classes(u, infos, Train)| <= lim.maxClasses
  }

  datatype Summary = Summary(classes: seq<string>, train: map<string, nat>, test: map<string, nat>, bytes: nat)

  lemma {:induction false} DeclaredGrows(u: Unicode, infos: seq<Member>, i: nat)
    requires i <= |infos|
    ensures Declared(u, infos[..i]) <= Declared(u, infos)
    decreases |infos|
  {
    if i < |infos| {
      var last := |infos| - 1;
      assert infos[..last][..i] == infos[..i];
      DeclaredGrows(u, infos[..last], i);
    } else {
      assert infos[..i] == infos;
    }
  }

  /** `counts` has a positive count for exactly the classes of a split. */
  ghost predicate Tallies(u: Unicode, infos: seq<Member>, s: Split, counts: map<string, nat>) {
    && counts.Keys == Classes(u, infos, s)
    && forall c | c in counts :: counts[c] == Count(u, infos, s, c)
  }

  lemma {:induction false} CountNone(u: Unicode, infos: seq<Member>, s: Split, class_: string)
    requires class_ !in Classes(u, infos, s)
    ensures Count(u, infos, s, class_) == 0
  {
    hide Spot;
    if infos != [] {
      var last := |infos| - 1;
      assert infos[last] in infos;
      assert forall m | m in infos[..last] :: m in infos;
      CountNone(u, infos[..last], s, class_);
    }
  }

  lemma ClassesStep(u: Unicode, infos: seq<Member>, m: Member, s: Split)
    ensures Classes(u, infos + [m], s)
            == Classes(u, infos, s) + if Spot(u, m).Some? && Spot(u, m).value.0 == s then {Spot(u, m).value.1} else {}
  {
  }

  /** `counts` with one more member of `class_`. */
  function Bumped(counts: map<string, nat>, class_: string): map<string, nat> {
    counts[class_ := (if class_ in counts then counts[class_] else 0) + 1]
  }

  lemma TallyOne(u: Unicode, infos: seq<Member>, m: Member, s: Split, counts: map<string, nat>)
    requires Tallies(u, infos, s, counts)
    ensures Tallies(u, infos + [m], s, Tallied(u, counts, m, s))
  {
    hide Spot, Classes;
    ClassesStep(u, infos, m, s);
    assert (infos + [m])[..|infos|] == infos;
    if Spot(u, m).Some? && Spot(u, m).value.0 == s && Spot(u, m).value.1 !in counts {
      CountNone(u, infos, s, Spot(u, m).value.1);
    }
  }

  /** One bad member, or too many bytes before any point, is enough for a refusal. */
  lemma OneFaultRefuses(u: Unicode, infos: seq<Member>, lim: Limits, i: nat)
    requires i < |infos|
    requires !Safe(u, infos[i]) || !IsImageIfPlaced(u, infos[i]) || Declared(u, infos[..i + 1]) > lim.maxBytes
    ensures !Acceptable(u, infos, lim)
  {
    hide Safe, IsImageIfPlaced, Classes;
    assert infos[i] in infos;
    DeclaredGrows(u, infos, i + 1);
  }

  /** Once no member is at fault, the tallies decide. */
  lemma TalliesDecide(u: Unicode, infos: seq<Member>, lim: Limits, train: map<string, nat>, test: map<string, nat>)
    requires |infos| <= lim.maxFiles && Declared(u, infos) <= lim.maxBytes
    requires forall k {:trigger infos[k]} | 0 <= k < |infos| :: Safe(u, infos[k]) && IsImageIfPlaced(u, infos[k])
    requires Tallies(u, infos, Train, train) && Tallies(u, infos, Test, test)
    ensures Classes(u, infos, Train) == train.Keys
    ensures Acceptable(u, infos, lim) <==>
            train.Keys != {} && test.Keys == train.Keys && lim.minClasses <= |train.Keys| <= lim.maxClasses
  {
    hide Safe, IsImageIfPlaced, Classes, Count;
  }

  /** The tally of a split after one more member. */
  function Tallied(u: Unicode, counts: map<string, nat>, m: Member, s: Split): map<string, nat> {
    if Spot(u, m).Some? && Spot(u, m).value.0 == s then Bumped(counts, Spot(u, m).value.1) else counts
  }

  /** One member checked and counted; `ok` is false when the upload is refused because of it. */
  method Examine(u: Unicode, info: Member, declared: nat, train: map<string, nat>, test: map<string, nat>, maxBytes: nat)
    returns (ok: bool, declared': nat, train': map<string, nat>, test': map<string, nat>)
    ensures ok <==> Safe(u, info) && IsImageIfPlaced(u, info) && (Counts(u, info) ==> declared + info.size <= maxBytes)
    ensures ok ==>
              && declared' == declared + (if Counts(u, info) then info.size else 0)
              && train' == Tallied(u, train, info, Train) && test' == Tallied(u, test, info, Test)
  {
    hide SafePath, IsIgnorable, IsImage, Placement, IsRegular, Bumped;
    ok, declared', train', test' := true, declared, train, test;
    if IsIgnorable(u, info.name) {
      return;
    }
    if !SafePath(info.name) || !IsRegular(info.mode) {
      ok := false;
      return;
    }
    if IsDir(info.name) {
      return;
    }
    declared' := declared + info.size;
    if declared' > maxBytes {
      ok := false;
      return;
    }
    var place := Placement(info.name);
    if place.Some? {
      var (split, class_, filename) := place.value;
      if !IsImage(u, filename) {
        ok := false;
      } else if split == Train {
        train' := Bumped(train, class_);
      } else {
        test' := Bumped(test, class_);
      }
    }
  }

  /** The walk over the central directory; `ok` is false when some member is at fault. */
  method Walk(u: Unicode, infos: seq<Member>, lim: Limits)
    returns (ok: bool, declared: nat, train: map<string, nat>, test: map<string, nat>)
    ensures !ok ==> !Acceptable(u, infos, lim)
    ensures ok ==>
              && (forall k {:trigger infos[k]} | 0 <= k < |infos| :: Safe(u, infos[k]) && IsImageIfPlaced(u, infos[k]))
              && declared == Declared(u, infos) <= lim.maxBytes
              && Tallies(u, infos, Train, train) && Tallies(u, infos, Test, test)
  {
    hide *;
    ok, declared, train, test := true, 0, map[], map[];
    NothingTallied(u);
    var i := 0;
    while i < |infos|
      invariant 0 <= i <= |infos|
      invariant forall k {:trigger infos[k]} | 0 <= k < i :: Safe(u, infos[k]) && IsImageIfPlaced(u, infos[k])
      invariant declared == Declared(u, infos[..i]) <= lim.maxBytes
      invariant Tallies(u, infos[..i], Train, train) && Tallies(u, infos[..i], Test, test)
    {
      assert infos[..i + 1] == infos[..i] + [infos[i]];
      DeclaredStep(u, infos[..i], infos[i]);
      TallyOne(u, infos[..i], infos[i], Train, train);
      TallyOne(u, infos[..i], infos[i], Test, test);
      ok, declared, train, test := Examine(u, infos[i], declared, train, test, lim.maxBytes);
      if !ok {
        OneFaultRefuses(u, infos, lim, i);
        return;
      }
      i := i + 1;
    }
    assert infos[..i] == infos;
  }

  /** The validator: a summary exactly when the archive is acceptable, None when it is refused. */
  method SummarizeDatasetArchive(u: Unicode, infos: seq<Member>, lim: Limits) returns (r: Option<Summary>)
    ensures r.Some? <==> Acceptable(u, infos, lim)
    ensures r.Some? ==>
              && Increasing(r.value.classes) && Elements(r.value.classes) == Classes(u, infos, Train)
              && Tallies(u, infos, Train, r.value.train) && Tallies(u, infos, Test, r.value.test)
              && r.value.bytes == Declared(u, infos)
  {
    if |infos| > lim.maxFiles {
      assert !Acceptable(u, infos, lim);
      return None;
    }
    var ok, declared, train, test := Walk(u, infos, lim);
    if !ok {
      return None;
    }
    TalliesDecide(u, infos, lim, train, test);
    if train.Keys == {} || test.Keys == {} || train.Keys != test.Keys {
      return None;
    }
    if |train.Keys| < lim.minClasses || |train.Keys| > lim.maxClasses {
      return None;
    }
    var classes := SortSet(train.Keys);
    r := Some(Summary(classes, train, test, declared));
  }

  lemma DeclaredStep(u: Unicode, infos: seq<Member>, m: Member)
    ensures Declared(u, infos + [m]) == Declared(u, infos) + if Counts(u, m) then m.size else 0
  {
    assert (infos + [m])[..|infos|] == infos;
  }

  lemma NothingTallied(u: Unicode)
    ensures Declared(u, []) == 0
    ensures Tallies(u, [], Train, map[]) && Tallies(u, [], Test, map[])
  {
  }
}
