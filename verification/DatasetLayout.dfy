/** Turning whatever an uploader has into the layout the validator wants
    (orchestrator/services/dataset_layout.py). */
module DatasetLayout {
  import opened Model
  import opened PosixPath
  import opened Decimal
  import opened Text
  import opened DatasetArchive

  const TRAIN_DIR_NAMES: set<string> :=
    {"train", "segtrain", "training", "trainset", "trainingset", "trainingdata"}

  const TEST_DIR_NAMES: set<string> :=
    {"test", "segtest", "testing", "testset", "testdata", "val", "valid", "validation", "eval", "evaluation"}

  const IGNORE_DIR_NAMES: set<string> :=
    {"pred", "segpred", "predict", "prediction", "predictions", "unlabeled", "unlabelled", "infer", "inference",
        "submission"}

  // --- Names ------------------------------------------------------------------------------------------------

  function Norm(u: Unicode, name: string): string {
    Without(u.lower(name), {'_', '-', ' '})
  }

  predicate IsDotLike(c: char) {
    c == '.' || c == '_' || c == '-'
  }

  /** Every run of characters outside the allowlist becomes one underscore. */
  function Rebuilt(s: string): (r: string)
    ensures forall c | c in r :: IsSafe(c)
  {
    if s == "" then ""
    else
      var rest := Rebuilt(s[1..]);
      if IsSafe(s[0]) then [s[0]] + rest
      else if 1 < |s| && !IsSafe(s[1]) then rest
      else "_" + rest
  }

  /** A class name as a path component: at most 64 characters of the allowlist, not starting like a dot
      file, an option or a parent directory. */
  predicate IsClassName(s: string) {
    0 < |s| <= 64 && !IsDotLike(s[0]) && forall c | c in s :: IsSafe(c)
  }

  function SafeClass(u: Unicode, raw: string): (r: Option<string>)
    ensures r.Some? ==> IsClassName(r.value)
  {
    var cleaned := Strip(Rebuilt(u.lower(Strip(raw, u.isSpace))), IsDotLike);
    var cut := cleaned[..if |cleaned| < 64 then |cleaned| else 64];
    if cut == "" then None else Some(cut)
  }

  predicate IsNumeric(u: Unicode, s: string) {
    s != "" && forall c | c in s :: u.isDigit(c)
  }

  /** What precedes the first `sep` of `stem`, unless it is empty or a number. */
  function Head(u: Unicode, stem: string, sep: char): Option<string> {
    if sep !in stem then None
    else
      var head := PosixPath.Split(stem, sep)[0];
      if head == "" || IsNumeric(u, head) then None else Some(head)
  }

  function ClassFromFilename(u: Unicode, base: string): Option<string> {
    var stem := Stem(base);
    if Head(u, stem, '.').Some? then Head(u, stem, '.')
    else if Head(u, stem, '_').Some? then Head(u, stem, '_')
    else Head(u, stem, '-')
  }

  // --- Classification -----------------------------------------------------------------------------------------

  /** The components of a path, dropping empty and `.` ones. */
  function Components(path: string): seq<string> {
    Meaningful(PosixPath.Split(Slashed(path), '/'))
  }

  function Meaningful(parts: seq<string>): seq<string> {
    if parts == [] then []
    else (if parts[0] == "" || parts[0] == "." then [] else [parts[0]]) + Meaningful(parts[1..])
  }

  /** The split a directory name means. */
  function DirSplit(u: Unicode, dir: string): Option<Split> {
    if Norm(u, dir) in TRAIN_DIR_NAMES then Some(Train)
    else if Norm(u, dir) in TEST_DIR_NAMES then Some(Test)
    else None
  }

  predicate IsIgnoredDir(u: Unicode, dir: string) {
    Norm(u, dir) in IGNORE_DIR_NAMES
  }

  /** The position of the last directory that names a split, or -1. */
  function LastSplit(u: Unicode, dirs: seq<string>): (at: int)
    ensures -1 <= at < |dirs|
    ensures at >= 0 ==> DirSplit(u, dirs[at]).Some?
    ensures forall k | at < k < |dirs| :: DirSplit(u, dirs[k]) == None
  {
    if dirs == [] then -1
    else if DirSplit(u, dirs[|dirs| - 1]).Some? then |dirs| - 1
    else LastSplit(u, dirs[..|dirs| - 1])
  }

  /** The split and class of one member, or None: nothing below an ignored directory has a label; the last
      directory naming a split decides it; the class is the directory holding the file, or, directly
      inside the split, the first token of the file's name. */
  function Classify(u: Unicode, path: string): (r: Option<(Split, string)>)
    ensures r.Some? ==> IsClassName(r.value.1)
  {
    var parts := Components(path);
    if |parts| < 2 then None
    else
      var dirs := parts[..|parts| - 1];
      var at := LastSplit(u, dirs);
      if (exists d | d in dirs :: IsIgnoredDir(u, d)) || at < 0 then None
      else
        var named := if at < |dirs| - 1 then Some(dirs[|dirs| - 1]) else ClassFromFilename(u, parts[|parts| - 1]);
        var class_ := SafeClass(u, if named.Some? then named.value else "");
        if class_ == None then None else Some((DirSplit(u, dirs[at]).value, class_.value))
  }

  lemma {:induction false} LastSplitIs(u: Unicode, dirs: seq<string>, at: int)
    requires -1 <= at < |dirs| && (at >= 0 ==> DirSplit(u, dirs[at]).Some?)
    requires forall k | at < k < |dirs| :: DirSplit(u, dirs[k]) == None
    ensures LastSplit(u, dirs) == at
    decreases |dirs|
  {
  }

  /** The scan over the directories of one path. */
  method ClassifyPath(u: Unicode, path: string) returns (r: Option<(Split, string)>)
    ensures r == Classify(u, path)
  {
    hide DirSplit, IsIgnoredDir, SafeClass, ClassFromFilename, Components;
    var parts := Components(path);
    if |parts| < 2 {
      return None;
    }
    ghost var dirs := parts[..|parts| - 1];
    var split: Option<Split>, at := None, -1;
    var index := 0;
    while index < |parts| - 1
      invariant 0 <= index <= |parts| - 1
      invariant forall k | 0 <= k < index :: !IsIgnoredDir(u, dirs[k])
      invariant -1 <= at < index && (at < 0 <==> split == None)
      invariant at >= 0 ==> split == DirSplit(u, dirs[at])
      invariant forall k | at < k < index :: DirSplit(u, dirs[k]) == None
    {
      if IsIgnoredDir(u, parts[index]) {
        assert dirs[index] in dirs;
        return None;
      }
      if DirSplit(u, parts[index]).Some? {
        split, at := DirSplit(u, parts[index]), index;
      }
      index := index + 1;
    }
    LastSplitIs(u, dirs, at);
    if split == None {
      return None;
    }
    var named := if |parts| - 2 > at then Some(parts[|parts| - 2]) else ClassFromFilename(u, parts[|parts| - 1]);
    var class_ := SafeClass(u, if named.Some? then named.value else "");
    r := if class_ == None then None else Some((split.value, class_.value));
  }

  // --- Labelled members ------------------------------------------------------------------------------------------

  /** The label a member is kept under: metadata, directories, dot files and other types have none. */
  function Label(u: Unicode, name: string): (r: Option<(Split, string)>)
    ensures r.Some? ==> IsClassName(r.value.1)
  {
    var base := Basename(Slashed(name));
    if IsIgnorable(u, name) || IsDir(name) || StartsWith(base, ".") || !IsImage(u, base) then None
    else Classify(u, Slashed(name))
  }

  predicate IsLabelled(u: Unicode, name: string, s: Split, class_: string) {
    Label(u, name) == Some((s, class_))
  }

  /** The names of a split's members of one class, in archive order. */
  function Labelled(u: Unicode, infos: seq<Member>, s: Split, class_: string): seq<string> {
    if infos == [] then []
    else
      Labelled(u, infos[..|infos| - 1], s, class_)
      + if IsLabelled(u, infos[|infos| - 1].name, s, class_) then [infos[|infos| - 1].name] else []
  }

  function LabelledBytes(u: Unicode, infos: seq<Member>): nat {
    if infos == [] then 0
    else
      LabelledBytes(u, infos[..|infos| - 1])
      + if Label(u, infos[|infos| - 1].name).Some? then infos[|infos| - 1].size else 0
  }

  function TrainClasses(u: Unicode, infos: seq<Member>): set<string> {
    set m | m in infos && Label(u, m.name).Some? && Label(u, m.name).value.0 == Train :: Label(u, m.name).value.1
  }

  // --- Carving -------------------------------------------------------------------------------------------------------

  /** Python's `round`: to the nearest integer, a half to the even one. */
  function Round(x: real): int {
    var low := x.Floor;
    var part := x - low as real;
    if part < 0.5 || (part == 0.5 && low % 2 == 0) then low else low + 1
  }

  /** Every how many members one is held out; 0 when nothing is. */
  function Stride(testFraction: real): nat {
    if testFraction > 0.0 then (if Round(1.0 / testFraction) > 2 then Round(1.0 / testFraction) else 2) else 0
  }

  /** The names at positions 0, stride, 2*stride, ... */
  function Holdout(members: seq<string>, stride: nat): set<string>
    requires 0 < stride
  {
    set i | 0 <= i < |members| && i % stride == 0 :: members[i]
  }

  function Keep(members: seq<string>, held: set<string>, inside: bool): seq<string> {
    if members == [] then []
    else
      Keep(members[..|members| - 1], held, inside)
      + if (members[|members| - 1] in held) == inside then [members[|members| - 1]] else []
  }

  /** Whether a class gets a held-out split of its own making. */
  predicate IsCarved(train: seq<string>, test: seq<string>, stride: nat) {
    test == [] && stride != 0 && |train| >= stride
  }

  function FinalTrain(train: seq<string>, test: seq<string>, stride: nat): seq<string> {
    if IsCarved(train, test, stride) then Keep(train, Holdout(train, stride), false) else train
  }

  function FinalTest(train: seq<string>, test: seq<string>, stride: nat): seq<string> {
    if IsCarved(train, test, stride) then Keep(train, Holdout(train, stride), true) else test
  }

  /** The members of one class a plan puts in a split. */
  function Final(u: Unicode, infos: seq<Member>, stride: nat, s: Split, class_: string): seq<string> {
    var train, test := Labelled(u, infos, Train, class_), Labelled(u, infos, Test, class_);
    if s == Train then FinalTrain(train, test, stride) else FinalTest(train, test, stride)
  }

  /** The classes a plan keeps: those with training images that have, or are given, a test split. */
  function KeptClasses(u: Unicode, infos: seq<Member>, stride: nat): set<string> {
    set c | c in TrainClasses(u, infos) && Final(u, infos, stride, Test, c) != []
  }

  // --- Plans -----------------------------------------------------------------------------------------------------------

  datatype Entry = Entry(source: string, target: string)

  datatype Plan = Plan(entries: seq<Entry>, declaredBytes: nat)

  datatype Planned = Refused | Unrecognised | Ready(plan: Plan)

  function Target(u: Unicode, s: Split, class_: string, index: nat, source: string): string {
    SplitName(s) + "/" + class_ + "/" + Padded(index, 6) + u.lower(Extension(source))
  }

  function ClassEntries(u: Unicode, s: Split, class_: string, members: seq<string>): seq<Entry> {
    seq(|members|, i requires 0 <= i < |members| => Entry(members[i], Target(u, s, class_, i, members[i])))
  }

  function SplitEntries(u: Unicode, infos: seq<Member>, stride: nat, s: Split, classes: seq<string>): seq<Entry> {
    if classes == [] then []
    else
      SplitEntries(u, infos, stride, s, classes[..|classes| - 1])
      + ClassEntries(u, s, classes[|classes| - 1], Final(u, infos, stride, s, classes[|classes| - 1]))
  }

  /** The entries of a plan over the kept classes, training split first. */
  function Entries(u: Unicode, infos: seq<Member>, stride: nat, classes: seq<string>): seq<Entry> {
    SplitEntries(u, infos, stride, Train, classes) + SplitEntries(u, infos, stride, Test, classes)
  }

  /** An upload this module refuses outright, exactly as the validator would. */
  predicate Dangerous(u: Unicode, infos: seq<Member>, maxFiles: nat, maxBytes: nat) {
    || |infos| > maxFiles
    || (exists m | m in infos :: !Safe(u, m))
    || LabelledBytes(u, infos) > maxBytes
  }
}
