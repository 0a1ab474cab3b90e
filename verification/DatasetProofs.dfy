/** Why the archive a plan describes is one the validator accepts, and why a plan loses nothing. */
module DatasetProofs {
  import opened Model
  import opened PosixPath
  import opened Arithmetic
  import opened Decimal
  import opened Text
  import opened DatasetArchive
  import opened DatasetLayout

  /** One place in a plan: a split, a class of it, and a position in that class. */
  datatype Tag = Tag(split: DatasetArchive.Split, class_: string, index: nat)

  ghost predicate DistinctNames(infos: seq<Member>) {
    forall i, k | 0 <= i < k < |infos| :: infos[i].name != infos[k].name
  }

  ghost predicate NoRepeats<T(!new)>(s: seq<T>) {
    forall i, k | 0 <= i < k < |s| :: s[i] != s[k]
  }

  // --- What a target looks like ----------------------------------------------------------------------------

  function FileName(u: Unicode, index: nat, source: string): string {
    Padded(index, 6) + u.lower(Extension(source))
  }

  /** The extension of a path is that of its last stretch without separators, when that has one. */
  lemma ExtensionOfTail(path: string, from: nat)
    requires from < |path| && path[from] != '.'
    requires forall k | from <= k < |path| :: path[k] != '/'
    requires RFind(path[from..], '.') >= 0
    ensures Extension(path) == Extension(path[from..]) == path[from..][RFind(path[from..], '.')..]
  {
  }

  lemma SlashedTail(name: string, from: nat)
    requires from <= |name| && forall k | from <= k < |name| :: Slashed(name)[k] != '/'
    ensures name[from..] == Slashed(name)[from..]
    ensures forall k | from <= k < |name| :: name[k] != '/'
  {
    assert forall k | from <= k < |name| :: name[k] == Slashed(name)[k];
  }

  lemma NotDotFirst(s: string)
    requires s != "" && !StartsWith(s, ".")
    ensures s[0] != '.'
  {
    assert s[0] == '.' ==> StartsWith(s, ".");
  }

  /** So reading the suffix off the raw member name and off its base name comes to the same. */
  lemma ExtensionOfSlashed(name: string)
    requires !StartsWith(Basename(Slashed(name)), ".") && Extension(Basename(Slashed(name))) != ""
    ensures Extension(name) == Extension(Basename(Slashed(name)))
  {
    hide *;
    var slashed := Slashed(name);
    var from := BasenameAt(slashed);
    var base := Basename(slashed);
    ExtensionHasDot(base);
    NotDotFirst(base);
    SlashedTail(name, from);
    assert name[from] == name[from..][0] && slashed[from] == slashed[from..][0];
    ExtensionOfTail(name, from);
    ExtensionOfTail(slashed, from);
  }

  lemma BasenameAt(path: string) returns (from: nat)
    ensures from <= |path| && path[from..] == Basename(path)
    ensures forall k | from <= k < |path| :: path[k] != '/'
  {
    from := RFind(path, '/') + 1;
  }

  lemma ExtensionHasDot(path: string)
    requires Extension(path) != ""
    ensures path != "" && RFind(path, '.') >= 0
  {
  }

  /** Every character of an allowed suffix after its leading dot is a lower-case letter. */
  lemma SuffixShape(suffix: string)
    requires suffix in ALLOWED_IMAGE_SUFFIXES
    ensures suffix != "" && suffix[0] == '.' && forall k | 0 < k < |suffix| :: 'a' <= suffix[k] <= 'z'
  {
  }

  lemma FileNameFacts(u: Unicode, index: nat, source: string)
    requires u.lower(Extension(source)) in ALLOWED_IMAGE_SUFFIXES
    ensures var file := FileName(u, index, source);
      && Plain(file) && IsDigit(file[0]) && (forall c | c in file :: IsSafe(c))
      && Extension(file) == u.lower(Extension(source))
      && file[|file| - 1] != '/'
  {
    var suffix, digits := u.lower(Extension(source)), Padded(index, 6);
    SuffixShape(suffix);
    var file := FileName(u, index, source);
    assert digits[0] in digits && file[0] == digits[0];
    forall c | c in file
      ensures IsSafe(c) && c != '/'
    {
      var k :| 0 <= k < |file| && file[k] == c;
      if k < |digits| {
        assert digits[k] in digits;
      } else {
        assert file[k] == suffix[k - |digits|];
      }
    }
    RFindUnique(file, '.', |digits|);
    assert file[|digits|..] == suffix;
  }

  lemma ClassIsPlain(class_: string)
    requires IsClassName(class_)
    ensures Plain(class_)
  {
  }

  lemma TargetIsPath(u: Unicode, s: DatasetArchive.Split, class_: string, index: nat, source: string)
    requires IsClassName(class_) && u.lower(Extension(source)) in ALLOWED_IMAGE_SUFFIXES
    ensures var parts, target := [SplitName(s), class_, FileName(u, index, source)], Target(u, s, class_, index, source);
      && AllPlain(parts) && Join(parts, '/') == target && PlainLower(target) && '\\' !in target
      && NormPath(target) == target && PosixPath.Split(target, '/') == parts
  {
    var file := FileName(u, index, source);
    var parts, target := [SplitName(s), class_, file], Target(u, s, class_, index, source);
    FileNameFacts(u, index, source);
    ClassIsPlain(class_);
    assert parts[1..] == [class_, file] && parts[1..][1..] == [file];
    assert Join(parts[1..], '/') == class_ + "/" + file;
    assert target == SplitName(s) + "/" + (class_ + "/" + file);
    forall c | c in target
      ensures IsSafe(c) || c == '/'
    {
      assert c in SplitName(s) || c == '/' || c in class_ || c in file;
    }
    PlainPath(parts);
  }

  lemma SlashedSame(s: string)
    requires '\\' !in s
    ensures Slashed(s) == s
  {
  }

  /** The base name of a plan's target is its numbered file name. */
  lemma TargetBase(u: Unicode, s: DatasetArchive.Split, class_: string, index: nat, source: string)
    requires IsClassName(class_) && u.lower(Extension(source)) in ALLOWED_IMAGE_SUFFIXES
    ensures Basename(Target(u, s, class_, index, source)) == FileName(u, index, source)
  {
    hide Basename, Plain, IsClassName, IsSafe, Extension;
    FileNameFacts(u, index, source);
    PlainHasNoSlash(FileName(u, index, source));
    BaseAfterSlash(SplitName(s) + "/" + class_, FileName(u, index, source));
    assert SplitName(s) + "/" + class_ + "/" + FileName(u, index, source) == Target(u, s, class_, index, source);
  }

  lemma PlainHasNoSlash(part: string)
    requires Plain(part)
    ensures '/' !in part
  {
  }

  lemma BaseAfterSlash(folder: string, file: string)
    requires '/' !in file
    ensures Basename(folder + "/" + file) == file
  {
    var path, at := folder + "/" + file, |folder|;
    assert path[at] == '/' && path[at + 1..] == file;
    assert forall k | at < k < |path| :: path[k] == file[k - at - 1] && file[k - at - 1] in file;
    RFindUnique(path, '/', at);
  }

  lemma TargetCounts(u: Unicode, s: DatasetArchive.Split, class_: string, index: nat, source: string)
    requires u.Valid() && IsClassName(class_) && u.lower(Extension(source)) in ALLOWED_IMAGE_SUFFIXES
    ensures var target := Target(u, s, class_, index, source);
      !IsIgnorable(u, target) && !IsDir(target) && SafePath(target)
  {
    hide Target, FileName, Extension, RFind, PosixPath.Split, NormPath;
    var target, file := Target(u, s, class_, index, source), FileName(u, index, source);
    TargetIsPath(u, s, class_, index, source);
    TargetBase(u, s, class_, index, source);
    FileNameFacts(u, index, source);
    SlashedSame(target);
    TargetEnds(u, s, class_, index, source);
    assert u.lower(target) == target;
    assert file[0] != "thumbs.db"[0] && file[0] != ".ds_store"[0];
  }

  lemma TargetEnds(u: Unicode, s: DatasetArchive.Split, class_: string, index: nat, source: string)
    ensures var target, file := Target(u, s, class_, index, source), FileName(u, index, source);
      && file != "" && 2 <= |target| && target[0] == SplitName(s)[0] && target[1] == SplitName(s)[1]
      && target[|target| - 1] == file[|file| - 1]
  {
  }

  /** The validator finds nothing wrong with a plan's target, and puts it where the plan meant it. */
  lemma TargetAccepted(u: Unicode, s: DatasetArchive.Split, class_: string, index: nat, source: string, m: Member)
    requires u.Valid() && IsClassName(class_) && u.lower(Extension(source)) in ALLOWED_IMAGE_SUFFIXES
    requires m.name == Target(u, s, class_, index, source) && FileType(m.mode) == 0
    ensures Counts(u, m) && Safe(u, m) && IsImageIfPlaced(u, m)
    ensures Spot(u, m) == Some((s, class_, FileName(u, index, source)))
  {
    hide Target, FileName, Extension, RFind, PosixPath.Split, NormPath, SafePath, IsIgnorable, IsDir;
    TargetIsPath(u, s, class_, index, source);
    TargetCounts(u, s, class_, index, source);
    FileNameFacts(u, index, source);
    SlashedSame(m.name);
    var suffix := u.lower(Extension(source));
    SuffixShape(suffix);
    assert u.lower(suffix) == suffix;
  }

  /** A target names its place: two places never share one. */
  lemma TargetInjective(u: Unicode, a: Tag, b: Tag, source: string, source': string)
    requires IsClassName(a.class_) && u.lower(Extension(source)) in ALLOWED_IMAGE_SUFFIXES
    requires IsClassName(b.class_) && u.lower(Extension(source')) in ALLOWED_IMAGE_SUFFIXES
    requires Target(u, a.split, a.class_, a.index, source) == Target(u, b.split, b.class_, b.index, source')
    ensures a == b
  {
    hide Target, FileName;
    TargetIsPath(u, a.split, a.class_, a.index, source);
    TargetIsPath(u, b.split, b.class_, b.index, source');
    var p := [SplitName(a.split), a.class_, FileName(u, a.index, source)];
    var q := [SplitName(b.split), b.class_, FileName(u, b.index, source')];
    assert p == q;
    assert p[0] == q[0] && p[1] == q[1] && p[2] == q[2];
    NumberInjective(u, a.index, b.index, source, source');
  }

  lemma NumberInjective(u: Unicode, i: nat, k: nat, source: string, source': string)
    requires u.lower(Extension(source)) in ALLOWED_IMAGE_SUFFIXES && u.lower(Extension(source')) in ALLOWED_IMAGE_SUFFIXES
    requires FileName(u, i, source) == FileName(u, k, source')
    ensures i == k
  {
    var file := FileName(u, i, source);
    SuffixShape(u.lower(Extension(source)));
    SuffixShape(u.lower(Extension(source')));
    var a, b := Padded(i, 6), Padded(k, 6);
    assert file[|a|] == '.' && file[|b|] == '.';
    assert forall m | 0 <= m < |a| :: file[m] == a[m] && a[m] in a && IsDigit(file[m]);
    assert forall m | 0 <= m < |b| :: file[m] == b[m] && b[m] in b && IsDigit(file[m]);
    assert |a| == |b|;
    assert a == file[..|a|] == b;
    ParsePadded(i, 6);
    ParsePadded(k, 6);
  }

  // --- Labels ------------------------------------------------------------------------------------------------

  /** What a labelled member is known to be. */
  lemma LabelledIsImage(u: Unicode, name: string)
    requires u.Valid() && Label(u, name).Some?
    ensures u.lower(Extension(name)) in ALLOWED_IMAGE_SUFFIXES && IsClassName(Label(u, name).value.1)
  {
    hide Extension, Basename, Classify;
    assert u.lower("") == "";
    ExtensionOfSlashed(name);
  }

  lemma {:induction false} LabelledName(u: Unicode, infos: seq<Member>, s: DatasetArchive.Split, c: string, name: string)
    ensures name in Labelled(u, infos, s, c) <==> IsLabelled(u, name, s, c) && exists m :: m in infos && m.name == name
  {
    hide IsLabelled;
    if infos != [] {
      var init, last := infos[..|infos| - 1], infos[|infos| - 1];
      LabelledName(u, init, s, c, name);
      assert forall m :: m in infos <==> m in init || m == last;
      assert last in infos;
    }
  }

  lemma {:induction false} LabelledDistinct(u: Unicode, infos: seq<Member>, s: DatasetArchive.Split, c: string)
    requires DistinctNames(infos)
    ensures NoRepeats(Labelled(u, infos, s, c))
  {
    hide IsLabelled;
    if infos != [] {
      var init, last := infos[..|infos| - 1], infos[|infos| - 1];
      LabelledDistinct(u, init, s, c);
      LabelledName(u, init, s, c, last.name);
      var names := Labelled(u, init, s, c);
      assert forall k | 0 <= k < |names| :: names[k] in names;
    }
  }

  // --- Carving -------------------------------------------------------------------------------------------------

  lemma {:induction false} KeepElement(members: seq<string>, held: set<string>, inside: bool, name: string)
    ensures name in Keep(members, held, inside) <==> name in members && (name in held) == inside
  {
    if members != [] {
      var init, last := members[..|members| - 1], members[|members| - 1];
      KeepElement(init, held, inside, name);
      assert members == init + [last];
    }
  }

  lemma {:induction false} KeepDistinct(members: seq<string>, held: set<string>, inside: bool)
    requires NoRepeats(members)
    ensures NoRepeats(Keep(members, held, inside))
  {
    if members != [] {
      var init, last := members[..|members| - 1], members[|members| - 1];
      KeepDistinct(init, held, inside);
      KeepElement(init, held, inside, last);
      assert last !in init;
    }
  }

  lemma HeldPosition(members: seq<string>, stride: nat, k: nat)
    requires NoRepeats(members) && 0 < stride && k < |members|
    ensures members[k] in Holdout(members, stride) <==> k % stride == 0
  {
  }

  lemma {:induction false} HoldoutCount(members: seq<string>, stride: nat, n: nat)
    requires NoRepeats(members) && 0 < stride && n <= |members|
    ensures |Keep(members[..n], Holdout(members, stride), true)| == Ceiling(n, stride)
    ensures |Keep(members[..n], Holdout(members, stride), false)| == n - Ceiling(n, stride)
    decreases n
  {
    hide Ceiling, Holdout;
    if n == 0 {
      assert Ceiling(0, stride) == 0 by { CeilingZero(stride); }
    } else {
      HoldoutCount(members, stride, n - 1);
      assert members[..n][..n - 1] == members[..n - 1];
      HeldPosition(members, stride, n - 1);
      CeilingStep(n - 1, stride);
    }
  }

  lemma StrideRange(f: real)
    ensures Stride(f) == 0 || 2 <= Stride(f)
  {
  }

  /** The stride, exactly: none when nothing is to be held out; else the whole number nearest to 1/f, the even
      one of two, and at least 2. */
  lemma StrideExact(f: real)
    ensures f <= 0.0 ==> Stride(f) == 0
    ensures f > 0.0 ==>
              var x, stride := 1.0 / f, Stride(f);
              && 2 <= stride && (x <= 2.5 ==> stride == 2)
              && (x > 2.5 ==> -0.5 <= stride as real - x <= 0.5)
              && (x > 2.5 && (stride as real - x == 0.5 || stride as real - x == -0.5) ==> stride % 2 == 0)
  {
  }

  /** What is kept keeps its order. */
  lemma {:induction false} KeepInOrder(a: seq<string>, b: seq<string>, held: set<string>, inside: bool)
    ensures Keep(a + b, held, inside) == Keep(a, held, inside) + Keep(b, held, inside)
    ensures |a| == 1 ==> Keep(a, held, inside) == if (a[0] in held) == inside then a else []
    decreases |b|
  {
    if b == [] {
      assert a + b == a;
    } else {
      assert (a + b)[..|a + b| - 1] == a + b[..|b| - 1];
      KeepInOrder(a, b[..|b| - 1], held, inside);
    }
    if |a| == 1 {
      assert a == [a[0]] && a[..0] == [];
    }
  }

  /** Carving one class of distinct members: exactly every stride-th of them, starting with the first,
      goes to test, the rest, never none, stays in train, and nothing is lost or added. A class with test
      images of its own, or too small, is untouched. */
  lemma CarvedClass(u: Unicode, infos: seq<Member>, f: real, c: string)
    requires DistinctNames(infos)
    ensures var stride := Stride(f);
      var train, test := Labelled(u, infos, Train, c), Labelled(u, infos, Test, c);
      var train', test' := Final(u, infos, stride, Train, c), Final(u, infos, stride, Test, c);
      if test != [] || stride == 0 || |train| < stride then train' == train && test' == test
      else
        && |test'| == Ceiling(|train|, stride) && |train'| == |train| - |test'| && 1 <= |train'| && 1 <= |test'|
        && (forall k | 0 <= k < |train| :: if k % stride == 0 then train[k] in test' && train[k] !in train'
                                           else train[k] in train' && train[k] !in test')
  {
    hide Labelled, Ceiling, Stride, Keep, Holdout;
    StrideRange(f);
    var stride, train := Stride(f), Labelled(u, infos, Train, c);
    LabelledDistinct(u, infos, Train, c);
    if Labelled(u, infos, Test, c) == [] && stride != 0 && |train| >= stride {
      HoldoutCount(train, stride, |train|);
      assert train[..|train|] == train;
      CeilingLess(|train|, stride);
      forall k | 0 <= k < |train|
        ensures train[k] in Keep(train, Holdout(train, stride), true) <==> k % stride == 0
        ensures train[k] in Keep(train, Holdout(train, stride), false) <==> k % stride != 0
      {
        HeldPosition(train, stride, k);
        KeepElement(train, Holdout(train, stride), true, train[k]);
        KeepElement(train, Holdout(train, stride), false, train[k]);
      }
    }
  }

  /** Every name a plan places was labelled with the class it is placed in, and both splits of a class draw
      on different members. */
  lemma FinalNames(u: Unicode, infos: seq<Member>, stride: nat, c: string, name: string)
    ensures name in Final(u, infos, stride, Train, c) + Final(u, infos, stride, Test, c)
            <==> name in Labelled(u, infos, Train, c) + Labelled(u, infos, Test, c)
    ensures !(name in Final(u, infos, stride, Train, c) && name in Final(u, infos, stride, Test, c))
  {
    hide Labelled, Keep, Holdout, Label;
    var train, test := Labelled(u, infos, Train, c), Labelled(u, infos, Test, c);
    LabelledName(u, infos, Train, c, name);
    LabelledName(u, infos, Test, c, name);
    if IsCarved(train, test, stride) {
      KeepElement(train, Holdout(train, stride), true, name);
      KeepElement(train, Holdout(train, stride), false, name);
    }
  }

  lemma FinalDistinct(u: Unicode, infos: seq<Member>, stride: nat, s: DatasetArchive.Split, c: string)
    requires DistinctNames(infos)
    ensures NoRepeats(Final(u, infos, stride, s, c))
  {
    hide Labelled, Keep, Holdout, NoRepeats;
    var train := Labelled(u, infos, Train, c);
    LabelledDistinct(u, infos, Train, c);
    LabelledDistinct(u, infos, Test, c);
    if stride != 0 {
      KeepDistinct(train, Holdout(train, stride), true);
      KeepDistinct(train, Holdout(train, stride), false);
    }
  }
}
