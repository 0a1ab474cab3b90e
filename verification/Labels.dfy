/** What the normaliser makes of a member's path, said over the path's components: which directory decides
    the split, which text gives the class, and which members end in which split of a plan
    (orchestrator/services/dataset_layout.py). */
module Labels {
  import opened Model
  import opened PosixPath
  import opened Text
  import opened DatasetArchive
  import opened DatasetLayout
  import opened DatasetProofs
  import opened Normalisation
  import Decimal

  // --- Names of directories --------------------------------------------------------------------------------------

  /** No name means two things. */
  lemma NamesApart()
    ensures TRAIN_DIR_NAMES !! TEST_DIR_NAMES && TRAIN_DIR_NAMES !! IGNORE_DIR_NAMES && TEST_DIR_NAMES !! IGNORE_DIR_NAMES
  {
  }

  lemma {:induction false} WithoutIs(s: string, drop: set<char>)
    ensures forall c :: c in Without(s, drop) <==> c in s && c !in drop
    ensures (forall c | c in s :: c !in drop) ==> Without(s, drop) == s
  {
    if s != "" {
      WithoutIs(s[1..], drop);
      assert s == [s[0]] + s[1..];
    }
  }

  lemma {:induction false} WithoutJoin(a: string, b: string, drop: set<char>)
    ensures Without(a + b, drop) == Without(a, drop) + Without(b, drop)
  {
    if a == "" {
      assert a + b == b && [] + Without(b, drop) == Without(b, drop);
    } else {
      WithoutJoin(a[1..], b, drop);
      var first := if a[0] in drop then "" else [a[0]];
      assert (a + b)[0] == a[0] && (a + b)[1..] == a[1..] + b;
      Regroup(first, Without(a[1..], drop), Without(b, drop));
    }
  }

  lemma NothingLeft(c: char, drop: set<char>)
    requires c in drop
    ensures Without([c], drop) == ""
  {
    assert [c][1..] == "";
  }

  lemma Regroup(a: string, b: string, c: string)
    ensures a + (b + c) == (a + b) + c
  {
  }

  /** A directory's name is compared in lower case and without separators, wherever they stand: what is left
      of a plain name are its other characters, in order. */
  lemma NormIs(u: Unicode, a: string, sep: char, b: string)
    requires u.Valid() && PlainLower(a) && PlainLower(b) && sep in {'_', '-'}
    ensures Norm(u, a + [sep] + b) == Norm(u, a) + Norm(u, b)
    ensures (forall c | c in a :: c !in {'_', '-', ' '}) ==> Norm(u, a) == a
  {
    hide Without;
    var drop := {'_', '-', ' '};
    WithoutIs(a, drop);
    WithoutJoin(a + [sep], b, drop);
    WithoutJoin(a, [sep], drop);
    assert PlainLower(a + [sep] + b);
    WithoutIs([sep], drop);
    NothingLeft(sep, drop);
  }

  /** No character left in it is a separator. */
  lemma NormDrops(u: Unicode, name: string)
    ensures forall c | c in Norm(u, name) :: c in u.lower(name) && c !in {'_', '-', ' '}
    ensures (forall c | c in u.lower(name) :: c !in {'_', '-', ' '}) ==> Norm(u, name) == u.lower(name)
  {
    WithoutIs(u.lower(name), {'_', '-', ' '});
  }

  // --- The components of a path ------------------------------------------------------------------------------------

  predicate IsPart(part: string) {
    part != "" && part != "." && '/' !in part && '\\' !in part
  }

  lemma {:induction false} AllMeaningful(parts: seq<string>)
    requires forall p | p in parts :: IsPart(p)
    ensures Meaningful(parts) == parts
  {
    if parts != [] {
      assert IsPart(parts[0]);
      AllMeaningful(parts[1..]);
      assert parts == [parts[0]] + parts[1..];
    }
  }

  /** Empty components and `.` ones, wherever they stand, make no difference. */
  lemma {:induction false} MeaningfulJoin(a: seq<string>, b: seq<string>)
    ensures Meaningful(a + b) == Meaningful(a) + Meaningful(b)
    ensures Meaningful([""]) == Meaningful(["."]) == []
  {
    assert [""][1..] == [] && ["."][1..] == [];
    if a == [] {
      assert a + b == b;
    } else {
      assert (a + b)[1..] == a[1..] + b;
      MeaningfulJoin(a[1..], b);
    }
  }

  lemma {:induction false} JoinHasNo(parts: seq<string>, sep: char, c: char)
    requires 0 < |parts| && c != sep && forall p | p in parts :: c !in p
    ensures c !in Join(parts, sep)
  {
    if |parts| > 1 {
      JoinHasNo(parts[1..], sep, c);
    }
  }

  /** Joining components and taking them apart again. */
  lemma ComponentsOfJoin(parts: seq<string>)
    requires 0 < |parts| && forall p | p in parts :: IsPart(p)
    ensures Components(Join(parts, '/')) == parts
  {
    JoinHasNo(parts, '/', '\\');
    SlashedSame(Join(parts, '/'));
    SplitJoin(parts, '/');
    AllMeaningful(parts);
  }

  // --- The split and the class -------------------------------------------------------------------------------------

  /** The directory at `at` decides the split of a file with these components: it is named in `names`, and no
      later directory names a split at all; and no directory is one to ignore. */
  predicate DecidedBy(u: Unicode, parts: seq<string>, names: set<string>, at: nat) {
    && at < |parts| - 1 && Norm(u, parts[at]) in names
    && (forall k | at < k < |parts| - 1 :: Norm(u, parts[k]) !in TRAIN_DIR_NAMES && Norm(u, parts[k]) !in TEST_DIR_NAMES)
    && (forall k | 0 <= k < |parts| - 1 :: Norm(u, parts[k]) !in IGNORE_DIR_NAMES)
  }

  /** The text the class is read from: the name of the directory holding the file, or, when that is the one
      naming the split, a token of the file's own name. */
  function ClassText(u: Unicode, parts: seq<string>, at: nat): Option<string>
    requires at < |parts| - 1
  {
    if at == |parts| - 2 then ClassFromFilename(u, parts[|parts| - 1]) else Some(parts[|parts| - 2])
  }

  ghost predicate LiesIn(u: Unicode, path: string, names: set<string>, class_: string) {
    var parts := Components(path);
    exists at: nat :: DecidedBy(u, parts, names, at) &&
      var text := ClassText(u, parts, at);
      text.Some? && SafeClass(u, text.value) == Some(class_)
  }

  function NamesOf(s: DatasetArchive.Split): set<string> {
    if s == Train then TRAIN_DIR_NAMES else TEST_DIR_NAMES
  }

  lemma EmptyClass(u: Unicode)
    requires u.Valid()
    ensures SafeClass(u, "") == None
  {
    assert PlainLower("") && u.lower("") == "";
    assert Strip("", u.isSpace) == "" && Rebuilt("") == "";
    assert Strip("", IsDotLike) == "";
  }

  lemma DecidedIsLast(u: Unicode, parts: seq<string>, s: DatasetArchive.Split, at: nat)
    requires 2 <= |parts| && at < |parts| - 1
    ensures DecidedBy(u, parts, NamesOf(s), at) <==>
            var dirs := parts[..|parts| - 1];
            && LastSplit(u, dirs) == at && DirSplit(u, dirs[at]) == Some(s) && !(exists d | d in dirs :: IsIgnoredDir(u, d))
  {
    hide Norm;
    NamesApart();
    var dirs := parts[..|parts| - 1];
    if DecidedBy(u, parts, NamesOf(s), at) {
      forall k | at < k < |dirs|
        ensures DirSplit(u, dirs[k]) == None
      {
        assert dirs[k] == parts[k];
      }
      LastSplitIs(u, dirs, at);
      forall d | d in dirs
        ensures !IsIgnoredDir(u, d)
      {
        var k :| 0 <= k < |dirs| && dirs[k] == d;
        assert parts[k] == d;
      }
    }
    if LastSplit(u, dirs) == at && DirSplit(u, dirs[at]) == Some(s) && !(exists d | d in dirs :: IsIgnoredDir(u, d)) {
      forall k | 0 <= k < |parts| - 1
        ensures Norm(u, parts[k]) !in IGNORE_DIR_NAMES
      {
        assert dirs[k] in dirs;
      }
      forall k | at < k < |parts| - 1
        ensures Norm(u, parts[k]) !in TRAIN_DIR_NAMES && Norm(u, parts[k]) !in TEST_DIR_NAMES
      {
        assert DirSplit(u, dirs[k]) == None;
      }
    }
  }

  /** What the scan over a path's directories answers, exactly: a split and a class if and only if the last
      directory that names a split names that one, none is to be ignored, and the text gives the class. */
  lemma ClassifyExact(u: Unicode, path: string, s: DatasetArchive.Split, class_: string)
    requires u.Valid()
    ensures Classify(u, path) == Some((s, class_)) <==> LiesIn(u, path, NamesOf(s), class_)
  {
    hide SafeClass, ClassFromFilename, Components, DecidedBy, DirSplit, IsIgnoredDir, NamesOf;
    EmptyClass(u);
    var parts := Components(path);
    if |parts| >= 2 {
      var at := LastSplit(u, parts[..|parts| - 1]);
      if at >= 0 {
        DecidedIsLast(u, parts, s, at);
      }
      forall k: nat | DecidedBy(u, parts, NamesOf(s), k)
        ensures k == at
      {
        DecidedRange(u, parts, NamesOf(s), k);
        DecidedIsLast(u, parts, s, k);
      }
    }
    forall k: nat | DecidedBy(u, parts, NamesOf(s), k)
      ensures 2 <= |parts|
    {
      DecidedRange(u, parts, NamesOf(s), k);
    }
  }

  lemma DecidedRange(u: Unicode, parts: seq<string>, names: set<string>, at: nat)
    requires DecidedBy(u, parts, names, at)
    ensures at < |parts| - 1 && 2 <= |parts|
  {
  }

  function Laid(wrapper: seq<string>, dir: string, inner: seq<string>, file: string): seq<string> {
    wrapper + [dir] + inner + [file]
  }

  lemma LaidAt(wrapper: seq<string>, dir: string, inner: seq<string>, file: string)
    ensures var parts, at := Laid(wrapper, dir, inner, file), |wrapper|;
      && |parts| == at + |inner| + 2 && parts[at] == dir && parts[|parts| - 1] == file
      && (forall k | 0 <= k < at :: parts[k] == wrapper[k] && parts[k] in wrapper)
      && (forall k | at < k < |parts| - 1 :: parts[k] == inner[k - at - 1] && parts[k] in inner)
  {
  }

  lemma LaidIsDecided(u: Unicode, wrapper: seq<string>, dir: string, inner: seq<string>, file: string,
      s: DatasetArchive.Split)
    requires Norm(u, dir) in NamesOf(s)
    requires forall d | d in wrapper + inner :: Norm(u, d) !in IGNORE_DIR_NAMES
    requires forall d | d in inner :: Norm(u, d) !in TRAIN_DIR_NAMES && Norm(u, d) !in TEST_DIR_NAMES
    ensures DecidedBy(u, Laid(wrapper, dir, inner, file), NamesOf(s), |wrapper|)
  {
    hide Norm, Laid;
    NamesApart();
    LaidAt(wrapper, dir, inner, file);
    var parts, at := Laid(wrapper, dir, inner, file), |wrapper|;
    forall k | 0 <= k < |parts| - 1
      ensures Norm(u, parts[k]) !in IGNORE_DIR_NAMES
    {
      assert k < at ==> parts[k] in wrapper + inner;
      assert k > at ==> parts[k] in wrapper + inner;
    }
  }

  /** A wrapper of any depth, a directory naming a split, further directories naming none, then the file: the
      split is the one named, whatever the wrapper holds, so also when the directory is doubled. */
  lemma LastSplitDecides(u: Unicode, wrapper: seq<string>, dir: string, inner: seq<string>, file: string,
      s: DatasetArchive.Split, class_: string)
    requires u.Valid() && Norm(u, dir) in NamesOf(s) && forall p | p in Laid(wrapper, dir, inner, file) :: IsPart(p)
    requires forall d | d in wrapper + inner :: Norm(u, d) !in IGNORE_DIR_NAMES
    requires forall d | d in inner :: Norm(u, d) !in TRAIN_DIR_NAMES && Norm(u, d) !in TEST_DIR_NAMES
    ensures Laid(wrapper, dir, inner, file) != []
    ensures Classify(u, Join(Laid(wrapper, dir, inner, file), '/')) == Some((s, class_)) <==>
            if inner != [] then SafeClass(u, inner[|inner| - 1]) == Some(class_)
            else ClassFromFilename(u, file).Some? && SafeClass(u, ClassFromFilename(u, file).value) == Some(class_)
  {
    hide SafeClass, ClassFromFilename, Components, Norm, Classify, DecidedBy, Laid, IsPart, NamesOf;
    var parts, at := Laid(wrapper, dir, inner, file), |wrapper|;
    LaidAt(wrapper, dir, inner, file);
    ComponentsOfJoin(parts);
    ClassifyExact(u, Join(parts, '/'), s, class_);
    LaidIsDecided(u, wrapper, dir, inner, file, s);
    forall k: nat | DecidedBy(u, parts, NamesOf(s), k)
      ensures k == at
    {
      DecidedOnce(u, parts, s, at, k);
    }
  }

  lemma DecidedOnce(u: Unicode, parts: seq<string>, s: DatasetArchive.Split, i: nat, k: nat)
    requires DecidedBy(u, parts, NamesOf(s), i) && DecidedBy(u, parts, NamesOf(s), k)
    ensures i == k
  {
  }

  // --- Class names ---------------------------------------------------------------------------------------------------

  /** What is safe already is left alone. */
  lemma {:induction false} RebuiltSafe(s: string)
    requires forall c | c in s :: IsSafe(c)
    ensures Rebuilt(s) == s
  {
    if s != "" {
      RebuiltSafe(s[1..]);
      assert s == [s[0]] + s[1..];
    }
  }

  /** Each whole run of other characters becomes one underscore, and the rest is untouched by it. */
  lemma {:induction false} RebuiltRun(a: string, run: string, b: string)
    requires run != "" && (forall c | c in run :: !IsSafe(c))
    requires (a != "" ==> IsSafe(a[|a| - 1])) && (b != "" ==> IsSafe(b[0]))
    ensures Rebuilt(a + run + b) == Rebuilt(a) + "_" + Rebuilt(b)
    decreases |a|, |run|
  {
    var s := a + run + b;
    if a != "" {
      assert s[1..] == a[1..] + run + b && s[0] == a[0];
      RebuiltRun(a[1..], run, b);
      assert |a| > 1 ==> s[1] == a[1];
    } else if |run| > 1 {
      assert s[1..] == "" + run[1..] + b && s[0] == run[0] && s[1] == run[1];
      RebuiltRun("", run[1..], b);
    } else {
      assert s[1..] == b && s[0] == run[0] && (b != "" ==> s[1] == b[0]);
    }
  }

  function Cut(s: string): string {
    if |s| <= 64 then s else s[..64]
  }

  /** The class name made of a text: white space, then dots, underscores and hyphens, are stripped from its
      ends, and of what is left, if it is safe already, the first 64 characters are the name itself. */
  lemma SafeClassKeeps(u: Unicode, pad: string, dots: string, core: string, dots': string, pad': string)
    requires u.Valid() && core != "" && !IsDotLike(core[0]) && !IsDotLike(core[|core| - 1])
    requires forall c | c in dots + core + dots' :: IsSafe(c) && !u.isSpace(c)
    requires (forall c | c in pad + pad' :: u.isSpace(c)) && forall c | c in dots + dots' :: IsDotLike(c)
    ensures SafeClass(u, pad + (dots + core + dots') + pad') == Some(Cut(core))
  {
    hide Strip, Rebuilt;
    var inner := dots + core + dots';
    assert inner[0] in inner && inner[|inner| - 1] in inner;
    StripIs(pad, inner, pad', u.isSpace);
    RebuiltSafe(inner);
    assert PlainLower(inner);
    StripIs(dots, core, dots', IsDotLike);
    assert core[..|core|] == core;
  }

  /** A text of nothing but white space, or of nothing but dots, underscores and hyphens, names no class. */
  lemma NoClass(u: Unicode, raw: string)
    requires u.Valid()
    requires (forall c | c in raw :: u.isSpace(c)) || (forall c | c in raw :: IsDotLike(c) && !u.isSpace(c))
    ensures SafeClass(u, raw) == None
  {
    hide Rebuilt;
    assert raw + "" == raw;
    if forall c | c in raw :: u.isSpace(c) {
      LStripIs(raw, "", u.isSpace);
      EmptyClass(u);
      assert PlainLower("");
    } else {
      if raw != "" {
        assert raw[0] in raw && raw[|raw| - 1] in raw;
        StripIs("", raw, "", u.isSpace);
        assert "" + raw + "" == raw;
      }
      assert PlainLower(raw);
      RebuiltSafe(raw);
      LStripIs(raw, "", IsDotLike);
    }
    assert RStrip("", IsDotLike) == "" && RStrip("", u.isSpace) == "" && Rebuilt("") == "" by { EmptyTexts(u); }
  }

  lemma EmptyTexts(u: Unicode)
    ensures RStrip("", IsDotLike) == "" && LStrip("", IsDotLike) == "" && RStrip("", u.isSpace) == "" && Rebuilt("") == ""
  {
  }

  // --- Labels in file names --------------------------------------------------------------------------------------------

  /** `head` is what stands before the first `sep` of a stem, and can be a label: it is not empty and not a
      number. */
  predicate IsToken(u: Unicode, stem: string, sep: char, head: string) {
    head + [sep] <= stem && sep !in head && head != "" && !(forall c | c in head :: u.isDigit(c))
  }

  lemma {:induction false} SplitFirst(s: string, sep: char)
    ensures var head := PosixPath.Split(s, sep)[0];
      && sep !in head && head <= s && (sep in s ==> head + [sep] <= s) && (sep !in s ==> head == s)
  {
    if s != "" {
      SplitFirst(s[1..], sep);
    }
  }

  lemma HeadExact(u: Unicode, stem: string, sep: char, head: string)
    ensures Head(u, stem, sep) == Some(head) <==> IsToken(u, stem, sep, head)
  {
    SplitFirst(stem, sep);
    assert IsToken(u, stem, sep, head) ==> stem[|head|] == sep;
    var first := PosixPath.Split(stem, sep)[0];
    if IsToken(u, stem, sep, head) {
      FirstUnique(stem, sep, first, head);
    }
  }

  lemma NotLonger(s: string, sep: char, a: string, b: string)
    requires a + [sep] <= s && b <= s && |a| < |b|
    ensures sep in b
  {
    assert b[|a|] == s[|a|] == (a + [sep])[|a|];
  }

  lemma FirstUnique(s: string, sep: char, a: string, b: string)
    requires a + [sep] <= s && b + [sep] <= s && sep !in a && sep !in b
    ensures a == b
  {
    if |a| < |b| {
      NotLonger(s, sep, a, b);
    } else if |b| < |a| {
      NotLonger(s, sep, b, a);
    } else {
      assert a == s[..|a|] && b == s[..|b|];
    }
  }

  /** The label read off a file's name: the token before its first dot, failing that before its first
      underscore, failing that before its first hyphen; none when none of these can be a label. */
  lemma TokenExact(u: Unicode, stem: string, ext: string)
    requires '/' !in stem && '/' !in ext && '.' !in ext && exists k :: 0 <= k < |stem| && stem[k] != '.'
    ensures forall head :: ClassFromFilename(u, stem + "." + ext) == Some(head) <==>
              || IsToken(u, stem, '.', head)
              || ((forall x :: !IsToken(u, stem, '.', x)) && IsToken(u, stem, '_', head))
              || ((forall x :: !IsToken(u, stem, '.', x) && !IsToken(u, stem, '_', x)) && IsToken(u, stem, '-', head))
  {
    StemOf(stem, ext);
    forall x: string, sep: char
      ensures Head(u, stem, sep) == Some(x) <==> IsToken(u, stem, sep, x)
    {
      HeadExact(u, stem, sep, x);
    }
    hide Head, IsToken, Stem;
    assert forall sep: char :: Head(u, stem, sep).Some? ==> IsToken(u, stem, sep, Head(u, stem, sep).value);
  }

  /** What `splitext` makes of a name with something before its last dot. */
  lemma StemOf(stem: string, ext: string)
    requires '/' !in stem && '/' !in ext && '.' !in ext && exists k :: 0 <= k < |stem| && stem[k] != '.'
    ensures Extension(stem + "." + ext) == "." + ext && Stem(stem + "." + ext) == stem
  {
    var base := stem + "." + ext;
    RFindUnique(base, '.', |stem|);
    var k :| 0 <= k < |stem| && stem[k] != '.';
    assert base[k] == stem[k];
    assert forall c | c in base :: c != '/';
  }

  /** A name without a dot, or with nothing but dots before its last one, has no suffix. */
  lemma NoSuffix(base: string)
    requires '/' !in base
    requires forall d | 0 <= d < |base| && base[d] == '.' && '.' !in base[d + 1..] :: forall k | 0 <= k < d :: base[k] == '.'
    ensures Extension(base) == ""
  {
    var dot := RFind(base, '.');
    if dot >= 0 {
      assert '.' !in base[dot + 1..];
    }
  }

  /** The image types, by the text after a name's last dot. */
  lemma ImageTypes(u: Unicode, stem: string, ext: string)
    requires u.Valid() && PlainLower(ext)
    requires '/' !in stem && '/' !in ext && '.' !in ext && exists k :: 0 <= k < |stem| && stem[k] != '.'
    ensures IsImage(u, stem + "." + ext) <==>
            ext in {"png", "jpg", "jpeg", "bmp", "gif", "webp", "tif", "tiff", "ppm", "pgm"}
  {
    StemOf(stem, ext);
    var suffix := "." + ext;
    assert PlainLower(suffix);
    assert suffix[1..] == ext;
    hide Extension;
    forall s: string | s in ALLOWED_IMAGE_SUFFIXES
      ensures s == "." + s[1..]
    {
      assert s[0] == '.';
    }
  }

  // --- Labelled members, and where a plan puts them ----------------------------------------------------------------------

  /** A file the normaliser looks at: not metadata, not a directory, not a dot file, of an image type. */
  predicate IsImageFile(u: Unicode, name: string) {
    var base := Basename(Slashed(name));
    && !IsIgnorable(u, name) && (name == "" || name[|name| - 1] != '/')
    && (base == "" || base[0] != '.') && u.lower(Extension(base)) in ALLOWED_IMAGE_SUFFIXES
  }

  lemma SlashedTwice(name: string)
    ensures Slashed(Slashed(name)) == Slashed(name) && Components(Slashed(name)) == Components(name)
  {
  }

  /** A member's label, exactly, over the components of its path. */
  lemma LabelExact(u: Unicode, name: string, s: DatasetArchive.Split, class_: string)
    requires u.Valid()
    ensures Label(u, name) == Some((s, class_)) <==> IsImageFile(u, name) && LiesIn(u, name, NamesOf(s), class_)
  {
    hide Classify, IsIgnorable, Components, DecidedBy, ClassText, Extension, Basename;
    ClassifyExact(u, Slashed(name), s, class_);
    SlashedTwice(name);
  }

  lemma FinalFrom(u: Unicode, infos: seq<Member>, stride: nat, s: DatasetArchive.Split, c: string, name: string)
    requires name in Final(u, infos, stride, s, c)
    ensures name in Labelled(u, infos, s, c)
        || (s == Test && Labelled(u, infos, Test, c) == [] && name in Labelled(u, infos, Train, c))
  {
    hide Labelled, Keep, Holdout;
    var train, test := Labelled(u, infos, Train, c), Labelled(u, infos, Test, c);
    if IsCarved(train, test, stride) {
      KeepElement(train, Holdout(train, stride), s == Test, name);
    }
  }

  function Folder(s: DatasetArchive.Split, class_: string): string {
    (if s == Train then "train/" else "test/") + class_ + "/"
  }

  /** A target, exactly: its folder, the place's number in six digits or as many as it takes, and the source's
      suffix in lower case. */
  lemma TargetExact(u: Unicode, s: DatasetArchive.Split, class_: string, index: nat, source: string)
    ensures var number := Decimal.Padded(index, 6);
      && Target(u, s, class_, index, source) == Folder(s, class_) + number + u.lower(Extension(source))
      && Decimal.AllDigits(number) && Decimal.Parse(number) == index && 6 <= |number|
      && (6 < |number| ==> number[0] != '0')
  {
    Decimal.PaddedExact(index, 6);
  }

  lemma TargetStarts(u: Unicode, s: DatasetArchive.Split, class_: string, index: nat, source: string)
    ensures Folder(s, class_) <= Target(u, s, class_, index, source)
  {
    TargetExact(u, s, class_, index, source);
  }

  /** `e` puts an image of class `c` where it belongs: into the split its last split-naming directory names, or,
      when the class came with no test images at all, a training image into test/. */
  ghost predicate WellPlaced(u: Unicode, infos: seq<Member>, e: Entry, c: string) {
    && IsImageFile(u, e.source)
    && (|| (Folder(Train, c) <= e.target && LiesIn(u, e.source, TRAIN_DIR_NAMES, c))
        || (Folder(Test, c) <= e.target && LiesIn(u, e.source, TEST_DIR_NAMES, c))
        || (Folder(Test, c) <= e.target && LiesIn(u, e.source, TRAIN_DIR_NAMES, c)
            && forall m | m in infos && IsImageFile(u, m.name) :: !LiesIn(u, m.name, TEST_DIR_NAMES, c)))
  }

  lemma LabelledExact(u: Unicode, infos: seq<Member>, s: DatasetArchive.Split, c: string, name: string)
    requires u.Valid()
    ensures name in Labelled(u, infos, s, c) <==>
            IsMemberName(infos, name) && IsImageFile(u, name) && LiesIn(u, name, NamesOf(s), c)
  {
    hide Label, IsImageFile, LiesIn;
    LabelledName(u, infos, s, c, name);
    LabelExact(u, name, s, c);
  }

  lemma NoneLies(u: Unicode, infos: seq<Member>, c: string)
    requires u.Valid() && Labelled(u, infos, Test, c) == []
    ensures forall m | m in infos && IsImageFile(u, m.name) :: !LiesIn(u, m.name, TEST_DIR_NAMES, c)
  {
    hide Labelled, IsImageFile, LiesIn;
    forall m | m in infos && IsImageFile(u, m.name)
      ensures !LiesIn(u, m.name, TEST_DIR_NAMES, c)
    {
      LabelledExact(u, infos, Test, c, m.name);
    }
  }

  /** Every entry of a plan puts its image where it belongs. */
  lemma PlanPlacesWell(u: Unicode, infos: seq<Member>, stride: nat, classes: seq<string>, k: nat)
    requires u.Valid() && Increasing(classes) && k < |Entries(u, infos, stride, classes)|
    ensures exists c :: c in classes && WellPlaced(u, infos, Entries(u, infos, stride, classes)[k], c)
  {
    hide Entries, Tags, Match, Target, InRange, Final, Label, Labelled, IsImageFile, LiesIn, Folder;
    var entries, tags := Entries(u, infos, stride, classes), Tags(u, infos, stride, classes);
    PlanMatch(u, infos, stride, classes);
    PlanPlaces(u, infos, stride, classes);
    EntryMeans(u, infos, stride, entries, tags, k);
    var t, e := tags[k], entries[k];
    assert t in tags;
    TargetStarts(u, t.split, t.class_, t.index, e.source);
    SourceIn(u, infos, stride, t);
    FinalFrom(u, infos, stride, t.split, t.class_, e.source);
    LabelledExact(u, infos, Train, t.class_, e.source);
    LabelledExact(u, infos, Test, t.class_, e.source);
    if Labelled(u, infos, Test, t.class_) == [] {
      NoneLies(u, infos, t.class_);
    }
    assert t.split == Train || t.split == Test;
    assert WellPlaced(u, infos, e, t.class_);
  }

  lemma SourceIn(u: Unicode, infos: seq<Member>, stride: nat, t: Tag)
    requires InRange(u, infos, stride, t)
    ensures Source(u, infos, stride, t) in Final(u, infos, stride, t.split, t.class_)
  {
    hide Final;
  }

  /** And every test image the uploader supplied, of a class that is kept, stays in test/ under its class. */
  lemma TestStaysTest(u: Unicode, infos: seq<Member>, stride: nat, classes: seq<string>, m: Member, c: string)
    requires u.Valid() && Increasing(classes) && c in classes && m in infos
    requires IsImageFile(u, m.name) && LiesIn(u, m.name, TEST_DIR_NAMES, c)
    ensures var entries := Entries(u, infos, stride, classes);
      exists k :: 0 <= k < |entries| && entries[k].source == m.name && Folder(Test, c) <= entries[k].target
  {
    hide Entries, Tags, Match, Target, Label, Labelled, IsImageFile, LiesIn, Folder, Keep, Holdout;
    LabelledExact(u, infos, Test, c, m.name);
    var test := Labelled(u, infos, Test, c);
    assert m.name in test && Final(u, infos, stride, Test, c) == test;
    var i :| 0 <= i < |test| && test[i] == m.name;
    var entries, tags, t := Entries(u, infos, stride, classes), Tags(u, infos, stride, classes), Tag(Test, c, i);
    PlanMatch(u, infos, stride, classes);
    PlanPlaces(u, infos, stride, classes);
    MatchLength(u, infos, stride, entries, tags);
    assert t in tags;
    var k :| 0 <= k < |tags| && tags[k] == t;
    EntryMeans(u, infos, stride, entries, tags, k);
    TargetStarts(u, Test, c, i, entries[k].source);
  }

  /** A layout with its split directories doubled, at any depth: a class directory below them keeps its name. */
  lemma DoubledLayout(u: Unicode, wrapper: seq<string>, dir: string, class_: string, file: string, s: DatasetArchive.Split)
    requires u.Valid() && Norm(u, dir) in NamesOf(s) && IsClassName(class_) && !IsDotLike(class_[|class_| - 1])
    requires forall p | p in wrapper + [dir, class_, file] :: IsPart(p)
    requires forall d | d in wrapper + [class_] :: Norm(u, d) !in IGNORE_DIR_NAMES
    requires Norm(u, class_) !in TRAIN_DIR_NAMES && Norm(u, class_) !in TEST_DIR_NAMES && forall c | c in class_ :: !u.isSpace(c)
    ensures Laid(wrapper + [dir], dir, [class_], file) != []
    ensures Classify(u, Join(Laid(wrapper + [dir], dir, [class_], file), '/')) == Some((s, class_))
  {
    hide Norm, SafeClass, Classify, IsPart;
    NamesApart();
    LaidAt(wrapper + [dir], dir, [class_], file);
    var parts := Laid(wrapper + [dir], dir, [class_], file);
    assert parts == wrapper + [dir] + [dir] + [class_] + [file];
    forall p | p in parts
      ensures p in wrapper + [dir, class_, file]
    {
    }
    assert class_[0] in class_;
    SafeClassKeeps(u, "", "", class_, "", "");
    assert "" + class_ + "" == class_ && "" + ("" + class_ + "") + "" == class_;
    assert Cut(class_) == class_;
    LastSplitDecides(u, wrapper + [dir], dir, [class_], file, s, class_);
  }

  /** A flat layout, the label in front of the first dot of the file's name. */
  lemma FlatLayout(u: Unicode, wrapper: seq<string>, dir: string, class_: string, index: string, ext: string,
      s: DatasetArchive.Split)
    requires u.Valid() && Norm(u, dir) in NamesOf(s) && IsClassName(class_) && !IsDotLike(class_[|class_| - 1])
    requires '.' !in class_ && '/' !in index && '\\' !in index && '/' !in ext && '\\' !in ext && '.' !in ext
    requires forall p | p in wrapper + [dir] :: IsPart(p)
    requires forall d | d in wrapper :: Norm(u, d) !in IGNORE_DIR_NAMES
    requires forall c | c in class_ :: !u.isSpace(c) && !u.isDigit(c)
    ensures var parts := Laid(wrapper, dir, [], class_ + "." + index + "." + ext);
      parts != [] && Classify(u, Join(parts, '/')) == Some((s, class_))
  {
    hide Norm, SafeClass, Classify, ClassFromFilename;
    var stem, file := class_ + "." + index, class_ + "." + index + "." + ext;
    assert class_[0] in class_ && stem[0] == class_[0] && file == stem + "." + ext;
    assert forall c | c in class_ :: c != '/' && c != '\\';
    assert IsToken(u, stem, '.', class_);
    TokenExact(u, stem, ext);
    SafeClassKeeps(u, "", "", class_, "", "");
    assert "" + class_ + "" == class_ && "" + ("" + class_ + "") + "" == class_;
    assert IsPart(file) by {
      assert |file| > 1;
    }
    LaidAt(wrapper, dir, [], file);
    var parts := Laid(wrapper, dir, [], file);
    assert parts == wrapper + [dir] + [file];
    assert wrapper + [] == wrapper;
    LastSplitDecides(u, wrapper, dir, [], file, s, class_);
  }

  /** The names the layouts in the wild use, and what they are taken for. */
  lemma KnownNames(u: Unicode)
    requires u.Valid()
    ensures Norm(u, "seg_train") in TRAIN_DIR_NAMES && Norm(u, "train-set") in TRAIN_DIR_NAMES
    ensures Norm(u, "train") in TRAIN_DIR_NAMES && Norm(u, "training") in TRAIN_DIR_NAMES
    ensures Norm(u, "seg_test") in TEST_DIR_NAMES && Norm(u, "test") in TEST_DIR_NAMES && Norm(u, "valid") in TEST_DIR_NAMES
    ensures Norm(u, "seg_pred") in IGNORE_DIR_NAMES
  {
    hide Norm;
    NormIs(u, "seg", '_', "train");
    NormIs(u, "seg", '_', "test");
    NormIs(u, "seg", '_', "pred");
    NormIs(u, "train", '-', "set");
    NormIs(u, "test", '-', "");
    NormIs(u, "set", '-', "");
    NormIs(u, "pred", '-', "");
    NormIs(u, "training", '-', "");
    NormIs(u, "valid", '-', "");
    assert "seg" + ['_'] + "train" == "seg_train" && "seg" + ['_'] + "test" == "seg_test";
    assert "seg" + ['_'] + "pred" == "seg_pred" && "train" + ['-'] + "set" == "train-set";
    assert "seg" + "train" == "segtrain" && "seg" + "test" == "segtest" && "seg" + "pred" == "segpred";
    assert "train" + "set" == "trainset";
  }
}
