/** The normaliser's promises: its output is an archive the validator accepts, and nothing is lost on the way. */
module Normalisation {
  import opened Model
  import opened Text
  import opened DatasetArchive
  import opened DatasetLayout
  import opened DatasetProofs

  // --- The places of a plan -----------------------------------------------------------------------------------

  ghost function ClassTags(s: DatasetArchive.Split, c: string, n: nat): seq<Tag> {
    seq(n, i requires 0 <= i < n => Tag(s, c, i))
  }

  ghost function SplitTags(u: Unicode, infos: seq<Member>, stride: nat, s: DatasetArchive.Split,
      classes: seq<string>): seq<Tag> {
    if classes == [] then []
    else
      SplitTags(u, infos, stride, s, classes[..|classes| - 1])
      + ClassTags(s, classes[|classes| - 1], |Final(u, infos, stride, s, classes[|classes| - 1])|)
  }

  ghost function Tags(u: Unicode, infos: seq<Member>, stride: nat, classes: seq<string>): seq<Tag> {
    SplitTags(u, infos, stride, Train, classes) + SplitTags(u, infos, stride, Test, classes)
  }

  predicate InRange(u: Unicode, infos: seq<Member>, stride: nat, t: Tag) {
    t.index < |Final(u, infos, stride, t.split, t.class_)|
  }

  /** The member a place is filled from; no name for a place out of range. */
  function Source(u: Unicode, infos: seq<Member>, stride: nat, t: Tag): string {
    if InRange(u, infos, stride, t) then Final(u, infos, stride, t.split, t.class_)[t.index] else ""
  }

  function At(u: Unicode, infos: seq<Member>, stride: nat, t: Tag): Entry {
    var source := Source(u, infos, stride, t);
    Entry(source, Target(u, t.split, t.class_, t.index, source))
  }

  ghost predicate Match(u: Unicode, infos: seq<Member>, stride: nat, entries: seq<Entry>, tags: seq<Tag>) {
    |entries| == |tags|
    && forall k {:trigger entries[k]} {:trigger tags[k]} | 0 <= k < |tags| :: InRange(u, infos, stride, tags[k])
        && entries[k] == At(u, infos, stride, tags[k])
  }

  lemma MatchLength(u: Unicode, infos: seq<Member>, stride: nat, entries: seq<Entry>, tags: seq<Tag>)
    requires Match(u, infos, stride, entries, tags)
    ensures |tags| == |entries|
  {
  }

  lemma {:induction false} SplitMatch(u: Unicode, infos: seq<Member>, stride: nat, s: DatasetArchive.Split,
      classes: seq<string>)
    ensures Match(u, infos, stride, SplitEntries(u, infos, stride, s, classes), SplitTags(u, infos, stride, s, classes))
  {
    hide Final, Target;
    if classes != [] {
      SplitMatch(u, infos, stride, s, classes[..|classes| - 1]);
    }
  }

  /** The entries of a plan, place by place. */
  lemma PlanMatch(u: Unicode, infos: seq<Member>, stride: nat, classes: seq<string>)
    ensures Match(u, infos, stride, Entries(u, infos, stride, classes), Tags(u, infos, stride, classes))
  {
    hide Final, Target, SplitEntries, SplitTags, At;
    SplitMatch(u, infos, stride, Train, classes);
    SplitMatch(u, infos, stride, Test, classes);
  }

  lemma {:induction false} SplitTagsAre(u: Unicode, infos: seq<Member>, stride: nat, s: DatasetArchive.Split,
      classes: seq<string>, t: Tag)
    ensures t in SplitTags(u, infos, stride, s, classes) <==>
            t.split == s && t.class_ in classes && InRange(u, infos, stride, t)
  {
    hide Final;
    if classes != [] {
      var init, last := classes[..|classes| - 1], classes[|classes| - 1];
      SplitTagsAre(u, infos, stride, s, init, t);
      assert classes == init + [last];
      var block := ClassTags(s, last, |Final(u, infos, stride, s, last)|);
      assert t in block <==> t.split == s && t.class_ == last && InRange(u, infos, stride, t) by {
        if t.split == s && t.class_ == last && InRange(u, infos, stride, t) {
          assert block[t.index] == t;
        }
      }
    }
  }

  lemma {:induction false} SplitTagsDistinct(u: Unicode, infos: seq<Member>, stride: nat, s: DatasetArchive.Split,
      classes: seq<string>)
    requires NoRepeats(classes)
    ensures NoRepeats(SplitTags(u, infos, stride, s, classes))
  {
    hide Final, InRange;
    if classes != [] {
      var init, last := classes[..|classes| - 1], classes[|classes| - 1];
      SplitTagsDistinct(u, infos, stride, s, init);
      var before := SplitTags(u, infos, stride, s, init);
      forall k | 0 <= k < |before|
        ensures before[k].class_ != last
      {
        assert before[k] in before;
        SplitTagsAre(u, infos, stride, s, init, before[k]);
      }
    }
  }

  lemma IncreasingDistinct(s: seq<string>)
    requires Increasing(s)
    ensures NoRepeats(s)
  {
    forall i, k | 0 <= i < k < |s|
      ensures s[i] != s[k]
    {
      LessStrict(s[i], s[k]);
    }
  }

  /** A plan has exactly one place for every position of every kept class, and no other. */
  lemma PlanPlaces(u: Unicode, infos: seq<Member>, stride: nat, classes: seq<string>)
    requires Increasing(classes)
    ensures NoRepeats(Tags(u, infos, stride, classes))
    ensures forall t {:trigger t in Tags(u, infos, stride, classes)} ::
              t in Tags(u, infos, stride, classes) <==> t.class_ in classes && InRange(u, infos, stride, t)
  {
    hide InRange, SplitTags;
    IncreasingDistinct(classes);
    SplitTagsDistinct(u, infos, stride, Train, classes);
    SplitTagsDistinct(u, infos, stride, Test, classes);
    var a, b := SplitTags(u, infos, stride, Train, classes), SplitTags(u, infos, stride, Test, classes);
    forall t: Tag
      ensures t in a <==> t.split == Train && t.class_ in classes && InRange(u, infos, stride, t)
      ensures t in b <==> t.split == Test && t.class_ in classes && InRange(u, infos, stride, t)
    {
      SplitTagsAre(u, infos, stride, Train, classes, t);
      SplitTagsAre(u, infos, stride, Test, classes, t);
    }
    assert forall i, k | 0 <= i < |a| && 0 <= k < |b| :: a[i] in a && b[k] in b && a[i] != b[k];
  }

  // --- Sources ----------------------------------------------------------------------------------------------------

  ghost predicate IsMemberName(infos: seq<Member>, name: string) {
    exists m :: m in infos && m.name == name
  }

  lemma SourceLabelled(u: Unicode, infos: seq<Member>, stride: nat, t: Tag)
    requires InRange(u, infos, stride, t)
    ensures var name := Source(u, infos, stride, t);
      IsMemberName(infos, name) && Label(u, name).Some? && Label(u, name).value.1 == t.class_
  {
    hide Final, Label, Labelled;
    var name := Source(u, infos, stride, t);
    assert name in Final(u, infos, stride, t.split, t.class_);
    assert name in Final(u, infos, stride, Train, t.class_) + Final(u, infos, stride, Test, t.class_) by {
      assert t.split == Train || t.split == Test;
    }
    FinalNames(u, infos, stride, t.class_, name);
    assert name in Labelled(u, infos, Train, t.class_) || name in Labelled(u, infos, Test, t.class_);
    LabelledName(u, infos, Train, t.class_, name);
    LabelledName(u, infos, Test, t.class_, name);
  }

  lemma SourceInjective(u: Unicode, infos: seq<Member>, stride: nat, t: Tag, t': Tag)
    requires DistinctNames(infos) && InRange(u, infos, stride, t) && InRange(u, infos, stride, t')
    requires Source(u, infos, stride, t) == Source(u, infos, stride, t')
    ensures t == t'
  {
    hide Final, Label;
    var name := Source(u, infos, stride, t);
    SourceLabelled(u, infos, stride, t);
    SourceLabelled(u, infos, stride, t');
    FinalNames(u, infos, stride, t.class_, name);
    assert name in Final(u, infos, stride, t.split, t.class_) && name in Final(u, infos, stride, t'.split, t'.class_);
    assert t.split == t'.split;
    FinalDistinct(u, infos, stride, t.split, t.class_);
  }

  /** Conservation: a labelled member of a kept class is the source of exactly one entry, and every entry's
      source is such a member. */
  lemma NothingLost(u: Unicode, infos: seq<Member>, stride: nat, classes: seq<string>)
    requires DistinctNames(infos) && Increasing(classes)
    ensures var entries := Entries(u, infos, stride, classes);
      && (forall m | m in infos && Label(u, m.name).Some? && Label(u, m.name).value.1 in classes ::
            exists k :: 0 <= k < |entries| && entries[k].source == m.name)
      && (forall i, k | 0 <= i < k < |entries| :: entries[i].source != entries[k].source)
      && (forall k | 0 <= k < |entries| ::
            && IsMemberName(infos, entries[k].source)
            && Label(u, entries[k].source).Some? && Label(u, entries[k].source).value.1 in classes)
  {
    hide *;
    var entries, tags := Entries(u, infos, stride, classes), Tags(u, infos, stride, classes);
    PlanMatch(u, infos, stride, classes);
    PlanPlaces(u, infos, stride, classes);
    SourcesApart(u, infos, stride, entries, tags);
    MatchLength(u, infos, stride, entries, tags);
    forall m | m in infos && Label(u, m.name).Some? && Label(u, m.name).value.1 in classes
      ensures exists k :: 0 <= k < |entries| && entries[k].source == m.name
    {
      var t := PlaceOf(u, infos, stride, m);
      assert t in tags;
      var k :| 0 <= k < |tags| && tags[k] == t;
      EntryMeans(u, infos, stride, entries, tags, k);
      assert entries[k].source == m.name;
    }
    forall k | 0 <= k < |entries|
      ensures IsMemberName(infos, entries[k].source)
      ensures Label(u, entries[k].source).Some? && Label(u, entries[k].source).value.1 in classes
    {
      EntryMeans(u, infos, stride, entries, tags, k);
      assert tags[k] in tags;
    }
  }

  lemma EntryMeans(u: Unicode, infos: seq<Member>, stride: nat, entries: seq<Entry>, tags: seq<Tag>, k: nat)
    requires Match(u, infos, stride, entries, tags) && k < |entries|
    ensures |tags| == |entries| && InRange(u, infos, stride, tags[k])
    ensures entries[k].source == Source(u, infos, stride, tags[k])
    ensures entries[k].target == Target(u, tags[k].split, tags[k].class_, tags[k].index, entries[k].source)
    ensures IsMemberName(infos, entries[k].source)
    ensures Label(u, entries[k].source).Some? && Label(u, entries[k].source).value.1 == tags[k].class_
  {
    hide Final, Target, Label, InRange, Source;
    SourceLabelled(u, infos, stride, tags[k]);
  }

  lemma SourcesApart(u: Unicode, infos: seq<Member>, stride: nat, entries: seq<Entry>, tags: seq<Tag>)
    requires DistinctNames(infos) && Match(u, infos, stride, entries, tags) && NoRepeats(tags)
    ensures forall i, k | 0 <= i < k < |entries| :: entries[i].source != entries[k].source
  {
    hide Final, Target, Label, InRange, Source, DistinctNames;
    forall i, k | 0 <= i < k < |entries|
      ensures entries[i].source != entries[k].source
    {
      if entries[i].source == entries[k].source {
        SourceInjective(u, infos, stride, tags[i], tags[k]);
      }
    }
  }

  lemma PlaceOf(u: Unicode, infos: seq<Member>, stride: nat, m: Member) returns (t: Tag)
    requires m in infos && Label(u, m.name).Some?
    ensures InRange(u, infos, stride, t) && t.class_ == Label(u, m.name).value.1 && Source(u, infos, stride, t) == m.name
  {
    hide Final, Label, Labelled;
    var (s, c) := Label(u, m.name).value;
    LabelledName(u, infos, s, c, m.name);
    assert s == Train || s == Test;
    assert m.name in Labelled(u, infos, Train, c) + Labelled(u, infos, Test, c);
    FinalNames(u, infos, stride, c, m.name);
    var split := if m.name in Final(u, infos, stride, Train, c) then Train else Test;
    var i :| 0 <= i < |Final(u, infos, stride, split, c)| && Final(u, infos, stride, split, c)[i] == m.name;
    t := Tag(split, c, i);
  }

  // --- Sizes --------------------------------------------------------------------------------------------------------

  /** The declared bytes of the members with the given names. */
  ghost function SizeIn(infos: seq<Member>, names: set<string>): nat {
    if infos == [] then 0
    else SizeIn(infos[..|infos| - 1], names) + if infos[|infos| - 1].name in names then infos[|infos| - 1].size else 0
  }

  lemma {:induction false} SizeOther(infos: seq<Member>, names: set<string>, name: string)
    requires !IsMemberName(infos, name)
    ensures SizeIn(infos, names + {name}) == SizeIn(infos, names)
  {
    if infos != [] {
      assert infos[|infos| - 1] in infos;
      assert forall m | m in infos[..|infos| - 1] :: m in infos;
      SizeOther(infos[..|infos| - 1], names, name);
    }
  }

  lemma {:induction false} SizeOne(infos: seq<Member>, names: set<string>, m: Member)
    requires DistinctNames(infos) && m in infos && m.name !in names
    ensures SizeIn(infos, names + {m.name}) == SizeIn(infos, names) + m.size
  {
    var init, last := infos[..|infos| - 1], infos[|infos| - 1];
    assert infos == init + [last];
    if m == last {
      SizeOther(init, names, m.name);
    } else {
      assert m in init;
      SizeOne(init, names, m);
    }
  }

  lemma {:induction false} SizeBound(u: Unicode, infos: seq<Member>, names: set<string>)
    requires forall name | name in names :: Label(u, name).Some?
    ensures SizeIn(infos, names) <= LabelledBytes(u, infos)
  {
    hide Label;
    if infos != [] {
      SizeBound(u, infos[..|infos| - 1], names);
    }
  }

  function Sources(entries: seq<Entry>): set<string> {
    set e | e in entries :: e.source
  }

  /** The member a zip reader opens under a name: the last one stored under it. */
  function Opened(infos: seq<Member>, name: string): (r: Option<Member>)
    ensures r.Some? ==> r.value in infos && r.value.name == name
    ensures r == None ==> forall m | m in infos :: m.name != name
  {
    if infos == [] then None
    else if infos[|infos| - 1].name == name then Some(infos[|infos| - 1])
    else
      assert infos == infos[..|infos| - 1] + [infos[|infos| - 1]];
      Opened(infos[..|infos| - 1], name)
  }

  /** Of several members stored under one name it is the last. */
  lemma {:induction false} OpenedIsLast(infos: seq<Member>, k: nat)
    requires k < |infos| && forall i | k < i < |infos| :: infos[i].name != infos[k].name
    ensures Opened(infos, infos[k].name) == Some(infos[k])
  {
    if k < |infos| - 1 {
      OpenedIsLast(infos[..|infos| - 1], k);
    }
  }

  function OpenedSize(infos: seq<Member>, name: string): nat {
    var m := Opened(infos, name);
    if m.Some? then m.value.size else 0
  }

  /** What a plan's entries come to once written out. */
  function PlannedBytes(infos: seq<Member>, entries: seq<Entry>): nat {
    if entries == [] then 0
    else PlannedBytes(infos, entries[..|entries| - 1]) + OpenedSize(infos, entries[|entries| - 1].source)
  }

  /** `m` is the rewritten copy of an entry's source: the entry's target, the source's size, no file type. */
  predicate IsCopy(infos: seq<Member>, e: Entry, m: Member) {
    m.name == e.target && FileType(m.mode) == 0 && m.size == OpenedSize(infos, e.source)
  }

  /** The archive a plan is rewritten into. */
  predicate Rewritten(infos: seq<Member>, entries: seq<Entry>, out: seq<Member>) {
    |out| == |entries| && forall k {:trigger out[k]} | 0 <= k < |out| :: IsCopy(infos, entries[k], out[k])
  }

  lemma {:induction false} DistinctSources(infos: seq<Member>, entries: seq<Entry>)
    requires DistinctNames(infos) && forall k | 0 <= k < |entries| :: IsMemberName(infos, entries[k].source)
    requires forall i, k | 0 <= i < k < |entries| :: entries[i].source != entries[k].source
    ensures PlannedBytes(infos, entries) <= SizeIn(infos, Sources(entries))
    decreases |entries|
  {
    hide DistinctNames;
    if entries != [] {
      var init, e := entries[..|entries| - 1], entries[|entries| - 1];
      DistinctSources(infos, init);
      assert entries == init + [e];
      assert Sources(entries) == Sources(init) + {e.source} && e.source !in Sources(init);
      SizeOne(infos, Sources(init), Opened(infos, e.source).value);
    }
  }

  // --- Nothing is lost or added, repeats and all ----------------------------------------------------------------------

  lemma {:induction false} KeepParts(members: seq<string>, held: set<string>)
    ensures multiset(Keep(members, held, true)) + multiset(Keep(members, held, false)) == multiset(members)
  {
    if members != [] {
      var init, last := members[..|members| - 1], members[|members| - 1];
      KeepParts(init, held);
      assert members == init + [last];
    }
  }

  /** Carved or not, a class is placed member for member, however often a name repeats. */
  lemma ClassConserved(u: Unicode, infos: seq<Member>, stride: nat, c: string)
    ensures multiset(Final(u, infos, stride, Train, c)) + multiset(Final(u, infos, stride, Test, c))
            == multiset(Labelled(u, infos, Train, c)) + multiset(Labelled(u, infos, Test, c))
    ensures |Final(u, infos, stride, Train, c)| + |Final(u, infos, stride, Test, c)|
            == |Labelled(u, infos, Train, c)| + |Labelled(u, infos, Test, c)|
  {
    hide Labelled, Keep, Holdout;
    var train, test := Labelled(u, infos, Train, c), Labelled(u, infos, Test, c);
    if IsCarved(train, test, stride) {
      KeepParts(train, Holdout(train, stride));
    }
    Sizes(Final(u, infos, stride, Train, c), Final(u, infos, stride, Test, c), train, test);
  }

  lemma Sizes(a: seq<string>, b: seq<string>, c: seq<string>, d: seq<string>)
    requires multiset(a) + multiset(b) == multiset(c) + multiset(d)
    ensures |a| + |b| == |c| + |d|
  {
    assert |multiset(a) + multiset(b)| == |a| + |b| && |multiset(c) + multiset(d)| == |c| + |d|;
  }

  /** How many members are labelled with one of the classes. */
  ghost function LabelledIn(u: Unicode, infos: seq<Member>, classes: seq<string>): nat {
    if classes == [] then 0
    else
      LabelledIn(u, infos, classes[..|classes| - 1])
      + |Labelled(u, infos, Train, classes[|classes| - 1])| + |Labelled(u, infos, Test, classes[|classes| - 1])|
  }

  lemma {:induction false} EntryCount(u: Unicode, infos: seq<Member>, stride: nat, classes: seq<string>)
    ensures |SplitEntries(u, infos, stride, Train, classes)| + |SplitEntries(u, infos, stride, Test, classes)|
            == LabelledIn(u, infos, classes)
  {
    hide Final, Labelled, Target;
    if classes != [] {
      EntryCount(u, infos, stride, classes[..|classes| - 1]);
      ClassConserved(u, infos, stride, classes[|classes| - 1]);
    }
  }

  lemma {:induction false} OneMoreLabelled(u: Unicode, infos: seq<Member>, m: Member, classes: seq<string>)
    requires NoRepeats(classes)
    ensures LabelledIn(u, infos + [m], classes) == LabelledIn(u, infos, classes)
            + if Label(u, m.name).Some? && Label(u, m.name).value.1 in classes then 1 else 0
  {
    hide Label, Labelled;
    if classes != [] {
      var init, c := classes[..|classes| - 1], classes[|classes| - 1];
      OneMoreLabelled(u, infos, m, init);
      assert classes == init + [c] && c !in init;
      OneMoreOfClass(u, infos, m, c);
    }
  }

  lemma OneMoreOfClass(u: Unicode, infos: seq<Member>, m: Member, c: string)
    ensures |Labelled(u, infos + [m], Train, c)| + |Labelled(u, infos + [m], Test, c)|
            == |Labelled(u, infos, Train, c)| + |Labelled(u, infos, Test, c)|
               + if Label(u, m.name).Some? && Label(u, m.name).value.1 == c then 1 else 0
  {
    hide Label;
    assert (infos + [m])[..|infos|] == infos;
    assert Label(u, m.name).Some? ==> Label(u, m.name).value.0 == Train || Label(u, m.name).value.0 == Test;
  }

  lemma {:induction false} LabelledFit(u: Unicode, infos: seq<Member>, classes: seq<string>)
    requires NoRepeats(classes)
    ensures LabelledIn(u, infos, classes) <= |infos|
    decreases |infos|
  {
    hide Label, Labelled, NoRepeats;
    if infos == [] {
      NoneLabelled(u, classes);
    } else {
      var init, last := infos[..|infos| - 1], infos[|infos| - 1];
      assert infos == init + [last];
      LabelledFit(u, init, classes);
      OneMoreLabelled(u, init, last, classes);
    }
  }

  lemma {:induction false} NoneLabelled(u: Unicode, classes: seq<string>)
    ensures LabelledIn(u, [], classes) == 0
  {
    if classes != [] {
      NoneLabelled(u, classes[..|classes| - 1]);
    }
  }

  // --- What the validator makes of the output ---------------------------------------------------------------------------

  /** One member of the rewritten archive, seen by the validator. */
  lemma CopyAccepted(u: Unicode, infos: seq<Member>, stride: nat, entries: seq<Entry>, tags: seq<Tag>,
      out: seq<Member>, k: nat)
    requires u.Valid() && Match(u, infos, stride, entries, tags) && Rewritten(infos, entries, out) && k < |out|
    ensures |tags| == |out|
    ensures Safe(u, out[k]) && IsImageIfPlaced(u, out[k])
    ensures Spot(u, out[k]).Some? && Spot(u, out[k]).value.0 == tags[k].split && Spot(u, out[k]).value.1 == tags[k].class_
  {
    hide *;
    CopyCount(infos, entries, out);
    EntryMeans(u, infos, stride, entries, tags, k);
    CopyOf(infos, entries, out, k);
    LabelledIsImage(u, entries[k].source);
    TargetAccepted(u, tags[k].split, tags[k].class_, tags[k].index, entries[k].source, out[k]);
  }

  lemma CopyCount(infos: seq<Member>, entries: seq<Entry>, out: seq<Member>)
    requires Rewritten(infos, entries, out)
    ensures |entries| == |out|
  {
  }

  lemma CopyOf(infos: seq<Member>, entries: seq<Entry>, out: seq<Member>, k: nat)
    requires Rewritten(infos, entries, out) && k < |out|
    ensures |entries| == |out| && out[k].name == entries[k].target && FileType(out[k].mode) == 0
  {
    assert IsCopy(infos, entries[k], out[k]);
  }

  lemma TargetsApart(u: Unicode, infos: seq<Member>, stride: nat, entries: seq<Entry>, tags: seq<Tag>)
    requires u.Valid() && Match(u, infos, stride, entries, tags) && NoRepeats(tags)
    ensures forall i, k | 0 <= i < k < |entries| :: entries[i].target != entries[k].target
  {
    hide Target, Label, InRange, Source, Match, IsClassName;
    forall i, k | 0 <= i < k < |entries|
      ensures entries[i].target != entries[k].target
    {
      EntryMeans(u, infos, stride, entries, tags, i);
      EntryMeans(u, infos, stride, entries, tags, k);
      LabelledIsImage(u, entries[i].source);
      LabelledIsImage(u, entries[k].source);
      if entries[i].target == entries[k].target {
        TargetInjective(u, tags[i], tags[k], entries[i].source, entries[k].source);
      }
    }
  }

  /** The classes a plan puts something into a split for. */
  function Holding(u: Unicode, infos: seq<Member>, stride: nat, s: DatasetArchive.Split, classes: seq<string>): set<string> {
    set c | c in classes && Final(u, infos, stride, s, c) != []
  }

  lemma SplitClasses(u: Unicode, infos: seq<Member>, stride: nat, classes: seq<string>, out: seq<Member>,
      s: DatasetArchive.Split)
    requires u.Valid() && Increasing(classes) && Rewritten(infos, Entries(u, infos, stride, classes), out)
    ensures Classes(u, out, s) == Holding(u, infos, stride, s, classes)
  {
    hide Final, Label, Spot, Entries, Rewritten, Match, Increasing, Tags;
    var entries, tags := Entries(u, infos, stride, classes), Tags(u, infos, stride, classes);
    PlanMatch(u, infos, stride, classes);
    PlanPlaces(u, infos, stride, classes);
    MatchLength(u, infos, stride, entries, tags);
    CopyCount(infos, entries, out);
    forall m | m in out && Spot(u, m).Some? && Spot(u, m).value.0 == s
      ensures Spot(u, m).value.1 in Holding(u, infos, stride, s, classes)
    {
      var k :| 0 <= k < |out| && out[k] == m;
      CopyAccepted(u, infos, stride, entries, tags, out, k);
      assert tags[k] in tags;
    }
    forall c | c in Holding(u, infos, stride, s, classes)
      ensures c in Classes(u, out, s)
    {
      assert Tag(s, c, 0) in tags;
      var k :| 0 <= k < |tags| && tags[k] == Tag(s, c, 0);
      CopyAccepted(u, infos, stride, entries, tags, out, k);
      assert out[k] in out;
    }
  }

  /** A class keeps something to train on: it is not carved, or some training name of it stands at no
      multiple of the stride. */
  predicate KeepsTraining(u: Unicode, infos: seq<Member>, stride: nat, c: string) {
    var train, test := Labelled(u, infos, Train, c), Labelled(u, infos, Test, c);
    IsCarved(train, test, stride) ==> exists k :: 0 <= k < |train| && train[k] !in Holdout(train, stride)
  }

  lemma TrainingKept(u: Unicode, infos: seq<Member>, stride: nat, c: string)
    requires c in KeptClasses(u, infos, stride)
    ensures Final(u, infos, stride, Train, c) != [] <==> KeepsTraining(u, infos, stride, c)
    ensures Final(u, infos, stride, Test, c) != []
  {
    hide Label, Labelled, Keep, Holdout;
    var train, test := Labelled(u, infos, Train, c), Labelled(u, infos, Test, c);
    var m :| m in infos && Label(u, m.name).Some? && Label(u, m.name).value.0 == Train && Label(u, m.name).value.1 == c;
    LabelledName(u, infos, Train, c, m.name);
    assert m.name in train;
    if IsCarved(train, test, stride) {
      SomeKept(train, Holdout(train, stride));
    }
  }

  lemma SomeKept(members: seq<string>, held: set<string>)
    ensures Keep(members, held, false) != [] <==> exists k :: 0 <= k < |members| && members[k] !in held
  {
    hide Keep;
    var kept := Keep(members, held, false);
    if kept != [] {
      assert kept[0] in kept;
      KeepElement(members, held, false, kept[0]);
    }
    if k :| 0 <= k < |members| && members[k] !in held {
      KeepElement(members, held, false, members[k]);
    }
  }

  /** The validator's class check on the rewritten archive, for every upload: it passes exactly when every
      kept class keeps something to train on. */
  lemma ClassCheck(u: Unicode, infos: seq<Member>, stride: nat, classes: seq<string>, out: seq<Member>)
    requires u.Valid() && Increasing(classes) && Elements(classes) == KeptClasses(u, infos, stride) != {}
    requires Rewritten(infos, Entries(u, infos, stride, classes), out)
    ensures Classes(u, out, Test) == Elements(classes) != {}
    ensures Classes(u, out, Train) == Classes(u, out, Test) <==>
            forall c | c in classes :: KeepsTraining(u, infos, stride, c)
  {
    hide Final, Label, Entries, Rewritten, KeptClasses, KeepsTraining, Increasing, Classes;
    SplitClasses(u, infos, stride, classes, out, Train);
    SplitClasses(u, infos, stride, classes, out, Test);
    forall c | c in classes
      ensures Final(u, infos, stride, Train, c) != [] <==> KeepsTraining(u, infos, stride, c)
      ensures Final(u, infos, stride, Test, c) != []
    {
      assert c in Elements(classes);
      TrainingKept(u, infos, stride, c);
    }
    HoldingIs(u, infos, stride, classes);
  }

  lemma HoldingIs(u: Unicode, infos: seq<Member>, stride: nat, classes: seq<string>)
    requires forall c | c in classes :: Final(u, infos, stride, Test, c) != []
    ensures Holding(u, infos, stride, Test, classes) == Elements(classes)
    ensures Holding(u, infos, stride, Train, classes) == Elements(classes) <==>
            forall c | c in classes :: Final(u, infos, stride, Train, c) != []
  {
    hide Final;
    if Holding(u, infos, stride, Train, classes) == Elements(classes) {
      forall c | c in classes
        ensures Final(u, infos, stride, Train, c) != []
      {
        assert c in Holding(u, infos, stride, Train, classes);
      }
    }
  }

  lemma {:induction false} OutputBytes(u: Unicode, infos: seq<Member>, entries: seq<Entry>, out: seq<Member>)
    requires Rewritten(infos, entries, out) && forall k {:trigger out[k]} | 0 <= k < |out| :: Counts(u, out[k])
    ensures Declared(u, out) == PlannedBytes(infos, entries)
    decreases |out|
  {
    hide Counts, OpenedSize;
    if out != [] {
      var n := |out| - 1;
      assert IsCopy(infos, entries[n], out[n]);
      OutputBytes(u, infos, entries[..n], out[..n]);
    }
  }

  /** Every member of the output is one the validator finds safe, an image, and in place. */
  lemma OutputMembers(u: Unicode, infos: seq<Member>, stride: nat, classes: seq<string>, out: seq<Member>)
    requires u.Valid() && Increasing(classes) && Rewritten(infos, Entries(u, infos, stride, classes), out)
    ensures DistinctNames(out)
    ensures forall m | m in out :: Safe(u, m) && IsImageIfPlaced(u, m)
    ensures Declared(u, out) == PlannedBytes(infos, Entries(u, infos, stride, classes))
    ensures |out| <= |infos|
  {
    hide *;
    var entries, tags := Entries(u, infos, stride, classes), Tags(u, infos, stride, classes);
    PlanMatch(u, infos, stride, classes);
    PlanPlaces(u, infos, stride, classes);
    MatchLength(u, infos, stride, entries, tags);
    CopyCount(infos, entries, out);
    TargetsApart(u, infos, stride, entries, tags);
    NamesApart(infos, entries, out);
    forall k {:trigger out[k]} | 0 <= k < |out|
      ensures Safe(u, out[k]) && IsImageIfPlaced(u, out[k]) && Counts(u, out[k])
    {
      CopyAccepted(u, infos, stride, entries, tags, out, k);
      SpotCounts(u, out[k]);
    }
    OutputBytes(u, infos, entries, out);
    IncreasingDistinct(classes);
    LabelledFit(u, infos, classes);
    EntriesFit(u, infos, stride, classes);
  }

  lemma EntriesFit(u: Unicode, infos: seq<Member>, stride: nat, classes: seq<string>)
    ensures |Entries(u, infos, stride, classes)| == LabelledIn(u, infos, classes)
  {
    hide SplitEntries;
    EntryCount(u, infos, stride, classes);
  }

  lemma SpotCounts(u: Unicode, m: Member)
    ensures Spot(u, m).Some? ==> Counts(u, m)
  {
  }

  lemma NamesApart(infos: seq<Member>, entries: seq<Entry>, out: seq<Member>)
    requires Rewritten(infos, entries, out)
    requires forall i, k | 0 <= i < k < |entries| :: entries[i].target != entries[k].target
    ensures DistinctNames(out)
  {
    forall i, k | 0 <= i < k < |out|
      ensures out[i].name != out[k].name
    {
      CopyOf(infos, entries, out, i);
      CopyOf(infos, entries, out, k);
    }
  }

  /** What the validator makes of the normaliser's output, for every upload that gets a plan, repeated
      names and all: the targets are pairwise distinct, and the archive of exactly those targets passes
      every check if and only if every kept class keeps something to train on, the members read come to
      no more than the byte limit, and the number of classes is within its bounds. */
  lemma OutputAccepted(u: Unicode, infos: seq<Member>, stride: nat, classes: seq<string>, out: seq<Member>, lim: Limits)
    requires u.Valid() && !Dangerous(u, infos, lim.maxFiles, lim.maxBytes)
    requires Increasing(classes) && Elements(classes) == KeptClasses(u, infos, stride) != {}
    requires Rewritten(infos, Entries(u, infos, stride, classes), out)
    ensures DistinctNames(out) && Classes(u, out, Test) == Elements(classes)
    ensures WellLaidOut(u, out, lim) <==>
            && (forall c | c in classes :: KeepsTraining(u, infos, stride, c))
            && PlannedBytes(infos, Entries(u, infos, stride, classes)) <= lim.maxBytes
    ensures Acceptable(u, out, lim) <==>
            WellLaidOut(u, out, lim) && lim.minClasses <= |Elements(classes)| <= lim.maxClasses
  {
    hide Label, Entries, Rewritten, KeptClasses, KeepsTraining, Increasing, Safe, IsImageIfPlaced, Classes, Declared,
        LabelledBytes, PlannedBytes, DistinctNames;
    OutputMembers(u, infos, stride, classes, out);
    ClassCheck(u, infos, stride, classes, out);
  }

  /** Distinct names are enough: then only the bounds on the number of classes can still refuse the output. */
  lemma DistinctNamesSuffice(u: Unicode, infos: seq<Member>, f: real, classes: seq<string>, out: seq<Member>, lim: Limits)
    requires u.Valid() && DistinctNames(infos) && !Dangerous(u, infos, lim.maxFiles, lim.maxBytes)
    requires Increasing(classes) && Elements(classes) == KeptClasses(u, infos, Stride(f)) != {}
    requires Rewritten(infos, Entries(u, infos, Stride(f), classes), out)
    ensures WellLaidOut(u, out, lim) && Classes(u, out, Train) == Elements(classes)
    ensures Acceptable(u, out, lim) <==> lim.minClasses <= |Elements(classes)| <= lim.maxClasses
  {
    hide Label, Entries, Rewritten, KeptClasses, KeepsTraining, Increasing, Safe, IsImageIfPlaced, Classes, Declared,
        LabelledBytes, PlannedBytes, DistinctNames, Final, Stride;
    forall c | c in classes
      ensures KeepsTraining(u, infos, Stride(f), c)
    {
      assert c in Elements(classes);
      TrainingKept(u, infos, Stride(f), c);
      DistinctTraining(u, infos, f, c);
    }
    DistinctBytes(u, infos, Stride(f), classes);
    OutputAccepted(u, infos, Stride(f), classes, out, lim);
  }

  lemma DistinctTraining(u: Unicode, infos: seq<Member>, f: real, c: string)
    requires DistinctNames(infos) && c in KeptClasses(u, infos, Stride(f))
    ensures Final(u, infos, Stride(f), Train, c) != []
  {
    hide Final, Stride, Label;
    CarvedClass(u, infos, f, c);
    var m :| m in infos && Label(u, m.name).Some? && Label(u, m.name).value.0 == Train && Label(u, m.name).value.1 == c;
    LabelledName(u, infos, Train, c, m.name);
    assert m.name in Labelled(u, infos, Train, c);
  }

  lemma DistinctBytes(u: Unicode, infos: seq<Member>, stride: nat, classes: seq<string>)
    requires DistinctNames(infos) && Increasing(classes)
    ensures PlannedBytes(infos, Entries(u, infos, stride, classes)) <= LabelledBytes(u, infos)
  {
    hide Label, Entries, Increasing, LabelledBytes, PlannedBytes, DistinctNames, SizeIn;
    var entries := Entries(u, infos, stride, classes);
    NothingLost(u, infos, stride, classes);
    DistinctSources(infos, entries);
    SizeBound(u, infos, Sources(entries));
  }

  /** An upload whose training images of some class are one name, stored at least stride times, is planned
      with that class entirely in test/, and refused: for every stride and every number of copies. */
  lemma CopiesRefused(u: Unicode, m: Member, n: nat, c: string, stride: nat, classes: seq<string>, out: seq<Member>,
      lim: Limits)
    requires u.Valid() && Label(u, m.name) == Some((Train, c)) && 1 <= stride <= n
    requires Increasing(classes) && Elements(classes) == KeptClasses(u, Copies(m, n), stride)
    requires Rewritten(Copies(m, n), Entries(u, Copies(m, n), stride, classes), out)
    ensures c in classes && !WellLaidOut(u, out, lim)
  {
    hide Label, Entries, Rewritten, Increasing, Classes, Safe, IsImageIfPlaced, Declared;
    var infos := Copies(m, n);
    CopiesLabelled(u, m, n, Train, c);
    CopiesLabelled(u, m, n, Test, c);
    CopiesHeld(u, m, n, c, stride);
    assert c in Elements(classes);
    ClassCheck(u, infos, stride, classes, out);
  }

  function Copies(m: Member, n: nat): seq<Member> {
    if n == 0 then [] else Copies(m, n - 1) + [m]
  }

  function Names(name: string, n: nat): (r: seq<string>)
    ensures |r| == n && forall k | 0 <= k < n :: r[k] == name
  {
    if n == 0 then [] else Names(name, n - 1) + [name]
  }

  lemma {:induction false} CopiesLabelled(u: Unicode, m: Member, n: nat, s: DatasetArchive.Split, c: string)
    ensures Labelled(u, Copies(m, n), s, c) == if IsLabelled(u, m.name, s, c) then Names(m.name, n) else []
    ensures n > 0 ==> m in Copies(m, n)
  {
    hide IsLabelled;
    if n > 0 {
      CopiesLabelled(u, m, n - 1, s, c);
      assert Copies(m, n)[..|Copies(m, n)| - 1] == Copies(m, n - 1);
    }
  }

  lemma CopiesHeld(u: Unicode, m: Member, n: nat, c: string, stride: nat)
    requires Label(u, m.name) == Some((Train, c)) && 1 <= stride <= n
    ensures c in KeptClasses(u, Copies(m, n), stride) && !KeepsTraining(u, Copies(m, n), stride, c)
  {
    hide Label, Labelled, Keep;
    var infos, names := Copies(m, n), Names(m.name, n);
    CopiesLabelled(u, m, n, Train, c);
    CopiesLabelled(u, m, n, Test, c);
    assert names[0] in Holdout(names, stride);
    KeepElement(names, Holdout(names, stride), true, m.name);
    assert m.name in Final(u, infos, stride, Test, c);
  }
}
