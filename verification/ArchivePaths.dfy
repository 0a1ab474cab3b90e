/** Which member names an archive may hold (orchestrator/services/dataset_archive.py): that the check on the
    normalised path refuses exactly the names that leave the extraction directory, and where a member that
    stays inside is taken to sit. */
module ArchivePaths {
  import opened Model
  import opened PosixPath
  import opened Text
  import opened DatasetArchive

  // --- Escaping -----------------------------------------------------------------------------------------------------

  /** How many directories below the starting point the components lead, a `..` going up one. */
  function Level(parts: seq<string>): int {
    if parts == [] then 0
    else
      var last := parts[|parts| - 1];
      Level(parts[..|parts| - 1]) + if last == "" || last == "." then 0 else if last == ".." then -1 else 1
  }

  /** Somewhere on its way the path is above its starting point. */
  predicate Escapes(parts: seq<string>) {
    exists i :: 0 <= i <= |parts| && Level(parts[..i]) < 0
  }

  predicate NoneUp(parts: seq<string>) {
    forall p | p in parts :: p != ".."
  }

  /** The normalised components of a relative path: as many as its level, none of them `..`, while it has not
      escaped; led by a `..` once it has. */
  lemma {:induction false} Normalised(parts: seq<string>)
    ensures var kept := PushAll([], parts, false);
      if Escapes(parts) then kept != [] && kept[0] == ".." else NoneUp(kept) && |kept| == Level(parts)
  {
    if parts != [] {
      var init, last := parts[..|parts| - 1], parts[|parts| - 1];
      assert parts == init + [last];
      Normalised(init);
      PushSnoc([], init, last, false);
      EscapeStep(init, last);
      PushKeeps(PushAll([], init, false), last);
    }
  }

  lemma EscapeStep(parts: seq<string>, part: string)
    ensures Level(parts + [part]) == Level(parts) + if part == "" || part == "." then 0 else if part == ".." then -1 else 1
    ensures Escapes(parts + [part]) <==> Escapes(parts) || Level(parts + [part]) < 0
  {
    var longer := parts + [part];
    assert longer[..|parts|] == parts && longer[..|longer|] == longer;
    assert forall i | 0 <= i <= |parts| :: longer[..i] == parts[..i];
    if i :| 0 <= i <= |parts| && Level(parts[..i]) < 0 {
      assert Level(longer[..i]) < 0;
    }
    if Level(longer) < 0 {
      assert Level(longer[..|longer|]) < 0;
    }
  }

  lemma PushKeeps(kept: seq<string>, part: string)
    ensures kept != [] && kept[0] == ".." ==> Push(kept, part, false) != [] && Push(kept, part, false)[0] == ".."
    ensures NoneUp(kept) && (part != ".." || kept != []) ==>
              NoneUp(Push(kept, part, false))
              && |Push(kept, part, false)| == |kept| + if part == "" || part == "." then 0 else if part == ".." then -1 else 1
    ensures kept == [] ==> Push(kept, "..", false) == [".."]
  {
    if NoneUp(kept) && kept != [] {
      assert kept[|kept| - 1] in kept && kept[|kept| - 1] != "..";
      assert forall p | p in kept[..|kept| - 1] :: p in kept;
    }
    if NoneUp(kept) && (part != ".." || kept != []) {
      forall p | p in Push(kept, part, false)
        ensures p != ".."
      {
        assert p in kept || p == part;
      }
    }
  }

  lemma KeptPlain(parts: seq<string>)
    requires forall p | p in parts :: '/' !in p
    ensures forall p | p in PushAll([], parts, false) :: p != "" && '/' !in p
  {
    PushedFrom([], parts);
  }

  lemma {:induction false} PushedFrom(done: seq<string>, parts: seq<string>)
    requires (forall p | p in done :: p != "" && '/' !in p) && forall p | p in parts :: '/' !in p
    ensures forall p | p in PushAll(done, parts, false) :: p != "" && '/' !in p
    decreases |parts|
  {
    if parts != [] {
      assert parts[0] in parts;
      PushIn(done, parts[0]);
      PushedFrom(Push(done, parts[0], false), parts[1..]);
    }
  }

  lemma PushIn(done: seq<string>, part: string)
    ensures forall p | p in Push(done, part, false) :: p in done || (p == part && part != "")
  {
  }

  /** What the prefix tests on a joined path see. */
  lemma JoinedStart(parts: seq<string>)
    requires parts != [] && forall p | p in parts :: p != "" && '/' !in p
    ensures var path := Join(parts, '/');
      && path != "" && path[0] != '/'
      && (StartsWith(path, "../") || path == ".." <==> parts[0] == "..")
  {
    var path, first := Join(parts, '/'), parts[0];
    assert first in parts;
    if |parts| == 1 {
      NoSlashStart(first);
    } else {
      var rest := Join(parts[1..], '/');
      assert path == first + ['/'] + rest;
      assert path[|first|] == '/' && path[..|first|] == first;
      if StartsWith(path, "../") {
        FirstSlash(path, |first|);
      }
      if first == ".." {
        assert "../" + rest == path;
      }
      assert path[|first|] in path && '/' !in "..";
    }
  }

  lemma NoSlashStart(s: string)
    requires '/' !in s
    ensures !StartsWith(s, "../")
  {
    if StartsWith(s, "../") {
      SlashBefore(s, 2, |s|);
    }
  }

  lemma SlashBefore(path: string, i: nat, at: nat)
    requires i < at <= |path| && path[i] == '/'
    ensures '/' in path[..at]
    ensures path[..|path|] == path
  {
    assert path[..at][i] == '/';
  }

  lemma FirstSlash(path: string, at: nat)
    requires at < |path| && path[at] == '/' && "../" <= path
    ensures '/' !in path[..at] ==> path[..at] == ".."
  {
    assert path[0] == '.' && path[1] == '.' && path[2] == '/';
    if at > 2 {
      SlashBefore(path, 2, at);
    }
  }

  lemma Leads(s: string, c: char)
    ensures [c] <= s <==> s != "" && s[0] == c
  {
  }

  /** A name is safe exactly when it is relative, has no drive, and, read with either slash, never climbs above
      the directory it is extracted into. */
  lemma SafePathExact(name: string)
    ensures SafePath(name) <==>
            && (name == "" || (name[0] != '/' && name[0] != '\\'))
            && (|name| < 2 || name[1] != ':')
            && !Escapes(PosixPath.Split(Slashed(name), '/'))
  {
    hide Push, PushAll, Escapes;
    Leads(name, '/');
    Leads(name, '\\');
    Leads(Slashed(name), '/');
    var path := Slashed(name);
    var parts := PosixPath.Split(path, '/');
    if name != "" && name[0] != '/' && name[0] != '\\' {
      var kept := PushAll([], parts, false);
      Normalised(parts);
      KeptPlain(parts);
      assert !StartsWith(path, "/") && Root(path) == "";
      if kept != [] {
        JoinedStart(kept);
        assert kept[0] in kept;
        assert "" + Join(kept, '/') == Join(kept, '/');
      }
    } else if name == "" {
      assert path == "" && NormPath(path) == ".";
      NothingEscapes();
      assert "."[0] != "/"[0] && !StartsWith(".", "/");
    } else {
      assert !SafePath(name);
    }
  }

  lemma NothingEscapes()
    ensures PosixPath.Split("", '/') == [""] && !Escapes([""])
  {
    assert forall i | 0 <= i <= 1 :: [""][..i] == if i == 0 then [] else [""];
    assert Level([]) == 0 && Level([""]) == 0;
  }

  // --- Where a member sits ----------------------------------------------------------------------------------------------

  /** The layout, over the components of the normalised name: split, class, file, in at most one wrapper. */
  lemma PlacementExact(name: string, s: DatasetArchive.Split, class_: string, file: string)
    ensures var parts := PosixPath.Split(NormPath(Slashed(name)), '/');
      var split := if s == Train then "train" else "test";
      Placement(name) == Some((s, class_, file)) <==>
      parts == [split, class_, file] || (|parts| == 4 && parts[1..] == [split, class_, file])
  {
  }

  /** Unix file types: only directories, regular files and members that carry no type are let through. */
  lemma RegularExact(kind: nat, permissions: nat)
    requires kind < 16 && permissions < 4096
    ensures IsRegular(kind * 4096 + permissions) <==> kind == 0 || kind == 4 || kind == 8
  {
  }

  /** Metadata: anything in a top folder __macosx, and the two metadata files wherever they lie. */
  lemma IgnorableExact(u: Unicode, name: string)
    ensures IsIgnorable(u, name) <==>
            var low := u.lower(name);
            || "__macosx/" <= low || low == ".ds_store" || low == "thumbs.db"
            || (exists dir: string :: low == dir + "/" + ".ds_store")
            || (exists dir: string :: low == dir + "/" + "thumbs.db")
  {
    hide Basename;
    var low := u.lower(name);
    BaseIs(low, ".ds_store");
    BaseIs(low, "thumbs.db");
  }

  lemma BaseIs(path: string, file: string)
    requires '/' !in file
    ensures Basename(path) == file <==> path == file || exists dir: string :: path == dir + "/" + file
  {
    var at := RFind(path, '/');
    if at >= 0 {
      assert path == path[..at] + "/" + Basename(path);
    }
    if dir: string :| path == dir + "/" + file {
      RFindUnique(path, '/', |dir|);
    }
    if path == file {
      assert at == -1;
    }
  }

  /** Which members make an upload unsafe: those that are not metadata and either leave the extraction directory
      or are neither a regular file nor a directory; and which are looked at further. */
  lemma MemberExact(u: Unicode, m: Member)
    ensures Safe(u, m) <==>
            || IsIgnorable(u, m.name)
            || (&& (m.name == "" || (m.name[0] != '/' && m.name[0] != '\\')) && (|m.name| < 2 || m.name[1] != ':')
                && !Escapes(PosixPath.Split(Slashed(m.name), '/'))
                && (var kind := m.mode / 4096 % 16; kind == 0 || kind == 4 || kind == 8))
    ensures Counts(u, m) <==> !IsIgnorable(u, m.name) && (m.name == "" || m.name[|m.name| - 1] != '/')
  {
    hide Escapes, IsIgnorable, SafePath;
    SafePathExact(m.name);
  }

  ghost predicate Holds(u: Unicode, infos: seq<Member>, s: DatasetArchive.Split, class_: string) {
    exists m :: m in infos && InClass(u, m, s, class_)
  }

  /** An archive is acceptable exactly when no limit is passed, no member is unsafe or of another type than an
      image where it counts, and every class, of which there are enough and not too many, is in both splits. */
  lemma AcceptableExact(u: Unicode, infos: seq<Member>, lim: Limits)
    ensures Acceptable(u, infos, lim) <==>
            && |infos| <= lim.maxFiles && Declared(u, infos) <= lim.maxBytes
            && (forall m | m in infos :: Safe(u, m))
            && (forall m | m in infos && Spot(u, m).Some? ::
                  u.lower(Extension(Spot(u, m).value.2)) in ALLOWED_IMAGE_SUFFIXES)
            && (forall c: string :: Holds(u, infos, Train, c) <==> Holds(u, infos, Test, c))
            && (exists c: string :: Holds(u, infos, Train, c))
            && lim.minClasses <= |Classes(u, infos, Train)| <= lim.maxClasses
    ensures forall c: string :: c in Classes(u, infos, Train) <==> Holds(u, infos, Train, c)
  {
    hide Spot, Safe, Declared;
    forall c: string
      ensures c in Classes(u, infos, Train) <==> Holds(u, infos, Train, c)
      ensures c in Classes(u, infos, Test) <==> Holds(u, infos, Test, c)
    {
    }
    assert Classes(u, infos, Train) == {} <==> !(exists c: string :: c in Classes(u, infos, Train));
  }
}
