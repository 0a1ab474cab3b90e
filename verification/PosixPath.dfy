/** The pieces of Python's posixpath both the checkpoint keys and the dataset archives rely on. */
module PosixPath {

  // --- Splitting and joining ------------------------------------------------------------------------------

  function Split(s: string, sep: char): (parts: seq<string>)
    ensures 0 < |parts|
    ensures forall p | p in parts :: sep !in p
  {
    if s == "" then [""]
    else
      var rest := Split(s[1..], sep);
      if s[0] == sep then [""] + rest else [[s[0]] + rest[0]] + rest[1..]
  }

  function Join(parts: seq<string>, sep: char): string
    requires 0 < |parts|
  {
    if |parts| == 1 then parts[0] else parts[0] + [sep] + Join(parts[1..], sep)
  }

  lemma {:induction false} SplitPlain(p: string, sep: char)
    requires sep !in p
    ensures Split(p, sep) == [p]
  {
    if p != "" {
      SplitPlain(p[1..], sep);
      assert [p[0]] + p[1..] == p;
    }
  }

  lemma {:induction false} SplitCons(p: string, rest: string, sep: char)
    requires sep !in p
    ensures Split(p + [sep] + rest, sep) == [p] + Split(rest, sep)
  {
    if p == "" {
      assert (p + [sep] + rest)[1..] == rest;
    } else {
      assert (p + [sep] + rest)[1..] == p[1..] + [sep] + rest;
      SplitCons(p[1..], rest, sep);
      assert [p[0]] + p[1..] == p;
      assert Split(p[1..] + [sep] + rest, sep)[1..] == Split(rest, sep);
    }
  }

  lemma {:induction false} SplitJoin(parts: seq<string>, sep: char)
    requires 0 < |parts| && forall p | p in parts :: sep !in p
    ensures Split(Join(parts, sep), sep) == parts
  {
    if |parts| == 1 {
      SplitPlain(parts[0], sep);
    } else {
      SplitJoin(parts[1..], sep);
      SplitCons(parts[0], Join(parts[1..], sep), sep);
    }
  }

  // --- normpath --------------------------------------------------------------------------------------------------

  /** One component pushed onto the normalised ones. */
  function Push(done: seq<string>, part: string, rooted: bool): seq<string> {
    if part == "" || part == "." then done
    else if part != ".." || (!rooted && done == []) || (done != [] && done[|done| - 1] == "..") then done + [part]
    else if done != [] then done[..|done| - 1]
    else done
  }

  function PushAll(done: seq<string>, parts: seq<string>, rooted: bool): seq<string>
    decreases |parts|
  {
    if parts == [] then done else PushAll(Push(done, parts[0], rooted), parts[1..], rooted)
  }

  predicate StartsWith(s: string, prefix: string) {
    prefix <= s
  }

  function Root(path: string): string {
    if StartsWith(path, "//") && !StartsWith(path, "///") then "//"
    else if StartsWith(path, "/") then "/"
    else ""
  }

  function NormPath(path: string): string {
    if path == "" then "."
    else
      var kept := PushAll([], Split(path, '/'), StartsWith(path, "/"));
      var joined := Root(path) + if kept == [] then "" else Join(kept, '/');
      if joined == "" then "." else joined
  }

  predicate Plain(part: string) {
    part != "" && part != "." && part != ".." && '/' !in part
  }

  predicate AllPlain(parts: seq<string>) {
    0 < |parts| && forall p | p in parts :: Plain(p)
  }

  lemma {:induction false} PushPlain(done: seq<string>, parts: seq<string>, rooted: bool)
    requires forall p | p in parts :: Plain(p)
    ensures PushAll(done, parts, rooted) == done + parts
    decreases |parts|
  {
    if parts == [] {
      assert done + parts == done;
    } else {
      assert Plain(parts[0]);
      PushPlain(done + [parts[0]], parts[1..], rooted);
      assert done + [parts[0]] + parts[1..] == done + parts;
    }
  }

  lemma {:induction false} PushSnoc(done: seq<string>, parts: seq<string>, part: string, rooted: bool)
    ensures PushAll(done, parts + [part], rooted) == Push(PushAll(done, parts, rooted), part, rooted)
    decreases |parts|
  {
    if parts == [] {
      assert [] + [part] == [part] && [part][1..] == [];
    } else {
      assert (parts + [part])[1..] == parts[1..] + [part];
      PushSnoc(Push(done, parts[0], rooted), parts[1..], part, rooted);
    }
  }

  /** A relative path of plain components is its own normal form, and splits into those components. */
  lemma PlainPath(parts: seq<string>)
    requires AllPlain(parts)
    ensures var path := Join(parts, '/');
      Plain(parts[0]) && path != "" && path[0] == parts[0][0] && path[0] != '/' && Split(path, '/') == parts
          && NormPath(path) == path
  {
    var path := Join(parts, '/');
    SplitJoin(parts, '/');
    PushPlain([], parts, false);
    assert [] + parts == parts;
    assert parts[0] in parts && Plain(parts[0]);
  }

  // --- basename and splitext --------------------------------------------------------------------------------------

  /** The last position of `c` in `s`, or -1. */
  function RFind(s: string, c: char): (i: int)
    ensures -1 <= i < |s|
    ensures i >= 0 ==> s[i] == c
    ensures forall k | i < k < |s| :: s[k] != c
  {
    if s == "" then -1
    else if s[|s| - 1] == c then |s| - 1
    else RFind(s[..|s| - 1], c)
  }

  function Basename(path: string): string {
    path[RFind(path, '/') + 1..]
  }

  /** The extension `splitext` reports: from the last dot of the last component, unless only dots precede it. */
  function Extension(path: string): string {
    var slash, dot := RFind(path, '/'), RFind(path, '.');
    if slash < dot && (exists k :: slash < k < dot && path[k] != '.') then path[dot..] else ""
  }

  function Stem(path: string): string {
    path[..|path| - |Extension(path)|]
  }

  lemma RFindUnique(s: string, c: char, i: int)
    requires 0 <= i < |s| && s[i] == c && forall k | i < k < |s| :: s[k] != c
    ensures RFind(s, c) == i
  {
  }
}
