/** Cutting a container's log stream into lines as its chunks arrive (agent/runtime/docker_launcher.py). */
module LogLines {
  import opened PosixPath
  import opened Text

  type Bytes = seq<bv8>

  predicate IsReturn(c: char) {
    c == '\r'
  }

  /** The lines worth forwarding: trailing carriage returns dropped, then empty lines. */
  function Kept(lines: seq<string>): seq<string> {
    if lines == [] then []
    else
      var stripped := RStrip(lines[|lines| - 1], IsReturn);
      Kept(lines[..|lines| - 1]) + if stripped == "" then [] else [stripped]
  }

  /** The lines of a whole text at once. */
  function Lines(text: string): seq<string> {
    Kept(Split(text, '\n'))
  }

  /** The text of a stream whose every chunk is decoded by itself. */
  function Decoded(chunks: seq<Bytes>, decode: Bytes -> string): string {
    if chunks == [] then "" else Decoded(chunks[..|chunks| - 1], decode) + decode(chunks[|chunks| - 1])
  }

  function Whole(chunks: seq<Bytes>): Bytes {
    if chunks == [] then [] else Whole(chunks[..|chunks| - 1]) + chunks[|chunks| - 1]
  }

  function Init<T>(s: seq<T>): seq<T>
    requires s != []
  {
    s[..|s| - 1]
  }

  function Last<T>(s: seq<T>): T
    requires s != []
  {
    s[|s| - 1]
  }

  /** The first part of a split with one more character in front. */
  function Grown(c: char, parts: seq<string>): seq<string>
    requires parts != []
  {
    [[c] + parts[0]] + parts[1..]
  }

  lemma SplitHead(c: char, rest: string, sep: char)
    ensures Split([c] + rest, sep) == if c == sep then [""] + Split(rest, sep) else Grown(c, Split(rest, sep))
  {
    assert ([c] + rest)[1..] == rest;
  }

  lemma GrownAppend(c: char, parts: seq<string>, tail: seq<string>)
    requires parts != [] && tail != []
    ensures |parts| > 1 ==>
              Grown(c, Init(parts) + tail) == Init(Grown(c, parts)) + tail && Last(Grown(c, parts)) == Last(parts)
    ensures |parts| == 1 ==> Grown(c, Init(parts) + tail) == Grown(c, tail) && Last(Grown(c, parts)) == [c] + Last(parts)
  {
  }

  /** More text only continues the last, unfinished line. */
  lemma {:induction false} SplitAppend(a: string, b: string, sep: char)
    ensures Split(a + b, sep) == Init(Split(a, sep)) + Split(Last(Split(a, sep)) + b, sep)
  {
    if a == "" {
      assert a + b == b && "" + b == b && Split(a, sep) == [""];
    } else {
      hide *;
      var c, rest := a[0], Split(a[1..], sep);
      assert a == [c] + a[1..];
      assert a + b == [c] + (a[1..] + b);
      SplitAppend(a[1..], b, sep);
      SplitHead(c, a[1..], sep);
      SplitHead(c, a[1..] + b, sep);
      var tail := Split(Last(rest) + b, sep);
      if c == sep {
        LedAppend("", rest, tail);
      } else {
        FirstGrown(c, rest, b, sep);
      }
    }
  }

  lemma FirstGrown(c: char, parts: seq<string>, b: string, sep: char)
    requires parts != [] && c != sep
    ensures Grown(c, Init(parts) + Split(Last(parts) + b, sep))
        == Init(Grown(c, parts)) + Split(Last(Grown(c, parts)) + b, sep)
  {
    hide *;
    var tail := Split(Last(parts) + b, sep);
    GrownAppend(c, parts, tail);
    if |parts| == 1 {
      SplitHead(c, Last(parts) + b, sep);
      assert [c] + Last(parts) + b == [c] + (Last(parts) + b);
      GrownOne(c, parts);
      assert [] + Grown(c, tail) == Grown(c, tail);
    }
  }

  lemma LedAppend(first: string, parts: seq<string>, tail: seq<string>)
    requires parts != []
    ensures Init([first] + parts) + tail == [first] + (Init(parts) + tail) && Last([first] + parts) == Last(parts)
  {
    assert Init([first] + parts) == [first] + Init(parts);
  }

  lemma GrownOne(c: char, parts: seq<string>)
    requires |parts| == 1
    ensures Grown(c, parts) == [[c] + parts[0]] && Init(Grown(c, parts)) == []
  {
  }

  lemma {:induction false} KeptAppend(a: seq<string>, b: seq<string>)
    ensures Kept(a + b) == Kept(a) + Kept(b)
    decreases |b|
  {
    if b == [] {
      assert a + b == a;
    } else {
      KeptAppend(a, b[..|b| - 1]);
      assert (a + b)[..|a + b| - 1] == a + b[..|b| - 1];
    }
  }

  lemma KeptOne(line: string)
    ensures Kept([line]) == if RStrip(line, IsReturn) == "" then [] else [RStrip(line, IsReturn)]
  {
    assert [line][..0] == [];
  }

  /** The streaming splitter: `pending` is the unfinished line, carried from chunk to chunk. However the
      stream is cut, it yields exactly the lines of the text; and when no cut falls inside a character, so
      that decoding piecewise is decoding whole, those of the whole stream. */
  method IterSingleStreamLines(chunks: seq<Bytes>, decode: Bytes -> string) returns (lines: seq<string>)
    ensures lines == Lines(Decoded(chunks, decode))
    ensures Decoded(chunks, decode) == decode(Whole(chunks)) ==> lines == Lines(decode(Whole(chunks)))
  {
    hide Split, RStrip, Kept, Decoded;
    lines := [];
    var pending := "";
    Nothing(decode);
    var n := 0;
    while n < |chunks|
      invariant 0 <= n <= |chunks|
      invariant pending == Last(Split(Decoded(chunks[..n], decode), '\n'))
      invariant lines == Kept(Init(Split(Decoded(chunks[..n], decode), '\n')))
    {
      ghost var text := Decoded(chunks[..n], decode);
      var buffered := pending + decode(chunks[n]);
      var parts := Split(buffered, '\n');
      OneMore(chunks, n, decode);
      SplitAppend(text, decode(chunks[n]), '\n');
      ghost var before := lines;
      var i := 0;
      Empty();
      while i < |parts| - 1
        invariant 0 <= i <= |parts| - 1
        invariant lines == before + Kept(parts[..i])
      {
        var stripped := RStrip(parts[i], IsReturn);
        assert parts[..i + 1] == parts[..i] + [parts[i]];
        KeptAppend(parts[..i], [parts[i]]);
        KeptOne(parts[i]);
        if stripped != "" {
          lines := lines + [stripped];
        }
        i := i + 1;
      }
      KeptAppend(Init(Split(text, '\n')), parts[..i]);
      assert Init(Init(Split(text, '\n')) + parts) == Init(Split(text, '\n')) + parts[..i];
      pending := parts[|parts| - 1];
      n := n + 1;
    }
    assert chunks[..n] == chunks;
    ghost var all := Split(Decoded(chunks, decode), '\n');
    assert all == Init(all) + [Last(all)];
    KeptAppend(Init(all), [Last(all)]);
    KeptOne(pending);
    EmptyStrips();
    if pending != "" {
      var trailing := RStrip(pending, IsReturn);
      if trailing != "" {
        lines := lines + [trailing];
      }
    }
  }

  lemma Nothing(decode: Bytes -> string)
    ensures Split(Decoded([], decode), '\n') == [""] && Kept(Init([""])) == []
  {
  }

  lemma Empty()
    ensures Kept([]) == []
  {
  }

  lemma EmptyStrips()
    ensures RStrip("", IsReturn) == ""
  {
  }

  lemma OneMore(chunks: seq<Bytes>, n: nat, decode: Bytes -> string)
    requires n < |chunks|
    ensures Decoded(chunks[..n + 1], decode) == Decoded(chunks[..n], decode) + decode(chunks[n])
  {
    assert chunks[..n + 1][..n] == chunks[..n];
  }

  /** No forwarded line is empty, holds a newline, or ends in a carriage return. */
  lemma {:induction false} LinesAreWhole(parts: seq<string>, line: string)
    requires line in Kept(parts) && forall p | p in parts :: '\n' !in p
    ensures line != "" && '\n' !in line && line[|line| - 1] != '\r'
    decreases |parts|
  {
    var init, last := parts[..|parts| - 1], parts[|parts| - 1];
    if line in Kept(init) {
      LinesAreWhole(init, line);
    } else {
      StripEnds(last);
      assert last in parts && line <= last;
    }
  }

  lemma {:induction false} StripEnds(s: string)
    ensures RStrip(s, IsReturn) != "" ==> RStrip(s, IsReturn)[|RStrip(s, IsReturn)| - 1] != '\r'
  {
    if s != "" && IsReturn(s[|s| - 1]) {
      StripEnds(s[..|s| - 1]);
    }
  }

  /** The lines that are not empty, in order. */
  function NonEmpty(lines: seq<string>): seq<string> {
    if lines == [] then []
    else NonEmpty(lines[..|lines| - 1]) + if lines[|lines| - 1] == "" then [] else [lines[|lines| - 1]]
  }

  /** Each line with the carriage returns its writer put behind it. */
  function Written(lines: seq<string>, ends: seq<string>): (r: seq<string>)
    requires |ends| == |lines|
    ensures |r| == |lines| && forall i | 0 <= i < |r| :: r[i] == lines[i] + ends[i]
  {
    if lines == [] then []
    else Written(lines[..|lines| - 1], ends[..|ends| - 1]) + [lines[|lines| - 1] + ends[|ends| - 1]]
  }

  predicate IsLine(line: string) {
    '\n' !in line && (line == "" || line[|line| - 1] != '\r')
  }

  predicate IsEnd(s: string) {
    forall c | c in s :: IsReturn(c)
  }

  lemma {:induction false} KeptWritten(lines: seq<string>, ends: seq<string>)
    requires |ends| == |lines| && forall l | l in lines :: IsLine(l)
    requires forall e | e in ends :: IsEnd(e)
    ensures Kept(Written(lines, ends)) == NonEmpty(lines)
    decreases |lines|
  {
    if lines != [] {
      var n := |lines| - 1;
      KeptWritten(lines[..n], ends[..n]);
      assert Written(lines, ends)[..n] == Written(lines[..n], ends[..n]);
      assert lines[n] in lines && ends[n] in ends && IsEnd(ends[n]) && IsLine(lines[n]);
      RStripIs(lines[n], ends[n], IsReturn);
    }
  }

  /** No line is lost, made up or moved: what was written line by line, each line ended by a newline with any
      number of carriage returns before it, comes back as the same lines, save the empty ones. */
  lemma LinesComeBack(lines: seq<string>, ends: seq<string>)
    requires |ends| == |lines| && lines != [] && forall l | l in lines :: IsLine(l)
    requires forall e | e in ends :: IsEnd(e)
    ensures Lines(Join(Written(lines, ends), '\n')) == NonEmpty(lines)
  {
    var written := Written(lines, ends);
    forall w | w in written
      ensures '\n' !in w
    {
      var i :| 0 <= i < |written| && written[i] == w;
      assert lines[i] in lines && ends[i] in ends && IsLine(lines[i]) && IsEnd(ends[i]);
    }
    SplitJoin(written, '\n');
    KeptWritten(lines, ends);
  }
}
