/** Fetching a dataset in pieces: the orchestrator's range parser (orchestrator/api/leases.py), the trainer's
    download loop (trainer/train.py), and the two put together (sections 14.1.2, 14.2 and 14.4 of RFC 9110). */
module Download {
  import opened Model
  import opened PosixPath
  import opened Decimal

  // --- The server --------------------------------------------------------------------------------------------

  /** `s` cut at its first `sep`, as `str.partition` does; the tail is empty when there is none. */
  function Partition(s: string, sep: char): (string, string) {
    if s == "" then ("", "")
    else if s[0] == sep then ("", s[1..])
    else
      var (head, tail) := Partition(s[1..], sep);
      ([s[0]] + head, tail)
  }

  /** The inclusive range to answer a `Range` header with; None means the whole object. */
  function ByteRange(header: Option<string>, size: Option<nat>): (r: Option<(nat, nat)>)
    ensures r.Some? ==> size.Some? && r.value.0 <= r.value.1 < size.value
  {
    if header == None || size == None || !StartsWith(header.value, "bytes=") then None
    else
      var (first, last) := Partition(header.value[6..], '-');
      if !AllDigits(first) || (last != "" && !AllDigits(last)) then None
      else
        var a := Parse(first);
        var b := if last != "" && Parse(last) < size.value - 1 then Parse(last) else size.value - 1;
        if a > b then None else Some((a, b))
  }

  lemma {:induction false} PartitionAt(head: string, sep: char, tail: string)
    requires sep !in head
    ensures Partition(head + [sep] + tail, sep) == (head, tail)
  {
    if head == "" {
      assert head + [sep] + tail == [sep] + tail;
    } else {
      PartitionAt(head[1..], sep, tail);
      assert (head + [sep] + tail)[1..] == head[1..] + [sep] + tail;
      assert [head[0]] + head[1..] == head;
    }
  }

  /** What the parser makes of a single range of two numbers or of one and an open end: exactly what
      section 14.1.2 gives it, a last position past the end meaning the end, and no range at all when the
      first position is past the end or past the last. */
  lemma SingleRange(first: string, last: string, size: nat)
    requires AllDigits(first) && (last == "" || AllDigits(last))
    ensures var r := ByteRange(Some("bytes=" + first + "-" + last), Some(size));
      && (r.Some? <==> Parse(first) < size && (last == "" || Parse(first) <= Parse(last)))
      && (r.Some? ==> r.value.0 == Parse(first))
      && (r.Some? ==> r.value.1 == if last == "" || Parse(last) >= size then size - 1 else Parse(last))
  {
    hide Parse, Partition, AllDigits;
    var header := "bytes=" + first + "-" + last;
    DigitsHaveNoHyphen(first);
    assert header[6..] == first + ['-'] + last && header[..6] == "bytes=";
    PartitionAt(first, '-', last);
  }

  lemma DigitsHaveNoHyphen(s: string)
    requires AllDigits(s)
    ensures '-' !in s
  {
  }

  /** A header of one range: a number, then a hyphen (or nothing at all), then a number or nothing. */
  predicate IsSingleRange(header: string, first: string, last: string) {
    && AllDigits(first) && (last == "" || AllDigits(last))
    && (header == "bytes=" + first + "-" + last || (header == "bytes=" + first && last == ""))
  }

  /** Every other header is answered with the whole object. */
  lemma OnlySingleRanges(header: string, size: nat)
    requires ByteRange(Some(header), Some(size)).Some?
    ensures exists first, last :: IsSingleRange(header, first, last)
  {
    var (first, last) := Partition(header[6..], '-');
    PartitionJoins(header[6..], '-');
    assert header == "bytes=" + header[6..];
    assert "bytes=" + (first + ['-'] + last) == "bytes=" + first + "-" + last;
    assert IsSingleRange(header, first, last);
  }

  lemma {:induction false} PartitionJoins(s: string, sep: char)
    ensures var (head, tail) := Partition(s, sep); s == head + [sep] + tail || (s == head && tail == "")
  {
    if s != "" && s[0] != sep {
      PartitionJoins(s[1..], sep);
      assert s == [s[0]] + s[1..];
    }
  }

  function ContentRange(first: nat, last: nat, size: nat): string {
    "bytes " + Digits(first) + "-" + Digits(last) + "/" + Digits(size)
  }

  datatype Response<T> = Response(status: nat, contentRange: string, body: seq<T>)

  /** The reply to one request; the store may not know the object's size. */
  function Serve<T>(archive: seq<T>, header: Option<string>, sizeKnown: bool): Response<T> {
    var span := ByteRange(header, if sizeKnown then Some(|archive|) else None);
    if span.Some? then
      Response(206, ContentRange(span.value.0, span.value.1, |archive|), archive[span.value.0..span.value.1 + 1])
    else Response(200, "", archive)
  }

  // --- The client ----------------------------------------------------------------------------------------------

  function RangeHeader(first: nat, last: nat): string {
    "bytes=" + Digits(first) + "-" + Digits(last)
  }

  /** The total a `Content-Range` value announces: the number after its last slash. */
  function TotalOf(contentRange: string): Option<nat> {
    var at := RFind(contentRange, '/');
    if at >= 0 && AllDigits(contentRange[at + 1..]) then Some(Parse(contentRange[at + 1..])) else None
  }

  lemma TotalRoundTrip(first: nat, last: nat, size: nat)
    ensures TotalOf(ContentRange(first, last, size)) == Some(size)
  {
    var text, digits := ContentRange(first, last, size), Digits(size);
    var at := |text| - |digits| - 1;
    assert text[at] == '/' && text[at + 1..] == digits;
    assert forall k | at < k < |text| :: text[k] == digits[k - at - 1] && text[k] in digits;
    RFindUnique(text, '/', at);
    ParseDigits(size);
  }

  /** What becomes of one request: an error the client catches; a body that breaks off before the length
      announced for it, which surfaces as an exception of another kind, one the client does not catch; or a
      complete reply, of which a ranged one may itself carry fewer bytes than were asked for. */
  datatype Delivery = Fault | Broken | Delivered(sizeKnown: bool, cut: nat)

  function Cut<T>(r: Response<T>, cut: nat): Response<T> {
    if r.status == 206 && cut < |r.body| then r.(body := r.body[..cut]) else r
  }

  /** The piece and the total a client at `downloaded` takes from a reply; None when it cannot be read. */
  function Taken<T>(r: Response<T>, downloaded: nat): Option<(seq<T>, nat)> {
    if r.status == 200 then
      var piece := if downloaded <= |r.body| then r.body[downloaded..] else [];
      Some((piece, downloaded + |piece|))
    else
      var total := TotalOf(r.contentRange);
      if total == None then None else Some((r.body, total.value))
  }

  /** The range the server makes of a client's request for the piece at `first`. */
  lemma AskedRange(first: nat, piece: nat, size: nat)
    requires 0 < piece
    ensures ByteRange(Some(RangeHeader(first, first + piece - 1)), Some(size))
            == if first >= size then None else Some((first, if first + piece < size then first + piece - 1 else size - 1))
  {
    hide ByteRange;
    var last := first + piece - 1;
    SingleRange(Digits(first), Digits(last), size);
    ParseDigits(first);
    ParseDigits(last);
    assert RangeHeader(first, last) == "bytes=" + Digits(first) + "-" + Digits(last);
  }

  /** How many of the `left` bytes still missing a complete reply brings. */
  function Arriving(left: nat, piece: nat, d: Delivery): (r: nat)
    requires d.Delivered?
    ensures r <= left
  {
    if !d.sizeKnown then left else Least(d.cut, Least(piece, left))
  }

  function Least(a: nat, b: nat): nat {
    if a < b then a else b
  }

  /** Asking for the piece at `downloaded` and reading a complete reply gives the next bytes of the archive
      and its true size: what a ranged reply carries of the piece asked for, or all that is still missing. */
  lemma PieceRoundTrip<T>(archive: seq<T>, downloaded: nat, piece: nat, d: Delivery)
    requires downloaded <= |archive| && 0 < piece && d.Delivered?
    ensures Taken(Cut(Serve(archive, Some(RangeHeader(downloaded, downloaded + piece - 1)), d.sizeKnown), d.cut), downloaded)
            == Some((archive[downloaded..downloaded + Arriving(|archive| - downloaded, piece, d)], |archive|))
  {
    hide RangeHeader, TotalOf, ContentRange, ByteRange, Taken, Cut;
    var header := Some(RangeHeader(downloaded, downloaded + piece - 1));
    AskedRange(downloaded, piece, |archive|);
    NoSizeNoRange(header);
    var span := ByteRange(header, if d.sizeKnown then Some(|archive|) else None);
    if span.Some? {
      RangedPiece(archive, downloaded, span.value.1, d.cut);
    } else {
      FullPiece(archive, downloaded, d.cut);
    }
  }

  lemma RangedPiece<T>(archive: seq<T>, first: nat, last: nat, cut: nat)
    requires first <= last < |archive|
    ensures Taken(Cut(Response(206, ContentRange(first, last, |archive|), archive[first..last + 1]), cut), first)
            == Some((archive[first..first + Least(cut, last + 1 - first)], |archive|))
  {
    hide ContentRange, TotalOf;
    TotalRoundTrip(first, last, |archive|);
    if cut < last + 1 - first {
      FrontOfSlice(archive, first, last + 1, cut);
    }
  }

  lemma FullPiece<T>(archive: seq<T>, downloaded: nat, cut: nat)
    requires downloaded <= |archive|
    ensures Taken(Cut(Response(200, "", archive), cut), downloaded) == Some((archive[downloaded..|archive|], |archive|))
  {
    assert archive[downloaded..] == archive[downloaded..|archive|];
  }

  lemma FrontOfSlice<T>(s: seq<T>, from: nat, to: nat, n: nat)
    requires from + n <= to <= |s|
    ensures s[from..to][..n] == s[from..from + n]
  {
  }

  lemma NoSizeNoRange(header: Option<string>)
    ensures ByteRange(header, None) == None
  {
  }

  const ATTEMPTS := 5

  /** What a download comes to before its digest is looked at. */
  datatype Ending<T> = Received(data: seq<T>) | OutOfTries | Interrupted

  /** The course of a download, in positions only: from request number `asked` on, with `failed` failures in
      a row behind it and `downloaded` bytes there. Gives how it ends and how many requests were made. */
  function Course<T>(archive: seq<T>, piece: nat, network: nat -> Delivery, asked: nat, failed: nat, downloaded: nat)
    : (Ending<T>, nat)
    requires 0 < piece && failed < ATTEMPTS && downloaded <= |archive|
    decreases |archive| - downloaded, ATTEMPTS - failed
  {
    match network(asked)
    case Broken => (Interrupted, asked + 1)
    case Fault =>
      if failed + 1 == ATTEMPTS then (OutOfTries, asked + 1)
      else Course(archive, piece, network, asked + 1, failed + 1, downloaded)
    case Delivered(_, _) =>
      var got := Arriving(|archive| - downloaded, piece, network(asked));
      if got == 0 || downloaded + got == |archive| then (Received(archive[..downloaded + got]), asked + 1)
      else Course(archive, piece, network, asked + 1, 0, downloaded + got)
  }

  function Run<T>(archive: seq<T>, piece: nat, network: nat -> Delivery): (Ending<T>, nat)
    requires 0 < piece
  {
    Course(archive, piece, network, 0, 0, 0)
  }

  // --- How a download ends -------------------------------------------------------------------------------------

  /** A complete ranged reply that carries nothing. */
  predicate IsEmptyRange(d: Delivery) {
    d.Delivered? && d.sizeKnown && d.cut == 0
  }

  /** The requests from number `k` up to number `to` all failed. */
  predicate Faults(network: nat -> Delivery, k: nat, to: nat) {
    forall i: nat | k <= i < to :: network(i).Fault?
  }

  lemma {:induction false} CourseEnds<T>(archive: seq<T>, piece: nat, network: nat -> Delivery, asked: nat, failed: nat,
      downloaded: nat)
    requires 0 < piece && failed < ATTEMPTS && downloaded <= |archive| && (archive == [] || downloaded < |archive|)
    requires failed <= asked && Faults(network, asked - failed, asked)
    ensures var (r, n) := Course(archive, piece, network, asked, failed, downloaded);
      && asked < n
      && (r.Interrupted? <==> exists i: nat | asked <= i < n :: network(i).Broken?)
      && (r.OutOfTries? <==> ATTEMPTS <= n && Faults(network, n - ATTEMPTS, n))
      && (r.Received? ==> r.data <= archive)
      && (r.Received? ==>
            (r.data == archive <==> archive == [] || forall i: nat | asked <= i < n :: !IsEmptyRange(network(i))))
    decreases |archive| - downloaded, ATTEMPTS - failed
  {
    var d := network(asked);
    var (r, n) := Course(archive, piece, network, asked, failed, downloaded);
    if d.Delivered? {
      var got := Arriving(|archive| - downloaded, piece, d);
      if got != 0 && downloaded + got != |archive| {
        CourseEnds(archive, piece, network, asked + 1, 0, downloaded + got);
      } else {
        assert archive[..|archive|] == archive;
      }
    } else if d.Fault? && failed + 1 < ATTEMPTS {
      CourseEnds(archive, piece, network, asked + 1, failed + 1, downloaded);
    }
  }

  // --- Bodies that break off -----------------------------------------------------------------------------------

  /** The same network, were a body that breaks off a failure like any other. */
  function Mended(network: nat -> Delivery): nat -> Delivery {
    (i: nat) => if network(i).Broken? then Fault else network(i)
  }

  lemma {:induction false} CourseMended<T>(archive: seq<T>, piece: nat, network: nat -> Delivery, asked: nat, failed: nat,
      downloaded: nat)
    requires 0 < piece && failed < ATTEMPTS && downloaded <= |archive|
    ensures var (course, mended) := (Course(archive, piece, network, asked, failed, downloaded),
                                     Course(archive, piece, Mended(network), asked, failed, downloaded));
      && (course.0.Interrupted? <==> exists i: nat | asked <= i < mended.1 :: network(i).Broken?)
      && (!course.0.Interrupted? ==> course == mended)
      && asked < mended.1
    decreases |archive| - downloaded, ATTEMPTS - failed
  {
    var d := Mended(network)(asked);
    if d.Delivered? {
      var got := Arriving(|archive| - downloaded, piece, d);
      if got != 0 && downloaded + got != |archive| {
        CourseMended(archive, piece, network, asked + 1, 0, downloaded + got);
      }
    } else if failed + 1 < ATTEMPTS {
      CourseMended(archive, piece, network, asked + 1, failed + 1, downloaded);
    }
  }

  /** Each piece is meant to be retried on its own when its request fails. When a body that breaks off gets
      that treatment: the download is interrupted exactly when one of the requests it would make with it is
      such a one, and then only; otherwise it goes as meant. */
  lemma RetriedUnlessBroken<T>(archive: seq<T>, piece: nat, network: nat -> Delivery)
    requires 0 < piece
    ensures var (course, meant) := (Run(archive, piece, network), Run(archive, piece, Mended(network)));
      && (course.0.Interrupted? <==> exists i: nat | i < meant.1 :: network(i).Broken?)
      && (!course.0.Interrupted? ==> course == meant)
  {
    hide Course;
    CourseMended(archive, piece, network, 0, 0, 0);
  }

  predicate IsWhole(d: Delivery, piece: nat) {
    d.Delivered? && d.sizeKnown && piece <= d.cut
  }

  /** The rest of a download on which every reply is whole. */
  lemma {:induction false} WholeReplies<T>(archive: seq<T>, piece: nat, network: nat -> Delivery, asked: nat, failed: nat,
      downloaded: nat)
    requires 0 < piece && failed < ATTEMPTS && downloaded <= |archive|
    requires forall i: nat | asked <= i :: IsWhole(network(i), piece)
    ensures Course(archive, piece, network, asked, failed, downloaded).0 == Received(archive)
    decreases |archive| - downloaded
  {
    assert IsWhole(network(asked), piece);
    if downloaded + piece < |archive| {
      WholeReplies(archive, piece, network, asked + 1, 0, downloaded + piece);
    } else {
      assert archive[..|archive|] == archive;
    }
  }

  lemma {:induction false} OneBadRequest<T>(archive: seq<T>, piece: nat, network: nat -> Delivery, k: nat, asked: nat,
      downloaded: nat)
    requires 0 < piece && asked <= k && downloaded + (k - asked) * piece < |archive|
    requires forall i: nat | i != k :: IsWhole(network(i), piece)
    ensures var course := Course(archive, piece, network, asked, 0, downloaded);
      && (network(k).Broken? ==> course == (Interrupted, k + 1))
      && (network(k).Fault? ==> course.0 == Received(archive))
    decreases k - asked
  {
    if asked < k {
      assert (k - asked) * piece == piece + (k - asked - 1) * piece;
      assert IsWhole(network(asked), piece);
      OneBadRequest(archive, piece, network, k, asked + 1, downloaded + piece);
    } else if network(k).Fault? {
      WholeReplies(archive, piece, network, k + 1, 1, downloaded);
    }
  }

  /** One bad request among whole replies, for whichever piece of whatever archive: a failure costs nothing,
      a body that breaks off ends the download on the spot. */
  lemma OneBreakEnds<T>(archive: seq<T>, piece: nat, network: nat -> Delivery, k: nat)
    requires 0 < piece && k * piece < |archive|
    requires forall i: nat | i != k :: IsWhole(network(i), piece)
    ensures network(k).Broken? ==> Run(archive, piece, network) == (Interrupted, k + 1)
    ensures network(k).Fault? ==> Run(archive, piece, network).0 == Received(archive)
  {
    hide Course;
    OneBadRequest(archive, piece, network, k, 0, 0);
  }

  const PIECE_BYTES := 8 * 1024 * 1024

  /** In particular, an archive of two pieces whose first reply breaks off. */
  lemma TwoPiecesOneBreak<T>(archive: seq<T>, network: nat -> Delivery)
    requires |archive| == 2 * PIECE_BYTES
    requires network == ((i: nat) => if i == 0 then Broken else Delivered(true, PIECE_BYTES))
    ensures Run(archive, PIECE_BYTES, network) == (Interrupted, 1)
    ensures Run(archive, PIECE_BYTES, Mended(network)).0 == Received(archive)
  {
    hide Course;
    OneBreakEnds(archive, PIECE_BYTES, network, 0);
    OneBreakEnds(archive, PIECE_BYTES, Mended(network), 0);
  }

  // --- The loops -------------------------------------------------------------------------------------------------

  /** One piece, or why there is none. */
  datatype Fetch<T> = Piece(data: seq<T>, total: nat) | TriedOut | BrokenOff

  /** One piece: up to five tries. `asked` counts every request made. */
  method FetchPiece<T>(archive: seq<T>, network: nat -> Delivery, asked: nat, downloaded: nat, piece: nat)
    returns (asked': nat, got: Fetch<T>)
    requires downloaded <= |archive| && 0 < piece
    ensures asked < asked' <= asked + ATTEMPTS && Faults(network, asked, asked' - 1)
    ensures got.TriedOut? <==> asked' == asked + ATTEMPTS && network(asked' - 1).Fault?
    ensures got.BrokenOff? <==> network(asked' - 1).Broken?
    ensures got.Piece? ==> network(asked' - 1).Delivered? && got.total == |archive|
    ensures got.Piece? ==> var n := Arriving(|archive| - downloaded, piece, network(asked' - 1));
              got.data == archive[downloaded..downloaded + n]
  {
    hide Serve, Taken, RangeHeader, Cut, Arriving;
    asked' := asked;
    var attempt := 1;
    while true
      invariant 1 <= attempt <= ATTEMPTS && asked' == asked + attempt - 1
      invariant Faults(network, asked, asked')
      decreases ATTEMPTS - attempt
    {
      var d := network(asked');
      asked' := asked' + 1;
      match d {
        case Delivered(sizeKnown, cut) =>
          var reply := Cut(Serve(archive, Some(RangeHeader(downloaded, downloaded + piece - 1)), sizeKnown), cut);
          PieceRoundTrip(archive, downloaded, piece, d);
          var taken := Taken(reply, downloaded).value;
          return asked', Piece(taken.0, taken.1);
        case Broken =>
          return asked', BrokenOff;
        case Fault =>
          if attempt == ATTEMPTS {
            return asked', TriedOut;
          }
      }
      attempt := attempt + 1;
    }
  }

  lemma {:induction false} AfterFaults<T>(archive: seq<T>, piece: nat, network: nat -> Delivery, asked: nat, until: nat,
      downloaded: nat)
    requires 0 < piece && downloaded <= |archive| && asked <= until < asked + ATTEMPTS && Faults(network, asked, until)
    ensures Course(archive, piece, network, asked, 0, downloaded)
            == Course(archive, piece, network, until, until - asked, downloaded)
    decreases until
  {
    if asked < until {
      AfterFaults(archive, piece, network, asked, until - 1, downloaded);
    }
  }

  /** What the tries for one piece make of the course. */
  lemma FetchedStep<T>(archive: seq<T>, piece: nat, network: nat -> Delivery, was: nat, asked: nat, downloaded: nat)
    requires 0 < piece && downloaded <= |archive| && was < asked <= was + ATTEMPTS && Faults(network, was, asked - 1)
    ensures var course, d := Course(archive, piece, network, was, 0, downloaded), network(asked - 1);
      && (d.Broken? ==> course == (Interrupted, asked))
      && (d.Fault? && asked == was + ATTEMPTS ==> course == (OutOfTries, asked))
      && (d.Delivered? ==>
            var got := Arriving(|archive| - downloaded, piece, d);
            course == if got == 0 || downloaded + got == |archive| then (Received(archive[..downloaded + got]), asked)
                      else Course(archive, piece, network, asked, 0, downloaded + got))
  {
    AfterFaults(archive, piece, network, was, asked - 1, downloaded);
  }

  datatype Fetched<T> = Verified(data: seq<T>) | IntegrityFailure | GaveUp | Crashed

  /** The whole download goes as `Run` says. Whatever the sizes, the replies and their order, it ends; it
      crashes exactly at the first body that breaks off; it gives up exactly after five failures in a row; and
      otherwise it has the archive unless a ranged reply came back empty, and verifies what it has. */
  method DownloadAndVerify<T, D(==)>(archive: seq<T>, piece: nat, network: nat -> Delivery, digest: seq<T> -> D, expected: D)
    returns (r: Fetched<T>, asked: nat)
    requires 0 < piece
    ensures var (ending, n) := Run(archive, piece, network);
      asked == n && r == match ending
                         case Interrupted => Crashed
                         case OutOfTries => GaveUp
                         case Received(data) => if digest(data) == expected then Verified(data) else IntegrityFailure
    ensures r == Crashed <==> exists i: nat | i < asked :: network(i).Broken?
    ensures r == GaveUp <==> 5 <= asked && forall i: nat | asked - 5 <= i < asked :: network(i).Fault?
    ensures r.Verified? ==> digest(r.data) == expected && r.data <= archive
    ensures r !in {Crashed, GaveUp} && expected == digest(archive) ==>
              (r == Verified(archive) <==> archive == [] || forall i: nat | i < asked :: !IsEmptyRange(network(i)))
  {
    hide Course, Arriving, IsEmptyRange;
    CourseEnds(archive, piece, network, 0, 0, 0);
    var sink: seq<T>, downloaded: nat, total: Option<nat> := [], 0, None;
    asked := 0;
    while total == None || downloaded < total.value
      invariant downloaded <= |archive| && sink == archive[..downloaded]
      invariant total.Some? ==> total.value == |archive|
      invariant Run(archive, piece, network)
                == if total.Some? && downloaded == |archive| then (Received(sink), asked)
                   else Course(archive, piece, network, asked, 0, downloaded)
      decreases total == None, |archive| - downloaded
    {
      var was := asked;
      var got;
      asked, got := FetchPiece(archive, network, asked, downloaded, piece);
      FetchedStep(archive, piece, network, was, asked, downloaded);
      match got {
        case BrokenOff => return Crashed, asked;
        case TriedOut => return GaveUp, asked;
        case Piece(data, size) =>
          total := Some(size);
          assert archive[..downloaded] + data == archive[..downloaded + |data|];
          sink := sink + data;
          downloaded := downloaded + |data|;
          if data == [] {
            break;
          }
      }
    }
    r := if digest(sink) == expected then Verified(sink) else IntegrityFailure;
  }
}
