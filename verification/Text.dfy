/** The text operations of Python the dataset code and the scheduler use. */
module Text {

  /** What this model needs of Unicode: how `str.lower` rewrites a string, which characters count as white
      space and which as digits. Every result below holds for every choice, so long as lowering leaves
      plain lower-case ASCII alone. */
  datatype Unicode = Unicode(lower: string -> string, isSpace: char -> bool, isDigit: char -> bool) {
    ghost predicate Valid() {
      forall s: string {:trigger lower(s)} | PlainLower(s) :: lower(s) == s
    }
  }

  predicate IsSafe(c: char) {
    'a' <= c <= 'z' || '0' <= c <= '9' || c == '.' || c == '_' || c == '-'
  }

  predicate PlainLower(s: string) {
    forall c | c in s :: IsSafe(c) || c == '/'
  }

  /** `s` without the leading characters that satisfy `p`. */
  function LStrip(s: string, p: char -> bool): (r: string)
    ensures r != "" ==> !p(r[0])
    ensures forall c | c in r :: c in s
  {
    if s != "" && p(s[0]) then LStrip(s[1..], p) else s
  }

  function RStrip(s: string, p: char -> bool): (r: string)
    ensures r <= s
  {
    if s != "" && p(s[|s| - 1]) then RStrip(s[..|s| - 1], p) else s
  }

  function Strip(s: string, p: char -> bool): (r: string)
    ensures r != "" ==> !p(r[0])
    ensures forall c | c in r :: c in s
  {
    RStrip(LStrip(s, p), p)
  }

  lemma {:induction false} LStripIs(a: string, b: string, p: char -> bool)
    requires (forall c | c in a :: p(c)) && (b != "" ==> !p(b[0]))
    ensures LStrip(a + b, p) == b
  {
    if a == "" {
      assert a + b == b;
    } else {
      assert (a + b)[1..] == a[1..] + b && p(a[0]);
      LStripIs(a[1..], b, p);
    }
  }

  lemma {:induction false} RStripIs(a: string, b: string, p: char -> bool)
    requires (a != "" ==> !p(a[|a| - 1])) && forall c | c in b :: p(c)
    ensures RStrip(a + b, p) == a
  {
    if b == "" {
      assert a + b == a;
    } else {
      assert (a + b)[..|a + b| - 1] == a + b[..|b| - 1] && p(b[|b| - 1]);
      RStripIs(a, b[..|b| - 1], p);
    }
  }

  lemma StripIs(a: string, b: string, c: string, p: char -> bool)
    requires (forall x | x in a :: p(x)) && (forall x | x in c :: p(x))
    requires b != "" && !p(b[0]) && !p(b[|b| - 1])
    ensures Strip(a + b + c, p) == b
  {
    assert a + b + c == a + (b + c);
    LStripIs(a, b + c, p);
    RStripIs(b, c, p);
  }

  /** `s` without any character of `drop`. */
  function Without(s: string, drop: set<char>): string {
    if s == "" then "" else (if s[0] in drop then "" else [s[0]]) + Without(s[1..], drop)
  }

  function Slashed(s: string): (r: string)
    ensures |r| == |s| && forall i | 0 <= i < |s| :: r[i] == if s[i] == '\\' then '/' else s[i]
  {
    seq(|s|, i requires 0 <= i < |s| => if s[i] == '\\' then '/' else s[i])
  }

  // --- Order -------------------------------------------------------------------------------------------

  /** Python's order on strings: by code point, a prefix first. */
  predicate Less(a: string, b: string) {
    if b == "" then false
    else if a == "" then true
    else if a[0] != b[0] then a[0] < b[0]
    else Less(a[1..], b[1..])
  }

  /** `a` and `b` agree up to `k`, where `a` ends first or has the smaller character. */
  predicate DifferAt(a: string, b: string, k: nat) {
    && k <= |a| && k < |b| && a[..k] == b[..k]
    && (k == |a| || a[k] < b[k])
  }

  lemma FirstSame(a: string, b: string, k: nat)
    requires DifferAt(a, b, k) && 0 < k
    ensures a[0] == b[0]
  {
    assert a[..k][0] == b[..k][0];
  }

  /** The order is decided at the first place where two strings differ. */
  lemma {:induction false} LessExact(a: string, b: string)
    ensures Less(a, b) <==> exists k: nat :: DifferAt(a, b, k)
  {
    if b != "" && a != "" && a[0] == b[0] {
      LessExact(a[1..], b[1..]);
      if k: nat :| DifferAt(a[1..], b[1..], k) {
        assert a[..k + 1] == [a[0]] + a[1..][..k] && b[..k + 1] == [b[0]] + b[1..][..k];
        assert DifferAt(a, b, k + 1);
      }
      if k: nat :| DifferAt(a, b, k) {
        assert k > 0;
        assert a[1..][..k - 1] == a[..k][1..] && b[1..][..k - 1] == b[..k][1..];
        assert DifferAt(a[1..], b[1..], k - 1);
      }
    } else if b != "" && a != "" {
      forall k: nat | DifferAt(a, b, k)
        ensures k == 0
      {
        if k > 0 {
          FirstSame(a, b, k);
        }
      }
      assert a[..0] == b[..0];
      assert a[0] < b[0] ==> DifferAt(a, b, 0);
    } else if b != "" {
      assert DifferAt(a, b, 0);
    }
  }

  lemma {:induction false} LessTotal(a: string, b: string)
    ensures a == b || Less(a, b) || Less(b, a)
  {
    if a != "" && b != "" && a[0] == b[0] {
      LessTotal(a[1..], b[1..]);
      assert a == [a[0]] + a[1..] && b == [b[0]] + b[1..];
    }
  }

  lemma {:induction false} LessStrict(a: string, b: string)
    ensures !(Less(a, b) && Less(b, a)) && !Less(a, a)
    decreases |a|
  {
    if a != "" {
      LessStrict(a[1..], if b == "" then "" else b[1..]);
    }
  }

  lemma {:induction false} LessTrans(a: string, b: string, c: string)
    requires Less(a, b) && Less(b, c)
    ensures Less(a, c)
  {
    if a != "" && a[0] == b[0] && b[0] == c[0] {
      LessTrans(a[1..], b[1..], c[1..]);
    }
  }

  predicate Increasing(s: seq<string>) {
    forall i, k | 0 <= i < k < |s| :: Less(s[i], s[k])
  }

  function Elements<T>(s: seq<T>): set<T> {
    set x | x in s
  }

  lemma SomeElement<T>(s: seq<T>)
    ensures s == [] <==> Elements(s) == {}
  {
    if s != [] {
      assert s[0] in Elements(s);
    }
  }

  /** Two increasing lists of the same strings are the same list. */
  lemma {:induction false} IncreasingUnique(a: seq<string>, b: seq<string>)
    requires Increasing(a) && Increasing(b) && Elements(a) == Elements(b)
    ensures a == b
  {
    SomeElement(a);
    SomeElement(b);
    if a != [] {
      assert a[0] in Elements(b);
      assert b != [] && b[0] in Elements(a);
      var i :| 0 <= i < |b| && b[i] == a[0];
      var k :| 0 <= k < |a| && a[k] == b[0];
      LessStrict(a[0], b[0]);
      assert a[0] == b[0];
      forall x
        ensures x in Elements(a[1..]) <==> x in Elements(b[1..])
      {
        TailElements(a, x);
        TailElements(b, x);
      }
      IncreasingUnique(a[1..], b[1..]);
    }
  }

  lemma TailElements(a: seq<string>, x: string)
    requires Increasing(a) && a != []
    ensures x in Elements(a[1..]) <==> x in Elements(a) && x != a[0]
  {
    LessStrict(a[0], a[0]);
    if x in a && x != a[0] {
      var i :| 0 <= i < |a| && a[i] == x;
      assert a[1..][i - 1] == x;
    }
  }

  /** `x` put at its place in an increasing list. */
  method Insert(s: seq<string>, x: string) returns (r: seq<string>)
    requires Increasing(s) && x !in s
    ensures Increasing(r) && Elements(r) == Elements(s) + {x}
  {
    hide Elements, Increasing;
    var i := 0;
    while i < |s| && Less(s[i], x)
      invariant 0 <= i <= |s| && forall k | 0 <= k < i :: Less(s[k], x)
    {
      i := i + 1;
    }
    r := s[..i] + [x] + s[i..];
    InsertedIncreasing(s, x, i);
    InsertedElements(s, x, i);
  }

  lemma InsertedIncreasing(s: seq<string>, x: string, i: nat)
    requires Increasing(s) && x !in s && i <= |s|
    requires (forall k | 0 <= k < i :: Less(s[k], x)) && (i < |s| ==> !Less(s[i], x))
    ensures Increasing(s[..i] + [x] + s[i..])
  {
    hide Less;
    forall k | i <= k < |s|
      ensures Less(x, s[k])
    {
      LessTotal(s[i], x);
      if k > i {
        LessTrans(x, s[i], s[k]);
      }
    }
  }

  lemma InsertedElements(s: seq<string>, x: string, i: nat)
    requires i <= |s|
    ensures Elements(s[..i] + [x] + s[i..]) == Elements(s) + {x}
  {
  }

  /** The strings of `s`, smallest first. */
  method SortSet(s: set<string>) returns (r: seq<string>)
    ensures Increasing(r) && Elements(r) == s
  {
    r := [];
    var rest := s;
    while rest != {}
      invariant Increasing(r) && Elements(r) == s - rest && rest <= s
      decreases |rest|
    {
      var x :| x in rest;
      assert x !in Elements(r);
      r := Insert(r, x);
      rest := rest - {x};
    }
  }
}
