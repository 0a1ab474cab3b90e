/** Decimal text of naturals: how Python formats them, pads them and reads them back. */
module Decimal {

  predicate IsDigit(c: char) {
    '0' <= c <= '9'
  }

  predicate AllDigits(s: string) {
    s != "" && forall c | c in s :: IsDigit(c)
  }

  function Digit(d: nat): char
    requires d < 10
  {
    '0' + d as char
  }

  function Digits(n: nat): (s: string)
    ensures AllDigits(s)
  {
    if n < 10 then [Digit(n)] else Digits(n / 10) + [Digit(n % 10)]
  }

  function DigitValue(c: char): nat
    requires IsDigit(c)
  {
    c as int - '0' as int
  }

  function Parse(s: string): nat
    requires forall c | c in s :: IsDigit(c)
  {
    if s == "" then 0 else 10 * Parse(s[..|s| - 1]) + DigitValue(s[|s| - 1])
  }

  lemma {:induction false} ParseDigits(n: nat)
    ensures Parse(Digits(n)) == n
  {
    if n < 10 {
      assert [Digit(n)][..0] == "";
      assert Parse([Digit(n)][..0]) == 0;
    } else {
      ParseDigits(n / 10);
      assert (Digits(n / 10) + [Digit(n % 10)])[..|Digits(n / 10)|] == Digits(n / 10);
    }
  }

  /** `n` zero-padded on the left to at least `width` characters. */
  function Padded(n: nat, width: nat): (s: string)
    ensures AllDigits(s)
  {
    Zeros(width - |Digits(n)|) + Digits(n)
  }

  function Zeros(k: int): (s: string)
    ensures forall c | c in s :: c == '0'
  {
    if k <= 0 then "" else ['0'] + Zeros(k - 1)
  }

  lemma {:induction false} ParseLeadingZero(s: string)
    requires forall c | c in s :: IsDigit(c)
    ensures Parse(['0'] + s) == Parse(s)
    decreases |s|
  {
    if s == "" {
      assert ['0'] + s == "0" && "0"[..0] == "";
      assert Parse("0") == 10 * Parse("") + 0;
    } else {
      ParseLeadingZero(s[..|s| - 1]);
      assert (['0'] + s)[..|s|] == ['0'] + s[..|s| - 1];
    }
  }

  lemma {:induction false} ParseZeros(k: int, s: string)
    requires forall c | c in s :: IsDigit(c)
    ensures Parse(Zeros(k) + s) == Parse(s)
    decreases if k <= 0 then 0 else k
  {
    if k <= 0 {
      assert Zeros(k) + s == s;
    } else {
      ParseZeros(k - 1, s);
      ParseLeadingZero(Zeros(k - 1) + s);
      assert Zeros(k) + s == ['0'] + (Zeros(k - 1) + s);
    }
  }

  lemma ParsePadded(n: nat, width: nat)
    ensures Parse(Padded(n, width)) == n
  {
    ParseZeros(width - |Digits(n)|, Digits(n));
    ParseDigits(n);
  }

  lemma {:induction false} ZerosLength(k: int)
    ensures |Zeros(k)| == if k <= 0 then 0 else k
  {
    if k > 0 {
      ZerosLength(k - 1);
    }
  }

  lemma {:induction false} NoLeadingZero(n: nat)
    ensures n > 0 ==> Digits(n)[0] != '0'
    ensures n == 0 ==> Digits(n) == "0"
  {
    if n >= 10 {
      NoLeadingZero(n / 10);
    }
  }

  /** A padded number: at least as wide as asked, no wider than it must be, and it reads back as itself. */
  lemma PaddedExact(n: nat, width: nat)
    ensures var s := Padded(n, width);
      && AllDigits(s) && Parse(s) == n && width <= |s|
      && (width < |s| ==> |s| == 1 || s[0] != '0')
  {
    ParsePadded(n, width);
    ZerosLength(width - |Digits(n)|);
    NoLeadingZero(n);
  }
}
