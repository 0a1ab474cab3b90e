/** Whole-number division, rounded up, and counting. */
module Arithmetic {

  lemma AtLeast(k: int, d: nat)
    requires 1 <= k
    ensures d <= k * d
  {
    assert k * d == (k - 1) * d + d;
  }

  lemma Divide(n: nat, d: nat, q: nat, r: nat)
    requires 0 < d && r < d && n == q * d + r
    ensures n / d == q
  {
    var p, m := n / d, n % d;
    assert n == p * d + m && 0 <= m < d;
    assert (q - p) * d == q * d - p * d && (p - q) * d == p * d - q * d;
    if p < q {
      AtLeast(q - p, d);
    } else if p > q {
      AtLeast(p - q, d);
    }
  }

  /** How many multiples of `stride` there are below `n`, 0 included: `n / stride` rounded up. */
  function Ceiling(n: nat, stride: nat): nat
    requires 0 < stride
  {
    (n + stride - 1) / stride
  }

  lemma CeilingStep(n: nat, stride: nat)
    requires 0 < stride
    ensures Ceiling(n + 1, stride) == Ceiling(n, stride) + if n % stride == 0 then 1 else 0
  {
    var q, r := n / stride, n % stride;
    assert n == q * stride + r;
    Divide(n + stride, stride, q + 1, r);
    if r == 0 {
      Divide(n + stride - 1, stride, q, stride - 1);
    } else {
      Divide(n + stride - 1, stride, q + 1, r - 1);
    }
  }

  lemma CeilingZero(stride: nat)
    requires 0 < stride
    ensures Ceiling(0, stride) == 0
  {
    Divide(stride - 1, stride, 0, stride - 1);
  }

  lemma {:induction false} CeilingLess(n: nat, stride: nat)
    requires 2 <= stride && 2 <= n
    ensures 1 <= Ceiling(n, stride) < n
    decreases n
  {
    hide Ceiling;
    CeilingZero(stride);
    CeilingStep(0, stride);
    if n == 2 {
      CeilingStep(1, stride);
    } else {
      CeilingLess(n - 1, stride);
      CeilingStep(n - 1, stride);
    }
  }

  lemma SameSize<T>(a: seq<T>, b: seq<T>)
    requires multiset(a) == multiset(b)
    ensures |a| == |b|
  {
    assert |multiset(a)| == |a| && |multiset(b)| == |b|;
  }
}
