/** The reliability estimate of a node, in exact reals (orchestrator/schedulers/reliability.py). */
module Reliability {

  /** What is asked of `math.sqrt`. */
  ghost predicate IsSqrt(sqrt: real -> real) {
    forall x: real {:trigger sqrt(x)} | x >= 0.0 :: sqrt(x) >= 0.0 && sqrt(x) * sqrt(x) == x
  }

  function Smaller(a: real, b: real): real {
    if a < b then a else b
  }

  function Larger(a: real, b: real): real {
    if a > b then a else b
  }

  function Times(a: real, b: real): real {
    a * b
  }

  function Square(z: real): real {
    Times(z, z)
  }

  lemma TimesPositive(a: real, b: real)
    requires a > 0.0 && b > 0.0
    ensures Times(a, b) > 0.0
  {
    Positive(a, b);
  }

  lemma SquarePositive(z: real)
    requires z > 0.0
    ensures Square(z) > 0.0
  {
    hide Times;
    TimesPositive(z, z);
  }

  function Radicand(s: real, f: real, z: real): real
    requires s + f > 0.0
  {
    var n := s + f;
    var p := s / n;
    (p * (1.0 - p) + z * z / (4.0 * n)) / n
  }

  /** The bound, given the square root it takes. */
  function Bound(s: real, f: real, z: real, root: real): real
    requires s + f > 0.0
  {
    var n := s + f;
    var p, z2 := s / n, z * z;
    var denominator := 1.0 + z2 / n;
    var center := p + z2 / (2.0 * n);
    var margin := z * root;
    assert z2 >= 0.0;
    assert denominator > 0.0;
    (center - margin) / denominator
  }

  /** The bound before it is clamped. */
  function Lower(s: real, f: real, z: real, sqrt: real -> real): real
    requires s + f > 0.0
  {
    Bound(s, f, z, sqrt(Radicand(s, f, z)))
  }

  /** The lower end of the Wilson score interval. */
  function WilsonLowerBound(s: real, f: real, z: real, sqrt: real -> real): real {
    if s + f <= 0.0 then 0.0 else Larger(0.0, Smaller(1.0, Lower(s, f, z, sqrt)))
  }

  // --- The equation behind the formula -------------------------------------------------------------------------

  lemma Multiply(a: real, b: real)
    requires a >= 0.0 && b >= 0.0
    ensures a * b >= 0.0
  {
  }

  lemma Positive(a: real, b: real)
    requires a > 0.0 && b > 0.0
    ensures a * b > 0.0
  {
  }

  lemma SquareOrder(a: real, b: real)
    requires a >= 0.0 && b >= 0.0 && a * a >= b * b
    ensures a >= b
  {
    if a < b {
      Positive(b - a, b);
      Multiply(b - a, a);
    }
  }

  lemma Cancel(k: real, a: real, b: real)
    requires k > 0.0 && k * a >= k * b
    ensures a >= b
  {
  }

  /** The bound and the margin with every denominator cleared: `w (n + z^2) = s + z^2/2 - m`, where
      `n m^2 = z^2 (s f + n z^2/4)`. */
  predicate Cleared(s: real, f: real, z2: real, w: real, m: real) {
    var n := s + f;
    && m >= 0.0
    && n * (m * m) == z2 * (s * f + n * z2 / 4.0)
    && w * (n + z2) == s + z2 / 2.0 - m
  }

  lemma LowerCleared(s: real, f: real, z: real, sqrt: real -> real) returns (m: real)
    requires IsSqrt(sqrt) && s >= 0.0 && f >= 0.0 && s + f > 0.0 && z > 0.0
    ensures Cleared(s, f, Square(z), Lower(s, f, z, sqrt), m)
  {
    hide Bound, Radicand;
    RadicandNonnegative(s, f, z);
    var root := sqrt(Radicand(s, f, z));
    m := z * (s + f) * root;
    MarginNonnegative(s + f, z, root);
    MarginSquare(s, f, z, root);
    BoundTimes(s, f, z, root);
  }

  lemma MarginNonnegative(n: real, z: real, root: real)
    requires n >= 0.0 && z >= 0.0 && root >= 0.0
    ensures z * n * root >= 0.0
  {
  }

  lemma RadicandNonnegative(s: real, f: real, z: real)
    requires s >= 0.0 && f >= 0.0 && s + f > 0.0
    ensures Radicand(s, f, z) >= 0.0
  {
    var n := s + f;
    var p := s / n;
    assert p * n == s;
    assert 0.0 <= p <= 1.0;
    Multiply(p, 1.0 - p);
    assert z * z >= 0.0;
    assert z * z / (4.0 * n) >= 0.0;
  }

  lemma MarginSquare(s: real, f: real, z: real, root: real)
    requires s + f > 0.0 && root * root == Radicand(s, f, z)
    ensures var n, m := s + f, z * (s + f) * root; n * (m * m) == z * z * (s * f + n * (z * z) / 4.0)
  {
  }

  lemma BoundTimes(s: real, f: real, z: real, root: real)
    requires s + f > 0.0
    ensures Bound(s, f, z, root) * (s + f + z * z) == s + z * z / 2.0 - z * (s + f) * root
  {
  }

  // --- Where the bound lies --------------------------------------------------------------------------------------

  /** The bound lies between 0 and the observed ratio, strictly below 1. */
  lemma ClearedRange(s: real, f: real, z2: real, w: real, m: real)
    requires s >= 0.0 && f >= 0.0 && s + f > 0.0 && z2 > 0.0 && Cleared(s, f, z2, w, m)
    ensures 0.0 <= w < 1.0 && w * (s + f) <= s
  {
    var n := s + f;
    NotNegative(s, f, z2, m);
    BelowRatio(s, f, z2, m);
    Cancel(n + z2, w, 0.0);
    if w >= 1.0 {
      Multiply(w - 1.0, n + z2);
    }
    assert (n + z2) * (w * n) == n * (w * (n + z2));
    assert n * (s + z2 / 2.0 - m) == n * s + n * z2 / 2.0 - n * m;
    Cancel(n + z2, s, w * n);
  }

  lemma NotNegative(s: real, f: real, z2: real, m: real)
    requires s >= 0.0 && f >= 0.0 && s + f > 0.0 && z2 > 0.0 && m >= 0.0
    requires (s + f) * (m * m) == z2 * (s * f + (s + f) * z2 / 4.0)
    ensures s + z2 / 2.0 >= m
  {
    var n, c := s + f, s + z2 / 2.0;
    assert n * (c * c) == n * (s * s) + n * s * z2 + n * (z2 * z2) / 4.0;
    assert n * (m * m) == z2 * s * f + n * (z2 * z2) / 4.0;
    Multiply(n, s * s);
    Multiply(s * z2, s);
    assert n * s * z2 == s * z2 * s + z2 * s * f;
    Cancel(n, c * c, m * m);
    SquareOrder(c, m);
  }

  lemma BelowRatio(s: real, f: real, z2: real, m: real)
    requires s >= 0.0 && f >= 0.0 && s + f > 0.0 && z2 > 0.0 && m >= 0.0
    requires (s + f) * (m * m) == z2 * (s * f + (s + f) * z2 / 4.0)
    ensures (s + f) * m >= z2 * ((s + f) / 2.0 - s)
  {
  }

  /** Both clamps are inert: the result is the formula's own value, and it lies in [0, s / (s + f)]. */
  lemma WilsonRange(s: real, f: real, z: real, sqrt: real -> real)
    requires IsSqrt(sqrt) && s >= 0.0 && f >= 0.0 && s + f > 0.0 && z > 0.0
    ensures WilsonLowerBound(s, f, z, sqrt) == Lower(s, f, z, sqrt)
    ensures 0.0 <= WilsonLowerBound(s, f, z, sqrt) <= s / (s + f)
    ensures WilsonLowerBound(s, f, z, sqrt) < 1.0
  {
    hide Cleared, Lower, Square;
    SquarePositive(z);
    var m := LowerCleared(s, f, z, sqrt);
    var w := Lower(s, f, z, sqrt);
    ClearedRange(s, f, Square(z), w, m);
    Quotient(w, s, s + f);
  }

  lemma Quotient(w: real, s: real, n: real)
    requires n > 0.0 && w * n <= s
    ensures w <= s / n
  {
  }

  // --- Monotonicity ------------------------------------------------------------------------------------------------

  /** `u` is at most the observed ratio, below 1, and solves `(s - n u)^2 = n z^2 u (1 - u)`. */
  predicate IsRoot(s: real, f: real, z2: real, u: real) {
    var n := s + f;
    0.0 <= u < 1.0 && u * n <= s && (s - n * u) * (s - n * u) == n * z2 * (u * (1.0 - u))
  }

  /** As above, with the left side allowed to be larger. */
  predicate IsUnder(s: real, f: real, z2: real, u: real) {
    var n := s + f;
    0.0 <= u < 1.0 && u * n <= s && (s - n * u) * (s - n * u) >= n * z2 * (u * (1.0 - u))
  }

  lemma ClearedRoot(s: real, f: real, z2: real, w: real, m: real)
    requires s >= 0.0 && f >= 0.0 && s + f > 0.0 && z2 > 0.0 && Cleared(s, f, z2, w, m)
    ensures IsRoot(s, f, z2, w)
  {
    hide Cleared;
    ClearedRange(s, f, z2, w, m);
    Solves(s, f, z2, w, m);
  }

  /** The bound solves `(s - n w)^2 = n z^2 w (1 - w)`. */
  lemma Solves(s: real, f: real, z2: real, w: real, m: real)
    requires s + f > 0.0 && z2 > 0.0 && Cleared(s, f, z2, w, m)
    ensures var n := s + f; (s - n * w) * (s - n * w) == n * z2 * (w * (1.0 - w))
  {
  }

  /** Anything below the ratio at which the quadratic is not negative is below the bound. */
  lemma Beneath(s: real, f: real, z2: real, w: real, m: real, u: real)
    requires s >= 0.0 && f >= 0.0 && s + f > 0.0 && z2 > 0.0 && Cleared(s, f, z2, w, m)
    requires IsUnder(s, f, z2, u)
    ensures u <= w
  {
    var n := s + f;
    Solves(s, f, z2, w, m);
    if u > w {
      RootSum(s, f, z2, m, u, w);
      NotPastRoot(s, f, z2, m, u);
    }
  }

  /** The two roots add up to (2s + z^2) / (n + z^2), so a point past the smaller one at which the quadratic
      is not negative is past the larger one. */
  lemma RootSum(s: real, f: real, z2: real, m: real, u: real, w: real)
    requires s + f > 0.0 && w < u && u * (s + f) <= s && w * (s + f + z2) == s + z2 / 2.0 - m
    requires var n := s + f; (s - n * u) * (s - n * u) >= n * z2 * (u * (1.0 - u))
    requires var n := s + f; (s - n * w) * (s - n * w) == n * z2 * (w * (1.0 - w))
    ensures z2 * u >= z2 / 2.0 + m
  {
  }

  /** The right side of the quadratic at `u`. */
  function Inner(n: real, z2: real, u: real): real {
    n * z2 * (u * (1.0 - u))
  }

  lemma InnerPositive(n: real, z2: real, u: real)
    requires n > 0.0 && z2 > 0.0 && 0.0 < u < 1.0
    ensures Inner(n, z2, u) > 0.0
  {
    Positive(n, z2);
    Positive(u, 1.0 - u);
    Positive(n * z2, u * (1.0 - u));
  }

  lemma Centred(n: real, z2: real, u: real)
    ensures var h := u - 0.5; n * (z2 * h * (z2 * h)) == z2 * (n * z2 / 4.0 - Inner(n, z2, u))
  {
  }

  lemma Squares(n: real, a: real, b: real)
    requires n > 0.0 && a >= b >= 0.0
    ensures n * (a * a) >= n * (b * b)
  {
  }

  /** No point below 1 and below the ratio lies past the larger root. */
  lemma NotPastRoot(s: real, f: real, z2: real, m: real, u: real)
    requires s >= 0.0 && f >= 0.0 && s + f > 0.0 && z2 > 0.0 && m >= 0.0
    requires (s + f) * (m * m) == z2 * (s * f + (s + f) * z2 / 4.0)
    requires 0.0 <= u < 1.0
    ensures z2 * u < z2 / 2.0 + m
  {
    hide Inner;
    var n, h := s + f, u - 0.5;
    Multiply(s, f);
    Centred(n, z2, u);
    if z2 * h >= m {
      Cancel(z2, h, 0.0);
      Squares(n, z2 * h, m);
      Cancel(z2, n * z2 / 4.0 - Inner(n, z2, u), s * f + n * z2 / 4.0);
      InnerPositive(n, z2, u);
    }
  }

  /** More successes never lower the bound. */
  lemma MoreSuccesses(s: real, s': real, f: real, z: real, sqrt: real -> real)
    requires IsSqrt(sqrt) && 0.0 <= s <= s' && f >= 0.0 && s + f > 0.0 && z > 0.0
    ensures WilsonLowerBound(s, f, z, sqrt) <= WilsonLowerBound(s', f, z, sqrt)
  {
    hide *;
    SquarePositive(z);
    WilsonRange(s, f, z, sqrt);
    WilsonRange(s', f, z, sqrt);
    var m := LowerCleared(s, f, z, sqrt);
    var m' := LowerCleared(s', f, z, sqrt);
    var u := Lower(s, f, z, sqrt);
    ClearedRoot(s, f, Square(z), u, m);
    SuccessGap(s, s' - s, f, Square(z), u);
    assert s + (s' - s) == s';
    Beneath(s', f, Square(z), Lower(s', f, z, sqrt), m', u);
  }

  /** With more failures the bound never rises. */
  lemma MoreFailures(s: real, f: real, f': real, z: real, sqrt: real -> real)
    requires IsSqrt(sqrt) && s >= 0.0 && 0.0 <= f <= f' && s + f > 0.0 && z > 0.0
    ensures WilsonLowerBound(s, f', z, sqrt) <= WilsonLowerBound(s, f, z, sqrt)
  {
    hide *;
    SquarePositive(z);
    WilsonRange(s, f, z, sqrt);
    WilsonRange(s, f', z, sqrt);
    var m := LowerCleared(s, f, z, sqrt);
    var m' := LowerCleared(s, f', z, sqrt);
    var u := Lower(s, f', z, sqrt);
    ClearedRoot(s, f', Square(z), u, m');
    assert f + (f' - f) == f';
    FailureGap(s, f, f' - f, Square(z), u);
    Beneath(s, f, Square(z), Lower(s, f, z, sqrt), m, u);
  }

  /** Adding `d` successes leaves the old bound under the new one. */
  lemma SuccessGap(s: real, d: real, f: real, z2: real, u: real)
    requires s >= 0.0 && d >= 0.0 && f >= 0.0 && s + f > 0.0 && z2 > 0.0 && IsRoot(s, f, z2, u)
    ensures IsUnder(s + d, f, z2, u)
  {
  }

  /** Taking `d` failures away leaves the old bound under the new one. */
  lemma FailureGap(s: real, f: real, d: real, z2: real, u: real)
    requires s >= 0.0 && d >= 0.0 && f >= 0.0 && s + f > 0.0 && z2 > 0.0 && IsRoot(s, f + d, z2, u)
    ensures IsUnder(s, f, z2, u)
  {
    var n, v := s + (f + d), 1.0 - u;
    var a := s - n * u;
    Multiply(d, u);
    assert s - (s + f) * u == a + d * u;
    assert (a + d * u) * (a + d * u) == a * a + 2.0 * a * (d * u) + d * u * (d * u);
    assert (s + f) * z2 * (u * v) == n * z2 * (u * v) - d * u * (z2 * v);
    Multiply(z2, v);
    Multiply(d * u, 2.0 * a + d * u + z2 * v);
    assert d * u * (2.0 * a + d * u + z2 * v) == 2.0 * a * (d * u) + d * u * (d * u) + d * u * (z2 * v);
  }

  /** The result solves the equation of the score interval, `(s - n w)^2 = n z^2 w (1 - w)`, at or below the
      observed ratio s/n, and is the largest point there at which the left side is not the smaller. */
  lemma SmallerRoot(s: real, f: real, z: real, sqrt: real -> real, u: real)
    requires IsSqrt(sqrt) && s >= 0.0 && f >= 0.0 && s + f > 0.0 && z > 0.0
    ensures IsRoot(s, f, z * z, WilsonLowerBound(s, f, z, sqrt))
    ensures IsUnder(s, f, z * z, u) ==> u <= WilsonLowerBound(s, f, z, sqrt)
  {
    hide Cleared, Lower, WilsonLowerBound, IsSqrt, Square, IsRoot, IsUnder;
    SquarePositive(z);
    WilsonRange(s, f, z, sqrt);
    var m := LowerCleared(s, f, z, sqrt);
    var w := Lower(s, f, z, sqrt);
    ClearedRoot(s, f, Square(z), w, m);
    if IsUnder(s, f, Square(z), u) {
      Beneath(s, f, Square(z), w, m, u);
    }
    SquareIs(z);
  }

  lemma SquareIs(z: real)
    ensures Square(z) == z * z
  {
  }

  // --- Decay -------------------------------------------------------------------------------------------------------------

  predicate Multiplies(power: real -> real, x: real, y: real) {
    power(x + y) == power(x) * power(y)
  }

  /** What is asked of `math.pow(0.5, x)`: one half at 1, in (0, 1] from 0 on, and exponents add up. */
  ghost predicate IsHalving(power: real -> real) {
    && power(1.0) == 0.5
    && (forall x: real {:trigger power(x)} | x >= 0.0 :: 0.0 < power(x) <= 1.0)
    && (forall x: real, y: real {:trigger Multiplies(power, x, y)} | x >= 0.0 && y >= 0.0 :: Multiplies(power, x, y))
  }

  lemma PowerLaws(power: real -> real, x: real, y: real)
    requires IsHalving(power) && 0.0 <= x <= y
    ensures 0.0 < power(y) <= power(x) <= 1.0 && power(0.0) == 1.0 && power(x + 1.0) == power(x) / 2.0
  {
    assert Multiplies(power, 0.0, 0.0) && Multiplies(power, x, y - x) && Multiplies(power, x, 1.0);
    assert 0.0 + 0.0 == 0.0 && x + (y - x) == y;
    Unit(power(0.0), power(0.0));
    Shrinks(power(x), power(y - x), power(y));
  }

  lemma Shrinks(a: real, b: real, c: real)
    requires a >= 0.0 && b <= 1.0 && c == a * b
    ensures c <= a
  {
    Multiply(a, 1.0 - b);
  }

  lemma Unit(a: real, b: real)
    requires a > 0.0 && a * b == a
    ensures b == 1.0
  {
    Cancel(a, b, 1.0);
    Cancel(a, 1.0, b);
  }

  function DecayWeight(age: real, halfLife: real, power: real -> real): real {
    if halfLife <= 0.0 then 1.0 else power(Larger(0.0, age) / halfLife)
  }

  /** How the weight of an outcome decays: whole at age 0 and before, and for ever when decay is off; halved
      by every further half-life; always in (0, 1]; and never growing with age. */
  lemma DecayFades(age: real, later: real, halfLife: real, power: real -> real)
    requires IsHalving(power) && age <= later
    ensures 0.0 < DecayWeight(later, halfLife, power) <= DecayWeight(age, halfLife, power) <= 1.0
    ensures age <= 0.0 || halfLife <= 0.0 ==> DecayWeight(age, halfLife, power) == 1.0
    ensures age >= 0.0 && halfLife > 0.0 ==>
              DecayWeight(age + halfLife, halfLife, power) == DecayWeight(age, halfLife, power) / 2.0
  {
    if halfLife > 0.0 {
      var a, b := Larger(0.0, age), Larger(0.0, later);
      HalfLives(a, b, halfLife);
      PowerLaws(power, a / halfLife, b / halfLife);
    }
  }

  lemma HalfLives(a: real, b: real, halfLife: real)
    requires 0.0 <= a <= b && halfLife > 0.0
    ensures 0.0 <= a / halfLife <= b / halfLife && (a + halfLife) / halfLife == a / halfLife + 1.0
    ensures a == 0.0 ==> a / halfLife == 0.0
  {
    var x, y := a / halfLife, b / halfLife;
    assert halfLife * x == a && halfLife * y == b;
    Cancel(halfLife, x, 0.0);
    Cancel(halfLife, y, x);
    Quotients(a + halfLife, halfLife, x + 1.0);
  }

  lemma Quotients(a: real, d: real, q: real)
    requires d > 0.0 && d * q == a
    ensures a / d == q
  {
    var p := a / d;
    assert d * p == a;
    Cancel(d, p, q);
    Cancel(d, q, p);
  }

  /** Pseudo-counts of outcomes of the given ages, on top of the node's declared prior. */
  function Weighted(prior: real, ages: seq<real>, halfLife: real, power: real -> real): real {
    if ages == [] then prior
    else Weighted(prior, ages[..|ages| - 1], halfLife, power) + DecayWeight(ages[|ages| - 1], halfLife, power)
  }

  lemma {:induction false} WeightedFades(prior: real, ages: seq<real>, later: seq<real>, halfLife: real, power: real -> real)
    requires IsHalving(power) && |later| == |ages| && forall i | 0 <= i < |ages| :: ages[i] <= later[i]
    ensures prior <= Weighted(prior, later, halfLife, power) <= Weighted(prior, ages, halfLife, power)
    decreases |ages|
  {
    if ages != [] {
      WeightedFades(prior, ages[..|ages| - 1], later[..|later| - 1], halfLife, power);
      DecayFades(ages[|ages| - 1], later[|later| - 1], halfLife, power);
    }
  }

  /** Reliability recovers: as a node's failures age, all else fixed, its estimate never falls. */
  lemma Recovers(s: real, prior: real, ages: seq<real>, later: seq<real>, halfLife: real, power: real -> real,
      z: real, sqrt: real -> real)
    requires IsSqrt(sqrt) && IsHalving(power) && s >= 0.0 && prior >= 0.0 && s + prior > 0.0 && z > 0.0
    requires |later| == |ages| && forall i | 0 <= i < |ages| :: ages[i] <= later[i]
    ensures WilsonLowerBound(s, Weighted(prior, ages, halfLife, power), z, sqrt)
            <= WilsonLowerBound(s, Weighted(prior, later, halfLife, power), z, sqrt)
  {
    WeightedFades(prior, ages, later, halfLife, power);
    MoreFailures(s, Weighted(prior, later, halfLife, power), Weighted(prior, ages, halfLife, power), z, sqrt);
  }
}
