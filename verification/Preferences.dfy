/** What the adaptive score prefers (orchestrator/schedulers/adaptive.py): the exact weight of every reading,
    and that a better reading, all else equal, is always chosen first. */
module Preferences {
  import opened Model
  import opened Adaptive
  import Reliability
  import Arithmetic

  // --- The exact value of a reading -----------------------------------------------------------------------------

  /** `least` and `most` are the extremes of the known values. */
  ghost predicate AreExtremes(values: seq<Option<real>>, least: real, most: real) {
    Some(least) in values && Some(most) in values && forall x | Some(x) in values :: least <= x <= most
  }

  /** A known value is normalised to its distance from the least one, over the pool's whole spread or the
      significant one, whichever is wider; an unknown one to 1. So the least is 0, the greatest 1 when the
      pool is spread that wide, and order and distances survive. */
  lemma NormalizedExact(v: real, values: seq<Option<real>>, spread: real, least: real, most: real)
    requires spread > 0.0 && AreExtremes(values, least, most)
    ensures var scale := if most - least < spread then spread else most - least;
      Normalized(Some(v), values, spread) * scale == v - least
    ensures Normalized(None, values, spread) == 1.0
    ensures Normalized(Some(least), values, spread) == 0.0
    ensures spread <= most - least ==> Normalized(Some(most), values, spread) == 1.0
  {
    hide Known, Adaptive.Least, Greatest;
    var known := Known(values);
    assert least in known && most in known;
    assert Adaptive.Least(known) == least && Greatest(known) == most;
    Divides(v - least, Reliability.Larger(most - least, spread));
  }

  lemma Divides(a: real, d: real)
    requires d > 0.0
    ensures a / d * d == a && 0.0 / d == 0.0 && d / d == 1.0
  {
  }

  /** The smaller of two known values is normalised to strictly less. */
  lemma NormalizedOrder(v: real, u: real, values: seq<Option<real>>, spread: real)
    requires spread > 0.0 && v < u
    ensures Normalized(Some(v), values, spread) < Normalized(Some(u), values, spread)
  {
    hide Known, Adaptive.Least, Greatest;
    var lo, hi := Adaptive.Least(Known(values)), Greatest(Known(values));
    var d := Reliability.Larger(hi - lo, spread);
    QuotientOrder(v - lo, u - lo, d);
  }

  lemma QuotientOrder(a: real, b: real, d: real)
    requires d > 0.0 && a < b
    ensures a / d < b / d
  {
  }

  /** A measured speed counts as its shortfall from the fastest, in proportion; an unmeasured one as a half. */
  lemma SlownessExact(v: Option<real>, speeds: seq<Option<real>>, fastest: real)
    requires fastest > 0.0 && Some(fastest) in speeds && forall x | Some(x) in speeds :: x <= fastest
    ensures v.Some? && v.value > 0.0 ==> SlownessOf(v, speeds) * fastest == fastest - v.value
    ensures v == None || v.value <= 0.0 ==> SlownessOf(v, speeds) == 0.5
  {
    var known := Measured(speeds);
    assert fastest in known && Greatest(known) == fastest;
    if v.Some? && v.value > 0.0 {
      Divides(v.value, fastest);
    }
  }

  /** With no speed measured the term is inert. */
  lemma SlownessInert(v: Option<real>, speeds: seq<Option<real>>)
    requires forall x | Some(x) in speeds :: x <= 0.0
    ensures SlownessOf(v, speeds) == 0.0
  {
    var known := Measured(speeds);
    FirstIsIn(known);
  }

  lemma FirstIsIn(s: seq<real>)
    ensures s == [] || s[0] in s
  {
  }

  // --- Preferring the better --------------------------------------------------------------------------------------

  /** `v` is no worse a load or latency than `u`: an unknown one is the worst. */
  predicate NoWorse(v: Option<real>, u: Option<real>) {
    u == None || (v.Some? && v.value <= u.value)
  }

  predicate Lower(v: Option<real>, u: Option<real>) {
    v.Some? && u.Some? && v.value < u.value
  }

  predicate NoSlower(v: Option<real>, u: Option<real>) {
    v == u || Faster(v, u) || (v.Some? && u.Some? && 0.0 < u.value <= v.value)
  }

  predicate Faster(v: Option<real>, u: Option<real>) {
    v.Some? && u.Some? && 0.0 < u.value < v.value
  }

  lemma NormalizedNoWorse(v: Option<real>, u: Option<real>, values: seq<Option<real>>, spread: real)
    requires spread > 0.0 && v in values && u in values && NoWorse(v, u)
    ensures Normalized(v, values, spread) <= Normalized(u, values, spread)
    ensures Lower(v, u) ==> Normalized(v, values, spread) < Normalized(u, values, spread)
  {
    hide Normalized;
    NormalizedRange(v, values, spread);
    if u == None {
      NormalizedUnknown(values, spread);
    } else if v.value < u.value {
      NormalizedOrder(v.value, u.value, values, spread);
    }
  }

  lemma SlownessOrder(v: Option<real>, u: Option<real>, speeds: seq<Option<real>>)
    requires v in speeds && u in speeds && NoSlower(v, u)
    ensures SlownessOf(v, speeds) <= SlownessOf(u, speeds)
    ensures Faster(v, u) ==> SlownessOf(v, speeds) < SlownessOf(u, speeds)
  {
    hide Greatest;
    if Faster(v, u) {
      var known := Measured(speeds);
      assert v.value in known && Greatest(known) >= v.value;
      QuotientOrder(u.value, v.value, Greatest(known));
    }
  }

  /** `a` is no worse than `b` on any term. */
  predicate AsGood(a: Candidate, b: Candidate, w: Weights, sqrt: real -> real) {
    NoWorse(a.load, b.load) && NoWorse(a.rtt, b.rtt) && NoSlower(a.speed, b.speed)
    && Reliable(a, w, sqrt) >= Reliable(b, w, sqrt)
  }

  /** `a` is strictly better than `b` on a term that counts. */
  predicate BetterSomewhere(a: Candidate, b: Candidate, w: Weights, sqrt: real -> real) {
    || (w.alpha > 0.0 && Lower(a.load, b.load))
    || (w.beta > 0.0 && Reliable(a, w, sqrt) > Reliable(b, w, sqrt))
    || (w.gamma > 0.0 && Lower(a.rtt, b.rtt))
    || (w.delta > 0.0 && Faster(a.speed, b.speed))
  }

  predicate WeightsNonnegative(w: Weights) {
    w.alpha >= 0.0 && w.beta >= 0.0 && w.gamma >= 0.0 && w.delta >= 0.0
  }

  lemma BetterScores(pool: seq<Candidate>, w: Weights, sqrt: real -> real, a: Candidate, b: Candidate)
    requires SpreadsPositive(w) && WeightsNonnegative(w) && a in pool && b in pool
    requires AsGood(a, b, w, sqrt) && BetterSomewhere(a, b, w, sqrt)
    ensures ScoreIn(a, pool, w, sqrt) < ScoreIn(b, pool, w, sqrt)
  {
    hide Reliable, Normalized, SlownessOf, NoWorse, NoSlower, Lower, Faster;
    InPool(pool, a);
    InPool(pool, b);
    NormalizedNoWorse(a.load, b.load, Loads(pool), w.loadSpread);
    NormalizedNoWorse(a.rtt, b.rtt, Rtts(pool), w.rttSpread);
    SlownessOrder(a.speed, b.speed, Speeds(pool));
    Totals(w, Normalized(a.load, Loads(pool), w.loadSpread), Normalized(b.load, Loads(pool), w.loadSpread),
           Reliable(a, w, sqrt), Reliable(b, w, sqrt),
           Normalized(a.rtt, Rtts(pool), w.rttSpread), Normalized(b.rtt, Rtts(pool), w.rttSpread),
           SlownessOf(a.speed, Speeds(pool)), SlownessOf(b.speed, Speeds(pool)));
  }

  lemma Totals(w: Weights, l: real, l': real, r: real, r': real, d: real, d': real, c: real, c': real)
    requires WeightsNonnegative(w) && l <= l' && r >= r' && d <= d' && c <= c'
    requires (w.alpha > 0.0 && l < l') || (w.beta > 0.0 && r > r') || (w.gamma > 0.0 && d < d') || (w.delta > 0.0 && c < c')
    ensures w.alpha * l - w.beta * r + w.gamma * d + w.delta * c < w.alpha * l' - w.beta * r' + w.gamma * d' + w.delta * c'
  {
    var la, lb := Reliability.Times(w.alpha, l), Reliability.Times(w.alpha, l');
    var ra, rb := Reliability.Times(w.beta, r), Reliability.Times(w.beta, r');
    var da, db := Reliability.Times(w.gamma, d), Reliability.Times(w.gamma, d');
    var ca, cb := Reliability.Times(w.delta, c), Reliability.Times(w.delta, c');
    assert (la < lb || ra > rb || da < db || ca < cb) && la <= lb && ra >= rb && da <= db && ca <= cb by {
      hide Reliability.Times;
      Weighs(w.alpha, l', l);
      Weighs(w.beta, r, r');
      Weighs(w.gamma, d', d);
      Weighs(w.delta, c', c);
    }
    Lighter(la, lb, ra, rb, da, db, ca, cb);
  }

  lemma Lighter(a: real, a': real, b: real, b': real, c: real, c': real, d: real, d': real)
    requires a <= a' && b >= b' && c <= c' && d <= d' && (a < a' || b > b' || c < c' || d < d')
    ensures a - b + c + d < a' - b' + c' + d'
  {
  }

  lemma Weighs(a: real, x: real, y: real)
    requires a >= 0.0 && x >= y
    ensures Reliability.Times(a, x) >= Reliability.Times(a, y)
    ensures a > 0.0 && x > y ==> Reliability.Times(a, x) > Reliability.Times(a, y)
  {
  }

  /** The better one comes first: of two members of a pool, one no worse on any of load, latency, speed and
      reliability, and strictly better on one that has weight, stands before the other in every top n that
      holds the other. */
  lemma BetterIsPreferred(pool: seq<Candidate>, w: Weights, sqrt: real -> real, n: int, a: Candidate, b: Candidate,
      k: nat)
    requires SpreadsPositive(w) && WeightsNonnegative(w) && UniquePool(pool) && a in pool && b in pool
    requires AsGood(a, b, w, sqrt) && BetterSomewhere(a, b, w, sqrt)
    requires var s := ScoreCandidates(pool, w, sqrt);
      s.Some? && k < |SelectTopN(s.value, n)| && SelectTopN(s.value, n)[k].candidate == b
    ensures var top := SelectTopN(ScoreCandidates(pool, w, sqrt).value, n);
      exists i :: 0 <= i < k && top[i].candidate == a
  {
    hide ScoreIn, ScoreCandidates, Ranked, Reliable, AsGood, BetterSomewhere;
    BetterScores(pool, w, sqrt, a, b);
    LowerComesFirst(pool, w, sqrt, n, a, b, k);
  }

  /** The top n: as many as asked for, or all of them; every one a candidate; in strict order; and none of
      those left out better than one of those chosen. */
  lemma TopNIsBest(s: seq<Scored>, n: int, x: Scored)
    requires UniqueNames(s)
    ensures var top := SelectTopN(s, n);
      && |top| == (if n < 0 then 0 else if n < |s| then n else |s|)
      && (forall i | 0 <= i < |top| :: top[i] in s)
      && (forall i, k | 0 <= i < k < |top| :: Before(top[i], top[k]))
      && (x in s && x !in top ==> forall k | 0 <= k < |top| :: Before(top[k], x))
  {
    hide Before, Ranked;
    RankedInRank(s);
    var ranked, top := Ranked(s), SelectTopN(s, n);
    Arithmetic.SameSize(ranked, s);
    forall i | 0 <= i < |top|
      ensures top[i] in s
    {
      assert ranked[i] in multiset(ranked);
    }
    if x in s && x !in top {
      assert x in multiset(ranked);
      var m :| 0 <= m < |ranked| && ranked[m] == x;
      FrontHolds(ranked, top, m);
    }
  }

  lemma FrontHolds(s: seq<Scored>, front: seq<Scored>, m: nat)
    requires front <= s && m < |s|
    ensures m < |front| ==> s[m] in front
  {
  }
}
