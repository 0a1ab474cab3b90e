/** The adaptive score of a pool of candidates and the choice made from it, in exact reals
    (orchestrator/schedulers/adaptive.py). */
module Adaptive {
  import opened Model
  import opened Arithmetic
  import opened Text
  import Reliability

  datatype Candidate = Candidate(
    name: string,
    load: Option<real>,
    rtt: Option<real>,
    successes: real,
    failures: real,
    speed: Option<real>)

  datatype Weights = Weights(
    alpha: real, beta: real, gamma: real, delta: real, z: real, loadSpread: real, rttSpread: real)

  datatype Scored = Scored(candidate: Candidate, score: real)

  // --- The terms of the score ---------------------------------------------------------------------------------

  function Known(values: seq<Option<real>>): (r: seq<real>)
    ensures forall x :: x in r <==> Some(x) in values
  {
    if values == [] then []
    else
      assert forall x :: Some(x) in values <==> Some(x) == values[0] || Some(x) in values[1..];
      (if values[0].Some? then [values[0].value] else []) + Known(values[1..])
  }

  function Least(s: seq<real>): (r: real)
    ensures s == [] ==> r == 0.0
    ensures s != [] ==> r in s && forall x | x in s :: r <= x
  {
    if s == [] then 0.0
    else if |s| == 1 then s[0]
    else
      assert forall x :: x in s <==> x == s[0] || x in s[1..];
      Reliability.Smaller(s[0], Least(s[1..]))
  }

  function Greatest(s: seq<real>): (r: real)
    ensures s == [] ==> r == 0.0
    ensures s != [] ==> r in s && forall x | x in s :: x <= r
  {
    if s == [] then 0.0
    else if |s| == 1 then s[0]
    else
      assert forall x :: x in s <==> x == s[0] || x in s[1..];
      Reliability.Larger(s[0], Greatest(s[1..]))
  }

  /** A value placed between the pool's extremes, on a scale no finer than `spread`; unknown is worst. */
  function Normalized(v: Option<real>, values: seq<Option<real>>, spread: real): real
    requires spread > 0.0
  {
    var lo, hi := Least(Known(values)), Greatest(Known(values));
    if v == None then 1.0 else (v.value - lo) / Reliability.Larger(hi - lo, spread)
  }

  function NormalizeUnknownWorst(values: seq<Option<real>>, spread: real): seq<real>
    requires spread > 0.0
  {
    seq(|values|, i requires 0 <= i < |values| => Normalized(values[i], values, spread))
  }

  function Measured(speeds: seq<Option<real>>): (r: seq<real>)
    ensures forall x :: x in r <==> x > 0.0 && Some(x) in speeds
  {
    if speeds == [] then []
    else
      assert forall x :: Some(x) in speeds <==> Some(x) == speeds[0] || Some(x) in speeds[1..];
      (if speeds[0].Some? && speeds[0].value > 0.0 then [speeds[0].value] else []) + Measured(speeds[1..])
  }

  /** How much slower than the fastest measured candidate; neutral when unmeasured, inert when nothing is. */
  function SlownessOf(v: Option<real>, speeds: seq<Option<real>>): real {
    var known := Measured(speeds);
    if known == [] then 0.0
    else if v == None || v.value <= 0.0 then 0.5
    else 1.0 - v.value / Greatest(known)
  }

  function Slowness(speeds: seq<Option<real>>): seq<real> {
    seq(|speeds|, i requires 0 <= i < |speeds| => SlownessOf(speeds[i], speeds))
  }

  function Loads(pool: seq<Candidate>): seq<Option<real>> {
    seq(|pool|, i requires 0 <= i < |pool| => pool[i].load)
  }

  function Rtts(pool: seq<Candidate>): seq<Option<real>> {
    seq(|pool|, i requires 0 <= i < |pool| => pool[i].rtt)
  }

  function Speeds(pool: seq<Candidate>): seq<Option<real>> {
    seq(|pool|, i requires 0 <= i < |pool| => pool[i].speed)
  }

  function Reliable(c: Candidate, w: Weights, sqrt: real -> real): real {
    Reliability.WilsonLowerBound(c.successes, c.failures, w.z, sqrt)
  }

  predicate SpreadsPositive(w: Weights) {
    w.loadSpread > 0.0 && w.rttSpread > 0.0
  }

  /** The score of every candidate, in input order; None when a spread is not positive. */
  function ScoreCandidates(pool: seq<Candidate>, w: Weights, sqrt: real -> real): Option<seq<Scored>> {
    if !SpreadsPositive(w) then None
    else
      var l := NormalizeUnknownWorst(Loads(pool), w.loadSpread);
      var d := NormalizeUnknownWorst(Rtts(pool), w.rttSpread);
      var c := Slowness(Speeds(pool));
      Some(seq(|pool|, i requires 0 <= i < |pool| => Scored(pool[i],
          w.alpha * l[i] - w.beta * Reliable(pool[i], w, sqrt) + w.gamma * d[i] + w.delta * c[i])))
  }

  // --- Bounds on the terms -----------------------------------------------------------------------------------------

  lemma Divided(a: real, d: real)
    requires d > 0.0
    ensures a >= 0.0 <==> a / d >= 0.0
    ensures a <= d <==> a / d <= 1.0
  {
  }

  /** Every normalised value lies in [0, 1]. */
  lemma NormalizedRange(v: Option<real>, values: seq<Option<real>>, spread: real)
    requires spread > 0.0 && v in values
    ensures 0.0 <= Normalized(v, values, spread) <= 1.0
  {
    if v.Some? {
      var lo, hi := Least(Known(values)), Greatest(Known(values));
      assert v.value in Known(values);
      Divided(v.value - lo, Reliability.Larger(hi - lo, spread));
    }
  }

  function Distance(a: real, b: real): real {
    if a < b then b - a else a - b
  }

  /** Two normalised values differ by at most their own difference over the significant spread. */
  lemma NormalizedGap(v: real, u: real, values: seq<Option<real>>, spread: real)
    requires spread > 0.0
    ensures Normalized(Some(v), values, spread) - Normalized(Some(u), values, spread) <= Distance(v, u) / spread
  {
    hide Known, Least, Greatest;
    var lo, hi := Least(Known(values)), Greatest(Known(values));
    QuotientGap(v, u, lo, Reliability.Larger(hi - lo, spread), spread);
  }

  lemma QuotientGap(v: real, u: real, lo: real, d: real, spread: real)
    requires d >= spread > 0.0
    ensures (v - lo) / d - (u - lo) / d <= Distance(v, u) / spread
  {
  }

  lemma Proportion(v: real, most: real)
    requires 0.0 < v <= most
    ensures 0.0 < v / most <= 1.0
    ensures v == most ==> v / most == 1.0
  {
  }

  /** Slowness lies in [0, 1), and is 0 for the fastest measured candidate. */
  lemma SlownessRange(v: Option<real>, speeds: seq<Option<real>>)
    requires v in speeds
    ensures 0.0 <= SlownessOf(v, speeds) < 1.0
    ensures v.Some? && v.value > 0.0 && (forall x | Some(x) in speeds :: x <= v.value) ==> SlownessOf(v, speeds) == 0.0
  {
    hide Measured, Greatest;
    var known := Measured(speeds);
    if known != [] && v.Some? && v.value > 0.0 {
      assert v.value in known && Greatest(known) in known;
      Proportion(v.value, Greatest(known));
    }
  }

  function Scaled(s: seq<real>, k: real): seq<real> {
    if s == [] then [] else [Reliability.Times(s[0], k)] + Scaled(s[1..], k)
  }

  /** The same speeds in another unit. */
  function Rescaled(speeds: seq<Option<real>>, k: real): seq<Option<real>> {
    if speeds == [] then [] else [RescaledOne(speeds[0], k)] + Rescaled(speeds[1..], k)
  }

  function RescaledOne(v: Option<real>, k: real): Option<real> {
    if v == None then None else Some(Reliability.Times(v.value, k))
  }

  lemma SameSign(x: real, k: real)
    requires k > 0.0
    ensures x > 0.0 <==> Reliability.Times(x, k) > 0.0
  {
  }

  lemma {:induction false} MeasuredScaled(speeds: seq<Option<real>>, k: real)
    requires k > 0.0
    ensures Measured(Rescaled(speeds, k)) == Scaled(Measured(speeds), k)
  {
    hide Reliability.Times;
    if speeds != [] {
      MeasuredScaled(speeds[1..], k);
      var rescaled, rest := Rescaled(speeds, k), Measured(speeds[1..]);
      assert rescaled[0] == RescaledOne(speeds[0], k) && rescaled[1..] == Rescaled(speeds[1..], k);
      MeasuredHead(speeds);
      MeasuredHead(rescaled);
      if speeds[0].Some? {
        SameSign(speeds[0].value, k);
        ScaledHead(speeds[0].value, rest, k);
      }
      assert [] + rest == rest && [] + Scaled(rest, k) == Scaled(rest, k);
    }
  }

  lemma ScaledHead(x: real, s: seq<real>, k: real)
    ensures Scaled([x] + s, k) == [Reliability.Times(x, k)] + Scaled(s, k)
  {
  }

  lemma MeasuredHead(speeds: seq<Option<real>>)
    requires speeds != []
    ensures Measured(speeds) ==
            (if speeds[0].Some? && speeds[0].value > 0.0 then [speeds[0].value] else []) + Measured(speeds[1..])
  {
  }

  lemma LargerScaled(a: real, b: real, k: real)
    requires k > 0.0
    ensures Reliability.Larger(Reliability.Times(a, k), Reliability.Times(b, k))
        == Reliability.Times(Reliability.Larger(a, b), k)
  {
    Reliability.Multiply(if a > b then a - b else b - a, k);
  }

  lemma {:induction false} GreatestScaled(s: seq<real>, k: real)
    requires k > 0.0
    ensures |Scaled(s, k)| == |s|
    ensures Greatest(Scaled(s, k)) == Reliability.Times(Greatest(s), k)
  {
    hide Reliability.Larger, Greatest, Reliability.Times;
    GreatestFew();
    TimesNothing(k);
    if s != [] {
      GreatestScaled(s[1..], k);
      assert Scaled(s, k)[1..] == Scaled(s[1..], k) && Scaled(s, k)[0] == Reliability.Times(s[0], k);
      if |s| > 1 {
        LargerScaled(s[0], Greatest(s[1..]), k);
        GreatestHead(s);
        GreatestHead(Scaled(s, k));
      } else {
        assert Scaled(s, k) == [Reliability.Times(s[0], k)] && s == [s[0]];
      }
    }
  }

  lemma TimesNothing(k: real)
    ensures Reliability.Times(0.0, k) == 0.0
  {
  }

  lemma GreatestFew()
    ensures Greatest([]) == 0.0 && forall x: real {:trigger Greatest([x])} :: Greatest([x]) == x
  {
  }

  lemma GreatestHead(s: seq<real>)
    requires |s| > 1
    ensures Greatest(s) == Reliability.Larger(s[0], Greatest(s[1..]))
  {
  }

  lemma RatioScaled(v: real, a: real, k: real)
    requires a > 0.0 && k > 0.0
    ensures Reliability.Times(a, k) != 0.0 && Reliability.Times(v, k) / Reliability.Times(a, k) == v / a
  {
  }

  /** Slowness is a ratio: measuring every speed in another unit changes nothing. */
  lemma SlownessScaleFree(v: Option<real>, speeds: seq<Option<real>>, k: real)
    requires k > 0.0
    ensures SlownessOf(RescaledOne(v, k), Rescaled(speeds, k)) == SlownessOf(v, speeds)
  {
    hide Greatest, Measured, Scaled, Rescaled, Reliability.Times;
    var known := Measured(speeds);
    MeasuredScaled(speeds, k);
    GreatestScaled(known, k);
    if v.Some? && known != [] {
      SameSign(v.value, k);
      assert Greatest(known) in known;
      RatioScaled(v.value, Greatest(known), k);
    }
  }

  // --- Choosing ------------------------------------------------------------------------------------------------------

  /** Strictly better: a lower score, or the same score and an earlier name. */
  predicate Before(a: Scored, b: Scored) {
    a.score < b.score || (a.score == b.score && Less(a.candidate.name, b.candidate.name))
  }

  function Placed(x: Scored, s: seq<Scored>): seq<Scored> {
    if s == [] || !Before(s[0], x) then [x] + s else [s[0]] + Placed(x, s[1..])
  }

  /** The stable sort by score, then name. */
  function Ranked(s: seq<Scored>): seq<Scored> {
    if s == [] then [] else Placed(s[0], Ranked(s[1..]))
  }

  function SelectTopN(s: seq<Scored>, n: int): seq<Scored> {
    var ranked := Ranked(s);
    if n <= 0 then [] else if n < |ranked| then ranked[..n] else ranked
  }

  /** The first of the best candidates. */
  function SelectBest(s: seq<Scored>): Option<Scored> {
    if s == [] then None
    else
      var best := SelectBest(s[1..]);
      if best.Some? && Before(best.value, s[0]) then best else Some(s[0])
  }

  predicate UniqueNames(s: seq<Scored>) {
    forall i, k | 0 <= i < k < |s| :: s[i].candidate.name != s[k].candidate.name
  }

  /** Every member is strictly better than every later one. */
  predicate InRank(s: seq<Scored>) {
    forall i, k | 0 <= i < k < |s| :: Before(s[i], s[k])
  }

  lemma BeforeTotal(a: Scored, b: Scored)
    requires a.candidate.name != b.candidate.name
    ensures Before(a, b) || Before(b, a)
  {
    LessTotal(a.candidate.name, b.candidate.name);
  }

  lemma BeforeStrict(a: Scored, b: Scored)
    ensures !(Before(a, b) && Before(b, a)) && !Before(a, a)
  {
    LessStrict(a.candidate.name, b.candidate.name);
  }

  lemma BeforeTrans(a: Scored, b: Scored, c: Scored)
    requires Before(a, b) && Before(b, c)
    ensures Before(a, c)
  {
    if a.score == b.score == c.score {
      LessTrans(a.candidate.name, b.candidate.name, c.candidate.name);
    }
  }

  lemma {:induction false} PlacedInRank(x: Scored, s: seq<Scored>)
    requires InRank(s) && forall y | y in s :: y.candidate.name != x.candidate.name
    ensures InRank(Placed(x, s)) && multiset(Placed(x, s)) == multiset{x} + multiset(s)
  {
    hide Before;
    if s != [] {
      assert s == [s[0]] + s[1..];
      if Before(s[0], x) {
        PlacedInRank(x, s[1..]);
        var rest := Placed(x, s[1..]);
        forall k | 0 <= k < |rest|
          ensures Before(s[0], rest[k])
        {
          assert rest[k] in multiset(rest);
        }
      } else {
        BeforeTotal(s[0], x);
        forall k | 0 <= k < |s|
          ensures Before(x, s[k])
        {
          if k > 0 {
            BeforeTrans(x, s[0], s[k]);
          }
        }
      }
    }
  }

  lemma {:induction false} RankedInRank(s: seq<Scored>)
    requires UniqueNames(s)
    ensures InRank(Ranked(s)) && multiset(Ranked(s)) == multiset(s)
  {
    hide Before, Placed, InRank;
    if s == [] {
      assert InRank([]) by { EmptyInRank(); }
    } else {
      RankedInRank(s[1..]);
      forall y | y in Ranked(s[1..])
        ensures y.candidate.name != s[0].candidate.name
      {
        assert y in multiset(s[1..]);
      }
      PlacedInRank(s[0], Ranked(s[1..]));
      assert s == [s[0]] + s[1..];
    }
  }

  lemma EmptyInRank()
    ensures InRank([])
  {
  }

  /** There is only one way to put a set of candidates in rank order. */
  lemma {:induction false} RankUnique(a: seq<Scored>, b: seq<Scored>)
    requires InRank(a) && InRank(b) && multiset(a) == multiset(b)
    ensures a == b
  {
    hide Before, InRank;
    SameSize(a, b);
    if a != [] {
      SameFirst(a, b);
      TailInRank(a);
      TailInRank(b);
      RankUnique(a[1..], b[1..]);
      assert a == [a[0]] + a[1..] && b == [b[0]] + b[1..];
    }
  }

  lemma SameFirst(a: seq<Scored>, b: seq<Scored>)
    requires InRank(a) && InRank(b) && multiset(a) == multiset(b) && a != [] && b != []
    ensures a[0] == b[0]
  {
    hide Before;
    assert a[0] in multiset(b) && b[0] in multiset(a);
    var i :| 0 <= i < |b| && b[i] == a[0];
    var k :| 0 <= k < |a| && a[k] == b[0];
    BeforeStrict(a[0], b[0]);
  }

  lemma TailInRank(a: seq<Scored>)
    requires InRank(a) && a != []
    ensures InRank(a[1..]) && multiset(a[1..]) == multiset(a) - multiset{a[0]}
  {
    hide Before;
    assert a == [a[0]] + a[1..];
  }

  /** The best one is the first of the top n, for every n. */
  lemma {:induction false} BestIsFirst(s: seq<Scored>, n: int)
    requires s != [] && n >= 1
    ensures SelectTopN(s, n) != [] && SelectBest(s) == Some(SelectTopN(s, n)[0])
  {
    RankedHead(s);
  }

  lemma {:induction false} RankedHead(s: seq<Scored>)
    requires s != []
    ensures Ranked(s) != [] && SelectBest(s) == Some(Ranked(s)[0])
  {
    if |s| > 1 {
      RankedHead(s[1..]);
    } else {
      assert s[1..] == [];
    }
  }

  // --- The promises ------------------------------------------------------------------------------------------------------

  predicate SameValues(values: seq<Option<real>>, values': seq<Option<real>>) {
    && (forall v | v in values :: v in values')
    && (forall v | v in values' :: v in values)
  }

  lemma NormalizedSame(v: Option<real>, values: seq<Option<real>>, values': seq<Option<real>>, spread: real)
    requires SameValues(values, values') && spread > 0.0
    ensures Normalized(v, values, spread) == Normalized(v, values', spread)
  {
  }

  lemma SlownessSame(v: Option<real>, speeds: seq<Option<real>>, speeds': seq<Option<real>>)
    requires SameValues(speeds, speeds')
    ensures SlownessOf(v, speeds) == SlownessOf(v, speeds')
  {
    hide Measured, Least, Greatest;
    SameElements(Measured(speeds), Measured(speeds'));
  }

  lemma SameElements(s: seq<real>, s': seq<real>)
    requires (forall x | x in s :: x in s') && forall x | x in s' :: x in s
    ensures s == [] <==> s' == []
    ensures Least(s) == Least(s') && Greatest(s) == Greatest(s')
  {
    if s != [] {
      var x := s[0];
      assert x in s && x in s';
    }
    if s' != [] {
      var x := s'[0];
      assert x in s' && x in s;
    }
  }

  predicate UniquePool(pool: seq<Candidate>) {
    forall i, k | 0 <= i < k < |pool| :: pool[i].name != pool[k].name
  }

  /** One candidate's score in a pool. */
  function ScoreIn(c: Candidate, pool: seq<Candidate>, w: Weights, sqrt: real -> real): real
    requires SpreadsPositive(w)
  {
    w.alpha * Normalized(c.load, Loads(pool), w.loadSpread) - w.beta * Reliable(c, w, sqrt)
    + w.gamma * Normalized(c.rtt, Rtts(pool), w.rttSpread) + w.delta * SlownessOf(c.speed, Speeds(pool))
  }

  lemma ScoresAre(pool: seq<Candidate>, w: Weights, sqrt: real -> real)
    requires SpreadsPositive(w)
    ensures var s := ScoreCandidates(pool, w, sqrt);
      s.Some? && |s.value| == |pool| && forall i {:trigger s.value[i]} | 0 <= i < |pool| ::
          s.value[i] == Scored(pool[i], ScoreIn(pool[i], pool, w, sqrt))
  {
    hide Normalized, SlownessOf, Reliable;
  }

  /** A candidate's score does not depend on the order of the pool. */
  lemma ScoreOrderFree(c: Candidate, pool: seq<Candidate>, pool': seq<Candidate>, w: Weights, sqrt: real -> real)
    requires SpreadsPositive(w) && multiset(pool) == multiset(pool')
    ensures ScoreIn(c, pool, w, sqrt) == ScoreIn(c, pool', w, sqrt)
  {
    hide Reliable, SameValues, Normalized, SlownessOf, Loads, Rtts, Speeds;
    FieldsKept(pool, pool');
    NormalizedSame(c.load, Loads(pool), Loads(pool'), w.loadSpread);
    NormalizedSame(c.rtt, Rtts(pool), Rtts(pool'), w.rttSpread);
    SlownessSame(c.speed, Speeds(pool), Speeds(pool'));
  }

  lemma FieldsKept(pool: seq<Candidate>, pool': seq<Candidate>)
    requires multiset(pool) == multiset(pool')
    ensures SameValues(Loads(pool), Loads(pool')) && SameValues(Rtts(pool), Rtts(pool'))
        && SameValues(Speeds(pool), Speeds(pool'))
  {
    FieldsIn(pool, pool');
    FieldsIn(pool', pool);
  }

  lemma FieldsIn(pool: seq<Candidate>, pool': seq<Candidate>)
    requires multiset(pool) == multiset(pool')
    ensures forall v | v in Loads(pool) :: v in Loads(pool')
    ensures forall v | v in Rtts(pool) :: v in Rtts(pool')
    ensures forall v | v in Speeds(pool) :: v in Speeds(pool')
  {
    forall i | 0 <= i < |pool|
      ensures pool[i].load in Loads(pool') && pool[i].rtt in Rtts(pool') && pool[i].speed in Speeds(pool')
    {
      assert pool[i] in multiset(pool');
      var k :| 0 <= k < |pool'| && pool'[k] == pool[i];
      assert Loads(pool')[k] == pool[i].load && Rtts(pool')[k] == pool[i].rtt && Speeds(pool')[k] == pool[i].speed;
    }
  }

  /** Scoring every member of a list with one scoring function. */
  function ScoreAll(list: seq<Candidate>, pool: seq<Candidate>, w: Weights, sqrt: real -> real): seq<Scored>
    requires SpreadsPositive(w)
  {
    if list == [] then []
    else ScoreAll(list[..|list| - 1], pool, w, sqrt) + [Scored(list[|list| - 1], ScoreIn(list[|list| - 1], pool, w, sqrt))]
  }

  lemma {:induction false} ScoreAllIs(list: seq<Candidate>, pool: seq<Candidate>, w: Weights, sqrt: real -> real)
    requires SpreadsPositive(w)
    ensures |ScoreAll(list, pool, w, sqrt)| == |list|
    ensures forall i | 0 <= i < |list| ::
              ScoreAll(list, pool, w, sqrt)[i] == Scored(list[i], ScoreIn(list[i], pool, w, sqrt))
    decreases |list|
  {
    hide ScoreIn;
    if list != [] {
      ScoreAllIs(list[..|list| - 1], pool, w, sqrt);
    }
  }

  lemma {:induction false} ScoreAllCount(list: seq<Candidate>, pool: seq<Candidate>, w: Weights, sqrt: real -> real,
      x: Scored)
    requires SpreadsPositive(w)
    ensures multiset(ScoreAll(list, pool, w, sqrt))[x]
            == if x.score == ScoreIn(x.candidate, pool, w, sqrt) then multiset(list)[x.candidate] else 0
    decreases |list|
  {
    hide ScoreIn;
    if list != [] {
      var init, last := list[..|list| - 1], list[|list| - 1];
      assert list == init + [last];
      ScoreAllCount(init, pool, w, sqrt, x);
    }
  }

  lemma SameScores(pool: seq<Candidate>, pool': seq<Candidate>, w: Weights, sqrt: real -> real)
    requires SpreadsPositive(w) && multiset(pool) == multiset(pool')
    ensures multiset(ScoreAll(pool, pool, w, sqrt)) == multiset(ScoreAll(pool', pool', w, sqrt))
  {
    hide ScoreIn, ScoreAll;
    var a, b := ScoreAll(pool, pool, w, sqrt), ScoreAll(pool', pool', w, sqrt);
    forall x: Scored
      ensures multiset(a)[x] == multiset(b)[x]
    {
      ScoreAllCount(pool, pool, w, sqrt, x);
      ScoreAllCount(pool', pool', w, sqrt, x);
      ScoreOrderFree(x.candidate, pool, pool', w, sqrt);
    }
  }

  lemma ScoresAreAll(pool: seq<Candidate>, w: Weights, sqrt: real -> real)
    requires SpreadsPositive(w)
    ensures ScoreCandidates(pool, w, sqrt) == Some(ScoreAll(pool, pool, w, sqrt))
    ensures UniquePool(pool) ==> UniqueNames(ScoreAll(pool, pool, w, sqrt))
  {
    hide ScoreIn, ScoreCandidates, ScoreAll;
    ScoresAre(pool, w, sqrt);
    ScoreAllIs(pool, pool, w, sqrt);
    assert ScoreCandidates(pool, w, sqrt).value == ScoreAll(pool, pool, w, sqrt);
  }

  /** With unique names the choice of the top n is the same for every ordering of the candidates. */
  lemma OrderIndependent(pool: seq<Candidate>, pool': seq<Candidate>, w: Weights, sqrt: real -> real, n: int)
    requires SpreadsPositive(w) && multiset(pool) == multiset(pool') && UniquePool(pool) && UniquePool(pool')
    ensures var s, s' := ScoreCandidates(pool, w, sqrt), ScoreCandidates(pool', w, sqrt);
      s.Some? && s'.Some? && SelectTopN(s.value, n) == SelectTopN(s'.value, n)
  {
    hide ScoreAll, ScoreCandidates, Ranked, UniquePool, UniqueNames;
    ScoresAreAll(pool, w, sqrt);
    ScoresAreAll(pool', w, sqrt);
    SameScores(pool, pool', w, sqrt);
    var a, b := ScoreAll(pool, pool, w, sqrt), ScoreAll(pool', pool', w, sqrt);
    RankedInRank(a);
    RankedInRank(b);
    RankUnique(Ranked(a), Ranked(b));
  }

  /** How far a reading can count against one node and for another: no further than their raw gap over the
      significant spread, nor than the whole scale; not at all against a node when the other is unmeasured. */
  function Gap(v: Option<real>, u: Option<real>, spread: real): real
    requires spread > 0.0
  {
    if u == None then 0.0
    else if v == None then 1.0
    else Reliability.Smaller(1.0, Distance(v.value, u.value) / spread)
  }

  lemma GapBounds(v: Option<real>, u: Option<real>, values: seq<Option<real>>, spread: real)
    requires spread > 0.0 && v in values && u in values
    ensures Normalized(v, values, spread) - Normalized(u, values, spread) <= Gap(v, u, spread)
  {
    hide Normalized;
    NormalizedRange(v, values, spread);
    NormalizedRange(u, values, spread);
    if v.Some? && u.Some? {
      NormalizedGap(v.value, u.value, values, spread);
    } else if u == None {
      NormalizedUnknown(values, spread);
    }
  }

  lemma NormalizedUnknown(values: seq<Option<real>>, spread: real)
    requires spread > 0.0
    ensures Normalized(None, values, spread) == 1.0
  {
  }

  /** Jitter cannot outvote reliability: when the reliability term favours `a` over `b` by more than the
      weighted gaps in load and latency and the weighted gap in slowness, `a` scores lower, whatever of the
      two was measured. */
  lemma JitterCannotOutvote(a: Candidate, b: Candidate, pool: seq<Candidate>, w: Weights, sqrt: real -> real)
    requires SpreadsPositive(w) && w.alpha >= 0.0 && w.gamma >= 0.0 && a in pool && b in pool
    requires w.beta * (Reliable(a, w, sqrt) - Reliable(b, w, sqrt))
             > w.alpha * Gap(a.load, b.load, w.loadSpread) + w.gamma * Gap(a.rtt, b.rtt, w.rttSpread)
               + w.delta * (SlownessOf(a.speed, Speeds(pool)) - SlownessOf(b.speed, Speeds(pool)))
    ensures ScoreIn(a, pool, w, sqrt) < ScoreIn(b, pool, w, sqrt)
  {
    hide Reliable, Normalized, SlownessOf, Gap;
    InPool(pool, a);
    InPool(pool, b);
    GapBounds(a.load, b.load, Loads(pool), w.loadSpread);
    GapBounds(a.rtt, b.rtt, Rtts(pool), w.rttSpread);
    var la, lb := Normalized(a.load, Loads(pool), w.loadSpread), Normalized(b.load, Loads(pool), w.loadSpread);
    var da, db := Normalized(a.rtt, Rtts(pool), w.rttSpread), Normalized(b.rtt, Rtts(pool), w.rttSpread);
    Reliability.Multiply(w.alpha, Gap(a.load, b.load, w.loadSpread) - (la - lb));
    Reliability.Multiply(w.gamma, Gap(a.rtt, b.rtt, w.rttSpread) - (da - db));
  }

  lemma InPool(pool: seq<Candidate>, c: Candidate)
    requires c in pool
    ensures c.load in Loads(pool) && c.rtt in Rtts(pool) && c.speed in Speeds(pool)
  {
    var k :| 0 <= k < |pool| && pool[k] == c;
    assert Loads(pool)[k] == c.load && Rtts(pool)[k] == c.rtt && Speeds(pool)[k] == c.speed;
  }

  /** And the one that scores lower is never passed over for the other: whoever is chosen among the top n,
      everyone strictly better is chosen too, and earlier. */
  lemma BetterComesFirst(s: seq<Scored>, n: int, a: Scored, k: nat)
    requires UniqueNames(s) && a in s && k < |SelectTopN(s, n)| && Before(a, SelectTopN(s, n)[k])
    ensures exists i :: 0 <= i < k && SelectTopN(s, n)[i] == a
  {
    hide Before, Ranked;
    RankedInRank(s);
    var ranked := Ranked(s);
    assert a in multiset(s);
    var i :| 0 <= i < |ranked| && ranked[i] == a;
    BeforeStrict(a, ranked[k]);
    assert i < k;
    assert SelectTopN(s, n)[i] == a;
  }

  /** Of two members of a pool, the one that scores lower stands before the other in every top n. */
  lemma LowerComesFirst(pool: seq<Candidate>, w: Weights, sqrt: real -> real, n: int, a: Candidate, b: Candidate, k: nat)
    requires SpreadsPositive(w) && UniquePool(pool) && a in pool
    requires ScoreIn(a, pool, w, sqrt) < ScoreIn(b, pool, w, sqrt)
    requires var s := ScoreCandidates(pool, w, sqrt);
      s.Some? && k < |SelectTopN(s.value, n)| && SelectTopN(s.value, n)[k].candidate == b
    ensures b in pool
    ensures var top := SelectTopN(ScoreCandidates(pool, w, sqrt).value, n);
      exists i :: 0 <= i < k && top[i].candidate == a
  {
    hide ScoreIn, ScoreCandidates, Ranked, ScoreAll;
    ScoresAreAll(pool, w, sqrt);
    ScoreAllIs(pool, pool, w, sqrt);
    var s := ScoreAll(pool, pool, w, sqrt);
    var at :| 0 <= at < |pool| && pool[at] == a;
    assert s[at] in s && s[at] == Scored(a, ScoreIn(a, pool, w, sqrt));
    ChosenIsScored(s, n, k);
    var m :| 0 <= m < |s| && s[m] == SelectTopN(s, n)[k];
    assert s[m] == Scored(pool[m], ScoreIn(pool[m], pool, w, sqrt)) && pool[m] == b;
    BetterComesFirst(s, n, s[at], k);
  }

  /** Put together: wherever the less reliable `b` stands in any top n, the more reliable `a` stands before it. */
  lemma UnreliableNeverAhead(pool: seq<Candidate>, w: Weights, sqrt: real -> real, n: int, a: Candidate,
      b: Candidate, k: nat)
    requires SpreadsPositive(w) && w.alpha >= 0.0 && w.gamma >= 0.0 && UniquePool(pool) && a in pool && b in pool
    requires w.beta * (Reliable(a, w, sqrt) - Reliable(b, w, sqrt))
             > w.alpha * Gap(a.load, b.load, w.loadSpread) + w.gamma * Gap(a.rtt, b.rtt, w.rttSpread)
               + w.delta * (SlownessOf(a.speed, Speeds(pool)) - SlownessOf(b.speed, Speeds(pool)))
    requires var s := ScoreCandidates(pool, w, sqrt);
      s.Some? && k < |SelectTopN(s.value, n)| && SelectTopN(s.value, n)[k].candidate == b
    ensures var top := SelectTopN(ScoreCandidates(pool, w, sqrt).value, n);
      exists i :: 0 <= i < k && top[i].candidate == a
  {
    hide ScoreIn, ScoreCandidates, Ranked, Reliable, SlownessOf, Gap, ScoreAll;
    JitterCannotOutvote(a, b, pool, w, sqrt);
    LowerComesFirst(pool, w, sqrt, n, a, b, k);
  }

  lemma ChosenIsScored(s: seq<Scored>, n: int, k: nat)
    requires UniqueNames(s) && k < |SelectTopN(s, n)|
    ensures SelectTopN(s, n)[k] in s
  {
    hide Ranked;
    RankedInRank(s);
    assert SelectTopN(s, n)[k] == Ranked(s)[k];
    assert Ranked(s)[k] in multiset(s);
  }
}
