/** How the training examples are dealt out to the ranks of a cohort and cut into batches (trainer/train.py). */
module Sharding {
  import opened Arithmetic

  // --- Sharding ----------------------------------------------------------------------------------------------

  /** `s[start::step]`. */
  function Every<T>(s: seq<T>, start: nat, step: nat): seq<T>
    requires 0 < step
    decreases |s| - start
  {
    if start >= |s| then [] else [s[start]] + Every(s, start + step, step)
  }

  /** How many examples an epoch's order is stretched to: the next multiple of the world size. */
  function Total(n: nat, world: nat): nat
    requires 0 < world
  {
    Ceiling(n, world) * world
  }

  /** How many examples are repeated from the front; a slice cannot take more than there are. */
  function Extra(n: nat, world: nat): nat
    requires 0 < world
  {
    if Total(n, world) < n then 0 else if Total(n, world) - n < n then Total(n, world) - n else n
  }

  function Padded<T>(order: seq<T>, world: nat): seq<T>
    requires 0 < world
  {
    order + order[..Extra(|order|, world)]
  }

  /** The examples of one rank, in the order it sees them. */
  function Shard<T>(order: seq<T>, rank: nat, world: nat): seq<T>
    requires rank < world
  {
    if world > 1 then Every(Padded(order, world), rank, world) else order
  }

  lemma TotalRange(n: nat, world: nat)
    requires 0 < world
    ensures n <= Total(n, world) < n + world
  {
  }

  lemma {:induction false} EveryLength<T>(s: seq<T>, start: nat, step: nat)
    requires 0 < step
    ensures |Every(s, start, step)| == if start >= |s| then 0 else (|s| - start - 1) / step + 1
    decreases |s| - start
  {
    if start < |s| {
      EveryLength(s, start + step, step);
      var left := |s| - start - 1;
      if left < step {
        Divide(left, step, 0, left);
      } else {
        var q, r := (left - step) / step, (left - step) % step;
        assert left - step == q * step + r;
        Divide(left, step, q + 1, r);
      }
    }
  }

  /** Dealing `rounds` full rounds gives every rank one example a round. */
  lemma FullRounds<T>(s: seq<T>, rank: nat, world: nat, rounds: nat)
    requires rank < world && |s| == rounds * world
    ensures |Every(s, rank, world)| == rounds
  {
    EveryLength(s, rank, world);
    if rounds > 0 {
      AtLeast(rounds, world);
      assert |s| - rank - 1 == (rounds - 1) * world + (world - 1 - rank);
      Divide(|s| - rank - 1, world, rounds - 1, world - 1 - rank);
    }
  }

  lemma CeilingOfSmall(n: nat, world: nat)
    requires 0 < n < world
    ensures Ceiling(n, world) == 1
  {
    Divide(n + world - 1, world, 1, n - 1);
  }

  /** When the order, repeated from the front, reaches the next multiple of the world size: as long as the
      ranks are at most twice as many as the examples. */
  lemma PaddedLength<T>(order: seq<T>, world: nat)
    requires 0 < world
    ensures if |order| == 0 || world <= 2 * |order|
            then |Padded(order, world)| == Total(|order|, world)
            else |Padded(order, world)| == 2 * |order|
  {
    var n := |order|;
    TotalRange(n, world);
    if n == 0 {
      CeilingZero(world);
    } else if n < world {
      CeilingOfSmall(n, world);
    }
  }

  /** Every rank gets exactly ceil(n / world) examples, on every rank, if and only if there are no examples
      at all or at most twice as many ranks as examples. Otherwise the last ranks get none. */
  lemma EqualShards<T>(order: seq<T>, world: nat)
    requires 0 < world
    ensures (forall rank | 0 <= rank < world :: |Shard(order, rank, world)| == Ceiling(|order|, world))
            <==> |order| == 0 || world <= 2 * |order|
  {
    var n := |order|;
    PaddedLength(order, world);
    if world == 1 {
      Divide(n, 1, n, 0);
    } else if n == 0 || world <= 2 * n {
      forall rank | 0 <= rank < world
        ensures |Shard(order, rank, world)| == Ceiling(n, world)
      {
        FullRounds(Padded(order, world), rank, world, Ceiling(n, world));
      }
    } else {
      CeilingOfSmall(n, world);
      EveryLength(Padded(order, world), world - 1, world);
      assert |Shard(order, world - 1, world)| == 0;
    }
  }

  lemma {:induction false} EveryAt<T>(s: seq<T>, start: nat, step: nat, i: nat)
    requires 0 < step && start + i * step < |s|
    ensures i < |Every(s, start, step)| && Every(s, start, step)[i] == s[start + i * step]
    decreases i
  {
    if i > 0 {
      assert i * step == step + (i - 1) * step;
      AtLeast(i, step);
      EveryAt(s, start + step, step, i - 1);
    }
  }

  /** Which example a rank sees when: its i-th is the one at place rank + i * world of the order, the places past
      the end of which start over from the front; and it sees as many as there are such places. */
  lemma ShardAt<T>(order: seq<T>, rank: nat, world: nat, i: nat)
    requires 1 < world && rank < world && order != []
    ensures var at, shard := rank + i * world, Shard(order, rank, world);
      && (i < |shard| <==> at < |order| + Extra(|order|, world))
      && (i < |shard| ==> shard[i] == if at < |order| then order[at] else order[at - |order|])
  {
    var at, padded := rank + i * world, Padded(order, world);
    assert |padded| == |order| + Extra(|order|, world);
    EveryLength(padded, rank, world);
    if at < |padded| {
      EveryAt(padded, rank, world, i);
    } else if rank < |padded| {
      RoundsBelow(|padded| - rank - 1, i, world);
    }
  }

  lemma RoundsBelow(left: nat, i: nat, world: nat)
    requires 0 < world
    ensures i <= left / world ==> i * world <= left
  {
    var q, r := left / world, left % world;
    assert left == q * world + r;
    if i <= q {
      assert q * world == i * world + (q - i) * world;
    }
  }

  // --- What is served ------------------------------------------------------------------------------------------

  lemma SameRemainder(a: nat, b: nat, w: nat)
    requires 0 < w && a < b && a % w == b % w
    ensures a + w <= b
  {
    var p, q, m := a / w, b / w, a % w;
    assert a == p * w + m && b == q * w + m;
    assert (q - p) * w == q * w - p * w && (p - q) * w == p * w - q * w;
    if q > p {
      AtLeast(q - p, w);
    } else if q < p {
      AtLeast(p - q, w);
    }
  }

  lemma NextRemainder(a: nat, w: nat)
    requires 0 < w
    ensures (a + w) % w == a % w
  {
    var p, m := a / w, a % w;
    assert a == p * w + m;
    Divide(a + w, w, p + 1, m);
    assert a + w == (a + w) / w * w + (a + w) % w;
    assert (p + 1) * w == p * w + w;
  }

  /** One more example at the end is dealt to the rank its position leaves over. */
  lemma {:induction false} EverySnoc<T>(s: seq<T>, x: T, start: nat, step: nat)
    requires 0 < step
    ensures Every(s + [x], start, step)
            == Every(s, start, step) + if start <= |s| && |s| % step == start % step then [x] else []
    decreases |s| - start
  {
    if start < |s| {
      EverySnoc(s, x, start + step, step);
      NextRemainder(start, step);
      if |s| % step == start % step {
        SameRemainder(start, |s|, step);
      }
    } else if start == |s| {
      assert Every(s + [x], start + step, step) == [];
    }
  }

  /** Everything the first `ranks` ranks are dealt from `s`. */
  ghost function Dealt<T>(s: seq<T>, world: nat, ranks: nat): multiset<T>
    requires 0 < world
  {
    if ranks == 0 then multiset{} else Dealt(s, world, ranks - 1) + multiset(Every(s, ranks - 1, world))
  }

  lemma DealtStep<T>(s: seq<T>, world: nat, ranks: nat)
    requires 0 < world
    ensures ranks == 0 ==> Dealt(s, world, ranks) == multiset{}
    ensures ranks > 0 ==> Dealt(s, world, ranks) == Dealt(s, world, ranks - 1) + multiset(Every(s, ranks - 1, world))
  {
  }

  lemma {:induction false} DealtSnoc<T>(s: seq<T>, x: T, world: nat, ranks: nat)
    requires 0 < world && ranks <= world
    ensures Dealt(s + [x], world, ranks) == Dealt(s, world, ranks) + if |s| % world < ranks then multiset{x} else multiset{}
    decreases ranks
  {
    hide *;
    DealtStep(s, world, ranks);
    DealtStep(s + [x], world, ranks);
    if ranks > 0 {
      DealtSnoc(s, x, world, ranks - 1);
      EverySnoc(s, x, ranks - 1, world);
      Turn(|s|, ranks - 1, world);
      var turn := |s| % world;
      DealOne(Dealt(s, world, ranks - 1), Dealt(s + [x], world, ranks - 1), Every(s, ranks - 1, world),
              Every(s + [x], ranks - 1, world), x, turn < ranks - 1, turn == ranks - 1);
    }
  }

  lemma DealOne<T>(others: multiset<T>, others': multiset<T>, mine: seq<T>, mine': seq<T>, x: T, theirs: bool, ours: bool)
    requires others' == others + if theirs then multiset{x} else multiset{}
    requires mine' == mine + (if ours then [x] else []) && !(theirs && ours)
    ensures others' + multiset(mine') == others + multiset(mine) + if theirs || ours then multiset{x} else multiset{}
  {
    assert mine + [] == mine;
  }

  lemma Turn(n: nat, rank: nat, world: nat)
    requires rank < world
    ensures rank <= n && n % world == rank % world <==> n % world == rank
  {
  }

  /** Dealing loses nothing and makes nothing up. */
  lemma {:induction false} DealtAll<T>(s: seq<T>, world: nat)
    requires 0 < world
    ensures Dealt(s, world, world) == multiset(s)
    decreases |s|
  {
    if s == [] {
      DealtNone<T>(world, world);
    } else {
      var init, last := s[..|s| - 1], s[|s| - 1];
      assert s == init + [last];
      DealtAll(init, world);
      DealtSnoc(init, last, world, world);
    }
  }

  lemma {:induction false} DealtNone<T>(world: nat, ranks: nat)
    requires 0 < world
    ensures Dealt<T>([], world, ranks) == multiset{}
    decreases ranks
  {
    if ranks > 0 {
      DealtNone<T>(world, ranks - 1);
    }
  }

  /** Everything the whole cohort is served in one epoch. */
  ghost function Served<T>(order: seq<T>, world: nat, ranks: nat): multiset<T>
    requires ranks <= world
  {
    if ranks == 0 then multiset{} else Served(order, world, ranks - 1) + multiset(Shard(order, ranks - 1, world))
  }

  lemma {:induction false} ServedIsDealt<T>(order: seq<T>, world: nat, ranks: nat)
    requires ranks <= world && 1 < world
    ensures Served(order, world, ranks) == Dealt(Padded(order, world), world, ranks)
    decreases ranks
  {
    hide Every, Padded;
    if ranks > 0 {
      ServedIsDealt(order, world, ranks - 1);
    }
  }

  /** One epoch over all ranks serves the whole order, and its first few examples a second time. */
  lemma ServedOnce<T>(order: seq<T>, world: nat)
    requires 0 < world
    ensures Extra(|order|, world) < world && Extra(|order|, world) <= |order|
    ensures Served(order, world, world) == multiset(order) + multiset(order[..Extra(|order|, world)])
    ensures world <= 2 * |order| ==> Extra(|order|, world) == Total(|order|, world) - |order|
  {
    var n := |order|;
    TotalRange(n, world);
    PaddedLength(order, world);
    if world == 1 {
      Divide(n, 1, n, 0);
      assert Served(order, 1, 0) == multiset{};
      assert order[..0] == [];
    } else {
      ServedIsDealt(order, world, world);
      DealtAll(Padded(order, world), world);
    }
  }

  lemma {:induction false} OnceEach<T>(s: seq<T>, x: T)
    requires forall i, k | 0 <= i < k < |s| :: s[i] != s[k]
    ensures multiset(s)[x] == if x in s then 1 else 0
    decreases |s|
  {
    if s != [] {
      var init, last := s[..|s| - 1], s[|s| - 1];
      assert s == init + [last];
      OnceEach(init, x);
      assert last !in init;
    }
  }

  /** Over an order without repeats every example is served once or twice, twice exactly when it is among
      the first ones, of which there are fewer than ranks. */
  lemma NoneLeftOut<T>(order: seq<T>, world: nat, x: T)
    requires 0 < world && forall i, k | 0 <= i < k < |order| :: order[i] != order[k]
    ensures x in order ==> Served(order, world, world)[x] == if x in order[..Extra(|order|, world)] then 2 else 1
    ensures x !in order ==> Served(order, world, world)[x] == 0
    ensures |set y | y in order[..Extra(|order|, world)]| == Extra(|order|, world) < world
  {
    ServedOnce(order, world);
    var front := order[..Extra(|order|, world)];
    OnceEach(order, x);
    OnceEach(front, x);
    DistinctCount(front);
    assert x in front ==> x in order;
  }

  lemma {:induction false} DistinctCount<T>(s: seq<T>)
    requires forall i, k | 0 <= i < k < |s| :: s[i] != s[k]
    ensures |set y | y in s| == |s|
    decreases |s|
  {
    if s != [] {
      var init, last := s[..|s| - 1], s[|s| - 1];
      assert s == init + [last];
      DistinctCount(init);
      assert (set y | y in s) == (set y | y in init) + {last};
    }
  }

  // --- Batches ---------------------------------------------------------------------------------------------------

  function Least(a: nat, b: nat): nat {
    if a < b then a else b
  }

  /** The batches of a shard, laid end to end. */
  function Joined<T>(batches: seq<seq<T>>): seq<T> {
    if batches == [] then [] else Joined(batches[..|batches| - 1]) + batches[|batches| - 1]
  }

  /** What `len()` announces, on every rank. */
  function Length(n: nat, world: nat, batchSize: nat): nat
    requires 0 < world && 0 < batchSize
  {
    Ceiling(Ceiling(n, world), batchSize)
  }

  /** The batches of one rank's epoch: consecutive cuts of its shard, full ones first, none empty. */
  method Batches<T>(order: seq<T>, rank: nat, world: nat, batchSize: nat) returns (batches: seq<seq<T>>)
    requires rank < world && 0 < batchSize
    ensures Joined(batches) == Shard(order, rank, world)
    ensures |batches| == Ceiling(|Shard(order, rank, world)|, batchSize)
    ensures forall b | b in batches :: 0 < |b| <= batchSize
    ensures forall i | 0 <= i < |batches| - 1 :: |batches[i]| == batchSize
    ensures |order| == 0 || world <= 2 * |order| ==> |batches| == Length(|order|, world, batchSize)
  {
    hide Shard, Ceiling;
    var shard := Shard(order, rank, world);
    batches := [];
    var start := 0;
    CeilingZero(batchSize);
    while start < |shard|
      invariant 0 <= start && start % batchSize == 0
      invariant Joined(batches) == shard[..Least(start, |shard|)]
      invariant |batches| * batchSize == start
      invariant start < |shard| + batchSize
      invariant forall b | b in batches :: 0 < |b| <= batchSize
      invariant forall i | 0 <= i < |batches| :: start <= |shard| || i < |batches| - 1 ==> |batches[i]| == batchSize
      decreases |shard| - start
    {
      NextRemainder(start, batchSize);
      var batch := shard[start..Least(start + batchSize, |shard|)];
      assert shard[..Least(start + batchSize, |shard|)] == shard[..start] + batch;
      assert (|batches| + 1) * batchSize == |batches| * batchSize + batchSize;
      batches := batches + [batch];
      start := start + batchSize;
    }
    assert shard[..|shard|] == shard;
    BatchCount(|batches|, |shard|, batchSize);
    EqualShards(order, world);
  }

  lemma BatchCount(k: nat, n: nat, d: nat)
    requires 0 < d && n <= k * d < n + d
    ensures k == Ceiling(n, d)
  {
    Divide(n + d - 1, d, k, n + d - 1 - k * d);
  }

  /** The number of batches is the announced length on every rank, if and only if there are no examples or
      at most twice as many ranks as examples. */
  lemma LengthIsRight<T>(order: seq<T>, world: nat, batchSize: nat)
    requires 0 < world && 0 < batchSize
    ensures (forall rank | 0 <= rank < world ::
               Ceiling(|Shard(order, rank, world)|, batchSize) == Length(|order|, world, batchSize))
            <==> |order| == 0 || world <= 2 * |order|
  {
    var n := |order|;
    EqualShards(order, world);
    if !(n == 0 || world <= 2 * n) {
      CeilingOfSmall(n, world);
      PaddedLength(order, world);
      EveryLength(Padded(order, world), world - 1, world);
      assert |Shard(order, world - 1, world)| == 0;
      CeilingZero(batchSize);
      Divide(batchSize, batchSize, 1, 0);
    }
  }

  lemma {:induction false} SortedJoin<T>(batches: seq<seq<T>>, sorted: seq<seq<T>>)
    requires |sorted| == |batches| && forall i | 0 <= i < |batches| :: multiset(sorted[i]) == multiset(batches[i])
    ensures multiset(Joined(sorted)) == multiset(Joined(batches))
    decreases |batches|
  {
    if batches != [] {
      SortedJoin(batches[..|batches| - 1], sorted[..|sorted| - 1]);
    }
  }

  predicate IsSorted(s: seq<nat>) {
    forall i, k | 0 <= i < k < |s| :: s[i] <= s[k]
  }

  function Inserted(x: nat, s: seq<nat>): seq<nat> {
    if s == [] || x <= s[0] then [x] + s else [s[0]] + Inserted(x, s[1..])
  }

  function Sorted(s: seq<nat>): seq<nat> {
    if s == [] then [] else Inserted(s[0], Sorted(s[1..]))
  }

  lemma {:induction false} InsertedSorted(x: nat, s: seq<nat>)
    requires IsSorted(s)
    ensures IsSorted(Inserted(x, s)) && multiset(Inserted(x, s)) == multiset(s) + multiset{x}
  {
    if s == [] || x <= s[0] {
      FirstInserted(x, s);
    } else {
      hide Inserted, IsSorted;
      TailSorted(s);
      InsertedSorted(x, s[1..]);
      InsertedLater(x, s);
      AtLeastFirst(s, x, Inserted(x, s[1..]));
    }
  }

  lemma FirstInserted(x: nat, s: seq<nat>)
    requires IsSorted(s) && (s == [] || x <= s[0])
    ensures Inserted(x, s) == [x] + s && IsSorted([x] + s) && multiset([x] + s) == multiset(s) + multiset{x}
  {
  }

  lemma InsertedLater(x: nat, s: seq<nat>)
    requires s != [] && x > s[0]
    ensures Inserted(x, s) == [s[0]] + Inserted(x, s[1..])
    ensures multiset(Inserted(x, s)) == multiset{s[0]} + multiset(Inserted(x, s[1..]))
    ensures multiset(s) == multiset{s[0]} + multiset(s[1..])
  {
    hide Inserted;
    assert Inserted(x, s) == [s[0]] + Inserted(x, s[1..]) by { InsertedStep(x, s); }
    assert s == [s[0]] + s[1..];
  }

  lemma InsertedStep(x: nat, s: seq<nat>)
    requires s != [] && x > s[0]
    ensures Inserted(x, s) == [s[0]] + Inserted(x, s[1..])
  {
  }

  lemma TailSorted(s: seq<nat>)
    requires IsSorted(s) && s != []
    ensures IsSorted(s[1..])
  {
  }

  lemma AtLeastFirst(s: seq<nat>, x: nat, rest: seq<nat>)
    requires IsSorted(s) && s != [] && x > s[0] && IsSorted(rest)
    requires multiset(rest) == multiset(s[1..]) + multiset{x}
    ensures IsSorted([s[0]] + rest)
  {
    forall k | 0 <= k < |rest|
      ensures s[0] <= rest[k]
    {
      assert rest[k] in multiset(rest);
    }
  }

  lemma {:induction false} SortedIsSorted(s: seq<nat>)
    ensures IsSorted(Sorted(s)) && multiset(Sorted(s)) == multiset(s)
  {
    if s != [] {
      SortedIsSorted(s[1..]);
      InsertedSorted(s[0], Sorted(s[1..]));
      assert s == [s[0]] + s[1..];
    }
  }

  /** The batches of one rank when they are gathered from the host: the same cuts of its shard, the indices
      inside each in increasing order, so that the rank is served exactly its shard. */
  method HostBatches(order: seq<nat>, rank: nat, world: nat, batchSize: nat) returns (gathered: seq<seq<nat>>)
    requires rank < world && 0 < batchSize
    ensures multiset(Joined(gathered)) == multiset(Shard(order, rank, world))
    ensures |gathered| == Ceiling(|Shard(order, rank, world)|, batchSize)
    ensures forall i | 0 <= i < |gathered| :: IsSorted(gathered[i]) && 0 < |gathered[i]| <= batchSize
    ensures forall i | 0 <= i < |gathered| - 1 :: |gathered[i]| == batchSize
  {
    hide Shard, Ceiling, Joined, Sorted, IsSorted;
    var batches := Batches(order, rank, world, batchSize);
    gathered := [];
    var i := 0;
    while i < |batches|
      invariant 0 <= i <= |batches| && |gathered| == i
      invariant forall k | 0 <= k < i ::
                  IsSorted(gathered[k]) && multiset(gathered[k]) == multiset(batches[k]) && |gathered[k]| == |batches[k]|
    {
      SortedIsSorted(batches[i]);
      SameSize(Sorted(batches[i]), batches[i]);
      gathered := gathered + [Sorted(batches[i])];
      i := i + 1;
    }
    SortedJoin(batches, gathered);
    assert forall k | 0 <= k < |batches| :: batches[k] in batches;
  }
}
