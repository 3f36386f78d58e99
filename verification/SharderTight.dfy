/**
 Graham's bound is exact: for every number of shards `m` there are files on which the greedy
 assignment reaches 4m - 1 where another one needs only 3m.
 */
module SharderTight {
  import opened Sharder

  /** Two files of each size from 2m - 1 down to m + 1, then three of size m. */
  function Family(m: nat): (counts: seq<nat>)
    requires m > 0
    ensures |counts| == 2 * m + 1 && counts[2 * m] == m
    ensures forall i :: 0 <= i < 2 * m ==> counts[i] == 2 * m - 1 - i / 2
  {
    seq<nat>(2 * m + 1, i requires 0 <= i < 2 * m + 1 => if i == 2 * m then m else 2 * m - 1 - i / 2)
  }

  /** Shard m - 1 takes the three smallest files; the others are paired largest with smallest. */
  function Pairing(m: nat): (a: seq<nat>)
    requires m > 0
    ensures Assigns(a, 2 * m + 1, m) && |a| == 2 * m + 1
    ensures forall i :: 0 <= i < 2 * m + 1 ==>
      a[i] == if i < m - 1 then i else if i < 2 * m - 2 then 2 * m - 3 - i else m - 1
  {
    seq<nat>(2 * m + 1, i requires 0 <= i < 2 * m + 1 =>
      if i < m - 1 then i else if i < 2 * m - 2 then 2 * m - 3 - i else m - 1)
  }

  /** The load that the first n files put on a shard under the pairing. */
  lemma {:induction false} PairingLoad(m: nat, n: nat, shard: nat)
    requires m > shard && n <= 2 * m + 1
    ensures Load(Family(m), Pairing(m), n, shard) ==
      if shard == m - 1 then
        (if n <= 2 * m - 2 then 0 else if n == 2 * m - 1 then m else if n == 2 * m then 2 * m else 3 * m)
      else if n <= shard then 0
      else if n <= 2 * m - 3 - shard then Family(m)[shard]
      else 3 * m
  {
    if n > 0 {
      PairingLoad(m, n - 1, shard);
    }
  }

  lemma {:induction false} FamilyTotal(m: nat, k: nat)
    requires 0 < m && k <= m
    ensures Total(Family(m), 2 * k) == k * (4 * m - 1 - k)
  {
    if k > 0 {
      FamilyTotal(m, k - 1);
      assert Family(m)[2 * k - 1] == Family(m)[2 * k - 2] == 2 * m - k;
      assert (k - 1) * (4 * m - k) + 2 * (2 * m - k) == k * (4 * m - 1 - k);
    }
  }

  /** Shard n - 1 is the first that is still empty. */
  lemma FirstEmpty(m: nat, n: nat, k: nat)
    requires 0 < n <= m && k == Lightest(Family(m), Greedy(Family(m), m, n - 1), n - 1, m)
    requires GreedyLoad(Family(m), m, n - 1, n - 1) == 0
    requires GreedyLoad(Family(m), m, n - 1, k) == if k < n - 1 then Family(m)[k] else 0
    ensures k == n - 1
  {
  }

  /** The first m files go to shards 0, 1, ..., m - 1. */
  lemma {:induction false} FirstRound(m: nat, n: nat, j: nat)
    requires j < m && n <= m
    ensures GreedyLoad(Family(m), m, n, j) == if j < n then Family(m)[j] else 0
  {
    if n > 0 {
      var k := Lightest(Family(m), Greedy(Family(m), m, n - 1), n - 1, m);
      FirstRound(m, n - 1, n - 1);
      FirstRound(m, n - 1, k);
      FirstRound(m, n - 1, j);
      FirstEmpty(m, n, k);
      GreedyLoadStep(Family(m), m, n, j);
    }
  }

  lemma {:induction false} Untouched(lo: nat, hi: nat, touched: set<nat>) returns (j: nat)
    requires lo + |touched| < hi
    ensures lo <= j < hi && j !in touched
  {
    if hi - 1 !in touched {
      j := hi - 1;
    } else {
      j := Untouched(lo, hi - 1, touched - {hi - 1});
    }
  }

  /** After n files, no shard is above 3m - 1 and the untouched ones hold their first file only. */
  ghost predicate Second(m: nat, n: nat, touched: set<nat>, j: nat)
    requires 0 < m && n <= 2 * m + 1 && j < m
  {
    && GreedyLoad(Family(m), m, n, j) <= 3 * m - 1
    && (j !in touched ==> GreedyLoad(Family(m), m, n, j) == Family(m)[j])
  }

  lemma SecondStep(m: nat, n: nat, before: set<nat>, i: nat, j: nat)
    requires 0 < m < n <= 2 * m && j < m && 2 * m - n <= i < m && i !in before
    requires Second(m, n - 1, before, i) && Second(m, n - 1, before, j)
    ensures Second(m, n, before + {Lightest(Family(m), Greedy(Family(m), m, n - 1), n - 1, m)}, j)
  {
    var f, p := Family(m), n - 1;
    var k := Lightest(f, Greedy(f, m, p), p, m);
    assert GreedyLoad(f, m, p, k) <= GreedyLoad(f, m, p, i);
    GreedyLoadStep(f, m, n, j);
  }

  /** The next m files never lift a shard above 3m - 1: some shard of one file is small enough. */
  lemma {:induction false} SecondRound(m: nat, n: nat) returns (touched: set<nat>)
    requires 0 < m <= n <= 2 * m
    ensures |touched| <= n - m && forall j :: 0 <= j < m ==> Second(m, n, touched, j)
  {
    if n == m {
      touched := {};
      forall j | 0 <= j < m ensures Second(m, n, touched, j) {
        FirstRound(m, m, j);
      }
    } else {
      var p := n - 1;
      var before := SecondRound(m, p);
      var i := Untouched(2 * m - n, m, before);
      touched := before + {Lightest(Family(m), Greedy(Family(m), m, p), p, m)};
      forall j | 0 <= j < m ensures Second(m, n, touched, j) {
        assert Second(m, p, before, i) && Second(m, p, before, j);
        SecondStep(m, n, before, i, j);
      }
    }
  }

  /** Loads of at most `v` that add up to `m * v` all equal `v`. */
  lemma {:induction false} AllAtLimit(weights: seq<nat>, a: seq<nat>, n: nat, m: nat, v: nat, k: nat)
    requires n <= |weights| && n <= |a| && k < m
    requires Within(weights, a, n, m, v) && SumLoads(weights, a, n, m) == m * v
    ensures Load(weights, a, n, k) == v
  {
    assert Within(weights, a, n, m - 1, v);
    SumAtMost(weights, a, n, m - 1, v);
    assert m * v == (m - 1) * v + v;
    if k < m - 1 {
      assert Load(weights, a, n, m - 1) <= v;
      AllAtLimit(weights, a, n, m - 1, v, k);
    }
  }

  lemma GreedyReaches(m: nat) returns (k: nat)
    requires m > 0
    ensures k < m && GreedyLoad(Family(m), m, 2 * m + 1, k) == 4 * m - 1
  {
    var f, n := Family(m), 2 * m;
    var g := Greedy(f, m, n);
    var touched := SecondRound(m, n);
    forall j | 0 <= j < m ensures Load(f, g, n, j) <= 3 * m - 1 {
      assert Second(m, n, touched, j);
    }
    FamilyTotal(m, m);
    assert 4 * m - 1 - m == 3 * m - 1;
    LoadsAddUp(f, g, n, m);
    k := Lightest(f, g, n, m);
    AllAtLimit(f, g, n, m, 3 * m - 1, k);
    GreedyLoadStep(f, m, n + 1, k);
  }

  lemma GrahamBoundIsExact(m: nat) returns (k: nat)
    requires m > 0
    ensures Descending(Family(m))
    ensures Within(Family(m), Pairing(m), 2 * m + 1, m, 3 * m)
    ensures k < m && GreedyLoad(Family(m), m, 2 * m + 1, k) == 4 * m - 1
  {
    var n := 2 * m + 1;
    forall j | 0 <= j < m ensures Load(Family(m), Pairing(m), n, j) <= 3 * m {
      PairingLoad(m, n, j);
    }
    k := GreedyReaches(m);
  }
}
