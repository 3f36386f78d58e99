/**
 Greedy assignment of test files to CI shards (scripts/ci/shard_tests.py).

 Files are sorted by descending test count and each goes to the lightest shard so far. The
 main result is Graham's bound for this rule: against any other assignment of the same files,
 the heaviest greedy shard is at most 4/3 - 1/(3m) times as heavy.

 An assignment is a sequence: file `i` is on shard `a[i]`. Sums range over the first `n` files.
 */
module Sharder {

  predicate Assigns(a: seq<nat>, n: nat, m: nat) {
    n <= |a| && forall i :: 0 <= i < n ==> a[i] < m
  }

  predicate Descending(counts: seq<nat>) {
    forall i, j :: 0 <= i < j < |counts| ==> counts[j] <= counts[i]
  }

  /** The weight that the first `n` files put on a shard. */
  function Load(weights: seq<nat>, a: seq<nat>, n: nat, shard: nat): nat
    requires n <= |weights| && n <= |a|
  {
    if n == 0 then 0 else
      Load(weights, a, n - 1, shard) + if a[n - 1] == shard then weights[n - 1] else 0
  }

  function Total(weights: seq<nat>, n: nat): nat
    requires n <= |weights|
  {
    if n == 0 then 0 else Total(weights, n - 1) + weights[n - 1]
  }

  /** The load of shards `0 .. m - 1` together. */
  function SumLoads(weights: seq<nat>, a: seq<nat>, n: nat, m: nat): nat
    requires n <= |weights| && n <= |a|
  {
    if m == 0 then 0 else SumLoads(weights, a, n, m - 1) + Load(weights, a, n, m - 1)
  }

  lemma {:induction false} SumLoadsStep(weights: seq<nat>, a: seq<nat>, n: nat, m: nat)
    requires 0 < n <= |weights| && n <= |a|
    ensures SumLoads(weights, a, n, m)
            == SumLoads(weights, a, n - 1, m) + if a[n - 1] < m then weights[n - 1] else 0
  {
    if m > 0 {
      SumLoadsStep(weights, a, n, m - 1);
    }
  }

  /** Every file is on exactly one shard: the loads of the shards add up to the total weight. */
  lemma {:induction false} LoadsAddUp(weights: seq<nat>, a: seq<nat>, n: nat, m: nat)
    requires n <= |weights| && Assigns(a, n, m)
    ensures SumLoads(weights, a, n, m) == Total(weights, n)
  {
    if n > 0 {
      LoadsAddUp(weights, a, n - 1, m);
      SumLoadsStep(weights, a, n, m);
    } else {
      NothingLoaded(weights, a, m);
    }
  }

  lemma {:induction false} NothingLoaded(weights: seq<nat>, a: seq<nat>, m: nat)
    ensures SumLoads(weights, a, 0, m) == 0
  {
    if m > 0 {
      NothingLoaded(weights, a, m - 1);
    }
  }

  lemma {:induction false} SumAtLeast(weights: seq<nat>, a: seq<nat>, n: nat, m: nat, v: nat)
    requires n <= |weights| && n <= |a|
    requires AllLoaded(weights, a, n, m, v)
    ensures m * v <= SumLoads(weights, a, n, m)
  {
    if m > 0 {
      SumAtLeast(weights, a, n, m - 1, v);
      assert m * v == (m - 1) * v + v;
    }
  }

  lemma {:induction false} SumAtMost(weights: seq<nat>, a: seq<nat>, n: nat, m: nat, v: nat)
    requires n <= |weights| && n <= |a|
    requires Within(weights, a, n, m, v)
    ensures SumLoads(weights, a, n, m) <= m * v
  {
    if m > 0 {
      SumAtMost(weights, a, n, m - 1, v);
      assert m * v == (m - 1) * v + v;
    }
  }

  /** Only the shards of the files counted matter. */
  lemma {:induction false} LoadFrame(weights: seq<nat>, a: seq<nat>, b: seq<nat>, n: nat, shard: nat)
    requires n <= |weights| && n <= |a| && n <= |b|
    requires forall i :: 0 <= i < n ==> a[i] == b[i]
    ensures Load(weights, a, n, shard) == Load(weights, b, n, shard)
  {
    if n > 0 {
      LoadFrame(weights, a, b, n - 1, shard);
    }
  }

  /** Every shard is loaded with at most (at least) `v`. */
  predicate Within(weights: seq<nat>, a: seq<nat>, n: nat, m: nat, v: nat)
    requires n <= |weights| && n <= |a|
  {
    forall j :: 0 <= j < m ==> Load(weights, a, n, j) <= v
  }

  predicate AllLoaded(weights: seq<nat>, a: seq<nat>, n: nat, m: nat, v: nat)
    requires n <= |weights| && n <= |a|
  {
    forall j :: 0 <= j < m ==> v <= Load(weights, a, n, j)
  }

  lemma WithinPrefix(weights: seq<nat>, a: seq<nat>, n: nat, m: nat, v: nat)
    requires 0 < n <= |weights| && n <= |a| && Within(weights, a, n, m, v)
    ensures Within(weights, a, n - 1, m, v)
  {
    var k := n - 1;
    forall j | 0 <= j < m ensures Load(weights, a, k, j) <= v {
      assert Load(weights, a, k, j) <= Load(weights, a, n, j);
    }
  }

  // ---------- The greedy rule ----------

  /** The first shard of least load, as `min` over the shard numbers picks it. */
  function Lightest(counts: seq<nat>, a: seq<nat>, n: nat, m: nat): (k: nat)
    requires m > 0 && n <= |counts| && n <= |a|
    ensures k < m
    ensures forall j :: 0 <= j < m ==> Load(counts, a, n, k) <= Load(counts, a, n, j)
    ensures forall j :: 0 <= j < k ==> Load(counts, a, n, k) < Load(counts, a, n, j)
  {
    if m == 1 then 0 else
      var k := Lightest(counts, a, n, m - 1);
      if Load(counts, a, n, m - 1) < Load(counts, a, n, k) then m - 1 else k
  }

  /** Where the greedy rule puts the first `n` files. */
  function Greedy(counts: seq<nat>, m: nat, n: nat): (a: seq<nat>)
    requires m > 0 && n <= |counts|
    ensures |a| == n && Assigns(a, n, m)
  {
    if n == 0 then [] else
      var before := Greedy(counts, m, n - 1);
      before + [Lightest(counts, before, n - 1, m)]
  }

  function GreedyLoad(counts: seq<nat>, m: nat, n: nat, shard: nat): nat
    requires m > 0 && n <= |counts|
  {
    Load(counts, Greedy(counts, m, n), n, shard)
  }

  /** Placing one more file adds its count to the lightest shard and changes no other. */
  lemma GreedyLoadStep(counts: seq<nat>, m: nat, n: nat, shard: nat)
    requires m > 0 && 0 < n <= |counts|
    ensures var k := Greedy(counts, m, n)[n - 1];
            && k == Lightest(counts, Greedy(counts, m, n - 1), n - 1, m)
            && GreedyLoad(counts, m, n, shard)
               == GreedyLoad(counts, m, n - 1, shard) + if shard == k then counts[n - 1] else 0
  {
    LoadFrame(counts, Greedy(counts, m, n), Greedy(counts, m, n - 1), n - 1, shard);
  }

  // ---------- Graham's bound ----------

  /** Weight 2 for a file too big to share a shard within `limit`, weight 1 for any other. */
  function Weights(counts: seq<nat>, limit: int): (ws: seq<nat>)
    ensures |ws| == |counts|
    ensures forall i :: 0 <= i < |counts| ==> ws[i] == if counts[i] > limit then 2 else 1
  {
    seq(|counts|, i requires 0 <= i < |counts| => if counts[i] > limit then 2 else 1)
  }

  /** A shard loaded beyond `limit` holds one big file or at least two files. */
  lemma {:induction false} LoadedShardWeighsTwo(
      counts: seq<nat>, a: seq<nat>, n: nat, limit: nat, shard: nat)
    requires n <= |counts| && n <= |a|
    ensures Load(counts, a, n, shard) > 0 ==> Load(Weights(counts, limit), a, n, shard) >= 1
    ensures Load(counts, a, n, shard) > limit ==> Load(Weights(counts, limit), a, n, shard) >= 2
  {
    if n > 0 {
      LoadedShardWeighsTwo(counts, a, n - 1, limit, shard);
    }
  }

  /**
   When every file exceeds a third of `M`, a shard of load at most `M` holds at most two files,
   and only one if that file is bigger than `M - q`.
   */
  lemma {:induction false} FittingShardWeighsTwo(
      counts: seq<nat>, a: seq<nat>, n: nat, q: nat, M: nat, shard: nat)
    requires n <= |counts| && n <= |a| && q <= M < 3 * q
    requires forall i :: 0 <= i < n ==> q <= counts[i]
    ensures var w := Load(Weights(counts, M - q), a, n, shard);
            var l := Load(counts, a, n, shard);
            && (w == 1 ==> l >= q) && (w == 2 ==> l > M - q) && (w >= 3 ==> l > M)
  {
    if n > 0 {
      FittingShardWeighsTwo(counts, a, n - 1, q, M, shard);
    }
  }

  /**
   If file `n` is the smallest so far and exceeds a third of `M`, and the first `n + 1` files
   can be laid out within `M`, then however the first `n` lie, some shard still has room for it
   within `M`. The proof counts weights: every shard without room weighs at least 2, every shard
   of the layout at most 2, and the layout holds one file more.
   */
  lemma LargeFileHasRoom(counts: seq<nat>, n: nat, g: seq<nat>, other: seq<nat>, m: nat, M: nat, mu: nat)
    requires n < |counts| && Descending(counts)
    requires Assigns(g, n, m) && Assigns(other, n + 1, m)
    requires Within(counts, other, n + 1, m, M)
    requires AllLoaded(counts, g, n, m, mu)
    requires 3 * counts[n] > M
    ensures mu + counts[n] <= M
  {
    var q, n1 := counts[n], n + 1;
    assert q <= Load(counts, other, n1, other[n]) <= M;
    if mu + q > M {
      var w := Weights(counts, M - q);
      forall j | 0 <= j < m ensures 2 <= Load(w, g, n, j) {
        LoadedShardWeighsTwo(counts, g, n, M - q, j);
      }
      forall j | 0 <= j < m ensures Load(w, other, n1, j) <= 2 {
        FittingShardWeighsTwo(counts, other, n1, q, M, j);
      }
      SumAtLeast(w, g, n, m, 2);
      LoadsAddUp(w, g, n, m);
      SumAtMost(w, other, n1, m, 2);
      LoadsAddUp(w, other, n1, m);
      assert false;
    }
  }

  lemma MulMono(k: nat, x: int, y: int)
    requires x <= y
    ensures k * x <= k * y
  {
  }

  lemma Thrice(m: nat, load: nat)
    ensures 3 * m * load == 3 * (m * load)
  {
  }

  lemma OvershootArithmetic(m: nat, mu: nat, q: nat, M: nat)
    requires m > 0 && 3 * q <= M && m * mu + q <= m * M
    ensures 3 * m * (mu + q) <= (4 * m - 1) * M
  {
    var a, b, c := m * mu, m * q, m * M;
    MulMono(m - 1, 3 * q, M);
    assert (m - 1) * (3 * q) == 3 * b - 3 * q;
    assert (m - 1) * M == c - M;
    assert m * (mu + q) == a + b;
    assert (4 * m - 1) * M == 4 * c - M;
    Thrice(m, mu + q);
  }

  lemma OptimalArithmetic(m: nat, load: nat, M: nat)
    requires m > 0 && load <= M
    ensures 3 * m * load <= (4 * m - 1) * M
  {
    MulMono(m, load, M);
    MulMono(M, 1, m);
    assert (4 * m - 1) * M == 4 * (m * M) - M;
    Thrice(m, load);
  }

  /** A file of at most a third of `M` overshoots the average by no more than its own size. */
  lemma SmallFileOvershoot(counts: seq<nat>, n: nat, g: seq<nat>, other: seq<nat>, m: nat, M: nat, mu: nat)
    requires m > 0 && n < |counts|
    requires Assigns(g, n, m) && Assigns(other, n + 1, m)
    requires Within(counts, other, n + 1, m, M)
    requires AllLoaded(counts, g, n, m, mu)
    requires 3 * counts[n] <= M
    ensures 3 * m * (mu + counts[n]) <= (4 * m - 1) * M
  {
    SumAtLeast(counts, g, n, m, mu);
    LoadsAddUp(counts, g, n, m);
    SumAtMost(counts, other, n + 1, m, M);
    LoadsAddUp(counts, other, n + 1, m);
    OvershootArithmetic(m, mu, counts[n], M);
  }

  /** Graham's bound on files already in descending order. */
  lemma {:induction false} GreedyBound(counts: seq<nat>, n: nat, other: seq<nat>, m: nat, M: nat, shard: nat)
    requires m > shard && n <= |counts| && Assigns(other, n, m) && Descending(counts)
    requires Within(counts, other, n, m, M)
    ensures 3 * m * GreedyLoad(counts, m, n, shard) <= (4 * m - 1) * M
  {
    if n == 0 {
      OptimalArithmetic(m, 0, M);
    } else {
      GreedyLoadStep(counts, m, n, shard);
      var g := Greedy(counts, m, n - 1);
      if shard != Lightest(counts, g, n - 1, m) {
        WithinPrefix(counts, other, n, m, M);
        GreedyBound(counts, n - 1, other, m, M, shard);
      } else {
        var mu := Load(counts, g, n - 1, shard);
        if 3 * counts[n - 1] <= M {
          SmallFileOvershoot(counts, n - 1, g, other, m, M, mu);
        } else {
          LargeFileHasRoom(counts, n - 1, g, other, m, M, mu);
          OptimalArithmetic(m, mu + counts[n - 1], M);
        }
      }
    }
  }

  /** When every file exceeds a third of `M`, the greedy assignment is as good as any. */
  lemma {:induction false} GreedyIsOptimalOnLargeFiles(
      counts: seq<nat>, n: nat, other: seq<nat>, m: nat, M: nat, shard: nat)
    requires m > shard && n <= |counts| && Assigns(other, n, m) && Descending(counts)
    requires forall i :: 0 <= i < n ==> 3 * counts[i] > M
    requires Within(counts, other, n, m, M)
    ensures GreedyLoad(counts, m, n, shard) <= M
  {
    if n > 0 {
      GreedyLoadStep(counts, m, n, shard);
      var g := Greedy(counts, m, n - 1);
      if shard != Lightest(counts, g, n - 1, m) {
        WithinPrefix(counts, other, n, m, M);
        GreedyIsOptimalOnLargeFiles(counts, n - 1, other, m, M, shard);
      } else {
        LargeFileHasRoom(counts, n - 1, g, other, m, M, Load(counts, g, n - 1, shard));
      }
    }
  }

  // ---------- Files, their order, and the script itself ----------

  datatype File = File(path: string, count: nat)

  datatype Outcome =
    | BadShardId
    | NothingCollected
    | Selected(paths: seq<string>)

  function Counts(files: seq<File>): (counts: seq<nat>)
    ensures |counts| == |files| && forall i :: 0 <= i < |files| ==> counts[i] == files[i].count
  {
    seq(|files|, i requires 0 <= i < |files| => files[i].count)
  }

  function Paths(files: seq<File>): (paths: seq<string>)
    ensures |paths| == |files| && forall i :: 0 <= i < |files| ==> paths[i] == files[i].path
  {
    seq(|files|, i requires 0 <= i < |files| => files[i].path)
  }

  /** Insertion behind every file of at least the same count, which keeps ties in their order. */
  function Insert(sorted: seq<File>, f: File): (r: seq<File>)
    ensures |r| == |sorted| + 1
  {
    var n := |sorted| - 1;
    if n < 0 || sorted[n].count >= f.count then sorted + [f]
    else Insert(sorted[..n], f) + [sorted[n]]
  }

  /** The stable descending sort by count. */
  function SortByCount(items: seq<File>): (sorted: seq<File>)
    ensures |sorted| == |items|
  {
    var n := |items| - 1;
    if n < 0 then [] else Insert(SortByCount(items[..n]), items[n])
  }

  predicate Sorted(files: seq<File>) {
    forall i, j :: 0 <= i < j < |files| ==> files[j].count <= files[i].count
  }

  lemma {:induction false} InsertSorts(sorted: seq<File>, f: File)
    requires Sorted(sorted)
    ensures Sorted(Insert(sorted, f))
    ensures Insert(sorted, f)[|sorted|] == f || (sorted != [] && Insert(sorted, f)[|sorted|] == sorted[|sorted| - 1])
  {
    var n := |sorted| - 1;
    if n >= 0 && sorted[n].count < f.count {
      InsertSorts(sorted[..n], f);
      var r := Insert(sorted[..n], f);
      assert sorted[n].count <= r[n].count;
    }
  }

  lemma {:induction false} SortSorts(items: seq<File>)
    ensures Sorted(SortByCount(items))
  {
    if items != [] {
      SortSorts(items[..|items| - 1]);
      InsertSorts(SortByCount(items[..|items| - 1]), items[|items| - 1]);
    }
  }

  /** The sum of a weight over the files of a list. */
  function SumOf(files: seq<File>, weight: File -> nat): nat {
    var n := |files| - 1;
    if n < 0 then 0 else SumOf(files[..n], weight) + weight(files[n])
  }

  lemma {:induction false} SumOfInsert(sorted: seq<File>, f: File, weight: File -> nat)
    ensures SumOf(Insert(sorted, f), weight) == SumOf(sorted, weight) + weight(f)
  {
    var n := |sorted| - 1;
    if n < 0 || sorted[n].count >= f.count {
      assert (sorted + [f])[..n + 1] == sorted;
    } else {
      SumOfInsert(sorted[..n], f, weight);
      assert (Insert(sorted[..n], f) + [sorted[n]])[..n + 1] == Insert(sorted[..n], f);
    }
  }

  /** Sorting loses and duplicates no file: every sum over the files stays the same. */
  lemma {:induction false} SortKeepsSums(items: seq<File>, weight: File -> nat)
    ensures SumOf(SortByCount(items), weight) == SumOf(items, weight)
  {
    var n := |items| - 1;
    if n >= 0 {
      SortKeepsSums(items[..n], weight);
      SumOfInsert(SortByCount(items[..n]), items[n], weight);
    }
  }

  /** What a file adds to a shard under an assignment by path; a path not assigned adds nothing. */
  function ShareOf(other: map<string, nat>, shard: nat): File -> nat {
    (f: File) => if f.path in other && other[f.path] == shard then f.count else 0
  }

  /** The load of a shard under an assignment by path, whatever the order of the files. */
  function LoadBy(files: seq<File>, other: map<string, nat>, shard: nat): nat {
    SumOf(files, ShareOf(other, shard))
  }

  /** Where an assignment by path puts each file of a list (shard `m` standing for nowhere). */
  function ShardsOf(files: seq<File>, other: map<string, nat>, m: nat): (a: seq<nat>)
    ensures |a| == |files|
  {
    seq(|files|, i requires 0 <= i < |files| => if files[i].path in other then other[files[i].path] else m)
  }

  lemma {:induction false} LoadIsLoadBy(files: seq<File>, other: map<string, nat>, m: nat, n: nat, shard: nat)
    requires n <= |files| && shard < m
    ensures Load(Counts(files), ShardsOf(files, other, m), n, shard) == LoadBy(files[..n], other, shard)
  {
    if n > 0 {
      LoadIsLoadBy(files, other, m, n - 1, shard);
      assert files[..n][..n - 1] == files[..n - 1];
    }
  }

  /** An assignment by path that puts every file on one of the `m` shards. */
  predicate Places(other: map<string, nat>, files: seq<File>, m: nat) {
    forall i :: 0 <= i < |files| ==> files[i].path in other && other[files[i].path] < m
  }

  lemma {:induction false} InsertPlaces(sorted: seq<File>, f: File, other: map<string, nat>, m: nat)
    requires Places(other, sorted + [f], m)
    ensures Places(other, Insert(sorted, f), m)
  {
    var n := |sorted| - 1;
    if n >= 0 && sorted[n].count < f.count {
      assert (sorted + [f])[n] == sorted[n] && (sorted + [f])[n + 1] == f;
      assert forall i :: 0 <= i < n ==> (sorted + [f])[i] == sorted[i];
      InsertPlaces(sorted[..n], f, other, m);
    }
  }

  lemma {:induction false} SortPlaces(items: seq<File>, other: map<string, nat>, m: nat)
    requires Places(other, items, m)
    ensures Places(other, SortByCount(items), m)
  {
    var n := |items| - 1;
    if n >= 0 {
      SortPlaces(items[..n], other, m);
      InsertPlaces(SortByCount(items[..n]), items[n], other, m);
    }
  }

  lemma SortedLoad(items: seq<File>, other: map<string, nat>, m: nat, shard: nat)
    requires shard < m
    ensures var files := SortByCount(items);
            Load(Counts(files), ShardsOf(files, other, m), |items|, shard) == LoadBy(items, other, shard)
  {
    var files := SortByCount(items);
    LoadIsLoadBy(files, other, m, |items|, shard);
    SortKeepsSums(items, ShareOf(other, shard));
    assert files[..|items|] == files;
  }

  /**
   Graham's bound for the script: whatever files were collected, in whatever order, and whatever
   other assignment of them it is compared with.
   */
  lemma {:induction false} GrahamBound(items: seq<File>, other: map<string, nat>, m: nat, M: nat, shard: nat)
    requires m > shard && Places(other, items, m)
    requires forall j :: 0 <= j < m ==> LoadBy(items, other, j) <= M
    ensures 3 * m * GreedyLoad(Counts(SortByCount(items)), m, |items|, shard) <= (4 * m - 1) * M
  {
    var files := SortByCount(items);
    var counts, a := Counts(files), ShardsOf(files, other, m);
    forall j | 0 <= j < m ensures Load(counts, a, |items|, j) <= M {
      SortedLoad(items, other, m, j);
    }
    SortSorts(items);
    SortPlaces(items, other, m);
    GreedyBound(counts, |items|, a, m, M, shard);
  }

  // ---------- The loop ----------

  /** The paths that a shard receives, in the order they are assigned. */
  function PathsOn(paths: seq<string>, a: seq<nat>, n: nat, shard: nat): seq<string>
    requires n <= |paths| && n <= |a|
  {
    if n == 0 then []
    else if a[n - 1] == shard then PathsOn(paths, a, n - 1, shard) + [paths[n - 1]]
    else PathsOn(paths, a, n - 1, shard)
  }

  lemma {:induction false} PathsFrame(paths: seq<string>, a: seq<nat>, b: seq<nat>, n: nat, shard: nat)
    requires n <= |paths| && n <= |a| && n <= |b|
    requires forall i :: 0 <= i < n ==> a[i] == b[i]
    ensures PathsOn(paths, a, n, shard) == PathsOn(paths, b, n, shard)
  {
    if n > 0 {
      PathsFrame(paths, a, b, n - 1, shard);
    }
  }

  function ShardPaths(files: seq<File>, m: nat, n: nat, shard: nat): seq<string>
    requires m > 0 && n <= |files|
  {
    PathsOn(Paths(files), Greedy(Counts(files), m, n), n, shard)
  }

  lemma ShardPathsStep(files: seq<File>, m: nat, n: nat, shard: nat)
    requires m > 0 && 0 < n <= |files|
    ensures var k := Greedy(Counts(files), m, n)[n - 1];
            ShardPaths(files, m, n, shard)
            == if shard == k then ShardPaths(files, m, n - 1, shard) + [files[n - 1].path]
               else ShardPaths(files, m, n - 1, shard)
  {
    var counts := Counts(files);
    PathsFrame(Paths(files), Greedy(counts, m, n), Greedy(counts, m, n - 1), n - 1, shard);
  }

  /** `min` over the shard numbers, keyed by their loads. */
  method LightestShard(shardLoads: array<nat>) returns (lightest: nat)
    requires shardLoads.Length > 0
    ensures lightest < shardLoads.Length
    ensures forall j :: 0 <= j < shardLoads.Length ==> shardLoads[lightest] <= shardLoads[j]
    ensures forall j :: 0 <= j < lightest ==> shardLoads[lightest] < shardLoads[j]
  {
    lightest := 0;
    for i := 1 to shardLoads.Length
      invariant lightest < i
      invariant forall j :: 0 <= j < i ==> shardLoads[lightest] <= shardLoads[j]
      invariant forall j :: 0 <= j < lightest ==> shardLoads[lightest] < shardLoads[j]
    {
      if shardLoads[i] < shardLoads[lightest] {
        lightest := i;
      }
    }
  }

  lemma FirstOfLeast(counts: seq<nat>, m: nat, n: nat, loads: seq<nat>, k: nat)
    requires k < m == |loads| && n <= |counts|
    requires forall j :: 0 <= j < m ==> loads[j] == GreedyLoad(counts, m, n, j)
    requires forall j :: 0 <= j < m ==> loads[k] <= loads[j]
    requires forall j :: 0 <= j < k ==> loads[k] < loads[j]
    ensures k == Lightest(counts, Greedy(counts, m, n), n, m)
  {
    var l := Lightest(counts, Greedy(counts, m, n), n, m);
    assert loads[k] <= loads[l] && loads[l] == GreedyLoad(counts, m, n, l);
    assert loads[k] == GreedyLoad(counts, m, n, k) >= GreedyLoad(counts, m, n, l);
  }

  /** The loads and lists of the shards after the loop has placed the first `n` files. */
  ghost predicate Placed(files: seq<File>, m: nat, n: nat, loads: seq<nat>, lists: seq<seq<string>>)
    requires m > 0 && n <= |files|
  {
    && |loads| == |lists| == m
    && (forall j :: 0 <= j < m ==> loads[j] == GreedyLoad(Counts(files), m, n, j))
    && (forall j :: 0 <= j < m ==> lists[j] == ShardPaths(files, m, n, j))
  }

  lemma LoadsStep(counts: seq<nat>, m: nat, n: nat, loads: seq<nat>, k: nat)
    requires m > 0 && 0 < n <= |counts| && |loads| == m
    requires forall j :: 0 <= j < m ==> loads[j] == GreedyLoad(counts, m, n - 1, j)
    requires k == Lightest(counts, Greedy(counts, m, n - 1), n - 1, m)
    ensures forall j :: 0 <= j < m ==>
              loads[k := loads[k] + counts[n - 1]][j] == GreedyLoad(counts, m, n, j)
  {
    forall j | 0 <= j < m ensures loads[k := loads[k] + counts[n - 1]][j] == GreedyLoad(counts, m, n, j) {
      GreedyLoadStep(counts, m, n, j);
    }
  }

  lemma ListsStep(files: seq<File>, m: nat, n: nat, lists: seq<seq<string>>, k: nat)
    requires m > 0 && 0 < n <= |files| && |lists| == m
    requires forall j :: 0 <= j < m ==> lists[j] == ShardPaths(files, m, n - 1, j)
    requires k == Lightest(Counts(files), Greedy(Counts(files), m, n - 1), n - 1, m)
    ensures forall j :: 0 <= j < m ==>
              lists[k := lists[k] + [files[n - 1].path]][j] == ShardPaths(files, m, n, j)
  {
    forall j | 0 <= j < m ensures lists[k := lists[k] + [files[n - 1].path]][j] == ShardPaths(files, m, n, j) {
      ShardPathsStep(files, m, n, j);
    }
  }

  lemma PlaceLoads(files: seq<File>, m: nat, n: nat, next: nat, loads: seq<nat>, k: nat)
    requires k < m == |loads| && n < |files| && next == n + 1
    requires forall j :: 0 <= j < m ==> loads[j] == GreedyLoad(Counts(files), m, n, j)
    requires k == Lightest(Counts(files), Greedy(Counts(files), m, n), n, m)
    ensures forall j :: 0 <= j < m ==>
              loads[k := loads[k] + files[n].count][j] == GreedyLoad(Counts(files), m, next, j)
  {
    assert Counts(files)[n] == files[n].count;
    LoadsStep(Counts(files), m, next, loads, k);
  }

  lemma PlaceOne(files: seq<File>, m: nat, n: nat, loads: seq<nat>, lists: seq<seq<string>>, k: nat)
    requires k < m && n < |files| && Placed(files, m, n, loads, lists)
    requires forall j :: 0 <= j < m ==> loads[k] <= loads[j]
    requires forall j :: 0 <= j < k ==> loads[k] < loads[j]
    ensures Placed(files, m, n + 1, loads[k := loads[k] + files[n].count], lists[k := lists[k] + [files[n].path]])
  {
    FirstOfLeast(Counts(files), m, n, loads, k);
    PlaceLoads(files, m, n, n + 1, loads, k);
    ListsStep(files, m, n + 1, lists, k);
  }

  method AssignShards(filesSorted: seq<File>, numShards: nat)
    returns (shardLoads: array<nat>, shardFiles: array<seq<string>>)
    requires numShards > 0
    ensures fresh(shardLoads) && fresh(shardFiles)
    ensures Placed(filesSorted, numShards, |filesSorted|, shardLoads[..], shardFiles[..])
  {
    shardLoads := new nat[numShards](_ => 0);
    shardFiles := new seq<string>[numShards](_ => []);
    for i := 0 to |filesSorted|
      invariant Placed(filesSorted, numShards, i, shardLoads[..], shardFiles[..])
    {
      var lightest := LightestShard(shardLoads);
      PlaceOne(filesSorted, numShards, i, shardLoads[..], shardFiles[..], lightest);
      shardFiles[lightest] := shardFiles[lightest] + [filesSorted[i].path];
      shardLoads[lightest] := shardLoads[lightest] + filesSorted[i].count;
    }
  }

  /** What one run of the script selects for its shard. */
  function Selection(items: seq<File>, shardId: int, numShards: int): Outcome {
    if !(0 <= shardId < numShards) then BadShardId
    else if items == [] then NothingCollected
    else Selected(ShardPaths(SortByCount(items), numShards, |items|, shardId))
  }

  method SelectShard(items: seq<File>, shardId: int, numShards: int) returns (r: Outcome)
    ensures r == BadShardId <==> shardId < 0 || shardId >= numShards
    ensures r == NothingCollected <==> 0 <= shardId < numShards && items == []
    ensures r == Selection(items, shardId, numShards)
  {
    if !(0 <= shardId < numShards) {
      return BadShardId;
    }
    if items == [] {
      return NothingCollected;
    }
    var filesSorted := SortByCount(items);
    var shardLoads, shardFiles := AssignShards(filesSorted, numShards);
    r := Selected(shardFiles[shardId]);
  }

  // ---------- The shards partition the files ----------

  function Count(paths: seq<string>, path: string): nat {
    var n := |paths| - 1;
    if n < 0 then 0 else Count(paths[..n], path) + if paths[n] == path then 1 else 0
  }

  /** How often the runs for shards `0 .. upTo - 1` together select a path. */
  function TimesSelected(items: seq<File>, numShards: nat, upTo: nat, path: string): nat {
    if upTo == 0 then 0 else
      var r := Selection(items, upTo - 1, numShards);
      TimesSelected(items, numShards, upTo - 1, path) + if r.Selected? then Count(r.paths, path) else 0
  }

  function IsPath(path: string): File -> nat {
    (f: File) => if f.path == path then 1 else 0
  }

  /** Weight 1 on the files of one path turns loads into counts of that path. */
  function Marks(files: seq<File>, path: string): (marks: seq<nat>)
    ensures |marks| == |files|
    ensures forall i :: 0 <= i < |files| ==> marks[i] == if files[i].path == path then 1 else 0
  {
    seq<nat>(|files|, i requires 0 <= i < |files| => if files[i].path == path then 1 else 0)
  }

  lemma {:induction false} CountIsLoad(files: seq<File>, a: seq<nat>, n: nat, shard: nat, path: string)
    requires n <= |files| && n <= |a|
    ensures Count(PathsOn(Paths(files), a, n, shard), path) == Load(Marks(files, path), a, n, shard)
  {
    if n > 0 {
      CountIsLoad(files, a, n - 1, shard, path);
      var before := PathsOn(Paths(files), a, n - 1, shard);
      assert (before + [files[n - 1].path])[..|before|] == before;
    }
  }

  lemma {:induction false} TotalIsSum(files: seq<File>, n: nat, path: string)
    requires n <= |files|
    ensures Total(Marks(files, path), n) == SumOf(files[..n], IsPath(path))
  {
    if n > 0 {
      TotalIsSum(files, n - 1, path);
      assert files[..n][..n - 1] == files[..n - 1];
    }
  }

  lemma {:induction false} SelectedIsLoad(items: seq<File>, numShards: nat, upTo: nat, path: string)
    requires upTo <= numShards && numShards > 0 && items != []
    ensures var files := SortByCount(items);
            TimesSelected(items, numShards, upTo, path)
            == SumLoads(Marks(files, path), Greedy(Counts(files), numShards, |items|), |items|, upTo)
  {
    if upTo > 0 {
      var files := SortByCount(items);
      SelectedIsLoad(items, numShards, upTo - 1, path);
      CountIsLoad(files, Greedy(Counts(files), numShards, |items|), |items|, upTo - 1, path);
    }
  }

  /** The runs for all the shards together select every path as often as it was collected. */
  lemma ShardsPartition(items: seq<File>, numShards: nat, path: string)
    requires numShards > 0 && items != []
    ensures TimesSelected(items, numShards, numShards, path) == SumOf(items, IsPath(path))
  {
    var files, n := SortByCount(items), |items|;
    SelectedIsLoad(items, numShards, numShards, path);
    LoadsAddUp(Marks(files, path), Greedy(Counts(files), numShards, n), n, numShards);
    TotalIsSum(files, n, path);
    assert files[..n] == files;
    SortKeepsSums(items, IsPath(path));
  }
}
