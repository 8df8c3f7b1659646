/** The process-wide pseudorandom generator, made explicit.

    `rs` is an arbitrary stream of draws and `pos` counts how many draws have
    been used so far; `randbelow(m)` at position `pos` yields `rs(pos) % m` and
    advances the position by one. Every property proved here holds for every
    stream, so it holds for every seed and every outcome of the generator.

    `Shuffle` is CPython's `random.shuffle` (Fisher-Yates from the end) and
    `Sample` is the pool branch of CPython's `random.sample`. */
module Randomness {

  type Stream = nat -> nat

  /** `randbelow(m)`: a draw in `[0, m)`. */
  function Below(rs: Stream, pos: nat, m: nat): (j: nat)
    requires m > 0
    ensures j < m
  {
    rs(pos) % m
  }

  /** Exchange the elements at positions `i` and `j`. */
  function Swap<T>(xs: seq<T>, i: nat, j: nat): (r: seq<T>)
    requires i < |xs| && j < |xs|
    ensures |r| == |xs|
    ensures multiset(r) == multiset(xs)
  {
    var r := xs[i := xs[j]][j := xs[i]];
    SwapMultiset(xs, i, j);
    r
  }

  lemma SwapMultiset<T>(xs: seq<T>, i: nat, j: nat)
    requires i < |xs| && j < |xs|
    ensures multiset(xs[i := xs[j]][j := xs[i]]) == multiset(xs)
  {
    if i != j {
      var ys := xs[i := xs[j]];
      assert multiset(ys) == multiset(xs) - multiset{xs[i]} + multiset{xs[j]};
      assert multiset(ys[j := xs[i]]) == multiset(ys) - multiset{ys[j]} + multiset{xs[i]};
    }
  }

  /** The Fisher-Yates iterations `i, i-1, …, 1`; each draws `j` in `[0, i]` and swaps. */
  function ShuffleFrom<T>(xs: seq<T>, i: nat, rs: Stream, pos: nat): (r: (seq<T>, nat))
    requires i < |xs|
    ensures |r.0| == |xs|
    ensures multiset(r.0) == multiset(xs)
    ensures r.1 == pos + i
    decreases i
  {
    if i == 0 then (xs, pos)
    else ShuffleFrom(Swap(xs, i, Below(rs, pos, i + 1)), i - 1, rs, pos + 1)
  }

  /** `random.shuffle(xs)`: a permutation of `xs`, using `|xs| - 1` draws. */
  function Shuffle<T>(xs: seq<T>, rs: Stream, pos: nat): (r: (seq<T>, nat))
    ensures |r.0| == |xs|
    ensures multiset(r.0) == multiset(xs)
    ensures r.1 == pos + (if |xs| == 0 then 0 else |xs| - 1)
  {
    if |xs| <= 1 then (xs, pos) else ShuffleFrom(xs, |xs| - 1, rs, pos)
  }

  /** Removing position `j` by overwriting it with the last live element
      (`pool[j] = pool[m-1]`) leaves the other live elements. */
  lemma SwapRemove<T>(pool: seq<T>, m: nat, j: nat)
    requires j < m <= |pool|
    ensures multiset(pool[..m]) == multiset(pool[j := pool[m - 1]][..m - 1]) + multiset{pool[j]}
  {
    var pool' := pool[j := pool[m - 1]];
    assert pool[..m] == pool[..m - 1] + [pool[m - 1]];
    if j < m - 1 {
      assert pool'[..m - 1] == pool[..m - 1][j := pool[m - 1]];
    } else {
      assert pool'[..m - 1] == pool[..m - 1];
    }
  }

  /** `out` consists of items taken from `acc` and `live` together. */
  ghost predicate DrawnFrom<T>(out: seq<T>, acc: seq<T>, live: seq<T>)
  {
    multiset(out) <= multiset(acc) + multiset(live)
  }

  /** `out` consists of exactly the items of `acc` and `live` together. */
  ghost predicate AllOf<T>(out: seq<T>, acc: seq<T>, live: seq<T>)
  {
    multiset(out) == multiset(acc) + multiset(live)
  }

  /** Before any draw, everything taken is in `acc`, and nothing is left
      to take once the live part is empty. */
  lemma NothingDrawn<T>(acc: seq<T>, live: seq<T>)
    ensures DrawnFrom(acc, acc, live)
    ensures live == [] ==> AllOf(acc, acc, live)
  {
  }

  /** One step of the pool loop moves `pool[j]` from the live part of the
      pool to the taken part and leaves their union unchanged. */
  lemma PoolStep<T>(out: seq<T>, acc: seq<T>, pool: seq<T>, m: nat, j: nat, left: seq<T>)
    requires j < m <= |pool| && left == pool[j := pool[m - 1]][..m - 1]
    ensures DrawnFrom(out, acc + [pool[j]], left) ==> DrawnFrom(out, acc, pool[..m])
    ensures AllOf(out, acc + [pool[j]], left) ==> AllOf(out, acc, pool[..m])
  {
    SwapRemove(pool, m, j);
    assert multiset(acc + [pool[j]]) == multiset(acc) + multiset{pool[j]};
  }

  /** The pool loop of `random.sample`: step `i` draws `j` in `[0, n-i)`,
      takes `pool[j]` and fills its place with `pool[n-i-1]`. */
  function SampleLoop<T>(pool: seq<T>, i: nat, k: nat, acc: seq<T>, rs: Stream, pos: nat): (r: (seq<T>, nat))
    requires i <= k <= |pool| && |acc| == i
    ensures |r.0| == k
    ensures r.1 == pos + (k - i)
    decreases k - i
  {
    if i == k then (acc, pos)
    else
      var m := |pool| - i;
      var j := Below(rs, pos, m);
      SampleLoop(pool[j := pool[m - 1]], i + 1, k, acc + [pool[j]], rs, pos + 1)
  }

  /** What the pool loop takes is drawn from what was taken plus what was live,
      and all of it when it runs until the pool is empty. */
  lemma {:induction false} SampleLoopMultiset<T>(pool: seq<T>, i: nat, k: nat, acc: seq<T>, rs: Stream, pos: nat)
    requires i <= k <= |pool| && |acc| == i
    ensures DrawnFrom(SampleLoop(pool, i, k, acc, rs, pos).0, acc, pool[..|pool| - i])
    ensures k == |pool| ==> AllOf(SampleLoop(pool, i, k, acc, rs, pos).0, acc, pool[..|pool| - i])
    decreases k - i
  {
    if i < k {
      var m := |pool| - i;
      var j := Below(rs, pos, m);
      var pool' := pool[j := pool[m - 1]];
      var next := SampleLoop(pool', i + 1, k, acc + [pool[j]], rs, pos + 1);
      assert SampleLoop(pool, i, k, acc, rs, pos) == next;
      SampleLoopMultiset(pool', i + 1, k, acc + [pool[j]], rs, pos + 1);
      PoolStep(next.0, acc, pool, m, j, pool'[..|pool'| - (i + 1)]);
    } else {
      assert SampleLoop(pool, i, k, acc, rs, pos).0 == acc;
      NothingDrawn(acc, pool[..|pool| - i]);
    }
  }

  /** `random.sample(xs, k)` for `0 <= k <= |xs|`: `k` items taken from distinct
      positions of `xs`, i.e. a sub-multiset of it, using `k` draws. */
  function Sample<T>(xs: seq<T>, k: nat, rs: Stream, pos: nat): (r: (seq<T>, nat))
    requires k <= |xs|
    ensures |r.0| == k
    ensures multiset(r.0) <= multiset(xs)
    ensures k == |xs| ==> multiset(r.0) == multiset(xs)
    ensures r.1 == pos + k
  {
    SampleLoopMultiset(xs, 0, k, [], rs, pos);
    assert xs[..|xs|] == xs;
    SampleLoop(xs, 0, k, [], rs, pos)
  }
}
