/** Failure-carrying wrappers and small sequence combinators shared by the
    whole model: `Option`, `Result`, an order-preserving `Filter`, `Sum`. */
module Common {

  datatype Option<T> = None | Some(value: T)

  datatype Result<T, E> = Success(value: T) | Failure(error: E)

  /** The sub-sequence of `xs` whose elements satisfy `p`, in their original order
      (a Python list comprehension with an `if` clause). */
  function Filter<T>(xs: seq<T>, p: T -> bool): seq<T>
  {
    if xs == [] then [] else (if p(xs[0]) then [xs[0]] else []) + Filter(xs[1..], p)
  }

  /** Filtering a concatenation filters each part and keeps the parts in order:
      together with `FilterSingleton` this pins `Filter` down completely. */
  lemma {:induction false} FilterConcat<T>(a: seq<T>, b: seq<T>, p: T -> bool)
    ensures Filter(a + b, p) == Filter(a, p) + Filter(b, p)
  {
    if a == [] {
      assert a + b == b;
    } else {
      var head := if p(a[0]) then [a[0]] else [];
      assert (a + b)[0] == a[0] && (a + b)[1..] == a[1..] + b;
      assert Filter(a + b, p) == head + Filter(a[1..] + b, p);
      FilterConcat(a[1..], b, p);
      assert head + (Filter(a[1..], p) + Filter(b, p)) == (head + Filter(a[1..], p)) + Filter(b, p);
    }
  }

  lemma FilterSingleton<T>(x: T, p: T -> bool)
    ensures Filter([x], p) == (if p(x) then [x] else [])
  {
    assert [x][1..] == [];
  }

  /** An element survives the filter exactly when it is in the input and passes. */
  lemma {:induction false} FilterMembership<T>(xs: seq<T>, p: T -> bool, x: T)
    ensures x in Filter(xs, p) <==> x in xs && p(x)
  {
    if xs != [] {
      FilterMembership(xs[1..], p, x);
      assert xs == [xs[0]] + xs[1..];
    }
  }

  lemma {:induction false} FilterLength<T>(xs: seq<T>, p: T -> bool)
    ensures |Filter(xs, p)| <= |xs|
    ensures |Filter(xs, p)| == |xs| <==> forall i :: 0 <= i < |xs| ==> p(xs[i])
  {
    if xs != [] {
      FilterLength(xs[1..], p);
      assert forall i :: 1 <= i < |xs| ==> xs[i] == xs[1..][i - 1];
    }
  }

  /** Sum of a sequence of integers. */
  function Sum(xs: seq<int>): int
  {
    if xs == [] then 0 else xs[0] + Sum(xs[1..])
  }

  lemma {:induction false} SumConcat(a: seq<int>, b: seq<int>)
    ensures Sum(a + b) == Sum(a) + Sum(b)
  {
    if a == [] {
      assert a + b == b;
    } else {
      assert (a + b)[1..] == a[1..] + b;
      SumConcat(a[1..], b);
    }
  }

  /** The concatenation of a sequence of blocks, in order. */
  function Flatten<T>(ds: seq<seq<T>>): seq<T>
  {
    if ds == [] then [] else ds[0] + Flatten(ds[1..])
  }

  function Lengths<T>(ds: seq<seq<T>>): (r: seq<int>)
    ensures |r| == |ds|
    ensures forall k :: 0 <= k < |ds| ==> r[k] == |ds[k]|
  {
    seq(|ds|, k requires 0 <= k < |ds| => |ds[k]|)
  }

  /** Block `i` of a flattening sits at the sum of the lengths before it. */
  lemma {:induction false} FlattenBlock<T>(ds: seq<seq<T>>, i: nat)
    requires i < |ds|
    ensures var off := Sum(Lengths(ds)[..i]);
      && 0 <= off && off + |ds[i]| <= |Flatten(ds)|
      && Flatten(ds)[off..off + |ds[i]|] == ds[i]
    decreases i
  {
    var rest := Flatten(ds[1..]);
    assert Flatten(ds) == ds[0] + rest;
    if i == 0 {
      assert Lengths(ds)[..0] == [];
      FlattenLength(ds[1..]);
    } else {
      FlattenBlock(ds[1..], i - 1);
      assert Lengths(ds)[..i] == [|ds[0]|] + Lengths(ds[1..])[..i - 1];
      var off' := Sum(Lengths(ds[1..])[..i - 1]);
      assert ds[1..][i - 1] == ds[i];
      assert (ds[0] + rest)[|ds[0]| + off'..|ds[0]| + off' + |ds[i]|] == rest[off'..off' + |ds[i]|];
    }
  }

  /** `FlattenBlock` with the block lengths given as a separate sequence. */
  lemma FlattenBlockOf<T>(ds: seq<seq<T>>, counts: seq<int>, i: nat)
    requires i < |ds| == |counts|
    requires forall k :: 0 <= k < |ds| ==> |ds[k]| == counts[k]
    ensures var off := Sum(counts[..i]);
      && 0 <= off && off + |ds[i]| <= |Flatten(ds)|
      && Flatten(ds)[off..off + |ds[i]|] == ds[i]
  {
    FlattenBlock(ds, i);
    assert Lengths(ds)[..i] == counts[..i];
  }

  /** `v` holds, from offset `off`, a block of `count` elements drawn from `pool`. */
  predicate BlockWithin<T>(v: seq<T>, off: int, count: int, pool: multiset<T>)
  {
    0 <= off && 0 <= count && off + count <= |v| && multiset(v[off..off + count]) <= pool
  }

  /** A block whose elements come from `pool` keeps doing so once flattened
      into `v`. */
  lemma FlattenBlockWithin<T>(v: seq<T>, ds: seq<seq<T>>, counts: seq<int>, i: nat, count: int, pool: multiset<T>)
    requires v == Flatten(ds)
    requires i < |ds| == |counts| && counts[i] == count
    requires forall k :: 0 <= k < |ds| ==> |ds[k]| == counts[k]
    requires multiset(ds[i]) <= pool
    ensures BlockWithin(v, Sum(counts[..i]), count, pool)
  {
    FlattenBlockOf(ds, counts, i);
    assert v[Sum(counts[..i])..Sum(counts[..i]) + count] == ds[i];
  }

  lemma {:induction false} FlattenLength<T>(ds: seq<seq<T>>)
    ensures |Flatten(ds)| == Sum(Lengths(ds))
  {
    if ds != [] {
      FlattenLength(ds[1..]);
      assert Lengths(ds) == [|ds[0]|] + Lengths(ds[1..]);
    }
  }

  /** `sep.join(xs)`: the parts in order with `sep` between neighbours. */
  function Join<T>(xs: seq<seq<T>>, sep: seq<T>): seq<T>
  {
    if xs == [] then [] else if |xs| == 1 then xs[0] else xs[0] + sep + Join(xs[1..], sep)
  }

  /** The integers `lo, lo+1, …, hi-1`, Python's `range(lo, hi)`. */
  function Range(lo: int, hi: int): (r: seq<int>)
    ensures |r| == if lo < hi then hi - lo else 0
    ensures forall i :: 0 <= i < |r| ==> r[i] == lo + i
    decreases hi - lo
  {
    if lo >= hi then [] else [lo] + Range(lo + 1, hi)
  }
}
