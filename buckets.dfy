/** Running sums per key, as the client builds them in a JavaScript `Map`:
    each element adds its value to the bucket of its key, and the map
    remembers keys in the order they were first set. */
module Buckets {

  /** The bucket of `k` after folding `xs` from left to right. */
  function KeySum<T, K(==)>(xs: seq<T>, key: T -> K, val: T -> int, k: K): int
  {
    if xs == [] then 0
    else
      var last := xs[|xs| - 1];
      KeySum(xs[..|xs| - 1], key, val, k) + (if key(last) == k then val(last) else 0)
  }

  /** The sum of all values, whatever their key. */
  function Total<T>(xs: seq<T>, val: T -> int): int
  {
    if xs == [] then 0 else Total(xs[..|xs| - 1], val) + val(xs[|xs| - 1])
  }

  /** The buckets of `ks`, added up. */
  function SumOverKeys<T, K(==)>(xs: seq<T>, key: T -> K, val: T -> int, ks: seq<K>): int
  {
    if ks == [] then 0 else KeySum(xs, key, val, ks[0]) + SumOverKeys(xs, key, val, ks[1..])
  }

  predicate NoDuplicates<K(==)>(ks: seq<K>)
  {
    forall i, j :: 0 <= i < j < |ks| ==> ks[i] != ks[j]
  }

  /** The keys of `ks` in the order of their first appearance, each once:
      the iteration order of a JavaScript `Map` filled from `ks`. */
  function FirstOccurrences<K(==)>(ks: seq<K>): (r: seq<K>)
    ensures forall i :: 0 <= i < |ks| ==> ks[i] in r
    ensures forall i :: 0 <= i < |r| ==> r[i] in ks
    ensures NoDuplicates(r)
  {
    if ks == [] then []
    else
      var before := FirstOccurrences(ks[..|ks| - 1]);
      var k := ks[|ks| - 1];
      assert forall i :: 0 <= i < |ks| - 1 ==> ks[i] == ks[..|ks| - 1][i];
      if k in before then before else before + [k]
  }

  /** The key of every element, in order. */
  function Keys<T, K>(xs: seq<T>, key: T -> K): (r: seq<K>)
    ensures |r| == |xs|
    ensures forall i :: 0 <= i < |xs| ==> r[i] == key(xs[i])
  {
    seq(|xs|, i requires 0 <= i < |xs| => key(xs[i]))
  }

  /** A key met again keeps its place; a new key goes last. */
  lemma FirstOccurrencesSnoc<K>(ks: seq<K>, k: K)
    ensures FirstOccurrences(ks + [k]) == if k in FirstOccurrences(ks) then FirstOccurrences(ks) else FirstOccurrences(ks) + [k]
  {
    assert (ks + [k])[..|ks|] == ks;
  }

  /** Appending one element touches only the bucket of its key. */
  lemma KeySumSnoc<T, K>(xs: seq<T>, x: T, key: T -> K, val: T -> int, k: K)
    ensures KeySum(xs + [x], key, val, k) == KeySum(xs, key, val, k) + (if key(x) == k then val(x) else 0)
  {
    assert (xs + [x])[..|xs|] == xs;
  }

  lemma TotalSnoc<T>(xs: seq<T>, x: T, val: T -> int)
    ensures Total(xs + [x], val) == Total(xs, val) + val(x)
  {
    assert (xs + [x])[..|xs|] == xs;
  }

  lemma {:induction false} SumOverKeysSnoc<T, K>(xs: seq<T>, x: T, key: T -> K, val: T -> int, ks: seq<K>)
    requires NoDuplicates(ks)
    ensures SumOverKeys(xs + [x], key, val, ks)
         == SumOverKeys(xs, key, val, ks) + (if key(x) in ks then val(x) else 0)
  {
    if ks != [] {
      KeySumSnoc(xs, x, key, val, ks[0]);
      assert NoDuplicates(ks[1..]) by {
        forall i, j | 0 <= i < j < |ks[1..]| ensures ks[1..][i] != ks[1..][j] {
          assert ks[1..][i] == ks[i + 1] && ks[1..][j] == ks[j + 1];
        }
      }
      SumOverKeysSnoc(xs, x, key, val, ks[1..]);
      assert ks == [ks[0]] + ks[1..];
      assert key(x) in ks <==> key(x) == ks[0] || key(x) in ks[1..];
      assert ks[0] !in ks[1..] by {
        forall j | 0 <= j < |ks[1..]| ensures ks[1..][j] != ks[0] {
          assert ks[1..][j] == ks[j + 1];
        }
      }
    }
  }

  /** Adding up the buckets of a duplicate-free list of keys that covers every
      element gives the total of all values: each value lands in exactly one
      bucket. */
  lemma {:induction false} SumOverDistinctKeys<T, K>(xs: seq<T>, key: T -> K, val: T -> int, ks: seq<K>)
    requires NoDuplicates(ks)
    requires forall i :: 0 <= i < |xs| ==> key(xs[i]) in ks
    ensures SumOverKeys(xs, key, val, ks) == Total(xs, val)
  {
    if xs == [] {
      SumOfEmpty(key, val, ks);
    } else {
      var init, last := xs[..|xs| - 1], xs[|xs| - 1];
      assert xs == init + [last];
      assert forall i :: 0 <= i < |init| ==> key(init[i]) in ks by {
        forall i | 0 <= i < |init| ensures key(init[i]) in ks {
          assert init[i] == xs[i];
        }
      }
      SumOverDistinctKeys(init, key, val, ks);
      SumOverKeysSnoc(init, last, key, val, ks);
      TotalSnoc(init, last, val);
    }
  }

  lemma {:induction false} SumOfEmpty<T, K>(key: T -> K, val: T -> int, ks: seq<K>)
    ensures SumOverKeys([], key, val, ks) == 0
  {
    if ks != [] {
      SumOfEmpty(key, val, ks[1..]);
    }
  }

  /** Non-negative values give non-negative buckets. */
  lemma {:induction false} KeySumNonNegative<T, K>(xs: seq<T>, key: T -> K, val: T -> int, k: K)
    requires forall i :: 0 <= i < |xs| ==> val(xs[i]) >= 0
    ensures KeySum(xs, key, val, k) >= 0
  {
    if xs != [] {
      var init := xs[..|xs| - 1];
      assert forall i :: 0 <= i < |init| ==> val(init[i]) >= 0 by {
        forall i | 0 <= i < |init| ensures val(init[i]) >= 0 {
          assert init[i] == xs[i];
        }
      }
      KeySumNonNegative(init, key, val, k);
    }
  }

  /** With non-negative values, a bucket holds at least the value of each
      element filed under it. */
  lemma {:induction false} KeySumAtLeast<T, K>(xs: seq<T>, key: T -> K, val: T -> int, i: int)
    requires forall j :: 0 <= j < |xs| ==> val(xs[j]) >= 0
    requires 0 <= i < |xs|
    ensures KeySum(xs, key, val, key(xs[i])) >= val(xs[i])
  {
    var init := xs[..|xs| - 1];
    assert forall j :: 0 <= j < |init| ==> val(init[j]) >= 0 by {
      forall j | 0 <= j < |init| ensures val(init[j]) >= 0 {
        assert init[j] == xs[j];
      }
    }
    if i == |xs| - 1 {
      KeySumNonNegative(init, key, val, key(xs[i]));
    } else {
      assert init[i] == xs[i];
      KeySumAtLeast(init, key, val, i);
    }
  }

  /** A key no element carries has an empty bucket. */
  lemma {:induction false} KeySumAbsent<T, K>(xs: seq<T>, key: T -> K, val: T -> int, k: K)
    requires forall i :: 0 <= i < |xs| ==> key(xs[i]) != k
    ensures KeySum(xs, key, val, k) == 0
  {
    if xs != [] {
      var init := xs[..|xs| - 1];
      assert forall i :: 0 <= i < |init| ==> key(init[i]) != k by {
        forall i | 0 <= i < |init| ensures key(init[i]) != k {
          assert init[i] == xs[i];
        }
      }
      KeySumAbsent(init, key, val, k);
    }
  }
}
