/** Ordering by a key: used wherever the program sorts (the client's
    `Array.prototype.sort` on month keys, the server's `ORDER BY`).
    A sequence is kept ascending by inserting one element at a time. */
module Sorting {

  /** `less` is irreflexive, transitive and total on distinct keys. */
  ghost predicate StrictTotalOrder<K(!new)>(less: (K, K) -> bool)
  {
    && (forall a :: !less(a, a))
    && (forall a, b, c :: less(a, b) && less(b, c) ==> less(a, c))
    && (forall a, b :: a != b ==> less(a, b) || less(b, a))
  }

  /** The keys of `s` strictly increase from left to right. */
  ghost predicate Ascending<T, K>(s: seq<T>, key: T -> K, less: (K, K) -> bool)
  {
    forall i, j :: 0 <= i < j < |s| ==> less(key(s[i]), key(s[j]))
  }

  /** Places `x` before the first element whose key is above its own. */
  function Insert<T, K>(s: seq<T>, x: T, key: T -> K, less: (K, K) -> bool): (r: seq<T>)
    ensures multiset(r) == multiset(s) + multiset{x}
    ensures |r| == |s| + 1
  {
    if s == [] || less(key(x), key(s[0])) then [x] + s
    else
      assert s == [s[0]] + s[1..];
      [s[0]] + Insert(s[1..], x, key, less)
  }

  lemma {:induction false} InsertAscending<T, K(!new)>(s: seq<T>, x: T, key: T -> K, less: (K, K) -> bool)
    requires StrictTotalOrder(less)
    requires Ascending(s, key, less)
    requires forall y :: y in s ==> key(y) != key(x)
    ensures Ascending(Insert(s, x, key, less), key, less)
  {
    if s == [] || less(key(x), key(s[0])) {
      var r := [x] + s;
      forall i, j | 0 <= i < j < |r| ensures less(key(r[i]), key(r[j])) {
        if i == 0 && j > 1 {
          assert less(key(s[0]), key(s[j - 1]));
        }
      }
    } else {
      assert less(key(s[0]), key(x)) by { assert s[0] in s; }
      var t := s[1..];
      assert Ascending(t, key, less) by {
        forall i, j | 0 <= i < j < |t| ensures less(key(t[i]), key(t[j])) {
          assert t[i] == s[i + 1] && t[j] == s[j + 1];
        }
      }
      assert forall y :: y in t ==> y in s;
      InsertAscending(t, x, key, less);
      var it := Insert(t, x, key, less);
      var r := [s[0]] + it;
      forall i, j | 0 <= i < j < |r| ensures less(key(r[i]), key(r[j])) {
        if i == 0 {
          var y := it[j - 1];
          assert y in multiset(it);
          assert y == x || y in multiset(t);
          if y != x {
            assert y in t;
            var k :| 0 <= k < |t| && t[k] == y;
            assert s[k + 1] == y;
          }
        }
      }
    }
  }

  /** Two ascending sequences holding the same elements are equal. */
  lemma {:induction false} AscendingUnique<T, K(!new)>(a: seq<T>, b: seq<T>, key: T -> K, less: (K, K) -> bool)
    requires StrictTotalOrder(less)
    requires Ascending(a, key, less) && Ascending(b, key, less)
    requires forall x :: x in a <==> x in b
    ensures a == b
  {
    if a == [] {
      assert forall k :: 0 <= k < |b| ==> b[k] in b;
      assert b == [];
    } else {
      assert a[0] in a;
      assert b != [];
      assert b[0] in b;
      var i :| 0 <= i < |b| && b[i] == a[0];
      var j :| 0 <= j < |a| && a[j] == b[0];
      assert i == 0;
      var a', b' := a[1..], b[1..];
      assert Ascending(a', key, less) by {
        forall i, j | 0 <= i < j < |a'| ensures less(key(a'[i]), key(a'[j])) {
          assert a'[i] == a[i + 1] && a'[j] == a[j + 1];
        }
      }
      assert Ascending(b', key, less) by {
        forall i, j | 0 <= i < j < |b'| ensures less(key(b'[i]), key(b'[j])) {
          assert b'[i] == b[i + 1] && b'[j] == b[j + 1];
        }
      }
      forall x ensures x in a' <==> x in b' {
        if x in a' {
          var i :| 0 <= i < |a'| && a'[i] == x;
          assert a[i + 1] == x;
          assert x != a[0] by { assert less(key(a[0]), key(a[i + 1])); }
          assert x in a;
          var j :| 0 <= j < |b| && b[j] == x;
          assert j != 0;
          assert b'[j - 1] == x;
        }
        if x in b' {
          var i :| 0 <= i < |b'| && b'[i] == x;
          assert b[i + 1] == x;
          assert x != b[0] by { assert less(key(b[0]), key(b[i + 1])); }
          assert x in b;
          var j :| 0 <= j < |a| && a[j] == x;
          assert j != 0;
          assert a'[j - 1] == x;
        }
      }
      AscendingUnique(a', b', key, less);
      assert a == [a[0]] + a' && b == [b[0]] + b';
    }
  }

  /** Lexicographic order on text, character by character; a proper prefix
      comes first. */
  predicate StrLess(a: string, b: string)
  {
    if a == [] then b != []
    else if b == [] then false
    else a[0] < b[0] || (a[0] == b[0] && StrLess(a[1..], b[1..]))
  }

  lemma {:induction false} StrLessIrreflexive(a: string)
    ensures !StrLess(a, a)
  {
    if a != [] {
      StrLessIrreflexive(a[1..]);
    }
  }

  lemma {:induction false} StrLessTransitive(a: string, b: string, c: string)
    requires StrLess(a, b) && StrLess(b, c)
    ensures StrLess(a, c)
  {
    if a != [] && a[0] == b[0] && b[0] == c[0] {
      StrLessTransitive(a[1..], b[1..], c[1..]);
    }
  }

  lemma {:induction false} StrLessTotal(a: string, b: string)
    requires a != b
    ensures StrLess(a, b) || StrLess(b, a)
  {
    if a != [] && b != [] && a[0] == b[0] {
      assert a == [a[0]] + a[1..] && b == [b[0]] + b[1..];
      StrLessTotal(a[1..], b[1..]);
    }
  }

  lemma StrLessIsStrictTotalOrder()
    ensures StrictTotalOrder(StrLess)
  {
    forall a { StrLessIrreflexive(a); }
    forall a, b, c | StrLess(a, b) && StrLess(b, c) { StrLessTransitive(a, b, c); }
    forall a, b | a != b { StrLessTotal(a, b); }
  }
}
