/**
 * Whole-table operations the fusion relies on: sorting rows by one numeric
 * column and `head(n)` (with `Min`, the number of rows it keeps).  pandas' default sort is not stable; the model uses a
 * stable insertion sort, which is one of the orders pandas may produce, and
 * only sortedness and permutation are claimed about it.
 */
module Sorting {
  import opened Wrappers

  /** `s` is in non-decreasing order of `key`. */
  ghost predicate SortedByKey<T>(s: seq<T>, key: T -> real) {
    forall i, j :: 0 <= i < j < |s| ==> key(s[i]) <= key(s[j])
  }

  /** No two elements of `s` agree on `f`. */
  ghost predicate DistinctBy<T, U>(s: seq<T>, f: T -> U) {
    forall i, j :: 0 <= i < j < |s| ==> f(s[i]) != f(s[j])
  }

  /** Inserts `x` before the first element whose key is not smaller. */
  function Insert<T(==)>(x: T, s: seq<T>, key: T -> real): (r: seq<T>)
    ensures multiset(r) == multiset(s) + multiset{x}
    ensures |r| == |s| + 1
  {
    if s == [] || key(x) <= key(s[0]) then
      [x] + s
    else
      assert s == [s[0]] + s[1..];
      [s[0]] + Insert(x, s[1..], key)
  }

  /** Every element of `s` has a key of at least `lo`. */
  ghost predicate KeysAtLeast<T>(s: seq<T>, key: T -> real, lo: real) {
    forall y :: y in s ==> lo <= key(y)
  }

  /** A sorted sequence's tail is sorted and bounded below by its head. */
  lemma SortedTail<T>(s: seq<T>, key: T -> real)
    requires s != [] && SortedByKey(s, key)
    ensures SortedByKey(s[1..], key) && KeysAtLeast(s[1..], key, key(s[0]))
  {
    var tail := s[1..];
    forall i, j | 0 <= i < j < |tail| ensures key(tail[i]) <= key(tail[j]) {
      assert tail[i] == s[i + 1] && tail[j] == s[j + 1];
    }
    forall y | y in tail ensures key(s[0]) <= key(y) {
      var k :| 0 <= k < |tail| && tail[k] == y;
      assert s[k + 1] == y;
    }
  }

  /** A head no larger than a sorted tail makes a sorted sequence. */
  lemma SortedCons<T>(h: T, t: seq<T>, key: T -> real)
    requires SortedByKey(t, key) && KeysAtLeast(t, key, key(h))
    ensures SortedByKey([h] + t, key)
  {
    var r := [h] + t;
    forall i, j | 0 <= i < j < |r| ensures key(r[i]) <= key(r[j]) {
      assert r[j] == t[j - 1];
      if i > 0 {
        assert r[i] == t[i - 1];
      }
    }
  }

  /** Inserting into a sorted sequence keeps it sorted. */
  lemma {:induction false} InsertKeepsSorted<T>(x: T, s: seq<T>, key: T -> real)
    requires SortedByKey(s, key)
    ensures SortedByKey(Insert(x, s, key), key)
  {
    if s == [] || key(x) <= key(s[0]) {
      if s != [] {
        SortedTail(s, key);
        assert KeysAtLeast(s, key, key(x)) by {
          forall y | y in s ensures key(x) <= key(y) {
            if y != s[0] {
              assert y in s[1..];
            }
          }
        }
      }
      SortedCons(x, s, key);
    } else {
      var tail := s[1..];
      SortedTail(s, key);
      InsertKeepsSorted(x, tail, key);
      var rest := Insert(x, tail, key);
      assert KeysAtLeast(rest, key, key(s[0])) by {
        forall y | y in rest ensures key(s[0]) <= key(y) {
          assert y in multiset(rest);
        }
      }
      SortedCons(s[0], rest, key);
    }
  }

  /** Stable ascending sort of `s` by `key`. */
  function SortByKey<T(==)>(s: seq<T>, key: T -> real): (r: seq<T>)
    ensures multiset(r) == multiset(s)
    ensures |r| == |s|
    ensures SortedByKey(r, key)
  {
    if s == [] then []
    else
      assert s == [s[0]] + s[1..];
      var sorted := SortByKey(s[1..], key);
      InsertKeepsSorted(s[0], sorted, key);
      Insert(s[0], sorted, key)
  }

  lemma {:induction false} InsertKeepsDistinct<T, U>(x: T, s: seq<T>, key: T -> real, f: T -> U)
    requires DistinctBy(s, f)
    requires forall y :: y in s ==> f(y) != f(x)
    ensures DistinctBy(Insert(x, s, key), f)
  {
    if s == [] || key(x) <= key(s[0]) {
    } else {
      assert forall y :: y in s[1..] ==> y in s;
      assert DistinctBy(s[1..], f) by {
        forall i, j | 0 <= i < j < |s[1..]| ensures f(s[1..][i]) != f(s[1..][j]) {
          assert s[1..][i] == s[i + 1] && s[1..][j] == s[j + 1];
        }
      }
      InsertKeepsDistinct(x, s[1..], key, f);
      var rest := Insert(x, s[1..], key);
      forall y | y in rest ensures f(s[0]) != f(y) {
        assert y in multiset(rest);
        if y != x {
          assert y in multiset(s[1..]);
          var k :| 0 <= k < |s[1..]| && s[1..][k] == y;
          assert s[k + 1] == y;
        }
      }
    }
  }

  /** Sorting never makes two rows agree on a column: distinct stays distinct. */
  lemma {:induction false} SortKeepsDistinct<T, U>(s: seq<T>, key: T -> real, f: T -> U)
    requires DistinctBy(s, f)
    ensures DistinctBy(SortByKey(s, key), f)
  {
    if s != [] {
      assert DistinctBy(s[1..], f) by {
        forall i, j | 0 <= i < j < |s[1..]| ensures f(s[1..][i]) != f(s[1..][j]) {
          assert s[1..][i] == s[i + 1] && s[1..][j] == s[j + 1];
        }
      }
      SortKeepsDistinct(s[1..], key, f);
      var sorted := SortByKey(s[1..], key);
      forall y | y in sorted ensures f(y) != f(s[0]) {
        assert y in multiset(s[1..]);
        var k :| 0 <= k < |s[1..]| && s[1..][k] == y;
        assert s[k + 1] == y;
      }
      InsertKeepsDistinct(s[0], sorted, key, f);
    }
  }

  /** The smaller of two integers; the row count `head(n)` yields for `n >= 0`. */
  function Min(a: int, b: int): int { if a <= b then a else b }

  /**
   * pandas `head(n)`: the first `n` rows, all of them when there are fewer;
   * a negative `n` keeps all rows except the last `-n`.
   */
  function Head<T>(s: seq<T>, n: int): (r: seq<T>)
    ensures r <= s
    ensures n >= 0 ==> |r| == Min(n, |s|)
    ensures n < 0 ==> |r| == if |s| + n > 0 then |s| + n else 0
  {
    if n >= |s| then s
    else if n >= 0 then s[..n]
    else if |s| + n > 0 then s[..|s| + n]
    else []
  }
}
