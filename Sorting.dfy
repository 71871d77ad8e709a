/**
 * Sorting by an integer key, largest key first: the meaning of Python's
 * `sorted(xs, key=k, reverse=True)` and of JavaScript's `Array.sort` with a
 * descending comparator. The result is proved sorted and a permutation of the
 * input; the order among equal keys is not stated.
 */
module Sorting {

  predicate SortedDesc<T>(s: seq<T>, key: T -> int)
  {
    forall i, j :: 0 <= i < j < |s| ==> key(s[i]) >= key(s[j])
  }

  /** Inserts `x` after every element whose key is at least `key(x)`. */
  function InsertDesc<T>(s: seq<T>, x: T, key: T -> int): (r: seq<T>)
    ensures |r| == |s| + 1
    ensures multiset(r) == multiset(s) + multiset{x}
  {
    if |s| == 0 then [x]
    else if key(s[|s| - 1]) >= key(x) then s + [x]
    else
      assert s == s[..|s| - 1] + [s[|s| - 1]];
      InsertDesc(s[..|s| - 1], x, key) + [s[|s| - 1]]
  }

  /** The descending sort of `s`, built by inserting from the left. */
  function SortDesc<T>(s: seq<T>, key: T -> int): (r: seq<T>)
    ensures |r| == |s|
    ensures multiset(r) == multiset(s)
  {
    if |s| == 0 then []
    else
      assert s == s[..|s| - 1] + [s[|s| - 1]];
      InsertDesc(SortDesc(s[..|s| - 1], key), s[|s| - 1], key)
  }

  lemma {:induction false} InsertDescSorted<T>(s: seq<T>, x: T, key: T -> int)
    requires SortedDesc(s, key)
    ensures SortedDesc(InsertDesc(s, x, key), key)
  {
    if |s| > 0 && key(s[|s| - 1]) < key(x) {
      var p := s[..|s| - 1];
      assert SortedDesc(p, key);
      InsertDescSorted(p, x, key);
      InsertDescMembers(p, x, key);
      var q := InsertDesc(p, x, key);
      forall k | 0 <= k < |q| ensures key(q[k]) >= key(s[|s| - 1]) {
        assert q[k] in multiset(p) + multiset{x};
        if q[k] != x {
          assert q[k] in multiset(p);
          var m :| 0 <= m < |p| && p[m] == q[k];
          assert s[m] == q[k];
        }
      }
    }
  }

  lemma InsertDescMembers<T>(s: seq<T>, x: T, key: T -> int)
    ensures forall y :: y in InsertDesc(s, x, key) <==> y in s || y == x
  {
    var r := InsertDesc(s, x, key);
    forall y ensures y in r <==> y in s || y == x {
      assert y in r <==> y in multiset(r);
      assert y in s <==> y in multiset(s);
    }
  }

  lemma {:induction false} SortDescSorted<T>(s: seq<T>, key: T -> int)
    ensures SortedDesc(SortDesc(s, key), key)
  {
    if |s| > 0 {
      SortDescSorted(s[..|s| - 1], key);
      InsertDescSorted(SortDesc(s[..|s| - 1], key), s[|s| - 1], key);
    }
  }

  /**
   * Python's `sorted(xs, ...)[:n]` for `n >= 0`: a prefix of the sorted copy
   * holds elements whose keys are at least those of every element left out.
   */
  lemma TopPrefix<T>(s: seq<T>, key: T -> int, n: nat)
    requires n <= |s|
    ensures var r := SortDesc(s, key);
      forall i, j :: 0 <= i < n <= j < |s| ==> key(r[i]) >= key(r[j])
  {
    SortDescSorted(s, key);
  }
}
