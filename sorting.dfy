/**
 * `Array.prototype.sort` with a comparator that subtracts two integer keys. The sort is stable
 * (required since ES2019), which insertion sort models: an element is inserted in front of the
 * elements whose key equals its own, because those come later in the input.
 */
module Sorting {
  predicate SortedBy<T>(s: seq<T>, key: T -> int) {
    forall i, j :: 0 <= i < j < |s| ==> key(s[i]) <= key(s[j])
  }

  /** Sorted by `key`, and by `tie` among equal keys. */
  predicate SortedThenBy<T>(s: seq<T>, key: T -> int, tie: T -> int) {
    forall i, j :: 0 <= i < j < |s| ==>
      key(s[i]) < key(s[j]) || (key(s[i]) == key(s[j]) && tie(s[i]) < tie(s[j]))
  }

  predicate StrictlyIncreasing<T>(s: seq<T>, tie: T -> int) {
    forall i, j :: 0 <= i < j < |s| ==> tie(s[i]) < tie(s[j])
  }

  function Insert<T(==)>(x: T, s: seq<T>, key: T -> int): (r: seq<T>)
    ensures multiset(r) == multiset(s) + multiset{x}
    ensures |r| == |s| + 1
  {
    if s == [] || key(x) <= key(s[0]) then [x] + s
    else
      assert s == [s[0]] + s[1..];
      [s[0]] + Insert(x, s[1..], key)
  }

  /** The stable sort of `s`, ascending by `key`. */
  function Sort<T(==)>(s: seq<T>, key: T -> int): (r: seq<T>)
    ensures multiset(r) == multiset(s)
    ensures |r| == |s|
    ensures SortedBy(r, key)
  {
    if s == [] then []
    else
      assert s == [s[0]] + s[1..];
      InsertSorted(s[0], Sort(s[1..], key), key);
      Insert(s[0], Sort(s[1..], key), key)
  }

  /** Every element of an insertion is the inserted one or came from the sequence. */
  lemma InsertedFrom<T>(x: T, s: seq<T>, key: T -> int, y: T)
    requires y in Insert(x, s, key)
    ensures y == x || y in s
  {
    assert y in multiset(Insert(x, s, key));
  }

  /** The head of a sorted sequence has the least key. */
  lemma HeadIsLeast<T>(s: seq<T>, key: T -> int, y: T)
    requires SortedBy(s, key) && y in s
    ensures key(s[0]) <= key(y)
  {
    var k :| 0 <= k < |s| && s[k] == y;
    if k > 0 {
      assert key(s[0]) <= key(s[k]);
    }
  }

  lemma SortedCons<T>(h: T, s: seq<T>, key: T -> int)
    requires SortedBy(s, key) && forall y :: y in s ==> key(h) <= key(y)
    ensures SortedBy([h] + s, key)
  {
    var r := [h] + s;
    forall i, j | 0 <= i < j < |r| ensures key(r[i]) <= key(r[j]) {
      assert r[j] == s[j - 1];
      if i > 0 {
        assert r[i] == s[i - 1];
      }
    }
  }

  lemma {:induction false} InsertSorted<T>(x: T, s: seq<T>, key: T -> int)
    requires SortedBy(s, key)
    ensures SortedBy(Insert(x, s, key), key)
  {
    if s == [] || key(x) <= key(s[0]) {
      forall y | y in s ensures key(x) <= key(y) {
        HeadIsLeast(s, key, y);
      }
      SortedCons(x, s, key);
    } else {
      var rest := Insert(x, s[1..], key);
      InsertSorted(x, s[1..], key);
      forall y | y in rest ensures key(s[0]) <= key(y) {
        InsertedFrom(x, s[1..], key, y);
        if y != x {
          HeadIsLeast(s, key, y);
        }
      }
      SortedCons(s[0], rest, key);
    }
  }

  /** Every element of a sequence sorted by key and tie follows the head in that order. */
  lemma HeadPrecedes<T>(s: seq<T>, key: T -> int, tie: T -> int, y: T)
    requires SortedThenBy(s, key, tie) && y in s && y != s[0]
    ensures key(s[0]) < key(y) || (key(s[0]) == key(y) && tie(s[0]) < tie(y))
  {
    var k :| 0 <= k < |s| && s[k] == y;
    assert k > 0;
  }

  lemma SortedThenByCons<T>(h: T, s: seq<T>, key: T -> int, tie: T -> int)
    requires SortedThenBy(s, key, tie)
    requires forall y :: y in s ==> key(h) < key(y) || (key(h) == key(y) && tie(h) < tie(y))
    ensures SortedThenBy([h] + s, key, tie)
  {
    var r := [h] + s;
    forall i, j | 0 <= i < j < |r|
      ensures key(r[i]) < key(r[j]) || (key(r[i]) == key(r[j]) && tie(r[i]) < tie(r[j]))
    {
      assert r[j] == s[j - 1];
      if i > 0 {
        assert r[i] == s[i - 1];
      }
    }
  }

  lemma {:induction false} InsertSortedThenBy<T>(x: T, s: seq<T>, key: T -> int, tie: T -> int)
    requires SortedThenBy(s, key, tie)
    requires forall y :: y in s ==> tie(x) < tie(y)
    ensures SortedThenBy(Insert(x, s, key), key, tie)
  {
    if s == [] || key(x) <= key(s[0]) {
      forall y | y in s ensures key(x) < key(y) || (key(x) == key(y) && tie(x) < tie(y)) {
        if y != s[0] {
          HeadPrecedes(s, key, tie, y);
        }
      }
      SortedThenByCons(x, s, key, tie);
    } else {
      var rest := Insert(x, s[1..], key);
      forall y | y in s[1..] ensures tie(x) < tie(y) {
        assert y in s;
      }
      InsertSortedThenBy(x, s[1..], key, tie);
      assert SortedThenBy(s[1..], key, tie) by {
        forall i, j | 0 <= i < j < |s[1..]|
          ensures key(s[1..][i]) < key(s[1..][j]) || (key(s[1..][i]) == key(s[1..][j]) && tie(s[1..][i]) < tie(s[1..][j]))
        {
          assert s[1..][i] == s[i + 1] && s[1..][j] == s[j + 1];
        }
      }
      forall y | y in rest ensures key(s[0]) < key(y) || (key(s[0]) == key(y) && tie(s[0]) < tie(y)) {
        InsertedFrom(x, s[1..], key, y);
        if y != x {
          assert y in s && y != s[0] by {
            var k :| 0 <= k < |s[1..]| && s[1..][k] == y;
            assert s[k + 1] == y;
            assert tie(s[0]) < tie(s[k + 1]) || key(s[0]) < key(s[k + 1]);
          }
          HeadPrecedes(s, key, tie, y);
        }
      }
      SortedThenByCons(s[0], rest, key, tie);
    }
  }

  /** Stability: sorting a sequence already in increasing `tie` order orders equal keys by `tie`.
      Together with `Sort`'s own contract this fixes the result completely. */
  lemma {:induction false} SortIsStable<T>(s: seq<T>, key: T -> int, tie: T -> int)
    requires StrictlyIncreasing(s, tie)
    ensures SortedThenBy(Sort(s, key), key, tie)
  {
    if s != [] {
      SortIsStable(s[1..], key, tie);
      var sorted := Sort(s[1..], key);
      forall y | y in sorted ensures tie(s[0]) < tie(y) {
        assert y in multiset(s[1..]);
        var k :| 0 <= k < |s[1..]| && s[1..][k] == y;
        assert s[k + 1] == y;
      }
      InsertSortedThenBy(s[0], sorted, key, tie);
    }
  }
}
