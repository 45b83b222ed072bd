// A stable ascending sort by a real-valued key, used for the debt ordering
// (Python's `sorted`, which is stable) and for `ORDER BY` over stored
// transactions.

module Sorting {

  predicate Sorted<T>(key: T -> real, s: seq<T>) {
    forall i, j :: 0 <= i < j < |s| ==> key(s[i]) <= key(s[j])
  }

  /** Places `x` before every element whose key is not smaller. */
  function Insert<T>(key: T -> real, x: T, t: seq<T>): seq<T> {
    if |t| == 0 then [x]
    else if key(x) <= key(t[0]) then [x] + t
    else [t[0]] + Insert(key, x, t[1..])
  }

  function Sort<T>(key: T -> real, s: seq<T>): seq<T> {
    if |s| == 0 then [] else Insert(key, s[0], Sort(key, s[1..]))
  }

  /** `x` alone when its key is `k`, otherwise nothing. */
  function Pick<T>(key: T -> real, k: real, x: T): seq<T> {
    if key(x) == k then [x] else []
  }

  /** The elements whose key is `k`, in their order in `s`. */
  function WithKey<T>(key: T -> real, k: real, s: seq<T>): seq<T> {
    if |s| == 0 then [] else Pick(key, k, s[0]) + WithKey(key, k, s[1..])
  }

  lemma {:induction false} InsertPermutes<T>(key: T -> real, x: T, t: seq<T>)
    ensures multiset(Insert(key, x, t)) == multiset(t) + multiset{x}
  {
    if |t| > 0 && key(x) > key(t[0]) {
      InsertPermutes(key, x, t[1..]);
      assert t == [t[0]] + t[1..];
    }
  }

  /** Every element of an insertion is the inserted one or one of `t`. */
  lemma InsertElements<T>(key: T -> real, x: T, t: seq<T>, y: T)
    requires y in Insert(key, x, t)
    ensures y == x || y in t
  {
    InsertPermutes(key, x, t);
    assert y in multiset(Insert(key, x, t));
  }

  lemma {:induction false} InsertSorted<T>(key: T -> real, x: T, t: seq<T>)
    requires Sorted(key, t)
    ensures Sorted(key, Insert(key, x, t))
  {
    if |t| > 0 && key(x) > key(t[0]) {
      var rest := Insert(key, x, t[1..]);
      InsertSorted(key, x, t[1..]);
      var r := [t[0]] + rest;
      forall j | 0 < j < |r| ensures key(r[0]) <= key(r[j]) {
        assert r[j] == rest[j - 1];
        InsertElements(key, x, t[1..], r[j]);
        if r[j] != x {
          var k :| 0 <= k < |t[1..]| && t[1..][k] == r[j];
          assert t[k + 1] == r[j];
        }
      }
      forall i, j | 0 < i < j < |r| ensures key(r[i]) <= key(r[j]) {
        assert r[i] == rest[i - 1] && r[j] == rest[j - 1];
      }
    }
  }

  /** Insertion keeps the relative order of the elements sharing a key. */
  lemma {:induction false} InsertKeepsKeyOrder<T>(key: T -> real, k: real, x: T, t: seq<T>)
    ensures WithKey(key, k, Insert(key, x, t)) == Pick(key, k, x) + WithKey(key, k, t)
  {
    if |t| == 0 {
      WithKeyCons(key, k, x, []);
    } else if key(x) <= key(t[0]) {
      WithKeyCons(key, k, x, t);
    } else {
      var rest := Insert(key, x, t[1..]);
      calc {
        WithKey(key, k, Insert(key, x, t));
        { WithKeyCons(key, k, t[0], rest); }
        Pick(key, k, t[0]) + WithKey(key, k, rest);
        { InsertKeepsKeyOrder(key, k, x, t[1..]); }
        Pick(key, k, t[0]) + (Pick(key, k, x) + WithKey(key, k, t[1..]));
        { assert Pick(key, k, t[0]) == [] || Pick(key, k, x) == []; }
        Pick(key, k, x) + (Pick(key, k, t[0]) + WithKey(key, k, t[1..]));
        { WithKeyCons(key, k, t[0], t[1..]); assert [t[0]] + t[1..] == t; }
        Pick(key, k, x) + WithKey(key, k, t);
      }
    }
  }

  lemma WithKeyCons<T>(key: T -> real, k: real, x: T, t: seq<T>)
    ensures WithKey(key, k, [x] + t) == Pick(key, k, x) + WithKey(key, k, t)
  {
    assert ([x] + t)[1..] == t;
  }

  /** The sort orders by the key, permutes, and is stable. */
  lemma {:induction false} SortCorrect<T>(key: T -> real, s: seq<T>)
    ensures Sorted(key, Sort(key, s))
    ensures multiset(Sort(key, s)) == multiset(s)
    ensures forall k :: WithKey(key, k, Sort(key, s)) == WithKey(key, k, s)
  {
    if |s| > 0 {
      SortCorrect(key, s[1..]);
      InsertSorted(key, s[0], Sort(key, s[1..]));
      InsertPermutes(key, s[0], Sort(key, s[1..]));
      assert s == [s[0]] + s[1..];
      forall k ensures WithKey(key, k, Sort(key, s)) == WithKey(key, k, s) {
        InsertKeepsKeyOrder(key, k, s[0], Sort(key, s[1..]));
      }
    }
  }
}
