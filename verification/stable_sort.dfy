/**
 * The stable sort of `Array.prototype.sort` with a numeric comparator
 * `(a, b) => key(a) - key(b)`: ascending by `key`, elements with equal keys
 * kept in input order. A descending sort (`b.x - a.x`) is a sort by `-x`.
 *
 * A stable sort's result is determined by the three properties proved here
 * (sorted, a permutation, equal keys in input order), so insertion sort stands
 * for whatever algorithm the engine uses.
 */
module StableSort {

  /** `s` is in ascending order of `key`. */
  ghost predicate SortedBy<T>(s: seq<T>, key: T -> real) {
    forall i, j :: 0 <= i < j < |s| ==> key(s[i]) <= key(s[j])
  }

  /** The elements of `s` whose key is `k`, in order. */
  function WithKey<T>(s: seq<T>, key: T -> real, k: real): (r: seq<T>)
    ensures |r| <= |s|
    ensures forall i :: 0 <= i < |r| ==> key(r[i]) == k
  {
    if s == [] then []
    else (if key(s[0]) == k then [s[0]] else []) + WithKey(s[1..], key, k)
  }

  /** Places `x` before the first element of `s` whose key is not smaller than its own. */
  function Insert<T>(x: T, s: seq<T>, key: T -> real): (r: seq<T>)
    ensures |r| == |s| + 1
    ensures multiset(r) == multiset(s) + multiset{x}
  {
    if s == [] || key(x) <= key(s[0]) then [x] + s
    else
      assert s == [s[0]] + s[1..];
      [s[0]] + Insert(x, s[1..], key)
  }

  function SortBy<T>(s: seq<T>, key: T -> real): (r: seq<T>)
    ensures |r| == |s|
    ensures multiset(r) == multiset(s)
  {
    if s == [] then []
    else
      assert s == [s[0]] + s[1..];
      Insert(s[0], SortBy(s[1..], key), key)
  }

  lemma {:induction false} InsertSorted<T>(x: T, s: seq<T>, key: T -> real)
    requires SortedBy(s, key)
    ensures SortedBy(Insert(x, s, key), key)
  {
    if s == [] || key(x) <= key(s[0]) {
    } else {
      InsertSorted(x, s[1..], key);
      var t := Insert(x, s[1..], key);
      assert Insert(x, s, key) == [s[0]] + t;
      InsertBounded(x, s[1..], key, key(s[0]));
    }
  }

  /** A lower bound on the keys of `s` and of `x` bounds the keys after the insertion. */
  lemma {:induction false} InsertBounded<T>(x: T, s: seq<T>, key: T -> real, b: real)
    requires b <= key(x) && forall j :: 0 <= j < |s| ==> b <= key(s[j])
    ensures forall j :: 0 <= j < |s| + 1 ==> b <= key(Insert(x, s, key)[j])
  {
    if s != [] && key(x) > key(s[0]) {
      InsertBounded(x, s[1..], key, b);
      assert Insert(x, s, key) == [s[0]] + Insert(x, s[1..], key);
    }
  }

  lemma {:induction false} InsertWithKey<T>(x: T, s: seq<T>, key: T -> real, k: real)
    ensures WithKey(Insert(x, s, key), key, k) == (if key(x) == k then [x] else []) + WithKey(s, key, k)
  {
    if s == [] || key(x) <= key(s[0]) {
      assert ([x] + s)[1..] == s;
    } else {
      InsertWithKey(x, s[1..], key, k);
      var t := Insert(x, s[1..], key);
      assert ([s[0]] + t)[1..] == t;
      assert key(s[0]) != key(x);
    }
  }

  lemma {:induction false} WithKeyConcat<T>(a: seq<T>, b: seq<T>, key: T -> real, k: real)
    ensures WithKey(a + b, key, k) == WithKey(a, key, k) + WithKey(b, key, k)
  {
    if a == [] {
      assert a + b == b;
    } else {
      var head := if key(a[0]) == k then [a[0]] else [];
      var restA := WithKey(a[1..], key, k);
      var restB := WithKey(b, key, k);
      WithKeyConcat(a[1..], b, key, k);
      assert (a + b)[0] == a[0];
      assert (a + b)[1..] == a[1..] + b;
      assert WithKey(a + b, key, k) == head + (restA + restB);
      assert head + (restA + restB) == (head + restA) + restB;
    }
  }

  /** The result is in ascending key order. */
  lemma {:induction false} SortByIsSorted<T>(s: seq<T>, key: T -> real)
    ensures SortedBy(SortBy(s, key), key)
  {
    if s != [] {
      SortByIsSorted(s[1..], key);
      InsertSorted(s[0], SortBy(s[1..], key), key);
    }
  }

  /** Stability: for every key, the elements carrying it keep their input order. */
  lemma {:induction false} SortByIsStable<T>(s: seq<T>, key: T -> real, k: real)
    ensures WithKey(SortBy(s, key), key, k) == WithKey(s, key, k)
  {
    if s != [] {
      SortByIsStable(s[1..], key, k);
      InsertWithKey(s[0], SortBy(s[1..], key), key, k);
    }
  }

  /** Index of the first element with the least key. */
  function FirstMinIndex<T>(s: seq<T>, key: T -> real): (i: nat)
    requires s != []
    ensures i < |s|
    ensures forall j :: 0 <= j < |s| ==> key(s[i]) <= key(s[j])
    ensures forall j :: 0 <= j < i ==> key(s[j]) > key(s[i])
  {
    if |s| == 1 then 0
    else
      var i := FirstMinIndex(s[1..], key);
      if key(s[0]) <= key(s[1..][i]) then 0 else i + 1
  }

  lemma {:induction false} WithKeyFirst<T>(s: seq<T>, key: T -> real, i: nat)
    requires i < |s|
    requires forall j :: 0 <= j < i ==> key(s[j]) != key(s[i])
    ensures WithKey(s, key, key(s[i])) != [] && WithKey(s, key, key(s[i]))[0] == s[i]
  {
    if i > 0 {
      WithKeyFirst(s[1..], key, i - 1);
    }
  }

  /**
   * The head of the sorted sequence is the earliest element of least key:
   * `candidates.sort(...)[0]` picks the first best candidate in input order.
   */
  lemma SortByHead<T>(s: seq<T>, key: T -> real)
    requires s != []
    ensures SortBy(s, key)[0] == s[FirstMinIndex(s, key)]
  {
    var r := SortBy(s, key);
    var i := FirstMinIndex(s, key);
    var k := key(s[i]);
    assert key(r[0]) == k by {
      SortByIsSorted(s, key);
      assert s[i] in multiset(r);
      var n :| 0 <= n < |r| && r[n] == s[i];
      assert key(r[0]) <= k;
      assert r[0] in multiset(s);
      var m :| 0 <= m < |s| && s[m] == r[0];
    }
    SortByIsStable(s, key, k);
    WithKeyFirst(s, key, i);
    WithKeyFirst(r, key, 0);
  }
}
