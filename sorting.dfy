/**
 * The built-in stable `Array.prototype.sort` with a numeric comparator
 * `(a, b) => key(a) - key(b)`, as a stable insertion sort on values.
 */
module StableSort {

  predicate SortedBy<T>(s: seq<T>, key: T -> int) {
    forall i, j :: 0 <= i < j < |s| ==> key(s[i]) <= key(s[j])
  }

  /** Puts `x` in front of the first element whose key is not smaller. */
  function Insert<T>(x: T, s: seq<T>, key: T -> int): (r: seq<T>)
    ensures multiset(r) == multiset(s) + multiset{x}
    ensures |r| == |s| + 1
    ensures r[0] == if s == [] || key(x) <= key(s[0]) then x else s[0]
  {
    if s == [] || key(x) <= key(s[0]) then [x] + s
    else
      var rest := Insert(x, s[1..], key);
      assert s == [s[0]] + s[1..];
      [s[0]] + rest
  }

  /** Inserting into a sorted sequence keeps it sorted. */
  lemma {:induction false} InsertSorted<T>(x: T, s: seq<T>, key: T -> int)
    requires SortedBy(s, key)
    ensures SortedBy(Insert(x, s, key), key)
  {
    var r := Insert(x, s, key);
    if s == [] || key(x) <= key(s[0]) {
      assert r == [x] + s;
      forall i, j | 0 <= i < j < |r| ensures key(r[i]) <= key(r[j]) {
        if i == 0 {
          assert key(s[0]) <= key(s[j - 1]);
        } else {
          assert r[i] == s[i - 1] && r[j] == s[j - 1];
        }
      }
    } else {
      var tail := s[1..];
      assert SortedBy(tail, key) by {
        forall i, j | 0 <= i < j < |tail| ensures key(tail[i]) <= key(tail[j]) {
          assert tail[i] == s[i + 1] && tail[j] == s[j + 1];
        }
      }
      InsertSorted(x, tail, key);
      var rest := Insert(x, tail, key);
      assert r == [s[0]] + rest;
      assert key(s[0]) <= key(rest[0]) by {
        if tail != [] {
          assert key(s[0]) <= key(s[1]);
        }
      }
      forall i, j | 0 <= i < j < |r| ensures key(r[i]) <= key(r[j]) {
        if i == 0 {
          assert key(rest[0]) <= key(rest[j - 1]);
        } else {
          assert r[i] == rest[i - 1] && r[j] == rest[j - 1];
        }
      }
    }
  }

  /** The sorted arrangement of `xs`; among equal keys the original order is kept. */
  function SortBy<T>(xs: seq<T>, key: T -> int): (r: seq<T>)
    ensures multiset(r) == multiset(xs)
    ensures |r| == |xs|
    ensures SortedBy(r, key)
  {
    if xs == [] then []
    else
      assert xs == [xs[0]] + xs[1..];
      var rest := SortBy(xs[1..], key);
      InsertSorted(xs[0], rest, key);
      Insert(xs[0], rest, key)
  }

  /** The elements of `s` whose key is `k`, in order. */
  function WithKey<T>(s: seq<T>, key: T -> int, k: int): seq<T> {
    if s == [] then []
    else (if key(s[0]) == k then [s[0]] else []) + WithKey(s[1..], key, k)
  }

  lemma WithKeyCons<T>(y: T, t: seq<T>, key: T -> int, k: int)
    ensures WithKey([y] + t, key, k) == (if key(y) == k then [y] else []) + WithKey(t, key, k)
  {
    assert ([y] + t)[1..] == t;
  }

  lemma {:induction false} InsertStable<T>(x: T, s: seq<T>, key: T -> int, k: int)
    ensures WithKey(Insert(x, s, key), key, k) == (if key(x) == k then [x] else []) + WithKey(s, key, k)
  {
    if s != [] && key(x) > key(s[0]) {
      var rest := Insert(x, s[1..], key);
      assert Insert(x, s, key) == [s[0]] + rest;
      assert s == [s[0]] + s[1..];
      InsertStable(x, s[1..], key, k);
      WithKeyCons(s[0], rest, key, k);
      WithKeyCons(s[0], s[1..], key, k);
      var w := WithKey(s[1..], key, k);
      if key(x) == k {
        assert WithKey(s, key, k) == w;
        assert WithKey(rest, key, k) == [x] + w;
      } else {
        assert WithKey(rest, key, k) == w;
      }
    } else {
      assert Insert(x, s, key) == [x] + s;
      WithKeyCons(x, s, key, k);
    }
  }

  /** Stability: for every key, the elements carrying it appear in their original order. */
  lemma {:induction false} SortByStable<T>(xs: seq<T>, key: T -> int, k: int)
    ensures WithKey(SortBy(xs, key), key, k) == WithKey(xs, key, k)
  {
    if xs != [] {
      SortByStable(xs[1..], key, k);
      InsertStable(xs[0], SortBy(xs[1..], key), key, k);
    }
  }

  /** The position of the first element with the smallest key. */
  function FirstMinIndex<T>(xs: seq<T>, key: T -> int): (p: nat)
    requires xs != []
    ensures p < |xs|
    ensures forall q :: 0 <= q < |xs| ==> key(xs[p]) <= key(xs[q])
    ensures forall q :: 0 <= q < p ==> key(xs[q]) > key(xs[p])
  {
    if |xs| == 1 then 0
    else
      var p' := FirstMinIndex(xs[1..], key);
      assert forall q :: 1 <= q < |xs| ==> xs[q] == xs[1..][q - 1];
      if key(xs[0]) <= key(xs[1..][p']) then 0 else 1 + p'
  }

  /** Element 0 of the sorted arrangement is the first element of smallest key. */
  lemma {:induction false} SortByHead<T>(xs: seq<T>, key: T -> int)
    requires xs != []
    ensures SortBy(xs, key)[0] == xs[FirstMinIndex(xs, key)]
  {
    if |xs| > 1 {
      SortByHead(xs[1..], key);
    }
  }
}
