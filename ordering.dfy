/**
 * The stable sort behind every `Array.prototype.sort` call of the
 * application. Each comparator the source passes is expressed as a sort key
 * (a sequence of integers compared lexicographically): descending score is
 * the key [-score], oldest-first the key [date], a name its character codes.
 * The sort is an insertion sort that places each element before the first
 * element with a strictly larger key, which keeps equal keys in input order.
 */
module Ordering {

  /** `a` comes strictly before `b` in lexicographic order. */
  predicate KeyBelow(a: seq<int>, b: seq<int>)
    decreases |a|
  {
    |b| > 0 && (|a| == 0 || a[0] < b[0] || (a[0] == b[0] && KeyBelow(a[1..], b[1..])))
  }

  lemma {:induction false} KeyBelowIrreflexive(a: seq<int>)
    ensures !KeyBelow(a, a)
    decreases |a|
  {
    if |a| > 0 {
      KeyBelowIrreflexive(a[1..]);
    }
  }

  lemma {:induction false} KeyBelowTransitive(a: seq<int>, b: seq<int>, c: seq<int>)
    requires KeyBelow(a, b) && KeyBelow(b, c)
    ensures KeyBelow(a, c)
    decreases |a|
  {
    if |a| > 0 && a[0] == b[0] && b[0] == c[0] {
      KeyBelowTransitive(a[1..], b[1..], c[1..]);
    }
  }

  lemma {:induction false} KeyBelowTotal(a: seq<int>, b: seq<int>)
    ensures a == b || KeyBelow(a, b) || KeyBelow(b, a)
    decreases |a|
  {
    if |a| > 0 && |b| > 0 && a[0] == b[0] {
      KeyBelowTotal(a[1..], b[1..]);
      if a[1..] == b[1..] {
        assert a == [a[0]] + a[1..] && b == [b[0]] + b[1..];
      }
    }
  }

  /** On one-element keys the order is the integer order. */
  lemma SingleKeyBelow(x: int, y: int)
    ensures KeyBelow([x], [y]) <==> x < y
  {
    assert [x][1..] == [];
  }

  /** No element is followed by one with a strictly smaller key. */
  ghost predicate SortedByKey<T>(xs: seq<T>, key: T -> seq<int>) {
    forall i, j :: 0 <= i < j < |xs| ==> !KeyBelow(key(xs[j]), key(xs[i]))
  }

  /** Places `x` in front of the first element whose key is strictly larger. */
  function InsertByKey<T>(x: T, ys: seq<T>, key: T -> seq<int>): (r: seq<T>)
    ensures |r| == |ys| + 1
    decreases |ys|
  {
    if ys == [] then [x]
    else if KeyBelow(key(ys[0]), key(x)) then [ys[0]] + InsertByKey(x, ys[1..], key)
    else [x] + ys
  }

  /** Insertion adds exactly the one element. */
  lemma {:induction false} InsertByKeyPermutes<T>(x: T, ys: seq<T>, key: T -> seq<int>)
    ensures multiset(InsertByKey(x, ys, key)) == multiset(ys) + multiset{x}
    decreases |ys|
  {
    if ys != [] && KeyBelow(key(ys[0]), key(x)) {
      InsertByKeyPermutes(x, ys[1..], key);
      assert ys == [ys[0]] + ys[1..];
    }
  }

  /** The stable sort: insert the first element into the sorted rest, in front of its equals. */
  function SortByKey<T>(xs: seq<T>, key: T -> seq<int>): (r: seq<T>)
    ensures |r| == |xs|
    decreases |xs|
  {
    if xs == [] then [] else InsertByKey(xs[0], SortByKey(xs[1..], key), key)
  }

  /** The sort is a permutation of its input. */
  lemma {:induction false} SortByKeyPermutes<T>(xs: seq<T>, key: T -> seq<int>)
    ensures multiset(SortByKey(xs, key)) == multiset(xs)
    decreases |xs|
  {
    if xs != [] {
      SortByKeyPermutes(xs[1..], key);
      InsertByKeyPermutes(xs[0], SortByKey(xs[1..], key), key);
      assert xs == [xs[0]] + xs[1..];
    }
  }

  /** The elements of `xs` whose key is exactly `k`, in order. */
  function WithKey<T>(xs: seq<T>, key: T -> seq<int>, k: seq<int>): seq<T>
    decreases |xs|
  {
    if xs == [] then []
    else (if key(xs[0]) == k then [xs[0]] else []) + WithKey(xs[1..], key, k)
  }

  lemma {:induction false} InsertSorted<T>(x: T, ys: seq<T>, key: T -> seq<int>)
    requires SortedByKey(ys, key)
    ensures SortedByKey(InsertByKey(x, ys, key), key)
    decreases |ys|
  {
    var r := InsertByKey(x, ys, key);
    if ys == [] {
    } else if KeyBelow(key(ys[0]), key(x)) {
      var rest := InsertByKey(x, ys[1..], key);
      InsertSorted(x, ys[1..], key);
      InsertByKeyPermutes(x, ys[1..], key);
      assert r == [ys[0]] + rest;
      forall j | 0 < j < |r| ensures !KeyBelow(key(r[j]), key(ys[0])) {
        assert r[j] in multiset(rest);
        assert r[j] == x || r[j] in multiset(ys[1..]);
        if r[j] == x {
          if KeyBelow(key(x), key(ys[0])) {
            KeyBelowTransitive(key(x), key(ys[0]), key(x));
            KeyBelowIrreflexive(key(x));
          }
        } else {
          assert r[j] in ys[1..];
          var m :| 0 <= m < |ys[1..]| && ys[1..][m] == r[j];
          assert ys[m + 1] == r[j];
        }
      }
    } else {
      assert r == [x] + ys;
      forall j | 0 < j < |r| ensures !KeyBelow(key(r[j]), key(x)) {
        assert r[j] == ys[j - 1];
        if KeyBelow(key(ys[j - 1]), key(x)) {
          if j - 1 > 0 {
            assert !KeyBelow(key(ys[j - 1]), key(ys[0]));
            KeyBelowTotal(key(ys[j - 1]), key(ys[0]));
            if key(ys[j - 1]) != key(ys[0]) {
              KeyBelowTransitive(key(ys[0]), key(ys[j - 1]), key(x));
            }
          }
        }
      }
    }
  }

  /** The sort orders its output by key. */
  lemma {:induction false} SortByKeySorted<T>(xs: seq<T>, key: T -> seq<int>)
    ensures SortedByKey(SortByKey(xs, key), key)
    decreases |xs|
  {
    if xs != [] {
      SortByKeySorted(xs[1..], key);
      InsertSorted(xs[0], SortByKey(xs[1..], key), key);
    }
  }

  lemma WithKeyCons<T>(x: T, ys: seq<T>, key: T -> seq<int>, k: seq<int>)
    ensures WithKey([x] + ys, key, k) == (if key(x) == k then [x] else []) + WithKey(ys, key, k)
  {
    assert ([x] + ys)[0] == x;
    assert ([x] + ys)[1..] == ys;
  }

  /** Inserting `x` passes only elements with a strictly smaller key, so it lands behind none of its equals. */
  lemma {:induction false} InsertStable<T>(x: T, ys: seq<T>, key: T -> seq<int>, k: seq<int>)
    ensures WithKey(InsertByKey(x, ys, key), key, k)
         == (if key(x) == k then [x] else []) + WithKey(ys, key, k)
    decreases |ys|
  {
    if ys != [] && KeyBelow(key(ys[0]), key(x)) {
      var rest := InsertByKey(x, ys[1..], key);
      var w := WithKey(ys[1..], key, k);
      InsertStable(x, ys[1..], key, k);
      WithKeyCons(ys[0], rest, key, k);
      WithKeyCons(ys[0], ys[1..], key, k);
      assert ys == [ys[0]] + ys[1..];
      if key(x) == k {
        if key(ys[0]) == k {
          KeyBelowIrreflexive(k);
        }
        assert WithKey([ys[0]] + rest, key, k) == [x] + w;
      } else {
        assert WithKey(rest, key, k) == w;
      }
    } else {
      WithKeyCons(x, ys, key, k);
    }
  }

  /** Stability: among elements with equal keys, the sort keeps the input order. */
  lemma {:induction false} SortByKeyStable<T>(xs: seq<T>, key: T -> seq<int>, k: seq<int>)
    ensures WithKey(SortByKey(xs, key), key, k) == WithKey(xs, key, k)
    decreases |xs|
  {
    if xs != [] {
      SortByKeyStable(xs[1..], key, k);
      InsertStable(xs[0], SortByKey(xs[1..], key), key, k);
      WithKeyCons(xs[0], xs[1..], key, k);
      assert xs == [xs[0]] + xs[1..];
    }
  }

  /** Cutting a list short keeps an initial part of each key class. */
  lemma {:induction false} WithKeyPrefix<T>(xs: seq<T>, n: nat, key: T -> seq<int>, k: seq<int>)
    requires n <= |xs|
    ensures |WithKey(xs[..n], key, k)| <= |WithKey(xs, key, k)|
    ensures WithKey(xs, key, k)[..|WithKey(xs[..n], key, k)|] == WithKey(xs[..n], key, k)
    decreases n
  {
    if n > 0 {
      WithKeyPrefix(xs[1..], n - 1, key, k);
      assert xs[..n][1..] == xs[1..][..n - 1];
    }
  }

  /** The first element carrying a key heads that key's class. */
  lemma {:induction false} WithKeyFirst<T>(xs: seq<T>, i: nat, key: T -> seq<int>)
    requires i < |xs|
    requires forall j :: 0 <= j < i ==> key(xs[j]) != key(xs[i])
    ensures WithKey(xs, key, key(xs[i])) != [] && WithKey(xs, key, key(xs[i]))[0] == xs[i]
    decreases i
  {
    if i > 0 {
      WithKeyFirst(xs[1..], i - 1, key);
    }
  }
}
