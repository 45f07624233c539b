/** Python's `sorted(xs, key=..., reverse=True)` and `xs.sort(key=..., reverse=True)`:
    a stable sort into non-increasing key order. It is written as an
    insertion sort; what callers rely on is stated by three lemmas: the
    result is a permutation, it is ordered, and elements with equal keys
    keep their input order. */
module StableSort {

  /** A strict order on keys; `<` on reals and on strings is one. */
  ghost predicate Asymmetric<K(!new)>(less: (K, K) -> bool) {
    forall a, b :: less(a, b) ==> !less(b, a)
  }

  /** Inserts `x` before the first element whose key is not strictly greater. */
  function Insert<T, K>(x: T, ys: seq<T>, key: T -> K, less: (K, K) -> bool): (r: seq<T>)
    ensures |r| == |ys| + 1
    ensures multiset(r) == multiset(ys) + multiset{x}
    decreases |ys|
  {
    if ys == [] || !less(key(x), key(ys[0])) then [x] + ys
    else
      assert ys == [ys[0]] + ys[1..];
      [ys[0]] + Insert(x, ys[1..], key, less)
  }

  function SortDesc<T, K>(xs: seq<T>, key: T -> K, less: (K, K) -> bool): (r: seq<T>)
    ensures |r| == |xs|
    ensures multiset(r) == multiset(xs)
    decreases |xs|
  {
    if xs == [] then []
    else
      assert xs == [xs[0]] + xs[1..];
      Insert(xs[0], SortDesc(xs[1..], key, less), key, less)
  }

  /** No element is followed by one with a strictly greater key. */
  predicate SortedDesc<T, K>(xs: seq<T>, key: T -> K, less: (K, K) -> bool) {
    forall i :: 0 <= i < |xs| - 1 ==> !less(key(xs[i]), key(xs[i + 1]))
  }

  /** The elements whose key is `k`, in order. */
  function WithKey<T, K(==)>(xs: seq<T>, key: T -> K, k: K): seq<T>
    decreases |xs|
  {
    if xs == [] then [] else (if key(xs[0]) == k then [xs[0]] else []) + WithKey(xs[1..], key, k)
  }

  lemma {:induction false} InsertSorted<T, K(!new)>(x: T, ys: seq<T>, key: T -> K, less: (K, K) -> bool)
    requires Asymmetric(less)
    requires SortedDesc(ys, key, less)
    ensures SortedDesc(Insert(x, ys, key, less), key, less)
    ensures Insert(x, ys, key, less)[0] == x || Insert(x, ys, key, less)[0] == ys[0]
    decreases |ys|
  {
    if ys != [] && less(key(x), key(ys[0])) {
      var rest := ys[1..];
      InsertSorted(x, rest, key, less);
      var r := Insert(x, rest, key, less);
      assert r[0] == x || r[0] == rest[0];
      assert !less(key(ys[0]), key(r[0]));
      assert Insert(x, ys, key, less) == [ys[0]] + r;
    }
  }

  /** The sort orders by non-increasing key. */
  lemma {:induction false} SortDescSorted<T, K(!new)>(xs: seq<T>, key: T -> K, less: (K, K) -> bool)
    requires Asymmetric(less)
    ensures SortedDesc(SortDesc(xs, key, less), key, less)
    decreases |xs|
  {
    if xs != [] {
      SortDescSorted(xs[1..], key, less);
      InsertSorted(xs[0], SortDesc(xs[1..], key, less), key, less);
    }
  }

  lemma InsertCons<T, K>(x: T, ys: seq<T>, key: T -> K, less: (K, K) -> bool)
    requires ys != [] && less(key(x), key(ys[0]))
    ensures Insert(x, ys, key, less) == [ys[0]] + Insert(x, ys[1..], key, less)
  {
  }

  lemma WithKeyCons<T, K>(y: T, ys: seq<T>, key: T -> K, k: K)
    ensures WithKey([y] + ys, key, k) == (if key(y) == k then [y] else []) + WithKey(ys, key, k)
  {
    assert ([y] + ys)[1..] == ys;
  }

  lemma SwapFront<T>(wx: seq<T>, wy: seq<T>, tail: seq<T>)
    requires wx == [] || wy == []
    ensures wy + (wx + tail) == wx + (wy + tail)
  {
    if wx == [] {
      assert wx + tail == tail && wx + (wy + tail) == wy + tail;
    } else {
      assert wy + (wx + tail) == wx + tail && wy + tail == tail;
    }
  }

  lemma {:induction false} InsertWithKey<T, K(!new)>(x: T, ys: seq<T>, key: T -> K, less: (K, K) -> bool, k: K)
    requires Asymmetric(less)
    ensures WithKey(Insert(x, ys, key, less), key, k) == (if key(x) == k then [x] else []) + WithKey(ys, key, k)
    decreases |ys|
  {
    var wx := if key(x) == k then [x] else [];
    if ys != [] && less(key(x), key(ys[0])) {
      var y := ys[0];
      var rest := Insert(x, ys[1..], key, less);
      var wy := if key(y) == k then [y] else [];
      InsertWithKey(x, ys[1..], key, less, k);
      InsertCons(x, ys, key, less);
      WithKeyCons(y, rest, key, k);
      var tail := WithKey(ys[1..], key, k);
      assert WithKey(ys, key, k) == wy + tail;
      assert WithKey(Insert(x, ys, key, less), key, k) == wy + (wx + tail);
      assert key(x) != k || key(y) != k;
      SwapFront(wx, wy, tail);
    } else {
      WithKeyCons(x, ys, key, k);
    }
  }

  /** The sort is stable: the elements sharing any one key appear in the
      same order as in the input. */
  lemma {:induction false} SortDescStable<T, K(!new)>(xs: seq<T>, key: T -> K, less: (K, K) -> bool, k: K)
    requires Asymmetric(less)
    ensures WithKey(SortDesc(xs, key, less), key, k) == WithKey(xs, key, k)
    decreases |xs|
  {
    if xs != [] {
      SortDescStable(xs[1..], key, less, k);
      InsertWithKey(xs[0], SortDesc(xs[1..], key, less), key, less, k);
    }
  }

  /** An input that is already ordered comes back unchanged. */
  lemma {:induction false} SortDescSortedInput<T, K>(xs: seq<T>, key: T -> K, less: (K, K) -> bool)
    requires SortedDesc(xs, key, less)
    ensures SortDesc(xs, key, less) == xs
    decreases |xs|
  {
    if xs != [] {
      assert SortedDesc(xs[1..], key, less);
      SortDescSortedInput(xs[1..], key, less);
      assert xs == [xs[0]] + xs[1..];
    }
  }

  function RealLess(a: real, b: real): bool { a < b }

  lemma RealLessAsymmetric()
    ensures Asymmetric(RealLess)
  {
  }

  /** Python's `<` on `str`: code point by code point, a proper prefix first. */
  predicate StrLess(a: string, b: string)
    decreases |a|
  {
    if a == [] then b != []
    else if b == [] then false
    else if a[0] != b[0] then a[0] < b[0]
    else StrLess(a[1..], b[1..])
  }

  lemma {:induction false} StrLessNotBoth(a: string, b: string)
    requires StrLess(a, b)
    ensures !StrLess(b, a)
    decreases |a|
  {
    if a != [] && b != [] && a[0] == b[0] {
      StrLessNotBoth(a[1..], b[1..]);
    }
  }

  lemma StrLessAsymmetric()
    ensures Asymmetric(StrLess)
  {
    forall a, b | StrLess(a, b) ensures !StrLess(b, a) {
      StrLessNotBoth(a, b);
    }
  }

  /** Two different strings are ordered one way or the other. */
  lemma {:induction false} StrLessTotal(a: string, b: string)
    requires a != b
    ensures StrLess(a, b) || StrLess(b, a)
    decreases |a|
  {
    if a != [] && b != [] && a[0] == b[0] {
      assert a == [a[0]] + a[1..] && b == [b[0]] + b[1..];
      StrLessTotal(a[1..], b[1..]);
    }
  }
}
