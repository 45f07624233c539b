/** The order in which concurrent tasks complete, taken as an input: any
    arrangement of the task indices. Results consumed in that order are the
    inputs rearranged, and the progress callback counts them off. */
module Completion {

  /** `0, 1, ..., n - 1`. */
  function Range(n: nat): (r: seq<nat>)
    ensures |r| == n && forall i :: 0 <= i < n ==> r[i] == i
  {
    seq(n, i requires 0 <= i < n => i)
  }

  /** A completion order of `n` tasks: each index exactly once. */
  predicate IsCompletionOrder(order: seq<nat>, n: nat) {
    multiset(order) == multiset(Range(n))
  }

  /** The tasks' items in completion order. */
  function Permute<T>(xs: seq<T>, order: seq<nat>): (r: seq<T>)
    requires forall k :: 0 <= k < |order| ==> order[k] < |xs|
    ensures |r| == |order| && forall k :: 0 <= k < |order| ==> r[k] == xs[order[k]]
  {
    seq(|order|, k requires 0 <= k < |order| => xs[order[k]])
  }

  lemma InRange(order: seq<nat>, n: nat)
    requires IsCompletionOrder(order, n)
    ensures |order| == n
    ensures forall k :: 0 <= k < |order| ==> order[k] < n
  {
    assert |multiset(order)| == |multiset(Range(n))|;
    forall k | 0 <= k < |order| ensures order[k] < n {
      assert order[k] in multiset(order);
      assert order[k] in multiset(Range(n));
    }
  }

  lemma PermuteAppend<T>(xs: seq<T>, a: seq<nat>, b: seq<nat>)
    requires forall k :: 0 <= k < |a| ==> a[k] < |xs|
    requires forall k :: 0 <= k < |b| ==> b[k] < |xs|
    ensures Permute(xs, a + b) == Permute(xs, a) + Permute(xs, b)
  {
  }

  lemma MultisetRemove(o: seq<nat>, p: nat)
    requires p < |o|
    ensures multiset(o[..p] + o[p + 1..]) == multiset(o) - multiset{o[p]}
  {
    assert o == o[..p] + [o[p]] + o[p + 1..];
  }

  lemma PermuteRemove<T>(xs: seq<T>, o: seq<nat>, p: nat)
    requires p < |o| && forall k :: 0 <= k < |o| ==> o[k] < |xs|
    ensures multiset(Permute(xs, o)) == multiset(Permute(xs, o[..p] + o[p + 1..])) + multiset{xs[o[p]]}
  {
    var a, x, b := o[..p], o[p], o[p + 1..];
    assert o == (a + [x]) + b;
    PermuteAppend(xs, a + [x], b);
    PermuteAppend(xs, a, [x]);
    PermuteAppend(xs, a, b);
    var pa, pb := Permute(xs, a), Permute(xs, b);
    assert Permute(xs, [x]) == [xs[x]];
    assert Permute(xs, o) == (pa + [xs[x]]) + pb;
    assert multiset(Permute(xs, o)) == multiset(pa) + multiset{xs[x]} + multiset(pb);
    assert multiset(Permute(xs, a + b)) == multiset(pa) + multiset(pb);
  }

  /** Two arrangements of the same indices pick out the same items. */
  lemma {:induction false} PermuteMultiset<T>(xs: seq<T>, o1: seq<nat>, o2: seq<nat>)
    requires multiset(o1) == multiset(o2)
    requires forall k :: 0 <= k < |o1| ==> o1[k] < |xs|
    ensures forall k :: 0 <= k < |o2| ==> o2[k] < |xs|
    ensures multiset(Permute(xs, o1)) == multiset(Permute(xs, o2))
    decreases |o1|
  {
    forall k | 0 <= k < |o2| ensures o2[k] < |xs| {
      assert o2[k] in multiset(o1);
    }
    if o1 != [] {
      var m := |o1| - 1;
      var x := o1[m];
      assert x in multiset(o2);
      var p :| 0 <= p < |o2| && o2[p] == x;
      MultisetRemove(o1, m);
      MultisetRemove(o2, p);
      assert o1[..m] + o1[m + 1..] == o1[..m];
      PermuteMultiset(xs, o1[..m], o2[..p] + o2[p + 1..]);
      PermuteRemove(xs, o1, m);
      PermuteRemove(xs, o2, p);
    }
  }

  /** In any completion order the results are the inputs rearranged. */
  lemma PermuteIsPermutation<T>(xs: seq<T>, order: seq<nat>)
    requires IsCompletionOrder(order, |xs|)
    ensures forall k :: 0 <= k < |order| ==> order[k] < |xs|
    ensures multiset(Permute(xs, order)) == multiset(xs)
  {
    InRange(order, |xs|);
    PermuteMultiset(xs, order, Range(|xs|));
    assert Permute(xs, Range(|xs|)) == xs;
  }

  /** The progress callback's arguments: `(1, n), (2, n), ..., (n, n)`. */
  function Progress(n: nat): (r: seq<(nat, nat)>)
    ensures |r| == n && forall k :: 0 <= k < n ==> r[k] == (k + 1, n)
  {
    seq(n, k requires 0 <= k < n => (k + 1, n))
  }

  /** Reporting one more task extends the progress reported so far. */
  lemma ProgressPrefix(n: nat, k: nat)
    requires k < n
    ensures Progress(n)[..k + 1] == Progress(n)[..k] + [(k + 1, n)]
  {
    var p := Progress(n);
    assert p[..k + 1][k] == (k + 1, n);
  }

  /** Taking one more element of a sequence appends it. */
  lemma TakeSnoc<T>(s: seq<T>, k: nat)
    requires k < |s|
    ensures s[..k + 1] == s[..k] + [s[k]]
  {
  }
}
