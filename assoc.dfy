/** Python dictionaries as insertion-ordered association lists. A key is read
    at its first occurrence; assigning an existing key replaces its value in
    place, assigning a new key appends it. */
module Assoc {
  import opened Wrappers

  function Keys<K, V>(d: seq<(K, V)>): (ks: seq<K>)
    ensures |ks| == |d|
    ensures forall i :: 0 <= i < |d| ==> ks[i] == d[i].0
    decreases |d|
  {
    if d == [] then [] else [d[0].0] + Keys(d[1..])
  }

  function Values<K, V>(d: seq<(K, V)>): (vs: seq<V>)
    ensures |vs| == |d|
    ensures forall i :: 0 <= i < |d| ==> vs[i] == d[i].1
  {
    seq(|d|, i requires 0 <= i < |d| => d[i].1)
  }

  /** `k in d`. */
  predicate HasKey<K(==), V>(d: seq<(K, V)>, k: K)
    decreases |d|
  {
    d != [] && (d[0].0 == k || HasKey(d[1..], k))
  }

  lemma {:induction false} HasKeyIffInKeys<K, V>(d: seq<(K, V)>, k: K)
    ensures HasKey(d, k) <==> k in Keys(d)
    decreases |d|
  {
    if d != [] {
      HasKeyIffInKeys(d[1..], k);
      assert Keys(d) == [d[0].0] + Keys(d[1..]);
    }
  }

  /** `d[k]` when present. */
  function Lookup<K(==), V>(d: seq<(K, V)>, k: K): (r: Option<V>)
    ensures r.Some? <==> HasKey(d, k)
    decreases |d|
  {
    if d == [] then None
    else if d[0].0 == k then Some(d[0].1)
    else Lookup(d[1..], k)
  }

  /** A value read is an entry of the list. */
  lemma {:induction false} LookupMember<K, V>(d: seq<(K, V)>, k: K)
    requires HasKey(d, k)
    ensures exists i :: 0 <= i < |d| && d[i] == (k, Lookup(d, k).value)
    decreases |d|
  {
    if d[0].0 != k {
      LookupMember(d[1..], k);
      var i :| 0 <= i < |d[1..]| && d[1..][i] == (k, Lookup(d[1..], k).value);
      assert d[i + 1] == d[1..][i];
    }
  }

  /** `d[k] = v`. */
  function Put<K(==), V>(d: seq<(K, V)>, k: K, v: V): (r: seq<(K, V)>)
    ensures HasKey(r, k)
    ensures |r| == if HasKey(d, k) then |d| else |d| + 1
    decreases |d|
  {
    if d == [] then [(k, v)]
    else if d[0].0 == k then [(k, v)] + d[1..]
    else [d[0]] + Put(d[1..], k, v)
  }

  /** `del d[k]` (every occurrence, so the key is gone afterwards). */
  function Remove<K(==), V>(d: seq<(K, V)>, k: K): (r: seq<(K, V)>)
    ensures !HasKey(r, k)
    ensures |r| <= |d|
    decreases |d|
  {
    if d == [] then []
    else if d[0].0 == k then Remove(d[1..], k)
    else [d[0]] + Remove(d[1..], k)
  }

  /** Reading after an assignment sees the assigned value, and only for that key. */
  lemma {:induction false} LookupPut<K, V>(d: seq<(K, V)>, k: K, v: V, k': K)
    ensures Lookup(Put(d, k, v), k') == if k' == k then Some(v) else Lookup(d, k')
    decreases |d|
  {
    if d != [] && d[0].0 != k {
      LookupPut(d[1..], k, v, k');
    }
  }

  /** `LookupPut` for every key at once. */
  lemma LookupPutAll<K, V>(d: seq<(K, V)>, k: K, v: V)
    ensures forall k' :: Lookup(Put(d, k, v), k') == if k' == k then Some(v) else Lookup(d, k')
  {
    forall k' ensures Lookup(Put(d, k, v), k') == if k' == k then Some(v) else Lookup(d, k') {
      LookupPut(d, k, v, k');
    }
  }

  /** `LookupRemove` for every other key at once. */
  lemma LookupRemoveAll<K, V>(d: seq<(K, V)>, k: K)
    ensures Lookup(Remove(d, k), k).None?
    ensures forall k' :: k' != k ==> Lookup(Remove(d, k), k') == Lookup(d, k')
  {
    forall k' | k' != k ensures Lookup(Remove(d, k), k') == Lookup(d, k') {
      LookupRemove(d, k, k');
    }
  }

  /** Assigning keeps the key order and appends only a new key. */
  lemma {:induction false} PutKeys<K, V>(d: seq<(K, V)>, k: K, v: V)
    ensures Keys(Put(d, k, v)) == if HasKey(d, k) then Keys(d) else Keys(d) + [k]
    decreases |d|
  {
    if d != [] && d[0].0 != k {
      PutKeys(d[1..], k, v);
      assert Put(d, k, v) == [d[0]] + Put(d[1..], k, v);
      assert Keys(Put(d, k, v)) == [d[0].0] + Keys(Put(d[1..], k, v));
    }
  }

  /** Deleting a key leaves every other key's value alone. */
  lemma {:induction false} LookupRemove<K, V>(d: seq<(K, V)>, k: K, k': K)
    requires k' != k
    ensures Lookup(Remove(d, k), k') == Lookup(d, k')
    decreases |d|
  {
    if d != [] {
      LookupRemove(d[1..], k, k');
    }
  }

  /** A dictionary without repeated keys, as every Python dict is. */
  predicate UniqueKeys<K(==), V>(d: seq<(K, V)>) {
    forall i, j :: 0 <= i < j < |d| ==> d[i].0 != d[j].0
  }

  lemma {:induction false} PutUnique<K, V>(d: seq<(K, V)>, k: K, v: V)
    requires UniqueKeys(d)
    ensures UniqueKeys(Put(d, k, v))
    ensures |Put(d, k, v)| == if HasKey(d, k) then |d| else |d| + 1
    decreases |d|
  {
    PutKeys(d, k, v);
    HasKeyIffInKeys(d, k);
    var r := Put(d, k, v);
    assert forall i :: 0 <= i < |r| ==> r[i].0 == Keys(r)[i];
    assert forall i, j :: 0 <= i < j < |d| ==> Keys(d)[i] != Keys(d)[j];
  }
}
