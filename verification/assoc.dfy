/**
 Python dictionaries as association lists. A Python `dict` remembers the order
 in which keys were first inserted; assigning to an existing key keeps its
 position and replaces its value. A `Dict` built only through `Put` has
 distinct keys.
 */
module Assoc {
  import opened Base

  type Dict<K, V> = seq<(K, V)>

  /** The keys, in insertion order (Python's `d.keys()`). */
  function Keys<K, V>(d: Dict<K, V>): seq<K> {
    seq(|d|, i requires 0 <= i < |d| => d[i].0)
  }

  /** The values, in insertion order (Python's `d.values()`). */
  function Values<K, V>(d: Dict<K, V>): seq<V> {
    seq(|d|, i requires 0 <= i < |d| => d[i].1)
  }

  /** Python's `k in d`. */
  predicate HasKey<K(==), V>(d: Dict<K, V>, k: K) {
    exists i :: 0 <= i < |d| && d[i].0 == k
  }

  predicate DistinctKeys<K(==), V>(d: Dict<K, V>) {
    forall i, j :: 0 <= i < j < |d| ==> d[i].0 != d[j].0
  }

  /** The position of the first entry with key `k`. */
  function IndexOf<K(==), V>(d: Dict<K, V>, k: K): (i: nat)
    requires HasKey(d, k)
    ensures i < |d| && d[i].0 == k
    ensures forall j :: 0 <= j < i ==> d[j].0 != k
  {
    if d[0].0 == k then 0
    else
      assert HasKey(d[1..], k) by {
        var i :| 0 <= i < |d| && d[i].0 == k;
        assert d[1..][i - 1].0 == k;
      }
      1 + IndexOf(d[1..], k)
  }

  /**
   Lookup (Python's `d.get(k)`): the value of the first entry with key `k`,
   the only one when keys are distinct.
   */
  function Get<K(==), V>(d: Dict<K, V>, k: K): Option<V> {
    if HasKey(d, k) then Some(d[IndexOf(d, k)].1) else None
  }

  /** Any entry that no earlier entry shadows is what lookup returns. */
  lemma GetFirst<K, V>(d: Dict<K, V>, i: nat)
    requires i < |d|
    requires forall j :: 0 <= j < i ==> d[j].0 != d[i].0
    ensures Get(d, d[i].0) == Some(d[i].1)
  {
    var k := IndexOf(d, d[i].0);
  }

  /** With distinct keys, every entry is what lookup returns for its key. */
  lemma GetEntry<K, V>(d: Dict<K, V>, k: K, v: V)
    requires DistinctKeys(d)
    requires (k, v) in d
    ensures Get(d, k) == Some(v)
  {
    var i :| 0 <= i < |d| && d[i] == (k, v);
    GetFirst(d, i);
  }

  /** When every entry with key `k` carries `v`, lookup returns `v`. */
  lemma GetOnly<K, V>(d: Dict<K, V>, k: K, v: V)
    requires (k, v) in d
    requires forall e :: e in d && e.0 == k ==> e.1 == v
    ensures Get(d, k) == Some(v)
  {
    var i :| 0 <= i < |d| && d[i] == (k, v);
    assert HasKey(d, k);
    assert d[IndexOf(d, k)] in d;
  }

  /** With no entry for `k`, lookup finds nothing. */
  lemma GetMissing<K, V>(d: Dict<K, V>, k: K)
    requires forall e :: e in d ==> e.0 != k
    ensures Get(d, k) == None
  {
    forall i | 0 <= i < |d| ensures d[i].0 != k {
      assert d[i] in d;
    }
  }

  /**
   Insert-or-overwrite (Python's `d[k] = v`): an existing key keeps its place
   and takes the new value; a new key is appended.
   */
  function Put<K(==), V>(d: Dict<K, V>, k: K, v: V): (r: Dict<K, V>)
    ensures |r| == if HasKey(d, k) then |d| else |d| + 1
  {
    if HasKey(d, k) then d[IndexOf(d, k) := (k, v)] else d + [(k, v)]
  }

  /** After `d[k] = v`, `d[k]` is `v`. */
  lemma PutGet<K, V>(d: Dict<K, V>, k: K, v: V)
    ensures Get(Put(d, k, v), k) == Some(v)
  {
    var r := Put(d, k, v);
    if HasKey(d, k) {
      GetFirst(r, IndexOf(d, k));
    } else {
      GetFirst(r, |d|);
    }
  }

  /** `d[k] = v` leaves every other key's lookup unchanged. */
  lemma PutOther<K, V>(d: Dict<K, V>, k: K, v: V, k': K)
    requires k' != k
    ensures Get(Put(d, k, v), k') == Get(d, k')
  {
    var r := Put(d, k, v);
    assert forall j :: 0 <= j < |d| ==> r[j].0 == d[j].0 && (r[j].0 == k' ==> r[j] == d[j]);
    if HasKey(d, k') {
      var i := IndexOf(d, k');
      GetFirst(r, i);
    } else {
      forall j | 0 <= j < |r| ensures r[j].0 != k' {
        if j < |d| { assert r[j].0 == d[j].0; }
      }
    }
  }

  /** Every entry after a `Put` is an old entry or the new one. */
  lemma PutEntries<K, V>(d: Dict<K, V>, k: K, v: V)
    ensures forall i :: 0 <= i < |Put(d, k, v)| ==> Put(d, k, v)[i] == (k, v) || Put(d, k, v)[i] in d
  {
  }

  /** `d[k] = v` keeps keys distinct. */
  lemma PutDistinct<K, V>(d: Dict<K, V>, k: K, v: V)
    requires DistinctKeys(d)
    ensures DistinctKeys(Put(d, k, v))
  {
    var r := Put(d, k, v);
    if !HasKey(d, k) {
      forall i, j | 0 <= i < j < |r| ensures r[i].0 != r[j].0 {
        if j == |d| { assert r[i].0 == d[i].0; }
      }
    }
  }

  /** `idx` places each element of `r` in `o`, at strictly increasing positions. */
  predicate Embeds<T(==)>(idx: seq<nat>, r: seq<T>, o: seq<T>) {
    |idx| == |r| &&
    (forall k :: 0 <= k < |r| ==> idx[k] < |o| && r[k] == o[idx[k]]) &&
    (forall k, l :: 0 <= k < l < |r| ==> idx[k] < idx[l])
  }

  /** `r` is `o` with some elements left out and the rest in their original order. */
  ghost predicate Subsequence<T>(r: seq<T>, o: seq<T>) {
    exists idx: seq<nat> :: Embeds(idx, r, o)
  }

  lemma SubsequenceEmpty<T>(o: seq<T>)
    ensures Subsequence([], o)
  {
    assert Embeds([], [], o);
  }

  /** An element in front of `o` may be left out. */
  lemma SubsequenceSkip<T>(r: seq<T>, o: seq<T>, x: T)
    requires Subsequence(r, o)
    ensures Subsequence(r, [x] + o)
  {
    var idx :| Embeds(idx, r, o);
    var shifted := seq(|idx|, k requires 0 <= k < |idx| => idx[k] + 1);
    assert Embeds(shifted, r, [x] + o);
  }

  /** An element in front of `o` may be kept, in front. */
  lemma SubsequenceKeep<T>(r: seq<T>, o: seq<T>, x: T)
    requires Subsequence(r, o)
    ensures Subsequence([x] + r, [x] + o)
  {
    var idx :| Embeds(idx, r, o);
    var shifted := [0] + seq(|idx|, k requires 0 <= k < |idx| => idx[k] + 1);
    assert Embeds(shifted, [x] + r, [x] + o);
  }

  /** The dict literal `{ks[0]: vs[0], ks[1]: vs[1], ...}`. */
  function Zip<K, V>(ks: seq<K>, vs: seq<V>): (d: Dict<K, V>)
    requires |ks| == |vs|
    ensures Keys(d) == ks && Values(d) == vs
  {
    seq(|ks|, i requires 0 <= i < |ks| => (ks[i], vs[i]))
  }

  /** With distinct keys, the literal maps each key to its own value. */
  lemma ZipGet<K, V>(ks: seq<K>, vs: seq<V>, i: nat)
    requires |ks| == |vs| && i < |ks|
    requires forall a, b :: 0 <= a < b < |ks| ==> ks[a] != ks[b]
    ensures Get(Zip(ks, vs), ks[i]) == Some(vs[i])
  {
    GetFirst(Zip(ks, vs), i);
  }
}
