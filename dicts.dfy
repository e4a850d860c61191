/** Python dictionaries, which remember insertion order, as sequences of
    (key, value) pairs with distinct keys. */
module Dicts {
  import opened Outcomes

  predicate DistinctKeys<K(==), V>(d: seq<(K, V)>) {
    forall i, j :: 0 <= i < j < |d| ==> d[i].0 != d[j].0
  }

  /** The position of the first pair with key k, or |d| when k is not a key. */
  function Find<K(==), V>(d: seq<(K, V)>, k: K): (i: nat)
    ensures i <= |d|
    ensures i < |d| ==> d[i].0 == k
    ensures forall j :: 0 <= j < i ==> d[j].0 != k
  {
    if d == [] then 0
    else if d[0].0 == k then 0
    else 1 + Find(d[1..], k)
  }

  /** The three properties of Find pin it down. */
  lemma FindIs<K, V>(d: seq<(K, V)>, k: K, i: nat)
    requires i <= |d|
    requires i < |d| ==> d[i].0 == k
    requires forall j :: 0 <= j < i ==> d[j].0 != k
    ensures Find(d, k) == i
  {
    var f := Find(d, k);
    if f < |d| {
      assert d[f].0 == k;
    }
    if i < |d| {
      assert d[i].0 == k;
    }
  }

  /** d.get(k) */
  function Get<K(==), V>(d: seq<(K, V)>, k: K): (r: Option<V>)
    ensures r.Some? <==> exists i :: 0 <= i < |d| && d[i].0 == k
  {
    var i := Find(d, k);
    if i < |d| then Some(d[i].1) else None
  }

  /** `d[k] = v`: an existing key keeps its place and gets the new value; a new key
      goes at the end. */
  function Put<K(==,!new), V>(d: seq<(K, V)>, k: K, v: V): (r: seq<(K, V)>)
    ensures Get(r, k) == Some(v)
    ensures forall k' :: k' != k ==> Get(r, k') == Get(d, k')
    ensures |r| == if Get(d, k).Some? then |d| else |d| + 1
    ensures forall i :: 0 <= i < |d| ==> r[i].0 == d[i].0
    ensures Get(d, k).None? ==> r == d + [(k, v)]
    ensures DistinctKeys(d) ==> DistinctKeys(r)
  {
    var i := Find(d, k);
    var r := if i < |d| then d[i := (k, v)] else d + [(k, v)];
    FindIs(r, k, i);
    PutKeepsOthers(d, k, v, i, r);
    r
  }

  lemma PutKeepsOthers<K, V>(d: seq<(K, V)>, k: K, v: V, i: nat, r: seq<(K, V)>)
    requires i == Find(d, k)
    requires r == if i < |d| then d[i := (k, v)] else d + [(k, v)]
    ensures forall k' :: k' != k ==> Get(r, k') == Get(d, k')
  {
    forall k' | k' != k ensures Get(r, k') == Get(d, k') {
      var f := Find(d, k');
      if f < |d| {
        FindIs(r, k', f);
      } else {
        FindIs(r, k', |r|);
      }
    }
  }

  /** With distinct keys, the key at a position looks up the value at that position. */
  lemma GetPosition<K, V>(d: seq<(K, V)>, i: nat)
    requires DistinctKeys(d) && i < |d|
    ensures Get(d, d[i].0) == Some(d[i].1)
  {
    FindIs(d, d[i].0, i);
  }

  /** Looking up in a non-empty list: the first pair, or the rest. */
  lemma GetFirst<K, V>(d: seq<(K, V)>, k: K)
    requires d != []
    ensures Get(d, k) == if d[0].0 == k then Some(d[0].1) else Get(d[1..], k)
  {
    if d[0].0 != k {
      var f := Find(d[1..], k);
      FindIs(d, k, f + 1);
    }
  }

  /** Dropping the first pair of a list with distinct keys leaves distinct keys,
      none of them the first pair's. */
  lemma DistinctRest<K, V>(d: seq<(K, V)>)
    requires d != [] && DistinctKeys(d)
    ensures DistinctKeys(d[1..])
    ensures Get(d[1..], d[0].0).None?
  {
    var rest := d[1..];
    forall i, j | 0 <= i < j < |rest| ensures rest[i].0 != rest[j].0 {
      assert rest[i] == d[i + 1] && rest[j] == d[j + 1];
    }
    FindIs(rest, d[0].0, |rest|) by {
      forall j | 0 <= j < |rest| ensures rest[j].0 != d[0].0 {
        assert rest[j] == d[j + 1];
      }
    }
  }

  /** Storing into the empty dict gives the one pair. */
  lemma PutEmpty<K(!new), V>(k: K, v: V)
    ensures Put([], k, v) == [(k, v)]
  {
    assert Find<K, V>([], k) == 0;
  }
}
