/**
 * A JavaScript `Map` as a list of key/value pairs: iteration follows first insertion,
 * and `set` on a present key replaces the value where the key already stands. A plain
 * object keeps the same order for its non-numeric keys only (integer-like keys are
 * listed first, in ascending order); the objects modelled with it are keyed by field
 * and collection names.
 */
module OrderedMaps {
  import opened Wrappers

  type OMap<K, V> = seq<(K, V)>

  /** `Array.from(m.keys())`. */
  function Keys<K, V>(m: OMap<K, V>): (ks: seq<K>)
    ensures |ks| == |m|
    ensures forall i :: 0 <= i < |m| ==> ks[i] == m[i].0
  {
    seq(|m|, i requires 0 <= i < |m| => m[i].0)
  }

  /** The keys of a non-empty map: the first key, then the keys of the rest. */
  lemma KeysCons<K, V>(m: OMap<K, V>)
    requires |m| > 0
    ensures Keys(m) == [m[0].0] + Keys(m[1..])
  {
  }

  /** No key stands twice, which every `Map` guarantees. */
  predicate DistinctKeys<K(==), V>(m: OMap<K, V>) {
    forall i, j :: 0 <= i < j < |m| ==> m[i].0 != m[j].0
  }

  /** `m.get(k)`: None stands for `undefined`. */
  function Get<K(==), V>(m: OMap<K, V>, k: K): (r: Option<V>)
    ensures r.None? <==> k !in Keys(m)
    decreases |m|
  {
    if |m| == 0 then None
    else if m[0].0 == k then Some(m[0].1)
    else
      KeysCons(m);
      Get(m[1..], k)
  }

  /** In a map with distinct keys, the pair at `i` is what `Get` finds for its key. */
  lemma {:induction false} GetAt<K, V>(m: OMap<K, V>, i: nat)
    requires DistinctKeys(m) && i < |m|
    ensures Get(m, m[i].0) == Some(m[i].1)
    decreases |m|
  {
    if i > 0 {
      assert m[0].0 != m[i].0;
      GetAt(m[1..], i - 1);
    }
  }

  /** `m.set(k, v)`: a new key goes last, a present key keeps its place. */
  function Put<K(==), V>(m: OMap<K, V>, k: K, v: V): (r: OMap<K, V>)
    ensures Keys(r) == if k in Keys(m) then Keys(m) else Keys(m) + [k]
    decreases |m|
  {
    if |m| == 0 then [(k, v)]
    else if m[0].0 == k then
      var r := [(k, v)] + m[1..];
      assert r[0].0 == k && r[1..] == m[1..];
      KeysCons(m);
      KeysCons(r);
      r
    else
      var t := Put(m[1..], k, v);
      var r := [m[0]] + t;
      assert r[0] == m[0] && r[1..] == t;
      KeysCons(m);
      KeysCons(r);
      r
  }

  /** After `m.set(k, v)`, `get(k)` is `v` and every other key reads as before. */
  lemma {:induction false} PutGet<K, V>(m: OMap<K, V>, k: K, v: V, k': K)
    ensures Get(Put(m, k, v), k') == if k' == k then Some(v) else Get(m, k')
    decreases |m|
  {
    if |m| > 0 && m[0].0 != k {
      PutGet(m[1..], k, v, k');
      assert Put(m, k, v)[1..] == Put(m[1..], k, v);
    }
  }

  /** Setting a key that is not there yet appends its pair. */
  lemma {:induction false} PutNew<K, V>(m: OMap<K, V>, k: K, v: V)
    requires k !in Keys(m)
    ensures Put(m, k, v) == m + [(k, v)]
    decreases |m|
  {
    if |m| > 0 {
      assert Keys(m) == [m[0].0] + Keys(m[1..]);
      PutNew(m[1..], k, v);
      assert [m[0]] + (m[1..] + [(k, v)]) == m + [(k, v)];
    }
  }

  lemma PutDistinct<K, V>(m: OMap<K, V>, k: K, v: V)
    requires DistinctKeys(m)
    ensures DistinctKeys(Put(m, k, v))
  {
    var r := Put(m, k, v);
    assert forall i :: 0 <= i < |r| ==> r[i].0 == Keys(r)[i];
    assert forall i :: 0 <= i < |m| ==> m[i].0 == Keys(m)[i];
  }

  /** `m.set(k, v)` for every pair `(k, v)` of `ps`, in order. */
  function PutAll<K(==), V>(m: OMap<K, V>, ps: seq<(K, V)>): OMap<K, V>
    decreases |ps|
  {
    if |ps| == 0 then m
    else Put(PutAll(m, ps[..|ps| - 1]), ps[|ps| - 1].0, ps[|ps| - 1].1)
  }

  /** One more pair is one more `set`. */
  lemma PutAllSnoc<K, V>(m: OMap<K, V>, ps: seq<(K, V)>, k: K, v: V)
    ensures PutAll(m, ps + [(k, v)]) == Put(PutAll(m, ps), k, v)
  {
    assert (ps + [(k, v)])[..|ps|] == ps;
  }

  /** Dropping the last pair keeps the keys distinct, and its key is new to the rest. */
  lemma DistinctKeysInit<K, V>(ps: OMap<K, V>)
    requires DistinctKeys(ps) && |ps| > 0
    ensures DistinctKeys(ps[..|ps| - 1]) && ps[|ps| - 1].0 !in Keys(ps[..|ps| - 1])
  {
    var init := ps[..|ps| - 1];
    assert forall i :: 0 <= i < |init| ==> init[i] == ps[i];
  }

  /**
   * The keys afterwards are the keys before and the keys set, and keys that were
   * distinct stay distinct.
   */
  lemma {:induction false} PutAllKeys<K, V>(m: OMap<K, V>, ps: seq<(K, V)>)
    ensures forall k :: k in Keys(PutAll(m, ps)) <==> k in Keys(m) || k in Keys(ps)
    ensures DistinctKeys(m) ==> DistinctKeys(PutAll(m, ps))
    decreases |ps|
  {
    if |ps| > 0 {
      var init, last := ps[..|ps| - 1], ps[|ps| - 1];
      PutAllKeys(m, init);
      if DistinctKeys(m) {
        PutDistinct(PutAll(m, init), last.0, last.1);
      }
      assert Keys(ps) == Keys(init) + [last.0];
    }
  }

  /** A key ends with the value of the last pair that sets it. */
  lemma {:induction false} PutAllLastWins<K, V>(m: OMap<K, V>, ps: seq<(K, V)>, i: nat)
    requires i < |ps|
    requires forall j :: i < j < |ps| ==> ps[j].0 != ps[i].0
    ensures Get(PutAll(m, ps), ps[i].0) == Some(ps[i].1)
    decreases |ps|
  {
    var init, last := ps[..|ps| - 1], ps[|ps| - 1];
    PutGet(PutAll(m, init), last.0, last.1, ps[i].0);
    if i < |init| {
      PutAllLastWins(m, init, i);
    }
  }

  /** A key no pair sets keeps its value. */
  lemma {:induction false} PutAllUntouched<K, V>(m: OMap<K, V>, ps: seq<(K, V)>, k: K)
    requires k !in Keys(ps)
    ensures Get(PutAll(m, ps), k) == Get(m, k)
    decreases |ps|
  {
    if |ps| > 0 {
      var init, last := ps[..|ps| - 1], ps[|ps| - 1];
      assert Keys(ps) == Keys(init) + [last.0];
      PutAllUntouched(m, init, k);
      PutGet(PutAll(m, init), last.0, last.1, k);
    }
  }

  /** Loaded into an empty map, pairs with distinct keys come back as they are, in order. */
  lemma {:induction false} PutAllDistinct<K, V>(ps: seq<(K, V)>)
    requires DistinctKeys(ps)
    ensures PutAll([], ps) == ps
    decreases |ps|
  {
    if |ps| > 0 {
      var init, last := ps[..|ps| - 1], ps[|ps| - 1];
      assert PutAll([], ps) == Put(PutAll([], init), last.0, last.1);
      DistinctKeysInit(ps);
      PutAllDistinct(init);
      PutNew(init, last.0, last.1);
      assert init + [last] == ps;
    }
  }

  /** Every pair whose key is not in `ks`, in order. */
  function Without<K(==), V>(m: OMap<K, V>, ks: set<K>): (r: OMap<K, V>)
    ensures |r| <= |m|
    decreases |m|
  {
    if |m| == 0 then []
    else if m[0].0 in ks then Without(m[1..], ks)
    else [m[0]] + Without(m[1..], ks)
  }

  /** `Without` keeps exactly the pairs whose key is not removed. */
  lemma {:induction false} WithoutMembers<K, V>(m: OMap<K, V>, ks: set<K>)
    ensures forall i :: 0 <= i < |Without(m, ks)| ==> Without(m, ks)[i] in m && Without(m, ks)[i].0 !in ks
    ensures forall i :: 0 <= i < |m| && m[i].0 !in ks ==> m[i] in Without(m, ks)
    decreases |m|
  {
    if |m| > 0 {
      WithoutMembers(m[1..], ks);
      assert forall i :: 1 <= i < |m| ==> m[i] == m[1..][i - 1];
    }
  }

  lemma {:induction false} WithoutDistinct<K, V>(m: OMap<K, V>, ks: set<K>)
    requires DistinctKeys(m)
    ensures DistinctKeys(Without(m, ks))
    decreases |m|
  {
    if |m| > 0 {
      WithoutDistinct(m[1..], ks);
      WithoutMembers(m[1..], ks);
      var t := Without(m[1..], ks);
      forall i | 0 <= i < |t| ensures t[i].0 != m[0].0 {
        var j :| 0 <= j < |m[1..]| && m[1..][j] == t[i];
        assert m[j + 1] == t[i];
      }
    }
  }

  lemma {:induction false} WithoutWithout<K, V>(m: OMap<K, V>, ks: set<K>, ks': set<K>)
    ensures Without(Without(m, ks), ks') == Without(m, ks + ks')
    decreases |m|
  {
    if |m| > 0 {
      WithoutWithout(m[1..], ks, ks');
    }
  }

  /** Outside the removed keys, lookups are unchanged. */
  lemma {:induction false} GetWithout<K, V>(m: OMap<K, V>, ks: set<K>, k: K)
    requires k !in ks
    ensures Get(Without(m, ks), k) == Get(m, k)
    decreases |m|
  {
    if |m| > 0 {
      GetWithout(m[1..], ks, k);
    }
  }
}
