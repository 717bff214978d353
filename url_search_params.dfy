/**
 * `URLSearchParams` as the search handlers use it: an ordered list of name/value
 * pairs in which a name may stand many times. `getAll` reads every value of a name
 * in order, `delete` removes every pair with that name, `append` adds a pair at the
 * end, and `set` overwrites the first pair with that name and drops the others (or
 * appends when there is none).
 */
module UrlSearchParams {

  datatype Entry = Entry(key: string, value: string)

  /** The pairs of a query string, in order. */
  type Query = seq<Entry>

  /** `getAll(k)`: every value stored under `k`, in order. */
  function ValuesOf(q: Query, k: string): (vs: seq<string>)
    ensures |vs| <= |q|
    decreases |q|
  {
    if |q| == 0 then []
    else ValuesOf(q[..|q| - 1], k) + (if q[|q| - 1].key == k then [q[|q| - 1].value] else [])
  }

  /** The pairs that `delete(k)` keeps. */
  function Deleted(q: Query, k: string): (r: Query)
    ensures |r| <= |q|
    decreases |q|
  {
    if |q| == 0 then []
    else Deleted(q[..|q| - 1], k) + (if q[|q| - 1].key == k then [] else [q[|q| - 1]])
  }

  /** The position of the first pair named `k`, or `|q|` when there is none. */
  function FirstIndex(q: Query, k: string): (r: nat)
    ensures r <= |q|
    ensures forall i :: 0 <= i < r ==> q[i].key != k
    ensures r < |q| ==> q[r].key == k
    decreases |q|
  {
    if |q| == 0 then 0
    else if q[0].key == k then 0
    else 1 + FirstIndex(q[1..], k)
  }

  /** The pairs after `set(k, v)`. */
  function SetValue(q: Query, k: string, v: string): Query {
    var j := FirstIndex(q, k);
    if j == |q| then q + [Entry(k, v)]
    else q[..j] + [Entry(k, v)] + Deleted(q[j + 1..], k)
  }

  lemma {:induction false} ValuesConcat(a: Query, b: Query, k: string)
    ensures ValuesOf(a + b, k) == ValuesOf(a, k) + ValuesOf(b, k)
    decreases |b|
  {
    if |b| > 0 {
      assert (a + b)[..|a + b| - 1] == a + b[..|b| - 1];
      ValuesConcat(a, b[..|b| - 1], k);
    } else {
      assert a + b == a;
    }
  }

  lemma {:induction false} DeletedConcat(a: Query, b: Query, k: string)
    ensures Deleted(a + b, k) == Deleted(a, k) + Deleted(b, k)
    decreases |b|
  {
    if |b| > 0 {
      assert (a + b)[..|a + b| - 1] == a + b[..|b| - 1];
      DeletedConcat(a, b[..|b| - 1], k);
    } else {
      assert a + b == a;
    }
  }

  /** A name no pair holds has no values. */
  lemma {:induction false} ValuesOfAbsent(q: Query, k: string)
    requires forall i :: 0 <= i < |q| ==> q[i].key != k
    ensures ValuesOf(q, k) == []
    decreases |q|
  {
    if |q| > 0 {
      ValuesOfAbsent(q[..|q| - 1], k);
    }
  }

  /** After `delete(k)`, `k` has no values and every other name keeps its values. */
  lemma {:induction false} DeletedValues(q: Query, k: string, k': string)
    ensures ValuesOf(Deleted(q, k), k') == if k' == k then [] else ValuesOf(q, k')
    decreases |q|
  {
    if |q| > 0 {
      var p := q[..|q| - 1];
      DeletedValues(p, k, k');
      var tail := if q[|q| - 1].key == k then [] else [q[|q| - 1]];
      ValuesConcat(Deleted(p, k), tail, k');
      assert tail != [] ==> tail[..0] == [];
    }
  }

  /** `delete(k)` removes exactly the pairs named `k`. */
  lemma {:induction false} DeletedKeys(q: Query, k: string)
    ensures forall i :: 0 <= i < |Deleted(q, k)| ==> Deleted(q, k)[i].key != k && Deleted(q, k)[i] in q
    decreases |q|
  {
    if |q| > 0 {
      DeletedKeys(q[..|q| - 1], k);
    }
  }

  /** `delete(k)` on a name no pair holds changes nothing. */
  lemma {:induction false} DeletedAbsent(q: Query, k: string)
    requires forall i :: 0 <= i < |q| ==> q[i].key != k
    ensures Deleted(q, k) == q
    decreases |q|
  {
    if |q| > 0 {
      DeletedAbsent(q[..|q| - 1], k);
    }
  }

  /** The values of a single pair. */
  lemma ValuesOfOne(e: Entry, k: string)
    ensures ValuesOf([e], k) == if e.key == k then [e.value] else []
  {
    assert [e][..0] == [];
  }

  /** After `set(k, v)`, `getAll(k)` is `[v]` and every other name keeps its values. */
  lemma SetValueValues(q: Query, k: string, v: string, k': string)
    ensures ValuesOf(SetValue(q, k, v), k') == if k' == k then [v] else ValuesOf(q, k')
  {
    var j := FirstIndex(q, k);
    if j == |q| {
      assert SetValue(q, k, v) == q + [Entry(k, v)];
      assert ValuesOf(q + [Entry(k, v)], k') == ValuesOf(q, k') + ValuesOf([Entry(k, v)], k') by {
        ValuesConcat(q, [Entry(k, v)], k');
      }
      ValuesOfOne(Entry(k, v), k');
      if k' == k {
        ValuesOfAbsent(q, k);
      }
    } else {
      assert SetValue(q, k, v) == q[..j] + [Entry(k, v)] + Deleted(q[j + 1..], k);
      SetValueValuesAt(q, k, v, k', j);
    }
  }

  /** `set(k, v)` when the first pair named `k` stands at `j`. */
  lemma SetValueValuesAt(q: Query, k: string, v: string, k': string, j: nat)
    requires j == FirstIndex(q, k) < |q|
    ensures ValuesOf(q[..j] + [Entry(k, v)] + Deleted(q[j + 1..], k), k') == if k' == k then [v] else ValuesOf(q, k')
  {
    if k' == k {
      DeletedValues(q[j + 1..], k, k);
      SetValueValuesAtSame(q[..j], Deleted(q[j + 1..], k), k, v);
    } else {
      SetValueValuesAtOther(q, k, v, k', j);
    }
  }

  lemma SetValueValuesAtSame(a: Query, d: Query, k: string, v: string)
    requires forall i :: 0 <= i < |a| ==> a[i].key != k
    requires ValuesOf(d, k) == []
    ensures ValuesOf(a + [Entry(k, v)] + d, k) == [v]
  {
    ValuesAround(a, Entry(k, v), d, k);
    ValuesOfOne(Entry(k, v), k);
    ValuesOfAbsent(a, k);
  }

  lemma SetValueValuesAtOther(q: Query, k: string, v: string, k': string, j: nat)
    requires j < |q| && q[j].key == k != k'
    ensures ValuesOf(q[..j] + [Entry(k, v)] + Deleted(q[j + 1..], k), k') == ValuesOf(q, k')
  {
    var a, b := q[..j], q[j + 1..];
    ValuesAround(a, Entry(k, v), Deleted(b, k), k');
    ValuesOfOne(Entry(k, v), k');
    DeletedValues(b, k, k');
    ValuesSplit(q, j, k');
    ValuesOfOne(q[j], k');
  }

  /** The values of a list, split around its pair at `j`. */
  lemma ValuesSplit(q: Query, j: nat, k: string)
    requires j < |q|
    ensures ValuesOf(q, k) == ValuesOf(q[..j], k) + ValuesOf([q[j]], k) + ValuesOf(q[j + 1..], k)
  {
    assert q[..j] + [q[j]] + q[j + 1..] == q;
    ValuesAround(q[..j], q[j], q[j + 1..], k);
  }

  /** The values of a list split around one pair. */
  lemma ValuesAround(a: Query, e: Entry, b: Query, k: string)
    ensures ValuesOf(a + [e] + b, k) == ValuesOf(a, k) + ValuesOf([e], k) + ValuesOf(b, k)
  {
    ValuesConcat(a + [e], b, k);
    ValuesConcat(a, [e], k);
  }

  /** A `URLSearchParams` object built from `location.search` and changed in place. */
  class SearchParams {
    var list: Query

    /** `new URLSearchParams(location.search)`. */
    constructor (init: Query)
      ensures list == init
    {
      list := init;
    }

    /** `getAll(k)`. */
    method GetAll(k: string) returns (vs: seq<string>)
      ensures vs == ValuesOf(list, k)
    {
      vs := [];
      var i := 0;
      while i < |list|
        invariant 0 <= i <= |list|
        invariant vs == ValuesOf(list[..i], k)
      {
        assert list[..i + 1][..i] == list[..i];
        if list[i].key == k {
          vs := vs + [list[i].value];
        }
        i := i + 1;
      }
      assert list[..|list|] == list;
    }

    /** `Array.from(keys())`: the name of every pair, repeats included. */
    method Keys() returns (ks: seq<string>)
      ensures |ks| == |list|
      ensures forall i :: 0 <= i < |list| ==> ks[i] == list[i].key
    {
      ks := [];
      var i := 0;
      while i < |list|
        invariant 0 <= i <= |list|
        invariant |ks| == i
        invariant forall j :: 0 <= j < i ==> ks[j] == list[j].key
      {
        ks := ks + [list[i].key];
        i := i + 1;
      }
    }

    /** `delete(k)`. */
    method Delete(k: string)
      modifies this
      ensures list == Deleted(old(list), k)
    {
      list := DeleteAll(list, k);
    }

    /** `append(k, v)`. */
    method Append(k: string, v: string)
      modifies this
      ensures list == old(list) + [Entry(k, v)]
    {
      list := list + [Entry(k, v)];
    }

    /** `set(k, v)`. */
    method Set(k: string, v: string)
      modifies this
      ensures list == SetValue(old(list), k, v)
    {
      var at := FindFirst(list, k);
      if at == |list| {
        list := list + [Entry(k, v)];
      } else {
        var rest := DeleteAll(list[at + 1..], k);
        list := list[..at] + [Entry(k, v)] + rest;
      }
    }
  }

  /** The pass of `delete(k)` over the pairs: keeps every pair not named `k`. */
  method DeleteAll(q: Query, k: string) returns (out: Query)
    ensures out == Deleted(q, k)
  {
    out := [];
    var i := 0;
    while i < |q|
      invariant 0 <= i <= |q|
      invariant out == Deleted(q[..i], k)
    {
      assert q[..i + 1][..i] == q[..i];
      if q[i].key != k {
        out := out + [q[i]];
      }
      i := i + 1;
    }
    assert q[..|q|] == q;
  }

  /** The search of `set(k, v)` for the first pair named `k`. */
  method FindFirst(q: Query, k: string) returns (at: nat)
    ensures at == FirstIndex(q, k)
  {
    at := 0;
    while at < |q| && q[at].key != k
      invariant at <= |q|
      invariant forall j :: 0 <= j < at ==> q[j].key != k
    {
      at := at + 1;
    }
    FirstIndexUnique(q, k, at);
  }

  lemma {:induction false} FirstIndexUnique(q: Query, k: string, at: nat)
    requires at <= |q|
    requires forall j :: 0 <= j < at ==> q[j].key != k
    requires at < |q| ==> q[at].key == k
    ensures at == FirstIndex(q, k)
    decreases |q|
  {
    if |q| > 0 && at > 0 {
      FirstIndexUnique(q[1..], k, at - 1);
    }
  }
}
