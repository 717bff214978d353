/**
 * The value-click listener arrays of `<search-facets>` and `<search-facet>`:
 * `push` to add, a scan that splices out the first identical entry to remove, and a
 * dispatch that calls every listener in order.
 *
 * A listener is a function compared by identity (`===`); the model names each one by
 * an opaque identity.
 */
module Listeners {
  import opened JsBuiltins

  /** The identity of a listener function. */
  type ListenerId = nat

  /** One call a dispatch makes: `fn(name, value)`. */
  datatype Call<N> = Call(listener: ListenerId, name: N, value: string)

  /** The array after the first entry identical to `f` is spliced out (unchanged when there is none). */
  function RemoveFirst(ls: seq<ListenerId>, f: ListenerId): seq<ListenerId> {
    var i := IndexOf(ls, f);
    if i < 0 then ls else ls[..i] + ls[i + 1..]
  }

  /**
   * Removing a present listener drops exactly one copy, its first, and keeps the
   * rest in order; removing an absent one changes nothing.
   */
  lemma RemoveFirstSpec(ls: seq<ListenerId>, f: ListenerId)
    ensures f !in ls ==> RemoveFirst(ls, f) == ls
    ensures f in ls ==>
      var i := IndexOf(ls, f);
      && |RemoveFirst(ls, f)| == |ls| - 1
      && RemoveFirst(ls, f)[..i] == ls[..i]
      && f !in ls[..i]
      && RemoveFirst(ls, f)[i..] == ls[i + 1..]
    ensures multiset(RemoveFirst(ls, f)) == multiset(ls) - multiset{f}
  {
    if f in ls {
      var i := IndexOf(ls, f);
      assert ls == ls[..i] + [ls[i]] + ls[i + 1..];
    }
  }

  /** Adding then removing the same listener leaves the same listeners, as a multiset. */
  lemma AddThenRemove(ls: seq<ListenerId>, f: ListenerId)
    ensures multiset(RemoveFirst(ls + [f], f)) == multiset(ls)
    ensures f !in ls ==> RemoveFirst(ls + [f], f) == ls
  {
    RemoveFirstSpec(ls + [f], f);
    if f !in ls {
      var i := IndexOf(ls + [f], f);
      assert (ls + [f])[|ls|] == f;
      assert forall j :: 0 <= j < |ls| ==> (ls + [f])[j] == ls[j] != f;
      assert (ls + [f])[..|ls|] == ls;
    }
  }

  /** The scan of `removeValueClickListener`: the position of the first identical entry. */
  method FindListener(ls: seq<ListenerId>, f: ListenerId) returns (at: int)
    ensures at == IndexOf(ls, f)
  {
    var i := 0;
    while i < |ls|
      invariant 0 <= i <= |ls|
      invariant f !in ls[..i]
    {
      if ls[i] == f {
        IndexOfUnique(ls, f, i);
        return i;
      }
      assert ls[..i + 1] == ls[..i] + [ls[i]];
      i := i + 1;
    }
    assert ls[..i] == ls;
    return -1;
  }

  /** `for (fn of listeners) fn(name, value)`: one call per entry, in order. */
  method Dispatch<N>(ls: seq<ListenerId>, name: N, value: string) returns (calls: seq<Call<N>>)
    ensures |calls| == |ls|
    ensures forall i :: 0 <= i < |ls| ==> calls[i] == Call(ls[i], name, value)
  {
    calls := [];
    var i := 0;
    while i < |ls|
      invariant 0 <= i <= |ls|
      invariant |calls| == i
      invariant forall j :: 0 <= j < i ==> calls[j] == Call(ls[j], name, value)
    {
      calls := calls + [Call(ls[i], name, value)];
      i := i + 1;
    }
  }
}
