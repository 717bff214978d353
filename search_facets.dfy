/**
 * The `<search-facets>` element: one `<search-facet>` per aggregation key, its
 * buckets sorted in place so that the values selected in the URL come first, in the
 * order in which they were applied, and every other value keeps the backend order.
 *
 * The comparator ranks a bucket by the position of its key in the reversed list of
 * selected values (-1 when unselected) and sorts by descending rank. The sort is
 * stable, so equal ranks keep their relative order; the model sorts by insertion,
 * which is stable by construction.
 */
module SearchFacets {
  import opened Wrappers
  import opened JsBuiltins
  import opened OrderedMaps
  import opened UrlSearchParams
  import opened Helpers
  import opened Listeners
  import opened Search

  // ---------------------------------------------------------------------------
  // The ordering of the values of one facet

  /**
   * The comparator's key: `selectedFacetVals.indexOf(b.key)`, with `rev` the reversed
   * URL list. The sort below works for any such key function `rank`.
   */
  function UrlRank(rev: seq<string>): Bucket -> int {
    (b: Bucket) => IndexOf(rev, b.key)
  }

  /** Ranks never increase along `s`. */
  predicate RankDescending(rank: Bucket -> int, s: seq<Bucket>) {
    forall i, j :: 0 <= i < j < |s| ==> rank(s[i]) >= rank(s[j])
  }

  /** Places `x` after the last element of `p` whose rank is at least its own. */
  function Insert(rank: Bucket -> int, p: seq<Bucket>, x: Bucket): (r: seq<Bucket>)
    ensures |r| == |p| + 1
    decreases |p|
  {
    if |p| == 0 || rank(p[|p| - 1]) >= rank(x) then p + [x]
    else Insert(rank, p[..|p| - 1], x) + [p[|p| - 1]]
  }

  /** The stable sort by descending rank. */
  function SortByRank(rank: Bucket -> int, s: seq<Bucket>): (r: seq<Bucket>)
    ensures |r| == |s|
    decreases |s|
  {
    if |s| == 0 then []
    else Insert(rank, SortByRank(rank, s[..|s| - 1]), s[|s| - 1])
  }

  /** The elements of `s` of rank `k`, in order. */
  function WithRank(rank: Bucket -> int, s: seq<Bucket>, k: int): seq<Bucket>
    decreases |s|
  {
    if |s| == 0 then []
    else WithRank(rank, s[..|s| - 1], k) + (if rank(s[|s| - 1]) == k then [s[|s| - 1]] else [])
  }

  lemma {:induction false} InsertPermutes(rank: Bucket -> int, p: seq<Bucket>, x: Bucket)
    ensures multiset(Insert(rank, p, x)) == multiset(p) + multiset{x}
    decreases |p|
  {
    if |p| > 0 && rank(p[|p| - 1]) < rank(x) {
      InsertPermutes(rank, p[..|p| - 1], x);
      assert p == p[..|p| - 1] + [p[|p| - 1]];
    }
  }

  lemma {:induction false} InsertKeepsDescending(rank: Bucket -> int, p: seq<Bucket>, x: Bucket)
    requires RankDescending(rank, p)
    ensures RankDescending(rank, Insert(rank, p, x))
    decreases |p|
  {
    if |p| == 0 || rank(p[|p| - 1]) >= rank(x) {
      assert Insert(rank, p, x) == p + [x];
    } else {
      var init, last := p[..|p| - 1], p[|p| - 1];
      InsertKeepsDescending(rank, init, x);
      var q := Insert(rank, init, x);
      assert Insert(rank, p, x) == q + [last];
      assert forall i :: 0 <= i < |q| ==> rank(q[i]) >= rank(last) by {
        InsertPermutes(rank, init, x);
        forall i | 0 <= i < |q| ensures rank(q[i]) >= rank(last) {
          assert q[i] in multiset(init) + multiset{x};
          if q[i] != x {
            var j :| 0 <= j < |init| && init[j] == q[i];
            assert p[j] == init[j];
          }
        }
      }
    }
  }

  /** Inserting `x` adds it after every element of its own rank. */
  lemma {:induction false} InsertWithRank(rank: Bucket -> int, p: seq<Bucket>, x: Bucket, k: int)
    ensures WithRank(rank, Insert(rank, p, x), k) ==
            WithRank(rank, p, k) + (if rank(x) == k then [x] else [])
    decreases |p|
  {
    var r := Insert(rank, p, x);
    if |p| == 0 || rank(p[|p| - 1]) >= rank(x) {
      assert r[..|r| - 1] == p;
    } else {
      var init, last := p[..|p| - 1], p[|p| - 1];
      InsertWithRank(rank, init, x, k);
      assert r[..|r| - 1] == Insert(rank, init, x);
    }
  }

  /** The sort only reorders: it keeps every bucket, as many times as it stood. */
  lemma {:induction false} SortPermutes(rank: Bucket -> int, s: seq<Bucket>)
    ensures |SortByRank(rank, s)| == |s|
    ensures multiset(SortByRank(rank, s)) == multiset(s)
    decreases |s|
  {
    if |s| > 0 {
      var init, last := s[..|s| - 1], s[|s| - 1];
      var sorted := SortByRank(rank, init);
      SortPermutes(rank, init);
      assert SortByRank(rank, s) == Insert(rank, sorted, last);
      assert multiset(s) == multiset(init) + multiset{last} by {
        assert s == init + [last];
      }
      InsertPermutes(rank, sorted, last);
    }
  }

  /** The sort puts higher ranks first: the comparator `rank(b) - rank(a)`. */
  lemma {:induction false} SortDescending(rank: Bucket -> int, s: seq<Bucket>)
    ensures RankDescending(rank, SortByRank(rank, s))
    decreases |s|
  {
    if |s| > 0 {
      SortDescending(rank, s[..|s| - 1]);
      InsertKeepsDescending(rank, SortByRank(rank, s[..|s| - 1]), s[|s| - 1]);
    }
  }

  /** The sort is stable: the buckets of each rank keep their input order. */
  lemma {:induction false} SortStable(rank: Bucket -> int, s: seq<Bucket>, k: int)
    ensures WithRank(rank, SortByRank(rank, s), k) == WithRank(rank, s, k)
    decreases |s|
  {
    if |s| > 0 {
      SortStable(rank, s[..|s| - 1], k);
      InsertWithRank(rank, SortByRank(rank, s[..|s| - 1]), s[|s| - 1], k);
    }
  }

  /**
   * After sorting by the reversed URL list `Reverse(sel)`, no unselected value stands
   * before a selected one, and two selected values stand in the order in which they
   * were last applied (their last positions in `sel`).
   */
  lemma SelectedFirstInUrlOrder(sel: seq<string>, s: seq<Bucket>, i: nat, j: nat)
    requires i < j < |SortByRank(UrlRank(Reverse(sel)), s)|
    ensures var r := SortByRank(UrlRank(Reverse(sel)), s);
      (r[j].key in sel ==> r[i].key in sel) &&
      (r[i].key in sel && r[j].key in sel && r[i].key != r[j].key ==>
         LastIndexOf(sel, r[i].key) < LastIndexOf(sel, r[j].key))
  {
    var rev := Reverse(sel);
    var r := SortByRank(UrlRank(rev), s);
    SortDescending(UrlRank(rev), s);
    assert IndexOf(rev, r[i].key) >= IndexOf(rev, r[j].key) by {
      assert UrlRank(rev)(r[i]) >= UrlRank(rev)(r[j]);
    }
    IndexOfReverse(sel, r[i].key);
    IndexOfReverse(sel, r[j].key);
  }

  /** Sorting a list of buckets a second time changes nothing. */
  lemma {:induction false} SortIdempotent(rank: Bucket -> int, s: seq<Bucket>)
    ensures SortByRank(rank, SortByRank(rank, s)) == SortByRank(rank, s)
  {
    SortDescending(rank, s);
    SortOfDescending(rank, SortByRank(rank, s));
  }

  lemma {:induction false} SortOfDescending(rank: Bucket -> int, s: seq<Bucket>)
    requires RankDescending(rank, s)
    ensures SortByRank(rank, s) == s
    decreases |s|
  {
    if |s| > 0 {
      var init, last := s[..|s| - 1], s[|s| - 1];
      DescendingInit(rank, s);
      SortOfDescending(rank, init);
      assert SortByRank(rank, s) == Insert(rank, init, last);
      assert s == init + [last];
    }
  }

  /** Dropping the last bucket keeps ranks descending, and that bucket ranks no higher than the one before. */
  lemma DescendingInit(rank: Bucket -> int, s: seq<Bucket>)
    requires |s| > 0 && RankDescending(rank, s)
    ensures RankDescending(rank, s[..|s| - 1])
    ensures |s| > 1 ==> rank(s[|s| - 2]) >= rank(s[|s| - 1])
  {
    var init := s[..|s| - 1];
    assert forall i :: 0 <= i < |init| ==> init[i] == s[i];
  }

  // ---------------------------------------------------------------------------
  // The sort, in place on the bucket array

  /** `buckets.sort(...)` with the comparator above, on the response's own array. */
  method SortBuckets(a: array<Bucket>, rank: Bucket -> int)
    modifies a
    ensures a[..] == SortByRank(rank, old(a[..]))
  {
    ghost var s := a[..];
    var i := 0;
    while i < a.Length
      invariant 0 <= i <= a.Length
      invariant a[..i] == SortByRank(rank, s[..i])
      invariant a[i..] == s[i..]
    {
      InsertLast(a, i, rank);
      assert s[..i + 1][..i] == s[..i];
      assert a[i + 1..] == s[i + 1..] by {
        assert s[i + 1..] == s[i..][1..];
      }
      i := i + 1;
    }
    assert s[..a.Length] == s;
  }

  /** Moves `a[i]` left past every element of lower rank, as `Insert` does. */
  method InsertLast(a: array<Bucket>, i: nat, rank: Bucket -> int)
    requires i < a.Length
    modifies a
    ensures a[..i + 1] == Insert(rank, old(a[..i]), old(a[i]))
    ensures a[i + 1..] == old(a[i + 1..])
  {
    var x := a[i];
    ghost var p := a[..i];
    var j := i;
    while j > 0 && rank(a[j - 1]) < rank(x)
      invariant 0 <= j <= i
      invariant forall k :: 0 <= k < j ==> a[k] == p[k]
      invariant forall k :: j < k <= i ==> a[k] == p[k - 1]
      invariant a[i + 1..] == old(a[i + 1..])
      invariant forall k :: j <= k < i ==> rank(p[k]) < rank(x)
    {
      a[j] := a[j - 1];
      j := j - 1;
    }
    a[j] := x;
    InsertSplit(rank, p, x, j);
    assert a[..i + 1] == Insert(rank, p, x);
  }

  /**
   * `x` goes right after the last element ranked at least as high, so `Insert` is a
   * splice at that position.
   */
  lemma {:induction false} InsertSplit(rank: Bucket -> int, p: seq<Bucket>, x: Bucket, j: nat)
    requires j <= |p|
    requires j == 0 || rank(p[j - 1]) >= rank(x)
    requires forall k :: j <= k < |p| ==> rank(p[k]) < rank(x)
    ensures forall k :: 0 <= k < j ==> Insert(rank, p, x)[k] == p[k]
    ensures Insert(rank, p, x)[j] == x
    ensures forall k :: j < k <= |p| ==> Insert(rank, p, x)[k] == p[k - 1]
    decreases |p|
  {
    if j < |p| {
      var init, last := p[..|p| - 1], p[|p| - 1];
      assert Insert(rank, p, x) == Insert(rank, init, x) + [last];
      InsertSplit(rank, init, x, j);
    }
  }

  // ---------------------------------------------------------------------------
  // Rendering the facets

  /** A `<search-facet-value>`: the bucket's key and count, and whether the URL selects it. */
  datatype ValueView = ValueView(value: string, docCount: int, selected: bool)

  /** A `<search-facet>` with its `<search-facet-values initial-num-visible="5">`. */
  datatype FacetView = FacetView(name: string, displayName: string, initialNumVisible: nat, values: seq<ValueView>)

  const InitialNumVisible: nat := 5

  /** `buckets.map(bucketToSearchFacetValueStr)`. */
  function ValueViews(rev: seq<string>, bs: seq<Bucket>): (vs: seq<ValueView>)
    ensures |vs| == |bs|
    ensures forall i :: 0 <= i < |bs| ==> vs[i].value == bs[i].key && vs[i].docCount == bs[i].docCount
    ensures forall i :: 0 <= i < |bs| ==> (vs[i].selected <==> bs[i].key in rev)
  {
    seq(|bs|, i requires 0 <= i < |bs| => ValueView(bs[i].key, bs[i].docCount, bs[i].key in rev))
  }

  /** The buckets of a list of views. */
  function BucketsOf(vs: seq<ValueView>): (bs: seq<Bucket>)
    ensures |bs| == |vs| && forall i :: 0 <= i < |vs| ==> bs[i] == Bucket(vs[i].value, vs[i].docCount)
  {
    seq(|vs|, i requires 0 <= i < |vs| => Bucket(vs[i].value, vs[i].docCount))
  }

  /**
   * The state of a rendering pass: the facets appended so far, the aggregations with
   * the buckets sorted so far, and the key at which the pass threw, if it did.
   */
  datatype Rendering = Rendering(facets: seq<FacetView>, aggregations: OMap<string, seq<Bucket>>, failedAt: Option<string>)

  /** One turn of the loop over the keys. */
  function RenderKey(st: Rendering, key: string, url: Query): Rendering {
    if st.failedAt.Some? then st
    else
      match Get(st.aggregations, key)
      case None => st.(failedAt := Some(key))
      case Some(buckets) =>
        if |buckets| == 0 then st
        else
          var rev := Reverse(ValuesOf(url, key + "[]"));
          RenderSorted(st, key, rev, SortByRank(UrlRank(rev), buckets))
  }

  /** The rest of a turn once the buckets are sorted: store them, then append the facet. */
  function RenderSorted(st: Rendering, key: string, rev: seq<string>, sorted: seq<Bucket>): Rendering {
    var aggs := Put(st.aggregations, key, sorted);
    match SnakeToTitleCase(key)
    case None => Rendering(st.facets, aggs, Some(key))
    case Some(displayName) =>
      Rendering(st.facets + [FacetView(key, displayName, InitialNumVisible, ValueViews(rev, sorted))], aggs, None)
  }

  function RenderKeys(st: Rendering, keys: seq<string>, url: Query): Rendering
    decreases |keys|
  {
    if |keys| == 0 then st
    else RenderKey(RenderKeys(st, keys[..|keys| - 1], url), keys[|keys| - 1], url)
  }

  /** A key renders without throwing: its aggregation exists, and a non-empty one has a display name. */
  predicate RendersCleanly(aggs: OMap<string, seq<Bucket>>, key: string) {
    Get(aggs, key).Some? && (|Get(aggs, key).value| > 0 ==> SnakeToTitleCase(key).Some?)
  }

  /** The facet a key yields, read off the original aggregations: none for an empty one. */
  function FacetFor(aggs: OMap<string, seq<Bucket>>, key: string, url: Query): seq<FacetView> {
    match Get(aggs, key)
    case None => []
    case Some(buckets) =>
      if |buckets| == 0 then []
      else
        match SnakeToTitleCase(key)
        case None => []
        case Some(displayName) =>
          var rev := Reverse(ValuesOf(url, key + "[]"));
          [FacetView(key, displayName, InitialNumVisible, ValueViews(rev, SortByRank(UrlRank(rev), buckets)))]
  }

  function ExpectedFacets(aggs: OMap<string, seq<Bucket>>, keys: seq<string>, url: Query): seq<FacetView>
    decreases |keys|
  {
    if |keys| == 0 then []
    else ExpectedFacets(aggs, keys[..|keys| - 1], url) + FacetFor(aggs, keys[|keys| - 1], url)
  }

  /** One turn touches the aggregation of its own key only. */
  lemma RenderKeyUntouched(st: Rendering, key: string, url: Query, k: string)
    requires k != key
    ensures Get(RenderKey(st, key, url).aggregations, k) == Get(st.aggregations, k)
  {
    if st.failedAt.None? && Get(st.aggregations, key).Some? {
      var sorted := SortByRank(UrlRank(Reverse(ValuesOf(url, key + "[]"))), Get(st.aggregations, key).value);
      PutGet(st.aggregations, key, sorted, k);
    }
  }

  lemma {:induction false} RenderKeysUntouched(st: Rendering, keys: seq<string>, url: Query, k: string)
    requires k !in keys
    ensures Get(RenderKeys(st, keys, url).aggregations, k) == Get(st.aggregations, k)
    decreases |keys|
  {
    if |keys| > 0 {
      var init := keys[..|keys| - 1];
      assert k !in init by { assert forall j :: 0 <= j < |init| ==> init[j] == keys[j]; }
      RenderKeysUntouched(st, init, url, k);
      RenderKeyUntouched(RenderKeys(st, init, url), keys[|keys| - 1], url, k);
    }
  }

  /** A turn that starts from the original aggregation of its key throws iff the key does not render cleanly. */
  lemma RenderKeyStep(st: Rendering, aggs: OMap<string, seq<Bucket>>, key: string, url: Query)
    requires st.failedAt.None? && Get(st.aggregations, key) == Get(aggs, key)
    ensures RenderKey(st, key, url).failedAt.None? <==> RendersCleanly(aggs, key)
    ensures RenderKey(st, key, url).failedAt.None? ==>
      RenderKey(st, key, url).facets == st.facets + FacetFor(aggs, key, url)
  {
  }

  /** Every key of `keys` renders cleanly. */
  predicate AllRenderCleanly(aggs: OMap<string, seq<Bucket>>, keys: seq<string>) {
    forall k :: k in keys ==> RendersCleanly(aggs, k)
  }

  lemma AllRenderCleanlySnoc(aggs: OMap<string, seq<Bucket>>, init: seq<string>, key: string)
    ensures AllRenderCleanly(aggs, init + [key]) <==> AllRenderCleanly(aggs, init) && RendersCleanly(aggs, key)
  {
    assert forall k :: k in init + [key] <==> k in init || k == key;
  }

  /**
   * For distinct keys, the pass throws iff some key does not render cleanly; when it
   * does not throw it appends, in key order, one facet per non-empty aggregation, with
   * the values sorted.
   */
  lemma {:induction false} RenderKeysSpec(facets: seq<FacetView>, aggs: OMap<string, seq<Bucket>>, keys: seq<string>, url: Query)
    requires Unique(keys)
    ensures var r := RenderKeys(Rendering(facets, aggs, None), keys, url);
      && (r.failedAt.None? <==> AllRenderCleanly(aggs, keys))
      && (r.failedAt.None? ==> r.facets == facets + ExpectedFacets(aggs, keys, url))
    decreases |keys|
  {
    if |keys| > 0 {
      var st0 := Rendering(facets, aggs, None);
      var init, key := keys[..|keys| - 1], keys[|keys| - 1];
      assert keys == init + [key];
      UniqueInit(keys);
      RenderKeysSpec(facets, aggs, init, url);
      var st := RenderKeys(st0, init, url);
      assert RenderKeys(st0, keys, url) == RenderKey(st, key, url);
      AllRenderCleanlySnoc(aggs, init, key);
      if st.failedAt.None? {
        RenderKeysUntouched(st0, init, url, key);
        RenderKeyStep(st, aggs, key, url);
        assert ExpectedFacets(aggs, keys, url) == ExpectedFacets(aggs, init, url) + FacetFor(aggs, key, url);
      } else {
        assert RenderKey(st, key, url) == st;
      }
    }
  }

  /** The pass over one more key is one more turn. */
  lemma RenderKeysPrefix(st: Rendering, keys: seq<string>, i: nat, url: Query)
    requires i < |keys|
    ensures RenderKeys(st, keys[..i + 1], url) == RenderKey(RenderKeys(st, keys[..i], url), keys[i], url)
  {
    assert keys[..i + 1][..i] == keys[..i];
  }

  /** Once the pass has thrown, the remaining keys change nothing. */
  lemma {:induction false} RenderKeysAfterFailure(st: Rendering, keys: seq<string>, i: nat, url: Query)
    requires i < |keys| && RenderKeys(st, keys[..i + 1], url).failedAt.Some?
    ensures RenderKeys(st, keys, url) == RenderKeys(st, keys[..i + 1], url)
    decreases |keys|
  {
    if |keys| > i + 1 {
      var init := keys[..|keys| - 1];
      assert init[..i + 1] == keys[..i + 1];
      RenderKeysAfterFailure(st, init, i, url);
    } else {
      assert keys[..i + 1] == keys;
    }
  }

  /**
   * Every facet rendered from buckets `bs` lists the same buckets, flags a value as
   * selected iff its key is among the URL values `sel`, and shows the selected values
   * first.
   */
  lemma FacetValuesSpec(sel: seq<string>, bs: seq<Bucket>)
    ensures var vs := ValueViews(Reverse(sel), SortByRank(UrlRank(Reverse(sel)), bs));
      && multiset(BucketsOf(vs)) == multiset(bs)
      && (forall i :: 0 <= i < |vs| ==> (vs[i].selected <==> vs[i].value in sel))
      && (forall i, j :: 0 <= i < j < |vs| && vs[j].selected ==> vs[i].selected)
  {
    var rev := Reverse(sel);
    var r := SortByRank(UrlRank(rev), bs);
    var vs := ValueViews(rev, r);
    SortPermutes(UrlRank(rev), bs);
    assert BucketsOf(vs) == r;
    forall i | 0 <= i < |vs| ensures vs[i].selected <==> vs[i].value in sel {
      IndexOfReverse(sel, r[i].key);
    }
    forall i, j | 0 <= i < j < |vs| && vs[j].selected ensures vs[i].selected {
      SelectedFirstInUrlOrder(sel, bs, i, j);
      IndexOfReverse(sel, r[i].key);
      IndexOfReverse(sel, r[j].key);
    }
  }

  // ---------------------------------------------------------------------------
  // The element

  class SearchFacetsElement {
    var aggregations: OMap<string, seq<Bucket>>
    var includeKeys: Option<seq<string>>
    var valueClickListeners: seq<ListenerId>
    /** The `<search-facet>` children appended so far. */
    var facets: seq<FacetView>

    constructor (aggregations: OMap<string, seq<Bucket>>, includeKeys: Option<seq<string>>)
      ensures this.aggregations == aggregations && this.includeKeys == includeKeys
      ensures valueClickListeners == [] && facets == []
    {
      this.aggregations := aggregations;
      this.includeKeys := includeKeys;
      valueClickListeners := [];
      facets := [];
    }

    /** `this.includeKeys || Object.keys(this.aggregations)`. */
    function KeysToRender(): (ks: seq<string>)
      reads this
      ensures includeKeys.None? ==> |ks| == |aggregations|
    {
      match includeKeys
      case Some(ks) => ks
      case None => Keys(aggregations)
    }

    /**
     * Renders one facet per key from the URL `url`, sorting each bucket list in place;
     * `failedAt` is the key at which the loop threw (a missing aggregation, or a name
     * with an empty `_` segment), after which nothing more happens.
     */
    method ConnectedCallback(url: Query) returns (failedAt: Option<string>)
      modifies this
      ensures var r := RenderKeys(Rendering(old(facets), old(aggregations), None), old(KeysToRender()), url);
        facets == r.facets && aggregations == r.aggregations && failedAt == r.failedAt
      ensures includeKeys == old(includeKeys) && valueClickListeners == old(valueClickListeners)
    {
      var keys := KeysToRender();
      ghost var st0 := Rendering(facets, aggregations, None);
      failedAt := None;
      var i := 0;
      while i < |keys|
        invariant 0 <= i <= |keys|
        invariant RenderKeys(st0, keys[..i], url) == Rendering(facets, aggregations, None)
        invariant failedAt.None?
        invariant includeKeys == old(includeKeys) && valueClickListeners == old(valueClickListeners)
      {
        RenderKeysPrefix(st0, keys, i, url);
        failedAt := RenderOne(keys[i], url);
        if failedAt.Some? {
          RenderKeysAfterFailure(st0, keys, i, url);
          return;
        }
        i := i + 1;
      }
      assert keys[..i] == keys;
    }

    /**
     * One turn of the loop: looks up the key's buckets, sorts them in place, stores
     * them back and appends the facet; `failedAt` names the key if the turn threw.
     */
    method RenderOne(key: string, url: Query) returns (failedAt: Option<string>)
      modifies this
      ensures Rendering(facets, aggregations, failedAt) ==
              RenderKey(Rendering(old(facets), old(aggregations), None), key, url)
      ensures includeKeys == old(includeKeys) && valueClickListeners == old(valueClickListeners)
    {
      failedAt := None;
      var found := Get(aggregations, key);
      if found.None? {
        failedAt := Some(key);
        return;
      }
      var buckets := found.value;
      if |buckets| == 0 {
        return;
      }
      var rev, sorted := SortedBuckets(key, buckets, url);
      ghost var st := Rendering(facets, aggregations, None);
      assert RenderKey(st, key, url) == RenderSorted(st, key, rev, sorted);
      aggregations := Put(aggregations, key, sorted);
      var displayName := SnakeToTitleCase(key);
      if displayName.None? {
        failedAt := Some(key);
        return;
      }
      facets := facets + [FacetView(key, displayName.value, InitialNumVisible, ValueViews(rev, sorted))];
    }

    /**
     * Reads the key's selected values from a fresh `URLSearchParams`, reverses them,
     * and sorts a copy of the buckets in place with the rank comparator.
     */
    static method SortedBuckets(key: string, buckets: seq<Bucket>, url: Query) returns (rev: seq<string>, sorted: seq<Bucket>)
      ensures rev == Reverse(ValuesOf(url, key + "[]"))
      ensures sorted == SortByRank(UrlRank(rev), buckets)
    {
      var params := new SearchParams(url);
      var selected := params.GetAll(key + "[]");
      rev := Reverse(selected);
      var arr := new Bucket[|buckets|](j requires 0 <= j < |buckets| => buckets[j]);
      assert arr[..] == buckets;
      SortBuckets(arr, UrlRank(rev));
      sorted := arr[..];
    }

    /** `addValueClickListener(fn)`. */
    method AddValueClickListener(fn: ListenerId)
      modifies this
      ensures valueClickListeners == old(valueClickListeners) + [fn]
      ensures aggregations == old(aggregations) && includeKeys == old(includeKeys) && facets == old(facets)
    {
      valueClickListeners := valueClickListeners + [fn];
    }

    /** `removeValueClickListener(fn)`: splices out the first identical entry, if any. */
    method RemoveValueClickListener(fn: ListenerId)
      modifies this
      ensures valueClickListeners == RemoveFirst(old(valueClickListeners), fn)
      ensures aggregations == old(aggregations) && includeKeys == old(includeKeys) && facets == old(facets)
    {
      var at := FindListener(valueClickListeners, fn);
      if at >= 0 {
        valueClickListeners := valueClickListeners[..at] + valueClickListeners[at + 1..];
      }
    }

    /** `valueClickHandler(name, value)`: forwards the click to every listener, in order. */
    method ValueClickHandler(name: string, value: string) returns (calls: seq<Call<string>>)
      ensures |calls| == |valueClickListeners|
      ensures forall i :: 0 <= i < |calls| ==> calls[i] == Call(valueClickListeners[i], name, value)
    {
      calls := Dispatch(valueClickListeners, name, value);
    }
  }
}
