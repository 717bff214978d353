/**
 * The `<search-app>` element: compiling the URL search parameters into the
 * backend request and the count request, reconciling the per-collection counts
 * against the indices directory, and folding user interactions back into the URL.
 *
 * The backend calls are outside the model: `buildQuery` is represented by the
 * arguments it receives, and each response is an input of the operation that
 * reads it.
 */
module Search {
  import opened Wrappers
  import opened JsBuiltins
  import opened OrderedMaps
  import opened UrlSearchParams

  // ---------------------------------------------------------------------------
  // The parsed URL parameters

  /**
   * A value of the parsed URL parameters: a key ending in `[]` holds the list of
   * all its values, any other key a single string.
   */
  datatype ParamValue = Single(text: string) | List(items: seq<string>)

  /** The parsed URL parameters, in URL order, one entry per distinct key. */
  type Params = OMap<string, ParamValue>

  /** A key with multi-value semantics. */
  predicate IsArrayKey(k: string) {
    EndsWith(k, "[]")
  }

  /** Every `[]` key holds a list and every other key a single value. */
  predicate ArrayKeysHoldLists(p: Params) {
    forall i :: 0 <= i < |p| ==> (p[i].1.List? <==> IsArrayKey(p[i].0))
  }

  /** `start` and `size` are absent, empty or decimal digits (the model leaves out `NaN`). */
  predicate NumericOrAbsent(p: Params, k: string) {
    match Get(p, k)
    case None => true
    case Some(v) => v.Single? && (v.text == "" || IsDecimal(v.text))
  }

  /** What the parameter parser hands to the search. */
  predicate WellFormedParams(p: Params) {
    DistinctKeys(p) && ArrayKeysHoldLists(p) && NumericOrAbsent(p, "start") && NumericOrAbsent(p, "size")
  }

  /** `searchParams.pop(k)`: the value, and the parameters without that key. */
  function Pop(p: Params, k: string): (Option<ParamValue>, Params) {
    (Get(p, k), Without(p, {k}))
  }

  /** `pop("q") || ""`. */
  function QueryText(v: Option<ParamValue>): string {
    match v
    case Some(Single(s)) => s
    case _ => ""
  }

  /** `parseInt(pop(k) || default)` for an absent, empty or decimal value. */
  function IntParam(v: Option<ParamValue>, default: nat): nat
    requires v.Some? ==> v.value.Single? && (v.value.text == "" || IsDecimal(v.value.text))
  {
    match v
    case None => default
    case Some(x) => if x.text == "" then default else DecimalValue(x.text)
  }

  /** `pop("fields").split(",")` when `fields` is present, else `["*"]`. */
  function FieldsParam(v: Option<ParamValue>): seq<string> {
    match v
    case Some(Single(s)) => Split(s, ',')
    case _ => ["*"]
  }

  /** The keys that the search pops or deletes before building filters. */
  function ReservedKeys(isMulti: bool): set<string> {
    {"q", "start", "size", "fields"} + (if isMulti then {"collection[]"} else {})
  }

  // ---------------------------------------------------------------------------
  // Filters and aggregations

  /** `<key minus "[]">.raw`. */
  function FilterName(k: string): string {
    (if IsArrayKey(k) then k[..|k| - 2] else k) + ".raw"
  }

  /** `isArray ? v : [v]`. */
  function FilterValues(k: string, v: ParamValue): seq<string>
    requires v.List? <==> IsArrayKey(k)
  {
    if IsArrayKey(k) then v.items else [v.text]
  }

  /** The `(filter name, values)` pair of every remaining entry, in order. */
  function FilterPairs(p: Params): (r: OMap<string, seq<string>>)
    requires ArrayKeysHoldLists(p)
    ensures |r| == |p| && forall i :: 0 <= i < |p| ==> r[i] == (FilterName(p[i].0), FilterValues(p[i].0, p[i].1))
  {
    seq(|p|, i requires 0 <= i < |p| => (FilterName(p[i].0), FilterValues(p[i].0, p[i].1)))
  }

  /** The `filters` map after the loop has visited every entry of `p`. */
  function FiltersOf(p: Params): OMap<string, seq<string>>
    requires ArrayKeysHoldLists(p)
  {
    PutAll([], FilterPairs(p))
  }

  /** `numAppliedFilters` after the loop has visited every entry of `p`. */
  function AppliedCount(p: Params): nat
    requires ArrayKeysHoldLists(p)
    decreases |p|
  {
    if |p| == 0 then 0
    else
      var last := p[|p| - 1];
      AppliedCount(p[..|p| - 1]) + |FilterValues(last.0, last.1)|
  }

  /** The filter name of every remaining entry, in order. */
  function FilterNames(p: Params): (r: seq<string>)
    ensures |r| == |p| && forall i :: 0 <= i < |p| ==> r[i] == FilterName(p[i].0)
  {
    seq(|p|, i requires 0 <= i < |p| => FilterName(p[i].0))
  }

  /** Every remaining entry becomes a filter, and the filter keys are exactly those names, once each. */
  lemma FiltersOfKeys(p: Params)
    requires ArrayKeysHoldLists(p)
    ensures forall n :: n in Keys(FiltersOf(p)) <==> n in FilterNames(p)
    ensures DistinctKeys(FiltersOf(p))
  {
    PutAllKeys([], FilterPairs(p));
    assert Keys(FilterPairs(p)) == FilterNames(p);
  }

  /**
   * The filter named by an entry holds that entry's values unless a later entry
   * has the same filter name (`x` and `x[]` both become `x.raw`): the later one wins.
   */
  lemma FiltersOfLastWins(p: Params, i: nat)
    requires ArrayKeysHoldLists(p) && i < |p|
    requires forall j :: i < j < |p| ==> FilterName(p[j].0) != FilterName(p[i].0)
    ensures Get(FiltersOf(p), FilterName(p[i].0)) == Some(FilterValues(p[i].0, p[i].1))
  {
    PutAllLastWins([], FilterPairs(p), i);
  }

  /** When no two entries share a filter name, the filters are the entries, renamed, in order. */
  lemma FiltersOfDistinct(p: Params)
    requires ArrayKeysHoldLists(p)
    requires forall i, j :: 0 <= i < j < |p| ==> FilterName(p[i].0) != FilterName(p[j].0)
    ensures |FiltersOf(p)| == |p|
    ensures forall i :: 0 <= i < |p| ==> FiltersOf(p)[i] == (FilterName(p[i].0), FilterValues(p[i].0, p[i].1))
  {
    PutAllDistinct(FilterPairs(p));
  }

  /** The loop's step: one more entry is one more `set` and adds its values to the count. */
  lemma FiltersOfStep(p: Params, i: nat)
    requires ArrayKeysHoldLists(p) && i < |p|
    ensures ArrayKeysHoldLists(p[..i]) && ArrayKeysHoldLists(p[..i + 1])
    ensures FiltersOf(p[..i + 1]) == Put(FiltersOf(p[..i]), FilterName(p[i].0), FilterValues(p[i].0, p[i].1))
    ensures AppliedCount(p[..i + 1]) == AppliedCount(p[..i]) + |FilterValues(p[i].0, p[i].1)|
  {
    assert p[..i + 1][..i] == p[..i];
    assert FilterPairs(p[..i + 1]) == FilterPairs(p[..i]) + [(FilterName(p[i].0), FilterValues(p[i].0, p[i].1))];
    PutAllSnoc([], FilterPairs(p[..i]), FilterName(p[i].0), FilterValues(p[i].0, p[i].1));
  }

  /** The sum of the value-list lengths over a filter map. */
  function TotalValues(m: OMap<string, seq<string>>): nat
    decreases |m|
  {
    if |m| == 0 then 0 else TotalValues(m[..|m| - 1]) + |m[|m| - 1].1|
  }

  /** `numAppliedFilters` is the number of values over all remaining entries. */
  lemma {:induction false} AppliedCountTotal(p: Params)
    requires ArrayKeysHoldLists(p)
    ensures AppliedCount(p) == TotalValues(FilterPairs(p))
    decreases |p|
  {
    if |p| > 0 {
      var q := p[..|p| - 1];
      AppliedCountTotal(q);
      assert FilterPairs(p)[..|p| - 1] == FilterPairs(q);
    }
  }

  /** With distinct filter names it is also the number of values in the filters. */
  lemma AppliedCountMatchesFilters(p: Params)
    requires ArrayKeysHoldLists(p)
    requires forall i, j :: 0 <= i < j < |p| ==> FilterName(p[i].0) != FilterName(p[j].0)
    ensures AppliedCount(p) == TotalValues(FiltersOf(p))
  {
    AppliedCountTotal(p);
    PutAllDistinct(FilterPairs(p));
  }

  /** `?topic=a&topic[]=b&topic[]=c`: one filter `topic.raw`, yet three applied values. */
  lemma CollidingKeysStillCount()
    ensures var p: Params := [("topic", Single("a")), ("topic[]", List(["b", "c"]))];
      ArrayKeysHoldLists(p) && |FiltersOf(p)| == 1 && AppliedCount(p) == 3
      && Get(FiltersOf(p), "topic.raw") == Some(["b", "c"])
  {
    var p: Params := [("topic", Single("a")), ("topic[]", List(["b", "c"]))];
    TopicFilterNames();
    assert p[..1] == [("topic", Single("a"))] && p[..1][..0] == [];
    assert AppliedCount(p[..1]) == 1;
    var first: OMap<string, seq<string>> := [("topic.raw", ["a"])];
    assert FilterPairs(p) == first + [("topic.raw", ["b", "c"])];
    PutAllSnoc([], first, "topic.raw", ["b", "c"]);
    assert first == [] + [("topic.raw", ["a"])];
    PutAllSnoc([], [], "topic.raw", ["a"]);
    assert FiltersOf(p) == [("topic.raw", ["b", "c"])];
  }

  /** `topic` and `topic[]` both name the filter `topic.raw`. */
  lemma TopicFilterNames()
    ensures IsArrayKey("topic[]") && !IsArrayKey("topic")
    ensures FilterName("topic") == "topic.raw" && FilterName("topic[]") == "topic.raw"
  {
    assert "topic[]"[|"topic[]"| - 2..] == "[]";
    assert "topic"[|"topic"| - 2..] == "ic";
    assert "topic[]"[..|"topic[]"| - 2] == "topic";
  }


  /** The `(name, name.raw)` pair of every faceted field, in order. */
  function RawPairs(names: seq<string>): (r: OMap<string, string>)
    ensures |r| == |names| && forall i :: 0 <= i < |names| ==> r[i] == (names[i], names[i] + ".raw")
  {
    seq(|names|, i requires 0 <= i < |names| => (names[i], names[i] + ".raw"))
  }

  /** The aggregation map after the loop over `names`: `name -> name.raw`. */
  function AggregationsOf(names: seq<string>): OMap<string, string> {
    PutAll([], RawPairs(names))
  }

  /** Each faceted field maps to its `.raw` field, and nothing else is aggregated. */
  lemma AggregationsOfGet(names: seq<string>, n: string)
    ensures Get(AggregationsOf(names), n) == if n in names then Some(n + ".raw") else None
  {
    assert Keys(RawPairs(names)) == names;
    if n in names {
      var i := LastIndexOf(names, n);
      forall j | i < j < |names| ensures names[j] != n {
        assert names[j] == names[i + 1..][j - i - 1];
      }
      PutAllLastWins([], RawPairs(names), i);
    } else {
      PutAllUntouched([], RawPairs(names), n);
    }
  }

  /** With distinct faceted fields the aggregations follow their order, one each. */
  lemma AggregationsOfDistinct(names: seq<string>)
    requires Unique(names)
    ensures AggregationsOf(names) == RawPairs(names)
  {
    PutAllDistinct(RawPairs(names));
  }

  /** The loop's step: one more faceted field is one more `set`. */
  lemma AggregationsOfStep(names: seq<string>, i: nat)
    requires i < |names|
    ensures AggregationsOf(names[..i + 1]) == Put(AggregationsOf(names[..i]), names[i], names[i] + ".raw")
  {
    assert RawPairs(names[..i + 1]) == RawPairs(names[..i]) + [(names[i], names[i] + ".raw")];
    PutAllSnoc([], RawPairs(names[..i]), names[i], names[i] + ".raw");
  }

  /** The keys `renderFacets` hands to `<search-facets>`: the faceted fields, after `collection` in multi mode. */
  function IncludeKeys(facetedFields: seq<string>, isMulti: bool): seq<string> {
    if isMulti then ["collection"] + facetedFields else facetedFields
  }

  /**
   * Every facet the page asks to render, apart from the collection facet of the
   * multi-search page, is a faceted field whose `.raw` aggregation the request holds;
   * the faceted fields keep their order after it.
   */
  lemma IncludeKeysRequested(facetedFields: seq<string>, isMulti: bool, k: string)
    ensures k in IncludeKeys(facetedFields, isMulti) && k != "collection" ==>
      Get(AggregationsOf(facetedFields), k) == Some(k + ".raw")
    ensures "collection" in IncludeKeys(facetedFields, isMulti) <==> isMulti || "collection" in facetedFields
    ensures IncludeKeys(facetedFields, isMulti)[|IncludeKeys(facetedFields, isMulti)| - |facetedFields|..] == facetedFields
  {
    AggregationsOfGet(facetedFields, k);
    if isMulti {
      assert IncludeKeys(facetedFields, isMulti)[1..] == facetedFields;
    }
  }

  // ---------------------------------------------------------------------------
  // The two requests

  /** The fields object handed to `buildQuery`. */
  datatype QueryRequest = QueryRequest(
    q: string,
    filters: OMap<string, seq<string>>,
    start: nat,
    size: nat,
    fields: seq<string>,
    aggregations: OMap<string, string>,
    excludes: seq<string>)

  /**
   * The `query` member of what `buildQuery(indices, request)` returns; the
   * builder is not part of this model, so the clause is known only by its arguments.
   */
  datatype QueryClause = ClauseOf(indices: seq<Option<string>>, request: QueryRequest)

  datatype TermsAggregation = TermsAggregation(name: string, field: string, size: nat)

  /** The count request: no documents, the data query's clause, one terms aggregation. */
  datatype CountQuery = CountQuery(size: nat, query: QueryClause, aggregation: TermsAggregation)

  /** Everything one search cycle sends to the backend, and the applied-filter count. */
  datatype SearchPlan = SearchPlan(
    indices: seq<Option<string>>,
    request: QueryRequest,
    allIndices: seq<string>,
    countQuery: CountQuery,
    numAppliedFilters: nat)

  /** The Liquid placeholder that names the site's own collection when not in multi mode. */
  const SiteTitle: string := "{{ site.title }}"

  /** The field that is never returned with the hits. */
  const FullTextField: string := "full_text"

  // ---------------------------------------------------------------------------
  // The indices directory

  datatype DirectoryEntry = DirectoryEntry(index: string, title: string)

  predicate DistinctIndices(es: seq<DirectoryEntry>) {
    forall i, j :: 0 <= i < j < |es| ==> es[i].index != es[j].index
  }

  predicate DistinctTitles(es: seq<DirectoryEntry>) {
    forall i, j :: 0 <= i < j < |es| ==> es[i].title != es[j].title
  }

  /** The directory's index names, in order. */
  function IndicesOf(es: seq<DirectoryEntry>): (r: seq<string>)
    ensures |r| == |es| && forall i :: 0 <= i < |es| ==> r[i] == es[i].index
  {
    seq(|es|, i requires 0 <= i < |es| => es[i].index)
  }

  /** The directory's titles, in order. */
  function TitlesOf(es: seq<DirectoryEntry>): (r: seq<string>)
    ensures |r| == |es| && forall i :: 0 <= i < |es| ==> r[i] == es[i].title
  {
    seq(|es|, i requires 0 <= i < |es| => es[i].title)
  }

  /** The `(index, title)` pairs of the directory, in order. */
  function IndexPairs(es: seq<DirectoryEntry>): (r: OMap<string, string>)
    ensures |r| == |es| && forall i :: 0 <= i < |es| ==> r[i] == (es[i].index, es[i].title)
  {
    seq(|es|, i requires 0 <= i < |es| => (es[i].index, es[i].title))
  }

  /** The `(title, index)` pairs of the directory, in order. */
  function TitlePairs(es: seq<DirectoryEntry>): (r: OMap<string, string>)
    ensures |r| == |es| && forall i :: 0 <= i < |es| ==> r[i] == (es[i].title, es[i].index)
  {
    seq(|es|, i requires 0 <= i < |es| => (es[i].title, es[i].index))
  }

  /** `m` after `m.set(index, title)` for every entry in order. */
  function IndexTitleOf(m: OMap<string, string>, es: seq<DirectoryEntry>): OMap<string, string> {
    PutAll(m, IndexPairs(es))
  }

  /** `m` after `m.set(title, index)` for every entry in order. */
  function TitleIndexOf(m: OMap<string, string>, es: seq<DirectoryEntry>): OMap<string, string> {
    PutAll(m, TitlePairs(es))
  }

  /** The loop's step: one more entry is one more `set` on each map. */
  lemma DirectoryStep(m: OMap<string, string>, m': OMap<string, string>, es: seq<DirectoryEntry>, i: nat)
    requires i < |es|
    ensures IndexTitleOf(m, es[..i + 1]) == Put(IndexTitleOf(m, es[..i]), es[i].index, es[i].title)
    ensures TitleIndexOf(m', es[..i + 1]) == Put(TitleIndexOf(m', es[..i]), es[i].title, es[i].index)
  {
    assert IndexPairs(es[..i + 1]) == IndexPairs(es[..i]) + [(es[i].index, es[i].title)];
    assert TitlePairs(es[..i + 1]) == TitlePairs(es[..i]) + [(es[i].title, es[i].index)];
    PutAllSnoc(m, IndexPairs(es[..i]), es[i].index, es[i].title);
    PutAllSnoc(m', TitlePairs(es[..i]), es[i].title, es[i].index);
  }

  /**
   * Loaded into an empty map from a directory with unique indices, the index-to-title
   * map lists the indices in directory order and maps each to its title.
   */
  lemma IndexTitleOfDirectory(es: seq<DirectoryEntry>)
    requires DistinctIndices(es)
    ensures Keys(IndexTitleOf([], es)) == IndicesOf(es)
    ensures forall i :: 0 <= i < |es| ==> Get(IndexTitleOf([], es), es[i].index) == Some(es[i].title)
  {
    var m := IndexPairs(es);
    assert DistinctKeys(m);
    PutAllDistinct(m);
    forall i | 0 <= i < |es| ensures Get(m, es[i].index) == Some(es[i].title) {
      GetAt(m, i);
    }
  }

  /**
   * Loaded into an empty map from a directory with unique titles, the title-to-index
   * map lists the titles in directory order and maps each to its index.
   */
  lemma TitleIndexOfDirectory(es: seq<DirectoryEntry>)
    requires DistinctTitles(es)
    ensures Keys(TitleIndexOf([], es)) == TitlesOf(es)
    ensures forall i :: 0 <= i < |es| ==> Get(TitleIndexOf([], es), es[i].title) == Some(es[i].index)
  {
    var m := TitlePairs(es);
    assert DistinctKeys(m);
    PutAllDistinct(m);
    forall i | 0 <= i < |es| ensures Get(m, es[i].title) == Some(es[i].index) {
      GetAt(m, i);
    }
  }

  /**
   * The two maps are inverse to each other: each title maps to an index whose own
   * title is that title again.
   */
  lemma DirectoryMapsInverse(es: seq<DirectoryEntry>, t: string)
    requires DistinctIndices(es) && DistinctTitles(es)
    requires t in TitlesOf(es)
    ensures var ix := Get(TitleIndexOf([], es), t);
      ix.Some? && Get(IndexTitleOf([], es), ix.value) == Some(t)
  {
    IndexTitleOfDirectory(es);
    TitleIndexOfDirectory(es);
    var i :| 0 <= i < |es| && TitlesOf(es)[i] == t;
  }

  // ---------------------------------------------------------------------------
  // The comma-separated attribute lists

  /** `attr.split(",")` without its last part, or `[]` when the attribute is absent. */
  function ParseListAttribute(attr: Option<string>): seq<string> {
    match attr
    case None => []
    case Some(s) => var parts := Split(s, ','); parts[..|parts| - 1]
  }

  /**
   * The attributes are written with a trailing comma (`"a,b,"`): parsing such a list
   * gives back its names.
   */
  lemma ListAttributeRoundTrip(names: seq<string>)
    requires forall i :: 0 <= i < |names| ==> ',' !in names[i]
    ensures ParseListAttribute(Some(Join(names + [""], ","))) == names
  {
    var parts := names + [""];
    SplitJoin(parts, ',');
    assert parts[..|parts| - 1] == names;
  }

  /** Without a trailing comma, the last name is dropped: `"a,b"` parses as `["a"]`. */
  lemma ListAttributeDropsLastName()
    ensures ParseListAttribute(Some("a,b")) == ["a"]
  {
    assert "a,b" == Join(["a", "b"], ",");
    SplitJoin(["a", "b"], ',');
  }

  // ---------------------------------------------------------------------------
  // Reconciling the count aggregation

  datatype Bucket = Bucket(key: string, docCount: int)

  /** A collection bucket after relabelling: `None` is `undefined` (an unknown index). */
  datatype CollectionBucket = CollectionBucket(key: Option<string>, docCount: int)

  function BucketKeys(bs: seq<Bucket>): (ks: seq<string>)
    ensures |ks| == |bs| && forall i :: 0 <= i < |bs| ==> ks[i] == bs[i].key
  {
    seq(|bs|, i requires 0 <= i < |bs| => bs[i].key)
  }

  /** `allIndices.filter(x => !representedIndices.includes(x))`. */
  function MissingIndices(all: seq<string>, represented: seq<string>): (r: seq<string>)
    ensures forall x :: x in r <==> x in all && x !in represented
    decreases |all|
  {
    if |all| == 0 then []
    else
      var init := all[..|all| - 1];
      var x := all[|all| - 1];
      assert all == init + [x];
      MissingIndices(init, represented) + (if x in represented then [] else [x])
  }

  /** No element stands twice. */
  predicate Unique(s: seq<string>) {
    forall i, j :: 0 <= i < j < |s| ==> s[i] != s[j]
  }

  /** Dropping the last element keeps a sequence unique, and that element is not in the rest. */
  lemma UniqueInit(s: seq<string>)
    requires Unique(s) && |s| > 0
    ensures Unique(s[..|s| - 1]) && s[|s| - 1] !in s[..|s| - 1]
  {
    var init := s[..|s| - 1];
    assert forall i :: 0 <= i < |init| ==> init[i] == s[i];
  }

  lemma {:induction false} MissingIndicesUnique(all: seq<string>, represented: seq<string>)
    requires Unique(all)
    ensures Unique(MissingIndices(all, represented))
    decreases |all|
  {
    if |all| > 0 {
      var init := all[..|all| - 1];
      var x := all[|all| - 1];
      UniqueInit(all);
      MissingIndicesUnique(init, represented);
      var m := MissingIndices(init, represented);
      assert x !in m;
      var r := MissingIndices(all, represented);
      assert r == m + (if x in represented then [] else [x]);
      forall i, j | 0 <= i < j < |r| ensures r[i] != r[j] {
        if j < |m| {
          assert r[i] == m[i] && r[j] == m[j];
        } else {
          assert r[i] == m[i] && r[j] == x;
          assert m[i] in m;
        }
      }
    }
  }

  function ZeroBuckets(xs: seq<string>): (bs: seq<Bucket>)
    ensures |bs| == |xs| && forall i :: 0 <= i < |xs| ==> bs[i] == Bucket(xs[i], 0)
  {
    seq(|xs|, i requires 0 <= i < |xs| => Bucket(xs[i], 0))
  }

  /** The buckets after the zero-fill loop. */
  function ZeroFilled(buckets: seq<Bucket>, all: seq<string>): seq<Bucket> {
    buckets + ZeroBuckets(MissingIndices(all, BucketKeys(buckets)))
  }

  /**
   * After the zero-fill every known index has a bucket, the original buckets keep
   * their place, and each added bucket is a missing index with count 0.
   */
  lemma ZeroFilledCovers(buckets: seq<Bucket>, all: seq<string>)
    ensures var f := ZeroFilled(buckets, all);
      && f[..|buckets|] == buckets
      && (forall x :: x in all ==> x in BucketKeys(f))
      && (forall i :: |buckets| <= i < |f| ==>
            f[i].docCount == 0 && f[i].key in all && f[i].key !in BucketKeys(buckets))
  {
    var f := ZeroFilled(buckets, all);
    var missing := MissingIndices(all, BucketKeys(buckets));
    forall x | x in all ensures x in BucketKeys(f) {
      if x in BucketKeys(buckets) {
        var i :| 0 <= i < |buckets| && buckets[i].key == x;
        assert f[i].key == x;
      } else {
        var i :| 0 <= i < |missing| && missing[i] == x;
        assert f[|buckets| + i].key == x;
      }
    }
    forall i | |buckets| <= i < |f|
      ensures f[i].docCount == 0 && f[i].key in all && f[i].key !in BucketKeys(buckets)
    {
      assert f[i] == Bucket(missing[i - |buckets|], 0);
    }
  }

  /**
   * When the response holds one bucket per collection it saw, each a known index,
   * the zero-filled list holds exactly one bucket per known index.
   */
  lemma ZeroFilledExactlyOnce(buckets: seq<Bucket>, all: seq<string>)
    requires Unique(all) && Unique(BucketKeys(buckets))
    requires forall i :: 0 <= i < |buckets| ==> buckets[i].key in all
    ensures |ZeroFilled(buckets, all)| == |all| && Unique(BucketKeys(ZeroFilled(buckets, all)))
  {
    var f := ZeroFilled(buckets, all);
    var missing := MissingIndices(all, BucketKeys(buckets));
    MissingIndicesUnique(all, BucketKeys(buckets));
    ZeroFilledCovers(buckets, all);
    forall i, j | 0 <= i < j < |f| ensures f[i].key != f[j].key {
      if j < |buckets| {
        assert f[i] == buckets[i] && f[j] == buckets[j];
        assert BucketKeys(buckets)[i] != BucketKeys(buckets)[j];
      } else if i < |buckets| {
        assert f[i] == buckets[i];
        assert f[i].key in BucketKeys(buckets);
        assert f[j] == Bucket(missing[j - |buckets|], 0);
        assert missing[j - |buckets|] in missing;
      } else {
        assert f[i].key == missing[i - |buckets|] && f[j].key == missing[j - |buckets|];
        assert missing[i - |buckets|] != missing[j - |buckets|];
      }
    }
    var keys := BucketKeys(f);
    assert SetOf(keys) == SetOf(all) by {
      forall x | x in keys ensures x in all {
        var i :| 0 <= i < |keys| && keys[i] == x;
        if i < |buckets| {
          assert f[i] == buckets[i];
        }
      }
    }
    UniqueCard(keys);
    UniqueCard(all);
  }

  lemma {:induction false} UniqueCard(s: seq<string>)
    requires Unique(s)
    ensures |SetOf(s)| == |s|
    decreases |s|
  {
    if |s| > 0 {
      var init := s[..|s| - 1];
      var x := s[|s| - 1];
      UniqueInit(s);
      UniqueCard(init);
      assert s == init + [x];
      assert SetOf(s) == SetOf(init) + {x};
    }
  }

  // ---------------------------------------------------------------------------
  // The URL mutations of the interaction handlers

  /** `vals.filter(x => x !== v)`. */
  function Omit(vals: seq<string>, v: string): (r: seq<string>)
    ensures v !in r
    ensures forall x :: x in r <==> x in vals && x != v
    decreases |vals|
  {
    if |vals| == 0 then []
    else if vals[0] == v then Omit(vals[1..], v)
    else [vals[0]] + Omit(vals[1..], v)
  }

  lemma {:induction false} OmitAbsent(vals: seq<string>, v: string)
    requires v !in vals
    ensures Omit(vals, v) == vals
    decreases |vals|
  {
    if |vals| > 0 {
      OmitAbsent(vals[1..], v);
    }
  }

  lemma {:induction false} OmitAppended(vals: seq<string>, v: string)
    requires v !in vals
    ensures Omit(vals + [v], v) == vals
    decreases |vals|
  {
    if |vals| == 0 {
    } else {
      assert (vals + [v])[1..] == vals[1..] + [v];
      OmitAppended(vals[1..], v);
    }
  }

  /** The value list of the facet after a click on `v`. */
  function ToggledValues(vals: seq<string>, v: string): seq<string> {
    if v in vals then Omit(vals, v) else vals + [v]
  }

  /** Clicking a value twice that was not selected gives back the value list. */
  lemma ToggleTwiceRestoresValues(vals: seq<string>, v: string)
    requires v !in vals
    ensures ToggledValues(ToggledValues(vals, v), v) == vals
  {
    OmitAppended(vals, v);
  }

  /** `paramVals.forEach(v => params.append(paramKey, v))`, as the pairs appended. */
  function Appended(k: string, vs: seq<string>): (r: Query)
    ensures |r| == |vs| && forall i :: 0 <= i < |vs| ==> r[i] == Entry(k, vs[i])
  {
    seq(|vs|, i requires 0 <= i < |vs| => Entry(k, vs[i]))
  }

  lemma {:induction false} AppendedValues(k: string, vs: seq<string>, k': string)
    ensures ValuesOf(Appended(k, vs), k') == if k' == k then vs else []
    decreases |vs|
  {
    if |vs| > 0 {
      AppendedValues(k, vs[..|vs| - 1], k');
      assert Appended(k, vs)[..|vs| - 1] == Appended(k, vs[..|vs| - 1]);
      assert vs == vs[..|vs| - 1] + [vs[|vs| - 1]];
    }
  }

  /** The key of a facet's values ends in `[]`, so it is never `start`. */
  lemma FacetKeyIsNotStart(name: string)
    ensures IsArrayKey(name + "[]") && name + "[]" != "start"
  {
    var k := name + "[]";
    assert k[|k| - 2..] == "[]";
    assert k[|k| - 1] == ']';
  }

  /** The URL after a click on `value` in facet `name`. */
  function ToggleFacetValue(url: Query, name: string, value: string): Query {
    var pk := name + "[]";
    Deleted(Deleted(url, pk) + Appended(pk, ToggledValues(ValuesOf(url, pk), value)), "start")
  }

  /**
   * A click on `value` in facet `name` removes the value from `name[]` if present and
   * appends it otherwise, drops `start`, and leaves every other key's values alone.
   */
  lemma ToggleFacetValueValues(url: Query, name: string, value: string, k: string)
    ensures ValuesOf(ToggleFacetValue(url, name, value), k) ==
      if k == name + "[]" then ToggledValues(ValuesOf(url, name + "[]"), value)
      else if k == "start" then []
      else ValuesOf(url, k)
  {
    var pk := name + "[]";
    var vals := ToggledValues(ValuesOf(url, pk), value);
    var mid := Deleted(url, pk) + Appended(pk, vals);
    FacetKeyIsNotStart(name);
    DeletedValues(mid, "start", k);
    ValuesConcat(Deleted(url, pk), Appended(pk, vals), k);
    DeletedValues(url, pk, k);
    AppendedValues(pk, vals, k);
  }

  /** Clicking a value that was not selected twice restores every key but `start`, which is gone. */
  lemma ToggleTwiceRestoresUrl(url: Query, name: string, value: string, k: string)
    requires value !in ValuesOf(url, name + "[]")
    ensures ValuesOf(ToggleFacetValue(ToggleFacetValue(url, name, value), name, value), k)
         == if k == "start" then [] else ValuesOf(url, k)
  {
    var once := ToggleFacetValue(url, name, value);
    FacetKeyIsNotStart(name);
    ToggleFacetValueValues(url, name, value, k);
    ToggleFacetValueValues(url, name, value, name + "[]");
    ToggleFacetValueValues(once, name, value, k);
    if k == name + "[]" {
      ToggleTwiceRestoresValues(ValuesOf(url, k), value);
    }
  }

  /** The pairs of `q` whose key is outside `ks`. */
  function WithoutKeys(q: Query, ks: set<string>): (r: Query)
    ensures forall i :: 0 <= i < |r| ==> r[i].key !in ks
    decreases |q|
  {
    if |q| == 0 then []
    else WithoutKeys(q[..|q| - 1], ks) + (if q[|q| - 1].key in ks then [] else [q[|q| - 1]])
  }

  /** Every pair kept comes from the URL. */
  lemma {:induction false} WithoutKeysFrom(q: Query, ks: set<string>)
    ensures forall i :: 0 <= i < |WithoutKeys(q, ks)| ==> WithoutKeys(q, ks)[i] in q
    decreases |q|
  {
    if |q| > 0 {
      var init := q[..|q| - 1];
      WithoutKeysFrom(init, ks);
      assert forall e :: e in init ==> e in q;
    }
  }

  lemma {:induction false} DeletedWithoutKeys(q: Query, ks: set<string>, k: string)
    ensures Deleted(WithoutKeys(q, ks), k) == WithoutKeys(q, ks + {k})
    decreases |q|
  {
    if |q| > 0 {
      var init := q[..|q| - 1];
      var x := q[|q| - 1];
      DeletedWithoutKeys(init, ks, k);
      var tail := if x.key in ks then [] else [x];
      var tail' := if x.key in ks + {k} then [] else [x];
      DeletedConcat(WithoutKeys(init, ks), tail, k);
      assert Deleted(tail, k) == tail' by {
        if tail != [] {
          assert tail[..0] == [];
        }
      }
      assert WithoutKeys(q, ks + {k}) == WithoutKeys(init, ks + {k}) + tail';
    }
  }

  lemma {:induction false} WithoutKeysValues(q: Query, ks: set<string>, k: string)
    ensures ValuesOf(WithoutKeys(q, ks), k) == if k in ks then [] else ValuesOf(q, k)
    decreases |q|
  {
    if |q| > 0 {
      var init := q[..|q| - 1];
      var x := q[|q| - 1];
      WithoutKeysValues(init, ks, k);
      var tail := if x.key in ks then [] else [x];
      ValuesConcat(WithoutKeys(init, ks), tail, k);
      if tail != [] {
        assert tail[..0] == [];
      }
    }
  }

  /** The elements of a list, as a set. */
  function SetOf(s: seq<string>): set<string> {
    set x | x in s
  }

  /** The distinct `[]` keys of the URL, as a set. */
  function ArrayKeysOf(q: Query): set<string> {
    set i | 0 <= i < |q| && IsArrayKey(q[i].key) :: q[i].key
  }

  /**
   * The URL after a click on clear-filters: no `[]` key and no `start` remain, and
   * every other key (`q`, `size`, `fields`, single-valued filters) keeps its values.
   */
  function ClearFilters(url: Query): (r: Query)
    ensures forall i :: 0 <= i < |r| ==> !IsArrayKey(r[i].key) && r[i].key != "start"
    ensures forall k :: !IsArrayKey(k) && k != "start" ==> ValuesOf(r, k) == ValuesOf(url, k)
  {
    var ks := ArrayKeysOf(url) + {"start"};
    var r := WithoutKeys(url, ks);
    WithoutKeysFrom(url, ks);
    forall k | !IsArrayKey(k) && k != "start" ensures ValuesOf(r, k) == ValuesOf(url, k) {
      WithoutKeysValues(url, ks, k);
    }
    r
  }

  /**
   * The URL after a keydown in the search box: unchanged (and no search) unless the
   * key is Enter, which sets `q` alone and leaves every other key, `start` included.
   */
  function SubmitQuery(url: Query, key: string, text: string): (r: Option<Query>)
    ensures r.Some? <==> key == "Enter"
    ensures r.Some? ==> ValuesOf(r.value, "q") == [text]
    ensures r.Some? ==> forall k :: k != "q" ==> ValuesOf(r.value, k) == ValuesOf(url, k)
  {
    if key != "Enter" then None
    else
      assert forall k :: ValuesOf(SetValue(url, "q", text), k) == (if k == "q" then [text] else ValuesOf(url, k)) by {
        forall k { SetValueValues(url, "q", text, k); }
      }
      Some(SetValue(url, "q", text))
  }

  /** The URL after a page-size change: `size` is set alone, `start` included stays. */
  function ChangePageSize(url: Query, size: string): (r: Query)
    ensures ValuesOf(r, "size") == [size]
    ensures forall k :: k != "size" ==> ValuesOf(r, k) == ValuesOf(url, k)
  {
    assert forall k :: ValuesOf(SetValue(url, "size", size), k) == (if k == "size" then [size] else ValuesOf(url, k)) by {
      forall k { SetValueValues(url, "size", size, k); }
    }
    SetValue(url, "size", size)
  }

  // ---------------------------------------------------------------------------
  // The element

  class SearchApp {
    /** `indicesDirectoryIndexTitleMap`. */
    var indexTitle: OMap<string, string>
    /** `indicesDirectoryTitleIndexMap`. */
    var titleIndex: OMap<string, string>
    var allFields: seq<string>
    var facetedFields: seq<string>
    var displayFields: seq<string>

    /** The constructor: both directory maps start empty. */
    constructor ()
      ensures indexTitle == [] && titleIndex == []
      ensures allFields == [] && facetedFields == [] && displayFields == []
    {
      indexTitle, titleIndex := [], [];
      allFields, facetedFields, displayFields := [], [], [];
    }

    /**
     * `connectedCallback` up to the first search: parse the three list attributes
     * and load the directory into both maps.
     */
    method Connect(fieldsAttr: Option<string>, facetedAttr: Option<string>, displayAttr: Option<string>,
                   directory: seq<DirectoryEntry>)
      modifies this
      ensures allFields == ParseListAttribute(fieldsAttr)
      ensures facetedFields == ParseListAttribute(facetedAttr)
      ensures displayFields == ParseListAttribute(displayAttr)
      ensures indexTitle == IndexTitleOf(old(indexTitle), directory)
      ensures titleIndex == TitleIndexOf(old(titleIndex), directory)
    {
      allFields := ParseListAttribute(fieldsAttr);
      facetedFields := ParseListAttribute(facetedAttr);
      displayFields := ParseListAttribute(displayAttr);
      indexTitle, titleIndex := LoadDirectory(indexTitle, titleIndex, directory);
    }

    /** The directory loop: each entry is put into both maps, in order. */
    static method LoadDirectory(it: OMap<string, string>, ti: OMap<string, string>, directory: seq<DirectoryEntry>)
      returns (indexTitle: OMap<string, string>, titleIndex: OMap<string, string>)
      ensures indexTitle == IndexTitleOf(it, directory)
      ensures titleIndex == TitleIndexOf(ti, directory)
    {
      indexTitle, titleIndex := it, ti;
      var i := 0;
      while i < |directory|
        invariant 0 <= i <= |directory|
        invariant indexTitle == IndexTitleOf(it, directory[..i])
        invariant titleIndex == TitleIndexOf(ti, directory[..i])
      {
        DirectoryStep(it, ti, directory, i);
        indexTitle := Put(indexTitle, directory[i].index, directory[i].title);
        titleIndex := Put(titleIndex, directory[i].title, directory[i].index);
        i := i + 1;
      }
      assert directory[..|directory|] == directory;
    }

    /** The collection titles to search: the site's own, the selected ones, or all. */
    function TitlesFor(params: Params, isMulti: bool): seq<string>
      reads this
      requires ArrayKeysHoldLists(params)
    {
      if !isMulti then [SiteTitle]
      else
        match Get(params, "collection[]")
        case None => Keys(titleIndex)
        case Some(v) => if v.List? then v.items else [v.text]
    }

    /** `indiceTitles.map(x => titleIndexMap.get(x))`. */
    function IndicesFor(titles: seq<string>): (r: seq<Option<string>>)
      reads this
      ensures |r| == |titles|
      ensures forall i :: 0 <= i < |titles| ==> (r[i].None? <==> titles[i] !in Keys(titleIndex))
    {
      seq(|titles|, i requires 0 <= i < |titles| reads this => Get(titleIndex, titles[i]))
    }

    /** The filter-building loop over the entries left after the pops. */
    static method BuildFilters(rest: Params) returns (filters: OMap<string, seq<string>>, numApplied: nat)
      requires ArrayKeysHoldLists(rest)
      ensures filters == FiltersOf(rest)
      ensures numApplied == AppliedCount(rest)
    {
      filters, numApplied := [], 0;
      var i := 0;
      while i < |rest|
        invariant 0 <= i <= |rest|
        invariant ArrayKeysHoldLists(rest[..i])
        invariant filters == FiltersOf(rest[..i])
        invariant numApplied == AppliedCount(rest[..i])
      {
        var (k, v) := rest[i];
        FiltersOfStep(rest, i);
        var values := FilterValues(k, v);
        filters := Put(filters, FilterName(k), values);
        numApplied := numApplied + |values|;
        i := i + 1;
      }
      assert rest[..|rest|] == rest;
    }

    /** The aggregation loop over the faceted fields. */
    static method BuildAggregations(names: seq<string>) returns (aggs: OMap<string, string>)
      ensures aggs == AggregationsOf(names)
    {
      aggs := [];
      var i := 0;
      while i < |names|
        invariant 0 <= i <= |names|
        invariant aggs == AggregationsOf(names[..i])
      {
        AggregationsOfStep(names, i);
        aggs := Put(aggs, names[i], names[i] + ".raw");
        i := i + 1;
      }
      assert names[..|names|] == names;
    }

    /**
     * `search()` up to the two backend calls: the targeted indices, the request
     * built from the URL parameters, and the count request over every known index.
     */
    method Search(params: Params, isMulti: bool) returns (plan: SearchPlan)
      requires WellFormedParams(params)
      ensures plan.indices == IndicesFor(TitlesFor(params, isMulti))
      ensures ArrayKeysHoldLists(Without(params, ReservedKeys(isMulti)))
      ensures var rest := Without(params, ReservedKeys(isMulti));
        && plan.request.filters == FiltersOf(rest)
        && plan.numAppliedFilters == AppliedCount(rest)
      ensures plan.request.q == QueryText(Get(params, "q"))
      ensures plan.request.start == IntParam(Get(params, "start"), 0)
      ensures plan.request.size == IntParam(Get(params, "size"), 10)
      ensures plan.request.fields == FieldsParam(Get(params, "fields"))
      ensures plan.request.aggregations == AggregationsOf(facetedFields)
      ensures plan.request.excludes == [FullTextField]
      ensures plan.allIndices == Keys(indexTitle)
      ensures plan.countQuery.size == 0
      ensures plan.countQuery.query == ClauseOf(plan.indices, plan.request)
      ensures plan.countQuery.aggregation == TermsAggregation("collection", "_index", |plan.allIndices|)
    {
      var p := params;
      var titles := TitlesFor(p, isMulti);
      if isMulti && "collection[]" in Keys(p) {
        p := Without(p, {"collection[]"});
      }
      var indices := IndicesFor(titles);
      PopsReadUrl(params, isMulti);
      PopsLeaveRest(params, isMulti);
      var popped := Pop(p, "q");
      var qv := popped.0;
      p := popped.1;
      popped := Pop(p, "start");
      var startv := popped.0;
      p := popped.1;
      popped := Pop(p, "size");
      var sizev := popped.0;
      p := popped.1;
      var fieldsv := FieldsParam(Get(p, "fields"));
      p := Without(p, {"fields"});
      WithoutKeepsLists(params, ReservedKeys(isMulti));

      var filters, numApplied := BuildFilters(p);
      var aggs := BuildAggregations(facetedFields);
      var request := QueryRequest(QueryText(qv), filters, IntParam(startv, 0), IntParam(sizev, 10),
                                  fieldsv, aggs, [FullTextField]);
      var allIndices := Keys(indexTitle);
      var countQuery := CountQuery(0, ClauseOf(indices, request),
                                   TermsAggregation("collection", "_index", |allIndices|));
      plan := SearchPlan(indices, request, allIndices, countQuery, numApplied);
    }

    /**
     * The reconciliation after both responses arrive: a zero-count bucket for every
     * known index the count response left out, then every key swapped for its title
     * (`undefined` for an index the directory does not name), and the result stored
     * as the `collection` aggregation of the search response, replacing any there.
     */
    method ReconcileCollectionAggregation(buckets: seq<Bucket>, responseAggs: OMap<string, seq<CollectionBucket>>)
      returns (labelled: seq<CollectionBucket>, merged: OMap<string, seq<CollectionBucket>>)
      ensures var filled := ZeroFilled(buckets, Keys(indexTitle));
        && |labelled| == |filled|
        && forall i :: 0 <= i < |filled| ==>
             labelled[i] == CollectionBucket(Get(indexTitle, filled[i].key), filled[i].docCount)
      ensures var filled := ZeroFilled(buckets, Keys(indexTitle));
        forall i :: 0 <= i < |filled| ==> (labelled[i].key.None? <==> filled[i].key !in Keys(indexTitle))
      ensures merged == Put(responseAggs, "collection", labelled)
      ensures Get(merged, "collection") == Some(labelled)
      ensures forall k :: k != "collection" ==> Get(merged, k) == Get(responseAggs, k)
      ensures Keys(merged) == if "collection" in Keys(responseAggs) then Keys(responseAggs) else Keys(responseAggs) + ["collection"]
    {
      var allIndices := Keys(indexTitle);
      var represented := BucketKeys(buckets);
      var missing := MissingIndices(allIndices, represented);
      var filled := buckets;
      var i := 0;
      while i < |missing|
        invariant 0 <= i <= |missing|
        invariant filled == buckets + ZeroBuckets(missing[..i])
      {
        assert ZeroBuckets(missing[..i + 1]) == ZeroBuckets(missing[..i]) + [Bucket(missing[i], 0)];
        filled := filled + [Bucket(missing[i], 0)];
        i := i + 1;
      }
      assert missing[..|missing|] == missing;
      labelled := [];
      var j := 0;
      while j < |filled|
        invariant 0 <= j <= |filled|
        invariant |labelled| == j
        invariant forall k :: 0 <= k < j ==>
          labelled[k] == CollectionBucket(Get(indexTitle, filled[k].key), filled[k].docCount)
      {
        labelled := labelled + [CollectionBucket(Get(indexTitle, filled[j].key), filled[j].docCount)];
        j := j + 1;
      }
      merged := Put(responseAggs, "collection", labelled);
      forall k ensures Get(merged, k) == if k == "collection" then Some(labelled) else Get(responseAggs, k) {
        PutGet(responseAggs, "collection", labelled, k);
      }
    }

    /** `facetValueClickHandler(name, value)`: the URL it pushes. */
    method FacetValueClick(url: Query, name: string, value: string) returns (url': Query)
      ensures url' == ToggleFacetValue(url, name, value)
    {
      var params := new SearchParams(url);
      var paramKey := name + "[]";
      var paramVals := params.GetAll(paramKey);
      if value in paramVals {
        paramVals := Omit(paramVals, value);
      } else {
        paramVals := paramVals + [value];
      }
      params.Delete(paramKey);
      AppendAll(params, paramKey, paramVals);
      params.Delete("start");
      url' := params.list;
    }

    /** The `forEach` that appends every value under `key`, in order. */
    static method AppendAll(params: SearchParams, key: string, vals: seq<string>)
      modifies params
      ensures params.list == old(params.list) + Appended(key, vals)
    {
      var i := 0;
      while i < |vals|
        invariant 0 <= i <= |vals|
        invariant params.list == old(params.list) + Appended(key, vals[..i])
      {
        assert Appended(key, vals[..i + 1]) == Appended(key, vals[..i]) + [Entry(key, vals[i])];
        params.Append(key, vals[i]);
        i := i + 1;
      }
      assert vals[..|vals|] == vals;
    }

    /** `searchInputKeydownHandler`: the URL it pushes, or None when it returns early. */
    method SearchInputKeydown(url: Query, key: string, text: string) returns (r: Option<Query>)
      ensures r == SubmitQuery(url, key, text)
    {
      if key != "Enter" {
        return None;
      }
      var params := new SearchParams(url);
      params.Set("q", text);
      r := Some(params.list);
    }

    /** `pageSizeSelectorChangeHandler`: the URL it pushes. */
    method PageSizeSelectorChange(url: Query, size: string) returns (url': Query)
      ensures url' == ChangePageSize(url, size)
    {
      var params := new SearchParams(url);
      params.Set("size", size);
      url' := params.list;
    }

    /** `clearFiltersClickHandler`: the URL it pushes. */
    method ClearFiltersClick(url: Query) returns (url': Query)
      ensures url' == ClearFilters(url)
    {
      var params := new SearchParams(url);
      var keys := params.Keys();
      var filterKeys := ArrayKeySet(keys);
      assert SetOf(filterKeys) == ArrayKeysOf(url) by {
        forall x | x in ArrayKeysOf(url) ensures x in filterKeys {
          var j :| 0 <= j < |url| && IsArrayKey(url[j].key) && url[j].key == x;
          assert keys[j] == x;
        }
      }
      DeleteEach(params, filterKeys);
      DeletedWithoutKeys(url, ArrayKeysOf(url), "start");
      params.Delete("start");
      url' := params.list;
    }
  }

  /** `new Set(keys.filter(x => x.endsWith("[]")))`, in first-seen order. */
  method ArrayKeySet(keys: seq<string>) returns (filterKeys: seq<string>)
    ensures forall x :: x in filterKeys <==> x in keys && IsArrayKey(x)
  {
    filterKeys := [];
    var i := 0;
    while i < |keys|
      invariant 0 <= i <= |keys|
      invariant forall x :: x in filterKeys <==> x in keys[..i] && IsArrayKey(x)
    {
      assert keys[..i + 1] == keys[..i] + [keys[i]];
      if IsArrayKey(keys[i]) && keys[i] !in filterKeys {
        filterKeys := filterKeys + [keys[i]];
      }
      i := i + 1;
    }
    assert keys[..|keys|] == keys;
  }

  /** `filterKeys.forEach(k => params.delete(k))`. */
  method DeleteEach(params: SearchParams, ks: seq<string>)
    modifies params
    ensures params.list == WithoutKeys(old(params.list), SetOf(ks))
  {
    var d := 0;
    WithoutKeysNone(params.list);
    assert SetOf(ks[..0]) == {};
    while d < |ks|
      invariant 0 <= d <= |ks|
      invariant params.list == WithoutKeys(old(params.list), SetOf(ks[..d]))
    {
      DeletedWithoutKeys(old(params.list), SetOf(ks[..d]), ks[d]);
      assert ks[..d + 1] == ks[..d] + [ks[d]];
      assert SetOf(ks[..d + 1]) == SetOf(ks[..d]) + {ks[d]};
      params.Delete(ks[d]);
      d := d + 1;
    }
    assert ks[..|ks|] == ks;
  }

  lemma {:induction false} WithoutKeysNone(q: Query)
    ensures WithoutKeys(q, {}) == q
    decreases |q|
  {
    if |q| > 0 {
      WithoutKeysNone(q[..|q| - 1]);
    }
  }

  lemma {:induction false} WithoutAbsent<V>(m: OMap<string, V>, k: string)
    requires k !in Keys(m)
    ensures Without(m, {k}) == m
    decreases |m|
  {
    if |m| > 0 {
      assert Keys(m)[0] == m[0].0;
      assert k !in Keys(m[1..]) by {
        assert Keys(m[1..]) == Keys(m)[1..];
      }
      WithoutAbsent(m[1..], k);
      assert Without(m, {k}) == [m[0]] + Without(m[1..], {k});
      assert [m[0]] + m[1..] == m;
    }
  }

  lemma {:induction false} WithoutEmpty<V>(m: OMap<string, V>)
    ensures Without(m, {}) == m
    decreases |m|
  {
    if |m| > 0 {
      WithoutEmpty(m[1..]);
    }
  }

  lemma WithoutKeepsLists(p: Params, ks: set<string>)
    requires ArrayKeysHoldLists(p)
    ensures ArrayKeysHoldLists(Without(p, ks))
  {
    WithoutMembers(p, ks);
  }

  /** The parameters after `collection[]` is deleted (in multi mode, when present). */
  function AfterCollectionDelete(params: Params, isMulti: bool): Params {
    if isMulti && "collection[]" in Keys(params) then Without(params, {"collection[]"}) else params
  }

  /** Each pop reads the value the URL gave: the earlier deletes touch other keys. */
  lemma PopsReadUrl(params: Params, isMulti: bool)
    ensures var pre := AfterCollectionDelete(params, isMulti);
      var p1 := Without(pre, {"q"});
      var p2 := Without(p1, {"start"});
      var p3 := Without(p2, {"size"});
      && Get(pre, "q") == Get(params, "q")
      && Get(p1, "start") == Get(params, "start")
      && Get(p2, "size") == Get(params, "size")
      && Get(p3, "fields") == Get(params, "fields")
  {
    var pre := AfterCollectionDelete(params, isMulti);
    var p1 := Without(pre, {"q"});
    var p2 := Without(p1, {"start"});
    GetWithout(params, {"collection[]"}, "q");
    GetWithout(params, {"collection[]"}, "start");
    GetWithout(params, {"collection[]"}, "size");
    GetWithout(params, {"collection[]"}, "fields");
    GetWithout(pre, {"q"}, "start");
    GetWithout(pre, {"q"}, "size");
    GetWithout(pre, {"q"}, "fields");
    GetWithout(p1, {"start"}, "size");
    GetWithout(p1, {"start"}, "fields");
    GetWithout(p2, {"size"}, "fields");
  }

  /**
   * Deleting `collection[]` (in multi mode, when present) and popping `q`, `start`,
   * `size` and `fields` in turn leaves the parameters without the reserved keys.
   */
  lemma PopsLeaveRest(params: Params, isMulti: bool)
    ensures var pre := AfterCollectionDelete(params, isMulti);
      Without(Without(Without(Without(pre, {"q"}), {"start"}), {"size"}), {"fields"})
        == Without(params, ReservedKeys(isMulti))
  {
    var pre := AfterCollectionDelete(params, isMulti);
    var basic := {"q", "start", "size", "fields"};
    PopsCompose(pre);
    if isMulti && "collection[]" in Keys(params) {
      WithoutWithout(params, {"collection[]"}, basic);
      assert {"collection[]"} + basic == ReservedKeys(isMulti);
    } else if isMulti {
      var r := Without(params, basic);
      assert "collection[]" !in Keys(r) by {
        WithoutMembers(params, basic);
        forall i | 0 <= i < |r| ensures r[i].0 != "collection[]" {
          var j :| 0 <= j < |params| && params[j] == r[i];
          assert Keys(params)[j] == r[i].0;
        }
      }
      WithoutAbsent(r, "collection[]");
      WithoutWithout(params, basic, {"collection[]"});
      assert basic + {"collection[]"} == ReservedKeys(isMulti);
    } else {
      assert basic == ReservedKeys(isMulti);
    }
  }

  lemma PopsCompose(pre: Params)
    ensures Without(Without(Without(Without(pre, {"q"}), {"start"}), {"size"}), {"fields"})
      == Without(pre, {"q", "start", "size", "fields"})
  {
    WithoutWithout(pre, {"q"}, {"start"});
    assert {"q"} + {"start"} == {"q", "start"};
    WithoutWithout(pre, {"q", "start"}, {"size"});
    assert {"q", "start"} + {"size"} == {"q", "start", "size"};
    WithoutWithout(pre, {"q", "start", "size"}, {"fields"});
    assert {"q", "start", "size"} + {"fields"} == {"q", "start", "size", "fields"};
  }
}
