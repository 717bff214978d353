# CollectionBuilder client-side search, modelled in Dafny

This project models the browser-side search of a CollectionBuilder site. It covers the
`<search-app>` element (`Search.js`) and the components it builds.

What `<search-app>` does:
- It reads the URL search parameters and compiles them into an Elasticsearch request and a
  count request.
- It reconciles the per-collection counts against the indices directory.
- It folds facet clicks, search-box submissions, page-size changes and clear-filter clicks
  back into the URL.

The components it builds:
- `<search-facets>` sorts each facet's buckets so that the values selected in the URL come
  first, then renders one `<search-facet>` per aggregation.
- `<search-facet>` has a collapsible heading and value-click listeners.
- There are two variants of `<search-facet-values>`, a show-more/show-fewer list. One is on
  the static page and one is in the search app.
- `<search-results-header>` shows the "Showing a - b of n" window and hands the current page
  to the paginator.
- The page-size `<select>` fills its options from an attribute.

The model also covers the `snakeToTitleCase` helper and the small publish/subscribe table.

The data and idioms it models:
- A JavaScript `Map` is an ordered list of pairs. `set` keeps a key where it was first
  inserted (`OrderedMaps`).
- `URLSearchParams` is an ordered multimap with `getAll`, `delete`, `append` and `set`
  (`UrlSearchParams`).
- The built-ins the components call are functions on values (`JsBuiltins`): `split`,
  `join`, `indexOf`, `reverse`, `slice` and `parseInt`.

Modelling choices:
- Components that change their fields are classes with `modifies` frames.
- Each state-changing method is proved against a specification function. The properties
  the code relies on are lemmas about those functions.
- The in-place `buckets.sort` is an insertion sort on an `array`. It is proved equal to a
  functional stable sort, and that sort is proved to permute, order, keep stable, and be
  idempotent.

The model follows the code wherever the repository's prose describes it differently:
- Selected facet values are ordered earliest-applied first. The comparator over the
  reversed `getAll` list gives the value applied first the highest rank.
- `isMulti` is read from the `search-multi` attribute into a local of `connectedCallback`
  (`Search.js:108`). Yet `search()` and `renderFacets()` read `this.isMulti`, which nothing
  sets. The model takes it as a parameter so that both modes are covered.

## Model

| member | source | states |
|---|---|---|
| JsBuiltins.Split | _apps/search/src/components/PageSizeSelector.js:15 | `split` on one character returns at least one part, and no part holds the separator |
| JsBuiltins.JoinSplit | assets/js/helpers.js:12-14 | joining the parts of a split with the separator gives back the original string |
| JsBuiltins.SplitJoin | assets/js/components/Search.js:75-83 | splitting a join gives back the parts when no part holds the separator |
| JsBuiltins.SplitWithoutSeparator | assets/js/helpers.js:12 | a string without the separator splits into itself alone |
| JsBuiltins.SplitAfterSegment | assets/js/helpers.js:12 | a leading segment and separator split off as the first part |
| JsBuiltins.JoinExcludes | assets/js/helpers.js:14 | a join holds no character that neither the parts nor the separator hold |
| JsBuiltins.JoinSameLengths | assets/js/helpers.js:13-14 | joins of part lists with equal part lengths have equal lengths |
| JsBuiltins.FirstPartEmpty | assets/js/helpers.js:12-13 | the first part is empty iff the string is empty or starts with the separator |
| JsBuiltins.LaterPartEmpty | assets/js/helpers.js:12-13 | a later part is empty iff the string ends with the separator or holds two in a row |
| JsBuiltins.EmptyPartIff | assets/js/helpers.js:12-13 | a split has an empty part iff the string is empty, starts or ends with the separator, or doubles it |
| JsBuiltins.IndexOf | assets/js/components/SearchFacets.js:50 | `indexOf` is -1 iff the element is absent; otherwise it is the first position holding it |
| JsBuiltins.IndexOfUnique | assets/js/components/SearchFacets.js:50 | the first position holding an element is the one `indexOf` reports |
| JsBuiltins.LastIndexOf | assets/js/components/SearchFacets.js:48-50 | the last position holding an element, or -1 iff it is absent |
| JsBuiltins.Reverse | assets/js/components/SearchFacets.js:48 | `reverse` keeps the length and mirrors every position |
| JsBuiltins.InReverse | assets/js/components/SearchFacets.js:48 | reversing keeps membership |
| JsBuiltins.IndexOfReverse | assets/js/components/SearchFacets.js:48-50 | in the reversed list, a value's first position is its last original position counted from the end |
| JsBuiltins.ReverseFirstOccurrence | assets/js/components/SearchFacets.js:48-50 | the first occurrence in the reversal mirrors the last occurrence in the original |
| JsBuiltins.SliceIndex | assets/js/components/SearchFacetValues.js:36-38 | `slice(n)` starts at `n` inside the array, is clamped past its end, and counts from the end for a negative `n` |
| OrderedMaps.Keys | assets/js/components/Search.js:194 | `Array.from(m.keys())` lists each pair's key in map order |
| OrderedMaps.Get | assets/js/components/Search.js:151 | `get` is `undefined` iff the key is absent |
| OrderedMaps.GetAt | assets/js/components/Search.js:111-114 | with distinct keys, `get` of a pair's key finds that pair's value |
| OrderedMaps.Put | assets/js/components/Search.js:180 | `set` keeps the key order and appends a new key last |
| OrderedMaps.PutGet | assets/js/components/Search.js:180 | after `set(k, v)`, `get(k)` is `v` and every other key reads as before |
| OrderedMaps.PutNew | assets/js/components/Search.js:112 | `set` of an absent key appends its pair |
| OrderedMaps.PutDistinct | assets/js/components/Search.js:112-113 | `set` keeps keys distinct |
| OrderedMaps.PutAllSnoc | assets/js/components/Search.js:174-183 | one more pair in a loop of `set`s is one more `set` |
| OrderedMaps.DistinctKeysInit | assets/js/components/Search.js:111-114 | dropping the last pair keeps keys distinct, and that pair's key is new to the rest |
| OrderedMaps.PutAllKeys | assets/js/components/Search.js:174-189 | after a loop of `set`s, the keys are the old keys plus the keys set, still distinct |
| OrderedMaps.PutAllLastWins | assets/js/components/Search.js:174-183 | a key ends with the value of the last `set` on it |
| OrderedMaps.PutAllUntouched | assets/js/components/Search.js:186-189 | a key no `set` names keeps its value |
| OrderedMaps.PutAllDistinct | assets/js/components/Search.js:111-114 | pairs with distinct keys loaded into an empty map come back as they are, in order |
| OrderedMaps.Without | assets/js/components/Search.js:154-164 | the pairs left after `pop`/`delete` are no more than before |
| OrderedMaps.WithoutMembers | assets/js/components/Search.js:154-164 | exactly the pairs whose key is not removed are kept |
| OrderedMaps.WithoutDistinct | assets/js/components/Search.js:154-164 | removing keys keeps the remaining keys distinct |
| OrderedMaps.WithoutWithout | assets/js/components/Search.js:154-164 | removing keys in two steps is removing their union |
| OrderedMaps.GetWithout | assets/js/components/Search.js:154-164 | outside the removed keys, `get` is unchanged |
| UrlSearchParams.ValuesOf | assets/js/components/Search.js:310 | `getAll` returns no more values than there are pairs |
| UrlSearchParams.Deleted | assets/js/components/Search.js:317 | `delete` keeps no more pairs than there were |
| UrlSearchParams.FirstIndex | assets/js/components/Search.js:340 | the first pair holding the name, or the length when there is none |
| UrlSearchParams.ValuesConcat | assets/js/components/Search.js:317-318 | `getAll` over two lists of pairs is the two results concatenated |
| UrlSearchParams.DeletedConcat | assets/js/components/Search.js:317-318 | `delete` distributes over concatenation |
| UrlSearchParams.ValuesOfAbsent | assets/js/components/Search.js:340 | a name no pair holds has no values |
| UrlSearchParams.DeletedValues | assets/js/components/Search.js:317 | after `delete(k)`, `k` has no values and every other name keeps its values |
| UrlSearchParams.DeletedKeys | assets/js/components/Search.js:367-369 | `delete(k)` keeps only original pairs, none named `k` |
| UrlSearchParams.DeletedAbsent | assets/js/components/Search.js:321 | deleting a name no pair holds changes nothing |
| UrlSearchParams.ValuesOfOne | assets/js/components/Search.js:318 | a single pair has its value under its own name only |
| UrlSearchParams.SetValueValues | assets/js/components/Search.js:340 | after `set(k, v)`, `getAll(k)` is `[v]` and every other name keeps its values |
| UrlSearchParams.SetValueValuesAt | assets/js/components/Search.js:340 | the same when the first pair named `k` is overwritten in place |
| UrlSearchParams.SearchParams.constructor | assets/js/components/Search.js:309 | `new URLSearchParams(location.search)` holds the URL's pairs |
| UrlSearchParams.SearchParams.GetAll | assets/js/components/Search.js:310 | the loop returns every value of the name, in order |
| UrlSearchParams.SearchParams.Keys | assets/js/components/Search.js:364 | `keys()` lists every pair's name, repeats included |
| UrlSearchParams.SearchParams.Delete | assets/js/components/Search.js:317 | `delete` leaves exactly the pairs not named `k` |
| UrlSearchParams.SearchParams.Append | assets/js/components/Search.js:318 | `append` adds the pair at the end |
| UrlSearchParams.SearchParams.Set | assets/js/components/Search.js:340 | `set` overwrites the first pair and drops the later ones, or appends |
| UrlSearchParams.DeleteAll | assets/js/components/Search.js:317 | the scan of `delete` keeps the pairs not named `k` |
| UrlSearchParams.FindFirst | assets/js/components/Search.js:340 | the scan of `set` finds the first pair named `k` |
| UrlSearchParams.FirstIndexUnique | assets/js/components/Search.js:340 | a position preceded by no pair named `k` and holding it is the first one |
| Helpers.UpperAscii | assets/js/helpers.js:13 | `toUpperCase` shifts a lower-case ASCII letter and keeps every other character |
| Helpers.UpperAsciiFacts | assets/js/helpers.js:13 | upper-casing neither makes nor removes `_` or a space, and is idempotent |
| Helpers.CapitalizeAll | assets/js/helpers.js:12-13 | the `map` fails iff a segment is empty; otherwise each segment gets its first character upper-cased |
| Helpers.SnakeToTitleCaseFails | assets/js/helpers.js:11-14 | `snakeToTitleCase` throws iff the name is empty, starts or ends with `_`, or holds `__` |
| Helpers.SnakeToTitleCaseNoUnderscore | assets/js/helpers.js:11-14 | a result holds no `_` |
| Helpers.SnakeToTitleCaseLength | assets/js/helpers.js:11-14 | a result is as long as its input |
| Helpers.SnakeToTitleCaseHead | assets/js/helpers.js:13 | a result starts with the input's first character, upper-cased |
| Helpers.JoinHead | assets/js/helpers.js:14 | a join starts with the first part's first character |
| Helpers.SnakeToTitleCaseIdempotent | assets/js/helpers.js:11-14 | converting a converted name again changes nothing |
| Helpers.SnakeToTitleCaseExample | assets/js/helpers.js:11-14 | `page_count` becomes `Page Count` |
| Listeners.RemoveFirstSpec | assets/js/components/SearchFacets.js:87-97 | removing a present listener drops exactly its first copy and keeps the rest in order; an absent one changes nothing |
| Listeners.AddThenRemove | assets/js/components/SearchFacets.js:81-97 | adding and then removing a listener restores the listeners, exactly when it was absent before |
| Listeners.FindListener | assets/js/components/SearchFacets.js:90-91 | the `for…in` scan finds the first identical listener, or none |
| Listeners.Dispatch | assets/js/components/SearchFacets.js:102-104 | every listener is called once, in order, with the same arguments |
| PageSizeSelector.WithInitialSpec | _apps/search/src/components/PageSizeSelector.js:17-20 | the list always holds the current value, keeps the options in front, and grows only when the value was missing |
| PageSizeSelector.OptionEls | _apps/search/src/components/PageSizeSelector.js:23-31 | one option per entry, in order, selected iff it equals the current value |
| PageSizeSelector.SelectedOptions | assets/js/components/SearchResultsHeader.js:79-91 | some option is always selected, and exactly one when the attribute lists the value at most once |
| PageSizeSelector.PageSizeSelectorElement.constructor | assets/js/components/SearchResultsHeader.js:68-72 | the selector starts without options |
| PageSizeSelector.PageSizeSelectorElement.ConnectedCallback | assets/js/components/SearchResultsHeader.js:74-93 | appends the option elements of the split attribute, with the value added when missing |
| PageSizeSelector.HeaderOptionsSplit | assets/js/components/SearchResultsHeader.js:44 | the header's `10,25,50,100` splits into four options |
| PageSizeSelector.HeaderOptionsExample | assets/js/components/SearchResultsHeader.js:44 | size 10 adds nothing, while size 20 is added as a fifth option |
| PubSub.Topics | assets/js/pubSub.js:7-13 | `TOPICS` maps each topic name to itself |
| PubSub.TopicsSpec | assets/js/pubSub.js:7-13 | the one topic is there under its own name, and nothing else is |
| PubSub.InitialSubscribers | assets/js/pubSub.js:15-17 | every topic starts with an empty subscriber list |
| PubSub.Deliveries | assets/js/pubSub.js:24-30 | one delivery per subscriber, in order, each with the payload or `{}` |
| PubSub.Broker.constructor | assets/js/pubSub.js:15-17 | the table holds the one topic, with no subscribers |
| PubSub.Broker.Subscribe | assets/js/pubSub.js:20-21 | appends to the topic's list and returns its new length; other topics are unchanged; an unknown topic fails |
| PubSub.Broker.Publish | assets/js/pubSub.js:24-30 | calls each subscriber once, in subscription order, with a copy of the payload; an unknown topic fails |
| PubSub.SubscribeThenPublish | assets/js/pubSub.js:20-30 | a new subscriber receives the next publication, last |
| Search.FilterPairs | assets/js/components/Search.js:176-179 | each remaining entry yields its `.raw` filter name and its value list |
| Search.FilterNames | assets/js/components/Search.js:177 | the filter name of each remaining entry, in order |
| Search.FiltersOfKeys | assets/js/components/Search.js:174-183 | the filter keys are exactly the names of the remaining entries, once each |
| Search.FiltersOfLastWins | assets/js/components/Search.js:174-183 | a filter holds the values of the last entry with its name |
| Search.FiltersOfDistinct | assets/js/components/Search.js:174-183 | with distinct names, the filters are the entries renamed, in URL order |
| Search.FiltersOfStep | assets/js/components/Search.js:174-183 | each loop turn is one `set` and adds the entry's value count |
| Search.AppliedCountTotal | assets/js/components/Search.js:182 | `numAppliedFilters` counts every value of every remaining entry |
| Search.AppliedCountMatchesFilters | assets/js/components/Search.js:174-183 | with distinct names, it equals the number of values in the filters |
| Search.CollidingKeysStillCount | assets/js/components/Search.js:174-183 | `topic` and `topic[]` make one filter, yet count three applied values |
| Search.TopicFilterNames | assets/js/components/Search.js:176-177 | `topic` and `topic[]` both name `topic.raw` |
| Search.RawPairs | assets/js/components/Search.js:187-189 | each faceted field pairs with its `.raw` field |
| Search.AggregationsOfGet | assets/js/components/Search.js:186-189 | each faceted field aggregates its `.raw` field, and nothing else is aggregated |
| Search.AggregationsOfDistinct | assets/js/components/Search.js:186-189 | distinct faceted fields give one aggregation each, in order |
| Search.AggregationsOfStep | assets/js/components/Search.js:187-189 | each loop turn is one `set` |
| Search.IncludeKeysRequested | assets/js/components/Search.js:256-264 | every facet rendered, except `collection` in multi mode, has a `.raw` aggregation in the request |
| Search.IndicesOf | assets/js/components/Search.js:111 | the directory's indices, in order |
| Search.TitlesOf | assets/js/components/Search.js:111 | the directory's titles, in order |
| Search.IndexPairs | assets/js/components/Search.js:112 | the `(index, title)` pairs, in order |
| Search.TitlePairs | assets/js/components/Search.js:113 | the `(title, index)` pairs, in order |
| Search.DirectoryStep | assets/js/components/Search.js:111-114 | each directory entry is one `set` on each map |
| Search.IndexTitleOfDirectory | assets/js/components/Search.js:111-114 | with unique indices, the index map lists them in directory order, each mapped to its title |
| Search.TitleIndexOfDirectory | assets/js/components/Search.js:111-114 | with unique titles, the title map lists them in directory order, each mapped to its index |
| Search.DirectoryMapsInverse | assets/js/components/Search.js:111-114 | the two maps are inverse: a title's index maps back to that title |
| Search.ListAttributeRoundTrip | assets/js/components/Search.js:75-105 | a list written with a trailing comma parses back to its names |
| Search.ListAttributeDropsLastName | assets/js/components/Search.js:79-81 | without the trailing comma, the last name is lost |
| Search.BucketKeys | assets/js/components/Search.js:218 | `buckets.map(({key}) => key)` |
| Search.MissingIndices | assets/js/components/Search.js:219 | an index is missing iff it is known and has no bucket |
| Search.UniqueInit | assets/js/components/Search.js:219 | dropping the last element keeps a list unique, and that element is new to the rest |
| Search.MissingIndicesUnique | assets/js/components/Search.js:219 | the missing indices of a unique directory are unique |
| Search.ZeroBuckets | assets/js/components/Search.js:220 | one zero-count bucket per missing index |
| Search.ZeroFilledCovers | assets/js/components/Search.js:217-222 | after the zero-fill, every known index has a bucket, the original buckets keep their place, and each added one has count 0 for a missing index |
| Search.ZeroFilledExactlyOnce | assets/js/components/Search.js:217-222 | a response with one bucket per known index it saw becomes exactly one bucket per known index |
| Search.Omit | assets/js/components/Search.js:313 | `filter(x => x !== v)` keeps exactly the other values |
| Search.OmitAbsent | assets/js/components/Search.js:313 | filtering out an absent value changes nothing |
| Search.OmitAppended | assets/js/components/Search.js:313-315 | filtering out a value just pushed gives back the list |
| Search.ToggleTwiceRestoresValues | assets/js/components/Search.js:312-316 | clicking an unselected value twice restores the value list |
| Search.Appended | assets/js/components/Search.js:318 | the `forEach` appends one pair per value, in order |
| Search.AppendedValues | assets/js/components/Search.js:318 | the appended pairs hold exactly those values under that key |
| Search.FacetKeyIsNotStart | assets/js/components/Search.js:307 | a facet's key ends in `[]`, so it is never `start` |
| Search.ToggleFacetValueValues | assets/js/components/Search.js:304-325 | a click toggles the value in `name[]`, drops `start`, and leaves every other key alone |
| Search.ToggleTwiceRestoresUrl | assets/js/components/Search.js:304-325 | two clicks on an unselected value restore every key except `start` |
| Search.WithoutKeys | assets/js/components/Search.js:367-369 | the remaining pairs hold none of the removed keys |
| Search.WithoutKeysFrom | assets/js/components/Search.js:367-369 | every remaining pair comes from the URL |
| Search.DeletedWithoutKeys | assets/js/components/Search.js:367-372 | one more `delete` removes one more key |
| Search.WithoutKeysValues | assets/js/components/Search.js:367-369 | removed keys lose their values, and other keys keep them |
| Search.ClearFilters | assets/js/components/Search.js:357-379 | clearing filters leaves no `[]` key and no `start`, and every other key keeps its values |
| Search.SubmitQuery | assets/js/components/Search.js:327-344 | only Enter changes the URL; it sets `q` alone and keeps every other key, `start` included |
| Search.ChangePageSize | assets/js/components/Search.js:346-355 | a page-size change sets `size` alone and keeps every other key |
| Search.SearchApp.constructor | assets/js/components/Search.js:23-27 | both directory maps start empty |
| Search.SearchApp.Connect | assets/js/components/Search.js:75-114 | parses the three list attributes and loads the directory into both maps |
| Search.SearchApp.LoadDirectory | assets/js/components/Search.js:111-114 | the directory loop puts each entry into both maps, in order |
| Search.SearchApp.IndicesFor | assets/js/components/Search.js:151 | a targeted index is `undefined` iff its title is unknown |
| Search.SearchApp.BuildFilters | assets/js/components/Search.js:172-183 | the loop computes the filters map and the applied-value count |
| Search.SearchApp.BuildAggregations | assets/js/components/Search.js:185-189 | the loop computes the aggregation map |
| Search.SearchApp.Search | assets/js/components/Search.js:127-209 | the request is built from the popped `q`, `start`, `size` and `fields` and the remaining filters; the count query reuses its clause over every known index |
| Search.SearchApp.ReconcileCollectionAggregation | assets/js/components/Search.js:214-227 | zero-fills the missing indices, relabels every bucket with its title, `undefined` exactly for an index the directory does not name, and stores the list as the response's `collection` aggregation, replacing any there and leaving every other aggregation as it was |
| Search.SearchApp.FacetValueClick | assets/js/components/Search.js:304-325 | pushes the toggled URL |
| Search.SearchApp.AppendAll | assets/js/components/Search.js:318 | appends every value under the key, in order |
| Search.SearchApp.SearchInputKeydown | assets/js/components/Search.js:327-344 | returns early unless Enter, else pushes the URL with `q` set |
| Search.SearchApp.PageSizeSelectorChange | assets/js/components/Search.js:346-355 | pushes the URL with `size` set |
| Search.SearchApp.ClearFiltersClick | assets/js/components/Search.js:357-379 | pushes the URL without its `[]` keys and `start` |
| Search.ArrayKeySet | assets/js/components/Search.js:364 | `new Set(keys.filter(endsWith "[]"))` holds exactly the URL's `[]` keys |
| Search.DeleteEach | assets/js/components/Search.js:367-369 | deleting each key leaves the pairs outside those keys |
| Search.WithoutKeysNone | assets/js/components/Search.js:367-369 | removing no key changes nothing |
| Search.WithoutAbsent | assets/js/components/Search.js:146 | deleting an absent key changes nothing |
| Search.WithoutEmpty | assets/js/components/Search.js:154-164 | removing no key changes nothing |
| Search.WithoutKeepsLists | assets/js/components/Search.js:174-178 | the remaining entries still hold lists exactly under `[]` keys |
| Search.PopsReadUrl | assets/js/components/Search.js:146-164 | each `pop` reads the URL's own value, because the earlier deletes touch other keys |
| Search.PopsLeaveRest | assets/js/components/Search.js:146-174 | after the pops, the filters are built from exactly the non-reserved entries |
| Search.PopsCompose | assets/js/components/Search.js:154-164 | the four pops together remove the four reserved keys |
| SearchFacets.Insert | assets/js/components/SearchFacets.js:49-51 | insertion grows the list by one |
| SearchFacets.SortByRank | assets/js/components/SearchFacets.js:49-51 | the sort keeps the length |
| SearchFacets.InsertPermutes | assets/js/components/SearchFacets.js:49-51 | insertion adds exactly the inserted bucket |
| SearchFacets.InsertKeepsDescending | assets/js/components/SearchFacets.js:49-51 | insertion keeps ranks descending |
| SearchFacets.InsertWithRank | assets/js/components/SearchFacets.js:49-51 | the inserted bucket goes after every bucket of its rank |
| SearchFacets.SortPermutes | assets/js/components/SearchFacets.js:49-51 | the sort keeps every bucket, as often as it stood |
| SearchFacets.SortDescending | assets/js/components/SearchFacets.js:49-51 | the comparator `rank(b) - rank(a)` puts higher ranks first |
| SearchFacets.SortStable | assets/js/components/SearchFacets.js:49-51 | buckets of equal rank keep their backend order |
| SearchFacets.SelectedFirstInUrlOrder | assets/js/components/SearchFacets.js:46-51 | no unselected value precedes a selected one, and selected values appear in the order they were last applied |
| SearchFacets.SortIdempotent | assets/js/components/SearchFacets.js:49-51 | sorting twice is sorting once |
| SearchFacets.SortOfDescending | assets/js/components/SearchFacets.js:49-51 | a list already in rank order is left as it is |
| SearchFacets.DescendingInit | assets/js/components/SearchFacets.js:49-51 | a prefix of a rank-ordered list is rank-ordered |
| SearchFacets.SortBuckets | assets/js/components/SearchFacets.js:49-51 | the in-place sort of the bucket array leaves the stable sort of its old contents |
| SearchFacets.InsertLast | assets/js/components/SearchFacets.js:49-51 | one insertion step moves `a[i]` left past lower ranks and leaves the rest alone |
| SearchFacets.InsertSplit | assets/js/components/SearchFacets.js:49-51 | insertion is a splice after the last bucket ranked at least as high |
| SearchFacets.ValueViews | assets/js/components/SearchFacets.js:55-59 | each value shows its bucket's key and count, marked selected iff the URL selects it |
| SearchFacets.BucketsOf | assets/js/components/SearchFacets.js:55-59 | the buckets behind the value elements |
| SearchFacets.RenderKeyUntouched | assets/js/components/SearchFacets.js:38-78 | one loop turn touches only its own key's aggregation |
| SearchFacets.RenderKeysUntouched | assets/js/components/SearchFacets.js:38-78 | the loop touches only the aggregations of the keys it visits |
| SearchFacets.RenderKeyStep | assets/js/components/SearchFacets.js:38-78 | a turn throws iff its key has no aggregation, or a non-empty one with no display name; otherwise it appends the key's facet |
| SearchFacets.AllRenderCleanlySnoc | assets/js/components/SearchFacets.js:38 | every key renders cleanly iff the earlier ones and the last one do |
| SearchFacets.RenderKeysSpec | assets/js/components/SearchFacets.js:36-79 | for distinct keys, the loop throws iff some key fails; otherwise it appends one facet per non-empty aggregation, in key order |
| SearchFacets.RenderKeysPrefix | assets/js/components/SearchFacets.js:38 | one more key is one more turn |
| SearchFacets.RenderKeysAfterFailure | assets/js/components/SearchFacets.js:36-79 | once a turn throws, the remaining keys do nothing |
| SearchFacets.FacetValuesSpec | assets/js/components/SearchFacets.js:46-68 | a rendered facet lists the same buckets, marks a value selected iff the URL holds it, and puts selected values first |
| SearchFacets.SearchFacetsElement.constructor | assets/js/components/SearchFacets.js:25-34 | saves the aggregations and the keys, with no listeners |
| SearchFacets.SearchFacetsElement.KeysToRender | assets/js/components/SearchFacets.js:38 | without `includeKeys`, one key per aggregation |
| SearchFacets.SearchFacetsElement.ConnectedCallback | assets/js/components/SearchFacets.js:36-79 | renders exactly what `RenderKeys` describes, sorting each bucket list in place and stopping where a turn throws |
| SearchFacets.SearchFacetsElement.RenderOne | assets/js/components/SearchFacets.js:39-70 | one turn: look up, skip if empty, sort and store back, append the facet |
| SearchFacets.SearchFacetsElement.SortedBuckets | assets/js/components/SearchFacets.js:20-21 | the key's reversed URL values, and its buckets in the sorted order |
| SearchFacets.SearchFacetsElement.AddValueClickListener | assets/js/components/SearchFacets.js:81-85 | appends the listener |
| SearchFacets.SearchFacetsElement.RemoveValueClickListener | assets/js/components/SearchFacets.js:87-97 | removes the first identical listener, if any |
| SearchFacets.SearchFacetsElement.ValueClickHandler | assets/js/components/SearchFacets.js:99-105 | forwards the click to every listener, in order |
| SearchFacet.SearchFacetElement.constructor | assets/js/components/SearchFacet.js:10-39 | a fresh facet is expanded, has no listeners and shows `-` |
| SearchFacet.SearchFacetElement.ConnectedCallback | assets/js/components/SearchFacet.js:41-56 | reads the name attributes and shows the display name |
| SearchFacet.SearchFacetElement.ToggleCollapsed | assets/js/components/SearchFacet.js:58-71 | flips the flag, and the icon and value display follow it |
| SearchFacet.SearchFacetElement.AddValueClickListener | assets/js/components/SearchFacet.js:73-77 | appends the listener |
| SearchFacet.SearchFacetElement.RemoveValueClickListener | assets/js/components/SearchFacet.js:79-89 | removes the first identical listener, if any |
| SearchFacet.SearchFacetElement.ValueClickHandler | assets/js/components/SearchFacet.js:91-99 | with an enclosing value element, calls every listener, in order, with the facet name and the value; without one (a click on the show-more button) it throws before calling any |
| SearchFacet.ToggleTwice | assets/js/components/SearchFacet.js:58-71 | two heading clicks restore the flag, with the display in step |
| SearchFacetValues.Label | assets/js/components/SearchFacetValues.js:56-57 | the control reads "show fewer" iff all values are shown |
| SearchFacetValues.Applied | assets/js/components/SearchFacetValues.js:60-61 | the change handler sets the display of the slice only |
| SearchFacetValues.AppliedSpec | assets/js/components/SearchFacetValues.js:54-62 | default-visible values are untouched, the slice is shown iff `showAll`, and only the last change counts |
| SearchFacetValues.SearchFacetValuesElement.constructor | assets/js/components/SearchFacetValues.js:10-24 | five values are visible by default, collapsed, and the control reads "show more" |
| SearchFacetValues.SearchFacetValuesElement.ConnectedCallback | assets/js/components/SearchFacetValues.js:26-52 | reads the attribute, slices after it, hides or registers the control, and syncs the display |
| SearchFacetValues.SearchFacetValuesElement.ShowAllChangeHandler | assets/js/components/SearchFacetValues.js:54-62 | the text and the slice show the current state |
| SearchFacetValues.SearchFacetValuesElement.ToggleShowAll | assets/js/components/SearchFacetValues.js:64-70 | flips `showAll`, then syncs |
| SearchFacetValues.ToggleTwice | assets/js/components/SearchFacetValues.js:64-70 | two clicks restore the state and the display |
| AppSearchFacetValues.Label | _apps/search/src/components/SearchFacetValues.js:77-79 | the button reads "show fewer" iff all values are shown |
| AppSearchFacetValues.Switch | _apps/search/src/components/SearchFacetValues.js:82-87 | a value has `d-flex` iff shown and `d-none` iff hidden, with its other classes unchanged |
| AppSearchFacetValues.Switched | _apps/search/src/components/SearchFacetValues.js:84-87 | only the slice switches |
| AppSearchFacetValues.Marked | _apps/search/src/components/SearchFacetValues.js:36-45 | the first values get `d-flex`, the rest `d-none` |
| AppSearchFacetValues.FirstConnectVisibility | _apps/search/src/components/SearchFacetValues.js:23-64 | after the first connection, a value is `d-flex` iff it is among the default visible, and `d-none` otherwise |
| AppSearchFacetValues.SwitchedTwice | _apps/search/src/components/SearchFacetValues.js:90-96 | switching again keeps only the last state |
| AppSearchFacetValues.SwitchTwice | _apps/search/src/components/SearchFacetValues.js:82-87 | switching one value twice keeps only the last state |
| AppSearchFacetValues.AppSearchFacetValuesElement.constructor | _apps/search/src/components/SearchFacetValues.js:11-21 | five visible, collapsed, first connection pending |
| AppSearchFacetValues.AppSearchFacetValuesElement.InitialConnectCallback | _apps/search/src/components/SearchFacetValues.js:23-64 | marks the values, then adds the button, collapses and registers the handler when there is a rest |
| AppSearchFacetValues.AppSearchFacetValuesElement.ConnectedCallback | _apps/search/src/components/SearchFacetValues.js:66-73 | every connection is counted; the first has every effect of the first-connection setup, and later ones change nothing else |
| AppSearchFacetValues.AppSearchFacetValuesElement.ShowAllChangeHandler | _apps/search/src/components/SearchFacetValues.js:75-88 | sets the button text and switches the slice; it fails with nothing changed when there is no button |
| AppSearchFacetValues.AppSearchFacetValuesElement.ToggleShowAll | _apps/search/src/components/SearchFacetValues.js:90-96 | flips `showAll`, then runs the handler: with a button, the text and the slice follow the new flag; without one, nothing else changes |
| SearchResultsHeader.OutOfRangeIff | assets/js/components/SearchResultsHeader.js:21-35 | the warning shows iff `start` is at or past the hit count, or the page size is 0 |
| SearchResultsHeader.WindowWithinHits | assets/js/components/SearchResultsHeader.js:21-22 | a shown window lies within the hits and holds `min(numHits - start, size)` results |
| SearchResultsHeader.WindowExample | assets/js/components/SearchResultsHeader.js:21-35 | 23 hits from 20 in pages of 10 show 21 - 23 |
| SearchResultsHeader.CurrentPage | assets/js/components/SearchResultsHeader.js:49 | the corrected page is the 1-based page that holds offset `start` |
| SearchResultsHeader.CurrentPageAgreesWhenAligned | assets/js/components/SearchResultsHeader.js:49 | for an aligned start and pages of two or more, the written formula is right |
| SearchResultsHeader.CurrentPageAsWrittenOffByOne | assets/js/components/SearchResultsHeader.js:49 | the written formula is one page ahead iff `start + 1` is a multiple of the size |
| SearchResultsHeader.NextOffset | assets/js/components/SearchResultsHeader.js:49 | `start + 1` opens the next page iff `start` ends its page |
| SearchResultsHeader.CurrentPageCounterexample | assets/js/components/SearchResultsHeader.js:49 | the first result with one per page is reported on page 2 |
| SearchResultsHeader.Render | assets/js/components/SearchResultsHeader.js:20-54 | the warning shows iff out of range; otherwise the window lies within the hits, and the page passed on is the one holding offset `start + 1`: one past the page of `start` exactly when `start + 1` is a multiple of the size |
| SearchResultsHeader.RenderCorrected | assets/js/components/SearchResultsHeader.js:20-54 | the same view with the page that holds `start` |

## Left out

- DOM construction, CSS classes beyond the visibility classes, event wiring and `createElement` are not modelled. They are presentation, and what each handler computes is modelled instead.
- `renderFacets`, `renderResultsHeader` and `renderResults` are left out. They are instantiation and DOM append. The key list `renderFacets` builds is modelled (`Search.IncludeKeys`).
- `executeQuery`, `getIndicesDirectory` and `buildQuery` (Elasticsearch I/O and a module not modelled) are left out.
  - The responses are inputs.
  - The query clause is the symbolic `ClauseOf(indices, request)`.
  - `Promise.all` concurrency is not modelled.
- `getUrlSearchParams` is not part of this model. Its output is an input: distinct keys, and lists exactly under `[]` keys.
- `updateUrlSearchParams` (`history.pushState`) and `location.search` are left out. Each handler returns the URL it would push.
- `parseInt` is modelled only for absent, empty and all-digit values. `NaN` and partial parses are left out.
- `Search.SearchApp.Search`: `this.isMulti` is a parameter, not an attribute.
- `Search.SearchApp.Search`: the Liquid `{{ site.title }}` placeholder stays a constant string.
- The JSON deep copy in `publish` is modelled as handing over an equal value. Object identity is not modelled.
- The bucket array is sorted in place on a copy, and the sorted list is stored back under its key. Aliasing of the response object is not modelled.
- Listener functions are opaque identities.
- `Search.SearchApp.ReconcileCollectionAggregation`: the response aggregations are a map to buckets whose key may be `undefined`. Handing them to `<search-facets>` (`renderFacets`) is left out, and the facet model takes string keys.
- The wiring of created `<search-facet>` elements to the `<search-facets>` handler, and the `border-bottom` removal, are not modelled.
- `Helpers.UpperAscii`: `toUpperCase` is modelled on ASCII letters only.
- The `null` `options` attribute of the page-size selector, which would throw, is not modelled. The attribute is a string.
- `Paginator.js`, `SearchFacetValue.js`, `SearchResults.js` and the Ruby build files are not part of this model.

## Findings

| source | as written | input that shows it | evidently intended | confidence | as-written member | corrected member |
|---|---|---|---|---|---|---|
| assets/js/components/SearchResultsHeader.js:49 | `current-page` is `floor((start + 1) / size) + 1` | `start = 0, size = 1` gives page 2; `start = 9, size = 10` gives page 2 | the page holding result `start`: `floor(start / size) + 1` | not executed | SearchResultsHeader.CurrentPageAsWrittenOffByOne | SearchResultsHeader.RenderCorrected |
