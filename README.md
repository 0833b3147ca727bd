# REST analytics collections in Dafny

This project models the three resource controllers of a small analytics REST
service, together with the record schemas they write into:

- `routes/views.js` with `models/View.js` handles page views.
- `routes/actions.js` with `models/Action.js` handles visitor actions.
- `routes/goals.js` with `models/Goal.js` handles reached goals.

The three controllers do the same things, so they are modelled once.
A `Kind` (`Views`, `Actions` or `Goals`) picks the variant. Its only
difference is the discriminator string, called the *tag* here: none for
views, `action` for actions, `goal` for goals.

Every record holds these fields:

- `source`, `url` and `visitor`
- the tag, for actions and goals
- `createdAt`, a natural-number timestamp
- `meta`, an opaque JSON value.

A collection is a map from identifier to record.

The modules:

- `Values`: `Option`/`Result`, the JSON value stored in `meta`, and
  JavaScript truthiness of body and query values.
- `Text`: `String.prototype.trim`, which Mongoose's `trim: true` applies. It
  uses the ECMAScript whitespace set.
- `Schema`: the schema literals.
  - Required trimmed strings, the `createdAt` and `meta` defaults, and the
    rejection of a record whose required path is missing or empty.
  - The casting and validation of an update document under
    `runValidators`, and the `$set` semantics of applying one.
- `Listing`: the list handler.
  - The equality filter built from the query, newest-first order, and
    `skip`/`limit` paging. Each request runs its own `find` and sort,
    so the result order of each page's query is a parameter. It can be
    any order `sort({createdAt: -1})` may return.
  - `totalCount` and `totalPages`.
  - Reading every page in turn yields each matching record exactly once.
    This holds when no two matching records share a `createdAt`, or when
    the sort breaks ties by identifier (see Findings).
- `Stats`: the summary handler.
  - The total, and the distinct-value counts.
  - The `$group`/`$sort` ranking of the tag, its top-10 head
    (`popularActions`, `popularGoals`), and the uncapped
    `goalConversionRates`. Each `aggregate` call's result is a parameter,
    which can be any ranking the pipeline may return. Two rankings of the
    same collection carry the same counts in the same order.
- `Controller`: the handlers that touch one record.
  - A class `Collection` whose `records` map is changed in place by
    `Create`, `Update` and `Delete`, plus `Get`.
  - The step-by-step construction of the list filter and of the update
    document.

Behaviour kept from the code:

- **Whitespace-only required value.** A value such as `"   "` passes the
  handler's truthiness check. It then trims to `""` and fails the schema's
  `required`. The handler's `catch` turns that into 500, not 400, and nothing
  is stored.
- **Whitespace-only update value.** For an update, the cast and validation of
  the update document happen before the document is looked up. So such a
  value yields 500 even for an unknown identifier.
- **Query values are trimmed.** The list filter holds the raw query values.
  When `find` and `countDocuments` cast the filter, the schema's `trim`
  setter runs on those values too. So `?source=%20web` matches records whose
  `source` is `web`.
- **No goal-details route.** `routes/goals.js` has no route that joins goals
  with other collections, so none is modelled.

## Model

| member | source | states |
|---|---|---|
| Values.OrEmpty | routes/views.js:62 | `meta \|\| {}`: a truthy `meta` is kept as given, and a missing or falsy one becomes the empty object. The result is always truthy, so the schema's own `meta` default never applies through this route |
| Text.Trim | models/View.js:4-18 | a stored string has no leading or trailing whitespace and is never longer than the value received |
| Text.TrimStartSuffix | models/View.js:7 | cutting leading whitespace leaves a suffix, and only whitespace was cut |
| Text.TrimEndPrefix | models/View.js:7 | cutting trailing whitespace leaves a prefix, and only whitespace was cut |
| Text.TrimSpec | models/Action.js:4-23 | the trimmed value is the infix left after cutting all-whitespace ends; it starts at a non-space character; it is empty exactly when the value is all whitespace |
| Text.TrimKeepsTrimmed | models/Goal.js:4-23 | a value with no surrounding whitespace is stored unchanged |
| Text.TrimIdempotent | models/Goal.js:4-23 | trimming a stored value again changes nothing |
| Schema.TextFields | models/Action.js:3-23 | every kind has `source`, `url` and `visitor`; only actions and goals have the tag |
| Schema.WellFormed | models/Action.js:3-23 | a record satisfies its schema exactly when every declared string path (`source`, `url`, `visitor`, and the tag for actions and goals) holds a non-empty trimmed string, and a view holds no tag |
| Schema.MissingPaths | models/View.js:4-18 | the validation error names exactly the required paths that are absent or trim to empty |
| Schema.BlankMeansAllSpace | models/View.js:4-18 | after trimming, `required` rejects a path exactly when it is absent or nothing but whitespace |
| Schema.Create | models/Action.js:3-34 | a document is accepted exactly when no required path is blank. Then it satisfies the schema: trimmed non-empty strings, tag present exactly for actions and goals, `createdAt` the creation time, `meta` defaulting to `{}`. Otherwise the error lists the blank paths |
| Schema.ClearedPaths | models/Goal.js:4-23 | an update's validation error names exactly the supplied paths that trim to empty |
| Schema.ClearedMeansAllSpace | models/Goal.js:4-23 | an update path fails `required` after trimming exactly when it is supplied and nothing but whitespace |
| Schema.CastUpdate | routes/goals.js:86-90 | with `runValidators` an update document is rejected exactly when a supplied string trims to empty. Otherwise its strings are trimmed, `meta` passes untouched and the tag is dropped for views |
| Schema.Apply | routes/views.js:83-87 | `$set`: each path the update document holds replaces the stored one (`meta` whole), every other path and `createdAt` are kept, and an empty document changes nothing |
| Schema.ApplyKeepsWellFormed | routes/actions.js:86-90 | applying a validated update to a stored record leaves a record the schema accepts |
| Listing.QueryFilter | routes/views.js:10-13 | the filter holds only the kind's string paths. Each entry is a present, non-empty query value, raw |
| Listing.Matches | routes/views.js:15-21 | a record matches when it equals each filter value after the path's `trim` setter has cast it; the empty filter matches every record |
| Listing.FilterMeaning | routes/views.js:10-21 | a record matches the built filter exactly when each present, non-empty query value equals the record's value once trimmed; the tag counts only for actions and goals |
| Listing.MatchingSatisfies | routes/views.js:21 | `countDocuments(filter)` counts exactly the records that satisfy the query |
| Listing.FilterByFields | routes/views.js:10-13 | a map keyed by exactly the present, non-empty query paths, holding the query's values, is the filter |
| Listing.MatchingIds | routes/views.js:21 | the counted records are records of the collection |
| Listing.SortedMatches | routes/views.js:15-16 | one result `find(filter).sort({createdAt: -1})` may return: every matching record exactly once, newest first. Records with equal `createdAt` come in any order, chosen separately by each query. This is a definition; `OrderUnique`, `PagesCover` and `TiedPagesRepeat` state what follows from it |
| Listing.Ordered | routes/views.js:16 | the records sorted by `createdAt` descending with ties broken by identifier: each exactly once, newest first, in the tie-broken order |
| Listing.OrderUnique | routes/views.js:16 | two sequences that list the same stored records in the tie-broken order are equal: that sort has one result |
| Listing.OrderFirst | routes/views.js:16 | two sequences in the tie-broken order over the same records start with the same entry |
| Listing.DistinctTimesTieBroken | routes/views.js:16 | when no two records share a `createdAt`, newest first already is the tie-broken order |
| Listing.FirstExists | routes/views.js:16 | every non-empty set of stored records has a first record in the tie-broken order |
| Listing.PrependFirst | routes/actions.js:17 | putting the first record of the tie-broken order in front of the others, sorted, gives all of them sorted, each once |
| Listing.CeilDiv | routes/views.js:25 | `Math.ceil(count / limit)`: the least number of pages of `limit` that hold `count` records |
| Listing.WindowSize | routes/views.js:17-18 | `skip((page-1)*limit).limit(limit)` is empty past the end, full before the last page, and holds the remainder on the last page |
| Listing.WindowNewestFirst | routes/goals.js:16-20 | a page of a newest-first sequence is newest first |
| Listing.Window | routes/views.js:17-18 | `skip(skip).limit(limit)`: the entries from position `skip` on, in order, at most `limit` of them, exactly `limit` when that many remain, none past the end |
| Listing.SortedMatch | routes/goals.js:16 | every record of a sorted result matches the filter |
| Listing.Page | routes/actions.js:16-28 | a page holds at most `limit` records, all matching and newest first, taken from offset `(page-1)*limit` of its own query's result; `totalCount` counts every match whatever the page; `totalPages` is the ceiling of `totalCount / limit`; `currentPage` echoes the page |
| Listing.WindowsPrefix | routes/views.js:17-18 | the first k windows of size `limit` are the first k·limit entries |
| Listing.PagesAreWindows | routes/views.js:15-19 | pages 1 to k, each served by a query that returned `s`, are the first k windows of `s` |
| Listing.SameOrderPages | routes/views.js:15-25 | pages 1 to `totalPages`, each served by a query that returned `s`, are exactly `s` |
| Listing.PagesCover | routes/views.js:15-25 | when no two matching records share a `createdAt`, reading pages 1 to `totalPages` with one `limit`, each page from its own query, yields exactly the matching records sorted newest first: each once, `totalCount` of them |
| Listing.TiedPagesRepeat | routes/views.js:15-19 | two records created at the same time, no filter, `limit = 1`: both orders are valid sort results. Page 1 of one and page 2 of the other both list the first record, so the second is never listed |
| Listing.TieBrokenPagesCover | routes/views.js:15-25 | with the tie-breaking sort `{createdAt: -1, _id: -1}`, reading pages 1 to `totalPages` yields every matching record exactly once, newest first, whatever the creation times |
| Listing.PageOf | routes/views.js:8 | `page` defaults to 1, and is at least 1 for a numeric query |
| Listing.LimitOf | routes/views.js:8 | `limit` defaults to 10, and is at least 1 for a numeric query |
| Listing.List | routes/goals.js:8-29 | `page` defaults to 1 and `limit` to 10. The items are the requested window of the query's result: at most `limit`, newest first, each agreeing with every present, non-empty query value. `totalCount` is the number of records that satisfy the query, and `totalPages` its ceiling over `limit` |
| Stats.MostFrequentExists | routes/actions.js:127 | among non-empty groups there is one whose count no other exceeds |
| Stats.Distinct | routes/views.js:116-118 | `distinct(path)`: every value a record holds on the path is in the set, and every value in it is held by some record |
| Stats.CountOf | routes/goals.js:133 | a bucket's `$sum: 1` count is at most the number of records |
| Stats.GroupKeys | routes/actions.js:126 | the `_id` values `$group: {_id: '$action'}` produces: each record's discriminator, `null` when it has none. This is a definition; `GroupsCoverAll` and `GroupsNonEmpty` state its membership |
| Stats.IsRanking | routes/actions.js:125-127 | one result the `$group`/`$sort` pipeline may return: one bucket per group key with its record count, counts never increasing, equal counts in any order. This is a definition; `RankingSpec` and `RankingCounts` state what follows from it |
| Stats.Rank | routes/goals.js:132-135 | the canonical ranking has one bucket per group key |
| Stats.RankSpec | routes/goals.js:132-135 | ranking buckets have distinct keys, each carries its number of records, and they are sorted by count descending |
| Stats.PrependTop | routes/actions.js:127 | putting the most frequent key's bucket in front of a ranking of the other keys keeps it a ranking |
| Stats.HoldingSplit | routes/goals.js:133 | the records of several groups split into those of one group and the rest |
| Stats.SumOfCounts | routes/goals.js:132-135 | the counts of buckets with distinct keys, each carrying its record count, add up to the number of records in those groups |
| Stats.GroupsCoverAll | routes/goals.js:133 | `$group` puts every record in some bucket |
| Stats.GroupsNonEmpty | routes/actions.js:126 | every bucket counts at least one record |
| Stats.DistinctBound | routes/views.js:116-118 | a distinct-value count is at most the number of records |
| Stats.DistinctRemove | routes/actions.js:119-122 | removing one record loses at most that record's value from the distinct values |
| Stats.DistinctRange | routes/views.js:115-118 | a path the schema declares takes at most as many distinct values as there are records, and at least one in a non-empty collection |
| Stats.DistinctNonEmpty | routes/goals.js:119-122 | a path held by some record has at least one distinct value |
| Stats.SomeImageSize | routes/goals.js:121 | wrapping a set of distinct strings in `Some`, the form `$group` keys take, keeps its size |
| Stats.GroupKeysAreDistinctTags | routes/goals.js:121-126 | in a valid collection the `$group` keys are exactly the distinct tag values, as many as `uniqueGoals` counts (and `uniqueActions` in routes/actions.js:123) |
| Stats.Head | routes/actions.js:128 | `$limit` keeps the first min(n, length) buckets |
| Stats.Ranking | routes/goals.js:132-135 | every collection has a ranking: the pipeline always has a result |
| Stats.RankingSpec | routes/goals.js:132-135 | any ranking has one bucket per group key, each carrying its record count (at least one), and the counts sum to the number of records |
| Stats.RankingKeys | routes/goals.js:121-134 | in a valid collection any ranking has exactly one bucket per distinct discriminator value |
| Stats.RankingSize | routes/goals.js:121-135 | in a valid collection any ranking has as many buckets as `uniqueGoals` counts |
| Stats.RankingCounts | routes/goals.js:125-135 | two rankings of one collection, from separate pipelines, have the same counts in the same order; they differ at most in the order of keys with equal counts |
| Stats.KeysOfSize | routes/goals.js:133 | buckets with distinct keys number as many as their keys |
| Stats.CountsBag | routes/goals.js:132-135 | the counts of buckets with distinct keys, each carrying its record count, are (as a multiset) the record counts of their keys, whatever their order |
| Stats.SortedBagsEqual | routes/goals.js:134 | two count sequences sorted descending with the same elements are equal: `$sort: {count: -1}` fixes the order of the counts |
| Stats.HeadCounts | routes/goals.js:125-135 | the first n buckets of one ranking carry the first n counts of any other |
| Stats.Summarize | routes/views.js:115-125 | the total counts every record; the tag count and the popular list exist exactly for actions and goals, and the uncapped ranking only for goals. Each ranking is its own pipeline's result |
| Stats.SummaryCounts | routes/actions.js:118-122 | each `unique*` count is at most the total, and at least one in a non-empty collection |
| Stats.BreakdownSpec | routes/goals.js:118-145 | `goalConversionRates` has exactly one bucket per distinct goal, as many as `uniqueGoals`. Each bucket carries its count, at least one. The buckets are sorted by count descending and their counts sum to `totalGoals` |
| Stats.PopularSpec | routes/goals.js:125-139 | the popular list has min(10, distinct tags) buckets, the head of its pipeline's ranking. For goals its counts are the first counts of `goalConversionRates`, though buckets with equal counts may be listed in another order |
| Stats.PopularOrder | routes/actions.js:125-129 | the popular list is sorted by count descending, each bucket carries its count, and no bucket left out counts more than one kept |
| Controller.RequiredFilled | routes/views.js:52 | the create check passes exactly when every string path of the kind is truthy in the body |
| Controller.Draft | routes/views.js:58-63 | the object given to the model constructor carries the body's string paths as received, no tag for views, and a `meta` that is always truthy: the body's own when that is truthy |
| Controller.PatchOf | routes/views.js:77-81 | the update document holds exactly the body's truthy string paths of the kind and nothing falsy; `meta` only when truthy |
| Controller.BuildPatch | routes/actions.js:79-84 | the update document, built key by key, holds exactly the truthy body fields |
| Controller.BuildFilter | routes/goals.js:10-14 | the list filter, built key by key, holds exactly the present, non-empty query fields |
| Controller.UpdateOnlySupplied | routes/views.js:77-87 | an update overwrites exactly the fields supplied truthy: strings trimmed, `meta` whole. It keeps every other field and `createdAt`, and the record stays valid |
| Controller.UpdateRejected | routes/goals.js:79-90 | an update is rejected exactly when a supplied field is all whitespace |
| Controller.CreateRejected | routes/actions.js:53-67 | a body that passes the required-field check is still rejected by the schema exactly when a required field is all whitespace |
| Controller.Collection.Get | routes/views.js:37-41 | the record under the identifier, or 404 exactly when there is none |
| Controller.Collection.Create | routes/views.js:50-66 | a missing or falsy required field gives 400 and no change. A whitespace-only one gives 500 and no change. Otherwise 201 adds exactly one record under a fresh identifier: trimmed, stamped with the current time, `meta` defaulting to `{}`, and readable back by `Get` |
| Controller.Collection.Update | routes/actions.js:77-96 | a rejected update document gives 500 and an unknown identifier 404, both with no change; otherwise only that record is replaced by the updated one, which is returned |
| Controller.Collection.Delete | routes/goals.js:105-109 | a known identifier loses exactly its record; an unknown one gives 404 and nothing changes; either way a later `Get` of it gives 404 |

## Left out

- The `catch` branches for store and connection failures (500) are not
  modelled. Neither are malformed identifiers, which make the ObjectId cast
  throw. Identifiers are natural numbers from a counter standing in for
  ObjectId generation.
- Each handler is evaluated over one `records` value, but the source makes
  separate store reads per request: `find`, then `countDocuments`, in the
  list handlers, and four to seven reads in the summary handlers. A
  concurrent write between two reads could make `totalCount` disagree with
  `items`, or the summary's counts disagree with each other. The model takes
  every read of one request to see the same, unchanged collection.
- The clock is not modelled: `createdAt` is the `now` parameter of `Create`.
- `updatedAt` and the other automatic timestamps are not kept. The schema
  indexes only affect performance.
- `Stats.Summarize`: `unique*` is the number of distinct values, which is
  what the names declare. The code calls `.distinct(field).count()`, whose
  actual result depends on the Mongoose version: it may count every
  document or throw.
- Listing.PagesCover: this is proved only when no two matching records share
  a `createdAt`. With ties, pages read from separate queries may repeat a
  record and never list another (see Findings). It and
  `Listing.TieBrokenPagesCover` also take every page over the same
  `records`: a create, update or delete between two page requests shifts
  the windows, and that case is not covered.
- Each query's result order and each pipeline's ranking is a parameter. The
  model requires only that it be a result the sort may return. The store's
  sort algorithm and `$limit`'s top-k sort are not modelled.
- `Listing.List`: `page` and `limit` are positive whole numbers.
  - Query strings that are not numbers, `limit=0` (no limit, with an
    infinite page count) and fractional values are out of scope.
  - `currentPage` is the number, not the raw query string.
- `Listing.FilterMeaning`, `Listing.List`: query values given as arrays or
  as objects (bracket syntax such as `?source[$ne]=web`, which Mongoose reads
  as operators such as `$ne` or `$regex`) are not modelled. The filter is
  exact match only, for string values.
- `Controller.Collection.Create`, `Controller.Collection.Update`,
  `Controller.PatchOf`: body fields are strings or absent. Non-string
  values, which Mongoose casts or rejects, are not modelled. For example, a
  truthy non-string update field such as `{"source": 5}` is put in `$set`
  and stored as `"5"`, which the model's patch cannot express.
  JSON numbers in `meta` are reals, not binary floating point.
- The summary handler and the distinct counts are ghost functions over the
  whole collection, so they have no executable counterpart.

## Findings

| source | as written | input that shows it | evidently intended | confidence | as-written member | corrected member |
|---|---|---|---|---|---|---|
| routes/views.js:15-19 | each page runs (the actions and goals handlers do the same) its own `find(filter).sort({createdAt: -1}).skip(...).limit(...)`. The sort key need not be unique, so records with equal `createdAt` may come back in a different order for each page | two records with the same `createdAt`, no filter, `limit=1`: page 1 may return the first record, and page 2 the same record again, so the second is never listed | a total sort order such as `{createdAt: -1, _id: -1}`, so that pages 1 to `totalPages` list every match exactly once | medium; not executed | Listing.TiedPagesRepeat | Listing.TieBrokenPagesCover |
