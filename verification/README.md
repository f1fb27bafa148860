# Facette library groups: expansion and request handling

This project models the group part of Facette's library API (`pkg/server/library_group.go`):

- **Triplet expansion** (`handleGroupExpand`). A query is a list of `(origin, source, metric)` triplets. A source or metric that starts with `group:` names a stored source group or metric group. It is replaced by the names that group expands to, giving four cases: no reference, source only, metric only, and both. The both case is a cross product with the source as the outer loop. Each resulting group is sorted, and the groups come back in the order of the input triplets.
- **Group requests** (`handleGroup`, `handleGroupList`). Dispatch is on the HTTP method and on the group ID taken from the path. A write either copies an existing group (`inherit`) or starts from a fresh one. A successful POST answers with a `Location` header. The list is filtered by group kind and by name.

Everything is a pure function or a short method over immutable datatypes.

- **`ExpandGroup` as a parameter.** `Library.ExpandGroup(name, kind)` is a function parameter `expand`, fixed over one library and catalog snapshot. The handler calls it again for every source name in the both case. Because it is pure, each call returns the same list. `Expand.SourceLoop` keeps those repeated calls, and `Expand.ExpandEntry` proves that the result is the cross product of one source list with one metric list.
- **The sort order as a parameter.** `sort.Sort` uses a `Less` method on `ExpandRequest`, and that method is defined outside the modelled file, so the model takes it as a parameter `less`. `Ordering.Sort` always returns a permutation of its input. When `less` is a strict total order it is also sorted, and `Ordering.SortIsUnique` shows it is the only sorted permutation. So any correct sort, Go's included, returns the same group.
- **The order the tests expect.** `Expand.TripletLess` is lexicographic order on `(origin, source, metric)`, the order in which the integration tests list their expected results. It is proved to be a strict total order, and the two expansion tests are proved as lemmas over it.
- **Helpers outside the file.** Each helper the handlers call becomes a value or pure function fixed for one request: `handleAuth`, `parseStoreRequest`, `parseListRequest`, `parseError`, `utils.FilterMatch`, `time.Now()`, and the library's `GetItem`, `DeleteItem` and `StoreItem`. They are the fields of `GroupHandler.Context` and `Library.Store`.
- **Effects.** `GroupHandler.Effect` records which store write a request reaches, if any. This is how the model states that a refusal happens "before the store".
- **JSON decoding.** A decoded body is a `Library.GroupPatch`: one optional value for each of the four fields of a group's JSON form (`id`, `name`, `description`, `entries`), or `None` when the body does not decode. A group's kind and modification time are not part of that form. The `library.Group` type is not part of this model, but the integration tests show this. At cmd/facette/facette_test.go:982 and :1041, a group read back with GET equals one whose kind and time are zero, while the server stored it with the route's kind and the current time. `json.Unmarshal` into an existing group overwrites the top-level fields the body carries and keeps the rest, and `Library.Merge` models that. A body's `entries` array replaces the base's entries as a whole. For the one case where Go behaves differently, see the sharing line under "## Left out".
- **`urlLibraryPath`** is defined outside the modelled file. It is taken to be `/library/`, the prefix the library API is served under.

## Model

| member | source | states |
|---|---|---|
| Strings.TrimPrefix | pkg/server/library_group.go:24-27 | The prefix is removed exactly when it is present: the prefix followed by the result gives back the input, and otherwise the input comes back unchanged. |
| Strings.TrimTrailingSlashes | pkg/server/library_group.go:120 | The result is a prefix of the path. It does not end in `/`, and everything the trim removed was a `/`. |
| Strings.LastSegment | cmd/facette/facette_test.go:970 | The ID a client reads back from `Location` is the part after the last `/`: a suffix with no `/` in it, preceded by a `/` unless it is the whole string. |
| Strings.LastSegmentOfJoin | pkg/server/library_group.go:120 | Reading the last segment of `prefix + "/" + id` gives back `id` whenever `id` has no `/`. |
| Ordering.Sort | pkg/server/library_group.go:220 | `sort.Sort` returns a permutation of the group (same multiset, same length). It is sorted whenever the comparison is a strict total order. |
| Ordering.SortedUnique | pkg/server/library_group.go:220 | Under a strict total order, two sorted permutations of the same elements are equal. |
| Ordering.SortIsUnique | pkg/server/library_group.go:220 | Any sorted permutation of a group is exactly what `Sort` returns, so the model agrees with every correct sort, Go's included. |
| Ordering.StringLessIsStrictTotal | cmd/facette/facette_test.go:347-350 | Byte-wise lexicographic string order is irreflexive, transitive and total on distinct strings. |
| Library.Merge | pkg/server/library_group.go:102-109 | Each of the four JSON fields the body carries replaces the base group's value. Each one it leaves out keeps the base's value. The kind and modification time always stay the base's. An empty body changes nothing. |
| Library.FullPatch | pkg/server/library_group.go:102-109 | Decoding a body that carries every JSON field of a group gives back that group, except for the kind and modification time, which stay the base's. This holds whatever the base. |
| Library.MergeIdempotent | pkg/server/library_group.go:102-109 | Decoding the same body twice over a group gives what decoding it once gave. |
| Expand.WithSources | pkg/server/library_group.go:205-207 | Source-only expansion gives one triplet per expanded source name, in order, with origin and metric copied verbatim. |
| Expand.WithMetrics | pkg/server/library_group.go:209-215 | Metric-only expansion gives one triplet per expanded metric name, in order, with origin and source copied verbatim. |
| Expand.CrossProductLength | pkg/server/library_group.go:193-204 | The both-references group has `|sources| * |metrics|` triplets, so it is empty when either expansion is empty. |
| Expand.CrossProductParts | pkg/server/library_group.go:193-204 | Every triplet of the cross product has the input origin, a source from the source list and a metric from the metric list. |
| Expand.CrossProductAt | pkg/server/library_group.go:198-204 | Position `i * |metrics| + j` holds `(origin, sources[i], metrics[j])`: the source varies slower and the metric faster. |
| Expand.CrossProductIndices | pkg/server/library_group.go:193-204 | The same position law, for all `i` and `j` at once. |
| Expand.CrossProductHas | pkg/server/library_group.go:198-204 | Every pair of a listed source and a listed metric occurs in the both-references group. |
| Expand.CrossProductMembers | pkg/server/library_group.go:193-204 | A triplet is in the cross product if and only if it has the input origin, a listed source and a listed metric. |
| Expand.UnsortedCases | pkg/server/library_group.go:188-218 | The four cases before sorting. No reference gives the singleton input triplet. Source only gives one triplet per source. Metric only gives one triplet per metric. Both gives the cross product, position by position and member by member. |
| Expand.ExpandedGroupFacts | pkg/server/library_group.go:203-220 | Each returned group is a permutation of the group built before the sort. It is sorted under a strict total order, and every triplet in it keeps the input origin. A triplet without references comes back as itself. The both case has `|S| * |M|` triplets. |
| Expand.AppendRow | pkg/server/library_group.go:199-204 | The inner loop appends one triplet per metric name, in order, to what was built so far. |
| Expand.SourceLoop | pkg/server/library_group.go:194-208 | The source loop re-expands the metric group for every source name and yields the cross product of the two expansions, or one triplet per source when the metric is literal. |
| Expand.ExpandEntry | pkg/server/library_group.go:191-220 | The handler's loops followed by the sort compute exactly the sorted expansion of the triplet. |
| Expand.HandleGroupExpand | pkg/server/library_group.go:173-225 | A non-POST request gives 405. A body that does not decode gives 400 and no groups. Otherwise the status is 200, with exactly one group per input triplet, in input order, each the sorted expansion of that triplet. |
| Expand.TripletLessIsStrictTotal | cmd/facette/facette_test.go:332-334 | Lexicographic `(origin, source, metric)` order is a strict total order, so sorting by it has a single answer. |
| Expand.MetricGroupTestExpansion | cmd/facette/facette_test.go:339-350 | Assume `group1-updated` expands to `database1/test`, `database2/test` and `database3/test`. Then `["test1", "source1", "group:group1-updated"]` expands to those three triplets, in that order. |
| Expand.SourceGroupTestExpansion | cmd/facette/facette_test.go:325-336 | Assume `group1-updated` expands to `source1` and `source2`. Then `["test1", "group:group1-updated", "database1/test"]` expands to one triplet per source, in that order. |
| GroupHandler.RouteOfItemPath | pkg/server/library_group.go:23-29 | `/library/sourcegroups/<id>` selects `<id>` and the source-group kind. `/library/metricgroups/<id>` selects `<id>` and the metric-group kind. |
| GroupHandler.HandleGroup | pkg/server/library_group.go:17-129 | DELETE without an ID, and any unknown method, give 405 and reach nothing. Unauthorised DELETE gives 401. Each outcome of delete, of read and of the `inherit` lookup has its own answer: success, 404 when the item does not exist, and 500 on any other store error. The stored group is the body decoded over the base group. It always carries the current time. Its kind is the route's, or, with `inherit`, the inherited group's. A successful POST sets `Location` to the trimmed path plus `/` plus the ID. Full breakdown below the table. |
| GroupHandler.CreatedLocationNamesId | pkg/server/library_group.go:119-121 | After a successful POST, the last segment of `Location` is the stored group's ID, provided that ID contains no `/`. |
| GroupHandler.ListKindMatchesRoute | pkg/server/library_group.go:142 | On a path that names no ID, the list shows source groups if and only if the route chose the source-group kind. |
| GroupHandler.ListedAtSnoc | pkg/server/library_group.go:144-160 | One more group adds its own position to the positions listing as a given entry when it passes the filters, and adds nothing otherwise. |
| GroupHandler.ListItems | pkg/server/library_group.go:144-160 | An entry is in the list if and only if some group of the routed kind, whose name passes the filter when one is given, has that ID, name, description and time. Each entry occurs exactly as many times as there are passing groups that summarise to it, so every passing group gives one entry. There are never more entries than groups. |
| GroupHandler.HandleGroupList | pkg/server/library_group.go:131-171 | A failed list check answers with its own status and reaches nothing. Otherwise the status is 200 and the list holds one summary per group that passes the kind and name filters, each counted once per such group. |

What the contract of `GroupHandler.HandleGroup` states:

- **Refusals.** DELETE without an ID gives 405, whatever the authorisation or the store say. Any method other than DELETE, GET, HEAD, POST and PUT gives 405. An unauthorised DELETE gives 401.
- **Delete.** The store's delete is called exactly when an ID is given and the caller is authorised. Its outcome gives 200 when the group is removed, 404 when it does not exist, and 500 with the unhandled-error message on any other error.
- **Read.** GET or HEAD without an ID gives the list. With an ID it returns the stored group, 404 when the group does not exist, or 500 on any other lookup error.
- **Write refusals.** A failed store check gives its own status before anything is stored. A missing `inherit` source gives 404, and any other error looking it up gives 500. A body that does not decode gives 400.
- **What is stored.** The group handed to the store is the body decoded over a base group. With `inherit`, the base is the stored group with its ID cleared. Otherwise it is a fresh group with the path's ID and the route's kind. Either way the base carries the current time. No body can change the time or the kind, so the stored group always has the current time. A new group has the route's kind, and an inherited one has the kind of the group it copies.
- **Answer after storing.** A failed store answers with `parseError`'s response and status. A successful POST gives 201 with no body and `Location` set to the path without trailing `/`, then `/`, then the ID. PUT gives 200 with no body and no `Location`.

## Left out

- HTTP plumbing. This covers writing responses and headers, reading the body and `json.Unmarshal` itself, and `log.Println`. A body is modelled only as "decodes to this value" or "does not decode".
- The internals of `handleAuth`, `parseStoreRequest`, `parseListRequest`, `parseError` and `utils.FilterMatch`. These functions are not part of this model, so each appears only through its result.
- The library's `GetItem`, `DeleteItem`, `StoreItem` and `ExpandGroup`. They are not part of this model. This includes the glob and regular-expression matching behind group expansion and how `StoreItem` chooses a fresh ID.
- `applyResponseLimit`, which applies offset and limit to the list. It is not part of this model. `GroupHandler.HandleGroupList` describes the list before that step.
- List order. Go's map iteration order over `Library.Groups` is unspecified, so `Library.Store` takes the groups as a sequence in some order and no list order is claimed.
- Ordering.Sort: for a comparison that is not a strict total order, Go's sort and this insertion sort may return different permutations. The model then promises only a permutation, not Go's exact arrangement.
- Formatting `Modified` as RFC 3339 text. List entries carry the timestamp itself.
- Sharing between a copied group and the stored one. After `*group = *item`, Go's copy shares the `Entries` slice with the stored group. Values here are immutable, so any effect decoding has on the shared slice is not modelled.
- Library.Merge: with `inherit`, the model replaces the entries as a whole with the body's `entries`. Go instead decodes the array into the shared `[]*GroupEntry` elements in place. So an entry object that leaves out `pattern` or `origin` keeps the inherited entry's value there, and the stored group's entries change as well. Modelling that needs pointer aliasing and the slice's hidden capacity, which this value model does not have. Without `inherit` the base has no entries, and the two behaviours agree.
- Locking and concurrent access to the library, which are outside the handler code.
- The integration test client (cmd/facette/facette_test.go) is not modelled. Only its expected results are stated, as lemmas.
