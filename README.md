# tally scope: the per-scope metric registry

This project models the core of one `scope` of the tally metrics library
(Go, `scope.go`). A scope is a named, tagged namespace for metrics. It
creates its counters, gauges, timers and histograms lazily and at most once
per name. It flushes them to a buffered reporter (`report`) or to a cached
reporter (`cachedReport`), copies them into a snapshot, closes once, and
clears its metrics.

The model is imperative where the source is:

- `Scopes.Scope` is a class. Its identity fields (prefix, separator, tags,
  reporters, default buckets, sanitizer, root flag) are `const`. The metric
  maps, the ordered slices beside them, and the closed flag and shutdown
  signal are `var` fields.
- Each method names in `modifies` exactly the fields the Go method writes.
- `Valid()` is the scope's invariant:
  - each ordered slice mirrors its map: no element twice, every element is a
    map value, and every map value is in the slice exactly once;
  - every counter and gauge holds the handle the cached reporter allocated
    for its name, or none when there is no cached reporter (Go's counters and
    gauges keep no name of their own);
  - every timer and histogram is bound to its fully-qualified name, the
    scope's tags, the buffered reporter and its cached handle;
  - the default buckets are never empty;
  - the shutdown signal is sent exactly when the scope is closed.
- Go's map iteration order is arbitrary. The loops that range over a map
  therefore pick keys nondeterministically (`:|`). Where the order is
  observable (the buffered report), the method returns the order it took as
  a ghost out-parameter, and its contract holds for every such order.
- Calls the scope makes into code outside the model return as data:
  - a sequence of `ExternalCall` for the registry report, the cached
    registry report, a reporter flush and a reporter close;
  - `BufferedReportCall` and `CachedReportCall` records for the primitives'
    report methods.
- Pure helpers are functions with lemmas beside them. This covers
  `fullyQualifiedName`, `mergeRightTags`'s result, reporter selection and
  the histogram type.

Files:

- `wrappers.dfy`: `Option`.
- `tags.dfy`: tag maps, which may be nil as in Go; the sanitizer;
  `mergeRightTags`; `copyAndSanitizeMap`.
- `metrics.dfy`: buckets, histogram type, reporters, the primitive classes
  and the call records.
- `collections.dfy`: the map/slice mirror invariant and its lemmas.
- `scope.dfy`: the scope.

Behaviour of the code worth noting:

- The comment on `NewRootScope` (scope.go:111) says a buffered or a cached
  reporter must be provided, but `newRootScope` does not check this. A root
  scope with neither is built normally: its capabilities are "none", and
  reporting and closing make no reporter calls. The model accepts it too.
- The closed flag has two states, open and closed, switched once by a
  compare-and-swap.
- `SubScope` hands the registry a nil tag map, so the registry's right-biased
  merge keeps the parent's tags.

## Model

| member | source | states |
|---|---|---|
| Tags.NoOpSanitizer | scope.go:128-131 | The default sanitizer leaves names, tag keys and tag values unchanged. |
| Tags.MergeRightTags | scope.go:656-675 | The result is `MergedTags(left, right)`. Its entries are the left entries overridden by the right ones (`left + right`). This holds on every branch: both nil, right empty, left empty, and the copying branch. |
| Tags.PutAll | scope.go:668-673 | Copying `from` key by key into `into` yields `into + from`. |
| Tags.MergedEntries | scope.go:656-675 | The merged keys are the union of both key sets. A key on the right takes the right value. A key only on the left keeps the left value. |
| Tags.MergedIsNil | scope.go:656-659 | The merge is nil exactly when the left map is nil and the right one has no entries. |
| Tags.MergedOverlayIdempotent | scope.go:656-675 | Merging the same overlay twice gives the same entries as merging it once, so repeating `Tagged(t)` adds nothing. |
| Tags.CopyAndSanitizeMap | scope.go:569-577 | The result's keys are exactly the sanitized source keys, and every result key comes from a source key. A key that no other key sanitizes to carries its sanitized value. Under the no-op sanitizer the copy equals the source. |
| Metrics.HistogramTypeOf | scope.go:384-387 | A histogram is duration-typed if and only if its buckets are duration buckets. |
| Metrics.ReporterConfig.Base | scope.go:140-145 | The base reporter is the buffered reporter when there is one, else the cached one. It is absent exactly when neither is configured. |
| Metrics.ConfigOf | scope.go:140-154 | The reporter configuration built from the options gives back exactly the configured buffered and cached reporters. |
| Collections.MirrorsSameSize | scope.go:79-84 | When a slice mirrors its map, it has as many elements as the map has entries. |
| Collections.MirrorsAppend | scope.go:288-290 | Binding a new name to a new primitive and appending that primitive to the slice keeps the mirror invariant. |
| Collections.EnumerationSize | scope.go:190-209 | An iteration order over a key set visits as many keys as the set holds. |
| Scopes.Scope.NewRoot | scope.go:127-187 | The sanitizer is the configured one, or the no-op one. The prefix is sanitized. The separator is sanitized and defaults to ".". The reporters are the configured ones. The default buckets are the configured ones when present and non-empty, else the 15 library defaults. The tags are a sanitized copy of the options' tags, in the same sense as `CopyAndSanitizeMap` (keys, values and their origin), and a nil map counts as empty. The report loop starts exactly when the interval is positive. The scope starts valid, open and empty. |
| Scopes.Scope.Child | scope.go:434-436 | A subscope that the registry creates shares the parent's separator, reporters, default buckets and sanitizer. It is not a root, and it starts valid, open and empty. |
| Scopes.Scope.FullyQualifiedNameSplits | scope.go:557-567 | Without a prefix the metric name is used as it is. Otherwise the name reads as the prefix, then the separator, then the metric name. |
| Scopes.Scope.FullyQualifiedNameInjective | scope.go:557-567 | Distinct metric names of one scope get distinct fully-qualified names. |
| Scopes.Scope.Tagged | scope.go:425-427 | The registry is asked for a scope with the same prefix and the caller's tags, to be merged over the current ones. |
| Scopes.Scope.SubScope | scope.go:429-432 | The registry is asked for a scope whose prefix is the sanitized name, qualified by the current prefix and separator when there is a prefix. No extra tags are passed. |
| Scopes.Scope.SubScopeNesting | scope.go:429-432 | A metric of a subscope of a prefixed scope is named prefix, separator, sanitized subscope name, separator, metric name. |
| Scopes.Scope.Capabilities | scope.go:438-443 | With no reporter the capabilities are "none". Otherwise they are the buffered reporter's, or the cached reporter's when there is no buffered one. |
| Scopes.Scope.ReportRegistry | scope.go:257-265 | With a buffered reporter the scope asks for a registry report and then flushes that reporter. Otherwise, with a cached reporter, it asks for a cached registry report and then flushes. With neither it does nothing. |
| Scopes.Scope.ReportLoopRun | scope.go:249-255 | A report tick does nothing once the scope is closed. Otherwise it reports the registry. |
| Scopes.Scope.Close | scope.go:505-522 | Only the first call closes the scope and sends the shutdown signal. A later call returns no error and makes no calls. A non-root scope stops there. A root scope reports the registry once more, then closes its base reporter if that reporter is closeable, returning that close's error. The invariant is kept. |
| Scopes.Scope.CloserCalls | scope.go:516-518 | A close call on the base reporter is made exactly when the scope is a root whose base reporter is closeable, and it is the only call. |
| Scopes.Scope.Allocation | scope.go:280-286 | A cached handle is allocated exactly when there is a cached reporter. The handle names that reporter, the metric kind, the fully-qualified name, the scope's tags and the buckets. The same request is made for gauges (scope.go:316-321), timers (351-356) and histograms (396-401). |
| Scopes.Scope.Counter | scope.go:267-293 | Lookup is by sanitized name. An existing counter is returned and nothing changes. Otherwise a fresh counter is made, holding the cached reporter's allocation if there is one. It is bound to the name and appended to the ordered slice. The invariant is kept. |
| Scopes.Scope.Gauge | scope.go:303-328 | Get-or-create as for counters, for gauges. |
| Scopes.Scope.Timer | scope.go:338-364 | Get-or-create by sanitized name. A new timer carries the fully-qualified name, the scope's tags, the buffered reporter and the cached allocation. It is added to the timer map only, since timers have no ordered slice. |
| Scopes.Scope.Histogram | scope.go:374-415 | Get-or-create by sanitized name. A new histogram uses the given buckets, or the scope's non-empty default buckets when none are given. It is duration-typed exactly when those are duration buckets. It carries the fully-qualified name, tags, reporters and cached allocation with those buckets, and is appended to the ordered slice. |
| Scopes.Scope.ClearMetrics | scope.go:524-552 | All four maps and all three slices end empty, and the invariant is kept. |
| Scopes.Scope.Report | scope.go:190-210 | The counters report first, then the gauges, then the histograms, each kind in some iteration order of its map. Each metric reports once to the given reporter, under its fully-qualified name and the scope's tags. There is one call per metric, and timers are skipped. |
| Scopes.Scope.ReportCounters | scope.go:191-195 | The counter loop of the buffered report. Its calls are the counter reports for an order that visits every counter name exactly once, so there is one call per counter. |
| Scopes.Scope.ReportGauges | scope.go:197-201 | The gauge loop of the buffered report. Its calls are the gauge reports for an order that visits every gauge name exactly once, so there is one call per gauge. |
| Scopes.Scope.ReportHistograms | scope.go:205-209 | The histogram loop of the buffered report. Its calls are the histogram reports for an order that visits every histogram name exactly once, so there is one call per histogram. |
| Scopes.Scope.CounterReports | scope.go:191-195 | The report for the `i`-th name of an iteration order is call `i`. It reports that counter to the reporter under its fully-qualified name and the scope's tags. |
| Scopes.Scope.CounterReportsCover | scope.go:191-195 | Whatever order the map iteration takes, every counter of the scope is reported under its fully-qualified name. |
| Scopes.Scope.GaugeReports | scope.go:197-201 | The report for the `i`-th name of an iteration order is call `i`. It reports that gauge to the reporter under its fully-qualified name and the scope's tags. |
| Scopes.Scope.GaugeReportsCover | scope.go:197-201 | Whatever order the map iteration takes, every gauge of the scope is reported under its fully-qualified name. |
| Scopes.Scope.HistogramReports | scope.go:205-209 | The report for the `i`-th name of an iteration order is call `i`. It reports that histogram to the reporter under its fully-qualified name and the scope's tags. |
| Scopes.Scope.HistogramReportsCover | scope.go:205-209 | Whatever order the map iteration takes, every histogram of the scope is reported under its fully-qualified name. |
| Scopes.Scope.CachedReport | scope.go:212-232 | Counters, gauges and histograms report to their cached handles in slice order. Under the invariant this is exactly one call per metric in the maps, and every metric in the maps is reported. |
| Scopes.Scope.CachedReportCounters | scope.go:213-217 | The counter slice reports in order, one cached report per element. |
| Scopes.Scope.CachedReportGauges | scope.go:219-223 | The gauge slice reports in order, one cached report per element. |
| Scopes.Scope.CachedReportHistograms | scope.go:227-231 | The histogram slice reports in order, one cached report per element. |
| Scopes.CachedCounterCalls | scope.go:213-217 | Counter `i` of the slice produces cached report `i`, and there is one report per counter. |
| Scopes.CachedGaugeCalls | scope.go:219-223 | Gauge `i` of the slice produces cached report `i`, and there is one report per gauge. |
| Scopes.CachedHistogramCalls | scope.go:227-231 | Histogram `i` of the slice produces cached report `i`, and there is one report per histogram. |
| Scopes.Scope.SnapshotIdOf | scope.go:456-458 | A metric's snapshot id is made of its fully-qualified name and the scope's tags. It stands for the string key `KeyForPrefixedStringMap` builds from them. |
| Scopes.Scope.SnapshotIdInjective | scope.go:456-458 | Distinct metric names of one scope get distinct snapshot ids, which pair the fully-qualified name with the tags. |
| Scopes.Scope.SnapshotInto | scope.go:448-500 | Visiting this scope adds to each of the snapshot's four maps one entry per metric, filed under its id and holding its fully-qualified name, tags and primitive. Entries with the same id are overwritten. |
| Scopes.Scope.SnapshotCounters | scope.go:455-465 | The counter loop adds exactly the counter entries to the snapshot's counter map. |
| Scopes.Scope.SnapshotGauges | scope.go:466-476 | The gauge loop adds exactly the gauge entries. |
| Scopes.Scope.SnapshotTimers | scope.go:477-487 | The timer loop adds exactly the timer entries. |
| Scopes.Scope.SnapshotHistograms | scope.go:488-499 | The histogram loop adds exactly the histogram entries. |
| Scopes.Scope.CounterSnapshotFiled | scope.go:455-464 | After the visit, every counter of the scope is found in the snapshot under its fully-qualified name and tags, with its own name, tags and primitive. |
| Scopes.Scope.GaugeSnapshotFiled | scope.go:466-475 | After the visit, every gauge of the scope is found in the snapshot under its fully-qualified name and tags, with its own name, tags and primitive. |
| Scopes.Scope.TimerSnapshotFiled | scope.go:477-486 | After the visit, every timer of the scope is found in the snapshot under its fully-qualified name and tags, with its own name, tags and primitive. |
| Scopes.Scope.HistogramSnapshotFiled | scope.go:488-498 | After the visit, every histogram of the scope is found in the snapshot under its fully-qualified name and tags, with its own name, tags and primitive. |

## Left out

- Locks (`cm`, `gm`, `tm`, `hm`), the atomic compare-and-swap on `closed`, the `done` channel and the wait group.
  - The model is sequential. `closed` and `done` are plain booleans that `Close` sets together.
  - The double-checked lookup under the write lock collapses to one lookup.
- The periodic report goroutine and its ticker (`reportLoop`).
  - The constructor records only whether it would start, that is, whether the interval is positive.
  - One tick is `ReportLoopRun`.
- The scope registry is not part of this model. This covers subscope deduplication, `ForEachScope`, registry-wide `Report`/`CachedReport`, the removal of closed scopes, shard counts and internal metrics.
  - `Tagged` and `SubScope` return the request handed to the registry.
  - `Child` stands for the scope the registry builds.
  - `reportRegistry` returns the registry call as a record.
  - `Snapshot` is modelled as the visitor run on one scope.
- The internals of counters, gauges, timers and histograms: values, deltas, samples and bucket counts.
  - Primitives are objects identified by reference, holding what the scope binds them to.
  - Snapshot entries hold the primitive in place of its current value.
- The bucket cache (`bucketCache.Get`). A histogram stores its buckets and type; sharing of bucket objects is not modelled.
- The sanitizer's character rules. A sanitizer is three arbitrary string functions.
- `KeyForPrefixedStringMap`'s string encoding. A snapshot id is the pair of fully-qualified name and tags.
- The snapshot copies the tags into a fresh Go map first. Datatype values already have value semantics, so there is nothing to copy.
- Reporters' own `Flush`, `Close` and allocation behaviour.
  - A flush or a close becomes an `ExternalCall` record, and the closer's error is a parameter of `Close`.
  - An allocation becomes a `CachedHandle` value, naming the reporter, the metric kind, name, tags and buckets, stored in the primitive.
- `Buckets` implementations other than duration buckets and value buckets. `float64` bucket bounds are `real`.
- `NewRootScope`, `NewTestScope` and the no-op scope: thin wrappers over `newRootScope`.
- `_defaultInitialSliceSize`: a slice capacity hint with no observable effect.
- The snapshot value types' accessor methods (`Name`, `Tags`, `Value`, …): these are the datatype fields.
- `stats_benchmark_test.go` holds benchmarks only.
