/**
 * The metric registry of one scope: per-kind maps from sanitized names to
 * primitives, the ordered slices kept beside them for the cached report path,
 * the close state, naming and subscope derivation, and the two report paths.
 */
module Scopes {
  import opened Wrappers
  import opened Tags
  import opened Metrics
  import opened Collections

  /** The separator used when the options name none. */
  const DefaultSeparator := "."

  /** The options a root scope is built from (`registryShardCount` and internal metrics are not modelled). */
  datatype ScopeOptions = ScopeOptions(
    tags: TagMap,
    prefix: string,
    reporter: Option<Reporter>,
    cachedReporter: Option<Reporter>,
    separator: string,
    defaultBuckets: Option<Buckets>,
    sanitizeOptions: Option<Sanitizer>)

  /** What a scope hands to the registry's get-or-create when deriving a subscope. */
  datatype SubscopeRequest = SubscopeRequest(prefix: string, tags: TagMap)

  /**
   * The identity `KeyForPrefixedStringMap(name, tags)` files a snapshot entry
   * under; its string encoding is not part of this model.
   */
  datatype SnapshotId = SnapshotId(name: string, tags: map<string, string>)

  /**
   * Snapshot entries: the fully-qualified name, the scope's tags and the
   * primitive whose current value the entry copies (the values themselves are
   * not part of this model).
   */
  datatype CounterSnapshot = CounterSnapshot(name: string, tags: map<string, string>, counter: Counter)
  datatype GaugeSnapshot = GaugeSnapshot(name: string, tags: map<string, string>, gauge: Gauge)
  datatype TimerSnapshot = TimerSnapshot(name: string, tags: map<string, string>, timer: Timer)
  datatype HistogramSnapshot = HistogramSnapshot(name: string, tags: map<string, string>, histogram: Histogram)

  datatype Snapshot = Snapshot(
    counters: map<SnapshotId, CounterSnapshot>,
    gauges: map<SnapshotId, GaugeSnapshot>,
    timers: map<SnapshotId, TimerSnapshot>,
    histograms: map<SnapshotId, HistogramSnapshot>)

  /** `newSnapshot`. */
  const EmptySnapshot := Snapshot(map[], map[], map[], map[])

  /** The cached reports of the counters of a slice, in slice order. */
  function CachedCounterCalls(s: seq<Counter>): (calls: seq<CachedReportCall>)
    ensures |calls| == |s|
    ensures forall i :: 0 <= i < |s| ==> calls[i] == CounterCachedReport(s[i])
  {
    if s == [] then [] else CachedCounterCalls(s[..|s| - 1]) + [CounterCachedReport(s[|s| - 1])]
  }

  /** The cached reports of the gauges of a slice, in slice order. */
  function CachedGaugeCalls(s: seq<Gauge>): (calls: seq<CachedReportCall>)
    ensures |calls| == |s|
    ensures forall i :: 0 <= i < |s| ==> calls[i] == GaugeCachedReport(s[i])
  {
    if s == [] then [] else CachedGaugeCalls(s[..|s| - 1]) + [GaugeCachedReport(s[|s| - 1])]
  }

  /** The cached reports of the histograms of a slice, in slice order. */
  function CachedHistogramCalls(s: seq<Histogram>): (calls: seq<CachedReportCall>)
    ensures |calls| == |s|
    ensures forall i :: 0 <= i < |s| ==> calls[i] == HistogramCachedReport(s[i])
  {
    if s == [] then [] else CachedHistogramCalls(s[..|s| - 1]) + [HistogramCachedReport(s[|s| - 1])]
  }

  class Scope {
    const separator: string
    const prefix: string
    const tags: map<string, string>
    const reporters: ReporterConfig
    const defaultBuckets: Buckets
    const sanitizer: Sanitizer
    const root: bool
    /** Whether the root scope started its periodic report loop. */
    const reportLoopStarted: bool

    var counters: map<string, Counter>
    var countersSlice: seq<Counter>
    var gauges: map<string, Gauge>
    var gaugesSlice: seq<Gauge>
    var histograms: map<string, Histogram>
    var histogramsSlice: seq<Histogram>
    var timers: map<string, Timer>

    var closed: bool
    /** Whether the shutdown signal (closing of the `done` channel) has been sent. */
    var done: bool

    /**
     * The scope's invariant: each ordered slice mirrors its map, every
     * primitive is bound to the name and tags it was created for, the default
     * buckets are never empty, and the shutdown signal is sent exactly when
     * the scope is closed.
     */
    ghost predicate Valid()
      reads this
    {
      && Mirrors(counters, countersSlice)
      && Mirrors(gauges, gaugesSlice)
      && Mirrors(histograms, histogramsSlice)
      && (forall k :: k in counters ==> counters[k].cached == Allocation(CounterKind, k, None))
      && (forall k :: k in gauges ==> gauges[k].cached == Allocation(GaugeKind, k, None))
      && (forall k :: k in timers ==> TimerBound(k, timers[k]))
      && (forall k :: k in histograms ==> HistogramBound(k, histograms[k]))
      && defaultBuckets.Len() >= 1
      && done == closed
    }

    /** The handle the cached reporter (if any) allocates for a metric named `name`. */
    function Allocation(kind: MetricKind, name: string, buckets: Option<Buckets>): (h: Option<CachedHandle>)
      ensures h.Some? <==> reporters.Cached().Some?
      ensures h.Some? ==> && h.value.sink == reporters.Cached().value && h.value.kind == kind
                          && h.value.name == FullyQualifiedName(name) && h.value.tags == tags
                          && h.value.buckets == buckets
    {
      if reporters.Cached().Some? then
        Some(CachedHandle(reporters.Cached().value, kind, FullyQualifiedName(name), tags, buckets))
      else
        None
    }

    ghost predicate TimerBound(name: string, t: Timer) {
      && t.name == FullyQualifiedName(name)
      && t.tags == tags
      && t.reporter == reporters.Buffered()
      && t.cached == Allocation(TimerKind, name, None)
    }

    ghost predicate HistogramBound(name: string, h: Histogram) {
      && h.name == FullyQualifiedName(name)
      && h.tags == tags
      && h.reporter == reporters.Buffered()
      && h.htype == HistogramTypeOf(h.buckets)
      && h.cached == Allocation(HistogramKind, name, Some(h.buckets))
    }

    /** `newRootScope`, without the registry and the report goroutine. */
    constructor NewRoot(opts: ScopeOptions, interval: Duration)
      ensures Valid() && root && !closed
      ensures reportLoopStarted == (interval > 0)
      ensures sanitizer == (if opts.sanitizeOptions.Some? then opts.sanitizeOptions.value else NoOpSanitizer())
      ensures prefix == sanitizer.name(opts.prefix)
      ensures separator == sanitizer.name(if opts.separator == "" then DefaultSeparator else opts.separator)
      ensures reporters.Buffered() == opts.reporter && reporters.Cached() == opts.cachedReporter
      ensures defaultBuckets == if opts.defaultBuckets.None? || opts.defaultBuckets.value.Len() < 1
                                then DefaultScopeBuckets else opts.defaultBuckets.value
      ensures SanitizedCopy(sanitizer, opts.tags.Entries(), tags)
      ensures opts.sanitizeOptions.None? ==> tags == opts.tags.Entries()
      ensures counters == map[] && gauges == map[] && timers == map[] && histograms == map[]
      ensures countersSlice == [] && gaugesSlice == [] && histogramsSlice == []
    {
      var san := if opts.sanitizeOptions.Some? then opts.sanitizeOptions.value else NoOpSanitizer();
      var optTags := if opts.tags.NilMap? then TagMap(map[]) else opts.tags;
      var sep := if opts.separator == "" then DefaultSeparator else opts.separator;
      var buckets := if opts.defaultBuckets.None? || opts.defaultBuckets.value.Len() < 1
                     then DefaultScopeBuckets else opts.defaultBuckets.value;
      var sanitizedTags := CopyAndSanitizeMap(san, optTags);
      sanitizer := san;
      reporters := ConfigOf(opts.reporter, opts.cachedReporter);
      defaultBuckets := buckets;
      prefix := san.name(opts.prefix);
      separator := san.name(sep);
      tags := sanitizedTags;
      root := true;
      reportLoopStarted := interval > 0;
      counters, countersSlice := map[], [];
      gauges, gaugesSlice := map[], [];
      histograms, histogramsSlice := map[], [];
      timers := map[];
      closed, done := false, false;
    }

    /**
     * A non-root scope as the registry builds it for a subscope request: it
     * shares the parent's separator, reporters, default buckets and sanitizer
     * and starts with no metrics.
     */
    constructor Child(parent: Scope, prefix: string, tags: map<string, string>)
      requires parent.Valid()
      ensures Valid() && !root && !closed && !reportLoopStarted
      ensures this.prefix == prefix && this.tags == tags
      ensures separator == parent.separator && reporters == parent.reporters
      ensures defaultBuckets == parent.defaultBuckets && sanitizer == parent.sanitizer
      ensures counters == map[] && gauges == map[] && timers == map[] && histograms == map[]
      ensures countersSlice == [] && gaugesSlice == [] && histogramsSlice == []
    {
      separator := parent.separator;
      this.prefix := prefix;
      this.tags := tags;
      reporters := parent.reporters;
      defaultBuckets := parent.defaultBuckets;
      sanitizer := parent.sanitizer;
      root := false;
      reportLoopStarted := false;
      counters, countersSlice := map[], [];
      gauges, gaugesSlice := map[], [];
      histograms, histogramsSlice := map[], [];
      timers := map[];
      closed, done := false, false;
    }

    /** A sanitized metric name qualified by the scope's prefix and separator. */
    function FullyQualifiedName(name: string): string {
      if |prefix| == 0 then name else prefix + separator + name
    }

    /**
     * An unprefixed scope uses metric names as they are; otherwise the name
     * is the prefix, then the separator, then the metric name.
     */
    lemma FullyQualifiedNameSplits(name: string)
      ensures |prefix| == 0 ==> FullyQualifiedName(name) == name
      ensures |prefix| > 0 ==> && FullyQualifiedName(name)[..|prefix|] == prefix
                               && FullyQualifiedName(name)[|prefix|..|prefix| + |separator|] == separator
                               && FullyQualifiedName(name)[|prefix| + |separator|..] == name
    {
    }

    /** Distinct metric names get distinct fully-qualified names. */
    lemma FullyQualifiedNameInjective(a: string, b: string)
      requires FullyQualifiedName(a) == FullyQualifiedName(b)
      ensures a == b
    {
      if |prefix| > 0 {
        var n := |prefix| + |separator|;
        assert a == (prefix + separator + a)[n..];
        assert b == (prefix + separator + b)[n..];
      }
    }

    /** `Tagged`: the same prefix, with the caller's tags for the registry to merge. */
    function Tagged(extra: TagMap): (req: SubscopeRequest)
      ensures req.prefix == prefix && req.tags == extra
    {
      SubscopeRequest(prefix, extra)
    }

    /** `SubScope`: the prefix extended by the sanitized name, with no extra tags. */
    function SubScope(name: string): (req: SubscopeRequest)
      ensures req.tags == NilMap
      ensures |prefix| == 0 ==> req.prefix == sanitizer.name(name)
      ensures |prefix| > 0 ==> req.prefix == prefix + separator + sanitizer.name(name)
    {
      SubscopeRequest(FullyQualifiedName(sanitizer.name(name)), NilMap)
    }

    /**
     * Metrics of a subscope derived by `SubScope(name)` from a prefixed scope
     * are named along the dotted path prefix, sanitized name, metric name.
     */
    lemma SubScopeNesting(child: Scope, name: string, metric: string)
      requires |prefix| > 0
      requires child.prefix == SubScope(name).prefix && child.separator == separator
      ensures child.FullyQualifiedName(metric) == prefix + separator + sanitizer.name(name) + separator + metric
    {
    }

    /** `Capabilities`: none without a reporter, otherwise the base reporter's. */
    function Capabilities(): (c: ReporterCapabilities)
      ensures reporters == NoReporter ==> c == CapabilitiesNone
      ensures reporters.Buffered().Some? ==> c == reporters.Buffered().value.capabilities
      ensures reporters.Buffered().None? && reporters.Cached().Some? ==> c == reporters.Cached().value.capabilities
    {
      if reporters.Base().None? then CapabilitiesNone else reporters.Base().value.capabilities
    }

    /**
     * `reportRegistry`: the registry's buffered report and a flush when there
     * is a buffered reporter, else its cached report and a flush when there is
     * a cached reporter, else nothing.
     */
    function ReportRegistry(): (calls: seq<ExternalCall>)
      ensures reporters.Buffered().Some? ==>
                calls == [RegistryReport(reporters.Buffered().value), Flush(reporters.Buffered().value)]
      ensures reporters.Buffered().None? && reporters.Cached().Some? ==>
                calls == [RegistryCachedReport, Flush(reporters.Cached().value)]
      ensures reporters == NoReporter ==> calls == []
    {
      if reporters.Buffered().Some? then
        [RegistryReport(reporters.Buffered().value), Flush(reporters.Buffered().value)]
      else if reporters.Cached().Some? then
        [RegistryCachedReport, Flush(reporters.Cached().value)]
      else
        []
    }

    /** One tick of the report loop: nothing once the scope is closed. */
    method ReportLoopRun() returns (calls: seq<ExternalCall>)
      ensures closed ==> calls == []
      ensures !closed ==> calls == ReportRegistry()
    {
      if closed {
        return [];
      }
      calls := ReportRegistry();
    }

    /** The calls a root scope makes when it closes, after its final flush. */
    function CloserCalls(): (calls: seq<ExternalCall>)
      ensures calls != [] <==> root && reporters.Base().Some? && reporters.Base().value.closer
      ensures calls != [] ==> calls == [CloseReporter(reporters.Base().value)]
    {
      if root && reporters.Base().Some? && reporters.Base().value.closer then
        [CloseReporter(reporters.Base().value)]
      else
        []
    }

    /**
     * `Close`: only the first call moves the scope from open to closed and
     * sends the shutdown signal; a root scope then flushes the whole registry
     * and closes its base reporter if that is an `io.Closer`, returning what
     * that close returns (`closerResult`). Later calls change nothing.
     */
    method Close(closerResult: Option<string>) returns (err: Option<string>, calls: seq<ExternalCall>)
      requires Valid()
      modifies this`closed, this`done
      ensures Valid() && closed && done
      ensures old(closed) ==> err == None && calls == [] && done == old(done)
      ensures !old(closed) && !root ==> err == None && calls == []
      ensures !old(closed) && root ==> calls == ReportRegistry() + CloserCalls()
      ensures !old(closed) && root ==> err == (if CloserCalls() != [] then closerResult else None)
    {
      if closed {
        return None, [];
      }
      closed := true;
      done := true;
      err, calls := None, [];
      if root {
        calls := ReportRegistry();
        if reporters.Base().Some? && reporters.Base().value.closer {
          calls := calls + [CloseReporter(reporters.Base().value)];
          err := closerResult;
        }
      }
    }

    /**
     * `Counter`: the counter already bound to the sanitized name, or a new one
     * (holding a cached handle when there is a cached reporter) bound to it
     * and appended to the ordered slice.
     */
    method Counter(name: string) returns (c: Counter)
      requires Valid()
      modifies this`counters, this`countersSlice
      ensures Valid()
      ensures sanitizer.name(name) in counters && c == counters[sanitizer.name(name)]
      ensures sanitizer.name(name) in old(counters) ==>
                c == old(counters)[sanitizer.name(name)]
                && counters == old(counters) && countersSlice == old(countersSlice)
      ensures sanitizer.name(name) !in old(counters) ==>
                fresh(c) && c.cached == Allocation(CounterKind, sanitizer.name(name), None)
                && counters == old(counters)[sanitizer.name(name) := c]
                && countersSlice == old(countersSlice) + [c]
    {
      var n := sanitizer.name(name);
      if n in counters {
        return counters[n];
      }
      c := new Counter(Allocation(CounterKind, n, None));
      MirrorsAppend(counters, countersSlice, n, c);
      counters := counters[n := c];
      countersSlice := countersSlice + [c];
    }

    /** `Gauge`: as `Counter`, over the gauge map and slice. */
    method Gauge(name: string) returns (g: Gauge)
      requires Valid()
      modifies this`gauges, this`gaugesSlice
      ensures Valid()
      ensures sanitizer.name(name) in gauges && g == gauges[sanitizer.name(name)]
      ensures sanitizer.name(name) in old(gauges) ==>
                g == old(gauges)[sanitizer.name(name)]
                && gauges == old(gauges) && gaugesSlice == old(gaugesSlice)
      ensures sanitizer.name(name) !in old(gauges) ==>
                fresh(g) && g.cached == Allocation(GaugeKind, sanitizer.name(name), None)
                && gauges == old(gauges)[sanitizer.name(name) := g]
                && gaugesSlice == old(gaugesSlice) + [g]
    {
      var n := sanitizer.name(name);
      if n in gauges {
        return gauges[n];
      }
      g := new Gauge(Allocation(GaugeKind, n, None));
      MirrorsAppend(gauges, gaugesSlice, n, g);
      gauges := gauges[n := g];
      gaugesSlice := gaugesSlice + [g];
    }

    /**
     * `Timer`: the timer already bound to the sanitized name, or a new one bound
     * to its fully-qualified name, the scope's tags and reporters. Timers get a
     * map entry only; no slice changes.
     */
    method Timer(name: string) returns (t: Timer)
      requires Valid()
      modifies this`timers
      ensures Valid()
      ensures sanitizer.name(name) in timers && t == timers[sanitizer.name(name)]
      ensures sanitizer.name(name) in old(timers) ==>
                t == old(timers)[sanitizer.name(name)] && timers == old(timers)
      ensures sanitizer.name(name) !in old(timers) ==>
                fresh(t) && TimerBound(sanitizer.name(name), t)
                && timers == old(timers)[sanitizer.name(name) := t]
    {
      var n := sanitizer.name(name);
      if n in timers {
        return timers[n];
      }
      t := new Timer(FullyQualifiedName(n), tags, reporters.Buffered(), Allocation(TimerKind, n, None));
      timers := timers[n := t];
    }

    /**
     * `Histogram`: the histogram already bound to the sanitized name, or a new
     * one over the given buckets (the scope's default buckets when none are
     * given), duration-typed exactly when those are duration buckets.
     */
    method Histogram(name: string, b: Option<Buckets>) returns (h: Histogram)
      requires Valid()
      modifies this`histograms, this`histogramsSlice
      ensures Valid()
      ensures sanitizer.name(name) in histograms && h == histograms[sanitizer.name(name)]
      ensures sanitizer.name(name) in old(histograms) ==>
                h == old(histograms)[sanitizer.name(name)]
                && histograms == old(histograms) && histogramsSlice == old(histogramsSlice)
      ensures sanitizer.name(name) !in old(histograms) ==>
                && fresh(h)
                && h.buckets == (if b.None? then defaultBuckets else b.value)
                && (b.None? ==> h.buckets.Len() >= 1)
                && (h.htype == DurationHistogramType <==> h.buckets.DurationBuckets?)
                && HistogramBound(sanitizer.name(name), h)
                && histograms == old(histograms)[sanitizer.name(name) := h]
                && histogramsSlice == old(histogramsSlice) + [h]
    {
      var n := sanitizer.name(name);
      if n in histograms {
        return histograms[n];
      }
      var buckets := if b.None? then defaultBuckets else b.value;
      var htype := HistogramTypeOf(buckets);
      h := new Histogram(htype, FullyQualifiedName(n), tags, reporters.Buffered(), buckets,
                         Allocation(HistogramKind, n, Some(buckets)));
      MirrorsAppend(histograms, histogramsSlice, n, h);
      histograms := histograms[n := h];
      histogramsSlice := histogramsSlice + [h];
    }

    /** `clearMetrics`: delete every key of the four maps and drop the three slices. */
    method ClearMetrics()
      requires Valid()
      modifies this`counters, this`countersSlice, this`gauges, this`gaugesSlice
      modifies this`timers, this`histograms, this`histogramsSlice
      ensures Valid()
      ensures counters == map[] && gauges == map[] && timers == map[] && histograms == map[]
      ensures countersSlice == [] && gaugesSlice == [] && histogramsSlice == []
    {
      while counters != map[]
        decreases counters.Keys
      {
        var k :| k in counters;
        counters := counters - {k};
      }
      countersSlice := [];

      while gauges != map[]
        invariant counters == map[] && countersSlice == []
        decreases gauges.Keys
      {
        var k :| k in gauges;
        gauges := gauges - {k};
      }
      gaugesSlice := [];

      while timers != map[]
        invariant counters == map[] && countersSlice == [] && gauges == map[] && gaugesSlice == []
        decreases timers.Keys
      {
        var k :| k in timers;
        timers := timers - {k};
      }

      while histograms != map[]
        invariant counters == map[] && countersSlice == [] && gauges == map[] && gaugesSlice == []
        invariant timers == map[]
        decreases histograms.Keys
      {
        var k :| k in histograms;
        histograms := histograms - {k};
      }
      histogramsSlice := [];
    }

    /**
     * `report`: each counter, then each gauge, then each histogram reports to
     * `r` under its fully-qualified name and the scope's tags. Map order is
     * arbitrary; the ghost orders say which one was taken. Timers are skipped.
     */
    method Report(r: Reporter) returns (calls: seq<BufferedReportCall>,
                                        ghost counterOrder: seq<string>,
                                        ghost gaugeOrder: seq<string>,
                                        ghost histogramOrder: seq<string>)
      ensures Enumerates(counterOrder, counters.Keys)
      ensures Enumerates(gaugeOrder, gauges.Keys)
      ensures Enumerates(histogramOrder, histograms.Keys)
      ensures calls == CounterReports(counterOrder, r) + GaugeReports(gaugeOrder, r)
                       + HistogramReports(histogramOrder, r)
      ensures |calls| == |counters| + |gauges| + |histograms|
    {
      var counterCalls, gaugeCalls, histogramCalls;
      counterCalls, counterOrder := ReportCounters(r);
      gaugeCalls, gaugeOrder := ReportGauges(r);
      histogramCalls, histogramOrder := ReportHistograms(r);
      calls := counterCalls + gaugeCalls + histogramCalls;
    }

    /** The buffered reports of the counters named by `order`, in that order. */
    function CounterReports(order: seq<string>, r: Reporter): (calls: seq<BufferedReportCall>)
      requires forall i :: 0 <= i < |order| ==> order[i] in counters
      reads this
      ensures |calls| == |order|
      ensures forall i :: 0 <= i < |order| ==>
                calls[i] == CounterReport(counters[order[i]], FullyQualifiedName(order[i]), tags, r)
    {
      if order == [] then []
      else
        var k := order[|order| - 1];
        CounterReports(order[..|order| - 1], r) + [CounterReport(counters[k], FullyQualifiedName(k), tags, r)]
    }

    /** Whatever order the map iteration takes, every counter is reported under its fully-qualified name. */
    lemma CounterReportsCover(order: seq<string>, r: Reporter, k: string)
      requires Enumerates(order, counters.Keys)
      requires k in counters
      ensures CounterReport(counters[k], FullyQualifiedName(k), tags, r) in CounterReports(order, r)
    {
    }

    /** The counter loop of `report`: every counter reports once, in the order Go's map iteration picks. */
    method ReportCounters(r: Reporter) returns (calls: seq<BufferedReportCall>, ghost order: seq<string>)
      ensures Enumerates(order, counters.Keys)
      ensures calls == CounterReports(order, r)
      ensures |calls| == |counters|
    {
      calls, order := [], [];
      var pending := counters.Keys;
      while pending != {}
        invariant pending <= counters.Keys
        invariant Distinct(order)
        invariant forall i :: 0 <= i < |order| ==> order[i] in counters.Keys - pending
        invariant forall k :: k in counters.Keys - pending ==> k in order
        invariant calls == CounterReports(order, r)
        decreases pending
      {
        var k :| k in pending;
        calls := calls + [CounterReport(counters[k], FullyQualifiedName(k), tags, r)];
        order := order + [k];
        pending := pending - {k};
      }
      EnumerationSize(order, counters.Keys);
    }

    /** The buffered reports of the gauges named by `order`, in that order. */
    function GaugeReports(order: seq<string>, r: Reporter): (calls: seq<BufferedReportCall>)
      requires forall i :: 0 <= i < |order| ==> order[i] in gauges
      reads this
      ensures |calls| == |order|
      ensures forall i :: 0 <= i < |order| ==>
                calls[i] == GaugeReport(gauges[order[i]], FullyQualifiedName(order[i]), tags, r)
    {
      if order == [] then []
      else
        var k := order[|order| - 1];
        GaugeReports(order[..|order| - 1], r) + [GaugeReport(gauges[k], FullyQualifiedName(k), tags, r)]
    }

    /** Whatever order the map iteration takes, every gauge is reported under its fully-qualified name. */
    lemma GaugeReportsCover(order: seq<string>, r: Reporter, k: string)
      requires Enumerates(order, gauges.Keys)
      requires k in gauges
      ensures GaugeReport(gauges[k], FullyQualifiedName(k), tags, r) in GaugeReports(order, r)
    {
    }

    /** The gauge loop of `report`: every gauge reports once, in the order Go's map iteration picks. */
    method ReportGauges(r: Reporter) returns (calls: seq<BufferedReportCall>, ghost order: seq<string>)
      ensures Enumerates(order, gauges.Keys)
      ensures calls == GaugeReports(order, r)
      ensures |calls| == |gauges|
    {
      calls, order := [], [];
      var pending := gauges.Keys;
      while pending != {}
        invariant pending <= gauges.Keys
        invariant Distinct(order)
        invariant forall i :: 0 <= i < |order| ==> order[i] in gauges.Keys - pending
        invariant forall k :: k in gauges.Keys - pending ==> k in order
        invariant calls == GaugeReports(order, r)
        decreases pending
      {
        var k :| k in pending;
        calls := calls + [GaugeReport(gauges[k], FullyQualifiedName(k), tags, r)];
        order := order + [k];
        pending := pending - {k};
      }
      EnumerationSize(order, gauges.Keys);
    }

    /** The buffered reports of the histograms named by `order`, in that order. */
    function HistogramReports(order: seq<string>, r: Reporter): (calls: seq<BufferedReportCall>)
      requires forall i :: 0 <= i < |order| ==> order[i] in histograms
      reads this
      ensures |calls| == |order|
      ensures forall i :: 0 <= i < |order| ==>
                calls[i] == HistogramReport(histograms[order[i]], FullyQualifiedName(order[i]), tags, r)
    {
      if order == [] then []
      else
        var k := order[|order| - 1];
        HistogramReports(order[..|order| - 1], r) + [HistogramReport(histograms[k], FullyQualifiedName(k), tags, r)]
    }

    /** Whatever order the map iteration takes, every histogram is reported under its fully-qualified name. */
    lemma HistogramReportsCover(order: seq<string>, r: Reporter, k: string)
      requires Enumerates(order, histograms.Keys)
      requires k in histograms
      ensures HistogramReport(histograms[k], FullyQualifiedName(k), tags, r) in HistogramReports(order, r)
    {
    }

    /** The histogram loop of `report`: every histogram reports once, in the order Go's map iteration picks. */
    method ReportHistograms(r: Reporter) returns (calls: seq<BufferedReportCall>, ghost order: seq<string>)
      ensures Enumerates(order, histograms.Keys)
      ensures calls == HistogramReports(order, r)
      ensures |calls| == |histograms|
    {
      calls, order := [], [];
      var pending := histograms.Keys;
      while pending != {}
        invariant pending <= histograms.Keys
        invariant Distinct(order)
        invariant forall i :: 0 <= i < |order| ==> order[i] in histograms.Keys - pending
        invariant forall k :: k in histograms.Keys - pending ==> k in order
        invariant calls == HistogramReports(order, r)
        decreases pending
      {
        var k :| k in pending;
        calls := calls + [HistogramReport(histograms[k], FullyQualifiedName(k), tags, r)];
        order := order + [k];
        pending := pending - {k};
      }
      EnumerationSize(order, histograms.Keys);
    }

    /**
     * `cachedReport`: every counter, then every gauge, then every histogram
     * writes into its cached handle, in slice order. Under the invariant this
     * visits every primitive of the maps exactly once.
     */
    method CachedReport() returns (calls: seq<CachedReportCall>)
      requires Valid()
      ensures calls == CachedCounterCalls(countersSlice) + CachedGaugeCalls(gaugesSlice)
                       + CachedHistogramCalls(histogramsSlice)
      ensures |calls| == |counters| + |gauges| + |histograms|
      ensures forall k :: k in counters ==> CounterCachedReport(counters[k]) in calls
      ensures forall k :: k in gauges ==> GaugeCachedReport(gauges[k]) in calls
      ensures forall k :: k in histograms ==> HistogramCachedReport(histograms[k]) in calls
    {
      var counterCalls := CachedReportCounters();
      var gaugeCalls := CachedReportGauges();
      var histogramCalls := CachedReportHistograms();
      calls := counterCalls + gaugeCalls + histogramCalls;
    }

    /** The counter loop of `cachedReport`: the counters in slice order, which visits each counter of the map once. */
    method CachedReportCounters() returns (calls: seq<CachedReportCall>)
      requires Mirrors(counters, countersSlice)
      ensures calls == CachedCounterCalls(countersSlice)
      ensures |calls| == |counters|
      ensures forall k :: k in counters ==> CounterCachedReport(counters[k]) in calls
    {
      calls := [];
      for i := 0 to |countersSlice|
        invariant calls == CachedCounterCalls(countersSlice[..i])
      {
        calls := calls + [CounterCachedReport(countersSlice[i])];
      }
      assert countersSlice[..|countersSlice|] == countersSlice;
      MirrorsSameSize(counters, countersSlice);
      forall k | k in counters ensures CounterCachedReport(counters[k]) in calls {
        var i :| 0 <= i < |countersSlice| && countersSlice[i] == counters[k];
        assert calls[i] == CounterCachedReport(counters[k]);
      }
    }

    /** The gauge loop of `cachedReport`: the gauges in slice order, which visits each gauge of the map once. */
    method CachedReportGauges() returns (calls: seq<CachedReportCall>)
      requires Mirrors(gauges, gaugesSlice)
      ensures calls == CachedGaugeCalls(gaugesSlice)
      ensures |calls| == |gauges|
      ensures forall k :: k in gauges ==> GaugeCachedReport(gauges[k]) in calls
    {
      calls := [];
      for i := 0 to |gaugesSlice|
        invariant calls == CachedGaugeCalls(gaugesSlice[..i])
      {
        calls := calls + [GaugeCachedReport(gaugesSlice[i])];
      }
      assert gaugesSlice[..|gaugesSlice|] == gaugesSlice;
      MirrorsSameSize(gauges, gaugesSlice);
      forall k | k in gauges ensures GaugeCachedReport(gauges[k]) in calls {
        var i :| 0 <= i < |gaugesSlice| && gaugesSlice[i] == gauges[k];
        assert calls[i] == GaugeCachedReport(gauges[k]);
      }
    }

    /** The histogram loop of `cachedReport`: the histograms in slice order, which visits each histogram of the map once. */
    method CachedReportHistograms() returns (calls: seq<CachedReportCall>)
      requires Mirrors(histograms, histogramsSlice)
      ensures calls == CachedHistogramCalls(histogramsSlice)
      ensures |calls| == |histograms|
      ensures forall k :: k in histograms ==> HistogramCachedReport(histograms[k]) in calls
    {
      calls := [];
      for i := 0 to |histogramsSlice|
        invariant calls == CachedHistogramCalls(histogramsSlice[..i])
      {
        calls := calls + [HistogramCachedReport(histogramsSlice[i])];
      }
      assert histogramsSlice[..|histogramsSlice|] == histogramsSlice;
      MirrorsSameSize(histograms, histogramsSlice);
      forall k | k in histograms ensures HistogramCachedReport(histograms[k]) in calls {
        var i :| 0 <= i < |histogramsSlice| && histogramsSlice[i] == histograms[k];
        assert calls[i] == HistogramCachedReport(histograms[k]);
      }
    }

    /** The id of the snapshot entry of the metric named `name`. */
    function SnapshotIdOf(name: string): (id: SnapshotId)
      ensures id.name == FullyQualifiedName(name) && id.tags == tags
    {
      SnapshotId(FullyQualifiedName(name), tags)
    }

    /** Different metric names of one scope get different snapshot ids. */
    lemma SnapshotIdInjective()
      ensures forall a, b :: SnapshotIdOf(a) == SnapshotIdOf(b) ==> a == b
    {
      forall a, b | SnapshotIdOf(a) == SnapshotIdOf(b) ensures a == b {
        FullyQualifiedNameInjective(a, b);
      }
    }

    /** The snapshot entries of the counters named in `names`. */
    ghost function CounterEntries(names: set<string>): map<SnapshotId, CounterSnapshot>
      requires names <= counters.Keys
      reads this
    {
      SnapshotIdInjective();
      map k | k in names :: SnapshotIdOf(k) := CounterSnapshot(FullyQualifiedName(k), tags, counters[k])
    }

    lemma CounterEntriesAdd(names: set<string>, k: string)
      requires names <= counters.Keys && k in counters && k !in names
      ensures CounterEntries(names + {k})
                == CounterEntries(names)[SnapshotIdOf(k) := CounterSnapshot(FullyQualifiedName(k), tags, counters[k])]
    {
      var grown := CounterEntries(names + {k});
      var stepped := CounterEntries(names)[SnapshotIdOf(k) := CounterSnapshot(FullyQualifiedName(k), tags, counters[k])];
      SnapshotIdInjective();
      assert grown.Keys == stepped.Keys;
      forall id | id in grown ensures grown[id] == stepped[id] {
      }
    }

    /** The counter loop of the snapshot visitor: one entry per counter, filed under its id. */
    method SnapshotCounters(into: map<SnapshotId, CounterSnapshot>) returns (result: map<SnapshotId, CounterSnapshot>)
      ensures result == into + CounterEntries(counters.Keys)
    {
      result := into;
      var pending := counters.Keys;
      while pending != {}
        invariant pending <= counters.Keys
        invariant result == into + CounterEntries(counters.Keys - pending)
        decreases pending
      {
        var k :| k in pending;
        var entry := CounterSnapshot(FullyQualifiedName(k), tags, counters[k]);
        ghost var before := counters.Keys - pending;
        CounterEntriesAdd(before, k);
        UnionUpdate(into, CounterEntries(before), SnapshotIdOf(k), entry);
        result := result[SnapshotIdOf(k) := entry];
        pending := pending - {k};
        assert counters.Keys - pending == before + {k};
      }
      assert counters.Keys - pending == counters.Keys;
    }

    /** The snapshot entries of the gauges named in `names`. */
    ghost function GaugeEntries(names: set<string>): map<SnapshotId, GaugeSnapshot>
      requires names <= gauges.Keys
      reads this
    {
      SnapshotIdInjective();
      map k | k in names :: SnapshotIdOf(k) := GaugeSnapshot(FullyQualifiedName(k), tags, gauges[k])
    }

    lemma GaugeEntriesAdd(names: set<string>, k: string)
      requires names <= gauges.Keys && k in gauges && k !in names
      ensures GaugeEntries(names + {k})
                == GaugeEntries(names)[SnapshotIdOf(k) := GaugeSnapshot(FullyQualifiedName(k), tags, gauges[k])]
    {
      var grown := GaugeEntries(names + {k});
      var stepped := GaugeEntries(names)[SnapshotIdOf(k) := GaugeSnapshot(FullyQualifiedName(k), tags, gauges[k])];
      SnapshotIdInjective();
      assert grown.Keys == stepped.Keys;
      forall id | id in grown ensures grown[id] == stepped[id] {
      }
    }

    /** The gauge loop of the snapshot visitor: one entry per gauge, filed under its id. */
    method SnapshotGauges(into: map<SnapshotId, GaugeSnapshot>) returns (result: map<SnapshotId, GaugeSnapshot>)
      ensures result == into + GaugeEntries(gauges.Keys)
    {
      result := into;
      var pending := gauges.Keys;
      while pending != {}
        invariant pending <= gauges.Keys
        invariant result == into + GaugeEntries(gauges.Keys - pending)
        decreases pending
      {
        var k :| k in pending;
        var entry := GaugeSnapshot(FullyQualifiedName(k), tags, gauges[k]);
        ghost var before := gauges.Keys - pending;
        GaugeEntriesAdd(before, k);
        UnionUpdate(into, GaugeEntries(before), SnapshotIdOf(k), entry);
        result := result[SnapshotIdOf(k) := entry];
        pending := pending - {k};
        assert gauges.Keys - pending == before + {k};
      }
      assert gauges.Keys - pending == gauges.Keys;
    }

    /** The snapshot entries of the timers named in `names`. */
    ghost function TimerEntries(names: set<string>): map<SnapshotId, TimerSnapshot>
      requires names <= timers.Keys
      reads this
    {
      SnapshotIdInjective();
      map k | k in names :: SnapshotIdOf(k) := TimerSnapshot(FullyQualifiedName(k), tags, timers[k])
    }

    lemma TimerEntriesAdd(names: set<string>, k: string)
      requires names <= timers.Keys && k in timers && k !in names
      ensures TimerEntries(names + {k})
                == TimerEntries(names)[SnapshotIdOf(k) := TimerSnapshot(FullyQualifiedName(k), tags, timers[k])]
    {
      var grown := TimerEntries(names + {k});
      var stepped := TimerEntries(names)[SnapshotIdOf(k) := TimerSnapshot(FullyQualifiedName(k), tags, timers[k])];
      SnapshotIdInjective();
      assert grown.Keys == stepped.Keys;
      forall id | id in grown ensures grown[id] == stepped[id] {
      }
    }

    /** The timer loop of the snapshot visitor: one entry per timer, filed under its id. */
    method SnapshotTimers(into: map<SnapshotId, TimerSnapshot>) returns (result: map<SnapshotId, TimerSnapshot>)
      ensures result == into + TimerEntries(timers.Keys)
    {
      result := into;
      var pending := timers.Keys;
      while pending != {}
        invariant pending <= timers.Keys
        invariant result == into + TimerEntries(timers.Keys - pending)
        decreases pending
      {
        var k :| k in pending;
        var entry := TimerSnapshot(FullyQualifiedName(k), tags, timers[k]);
        ghost var before := timers.Keys - pending;
        TimerEntriesAdd(before, k);
        UnionUpdate(into, TimerEntries(before), SnapshotIdOf(k), entry);
        result := result[SnapshotIdOf(k) := entry];
        pending := pending - {k};
        assert timers.Keys - pending == before + {k};
      }
      assert timers.Keys - pending == timers.Keys;
    }

    /** The snapshot entries of the histograms named in `names`. */
    ghost function HistogramEntries(names: set<string>): map<SnapshotId, HistogramSnapshot>
      requires names <= histograms.Keys
      reads this
    {
      SnapshotIdInjective();
      map k | k in names :: SnapshotIdOf(k) := HistogramSnapshot(FullyQualifiedName(k), tags, histograms[k])
    }

    lemma HistogramEntriesAdd(names: set<string>, k: string)
      requires names <= histograms.Keys && k in histograms && k !in names
      ensures HistogramEntries(names + {k})
                == HistogramEntries(names)[SnapshotIdOf(k) := HistogramSnapshot(FullyQualifiedName(k), tags, histograms[k])]
    {
      var grown := HistogramEntries(names + {k});
      var stepped := HistogramEntries(names)[SnapshotIdOf(k) := HistogramSnapshot(FullyQualifiedName(k), tags, histograms[k])];
      SnapshotIdInjective();
      assert grown.Keys == stepped.Keys;
      forall id | id in grown ensures grown[id] == stepped[id] {
      }
    }

    /** The histogram loop of the snapshot visitor: one entry per histogram, filed under its id. */
    method SnapshotHistograms(into: map<SnapshotId, HistogramSnapshot>) returns (result: map<SnapshotId, HistogramSnapshot>)
      ensures result == into + HistogramEntries(histograms.Keys)
    {
      result := into;
      var pending := histograms.Keys;
      while pending != {}
        invariant pending <= histograms.Keys
        invariant result == into + HistogramEntries(histograms.Keys - pending)
        decreases pending
      {
        var k :| k in pending;
        var entry := HistogramSnapshot(FullyQualifiedName(k), tags, histograms[k]);
        ghost var before := histograms.Keys - pending;
        HistogramEntriesAdd(before, k);
        UnionUpdate(into, HistogramEntries(before), SnapshotIdOf(k), entry);
        result := result[SnapshotIdOf(k) := entry];
        pending := pending - {k};
        assert histograms.Keys - pending == before + {k};
      }
      assert histograms.Keys - pending == histograms.Keys;
    }

    /**
     * The visitor `Snapshot` runs on this scope: every counter, gauge, timer
     * and histogram is copied into the snapshot under the id made of its
     * fully-qualified name and the scope's tags, overwriting an entry with
     * the same id.
     */
    method SnapshotInto(snap: Snapshot) returns (result: Snapshot)
      ensures result.counters == snap.counters + CounterEntries(counters.Keys)
      ensures result.gauges == snap.gauges + GaugeEntries(gauges.Keys)
      ensures result.timers == snap.timers + TimerEntries(timers.Keys)
      ensures result.histograms == snap.histograms + HistogramEntries(histograms.Keys)
    {
      var cs := SnapshotCounters(snap.counters);
      var gs := SnapshotGauges(snap.gauges);
      var ts := SnapshotTimers(snap.timers);
      var hs := SnapshotHistograms(snap.histograms);
      result := Snapshot(cs, gs, ts, hs);
    }

    /** A counter of this scope shows up in a snapshot under its fully-qualified name and the scope's tags. */
    lemma CounterSnapshotFiled(snap: Snapshot, result: Snapshot, name: string)
      requires result.counters == snap.counters + CounterEntries(counters.Keys)
      requires name in counters
      ensures SnapshotId(FullyQualifiedName(name), tags) in result.counters
      ensures result.counters[SnapshotId(FullyQualifiedName(name), tags)]
                == CounterSnapshot(FullyQualifiedName(name), tags, counters[name])
    {
      SnapshotIdInjective();
      var entries := CounterEntries(counters.Keys);
      assert SnapshotIdOf(name) in entries;
      var k :| k in counters && SnapshotIdOf(k) == SnapshotIdOf(name)
               && entries[SnapshotIdOf(name)] == CounterSnapshot(FullyQualifiedName(k), tags, counters[k]);
    }

    /** A gauge of this scope shows up in a snapshot under its fully-qualified name and the scope's tags. */
    lemma GaugeSnapshotFiled(snap: Snapshot, result: Snapshot, name: string)
      requires result.gauges == snap.gauges + GaugeEntries(gauges.Keys)
      requires name in gauges
      ensures SnapshotId(FullyQualifiedName(name), tags) in result.gauges
      ensures result.gauges[SnapshotId(FullyQualifiedName(name), tags)]
                == GaugeSnapshot(FullyQualifiedName(name), tags, gauges[name])
    {
      SnapshotIdInjective();
      var entries := GaugeEntries(gauges.Keys);
      assert SnapshotIdOf(name) in entries;
      var k :| k in gauges && SnapshotIdOf(k) == SnapshotIdOf(name)
               && entries[SnapshotIdOf(name)] == GaugeSnapshot(FullyQualifiedName(k), tags, gauges[k]);
    }

    /** A timer of this scope shows up in a snapshot under its fully-qualified name and the scope's tags. */
    lemma TimerSnapshotFiled(snap: Snapshot, result: Snapshot, name: string)
      requires result.timers == snap.timers + TimerEntries(timers.Keys)
      requires name in timers
      ensures SnapshotId(FullyQualifiedName(name), tags) in result.timers
      ensures result.timers[SnapshotId(FullyQualifiedName(name), tags)]
                == TimerSnapshot(FullyQualifiedName(name), tags, timers[name])
    {
      SnapshotIdInjective();
      var entries := TimerEntries(timers.Keys);
      assert SnapshotIdOf(name) in entries;
      var k :| k in timers && SnapshotIdOf(k) == SnapshotIdOf(name)
               && entries[SnapshotIdOf(name)] == TimerSnapshot(FullyQualifiedName(k), tags, timers[k]);
    }

    /** A histogram of this scope shows up in a snapshot under its fully-qualified name and the scope's tags. */
    lemma HistogramSnapshotFiled(snap: Snapshot, result: Snapshot, name: string)
      requires result.histograms == snap.histograms + HistogramEntries(histograms.Keys)
      requires name in histograms
      ensures SnapshotId(FullyQualifiedName(name), tags) in result.histograms
      ensures result.histograms[SnapshotId(FullyQualifiedName(name), tags)]
                == HistogramSnapshot(FullyQualifiedName(name), tags, histograms[name])
    {
      SnapshotIdInjective();
      var entries := HistogramEntries(histograms.Keys);
      assert SnapshotIdOf(name) in entries;
      var k :| k in histograms && SnapshotIdOf(k) == SnapshotIdOf(name)
               && entries[SnapshotIdOf(name)] == HistogramSnapshot(FullyQualifiedName(k), tags, histograms[k]);
    }
  }
}

