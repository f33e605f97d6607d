/**
 * The collaborators a scope works with: histogram bucket definitions, the
 * reporting sinks and their capabilities, the metric primitives (opaque
 * objects whose arithmetic is not part of this model) and the records of
 * calls the scope makes into code outside it.
 */
module Metrics {
  import opened Wrappers

  /** A `time.Duration`: a signed number of nanoseconds. */
  type Duration = int

  const Millisecond: Duration := 1_000_000
  const Second: Duration := 1_000 * Millisecond

  /** A bucket definition: upper bounds given as durations or as plain values. */
  datatype Buckets = DurationBuckets(durations: seq<Duration>) | ValueBuckets(values: seq<real>) {
    function Len(): nat {
      if DurationBuckets? then |durations| else |values|
    }
  }

  /** Bucket bounds used when the scope options name none (or an empty set). */
  const DefaultScopeBuckets: Buckets := DurationBuckets([
    0 * Millisecond, 10 * Millisecond, 25 * Millisecond, 50 * Millisecond, 75 * Millisecond,
    100 * Millisecond, 200 * Millisecond, 300 * Millisecond, 400 * Millisecond, 500 * Millisecond,
    600 * Millisecond, 800 * Millisecond, 1 * Second, 2 * Second, 5 * Second])

  datatype HistogramType = ValueHistogramType | DurationHistogramType

  /** A histogram is duration-typed exactly when its buckets are duration buckets. */
  function HistogramTypeOf(b: Buckets): (t: HistogramType)
    ensures t == DurationHistogramType <==> b.DurationBuckets?
    ensures t == ValueHistogramType <==> !b.DurationBuckets?
  {
    if b.DurationBuckets? then DurationHistogramType else ValueHistogramType
  }

  /** What a reporter says it supports. */
  datatype ReporterCapabilities = ReporterCapabilities(reporting: bool, tagging: bool)

  /** The capabilities of a scope with no reporter. */
  const CapabilitiesNone := ReporterCapabilities(false, false)

  /**
   * A reporting sink, known by its identity; `closer` records whether it also
   * implements `io.Closer`.
   */
  datatype Reporter = Reporter(id: nat, capabilities: ReporterCapabilities, closer: bool)

  /** Which sinks a root scope was given: none, a buffered one, a cached one, or both. */
  datatype ReporterConfig =
    | NoReporter
    | BufferedOnly(reporter: Reporter)
    | CachedOnly(cachedReporter: Reporter)
    | Both(reporter: Reporter, cachedReporter: Reporter)
  {
    /** The buffered `StatsReporter`, if any. */
    function Buffered(): Option<Reporter> {
      match this
      case BufferedOnly(r) => Some(r)
      case Both(r, _) => Some(r)
      case _ => None
    }

    /** The `CachedStatsReporter`, if any. */
    function Cached(): Option<Reporter> {
      match this
      case CachedOnly(c) => Some(c)
      case Both(_, c) => Some(c)
      case _ => None
    }

    /** The base reporter: the buffered one when present, else the cached one. */
    function Base(): (b: Option<Reporter>)
      ensures Buffered().Some? ==> b == Buffered()
      ensures Buffered().None? ==> b == Cached()
      ensures b.None? <==> this == NoReporter
    {
      match this
      case NoReporter => None
      case BufferedOnly(r) => Some(r)
      case CachedOnly(c) => Some(c)
      case Both(r, _) => Some(r)
    }
  }

  /** The configuration made of the two optional reporters of the scope options. */
  function ConfigOf(reporter: Option<Reporter>, cachedReporter: Option<Reporter>): (c: ReporterConfig)
    ensures c.Buffered() == reporter && c.Cached() == cachedReporter
  {
    match (reporter, cachedReporter)
    case (None, None) => NoReporter
    case (Some(r), None) => BufferedOnly(r)
    case (None, Some(cr)) => CachedOnly(cr)
    case (Some(r), Some(cr)) => Both(r, cr)
  }

  datatype MetricKind = CounterKind | GaugeKind | TimerKind | HistogramKind

  /**
   * A handle a cached reporter allocated for one metric: the request it was
   * allocated for (kind, fully-qualified name, tags and, for histograms, buckets).
   */
  datatype CachedHandle = CachedHandle(
    sink: Reporter, kind: MetricKind, name: string, tags: map<string, string>, buckets: Option<Buckets>)

  /** A counter primitive; its accumulator is not part of this model. */
  class Counter {
    const cached: Option<CachedHandle>

    constructor (cached: Option<CachedHandle>)
      ensures this.cached == cached
    {
      this.cached := cached;
    }
  }

  /** A gauge primitive; its last value is not part of this model. */
  class Gauge {
    const cached: Option<CachedHandle>

    constructor (cached: Option<CachedHandle>)
      ensures this.cached == cached
    {
      this.cached := cached;
    }
  }

  /** A timer primitive, bound at creation to its name, tags and reporters. */
  class Timer {
    const name: string
    const tags: map<string, string>
    const reporter: Option<Reporter>
    const cached: Option<CachedHandle>

    constructor (name: string, tags: map<string, string>, reporter: Option<Reporter>, cached: Option<CachedHandle>)
      ensures this.name == name && this.tags == tags && this.reporter == reporter && this.cached == cached
    {
      this.name := name;
      this.tags := tags;
      this.reporter := reporter;
      this.cached := cached;
    }
  }

  /**
   * A histogram primitive. `buckets` with `htype` is the key under which the
   * bucket cache hands out shared bucket storage.
   */
  class Histogram {
    const htype: HistogramType
    const name: string
    const tags: map<string, string>
    const reporter: Option<Reporter>
    const buckets: Buckets
    const cached: Option<CachedHandle>

    constructor (htype: HistogramType, name: string, tags: map<string, string>, reporter: Option<Reporter>,
                 buckets: Buckets, cached: Option<CachedHandle>)
      ensures this.htype == htype && this.name == name && this.tags == tags
      ensures this.reporter == reporter && this.buckets == buckets && this.cached == cached
    {
      this.htype := htype;
      this.name := name;
      this.tags := tags;
      this.reporter := reporter;
      this.buckets := buckets;
      this.cached := cached;
    }
  }

  /** A call from a scope into the registry or a reporter. */
  datatype ExternalCall =
    | RegistryReport(sink: Reporter)
    | RegistryCachedReport
    | Flush(sink: Reporter)
    | CloseReporter(sink: Reporter)

  /** One primitive's buffered report: the primitive, its fully-qualified name, the scope's tags and the sink. */
  datatype BufferedReportCall =
    | CounterReport(counter: Counter, name: string, tags: map<string, string>, sink: Reporter)
    | GaugeReport(gauge: Gauge, name: string, tags: map<string, string>, sink: Reporter)
    | HistogramReport(histogram: Histogram, name: string, tags: map<string, string>, sink: Reporter)

  /** One primitive's cached report, written into the handle it holds. */
  datatype CachedReportCall =
    | CounterCachedReport(counter: Counter)
    | GaugeCachedReport(gauge: Gauge)
    | HistogramCachedReport(histogram: Histogram)
}
