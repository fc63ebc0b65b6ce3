/** The messages of the service control API, as far as caching and aggregation look at them. */
module Proto {
  import opened Lists

  datatype Timestamp = Timestamp(seconds: int, nanos: int)

  /** `TimestampBefore`. */
  predicate Before(a: Timestamp, b: Timestamp) {
    a.seconds < b.seconds || (a.seconds == b.seconds && a.nanos < b.nanos)
  }

  /** The start of a merged time span: the earlier one, if both are present. */
  function Earlier(from: Option<Timestamp>, to: Option<Timestamp>): Option<Timestamp> {
    if from.Some? && (to.None? || Before(from.value, to.value)) then from else to
  }

  /** The end of a merged time span: the later one, if both are present. */
  function Later(from: Option<Timestamp>, to: Option<Timestamp>): Option<Timestamp> {
    if from.Some? && (to.None? || Before(to.value, from.value)) then from else to
  }

  datatype BucketOption =
    | NoBuckets
    | Linear(numFinite: int, width: real, offset: real)
    | Exponential(numFiniteExp: int, growth: real, scale: real)
    | Explicit(bounds: seq<real>)

  datatype Distribution = Distribution(
    count: int, mean: real, minimum: real, maximum: real, squares: real, option: BucketOption, buckets: seq<int>)

  datatype Value =
    | NoValue
    | BoolValue(b: bool)
    | Int64Value(i: int)
    | DoubleValue(d: real)
    | StringValue(s: string)
    | DistributionValue(dist: Distribution)

  /** Two values agree on which member of the oneof is set. */
  predicate SameCase(a: Value, b: Value) {
    match a
    case NoValue => b.NoValue?
    case BoolValue(_) => b.BoolValue?
    case Int64Value(_) => b.Int64Value?
    case DoubleValue(_) => b.DoubleValue?
    case StringValue(_) => b.StringValue?
    case DistributionValue(_) => b.DistributionValue?
  }

  datatype MetricValue = MetricValue(
    labels: map<string, string>, start: Option<Timestamp>, end: Option<Timestamp>, value: Value)

  datatype MetricValueSet = MetricValueSet(name: string, values: seq<MetricValue>)

  datatype Importance = Low | High

  datatype Operation = Operation(
    id: string, name: string, consumer: string, start: Option<Timestamp>, end: Option<Timestamp>,
    labels: map<string, string>, metrics: seq<MetricValueSet>, logs: seq<string>, importance: Importance)

  /** A metric value set of a quota operation; it carries exactly one value. */
  datatype QuotaMetric = QuotaMetric(name: string, value: MetricValue)

  datatype QuotaMode = Unspecified | Normal | BestEffort | CheckOnly

  datatype QuotaOperation = QuotaOperation(
    id: string, methodName: string, consumer: string, labels: map<string, string>, metrics: seq<QuotaMetric>,
        mode: QuotaMode)

  datatype QuotaRequest = QuotaRequest(service: string, configId: string, operation: Option<QuotaOperation>)

  datatype QuotaResponse = QuotaResponse(id: string, errors: seq<string>)

  datatype CheckRequest = CheckRequest(service: string, configId: string, operation: Option<Operation>)

  datatype CheckResponse = CheckResponse(id: string, errors: seq<string>)

  datatype ReportRequest = ReportRequest(service: string, configId: string, operations: seq<Operation>)

  datatype Code = Ok | InvalidArgument | NotFound | OutOfRange
}
