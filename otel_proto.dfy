/** The logical shape of an OpenTelemetry metrics export request as the
    session host receives it (`ExportMetricsServiceRequest` and the messages
    it contains). Only the fields the session host reads are kept. */
module OTelProto {

  /** A 64-bit IEEE double, kept opaque: its bit pattern and the text that
      `ToString(CultureInfo.InvariantCulture)` gives for it. */
  datatype Double = Double(bits: bv64, invariantText: string)

  /** `AnyValue`: the value of an attribute. `OtherValue` stands for the
      array, key-list and bytes cases and for an unset value, together with
      the text that protobuf's `ToString()` gives for it. */
  datatype AnyValue =
    | StringValue(s: string)
    | BoolValue(b: bool)
    | IntValue(i: int)
    | DoubleValue(d: Double)
    | OtherValue(text: string)

  /** An attribute: a key and its value. */
  datatype KeyValue = KeyValue(key: string, value: AnyValue)

  /** The value of a `NumberDataPoint`: the `AsInt` or `AsDouble` case, or neither. */
  datatype NumberValue = AsInt(i: int) | AsDouble(d: Double) | NoValue

  /** A `NumberDataPoint`; `timeUnixNano` is an unsigned 64-bit count of nanoseconds. */
  datatype NumberDataPoint = NumberDataPoint(timeUnixNano: nat, value: NumberValue)

  /** A `HistogramDataPoint`; its buckets are never read, so only the time is kept. */
  datatype HistogramDataPoint = HistogramDataPoint(timeUnixNano: nat)

  /** The `data` oneof of a `Metric`. `OtherData` stands for the exponential
      histogram and summary cases and for an unset oneof. */
  datatype MetricData =
    | Gauge(gaugePoints: seq<NumberDataPoint>)
    | Sum(sumPoints: seq<NumberDataPoint>)
    | Histogram(histogramPoints: seq<HistogramDataPoint>)
    | OtherData

  datatype Metric = Metric(name: string, description: string, unit: string, data: MetricData)

  /** `ScopeMetrics`: the instrumentation scope's name and its metrics. */
  datatype ScopeMetrics = ScopeMetrics(scopeName: string, metrics: seq<Metric>)

  /** `ResourceMetrics`: the resource's attributes and its scope blocks. */
  datatype ResourceMetrics = ResourceMetrics(attributes: seq<KeyValue>, scopeMetrics: seq<ScopeMetrics>)

  /** `ExportMetricsServiceRequest`: a batch of resource blocks. */
  datatype ExportMetricsServiceRequest = ExportMetricsServiceRequest(resourceMetrics: seq<ResourceMetrics>)
}
