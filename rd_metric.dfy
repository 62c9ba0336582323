/** The metric entries of the protocol-side resource (`RdResource`): an id of
    scope name and metric name, a type fixed at construction, and the
    dispatch of incoming values on that type. The three data-point adders
    have empty bodies, so a metric never changes after it is built; what the
    dispatch decides is which adder receives which points, or whether the
    lookup of the incoming metric's data case fails. */
module RdMetric {
  import opened Common
  import opened OTelProto

  /** A record struct: equal exactly when both names are equal. */
  datatype RdMetricId = RdMetricId(scopeName: string, metricName: string)

  datatype RdMetricType = Gauge | Sum | Histogram | Other

  datatype RdMetric = RdMetric(id: RdMetricId, metricType: RdMetricType, description: string, unit: string)
  {
    /** The `Type` property: the type given at construction. */
    function Type(): (t: RdMetricType)
      ensures t == metricType
    {
      metricType
    }
  }

  /** Which empty adder a call of `AddMetricValue` reaches, with the points
      it is handed. */
  datatype Dispatch =
    | GaugePoints(numberPoints: seq<NumberDataPoint>)
    | SumPoints(numberPoints: seq<NumberDataPoint>)
    | HistogramPoints(histogramPoints: seq<HistogramDataPoint>)
    | NoAdder

  /** The failure of reading `metric.Gauge.DataPoints` (and the Sum and
      Histogram analogues): protobuf's accessor of a oneof case that is not
      the active one returns null. */
  datatype DispatchError = NullReference

  /** The type of an incoming metric's data case, as `RdResource.Map`
      classifies it. */
  function DataType(data: MetricData): RdMetricType
  {
    match data
    case Gauge(_) => RdMetricType.Gauge
    case Sum(_) => RdMetricType.Sum
    case Histogram(_) => RdMetricType.Histogram
    case OtherData => Other
  }

  /** The adder a data case belongs to, holding its points. */
  function Points(data: MetricData): Dispatch
  {
    match data
    case Gauge(points) => GaugePoints(points)
    case Sum(points) => SumPoints(points)
    case Histogram(points) => HistogramPoints(points)
    case OtherData => NoAdder
  }

  /** `AddMetricValue` as written: it switches on the STORED type and reads
      the incoming metric's field of that case, which is null when the
      incoming data case differs. */
  function AddMetricValueAsWritten(m: RdMetric, metric: Metric): Result<Dispatch, DispatchError>
  {
    match m.Type()
    case Gauge => if metric.data.Gauge? then Ok(GaugePoints(metric.data.gaugePoints)) else Err(NullReference)
    case Sum => if metric.data.Sum? then Ok(SumPoints(metric.data.sumPoints)) else Err(NullReference)
    case Histogram =>
      if metric.data.Histogram? then Ok(HistogramPoints(metric.data.histogramPoints)) else Err(NullReference)
    case Other => Ok(NoAdder)
  }

  /** The dispatch with the data case checked before it is read: a metric
      whose data case differs from the stored type reaches no adder. */
  function AddMetricValue(m: RdMetric, metric: Metric): Dispatch
  {
    match m.Type()
    case Gauge => if metric.data.Gauge? then GaugePoints(metric.data.gaugePoints) else NoAdder
    case Sum => if metric.data.Sum? then SumPoints(metric.data.sumPoints) else NoAdder
    case Histogram => if metric.data.Histogram? then HistogramPoints(metric.data.histogramPoints) else NoAdder
    case Other => NoAdder
  }

  /** The dispatch as written fails exactly when the metric is not of type
      Other and the incoming data case differs from the stored type; when it
      succeeds the adder is the one of the stored type, holding the incoming
      points, and an Other metric reaches no adder. */
  lemma AddMetricValueAsWrittenCases(m: RdMetric, metric: Metric)
    ensures AddMetricValueAsWritten(m, metric).Err? <==>
      m.Type() != Other && DataType(metric.data) != m.Type()
    ensures m.Type() == Other ==> AddMetricValueAsWritten(m, metric) == Ok(NoAdder)
    ensures AddMetricValueAsWritten(m, metric).Ok? && m.Type() != Other ==>
      AddMetricValueAsWritten(m, metric).value == Points(metric.data)
  {
  }

  /** A Gauge metric later sighted with Sum data: the dispatch as written
      fails. */
  lemma AddMetricValueAsWrittenFails()
    ensures AddMetricValueAsWritten(
      RdMetric(RdMetricId("scope", "requests"), RdMetricType.Gauge, "", ""),
      Metric("requests", "", "", MetricData.Sum([]))) == Err(NullReference)
  {
  }

  /** The checked dispatch never fails, agrees with the as-written one
      wherever that one succeeds, and reaches no adder exactly where the
      as-written one fails or the metric is of type Other. */
  lemma AddMetricValueRefines(m: RdMetric, metric: Metric)
    ensures AddMetricValueAsWritten(m, metric).Ok? ==> AddMetricValue(m, metric) == AddMetricValueAsWritten(m, metric).value
    ensures AddMetricValue(m, metric) == NoAdder <==>
      m.Type() == Other || AddMetricValueAsWritten(m, metric).Err?
  {
  }
}
