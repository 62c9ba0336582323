/** One telemetry-emitting resource of the session host: a dictionary from
    metric id to metric, filled by get-or-create. The metric record is the
    five-field one that `AddMetric` builds (scope, name, type, description,
    unit). */
module OTelResource {
  import opened Common
  import opened OTelProto

  /** A metric's identity: the resource key, the scope name and the metric name. */
  datatype ResourceMetricId = ResourceMetricId(resourceId: string, scopeName: string, metricName: string)

  datatype OTelMetricType = Gauge | Sum | Histogram | Other

  datatype OTelMetric = OTelMetric(
    scopeName: string,
    metricName: string,
    metricType: OTelMetricType,
    description: string,
    unit: string)

  /** Classification of a metric's data case: Gauge, Sum and Histogram to
      the same-named type, every other case to Other. */
  function Map(data: MetricData): (t: OTelMetricType)
    ensures t == Other <==> data.OtherData?
    ensures t == OTelMetricType.Gauge <==> data.Gauge?
    ensures t == OTelMetricType.Sum <==> data.Sum?
    ensures t == OTelMetricType.Histogram <==> data.Histogram?
  {
    match data
    case Gauge(_) => OTelMetricType.Gauge
    case Sum(_) => OTelMetricType.Sum
    case Histogram(_) => OTelMetricType.Histogram
    case OtherData => Other
  }

  /** The metric `AddMetric` creates at the first sighting of an id. */
  function NewMetric(id: ResourceMetricId, metric: Metric): OTelMetric
  {
    OTelMetric(id.scopeName, id.metricName, Map(metric.data), metric.description, metric.unit)
  }

  /** A call of `AddMetric`: the id and the incoming metric. */
  type AddCall = (ResourceMetricId, Metric)

  /** The dictionary and the `added` flags after a sequence of `AddMetric`
      calls, starting from `metrics`. */
  function AddAll(metrics: map<ResourceMetricId, OTelMetric>, calls: seq<AddCall>)
    : (r: (map<ResourceMetricId, OTelMetric>, seq<bool>))
    ensures |r.1| == |calls|
  {
    if calls == [] then (metrics, [])
    else
      var n := |calls| - 1;
      var prev := AddAll(metrics, calls[..n]);
      var (id, metric) := calls[n];
      if id in prev.0 then (prev.0, prev.1 + [false])
      else (prev.0[id := NewMetric(id, metric)], prev.1 + [true])
  }

  /** The dictionary only grows: stored entries are never replaced, and the
      keys afterwards are the old keys plus every id called with. */
  lemma {:induction false} AddAllGrows(metrics: map<ResourceMetricId, OTelMetric>, calls: seq<AddCall>)
    ensures AddAll(metrics, calls).0.Keys == metrics.Keys + KeysOf(calls)
    ensures forall id :: id in metrics ==> AddAll(metrics, calls).0[id] == metrics[id]
  {
    if calls != [] {
      var n := |calls| - 1;
      AddAllGrows(metrics, calls[..n]);
      assert KeysOf(calls) == KeysOf(calls[..n]) + {calls[n].0} by {
        assert forall i :: 0 <= i < n ==> calls[..n][i] == calls[i];
      }
    }
  }

  /** `added` is reported exactly at the first sighting of an id that was not
      already stored, and the entry created then is never replaced: type,
      description and unit come from that first call. */
  lemma {:induction false} AddAllFirstSighting(metrics: map<ResourceMetricId, OTelMetric>, calls: seq<AddCall>, i: nat)
    requires i < |calls|
    ensures calls[i].0 in AddAll(metrics, calls).0
    ensures AddAll(metrics, calls).1[i] <==>
      calls[i].0 !in metrics && forall k :: 0 <= k < i ==> calls[k].0 != calls[i].0
    ensures AddAll(metrics, calls).1[i] ==>
      AddAll(metrics, calls).0[calls[i].0] == NewMetric(calls[i].0, calls[i].1)
  {
    var n := |calls| - 1;
    var prefix := calls[..n];
    var prev := AddAll(metrics, prefix);
    var id := calls[i].0;
    assert calls == prefix + [calls[n]];
    AddAllSnoc(metrics, prefix, calls[n]);
    AddAllGrows(metrics, prefix);
    if i < n {
      assert prefix[i] == calls[i];
      AddAllFirstSighting(metrics, prefix, i);
      assert AddAll(metrics, calls).1[i] == prev.1[i];
      assert forall k :: 0 <= k < i ==> prefix[k] == calls[k];
      assert AddAll(metrics, calls).0[id] == prev.0[id];
    } else {
      assert forall k :: 0 <= k < n ==> prefix[k] == calls[k];
      assert id in KeysOf(prefix) <==> exists k :: 0 <= k < n && calls[k].0 == id;
    }
  }

  /** One more call extends the fold by one get-or-create step. */
  lemma AddAllSnoc(metrics: map<ResourceMetricId, OTelMetric>, calls: seq<AddCall>, call: AddCall)
    ensures AddAll(metrics, calls + [call]) ==
      var prev := AddAll(metrics, calls);
      if call.0 in prev.0 then (prev.0, prev.1 + [false])
      else (prev.0[call.0 := NewMetric(call.0, call.1)], prev.1 + [true])
  {
    assert (calls + [call])[..|calls|] == calls;
  }

  /** Running two call sequences one after the other is running their
      concatenation. */
  lemma {:induction false} AddAllAppend(metrics: map<ResourceMetricId, OTelMetric>, first: seq<AddCall>, second: seq<AddCall>)
    ensures AddAll(metrics, first + second) ==
      var mid := AddAll(metrics, first);
      var r := AddAll(mid.0, second);
      (r.0, mid.1 + r.1)
  {
    if second != [] {
      var n := |second| - 1;
      var mid := AddAll(metrics, first);
      AddAllAppend(metrics, first, second[..n]);
      assert first + second == (first + second[..n]) + [second[n]];
      assert second[..n] + [second[n]] == second;
      AddAllSnoc(metrics, first + second[..n], second[n]);
      AddAllSnoc(mid.0, second[..n], second[n]);
      var flags := AddAll(mid.0, second[..n]).1;
      assert mid.1 + flags + [true] == mid.1 + (flags + [true]);
      assert mid.1 + flags + [false] == mid.1 + (flags + [false]);
    } else {
      assert first + second == first;
      assert AddAll(metrics, first).1 + [] == AddAll(metrics, first).1;
    }
  }

  /** Over any call sequence `added` is reported at most once per id. */
  lemma AddedAtMostOnce(metrics: map<ResourceMetricId, OTelMetric>, calls: seq<AddCall>, i: nat, j: nat)
    requires i < j < |calls| && calls[i].0 == calls[j].0
    ensures !AddAll(metrics, calls).1[j]
  {
    AddAllFirstSighting(metrics, calls, j);
  }

  class OTelResource {
    const id: string
    var metrics: map<ResourceMetricId, OTelMetric>

    constructor (id: string)
      ensures this.id == id && metrics == map[]
    {
      this.id := id;
      metrics := map[];
    }

    /** The key the resource was created under; it never changes. */
    function Id(): (r: string)
      reads this
      ensures r == id
    {
      id
    }

    /** Get-or-create under the resource's lock: an existing entry is returned
        with `added == false` and the dictionary is left alone; otherwise one
        entry is inserted and returned with `added == true`. */
    method AddMetric(metricId: ResourceMetricId, metric: Metric) returns (m: OTelMetric, added: bool)
      modifies this`metrics
      ensures added <==> metricId !in old(metrics)
      ensures !added ==> m == old(metrics)[metricId] && metrics == old(metrics)
      ensures added ==> m == NewMetric(metricId, metric) && metrics == old(metrics)[metricId := m]
    {
      if metricId in metrics {
        return metrics[metricId], false;
      }
      m := NewMetric(metricId, metric);
      metrics := metrics[metricId := m];
      added := true;
    }
  }
}
