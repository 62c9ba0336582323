/** The protocol-side metric service: requests are queued in the same
    bounded channel and consumed one at a time; each resource block is
    mapped one-for-one into a transport record (resource, scope blocks,
    metrics) and sent to the IDE as a `MetricReceived` call. */
module RdMetricService {
  import opened Common
  import opened OTelProto
  import opened OTelUtils
  import opened Channel
  import RdMetric
  import RdResource

  datatype RdOtelResource = RdOtelResource(serviceName: string, serviceId: Option<string>)

  datatype RdOtelMetricType = Gauge | Sum | Histogram | Unknown

  datatype RdOtelMetric = RdOtelMetric(name: string, description: string, unit: string, metricType: RdOtelMetricType)

  datatype RdOtelScopeMetrics = RdOtelScopeMetrics(scopeName: string, metrics: seq<RdOtelMetric>)

  datatype RdOtelResourceMetrics = RdOtelResourceMetrics(resource: RdOtelResource, scopeMetrics: seq<RdOtelScopeMetrics>)

  /** Gauge, Sum and Histogram to the same-named transport type, every other
      data case to Unknown. */
  function MapMetricType(data: MetricData): RdOtelMetricType
  {
    match data
    case Gauge(_) => RdOtelMetricType.Gauge
    case Sum(_) => RdOtelMetricType.Sum
    case Histogram(_) => RdOtelMetricType.Histogram
    case OtherData => Unknown
  }

  /** The transport type agrees with the resource dictionary's
      classification, Unknown standing where that one says Other. */
  lemma MapMetricTypeAgrees(data: MetricData)
    ensures MapMetricType(data) == Unknown <==> RdResource.Map(data) == RdMetric.RdMetricType.Other
    ensures MapMetricType(data) == RdOtelMetricType.Gauge <==> RdResource.Map(data) == RdMetric.RdMetricType.Gauge
    ensures MapMetricType(data) == RdOtelMetricType.Sum <==> RdResource.Map(data) == RdMetric.RdMetricType.Sum
    ensures MapMetricType(data) == RdOtelMetricType.Histogram <==> RdResource.Map(data) == RdMetric.RdMetricType.Histogram
  {
  }

  /** The resource record: the service name and id derived from the
      resource's attributes, the name "Unknown" when there is none and no id
      exactly when no attribute is a `service.instance.id`. */
  function MapResource(attributes: seq<KeyValue>): (r: RdOtelResource)
    ensures (r.serviceName, r.serviceId) == ServiceIdAndName(attributes)
    ensures (forall i :: 0 <= i < |attributes| ==> attributes[i].key != ServiceName) ==> r.serviceName == "Unknown"
    ensures r.serviceId.None? <==> forall i :: 0 <= i < |attributes| ==> attributes[i].key != ServiceInstanceId
  {
    ServiceIdAndNameDefaults(attributes);
    var (serviceName, serviceId) := ServiceIdAndName(attributes);
    RdOtelResource(serviceName, serviceId)
  }

  /** The transport record of a metric: its name, description and unit
      copied, its type classified from the data case. */
  function MapMetric(metric: Metric): (r: RdOtelMetric)
    ensures r.name == metric.name && r.description == metric.description && r.unit == metric.unit
    ensures r.metricType == Unknown <==> metric.data.OtherData?
    ensures r.metricType == RdOtelMetricType.Gauge <==> metric.data.Gauge?
    ensures r.metricType == RdOtelMetricType.Sum <==> metric.data.Sum?
    ensures r.metricType == RdOtelMetricType.Histogram <==> metric.data.Histogram?
  {
    RdOtelMetric(metric.name, metric.description, metric.unit, MapMetricType(metric.data))
  }

  function MapMetrics(metrics: seq<Metric>): seq<RdOtelMetric>
  {
    seq(|metrics|, k requires 0 <= k < |metrics| => MapMetric(metrics[k]))
  }

  function MapScope(scope: ScopeMetrics): RdOtelScopeMetrics
  {
    RdOtelScopeMetrics(scope.scopeName, MapMetrics(scope.metrics))
  }

  function MapScopes(scopes: seq<ScopeMetrics>): seq<RdOtelScopeMetrics>
  {
    seq(|scopes|, j requires 0 <= j < |scopes| => MapScope(scopes[j]))
  }

  /** The record sent for one resource block. */
  function MapBlock(block: ResourceMetrics): RdOtelResourceMetrics
  {
    RdOtelResourceMetrics(MapResource(block.attributes), MapScopes(block.scopeMetrics))
  }

  function MapBlocks(blocks: seq<ResourceMetrics>): seq<RdOtelResourceMetrics>
  {
    seq(|blocks|, i requires 0 <= i < |blocks| => MapBlock(blocks[i]))
  }

  /** The records sent for a run of requests, request by request. */
  function MapRequests(requests: seq<ExportMetricsServiceRequest>): seq<RdOtelResourceMetrics>
  {
    if requests == [] then []
    else MapRequests(requests[..|requests| - 1]) + MapBlocks(requests[|requests| - 1].resourceMetrics)
  }

  /** The resource blocks of a run of requests, in queue order. */
  function AllBlocks(requests: seq<ExportMetricsServiceRequest>): seq<ResourceMetrics>
  {
    if requests == [] then []
    else AllBlocks(requests[..|requests| - 1]) + requests[|requests| - 1].resourceMetrics
  }

  lemma MapRequestsSnoc(requests: seq<ExportMetricsServiceRequest>, i: nat)
    requires i < |requests|
    ensures MapRequests(requests[..i + 1]) == MapRequests(requests[..i]) + MapBlocks(requests[i].resourceMetrics)
  {
    assert requests[..i + 1][..i] == requests[..i];
  }

  lemma MapBlocksAppend(first: seq<ResourceMetrics>, second: seq<ResourceMetrics>)
    ensures MapBlocks(first + second) == MapBlocks(first) + MapBlocks(second)
  {
    assert forall i :: 0 <= i < |first| ==> (first + second)[i] == first[i];
    assert forall i :: 0 <= i < |second| ==> (first + second)[|first| + i] == second[i];
  }

  /** Exactly one record per resource block, in input order: the records
      sent for a run of requests are the blocks' records, block by block. */
  lemma {:induction false} MapRequestsOnePerBlock(requests: seq<ExportMetricsServiceRequest>)
    ensures MapRequests(requests) == MapBlocks(AllBlocks(requests))
    ensures |MapRequests(requests)| == |AllBlocks(requests)|
    ensures forall i :: 0 <= i < |AllBlocks(requests)| ==> MapRequests(requests)[i] == MapBlock(AllBlocks(requests)[i])
  {
    if requests != [] {
      var n := |requests| - 1;
      MapRequestsOnePerBlock(requests[..n]);
      MapBlocksAppend(AllBlocks(requests[..n]), requests[n].resourceMetrics);
    }
  }

  class RdMetricService {
    const channel: BoundedChannel<ExportMetricsServiceRequest>
    /** The `MetricReceived` calls made on the connection, in order. */
    var sent: seq<RdOtelResourceMetrics>

    ghost predicate Valid()
      reads channel
    {
      channel.Valid()
    }

    constructor ()
      ensures Valid() && channel.items == [] && sent == []
    {
      channel := new BoundedChannel<ExportMetricsServiceRequest>();
      sent := [];
    }

    /** Queues a request; a full queue drops its oldest request. */
    method Send(request: ExportMetricsServiceRequest)
      requires Valid()
      modifies channel
      ensures Valid()
      ensures channel.items == Enqueue(old(channel.items), request)
    {
      var _ := channel.TryWrite(request);
    }

    /** Maps every resource block of a request, in order, and sends one
        record per block. */
    method ConsumeMetric(metricRequest: ExportMetricsServiceRequest)
      modifies this`sent
      ensures sent == old(sent) + MapBlocks(metricRequest.resourceMetrics)
    {
      var blocks := metricRequest.resourceMetrics;
      var i := 0;
      while i < |blocks|
        invariant 0 <= i <= |blocks|
        invariant |sent| == |old(sent)| + i
        invariant sent[..|old(sent)|] == old(sent)
        invariant forall t :: 0 <= t < i ==> sent[|old(sent)| + t] == MapBlock(blocks[t])
      {
        var resourceMetrics := blocks[i];
        var rdResource := MapResource(resourceMetrics.attributes);
        var scopes := resourceMetrics.scopeMetrics;
        var rdScopeMetrics: seq<RdOtelScopeMetrics> := [];
        var j := 0;
        while j < |scopes|
          invariant 0 <= j <= |scopes|
          invariant |rdScopeMetrics| == j
          invariant forall t :: 0 <= t < j ==> rdScopeMetrics[t] == MapScope(scopes[t])
        {
          var scopeMetrics := scopes[j];
          var rdMetrics: seq<RdOtelMetric> := [];
          var k := 0;
          while k < |scopeMetrics.metrics|
            invariant 0 <= k <= |scopeMetrics.metrics|
            invariant |rdMetrics| == k
            invariant forall t :: 0 <= t < k ==> rdMetrics[t] == MapMetric(scopeMetrics.metrics[t])
          {
            rdMetrics := rdMetrics + [MapMetric(scopeMetrics.metrics[k])];
            k := k + 1;
          }
          assert rdMetrics == MapMetrics(scopeMetrics.metrics);
          rdScopeMetrics := rdScopeMetrics + [RdOtelScopeMetrics(scopeMetrics.scopeName, rdMetrics)];
          j := j + 1;
        }
        assert rdScopeMetrics == MapScopes(scopes);
        sent := sent + [RdOtelResourceMetrics(rdResource, rdScopeMetrics)];
        i := i + 1;
      }
      assert sent == old(sent) + MapBlocks(blocks);
    }

    /** The consumer loop: requests are read in queue order and mapped one at
        a time until the queue is empty or the lifetime is cancelled after
        `readsBeforeCancel` reads; cancellation ends the loop silently. */
    method ConsumeMetrics(readsBeforeCancel: nat)
      requires Valid()
      modifies this`sent, channel
      ensures Valid()
      ensures var k := if readsBeforeCancel < |old(channel.items)| then readsBeforeCancel else |old(channel.items)|;
        channel.items == old(channel.items)[k..] && sent == old(sent) + MapRequests(old(channel.items)[..k])
    {
      ghost var queue0 := channel.items;
      ghost var sent0 := sent;
      var readCount := 0;
      while readCount < readsBeforeCancel
        invariant readCount <= readsBeforeCancel && readCount <= |queue0|
        invariant channel.Valid() && channel.items == queue0[readCount..]
        invariant sent == sent0 + MapRequests(queue0[..readCount])
        decreases readsBeforeCancel - readCount
      {
        var next := channel.TryRead();
        if next.None? {
          break;
        }
        MapRequestsSnoc(queue0, readCount);
        assert queue0[readCount] == next.value;
        ConsumeMetric(next.value);
        assert channel.items == queue0[readCount + 1..];
        readCount := readCount + 1;
      }
    }
  }
}
