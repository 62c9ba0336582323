/** The session host's metric ingestion: requests are queued in the bounded
    channel and consumed one at a time; each resource block is routed to its
    resource, each metric to its get-or-create entry, a discovery event is
    sent to the IDE when a metric id is new, and a value notification is
    sent when the id is in the subscription set. */
module MetricService {
  import opened Common
  import opened OTelProto
  import opened OTelUtils
  import opened OTelResource
  import opened OTelResourceManager
  import opened Channel

  /** What the session host sends over the connection: `MetricIds.Add(id)`
      and `MetricReceived(..)` (whose payload is a fixed placeholder, so only
      the id is kept). */
  datatype ModelEvent = MetricIdAdded(id: ResourceMetricId) | MetricReceived(id: ResourceMetricId)

  datatype ResourceMetricDetails = ResourceMetricDetails(id: ResourceMetricId, description: string, unit: string)

  /** The registry's content: resource key to metric dictionary. */
  type Store = map<string, map<ResourceMetricId, OTelMetric>>

  /** The `AddMetric` calls for one scope's metrics. */
  function ScopeCalls(resourceId: string, scopeName: string, metrics: seq<Metric>): (r: seq<AddCall>)
    ensures |r| == |metrics|
  {
    if metrics == [] then []
    else
      var n := |metrics| - 1;
      ScopeCalls(resourceId, scopeName, metrics[..n]) +
        [(ResourceMetricId(resourceId, scopeName, metrics[n].name), metrics[n])]
  }

  /** The `AddMetric` calls for a resource's scope blocks, scope by scope. */
  function ResourceCalls(resourceId: string, scopes: seq<ScopeMetrics>): seq<AddCall>
  {
    if scopes == [] then []
    else
      var n := |scopes| - 1;
      ResourceCalls(resourceId, scopes[..n]) + ScopeCalls(resourceId, scopes[n].scopeName, scopes[n].metrics)
  }

  /** The events of one metric: discovery when it is new, then a value
      notification when it is subscribed to. */
  function MetricEvents(added: bool, id: ResourceMetricId, subscriptions: set<ResourceMetricId>): seq<ModelEvent>
  {
    (if added then [MetricIdAdded(id)] else []) + (if id in subscriptions then [MetricReceived(id)] else [])
  }

  /** The events sent for a run of calls, given which of them added their id. */
  function Notifications(added: seq<bool>, calls: seq<AddCall>, subscriptions: set<ResourceMetricId>): seq<ModelEvent>
    requires |added| == |calls|
  {
    if calls == [] then []
    else
      var n := |calls| - 1;
      Notifications(added[..n], calls[..n], subscriptions) + MetricEvents(added[n], calls[n].0, subscriptions)
  }

  /** A resource's dictionary and the events sent, after its calls run in order. */
  function ConsumeCalls(metrics: map<ResourceMetricId, OTelMetric>, subscriptions: set<ResourceMetricId>, calls: seq<AddCall>)
    : (map<ResourceMetricId, OTelMetric>, seq<ModelEvent>)
  {
    var r := AddAll(metrics, calls);
    (r.0, Notifications(r.1, calls, subscriptions))
  }

  /** The resource keys of a run of blocks. */
  function BlockKeys(blocks: seq<ResourceMetrics>): set<string>
  {
    if blocks == [] then {} else BlockKeys(blocks[..|blocks| - 1]) + {BlockKey(blocks[|blocks| - 1])}
  }

  /** The resource key of a resource block. */
  function BlockKey(block: ResourceMetrics): string
  {
    var (serviceName, serviceId) := ServiceIdAndName(block.attributes);
    ResourceKey(serviceName, serviceId)
  }

  /** The registry and the events sent after one resource block: its
      resource is found (or started empty) by key and its calls consumed. */
  function ConsumeBlock(store: Store, subscriptions: set<ResourceMetricId>, block: ResourceMetrics): (Store, seq<ModelEvent>)
  {
    var key := BlockKey(block);
    var r := ConsumeCalls(if key in store then store[key] else map[], subscriptions, ResourceCalls(key, block.scopeMetrics));
    (store[key := r.0], r.1)
  }

  /** The registry and the events sent after the resource blocks of one request. */
  function ConsumeBlocks(store: Store, subscriptions: set<ResourceMetricId>, blocks: seq<ResourceMetrics>): (Store, seq<ModelEvent>)
  {
    if blocks == [] then (store, [])
    else
      var n := |blocks| - 1;
      var prev := ConsumeBlocks(store, subscriptions, blocks[..n]);
      var r := ConsumeBlock(prev.0, subscriptions, blocks[n]);
      (r.0, prev.1 + r.1)
  }

  /** The registry and the events sent after a sequence of requests. */
  function ConsumeRequests(store: Store, subscriptions: set<ResourceMetricId>, requests: seq<ExportMetricsServiceRequest>)
    : (Store, seq<ModelEvent>)
  {
    if requests == [] then (store, [])
    else
      var n := |requests| - 1;
      var prev := ConsumeRequests(store, subscriptions, requests[..n]);
      var r := ConsumeBlocks(prev.0, subscriptions, requests[n].resourceMetrics);
      (r.0, prev.1 + r.1)
  }

  lemma ConsumeBlocksSnoc(store: Store, subscriptions: set<ResourceMetricId>, blocks: seq<ResourceMetrics>, i: nat)
    requires i < |blocks|
    ensures ConsumeBlocks(store, subscriptions, blocks[..i + 1]) ==
      var prev := ConsumeBlocks(store, subscriptions, blocks[..i]);
      var r := ConsumeBlock(prev.0, subscriptions, blocks[i]);
      (r.0, prev.1 + r.1)
  {
    assert blocks[..i + 1][..i] == blocks[..i];
  }

  lemma ConsumeRequestsSnoc(store: Store, subscriptions: set<ResourceMetricId>, requests: seq<ExportMetricsServiceRequest>, i: nat)
    requires i < |requests|
    ensures ConsumeRequests(store, subscriptions, requests[..i + 1]) ==
      var prev := ConsumeRequests(store, subscriptions, requests[..i]);
      var r := ConsumeBlocks(prev.0, subscriptions, requests[i].resourceMetrics);
      (r.0, prev.1 + r.1)
  {
    assert requests[..i + 1][..i] == requests[..i];
  }

  /** How many requests a consumer cancelled after `readsBeforeCancel` reads
      takes from a queue of `queued` requests. */
  function ReadCount(readsBeforeCancel: nat, queued: nat): (r: nat)
    ensures r <= readsBeforeCancel && r <= queued
    ensures r == readsBeforeCancel || r == queued
  {
    if readsBeforeCancel < queued then readsBeforeCancel else queued
  }

  /** The details query: `None` for an unknown resource or metric. */
  function MetricDetails(store: Store, id: ResourceMetricId): Option<ResourceMetricDetails>
  {
    if id.resourceId !in store || id !in store[id.resourceId] then None
    else
      var metric := store[id.resourceId][id];
      Some(ResourceMetricDetails(id, metric.description, metric.unit))
  }

  /** One more call extends the ingestion by one get-or-create step and its events. */
  lemma ConsumeCallsSnoc(metrics: map<ResourceMetricId, OTelMetric>, subscriptions: set<ResourceMetricId>,
                         calls: seq<AddCall>, call: AddCall)
    ensures ConsumeCalls(metrics, subscriptions, calls + [call]) ==
      var prev := ConsumeCalls(metrics, subscriptions, calls);
      var added := call.0 !in prev.0;
      (if added then prev.0[call.0 := NewMetric(call.0, call.1)] else prev.0,
       prev.1 + MetricEvents(added, call.0, subscriptions))
  {
    var prev := AddAll(metrics, calls);
    AddAllSnoc(metrics, calls, call);
    var r := AddAll(metrics, calls + [call]);
    assert r.1[..|calls|] == prev.1;
    assert (calls + [call])[..|calls|] == calls;
  }

  lemma {:induction false} NotificationsAppend(added1: seq<bool>, calls1: seq<AddCall>, added2: seq<bool>, calls2: seq<AddCall>,
                                              subscriptions: set<ResourceMetricId>)
    requires |added1| == |calls1| && |added2| == |calls2|
    ensures Notifications(added1 + added2, calls1 + calls2, subscriptions) ==
      Notifications(added1, calls1, subscriptions) + Notifications(added2, calls2, subscriptions)
  {
    if calls2 == [] {
      assert added1 + added2 == added1 && calls1 + calls2 == calls1;
    } else {
      var n := |calls2| - 1;
      NotificationsAppend(added1, calls1, added2[..n], calls2[..n], subscriptions);
      var added := added1 + added2;
      var calls := calls1 + calls2;
      var m := |calls| - 1;
      assert added[..m] == added1 + added2[..n];
      assert calls[..m] == calls1 + calls2[..n];
      assert added[m] == added2[n] && calls[m] == calls2[n];
      var last := MetricEvents(added2[n], calls2[n].0, subscriptions);
      assert Notifications(added, calls, subscriptions) == Notifications(added[..m], calls[..m], subscriptions) + last;
      assert Notifications(added2, calls2, subscriptions) == Notifications(added2[..n], calls2[..n], subscriptions) + last;
      assert Notifications(added1, calls1, subscriptions) + Notifications(added2[..n], calls2[..n], subscriptions) + last ==
             Notifications(added1, calls1, subscriptions) + (Notifications(added2[..n], calls2[..n], subscriptions) + last);
    }
  }

  /** Consuming two call sequences one after the other is consuming their
      concatenation: dictionary threaded through, events concatenated. */
  lemma ConsumeCallsAppend(metrics: map<ResourceMetricId, OTelMetric>, subscriptions: set<ResourceMetricId>,
                           first: seq<AddCall>, second: seq<AddCall>)
    ensures ConsumeCalls(metrics, subscriptions, first + second) ==
      var mid := ConsumeCalls(metrics, subscriptions, first);
      var r := ConsumeCalls(mid.0, subscriptions, second);
      (r.0, mid.1 + r.1)
  {
    AddAllAppend(metrics, first, second);
    var mid := AddAll(metrics, first);
    NotificationsAppend(mid.1, first, AddAll(mid.0, second).1, second, subscriptions);
  }

  lemma ScopeCallsSnoc(resourceId: string, scopeName: string, metrics: seq<Metric>, j: nat)
    requires j < |metrics|
    ensures ScopeCalls(resourceId, scopeName, metrics[..j + 1]) ==
      ScopeCalls(resourceId, scopeName, metrics[..j]) + [(ResourceMetricId(resourceId, scopeName, metrics[j].name), metrics[j])]
  {
    assert metrics[..j + 1][..j] == metrics[..j];
  }

  lemma ResourceCallsSnoc(resourceId: string, scopes: seq<ScopeMetrics>, i: nat)
    requires i < |scopes|
    ensures ResourceCalls(resourceId, scopes[..i + 1]) ==
      ResourceCalls(resourceId, scopes[..i]) + ScopeCalls(resourceId, scopes[i].scopeName, scopes[i].metrics)
  {
    assert scopes[..i + 1][..i] == scopes[..i];
  }

  // ---- properties of the specification ----

  /** A discovery event for `id` is sent exactly once when `id` is new and
      occurs among the calls, and never otherwise. */
  lemma {:induction false} DiscoveryExactlyOnce(metrics: map<ResourceMetricId, OTelMetric>, subscriptions: set<ResourceMetricId>,
                                               calls: seq<AddCall>, id: ResourceMetricId)
    ensures multiset(ConsumeCalls(metrics, subscriptions, calls).1)[MetricIdAdded(id)] ==
      if id !in metrics && id in KeysOf(calls) then 1 else 0
  {
    if calls != [] {
      var n := |calls| - 1;
      var prefix := calls[..n];
      var call := calls[n];
      assert prefix + [call] == calls;
      var prev := ConsumeCalls(metrics, subscriptions, prefix);
      DiscoveryExactlyOnce(metrics, subscriptions, prefix, id);
      ConsumeCallsSnoc(metrics, subscriptions, prefix, call);
      AddAllGrows(metrics, prefix);
      var added := call.0 !in prev.0;
      var step := MetricEvents(added, call.0, subscriptions);
      assert ConsumeCalls(metrics, subscriptions, calls).1 == prev.1 + step;
      var before := multiset(prev.1)[MetricIdAdded(id)];
      var now := multiset(step)[MetricIdAdded(id)];
      assert multiset(ConsumeCalls(metrics, subscriptions, calls).1)[MetricIdAdded(id)] == before + now;
      assert now == if added && call.0 == id then 1 else 0;
      KeysOfSnoc(prefix, call);
      assert prev.0.Keys == metrics.Keys + KeysOf(prefix);
      if id in metrics || id in KeysOf(prefix) {
        assert !(added && call.0 == id);
      }
    }
  }

  /** Every value notification is for a subscribed id that occurs among the
      calls, and every such id is notified. */
  lemma {:induction false} PushesOnlySubscribed(added: seq<bool>, calls: seq<AddCall>, subscriptions: set<ResourceMetricId>,
                                               id: ResourceMetricId)
    requires |added| == |calls|
    ensures MetricReceived(id) in Notifications(added, calls, subscriptions) <==> id in subscriptions && id in KeysOf(calls)
  {
    if calls != [] {
      var n := |calls| - 1;
      var prefix := calls[..n];
      PushesOnlySubscribed(added[..n], prefix, subscriptions, id);
      assert prefix + [calls[n]] == calls;
      KeysOfSnoc(prefix, calls[n]);
    }
  }

  /** For an id that was not yet known, its discovery event precedes every
      value notification for it. */
  lemma {:induction false} DiscoveryBeforePush(metrics: map<ResourceMetricId, OTelMetric>, subscriptions: set<ResourceMetricId>,
                                              calls: seq<AddCall>, id: ResourceMetricId, p: nat)
    requires id !in metrics
    requires p < |ConsumeCalls(metrics, subscriptions, calls).1|
    requires ConsumeCalls(metrics, subscriptions, calls).1[p] == MetricReceived(id)
    ensures exists q :: 0 <= q < p && ConsumeCalls(metrics, subscriptions, calls).1[q] == MetricIdAdded(id)
  {
    var n := |calls| - 1;
    var prefix := calls[..n];
    var prev := ConsumeCalls(metrics, subscriptions, prefix);
    var events := ConsumeCalls(metrics, subscriptions, calls).1;
    var added := calls[n].0 !in prev.0;
    assert events == prev.1 + MetricEvents(added, calls[n].0, subscriptions);
    if p < |prev.1| {
      assert prev.1[p] == MetricReceived(id);
      DiscoveryBeforePush(metrics, subscriptions, prefix, id, p);
      var q :| 0 <= q < p && prev.1[q] == MetricIdAdded(id);
      assert events[q] == MetricIdAdded(id);
    } else if added {
      assert events[|prev.1|] == MetricIdAdded(calls[n].0);
    } else {
      // the id was stored by an earlier call, whose discovery event is in `prev.1`
      AddAllGrows(metrics, prefix);
      assert calls[n].0 == id;
      DiscoveryExactlyOnce(metrics, subscriptions, prefix, id);
      assert MetricIdAdded(id) in multiset(prev.1);
      var q :| 0 <= q < |prev.1| && prev.1[q] == MetricIdAdded(id);
      assert events[q] == MetricIdAdded(id);
    }
  }

  /** Each block is routed by its resource key: afterwards the registry
      holds the old keys plus every block's key. */
  lemma {:induction false} ConsumeBlocksKeys(store: Store, subscriptions: set<ResourceMetricId>, blocks: seq<ResourceMetrics>)
    ensures ConsumeBlocks(store, subscriptions, blocks).0.Keys == store.Keys + BlockKeys(blocks)
  {
    if blocks != [] {
      ConsumeBlocksKeys(store, subscriptions, blocks[..|blocks| - 1]);
    }
  }

  /** A metric that was already stored keeps its description and unit
      whatever later requests carry. */
  lemma {:induction false} ConsumeBlocksKeepsDetails(store: Store, subscriptions: set<ResourceMetricId>,
                                                    blocks: seq<ResourceMetrics>, id: ResourceMetricId)
    requires MetricDetails(store, id).Some?
    ensures MetricDetails(ConsumeBlocks(store, subscriptions, blocks).0, id) == MetricDetails(store, id)
  {
    if blocks != [] {
      var n := |blocks| - 1;
      var prev := ConsumeBlocks(store, subscriptions, blocks[..n]);
      ConsumeBlocksKeepsDetails(store, subscriptions, blocks[..n], id);
      var key := BlockKey(blocks[n]);
      var metrics := if key in prev.0 then prev.0[key] else map[];
      var calls := ResourceCalls(key, blocks[n].scopeMetrics);
      var after := ConsumeBlocks(store, subscriptions, blocks).0;
      assert after == prev.0[key := AddAll(metrics, calls).0];
      if key == id.resourceId {
        AddAllGrows(metrics, calls);
      }
    }
  }

  /** Over a run of requests, too, stored details never change. */
  lemma {:induction false} ConsumeRequestsKeepsDetails(store: Store, subscriptions: set<ResourceMetricId>,
                                                      requests: seq<ExportMetricsServiceRequest>, id: ResourceMetricId)
    requires MetricDetails(store, id).Some?
    ensures MetricDetails(ConsumeRequests(store, subscriptions, requests).0, id) == MetricDetails(store, id)
  {
    if requests != [] {
      var n := |requests| - 1;
      ConsumeRequestsKeepsDetails(store, subscriptions, requests[..n], id);
      ConsumeBlocksKeepsDetails(ConsumeRequests(store, subscriptions, requests[..n]).0, subscriptions, requests[n].resourceMetrics, id);
    }
  }

  // ---- subscriptions ----

  /** A subscription lifetime starting or ending for an id. */
  datatype LifetimeEvent = Started(id: ResourceMetricId) | Ended(id: ResourceMetricId)

  /** The subscription set after a sequence of lifetime events (`AddLifetimed`). */
  function SubscriptionsAfter(events: seq<LifetimeEvent>): set<ResourceMetricId>
  {
    if events == [] then {}
    else
      var n := |events| - 1;
      match events[n]
      case Started(id) => SubscriptionsAfter(events[..n]) + {id}
      case Ended(id) => SubscriptionsAfter(events[..n]) - {id}
  }

  /** `events[i]` starts a subscription to `id` that no later event touches. */
  ghost predicate AliveFrom(events: seq<LifetimeEvent>, id: ResourceMetricId, i: int)
  {
    0 <= i < |events| && events[i] == Started(id) && forall j :: i < j < |events| ==> events[j].id != id
  }

  /** An id is subscribed exactly when its latest lifetime event is a start. */
  lemma {:induction false} SubscribedWhileAlive(events: seq<LifetimeEvent>, id: ResourceMetricId)
    ensures id in SubscriptionsAfter(events) <==> exists i :: AliveFrom(events, id, i)
  {
    if events == [] {
      assert forall i :: !AliveFrom(events, id, i);
    } else {
      var n := |events| - 1;
      var prefix := events[..n];
      SubscribedWhileAlive(prefix, id);
      if events[n].id == id {
        if events[n].Started? {
          assert AliveFrom(events, id, n);
        } else {
          assert forall i :: !AliveFrom(events, id, i) by {
            forall i | 0 <= i < n ensures !AliveFrom(events, id, i) {
              assert events[n].id == id;
            }
          }
        }
      } else {
        forall i | 0 <= i < n
          ensures AliveFrom(prefix, id, i) <==> AliveFrom(events, id, i)
        {
          assert forall j :: 0 <= j < n ==> prefix[j] == events[j];
        }
        assert !AliveFrom(events, id, n);
        if id in SubscriptionsAfter(events) {
          var i :| AliveFrom(prefix, id, i);
          assert AliveFrom(events, id, i);
        }
      }
    }
  }

  // ---- the service ----

  class MetricService {
    const resourceManager: OTelResourceManager
    const channel: BoundedChannel<ExportMetricsServiceRequest>
    var metricValueSubscriptions: set<ResourceMetricId>
    /** Everything sent to the IDE over the connection, in order. */
    var sent: seq<ModelEvent>

    ghost predicate Valid()
      reads resourceManager, channel
    {
      resourceManager.Valid() && channel.Valid()
    }

    constructor (resourceManager: OTelResourceManager)
      requires resourceManager.Valid()
      ensures Valid() && fresh(channel)
      ensures this.resourceManager == resourceManager
      ensures channel.items == [] && metricValueSubscriptions == {} && sent == []
    {
      this.resourceManager := resourceManager;
      channel := new BoundedChannel();
      metricValueSubscriptions := {};
      sent := [];
    }

    /** Queues a request without blocking (drop-oldest when full). */
    method Send(request: ExportMetricsServiceRequest)
      requires Valid()
      modifies channel
      ensures Valid()
      ensures channel.items == Enqueue(old(channel.items), request)
    {
      var _ := channel.TryWrite(request);
    }

    /** A subscription lifetime starts: the id joins the set. */
    method ViewMetricSubscription(metricId: ResourceMetricId)
      modifies this`metricValueSubscriptions
      ensures metricValueSubscriptions == old(metricValueSubscriptions) + {metricId}
    {
      metricValueSubscriptions := metricValueSubscriptions + {metricId};
    }

    /** A subscription lifetime ends: the id leaves the set. */
    method EndMetricSubscription(metricId: ResourceMetricId)
      modifies this`metricValueSubscriptions
      ensures metricValueSubscriptions == old(metricValueSubscriptions) - {metricId}
    {
      metricValueSubscriptions := metricValueSubscriptions - {metricId};
    }

    /** The metric loop of one resource: get-or-create each metric in scope
        order, announce new ids, notify subscribed ids. */
    method ConsumeScopeMetrics(resource: OTelResource, scopeMetrics: ScopeMetrics)
      modifies this`sent, resource
      ensures var r := ConsumeCalls(old(resource.metrics), metricValueSubscriptions,
                                    ScopeCalls(resource.id, scopeMetrics.scopeName, scopeMetrics.metrics));
        resource.metrics == r.0 && sent == old(sent) + r.1
    {
      ghost var metrics0 := resource.metrics;
      ghost var sent0 := sent;
      ghost var done: seq<AddCall> := [];
      var j := 0;
      assert scopeMetrics.metrics[..0] == [];
      while j < |scopeMetrics.metrics|
        invariant 0 <= j <= |scopeMetrics.metrics|
        invariant done == ScopeCalls(resource.id, scopeMetrics.scopeName, scopeMetrics.metrics[..j])
        invariant resource.metrics == ConsumeCalls(metrics0, metricValueSubscriptions, done).0
        invariant sent == sent0 + ConsumeCalls(metrics0, metricValueSubscriptions, done).1
      {
        var metric := scopeMetrics.metrics[j];
        var metricId := ResourceMetricId(resource.Id(), scopeMetrics.scopeName, metric.name);
        ScopeCallsSnoc(resource.id, scopeMetrics.scopeName, scopeMetrics.metrics, j);
        ConsumeCallsSnoc(metrics0, metricValueSubscriptions, done, (metricId, metric));
        var oTelMetric, isAdded := resource.AddMetric(metricId, metric);
        ghost var sentBefore := sent;
        if isAdded {
          sent := sent + [MetricIdAdded(metricId)];
        }
        if metricId in metricValueSubscriptions {
          sent := sent + [MetricReceived(metricId)];
        }
        assert sent == sentBefore + MetricEvents(isAdded, metricId, metricValueSubscriptions);
        ConcatAssoc(sent0, ConsumeCalls(metrics0, metricValueSubscriptions, done).1,
                    MetricEvents(isAdded, metricId, metricValueSubscriptions));
        done := done + [(metricId, metric)];
        j := j + 1;
      }
      assert scopeMetrics.metrics[..j] == scopeMetrics.metrics;
    }

    /** The metric loop of one resource: get-or-create each metric in scope
        order, announce new ids, notify subscribed ids. */
    method ConsumeResourceMetrics(resource: OTelResource, scopes: seq<ScopeMetrics>)
      modifies this`sent, resource
      ensures var r := ConsumeCalls(old(resource.metrics), metricValueSubscriptions, ResourceCalls(resource.id, scopes));
        resource.metrics == r.0 && sent == old(sent) + r.1
    {
      ghost var metrics0 := resource.metrics;
      ghost var sent0 := sent;
      var i := 0;
      assert scopes[..0] == [];
      while i < |scopes|
        invariant 0 <= i <= |scopes|
        invariant resource.metrics == ConsumeCalls(metrics0, metricValueSubscriptions, ResourceCalls(resource.id, scopes[..i])).0
        invariant sent == sent0 + ConsumeCalls(metrics0, metricValueSubscriptions, ResourceCalls(resource.id, scopes[..i])).1
      {
        ghost var before := ResourceCalls(resource.id, scopes[..i]);
        ghost var mid := ConsumeCalls(metrics0, metricValueSubscriptions, before);
        ghost var scopeCalls := ScopeCalls(resource.id, scopes[i].scopeName, scopes[i].metrics);
        ghost var r := ConsumeCalls(mid.0, metricValueSubscriptions, scopeCalls);
        ConsumeScopeMetrics(resource, scopes[i]);
        ResourceCallsSnoc(resource.id, scopes, i);
        ConsumeCallsAppend(metrics0, metricValueSubscriptions, before, scopeCalls);
        ConcatAssoc(sent0, mid.1, r.1);
        i := i + 1;
      }
      assert scopes[..i] == scopes;
    }

    /** Consumes a block's scopes into the resource stored under `key`, the
        registry otherwise holding `store`. */
    method ConsumeIntoResource(resource: OTelResource, ghost key: string, scopes: seq<ScopeMetrics>, ghost store: Store)
      requires resourceManager.Valid()
      requires key in resourceManager.resources && resourceManager.resources[key] == resource
      requires resourceManager.resources.Keys == store.Keys + {key}
      requires forall k :: k in resourceManager.resources && k != key ==> resourceManager.resources[k].metrics == store[k]
      modifies this`sent, resource
      ensures var r := ConsumeCalls(old(resource.metrics), metricValueSubscriptions, ResourceCalls(key, scopes));
        resourceManager.Holds(store[key := r.0]) && sent == old(sent) + r.1
    {
      assert resource.id == key;
      ghost var resources := resourceManager.resources;
      ghost var r := ConsumeCalls(resource.metrics, metricValueSubscriptions, ResourceCalls(key, scopes));
      ConsumeResourceMetrics(resource, scopes);
      ghost var after := store[key := r.0];
      assert after.Keys == resources.Keys;
      forall k | k in resources
        ensures resources[k].metrics == after[k]
      {
        if k != key {
          assert resources[k].id == k;
        }
      }
    }

    /** One resource block: its service name and id select the resource
        (created when missing), whose metrics are then consumed. */
    method ConsumeResourceBlock(resourceMetrics: ResourceMetrics, ghost store: Store)
      requires resourceManager.Valid() && resourceManager.Holds(store)
      modifies this`sent, resourceManager, resourceManager.resources.Values
      ensures resourceManager.Valid()
      ensures forall o :: o in resourceManager.resources.Values ==> o in old(resourceManager.resources.Values) || fresh(o)
      ensures var r := ConsumeBlock(store, metricValueSubscriptions, resourceMetrics);
        resourceManager.Holds(r.0) && sent == old(sent) + r.1
    {
      var serviceName, serviceId := GetServiceIdAndName(resourceMetrics.attributes);
      ghost var key := ResourceKey(serviceName, serviceId);
      assert key == BlockKey(resourceMetrics);
      var resource := resourceManager.GetOrAddResource(serviceName, serviceId);
      assert resource.metrics == if key in store then store[key] else map[];
      assert resourceManager.resources.Keys == store.Keys + {key};
      ConsumeIntoResource(resource, key, resourceMetrics.scopeMetrics, store);
    }

    /** One request: each resource block is routed to the resource keyed by
        `serviceId ?? serviceName` and its metrics consumed, in input order. */
    method ConsumeRequest(request: ExportMetricsServiceRequest, ghost store: Store)
      requires resourceManager.Valid() && resourceManager.Holds(store)
      modifies this`sent, resourceManager, resourceManager.resources.Values
      ensures resourceManager.Valid()
      ensures forall o :: o in resourceManager.resources.Values ==> o in old(resourceManager.resources.Values) || fresh(o)
      ensures resourceManager.Holds(ConsumeBlocks(store, metricValueSubscriptions, request.resourceMetrics).0)
      ensures sent == old(sent) + ConsumeBlocks(store, metricValueSubscriptions, request.resourceMetrics).1
    {
      var blocks := request.resourceMetrics;
      ghost var sent0 := sent;
      var i := 0;
      assert blocks[..0] == [];
      ghost var acc := ConsumeBlocks(store, metricValueSubscriptions, blocks[..0]);
      while i < |blocks|
        invariant 0 <= i <= |blocks|
        invariant acc == ConsumeBlocks(store, metricValueSubscriptions, blocks[..i])
        invariant resourceManager.Valid()
        invariant forall o :: o in resourceManager.resources.Values ==> o in old(resourceManager.resources.Values) || fresh(o)
        invariant resourceManager.Holds(acc.0)
        invariant sent == sent0 + acc.1
      {
        ConsumeBlocksSnoc(store, metricValueSubscriptions, blocks, i);
        ConsumeResourceBlock(blocks[i], acc.0);
        ConcatAssoc(sent0, acc.1, ConsumeBlock(acc.0, metricValueSubscriptions, blocks[i]).1);
        acc := ConsumeBlocks(store, metricValueSubscriptions, blocks[..i + 1]);
        i := i + 1;
      }
      assert blocks[..i] == blocks;
    }

    /** One read of the consumer loop: takes the oldest queued request, if
        any, and consumes it. */
    method ConsumeNext(ghost store: Store) returns (read: Option<ExportMetricsServiceRequest>)
      requires Valid() && resourceManager.Holds(store)
      modifies this`sent, channel, resourceManager, resourceManager.resources.Values
      ensures Valid()
      ensures old(channel.items) == [] ==> read.None? && channel.items == [] && sent == old(sent) && resourceManager.Holds(store)
      ensures old(channel.items) != [] ==>
        read == Some(old(channel.items)[0]) && channel.items == old(channel.items)[1..]
      ensures read.Some? ==>
        var r := ConsumeBlocks(store, metricValueSubscriptions, read.value.resourceMetrics);
        resourceManager.Holds(r.0) && sent == old(sent) + r.1
      ensures forall o :: o in resourceManager.resources.Values ==> o in old(resourceManager.resources.Values) || fresh(o)
    {
      read := channel.TryRead();
      if read.Some? {
        ConsumeRequest(read.value, store);
      }
    }

    /** The consumer loop: requests are read in queue order and consumed one at
        a time until the queue is empty or the lifetime is cancelled after
        `readsBeforeCancel` reads; cancellation ends the loop silently. */
    method ConsumeMetrics(readsBeforeCancel: nat, ghost store: Store)
      requires Valid() && resourceManager.Holds(store)
      modifies this`sent, channel, resourceManager, resourceManager.resources.Values
      ensures Valid()
      ensures var k := ReadCount(readsBeforeCancel, |old(channel.items)|);
        channel.items == old(channel.items)[k..]
      ensures var r := ConsumeRequests(store, metricValueSubscriptions, old(channel.items)[..ReadCount(readsBeforeCancel, |old(channel.items)|)]);
        resourceManager.Holds(r.0) && sent == old(sent) + r.1
    {
      ghost var queue0 := channel.items;
      ghost var sent0 := sent;
      var readCount := 0;
      assert queue0[..0] == [];
      ghost var acc := ConsumeRequests(store, metricValueSubscriptions, queue0[..0]);
      while readCount < readsBeforeCancel
        invariant readCount <= readsBeforeCancel && readCount <= |queue0|
        invariant acc == ConsumeRequests(store, metricValueSubscriptions, queue0[..readCount])
        invariant Valid()
        invariant channel.items == queue0[readCount..]
        invariant forall o :: o in resourceManager.resources.Values ==> o in old(resourceManager.resources.Values) || fresh(o)
        invariant resourceManager.Holds(acc.0)
        invariant sent == sent0 + acc.1
        decreases readsBeforeCancel - readCount
      {
        var next := ConsumeNext(acc.0);
        if next.None? {
          break;
        }
        ConsumeRequestsSnoc(store, metricValueSubscriptions, queue0, readCount);
        ConcatAssoc(sent0, acc.1, ConsumeBlocks(acc.0, metricValueSubscriptions, next.value.resourceMetrics).1);
        acc := ConsumeRequests(store, metricValueSubscriptions, queue0[..readCount + 1]);
        readCount := readCount + 1;
      }
    }

    /** The details query: `None` when the resource or the metric is unknown,
        otherwise the stored description and unit; nothing is changed. */
    method GetMetricDetails(metricId: ResourceMetricId, ghost store: Store) returns (details: Option<ResourceMetricDetails>)
      requires Valid() && resourceManager.Holds(store)
      ensures details == MetricDetails(store, metricId)
    {
      if metricId.resourceId !in resourceManager.resources {
        return None;
      }
      var resource := resourceManager.resources[metricId.resourceId];
      if metricId !in resource.metrics {
        return None;
      }
      var metric := resource.metrics[metricId];
      details := Some(ResourceMetricDetails(metricId, metric.description, metric.unit));
    }
  }
}
