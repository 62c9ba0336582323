/** The IDE-side registry of session-host connections used for telemetry:
    one protocol model per key, never replaced once registered, and the
    filters through which the metric panels observe the model's metric-id
    and metric-value streams. */
module OTelService {
  import opened Common
  import opened Text
  import opened OTelResource

  /** A metric of one resource, as handed to a metric-id subscriber. */
  datatype MetricId = MetricId(scopeName: string, metricName: string)

  /** A change of the protocol model's `metricIds` set. */
  datatype MetricIdEvent = Add(id: ResourceMetricId) | Remove(id: ResourceMetricId)

  /** A `metricReceived` signal; only its id is inspected here. */
  datatype ResourceMetric = ResourceMetric(id: ResourceMetricId, payload: seq<int>)

  datatype ResourceMetricDetails = ResourceMetricDetails(id: ResourceMetricId, description: string, unit: string)

  /** What a metric-id subscriber for `resourceId` receives for one event:
      the scope and metric name of an added id whose resource id equals the
      requested one ignoring case, and nothing for any other event. */
  function IdsCallback(resourceId: string, event: MetricIdEvent): seq<MetricId>
  {
    match event
    case Add(id) => if EqualsIgnoreCase(id.resourceId, resourceId) then [MetricId(id.scopeName, id.metricName)] else []
    case Remove(_) => []
  }

  /** What a metric-id subscriber receives over a run of events. */
  function DeliveredIds(resourceId: string, events: seq<MetricIdEvent>): seq<MetricId>
  {
    if events == [] then []
    else DeliveredIds(resourceId, events[..|events| - 1]) + IdsCallback(resourceId, events[|events| - 1])
  }

  /** Delivery over two runs of events is delivery over the first followed
      by delivery over the second. */
  lemma {:induction false} DeliveredIdsAppend(resourceId: string, first: seq<MetricIdEvent>, second: seq<MetricIdEvent>)
    ensures DeliveredIds(resourceId, first + second) == DeliveredIds(resourceId, first) + DeliveredIds(resourceId, second)
  {
    if second == [] {
      assert first + second == first;
    } else {
      var n := |second| - 1;
      DeliveredIdsAppend(resourceId, first, second[..n]);
      assert (first + second)[..|first + second| - 1] == first + second[..n];
      assert (first + second)[|first + second| - 1] == second[n];
    }
  }

  /** One event inside a stream contributes its own callback output between
      the output of the events before it and the output of those after it. */
  lemma DeliveredIdsInsert(resourceId: string, before: seq<MetricIdEvent>, event: MetricIdEvent,
                           after: seq<MetricIdEvent>)
    ensures DeliveredIds(resourceId, before + [event] + after) ==
      DeliveredIds(resourceId, before) + IdsCallback(resourceId, event) + DeliveredIds(resourceId, after)
  {
    DeliveredIdsAppend(resourceId, before + [event], after);
    assert (before + [event])[..|before|] == before;
  }

  /** A remove event, wherever it occurs in a stream, never reaches the
      subscriber: the stream delivers what it delivers without it. */
  lemma RemovesNeverDelivered(resourceId: string, before: seq<MetricIdEvent>, id: ResourceMetricId,
                              after: seq<MetricIdEvent>)
    ensures DeliveredIds(resourceId, before + [Remove(id)] + after) == DeliveredIds(resourceId, before + after)
  {
    DeliveredIdsInsert(resourceId, before, Remove(id), after);
    DeliveredIdsAppend(resourceId, before, after);
    assert IdsCallback(resourceId, Remove(id)) == [];
  }

  /** An event for another resource (by case-insensitive comparison of the
      resource ids), wherever it occurs in a stream, never reaches the
      subscriber. */
  lemma OtherResourcesNeverDelivered(resourceId: string, before: seq<MetricIdEvent>, event: MetricIdEvent,
                                     after: seq<MetricIdEvent>)
    requires !EqualsIgnoreCase(event.id.resourceId, resourceId)
    ensures DeliveredIds(resourceId, before + [event] + after) == DeliveredIds(resourceId, before + after)
  {
    DeliveredIdsInsert(resourceId, before, event, after);
    DeliveredIdsAppend(resourceId, before, after);
    assert IdsCallback(resourceId, event) == [];
  }

  /** An add for the requested resource, wherever it occurs in a stream,
      reaches the subscriber as its scope and metric names, after everything
      delivered for the events before it and before everything delivered for
      the events after it. */
  lemma MatchingAddsDelivered(resourceId: string, before: seq<MetricIdEvent>, id: ResourceMetricId,
                              after: seq<MetricIdEvent>)
    requires EqualsIgnoreCase(id.resourceId, resourceId)
    ensures DeliveredIds(resourceId, before + [Add(id)] + after) ==
      DeliveredIds(resourceId, before) + [MetricId(id.scopeName, id.metricName)] + DeliveredIds(resourceId, after)
  {
    DeliveredIdsInsert(resourceId, before, Add(id), after);
  }

  /** Over any stream, a scope and metric name is delivered exactly when some
      add in the stream carries it for the requested resource. */
  lemma {:induction false} DeliveredIdsMembers(resourceId: string, events: seq<MetricIdEvent>, m: MetricId)
    ensures m in DeliveredIds(resourceId, events) <==>
      exists i :: 0 <= i < |events| && events[i].Add? && EqualsIgnoreCase(events[i].id.resourceId, resourceId) &&
        m == MetricId(events[i].id.scopeName, events[i].id.metricName)
  {
    if events != [] {
      var n := |events| - 1;
      DeliveredIdsMembers(resourceId, events[..n], m);
      assert forall i :: 0 <= i < n ==> events[..n][i] == events[i];
    }
  }

  /** What a metric-value subscriber for `subscribed` receives over a run of
      signals: those carrying exactly that id. */
  function DeliveredValues(subscribed: ResourceMetricId, signals: seq<ResourceMetric>): seq<ResourceMetric>
  {
    if signals == [] then []
    else
      var last := signals[|signals| - 1];
      DeliveredValues(subscribed, signals[..|signals| - 1]) + (if last.id == subscribed then [last] else [])
  }

  /** Every delivered signal carries the subscribed id, and none is
      invented. */
  lemma {:induction false} DeliveredValuesMatch(subscribed: ResourceMetricId, signals: seq<ResourceMetric>)
    ensures |DeliveredValues(subscribed, signals)| <= |signals|
    ensures forall k :: 0 <= k < |DeliveredValues(subscribed, signals)| ==>
      DeliveredValues(subscribed, signals)[k].id == subscribed &&
      DeliveredValues(subscribed, signals)[k] in signals
  {
    if signals != [] {
      var n := |signals| - 1;
      DeliveredValuesMatch(subscribed, signals[..n]);
      assert forall k :: 0 <= k < n ==> signals[..n][k] == signals[k];
    }
  }

  /** Delivery over two runs of signals is delivery over the first
      followed by delivery over the second, so signals reach the subscriber
      in the order they were raised. */
  lemma {:induction false} DeliveredValuesAppend(subscribed: ResourceMetricId, first: seq<ResourceMetric>,
                                                 second: seq<ResourceMetric>)
    ensures DeliveredValues(subscribed, first + second) ==
      DeliveredValues(subscribed, first) + DeliveredValues(subscribed, second)
  {
    if second == [] {
      assert first + second == first;
    } else {
      var n := |second| - 1;
      DeliveredValuesAppend(subscribed, first, second[..n]);
      assert (first + second)[..|first + second| - 1] == first + second[..n];
      assert (first + second)[|first + second| - 1] == second[n];
    }
  }

  /** Over any stream, every signal for the subscribed id reaches the
      subscriber as often as it was raised, and no other signal does. */
  lemma {:induction false} DeliveredValuesComplete(subscribed: ResourceMetricId, signals: seq<ResourceMetric>)
    ensures forall x :: multiset(DeliveredValues(subscribed, signals))[x] ==
                        (if x.id == subscribed then multiset(signals)[x] else 0)
  {
    if signals != [] {
      var n := |signals| - 1;
      DeliveredValuesComplete(subscribed, signals[..n]);
      assert signals == signals[..n] + [signals[n]];
      assert multiset(signals) == multiset(signals[..n]) + multiset{signals[n]};
    }
  }

  /** `subscribers` without its last entry equal to `x`: the subscriber a
      lifetime's end detaches. Equal subscribers receive the same events, so
      which of them goes is not observable; ending the latest one restores
      the list as it was before that subscription. */
  function RemoveLast<T(==)>(subscribers: seq<T>, x: T): (r: seq<T>)
    ensures x !in subscribers ==> r == subscribers
    ensures multiset(r) == multiset(subscribers) - multiset{x}
    ensures subscribers != [] && subscribers[|subscribers| - 1] == x ==> r == subscribers[..|subscribers| - 1]
  {
    if subscribers == [] then []
    else
      var n := |subscribers| - 1;
      assert subscribers == subscribers[..n] + [subscribers[n]];
      if subscribers[n] == x then subscribers[..n]
      else RemoveLast(subscribers[..n], x) + [subscribers[n]]
  }

  /** The protocol model of one session host, as far as this service uses
      it: the subscriptions registered on it and the details the host
      answers with. */
  class SessionHostModel {
    /** The ids whose values the IDE currently asks the host to push. */
    var metricSubscriptions: set<ResourceMetricId>
    /** Resource ids with a live metric-id subscriber, in registration order. */
    var idSubscribers: seq<string>
    /** Ids with a live metric-value subscriber, in registration order. */
    var valueSubscribers: seq<ResourceMetricId>
    /** The host's answer to a details request. */
    var metricDetails: map<ResourceMetricId, ResourceMetricDetails>

    constructor (metricDetails: map<ResourceMetricId, ResourceMetricDetails>)
      ensures this.metricSubscriptions == {} && this.idSubscribers == [] && this.valueSubscribers == []
      ensures this.metricDetails == metricDetails
    {
      this.metricSubscriptions := {};
      this.idSubscribers := [];
      this.valueSubscribers := [];
      this.metricDetails := metricDetails;
    }
  }

  class OTelService {
    var oTelServers: map<string, SessionHostModel>

    constructor ()
      ensures oTelServers == map[]
    {
      oTelServers := map[];
    }

    /** Registers a host model under `key` unless one is already there. */
    method AddOTelServer(key: string, sessionHostModel: SessionHostModel)
      modifies this
      ensures key in old(oTelServers) ==> oTelServers == old(oTelServers)
      ensures key !in old(oTelServers) ==> oTelServers == old(oTelServers)[key := sessionHostModel]
    {
      if key in oTelServers {
        return;
      }
      oTelServers := oTelServers[key := sessionHostModel];
    }

    /** Registers a metric-id subscriber for `resourceId` on the host under
        `key`; does nothing for an unknown key. What the subscriber then
        receives is `DeliveredIds(resourceId, ·)` of the events, until
        `EndMetricIdsSubscription` detaches it. */
    method SubscribeToMetricIds(key: string, resourceId: string) returns (subscribed: bool)
      modifies oTelServers.Values`idSubscribers
      ensures subscribed <==> key in oTelServers
      ensures subscribed ==> oTelServers[key].idSubscribers == old(oTelServers[key].idSubscribers) + [resourceId]
      ensures subscribed ==> oTelServers[key].valueSubscribers == old(oTelServers[key].valueSubscribers)
      ensures subscribed ==> oTelServers[key].metricSubscriptions == old(oTelServers[key].metricSubscriptions)
      ensures subscribed ==> oTelServers[key].metricDetails == old(oTelServers[key].metricDetails)
      ensures forall m :: m in oTelServers.Values && (!subscribed || m != oTelServers[key]) ==> unchanged(m)
    {
      if key !in oTelServers {
        return false;
      }
      var model := oTelServers[key];
      model.idSubscribers := model.idSubscribers + [resourceId];
      subscribed := true;
    }

    /** The end of a metric-id subscription's lifetime: the host under `key`
        loses one subscriber for `resourceId`, and nothing else changes. */
    method EndMetricIdsSubscription(key: string, resourceId: string) returns (ended: bool)
      modifies oTelServers.Values`idSubscribers
      ensures ended <==> key in oTelServers
      ensures ended ==> oTelServers[key].idSubscribers == RemoveLast(old(oTelServers[key].idSubscribers), resourceId)
      ensures forall m :: m in oTelServers.Values && (!ended || m != oTelServers[key]) ==> unchanged(m)
    {
      if key !in oTelServers {
        return false;
      }
      var model := oTelServers[key];
      model.idSubscribers := RemoveLast(model.idSubscribers, resourceId);
      ended := true;
    }

    /** Registers a metric-value subscriber for `resourceMetricId` on the
        host under `key` and adds the id to the host's subscription set;
        does nothing for an unknown key. What the subscriber then receives
        is `DeliveredValues(resourceMetricId, ·)` of the signals, until
        `EndMetricValuesSubscription` detaches it. */
    method SubscribeToMetricValues(key: string, resourceMetricId: ResourceMetricId) returns (subscribed: bool)
      modifies oTelServers.Values`valueSubscribers, oTelServers.Values`metricSubscriptions
      ensures subscribed <==> key in oTelServers
      ensures subscribed ==>
        oTelServers[key].valueSubscribers == old(oTelServers[key].valueSubscribers) + [resourceMetricId]
      ensures subscribed ==>
        oTelServers[key].metricSubscriptions == old(oTelServers[key].metricSubscriptions) + {resourceMetricId}
      ensures subscribed ==> oTelServers[key].idSubscribers == old(oTelServers[key].idSubscribers)
      ensures subscribed ==> oTelServers[key].metricDetails == old(oTelServers[key].metricDetails)
      ensures forall m :: m in oTelServers.Values && (!subscribed || m != oTelServers[key]) ==> unchanged(m)
    {
      if key !in oTelServers {
        return false;
      }
      var model := oTelServers[key];
      model.valueSubscribers := model.valueSubscribers + [resourceMetricId];
      model.metricSubscriptions := model.metricSubscriptions + {resourceMetricId};
      subscribed := true;
    }

    /** The end of a metric-value subscription's lifetime: the host under
        `key` loses one subscriber for `resourceMetricId` and the id leaves
        its subscription set, and nothing else changes. */
    method EndMetricValuesSubscription(key: string, resourceMetricId: ResourceMetricId) returns (ended: bool)
      modifies oTelServers.Values`valueSubscribers, oTelServers.Values`metricSubscriptions
      ensures ended <==> key in oTelServers
      ensures ended ==>
        oTelServers[key].valueSubscribers == RemoveLast(old(oTelServers[key].valueSubscribers), resourceMetricId)
      ensures ended ==>
        oTelServers[key].metricSubscriptions == old(oTelServers[key].metricSubscriptions) - {resourceMetricId}
      ensures forall m :: m in oTelServers.Values && (!ended || m != oTelServers[key]) ==> unchanged(m)
    {
      if key !in oTelServers {
        return false;
      }
      var model := oTelServers[key];
      model.valueSubscribers := RemoveLast(model.valueSubscribers, resourceMetricId);
      model.metricSubscriptions := model.metricSubscriptions - {resourceMetricId};
      ended := true;
    }

    /** The details the host under `key` answers for an id; null for an
        unknown key or an id the host does not know. */
    function GetMetricDetails(key: string, resourceMetricId: ResourceMetricId): (r: Option<ResourceMetricDetails>)
      reads this, oTelServers.Values
      ensures key !in oTelServers ==> r.None?
      ensures r.Some? <==> key in oTelServers && resourceMetricId in oTelServers[key].metricDetails
      ensures r.Some? ==> r.value == oTelServers[key].metricDetails[resourceMetricId]
    {
      if key !in oTelServers then None
      else
        var model := oTelServers[key];
        if resourceMetricId in model.metricDetails then Some(model.metricDetails[resourceMetricId]) else None
    }
  }
}
