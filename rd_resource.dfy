/** The protocol-side resource: a dictionary from (scope name, metric name)
    to metric, filled by get-or-add while a request's scope blocks are
    walked; metrics of type Other are skipped, every other metric has its
    value dispatched. */
module RdResource {
  import opened Common
  import opened OTelProto
  import opened RdMetric

  /** The generated protocol id of a metric within a resource. */
  datatype ResourceMetricId = ResourceMetricId(scopeName: string, metricName: string)

  /** `Map` of a data case: Gauge, Sum and Histogram to the same-named type,
      anything else to Other. */
  function Map(data: MetricData): (t: RdMetricType)
    ensures t == Other <==> data.OtherData?
    ensures data.Gauge? <==> t == RdMetricType.Gauge
    ensures data.Sum? <==> t == RdMetricType.Sum
    ensures data.Histogram? <==> t == RdMetricType.Histogram
  {
    DataType(data)
  }

  /** The metric the value factory of `GetOrAdd` builds at the first sighting. */
  function NewRdMetric(id: RdMetricId, metric: Metric): RdMetric
  {
    RdMetric(id, Map(metric.data), metric.description, metric.unit)
  }

  /** One iteration of the inner loop: the id and the incoming metric. */
  type RdCall = (RdMetricId, Metric)

  /** The calls of one scope block, metric by metric. */
  function ScopeCalls(scopeName: string, metrics: seq<Metric>): (r: seq<RdCall>)
    ensures |r| == |metrics|
  {
    if metrics == [] then []
    else
      var n := |metrics| - 1;
      ScopeCalls(scopeName, metrics[..n]) + [(RdMetricId(scopeName, metrics[n].name), metrics[n])]
  }

  /** The calls of a list of scope blocks, block by block. */
  function ScopesCalls(scopes: seq<ScopeMetrics>): seq<RdCall>
  {
    if scopes == [] then []
    else
      var n := |scopes| - 1;
      ScopesCalls(scopes[..n]) + ScopeCalls(scopes[n].scopeName, scopes[n].metrics)
  }

  /** The dictionary and the dispatched ids after one more call: get-or-add,
      then a dispatch unless the stored metric is of type Other. */
  function Step(state: (map<RdMetricId, RdMetric>, seq<RdMetricId>), call: RdCall): (map<RdMetricId, RdMetric>, seq<RdMetricId>)
  {
    var next := if call.0 in state.0 then state.0 else state.0[call.0 := NewRdMetric(call.0, call.1)];
    (next, if next[call.0].Type() == Other then state.1 else state.1 + [call.0])
  }

  /** The dictionary after a run of calls, and the ids whose value was
      dispatched, in call order. */
  function AddAll(metrics: map<RdMetricId, RdMetric>, calls: seq<RdCall>): (map<RdMetricId, RdMetric>, seq<RdMetricId>)
  {
    if calls == [] then (metrics, []) else Step(AddAll(metrics, calls[..|calls| - 1]), calls[|calls| - 1])
  }

  lemma AddAllSnoc(metrics: map<RdMetricId, RdMetric>, calls: seq<RdCall>, call: RdCall)
    ensures AddAll(metrics, calls + [call]) == Step(AddAll(metrics, calls), call)
  {
    assert (calls + [call])[..|calls|] == calls;
  }

  /** A step does not look at the ids dispatched before it. */
  lemma StepShift(state: (map<RdMetricId, RdMetric>, seq<RdMetricId>), earlier: seq<RdMetricId>, call: RdCall)
    ensures Step((state.0, earlier + state.1), call) == (Step(state, call).0, earlier + Step(state, call).1)
  {
    assert earlier + state.1 + [call.0] == earlier + (state.1 + [call.0]);
  }

  lemma ScopesCallsSnoc(scopes: seq<ScopeMetrics>, i: nat)
    requires i < |scopes|
    ensures ScopesCalls(scopes[..i + 1]) == ScopesCalls(scopes[..i]) + ScopeCalls(scopes[i].scopeName, scopes[i].metrics)
  {
    assert scopes[..i + 1][..i] == scopes[..i];
  }

  lemma ScopeCallsSnoc(scopeName: string, metrics: seq<Metric>, j: nat)
    requires j < |metrics|
    ensures ScopeCalls(scopeName, metrics[..j + 1]) ==
      ScopeCalls(scopeName, metrics[..j]) + [(RdMetricId(scopeName, metrics[j].name), metrics[j])]
  {
    assert metrics[..j + 1][..j] == metrics[..j];
  }

  /** Running two call sequences one after the other is running their
      concatenation. */
  lemma {:induction false} AddAllAppend(metrics: map<RdMetricId, RdMetric>, first: seq<RdCall>, second: seq<RdCall>)
    ensures AddAll(metrics, first + second) ==
      var mid := AddAll(metrics, first);
      var r := AddAll(mid.0, second);
      (r.0, mid.1 + r.1)
  {
    var mid := AddAll(metrics, first);
    if second != [] {
      var n := |second| - 1;
      AddAllAppend(metrics, first, second[..n]);
      assert first + second == (first + second[..n]) + [second[n]];
      assert second[..n] + [second[n]] == second;
      AddAllSnoc(metrics, first + second[..n], second[n]);
      AddAllSnoc(mid.0, second[..n], second[n]);
      StepShift(AddAll(mid.0, second[..n]), mid.1, second[n]);
    } else {
      assert first + second == first;
      assert mid.1 + [] == mid.1;
    }
  }

  /** The dictionary only grows: its keys afterwards are the old keys plus
      every id called with, and a stored metric is never replaced, so its
      type stays the one of its first sighting. */
  lemma {:induction false} AddAllGrows(metrics: map<RdMetricId, RdMetric>, calls: seq<RdCall>)
    ensures AddAll(metrics, calls).0.Keys == metrics.Keys + KeysOf(calls)
    ensures forall id :: id in metrics ==> AddAll(metrics, calls).0[id] == metrics[id]
  {
    if calls != [] {
      var n := |calls| - 1;
      AddAllGrows(metrics, calls[..n]);
      assert calls == calls[..n] + [calls[n]];
      KeysOfSnoc(calls[..n], calls[n]);
    }
  }

  /** A metric not stored before is stored as built from its first call:
      later calls with other data never change type, description or unit. */
  lemma {:induction false} AddAllFirstSighting(metrics: map<RdMetricId, RdMetric>, calls: seq<RdCall>, i: nat)
    requires i < |calls| && calls[i].0 !in metrics
    requires forall k :: 0 <= k < i ==> calls[k].0 != calls[i].0
    ensures calls[i].0 in AddAll(metrics, calls).0
    ensures AddAll(metrics, calls).0[calls[i].0] == NewRdMetric(calls[i].0, calls[i].1)
  {
    var n := |calls| - 1;
    var prefix := calls[..n];
    var id := calls[i].0;
    assert calls == prefix + [calls[n]];
    AddAllSnoc(metrics, prefix, calls[n]);
    var prev := AddAll(metrics, prefix);
    AddAllGrows(metrics, prefix);
    if i < n {
      assert prefix[i] == calls[i];
      assert forall k :: 0 <= k < i ==> prefix[k] == calls[k];
      AddAllFirstSighting(metrics, prefix, i);
      assert AddAll(metrics, calls).0[id] == prev.0[id];
    } else {
      assert forall k :: 0 <= k < n ==> prefix[k] == calls[k];
      assert id !in KeysOf(prefix);
      assert id !in prev.0;
    }
  }

  /** An id has its value dispatched exactly when it was called with and its
      stored metric is not of type Other: Other metrics are never handed to
      `AddMetricValue`. */
  lemma {:induction false} DispatchedIffNotOther(metrics: map<RdMetricId, RdMetric>, calls: seq<RdCall>, id: RdMetricId)
    ensures KeysOf(calls) <= AddAll(metrics, calls).0.Keys
    ensures id in AddAll(metrics, calls).1 <==> id in KeysOf(calls) && AddAll(metrics, calls).0[id].Type() != Other
  {
    AddAllGrows(metrics, calls);
    if calls != [] {
      var n := |calls| - 1;
      var prefix := calls[..n];
      DispatchedIffNotOther(metrics, prefix, id);
      AddAllGrows(metrics, prefix);
      assert calls == prefix + [calls[n]];
      KeysOfSnoc(prefix, calls[n]);
      AddAllSnoc(metrics, prefix, calls[n]);
      var prev := AddAll(metrics, prefix);
      if id in prev.0 {
        assert AddAll(metrics, calls).0[id] == prev.0[id];
      }
    }
  }

  /** A call whose id is already stored with a type other than Other, while
      its data case is of a different type: the call at which the dispatch
      as written dereferences a null data field. */
  predicate Mismatch(metrics: map<RdMetricId, RdMetric>, call: RdCall)
  {
    call.0 in metrics && metrics[call.0].Type() != Other && DataType(call.1.data) != metrics[call.0].Type()
  }

  /** One call with the dispatch as written: get-or-add, then, unless the
      stored metric is of type Other, `AddMetricValueAsWritten`, whose
      failure is the exception that leaves the walk. */
  function StepAsWritten(state: (map<RdMetricId, RdMetric>, seq<RdMetricId>), call: RdCall)
    : Result<(map<RdMetricId, RdMetric>, seq<RdMetricId>), DispatchError>
  {
    var next := if call.0 in state.0 then state.0 else state.0[call.0 := NewRdMetric(call.0, call.1)];
    if next[call.0].Type() == Other then Ok((next, state.1))
    else match AddMetricValueAsWritten(next[call.0], call.1)
      case Err(e) => Err(e)
      case Ok(_) => Ok((next, state.1 + [call.0]))
  }

  /** The walk of `AddMetrics` as written: the first failing call aborts it,
      and no later call is looked at. */
  function AddAllAsWritten(metrics: map<RdMetricId, RdMetric>, calls: seq<RdCall>)
    : Result<(map<RdMetricId, RdMetric>, seq<RdMetricId>), DispatchError>
  {
    if calls == [] then Ok((metrics, []))
    else match AddAllAsWritten(metrics, calls[..|calls| - 1])
      case Err(e) => Err(e)
      case Ok(prev) => StepAsWritten(prev, calls[|calls| - 1])
  }

  /** One call as written fails exactly on a mismatch, and otherwise does
      what the corrected step does. */
  lemma StepAsWrittenCases(state: (map<RdMetricId, RdMetric>, seq<RdMetricId>), call: RdCall)
    ensures StepAsWritten(state, call).Err? <==> Mismatch(state.0, call)
    ensures StepAsWritten(state, call).Ok? ==> StepAsWritten(state, call).value == Step(state, call)
  {
    var next := if call.0 in state.0 then state.0 else state.0[call.0 := NewRdMetric(call.0, call.1)];
    AddMetricValueAsWrittenCases(next[call.0], call.1);
  }

  /** Where the walk as written completes, it leaves the dictionary and the
      dispatched ids exactly as the corrected walk does. */
  lemma {:induction false} AddAllAsWrittenRefines(metrics: map<RdMetricId, RdMetric>, calls: seq<RdCall>)
    ensures AddAllAsWritten(metrics, calls).Ok? ==> AddAllAsWritten(metrics, calls).value == AddAll(metrics, calls)
  {
    if calls != [] {
      var n := |calls| - 1;
      AddAllAsWrittenRefines(metrics, calls[..n]);
      var prev := AddAllAsWritten(metrics, calls[..n]);
      if prev.Ok? {
        StepAsWrittenCases(prev.value, calls[n]);
      }
    }
  }

  /** The call at position `k` meets a mismatch in the dictionary the calls
      before it built. */
  predicate MismatchAt(metrics: map<RdMetricId, RdMetric>, calls: seq<RdCall>, k: int)
  {
    0 <= k < |calls| && Mismatch(AddAll(metrics, calls[..k]).0, calls[k])
  }

  lemma MismatchAtPrefix(metrics: map<RdMetricId, RdMetric>, calls: seq<RdCall>, n: nat, k: nat)
    requires k < n <= |calls|
    ensures MismatchAt(metrics, calls[..n], k) == MismatchAt(metrics, calls, k)
  {
    assert calls[..n][..k] == calls[..k];
  }

  /** The walk as written aborts exactly when some call meets a stored
      metric of another, non-Other type, the dictionary being the one the
      calls before it built; the first sighting of an id never aborts. */
  lemma {:induction false} AddAllAsWrittenFails(metrics: map<RdMetricId, RdMetric>, calls: seq<RdCall>)
    ensures AddAllAsWritten(metrics, calls).Err? <==> exists k :: MismatchAt(metrics, calls, k)
  {
    if calls != [] {
      var n := |calls| - 1;
      var prefix := calls[..n];
      AddAllAsWrittenFails(metrics, prefix);
      forall k | 0 <= k < n
        ensures MismatchAt(metrics, prefix, k) == MismatchAt(metrics, calls, k)
      {
        MismatchAtPrefix(metrics, calls, n, k);
      }
      var prev := AddAllAsWritten(metrics, prefix);
      if prev.Ok? {
        AddAllAsWrittenRefines(metrics, prefix);
        StepAsWrittenCases(prev.value, calls[n]);
        assert MismatchAt(metrics, calls, n) <==> Mismatch(prev.value.0, calls[n]);
      } else {
        var k :| MismatchAt(metrics, prefix, k);
        assert MismatchAt(metrics, calls, k);
      }
    }
  }

  /** A metric stored as Gauge, sighted again with Sum data, and followed by
      a new metric: the walk as written aborts at the second call, so the
      third metric is never stored, while the corrected walk stores it. */
  lemma AddAllAsWrittenDropsLater()
    ensures var requests := RdMetricId("scope", "requests");
      var latency := RdMetricId("scope", "latency");
      var calls := [(requests, Metric("requests", "", "", MetricData.Gauge([]))),
                    (requests, Metric("requests", "", "", MetricData.Sum([]))),
                    (latency, Metric("latency", "", "", MetricData.Gauge([])))];
      AddAllAsWritten(map[], calls[..2]).Err? && AddAllAsWritten(map[], calls).Err? &&
      latency in AddAll(map[], calls).0
  {
    var requests := RdMetricId("scope", "requests");
    var latency := RdMetricId("scope", "latency");
    var calls := [(requests, Metric("requests", "", "", MetricData.Gauge([]))),
                  (requests, Metric("requests", "", "", MetricData.Sum([]))),
                  (latency, Metric("latency", "", "", MetricData.Gauge([])))];
    assert calls[..1][..0] == [];
    assert AddAllAsWritten(map[], calls[..0]) == Ok((map[], []));
    StepAsWrittenCases((map[], []), calls[0]);
    assert calls[..2][..1] == calls[..1];
    var first := AddAllAsWritten(map[], calls[..1]);
    assert first == StepAsWritten((map[], []), calls[0]);
    assert first.Ok? && first.value.0 == map[requests := NewRdMetric(requests, calls[0].1)];
    StepAsWrittenCases(first.value, calls[1]);
    assert Mismatch(first.value.0, calls[1]);
    assert calls[..3] == calls && calls[..2] == calls[..3][..2];
    AddAllGrows(map[], calls);
    assert latency == calls[2].0 && latency in KeysOf(calls);
  }

  /** The protocol id of a dictionary key. */
  function ToResourceMetricId(id: RdMetricId): ResourceMetricId
  {
    ResourceMetricId(id.scopeName, id.metricName)
  }

  class RdResource {
    const id: string
    var metrics: map<RdMetricId, RdMetric>
    /** The ids handed to `AddMetricValue`, in call order. */
    ghost var valueCalls: seq<RdMetricId>

    constructor (id: string)
      ensures this.id == id && metrics == map[] && valueCalls == []
    {
      this.id := id;
      metrics := map[];
      valueCalls := [];
    }

    /** Walks the scope blocks and their metrics in order, gets or adds each
        metric, and dispatches the value of each one not of type Other. */
    method AddMetrics(scopeMetricsList: seq<ScopeMetrics>)
      modifies this`metrics, this`valueCalls
      ensures var r := AddAll(old(metrics), ScopesCalls(scopeMetricsList));
        metrics == r.0 && valueCalls == old(valueCalls) + r.1
    {
      ghost var metrics0 := metrics;
      ghost var calls0 := valueCalls;
      var i := 0;
      while i < |scopeMetricsList|
        invariant 0 <= i <= |scopeMetricsList|
        invariant var r := AddAll(metrics0, ScopesCalls(scopeMetricsList[..i]));
          metrics == r.0 && valueCalls == calls0 + r.1
      {
        var scopeMetrics := scopeMetricsList[i];
        ScopesCallsSnoc(scopeMetricsList, i);
        ghost var done := ScopesCalls(scopeMetricsList[..i]);
        ghost var scopeCalls := ScopeCalls(scopeMetrics.scopeName, scopeMetrics.metrics);
        ghost var mid := AddAll(metrics0, done);
        AddScopeMetrics(scopeMetrics);
        ghost var r := AddAll(mid.0, scopeCalls);
        AddAllAppend(metrics0, done, scopeCalls);
        ConcatAssoc(calls0, mid.1, r.1);
        i := i + 1;
      }
      assert scopeMetricsList[..i] == scopeMetricsList;
    }

    /** One metric of a scope block: get-or-add its entry, then hand it the
        value unless its type is `Other`. */
    method AddMetric(scopeName: string, metric: Metric)
      modifies this`metrics, this`valueCalls
      ensures var r := Step((old(metrics), old(valueCalls)), (RdMetricId(scopeName, metric.name), metric));
        metrics == r.0 && valueCalls == r.1
    {
      var metricId := RdMetricId(scopeName, metric.name);
      var rdMetric: RdMetric;
      if metricId in metrics {
        rdMetric := metrics[metricId];
      } else {
        rdMetric := NewRdMetric(metricId, metric);
        metrics := metrics[metricId := rdMetric];
      }
      if rdMetric.Type() != Other {
        var _ := AddMetricValue(rdMetric, metric);
        valueCalls := valueCalls + [metricId];
      }
    }

    /** The inner loop over one scope block's metrics. */
    method AddScopeMetrics(scopeMetrics: ScopeMetrics)
      modifies this`metrics, this`valueCalls
      ensures var r := AddAll(old(metrics), ScopeCalls(scopeMetrics.scopeName, scopeMetrics.metrics));
        metrics == r.0 && valueCalls == old(valueCalls) + r.1
    {
      ghost var start := metrics;
      ghost var calls0 := valueCalls;
      var j := 0;
      while j < |scopeMetrics.metrics|
        invariant 0 <= j <= |scopeMetrics.metrics|
        invariant var r := AddAll(start, ScopeCalls(scopeMetrics.scopeName, scopeMetrics.metrics[..j]));
          metrics == r.0 && valueCalls == calls0 + r.1
      {
        var metric := scopeMetrics.metrics[j];
        ghost var call := (RdMetricId(scopeMetrics.scopeName, metric.name), metric);
        ScopeCallsSnoc(scopeMetrics.scopeName, scopeMetrics.metrics, j);
        ghost var prev := AddAll(start, ScopeCalls(scopeMetrics.scopeName, scopeMetrics.metrics[..j]));
        AddAllSnoc(start, ScopeCalls(scopeMetrics.scopeName, scopeMetrics.metrics[..j]), call);
        StepShift(prev, calls0, call);
        AddMetric(scopeMetrics.scopeName, metric);
        j := j + 1;
      }
      assert scopeMetrics.metrics[..j] == scopeMetrics.metrics;
    }

    /** One protocol id per key: no duplicates, one for every key, and as
        many as there are keys. */
    method GetMetricIds() returns (ids: seq<ResourceMetricId>)
      ensures |ids| == |metrics.Keys|
      ensures forall i, j :: 0 <= i < j < |ids| ==> ids[i] != ids[j]
      ensures forall k :: k in metrics ==> ToResourceMetricId(k) in ids
      ensures forall i :: 0 <= i < |ids| ==> exists k :: k in metrics && ids[i] == ToResourceMetricId(k)
    {
      ids := [];
      var rest := metrics.Keys;
      while rest != {}
        invariant rest <= metrics.Keys
        invariant |ids| + |rest| == |metrics.Keys|
        invariant forall i, j :: 0 <= i < j < |ids| ==> ids[i] != ids[j]
        invariant forall k :: k in metrics && k !in rest ==> ToResourceMetricId(k) in ids
        invariant forall i :: 0 <= i < |ids| ==> exists k :: k in metrics && k !in rest && ids[i] == ToResourceMetricId(k)
        decreases |rest|
      {
        var k :| k in rest;
        ids := ids + [ToResourceMetricId(k)];
        rest := rest - {k};
      }
    }
  }
}
