/** The per-series ring buffer of the session host: 300 slots of metric
    points and a write cursor that starts at -1 and always designates the
    most recent write. */
module OTelMetricStream {
  import opened Common
  import opened OTelProto

  const Capacity: int := 300
  const NanosPerSecond: nat := 1_000_000_000

  /** A stored point: an integer or a double value with a timestamp in seconds. */
  datatype ResourceMetricPoint =
    | LongResourceMetricPoint(longValue: int, timestamp: int)
    | DoubleResourceMetricPoint(doubleValue: Double, timestamp: int)

  /** The cursor step of `Put`: advance by one and wrap from 299 to 0. */
  function NextIndex(index: int): (r: int)
    requires -1 <= index < Capacity
    ensures 0 <= r < Capacity
  {
    if index + 1 == Capacity then 0 else index + 1
  }

  /** The cursor after `n` puts on a fresh stream. */
  function IndexAfter(n: nat): (r: int)
    ensures -1 <= r < Capacity
  {
    if n == 0 then -1 else NextIndex(IndexAfter(n - 1))
  }

  /** After n >= 1 puts the cursor is (n - 1) mod 300; before any put it is -1. */
  lemma {:induction false} IndexAfterIsModulo(n: nat)
    ensures n == 0 ==> IndexAfter(n) == -1
    ensures n > 0 ==> IndexAfter(n) == (n - 1) % Capacity
  {
    if n > 0 {
      IndexAfterIsModulo(n - 1);
    }
  }

  /** The point `AddNumberDataPoint` stores, if any: the value case decides
      the kind, the timestamp is the whole number of seconds. */
  function NumberPoint(number: NumberDataPoint): (r: Option<ResourceMetricPoint>)
    ensures r.None? <==> number.value.NoValue?
    ensures r.Some? ==>
      r.value.timestamp * NanosPerSecond <= number.timeUnixNano < (r.value.timestamp + 1) * NanosPerSecond
    ensures number.value.AsInt? ==> r.Some? && r.value.LongResourceMetricPoint? && r.value.longValue == number.value.i
    ensures number.value.AsDouble? ==> r.Some? && r.value.DoubleResourceMetricPoint? && r.value.doubleValue == number.value.d
  {
    var timestamp := number.timeUnixNano / NanosPerSecond;
    match number.value
    case AsInt(i) => Some(LongResourceMetricPoint(i, timestamp))
    case AsDouble(d) => Some(DoubleResourceMetricPoint(d, timestamp))
    case NoValue => None
  }

  class OTelMetricStream {
    var index: int
    const points: array<Option<ResourceMetricPoint>>
    /** Every point ever put, oldest first. */
    ghost var history: seq<ResourceMetricPoint>

    /** The cursor is -1 exactly before the first put, (n - 1) mod 300 after
        n puts, and the slots hold the last (at most) 300 points. */
    ghost predicate Valid()
      reads this, points
    {
      && points.Length == Capacity
      && index == IndexAfter(|history|)
      && forall j :: 0 <= j < |history| && |history| - Capacity <= j ==> points[j % Capacity] == Some(history[j])
    }

    constructor ()
      ensures Valid() && fresh(points)
      ensures history == [] && index == -1
    {
      index := -1;
      points := new Option<ResourceMetricPoint>[Capacity](_ => None);
      history := [];
    }

    /** Advances the cursor and overwrites the slot it lands on. */
    method Put(point: ResourceMetricPoint)
      requires Valid()
      modifies this`index, this`history, points
      ensures Valid()
      ensures history == old(history) + [point]
      ensures index == NextIndex(old(index))
      ensures points[index] == Some(point)
      ensures forall k :: 0 <= k < Capacity && k != index ==> points[k] == old(points[k])
    {
      IndexAfterIsModulo(|history|);
      IndexAfterIsModulo(|history| + 1);
      index := index + 1;
      if index == Capacity {
        index := 0;
      }
      points[index] := Some(point);
      history := history + [point];
      assert index == (|history| - 1) % Capacity;
      forall j | 0 <= j < |history| && |history| - Capacity <= j
        ensures points[j % Capacity] == Some(history[j])
      {
        if j < |history| - 1 {
          assert j % Capacity != index;
        }
      }
    }

    /** `None` before the first put, otherwise the most recently put point. */
    method GetCurrentPoint() returns (r: Option<ResourceMetricPoint>)
      requires Valid()
      ensures history == [] ==> r == None
      ensures history != [] ==> r == Some(history[|history| - 1])
    {
      if index == -1 {
        return None;
      }
      IndexAfterIsModulo(|history|);
      r := points[index];
    }

    /** Stores a Long or Double point for the two value cases; a point with
        neither case leaves the stream unchanged. */
    method AddNumberDataPoint(number: NumberDataPoint)
      requires Valid()
      modifies this`index, this`history, points
      ensures Valid()
      ensures NumberPoint(number).None? ==> history == old(history) && index == old(index) && points[..] == old(points[..])
      ensures NumberPoint(number).Some? ==> history == old(history) + [NumberPoint(number).value]
    {
      var timestamp := number.timeUnixNano / NanosPerSecond;
      match number.value {
        case AsInt(value) =>
          Put(LongResourceMetricPoint(value, timestamp));
        case AsDouble(value) =>
          Put(DoubleResourceMetricPoint(value, timestamp));
        case NoValue =>
      }
    }

    /** Histogram points are accepted and dropped. */
    method AddHistogramDataPoint(histogram: HistogramDataPoint)
      requires Valid()
      ensures Valid()
    {
    }
  }
}
