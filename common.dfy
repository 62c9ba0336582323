/** Option and Result wrappers shared by every module: `null` in the
    C# and Kotlin sources becomes `None`, a thrown exception becomes `Err`. */
module Common {

  datatype Option<+T> = None | Some(value: T) {
    function GetOr(default: T): T {
      match this
      case Some(v) => v
      case None => default
    }
  }

  datatype Result<+T, +E> = Ok(value: T) | Err(error: E)

  /** The position of the first element equal to `x`, with no equal element
      before it, or none when no element is equal (Kotlin `indexOfFirst`,
      `firstOrNull` and C# `FirstOrDefault` over a key). */
  function IndexOf<T(==)>(s: seq<T>, x: T): (r: Option<nat>)
    ensures r.Some? ==> r.value < |s| && s[r.value] == x
    ensures r.Some? ==> forall j :: 0 <= j < r.value ==> s[j] != x
    ensures r.None? ==> forall j :: 0 <= j < |s| ==> s[j] != x
  {
    if s == [] then None
    else if s[0] == x then Some(0)
    else match IndexOf(s[1..], x)
      case None => None
      case Some(k) => Some(k + 1)
  }

  /** The keys of a run of (key, value) calls, whatever their order. */
  function KeysOf<K(==), V>(calls: seq<(K, V)>): set<K>
  {
    set i | 0 <= i < |calls| :: calls[i].0
  }

  lemma KeysOfSnoc<K, V>(calls: seq<(K, V)>, call: (K, V))
    ensures KeysOf(calls + [call]) == KeysOf(calls) + {call.0}
  {
    assert forall i :: 0 <= i < |calls| ==> (calls + [call])[i] == calls[i];
    assert (calls + [call])[|calls|] == call;
  }

  /** The image of a sequence under `f`, in order (Kotlin `map`). */
  function Project<A, B>(s: seq<A>, f: A -> B): (r: seq<B>)
    ensures |r| == |s| && forall i :: 0 <= i < |s| ==> r[i] == f(s[i])
  {
    seq(|s|, i requires 0 <= i < |s| => f(s[i]))
  }

  /** Regrouping a concatenation, for loops whose invariant appends to an
      accumulated log. */
  lemma ConcatAssoc<T>(a: seq<T>, b: seq<T>, c: seq<T>)
    ensures a + b + c == a + (b + c)
  {
  }
}
