/** The bounded channel both metric services are fed through: capacity 100,
    one writer and one reader, and the DropOldest policy — a write never
    blocks and never fails; when the queue is full the oldest request is
    discarded to admit the new one. Reads are first in, first out. */
module Channel {
  import opened Common

  const Capacity: nat := 100

  /** The queue after one write. */
  function Enqueue<T>(items: seq<T>, x: T): (r: seq<T>)
    requires |items| <= Capacity
    ensures 1 <= |r| <= Capacity
    ensures r[|r| - 1] == x
  {
    if |items| == Capacity then items[1..] + [x] else items + [x]
  }

  /** The queue after a sequence of writes with no reads in between. */
  function EnqueueAll<T>(items: seq<T>, xs: seq<T>): (r: seq<T>)
    requires |items| <= Capacity
    ensures |r| <= Capacity
  {
    if xs == [] then items else Enqueue(EnqueueAll(items, xs[..|xs| - 1]), xs[|xs| - 1])
  }

  /** The newest `n` elements of `s`, in their original order. */
  function Newest<T>(s: seq<T>, n: nat): seq<T>
  {
    if |s| <= n then s else s[|s| - n..]
  }

  /** Writing while the reader is paused keeps exactly the newest 100
      requests, in the order they were written. */
  lemma {:induction false} EnqueueAllKeepsNewest<T>(items: seq<T>, xs: seq<T>)
    requires |items| <= Capacity
    ensures EnqueueAll(items, xs) == Newest(items + xs, Capacity)
  {
    if xs != [] {
      var n := |xs| - 1;
      EnqueueAllKeepsNewest(items, xs[..n]);
      assert items + xs == (items + xs[..n]) + [xs[n]];
    }
  }

  class BoundedChannel<T> {
    var items: seq<T>

    ghost predicate Valid()
      reads this
    {
      |items| <= Capacity
    }

    constructor ()
      ensures Valid() && items == []
    {
      items := [];
    }

    /** `TryWrite` in DropOldest mode: always succeeds. */
    method TryWrite(x: T) returns (written: bool)
      requires Valid()
      modifies this
      ensures Valid()
      ensures written
      ensures items == Enqueue(old(items), x)
    {
      if |items| == Capacity {
        items := items[1..];
      }
      items := items + [x];
      written := true;
    }

    /** Takes the oldest queued request, if there is one. */
    method TryRead() returns (r: Option<T>)
      requires Valid()
      modifies this
      ensures Valid()
      ensures old(items) == [] ==> r == None && items == []
      ensures old(items) != [] ==> r == Some(old(items)[0]) && items == old(items)[1..]
    {
      if items == [] {
        return None;
      }
      r := Some(items[0]);
      items := items[1..];
    }
  }
}
