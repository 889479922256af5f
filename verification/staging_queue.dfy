/**
 * The bounded FIFO staging queue of the index buffer: an array-backed blocking
 * queue of fixed capacity. The timed insert is reduced to "insert if there is
 * room, otherwise lose the request", and the drain loop of the flush is
 * modelled as a function over the queue's contents.
 */
module StagingQueue {
  import opened Requests

  /** Capacity the queue is constructed with. */
  const Capacity: nat := 500

  /** The queue never holds more than its capacity. */
  predicate Bounded(q: seq<Request>)
  {
    |q| <= Capacity
  }

  /** The queue after a timed offer, and whether the request went in. */
  datatype Offered = Offered(queue: seq<Request>, accepted: bool)

  /**
   * The timed offer of the producer pipeline. Its boolean result is never
   * looked at by the caller, so a request offered to a full queue is lost.
   */
  function Offer(q: seq<Request>, r: Request): (o: Offered)
    ensures Bounded(q) ==> Bounded(o.queue)
    ensures o.accepted <==> |q| < Capacity
    ensures o.accepted ==> |o.queue| == |q| + 1 && o.queue[..|q|] == q && o.queue[|q|] == r
    ensures !o.accepted ==> o.queue == q
  {
    if |q| < Capacity then Offered(q + [r], true) else Offered(q, false)
  }

  /** How many requests a drain with budget `count` takes from a queue of `size` requests. */
  function DrainCount(size: nat, count: int): (n: nat)
    ensures n <= size
  {
    if count <= 0 then 0
    else if size < count then size
    else count
  }

  /** The requests a drain took, in the order taken, and what it left queued. */
  datatype Drained = Drained(taken: seq<Request>, rest: seq<Request>)

  /**
   * The drain loop of the flush: while the queue is non-empty and the
   * post-decremented budget was still positive, take the head of the queue.
   */
  function Drain(q: seq<Request>, count: int): (d: Drained)
    ensures |d.taken| == DrainCount(|q|, count)
    ensures d.taken == q[..|d.taken|]
    ensures d.rest == q[|d.taken|..]
    decreases |q|
  {
    if |q| > 0 && count > 0 then
      var tail := Drain(q[1..], count - 1);
      Drained([q[0]] + tail.taken, tail.rest)
    else
      Drained([], q)
  }

  /**
   * Two drains in a row take the same requests as one drain with the summed
   * budget: no request is skipped or taken twice across consecutive flushes.
   */
  lemma {:induction false} DrainCompose(q: seq<Request>, a: nat, b: nat)
    ensures Drain(q, a).taken + Drain(Drain(q, a).rest, b).taken == Drain(q, a + b).taken
    ensures Drain(Drain(q, a).rest, b).rest == Drain(q, a + b).rest
  {
    var n1 := DrainCount(|q|, a);
    var n2 := DrainCount(|q| - n1, b);
    DrainCountAdds(|q|, a, b);
    SplitAt(q, n1, n2);
    var d1 := Drain(q, a);
    assert d1.taken == q[..n1] && d1.rest == q[n1..];
    var r := q[n1..];
    assert |r| == |q| - n1;
    var d2 := Drain(r, b);
    assert |d2.taken| == n2;
    assert d2.taken == r[..n2] && d2.rest == r[n2..];
    var d := Drain(q, a + b);
    assert |d.taken| == n1 + n2;
  }

  /** Budgets add up: draining `a` then `b` counts as draining `a + b`. */
  lemma DrainCountAdds(size: nat, a: nat, b: nat)
    ensures DrainCount(size, a) + DrainCount(size - DrainCount(size, a), b) == DrainCount(size, a + b)
  {
  }

  /** Taking `n1` then `n2` elements is taking `n1 + n2` elements. */
  lemma SplitAt(q: seq<Request>, n1: nat, n2: nat)
    requires n1 + n2 <= |q|
    ensures q[..n1] + q[n1..][..n2] == q[..n1 + n2]
    ensures q[n1..][n2..] == q[n1 + n2..]
  {
  }
}
