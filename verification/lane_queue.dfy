/** The in-memory queue of one priority lane. */
module Lanes {
  import opened Contracts

  /** What `enqueue_nowait` leaves in the queue: an unset priority becomes the lane's. */
  function Stamp(e: Event, lane: Priority): Event {
    if e.priority == None then e.(priority := Some(lane)) else e
  }

  class LaneQueue {
    const priority: Priority
    const maxsize: nat
    var items: seq<Event>
    var enqueuedCount: nat
    var dequeuedCount: nat
    ghost var everEnqueued: seq<Event>

    /** First in, first out: what waits is what was enqueued, less what left, in order. */
    ghost predicate Valid()
      reads this
    {
      && enqueuedCount == |everEnqueued|
      && dequeuedCount <= enqueuedCount
      && items == everEnqueued[dequeuedCount..]
      && (maxsize > 0 ==> |items| <= maxsize)
    }

    /** A `maxsize` of zero means the queue is unbounded. */
    predicate Full()
      reads this
    {
      0 < maxsize <= |items|
    }

    constructor (priority: Priority, maxsize: nat)
      ensures Valid() && items == [] && everEnqueued == []
      ensures this.priority == priority && this.maxsize == maxsize
      ensures enqueuedCount == 0 && dequeuedCount == 0
    {
      this.priority := priority;
      this.maxsize := maxsize;
      items, everEnqueued := [], [];
      enqueuedCount, dequeuedCount := 0, 0;
    }

    /** `ok` is false where the source raises QueueFull. */
    method EnqueueNowait(e: Event) returns (ok: bool)
      requires Valid()
      modifies this
      ensures Valid()
      ensures ok == !old(Full())
      ensures items == if ok then old(items) + [Stamp(e, priority)] else old(items)
      ensures everEnqueued == if ok then old(everEnqueued) + [Stamp(e, priority)] else old(everEnqueued)
      ensures dequeuedCount == old(dequeuedCount)
    {
      ok := !Full();
      if ok {
        items := items + [Stamp(e, priority)];
        everEnqueued := everEnqueued + [Stamp(e, priority)];
        enqueuedCount := enqueuedCount + 1;
      }
    }

    /** `None` is where the source raises QueueEmpty. The n-th event to leave is the n-th that came. */
    method DequeueNowait() returns (r: Option<Event>)
      requires Valid()
      modifies this
      ensures Valid() && everEnqueued == old(everEnqueued)
      ensures r == None <==> old(items) == []
      ensures r == None ==> items == old(items) && dequeuedCount == old(dequeuedCount)
      ensures r.Some? ==> old(items) == [r.value] + items && dequeuedCount == old(dequeuedCount) + 1
      ensures r.Some? ==> r.value == everEnqueued[old(dequeuedCount)]
    {
      if items == [] {
        return None;
      }
      r := Some(items[0]);
      items := items[1..];
      dequeuedCount := dequeuedCount + 1;
    }

    function Peek(): (r: Option<Event>)
      reads this
      ensures r.Some? <==> items != []
      ensures r.Some? ==> [r.value] <= items
    {
      if items == [] then None else Some(items[0])
    }
  }
}
