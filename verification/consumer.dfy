/** The in-flight tracker: explicit acknowledgement, negative acknowledgement and
    timeout recovery, each proved against its function in `InFlight`. */
module Consumer {
  import opened Contracts
  import opened Lanes
  import opened InFlight
  import Delivery
  import Spec = InFlight

  /** How many of `n` more events a queue takes that holds `depth` of at most `maxsize`. */
  function Fitting(maxsize: nat, depth: nat, n: nat): nat
    requires 0 < maxsize ==> depth <= maxsize
  {
    if maxsize == 0 then n else Min(n, maxsize - depth)
  }

  lemma ExpiredKeys(es: seq<Entry>, now: real, timeout: real)
    ensures forall id :: id in Keys(Expired(es, now, timeout)) <==>
      exists e :: e in es && e.event.id == id && now - e.start > timeout
  {
    var x := Expired(es, now, timeout);
    FilterMembers(es, (e: Entry) => TimedOut(e, now, timeout));
    forall id
      ensures id in Keys(x) <==> exists e :: e in es && e.event.id == id && now - e.start > timeout
    {
      HasKey(x, id);
      if e :| e in es && e.event.id == id && now - e.start > timeout {
        assert e in x;
      }
    }
  }

  lemma CountingRecovered(x: seq<Entry>, now: real)
    ensures forall i :: 0 <= i < Countable(x) ==> Recovered(x[i].event, Recover(x[i].event, now), now)
  {
    CountableStops(x);
    forall i | 0 <= i < Countable(x)
      ensures Recovered(x[i].event, Recover(x[i].event, now), now)
    {
      RecoverIsRecovered(x[i].event, now);
    }
  }

  /** The sweep goes on past the k-th entry exactly when it has not reached its end. */
  lemma GoesOn(x: seq<Entry>, maxsize: nat, depth: nat, k: nat)
    requires (0 < maxsize ==> depth <= maxsize) && k < |x| && k <= Reach(x, Fitting(maxsize, depth, |x|))
    ensures k < Reach(x, Fitting(maxsize, depth, |x|)) <==>
      Counts(x[k].event.retries) && !(0 < maxsize <= depth + k)
  {
    CountableAt(x, k);
  }

  class InFlightTracker {
    const criticalQueue: LaneQueue
    const timeoutSec: real
    var inFlight: seq<Entry>
    var totalTracked: nat
    var totalAcked: nat
    var totalRecovered: nat
    var totalTimeouts: nat

    ghost predicate Valid()
      reads this, criticalQueue
    {
      criticalQueue.Valid() && Distinct(inFlight)
    }

    function State(): Tracker
      reads this
    {
      Tracker(inFlight, totalTracked, totalAcked, totalRecovered, totalTimeouts)
    }

    /** The objects are what the state of the protocol says of them. */
    ghost predicate Shows(s: Delivery.State)
      reads this, criticalQueue
    {
      s.tracker == State() && s.critical == criticalQueue.items && s.timeout == timeoutSec
    }

    constructor (criticalQueue: LaneQueue, timeoutSec: real)
      requires criticalQueue.Valid()
      ensures Valid() && State() == NEW_TRACKER && this.criticalQueue == criticalQueue
      ensures this.timeoutSec == if timeoutSec < 0.1 then 0.1 else timeoutSec
    {
      this.criticalQueue := criticalQueue;
      this.timeoutSec := if timeoutSec < 0.1 then 0.1 else timeoutSec;
      inFlight := [];
      totalTracked, totalAcked, totalRecovered, totalTimeouts := 0, 0, 0, 0;
    }

    method Track(e: Event, now: real)
      requires Valid()
      modifies this
      ensures Valid() && State() == Spec.Track(old(State()), e, now)
      ensures Has(inFlight, e.id) && inFlight[Find(inFlight, e.id)] == Entry(e, now)
    {
      PutIsFound(inFlight, Entry(e, now));
      var i := Find(inFlight, e.id);
      if i < |inFlight| {
        inFlight := inFlight[i := Entry(e, now)];
      } else {
        inFlight := inFlight + [Entry(e, now)];
      }
      totalTracked := totalTracked + 1;
    }

    method Ack(id: EventId) returns (present: bool)
      requires Valid()
      modifies this
      ensures Valid() && State() == Spec.Ack(old(State()), id)
      ensures present <==> Has(old(inFlight), id)
    {
      present := Has(inFlight, id);
      if present {
        RemoveIsFilter(inFlight, id);
        inFlight := Remove(inFlight, id);
        totalAcked := totalAcked + 1;
      }
    }

    /** `raised` is where `enqueue_nowait` raises QueueFull: the popped event is then in no
        queue and not in flight, so the event survives exactly when nothing is raised. */
    method NackRequeue(id: EventId) returns (e: Option<Event>, raised: bool)
      requires Valid()
      modifies this, criticalQueue
      ensures Valid()
      ensures raised <==> Has(old(inFlight), id) && old(criticalQueue.Full())
      ensures !raised ==> State() == Spec.Nack(old(State()), id)
      ensures raised ==> State() == old(State()).(inFlight := Remove(old(inFlight), id))
      ensures inFlight == Remove(old(inFlight), id)
      ensures e.Some? <==> Has(old(inFlight), id) && !raised
      ensures e.Some? ==> e.value == EnsurePriority(old(inFlight)[Find(old(inFlight), id)].event)
      ensures criticalQueue.items == old(criticalQueue.items) + if e.Some? then [e.value] else []
    {
      if !Has(inFlight, id) {
        return None, false;
      }
      var event := EnsurePriority(inFlight[Find(inFlight, id)].event);
      RemoveIsFilter(inFlight, id);
      inFlight := Remove(inFlight, id);
      var ok := criticalQueue.EnqueueNowait(event);
      if !ok {
        return None, true;
      }
      totalRecovered := totalRecovered + 1;
      return Some(event), false;
    }

    /** The sweep's first pass: the identifiers of the timed-out entries, in order. */
    method CollectTimedOut(now: real) returns (ids: seq<EventId>)
      ensures ids == Keys(Expired(inFlight, now, timeoutSec))
      ensures forall id :: id in ids <==> exists e :: e in inFlight && e.event.id == id && now - e.start > timeoutSec
    {
      ids := [];
      for i := 0 to |inFlight|
        invariant ids == Keys(Expired(inFlight[..i], now, timeoutSec))
      {
        assert inFlight[..i + 1][..i] == inFlight[..i];
        if now - inFlight[i].start > timeoutSec {
          KeysConcat(Expired(inFlight[..i], now, timeoutSec), [inFlight[i]]);
          ids := ids + [inFlight[i].event.id];
        }
      }
      assert inFlight[..|inFlight|] == inFlight;
      ExpiredKeys(inFlight, now, timeoutSec);
    }

    /** The body of the sweep's second pass: pop one entry, count it and put it back on CRITICAL.
        `!ok` is where adding one to the retry note raises TypeError, the event being as it was,
        or where the full queue raises QueueFull. */
    method PopAndRequeue(id: EventId, now: real) returns (event: Event, ok: bool)
      requires Valid() && Has(inFlight, id)
      modifies this, criticalQueue
      ensures Valid() && inFlight == Remove(old(inFlight), id)
      ensures totalTimeouts == old(totalTimeouts) + 1 && totalRecovered == old(totalRecovered) + 1
      ensures totalTracked == old(totalTracked) && totalAcked == old(totalAcked)
      ensures var was := old(inFlight)[Find(old(inFlight), id)].event;
        && event == (if Counts(was.retries) then Recover(was, now) else was)
        && (ok <==> Counts(was.retries) && !old(criticalQueue.Full()))
        && (ok ==> Recovered(was, event, now))
        && (ok && was.retries == Absent ==> event.retries == Number(1.0))
        && (ok && was.retries.Number? ==> event.retries == Number(was.retries.value + 1.0))
      ensures criticalQueue.items == old(criticalQueue.items) + if ok then [event] else []
    {
      event := inFlight[Find(inFlight, id)].event;
      RemoveIsFilter(inFlight, id);
      inFlight := Remove(inFlight, id);
      totalTimeouts := totalTimeouts + 1;
      totalRecovered := totalRecovered + 1;
      if !Counts(event.retries) {
        return event, false;
      }
      RecoverIsRecovered(event, now);
      event := Recover(event, now);
      ok := criticalQueue.EnqueueNowait(event);
    }

    /** How many of the entries `x` the sweep requeues before it raises, if it raises. */
    ghost function Requeued(x: seq<Entry>): nat
      requires criticalQueue.Valid()
      reads this, criticalQueue
    {
      Reach(x, Fitting(criticalQueue.maxsize, |criticalQueue.items|, |x|))
    }

    /** The sweep's second pass, over the entries `x` that had timed out when it began. When it
        raises part-way, one more than it requeued has been popped and counted. */
    method RequeueTimedOut(ids: seq<EventId>, now: real, ghost x: seq<Entry>)
      returns (recovered: seq<Event>, raised: bool)
      requires Valid() && x == Expired(inFlight, now, timeoutSec) && ids == Keys(x)
      modifies this, criticalQueue
      ensures Valid() && totalTracked == old(totalTracked) && totalAcked == old(totalAcked)
      ensures raised <==> old(Requeued(x)) < |x|
      ensures var n := Popped(|x|, old(Requeued(x)));
        && inFlight == Without(old(inFlight), Keys(x[..n]))
        && totalTimeouts == old(totalTimeouts) + n && totalRecovered == old(totalRecovered) + n
      ensures criticalQueue.items == old(criticalQueue.items) + RecoverAll(x[..old(Requeued(x))], now)
      ensures recovered == if raised then [] else RecoverAll(x, now)
    {
      ghost var was, depth, reach := inFlight, |criticalQueue.items|, Requeued(x);
      WithoutNone(inFlight);
      recovered := [];
      for k := 0 to |ids|
        invariant inFlight == Without(was, Keys(x[..k])) && Valid() && k <= reach
        invariant recovered == RecoverAll(x[..k], now) && |recovered| == k
        invariant criticalQueue.items == old(criticalQueue.items) + recovered
        invariant totalTracked == old(totalTracked) && totalAcked == old(totalAcked)
        invariant totalTimeouts == old(totalTimeouts) + k && totalRecovered == old(totalRecovered) + k
      {
        SweepStep(was, now, timeoutSec, k);
        GoesOn(x, criticalQueue.maxsize, depth, k);
        var event, ok := PopAndRequeue(ids[k], now);
        if !ok {
          return [], true;
        }
        recovered := recovered + [event];
      }
      assert x[..|x|] == x;
      return recovered, false;
    }

    /** One recovery sweep. `raised` is where it stops part-way, at a retry note that does not
        count or at a full CRITICAL queue. With an unlimited queue, the default, it is the
        protocol's `Sweep` whether it raises or not. */
    method CheckAndRecoverTimeouts(now: real) returns (recovered: seq<Event>, raised: bool)
      requires Valid()
      modifies this, criticalQueue
      ensures Valid()
      ensures var x := Expired(old(inFlight), now, timeoutSec);
        var n := Popped(|x|, old(Requeued(Expired(inFlight, now, timeoutSec))));
        && (raised <==> old(Requeued(Expired(inFlight, now, timeoutSec))) < |x|)
        && State() == Tracker(Without(old(inFlight), Keys(x[..n])), old(totalTracked), old(totalAcked),
                              old(totalRecovered) + n, old(totalTimeouts) + n)
        && criticalQueue.items == old(criticalQueue.items)
           + RecoverAll(x[..old(Requeued(Expired(inFlight, now, timeoutSec)))], now)
      ensures !raised ==> recovered == Swept(old(State()), now, timeoutSec)
      ensures var x := Expired(old(inFlight), now, timeoutSec);
        forall i :: 0 <= i < |criticalQueue.items| - |old(criticalQueue.items)| ==>
          i < |x| && Recovered(x[i].event, criticalQueue.items[|old(criticalQueue.items)| + i], now)
      ensures criticalQueue.maxsize == 0 || !raised ==>
        && State() == Spec.Sweep(old(State()), now, timeoutSec)
        && criticalQueue.items == old(criticalQueue.items) + Swept(old(State()), now, timeoutSec)
        && (raised <==> !Completes(old(State()), now, timeoutSec))
      ensures forall s :: old(Shows(s)) && s.clock == now && criticalQueue.maxsize == 0 ==> Shows(Delivery.DoSweep(s))
    {
      ghost var x := Expired(inFlight, now, timeoutSec);
      CountingRecovered(x, now);
      var timedOut := CollectTimedOut(now);
      assert x[..|x|] == x;
      recovered, raised := RequeueTimedOut(timedOut, now, x);
    }
  }
}
