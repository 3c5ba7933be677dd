/** The queue manager, the backpressure controller and the batch ingestion loop, proved
    against `Admission`. */
module Backpressure {
  import opened Contracts
  import opened Aging
  import opened Admission
  import opened Dispatching

  function Finite(capacity: Option<int>): Option<nat> {
    if capacity.Some? && capacity.value > 0 then Some(capacity.value) else None
  }

  function OrZero(capacity: Option<nat>): nat {
    if capacity.Some? then capacity.value else 0
  }

  /** The manager builds its own lanes without a size limit; their nominal capacities are what
      only the pressure and backpressure figures use. */
  class QueueManager {
    const dispatcher: Dispatcher
    const criticalCapacity: Option<nat>
    const normalCapacity: Option<nat>
    const bestEffortCapacity: Option<nat>
    const fallbackCapacity: int

    constructor (dispatcher: Dispatcher, critical: Option<int>, normal: Option<int>, bestEffort: Option<int>,
                 fallbackCapacity: int)
      ensures this.dispatcher == dispatcher && this.fallbackCapacity == fallbackCapacity
      ensures criticalCapacity == Finite(critical) && normalCapacity == Finite(normal)
      ensures bestEffortCapacity == Finite(bestEffort)
    {
      this.dispatcher := dispatcher;
      this.fallbackCapacity := fallbackCapacity;
      criticalCapacity, normalCapacity, bestEffortCapacity := Finite(critical), Finite(normal), Finite(bestEffort);
    }

    ghost predicate Valid()
      reads dispatcher, dispatcher.critical, dispatcher.normal, dispatcher.bestEffort
    {
      && dispatcher.Valid()
      && dispatcher.critical.maxsize == dispatcher.normal.maxsize == dispatcher.bestEffort.maxsize == 0
      && dispatcher.critical.priority == Critical && dispatcher.normal.priority == Normal
      && dispatcher.bestEffort.priority == BestEffort
      && criticalCapacity != Some(0) && normalCapacity != Some(0) && bestEffortCapacity != Some(0)
    }

    ghost function State(): Aging.Lanes
      reads dispatcher, dispatcher.critical, dispatcher.normal, dispatcher.bestEffort
    {
      dispatcher.State()
    }

    function TotalDepth(): (n: nat)
      reads dispatcher.critical, dispatcher.normal, dispatcher.bestEffort
      ensures n == |dispatcher.critical.items + dispatcher.normal.items + dispatcher.bestEffort.items|
    {
      |dispatcher.critical.items| + |dispatcher.normal.items| + |dispatcher.bestEffort.items|
    }

    predicate AllUnbounded() {
      criticalCapacity == None && normalCapacity == None && bestEffortCapacity == None
    }

    /** The sum of the finite capacities, or a fallback: whatever the configuration, a usable
        divisor. */
    function TotalCapacity(): (n: nat)
      ensures AllUnbounded() ==> n == if fallbackCapacity > 0 then fallbackCapacity else 1000
      ensures !AllUnbounded() ==> n == OrZero(criticalCapacity) + OrZero(normalCapacity) + OrZero(bestEffortCapacity)
      ensures criticalCapacity != Some(0) && normalCapacity != Some(0) && bestEffortCapacity != Some(0) ==> n > 0
    {
      if !AllUnbounded() then OrZero(criticalCapacity) + OrZero(normalCapacity) + OrZero(bestEffortCapacity)
      else if fallbackCapacity > 0 then fallbackCapacity else 1000
    }

    method Enqueue(e: Event, p: Priority)
      requires Valid()
      modifies dispatcher.critical, dispatcher.normal, dispatcher.bestEffort
      ensures Valid()
      ensures State() == Push(old(State()), p, e.(priority := Some(p)))
    {
      var stamped := e.(priority := Some(p));
      match p {
        case Critical => var _ := dispatcher.critical.EnqueueNowait(stamped);
        case Normal => var _ := dispatcher.normal.EnqueueNowait(stamped);
        case BestEffort => var _ := dispatcher.bestEffort.EnqueueNowait(stamped);
      }
    }
  }

  lemma OneMoreReading(high: real, low: real, seen: seq<real>, ratio: real)
    ensures ActiveAfter(high, low, seen + [ratio]) == NextActive(high, low, ActiveAfter(high, low, seen), ratio)
    ensures ActiveAfter(high, low, seen + [ratio]) <==> LastDecisiveWasHigh(high, low, seen + [ratio])
  {
    assert (seen + [ratio])[..|seen|] == seen;
    ActiveIffLastDecisiveWasHigh(high, low, seen + [ratio]);
  }

  class BackpressureController {
    const queueManager: QueueManager
    const highWatermark: real
    const lowWatermark: real
    var capacityOverride: Option<int>
    var depthOverride: Option<int>
    var isActive: bool
    var totalThrottled: nat
    /** Every ratio ever compared with the watermarks. */
    ghost var seen: seq<real>

    constructor (qm: QueueManager, high: real, low: real, capacityOverride: Option<int>)
      ensures queueManager == qm && highWatermark == high && lowWatermark == low
      ensures this.capacityOverride == capacityOverride && depthOverride == None
      ensures !isActive && totalThrottled == 0 && seen == [] && Hysteresis()
    {
      queueManager, highWatermark, lowWatermark := qm, high, low;
      this.capacityOverride, depthOverride := capacityOverride, None;
      isActive, totalThrottled, seen := false, 0, [];
    }

    ghost predicate Hysteresis()
      reads `isActive, `seen
    {
      isActive == ActiveAfter(highWatermark, lowWatermark, seen)
    }

    function TotalCapacity(): (n: nat)
      reads `capacityOverride
      ensures capacityOverride.Some? ==> n >= 1 && n >= capacityOverride.value && (n == 1 || n == capacityOverride.value)
      ensures capacityOverride == None ==> n == queueManager.TotalCapacity()
    {
      if capacityOverride.None? then queueManager.TotalCapacity()
      else if capacityOverride.value < 1 then 1 else capacityOverride.value
    }

    ghost function Configured(): Settings
      reads `capacityOverride, `depthOverride
    {
      Settings(highWatermark, lowWatermark, TotalCapacity(), depthOverride, 0, 0, 0)
    }

    ghost function State(): Site
      reads this, queueManager.dispatcher, queueManager.dispatcher.critical, queueManager.dispatcher.normal,
            queueManager.dispatcher.bestEffort
    {
      Site(queueManager.State(), isActive, totalThrottled, seen, [], 0)
    }

    method SetCapacityOverride(capacity: Option<int>)
      modifies `capacityOverride
      ensures capacityOverride == capacity
      ensures capacity.Some? ==> TotalCapacity() >= 1
    {
      capacityOverride := capacity;
    }

    method SetDepthOverride(depth: Option<int>)
      modifies `depthOverride
      ensures depthOverride == depth
    {
      depthOverride := depth;
    }

    /** The depth a reading is based on: as given, as overridden, or as queued. */
    function DepthFor(currentDepth: Option<int>): (d: int)
      reads `depthOverride, queueManager.dispatcher.critical, queueManager.dispatcher.normal,
            queueManager.dispatcher.bestEffort
      ensures currentDepth.Some? ==> d == currentDepth.value
      ensures currentDepth == None && depthOverride.Some? ==>
        d >= 0 && d >= depthOverride.value && (d == 0 || d == depthOverride.value)
      ensures currentDepth == None && depthOverride == None ==> d == queueManager.TotalDepth()
    {
      if currentDepth.Some? then currentDepth.value
      else if depthOverride.None? then queueManager.TotalDepth()
      else if depthOverride.value < 0 then 0 else depthOverride.value
    }

    /** On after the call exactly when the last ratio seen outside the band was high. */
    method Compare(ratio: real)
      requires Hysteresis()
      modifies `isActive, `seen
      ensures Hysteresis() && seen == old(seen) + [ratio]
      ensures isActive <==> LastDecisiveWasHigh(highWatermark, lowWatermark, seen)
    {
      if ratio >= highWatermark {
        isActive := true;
      } else if ratio < lowWatermark {
        isActive := false;
      }
      OneMoreReading(highWatermark, lowWatermark, seen, ratio);
      seen := seen + [ratio];
    }

    method UpdateState(currentDepth: Option<int>) returns (active: bool)
      requires Hysteresis()
      modifies `isActive, `seen
      ensures Hysteresis() && active == isActive
      ensures seen == old(seen) + [RatioOf(DepthFor(currentDepth), TotalCapacity())]
    {
      Compare(RatioOf(DepthFor(currentDepth), TotalCapacity()));
      return isActive;
    }

    /** CRITICAL is never throttled; anything else is while the gate is closed. */
    method ShouldThrottle(p: Priority, currentDepth: Option<int>) returns (throttle: bool)
      requires Hysteresis()
      modifies `isActive, `seen, `totalThrottled
      ensures Hysteresis() && throttle == (isActive && p != Critical)
      ensures totalThrottled == old(totalThrottled) + if throttle then 1 else 0
      ensures seen == old(seen) + [RatioOf(DepthFor(currentDepth), TotalCapacity())]
    {
      var active := UpdateState(currentDepth);
      if !active || p == Critical {
        return false;
      }
      totalThrottled := totalThrottled + 1;
      return true;
    }
  }

  /** A reading that extends the folded history is the site's own observation. */
  lemma ReadingIsObserve(c: Settings, s: Site, active: bool, seen: seq<real>)
    requires s.active == ActiveAfter(c.high, c.low, s.seen) && active == ActiveAfter(c.high, c.low, seen)
    requires seen == s.seen + [RatioOf(Depth(c, s.lanes), c.capacity)]
    ensures Observe(c, s) == s.(active := active, seen := seen)
  {
    assert seen[..|seen| - 1] == s.seen;
  }

  /** How many of the first `n` events are counted under a lane. */
  function Classified(es: seq<Event>, p: Priority, n: nat): nat
    requires n <= |es|
  {
    if n == 0 then 0 else Classified(es, p, n - 1) + if LaneFor(es[n - 1]) == p then 1 else 0
  }

  lemma {:induction false} ClassifiedIsBound(es: seq<Event>, p: Priority, now: real, n: nat)
    requires n <= |es|
    ensures Classified(es, p, n) == |Bound(es[..n], p, now)|
  {
    if n > 0 {
      ClassifiedIsBound(es, p, now, n - 1);
      assert es[..n][..n - 1] == es[..n - 1];
    }
  }

  predicate Tallies(counts: map<Priority, nat>, es: seq<Event>, n: nat)
    requires n <= |es|
  {
    && Critical in counts && counts[Critical] == Classified(es, Critical, n)
    && Normal in counts && counts[Normal] == Classified(es, Normal, n)
    && BestEffort in counts && counts[BestEffort] == Classified(es, BestEffort, n)
  }

  function Tallied(counts: map<Priority, nat>, p: Priority): map<Priority, nat> {
    counts[p := (if p in counts then counts[p] else 0) + 1]
  }

  lemma TalliesNext(counts: map<Priority, nat>, es: seq<Event>, n: nat)
    requires n < |es| && Tallies(counts, es, n)
    ensures Tallies(Tallied(counts, LaneFor(es[n])), es, n + 1)
  {
  }

  lemma TalliesAreBound(counts: map<Priority, nat>, es: seq<Event>, now: real)
    requires Tallies(counts, es, |es|)
    ensures forall p: Priority :: p in counts && counts[p] == |Bound(es, p, now)|
  {
    assert es[..|es|] == es;
    forall p: Priority
      ensures p in counts && counts[p] == |Bound(es, p, now)|
    {
      ClassifiedIsBound(es, p, now, |es|);
      TallyOf(counts, es, p);
    }
  }

  lemma TallyOf(counts: map<Priority, nat>, es: seq<Event>, p: Priority)
    requires Tallies(counts, es, |es|)
    ensures p in counts && counts[p] == Classified(es, p, |es|)
  {
    match p
    case Critical =>
    case Normal =>
    case BestEffort =>
  }

  class IngestionApi {
    const controller: BackpressureController
    /** False when the enqueue handler has been removed; the adaptive handler is
        `DecisionEngines.DecisionEngine.IngestOne`. */
    var routed: bool

    constructor (controller: BackpressureController)
      ensures this.controller == controller && routed
    {
      this.controller := controller;
      routed := true;
    }

    ghost predicate Valid()
      reads this, controller, controller.queueManager.dispatcher, controller.queueManager.dispatcher.critical,
            controller.queueManager.dispatcher.normal, controller.queueManager.dispatcher.bestEffort
    {
      controller.queueManager.Valid() && controller.Hysteresis()
    }

    ghost function State(): Site
      reads this, controller, controller.queueManager.dispatcher, controller.queueManager.dispatcher.critical,
            controller.queueManager.dispatcher.normal, controller.queueManager.dispatcher.bestEffort
    {
      controller.State()
    }

    ghost function Registered(): Handler
      reads `routed
    {
      if routed then Default else NoHandler
    }

    method CheckGate(p: Priority) returns (throttle: bool)
      requires Valid()
      modifies controller`isActive, controller`seen, controller`totalThrottled
      ensures Valid()
      ensures throttle == Rejects(controller.Configured(), old(State()), p)
      ensures State() == Observe(controller.Configured(), old(State())).(throttled := controller.totalThrottled)
      ensures controller.totalThrottled == old(controller.totalThrottled) + if throttle then 1 else 0
    {
      ghost var before, c := State(), controller.Configured();
      throttle := controller.ShouldThrottle(p, None);
      ReadingIsObserve(c, before, controller.isActive, controller.seen);
    }

    /** Hands the event to the handler, if there is one; `fails` is where it raises, having
        queued nothing. */
    method Forward(e: Event, p: Priority, fails: bool) returns (ok: bool)
      requires Valid()
      modifies controller.queueManager.dispatcher.critical, controller.queueManager.dispatcher.normal,
               controller.queueManager.dispatcher.bestEffort
      ensures Valid() && ok == !(routed && fails)
      ensures State() == if routed && !fails then
                           old(State()).(lanes := Push(old(State()).lanes, p, e.(priority := Some(p))))
                         else old(State())
    {
      if !routed {
        return true;
      }
      if fails {
        return false;
      }
      controller.queueManager.Enqueue(e, p);
      return true;
    }

    /** The gate, and then the handler: the answer, and the site case by case. */
    method Handle(e: Event, now: real, fails: bool) returns (answer: Answer)
      requires Valid()
      modifies controller`isActive, controller`seen, controller`totalThrottled,
               controller.queueManager.dispatcher.critical, controller.queueManager.dispatcher.normal,
               controller.queueManager.dispatcher.bestEffort
      ensures Valid()
      ensures State() == Outcome(controller.Configured(), Registered(), old(State()), e, now, fails)
      ensures Answers(controller.Configured(), Registered(), old(State()), e, fails, answer)
    {
      var received := EnsurePriority(e.(receivedAt := Some(now)));
      var p := received.priority.value;
      var throttle := CheckGate(p);
      if throttle {
        return TooManyRequests;
      }
      var ok := Forward(received, p, fails);
      return if ok then Accepted else Unavailable;
    }

    method IngestOne(e: Event, now: real, fails: bool) returns (answer: Answer)
      requires Valid()
      modifies controller`isActive, controller`seen, controller`totalThrottled,
               controller.queueManager.dispatcher.critical, controller.queueManager.dispatcher.normal,
               controller.queueManager.dispatcher.bestEffort
      ensures Valid()
      ensures State() == Offer(controller.Configured(), Registered(), old(State()), e, now, fails)
      ensures controller.totalThrottled == old(controller.totalThrottled) + if answer == TooManyRequests then 1 else 0
      ensures Answers(controller.Configured(), Registered(), old(State()), e, fails, answer)
      ensures LaneFor(e) == Critical ==> answer != TooManyRequests
    {
      OfferCases(controller.Configured(), Registered(), State(), e, now, fails);
      answer := Handle(e, now, fails);
    }

    /** One turn of the loop of the batch endpoint, for a batch that began at the site `before`. */
    method IngestNext(events: seq<Event>, fails: seq<bool>, now: real, i: nat, accepted: nat,
                      counts: map<Priority, nat>, ghost c: Settings, ghost h: Handler, ghost before: Site)
      returns (more: nat, tallied: map<Priority, nat>)
      requires Valid() && i < |events| == |fails| && accepted <= i && Tallies(counts, events, i)
      requires c == controller.Configured() && h == Registered()
      requires Offered(c, h, before, State(), events, fails, now, i, accepted)
      modifies controller`isActive, controller`seen, controller`totalThrottled,
               controller.queueManager.dispatcher.critical, controller.queueManager.dispatcher.normal,
               controller.queueManager.dispatcher.bestEffort
      ensures Valid() && more <= i + 1 && Tallies(tallied, events, i + 1)
      ensures Offered(c, h, before, State(), events, fails, now, i + 1, more)
    {
      TalliesNext(counts, events, i);
      tallied := Tallied(counts, LaneFor(events[i]));
      ghost var offered := State();
      var answer := IngestOne(events[i], now, fails[i]);
      OfferedNext(c, h, before, offered, events, fails, now, i, accepted, answer);
      more := if answer == Accepted then accepted + 1 else accepted;
    }

    /** The loop of the batch endpoint. `fails[i]` is where the handler would raise on the i-th event. */
    method IngestEach(events: seq<Event>, fails: seq<bool>, now: real)
      returns (accepted: nat, priorityCounts: map<Priority, nat>)
      requires Valid() && |fails| == |events|
      modifies controller`isActive, controller`seen, controller`totalThrottled,
               controller.queueManager.dispatcher.critical, controller.queueManager.dispatcher.normal,
               controller.queueManager.dispatcher.bestEffort
      ensures Valid()
      ensures Offered(controller.Configured(), Registered(), old(State()), State(), events, fails, now, |events|, accepted)
      ensures accepted <= |events| && Tallies(priorityCounts, events, |events|)
    {
      ghost var before, c, h := State(), controller.Configured(), Registered();
      accepted, priorityCounts := 0, map[Critical := 0, Normal := 0, BestEffort := 0];
      var i := 0;
      while i < |events|
        modifies controller`isActive, controller`seen, controller`totalThrottled,
                 controller.queueManager.dispatcher.critical, controller.queueManager.dispatcher.normal,
                 controller.queueManager.dispatcher.bestEffort
        invariant i <= |events| && Valid() && accepted <= i
        invariant Offered(c, h, before, State(), events, fails, now, i, accepted)
        invariant Tallies(priorityCounts, events, i)
      {
        accepted, priorityCounts := IngestNext(events, fails, now, i, accepted, priorityCounts, c, h, before);
        i := i + 1;
      }
    }

    /** Every event is accepted or rejected and counted under its lane, and the lanes and the
        gate end as the events, taken in order, leave them. */
    method IngestBatch(events: seq<Event>, fails: seq<bool>, now: real)
      returns (accepted: nat, rejected: nat, priorityCounts: map<Priority, nat>)
      requires Valid() && |fails| == |events|
      modifies controller`isActive, controller`seen, controller`totalThrottled,
               controller.queueManager.dispatcher.critical, controller.queueManager.dispatcher.normal,
               controller.queueManager.dispatcher.bestEffort
      ensures Valid()
      ensures State() == OfferTo(controller.Configured(), Registered(), old(State()), events, fails, now, |events|)
      ensures accepted + rejected == |events|
      ensures rejected == controller.totalThrottled - old(controller.totalThrottled)
                          + FailedTo(controller.Configured(), Registered(), old(State()), events, fails, now, |events|)
      ensures NoneFails(fails) ==>
        && State() == ArriveAll(controller.Configured(), Registered(), old(State()), events, now)
        && accepted == AcceptedOf(controller.Configured(), Registered(), old(State()), events, now)
      ensures forall p: Priority :: p in priorityCounts && priorityCounts[p] == |Bound(events, p, now)|
    {
      if NoneFails(fails) {
        ReliableOffers(controller.Configured(), Registered(), State(), events, fails, now, |events|);
        assert events[..|events|] == events;
      }
      accepted, priorityCounts := IngestEach(events, fails, now);
      TalliesAreBound(priorityCounts, events, now);
      rejected := |events| - accepted;
    }
  }

  /** 202, 429 and 503. */
  datatype Answer = Accepted | TooManyRequests | Unavailable

  /** One arrival whose handler may fail: the gate is read all the same. */
  function Offer(c: Settings, h: Handler, s: Site, e: Event, now: real, fails: bool): Site {
    Arrive(c, if fails then NoHandler else h, s, e, now)
  }

  function Outcome(c: Settings, h: Handler, s: Site, e: Event, now: real, fails: bool): Site {
    var o := Observe(c, s);
    if Rejects(c, s, LaneFor(e)) then o.(throttled := o.throttled + 1)
    else if h == Default && !fails then o.(lanes := Push(o.lanes, LaneFor(e), Received(e, now)))
    else o
  }

  lemma OfferCases(c: Settings, h: Handler, s: Site, e: Event, now: real, fails: bool)
    requires Unbounded(c) && !h.Adaptive?
    ensures Offer(c, h, s, e, now, fails) == Outcome(c, h, s, e, now, fails)
    ensures Outcome(c, h, s, e, now, fails).throttled == s.throttled + if Rejects(c, s, LaneFor(e)) then 1 else 0
  {
  }

  /** The site after the first `n` offers of a batch. */
  function OfferTo(c: Settings, h: Handler, s: Site, es: seq<Event>, fails: seq<bool>, now: real, n: nat): Site
    requires n <= |es| == |fails|
  {
    if n == 0 then s else Offer(c, h, OfferTo(c, h, s, es, fails, now, n - 1), es[n - 1], now, fails[n - 1])
  }

  /** How many of them passed the gate to a handler that raised. */
  function FailedTo(c: Settings, h: Handler, s: Site, es: seq<Event>, fails: seq<bool>, now: real, n: nat): nat
    requires n <= |es| == |fails|
  {
    if n == 0 then 0
    else
      var before := OfferTo(c, h, s, es, fails, now, n - 1);
      FailedTo(c, h, s, es, fails, now, n - 1)
      + if !Rejects(c, before, LaneFor(es[n - 1])) && h != NoHandler && fails[n - 1] then 1 else 0
  }

  predicate NoneFails(fails: seq<bool>) {
    forall i :: 0 <= i < |fails| ==> !fails[i]
  }

  /** The site after `n` offers, `accepted` of which were neither throttled nor failed. */
  predicate Offered(c: Settings, h: Handler, s: Site, t: Site, es: seq<Event>, fails: seq<bool>, now: real, n: nat,
                    accepted: int)
    requires n <= |es| == |fails|
  {
    && t == OfferTo(c, h, s, es, fails, now, n)
    && accepted == n - (t.throttled - s.throttled) - FailedTo(c, h, s, es, fails, now, n)
  }

  /** What the answer to one offer says. */
  predicate Answers(c: Settings, h: Handler, s: Site, e: Event, fails: bool, answer: Answer) {
    && (answer == TooManyRequests <==> Rejects(c, s, LaneFor(e)))
    && (answer == Unavailable <==> !Rejects(c, s, LaneFor(e)) && h != NoHandler && fails)
  }

  lemma OfferedNext(c: Settings, h: Handler, s: Site, t: Site, es: seq<Event>, fails: seq<bool>, now: real, n: nat,
                    accepted: int, answer: Answer)
    requires n < |es| == |fails| && Offered(c, h, s, t, es, fails, now, n, accepted)
    requires Answers(c, h, t, es[n], fails[n], answer)
    ensures Offered(c, h, s, Offer(c, h, t, es[n], now, fails[n]), es, fails, now, n + 1,
                    if answer == Accepted then accepted + 1 else accepted)
  {
  }

  /** With a handler that does not fail, the batch arrives as `Admission` says. */
  lemma {:induction false} ReliableOffers(c: Settings, h: Handler, s: Site, es: seq<Event>, fails: seq<bool>, now: real,
                                          n: nat)
    requires n <= |es| == |fails| && NoneFails(fails)
    ensures OfferTo(c, h, s, es, fails, now, n) == ArriveAll(c, h, s, es[..n], now)
    ensures FailedTo(c, h, s, es, fails, now, n) == 0
  {
    if n > 0 {
      ReliableOffers(c, h, s, es, fails, now, n - 1);
      assert es[..n][..n - 1] == es[..n - 1];
    }
  }
}
