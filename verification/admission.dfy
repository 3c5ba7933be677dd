/** Ingestion under backpressure: the watermark hysteresis, what a batch admits, and the
    depth bound over every run of arrivals, pulls, requeues and late queue entries. */
module Admission {
  import opened Contracts
  import opened Aging
  import Pressure

  /** `capacity` is the total the depth is measured against; `pinned` overrides the depth; a
      lane limit of 0 is none. */
  datatype Settings = Settings(high: real, low: real, capacity: nat, pinned: Option<int>,
                               maxCritical: nat, maxNormal: nat, maxBestEffort: nat)

  /** What the adaptive handler reads beside the depths of the lanes: the figures of the system,
      the sampler's rate, and the number the sampler draws for the event. */
  datatype Surroundings = Surroundings(utilization: real, ingress: real, processing: real, latencyMs: real,
                                       rate: real, draw: real)

  /** What is registered to take an event that the gate lets through: nothing, the queue
      manager, which is the default, or the decision engine, which the application registers
      when it starts. */
  datatype Handler = NoHandler | Default | Adaptive(around: Surroundings)

  /** `seen` holds every utilisation ratio observed, `waiting` the events whose put is
      suspended on a full lane, `late` how many of those entered NORMAL or BEST_EFFORT. */
  datatype Site = Site(lanes: Lanes, active: bool, throttled: nat, seen: seq<real>, waiting: seq<Event>, late: nat)

  function Limit(c: Settings, p: Priority): nat {
    match p
    case Critical => c.maxCritical
    case Normal => c.maxNormal
    case BestEffort => c.maxBestEffort
  }

  predicate FullLane(c: Settings, d: Lanes, p: Priority) {
    0 < Limit(c, p) <= |LaneOf(d, p)|
  }

  predicate Unbounded(c: Settings) {
    c.maxCritical == 0 && c.maxNormal == 0 && c.maxBestEffort == 0
  }

  function TotalDepth(d: Lanes): nat {
    |d.critical| + |d.normal| + |d.bestEffort|
  }

  function Ordinary(d: Lanes): nat {
    |d.normal| + |d.bestEffort|
  }

  function Depth(c: Settings, d: Lanes): int {
    if c.pinned == None then TotalDepth(d) else if c.pinned.value < 0 then 0 else c.pinned.value
  }

  // ---- The watermark gate ----

  function RatioOf(depth: int, capacity: int): real {
    if capacity > 0 then depth as real / capacity as real else 0.0
  }

  /** The ratio is the depth as a share of the capacity, and zero where there is none. */
  lemma RatioIsShare(depth: int, capacity: int)
    ensures capacity > 0 ==> RatioOf(depth, capacity) * capacity as real == depth as real
    ensures capacity <= 0 ==> RatioOf(depth, capacity) == 0.0
  {
  }

  function NextActive(high: real, low: real, active: bool, ratio: real): bool {
    if ratio >= high then true else if ratio < low then false else active
  }

  function ActiveAfter(high: real, low: real, seen: seq<real>): bool {
    seen != [] && NextActive(high, low, ActiveAfter(high, low, seen[..|seen| - 1]), seen[|seen| - 1])
  }

  predicate Decisive(high: real, low: real, ratio: real) {
    ratio >= high || ratio < low
  }

  /** The `i`-th ratio was high, and none since was outside the band. */
  ghost predicate HighAndSinceUndecided(high: real, low: real, seen: seq<real>, i: nat) {
    i < |seen| && seen[i] >= high && forall j: nat :: i < j < |seen| ==> !Decisive(high, low, seen[j])
  }

  /** The last observed ratio outside the band is at or above the high watermark. */
  ghost predicate LastDecisiveWasHigh(high: real, low: real, seen: seq<real>) {
    exists i: nat :: HighAndSinceUndecided(high, low, seen, i)
  }

  /** Hysteresis, exactly: backpressure is on if and only if the last ratio seen outside
      `[low, high)` was high. */
  lemma {:induction false} ActiveIffLastDecisiveWasHigh(high: real, low: real, seen: seq<real>)
    ensures ActiveAfter(high, low, seen) <==> LastDecisiveWasHigh(high, low, seen)
  {
    if seen != [] {
      var n := |seen| - 1;
      ActiveIffLastDecisiveWasHigh(high, low, seen[..n]);
      if Decisive(high, low, seen[n]) {
        DecidedNow(high, low, seen);
      } else {
        UndecidedNow(high, low, seen);
      }
    }
  }

  lemma DecidedNow(high: real, low: real, seen: seq<real>)
    requires seen != [] && Decisive(high, low, seen[|seen| - 1])
    ensures LastDecisiveWasHigh(high, low, seen) <==> seen[|seen| - 1] >= high
  {
    var n: nat := |seen| - 1;
    if seen[n] >= high {
      assert HighAndSinceUndecided(high, low, seen, n);
    }
    if i: nat :| HighAndSinceUndecided(high, low, seen, i) {
      assert i == n;
    }
  }

  lemma UndecidedAt(high: real, low: real, seen: seq<real>, i: nat)
    requires seen != [] && !Decisive(high, low, seen[|seen| - 1])
    ensures HighAndSinceUndecided(high, low, seen, i) <==> HighAndSinceUndecided(high, low, seen[..|seen| - 1], i)
  {
    var n: nat := |seen| - 1;
    if HighAndSinceUndecided(high, low, seen[..n], i) {
      forall j: nat | i < j < |seen|
        ensures !Decisive(high, low, seen[j])
      {
        if j < n {
          assert !Decisive(high, low, seen[..n][j]);
        }
      }
    }
    if HighAndSinceUndecided(high, low, seen, i) {
      assert i != n;
      forall j: nat | i < j < n
        ensures !Decisive(high, low, seen[..n][j])
      {
        assert !Decisive(high, low, seen[j]);
      }
    }
  }

  lemma UndecidedNow(high: real, low: real, seen: seq<real>)
    requires seen != [] && !Decisive(high, low, seen[|seen| - 1])
    ensures LastDecisiveWasHigh(high, low, seen) <==> LastDecisiveWasHigh(high, low, seen[..|seen| - 1])
  {
    var before := seen[..|seen| - 1];
    if i: nat :| HighAndSinceUndecided(high, low, seen, i) {
      UndecidedAt(high, low, seen, i);
      assert HighAndSinceUndecided(high, low, before, i);
    }
    if i: nat :| HighAndSinceUndecided(high, low, before, i) {
      UndecidedAt(high, low, seen, i);
      assert HighAndSinceUndecided(high, low, seen, i);
    }
  }

  // ---- How often the gate can flip ----

  function Toggles(high: real, low: real, seen: seq<real>): nat {
    if seen == [] then 0
    else
      var before := seen[..|seen| - 1];
      Toggles(high, low, before) + if ActiveAfter(high, low, seen) != ActiveAfter(high, low, before) then 1 else 0
  }

  function Gap(a: real, b: real): real {
    if a < b then b - a else a - b
  }

  /** The total distance the ratio has travelled. */
  function Travel(seen: seq<real>): real {
    if |seen| < 2 then 0.0 else Travel(seen[..|seen| - 1]) + Gap(seen[|seen| - 2], seen[|seen| - 1])
  }

  /** Distance already covered towards the watermark that would flip the gate next. */
  function Headway(high: real, low: real, active: bool, ratio: real): real {
    var h := if active then high - ratio else ratio - low;
    if h < 0.0 then 0.0 else h
  }

  function Times(n: nat, w: real): real {
    if n == 0 then 0.0 else Times(n - 1, w) + w
  }

  lemma {:induction false} TimesIsProduct(n: nat, w: real)
    ensures Times(n, w) == n as real * w
  {
    if n > 0 {
      TimesIsProduct(n - 1, w);
      assert n as real == (n - 1) as real + 1.0;
      assert ((n - 1) as real + 1.0) * w == (n - 1) as real * w + w;
    }
  }

  function Widths(n: nat, w: real): real {
    n as real * w
  }

  lemma ProductBelow(n: nat, w: real, x: real)
    requires Times(n, w) <= x
    ensures Widths(n, w) <= x
  {
    TimesIsProduct(n, w);
  }

  ghost predicate Covered(high: real, low: real, toggles: nat, active: bool, ratio: real, travel: real) {
    && 0.0 <= travel
    && (toggles > 0 ==> Times(toggles - 1, high - low) + Headway(high, low, active, ratio) <= travel)
  }

  lemma OneMoreRatio(high: real, low: real, toggles: nat, active: bool, ratio: real, travel: real, next: real)
    requires low <= high && Covered(high, low, toggles, active, ratio, travel)
    requires toggles == 0 ==> !active
    ensures var flipped := NextActive(high, low, active, next) != active;
      Covered(high, low, if flipped then toggles + 1 else toggles, NextActive(high, low, active, next), next,
              travel + Gap(ratio, next))
  {
  }

  lemma {:induction false} TogglesNeedTravel(high: real, low: real, seen: seq<real>)
    requires low <= high && seen != []
    ensures Covered(high, low, Toggles(high, low, seen), ActiveAfter(high, low, seen), seen[|seen| - 1], Travel(seen))
    ensures Toggles(high, low, seen) == 0 ==> !ActiveAfter(high, low, seen)
  {
    var n := |seen| - 1;
    var before := seen[..n];
    if n == 0 {
      assert before == [];
    } else {
      TogglesNeedTravel(high, low, before);
      assert before[n - 1] == seen[n - 1];
      var toggles, active := Toggles(high, low, before), ActiveAfter(high, low, before);
      OneMoreRatio(high, low, toggles, active, seen[n - 1], Travel(before), seen[n]);
    }
  }

  /** No chattering: between flips the ratio has to cross the whole band, so the number of
      flips is at most one more than the distance travelled over the width of the band. */
  lemma FlipsCrossTheBand(high: real, low: real, seen: seq<real>)
    requires low <= high && seen != [] && Toggles(high, low, seen) > 0
    ensures Widths(Toggles(high, low, seen) - 1, high - low) <= Travel(seen)
  {
    assert Times(Toggles(high, low, seen) - 1, high - low) <= Travel(seen) by {
      TogglesNeedTravel(high, low, seen);
    }
    ProductBelow(Toggles(high, low, seen) - 1, high - low, Travel(seen));
  }

  // ---- One arrival ----

  function Received(e: Event, now: real): Event {
    EnsurePriority(e.(receivedAt := Some(now)))
  }

  function Observe(c: Settings, s: Site): Site {
    var ratio := RatioOf(Depth(c, s.lanes), c.capacity);
    s.(active := NextActive(c.high, c.low, s.active, ratio), seen := s.seen + [ratio])
  }

  predicate Rejects(c: Settings, s: Site, p: Priority) {
    Observe(c, s).active && p != Critical
  }

  function Push(d: Lanes, p: Priority, e: Event): Lanes {
    Do(d, Enqueue(p, e)).0
  }

  function LoadOf(d: Lanes, around: Surroundings): Pressure.Load {
    Pressure.Load(|d.critical|, |d.normal|, |d.bestEffort|, around.utilization, around.ingress, around.processing,
                  around.latencyMs)
  }

  /** The capacity the decision engine scores the queues against. */
  const SCORED_CAPACITY: Option<int> := Some(Pressure.DEFAULT_QUEUE_CAPACITY)

  /** Whether the handler queues an event. The adaptive one goes by the type, and may shed it or
      sample it out and return as if nothing had happened. */
  predicate Queues(h: Handler, d: Lanes, e: Event) {
    match h
    case NoHandler => false
    case Default => true
    case Adaptive(around) =>
      var strategy := Pressure.Decide(Classify(e.eventType), Pressure.PressureState(LoadOf(d, around), SCORED_CAPACITY));
      Pressure.Kept(strategy, Pressure.Drawn(around.draw, around.rate))
  }

  /** The lane the handler puts an event on: the adaptive one overrides what the event asks for. */
  function Destination(h: Handler, e: Event): Priority {
    if h.Adaptive? then Classify(e.eventType) else LaneFor(e)
  }

  /** A put waits while the lane is full. */
  function Deliver(c: Settings, s: Site, p: Priority, e: Event): Site {
    if FullLane(c, s.lanes, p) then s.(waiting := s.waiting + [e]) else s.(lanes := Push(s.lanes, p, e))
  }

  function Arrive(c: Settings, h: Handler, s: Site, e: Event, now: real): Site {
    var p := Destination(h, e);
    var o := Observe(c, s);
    if Rejects(c, s, LaneFor(e)) then o.(throttled := o.throttled + 1)
    else if !Queues(h, o.lanes, e) then o
    else Deliver(c, o, p, Received(e.(priority := Some(p)), now))
  }

  /** One ordinary arrival at the default handler that the gate lets through: the event, received
      now and on the lane it asks for, is last on that lane, or waits if the lane is full; no
      other lane changes. */
  lemma AdmittedLands(c: Settings, s: Site, e: Event, now: real, p: Priority)
    requires !Rejects(c, s, LaneFor(e))
    ensures var t := Arrive(c, Default, s, e, now);
      var x := e.(receivedAt := Some(now), priority := Some(LaneFor(e)));
      && t.throttled == s.throttled
      && (p != LaneFor(e) ==> LaneOf(t.lanes, p) == LaneOf(s.lanes, p))
      && (if 0 < Limit(c, LaneFor(e)) <= |LaneOf(s.lanes, LaneFor(e))| then
            t.lanes == s.lanes && t.waiting == s.waiting + [x]
          else
            LaneOf(t.lanes, LaneFor(e)) == LaneOf(s.lanes, LaneFor(e)) + [x] && t.waiting == s.waiting)
  {
  }

  /** One that the gate turns away is counted and leaves no trace. */
  lemma RejectedLeavesNoTrace(c: Settings, h: Handler, s: Site, e: Event, now: real)
    requires Rejects(c, s, LaneFor(e))
    ensures var t := Arrive(c, h, s, e, now);
      t.lanes == s.lanes && t.waiting == s.waiting && t.throttled == s.throttled + 1 && LaneFor(e) != Critical
  {
  }

  // ---- A batch ----

  function ArriveAll(c: Settings, h: Handler, s: Site, es: seq<Event>, now: real): Site {
    if es == [] then s else Arrive(c, h, ArriveAll(c, h, s, es[..|es| - 1], now), es[|es| - 1], now)
  }

  /** The events of a batch bound for one lane, as they are queued, in order. */
  function Bound(es: seq<Event>, p: Priority, now: real): seq<Event> {
    if es == [] then []
    else Bound(es[..|es| - 1], p, now) + if LaneFor(es[|es| - 1]) == p then [Received(es[|es| - 1], now)] else []
  }

  /** Every event of a batch is bound for exactly one lane. */
  lemma {:induction false} BoundPartition(es: seq<Event>, now: real)
    ensures |Bound(es, Critical, now)| + |Bound(es, Normal, now)| + |Bound(es, BestEffort, now)| == |es|
  {
    if es != [] {
      BoundPartition(es[..|es| - 1], now);
    }
  }

  /** With the default handler no CRITICAL event of a batch is ever throttled: all of them are
      queued, in order. */
  lemma {:induction false} BatchAdmitsAllCritical(c: Settings, s: Site, es: seq<Event>, now: real)
    requires c.maxCritical == 0
    ensures ArriveAll(c, Default, s, es, now).lanes.critical == s.lanes.critical + Bound(es, Critical, now)
  {
    if es == [] {
      assert s.lanes.critical + [] == s.lanes.critical;
    } else {
      BatchAdmitsAllCritical(c, s, es[..|es| - 1], now);
    }
  }

  /** Conservation, with the default handler: what a batch adds to the lanes plus what waits on
      full ones plus what it throttles is the batch. */
  lemma {:induction false} BatchIsAccounted(c: Settings, s: Site, es: seq<Event>, now: real)
    ensures var t := ArriveAll(c, Default, s, es, now);
      TotalDepth(t.lanes) + |t.waiting| + t.throttled == TotalDepth(s.lanes) + |s.waiting| + s.throttled + |es|
    ensures Unbounded(c) ==> ArriveAll(c, Default, s, es, now).waiting == s.waiting
  {
    if es != [] {
      BatchIsAccounted(c, s, es[..|es| - 1], now);
    }
  }

  function AcceptedOf(c: Settings, h: Handler, s: Site, es: seq<Event>, now: real): int {
    |es| - (ArriveAll(c, h, s, es, now).throttled - s.throttled)
  }

  function Ordinaries(es: seq<Event>): nat {
    if es == [] then 0 else Ordinaries(es[..|es| - 1]) + if LaneFor(es[|es| - 1]) == Critical then 0 else 1
  }

  predicate AnyCritical(es: seq<Event>) {
    exists i :: 0 <= i < |es| && LaneFor(es[i]) == Critical
  }

  lemma {:induction false} AllOrdinaryIff(es: seq<Event>)
    ensures Ordinaries(es) <= |es|
    ensures Ordinaries(es) == |es| <==> !AnyCritical(es)
  {
    if es != [] {
      var n := |es| - 1;
      AllOrdinaryIff(es[..n]);
      if AnyCritical(es[..n]) {
        var i :| 0 <= i < n && LaneFor(es[..n][i]) == Critical;
        assert LaneFor(es[i]) == Critical;
      }
      if !AnyCritical(es) {
        forall i | 0 <= i < n
          ensures LaneFor(es[..n][i]) != Critical
        {
          assert LaneFor(es[i]) != Critical;
        }
      }
    }
  }

  /** Looking at an unchanged depth again does not move the gate. */
  lemma LookingTwice(c: Settings, s: Site, t: Site)
    requires t.lanes == s.lanes && t.active == Observe(c, s).active
    ensures Observe(c, t).active == Observe(c, s).active
  {
  }

  /** Without a handler the gate does not move within a batch, so a closed one throttles every
      event but the CRITICAL ones and an open one none. */
  lemma {:induction false} UnroutedThrottles(c: Settings, s: Site, es: seq<Event>, now: real)
    ensures ArriveAll(c, NoHandler, s, es, now).lanes == s.lanes
    ensures es != [] ==> ArriveAll(c, NoHandler, s, es, now).active == Observe(c, s).active
    ensures ArriveAll(c, NoHandler, s, es, now).throttled
         == s.throttled + if Observe(c, s).active then Ordinaries(es) else 0
  {
    if es != [] {
      var n := |es| - 1;
      var before := ArriveAll(c, NoHandler, s, es[..n], now);
      UnroutedThrottles(c, s, es[..n], now);
      if n == 0 {
        assert before == s;
      } else {
        LookingTwice(c, s, before);
      }
    }
  }

  /** The accepted count is the number of events queued if and only if a handler is
      registered, or there is nothing to accept: no event at all, or a gate that closes on
      the first and no CRITICAL event to pass it. The handler is the default one; for the one the
      application registers see `AdaptiveAdmission`. */
  lemma AcceptedMeansQueuedIff(c: Settings, h: Handler, s: Site, es: seq<Event>, now: real)
    requires Unbounded(c) && !h.Adaptive?
    ensures TotalDepth(ArriveAll(c, h, s, es, now).lanes) - TotalDepth(s.lanes) == AcceptedOf(c, h, s, es, now)
      <==> h == Default || es == [] || (Observe(c, s).active && !AnyCritical(es))
  {
    if h == Default {
      BatchIsAccounted(c, s, es, now);
    } else {
      UnroutedThrottles(c, s, es, now);
      AllOrdinaryIff(es);
    }
  }

  /** The failing case at one event: let through by the gate, counted as accepted, queued nowhere. */
  lemma UnroutedEventIsDropped(c: Settings, s: Site, e: Event, now: real)
    requires LaneFor(e) == Critical || !Observe(c, s).active
    ensures AcceptedOf(c, NoHandler, s, [e], now) == 1
    ensures var r := ArriveAll(c, NoHandler, s, [e], now); r.lanes == s.lanes && r.waiting == s.waiting
  {
    assert [e][..0] == [];
    assert ArriveAll(c, NoHandler, s, [e], now) == Arrive(c, NoHandler, s, e, now);
  }

  /** Once a batch has been throttled it stays throttled: nothing leaves a lane meanwhile. */
  predicate Shut(c: Settings, s: Site) {
    s.active && RatioOf(Depth(c, s.lanes), c.capacity) >= (if c.low <= c.high then c.low else c.high)
  }

  lemma DeeperRatio(depth: int, capacity: int)
    ensures RatioOf(depth, capacity) <= RatioOf(depth + 1, capacity)
  {
    if capacity > 0 {
      var k := capacity as real;
      assert depth as real <= (depth + 1) as real;
      DivideBy(depth as real, (depth + 1) as real, k);
    }
  }

  lemma DivideBy(a: real, b: real, k: real)
    requires a <= b && 0.0 < k
    ensures a / k <= b / k
  {
  }

  lemma ArriveKeepsShut(c: Settings, h: Handler, s: Site, e: Event, now: real)
    requires Shut(c, s)
    ensures Shut(c, Arrive(c, h, s, e, now))
    ensures LaneFor(e) != Critical ==> Arrive(c, h, s, e, now).lanes == s.lanes
  {
    DeeperRatio(Depth(c, s.lanes), c.capacity);
  }

  lemma RejectionShuts(c: Settings, h: Handler, s: Site, e: Event, now: real)
    requires Rejects(c, s, LaneFor(e))
    ensures Shut(c, Arrive(c, h, s, e, now))
  {
  }

  /** What a batch leaves when everything up to `cut` is let in and, after it, CRITICAL only. */
  predicate CutAt(c: Settings, h: Handler, s: Site, es: seq<Event>, now: real, cut: nat) {
    && cut <= |es|
    && ArriveAll(c, h, s, es, now).lanes.normal == s.lanes.normal + Bound(es[..cut], Normal, now)
    && ArriveAll(c, h, s, es, now).lanes.bestEffort == s.lanes.bestEffort + Bound(es[..cut], BestEffort, now)
  }

  lemma AdmittedBound(c: Settings, s: Site, normal: seq<Event>, bestEffort: seq<Event>, es: seq<Event>, now: real)
    requires es != [] && Unbounded(c) && !Rejects(c, s, LaneFor(es[|es| - 1]))
    requires s.lanes.normal == normal + Bound(es[..|es| - 1], Normal, now)
    requires s.lanes.bestEffort == bestEffort + Bound(es[..|es| - 1], BestEffort, now)
    ensures var t := Arrive(c, Default, s, es[|es| - 1], now);
      t.lanes.normal == normal + Bound(es, Normal, now) && t.lanes.bestEffort == bestEffort + Bound(es, BestEffort, now)
  {
  }

  /** With the default handler a batch is cut once: there is a point up to which NORMAL and
      BEST_EFFORT events are all admitted, in order, and after which none is; CRITICAL is
      admitted throughout. */
  lemma {:induction false} BatchIsCutOnce(c: Settings, s: Site, es: seq<Event>, now: real) returns (cut: nat)
    requires Unbounded(c)
    ensures CutAt(c, Default, s, es, now, cut)
    ensures cut < |es| ==> Shut(c, ArriveAll(c, Default, s, es, now))
  {
    if es == [] {
      cut := 0;
      assert s.lanes.normal + [] == s.lanes.normal && s.lanes.bestEffort + [] == s.lanes.bestEffort;
    } else {
      var n := |es| - 1;
      var before := ArriveAll(c, Default, s, es[..n], now);
      cut := BatchIsCutOnce(c, s, es[..n], now);
      assert es[..n][..cut] == es[..cut];
      if cut < n {
        ArriveKeepsShut(c, Default, before, es[n], now);
      } else if Rejects(c, before, LaneFor(es[n])) {
        RejectionShuts(c, Default, before, es[n], now);
      } else {
        AdmittedBound(c, before, s.lanes.normal, s.lanes.bestEffort, es, now);
        cut := n + 1;
        assert es[..n + 1] == es;
      }
    }
  }
}
