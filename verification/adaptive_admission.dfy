/** What becomes of an event behind the handler that the application registers, which sheds and
    samples by type and pressure and returns normally when it does. */
module AdaptiveAdmission {
  import opened Contracts
  import opened Admission
  import Pressure

  /** How many events a site holds, queued or waiting on a full lane. */
  function Holds(s: Site): nat {
    TotalDepth(s.lanes) + |s.waiting|
  }

  /** The arrival leaves one event more at the site, whatever the sampler draws. */
  ghost predicate QueuedOnEveryDraw(c: Settings, around: Surroundings, s: Site, e: Event, now: real) {
    forall draw :: Pressure.IsDraw(draw) ==>
      Holds(Arrive(c, Adaptive(around.(draw := draw)), s, e, now)) == Holds(s) + 1
  }

  lemma QueuedIff(c: Settings, around: Surroundings, s: Site, e: Event, now: real)
    requires !Rejects(c, s, LaneFor(e))
    ensures Holds(Arrive(c, Adaptive(around), s, e, now)) == Holds(s) + 1
       <==> Queues(Adaptive(around), s.lanes, e)
  {
  }

  lemma OneArrival(c: Settings, h: Handler, s: Site, e: Event, now: real)
    ensures ArriveAll(c, h, s, [e], now) == Arrive(c, h, s, e, now)
  {
    assert [e][..0] == [];
    assert ArriveAll(c, h, s, [], now) == s;
  }

  /** An arrival by cases, with lanes that cannot be full. */
  function Outcome(c: Settings, around: Surroundings, s: Site, e: Event, now: real): Site {
    var o := Observe(c, s);
    var p := Classify(e.eventType);
    if Rejects(c, s, LaneFor(e)) then o.(throttled := o.throttled + 1)
    else if Queues(Adaptive(around), s.lanes, e) then
      o.(lanes := Push(o.lanes, p, EnsurePriority(e.(receivedAt := Some(now))).(priority := Some(p))))
    else o
  }

  lemma AdaptiveCases(c: Settings, around: Surroundings, s: Site, e: Event, now: real)
    requires Unbounded(c)
    ensures Arrive(c, Adaptive(around), s, e, now) == Outcome(c, around, s, e, now)
  {
  }

  /** An event that the gate lets through is counted as accepted; it is queued on every draw if
      and only if its type is not BEST_EFFORT, or the pressure is below HIGH, or below EXTREME
      with a sampler set to keep everything. */
  lemma AcceptedIsQueuedIff(c: Settings, around: Surroundings, s: Site, e: Event, now: real)
    requires !Rejects(c, s, LaneFor(e)) && 0.0 <= around.rate <= 1.0
    ensures AcceptedOf(c, Adaptive(around), s, [e], now) == 1
    ensures
      var score := Pressure.Score(LoadOf(s.lanes, around), SCORED_CAPACITY);
      QueuedOnEveryDraw(c, around, s, e, now) <==>
        || Classify(e.eventType) != BestEffort || score < Pressure.HIGH_THRESHOLD
        || (score < Pressure.EXTREME_THRESHOLD && around.rate == 1.0)
  {
    OneArrival(c, Adaptive(around), s, e, now);
    var l := LoadOf(s.lanes, around);
    forall draw
      ensures Holds(Arrive(c, Adaptive(around.(draw := draw)), s, e, now)) == Holds(s) + 1
        <==> Pressure.Kept(Pressure.Decide(Classify(e.eventType), Pressure.PressureState(l, SCORED_CAPACITY)),
                           Pressure.Drawn(draw, around.rate))
    {
      QueuedIff(c, around.(draw := draw), s, e, now);
    }
    Pressure.LaneIsSafeIff(l, SCORED_CAPACITY, Classify(e.eventType), around.rate);
  }

  /** The failing case at empty lanes and an open gate: a click that meets a busy pool and twice
      the load it processes is sampled out, and still counted as accepted. */
  lemma SampledOutIsAccepted(c: Settings, s: Site, e: Event, now: real)
    requires e.eventType == Click && TotalDepth(s.lanes) == 0 && !Rejects(c, s, LaneFor(e))
    ensures
      var around := Surroundings(1.0, 2.0, 1.0, 0.0, 0.5, 0.5);
      && AcceptedOf(c, Adaptive(around), s, [e], now) == 1
      && Arrive(c, Adaptive(around), s, e, now) == Observe(c, s)
  {
    var around := Surroundings(1.0, 2.0, 1.0, 0.0, 0.5, 0.5);
    OneArrival(c, Adaptive(around), s, e, now);
    assert Pressure.RateFactor(2.0, 1.0) == 1.0;
    assert Pressure.QueueFactor(LoadOf(s.lanes, around), SCORED_CAPACITY) == 0.0;
    assert Pressure.LatencyFactor(LoadOf(s.lanes, around)) == 0.0;
  }
}
