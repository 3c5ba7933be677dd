/** What the benchmark pipelines do with each event over whole runs, said of what is seen in the
    queues and in the workers' hands. */
module BenchmarkRuns {
  import opened Contracts
  import opened Benchmarks

  // ---- The naive pipeline is one first-in, first-out queue with tail drop ----

  /** What a step put into a free hand. */
  function Grabbed(before: seq<Hand>, after: seq<Hand>, w: nat): seq<Event> {
    if w < |before| && w < |after| && before[w] == Idle && after[w].Single? then [after[w].e] else []
  }

  function NaiveServed(capacity: nat, s: Naive, steps: seq<NaiveStep>): seq<Event> {
    if steps == [] then []
    else
      var before, last := NaiveRun(capacity, s, steps[..|steps| - 1]), steps[|steps| - 1];
      NaiveServed(capacity, s, steps[..|steps| - 1])
      + if last.Grab? then Grabbed(before.hands, NaiveNext(capacity, before, last).hands, last.w) else []
  }

  /** The events that were offered while there was room. */
  function NaiveAdmitted(capacity: nat, s: Naive, steps: seq<NaiveStep>): seq<Event> {
    if steps == [] then []
    else
      var before, last := NaiveRun(capacity, s, steps[..|steps| - 1]), steps[|steps| - 1];
      NaiveAdmitted(capacity, s, steps[..|steps| - 1])
      + if last.Offer? && (capacity == 0 || |before.queue| < capacity) then [last.e] else []
  }

  lemma NaiveStepInOrder(capacity: nat, s: Naive, step: NaiveStep)
    ensures var s' := NaiveNext(capacity, s, step);
      (if step.Grab? then Grabbed(s.hands, s'.hands, step.w) else []) + s'.queue
      == s.queue + if step.Offer? && (capacity == 0 || |s.queue| < capacity) then [step.e] else []
  {
    if step.Grab? && s.queue != [] {
      assert [s.queue[0]] + s.queue[1..] == s.queue;
    }
  }

  /** The workers of the baseline serve what was admitted, every lane alike, in the order it
      was offered: what they took, then what is queued, is what was queued, then what met room. */
  lemma {:induction false} NaiveIsFifo(capacity: nat, s: Naive, steps: seq<NaiveStep>)
    ensures NaiveServed(capacity, s, steps) + NaiveRun(capacity, s, steps).queue
         == s.queue + NaiveAdmitted(capacity, s, steps)
  {
    if steps != [] {
      var front, last := steps[..|steps| - 1], steps[|steps| - 1];
      var before := NaiveRun(capacity, s, front);
      NaiveIsFifo(capacity, s, front);
      NaiveStepInOrder(capacity, before, last);
      var took := if last.Grab? then Grabbed(before.hands, NaiveNext(capacity, before, last).hands, last.w) else [];
      var came := if last.Offer? && (capacity == 0 || |before.queue| < capacity) then [last.e] else [];
      Regroup(NaiveServed(capacity, s, front), took, NaiveNext(capacity, before, last).queue, before.queue,
              s.queue, NaiveAdmitted(capacity, s, front), came);
    }
  }

  lemma Regroup(out: seq<Event>, took: seq<Event>, left: seq<Event>, was: seq<Event>, first: seq<Event>,
                admitted: seq<Event>, came: seq<Event>)
    requires took + left == was + came && out + was == first + admitted
    ensures out + took + left == first + (admitted + came)
  {
    assert out + took + left == out + (was + came) == first + admitted + came;
  }

  // ---- The simulated pipeline: what an arrival meets ----

  /** How the queues weigh, in the fractions of their capacities that are in use. */
  lemma VerdictFollowsFill(c: Capacities, s: Sim, e: Event, draw: real)
    requires Sane(c)
    ensures var v := DoEnqueue(c, s, e, draw).verdict;
      var load := 0.5 * (|s.critical| as real / c.critical as real) + 0.3 * (|s.normal| as real / c.normal as real)
                  + 0.2 * (|s.bestEffort| as real / c.bestEffort as real);
      && (v.bestEffort == Shedded <==> load > 0.6) && (v.batch == 20 <==> load > 0.6)
      && (v.bestEffort == Streamed <==> load <= 0.3) && (v.batch == 0 <==> load <= 0.3)
      && (v.batch == 10 <==> 0.3 < load <= 0.6)
  {
  }

  /** An arrival takes the last place of its own lane's queue exactly when it is not turned away;
      a CRITICAL one without room waits; nothing else in the pipeline moves. */
  lemma ArrivalTakesItsLane(c: Capacities, s: Sim, e: Event, draw: real, p: Priority)
    requires Sane(c)
    ensures var s' := DoEnqueue(c, s, e, draw);
      var kept := s'.deferred + s'.shed == s.deferred + s.shed;
      && (LaneFor(e) == Critical ==>
            kept && s'.critical + s'.blocked == (if |s.critical| < c.critical then s.critical + [e] + s.blocked
                                                 else s.critical + s.blocked + [e]))
      && (p != Critical ==> QueueOf(s', p) == QueueOf(s, p) + if p == LaneFor(e) && kept then [e] else [])
      && (LaneFor(e) != Critical ==> s'.critical == s.critical && s'.blocked == s.blocked)
      && s'.hands == s.hands
  {
    var s1 := Counted(c, s, LaneFor(e));
    assert DoEnqueue(c, s, e, draw) == Offered(c, s1, e, draw);
  }

  /** A BEST_EFFORT arrival is counted as sampled exactly when the load is in the sampling band
      and its draw is low; NORMAL deferrals and BEST_EFFORT sheds are counted one by one. */
  lemma ArrivalIsBooked(c: Capacities, s: Sim, e: Event, draw: real)
    requires Sane(c)
    ensures var s' := DoEnqueue(c, s, e, draw);
      && s'.sampled == s.sampled + (if LaneFor(e) == BestEffort && s'.verdict.bestEffort == Sampled && draw <= 0.5
                                    then 1 else 0)
      && s'.deferred == s.deferred + (if LaneFor(e) == Normal && |s.normal| >= c.normal then 1 else 0)
      && s.shed <= s'.shed <= s.shed + (if LaneFor(e) == BestEffort then 1 else 0)
      && s'.processed == s.processed && s'.streamed == s.streamed && s'.batched == s.batched
  {
  }

  // ---- What a worker takes and finishes ----

  /** A look at NORMAL takes a micro-batch of at most the batch size in force, and the whole of it
      while there are enough events; any other look takes one event. */
  lemma LookTakesABatch(s: Sim, w: nat)
    requires w < |s.hands| && s.hands[w] == Idle && Foremost(s).Some?
    ensures var hand := DoTake(s, w).hands[w];
      && (hand.Micro? <==> s.critical == [] && s.normal != [] && s.verdict.batch > 0)
      && (hand.Micro? ==> |hand.batch| <= s.verdict.batch
                          && (|hand.batch| == s.verdict.batch || DoTake(s, w).normal == []))
      && (!hand.Micro? ==> hand.Single?)
  {
  }

  /** Work is counted once, streamed or batched by how it was taken, and frees only its own hand. */
  lemma FinishIsBooked(s: Sim, w: nat, v: nat)
    requires w < |s.hands| && v < |s.hands|
    ensures var s' := DoFinish(s, w);
      && |s'.hands| == |s.hands| && s'.hands[v] == (if v == w then Idle else s.hands[v])
      && s'.streamed == s.streamed + (if s.hands[w].Single? then 1 else 0)
      && s'.batched == s.batched + (if s.hands[w].Micro? then |s.hands[w].batch| else 0)
  {
  }

  // ---- Order over runs ----

  function TookFrom(s: Sim, step: SimStep, p: Priority): seq<Event> {
    if step.Take? && step.w < |s.hands| && s.hands[step.w] == Idle && Foremost(s) == Some(p) then Picked(s, step.w)
    else []
  }

  /** What a step added to a lane's queue: an arrival or a suspended put, seen by its growing. */
  function Joined(c: Capacities, s: Sim, step: SimStep, p: Priority): seq<Event>
    requires Sane(c)
  {
    if |QueueOf(Next(c, s, step), p)| <= |QueueOf(s, p)| then []
    else
      match step
      case Enqueue(e, _) => if LaneFor(e) == p then [e] else []
      case Unblock(i) => if p == Critical && i < |s.blocked| then [s.blocked[i]] else []
      case Take(_) => []
      case Finish(_) => []
  }

  lemma SimStepInOrder(c: Capacities, s: Sim, step: SimStep, p: Priority)
    requires Sane(c)
    ensures TookFrom(s, step, p) + QueueOf(Next(c, s, step), p) == QueueOf(s, p) + Joined(c, s, step, p)
  {
    match step
    case Enqueue(e, draw) =>
      var s1 := Counted(c, s, LaneFor(e));
      assert DoEnqueue(c, s, e, draw) == Offered(c, s1, e, draw);
    case Unblock(_) =>
    case Take(w) =>
      if w < |s.hands| && s.hands[w] == Idle {
        ServiceIsStrictAndInOrder(s, w, p);
      }
    case Finish(_) =>
  }

  function TakenFrom(c: Capacities, s: Sim, steps: seq<SimStep>, p: Priority): seq<Event>
    requires Sane(c)
  {
    if steps == [] then []
    else
      TakenFrom(c, s, steps[..|steps| - 1], p) + TookFrom(Run(c, s, steps[..|steps| - 1]), steps[|steps| - 1], p)
  }

  function JoinedOver(c: Capacities, s: Sim, steps: seq<SimStep>, p: Priority): seq<Event>
    requires Sane(c)
  {
    if steps == [] then []
    else
      JoinedOver(c, s, steps[..|steps| - 1], p) + Joined(c, Run(c, s, steps[..|steps| - 1]), steps[|steps| - 1], p)
  }

  /** Each lane of the simulated pipeline is first in, first out over every run, single events
      and micro-batches together. */
  lemma {:induction false} SimLanesAreFifo(c: Capacities, s: Sim, steps: seq<SimStep>, p: Priority)
    requires Sane(c)
    ensures TakenFrom(c, s, steps, p) + QueueOf(Run(c, s, steps), p) == QueueOf(s, p) + JoinedOver(c, s, steps, p)
  {
    if steps != [] {
      var front, last := steps[..|steps| - 1], steps[|steps| - 1];
      var before := Run(c, s, front);
      SimLanesAreFifo(c, s, front, p);
      SimStepInOrder(c, before, last, p);
      Regroup(TakenFrom(c, s, front, p), TookFrom(before, last, p), QueueOf(Next(c, before, last), p),
              QueueOf(before, p), QueueOf(s, p), JoinedOver(c, s, front, p), Joined(c, before, last, p));
    }
  }
}
