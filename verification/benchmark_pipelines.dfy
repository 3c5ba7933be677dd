/** The benchmark pipelines as objects, cut at their awaits and proved against `Benchmarks`. */
module BenchmarkPipelines {
  import opened Contracts
  import opened Benchmarks

  class NaiveFIFOPipeline {
    const queueCapacity: nat
    var queue: seq<Event>
    var hands: seq<Hand>
    var generated: Tally
    var processed: Tally
    var dropped: Tally
    var totalIngested: nat
    var totalProcessed: nat
    var totalDropped: nat

    ghost function State(): Naive
      reads this
    {
      Naive(queue, hands, generated, processed, dropped, totalIngested, totalProcessed, totalDropped)
    }

    constructor (queueCapacity: nat, workers: nat)
      ensures this.queueCapacity == queueCapacity && NaiveSound(queueCapacity, State())
      ensures |hands| == workers && queue == []
    {
      this.queueCapacity := queueCapacity;
      queue, hands := [], seq(workers, i => Idle);
      generated, processed, dropped := Tally(0, 0, 0), Tally(0, 0, 0), Tally(0, 0, 0);
      totalIngested, totalProcessed, totalDropped := 0, 0, 0;
      new;
      NothingHeld(hands, Critical);
      NothingHeld(hands, Normal);
      NothingHeld(hands, BestEffort);
    }

    method Enqueue(e: Event) returns (ok: bool)
      modifies this
      ensures State() == DoOffer(queueCapacity, old(State()), e)
      ensures ok <==> totalDropped == old(totalDropped)
    {
      var p := LaneFor(e);
      totalIngested := totalIngested + 1;
      generated := Tallied(generated, p, 1);
      if 0 < queueCapacity && queueCapacity <= |queue| {
        totalDropped := totalDropped + 1;
        dropped := Tallied(dropped, p, 1);
        return false;
      }
      queue := queue + [e];
      return true;
    }

    /** The worker's `queue.get()`, when there is something to get. */
    method GetEvent(w: nat)
      requires w < |hands| && hands[w] == Idle
      modifies this
      ensures State() == DoGrab(old(State()), w)
    {
      if |queue| > 0 {
        hands := hands[w := Single(queue[0])];
        queue := queue[1..];
      }
    }

    /** What follows the simulated work. */
    method FinishEvent(w: nat)
      requires w < |hands| && hands[w].Single?
      modifies this
      ensures State() == DoDone(old(State()), w)
    {
      processed := Tallied(processed, LaneFor(hands[w].e), 1);
      totalProcessed := totalProcessed + 1;
      hands := hands[w := Idle];
    }
  }

  lemma {:induction false} NothingHeld(hs: seq<Hand>, p: Priority)
    requires forall i :: 0 <= i < |hs| ==> hs[i] == Idle
    ensures Holding(hs, p) == 0
  {
    if hs != [] {
      NothingHeld(hs[..|hs| - 1], p);
    }
  }

  class SimulatedPulseFlowPipeline {
    const capacities: Capacities
    var critical: seq<Event>
    var normal: seq<Event>
    var bestEffort: seq<Event>
    /** Suspended puts on the CRITICAL queue. */
    var blocked: seq<Event>
    var hands: seq<Hand>
    var verdict: Verdict
    var generated: Tally
    var processed: Tally
    var incomingCount: nat
    var processedCount: nat
    var eventsStreamed: nat
    var eventsBatched: nat
    var eventsDeferred: nat
    var eventsSampled: nat
    var eventsShed: nat

    ghost function State(): Sim
      reads this
    {
      Sim(critical, normal, bestEffort, blocked, hands, verdict, generated, processed, incomingCount, processedCount,
          eventsStreamed, eventsBatched, eventsDeferred, eventsSampled, eventsShed)
    }

    constructor (capacities: Capacities, workers: nat)
      requires Sane(capacities)
      ensures this.capacities == capacities && Sound(capacities, State()) && HandsFull(State())
      ensures |hands| == workers && Backlog(State()) == 0
    {
      this.capacities := capacities;
      critical, normal, bestEffort, blocked, hands := [], [], [], [], seq(workers, i => Idle);
      verdict := Verdict(Streamed, 0);
      generated, processed := Tally(0, 0, 0), Tally(0, 0, 0);
      incomingCount, processedCount := 0, 0;
      eventsStreamed, eventsBatched, eventsDeferred, eventsSampled, eventsShed := 0, 0, 0, 0, 0;
      new;
      NothingHeld(hands, Critical);
      NothingHeld(hands, Normal);
      NothingHeld(hands, BestEffort);
    }

    method UpdatePressureAndDecisions()
      requires Sane(capacities)
      modifies `verdict
      ensures State() == old(State()).(verdict := Judge(PressureOf(capacities, old(State()))))
    {
      var pressure := Fill(|critical|, capacities.critical) * 0.5 + Fill(|normal|, capacities.normal) * 0.3
                      + Fill(|bestEffort|, capacities.bestEffort) * 0.2;
      verdict := Judge(pressure);
    }

    /** Puts the event where the decisions in force send it. */
    method Place(e: Event, draw: real) returns (ok: bool)
      modifies this
      ensures State() == Offered(capacities, old(State()), e, draw)
      ensures !ok <==> eventsDeferred + eventsShed == old(eventsDeferred + eventsShed) + 1
      ensures LaneFor(e) == Critical ==> ok
    {
      match LaneFor(e) {
        case Critical =>
          if |critical| < capacities.critical {
            critical := critical + [e];
          } else {
            blocked := blocked + [e];
          }
          return true;
        case Normal =>
          if |normal| < capacities.normal {
            normal := normal + [e];
            return true;
          }
          eventsDeferred := eventsDeferred + 1;
          return false;
        case BestEffort =>
          if verdict.bestEffort == Shedded {
            eventsShed := eventsShed + 1;
            return false;
          } else if verdict.bestEffort == Sampled {
            if draw > 0.5 {
              eventsShed := eventsShed + 1;
              return false;
            }
            eventsSampled := eventsSampled + 1;
          }
          if |bestEffort| < capacities.bestEffort {
            bestEffort := bestEffort + [e];
            return true;
          }
          eventsShed := eventsShed + 1;
          return false;
      }
    }

    /** `ok` is true of a CRITICAL event whose put is still suspended, too: it is never lost. */
    method Enqueue(e: Event, draw: real) returns (ok: bool)
      requires Sane(capacities)
      modifies this
      ensures State() == DoEnqueue(capacities, old(State()), e, draw)
      ensures LaneFor(e) == Critical ==> ok
    {
      UpdatePressureAndDecisions();
      incomingCount := incomingCount + 1;
      generated := Tallied(generated, LaneFor(e), 1);
      ok := Place(e, draw);
    }

    /** The micro-batch a worker pulls from NORMAL. */
    method PullBatch(size: nat) returns (batch: seq<Event>)
      modifies `normal
      ensures batch == old(normal)[..Min(size, |old(normal)|)] && normal == old(normal)[Min(size, |old(normal)|)..]
    {
      batch := [];
      while |batch| < size && |normal| > 0
        invariant |batch| <= Min(size, |old(normal)|)
        invariant batch == old(normal)[..|batch|] && normal == old(normal)[|batch|..]
        decreases |normal|
      {
        batch := batch + [normal[0]];
        normal := normal[1..];
      }
    }

    /** One look of an idle worker at the queues, up to the await of its processing. */
    method TakeWork(w: nat)
      requires w < |hands| && hands[w] == Idle
      modifies this
      ensures State() == DoTake(old(State()), w)
    {
      if |critical| > 0 {
        hands := hands[w := Single(critical[0])];
        critical := critical[1..];
      } else if |normal| > 0 {
        if verdict.batch > 0 {
          var batch := PullBatch(verdict.batch);
          hands := hands[w := Micro(batch)];
        } else {
          hands := hands[w := Single(normal[0])];
          normal := normal[1..];
        }
      } else if |bestEffort| > 0 {
        hands := hands[w := Single(bestEffort[0])];
        bestEffort := bestEffort[1..];
      }
    }

    /** What follows the simulated work: every event of a batch is counted on its own. */
    method FinishWork(w: nat)
      requires w < |hands| && hands[w] != Idle
      modifies this
      ensures State() == DoFinish(old(State()), w)
    {
      match hands[w] {
        case Single(e) =>
          processed := Tallied(processed, LaneFor(e), 1);
          processedCount := processedCount + 1;
          eventsStreamed := eventsStreamed + 1;
        case Micro(batch) =>
          for i := 0 to |batch|
            modifies `processed, `processedCount
            invariant processed == Tallied(old(processed), Normal, i) && processedCount == old(processedCount) + i
          {
            processed := Tallied(processed, Normal, 1);
            processedCount := processedCount + 1;
          }
          eventsBatched := eventsBatched + |batch|;
      }
      hands := hands[w := Idle];
    }
  }
}
