/** The decision engine: classification, pressure, policy, sampling, routing and worker
    reallocation for one event, proved against `Pressure`, `Admission` and `Staffing`. */
module DecisionEngines {
  import opened Contracts
  import opened Backpressure
  import opened WorkerPools
  import AdaptiveAdmission
  import Admission
  import BatchSizing
  import Pressure
  import Staffing

  class ProbabilisticSampler {
    var sampleRate: real
    var totalEvaluated: nat
    var keptCount: nat
    var droppedCount: nat

    ghost predicate Valid()
      reads this
    {
      0.0 <= sampleRate <= 1.0 && totalEvaluated == keptCount + droppedCount
    }

    constructor (rate: real)
      requires 0.0 <= rate <= 1.0
      ensures Valid() && sampleRate == rate && totalEvaluated == 0
    {
      sampleRate, totalEvaluated, keptCount, droppedCount := rate, 0, 0, 0;
    }

    /** `draw` is the random number; every evaluation is counted as kept or as dropped. */
    method ShouldKeep(draw: real) returns (keep: bool)
      requires Valid() && 0.0 <= draw < 1.0
      modifies `totalEvaluated, `keptCount, `droppedCount
      ensures Valid() && keep == (draw < sampleRate)
      ensures totalEvaluated == old(totalEvaluated) + 1 && keptCount == old(keptCount) + if keep then 1 else 0
    {
      totalEvaluated := totalEvaluated + 1;
      if sampleRate <= 0.0 {
        keep := false;
      } else if sampleRate >= 1.0 {
        keep := true;
      } else {
        keep := draw < sampleRate;
      }
      if keep {
        keptCount := keptCount + 1;
      } else {
        droppedCount := droppedCount + 1;
      }
    }
  }

  const DEFAULT_CAPACITY := Admission.SCORED_CAPACITY

  datatype Decision = Decision(priority: Priority, state: Pressure.State, score: real, strategy: Pressure.Action,
                               depth: int, allocation: Pressure.Allocation, kept: bool)

  /** The reallocation call an allocation turns into. */
  function CallFor(a: Pressure.Allocation): Staffing.Call {
    Staffing.Call([], [Staffing.Target(Critical, a.critical), Staffing.Target(Normal, a.normal),
                       Staffing.Target(BestEffort, a.bestEffort)])
  }

  function Share(a: Pressure.Allocation, p: Priority): nat {
    match p
    case Critical => a.critical
    case Normal => a.normal
    case BestEffort => a.bestEffort
  }

  lemma AskedByCall(a: Pressure.Allocation, p: Priority)
    ensures Staffing.Asked(CallFor(a).allocation, p) == Some(Share(a, p))
  {
    var ts := CallFor(a).allocation;
    assert ts[..2][..1] == ts[..1];
    assert Staffing.Asked(ts[..1], p) == if p == Critical then Some(a.critical) else Staffing.Asked(ts[..1][..0], p);
    assert Staffing.Asked(ts[..2], p) == if p == Normal then Some(a.normal) else Staffing.Asked(ts[..1], p);
  }

  /** The pool ends with the share of workers the pressure calls for on every lane. */
  lemma AllocationIsMet(r: Staffing.Roster, a: Pressure.Allocation, p: Priority)
    ensures |Staffing.LaneOf(Staffing.Apply(r, CallFor(a)), p)| == Share(a, p)
    ensures Staffing.InMode(Staffing.LaneOf(Staffing.Apply(r, CallFor(a)), p), Staffing.Streams(r, p))
  {
    AskedByCall(a, p);
    Staffing.StaffAllIsExact(Staffing.Switched(r, []), CallFor(a).allocation, p);
  }

  class DecisionEngine {
    const queueManager: QueueManager
    const pool: WorkerPool
    const sampler: ProbabilisticSampler
    const sizer: BatchSizing.AdaptiveBatchSizer

    constructor (queueManager: QueueManager, pool: WorkerPool, sampler: ProbabilisticSampler,
                 sizer: BatchSizing.AdaptiveBatchSizer)
      requires queueManager.Valid() && pool.Valid() && sampler.Valid()
      ensures Valid()
      ensures this.queueManager == queueManager && this.pool == pool && this.sampler == sampler && this.sizer == sizer
    {
      this.queueManager, this.pool, this.sampler, this.sizer := queueManager, pool, sampler, sizer;
    }

    ghost predicate Valid()
      reads queueManager.dispatcher, queueManager.dispatcher.critical, queueManager.dispatcher.normal,
            queueManager.dispatcher.bestEffort, pool, sampler
    {
      queueManager.Valid() && pool.Valid() && sampler.Valid()
    }

    /** Whether the strategy lets the event in; the sampler is asked only when it decides. */
    method Keep(strategy: Pressure.Action, draw: real) returns (kept: bool)
      requires sampler.Valid() && 0.0 <= draw < 1.0
      modifies sampler
      ensures sampler.Valid() && sampler.sampleRate == old(sampler.sampleRate)
      ensures kept == Pressure.Kept(strategy, draw < sampler.sampleRate)
      ensures sampler.totalEvaluated == old(sampler.totalEvaluated) + if strategy == Pressure.Sample then 1 else 0
    {
      kept := true;
      if strategy == Pressure.Shed {
        kept := false;
      } else if strategy == Pressure.Sample {
        kept := sampler.ShouldKeep(draw);
      }
    }

    /** Every lane's batch workers carry the sizes the batch sizer has in force. */
    ghost predicate BatchesAsSized()
      reads pool, pool.Everyone(), sizer
      requires pool.Valid()
    {
      && pool.TunedAs(Critical, sizer.Sizes(), map[])
      && pool.TunedAs(Normal, sizer.Sizes(), map[])
      && pool.TunedAs(BestEffort, sizer.Sizes(), map[])
    }

    method Reallocate(a: Pressure.Allocation, normal: BatchSizing.Sample, bestEffort: BatchSizing.Sample, now: real)
      requires pool.Valid()
      modifies pool, pool.Everyone(), sizer
      ensures pool.Valid() && pool.isRunning == old(pool.isRunning)
      ensures old(pool.isRunning) ==> pool.State() == Staffing.Apply(old(pool.State()), CallFor(a))
      ensures old(pool.isRunning) ==> BatchesAsSized()
      ensures !old(pool.isRunning) ==> pool.State() == old(pool.State())
    {
      if pool.isRunning {
        var sizes := sizer.Calculate(normal, bestEffort, now, now);
        AskedByCall(a, Critical);
        AskedByCall(a, Normal);
        AskedByCall(a, BestEffort);
        pool.SetAllocation(CallFor(a), sizes, map[]);
      }
    }

    /** Routes the event to its lane if the strategy lets it in. */
    method Admit(e: Event, p: Priority, strategy: Pressure.Action, draw: real) returns (kept: bool)
      requires Valid() && 0.0 <= draw < 1.0
      modifies queueManager.dispatcher.critical, queueManager.dispatcher.normal, queueManager.dispatcher.bestEffort, sampler
      ensures Valid() && sampler.sampleRate == old(sampler.sampleRate)
      ensures kept == Pressure.Kept(strategy, draw < sampler.sampleRate)
      ensures queueManager.State() ==
        if kept then Admission.Push(old(queueManager.State()), p, e.(priority := Some(p))) else old(queueManager.State())
    {
      kept := Keep(strategy, draw);
      if kept {
        queueManager.Enqueue(e, p);
      }
    }

    /** One event through the engine: a CRITICAL event is always kept and routed to its lane,
        a kept event is appended to its own lane only, a lost one leaves the lanes alone, and
        a running pool ends with the workers the pressure calls for. */
    method ProcessEvent(e: Event, l: Pressure.Load, normalRate: real, bestEffortRate: real, draw: real, now: real)
      returns (d: Decision)
      requires Valid() && 0.0 <= draw < 1.0
      modifies queueManager.dispatcher.critical, queueManager.dispatcher.normal, queueManager.dispatcher.bestEffort,
               pool, pool.Everyone(), sizer, sampler
      ensures Valid()
      ensures d.priority == Classify(e.eventType) && d.state == Pressure.PressureState(l, DEFAULT_CAPACITY)
      ensures d.kept == Pressure.Kept(Pressure.Decide(d.priority, d.state), draw < old(sampler.sampleRate))
      ensures d.priority == Critical ==> d.kept
      ensures queueManager.State() ==
        if d.kept then Admission.Push(old(queueManager.State()), d.priority, e.(priority := Some(d.priority)))
        else old(queueManager.State())
      ensures old(pool.isRunning) ==> pool.State() == Staffing.Apply(old(pool.State()), CallFor(d.allocation))
      ensures !old(pool.isRunning) ==> pool.State() == old(pool.State())
      ensures old(pool.isRunning) ==> BatchesAsSized()
      ensures d.strategy == Pressure.Decide(d.priority, d.state) && d.depth == l.critical + l.normal + l.bestEffort
      ensures d.score == Pressure.ReportedScore(l, DEFAULT_CAPACITY)
      ensures Pressure.Workers(d.allocation) == 8 && d.allocation == Pressure.DesiredAllocation(d.state)
      ensures 0.0 <= d.score <= 1.0
      ensures var score := Pressure.Score(l, DEFAULT_CAPACITY);
        && (d.priority == Critical ==> d.strategy == Pressure.Stream)
        && (d.priority == Normal ==>
              d.strategy == if score < 0.45 then Pressure.Stream else if score < 0.75 then Pressure.Batch
                            else Pressure.Defer)
        && (d.priority == BestEffort ==>
              d.strategy == if score < 0.45 then Pressure.Stream else if score < 0.75 then Pressure.Sample
                            else Pressure.Shed)
    {
      var p := Classify(e.eventType);
      var state := Pressure.PressureState(l, DEFAULT_CAPACITY);
      var strategy := Pressure.Decide(p, state);
      var allocation := Pressure.DesiredAllocation(state);
      var kept := Admit(e, p, strategy, draw);
      var normal := BatchSizing.Sample(normalRate, l.normal);
      var bestEffort := BatchSizing.Sample(bestEffortRate, l.bestEffort);
      Reallocate(allocation, normal, bestEffort, now);
      Pressure.ReportedInRange(l, DEFAULT_CAPACITY);
      Pressure.ActionsByScore(l, DEFAULT_CAPACITY);
      var score := Pressure.ReportedScore(l, DEFAULT_CAPACITY);
      d := Decision(p, state, score, strategy, l.critical + l.normal + l.bestEffort, allocation, kept);
    }

    /** The handler the application registers: the event meets the pressure of the moment. */
    method AdaptiveEnqueue(e: Event, around: Admission.Surroundings, normalRate: real, bestEffortRate: real, now: real)
      requires Valid() && Pressure.IsDraw(around.draw) && around.rate == sampler.sampleRate
      modifies queueManager.dispatcher.critical, queueManager.dispatcher.normal, queueManager.dispatcher.bestEffort,
               pool, pool.Everyone(), sizer, sampler
      ensures Valid()
      ensures queueManager.State() ==
        var was, p := old(queueManager.State()), Classify(e.eventType);
        if Admission.Queues(Admission.Adaptive(around), was, e) then Admission.Push(was, p, e.(priority := Some(p)))
        else was
    {
      var l := Pressure.Load(|queueManager.dispatcher.critical.items|, |queueManager.dispatcher.normal.items|,
                             |queueManager.dispatcher.bestEffort.items|, around.utilization, around.ingress,
                             around.processing, around.latencyMs);
      var _ := ProcessEvent(e, l, normalRate, bestEffortRate, around.draw, now);
    }

    /** The gate, and then the handler behind it, case by case. */
    method Handle(api: IngestionApi, e: Event, around: Admission.Surroundings, normalRate: real, bestEffortRate: real,
                  now: real)
      returns (answer: Answer)
      requires Valid() && api.Valid() && api.controller.queueManager == queueManager
      requires Pressure.IsDraw(around.draw) && around.rate == sampler.sampleRate
      modifies api.controller`isActive, api.controller`seen, api.controller`totalThrottled,
               queueManager.dispatcher.critical, queueManager.dispatcher.normal, queueManager.dispatcher.bestEffort,
               pool, pool.Everyone(), sizer, sampler
      ensures Valid() && api.Valid()
      ensures api.State() == AdaptiveAdmission.Outcome(api.controller.Configured(), around, old(api.State()), e, now)
      ensures answer == if Admission.Rejects(api.controller.Configured(), old(api.State()), LaneFor(e))
                        then TooManyRequests else Accepted
    {
      var received := EnsurePriority(e.(receivedAt := Some(now)));
      var throttle := api.CheckGate(received.priority.value);
      if throttle {
        return TooManyRequests;
      }
      AdaptiveEnqueue(received, around, normalRate, bestEffortRate, now);
      return Accepted;
    }

    /** The single-event endpoint as the application runs it, with this engine behind the gate:
        what `Admission` calls an arrival at the adaptive handler. Whether the event was kept
        does not show in the answer. */
    method IngestOne(api: IngestionApi, e: Event, around: Admission.Surroundings, normalRate: real,
                     bestEffortRate: real, now: real)
      returns (answer: Answer)
      requires Valid() && api.Valid() && api.controller.queueManager == queueManager
      requires Pressure.IsDraw(around.draw) && around.rate == sampler.sampleRate
      modifies api.controller`isActive, api.controller`seen, api.controller`totalThrottled,
               queueManager.dispatcher.critical, queueManager.dispatcher.normal, queueManager.dispatcher.bestEffort,
               pool, pool.Everyone(), sizer, sampler
      ensures Valid() && api.Valid()
      ensures api.State() ==
        Admission.Arrive(api.controller.Configured(), Admission.Adaptive(around), old(api.State()), e, now)
      ensures answer == if Admission.Rejects(api.controller.Configured(), old(api.State()), LaneFor(e))
                        then TooManyRequests else Accepted
    {
      AdaptiveAdmission.AdaptiveCases(api.controller.Configured(), around, api.State(), e, now);
      answer := Handle(api, e, around, normalRate, bestEffortRate, now);
    }
  }
}
