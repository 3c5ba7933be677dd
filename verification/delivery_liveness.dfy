/** Draining is possible: from every state that can be reached, with a running worker on each
    lane, some run without a fault finishes the pipeline. */
module DeliveryLiveness {
  import opened Contracts
  import opened InFlight
  import opened Delivery
  import opened DeliverySafety
  import opened DeliveryDrain

  /** A step of a worker that is enabled and is neither a failure nor an arrival. */
  ghost predicate WorkerStep(s: State, step: Step) {
    (step.Dequeue? || step.Begin? || step.Commit? || step.Finish?) && Enabled(s, step)
  }

  lemma DequeueKeepsWorker(s: State, w: nat, p: Priority)
    requires CanDequeue(s, w) && HasWorker(s, p)
    ensures HasWorker(DoDequeue(s, w), p)
  {
    var v :| 0 <= v < |s.workers| && s.workers[v].lane == p && s.workers[v].batchSize >= 1
          && s.workers[v].phase != Stopped;
    var ws' := DoDequeue(s, w).workers;
    assert ws'[v].lane == p && ws'[v].batchSize >= 1 && ws'[v].phase != Stopped;
  }

  lemma PhaseKeepsWorker(s: State, t: State, w: nat, ph: Phase, p: Priority)
    requires w < |s.workers| && t.workers == s.workers && ph != Stopped && HasWorker(s, p)
    ensures HasWorker(WithPhase(t, w, ph), p)
  {
    var v :| 0 <= v < |s.workers| && s.workers[v].lane == p && s.workers[v].batchSize >= 1
          && s.workers[v].phase != Stopped;
    var ws' := WithPhase(t, w, ph).workers;
    assert ws'[v].lane == p && ws'[v].batchSize >= 1 && ws'[v].phase != Stopped;
  }

  lemma StepKeepsWorker(s: State, step: Step, p: Priority)
    requires WorkerStep(s, step) && HasWorker(s, p)
    ensures HasWorker(Next(s, step), p)
  {
    match step
    case Dequeue(w) => DequeueKeepsWorker(s, w, p);
    case Begin(w) =>
      var batch := s.workers[w].phase.buffer;
      PhaseKeepsWorker(s, s.(tracker := TrackAll(s.tracker, batch, s.clock)), w, Processing(batch, false), p);
    case Commit(w) =>
      var batch := s.workers[w].phase.batch;
      PhaseKeepsWorker(s, s.(store := Upsert(s.store, batch)), w, Processing(batch, true), p);
    case Finish(w) =>
      PhaseKeepsWorker(s, s.(tracker := AckAll(s.tracker, s.workers[w].phase.batch)), w, Collecting([]), p);
  }

  lemma StepKeepsStaff(s: State, step: Step)
    requires WorkerStep(s, step) && Staffed(s)
    ensures Staffed(Next(s, step))
  {
    StepKeepsWorker(s, step, Critical);
    StepKeepsWorker(s, step, Normal);
    StepKeepsWorker(s, step, BestEffort);
  }

  /** Running one more step in front of a run. */
  lemma Prepend(s: State, step: Step, rest: seq<Step>)
    requires Enabled(s, step) && Legal(Next(s, step), rest)
    ensures Legal(s, [step] + rest) && Run(s, [step] + rest) == Run(Next(s, step), rest)
    ensures Faults(s, [step] + rest) == (if IsFault(s, step) then 1 else 0) + Faults(Next(s, step), rest)
  {
    assert ([step] + rest)[0] == step && ([step] + rest)[1..] == rest;
  }

  /** The run drains the state without a fault. */
  ghost predicate Drains(s: State, steps: seq<Step>) {
    && Legal(s, steps) && Faults(s, steps) == 0 && Drained(Run(s, steps))
    && forall i :: 0 <= i < |steps| ==> IsDraining(steps[i])
  }

  lemma PrependDrains(s: State, step: Step, rest: seq<Step>)
    requires Enabled(s, step) && IsDraining(step) && !IsFault(s, step) && Drains(Next(s, step), rest)
    ensures Drains(s, [step] + rest)
  {
    Prepend(s, step, rest);
  }

  ghost predicate Resting(s: State) {
    forall w: nat :: !CanDequeue(s, w) && !CanBegin(s, w) && !IsProcessing(s, w, true) && !IsProcessing(s, w, false)
  }

  /** When the workers are at rest and nothing is in flight, the state is drained. */
  lemma RestingIsDrained(s: State)
    requires Inv(s) && Staffed(s) && Resting(s) && s.tracker.inFlight == []
    ensures Drained(s)
  {
    assert forall now :: Expired([], now, s.timeout) == [];
    QuiescentIffDrained(s);
  }

  /** With the workers at rest a late enough sweep finds something, and only orphans. */
  lemma LateSweep(s: State) returns (now: real)
    requires Inv(s) && Resting(s) && s.tracker.inFlight != []
    ensures s.clock <= now
    ensures var t := s.(clock := now); OnlyOrphansExpire(t) && Expired(t.tracker.inFlight, now, t.timeout) != []
  {
    EventuallyExpires(s.tracker.inFlight, s.clock, s.timeout);
    now :| s.clock <= now && Expired(s.tracker.inFlight, now, s.timeout) != [];
    forall id
      ensures !Live(s.workers, id)
    {
      if Live(s.workers, id) {
        var w :| 0 <= w < |s.workers| && s.workers[w].phase.Processing? && id in Ids(s.workers[w].phase.batch);
        assert IsProcessing(s, w, s.workers[w].phase.stored);
      }
    }
  }

  lemma SweepKeepsStaff(s: State, now: real)
    requires Staffed(s)
    ensures Staffed(DoSweep(s.(clock := now)))
  {
    assert DoSweep(s.(clock := now)).workers == s.workers;
    KeepsWorker(s, DoSweep(s.(clock := now)), Critical);
    KeepsWorker(s, DoSweep(s.(clock := now)), Normal);
    KeepsWorker(s, DoSweep(s.(clock := now)), BestEffort);
  }

  lemma KeepsWorker(s: State, t: State, p: Priority)
    requires t.workers == s.workers && HasWorker(s, p)
    ensures HasWorker(t, p)
  {
  }

  /** The pipeline can always be drained: from every staffed reachable state there is a run
      without arrivals and without faults that ends with everything stored. */
  lemma {:induction false} SomeRunDrains(s: State) returns (steps: seq<Step>)
    requires Inv(s) && Staffed(s)
    ensures Drains(s, steps)
    decreases Measure(s)
  {
    if step :| WorkerStep(s, step) {
      StepKeepsInv(s, step);
      StepKeepsStaff(s, step);
      WorkLowersMeasure(s, step);
      var rest := SomeRunDrains(Next(s, step));
      PrependDrains(s, step, rest);
      return [step] + rest;
    }
    NothingToDo(s);
    if s.tracker.inFlight == [] {
      RestingIsDrained(s);
      return [];
    }
    var now := LateSweep(s);
    var rest := DrainsAfterSweep(s, now);
    return [Tick(now), RecoverySweep] + rest;
  }

  lemma NothingToDo(s: State)
    requires forall step :: !WorkerStep(s, step)
    ensures Resting(s)
  {
    forall w: nat
      ensures !CanDequeue(s, w) && !CanBegin(s, w) && !IsProcessing(s, w, true) && !IsProcessing(s, w, false)
    {
      assert !WorkerStep(s, Dequeue(w)) && !WorkerStep(s, Begin(w));
      assert !WorkerStep(s, Commit(w)) && !WorkerStep(s, Finish(w));
    }
  }

  lemma {:induction false} DrainsAfterSweep(s: State, now: real) returns (rest: seq<Step>)
    requires Inv(s) && Staffed(s) && s.clock <= now
    requires var t := s.(clock := now); OnlyOrphansExpire(t) && Expired(t.tracker.inFlight, now, t.timeout) != []
    ensures Drains(s, [Tick(now), RecoverySweep] + rest)
    decreases Measure(s), 0
  {
    var t := s.(clock := now);
    StepKeepsInv(s, Tick(now));
    StepKeepsInv(t, RecoverySweep);
    SweepKeepsStaff(s, now);
    SweepLowers(t);
    assert Measure(t) == Measure(s);
    rest := SomeRunDrains(DoSweep(t));
    PrependDrains(t, RecoverySweep, rest);
    PrependDrains(s, Tick(now), [RecoverySweep] + rest);
    assert [Tick(now)] + ([RecoverySweep] + rest) == [Tick(now), RecoverySweep] + rest;
  }
}
