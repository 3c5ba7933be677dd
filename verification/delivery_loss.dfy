/** Exactly which accepted events the delivery protocol can lose, and by which step. */
module DeliveryLoss {
  import opened Contracts
  import opened InFlight
  import opened Delivery
  import opened DeliverySafety

  /** One step loses an event if and only if it is a sweep that raises at that event's retry
      note, while the event is not stored. */
  lemma StepLosesIff(s: State, step: Step, id: EventId)
    requires Inv(s) && Enabled(s, step) && id in s.accepted && Kept(s, id)
    ensures !Kept(Next(s, step), id) <==> step.RecoverySweep? && Lost(s, id) > 0 && id !in s.store
  {
    StepTokens(s, step, id);
    StoreGrows(s, step, id);
    assert Tokens(s, id) <= 1;
  }

  lemma {:induction false} RunKeepsStored(s: State, steps: seq<Step>, id: EventId)
    requires Inv(s) && Legal(s, steps) && id in s.accepted
    ensures id in s.store ==> id in Run(s, steps).store
    ensures id in Run(s, steps).accepted && Run(s, steps).accepted[id] == s.accepted[id]
    decreases |steps|
  {
    if steps != [] {
      StepKeepsInv(s, steps[0]);
      StoreGrows(s, steps[0], id);
      AcceptedGrows(s, steps[0], id);
      RunKeepsStored(Next(s, steps[0]), steps[1..], id);
    }
  }

  // ---- How an event whose retry note does not count is lost, from any state ----

  /** What the losing run keeps until the event is in flight alone. */
  ghost predicate Doomed(s: State, id: EventId) {
    Inv(s) && id in s.accepted && id !in s.store && !Counts(s.accepted[id].retries)
  }

  lemma StepKeepsDoomed(s: State, step: Step, id: EventId)
    requires Doomed(s, id) && Enabled(s, step) && !step.Commit?
    ensures Doomed(Next(s, step), id)
  {
    StepKeepsInv(s, step);
    AcceptedGrows(s, step, id);
  }

  ghost predicate Loses(s: State, steps: seq<Step>, id: EventId) {
    Legal(s, steps) && !Kept(Run(s, steps), id)
  }

  lemma StepThenLoses(s: State, step: Step, rest: seq<Step>, id: EventId)
    requires Enabled(s, step) && Loses(Next(s, step), rest, id)
    ensures Loses(s, [step] + rest, id)
  {
    assert ([step] + rest)[0] == step && ([step] + rest)[1..] == rest;
  }

  /** In flight alone, the event is popped by the first sweep after its timeout, which raises. */
  lemma LoseAlone(s: State, id: EventId) returns (steps: seq<Step>)
    requires Doomed(s, id) && |s.tracker.inFlight| == 1 && s.tracker.inFlight[0].event.id == id
    ensures Loses(s, steps, id)
  {
    var es := s.tracker.inFlight;
    var late := es[0].start + s.timeout + 1.0;
    var now := if s.clock < late then late else s.clock;
    var t := s.(clock := now);
    StepKeepsDoomed(s, Tick(now), id);
    assert Expired(es, now, s.timeout) == es by {
      FilterAll(es, (e: Entry) => TimedOut(e, now, s.timeout));
    }
    assert !Counts(es[0].event.retries) by {
      assert Genuine(Events(es)[0], s.accepted);
    }
    assert Dropped(t.tracker, now, t.timeout) == es;
    KeyCopiesOne(es[0], id);
    assert es == [es[0]];
    StepTokens(t, RecoverySweep, id);
    assert Tokens(t, id) <= 1;
    steps := [Tick(now), RecoverySweep];
    StepThenLoses(t, RecoverySweep, [], id);
    StepThenLoses(s, Tick(now), [RecoverySweep], id);
    assert steps == [Tick(now)] + [RecoverySweep];
  }

  /** In flight with others, they are handed back first. */
  lemma {:induction false} LoseInFlight(s: State, id: EventId) returns (steps: seq<Step>)
    requires Doomed(s, id) && Has(s.tracker.inFlight, id)
    ensures Loses(s, steps, id)
    decreases |s.tracker.inFlight|
  {
    var es := s.tracker.inFlight;
    if |es| == 1 {
      steps := LoseAlone(s, id);
      return;
    }
    var other := if es[0].event.id == id then es[1].event.id else es[0].event.id;
    assert other != id && Has(es, other) by {
      HasKey(es, other);
      assert es[0] in es && es[1] in es;
    }
    var step := NackRequeue(other);
    StepKeepsDoomed(s, step, id);
    HasAfterRemove(es, other, id);
    var rest := LoseInFlight(Next(s, step), id);
    StepThenLoses(s, step, rest, id);
    return [step] + rest;
  }

  lemma HasAfterRemove(es: seq<Entry>, other: EventId, id: EventId)
    requires Distinct(es) && Has(es, id) && other != id
    ensures Has(Remove(es, other), id)
  {
    var e := es[Find(es, id)];
    RemoveIsFilter(es, other);
    FilterMembers(es, (x: Entry) => x.event.id != other);
    assert e in Remove(es, other);
    HasKey(Remove(es, other), id);
  }

  lemma {:induction false} HolderOf(ws: seq<Worker>, id: EventId) returns (w: nat)
    requires Buffered(ws, id) > 0
    ensures w < |ws| && Copies(Held(ws[w]), id) > 0
  {
    w := |ws| - 1;
    if Copies(Held(ws[w]), id) == 0 {
      w := HolderOf(ws[..w], id);
    }
  }

  /** In a worker's buffer, processing begins. */
  lemma LoseBuffered(s: State, id: EventId) returns (steps: seq<Step>)
    requires Doomed(s, id) && Buffered(s.workers, id) > 0
    ensures Loses(s, steps, id)
  {
    var w := HolderOf(s.workers, id);
    var step := Begin(w);
    assert CanBegin(s, w);
    StepKeepsDoomed(s, step, id);
    BeginPutsInFlight(s, w, id);
    var rest := LoseInFlight(Next(s, step), id);
    StepThenLoses(s, step, rest, id);
    return [step] + rest;
  }

  lemma BeginPutsInFlight(s: State, w: nat, id: EventId)
    requires Inv(s) && CanBegin(s, w) && Copies(s.workers[w].phase.buffer, id) > 0
    ensures Has(DoBegin(s, w).tracker.inFlight, id)
  {
    var more := Entries(s.workers[w].phase.buffer, s.clock);
    BeginFresh(s, w);
    TrackAllFresh(s.tracker, s.workers[w].phase.buffer, s.clock);
    EntriesCopies(s.workers[w].phase.buffer, s.clock, id);
    KeyCopiesConcat(s.tracker.inFlight, more, id);
    KeyCopiesMember(s.tracker.inFlight + more, id);
    HasKey(s.tracker.inFlight + more, id);
  }

  /** In a lane, a new worker takes the head, whether or not it is the event. */
  lemma {:induction false} LoseQueued(s: State, p: Priority, id: EventId) returns (steps: seq<Step>)
    requires Doomed(s, id) && Copies(Lane(s, p), id) > 0
    ensures Loses(s, steps, id)
    decreases |Lane(s, p)|
  {
    var n := |s.workers|;
    var t := DoSpawn(s, p, 1);
    StepKeepsDoomed(s, Spawn(p, 1), id);
    assert CanDequeue(t, n);
    var u := DoDequeue(t, n);
    StepKeepsDoomed(t, Dequeue(n), id);
    DequeueMovesOrShortens(s, p, id);
    var rest;
    if Buffered(u.workers, id) > 0 {
      rest := LoseBuffered(u, id);
    } else {
      rest := LoseQueued(u, p, id);
    }
    StepThenLoses(t, Dequeue(n), rest, id);
    StepThenLoses(s, Spawn(p, 1), [Dequeue(n)] + rest, id);
    return [Spawn(p, 1)] + ([Dequeue(n)] + rest);
  }

  lemma DequeueMovesOrShortens(s: State, p: Priority, id: EventId)
    requires Copies(Lane(s, p), id) > 0
    ensures var u := DoDequeue(DoSpawn(s, p, 1), |s.workers|);
      && (Buffered(u.workers, id) > 0 || Copies(Lane(u, p), id) > 0)
      && |Lane(u, p)| == |Lane(s, p)| - 1
  {
    var n := |s.workers|;
    var t := DoSpawn(s, p, 1);
    var u := DoDequeue(t, n);
    MoveHead(Lane(s, p), [], id);
    BufferedAtLeast(u.workers, n, id);
  }

  /** From any reachable state, an event whose retry note does not count and that is not yet
      stored is lost in some continuation. */
  lemma SomeRunLoses(s: State, id: EventId) returns (steps: seq<Step>)
    requires Doomed(s, id)
    ensures Loses(s, steps, id)
  {
    KeyCopiesMember(s.tracker.inFlight, id);
    HasKey(s.tracker.inFlight, id);
    if !Kept(s, id) {
      steps := [];
    } else if Has(s.tracker.inFlight, id) {
      steps := LoseInFlight(s, id);
    } else if Buffered(s.workers, id) > 0 {
      steps := LoseBuffered(s, id);
    } else {
      var p := if Copies(s.critical, id) > 0 then Critical
               else if Copies(s.normal, id) > 0 then Normal
               else BestEffort;
      steps := LoseQueued(s, p, id);
    }
  }

  lemma SafeRun(s: State, steps: seq<Step>, id: EventId)
    requires Inv(s) && Legal(s, steps) && id in s.accepted && (id in s.store || Counts(s.accepted[id].retries))
    ensures Kept(Run(s, steps), id)
  {
    RunKeepsStored(s, steps, id);
    RunKeepsInv(s, steps);
  }

  /** In every reachable state, an accepted event is safe whatever happens next if and only if
      it is already stored or the retry note it was accepted with counts. */
  lemma SafeForeverIff(s: State, id: EventId)
    requires Inv(s) && id in s.accepted
    ensures id in s.store || Counts(s.accepted[id].retries) <==> (forall steps :: !Loses(s, steps, id))
  {
    if id in s.store || Counts(s.accepted[id].retries) {
      forall steps
        ensures !Loses(s, steps, id)
      {
        if Legal(s, steps) {
          SafeRun(s, steps, id);
        }
      }
    } else {
      var steps := SomeRunLoses(s, id);
    }
  }
}
