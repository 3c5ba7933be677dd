/** Safety of the delivery protocol over every run. */
module DeliverySafety {
  import opened Contracts
  import opened InFlight
  import opened Delivery

  // ---- Every copy is a copy of what was accepted ----

  lemma EnsureKeepsOrigin(e: Event, accepted: map<EventId, Event>)
    requires Genuine(e, accepted)
    ensures Genuine(EnsurePriority(e), accepted)
  {
  }

  lemma {:induction false} UpsertContent(store: map<EventId, Event>, es: seq<Event>, accepted: map<EventId, Event>)
    requires AllGenuine(es, accepted)
    requires forall id :: id in store ==> store[id].id == id && Genuine(store[id], accepted)
    ensures
      var r := Upsert(store, es);
      && (forall id :: id in r ==> r[id].id == id && Genuine(r[id], accepted))
      && (forall i :: 0 <= i < |es| ==> es[i].id in r)
      && store.Keys <= r.Keys
  {
    if es != [] {
      var n := |es| - 1;
      UpsertContent(store, es[..n], accepted);
      EnsureKeepsOrigin(es[n], accepted);
    }
  }

  lemma FilterGenuine(es: seq<Entry>, p: Entry -> bool, accepted: map<EventId, Event>)
    requires AllGenuine(Events(es), accepted)
    ensures AllGenuine(Events(Filter(es, p)), accepted)
  {
    var r := Filter(es, p);
    FilterMembers(es, p);
    forall i | 0 <= i < |r|
      ensures Genuine(r[i].event, accepted)
    {
      assert r[i] in r;
      var j :| 0 <= j < |es| && es[j] == r[i];
      assert Genuine(Events(es)[j], accepted);
    }
  }

  lemma AppendGenuine(a: seq<Event>, b: seq<Event>, accepted: map<EventId, Event>)
    requires AllGenuine(a, accepted) && AllGenuine(b, accepted)
    ensures AllGenuine(a + b, accepted)
  {
  }

  lemma GrowAccepted(s: State, e: Event)
    requires Faithful(s) && e.id !in s.accepted
    ensures Faithful(s.(accepted := s.accepted[e.id := e]))
  {
    var s' := s.(accepted := s.accepted[e.id := e]);
    forall w | 0 <= w < |s'.workers|
      ensures WorkerGenuine(s'.workers[w], s')
    {
      assert WorkerGenuine(s.workers[w], s);
    }
  }

  lemma IngestFaithful(s: State, e: Event)
    requires Faithful(s) && e.id !in s.accepted
    ensures Faithful(DoIngest(s, e))
  {
    var e' := EnsurePriority(e);
    var s1 := s.(accepted := s.accepted[e.id := e']);
    GrowAccepted(s, e');
    var s2 := DoIngest(s, e);
    AppendGenuine(Lane(s, e'.priority.value), [e'], s1.accepted);
    forall w | 0 <= w < |s2.workers|
      ensures WorkerGenuine(s2.workers[w], s2)
    {
      assert WorkerGenuine(s1.workers[w], s1);
    }
  }

  lemma PhaseFaithful(s: State, w: nat, ph: Phase)
    requires Faithful(s) && w < |s.workers| && WorkerGenuine(s.workers[w].(phase := ph), s)
    ensures Faithful(WithPhase(s, w, ph))
  {
    var s' := WithPhase(s, w, ph);
    forall v | 0 <= v < |s'.workers|
      ensures WorkerGenuine(s'.workers[v], s')
    {
      assert WorkerGenuine(s.workers[v], s);
    }
  }

  lemma TrackerFaithful(s: State, t: Tracker)
    requires Faithful(s) && AllGenuine(Events(t.inFlight), s.accepted)
    ensures Faithful(s.(tracker := t))
  {
    forall v | 0 <= v < |s.workers|
      ensures WorkerGenuine(s.workers[v], s.(tracker := t))
    {
      assert WorkerGenuine(s.workers[v], s);
    }
  }

  lemma LaneFaithful(s: State, p: Priority, q: seq<Event>)
    requires Faithful(s) && AllGenuine(q, s.accepted)
    ensures Faithful(WithLane(s, p, q))
  {
    forall v | 0 <= v < |s.workers|
      ensures WorkerGenuine(s.workers[v], WithLane(s, p, q))
    {
      assert WorkerGenuine(s.workers[v], s);
    }
  }

  lemma DequeueFaithful(s: State, w: nat)
    requires Faithful(s) && CanDequeue(s, w)
    ensures Faithful(DoDequeue(s, w))
  {
    var p := s.workers[w].lane;
    var q := Lane(s, p);
    var buffer := s.workers[w].phase.buffer;
    assert WorkerGenuine(s.workers[w], s);
    assert Genuine(q[0], s.accepted);
    LaneFaithful(s, p, q[1..]);
    AppendGenuine(buffer, [q[0]], s.accepted);
    PhaseFaithful(WithLane(s, p, q[1..]), w, Collecting(buffer + [q[0]]));
  }

  lemma BeginFaithful(s: State, w: nat)
    requires Faithful(s) && SingleToken(s) && Distinct(s.tracker.inFlight) && CanBegin(s, w)
    ensures Faithful(DoBegin(s, w))
  {
    var buffer := s.workers[w].phase.buffer;
    assert WorkerGenuine(s.workers[w], s);
    BeginFresh(s, w);
    TrackAllFresh(s.tracker, buffer, s.clock);
    assert Events(s.tracker.inFlight + Entries(buffer, s.clock)) == Events(s.tracker.inFlight) + buffer;
    AppendGenuine(Events(s.tracker.inFlight), buffer, s.accepted);
    TrackerFaithful(s, TrackAll(s.tracker, buffer, s.clock));
    var s1 := s.(tracker := TrackAll(s.tracker, buffer, s.clock));
    PhaseFaithful(s1, w, Processing(buffer, false));
    assert DoBegin(s, w) == WithPhase(s1, w, Processing(buffer, false));
  }

  lemma CommitFaithful(s: State, w: nat)
    requires Faithful(s) && IsProcessing(s, w, false)
    ensures Faithful(DoCommit(s, w))
  {
    var batch := s.workers[w].phase.batch;
    assert WorkerGenuine(s.workers[w], s);
    UpsertContent(s.store, batch, s.accepted);
    var s1 := s.(store := Upsert(s.store, batch));
    forall v | 0 <= v < |s1.workers|
      ensures WorkerGenuine(s1.workers[v], s1)
    {
      assert WorkerGenuine(s.workers[v], s);
    }
    PhaseFaithful(s1, w, Processing(batch, true));
    assert DoCommit(s, w) == WithPhase(s1, w, Processing(batch, true));
  }

  lemma FinishFaithful(s: State, w: nat)
    requires Faithful(s) && Distinct(s.tracker.inFlight) && IsProcessing(s, w, true)
    ensures Faithful(DoFinish(s, w))
  {
    var batch := s.workers[w].phase.batch;
    AckAllIsWithout(s.tracker, batch);
    FilterGenuine(s.tracker.inFlight, (e: Entry) => e.event.id !in Ids(batch), s.accepted);
    TrackerFaithful(s, AckAll(s.tracker, batch));
    var s1 := s.(tracker := AckAll(s.tracker, batch));
    PhaseFaithful(s1, w, Collecting([]));
    assert DoFinish(s, w) == WithPhase(s1, w, Collecting([]));
  }

  lemma NackFaithful(s: State, id: EventId)
    requires Faithful(s) && Distinct(s.tracker.inFlight) && Has(s.tracker.inFlight, id)
    ensures Faithful(DoNack(s, id))
  {
    var es := s.tracker.inFlight;
    var e := es[Find(es, id)].event;
    assert Genuine(Events(es)[Find(es, id)], s.accepted);
    EnsureKeepsOrigin(e, s.accepted);
    RemoveIsFilter(es, id);
    FilterGenuine(es, (x: Entry) => x.event.id != id, s.accepted);
    TrackerFaithful(s, Nack(s.tracker, id));
    AppendGenuine(s.critical, [EnsurePriority(e)], s.accepted);
    LaneFaithful(s.(tracker := Nack(s.tracker, id)), Critical, s.critical + [EnsurePriority(e)]);
  }

  lemma SweptGenuine(s: State)
    requires AllGenuine(Events(s.tracker.inFlight), s.accepted)
    ensures AllGenuine(Swept(s.tracker, s.clock, s.timeout), s.accepted)
  {
    var x := Expired(s.tracker.inFlight, s.clock, s.timeout);
    var back := Swept(s.tracker, s.clock, s.timeout);
    FilterGenuine(s.tracker.inFlight, (e: Entry) => TimedOut(e, s.clock, s.timeout), s.accepted);
    forall i | 0 <= i < |back|
      ensures Genuine(back[i], s.accepted)
    {
      assert Genuine(Events(x)[i], s.accepted);
    }
  }

  lemma SweepFaithful(s: State)
    requires Faithful(s)
    ensures Faithful(DoSweep(s))
  {
    var struck := Struck(s.tracker, s.clock, s.timeout);
    var critical := s.critical + Swept(s.tracker, s.clock, s.timeout);
    FilterGenuine(s.tracker.inFlight, (e: Entry) => e.event.id !in Keys(struck), s.accepted);
    TrackerFaithful(s, Sweep(s.tracker, s.clock, s.timeout));
    SweptGenuine(s);
    AppendGenuine(s.critical, Swept(s.tracker, s.clock, s.timeout), s.accepted);
    var s1 := s.(tracker := Sweep(s.tracker, s.clock, s.timeout));
    LaneFaithful(s1, Critical, critical);
    ClockFaithful(WithLane(s1, Critical, critical), s.clock, DoSweep(s).lastSweep);
  }

  lemma ClockFaithful(s: State, clock: real, lastSweep: real)
    requires Faithful(s)
    ensures Faithful(s.(clock := clock, lastSweep := lastSweep))
  {
    forall v | 0 <= v < |s.workers|
      ensures WorkerGenuine(s.workers[v], s.(clock := clock, lastSweep := lastSweep))
    {
      assert WorkerGenuine(s.workers[v], s);
    }
  }

  lemma SpawnFaithful(s: State, lane: Priority, n: nat)
    requires Faithful(s)
    ensures Faithful(DoSpawn(s, lane, n))
  {
    var s' := DoSpawn(s, lane, n);
    forall v | 0 <= v < |s'.workers|
      ensures WorkerGenuine(s'.workers[v], s')
    {
      if v < |s.workers| {
        assert WorkerGenuine(s.workers[v], s);
      }
    }
  }

  lemma StepFaithful(s: State, step: Step)
    requires Faithful(s) && SingleToken(s) && Distinct(s.tracker.inFlight) && Enabled(s, step)
    ensures Faithful(Next(s, step))
  {
    match step
    case Ingest(e) => IngestFaithful(s, e);
    case Dequeue(w) => DequeueFaithful(s, w);
    case Begin(w) => BeginFaithful(s, w);
    case Commit(w) => CommitFaithful(s, w);
    case Finish(w) => FinishFaithful(s, w);
    case Fail(w) => PhaseFaithful(s, w, Collecting([]));
    case Crash(w) => PhaseFaithful(s, w, Stopped);
    case Retire(w) => PhaseFaithful(s, w, Stopped);
    case NackRequeue(id) => NackFaithful(s, id);
    case RecoverySweep => SweepFaithful(s);
    case Tick(now) => ClockFaithful(s, now, s.lastSweep);
    case Spawn(lane, n) => SpawnFaithful(s, lane, n);
  }

  // ---- One live copy, none lost ----

  lemma {:induction false} BufferedGenuine(ws: seq<Worker>, s: State, id: EventId)
    requires forall w :: 0 <= w < |ws| ==> WorkerGenuine(ws[w], s)
    requires Buffered(ws, id) > 0
    ensures id in s.accepted
  {
    var n := |ws| - 1;
    var held := Held(ws[n]);
    if Copies(held, id) > 0 {
      CopiesMember(held, id);
      var i :| 0 <= i < |held| && Ids(held)[i] == id;
      assert WorkerGenuine(ws[n], s) && Genuine(held[i], s.accepted);
    } else {
      BufferedGenuine(ws[..n], s, id);
    }
  }

  lemma CopiesGenuine(es: seq<Event>, accepted: map<EventId, Event>, id: EventId)
    requires AllGenuine(es, accepted) && Copies(es, id) > 0
    ensures id in accepted
  {
    CopiesMember(es, id);
    var i :| 0 <= i < |es| && Ids(es)[i] == id;
    assert Genuine(es[i], accepted);
  }

  /** Every token belongs to an accepted event. */
  lemma TokensAccepted(s: State, id: EventId)
    requires Faithful(s) && Tokens(s, id) > 0
    ensures id in s.accepted
  {
    if Copies(s.critical, id) > 0 {
      CopiesGenuine(s.critical, s.accepted, id);
    } else if Copies(s.normal, id) > 0 {
      CopiesGenuine(s.normal, s.accepted, id);
    } else if Copies(s.bestEffort, id) > 0 {
      CopiesGenuine(s.bestEffort, s.accepted, id);
    } else if Buffered(s.workers, id) > 0 {
      BufferedGenuine(s.workers, s, id);
    } else {
      KeyCopiesMember(s.tracker.inFlight, id);
      var i :| 0 <= i < |s.tracker.inFlight| && Keys(s.tracker.inFlight)[i] == id;
      assert Genuine(Events(s.tracker.inFlight)[i], s.accepted);
    }
  }

  lemma StepSingleToken(s: State, step: Step)
    requires Inv(s) && Enabled(s, step)
    ensures SingleToken(Next(s, step))
  {
    forall id
      ensures Tokens(Next(s, step), id) <= 1
    {
      StepTokens(s, step, id);
      assert Tokens(s, id) <= 1;
      if step.Ingest? && step.e.id == id && Tokens(s, id) > 0 {
        TokensAccepted(s, id);
      }
    }
  }

  lemma StoreGrows(s: State, step: Step, id: EventId)
    requires Inv(s) && Enabled(s, step)
    ensures id in s.store ==> id in Next(s, step).store
    ensures step.Finish? && id in Ids(s.workers[step.w].phase.batch) ==> id in s.store
  {
    if step.Commit? {
      assert WorkerGenuine(s.workers[step.w], s);
      UpsertContent(s.store, s.workers[step.w].phase.batch, s.accepted);
    }
    if step.Finish? && id in Ids(s.workers[step.w].phase.batch) {
      var batch := s.workers[step.w].phase.batch;
      var i :| 0 <= i < |batch| && Ids(batch)[i] == id;
      assert WorkerGenuine(s.workers[step.w], s);
      assert batch[i].id in s.store;
    }
  }

  lemma AcceptedGrows(s: State, step: Step, id: EventId)
    requires Enabled(s, step)
    ensures id in Next(s, step).accepted <==> id in s.accepted || (step.Ingest? && step.e.id == id)
    ensures id in s.accepted ==> Next(s, step).accepted[id] == s.accepted[id]
  {
  }

  /** What a sweep drops is an event whose retry note did not count when it was accepted. */
  lemma LostDoesNotCount(s: State, id: EventId)
    requires Faithful(s) && Lost(s, id) > 0
    ensures id in s.accepted && !Counts(s.accepted[id].retries)
  {
    var gone := Dropped(s.tracker, s.clock, s.timeout);
    DroppedDoesNotCount(s.tracker, s.clock, s.timeout);
    KeyCopiesMember(gone, id);
    var i :| 0 <= i < |gone| && Keys(gone)[i] == id;
    var j :| 0 <= j < |s.tracker.inFlight| && s.tracker.inFlight[j] == gone[i];
    assert Genuine(Events(s.tracker.inFlight)[j], s.accepted);
  }

  lemma StepNoneLost(s: State, step: Step)
    requires Inv(s) && Enabled(s, step)
    ensures NoneLost(Next(s, step))
  {
    var s' := Next(s, step);
    forall id | id in s'.accepted && Counts(s'.accepted[id].retries)
      ensures Kept(s', id)
    {
      StepTokens(s, step, id);
      StoreGrows(s, step, id);
      AcceptedGrows(s, step, id);
      if step.RecoverySweep? && Lost(s, id) > 0 {
        LostDoesNotCount(s, id);
      }
    }
  }

  // ---- The tracker's ledger, its distinct keys and the age of its entries ----

  lemma AcksKeepLedger(t: Tracker, es: seq<Event>)
    requires Distinct(t.inFlight)
    ensures Distinct(AckAll(t, es).inFlight)
    ensures AckAll(t, es).acked + |AckAll(t, es).inFlight| == t.acked + |t.inFlight|
    ensures AckAll(t, es).tracked == t.tracked && AckAll(t, es).recovered == t.recovered
  {
    AckAllIsWithout(t, es);
    FilterDistinct(t.inFlight, (e: Entry) => e.event.id !in Ids(es));
  }

  lemma SweepKeepsDistinct(t: Tracker, now: real, timeout: real)
    requires Distinct(t.inFlight)
    ensures Distinct(Sweep(t, now, timeout).inFlight)
    ensures |Sweep(t, now, timeout).inFlight| + Sweep(t, now, timeout).recovered == |t.inFlight| + t.recovered
    ensures Sweep(t, now, timeout).tracked == t.tracked && Sweep(t, now, timeout).acked == t.acked
  {
    SweepConserves(t, now, timeout, "");
    FilterDistinct(t.inFlight, (e: Entry) => e.event.id !in Keys(Struck(t, now, timeout)));
  }

  predicate TrackerSound(s: State) {
    Ledger(s) && Distinct(s.tracker.inFlight)
  }

  lemma BeginTracker(s: State, w: nat)
    requires TrackerSound(s) && SingleToken(s) && CanBegin(s, w)
    ensures TrackerSound(DoBegin(s, w))
  {
    BeginFresh(s, w);
    TrackAllFresh(s.tracker, s.workers[w].phase.buffer, s.clock);
  }

  lemma FinishTracker(s: State, w: nat)
    requires TrackerSound(s) && IsProcessing(s, w, true)
    ensures TrackerSound(DoFinish(s, w))
  {
    AcksKeepLedger(s.tracker, s.workers[w].phase.batch);
  }

  lemma NackTracker(s: State, id: EventId)
    requires TrackerSound(s) && Has(s.tracker.inFlight, id)
    ensures TrackerSound(DoNack(s, id))
  {
    RemoveIsFilter(s.tracker.inFlight, id);
  }

  lemma SweepTracker(s: State)
    requires TrackerSound(s)
    ensures TrackerSound(DoSweep(s))
  {
    SweepKeepsDistinct(s.tracker, s.clock, s.timeout);
  }

  lemma StepTracker(s: State, step: Step)
    requires Inv(s) && Enabled(s, step)
    ensures TrackerSound(Next(s, step))
  {
    match step
    case Begin(w) => BeginTracker(s, w);
    case Finish(w) => FinishTracker(s, w);
    case NackRequeue(id) => NackTracker(s, id);
    case RecoverySweep => SweepTracker(s);
    case _ =>
  }

  lemma FilterOnTime(es: seq<Entry>, p: Entry -> bool, clock: real, lastSweep: real, timeout: real)
    requires AllOnTime(es, clock, lastSweep, timeout)
    ensures AllOnTime(Filter(es, p), clock, lastSweep, timeout)
  {
    var r := Filter(es, p);
    FilterMembers(es, p);
    forall i | 0 <= i < |r|
      ensures r[i].start <= clock && lastSweep - r[i].start <= timeout
    {
      assert r[i] in r;
      var j :| 0 <= j < |es| && es[j] == r[i];
    }
  }

  lemma AliveOnTime(es: seq<Entry>, clock: real, lastSweep: real, timeout: real)
    requires AllOnTime(es, clock, lastSweep, timeout)
    ensures AllOnTime(Alive(es, clock, timeout), clock, clock, timeout)
  {
    var p := (e: Entry) => !TimedOut(e, clock, timeout);
    var r := Alive(es, clock, timeout);
    FilterOnTime(es, p, clock, lastSweep, timeout);
    FilterMembers(es, p);
    forall i | 0 <= i < |r|
      ensures clock - r[i].start <= timeout
    {
      assert r[i] in r;
    }
  }

  /** What a completed sweep leaves has not timed out by the sweep's own time. */
  lemma SweepPunctual(s: State)
    requires Punctual(s) && Distinct(s.tracker.inFlight)
    ensures Punctual(DoSweep(s))
  {
    if Completes(s.tracker, s.clock, s.timeout) {
      CompletedSweep(s.tracker, s.clock, s.timeout);
      AliveOnTime(s.tracker.inFlight, s.clock, s.lastSweep, s.timeout);
    } else {
      var p := (e: Entry) => e.event.id !in Keys(Struck(s.tracker, s.clock, s.timeout));
      FilterOnTime(s.tracker.inFlight, p, s.clock, s.lastSweep, s.timeout);
    }
  }

  lemma BeginPunctual(s: State, w: nat)
    requires Inv(s) && CanBegin(s, w)
    ensures Punctual(DoBegin(s, w))
  {
    BeginFresh(s, w);
    TrackAllFresh(s.tracker, s.workers[w].phase.buffer, s.clock);
  }

  lemma FinishPunctual(s: State, w: nat)
    requires Inv(s) && IsProcessing(s, w, true)
    ensures Punctual(DoFinish(s, w))
  {
    var batch := s.workers[w].phase.batch;
    AckAllIsWithout(s.tracker, batch);
    FilterOnTime(s.tracker.inFlight, (e: Entry) => e.event.id !in Ids(batch), s.clock, s.lastSweep, s.timeout);
  }

  lemma NackPunctual(s: State, id: EventId)
    requires Inv(s) && Has(s.tracker.inFlight, id)
    ensures Punctual(DoNack(s, id))
  {
    RemoveIsFilter(s.tracker.inFlight, id);
    FilterOnTime(s.tracker.inFlight, (e: Entry) => e.event.id != id, s.clock, s.lastSweep, s.timeout);
  }

  lemma StepPunctual(s: State, step: Step)
    requires Inv(s) && Enabled(s, step)
    ensures Punctual(Next(s, step))
  {
    match step
    case Begin(w) => BeginPunctual(s, w);
    case Finish(w) => FinishPunctual(s, w);
    case NackRequeue(id) => NackPunctual(s, id);
    case RecoverySweep => SweepPunctual(s);
    case _ =>
  }

  // ---- Main results ----

  lemma StepKeepsInv(s: State, step: Step)
    requires Inv(s) && Enabled(s, step)
    ensures Inv(Next(s, step))
  {
    StepFaithful(s, step);
    StepSingleToken(s, step);
    StepNoneLost(s, step);
    StepTracker(s, step);
    StepPunctual(s, step);
  }

  lemma {:induction false} BufferedNone(ws: seq<Worker>, id: EventId)
    requires forall w :: 0 <= w < |ws| ==> ws[w].phase == Collecting([])
    ensures Buffered(ws, id) == 0
  {
    if ws != [] {
      BufferedNone(ws[..|ws| - 1], id);
    }
  }

  lemma InitialInv(s: State)
    requires Initial(s)
    ensures Inv(s)
  {
    forall id
      ensures Tokens(s, id) == 0
    {
      BufferedNone(s.workers, id);
    }
  }

  /** Every run, of any length and any interleaving, keeps the invariant. */
  lemma {:induction false} RunKeepsInv(s: State, steps: seq<Step>)
    requires Inv(s) && Legal(s, steps)
    ensures Inv(Run(s, steps))
    decreases |steps|
  {
    if steps != [] {
      StepKeepsInv(s, steps[0]);
      RunKeepsInv(Next(s, steps[0]), steps[1..]);
    }
  }

  /** Whatever was accepted, in whatever run, has at most one live copy, and a stored row carries
      the accepted event's origin; and when the retry note it came with counts, as an absent one
      does, it is waiting, buffered, in flight or stored. */
  lemma AcceptedIsNeverLost(s: State, steps: seq<Step>, id: EventId)
    requires Initial(s) && Legal(s, steps) && id in Run(s, steps).accepted
    ensures
      var r := Run(s, steps);
      && Tokens(r, id) <= 1
      && (Counts(r.accepted[id].retries) ==> Tokens(r, id) == 1 || id in r.store)
      && (id in r.store ==> SameOrigin(r.store[id], r.accepted[id]))
  {
    InitialInv(s);
    RunKeepsInv(s, steps);
    var r := Run(s, steps);
    assert Tokens(r, id) <= 1;
    if Counts(r.accepted[id].retries) {
      assert Kept(r, id);
    }
  }

  /** `track` never overwrites, and the four counters always balance. */
  lemma CountersBalance(s: State, steps: seq<Step>)
    requires Initial(s) && Legal(s, steps)
    ensures Ledger(Run(s, steps)) && Distinct(Run(s, steps).tracker.inFlight)
  {
    InitialInv(s);
    RunKeepsInv(s, steps);
  }

  /** With completed sweeps at most `delta` apart, nothing stays in flight longer than the timeout plus `delta`. */
  lemma BoundedAge(s: State, steps: seq<Step>, delta: real, i: nat)
    requires Initial(s) && Legal(s, steps)
    requires Run(s, steps).clock - Run(s, steps).lastSweep <= delta
    requires i < |Run(s, steps).tracker.inFlight|
    ensures 0.0 <= Run(s, steps).clock - Run(s, steps).tracker.inFlight[i].start <= s.timeout + delta
  {
    InitialInv(s);
    RunKeepsInv(s, steps);
    RunKeepsTimeout(s, steps);
  }

  lemma {:induction false} RunKeepsTimeout(s: State, steps: seq<Step>)
    requires Legal(s, steps)
    ensures Run(s, steps).timeout == s.timeout
    decreases |steps|
  {
    if steps != [] {
      RunKeepsTimeout(Next(s, steps[0]), steps[1..]);
    }
  }

  lemma AckTokens(s: State, id: EventId, other: EventId)
    requires Distinct(s.tracker.inFlight)
    ensures Tokens(s.(tracker := Ack(s.tracker, id)), other)
         == Tokens(s, other) - if other == id then KeyCopies(s.tracker.inFlight, id) else 0
  {
    var es := s.tracker.inFlight;
    RemoveIsFilter(es, id);
    FilterAgree(es, (e: Entry) => e.event.id != id, (e: Entry) => e.event.id !in [id]);
    WithoutCopies(es, [id], other);
    HasKey(es, id);
    KeyCopiesMember(es, id);
  }

  /** The acknowledgement discipline is exactly what safety needs: an acknowledgement from
      anywhere keeps every event if and only if it names nothing in flight or something stored. */
  lemma AckIsSafeIffStored(s: State, id: EventId)
    requires Inv(s)
    ensures (forall x :: x in s.accepted && Kept(s, x) ==> Kept(s.(tracker := Ack(s.tracker, id)), x))
       <==> (Has(s.tracker.inFlight, id) ==> id in s.store)
  {
    var s' := s.(tracker := Ack(s.tracker, id));
    HasKey(s.tracker.inFlight, id);
    KeyCopiesMember(s.tracker.inFlight, id);
    assert Tokens(s, id) <= 1;
    AckTokens(s, id, id);
    if !Has(s.tracker.inFlight, id) || id in s.store {
      forall x | x in s.accepted && Kept(s, x)
        ensures Kept(s', x)
      {
        AckTokens(s, id, x);
      }
    } else {
      TokensAccepted(s, id);
      assert Kept(s, id) && !Kept(s', id);
    }
  }
}
