/** What runs of the delivery protocol keep of the past: the order of each lane, how often an
    event was recovered and when, how much a worker holds, and what the table ends with. */
module DeliveryHistory {
  import opened Contracts
  import opened InFlight
  import opened Delivery
  import opened DeliverySafety

  // ---- Every lane is first in, first out ----

  /** What a step puts at the end of a lane. Whatever is handed back goes to CRITICAL. */
  function Entering(s: State, step: Step, p: Priority): seq<Event>
    requires Enabled(s, step)
  {
    match step
    case Ingest(e) => if LaneFor(e) == p then [e.(priority := Some(p))] else []
    case NackRequeue(id) =>
      var e := s.tracker.inFlight[Find(s.tracker.inFlight, id)].event;
      if p == Critical then [e.(priority := Some(LaneFor(e)))] else []
    case RecoverySweep => if p == Critical then Swept(s.tracker, s.clock, s.timeout) else []
    case _ => []
  }

  /** What a step takes from the front of a lane: what the worker's buffer gains. */
  function Leaving(s: State, step: Step, p: Priority): seq<Event>
    requires Enabled(s, step)
  {
    if step.Dequeue? && s.workers[step.w].lane == p then
      DoDequeue(s, step.w).workers[step.w].phase.buffer[|s.workers[step.w].phase.buffer|..]
    else []
  }

  lemma DequeueMovesHead(s: State, w: nat)
    requires CanDequeue(s, w)
    ensures var s' := DoDequeue(s, w);
      && |s'.workers| == |s.workers| && s'.workers[w].phase.Collecting?
      && s'.workers[w].phase.buffer == s.workers[w].phase.buffer + [Lane(s, s.workers[w].lane)[0]]
      && (forall p :: Lane(s', p) == if p == s.workers[w].lane then Lane(s, p)[1..] else Lane(s, p))
  {
  }

  lemma Unmoved(q: seq<Event>)
    ensures [] + q == q + [] == q
  {
  }

  lemma DequeueLanes(s: State, w: nat, p: Priority)
    requires CanDequeue(s, w)
    ensures Leaving(s, Dequeue(w), p) + Lane(DoDequeue(s, w), p) == Lane(s, p)
  {
    DequeueMovesHead(s, w);
    Unmoved(Lane(s, p));
    if s.workers[w].lane == p {
      assert Leaving(s, Dequeue(w), p) == [Lane(s, p)[0]];
      assert [Lane(s, p)[0]] + Lane(s, p)[1..] == Lane(s, p);
    }
  }

  lemma ArrivalLanes(s: State, step: Step, p: Priority)
    requires Enabled(s, step) && !step.Dequeue?
    ensures Lane(Next(s, step), p) == Lane(s, p) + Entering(s, step, p)
  {
    Unmoved(Lane(s, p));
  }

  lemma StepLanes(s: State, step: Step, p: Priority)
    requires Enabled(s, step)
    ensures Leaving(s, step, p) + Lane(Next(s, step), p) == Lane(s, p) + Entering(s, step, p)
  {
    if step.Dequeue? {
      DequeueLanes(s, step.w, p);
      Unmoved(Lane(s, p));
    } else {
      ArrivalLanes(s, step, p);
      Unmoved(Lane(Next(s, step), p));
    }
  }

  function Taken(s: State, steps: seq<Step>, p: Priority): seq<Event>
    requires Legal(s, steps)
    decreases |steps|
  {
    if steps == [] then [] else Leaving(s, steps[0], p) + Taken(Next(s, steps[0]), steps[1..], p)
  }

  function Arrived(s: State, steps: seq<Step>, p: Priority): seq<Event>
    requires Legal(s, steps)
    decreases |steps|
  {
    if steps == [] then [] else Entering(s, steps[0], p) + Arrived(Next(s, steps[0]), steps[1..], p)
  }

  lemma Shift(left: seq<Event>, later: seq<Event>, end: seq<Event>, lane1: seq<Event>, arrivals: seq<Event>,
              lane: seq<Event>, entry: seq<Event>)
    requires later + end == lane1 + arrivals && left + lane1 == lane + entry
    ensures (left + later) + end == lane + (entry + arrivals)
  {
    assert (left + later) + end == left + (later + end);
    assert left + (lane1 + arrivals) == (left + lane1) + arrivals;
    assert (lane + entry) + arrivals == lane + (entry + arrivals);
  }

  /** In every run, what the workers took from a lane followed by what it holds is what it held
      followed by what entered it: ingested events on the lane they ask for, negatively
      acknowledged and recovered ones on CRITICAL. */
  lemma {:induction false} LanesAreFifo(s: State, steps: seq<Step>, p: Priority)
    requires Legal(s, steps)
    ensures Taken(s, steps, p) + Lane(Run(s, steps), p) == Lane(s, p) + Arrived(s, steps, p)
    decreases |steps|
  {
    if steps == [] {
      Unmoved(Lane(s, p));
    } else {
      var s1 := Next(s, steps[0]);
      StepLanes(s, steps[0], p);
      LanesAreFifo(s1, steps[1..], p);
      Shift(Leaving(s, steps[0], p), Taken(s1, steps[1..], p), Lane(Run(s, steps), p), Lane(s1, p),
            Arrived(s1, steps[1..], p), Lane(s, p), Entering(s, steps[0], p));
    }
  }

  // ---- The retry note counts the recoveries ----

  predicate AllNoted(es: seq<Event>, id: EventId, note: Note) {
    forall i :: 0 <= i < |es| && es[i].id == id ==> es[i].retries == note
  }

  /** Every live copy of the event carries this retry note. */
  predicate Noted(s: State, id: EventId, note: Note) {
    && AllNoted(s.critical, id, note) && AllNoted(s.normal, id, note) && AllNoted(s.bestEffort, id, note)
    && AllNoted(Events(s.tracker.inFlight), id, note)
    && forall w :: 0 <= w < |s.workers| ==> AllNoted(Held(s.workers[w]), id, note)
  }

  predicate Requeues(s: State, step: Step, id: EventId) {
    step.RecoverySweep? && id in Ids(Swept(s.tracker, s.clock, s.timeout))
  }

  /** How many sweeps of a run put the event back on CRITICAL. */
  function Recoveries(s: State, steps: seq<Step>, id: EventId): nat
    requires Legal(s, steps)
    decreases |steps|
  {
    if steps == [] then 0
    else (if Requeues(s, steps[0], id) then 1 else 0) + Recoveries(Next(s, steps[0]), steps[1..], id)
  }

  lemma AbsentNoNote(es: seq<Event>, id: EventId, note: Note)
    requires id !in Ids(es)
    ensures AllNoted(es, id, note)
  {
    forall i | 0 <= i < |es|
      ensures es[i].id != id
    {
      assert Ids(es)[i] in Ids(es);
    }
  }

  lemma NoCopyNoNote(es: seq<Event>, id: EventId, note: Note)
    requires Copies(es, id) == 0
    ensures AllNoted(es, id, note)
  {
    CopiesMember(es, id);
    AbsentNoNote(es, id, note);
  }

  /** An event without a live copy carries any note. */
  lemma NoTokenNoNote(s: State, id: EventId, note: Note)
    requires Tokens(s, id) == 0
    ensures Noted(s, id, note)
  {
    NoCopyNoNote(s.critical, id, note);
    NoCopyNoNote(s.normal, id, note);
    NoCopyNoNote(s.bestEffort, id, note);
    EventsCopies(s.tracker.inFlight, id);
    NoCopyNoNote(Events(s.tracker.inFlight), id, note);
    forall w | 0 <= w < |s.workers|
      ensures AllNoted(Held(s.workers[w]), id, note)
    {
      BufferedAtLeast(s.workers, w, id);
      NoCopyNoNote(Held(s.workers[w]), id, note);
    }
  }

  lemma AppendNoted(a: seq<Event>, b: seq<Event>, id: EventId, note: Note)
    requires AllNoted(a, id, note) && AllNoted(b, id, note)
    ensures AllNoted(a + b, id, note)
  {
  }

  lemma FilterNoted(es: seq<Entry>, p: Entry -> bool, id: EventId, note: Note)
    requires AllNoted(Events(es), id, note)
    ensures AllNoted(Events(Filter(es, p)), id, note)
  {
    var r := Filter(es, p);
    FilterMembers(es, p);
    forall i | 0 <= i < |r| && r[i].event.id == id
      ensures r[i].event.retries == note
    {
      assert r[i] in r;
      var j :| 0 <= j < |es| && es[j] == r[i];
      assert Events(es)[j].retries == note;
    }
  }

  lemma IngestNoted(s: State, e: Event, id: EventId, note: Note)
    requires Noted(s, id, note) && (e.id == id ==> e.retries == note)
    ensures Noted(DoIngest(s, e), id, note)
  {
    var e' := EnsurePriority(e);
    AppendNoted(Lane(s, e'.priority.value), [e'], id, note);
  }

  lemma DequeueNoted(s: State, w: nat, id: EventId, note: Note)
    requires Noted(s, id, note) && CanDequeue(s, w)
    ensures Noted(DoDequeue(s, w), id, note)
  {
    var q := Lane(s, s.workers[w].lane);
    assert AllNoted(Held(s.workers[w]), id, note) && AllNoted(q, id, note);
    assert AllNoted(q[1..], id, note) && AllNoted([q[0]], id, note);
    AppendNoted(s.workers[w].phase.buffer, [q[0]], id, note);
  }

  lemma BeginNoted(s: State, w: nat, id: EventId, note: Note)
    requires Inv(s) && Noted(s, id, note) && CanBegin(s, w)
    ensures Noted(DoBegin(s, w), id, note)
  {
    var buffer := s.workers[w].phase.buffer;
    assert AllNoted(Held(s.workers[w]), id, note);
    BeginFresh(s, w);
    TrackAllFresh(s.tracker, buffer, s.clock);
    assert Events(s.tracker.inFlight + Entries(buffer, s.clock)) == Events(s.tracker.inFlight) + buffer;
    AppendNoted(Events(s.tracker.inFlight), buffer, id, note);
  }

  lemma FinishNoted(s: State, w: nat, id: EventId, note: Note)
    requires Inv(s) && Noted(s, id, note) && IsProcessing(s, w, true)
    ensures Noted(DoFinish(s, w), id, note)
  {
    var batch := s.workers[w].phase.batch;
    AckAllIsWithout(s.tracker, batch);
    FilterNoted(s.tracker.inFlight, (e: Entry) => e.event.id !in Ids(batch), id, note);
  }

  lemma NackNoted(s: State, nacked: EventId, id: EventId, note: Note)
    requires Inv(s) && Noted(s, id, note) && Has(s.tracker.inFlight, nacked)
    ensures Noted(DoNack(s, nacked), id, note)
  {
    var es := s.tracker.inFlight;
    var e := es[Find(es, nacked)].event;
    assert Events(es)[Find(es, nacked)] == e;
    RemoveIsFilter(es, nacked);
    FilterNoted(es, (x: Entry) => x.event.id != nacked, id, note);
    AppendNoted(s.critical, [EnsurePriority(e)], id, note);
  }

  /** What a sweep requeues carries one more than it did. */
  lemma SweptNoted(s: State, id: EventId, note: Note)
    requires AllNoted(Events(s.tracker.inFlight), id, note)
    ensures AllNoted(Swept(s.tracker, s.clock, s.timeout), id, Plus(note, 1))
  {
    var x := Expired(s.tracker.inFlight, s.clock, s.timeout);
    var back := Swept(s.tracker, s.clock, s.timeout);
    FilterNoted(s.tracker.inFlight, (e: Entry) => TimedOut(e, s.clock, s.timeout), id, note);
    CountableStops(x);
    forall i | 0 <= i < |back| && back[i].id == id
      ensures back[i].retries == Plus(note, 1)
    {
      assert Events(x)[i].retries == note;
      PlusOne(note);
    }
  }

  lemma SweepLeavesNoted(s: State, id: EventId, note: Note)
    requires AllNoted(Events(s.tracker.inFlight), id, note)
    ensures AllNoted(Events(DoSweep(s).tracker.inFlight), id, note)
  {
    FilterNoted(s.tracker.inFlight, (e: Entry) => e.event.id !in Keys(Struck(s.tracker, s.clock, s.timeout)), id, note);
  }

  /** A requeued event has its one live copy among those the sweep puts back. */
  lemma RequeuedOnlyThere(s: State, id: EventId)
    requires Inv(s) && Requeues(s, RecoverySweep, id)
    ensures Copies(s.critical, id) == Copies(s.normal, id) == Copies(s.bestEffort, id) == 0
    ensures Buffered(s.workers, id) == 0 && KeyCopies(DoSweep(s).tracker.inFlight, id) == 0
  {
    SweepConserves(s.tracker, s.clock, s.timeout, id);
    CopiesMember(Swept(s.tracker, s.clock, s.timeout), id);
    assert Tokens(s, id) <= 1;
  }

  lemma RequeueNoted(s: State, id: EventId, note: Note)
    requires Inv(s) && Noted(s, id, note) && Requeues(s, RecoverySweep, id)
    ensures Noted(DoSweep(s), id, Plus(note, 1))
  {
    var more := Plus(note, 1);
    RequeuedOnlyThere(s, id);
    NoCopyNoNote(s.critical, id, more);
    NoCopyNoNote(s.normal, id, more);
    NoCopyNoNote(s.bestEffort, id, more);
    SweptNoted(s, id, note);
    AppendNoted(s.critical, Swept(s.tracker, s.clock, s.timeout), id, more);
    EventsCopies(DoSweep(s).tracker.inFlight, id);
    NoCopyNoNote(Events(DoSweep(s).tracker.inFlight), id, more);
    forall w | 0 <= w < |s.workers|
      ensures AllNoted(Held(s.workers[w]), id, more)
    {
      BufferedAtLeast(s.workers, w, id);
      NoCopyNoNote(Held(s.workers[w]), id, more);
    }
  }

  lemma OtherSweepNoted(s: State, id: EventId, note: Note)
    requires Noted(s, id, note) && !Requeues(s, RecoverySweep, id)
    ensures Noted(DoSweep(s), id, note)
  {
    var back := Swept(s.tracker, s.clock, s.timeout);
    SweepLeavesNoted(s, id, note);
    AbsentNoNote(back, id, note);
    AppendNoted(s.critical, back, id, note);
  }

  lemma StepNoted(s: State, step: Step, id: EventId, note: Note)
    requires Inv(s) && Enabled(s, step) && Noted(s, id, note)
    requires step.Ingest? && step.e.id == id ==> step.e.retries == note
    ensures Noted(Next(s, step), id, Plus(note, if Requeues(s, step, id) then 1 else 0))
  {
    PlusOne(note);
    match step
    case Ingest(e) => IngestNoted(s, e, id, note);
    case Dequeue(w) => DequeueNoted(s, w, id, note);
    case Begin(w) => BeginNoted(s, w, id, note);
    case Finish(w) => FinishNoted(s, w, id, note);
    case NackRequeue(nacked) => NackNoted(s, nacked, id, note);
    case RecoverySweep =>
      if Requeues(s, step, id) {
        RequeueNoted(s, id, note);
      } else {
        OtherSweepNoted(s, id, note);
      }
    case _ =>
  }

  lemma UnacceptedIsNotRequeued(s: State, step: Step, id: EventId)
    requires Inv(s) && Enabled(s, step) && id !in s.accepted
    ensures Tokens(s, id) == 0 && !Requeues(s, step, id)
  {
    if Tokens(s, id) > 0 {
      TokensAccepted(s, id);
    }
    SweepConserves(s.tracker, s.clock, s.timeout, id);
    CopiesMember(Swept(s.tracker, s.clock, s.timeout), id);
  }

  lemma {:induction false} RunNoted(s: State, steps: seq<Step>, id: EventId, note: Note)
    requires Inv(s) && Legal(s, steps) && id in s.accepted && Noted(s, id, note)
    ensures id in Run(s, steps).accepted && Run(s, steps).accepted[id] == s.accepted[id]
    ensures Noted(Run(s, steps), id, Plus(note, Recoveries(s, steps, id)))
    decreases |steps|
  {
    if steps == [] {
      PlusOne(note);
    } else {
      var s1, k := Next(s, steps[0]), if Requeues(s, steps[0], id) then 1 else 0;
      StepKeepsInv(s, steps[0]);
      AcceptedGrows(s, steps[0], id);
      StepNoted(s, steps[0], id, note);
      RunNoted(s1, steps[1..], id, Plus(note, k));
      PlusPlus(note, k, Recoveries(s1, steps[1..], id));
    }
  }

  lemma IngestedIsNoted(s: State, e: Event)
    requires Inv(s) && e.id !in s.accepted
    ensures Noted(DoIngest(s, e), e.id, e.retries) && DoIngest(s, e).accepted[e.id].retries == e.retries
  {
    UnacceptedIsNotRequeued(s, Ingest(e), e.id);
    NoTokenNoNote(s, e.id, e.retries);
    IngestNoted(s, e, e.id, e.retries);
  }

  lemma {:induction false} RunNotedOnceAccepted(s: State, steps: seq<Step>, id: EventId)
    requires Inv(s) && Legal(s, steps) && id !in s.accepted && id in Run(s, steps).accepted
    ensures Noted(Run(s, steps), id, Plus(Run(s, steps).accepted[id].retries, Recoveries(s, steps, id)))
    decreases |steps|
  {
    StepKeepsInv(s, steps[0]);
    UnacceptedIsNotRequeued(s, steps[0], id);
    AcceptedGrows(s, steps[0], id);
    if steps[0].Ingest? && steps[0].e.id == id {
      IngestedIsNoted(s, steps[0].e);
      RunNoted(Next(s, steps[0]), steps[1..], id, steps[0].e.retries);
    } else {
      RunNotedOnceAccepted(Next(s, steps[0]), steps[1..], id);
    }
  }

  /** In every run, the retry note of an event's live copy is the note it was accepted with plus
      the number of sweeps that put it back. */
  lemma RetriesCountRecoveries(s: State, steps: seq<Step>, id: EventId)
    requires Initial(s) && Legal(s, steps) && id in Run(s, steps).accepted
    ensures Noted(Run(s, steps), id, Plus(Run(s, steps).accepted[id].retries, Recoveries(s, steps, id)))
  {
    InitialInv(s);
    RunNotedOnceAccepted(s, steps, id);
  }

  // ---- When an event is recovered ----

  /** A sweep that nothing stops puts back exactly the events in flight for longer than the timeout. */
  lemma SweepRequeuesIffLate(s: State, i: nat)
    requires Inv(s) && i < |s.tracker.inFlight|
    ensures Requeues(s, RecoverySweep, s.tracker.inFlight[i].event.id) ==>
      s.clock - s.tracker.inFlight[i].start > s.timeout
    ensures Completes(s.tracker, s.clock, s.timeout) && s.clock - s.tracker.inFlight[i].start > s.timeout ==>
      Requeues(s, RecoverySweep, s.tracker.inFlight[i].event.id)
  {
    var es := s.tracker.inFlight;
    var x := Expired(es, s.clock, s.timeout);
    var back := Swept(s.tracker, s.clock, s.timeout);
    FilterMembers(es, (e: Entry) => TimedOut(e, s.clock, s.timeout));
    if es[i].event.id in Ids(back) {
      var j :| 0 <= j < |back| && Ids(back)[j] == es[i].event.id;
      assert x[j] in x;
      var k :| 0 <= k < |es| && es[k] == x[j];
      assert k == i;
    }
    if Completes(s.tracker, s.clock, s.timeout) && s.clock - es[i].start > s.timeout {
      assert es[i] in x;
      var j :| 0 <= j < |x| && x[j] == es[i];
      assert Ids(back)[j] == es[i].event.id;
    }
  }

  /** Nothing of the event has been in flight since before `since`. */
  predicate NotBefore(s: State, id: EventId, since: real) {
    since <= s.clock
    && forall i :: 0 <= i < |s.tracker.inFlight| && s.tracker.inFlight[i].event.id == id ==>
         s.tracker.inFlight[i].start >= since
  }

  lemma FilterNotBefore(s: State, p: Entry -> bool, id: EventId, since: real)
    requires NotBefore(s, id, since)
    ensures NotBefore(s.(tracker := s.tracker.(inFlight := Filter(s.tracker.inFlight, p))), id, since)
  {
    var r := Filter(s.tracker.inFlight, p);
    FilterMembers(s.tracker.inFlight, p);
    forall i | 0 <= i < |r| && r[i].event.id == id
      ensures r[i].start >= since
    {
      assert r[i] in r;
      var j :| 0 <= j < |s.tracker.inFlight| && s.tracker.inFlight[j] == r[i];
    }
  }

  lemma StepNotBefore(s: State, step: Step, id: EventId, since: real)
    requires Inv(s) && Enabled(s, step) && NotBefore(s, id, since)
    ensures NotBefore(Next(s, step), id, since)
  {
    match step
    case Begin(w) =>
      BeginFresh(s, w);
      TrackAllFresh(s.tracker, s.workers[w].phase.buffer, s.clock);
    case Finish(w) =>
      AckAllIsWithout(s.tracker, s.workers[w].phase.batch);
      FilterNotBefore(s, (e: Entry) => e.event.id !in Ids(s.workers[w].phase.batch), id, since);
    case NackRequeue(nacked) =>
      RemoveIsFilter(s.tracker.inFlight, nacked);
      FilterNotBefore(s, (e: Entry) => e.event.id != nacked, id, since);
    case RecoverySweep =>
      FilterNotBefore(s, (e: Entry) => e.event.id !in Keys(Struck(s.tracker, s.clock, s.timeout)), id, since);
    case _ =>
  }

  lemma TooSoon(s: State, step: Step, id: EventId, since: real)
    requires Inv(s) && Enabled(s, step) && NotBefore(s, id, since) && s.clock - since <= s.timeout
    ensures !Requeues(s, step, id)
  {
    if Requeues(s, step, id) {
      var es := s.tracker.inFlight;
      SweepConserves(s.tracker, s.clock, s.timeout, id);
      CopiesMember(Swept(s.tracker, s.clock, s.timeout), id);
      KeyCopiesMember(es, id);
      var i :| 0 <= i < |es| && Keys(es)[i] == id;
      SweepRequeuesIffLate(s, i);
    }
  }

  lemma {:induction false} ClockRuns(s: State, steps: seq<Step>)
    requires Legal(s, steps)
    ensures s.clock <= Run(s, steps).clock && Run(s, steps).timeout == s.timeout
    decreases |steps|
  {
    if steps != [] {
      ClockRuns(Next(s, steps[0]), steps[1..]);
    }
  }

  lemma {:induction false} NothingTooSoon(s: State, steps: seq<Step>, id: EventId, since: real)
    requires Inv(s) && Legal(s, steps) && NotBefore(s, id, since)
    requires Run(s, steps).clock - since <= s.timeout
    ensures Recoveries(s, steps, id) == 0
    decreases |steps|
  {
    if steps != [] {
      var s1 := Next(s, steps[0]);
      ClockRuns(s1, steps[1..]);
      TooSoon(s, steps[0], id, since);
      StepKeepsInv(s, steps[0]);
      StepNotBefore(s, steps[0], id, since);
      NothingTooSoon(s1, steps[1..], id, since);
    }
  }

  /** An event that a worker has begun is not recovered before the timeout has passed, whatever
      happens to it meanwhile. */
  lemma BegunIsGivenTheTimeout(s: State, w: nat, steps: seq<Step>, id: EventId)
    requires Inv(s) && CanBegin(s, w) && id in Ids(s.workers[w].phase.buffer)
    requires Legal(DoBegin(s, w), steps) && Run(DoBegin(s, w), steps).clock - s.clock <= s.timeout
    ensures Recoveries(DoBegin(s, w), steps, id) == 0
  {
    var t := DoBegin(s, w);
    var buffer := s.workers[w].phase.buffer;
    StepKeepsInv(s, Begin(w));
    BeginFresh(s, w);
    TrackAllFresh(s.tracker, buffer, s.clock);
    assert NotBefore(t, id, s.clock) by {
      CopiesMember(buffer, id);
      assert KeyCopies(s.tracker.inFlight, id) + Copies(buffer, id) <= 1;
      KeyCopiesMember(s.tracker.inFlight, id);
      assert forall i :: 0 <= i < |s.tracker.inFlight| ==> Keys(s.tracker.inFlight)[i] == s.tracker.inFlight[i].event.id;
    }
    NothingTooSoon(t, steps, id, s.clock);
  }

  // ---- What a worker holds ----

  predicate Fits(w: Worker) {
    match w.phase
    case Collecting(buffer) => |buffer| <= w.batchSize
    case Processing(batch, _) => 0 < |batch| <= w.batchSize
    case Stopped => true
  }

  predicate AllFit(s: State) {
    forall w :: 0 <= w < |s.workers| ==> Fits(s.workers[w])
  }

  /** No worker ever holds more than its batch size, nor processes an empty batch. */
  lemma {:induction false} BatchesFit(s: State, steps: seq<Step>)
    requires AllFit(s) && Legal(s, steps)
    ensures AllFit(Run(s, steps))
    decreases |steps|
  {
    if steps != [] {
      BatchesFit(Next(s, steps[0]), steps[1..]);
    }
  }

  // ---- What the table holds ----

  lemma {:induction false} OtherRowsStay(store: map<EventId, Event>, es: seq<Event>, id: EventId)
    requires id !in Ids(es)
    ensures id in Upsert(store, es) <==> id in store
    ensures id in store ==> Upsert(store, es)[id] == store[id]
  {
    if es != [] {
      var n := |es| - 1;
      assert Ids(es) == Ids(es[..n]) + [es[n].id];
      OtherRowsStay(store, es[..n], id);
    }
  }

  /** `INSERT OR REPLACE`: the last record of a batch under an identifier is the row. */
  lemma {:induction false} LastRecordWins(store: map<EventId, Event>, before: seq<Event>, e: Event, after: seq<Event>)
    requires e.id !in Ids(after)
    ensures var rows := Upsert(store, (before + [e]) + after);
      e.id in rows && rows[e.id] == e.(priority := Some(LaneFor(e)))
  {
    var es := (before + [e]) + after;
    var n := |es| - 1;
    if after == [] {
      assert es == before + [e];
    } else {
      var m := |after| - 1;
      assert es[..n] == (before + [e]) + after[..m];
      assert Ids(after) == Ids(after[..m]) + [after[m].id];
      LastRecordWins(store, before, e, after[..m]);
    }
  }

  // ---- What a step leaves alone ----

  /** Workers keep their lane and batch size, and a new one is idle, on the lane and of the batch
      size it was spawned with. */
  lemma WorkersKeepTheirPosts(s: State, step: Step, v: nat)
    requires Enabled(s, step) && v < |s.workers|
    ensures var ws := Next(s, step).workers;
      && |ws| == |s.workers| + (if step.Spawn? then 1 else 0)
      && ws[v].lane == s.workers[v].lane && ws[v].batchSize == s.workers[v].batchSize
      && (step.Spawn? ==> ws[|s.workers|] == Worker(step.lane, step.batchSize, Collecting([])))
  {
  }

  predicate Names(step: Step, v: nat) {
    match step
    case Dequeue(w) => w == v
    case Begin(w) => w == v
    case Commit(w) => w == v
    case Finish(w) => w == v
    case Fail(w) => w == v
    case Crash(w) => w == v
    case Retire(w) => w == v
    case _ => false
  }

  /** How a worker goes round: it starts on what it collected and nothing else, its batch stays the
      same until it finishes or fails, and it stops for good when it crashes or is retired. */
  lemma PhaseCycle(s: State, step: Step, v: nat)
    requires Enabled(s, step) && v < |s.workers|
    ensures var was, ph := s.workers[v].phase, Next(s, step).workers[v].phase;
      && (!Names(step, v) ==> ph == was)
      && (ph.Stopped? <==> was.Stopped? || step == Crash(v) || step == Retire(v))
      && (step == Begin(v) <==> was.Collecting? && ph.Processing?)
      && (step == Begin(v) ==> ph == Processing(was.buffer, false))
      && (step == Commit(v) <==> was.Processing? && ph.Processing? && ph != was)
      && (step == Commit(v) ==> ph == Processing(was.batch, true))
      && (step == Finish(v) || step == Fail(v) <==> was.Processing? && ph.Collecting?)
      && (step == Finish(v) || step == Fail(v) ==> ph.buffer == [])
      && (step == Dequeue(v) <==> was.Collecting? && ph.Collecting? && ph != was)
  {
  }

  /** Each part of the system is changed only by the steps that are about it. */
  lemma StepTouchesOnly(s: State, step: Step)
    requires Enabled(s, step)
    ensures var t := Next(s, step);
      && (t.store != s.store ==> step.Commit?)
      && (t.accepted != s.accepted ==> step.Ingest?)
      && (t.tracker != s.tracker ==> step.Begin? || step.Finish? || step.NackRequeue? || step.RecoverySweep?)
      && (t.critical != s.critical ==> step.Ingest? || step.Dequeue? || step.NackRequeue? || step.RecoverySweep?)
      && (t.normal != s.normal || t.bestEffort != s.bestEffort ==> step.Ingest? || step.Dequeue?)
      && t.clock == (if step.Tick? then step.now else s.clock)
      && (t.lastSweep != s.lastSweep ==> step.RecoverySweep? && t.lastSweep == s.clock) && t.timeout == s.timeout
  {
  }

  // ---- Where the rows come from ----

  lemma {:induction false} UpsertKeys(store: map<EventId, Event>, es: seq<Event>, id: EventId)
    ensures id in Upsert(store, es) <==> id in store || id in Ids(es)
  {
    if es != [] {
      UpsertKeys(store, es[..|es| - 1], id);
      assert Ids(es) == Ids(es[..|es| - 1]) + [es[|es| - 1].id];
    }
  }

  predicate Commits(s: State, step: Step, id: EventId)
    requires Enabled(s, step)
  {
    step.Commit? && id in Ids(s.workers[step.w].phase.batch)
  }

  /** Some step of the run commits a batch with the event. */
  predicate CommittedIn(s: State, steps: seq<Step>, id: EventId)
    requires Legal(s, steps)
    decreases |steps|
  {
    steps != [] && (Commits(s, steps[0], id) || CommittedIn(Next(s, steps[0]), steps[1..], id))
  }

  /** Over every run, a row is in the store if and only if it was there or some worker committed a
      batch with its event; nothing ever deletes one. */
  lemma {:induction false} RowsAreCommitted(s: State, steps: seq<Step>, id: EventId)
    requires Legal(s, steps)
    ensures id in Run(s, steps).store <==> id in s.store || CommittedIn(s, steps, id)
    decreases |steps|
  {
    if steps != [] {
      StepTouchesOnly(s, steps[0]);
      if steps[0].Commit? {
        UpsertKeys(s.store, s.workers[steps[0].w].phase.batch, id);
      }
      RowsAreCommitted(Next(s, steps[0]), steps[1..], id);
    }
  }
}
