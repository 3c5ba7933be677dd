/** The delivery protocol: three lanes, any number of stream and batch workers, the
    in-flight tracker and the result store keyed by event identifier.

    The pipeline is single-threaded asyncio, so the code between two awaits is one
    atomic step. A stream worker is a worker whose batch size is one. */
module Delivery {
  import opened Contracts
  import opened InFlight

  /** `Processing(batch, stored)` spans the await on the repository: `stored` says whether
      the rows are committed although the worker has not yet resumed to acknowledge them. */
  datatype Phase = Collecting(buffer: seq<Event>) | Processing(batch: seq<Event>, stored: bool) | Stopped

  datatype Worker = Worker(lane: Priority, batchSize: nat, phase: Phase)

  datatype State = State(
    critical: seq<Event>,
    normal: seq<Event>,
    bestEffort: seq<Event>,
    workers: seq<Worker>,
    tracker: Tracker,
    store: map<EventId, Event>,
    accepted: map<EventId, Event>,
    timeout: real,
    clock: real,
    lastSweep: real)

  datatype Step =
    | Ingest(e: Event)
    | Dequeue(w: nat)
    | Begin(w: nat)
    | Commit(w: nat)
    | Finish(w: nat)
    | Fail(w: nat)
    | Crash(w: nat)
    | NackRequeue(id: EventId)
    | RecoverySweep
    | Tick(now: real)
    | Spawn(lane: Priority, batchSize: nat)
    | Retire(w: nat)

  function Lane(s: State, p: Priority): seq<Event> {
    match p
    case Critical => s.critical
    case Normal => s.normal
    case BestEffort => s.bestEffort
  }

  function WithLane(s: State, p: Priority, q: seq<Event>): State {
    match p
    case Critical => s.(critical := q)
    case Normal => s.(normal := q)
    case BestEffort => s.(bestEffort := q)
  }

  function WithPhase(s: State, w: nat, ph: Phase): State
    requires w < |s.workers|
  {
    s.(workers := s.workers[w := s.workers[w].(phase := ph)])
  }

  /** Bulk `INSERT OR REPLACE` under the primary key `event_id`. */
  function Upsert(store: map<EventId, Event>, es: seq<Event>): map<EventId, Event> {
    if es == [] then store
    else Upsert(store, es[..|es| - 1])[es[|es| - 1].id := EnsurePriority(es[|es| - 1])]
  }

  // ---- The atomic steps ----

  predicate IsCollecting(s: State, w: nat) {
    w < |s.workers| && s.workers[w].phase.Collecting?
  }

  predicate IsProcessing(s: State, w: nat, stored: bool) {
    w < |s.workers| && s.workers[w].phase.Processing? && s.workers[w].phase.stored == stored
  }

  predicate CanDequeue(s: State, w: nat) {
    && IsCollecting(s, w)
    && |s.workers[w].phase.buffer| < s.workers[w].batchSize
    && Lane(s, s.workers[w].lane) != []
  }

  predicate CanBegin(s: State, w: nat) {
    IsCollecting(s, w) && s.workers[w].phase.buffer != []
  }

  /** An event enters the lane of its priority and becomes an accepted event. */
  function DoIngest(s: State, e: Event): State {
    var e' := EnsurePriority(e);
    var p := e'.priority.value;
    WithLane(s, p, Lane(s, p) + [e']).(accepted := s.accepted[e.id := e'])
  }

  function DoDequeue(s: State, w: nat): State
    requires CanDequeue(s, w)
  {
    var p := s.workers[w].lane;
    var q := Lane(s, p);
    WithPhase(WithLane(s, p, q[1..]), w, Collecting(s.workers[w].phase.buffer + [q[0]]))
  }

  /** Collection ends: the whole batch is tracked before processing starts. */
  function DoBegin(s: State, w: nat): State
    requires CanBegin(s, w)
  {
    var batch := s.workers[w].phase.buffer;
    WithPhase(s.(tracker := TrackAll(s.tracker, batch, s.clock)), w, Processing(batch, false))
  }

  /** The repository commits the batch while the worker is still suspended. */
  function DoCommit(s: State, w: nat): State
    requires IsProcessing(s, w, false)
  {
    var batch := s.workers[w].phase.batch;
    WithPhase(s.(store := Upsert(s.store, batch)), w, Processing(batch, true))
  }

  /** The worker resumes from a successful store and acknowledges, perhaps long after the
      sweep has given its events to another worker. */
  function DoFinish(s: State, w: nat): State
    requires IsProcessing(s, w, true)
  {
    WithPhase(s.(tracker := AckAll(s.tracker, s.workers[w].phase.batch)), w, Collecting([]))
  }

  function DoNack(s: State, id: EventId): State
    requires Has(s.tracker.inFlight, id)
  {
    var e := s.tracker.inFlight[Find(s.tracker.inFlight, id)].event;
    s.(tracker := Nack(s.tracker, id), critical := s.critical + [EnsurePriority(e)])
  }

  /** One turn of the monitor's loop, which catches what the sweep raises: a sweep that stops at a
      retry note that does not count has dropped that event, and has not done the rest. */
  function DoSweep(s: State): State {
    s.(tracker := Sweep(s.tracker, s.clock, s.timeout),
       critical := s.critical + Swept(s.tracker, s.clock, s.timeout),
       lastSweep := if Completes(s.tracker, s.clock, s.timeout) then s.clock else s.lastSweep)
  }

  function DoSpawn(s: State, lane: Priority, n: nat): State {
    s.(workers := s.workers + [Worker(lane, n, Collecting([]))])
  }

  predicate Enabled(s: State, step: Step) {
    match step
    case Ingest(e) => e.id !in s.accepted
    case Dequeue(w) => CanDequeue(s, w)
    case Begin(w) => CanBegin(s, w)
    case Commit(w) => IsProcessing(s, w, false)
    case Finish(w) => IsProcessing(s, w, true)
    case Fail(w) => IsProcessing(s, w, true) || IsProcessing(s, w, false)
    case Crash(w) => IsProcessing(s, w, true) || IsProcessing(s, w, false)
    case NackRequeue(id) => Has(s.tracker.inFlight, id)
    case RecoverySweep => true
    case Tick(now) => s.clock <= now
    case Spawn(_, n) => n >= 1
    case Retire(w) => IsCollecting(s, w) && s.workers[w].phase.buffer == []
  }

  function Next(s: State, step: Step): State
    requires Enabled(s, step)
  {
    match step
    case Ingest(e) => DoIngest(s, e)
    case Dequeue(w) => DoDequeue(s, w)
    case Begin(w) => DoBegin(s, w)
    case Commit(w) => DoCommit(s, w)
    case Finish(w) => DoFinish(s, w)
    case Fail(w) => WithPhase(s, w, Collecting([]))
    case Crash(w) => WithPhase(s, w, Stopped)
    case NackRequeue(id) => DoNack(s, id)
    case RecoverySweep => DoSweep(s)
    case Tick(now) => s.(clock := now)
    case Spawn(lane, n) => DoSpawn(s, lane, n)
    case Retire(w) => WithPhase(s, w, Stopped)
  }

  /** Nothing holds the environment back: in every state clients, the clock, the monitor and the
      pool may act, anything in flight may be negatively acknowledged, and a worker may fail or
      crash at any moment of its processing, before the commit and after it. */
  lemma EnvironmentIsFree(s: State, e: Event, now: real, id: EventId, n: nat, w: nat)
    ensures e.id !in s.accepted ==> Enabled(s, Ingest(e))
    ensures s.clock <= now ==> Enabled(s, Tick(now))
    ensures 1 <= n ==> forall lane :: Enabled(s, Spawn(lane, n))
    ensures Enabled(s, RecoverySweep) && (Enabled(s, NackRequeue(id)) <==> id in Keys(s.tracker.inFlight))
    ensures w < |s.workers| && s.workers[w].phase.Processing? ==>
      && Enabled(s, Fail(w)) && Enabled(s, Crash(w))
      && (Enabled(s, Commit(w)) <==> !s.workers[w].phase.stored) && (Enabled(s, Finish(w)) <==> s.workers[w].phase.stored)
  {
  }

  predicate Legal(s: State, steps: seq<Step>)
    decreases |steps|
  {
    steps == [] || (Enabled(s, steps[0]) && Legal(Next(s, steps[0]), steps[1..]))
  }

  function Run(s: State, steps: seq<Step>): State
    requires Legal(s, steps)
    decreases |steps|
  {
    if steps == [] then s else Run(Next(s, steps[0]), steps[1..])
  }

  predicate Initial(s: State) {
    && s.critical == s.normal == s.bestEffort == []
    && (forall w :: 0 <= w < |s.workers| ==> s.workers[w].phase == Collecting([]))
    && s.tracker == NEW_TRACKER
    && s.store == map[] && s.accepted == map[]
    && s.lastSweep <= s.clock && 0.0 < s.timeout
  }

  // ---- Tokens: the live copies of every event ----

  /** A worker holds a token only while the event is in its untracked buffer. */
  function Held(w: Worker): seq<Event> {
    if w.phase.Collecting? then w.phase.buffer else []
  }

  function Buffered(ws: seq<Worker>, id: EventId): nat {
    if ws == [] then 0 else Buffered(ws[..|ws| - 1], id) + Copies(Held(ws[|ws| - 1]), id)
  }

  function Queued(s: State, id: EventId): nat {
    Copies(s.critical, id) + Copies(s.normal, id) + Copies(s.bestEffort, id)
  }

  /** How many copies of an event are waiting, buffered or in flight. */
  function Tokens(s: State, id: EventId): nat {
    Queued(s, id) + Buffered(s.workers, id) + KeyCopies(s.tracker.inFlight, id)
  }

  // ---- The invariant ----

  predicate Genuine(e: Event, accepted: map<EventId, Event>) {
    e.id in accepted && SameOrigin(e, accepted[e.id]) && (Counts(e.retries) <==> Counts(accepted[e.id].retries))
  }

  predicate AllGenuine(es: seq<Event>, accepted: map<EventId, Event>) {
    forall i :: 0 <= i < |es| ==> Genuine(es[i], accepted)
  }

  predicate WorkerGenuine(w: Worker, s: State) {
    match w.phase
    case Collecting(buffer) => AllGenuine(buffer, s.accepted)
    case Processing(batch, stored) =>
      AllGenuine(batch, s.accepted) && (stored ==> forall i :: 0 <= i < |batch| ==> batch[i].id in s.store)
    case Stopped => true
  }

  /** Every copy anywhere carries the origin of the accepted event, its retry note counts exactly
      when the accepted event's does, and a worker that
      is about to acknowledge has already stored what it will acknowledge. */
  ghost predicate Faithful(s: State) {
    && AllGenuine(s.critical, s.accepted)
    && AllGenuine(s.normal, s.accepted)
    && AllGenuine(s.bestEffort, s.accepted)
    && AllGenuine(Events(s.tracker.inFlight), s.accepted)
    && (forall w :: 0 <= w < |s.workers| ==> WorkerGenuine(s.workers[w], s))
    && (forall id :: id in s.store ==> s.store[id].id == id && Genuine(s.store[id], s.accepted))
  }

  /** No identifier has two live copies. */
  ghost predicate SingleToken(s: State) {
    forall id :: Tokens(s, id) <= 1
  }

  /** The event is in a lane, a worker's buffer, the in-flight map or the store. */
  predicate Kept(s: State, id: EventId) {
    Tokens(s, id) > 0 || id in s.store
  }

  /** Every accepted event whose retry note counts is kept. */
  ghost predicate NoneLost(s: State) {
    forall id :: id in s.accepted && Counts(s.accepted[id].retries) ==> Kept(s, id)
  }

  predicate Ledger(s: State) {
    s.tracker.tracked == s.tracker.acked + s.tracker.recovered + |s.tracker.inFlight|
  }

  /** No entry is from the future, and the last sweep that completed left nothing that had timed out. */
  predicate AllOnTime(es: seq<Entry>, clock: real, lastSweep: real, timeout: real) {
    forall i :: 0 <= i < |es| ==> es[i].start <= clock && lastSweep - es[i].start <= timeout
  }

  predicate Punctual(s: State) {
    && s.lastSweep <= s.clock && 0.0 < s.timeout
    && AllOnTime(s.tracker.inFlight, s.clock, s.lastSweep, s.timeout)
  }

  ghost predicate Inv(s: State) {
    Faithful(s) && SingleToken(s) && NoneLost(s) && Ledger(s) && Distinct(s.tracker.inFlight) && Punctual(s)
  }

  // ---- Bookkeeping lemmas ----

  lemma CopiesOne(e: Event, id: EventId)
    ensures Copies([e], id) == if e.id == id then 1 else 0
  {
    assert [e][..0] == [];
  }

  lemma {:induction false} BufferedUpdate(ws: seq<Worker>, i: nat, w: Worker, id: EventId)
    requires i < |ws|
    ensures Buffered(ws[i := w], id) + Copies(Held(ws[i]), id) == Buffered(ws, id) + Copies(Held(w), id)
  {
    var n := |ws| - 1;
    if i < n {
      BufferedUpdate(ws[..n], i, w, id);
      assert ws[i := w][..n] == ws[..n][i := w];
    } else {
      assert ws[i := w][..n] == ws[..n];
    }
  }

  lemma PhaseTokens(s: State, w: nat, ph: Phase, id: EventId)
    requires w < |s.workers|
    ensures Tokens(WithPhase(s, w, ph), id) + Copies(Held(s.workers[w]), id)
         == Tokens(s, id) + Copies(Held(s.workers[w].(phase := ph)), id)
  {
    BufferedUpdate(s.workers, w, s.workers[w].(phase := ph), id);
  }

  lemma {:induction false} BufferedAtLeast(ws: seq<Worker>, i: nat, id: EventId)
    requires i < |ws|
    ensures Copies(Held(ws[i]), id) <= Buffered(ws, id)
  {
    if i < |ws| - 1 {
      BufferedAtLeast(ws[..|ws| - 1], i, id);
    }
  }

  lemma PutFresh(es: seq<Entry>, e: Entry)
    requires Distinct(es) && e.event.id !in Keys(es)
    ensures Put(es, e) == es + [e] && Distinct(es + [e])
  {
    HasKey(es, e.event.id);
    assert forall i :: 0 <= i < |es| ==> Keys(es)[i] == es[i].event.id;
  }

  function Entries(es: seq<Event>, now: real): (r: seq<Entry>)
    ensures |r| == |es|
    ensures forall i :: 0 <= i < |es| ==> r[i] == Entry(es[i], now)
  {
    seq(|es|, i requires 0 <= i < |es| => Entry(es[i], now))
  }

  lemma {:induction false} EntriesCopies(es: seq<Event>, now: real, id: EventId)
    ensures KeyCopies(Entries(es, now), id) == Copies(es, id)
  {
    if es != [] {
      var n := |es| - 1;
      EntriesCopies(es[..n], now, id);
      assert Entries(es, now)[..n] == Entries(es[..n], now);
    }
  }

  /** Tracking events that are not in flight never overwrites an entry. */
  lemma {:induction false} TrackAllFresh(t: Tracker, es: seq<Event>, now: real)
    requires Distinct(t.inFlight)
    requires forall id :: KeyCopies(t.inFlight, id) + Copies(es, id) <= 1
    ensures TrackAll(t, es, now) == t.(inFlight := t.inFlight + Entries(es, now), tracked := t.tracked + |es|)
    ensures Distinct(t.inFlight + Entries(es, now))
  {
    if es == [] {
      assert t.inFlight + Entries(es, now) == t.inFlight;
    } else {
      var n := |es| - 1;
      var last := es[n].id;
      forall id
        ensures KeyCopies(t.inFlight, id) + Copies(es[..n], id) <= 1
      {
        assert KeyCopies(t.inFlight, id) + Copies(es, id) <= 1;
      }
      TrackAllFresh(t, es[..n], now);
      var prev := t.inFlight + Entries(es[..n], now);
      assert last !in Keys(prev) by {
        assert KeyCopies(t.inFlight, last) + Copies(es, last) <= 1;
        KeyCopiesConcat(t.inFlight, Entries(es[..n], now), last);
        EntriesCopies(es[..n], now, last);
        KeyCopiesMember(prev, last);
      }
      PutFresh(prev, Entry(es[n], now));
      assert prev + [Entry(es[n], now)] == t.inFlight + Entries(es, now);
    }
  }

  // ---- How each step moves tokens ----

  lemma LaneTokens(s: State, p: Priority, q: seq<Event>, id: EventId)
    ensures Tokens(WithLane(s, p, q), id) + Copies(Lane(s, p), id) == Tokens(s, id) + Copies(q, id)
  {
  }

  lemma IngestTokens(s: State, e: Event, id: EventId)
    ensures Tokens(DoIngest(s, e), id) == Tokens(s, id) + if e.id == id then 1 else 0
  {
    var e' := EnsurePriority(e);
    var p := e'.priority.value;
    CopiesConcat(Lane(s, p), [e'], id);
    CopiesOne(e', id);
    LaneTokens(s, p, Lane(s, p) + [e'], id);
  }

  lemma MoveHead(q: seq<Event>, buffer: seq<Event>, id: EventId)
    requires q != []
    ensures Copies(q, id) + Copies(buffer, id) == Copies(q[1..], id) + Copies(buffer + [q[0]], id)
  {
    assert q == [q[0]] + q[1..];
    CopiesConcat([q[0]], q[1..], id);
    CopiesConcat(buffer, [q[0]], id);
  }

  lemma DequeueTokens(s: State, w: nat, id: EventId)
    requires CanDequeue(s, w)
    ensures Tokens(DoDequeue(s, w), id) == Tokens(s, id)
  {
    var p := s.workers[w].lane;
    var buffer := s.workers[w].phase.buffer;
    var s1 := WithLane(s, p, Lane(s, p)[1..]);
    MoveHead(Lane(s, p), buffer, id);
    LaneTokens(s, p, Lane(s, p)[1..], id);
    PhaseTokens(s1, w, Collecting(buffer + [Lane(s, p)[0]]), id);
    assert s1.workers == s.workers;
  }

  lemma BeginFresh(s: State, w: nat)
    requires CanBegin(s, w) && SingleToken(s)
    ensures forall id :: KeyCopies(s.tracker.inFlight, id) + Copies(s.workers[w].phase.buffer, id) <= 1
  {
    forall id
      ensures KeyCopies(s.tracker.inFlight, id) + Copies(s.workers[w].phase.buffer, id) <= 1
    {
      BufferedAtLeast(s.workers, w, id);
      assert Tokens(s, id) <= 1;
    }
  }

  lemma BeginTokens(s: State, w: nat, id: EventId)
    requires CanBegin(s, w) && SingleToken(s) && Distinct(s.tracker.inFlight)
    ensures Tokens(DoBegin(s, w), id) == Tokens(s, id)
  {
    var buffer := s.workers[w].phase.buffer;
    BeginFresh(s, w);
    TrackAllFresh(s.tracker, buffer, s.clock);
    KeyCopiesConcat(s.tracker.inFlight, Entries(buffer, s.clock), id);
    EntriesCopies(buffer, s.clock, id);
    PhaseTokens(s.(tracker := TrackAll(s.tracker, buffer, s.clock)), w, Processing(buffer, false), id);
  }

  lemma CommitTokens(s: State, w: nat, id: EventId)
    requires IsProcessing(s, w, false)
    ensures Tokens(DoCommit(s, w), id) == Tokens(s, id)
  {
    var batch := s.workers[w].phase.batch;
    PhaseTokens(s.(store := Upsert(s.store, batch)), w, Processing(batch, true), id);
  }

  lemma SpawnTokens(s: State, lane: Priority, n: nat, id: EventId)
    ensures Tokens(DoSpawn(s, lane, n), id) == Tokens(s, id)
  {
    assert DoSpawn(s, lane, n).workers[..|s.workers|] == s.workers;
  }

  lemma WithoutCopies(es: seq<Entry>, ids: seq<EventId>, id: EventId)
    ensures KeyCopies(Without(es, ids), id) == if id in ids then 0 else KeyCopies(es, id)
  {
    var p := (e: Entry) => e.event.id !in ids;
    var q := (e: Entry) => e.event.id in ids;
    FilterPartition(es, p, q, id);
    FilterMembers(es, p);
    FilterMembers(es, q);
    HasKey(Filter(es, p), id);
    HasKey(Filter(es, q), id);
    KeyCopiesMember(Filter(es, p), id);
    KeyCopiesMember(Filter(es, q), id);
  }

  /** Acknowledging removes the in-flight tokens of the batch, and no others. */
  lemma FinishTokens(s: State, w: nat, id: EventId)
    requires IsProcessing(s, w, true) && Distinct(s.tracker.inFlight)
    ensures Tokens(DoFinish(s, w), id)
         == Tokens(s, id) - if id in Ids(s.workers[w].phase.batch) then KeyCopies(s.tracker.inFlight, id) else 0
  {
    var batch := s.workers[w].phase.batch;
    AckAllIsWithout(s.tracker, batch);
    PhaseTokens(s.(tracker := AckAll(s.tracker, batch)), w, Collecting([]), id);
    WithoutCopies(s.tracker.inFlight, Ids(batch), id);
  }

  lemma NackTokens(s: State, nacked: EventId, id: EventId)
    requires Has(s.tracker.inFlight, nacked)
    ensures Tokens(DoNack(s, nacked), id) == Tokens(s, id)
  {
    var es := s.tracker.inFlight;
    var i := Find(es, nacked);
    DroppedCopies(es, i, id);
    CopiesConcat(s.critical, [EnsurePriority(es[i].event)], id);
    CopiesOne(EnsurePriority(es[i].event), id);
  }

  /** How many copies of an event a sweep drops: it raises after popping the entry. */
  function Lost(s: State, id: EventId): nat {
    KeyCopies(Dropped(s.tracker, s.clock, s.timeout), id)
  }

  lemma SweepTokens(s: State, id: EventId)
    requires Distinct(s.tracker.inFlight)
    ensures Tokens(DoSweep(s), id) + Lost(s, id) == Tokens(s, id)
  {
    SweepConserves(s.tracker, s.clock, s.timeout, id);
    CopiesConcat(s.critical, Swept(s.tracker, s.clock, s.timeout), id);
  }

  /** Only ingestion creates a token, and only an acknowledgement or a sweep that raises destroys one. */
  lemma StepTokens(s: State, step: Step, id: EventId)
    requires Enabled(s, step) && SingleToken(s) && Distinct(s.tracker.inFlight)
    ensures Tokens(Next(s, step), id)
         == Tokens(s, id)
          + (if step.Ingest? && step.e.id == id then 1 else 0)
          - (if step.Finish? && id in Ids(s.workers[step.w].phase.batch) then KeyCopies(s.tracker.inFlight, id) else 0)
          - (if step.RecoverySweep? then Lost(s, id) else 0)
  {
    match step
    case Ingest(e) => IngestTokens(s, e, id);
    case Dequeue(w) => DequeueTokens(s, w, id);
    case Begin(w) => BeginTokens(s, w, id);
    case Commit(w) => CommitTokens(s, w, id);
    case Finish(w) => FinishTokens(s, w, id);
    case Fail(w) => PhaseTokens(s, w, Collecting([]), id);
    case Crash(w) => PhaseTokens(s, w, Stopped, id);
    case Retire(w) => PhaseTokens(s, w, Stopped, id);
    case NackRequeue(nacked) => NackTokens(s, nacked, id);
    case RecoverySweep => SweepTokens(s, id);
    case Tick(_) =>
    case Spawn(lane, n) => SpawnTokens(s, lane, n, id);
  }
}
