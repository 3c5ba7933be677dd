/** Draining: once ingestion stops, the pipeline finishes, in a number of steps that
    depends only on the backlog and on how many faults occur, with every accepted
    event stored exactly once. */
module DeliveryDrain {
  import opened Contracts
  import opened InFlight
  import opened Delivery
  import opened DeliverySafety

  // ---- Faults and working steps ----

  /** Some worker is still processing a copy, so the event's entry will be resolved without a sweep. */
  ghost predicate Live(ws: seq<Worker>, id: EventId) {
    exists w :: 0 <= w < |ws| && ws[w].phase.Processing? && id in Ids(ws[w].phase.batch)
  }

  ghost predicate OnlyOrphansExpire(s: State) {
    var x := Expired(s.tracker.inFlight, s.clock, s.timeout);
    forall i :: 0 <= i < |x| ==> !Live(s.workers, x[i].event.id)
  }

  /** A failed or killed worker, a negative acknowledgement, or a timeout that strikes an
      event whose worker is still alive. */
  ghost predicate IsFault(s: State, step: Step) {
    step.Fail? || step.Crash? || step.NackRequeue? || (step.RecoverySweep? && !OnlyOrphansExpire(s))
  }

  /** Time passing and a sweep that finds nothing are not work. */
  predicate IsWork(s: State, step: Step) {
    !step.Tick? && !(step.RecoverySweep? && Expired(s.tracker.inFlight, s.clock, s.timeout) == [])
  }

  predicate IsDraining(step: Step) {
    !step.Ingest? && !step.Spawn? && !step.Retire?
  }

  ghost function Work(s: State, steps: seq<Step>): nat
    requires Legal(s, steps)
    decreases |steps|
  {
    if steps == [] then 0
    else (if IsWork(s, steps[0]) then 1 else 0) + Work(Next(s, steps[0]), steps[1..])
  }

  ghost function Faults(s: State, steps: seq<Step>): nat
    requires Legal(s, steps)
    decreases |steps|
  {
    if steps == [] then 0
    else (if IsFault(s, steps[0]) then 1 else 0) + Faults(Next(s, steps[0]), steps[1..])
  }

  // ---- The measure ----

  function Pending(ws: seq<Worker>): seq<Event> {
    if ws == [] then [] else Pending(ws[..|ws| - 1]) + Held(ws[|ws| - 1])
  }

  function BusyOne(w: Worker): nat {
    if w.phase.Processing? then (if w.phase.stored then 1 else 2) else 0
  }

  function Busy(ws: seq<Worker>): nat {
    if ws == [] then 0 else Busy(ws[..|ws| - 1]) + BusyOne(ws[|ws| - 1])
  }

  ghost function Orphans(es: seq<Entry>, ws: seq<Worker>): nat {
    if es == [] then 0
    else Orphans(es[..|es| - 1], ws) + if Live(ws, es[|es| - 1].event.id) then 0 else 1
  }

  function Waiting(s: State): nat {
    |s.critical| + |s.normal| + |s.bestEffort|
  }

  ghost function Measure(s: State): nat {
    4 * Waiting(s) + 3 * |Pending(s.workers)| + Busy(s.workers) + 5 * Orphans(s.tracker.inFlight, s.workers)
  }

  function Bound(s: State): nat {
    5 * |s.accepted| + 2 * |s.workers|
  }

  // ---- The measure never exceeds the bound ----

  lemma {:induction false} PendingCopies(ws: seq<Worker>, id: EventId)
    ensures Copies(Pending(ws), id) == Buffered(ws, id)
  {
    if ws != [] {
      PendingCopies(ws[..|ws| - 1], id);
      CopiesConcat(Pending(ws[..|ws| - 1]), Held(ws[|ws| - 1]), id);
    }
  }

  function Everything(s: State): seq<Event> {
    s.critical + (s.normal + (s.bestEffort + (Pending(s.workers) + Events(s.tracker.inFlight))))
  }

  lemma EverythingCopies(s: State, id: EventId)
    ensures Copies(Everything(s), id) == Tokens(s, id)
  {
    var a := Pending(s.workers) + Events(s.tracker.inFlight);
    PendingCopies(s.workers, id);
    EventsCopies(s.tracker.inFlight, id);
    CopiesConcat(Pending(s.workers), Events(s.tracker.inFlight), id);
    CopiesConcat(s.bestEffort, a, id);
    CopiesConcat(s.normal, s.bestEffort + a, id);
    CopiesConcat(s.critical, s.normal + (s.bestEffort + a), id);
  }

  /** Events with distinct identifiers are no more than the identifiers there are. */
  lemma {:induction false} DistinctFit(es: seq<Event>, keys: set<EventId>)
    requires forall id :: Copies(es, id) <= 1
    requires forall id :: Copies(es, id) > 0 ==> id in keys
    ensures |es| <= |keys|
  {
    if es != [] {
      var n := |es| - 1;
      var last := es[n].id;
      assert Copies(es, last) == 1;
      forall id
        ensures Copies(es[..n], id) <= 1
        ensures Copies(es[..n], id) > 0 ==> id in keys - {last}
      {
        assert Copies(es, id) <= 1;
      }
      DistinctFit(es[..n], keys - {last});
    }
  }

  lemma TokensFit(s: State)
    requires Inv(s)
    ensures Waiting(s) + |Pending(s.workers)| + |s.tracker.inFlight| <= |s.accepted|
  {
    forall id
      ensures Copies(Everything(s), id) <= 1
      ensures Copies(Everything(s), id) > 0 ==> id in s.accepted.Keys
    {
      EverythingCopies(s, id);
      assert Tokens(s, id) <= 1;
      if Tokens(s, id) > 0 {
        TokensAccepted(s, id);
      }
    }
    DistinctFit(Everything(s), s.accepted.Keys);
    assert |s.accepted.Keys| == |s.accepted|;
  }

  lemma {:induction false} OrphansAtMost(es: seq<Entry>, ws: seq<Worker>)
    ensures Orphans(es, ws) <= |es|
  {
    if es != [] {
      OrphansAtMost(es[..|es| - 1], ws);
    }
  }

  lemma {:induction false} BusyAtMost(ws: seq<Worker>)
    ensures Busy(ws) <= 2 * |ws|
  {
    if ws != [] {
      BusyAtMost(ws[..|ws| - 1]);
    }
  }

  lemma MeasureAtMostBound(s: State)
    requires Inv(s)
    ensures Measure(s) <= Bound(s)
  {
    TokensFit(s);
    OrphansAtMost(s.tracker.inFlight, s.workers);
    BusyAtMost(s.workers);
  }

  // ---- How the parts of the measure change ----

  lemma {:induction false} PendingUpdate(ws: seq<Worker>, i: nat, w: Worker)
    requires i < |ws|
    ensures |Pending(ws[i := w])| + |Held(ws[i])| == |Pending(ws)| + |Held(w)|
    ensures Busy(ws[i := w]) + BusyOne(ws[i]) == Busy(ws) + BusyOne(w)
  {
    var n := |ws| - 1;
    if i < n {
      PendingUpdate(ws[..n], i, w);
      assert ws[i := w][..n] == ws[..n][i := w];
    } else {
      assert ws[i := w][..n] == ws[..n];
    }
  }

  lemma OrphansSnoc(es: seq<Entry>, e: Entry, ws: seq<Worker>)
    ensures Orphans(es + [e], ws) == Orphans(es, ws) + if Live(ws, e.event.id) then 0 else 1
  {
    assert (es + [e])[..|es + [e]| - 1] == es;
  }

  lemma {:induction false} OrphansShrink(es: seq<Entry>, p: Entry -> bool, ws: seq<Worker>, ws': seq<Worker>)
    requires forall e :: e in es && p(e) && Live(ws, e.event.id) ==> Live(ws', e.event.id)
    ensures Orphans(Filter(es, p), ws') <= Orphans(es, ws)
  {
    if es != [] {
      var n := |es| - 1;
      OrphansShrink(es[..n], p, ws, ws');
      OrphansSnoc(Filter(es[..n], p), es[n], ws');
      assert Filter(es[..n], p) + [] == Filter(es[..n], p);
    }
  }

  lemma {:induction false} OrphansAppendLive(es: seq<Entry>, more: seq<Entry>, ws: seq<Worker>)
    requires forall i :: 0 <= i < |more| ==> Live(ws, more[i].event.id)
    ensures Orphans(es + more, ws) == Orphans(es, ws)
  {
    if more == [] {
      assert es + more == es;
    } else {
      var n := |more| - 1;
      OrphansAppendLive(es, more[..n], ws);
      assert (es + more)[..|es + more| - 1] == es + more[..n];
    }
  }

  lemma {:induction false} OrphansSplit(es: seq<Entry>, p: Entry -> bool, q: Entry -> bool, ws: seq<Worker>)
    requires forall e :: e in es ==> q(e) == !p(e)
    requires forall e :: e in es && q(e) ==> !Live(ws, e.event.id)
    ensures Orphans(Filter(es, p), ws) + |Filter(es, q)| == Orphans(es, ws)
  {
    if es != [] {
      var n := |es| - 1;
      OrphansSplit(es[..n], p, q, ws);
      OrphansSnoc(Filter(es[..n], p), es[n], ws);
      assert Filter(es[..n], p) + [] == Filter(es[..n], p);
    }
  }

  // ---- Work without a fault lowers the measure ----

  lemma DequeueMoves(s: State, w: nat)
    requires CanDequeue(s, w)
    ensures var s' := DoDequeue(s, w);
      && Waiting(s') == Waiting(s) - 1 && s'.tracker == s.tracker
      && s'.workers == s.workers[w := s'.workers[w]] && s'.workers[w].phase.Collecting?
      && |Held(s'.workers[w])| == |Held(s.workers[w])| + 1
  {
  }

  lemma DequeueLowers(s: State, w: nat)
    requires CanDequeue(s, w)
    ensures Measure(DoDequeue(s, w)) < Measure(s)
  {
    var s' := DoDequeue(s, w);
    DequeueMoves(s, w);
    PendingUpdate(s.workers, w, s'.workers[w]);
    LiveUpdate(s.workers, w, s'.workers[w]);
    SameOrphans(s.tracker.inFlight, s.workers, s'.workers);
  }

  /** A worker that processes nothing before and after changes no event's liveness. */
  lemma LiveUpdate(ws: seq<Worker>, i: nat, w: Worker)
    requires i < |ws| && !ws[i].phase.Processing? && !w.phase.Processing?
    ensures forall id :: Live(ws[i := w], id) <==> Live(ws, id)
  {
    var ws' := ws[i := w];
    forall id
      ensures Live(ws', id) <==> Live(ws, id)
    {
      if Live(ws, id) {
        var v :| 0 <= v < |ws| && ws[v].phase.Processing? && id in Ids(ws[v].phase.batch);
        assert ws'[v] == ws[v];
      }
      if Live(ws', id) {
        var v :| 0 <= v < |ws'| && ws'[v].phase.Processing? && id in Ids(ws'[v].phase.batch);
        assert ws'[v] == ws[v];
      }
    }
  }

  lemma SameOrphans(es: seq<Entry>, ws: seq<Worker>, ws': seq<Worker>)
    requires forall id :: Live(ws, id) ==> Live(ws', id)
    ensures Orphans(es, ws') <= Orphans(es, ws)
  {
    OrphansShrink(es, (e: Entry) => true, ws, ws');
    FilterAll(es, (e: Entry) => true);
  }

  lemma BeginLowers(s: State, w: nat)
    requires Inv(s) && CanBegin(s, w)
    ensures Measure(DoBegin(s, w)) < Measure(s)
  {
    var buffer := s.workers[w].phase.buffer;
    var ws' := DoBegin(s, w).workers;
    BeginFresh(s, w);
    TrackAllFresh(s.tracker, buffer, s.clock);
    PendingUpdate(s.workers, w, ws'[w]);
    forall id | Live(s.workers, id)
      ensures Live(ws', id)
    {
      var v :| 0 <= v < |s.workers| && s.workers[v].phase.Processing? && id in Ids(s.workers[v].phase.batch);
      assert ws'[v] == s.workers[v];
    }
    var more := Entries(buffer, s.clock);
    forall i | 0 <= i < |more|
      ensures Live(ws', more[i].event.id)
    {
      assert Ids(ws'[w].phase.batch)[i] == more[i].event.id;
    }
    OrphansAppendLive(s.tracker.inFlight, more, ws');
    SameOrphans(s.tracker.inFlight, s.workers, ws');
  }

  lemma CommitLowers(s: State, w: nat)
    requires IsProcessing(s, w, false)
    ensures Measure(DoCommit(s, w)) < Measure(s)
  {
    var ws' := DoCommit(s, w).workers;
    PendingUpdate(s.workers, w, ws'[w]);
    forall id | Live(s.workers, id)
      ensures Live(ws', id)
    {
      var v :| 0 <= v < |s.workers| && s.workers[v].phase.Processing? && id in Ids(s.workers[v].phase.batch);
      assert ws'[v].phase.Processing? && ws'[v].phase.batch == s.workers[v].phase.batch;
    }
    SameOrphans(s.tracker.inFlight, s.workers, ws');
  }

  lemma FinishLowers(s: State, w: nat)
    requires Inv(s) && IsProcessing(s, w, true)
    ensures Measure(DoFinish(s, w)) < Measure(s)
  {
    var batch := s.workers[w].phase.batch;
    var ws' := DoFinish(s, w).workers;
    var p := (e: Entry) => e.event.id !in Ids(batch);
    AckAllIsWithout(s.tracker, batch);
    PendingUpdate(s.workers, w, ws'[w]);
    forall e | e in s.tracker.inFlight && p(e) && Live(s.workers, e.event.id)
      ensures Live(ws', e.event.id)
    {
      var v :| 0 <= v < |s.workers| && s.workers[v].phase.Processing? && e.event.id in Ids(s.workers[v].phase.batch);
      assert v != w && ws'[v] == s.workers[v];
    }
    OrphansShrink(s.tracker.inFlight, p, s.workers, ws');
  }

  lemma StruckIsExpired(t: Tracker, now: real, timeout: real, e: Entry)
    requires Distinct(t.inFlight) && e in t.inFlight && e.event.id in Keys(Struck(t, now, timeout))
    ensures e in Expired(t.inFlight, now, timeout)
  {
    var x := Expired(t.inFlight, now, timeout);
    var struck := Struck(t, now, timeout);
    FilterMembers(t.inFlight, (f: Entry) => TimedOut(f, now, timeout));
    HasKey(struck, e.event.id);
    var f :| f in struck && f.event.id == e.event.id;
    assert f in x;
    var i :| 0 <= i < |t.inFlight| && t.inFlight[i] == e;
    var j :| 0 <= j < |t.inFlight| && t.inFlight[j] == f;
    assert i == j;
  }

  /** Every entry a sweep pops was an orphan, and no more are requeued than are popped. */
  lemma StruckOrphans(s: State)
    requires Inv(s) && OnlyOrphansExpire(s)
    ensures Orphans(DoSweep(s).tracker.inFlight, s.workers) + |Struck(s.tracker, s.clock, s.timeout)|
         == Orphans(s.tracker.inFlight, s.workers)
  {
    var es := s.tracker.inFlight;
    var struck := Struck(s.tracker, s.clock, s.timeout);
    var p := (e: Entry) => e.event.id !in Keys(struck);
    var q := (e: Entry) => e.event.id in Keys(struck);
    var x := Expired(es, s.clock, s.timeout);
    forall e | e in es && q(e)
      ensures !Live(s.workers, e.event.id)
    {
      StruckIsExpired(s.tracker, s.clock, s.timeout, e);
      var i :| 0 <= i < |x| && x[i] == e;
    }
    OrphansSplit(es, p, q, s.workers);
    FilterPartition(es, p, q, "");
    SweepConserves(s.tracker, s.clock, s.timeout, "");
  }

  lemma SweepLowers(s: State)
    requires Inv(s) && OnlyOrphansExpire(s) && Expired(s.tracker.inFlight, s.clock, s.timeout) != []
    ensures Measure(DoSweep(s)) < Measure(s)
  {
    StruckOrphans(s);
    assert |Swept(s.tracker, s.clock, s.timeout)| <= |Struck(s.tracker, s.clock, s.timeout)|;
    assert |Struck(s.tracker, s.clock, s.timeout)| > 0;
  }

  lemma WorkLowersMeasure(s: State, step: Step)
    requires Inv(s) && Enabled(s, step) && IsDraining(step) && !IsFault(s, step)
    ensures Measure(Next(s, step)) + (if IsWork(s, step) then 1 else 0) <= Measure(s)
  {
    match step
    case Dequeue(w) => DequeueLowers(s, w);
    case Begin(w) => BeginLowers(s, w);
    case Commit(w) => CommitLowers(s, w);
    case Finish(w) => FinishLowers(s, w);
    case RecoverySweep =>
      if IsWork(s, step) {
        SweepLowers(s);
      } else {
        IdleSweep(s);
      }
    case Tick(_) =>
  }

  lemma IdleSweep(s: State)
    requires Distinct(s.tracker.inFlight) && Expired(s.tracker.inFlight, s.clock, s.timeout) == []
    ensures DoSweep(s) == s.(lastSweep := s.clock)
  {
    CompletedSweep(s.tracker, s.clock, s.timeout);
    WithoutNone(s.tracker.inFlight);
    assert s.critical + Swept(s.tracker, s.clock, s.timeout) == s.critical;
  }

  lemma DrainingKeepsBound(s: State, step: Step)
    requires Enabled(s, step) && IsDraining(step)
    ensures Bound(Next(s, step)) == Bound(s) && Next(s, step).accepted == s.accepted
  {
  }

  // ---- Quiescence is completion ----

  /** Nothing is left to do, now or at any later time. */
  ghost predicate Quiescent(s: State) {
    && (forall w :: !CanDequeue(s, w) && !CanBegin(s, w) && !IsProcessing(s, w, true) && !IsProcessing(s, w, false))
    && forall now :: s.clock <= now ==> Expired(s.tracker.inFlight, now, s.timeout) == []
  }

  /** Every lane has a worker that is still running. */
  ghost predicate Staffed(s: State) {
    HasWorker(s, Critical) && HasWorker(s, Normal) && HasWorker(s, BestEffort)
  }

  ghost predicate HasWorker(s: State, p: Priority) {
    exists w :: 0 <= w < |s.workers| && s.workers[w].lane == p
             && s.workers[w].batchSize >= 1 && s.workers[w].phase != Stopped
  }

  ghost predicate Drained(s: State) {
    && s.critical == s.normal == s.bestEffort == []
    && s.tracker.inFlight == []
    && (forall w :: 0 <= w < |s.workers| ==> s.workers[w].phase == Stopped || s.workers[w].phase == Collecting([]))
    && s.store.Keys <= s.accepted.Keys
    && forall id :: id in s.accepted && Counts(s.accepted[id].retries) ==> id in s.store
  }

  lemma EventuallyExpires(es: seq<Entry>, clock: real, timeout: real)
    requires es != []
    ensures exists now :: clock <= now && Expired(es, now, timeout) != []
  {
    var late := es[0].start + timeout + 1.0;
    var now := if clock < late then late else clock;
    FilterMembers(es, (e: Entry) => TimedOut(e, now, timeout));
    assert es[0] in Expired(es, now, timeout);
  }

  lemma QuietLane(s: State, p: Priority)
    requires Quiescent(s) && HasWorker(s, p)
    ensures Lane(s, p) == []
  {
    var w :| 0 <= w < |s.workers| && s.workers[w].lane == p && s.workers[w].batchSize >= 1
          && s.workers[w].phase != Stopped;
    assert !CanDequeue(s, w) && !CanBegin(s, w) && !IsProcessing(s, w, true) && !IsProcessing(s, w, false);
  }

  lemma {:induction false} NothingBuffered(ws: seq<Worker>, id: EventId)
    requires forall w :: 0 <= w < |ws| ==> ws[w].phase == Stopped || ws[w].phase == Collecting([])
    ensures Buffered(ws, id) == 0
  {
    if ws != [] {
      NothingBuffered(ws[..|ws| - 1], id);
    }
  }

  lemma QuiescentIffDrained(s: State)
    requires Inv(s) && Staffed(s)
    ensures Quiescent(s) <==> Drained(s)
  {
    if Quiescent(s) {
      forall w | 0 <= w < |s.workers|
        ensures s.workers[w].phase == Stopped || s.workers[w].phase == Collecting([])
      {
        assert !CanBegin(s, w) && !IsProcessing(s, w, true) && !IsProcessing(s, w, false);
      }
      QuietLane(s, Critical);
      QuietLane(s, Normal);
      QuietLane(s, BestEffort);
      if s.tracker.inFlight != [] {
        EventuallyExpires(s.tracker.inFlight, s.clock, s.timeout);
      }
      forall id | id in s.accepted && Counts(s.accepted[id].retries)
        ensures id in s.store
      {
        NothingBuffered(s.workers, id);
        assert Tokens(s, id) == 0;
        assert Kept(s, id);
      }
      assert forall id :: id in s.store ==> Genuine(s.store[id], s.accepted) && s.store[id].id == id;
    }
  }

  // ---- Main results ----

  /** `n` faults at a cost of `c` each. */
  function Cost(n: nat, c: nat): nat {
    if n == 0 then 0 else c + Cost(n - 1, c)
  }

  /** One step costs at most one unit of the measure, or one fault. */
  lemma StepCost(s: State, step: Step)
    requires Inv(s) && Enabled(s, step) && IsDraining(step)
    ensures (if IsWork(s, step) then 1 else 0) + Measure(Next(s, step))
         <= Measure(s) + if IsFault(s, step) then Bound(s) + 1 else 0
  {
    if IsFault(s, step) {
      StepKeepsInv(s, step);
      DrainingKeepsBound(s, step);
      MeasureAtMostBound(Next(s, step));
    } else {
      WorkLowersMeasure(s, step);
    }
  }

  /** In any draining run the working steps are bounded by the backlog and the faults: each
      fault costs at most one whole backlog. */
  lemma {:induction false} DrainingIsBounded(s: State, steps: seq<Step>, b: nat)
    requires Inv(s) && Legal(s, steps) && forall i :: 0 <= i < |steps| ==> IsDraining(steps[i])
    requires Bound(s) < b
    ensures Work(s, steps) + Measure(Run(s, steps)) <= Measure(s) + Cost(Faults(s, steps), b)
    ensures Run(s, steps).accepted == s.accepted
    decreases |steps|
  {
    if steps != [] {
      StepKeepsInv(s, steps[0]);
      DrainingKeepsBound(s, steps[0]);
      StepCost(s, steps[0]);
      DrainingIsBounded(Next(s, steps[0]), steps[1..], b);
    }
  }

  lemma StoredRows(r: State, id: EventId)
    requires Inv(r) && id in r.store
    ensures id in r.accepted && SameOrigin(r.store[id], r.accepted[id])
  {
    assert r.store[id].id == id && Genuine(r.store[id], r.accepted);
  }

  lemma OneMoreCost(n: nat, c: nat)
    ensures Cost(n + 1, c) == c + Cost(n, c)
  {
  }

  lemma DrainingWork(s: State, steps: seq<Step>, b: nat)
    requires Inv(s) && Legal(s, steps) && forall i :: 0 <= i < |steps| ==> IsDraining(steps[i])
    requires Bound(s) < b
    ensures Work(s, steps) <= Cost(Faults(s, steps) + 1, b)
    ensures Run(s, steps).accepted == s.accepted
  {
    DrainingIsBounded(s, steps, b);
    MeasureAtMostBound(s);
    OneMoreCost(Faults(s, steps), b);
  }

  /** A run that ends with nothing left to do ends with empty queues, nothing in flight, no row
      of an event that was not accepted, and exactly one row, of the right origin, for every
      accepted event whose retry note counts. */
  lemma DrainingCompletes(s: State, steps: seq<Step>)
    requires Inv(s) && Legal(s, steps) && forall i :: 0 <= i < |steps| ==> IsDraining(steps[i])
    requires Quiescent(Run(s, steps)) && Staffed(Run(s, steps))
    ensures Work(s, steps) <= Cost(Faults(s, steps) + 1, Bound(s) + 1)
    ensures Drained(Run(s, steps))
    ensures forall id :: id in s.accepted && Counts(s.accepted[id].retries) ==> id in Run(s, steps).store
    ensures forall id :: id in Run(s, steps).store ==>
      id in s.accepted && SameOrigin(Run(s, steps).store[id], s.accepted[id])
  {
    var r := Run(s, steps);
    DrainingWork(s, steps, Bound(s) + 1);
    RunKeepsInv(s, steps);
    QuiescentIffDrained(r);
    forall id | id in r.store
      ensures id in s.accepted && SameOrigin(r.store[id], s.accepted[id])
    {
      StoredRows(r, id);
    }
  }
}
