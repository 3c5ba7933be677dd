/** The two benchmark pipelines by value: the naive single queue with tail drop, and the
    simulated three-lane pipeline that batches, defers, samples and sheds. */
module Benchmarks {
  import opened Contracts
  import opened Rounding

  datatype Tally = Tally(critical: nat, normal: nat, bestEffort: nat)

  function Of(t: Tally, p: Priority): nat {
    match p
    case Critical => t.critical
    case Normal => t.normal
    case BestEffort => t.bestEffort
  }

  function Tallied(t: Tally, p: Priority, n: nat): Tally {
    match p
    case Critical => t.(critical := t.critical + n)
    case Normal => t.(normal := t.normal + n)
    case BestEffort => t.(bestEffort := t.bestEffort + n)
  }

  function Sum(t: Tally): nat {
    t.critical + t.normal + t.bestEffort
  }

  function One(e: Event, p: Priority): nat {
    if LaneFor(e) == p then 1 else 0
  }

  /** How many events of a queue belong to a lane. */
  function CountIn(q: seq<Event>, p: Priority): nat {
    if q == [] then 0 else CountIn(q[..|q| - 1], p) + One(q[|q| - 1], p)
  }

  lemma {:induction false} CountConcat(a: seq<Event>, b: seq<Event>, p: Priority)
    ensures CountIn(a + b, p) == CountIn(a, p) + CountIn(b, p)
  {
    if b == [] {
      assert a + b == a;
    } else {
      assert (a + b)[..|a + b| - 1] == a + b[..|b| - 1];
      CountConcat(a, b[..|b| - 1], p);
    }
  }

  lemma CountOne(e: Event, p: Priority)
    ensures CountIn([e], p) == One(e, p)
  {
    assert [e][..0] == [];
  }

  // ---- What the workers hold ----

  datatype Hand = Idle | Single(e: Event) | Micro(batch: seq<Event>)

  function Holds(h: Hand, p: Priority): nat {
    match h
    case Idle => 0
    case Single(e) => One(e, p)
    case Micro(batch) => if p == Normal then |batch| else 0
  }

  function Holding(hs: seq<Hand>, p: Priority): nat {
    if hs == [] then 0 else Holding(hs[..|hs| - 1], p) + Holds(hs[|hs| - 1], p)
  }

  lemma {:induction false} HoldingUpdate(hs: seq<Hand>, w: nat, h: Hand, p: Priority)
    requires w < |hs|
    ensures Holding(hs[w := h], p) + Holds(hs[w], p) == Holding(hs, p) + Holds(h, p)
  {
    var n := |hs| - 1;
    if w < n {
      HoldingUpdate(hs[..n], w, h, p);
      assert hs[w := h][..n] == hs[..n][w := h];
    } else {
      assert hs[w := h][..n] == hs[..n];
    }
  }

  // ---- The naive pipeline ----

  datatype Naive = Naive(queue: seq<Event>, hands: seq<Hand>, generated: Tally, processed: Tally, dropped: Tally,
                         ingested: nat, processedCount: nat, droppedCount: nat)

  datatype NaiveStep = Offer(e: Event) | Grab(w: nat) | Done(w: nat)

  /** Tail drop: when the queue is full the newcomer is lost, whatever its lane. */
  function DoOffer(capacity: nat, s: Naive, e: Event): Naive {
    var p := LaneFor(e);
    var s1 := s.(generated := Tallied(s.generated, p, 1), ingested := s.ingested + 1);
    if 0 < capacity <= |s.queue| then s1.(dropped := Tallied(s.dropped, p, 1), droppedCount := s.droppedCount + 1)
    else s1.(queue := s.queue + [e])
  }

  function DoGrab(s: Naive, w: nat): Naive {
    if w < |s.hands| && s.hands[w] == Idle && s.queue != [] then
      s.(queue := s.queue[1..], hands := s.hands[w := Single(s.queue[0])])
    else s
  }

  function DoDone(s: Naive, w: nat): Naive {
    if w < |s.hands| && s.hands[w].Single? then
      s.(hands := s.hands[w := Idle], processed := Tallied(s.processed, LaneFor(s.hands[w].e), 1),
         processedCount := s.processedCount + 1)
    else s
  }

  function NaiveNext(capacity: nat, s: Naive, step: NaiveStep): Naive {
    match step
    case Offer(e) => DoOffer(capacity, s, e)
    case Grab(w) => DoGrab(s, w)
    case Done(w) => DoDone(s, w)
  }

  function NaiveRun(capacity: nat, s: Naive, steps: seq<NaiveStep>): Naive {
    if steps == [] then s else NaiveNext(capacity, NaiveRun(capacity, s, steps[..|steps| - 1]), steps[|steps| - 1])
  }

  predicate NaiveConserves(s: Naive, p: Priority) {
    Of(s.generated, p) == CountIn(s.queue, p) + Holding(s.hands, p) + Of(s.processed, p) + Of(s.dropped, p)
  }

  predicate NaiveSound(capacity: nat, s: Naive) {
    && NaiveConserves(s, Critical) && NaiveConserves(s, Normal) && NaiveConserves(s, BestEffort)
    && NaiveTotals(capacity, s)
  }

  lemma OfferConserves(capacity: nat, s: Naive, e: Event, p: Priority)
    requires NaiveConserves(s, p)
    ensures NaiveConserves(DoOffer(capacity, s, e), p)
  {
    TalliedOf(s.generated, LaneFor(e), 1, p);
    TalliedOf(s.dropped, LaneFor(e), 1, p);
    CountConcat(s.queue, [e], p);
    CountOne(e, p);
  }

  lemma TalliedOf(t: Tally, p: Priority, n: nat, q: Priority)
    ensures Of(Tallied(t, p, n), q) == Of(t, q) + if p == q then n else 0
  {
  }

  lemma GrabConserves(s: Naive, w: nat, p: Priority)
    requires NaiveConserves(s, p)
    ensures NaiveConserves(DoGrab(s, w), p)
  {
    if w < |s.hands| && s.queue != [] {
      assert s.queue == [s.queue[0]] + s.queue[1..];
      CountConcat([s.queue[0]], s.queue[1..], p);
      CountOne(s.queue[0], p);
      HoldingUpdate(s.hands, w, Single(s.queue[0]), p);
    }
  }

  lemma DoneConserves(s: Naive, w: nat, p: Priority)
    requires NaiveConserves(s, p)
    ensures NaiveConserves(DoDone(s, w), p)
  {
    if w < |s.hands| {
      HoldingUpdate(s.hands, w, Idle, p);
    }
  }

  lemma NaiveStepConserves(capacity: nat, s: Naive, step: NaiveStep, p: Priority)
    requires NaiveConserves(s, p)
    ensures NaiveConserves(NaiveNext(capacity, s, step), p)
  {
    match step
    case Offer(e) => OfferConserves(capacity, s, e, p);
    case Grab(w) => GrabConserves(s, w, p);
    case Done(w) => DoneConserves(s, w, p);
  }

  predicate NaiveTotals(capacity: nat, s: Naive) {
    && Sum(s.generated) == s.ingested && Sum(s.processed) == s.processedCount && Sum(s.dropped) == s.droppedCount
    && (capacity > 0 ==> |s.queue| <= capacity)
  }

  lemma NaiveStepTotals(capacity: nat, s: Naive, step: NaiveStep)
    requires NaiveTotals(capacity, s)
    ensures NaiveTotals(capacity, NaiveNext(capacity, s, step))
  {
  }

  /** At every yield point of the naive pipeline, each lane's events are queued, in hand,
      processed or dropped, and the queue keeps within its capacity. */
  lemma {:induction false} NaiveAccountsForEverything(capacity: nat, s: Naive, steps: seq<NaiveStep>)
    requires NaiveSound(capacity, s)
    ensures NaiveSound(capacity, NaiveRun(capacity, s, steps))
  {
    if steps != [] {
      var before := NaiveRun(capacity, s, steps[..|steps| - 1]);
      NaiveAccountsForEverything(capacity, s, steps[..|steps| - 1]);
      NaiveStepConserves(capacity, before, steps[|steps| - 1], Critical);
      NaiveStepConserves(capacity, before, steps[|steps| - 1], Normal);
      NaiveStepConserves(capacity, before, steps[|steps| - 1], BestEffort);
      NaiveStepTotals(capacity, before, steps[|steps| - 1]);
    }
  }

  /** How many events of a lane a run offered to a queue that was full at that moment. */
  function OfferedFull(capacity: nat, s: Naive, steps: seq<NaiveStep>, p: Priority): nat {
    if steps == [] then 0
    else
      var before, last := NaiveRun(capacity, s, steps[..|steps| - 1]), steps[|steps| - 1];
      OfferedFull(capacity, s, steps[..|steps| - 1], p)
      + if last.Offer? && LaneFor(last.e) == p && 0 < capacity == |before.queue| then 1 else 0
  }

  /** The baseline loses the events of a lane, CRITICAL included, exactly as often as they are
      offered to a queue filled to its capacity, and it is filled by every lane alike. */
  lemma {:induction false} NaiveLosesWhatMeetsAFullQueue(capacity: nat, s: Naive, steps: seq<NaiveStep>, p: Priority)
    requires NaiveSound(capacity, s)
    ensures Of(NaiveRun(capacity, s, steps).dropped, p) == Of(s.dropped, p) + OfferedFull(capacity, s, steps, p)
  {
    if steps != [] {
      NaiveLosesWhatMeetsAFullQueue(capacity, s, steps[..|steps| - 1], p);
      NaiveAccountsForEverything(capacity, s, steps[..|steps| - 1]);
      DropsOneMore(capacity, NaiveRun(capacity, s, steps[..|steps| - 1]), steps[|steps| - 1], p);
    }
  }

  lemma DropsOneMore(capacity: nat, s: Naive, step: NaiveStep, p: Priority)
    requires NaiveTotals(capacity, s)
    ensures Of(NaiveNext(capacity, s, step).dropped, p) == Of(s.dropped, p)
      + if step.Offer? && LaneFor(step.e) == p && 0 < capacity == |s.queue| then 1 else 0
  {
    if step.Offer? {
      TalliedOf(s.dropped, LaneFor(step.e), 1, p);
    }
  }

  // ---- The simulated three-lane pipeline ----

  datatype Capacities = Capacities(critical: nat, normal: nat, bestEffort: nat)

  datatype Treatment = Streamed | Sampled | Shedded

  /** The decisions in force: how BEST_EFFORT is treated and how NORMAL is batched. */
  datatype Verdict = Verdict(bestEffort: Treatment, batch: nat)

  datatype Sim = Sim(critical: seq<Event>, normal: seq<Event>, bestEffort: seq<Event>, blocked: seq<Event>,
                     hands: seq<Hand>, verdict: Verdict, generated: Tally, processed: Tally, incoming: nat,
                     processedCount: nat, streamed: nat, batched: nat, deferred: nat, sampled: nat, shed: nat)

  predicate Sane(c: Capacities) {
    0 < c.critical && 0 < c.normal && 0 < c.bestEffort
  }

  function Fill(n: nat, capacity: nat): real
    requires capacity > 0
  {
    n as real / capacity as real
  }

  function PressureOf(c: Capacities, s: Sim): real
    requires Sane(c)
  {
    Fill(|s.critical|, c.critical) * 0.5 + Fill(|s.normal|, c.normal) * 0.3 + Fill(|s.bestEffort|, c.bestEffort) * 0.2
  }

  /** Only compared with thresholds below one, so the cap at one does not matter. */
  function Judge(pressure: real): Verdict {
    if pressure > 0.6 then Verdict(Shedded, 20)
    else if pressure > 0.3 then Verdict(Sampled, 10)
    else Verdict(Streamed, 0)
  }

  function Counted(c: Capacities, s: Sim, p: Priority): Sim
    requires Sane(c)
  {
    s.(incoming := s.incoming + 1, generated := Tallied(s.generated, p, 1), verdict := Judge(PressureOf(c, s)))
  }

  function Offered(c: Capacities, s: Sim, e: Event, draw: real): Sim {
    match LaneFor(e)
    case Critical =>
      if |s.critical| < c.critical then s.(critical := s.critical + [e]) else s.(blocked := s.blocked + [e])
    case Normal =>
      if |s.normal| < c.normal then s.(normal := s.normal + [e]) else s.(deferred := s.deferred + 1)
    case BestEffort =>
      if s.verdict.bestEffort == Shedded || (s.verdict.bestEffort == Sampled && draw > 0.5) then s.(shed := s.shed + 1)
      else
        var s1 := if s.verdict.bestEffort == Sampled then s.(sampled := s.sampled + 1) else s;
        if |s1.bestEffort| < c.bestEffort then s1.(bestEffort := s1.bestEffort + [e]) else s1.(shed := s1.shed + 1)
  }

  function DoEnqueue(c: Capacities, s: Sim, e: Event, draw: real): Sim
    requires Sane(c)
  {
    Offered(c, Counted(c, s, LaneFor(e)), e, draw)
  }

  /** A suspended CRITICAL put completes. */
  function DoUnblock(c: Capacities, s: Sim, i: nat): Sim {
    if i < |s.blocked| && |s.critical| < c.critical then
      s.(critical := s.critical + [s.blocked[i]], blocked := s.blocked[..i] + s.blocked[i + 1..])
    else s
  }

  /** Strict priority: a worker looks at NORMAL only when CRITICAL is empty, and at
      BEST_EFFORT only when both are. */
  function DoTake(s: Sim, w: nat): Sim {
    if w >= |s.hands| || s.hands[w] != Idle then s
    else if s.critical != [] then
      s.(critical := s.critical[1..], hands := s.hands[w := Single(s.critical[0])])
    else if s.normal != [] then
      if s.verdict.batch > 0 then
        var n := Min(s.verdict.batch, |s.normal|);
        s.(normal := s.normal[n..], hands := s.hands[w := Micro(s.normal[..n])])
      else s.(normal := s.normal[1..], hands := s.hands[w := Single(s.normal[0])])
    else if s.bestEffort != [] then
      s.(bestEffort := s.bestEffort[1..], hands := s.hands[w := Single(s.bestEffort[0])])
    else s
  }

  function DoFinish(s: Sim, w: nat): Sim {
    if w >= |s.hands| then s
    else
      match s.hands[w]
      case Idle => s
      case Single(e) =>
        s.(hands := s.hands[w := Idle], processed := Tallied(s.processed, LaneFor(e), 1),
           processedCount := s.processedCount + 1, streamed := s.streamed + 1)
      case Micro(batch) =>
        s.(hands := s.hands[w := Idle], processed := Tallied(s.processed, Normal, |batch|),
           processedCount := s.processedCount + |batch|, batched := s.batched + |batch|)
  }

  datatype SimStep = Enqueue(e: Event, draw: real) | Unblock(i: nat) | Take(w: nat) | Finish(w: nat)

  function Next(c: Capacities, s: Sim, step: SimStep): Sim
    requires Sane(c)
  {
    match step
    case Enqueue(e, draw) => DoEnqueue(c, s, e, draw)
    case Unblock(i) => DoUnblock(c, s, i)
    case Take(w) => DoTake(s, w)
    case Finish(w) => DoFinish(s, w)
  }

  function Run(c: Capacities, s: Sim, steps: seq<SimStep>): Sim
    requires Sane(c)
  {
    if steps == [] then s else Next(c, Run(c, s, steps[..|steps| - 1]), steps[|steps| - 1])
  }

  // ---- Conservation ----

  predicate AllOf(q: seq<Event>, p: Priority) {
    forall i :: 0 <= i < |q| ==> LaneFor(q[i]) == p
  }

  predicate Routed(s: Sim) {
    && AllOf(s.critical, Critical) && AllOf(s.blocked, Critical)
    && AllOf(s.normal, Normal) && AllOf(s.bestEffort, BestEffort)
  }

  /** CRITICAL has no loss term: an event is waiting for room, queued, in hand or processed. */
  predicate Conserved(s: Sim) {
    && s.generated.critical == |s.blocked| + |s.critical| + Holding(s.hands, Critical) + s.processed.critical
    && s.generated.normal == |s.normal| + Holding(s.hands, Normal) + s.processed.normal + s.deferred
    && s.generated.bestEffort == |s.bestEffort| + Holding(s.hands, BestEffort) + s.processed.bestEffort + s.shed
  }

  predicate Totalled(s: Sim) {
    && s.incoming == Sum(s.generated)
    && s.processedCount == Sum(s.processed) == s.streamed + s.batched
  }

  predicate Within(c: Capacities, s: Sim) {
    |s.critical| <= c.critical && |s.normal| <= c.normal && |s.bestEffort| <= c.bestEffort
  }

  predicate Sound(c: Capacities, s: Sim) {
    Routed(s) && Conserved(s) && Totalled(s) && Within(c, s)
  }

  /** Conservation while one arrival of lane `p` is counted but not yet placed. */
  predicate OneInTransit(s: Sim, p: Priority) {
    && s.generated.critical == |s.blocked| + |s.critical| + Holding(s.hands, Critical) + s.processed.critical
                               + (if p == Critical then 1 else 0)
    && s.generated.normal == |s.normal| + Holding(s.hands, Normal) + s.processed.normal + s.deferred
                             + (if p == Normal then 1 else 0)
    && s.generated.bestEffort == |s.bestEffort| + Holding(s.hands, BestEffort) + s.processed.bestEffort + s.shed
                                 + (if p == BestEffort then 1 else 0)
  }

  lemma CountedInTransit(c: Capacities, s: Sim, p: Priority)
    requires Sane(c) && Sound(c, s)
    ensures var s1 := Counted(c, s, p); Routed(s1) && OneInTransit(s1, p) && Totalled(s1) && Within(c, s1)
  {
  }

  lemma ShedKeeps(c: Capacities, s: Sim)
    requires Routed(s) && OneInTransit(s, BestEffort) && Totalled(s) && Within(c, s)
    ensures Sound(c, s.(shed := s.shed + 1))
  {
  }

  lemma SampledInTransit(c: Capacities, s: Sim, p: Priority)
    requires Routed(s) && OneInTransit(s, p) && Totalled(s) && Within(c, s)
    ensures var s1 := s.(sampled := s.sampled + 1); Routed(s1) && OneInTransit(s1, p) && Totalled(s1) && Within(c, s1)
  {
  }

  lemma PlacedKeeps(c: Capacities, s: Sim, e: Event)
    requires Routed(s) && OneInTransit(s, BestEffort) && Totalled(s) && Within(c, s) && LaneFor(e) == BestEffort
    requires |s.bestEffort| < c.bestEffort
    ensures Sound(c, s.(bestEffort := s.bestEffort + [e]))
  {
  }

  lemma BestEffortKeeps(c: Capacities, s: Sim, e: Event, draw: real)
    requires Routed(s) && OneInTransit(s, BestEffort) && Totalled(s) && Within(c, s) && LaneFor(e) == BestEffort
    ensures Sound(c, Offered(c, s, e, draw))
  {
    var s1 := if s.verdict.bestEffort == Sampled then s.(sampled := s.sampled + 1) else s;
    ShedKeeps(c, s);
    SampledInTransit(c, s, BestEffort);
    ShedKeeps(c, s1);
    if |s1.bestEffort| < c.bestEffort {
      PlacedKeeps(c, s1, e);
    }
  }

  lemma CriticalKeeps(c: Capacities, s: Sim, e: Event, draw: real)
    requires Routed(s) && OneInTransit(s, Critical) && Totalled(s) && Within(c, s) && LaneFor(e) == Critical
    ensures Sound(c, Offered(c, s, e, draw))
  {
  }

  lemma NormalKeeps(c: Capacities, s: Sim, e: Event, draw: real)
    requires Routed(s) && OneInTransit(s, Normal) && Totalled(s) && Within(c, s) && LaneFor(e) == Normal
    ensures Sound(c, Offered(c, s, e, draw))
  {
  }

  lemma EnqueueKeeps(c: Capacities, s: Sim, e: Event, draw: real)
    requires Sane(c) && Sound(c, s)
    ensures Sound(c, DoEnqueue(c, s, e, draw))
  {
    CountedInTransit(c, s, LaneFor(e));
    match LaneFor(e)
    case Critical => CriticalKeeps(c, Counted(c, s, Critical), e, draw);
    case Normal => NormalKeeps(c, Counted(c, s, Normal), e, draw);
    case BestEffort => BestEffortKeeps(c, Counted(c, s, BestEffort), e, draw);
  }

  lemma UnblockKeeps(c: Capacities, s: Sim, i: nat)
    requires Sound(c, s)
    ensures Sound(c, DoUnblock(c, s, i))
  {
  }

  lemma HandsUpdate(s: Sim, w: nat, h: Hand)
    requires w < |s.hands|
    ensures Holding(s.hands[w := h], Critical) + Holds(s.hands[w], Critical)
         == Holding(s.hands, Critical) + Holds(h, Critical)
    ensures Holding(s.hands[w := h], Normal) + Holds(s.hands[w], Normal) == Holding(s.hands, Normal) + Holds(h, Normal)
    ensures Holding(s.hands[w := h], BestEffort) + Holds(s.hands[w], BestEffort)
         == Holding(s.hands, BestEffort) + Holds(h, BestEffort)
  {
    HoldingUpdate(s.hands, w, h, Critical);
    HoldingUpdate(s.hands, w, h, Normal);
    HoldingUpdate(s.hands, w, h, BestEffort);
  }

  lemma TakeKeeps(c: Capacities, s: Sim, w: nat)
    requires Sound(c, s)
    ensures Sound(c, DoTake(s, w))
  {
    if w < |s.hands| {
      HandsUpdate(s, w, DoTake(s, w).hands[w]);
    }
  }

  lemma SingleKeeps(c: Capacities, s: Sim, w: nat)
    requires Sound(c, s) && w < |s.hands| && s.hands[w].Single?
    ensures Sound(c, DoFinish(s, w))
  {
    HandsUpdate(s, w, Idle);
  }

  lemma MicroKeeps(c: Capacities, s: Sim, w: nat)
    requires Sound(c, s) && w < |s.hands| && s.hands[w].Micro?
    ensures Sound(c, DoFinish(s, w))
  {
    HandsUpdate(s, w, Idle);
  }

  lemma FinishKeeps(c: Capacities, s: Sim, w: nat)
    requires Sound(c, s)
    ensures Sound(c, DoFinish(s, w))
  {
    if w < |s.hands| {
      match s.hands[w]
      case Idle =>
      case Single(_) => SingleKeeps(c, s, w);
      case Micro(_) => MicroKeeps(c, s, w);
    }
  }

  /** At every yield point of the simulated pipeline every event is accounted for by lane,
      CRITICAL without any loss, what was streamed and batched is what was processed, and
      every queue is within its capacity. */
  lemma {:induction false} EverythingIsAccountedFor(c: Capacities, s: Sim, steps: seq<SimStep>)
    requires Sane(c) && Sound(c, s)
    ensures Sound(c, Run(c, s, steps))
  {
    if steps != [] {
      var before := Run(c, s, steps[..|steps| - 1]);
      EverythingIsAccountedFor(c, s, steps[..|steps| - 1]);
      match steps[|steps| - 1]
      case Enqueue(e, draw) => EnqueueKeeps(c, before, e, draw);
      case Unblock(i) => UnblockKeeps(c, before, i);
      case Take(w) => TakeKeeps(c, before, w);
      case Finish(w) => FinishKeeps(c, before, w);
    }
  }

  // ---- Order of service ----

  /** What an idle worker's look at the queues put in its hand. */
  function Picked(s: Sim, w: nat): seq<Event> {
    if w < |s.hands| then
      match DoTake(s, w).hands[w]
      case Idle => []
      case Single(e) => [e]
      case Micro(batch) => batch
    else []
  }

  function QueueOf(s: Sim, p: Priority): seq<Event> {
    match p
    case Critical => s.critical
    case Normal => s.normal
    case BestEffort => s.bestEffort
  }

  /** The lane an idle worker serves: the first non-empty one in order of priority. */
  function Foremost(s: Sim): Option<Priority> {
    if s.critical != [] then Some(Critical)
    else if s.normal != [] then Some(Normal)
    else if s.bestEffort != [] then Some(BestEffort)
    else None
  }

  lemma FrontAndRest(q: seq<Event>, n: nat)
    requires n <= |q|
    ensures q[..n] + q[n..] == q
    ensures q != [] ==> [q[0]] + q[1..] == q
  {
  }

  lemma ServesNormal(s: Sim, w: nat)
    requires w < |s.hands| && s.hands[w] == Idle && Foremost(s) == Some(Normal)
    ensures Picked(s, w) != [] && Picked(s, w) + DoTake(s, w).normal == s.normal
  {
    FrontAndRest(s.normal, Min(s.verdict.batch, |s.normal|));
  }

  lemma ServesAnother(s: Sim, w: nat, p: Priority)
    requires w < |s.hands| && s.hands[w] == Idle && Foremost(s) == Some(p) && p != Normal
    ensures Picked(s, w) != [] && Picked(s, w) + QueueOf(DoTake(s, w), p) == QueueOf(s, p)
  {
    FrontAndRest(QueueOf(s, p), 1);
  }

  lemma LeavesOthers(s: Sim, w: nat, p: Priority)
    requires w < |s.hands| && s.hands[w] == Idle && Foremost(s) != Some(p)
    ensures QueueOf(DoTake(s, w), p) == QueueOf(s, p)
  {
  }

  /** Strict priority and first in, first out: a worker serves the foremost lane and only it,
      from the front, and it never leaves empty-handed while anything is queued. */
  lemma ServiceIsStrictAndInOrder(s: Sim, w: nat, p: Priority)
    requires w < |s.hands| && s.hands[w] == Idle
    ensures Foremost(s) == Some(p) ==> Picked(s, w) != [] && Picked(s, w) + QueueOf(DoTake(s, w), p) == QueueOf(s, p)
    ensures Foremost(s) != Some(p) ==> QueueOf(DoTake(s, w), p) == QueueOf(s, p)
  {
    if Foremost(s) != Some(p) {
      LeavesOthers(s, w, p);
    } else if p == Normal {
      ServesNormal(s, w);
    } else {
      ServesAnother(s, w, p);
    }
  }

  // ---- Losses ----

  /** An arrival is lost exactly when its lane is NORMAL and full, or BEST_EFFORT and shed,
      sampled out or full; CRITICAL never is. */
  lemma ArrivalIsLostIff(c: Capacities, s: Sim, e: Event, draw: real)
    requires Sane(c)
    ensures var s' := DoEnqueue(c, s, e, draw);
      s'.deferred + s'.shed > s.deferred + s.shed <==>
        match LaneFor(e)
        case Critical => false
        case Normal => |s.normal| >= c.normal
        case BestEffort => PressureOf(c, s) > 0.6 || (PressureOf(c, s) > 0.3 && draw > 0.5) || |s.bestEffort| >= c.bestEffort
  {
  }

  lemma TenthsAsReals(n: nat, capacity: nat)
    requires 10 * n <= 3 * capacity
    ensures n as real <= 0.3 * capacity as real
  {
    assert (10 * n) as real <= (3 * capacity) as real;
  }

  lemma QuotientBelow(x: real, k: real, bound: real)
    requires 0.0 < k && x <= bound * k
    ensures x / k <= bound
  {
    var q := x / k;
    assert q * k == x;
    CancelMul(q, bound, k);
  }

  lemma FillBelow(n: nat, capacity: nat)
    requires 0 < capacity && 10 * n <= 3 * capacity
    ensures Fill(n, capacity) <= 0.3
  {
    TenthsAsReals(n, capacity);
    QuotientBelow(n as real, capacity as real, 0.3);
  }

  /** While no lane is more than three tenths full, no arrival of any lane is lost or blocked. */
  lemma LightLoadLosesNothing(c: Capacities, s: Sim, e: Event, draw: real)
    requires Sane(c)
    requires 10 * |s.critical| <= 3 * c.critical && 10 * |s.normal| <= 3 * c.normal
    requires 10 * |s.bestEffort| <= 3 * c.bestEffort
    ensures var s' := DoEnqueue(c, s, e, draw);
      s'.deferred == s.deferred && s'.shed == s.shed && s'.blocked == s.blocked
  {
    FillBelow(|s.critical|, c.critical);
    FillBelow(|s.normal|, c.normal);
    FillBelow(|s.bestEffort|, c.bestEffort);
  }

  // ---- Draining ----

  function InHand(s: Sim): nat {
    Holding(s.hands, Critical) + Holding(s.hands, Normal) + Holding(s.hands, BestEffort)
  }

  /** Three steps for a blocked event, two for a queued one, one for one in hand. */
  function Backlog(s: Sim): nat {
    3 * |s.blocked| + 2 * (|s.critical| + |s.normal| + |s.bestEffort|) + InHand(s)
  }

  predicate HandsFull(s: Sim) {
    forall w :: 0 <= w < |s.hands| ==> s.hands[w] != Micro([])
  }

  lemma TakeShrinks(s: Sim, w: nat)
    requires HandsFull(s)
    ensures HandsFull(DoTake(s, w)) && (DoTake(s, w) == s || Backlog(DoTake(s, w)) < Backlog(s))
  {
    if w < |s.hands| {
      HandsUpdate(s, w, DoTake(s, w).hands[w]);
    }
  }

  lemma FinishShrinks(s: Sim, w: nat)
    requires HandsFull(s)
    ensures HandsFull(DoFinish(s, w)) && (DoFinish(s, w) == s || Backlog(DoFinish(s, w)) < Backlog(s))
  {
    if w < |s.hands| {
      HandsUpdate(s, w, Idle);
    }
  }

  lemma WorkShrinksBacklog(c: Capacities, s: Sim, step: SimStep)
    requires Sane(c) && HandsFull(s) && !step.Enqueue?
    ensures HandsFull(Next(c, s, step)) && (Next(c, s, step) == s || Backlog(Next(c, s, step)) < Backlog(s))
  {
    match step
    case Unblock(_) =>
    case Take(w) => TakeShrinks(s, w);
    case Finish(w) => FinishShrinks(s, w);
  }

  /** How many steps of a run change something. */
  function Effective(c: Capacities, s: Sim, steps: seq<SimStep>): nat
    requires Sane(c)
  {
    if steps == [] then 0
    else
      var before := Run(c, s, steps[..|steps| - 1]);
      Effective(c, s, steps[..|steps| - 1]) + if Next(c, before, steps[|steps| - 1]) != before then 1 else 0
  }

  /** Without arrivals the workers run out of things to do: the steps that change anything
      are at most the backlog. */
  lemma {:induction false} BacklogBoundsWork(c: Capacities, s: Sim, steps: seq<SimStep>)
    requires Sane(c) && HandsFull(s)
    requires forall i :: 0 <= i < |steps| ==> !steps[i].Enqueue?
    ensures Effective(c, s, steps) + Backlog(Run(c, s, steps)) <= Backlog(s)
    ensures HandsFull(Run(c, s, steps))
  {
    if steps != [] {
      BacklogBoundsWork(c, s, steps[..|steps| - 1]);
      WorkShrinksBacklog(c, Run(c, s, steps[..|steps| - 1]), steps[|steps| - 1]);
    }
  }

  /** When nothing is left inside, every CRITICAL event was processed and the only losses are
      the deferred NORMAL events and the shed BEST_EFFORT ones. */
  lemma DrainedMeansProcessed(c: Capacities, s: Sim)
    requires Sound(c, s) && Backlog(s) == 0
    ensures s.processed.critical == s.generated.critical
    ensures s.processed.normal + s.deferred == s.generated.normal
    ensures s.processed.bestEffort + s.shed == s.generated.bestEffort
    ensures s.incoming == s.processedCount + s.deferred + s.shed
  {
  }
}
