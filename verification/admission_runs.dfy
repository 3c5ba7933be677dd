/** Runs of the ingestion site: how deep NORMAL and BEST_EFFORT can get, and what CRITICAL gets. */
module AdmissionRuns {
  import opened Contracts
  import opened Aging
  import opened Admission
  import Pressure

  /** `h` is the handler registered when the event arrives; `Look` is a reading of the gate with
      no arrival; `Enter` is a suspended put completing. */
  datatype Step =
    | Arrival(e: Event, now: real, h: Handler)
    | Look
    | Pull(op: Op)
    | Requeue(e: Event)
    | Enter(i: nat)

  function DoEnter(c: Settings, s: Site, i: nat): Site {
    if i < |s.waiting| && !FullLane(c, s.lanes, LaneFor(s.waiting[i])) then
      var e := s.waiting[i];
      var p := LaneFor(e);
      s.(lanes := Push(s.lanes, p, e), waiting := s.waiting[..i] + s.waiting[i + 1..],
         late := if p == Critical then s.late else s.late + 1)
    else s
  }

  function Perform(c: Settings, s: Site, step: Step): Site {
    match step
    case Arrival(e, now, h) => Arrive(c, h, s, e, now)
    case Look => Observe(c, s)
    case Pull(op) => if op.Enqueue? then s else s.(lanes := Do(s.lanes, op).0)
    case Requeue(e) => if FullLane(c, s.lanes, Critical) then s else s.(lanes := Push(s.lanes, Critical, e))
    case Enter(i) => DoEnter(c, s, i)
  }

  function Run(c: Settings, s: Site, steps: seq<Step>): Site {
    if steps == [] then s else Perform(c, Run(c, s, steps[..|steps| - 1]), steps[|steps| - 1])
  }

  lemma {:induction false} RunConcat(c: Settings, s: Site, a: seq<Step>, b: seq<Step>)
    ensures Run(c, s, a + b) == Run(c, Run(c, s, a), b)
  {
    if b == [] {
      assert a + b == a;
    } else {
      assert (a + b)[..|a + b| - 1] == a + b[..|b| - 1];
      RunConcat(c, s, a, b[..|b| - 1]);
    }
  }

  predicate Initial(s: Site) {
    && TotalDepth(s.lanes) == 0 && !s.active && s.throttled == 0
    && s.seen == [] && s.waiting == [] && s.late == 0
  }

  // ---- The gate over runs ----

  /** In every reachable state the gate reads exactly as the hysteresis of what it has seen. */
  lemma {:induction false} GateIsHysteresis(c: Settings, s: Site, steps: seq<Step>)
    requires Initial(s)
    ensures Run(c, s, steps).active <==> LastDecisiveWasHigh(c.high, c.low, Run(c, s, steps).seen)
  {
    GateIsFold(c, s, steps);
    ActiveIffLastDecisiveWasHigh(c.high, c.low, Run(c, s, steps).seen);
  }

  predicate GateFolded(c: Settings, s: Site) {
    s.active == ActiveAfter(c.high, c.low, s.seen)
  }

  lemma ObserveFolds(c: Settings, s: Site)
    requires GateFolded(c, s)
    ensures GateFolded(c, Observe(c, s))
  {
    var ratio := RatioOf(Depth(c, s.lanes), c.capacity);
    assert (s.seen + [ratio])[..|s.seen|] == s.seen;
  }

  lemma {:induction false} GateIsFold(c: Settings, s: Site, steps: seq<Step>)
    requires Initial(s)
    ensures GateFolded(c, Run(c, s, steps))
  {
    if steps != [] {
      GateIsFold(c, s, steps[..|steps| - 1]);
      ObserveFolds(c, Run(c, s, steps[..|steps| - 1]));
    }
  }

  // ---- The depth bound ----

  /** The least whole depth at which the gate closes. */
  function Mark(c: Settings): nat {
    var x := c.high * c.capacity as real;
    var up := -(-x).Floor;
    if up < 0 then 0 else up
  }

  lemma ClosedIff(c: Settings, depth: nat)
    requires c.capacity > 0
    ensures RatioOf(depth, c.capacity) >= c.high <==> depth >= Mark(c)
  {
    var k := c.capacity as real;
    var q := depth as real / k;
    assert q * k == depth as real;
    if q >= c.high {
      assert q * k >= c.high * k by { MulLe(c.high, q, k); }
    } else {
      assert q * k < c.high * k by { MulLt(q, c.high, k); }
    }
  }

  lemma MulLe(a: real, b: real, k: real)
    requires a <= b && 0.0 < k
    ensures a * k <= b * k
  {
    assert (b - a) * k >= 0.0;
  }

  lemma MulLt(a: real, b: real, k: real)
    requires a < b && 0.0 < k
    ensures a * k < b * k
  {
    assert (b - a) * k > 0.0;
  }

  predicate Measured(c: Settings) {
    c.capacity > 0 && c.pinned == None
  }

  /** The handler does not put below CRITICAL what the gate lets through as CRITICAL: only the
      adaptive one does, with an event that asks for CRITICAL though its type is not. */
  predicate Gated(step: Step) {
    step.Arrival? && LaneFor(step.e) == Critical ==> Destination(step.h, step.e) == Critical
  }

  predicate AllGated(steps: seq<Step>) {
    forall i :: 0 <= i < |steps| ==> Gated(steps[i])
  }

  predicate Shallow(c: Settings, s: Site) {
    Ordinary(s.lanes) <= Mark(c) + s.late
  }

  lemma PullsOnlyShrink(d: Lanes, op: Op, p: Priority)
    requires !op.Enqueue?
    ensures |LaneOf(Do(d, op).0, p)| <= |LaneOf(d, p)|
  {
    OneOp(d, op, p);
    assert |Gave(Do(d, op).1, p) + LaneOf(Do(d, op).0, p)| == |LaneOf(d, p) + []|;
  }

  lemma StepKeepsShallow(c: Settings, s: Site, step: Step)
    requires Measured(c) && Shallow(c, s) && Gated(step)
    ensures Shallow(c, Perform(c, s, step))
  {
    match step
    case Arrival(_, _, _) => ClosedIff(c, TotalDepth(s.lanes));
    case Look =>
    case Pull(op) =>
      if !op.Enqueue? {
        PullsOnlyShrink(s.lanes, op, Normal);
        PullsOnlyShrink(s.lanes, op, BestEffort);
      }
    case Requeue(_) =>
    case Enter(_) =>
  }

  /** In every run, requeues and promotions included, NORMAL and BEST_EFFORT together hold
      at most the high watermark's depth plus what entered late from a full lane, as long as
      no event passes the gate as CRITICAL to be put on another lane. */
  lemma {:induction false} DepthBound(c: Settings, s: Site, steps: seq<Step>)
    requires Measured(c) && Initial(s) && AllGated(steps)
    ensures Shallow(c, Run(c, s, steps))
  {
    if steps != [] {
      DepthBound(c, s, steps[..|steps| - 1]);
      StepKeepsShallow(c, Run(c, s, steps[..|steps| - 1]), steps[|steps| - 1]);
    }
  }

  // ---- Exactly when the bound is the watermark itself ----

  /** A lane that can be full while the gate is still open. */
  predicate CanOverflow(c: Settings, p: Priority) {
    p != Critical && 0 < Limit(c, p) < Mark(c)
  }

  predicate LimitsFit(c: Settings) {
    0 < c.maxNormal && 0 < c.maxBestEffort && c.maxNormal + c.maxBestEffort <= Mark(c)
  }

  predicate Sound(c: Settings) {
    (!CanOverflow(c, Normal) && !CanOverflow(c, BestEffort)) || LimitsFit(c)
  }

  predicate WithinLimits(c: Settings, d: Lanes) {
    && (0 < c.maxNormal ==> |d.normal| <= c.maxNormal)
    && (0 < c.maxBestEffort ==> |d.bestEffort| <= c.maxBestEffort)
  }

  lemma StepKeepsLimits(c: Settings, s: Site, step: Step)
    requires WithinLimits(c, s.lanes)
    ensures WithinLimits(c, Perform(c, s, step).lanes)
  {
    if step.Pull? && !step.op.Enqueue? {
      PullsOnlyShrink(s.lanes, step.op, Normal);
      PullsOnlyShrink(s.lanes, step.op, BestEffort);
    }
  }

  /** Only a lane that can be full below the watermark ever keeps an event waiting. */
  predicate WaitersOverflow(c: Settings, s: Site) {
    forall i :: 0 <= i < |s.waiting| ==> LaneFor(s.waiting[i]) == Critical || CanOverflow(c, LaneFor(s.waiting[i]))
  }

  lemma StepKeepsWaiters(c: Settings, s: Site, step: Step)
    requires Measured(c) && WaitersOverflow(c, s) && Gated(step)
    ensures WaitersOverflow(c, Perform(c, s, step))
    ensures !CanOverflow(c, Normal) && !CanOverflow(c, BestEffort) ==> Perform(c, s, step).late == s.late
  {
    if step.Arrival? {
      ClosedIff(c, TotalDepth(s.lanes));
    }
  }

  lemma {:induction false} RunKeepsLimits(c: Settings, s: Site, steps: seq<Step>)
    requires Initial(s)
    ensures WithinLimits(c, Run(c, s, steps).lanes)
  {
    if steps != [] {
      RunKeepsLimits(c, s, steps[..|steps| - 1]);
      StepKeepsLimits(c, Run(c, s, steps[..|steps| - 1]), steps[|steps| - 1]);
    }
  }

  lemma {:induction false} RunKeepsWaiters(c: Settings, s: Site, steps: seq<Step>)
    requires Measured(c) && Initial(s) && AllGated(steps)
    ensures WaitersOverflow(c, Run(c, s, steps))
    ensures !CanOverflow(c, Normal) && !CanOverflow(c, BestEffort) ==> Run(c, s, steps).late == 0
  {
    if steps != [] {
      RunKeepsWaiters(c, s, steps[..|steps| - 1]);
      StepKeepsWaiters(c, Run(c, s, steps[..|steps| - 1]), steps[|steps| - 1]);
    }
  }

  lemma SoundIsBounded(c: Settings, s: Site, steps: seq<Step>)
    requires Measured(c) && Initial(s) && Sound(c) && (LimitsFit(c) || AllGated(steps))
    ensures Ordinary(Run(c, s, steps).lanes) <= Mark(c)
  {
    RunKeepsLimits(c, s, steps);
    if !LimitsFit(c) {
      DepthBound(c, s, steps);
      RunKeepsWaiters(c, s, steps);
    }
  }

  // ---- The run that breaks an unsound setting ----

  function Repeat(step: Step, n: nat): seq<Step> {
    if n == 0 then [] else Repeat(step, n - 1) + [step]
  }

  /** A site the breaking run passes through. */
  predicate At(s: Site, p: Priority, inLane: nat, elsewhere: nat, waiting: seq<Event>) {
    && |LaneOf(s.lanes, p)| == inLane && TotalDepth(s.lanes) == inLane + elsewhere
    && !s.active && s.waiting == waiting && s.lanes.critical == []
  }

  lemma Admits(c: Settings, s: Site, e: Event, p: Priority, inLane: nat, elsewhere: nat, w: seq<Event>)
    requires Measured(c) && LaneFor(e) == p && p != Critical && At(s, p, inLane, elsewhere, w)
    requires inLane + elsewhere < Mark(c) && (0 < Limit(c, p) ==> inLane < Limit(c, p))
    ensures At(Arrive(c, Default, s, e, 0.0), p, inLane + 1, elsewhere, w)
  {
    ClosedIff(c, TotalDepth(s.lanes));
  }

  lemma {:induction false} Fills(c: Settings, s: Site, e: Event, p: Priority, inLane: nat, elsewhere: nat,
                                 w: seq<Event>, n: nat)
    requires Measured(c) && LaneFor(e) == p && p != Critical && At(s, p, inLane, elsewhere, w)
    requires inLane + elsewhere + n <= Mark(c) && (0 < Limit(c, p) ==> inLane + n <= Limit(c, p))
    ensures At(Run(c, s, Repeat(Arrival(e, 0.0, Default), n)), p, inLane + n, elsewhere, w)
  {
    if n > 0 {
      var a := Arrival(e, 0.0, Default);
      var r := Repeat(a, n);
      Fills(c, s, e, p, inLane, elsewhere, w, n - 1);
      assert r[..|r| - 1] == Repeat(a, n - 1);
      Admits(c, Run(c, s, Repeat(a, n - 1)), e, p, inLane + n - 1, elsewhere, w);
    }
  }

  function Other(p: Priority): Priority {
    if p == Normal then BestEffort else Normal
  }

  function EventFor(p: Priority): Event {
    Event("e", Unmapped(""), 0.0, None, Some(p), Absent, None, None)
  }

  /** Fill the lane, leave one event waiting on it, and pull one. */
  function Waiting(c: Settings, p: Priority): seq<Step>
    requires CanOverflow(c, p)
  {
    Repeat(Arrival(EventFor(p), 0.0, Default), Limit(c, p)) + [Arrival(EventFor(p), 0.0, Default), Pull(PullLane(p))]
  }

  /** Fill the other lane up to the watermark. */
  function Topping(c: Settings, p: Priority): seq<Step>
    requires CanOverflow(c, p)
  {
    Repeat(Arrival(EventFor(Other(p)), 0.0, Default), Mark(c) - Limit(c, p) + 1)
  }

  /** And let the waiting event in. */
  function Breaking(c: Settings, p: Priority): seq<Step>
    requires CanOverflow(c, p)
  {
    (Waiting(c, p) + Topping(c, p)) + [Enter(0)]
  }

  lemma Waits(c: Settings, s: Site, p: Priority)
    requires Measured(c) && CanOverflow(c, p) && At(s, p, Limit(c, p), 0, [])
    ensures At(Run(c, s, [Arrival(EventFor(p), 0.0, Default), Pull(PullLane(p))]), p, Limit(c, p) - 1, 0,
               [Received(EventFor(p), 0.0)])
  {
    var a, b := Arrival(EventFor(p), 0.0, Default), Pull(PullLane(p));
    ClosedIff(c, TotalDepth(s.lanes));
    assert [a, b][..1] == [a] && [a][..0] == [];
    assert Run(c, s, [a]) == Perform(c, Run(c, s, []), a);
    assert Run(c, s, [a, b]) == Perform(c, Run(c, s, [a]), b);
  }

  lemma Overflows(c: Settings, s: Site, p: Priority)
    requires Measured(c) && CanOverflow(c, p)
    requires At(s, Other(p), Mark(c) - Limit(c, p) + 1, Limit(c, p) - 1, [Received(EventFor(p), 0.0)])
    ensures Ordinary(Run(c, s, [Enter(0)]).lanes) == Mark(c) + 1
  {
    assert [Enter(0)][..0] == [];
    assert Run(c, s, [Enter(0)]) == Perform(c, s, Enter(0));
    assert LaneFor(Received(EventFor(p), 0.0)) == p;
  }

  lemma LeavesOneWaiting(c: Settings, s: Site, p: Priority)
    requires Measured(c) && Initial(s) && CanOverflow(c, p)
    ensures At(Run(c, s, Waiting(c, p)), p, Limit(c, p) - 1, 0, [Received(EventFor(p), 0.0)])
  {
    var fill := Repeat(Arrival(EventFor(p), 0.0, Default), Limit(c, p));
    Fills(c, s, EventFor(p), p, 0, 0, [], Limit(c, p));
    Waits(c, Run(c, s, fill), p);
    RunConcat(c, s, fill, [Arrival(EventFor(p), 0.0, Default), Pull(PullLane(p))]);
  }

  lemma TopsUp(c: Settings, s: Site, p: Priority)
    requires Measured(c) && CanOverflow(c, p) && At(s, p, Limit(c, p) - 1, 0, [Received(EventFor(p), 0.0)])
    requires Limit(c, Other(p)) == 0 || Limit(c, p) + Limit(c, Other(p)) > Mark(c)
    ensures At(Run(c, s, Topping(c, p)), Other(p), Mark(c) - Limit(c, p) + 1, Limit(c, p) - 1,
               [Received(EventFor(p), 0.0)])
  {
    Fills(c, s, EventFor(Other(p)), Other(p), 0, Limit(c, p) - 1, s.waiting, Mark(c) - Limit(c, p) + 1);
  }

  lemma LeavesFull(c: Settings, s: Site, p: Priority)
    requires Measured(c) && Initial(s) && CanOverflow(c, p)
    requires Limit(c, Other(p)) == 0 || Limit(c, p) + Limit(c, Other(p)) > Mark(c)
    ensures At(Run(c, s, Waiting(c, p) + Topping(c, p)), Other(p), Mark(c) - Limit(c, p) + 1, Limit(c, p) - 1,
               [Received(EventFor(p), 0.0)])
  {
    LeavesOneWaiting(c, s, p);
    TopsUp(c, Run(c, s, Waiting(c, p)), p);
    RunConcat(c, s, Waiting(c, p), Topping(c, p));
  }

  lemma UnsoundBreaks(c: Settings, s: Site, p: Priority)
    requires Measured(c) && Initial(s) && CanOverflow(c, p)
    requires Limit(c, Other(p)) == 0 || Limit(c, p) + Limit(c, Other(p)) > Mark(c)
    ensures Ordinary(Run(c, s, Breaking(c, p)).lanes) == Mark(c) + 1
  {
    LeavesFull(c, s, p);
    Overflows(c, Run(c, s, Waiting(c, p) + Topping(c, p)), p);
    RunConcat(c, s, Waiting(c, p) + Topping(c, p), [Enter(0)]);
  }

  // ---- The run that breaks a sound setting through the adaptive handler ----

  /** An event that asks for CRITICAL though its type is not. */
  predicate Overclaims(e: Event) {
    LaneFor(e) == Critical && Classify(e.eventType) != Critical
  }

  /** Surroundings in which the adaptive handler queues everything, whatever the depth. */
  const CALM := Surroundings(0.0, 0.0, 0.0, 0.0, 1.0, 0.0)

  lemma CalmQueues(d: Lanes, e: Event)
    ensures Queues(Adaptive(CALM), d, e)
  {
    var l := LoadOf(d, CALM);
    assert Pressure.LatencyFactor(l) == 0.0;
    Pressure.FactorWeighs(l, SCORED_CAPACITY);
  }

  predicate HasRoom(c: Settings, d: Lanes, p: Priority, n: nat) {
    Limit(c, p) == 0 || |LaneOf(d, p)| + n <= Limit(c, p)
  }

  /** `n` more events on the lane, and below CRITICAL, than there were. */
  predicate Slipped(s: Site, t: Site, p: Priority, n: nat) {
    Ordinary(t.lanes) == Ordinary(s.lanes) + n && |LaneOf(t.lanes, p)| == |LaneOf(s.lanes, p)| + n
  }

  lemma Slips(c: Settings, s: Site, t: Site, e: Event, n: nat)
    requires Overclaims(e) && HasRoom(c, s.lanes, Classify(e.eventType), n + 1)
    requires Slipped(s, t, Classify(e.eventType), n)
    ensures Slipped(s, Arrive(c, Adaptive(CALM), t, e, 0.0), Classify(e.eventType), n + 1)
  {
    CalmQueues(t.lanes, e);
  }

  /** The gate never stops them. */
  lemma {:induction false} SlipsThrough(c: Settings, s: Site, e: Event, n: nat)
    requires Overclaims(e) && HasRoom(c, s.lanes, Classify(e.eventType), n)
    ensures Slipped(s, Run(c, s, Repeat(Arrival(e, 0.0, Adaptive(CALM)), n)), Classify(e.eventType), n)
  {
    if n > 0 {
      var a := Arrival(e, 0.0, Adaptive(CALM));
      var r := Repeat(a, n);
      var before := Run(c, s, Repeat(a, n - 1));
      SlipsThrough(c, s, e, n - 1);
      assert Run(c, s, r) == Arrive(c, Adaptive(CALM), before, e, 0.0) by {
        assert r[..|r| - 1] == Repeat(a, n - 1);
      }
      Slips(c, s, before, e, n - 1);
    }
  }

  function Slipping(c: Settings, e: Event): seq<Step> {
    var p := Classify(e.eventType);
    var slip := Arrival(e, 0.0, Adaptive(CALM));
    if Limit(c, p) == 0 || Mark(c) < Limit(c, p) then Repeat(slip, Mark(c) + 1)
    else [Arrival(EventFor(Other(p)), 0.0, Default)] + Repeat(slip, Mark(c))
  }

  lemma FirstFills(c: Settings, s: Site, p: Priority)
    requires Measured(c) && Initial(s) && p != Critical && 0 < Mark(c) && !CanOverflow(c, Other(p))
    ensures var t := Run(c, s, [Arrival(EventFor(Other(p)), 0.0, Default)]);
      Ordinary(t.lanes) == 1 && LaneOf(t.lanes, p) == []
  {
    var first := [Arrival(EventFor(Other(p)), 0.0, Default)];
    assert first == Repeat(first[0], 1);
    Fills(c, s, EventFor(Other(p)), Other(p), 0, 0, [], 1);
  }

  lemma SlipsPastOne(c: Settings, s: Site, e: Event)
    requires Measured(c) && Initial(s) && Overclaims(e) && 0 < Mark(c) == Limit(c, Classify(e.eventType))
    requires !CanOverflow(c, Other(Classify(e.eventType)))
    ensures var slips := Repeat(Arrival(e, 0.0, Adaptive(CALM)), Mark(c));
      var first := [Arrival(EventFor(Other(Classify(e.eventType))), 0.0, Default)];
      Ordinary(Run(c, s, first + slips).lanes) == Mark(c) + 1
  {
    var first := [Arrival(EventFor(Other(Classify(e.eventType))), 0.0, Default)];
    FirstFills(c, s, Classify(e.eventType));
    SlipsThrough(c, Run(c, s, first), e, Mark(c));
    RunConcat(c, s, first, Repeat(Arrival(e, 0.0, Adaptive(CALM)), Mark(c)));
  }

  lemma OverclaimBreaks(c: Settings, s: Site, e: Event)
    requires Measured(c) && Initial(s) && Overclaims(e) && !CanOverflow(c, Normal) && !CanOverflow(c, BestEffort)
    ensures Ordinary(Run(c, s, Slipping(c, e)).lanes) == Mark(c) + 1
  {
    var p := Classify(e.eventType);
    if Limit(c, p) == 0 || Mark(c) < Limit(c, p) {
      SlipsThrough(c, s, e, Mark(c) + 1);
    } else {
      SlipsPastOne(c, s, e);
    }
  }

  // ---- The bound, exactly ----

  /** The adaptive handler is given nothing but events of the kind that is sent. */
  ghost predicate SentOnly(steps: seq<Step>, sent: Event -> bool) {
    forall i :: 0 <= i < |steps| && steps[i].Arrival? && steps[i].h.Adaptive? ==> sent(steps[i].e)
  }

  lemma {:induction false} RepeatSends(step: Step, n: nat, sent: Event -> bool)
    requires SentOnly([step], sent)
    ensures SentOnly(Repeat(step, n), sent)
  {
    assert [step][0] == step;
    if n > 0 {
      RepeatSends(step, n - 1, sent);
    }
  }

  lemma SendsConcat(a: seq<Step>, b: seq<Step>, sent: Event -> bool)
    requires SentOnly(a, sent) && SentOnly(b, sent)
    ensures SentOnly(a + b, sent)
  {
  }

  lemma BreakingSends(c: Settings, p: Priority, sent: Event -> bool)
    requires CanOverflow(c, p)
    ensures SentOnly(Breaking(c, p), sent)
  {
    var fill := Repeat(Arrival(EventFor(p), 0.0, Default), Limit(c, p));
    RepeatSends(Arrival(EventFor(p), 0.0, Default), Limit(c, p), sent);
    RepeatSends(Arrival(EventFor(Other(p)), 0.0, Default), Mark(c) - Limit(c, p) + 1, sent);
    SendsConcat(fill, [Arrival(EventFor(p), 0.0, Default), Pull(PullLane(p))], sent);
    SendsConcat(Waiting(c, p), Topping(c, p), sent);
    SendsConcat(Waiting(c, p) + Topping(c, p), [Enter(0)], sent);
  }

  lemma UnsoundRun(c: Settings, s: Site, sent: Event -> bool) returns (steps: seq<Step>)
    requires Measured(c) && Initial(s) && !Sound(c)
    ensures SentOnly(steps, sent) && Ordinary(Run(c, s, steps).lanes) > Mark(c)
  {
    var p := if CanOverflow(c, Normal) then Normal else BestEffort;
    UnsoundBreaks(c, s, p);
    BreakingSends(c, p, sent);
    steps := Breaking(c, p);
  }

  lemma OverclaimRun(c: Settings, s: Site, sent: Event -> bool, e: Event) returns (steps: seq<Step>)
    requires Measured(c) && Initial(s) && Sound(c) && !LimitsFit(c) && sent(e) && Overclaims(e)
    ensures SentOnly(steps, sent) && Ordinary(Run(c, s, steps).lanes) > Mark(c)
  {
    OverclaimBreaks(c, s, e);
    RepeatSends(Arrival(e, 0.0, Adaptive(CALM)), Mark(c), sent);
    RepeatSends(Arrival(e, 0.0, Adaptive(CALM)), Mark(c) + 1, sent);
    steps := Slipping(c, e);
  }

  /** Whatever kind of event is sent to the adaptive handler: the high watermark bounds the
      NORMAL and BEST_EFFORT depth of every run if and only if neither lane can be full below
      it and no event that is sent asks for CRITICAL against its type, or the limits of the
      two lanes together fit under it. */
  lemma WatermarkBoundsEveryRunIff(c: Settings, s: Site, sent: Event -> bool)
    requires Measured(c) && Initial(s)
    ensures (forall steps :: SentOnly(steps, sent) ==> Ordinary(Run(c, s, steps).lanes) <= Mark(c))
      <==> Sound(c) && (LimitsFit(c) || forall e :: sent(e) ==> !Overclaims(e))
  {
    if !Sound(c) {
      var steps := UnsoundRun(c, s, sent);
    } else if e: Event :| !LimitsFit(c) && sent(e) && Overclaims(e) {
      var steps := OverclaimRun(c, s, sent, e);
    } else {
      forall steps: seq<Step> | SentOnly(steps, sent)
        ensures Ordinary(Run(c, s, steps).lanes) <= Mark(c)
      {
        SoundIsBounded(c, s, steps);
      }
    }
  }

  // ---- CRITICAL over runs ----

  function CriticalEntry(step: Step): seq<Event> {
    match step
    case Arrival(e, now, _) => if LaneFor(e) == Critical then [Received(e, now)] else []
    case Requeue(e) => [e]
    case _ => []
  }

  function CriticalEntries(steps: seq<Step>): seq<Event> {
    if steps == [] then [] else CriticalEntries(steps[..|steps| - 1]) + CriticalEntry(steps[|steps| - 1])
  }

  function CriticalOut(s: Site, step: Step): seq<Event> {
    if step.Pull? && !step.op.Enqueue? then Gave(Do(s.lanes, step.op).1, Critical) else []
  }

  /** What the CRITICAL lane delivered, in order. */
  function CriticalOuts(c: Settings, s: Site, steps: seq<Step>): seq<Event> {
    if steps == [] then []
    else CriticalOuts(c, s, steps[..|steps| - 1]) + CriticalOut(Run(c, s, steps[..|steps| - 1]), steps[|steps| - 1])
  }

  lemma EmptyEnds(q: seq<Event>)
    ensures [] + q == q == q + []
  {
  }

  /** An arrival that finds a handler, which agrees with the gate on whether it is CRITICAL. */
  predicate Straight(step: Step) {
    step.Arrival? ==> step.h != NoHandler && (LaneFor(step.e) == Critical <==> Destination(step.h, step.e) == Critical)
  }

  predicate AllStraight(steps: seq<Step>) {
    forall i :: 0 <= i < |steps| ==> Straight(steps[i])
  }

  lemma CriticalStep(c: Settings, s: Site, step: Step)
    requires c.maxCritical == 0 && CriticalWaitsNever(s) && Straight(step)
    ensures CriticalOut(s, step) + Perform(c, s, step).lanes.critical == s.lanes.critical + CriticalEntry(step)
    ensures CriticalWaitsNever(Perform(c, s, step))
  {
    match step
    case Pull(op) =>
      if !op.Enqueue? {
        OneOp(s.lanes, op, Critical);
      } else {
        EmptyEnds(s.lanes.critical);
      }
    case Arrival(e, now, h) =>
      EmptyEnds(s.lanes.critical);
      EmptyEnds(Arrive(c, h, s, e, now).lanes.critical);
    case Requeue(e) => EmptyEnds(s.lanes.critical + [e]);
    case Look => EmptyEnds(s.lanes.critical);
    case Enter(_) => EmptyEnds(s.lanes.critical);
  }

  predicate CriticalWaitsNever(s: Site) {
    forall i :: 0 <= i < |s.waiting| ==> LaneFor(s.waiting[i]) != Critical
  }

  lemma Regroup(outs: seq<Event>, out: seq<Event>, after: seq<Event>, before: seq<Event>, ins: seq<Event>, entry: seq<Event>)
    requires outs + before == ins && out + after == before + entry
    ensures (outs + out) + after == ins + entry
  {
    assert (outs + out) + after == outs + (out + after);
    assert outs + (before + entry) == (outs + before) + entry;
  }

  /** CRITICAL is never throttled, delayed or reordered, in any run and whatever the gate says,
      as long as the handler agrees with the gate on what is CRITICAL: every CRITICAL arrival
      and every requeue is delivered or still waiting, in order, and nothing else is. */
  lemma {:induction false} CriticalIsNeverThrottled(c: Settings, s: Site, steps: seq<Step>)
    requires Initial(s) && c.maxCritical == 0 && AllStraight(steps)
    ensures CriticalOuts(c, s, steps) + Run(c, s, steps).lanes.critical == CriticalEntries(steps)
    ensures CriticalWaitsNever(Run(c, s, steps))
  {
    if steps != [] {
      var n := |steps| - 1;
      var before := Run(c, s, steps[..n]);
      CriticalIsNeverThrottled(c, s, steps[..n]);
      CriticalStep(c, before, steps[n]);
      Regroup(CriticalOuts(c, s, steps[..n]), CriticalOut(before, steps[n]), Run(c, s, steps).lanes.critical,
              before.lanes.critical, CriticalEntries(steps[..n]), CriticalEntry(steps[n]));
    }
  }

  predicate AllHandled(steps: seq<Step>) {
    forall i :: 0 <= i < |steps| && steps[i].Arrival? ==> steps[i].h != NoHandler
  }

  /** What `CriticalIsNeverThrottled` says of a run. */
  predicate CriticalKept(c: Settings, s: Site, steps: seq<Step>) {
    CriticalOuts(c, s, steps) + Run(c, s, steps).lanes.critical == CriticalEntries(steps)
  }

  predicate Agrees(e: Event) {
    LaneFor(e) == Critical <==> Classify(e.eventType) == Critical
  }

  lemma DisagreementBreaks(c: Settings, s: Site, e: Event)
    requires Initial(s) && c.maxCritical == 0 && !Observe(c, s).active && !Agrees(e)
    ensures !CriticalKept(c, s, [Arrival(e, 0.0, Adaptive(CALM))])
  {
    var steps := [Arrival(e, 0.0, Adaptive(CALM))];
    CalmQueues(s.lanes, e);
    assert steps[..0] == [];
    assert Run(c, s, steps) == Perform(c, Run(c, s, []), steps[0]);
    assert CriticalEntries(steps) == CriticalEntries([]) + CriticalEntry(steps[0]);
    assert CriticalOuts(c, s, steps) == CriticalOuts(c, s, []) + CriticalOut(s, steps[0]);
  }

  /** Whatever kind of event is sent to the adaptive handler: CRITICAL is kept so in every run
      if and only if each event that is sent asks for CRITICAL exactly when its type is. */
  lemma CriticalIsKeptIff(c: Settings, s: Site, sent: Event -> bool)
    requires Initial(s) && c.maxCritical == 0 && !Observe(c, s).active
    ensures (forall steps :: AllHandled(steps) && SentOnly(steps, sent) ==> CriticalKept(c, s, steps))
      <==> forall e :: sent(e) ==> Agrees(e)
  {
    if e: Event :| sent(e) && !Agrees(e) {
      DisagreementBreaks(c, s, e);
      assert SentOnly([Arrival(e, 0.0, Adaptive(CALM))], sent);
    } else {
      forall steps: seq<Step> | AllHandled(steps) && SentOnly(steps, sent)
        ensures CriticalKept(c, s, steps)
      {
        assert AllStraight(steps) by {
          forall i | 0 <= i < |steps|
            ensures Straight(steps[i])
          {
            assert steps[i].Arrival? && steps[i].h.Adaptive? ==> Agrees(steps[i].e);
          }
        }
        CriticalIsNeverThrottled(c, s, steps);
      }
    }
  }
}
