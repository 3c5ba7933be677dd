/** Where every event of the ingestion site is, over whole runs: what is let in is delivered,
    queued or waiting, once each, and every lane serves it in the order it joined. */
module AdmissionLedger {
  import opened Contracts
  import opened Aging
  import opened Admission
  import opened AdmissionRuns

  /** An arrival as it is queued: received now, on the lane of its handler's choice. */
  function Stamped(h: Handler, e: Event, now: real): Event {
    e.(receivedAt := Some(now), priority := Some(if h.Adaptive? then Classify(e.eventType) else LaneFor(e)))
  }

  predicate PassesGate(c: Settings, s: Site, step: Step) {
    step.Arrival? && !Rejects(c, s, LaneFor(step.e)) && Queues(step.h, s.lanes, step.e)
  }

  predicate Enters(c: Settings, s: Site, step: Step) {
    step.Enter? && step.i < |s.waiting| && !FullLane(c, s.lanes, LaneFor(s.waiting[step.i]))
  }

  /** What a step lets in: an arrival that passes the gate and that the handler queues, or a
      requeue while CRITICAL has room. */
  function LetIn(c: Settings, s: Site, step: Step): seq<Event> {
    match step
    case Arrival(e, now, h) => if PassesGate(c, s, step) then [Stamped(h, e, now)] else []
    case Requeue(e) => if FullLane(c, s.lanes, Critical) then [] else [e]
    case _ => []
  }

  /** What joins a lane: what is let in while it has room, and a suspended put that completes. */
  function Joined(c: Settings, s: Site, step: Step, p: Priority): seq<Event> {
    if FullLane(c, s.lanes, p) then []
    else
      match step
      case Arrival(e, _, h) => if Destination(h, e) == p then LetIn(c, s, step) else []
      case Requeue(_) => if p == Critical then LetIn(c, s, step) else []
      case Enter(i) => if i < |s.waiting| && LaneFor(s.waiting[i]) == p then [s.waiting[i]] else []
      case _ => []
  }

  function Pulled(s: Site, step: Step): seq<Out> {
    if step.Pull? && !step.op.Enqueue? then AsSeq(Do(s.lanes, step.op).1) else []
  }

  // ---- Each lane is first in, first out ----

  lemma ArrivalGoes(c: Settings, s: Site, e: Event, now: real, h: Handler)
    ensures var t, full := Arrive(c, h, s, e, now), FullLane(c, s.lanes, Destination(h, e));
      if !PassesGate(c, s, Arrival(e, now, h)) then t.lanes == s.lanes && t.waiting == s.waiting
      else if full then t.lanes == s.lanes && t.waiting == s.waiting + [Stamped(h, e, now)]
      else t.lanes == Push(s.lanes, Destination(h, e), Stamped(h, e, now)) && t.waiting == s.waiting
  {
  }

  lemma ArrivalInOrder(c: Settings, s: Site, e: Event, now: real, h: Handler, p: Priority)
    ensures LaneOf(Arrive(c, h, s, e, now).lanes, p) == LaneOf(s.lanes, p) + Joined(c, s, Arrival(e, now, h), p)
  {
    ArrivalGoes(c, s, e, now, h);
    PushGoes(s.lanes, Destination(h, e), Stamped(h, e, now), p);
  }

  lemma PushGoes(d: Lanes, to: Priority, e: Event, p: Priority)
    ensures LaneOf(Push(d, to, e), p) == LaneOf(d, p) + if p == to then [e] else []
  {
  }

  lemma OneOut(o: Option<Out>, p: Priority)
    ensures FromLane(AsSeq(o), p) == Gave(o, p)
  {
    if o.Some? {
      assert [o.value][1..] == [];
    }
  }

  lemma PullInOrder(c: Settings, s: Site, op: Op, p: Priority)
    ensures FromLane(Pulled(s, Pull(op)), p) + LaneOf(Perform(c, s, Pull(op)).lanes, p) == LaneOf(s.lanes, p)
  {
    if !op.Enqueue? {
      OneOp(s.lanes, op, p);
      OneOut(Do(s.lanes, op).1, p);
      assert LaneOf(s.lanes, p) + [] == LaneOf(s.lanes, p);
    }
  }

  lemma PutInOrder(c: Settings, s: Site, step: Step, p: Priority)
    requires step.Requeue? || step.Enter? || step.Look?
    ensures LaneOf(Perform(c, s, step).lanes, p) == LaneOf(s.lanes, p) + Joined(c, s, step, p)
  {
    match step
    case Requeue(e) => PushGoes(s.lanes, Critical, e, p);
    case Enter(i) =>
      if i < |s.waiting| {
        PushGoes(s.lanes, LaneFor(s.waiting[i]), s.waiting[i], p);
      }
    case Look =>
  }

  lemma StepInOrder(c: Settings, s: Site, step: Step, p: Priority)
    ensures FromLane(Pulled(s, step), p) + LaneOf(Perform(c, s, step).lanes, p) == LaneOf(s.lanes, p) + Joined(c, s, step, p)
  {
    if step.Pull? {
      PullInOrder(c, s, step.op, p);
      assert LaneOf(s.lanes, p) + [] == LaneOf(s.lanes, p);
    } else {
      if step.Arrival? {
        ArrivalInOrder(c, s, step.e, step.now, step.h, p);
      } else {
        PutInOrder(c, s, step, p);
      }
      var q := LaneOf(Perform(c, s, step).lanes, p);
      assert [] + q == q;
    }
  }

  function PulledOver(c: Settings, s: Site, steps: seq<Step>): seq<Out> {
    if steps == [] then []
    else PulledOver(c, s, steps[..|steps| - 1]) + Pulled(Run(c, s, steps[..|steps| - 1]), steps[|steps| - 1])
  }

  function JoinedOver(c: Settings, s: Site, steps: seq<Step>, p: Priority): seq<Event> {
    if steps == [] then []
    else JoinedOver(c, s, steps[..|steps| - 1], p) + Joined(c, Run(c, s, steps[..|steps| - 1]), steps[|steps| - 1], p)
  }

  /** What a lane delivered, promotions included, followed by what it holds, is what it held
      followed by what joined it. */
  lemma {:induction false} SiteLanesAreFifo(c: Settings, s: Site, steps: seq<Step>, p: Priority)
    ensures FromLane(PulledOver(c, s, steps), p) + LaneOf(Run(c, s, steps).lanes, p)
         == LaneOf(s.lanes, p) + JoinedOver(c, s, steps, p)
  {
    if steps != [] {
      var front, last := steps[..|steps| - 1], steps[|steps| - 1];
      var before := Run(c, s, front);
      SiteLanesAreFifo(c, s, front, p);
      StepInOrder(c, before, last, p);
      FromLaneConcat(PulledOver(c, s, front), Pulled(before, last), p);
      Regroup(FromLane(PulledOver(c, s, front), p), FromLane(Pulled(before, last), p), LaneOf(Run(c, s, steps).lanes, p),
              LaneOf(before.lanes, p), LaneOf(s.lanes, p) + JoinedOver(c, s, front, p), Joined(c, before, last, p));
    }
  }

  // ---- Nothing is lost or made ----

  function Inside(s: Site): multiset<Event> {
    multiset(s.lanes.critical) + multiset(s.lanes.normal) + multiset(s.lanes.bestEffort) + multiset(s.waiting)
  }

  function Originals(outs: seq<Out>): multiset<Event> {
    multiset(FromLane(outs, Critical)) + multiset(FromLane(outs, Normal)) + multiset(FromLane(outs, BestEffort))
  }

  /** What a step adds to the three lanes together. */
  function AllJoined(c: Settings, s: Site, step: Step): multiset<Event> {
    multiset(Joined(c, s, step, Critical)) + multiset(Joined(c, s, step, Normal))
    + multiset(Joined(c, s, step, BestEffort))
  }

  /** What a step lets in that finds its lane full. */
  function Stalled(c: Settings, s: Site, step: Step): seq<Event> {
    if step.Arrival? && FullLane(c, s.lanes, Destination(step.h, step.e)) then LetIn(c, s, step) else []
  }

  function Completed(c: Settings, s: Site, step: Step): seq<Event> {
    if Enters(c, s, step) then [s.waiting[step.i]] else []
  }

  /** The suspended puts: one that completes leaves, one that finds its lane full joins. */
  lemma WaitersStep(c: Settings, s: Site, step: Step)
    ensures multiset(Perform(c, s, step).waiting) + multiset(Completed(c, s, step))
         == multiset(s.waiting) + multiset(Stalled(c, s, step))
  {
    if step.Arrival? {
      ArrivalGoes(c, s, step.e, step.now, step.h);
    } else if Enters(c, s, step) {
      var w, i := s.waiting, step.i;
      assert w == w[..i] + [w[i]] + w[i + 1..];
    }
  }

  lemma EnterAddsUp(c: Settings, s: Site, step: Step)
    requires step.Enter?
    ensures AllJoined(c, s, step) == multiset(Completed(c, s, step))
  {
  }

  lemma ArrivalAddsUp(c: Settings, s: Site, step: Step)
    requires step.Arrival?
    ensures AllJoined(c, s, step) + multiset(Stalled(c, s, step)) == multiset(LetIn(c, s, step))
  {
  }

  lemma JoinsAddUp(c: Settings, s: Site, step: Step)
    ensures AllJoined(c, s, step) + multiset(Stalled(c, s, step))
         == multiset(LetIn(c, s, step)) + multiset(Completed(c, s, step))
  {
    if step.Enter? {
      EnterAddsUp(c, s, step);
    } else if step.Arrival? {
      ArrivalAddsUp(c, s, step);
    }
  }

  lemma LaneStep(c: Settings, s: Site, step: Step, p: Priority)
    ensures multiset(FromLane(Pulled(s, step), p)) + multiset(LaneOf(Perform(c, s, step).lanes, p))
         == multiset(LaneOf(s.lanes, p)) + multiset(Joined(c, s, step, p))
  {
    StepInOrder(c, s, step, p);
    assert multiset(FromLane(Pulled(s, step), p) + LaneOf(Perform(c, s, step).lanes, p))
        == multiset(LaneOf(s.lanes, p) + Joined(c, s, step, p));
  }

  lemma AddUp(outC: multiset<Event>, outN: multiset<Event>, outB: multiset<Event>,
              c': multiset<Event>, n': multiset<Event>, b': multiset<Event>, w': multiset<Event>,
              c: multiset<Event>, n: multiset<Event>, b: multiset<Event>, w: multiset<Event>,
              inC: multiset<Event>, inN: multiset<Event>, inB: multiset<Event>,
              entered: multiset<Event>, stalled: multiset<Event>, letIn: multiset<Event>)
    requires outC + c' == c + inC && outN + n' == n + inN && outB + b' == b + inB
    requires w' + entered == w + stalled && inC + inN + inB + stalled == letIn + entered
    ensures outC + outN + outB + (c' + n' + b' + w') == c + n + b + w + letIn
  {
    forall x: Event
      ensures (outC + outN + outB + (c' + n' + b' + w'))[x] == (c + n + b + w + letIn)[x]
    {
      assert (outC + c')[x] == (c + inC)[x] && (outN + n')[x] == (n + inN)[x] && (outB + b')[x] == (b + inB)[x];
      assert (w' + entered)[x] == (w + stalled)[x] && (inC + inN + inB + stalled)[x] == (letIn + entered)[x];
    }
  }

  lemma StepConserves(c: Settings, s: Site, step: Step)
    ensures Originals(Pulled(s, step)) + Inside(Perform(c, s, step)) == Inside(s) + multiset(LetIn(c, s, step))
  {
    LaneStep(c, s, step, Critical);
    LaneStep(c, s, step, Normal);
    LaneStep(c, s, step, BestEffort);
    WaitersStep(c, s, step);
    JoinsAddUp(c, s, step);
    var outs, t := Pulled(s, step), Perform(c, s, step);
    AddUp(multiset(FromLane(outs, Critical)), multiset(FromLane(outs, Normal)), multiset(FromLane(outs, BestEffort)),
          multiset(t.lanes.critical), multiset(t.lanes.normal), multiset(t.lanes.bestEffort), multiset(t.waiting),
          multiset(s.lanes.critical), multiset(s.lanes.normal), multiset(s.lanes.bestEffort), multiset(s.waiting),
          multiset(Joined(c, s, step, Critical)), multiset(Joined(c, s, step, Normal)),
          multiset(Joined(c, s, step, BestEffort)),
          multiset(Completed(c, s, step)), multiset(Stalled(c, s, step)), multiset(LetIn(c, s, step)));
  }

  function LetInOver(c: Settings, s: Site, steps: seq<Step>): seq<Event> {
    if steps == [] then []
    else LetInOver(c, s, steps[..|steps| - 1]) + LetIn(c, Run(c, s, steps[..|steps| - 1]), steps[|steps| - 1])
  }

  lemma OriginalsConcat(a: seq<Out>, b: seq<Out>)
    ensures Originals(a + b) == Originals(a) + Originals(b)
  {
    FromLaneConcat(a, b, Critical);
    FromLaneConcat(a, b, Normal);
    FromLaneConcat(a, b, BestEffort);
  }

  lemma Chain(outs: multiset<Event>, out: multiset<Event>, after: multiset<Event>, before: multiset<Event>,
              first: multiset<Event>, ins: multiset<Event>, came: multiset<Event>)
    requires outs + before == first + ins && out + after == before + came
    ensures outs + out + after == first + (ins + came)
  {
    assert outs + out + after == outs + (before + came) == first + ins + came;
  }

  /** Over every run, with any handlers and limits, what was there and what was let in is
      delivered, queued or waiting, each exactly as often. */
  lemma {:induction false} WhatIsLetInIsKept(c: Settings, s: Site, steps: seq<Step>)
    ensures Originals(PulledOver(c, s, steps)) + Inside(Run(c, s, steps)) == Inside(s) + multiset(LetInOver(c, s, steps))
  {
    if steps != [] {
      var front, last := steps[..|steps| - 1], steps[|steps| - 1];
      var before := Run(c, s, front);
      WhatIsLetInIsKept(c, s, front);
      StepConserves(c, before, last);
      OriginalsConcat(PulledOver(c, s, front), Pulled(before, last));
      Chain(Originals(PulledOver(c, s, front)), Originals(Pulled(before, last)), Inside(Run(c, s, steps)),
            Inside(before), Inside(s), multiset(LetInOver(c, s, front)), multiset(LetIn(c, before, last)));
    }
  }

  // ---- What the gate sees and turns away ----

  /** An arrival is throttled, and counted, exactly when the gate is closed after looking at the
      depth it met and the event does not ask for CRITICAL. */
  lemma ThrottledIff(c: Settings, h: Handler, s: Site, e: Event, now: real)
    ensures var t := Arrive(c, h, s, e, now);
      && t.throttled == s.throttled + (if t.active && LaneFor(e) != Critical then 1 else 0)
      && t.active == NextActive(c.high, c.low, s.active, RatioOf(Depth(c, s.lanes), c.capacity))
  {
  }

  /** The ratios that the arrivals and the looks of a run met. */
  function RatiosMet(c: Settings, s: Site, steps: seq<Step>): seq<real> {
    if steps == [] then []
    else
      var before, last := Run(c, s, steps[..|steps| - 1]), steps[|steps| - 1];
      RatiosMet(c, s, steps[..|steps| - 1])
      + if last.Arrival? || last.Look? then [RatioOf(Depth(c, before.lanes), c.capacity)] else []
  }

  /** Every arrival and every look shows the gate the depth at that moment, and nothing else does. */
  lemma {:induction false} GateSeesEveryRatio(c: Settings, s: Site, steps: seq<Step>)
    ensures Run(c, s, steps).seen == s.seen + RatiosMet(c, s, steps)
  {
    if steps != [] {
      GateSeesEveryRatio(c, s, steps[..|steps| - 1]);
    }
  }

  // ---- Late entries ----

  function LateEntries(c: Settings, s: Site, steps: seq<Step>): nat {
    if steps == [] then 0
    else
      var before, last := Run(c, s, steps[..|steps| - 1]), steps[|steps| - 1];
      LateEntries(c, s, steps[..|steps| - 1])
      + if Enters(c, before, last) && LaneFor(before.waiting[last.i]) != Critical then 1 else 0
  }

  /** The depth bound's allowance counts exactly the suspended puts that completed below CRITICAL. */
  lemma {:induction false} LateCountsEntries(c: Settings, s: Site, steps: seq<Step>)
    ensures Run(c, s, steps).late == s.late + LateEntries(c, s, steps)
  {
    if steps != [] {
      LateCountsEntries(c, s, steps[..|steps| - 1]);
    }
  }
}
