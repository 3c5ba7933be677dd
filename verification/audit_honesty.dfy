/** When completing a flush tells the truth: conditions on the state before the completing
    step, which whoever completes it can see. */
module AuditHonesty {
  import opened AuditDrain

  /** No drain holds an unwritten record older than `mark`. */
  ghost predicate HandsClear(hs: seq<Hand>, mark: nat) {
    forall h, i: nat :: 0 <= h < |hs| && hs[h].Holding? && i in hs[h].rows ==> mark <= i
  }

  ghost predicate WorkerClear(w: Worker, mark: nat) {
    forall i: nat :: i in WorkerRows(w) ==> mark <= i
  }

  /** No record stands before the sentinel of `f` in the queue. */
  ghost predicate NoRowBefore(q: seq<Item>, f: nat) {
    forall k, j :: 0 <= k < j < |q| && q[j] == Flush(f) ==> !q[k].Row?
  }

  /** A drain completes a sentinel truthfully if and only if the worker and the other drains
      hold nothing older and no record stands before the sentinel. */
  lemma DrainCompletesHonestlyIff(s: State, j: nat, f: nat)
    requires Inv(s) && j < |s.queue| && s.queue[j] == Flush(f)
    ensures f in s.marks && f in DoDrainStart(s).resolved
    ensures Honest(DoDrainStart(s), f) <==>
      WorkerClear(s.worker, s.marks[f]) && HandsClear(s.hands, s.marks[f]) && forall k :: 0 <= k < j ==> !s.queue[k].Row?
  {
    var s' := DoDrainStart(s);
    assert s.queue[j].Flush?;
    FuturesMember(s.queue, f);
    StepKeepsInv(s, DrainStart);
    HonestIffNoneInHand(s', f);
    GrabbedRows(s, j, f);
    HandsGrow(s.hands, Rows(s.queue), s.marks[f]);
    assert NoneInHand(s', f) <==> WorkerClear(s.worker, s.marks[f]) && HandsClear(s'.hands, s.marks[f]);
  }

  /** What a drain grabs is all younger than a request exactly when its sentinel comes first. */
  lemma GrabbedRows(s: State, j: nat, f: nat)
    requires Sequenced(s) && j < |s.queue| && s.queue[j] == Flush(f) && f in s.marks
    ensures (forall i: nat :: i in Rows(s.queue) ==> s.marks[f] <= i) <==> forall k :: 0 <= k < j ==> !s.queue[k].Row?
  {
    if forall k :: 0 <= k < j ==> !s.queue[k].Row? {
      forall i: nat | i in Rows(s.queue)
        ensures s.marks[f] <= i
      {
        RowsMember(s.queue, i);
        var k :| 0 <= k < |s.queue| && s.queue[k] == Row(i);
        assert s.queue[j].Flush? && s.queue[k].Row?;
      }
    } else {
      var k :| 0 <= k < j && s.queue[k].Row?;
      assert s.queue[k] == Row(s.queue[k].pos);
      RowsMember(s.queue, s.queue[k].pos);
      assert s.queue[j].Flush? && s.queue[k].pos < s.marks[f];
    }
  }

  lemma HandsGrow(hs: seq<Hand>, rows: seq<nat>, mark: nat)
    ensures HandsClear(hs + [Holding(rows)], mark) <==> HandsClear(hs, mark) && forall i: nat :: i in rows ==> mark <= i
  {
    var more := hs + [Holding(rows)];
    assert more[|hs|] == Holding(rows);
    if HandsClear(more, mark) {
      forall h, i: nat | 0 <= h < |hs| && hs[h].Holding? && i in hs[h].rows
        ensures mark <= i
      {
        assert more[h] == hs[h];
      }
    }
  }

  /** The idle worker completes a sentinel truthfully if and only if no drain holds anything older. */
  lemma TakeCompletesHonestlyIff(s: State, f: nat)
    requires Inv(s) && s.worker == Gathering([]) && s.queue != [] && s.queue[0] == Flush(f)
    ensures f in s.marks && f in DoTake(s).resolved
    ensures Honest(DoTake(s), f) <==> HandsClear(s.hands, s.marks[f])
  {
    assert s.queue[0].Flush?;
    StepKeepsInv(s, WorkerTake);
    HonestIffNoneInHand(DoTake(s), f);
  }

  /** So does the worker that flushed its batch first: its own records are never in the way. */
  lemma ResumeCompletesHonestlyIff(s: State, f: nat)
    requires Inv(s) && s.worker.Resuming? && f in s.worker.waiting
    ensures f in s.marks && f in Next(s, WorkerResume).resolved
    ensures Honest(Next(s, WorkerResume), f) <==> HandsClear(s.hands, s.marks[f])
  {
    assert f in Waiting(s.worker);
    StepKeepsInv(s, WorkerResume);
    HonestIffNoneInHand(Next(s, WorkerResume), f);
  }

  /** The promise of `flush`, exactly: in every reachable state, the step that completes a flush
      finds its records on disk if and only if no drain holds an older record and, when the
      step is itself a drain, the worker holds none and none precedes the sentinel. */
  lemma CompletionIsHonestIff(s0: State, steps: seq<Step>, step: Step, f: nat)
    requires Initial(s0) && Legal(s0, steps) && Enabled(Run(s0, steps), step)
    requires f !in Run(s0, steps).resolved && f in Next(Run(s0, steps), step).resolved
    ensures f in Run(s0, steps).marks && f in Next(Run(s0, steps), step).marks
    ensures var s := Run(s0, steps);
      Honest(Next(s, step), f) <==>
        && HandsClear(s.hands, s.marks[f])
        && (step == DrainStart ==> WorkerClear(s.worker, s.marks[f]) && NoRowBefore(s.queue, f))
  {
    var s := Run(s0, steps);
    InitialInv(s0);
    RunKeepsInv(s0, steps);
    match step
    case WorkerTake => TakeCompletesHonestlyIff(s, f);
    case WorkerResume => ResumeCompletesHonestlyIff(s, f);
    case DrainStart => SentinelOf(s, f);
    case _ =>
  }

  lemma SentinelOf(s: State, f: nat)
    requires Inv(s) && f !in s.resolved && f in DoDrainStart(s).resolved
    ensures f in s.marks
    ensures Honest(DoDrainStart(s), f) <==>
      HandsClear(s.hands, s.marks[f]) && WorkerClear(s.worker, s.marks[f]) && NoRowBefore(s.queue, f)
  {
    FuturesMember(s.queue, f);
    var j :| 0 <= j < |s.queue| && s.queue[j] == Flush(f);
    DrainCompletesHonestlyIff(s, j, f);
    if !NoRowBefore(s.queue, f) {
      LaterSentinel(s, j, f);
    }
  }

  /** Whichever of a future's sentinels a record precedes, it precedes them all. */
  lemma LaterSentinel(s: State, j: nat, f: nat)
    requires Sequenced(s) && j < |s.queue| && s.queue[j] == Flush(f) && !NoRowBefore(s.queue, f)
    ensures exists k :: 0 <= k < j && s.queue[k].Row?
  {
    var k, l :| 0 <= k < l < |s.queue| && s.queue[l] == Flush(f) && s.queue[k].Row?;
    assert s.queue[l].Flush? && s.queue[j].Flush?;
    assert s.queue[k].pos < s.marks[f];
  }

  // ---- A flush that timed out and drained the queue itself ----

  /** The sentinel has left the queue, if only as far as the hands of the worker. */
  ghost predicate Left(s: State, f: nat) {
    f in s.resolved || f in Waiting(s.worker)
  }

  /** A requested flush is never forgotten: its sentinel is queued or has left the queue, and a
      drain leaves none queued. */
  lemma SentinelsMoveOn(s: State, step: Step, f: nat)
    requires Enabled(s, step) && f in s.marks
    ensures f in Next(s, step).marks
    ensures Left(s, f) ==> Left(Next(s, step), f)
    ensures Left(s, f) || f in Futures(s.queue) ==> Left(Next(s, step), f) || f in Futures(Next(s, step).queue)
  {
    var q, q' := s.queue, Next(s, step).queue;
    FuturesMember(q, f);
    FuturesMember(q', f);
    if !Left(s, f) && f in Futures(q) {
      var j :| 0 <= j < |q| && q[j] == Flush(f);
      if step.WorkerTake? && j > 0 {
        assert q'[j - 1] == Flush(f);
      } else if step.Log? || step.RequestFlush? {
        assert q'[j] == Flush(f);
      }
    }
  }

  lemma {:induction false} RequestedIsSomewhere(s0: State, steps: seq<Step>, f: nat)
    requires Legal(s0, steps) && forall g :: g in s0.marks ==> Left(s0, g) || g in Futures(s0.queue)
    requires f in Run(s0, steps).marks
    ensures Left(Run(s0, steps), f) || f in Futures(Run(s0, steps).queue)
    decreases |steps|
  {
    if steps != [] {
      var s1 := Next(s0, steps[0]);
      forall g | g in s1.marks
        ensures Left(s1, g) || g in Futures(s1.queue)
      {
        if g in s0.marks {
          SentinelsMoveOn(s0, steps[0], g);
        } else {
          FuturesMember(s1.queue, g);
          assert s1.queue[|s0.queue|] == Flush(g);
        }
      }
      RequestedIsSomewhere(s1, steps[1..], f);
    }
  }

  lemma {:induction false} LeftForGood(s: State, steps: seq<Step>, f: nat)
    requires Legal(s, steps) && f in s.marks && Left(s, f)
    ensures f in Run(s, steps).marks && Left(Run(s, steps), f)
    decreases |steps|
  {
    if steps != [] {
      SentinelsMoveOn(s, steps[0], f);
      LeftForGood(Next(s, steps[0]), steps[1..], f);
    }
  }

  /** From the moment the drain of a flush that timed out has begun, and so when that flush
      returns, the records logged before it was requested are on disk if and only if no
      writer still holds one of them. */
  lemma TimedOutFlushIsHonestIff(s0: State, before: seq<Step>, after: seq<Step>, f: nat)
    requires Initial(s0) && Legal(s0, before) && f in Run(s0, before).marks
    requires Legal(DoDrainStart(Run(s0, before)), after)
    ensures var r := Run(DoDrainStart(Run(s0, before)), after);
      f in r.marks && (Honest(r, f) <==> NoneInHand(r, f))
  {
    var s := Run(s0, before);
    InitialInv(s0);
    RunKeepsInv(s0, before);
    StepKeepsInv(s, DrainStart);
    RequestedIsSomewhere(s0, before, f);
    RunKeepsInv(DoDrainStart(s), after);
    LeftForGood(DoDrainStart(s), after, f);
    HonestIffNoneInHand(Run(DoDrainStart(s), after), f);
  }

  /** Rows are never removed, so an honest completion stays honest. */
  lemma {:induction false} HonestyLasts(s: State, steps: seq<Step>, f: nat)
    requires Inv(s) && Legal(s, steps) && f in s.marks && Honest(s, f)
    ensures f in Run(s, steps).marks && Run(s, steps).marks[f] == s.marks[f] && Honest(Run(s, steps), f)
    decreases |steps|
  {
    if steps != [] {
      var s' := Next(s, steps[0]);
      StepKeepsInv(s, steps[0]);
      assert f in s'.marks && s'.marks[f] == s.marks[f];
      forall i: nat | i < s.marks[f]
        ensures i in s'.persisted
      {
        assert i in s.persisted;
      }
      HonestyLasts(s', steps[1..], f);
    }
  }
}
