/** The audit machine comes to rest: with nothing more logged or asked for, its writers have only
    so much to do, something is left to do until they are done, and then all of it is on disk. */
module AuditSettling {
  import opened AuditDrain
  import opened AuditHonesty

  // ---- How much there is to do ----

  /** A commit and a resumption are ahead of a drain that holds rows, a resumption of one that has
      committed some. */
  function HandWork(h: Hand): nat {
    match h
    case Holding(rows) => if rows == [] then 0 else 2
    case Owing(count) => if count == 0 then 0 else 1
  }

  function HandsWork(hs: seq<Hand>): nat {
    if hs == [] then 0 else HandsWork(hs[..|hs| - 1]) + HandWork(hs[|hs| - 1])
  }

  function WorkerWork(w: Worker): nat {
    match w
    case Gathering(batch) => if batch == [] then 0 else 3
    case Writing(_, _) => 2
    case Resuming(_, _) => 1
  }

  function Work(s: State): nat {
    4 * |s.queue| + WorkerWork(s.worker) + HandsWork(s.hands)
  }

  predicate Passive(step: Step) {
    !step.Log? && !step.RequestFlush?
  }

  /** A step that gets something done, rather than draining nothing or writing no rows. */
  predicate Works(s: State, step: Step)
    requires Enabled(s, step)
  {
    match step
    case WorkerTake => true
    case WorkerTimeout => true
    case WorkerCommit => true
    case WorkerResume => true
    case DrainStart => s.queue != []
    case DrainCommit(h) => s.hands[h].rows != []
    case DrainResume(h) => s.hands[h].count != 0
    case _ => false
  }

  lemma {:induction false} HandsWorkUpdate(hs: seq<Hand>, h: nat, x: Hand)
    requires h < |hs|
    ensures HandsWork(hs[h := x]) + HandWork(hs[h]) == HandsWork(hs) + HandWork(x)
  {
    var n := |hs| - 1;
    if h < n {
      HandsWorkUpdate(hs[..n], h, x);
      assert hs[h := x][..n] == hs[..n][h := x];
    } else {
      assert hs[h := x][..n] == hs[..n];
    }
  }

  lemma HandsWorkAppend(hs: seq<Hand>, x: Hand)
    ensures HandsWork(hs + [x]) == HandsWork(hs) + HandWork(x)
  {
    assert (hs + [x])[..|hs|] == hs;
  }

  lemma StepLowersWork(s: State, step: Step)
    requires Enabled(s, step) && Passive(step)
    ensures Work(Next(s, step)) + (if Works(s, step) then 1 else 0) <= Work(s)
  {
    match step
    case DrainStart => HandsWorkAppend(s.hands, Holding(Rows(s.queue)));
    case DrainCommit(h) => HandsWorkUpdate(s.hands, h, Owing(|s.hands[h].rows|));
    case DrainResume(h) => HandsWorkUpdate(s.hands, h, Holding([]));
    case _ =>
  }

  /** How many steps of a run get something done. */
  function Done(s: State, steps: seq<Step>): nat
    requires Legal(s, steps)
    decreases |steps|
  {
    if steps == [] then 0 else (if Works(s, steps[0]) then 1 else 0) + Done(Next(s, steps[0]), steps[1..])
  }

  predicate AllPassive(steps: seq<Step>) {
    forall i :: 0 <= i < |steps| ==> Passive(steps[i])
  }

  /** Without new records and requests, the steps that get something done, drains included, are at
      most four for each item queued and three for what the writers hold. */
  lemma {:induction false} SettlingIsBounded(s: State, steps: seq<Step>)
    requires Legal(s, steps) && AllPassive(steps)
    ensures Done(s, steps) + Work(Run(s, steps)) <= Work(s)
    decreases |steps|
  {
    if steps != [] {
      assert Passive(steps[0]);
      StepLowersWork(s, steps[0]);
      SettlingIsBounded(Next(s, steps[0]), steps[1..]);
    }
  }

  // ---- Until it is done, something can be done ----

  lemma {:induction false} BusyHand(hs: seq<Hand>) returns (h: nat)
    requires HandsWork(hs) > 0
    ensures h < |hs| && HandWork(hs[h]) > 0
  {
    if HandWork(hs[|hs| - 1]) > 0 {
      h := |hs| - 1;
    } else {
      h := BusyHand(hs[..|hs| - 1]);
    }
  }

  /** While there is work, the worker or a drain that has begun can do some of it. */
  lemma SomethingWorks(s: State) returns (step: Step)
    requires Work(s) > 0
    ensures Passive(step) && step != DrainStart && Enabled(s, step) && Works(s, step)
  {
    match s.worker
    case Writing(_, _) => step := WorkerCommit;
    case Resuming(_, _) => step := WorkerResume;
    case Gathering(batch) =>
      if s.queue != [] {
        step := WorkerTake;
      } else if batch != [] {
        step := WorkerTimeout;
      } else {
        var h := BusyHand(s.hands);
        step := if s.hands[h].Holding? then DrainCommit(h) else DrainResume(h);
      }
  }

  lemma {:induction false} RestingHands(hs: seq<Hand>, i: nat)
    requires HandsWork(hs) == 0
    ensures Held(hs, i) == 0 && AllOwed(hs) == 0
  {
    if hs != [] {
      RestingHands(hs[..|hs| - 1], i);
    }
  }

  /** Everything logged is on disk once and counted, and every flush asked for has completed. */
  ghost predicate Complete(s: State) {
    && (forall i: nat :: Occ(s.persisted, i) == if i < s.logged then 1 else 0)
    && s.flushed == |s.persisted|
    && forall f :: f in s.marks ==> f in s.resolved
  }

  ghost predicate AllSomewhere(s: State) {
    forall f :: f in s.marks ==> Left(s, f) || f in Futures(s.queue)
  }

  /** With nothing left to do, the queue and every hand are empty and the log is complete. */
  lemma AtRestIsComplete(s: State)
    requires Inv(s) && AllSomewhere(s) && Work(s) == 0
    ensures s.queue == [] && s.worker == Gathering([]) && Complete(s)
  {
    forall i: nat
      ensures Occ(s.persisted, i) == if i < s.logged then 1 else 0
    {
      RestingHands(s.hands, i);
      assert Places(s, i) == if i < s.logged then 1 else 0;
    }
    RestingHands(s.hands, 0);
  }

  lemma SomewhereStays(s: State, step: Step)
    requires AllSomewhere(s) && Enabled(s, step) && Passive(step)
    ensures AllSomewhere(Next(s, step))
  {
    forall f | f in Next(s, step).marks
      ensures Left(Next(s, step), f) || f in Futures(Next(s, step).queue)
    {
      SentinelsMoveOn(s, step, f);
    }
  }

  /** From every state of every run the worker, and the drains already begun, can finish: some run
      without new drains puts all that was logged on disk, once each and counted, and completes
      every flush that was asked for. */
  lemma {:induction false} SomeRunSettles(s: State) returns (steps: seq<Step>)
    requires Inv(s) && AllSomewhere(s)
    ensures Legal(s, steps) && AllPassive(steps) && forall i :: 0 <= i < |steps| ==> steps[i] != DrainStart
    ensures var t := Run(s, steps); t.logged == s.logged && t.marks == s.marks && Complete(t)
    decreases Work(s)
  {
    if Work(s) == 0 {
      AtRestIsComplete(s);
      steps := [];
    } else {
      var step := SomethingWorks(s);
      StepLowersWork(s, step);
      StepKeepsInv(s, step);
      SomewhereStays(s, step);
      var rest := SomeRunSettles(Next(s, step));
      steps := [step] + rest;
      assert steps[0] == step && steps[1..] == rest;
    }
  }

  /** A run that comes to rest, whatever drains there were, has completed the log. */
  lemma RestMeansComplete(s0: State, steps: seq<Step>)
    requires Initial(s0) && Legal(s0, steps)
    ensures (forall step :: Enabled(Run(s0, steps), step) && Passive(step) ==> !Works(Run(s0, steps), step))
      ==> Complete(Run(s0, steps))
  {
    var s := Run(s0, steps);
    InitialInv(s0);
    RunKeepsInv(s0, steps);
    forall f | f in s.marks
      ensures Left(s, f) || f in Futures(s.queue)
    {
      RequestedIsSomewhere(s0, steps, f);
    }
    if Work(s) == 0 {
      AtRestIsComplete(s);
    } else {
      var step := SomethingWorks(s);
    }
  }
}
