/** The audit log when flushes time out: any number of drains run beside the worker.

    A record is named by its position in the order of logging, so "persisted exactly once"
    is about occurrences of positions. Writes happen in two moments: the rows are committed
    by a thread, and later the coroutine resumes and counts them. */
module AuditDrain {

  datatype Item = Row(pos: nat) | Flush(future: nat)

  /** A drain holds records until the commit, then owes the counter their number. */
  datatype Hand = Holding(rows: seq<nat>) | Owing(count: nat)

  datatype Worker =
    | Gathering(batch: seq<nat>)
    | Writing(rows: seq<nat>, waiting: seq<nat>)
    | Resuming(count: nat, waiting: seq<nat>)

  datatype State = State(
    queue: seq<Item>,
    worker: Worker,
    hands: seq<Hand>,
    persisted: seq<nat>,
    flushed: nat,
    logged: nat,
    marks: map<nat, nat>,
    resolved: set<nat>)

  datatype Step =
    | Log
    | RequestFlush(future: nat)
    | WorkerTake
    | WorkerTimeout
    | WorkerCommit
    | WorkerResume
    | DrainStart
    | DrainCommit(h: nat)
    | DrainResume(h: nat)

  function Occ(s: seq<nat>, i: nat): nat {
    if s == [] then 0 else Occ(s[..|s| - 1], i) + if s[|s| - 1] == i then 1 else 0
  }

  function Rows(q: seq<Item>): seq<nat> {
    if q == [] then [] else Rows(q[..|q| - 1]) + if q[|q| - 1].Row? then [q[|q| - 1].pos] else []
  }

  function Futures(q: seq<Item>): set<nat> {
    if q == [] then {} else Futures(q[..|q| - 1]) + if q[|q| - 1].Flush? then {q[|q| - 1].future} else {}
  }

  function HandRows(h: Hand): seq<nat> {
    if h.Holding? then h.rows else []
  }

  function Owed(h: Hand): nat {
    if h.Owing? then h.count else 0
  }

  function Held(hs: seq<Hand>, i: nat): nat {
    if hs == [] then 0 else Held(hs[..|hs| - 1], i) + Occ(HandRows(hs[|hs| - 1]), i)
  }

  function AllOwed(hs: seq<Hand>): nat {
    if hs == [] then 0 else AllOwed(hs[..|hs| - 1]) + Owed(hs[|hs| - 1])
  }

  function WorkerRows(w: Worker): seq<nat> {
    match w
    case Gathering(batch) => batch
    case Writing(rows, _) => rows
    case Resuming(_, _) => []
  }

  function WorkerOwed(w: Worker): nat {
    if w.Resuming? then w.count else 0
  }

  // ---- Steps ----

  predicate Enabled(s: State, step: Step) {
    match step
    case Log => true
    case RequestFlush(f) => f !in s.marks
    case WorkerTake => s.queue != [] && s.worker.Gathering?
    case WorkerTimeout => s.worker.Gathering? && s.worker.batch != []
    case WorkerCommit => s.worker.Writing?
    case WorkerResume => s.worker.Resuming?
    case DrainStart => true
    case DrainCommit(h) => h < |s.hands| && s.hands[h].Holding?
    case DrainResume(h) => h < |s.hands| && s.hands[h].Owing?
  }

  /** A sentinel completes at once when the worker has nothing to write first. */
  function DoTake(s: State): State
    requires s.queue != [] && s.worker.Gathering?
  {
    var rest := s.(queue := s.queue[1..]);
    match s.queue[0]
    case Row(i) => rest.(worker := Gathering(s.worker.batch + [i]))
    case Flush(f) =>
      if s.worker.batch == [] then rest.(resolved := s.resolved + {f})
      else rest.(worker := Writing(s.worker.batch, [f]))
  }

  /** The drain takes the whole queue in one step, completing its sentinels before writing. */
  function DoDrainStart(s: State): State {
    s.(queue := [], hands := s.hands + [Holding(Rows(s.queue))], resolved := s.resolved + Futures(s.queue))
  }

  function Next(s: State, step: Step): State
    requires Enabled(s, step)
  {
    match step
    case Log => s.(queue := s.queue + [Row(s.logged)], logged := s.logged + 1)
    case RequestFlush(f) => s.(queue := s.queue + [Flush(f)], marks := s.marks[f := s.logged])
    case WorkerTake => DoTake(s)
    case WorkerTimeout => s.(worker := Writing(s.worker.batch, []))
    case WorkerCommit =>
      s.(persisted := s.persisted + s.worker.rows, worker := Resuming(|s.worker.rows|, s.worker.waiting))
    case WorkerResume =>
      s.(flushed := s.flushed + s.worker.count,
         resolved := s.resolved + (set f | f in s.worker.waiting),
         worker := Gathering([]))
    case DrainStart => DoDrainStart(s)
    case DrainCommit(h) =>
      s.(persisted := s.persisted + s.hands[h].rows, hands := s.hands[h := Owing(|s.hands[h].rows|)])
    case DrainResume(h) =>
      s.(flushed := s.flushed + s.hands[h].count, hands := s.hands[h := Holding([])])
  }

  predicate Legal(s: State, steps: seq<Step>)
    decreases |steps|
  {
    steps == [] || (Enabled(s, steps[0]) && Legal(Next(s, steps[0]), steps[1..]))
  }

  function Run(s: State, steps: seq<Step>): State
    requires Legal(s, steps)
    decreases |steps|
  {
    if steps == [] then s else Run(Next(s, steps[0]), steps[1..])
  }

  predicate Initial(s: State) {
    && s.queue == [] && s.worker == Gathering([]) && s.hands == [] && s.persisted == []
    && s.flushed == 0 && s.logged == 0 && s.marks == map[] && s.resolved == {}
  }

  // ---- The invariant ----

  function Places(s: State, i: nat): nat {
    Occ(s.persisted, i) + Occ(WorkerRows(s.worker), i) + Held(s.hands, i) + Occ(Rows(s.queue), i)
  }

  /** Every logged record is in exactly one place, and nothing else is anywhere. */
  ghost predicate ExactlyOnce(s: State) {
    forall i: nat :: Places(s, i) == if i < s.logged then 1 else 0
  }

  /** The counter equals the rows on disk, less those whose writer has yet to resume. */
  predicate Counted(s: State) {
    s.flushed + AllOwed(s.hands) + WorkerOwed(s.worker) == |s.persisted|
  }

  /** Everything in `q` before the request of `f` is ahead of its sentinel, the rest behind. */
  ghost predicate Ordered(q: seq<Item>, marks: map<nat, nat>) {
    forall i, j :: 0 <= i < |q| && 0 <= j < |q| && q[i].Flush? && q[j].Row? ==>
      q[i].future in marks && (q[j].pos < marks[q[i].future] <==> j < i)
  }

  ghost predicate AllBehind(q: seq<Item>, mark: nat) {
    forall j :: 0 <= j < |q| && q[j].Row? ==> mark <= q[j].pos
  }

  function Waiting(w: Worker): seq<nat> {
    if w.Gathering? then [] else w.waiting
  }

  /** Once a sentinel has left the queue, only records logged after its request are still queued. */
  ghost predicate Sequenced(s: State) {
    && Ordered(s.queue, s.marks)
    && (forall i :: 0 <= i < |s.queue| && s.queue[i].Flush? ==> s.queue[i].future in s.marks)
    && (forall f :: f in s.resolved || f in Waiting(s.worker) ==> f in s.marks && AllBehind(s.queue, s.marks[f]))
    && (forall f :: f in s.marks ==> s.marks[f] <= s.logged)
    && (forall j :: 0 <= j < |s.queue| && s.queue[j].Row? ==> s.queue[j].pos < s.logged)
  }

  ghost predicate Inv(s: State) {
    ExactlyOnce(s) && Counted(s) && Sequenced(s)
  }

  // ---- Counting lemmas ----

  lemma {:induction false} OccConcat(a: seq<nat>, b: seq<nat>, i: nat)
    ensures Occ(a + b, i) == Occ(a, i) + Occ(b, i)
  {
    if b == [] {
      assert a + b == a;
    } else {
      assert (a + b)[..|a + b| - 1] == a + b[..|b| - 1];
      OccConcat(a, b[..|b| - 1], i);
    }
  }

  lemma {:induction false} OccMember(s: seq<nat>, i: nat)
    ensures Occ(s, i) > 0 <==> i in s
  {
    if s != [] {
      OccMember(s[..|s| - 1], i);
      assert s == s[..|s| - 1] + [s[|s| - 1]];
    }
  }

  lemma OccOne(x: nat, i: nat)
    ensures Occ([x], i) == if x == i then 1 else 0
  {
    assert [x][..0] == [];
  }

  lemma {:induction false} RowsConcat(a: seq<Item>, b: seq<Item>)
    ensures Rows(a + b) == Rows(a) + Rows(b)
  {
    if b == [] {
      assert a + b == a;
    } else {
      assert (a + b)[..|a + b| - 1] == a + b[..|b| - 1];
      RowsConcat(a, b[..|b| - 1]);
    }
  }

  lemma RowsOne(item: Item)
    ensures Rows([item]) == if item.Row? then [item.pos] else []
  {
    assert [item][..0] == [];
  }

  lemma {:induction false} RowsMember(q: seq<Item>, i: nat)
    ensures i in Rows(q) <==> exists j :: 0 <= j < |q| && q[j] == Row(i)
  {
    if q != [] {
      var n := |q| - 1;
      RowsMember(q[..n], i);
      if j :| 0 <= j < |q| && q[j] == Row(i) {
        assert j < n ==> q[..n][j] == Row(i);
      }
    }
  }

  lemma {:induction false} FuturesMember(q: seq<Item>, f: nat)
    ensures f in Futures(q) <==> exists j :: 0 <= j < |q| && q[j] == Flush(f)
  {
    if q != [] {
      var n := |q| - 1;
      FuturesMember(q[..n], f);
      if j :| 0 <= j < |q| && q[j] == Flush(f) {
        assert j < n ==> q[..n][j] == Flush(f);
      }
    }
  }

  lemma {:induction false} HandsUpdate(hs: seq<Hand>, h: nat, x: Hand, i: nat)
    requires h < |hs|
    ensures Held(hs[h := x], i) + Occ(HandRows(hs[h]), i) == Held(hs, i) + Occ(HandRows(x), i)
    ensures AllOwed(hs[h := x]) + Owed(hs[h]) == AllOwed(hs) + Owed(x)
  {
    var n := |hs| - 1;
    if h < n {
      HandsUpdate(hs[..n], h, x, i);
      assert hs[h := x][..n] == hs[..n][h := x];
    } else {
      assert hs[h := x][..n] == hs[..n];
    }
  }

  lemma {:induction false} HeldMember(hs: seq<Hand>, i: nat)
    ensures Held(hs, i) > 0 <==> exists h :: 0 <= h < |hs| && hs[h].Holding? && i in hs[h].rows
  {
    if hs != [] {
      var n := |hs| - 1;
      HeldMember(hs[..n], i);
      OccMember(HandRows(hs[n]), i);
      if h :| 0 <= h < |hs| && hs[h].Holding? && i in hs[h].rows {
        assert h < n ==> hs[..n][h] == hs[h];
      }
    }
  }

  // ---- Every step keeps the invariant ----

  /** No step but logging changes how many places a record is in. */
  lemma StepPlaces(s: State, step: Step, i: nat)
    requires Enabled(s, step)
    ensures Places(Next(s, step), i) == Places(s, i) + if step.Log? && i == s.logged then 1 else 0
  {
    match step
    case Log =>
      RowsConcat(s.queue, [Row(s.logged)]);
      RowsOne(Row(s.logged));
      OccConcat(Rows(s.queue), [s.logged], i);
      OccOne(s.logged, i);
    case RequestFlush(f) =>
      RowsConcat(s.queue, [Flush(f)]);
      RowsOne(Flush(f));
      assert Rows(s.queue) + [] == Rows(s.queue);
    case WorkerTake => TakePlaces(s, i);
    case WorkerTimeout =>
    case WorkerCommit => OccConcat(s.persisted, s.worker.rows, i);
    case WorkerResume =>
    case DrainStart => HandAppend(s.hands, Holding(Rows(s.queue)), i);
    case DrainCommit(h) =>
      OccConcat(s.persisted, s.hands[h].rows, i);
      HandsUpdate(s.hands, h, Owing(|s.hands[h].rows|), i);
    case DrainResume(h) => HandsUpdate(s.hands, h, Holding([]), i);
  }

  lemma HandAppend(hs: seq<Hand>, x: Hand, i: nat)
    ensures Held(hs + [x], i) == Held(hs, i) + Occ(HandRows(x), i)
    ensures AllOwed(hs + [x]) == AllOwed(hs) + Owed(x)
  {
    assert (hs + [x])[..|hs + [x]| - 1] == hs;
  }

  lemma HeadRow(q: seq<Item>, i: nat)
    requires q != []
    ensures Occ(Rows(q), i) == Occ(if q[0].Row? then [q[0].pos] else [], i) + Occ(Rows(q[1..]), i)
  {
    assert q == [q[0]] + q[1..];
    RowsConcat([q[0]], q[1..]);
    RowsOne(q[0]);
    OccConcat(Rows([q[0]]), Rows(q[1..]), i);
  }

  lemma TakePlaces(s: State, i: nat)
    requires s.queue != [] && s.worker.Gathering?
    ensures Places(DoTake(s), i) == Places(s, i)
  {
    HeadRow(s.queue, i);
    if s.queue[0].Row? {
      OccConcat(s.worker.batch, [s.queue[0].pos], i);
    }
  }

  lemma StepCounted(s: State, step: Step)
    requires Counted(s) && Enabled(s, step)
    ensures Counted(Next(s, step))
  {
    match step
    case DrainStart => HandAppend(s.hands, Holding(Rows(s.queue)), 0);
    case DrainCommit(h) => HandsUpdate(s.hands, h, Owing(|s.hands[h].rows|), 0);
    case DrainResume(h) => HandsUpdate(s.hands, h, Holding([]), 0);
    case _ =>
  }

  lemma TakeSequenced(s: State)
    requires Sequenced(s) && s.queue != [] && s.worker.Gathering?
    ensures Sequenced(DoTake(s))
  {
    var q, t := s.queue, s.queue[1..];
    assert forall j :: 0 <= j < |t| ==> t[j] == q[j + 1];
    if q[0].Flush? {
      assert AllBehind(t, s.marks[q[0].future]) by {
        forall j | 0 <= j < |t| && t[j].Row?
          ensures s.marks[q[0].future] <= t[j].pos
        {
          assert q[j + 1].Row?;
        }
      }
    }
    forall f | f in s.resolved
      ensures f in s.marks && AllBehind(t, s.marks[f])
    {
      assert AllBehind(q, s.marks[f]);
    }
  }

  lemma DrainSequenced(s: State)
    requires Sequenced(s)
    ensures Sequenced(DoDrainStart(s))
  {
    forall f | f in DoDrainStart(s).resolved
      ensures f in s.marks
    {
      if f !in s.resolved {
        FuturesMember(s.queue, f);
        var j :| 0 <= j < |s.queue| && s.queue[j] == Flush(f);
      }
    }
  }

  lemma LogSequenced(s: State)
    requires Sequenced(s)
    ensures Sequenced(Next(s, Log))
  {
    var s' := Next(s, Log);
    forall f | f in s.resolved || f in Waiting(s.worker)
      ensures AllBehind(s'.queue, s.marks[f])
    {
      assert AllBehind(s.queue, s.marks[f]);
    }
  }

  lemma RequestSequenced(s: State, f: nat)
    requires Sequenced(s) && f !in s.marks
    ensures Sequenced(Next(s, RequestFlush(f)))
  {
    var s' := Next(s, RequestFlush(f));
    forall g | g in s.resolved || g in Waiting(s.worker)
      ensures AllBehind(s'.queue, s'.marks[g])
    {
      assert AllBehind(s.queue, s.marks[g]);
    }
  }

  lemma StepSequenced(s: State, step: Step)
    requires Sequenced(s) && Enabled(s, step)
    ensures Sequenced(Next(s, step))
  {
    match step
    case Log => LogSequenced(s);
    case RequestFlush(f) => RequestSequenced(s, f);
    case WorkerTake => TakeSequenced(s);
    case DrainStart => DrainSequenced(s);
    case _ =>
  }

  lemma StepKeepsInv(s: State, step: Step)
    requires Inv(s) && Enabled(s, step)
    ensures Inv(Next(s, step))
  {
    forall i: nat
      ensures Places(Next(s, step), i) == if i < Next(s, step).logged then 1 else 0
    {
      StepPlaces(s, step, i);
    }
    StepCounted(s, step);
    StepSequenced(s, step);
  }

  /** Conservation over every run: whatever drains, flushes and writes interleave, each
      logged record is in exactly one place and the counter is right up to writers in progress. */
  lemma {:induction false} RunKeepsInv(s: State, steps: seq<Step>)
    requires Inv(s) && Legal(s, steps)
    ensures Inv(Run(s, steps)) && s.logged <= Run(s, steps).logged
    decreases |steps|
  {
    if steps != [] {
      StepKeepsInv(s, steps[0]);
      RunKeepsInv(Next(s, steps[0]), steps[1..]);
    }
  }

  lemma InitialInv(s0: State)
    requires Initial(s0)
    ensures Inv(s0)
  {
  }

  /** When every writer has finished and the queue is empty, the table holds every logged
      record exactly once and the counter equals the number of rows. */
  lemma SettledIsComplete(s0: State, steps: seq<Step>, i: nat)
    requires Initial(s0) && Legal(s0, steps)
    requires
      var s := Run(s0, steps);
      s.queue == [] && s.worker == Gathering([]) && forall h :: 0 <= h < |s.hands| ==> s.hands[h] == Holding([])
    ensures Occ(Run(s0, steps).persisted, i) == if i < Run(s0, steps).logged then 1 else 0
    ensures Run(s0, steps).flushed == |Run(s0, steps).persisted|
  {
    InitialInv(s0);
    RunKeepsInv(s0, steps);
    var s := Run(s0, steps);
    HeldMember(s.hands, i);
    NothingOwed(s.hands);
    assert Places(s, i) == if i < s.logged then 1 else 0;
  }

  lemma {:induction false} NothingOwed(hs: seq<Hand>)
    requires forall h :: 0 <= h < |hs| ==> hs[h].Holding?
    ensures AllOwed(hs) == 0
  {
    if hs != [] {
      NothingOwed(hs[..|hs| - 1]);
    }
  }

  // ---- The order of the table ----

  /** The first `n` records in the order of logging. */
  function Upto(n: nat): seq<nat> {
    if n == 0 then [] else Upto(n - 1) + [n - 1]
  }

  /** No drain is about, and the table, the worker's batch and the queue hold the records in the
      order in which they were logged. */
  predicate InLogOrder(s: State) {
    s.hands == [] && s.persisted + (WorkerRows(s.worker) + Rows(s.queue)) == Upto(s.logged)
  }

  lemma Assoc(a: seq<nat>, b: seq<nat>, c: seq<nat>)
    ensures (a + b) + c == a + (b + c)
  {
  }

  lemma LogInOrder(s: State)
    requires InLogOrder(s)
    ensures InLogOrder(Next(s, Log))
  {
    RowsConcat(s.queue, [Row(s.logged)]);
    RowsOne(Row(s.logged));
    Assoc(WorkerRows(s.worker), Rows(s.queue), [s.logged]);
    Assoc(s.persisted, WorkerRows(s.worker) + Rows(s.queue), [s.logged]);
  }

  lemma RequestInOrder(s: State, f: nat)
    requires InLogOrder(s) && f !in s.marks
    ensures InLogOrder(Next(s, RequestFlush(f)))
  {
    RowsConcat(s.queue, [Flush(f)]);
    RowsOne(Flush(f));
    assert Rows(s.queue) + [] == Rows(s.queue);
  }

  lemma TakeInOrder(s: State)
    requires InLogOrder(s) && s.queue != [] && s.worker.Gathering?
    ensures InLogOrder(DoTake(s))
  {
    var head := s.queue[0];
    assert s.queue == [head] + s.queue[1..];
    RowsConcat([head], s.queue[1..]);
    RowsOne(head);
    if head.Row? {
      Assoc(s.worker.batch, [head.pos], Rows(s.queue[1..]));
    } else {
      assert [] + Rows(s.queue[1..]) == Rows(s.queue[1..]);
    }
  }

  lemma CommitInOrder(s: State)
    requires InLogOrder(s) && s.worker.Writing?
    ensures InLogOrder(Next(s, WorkerCommit))
  {
    Assoc(s.persisted, s.worker.rows, Rows(s.queue));
    assert [] + Rows(s.queue) == Rows(s.queue);
  }

  lemma StepInOrder(s: State, step: Step)
    requires InLogOrder(s) && Enabled(s, step) && step != DrainStart
    ensures InLogOrder(Next(s, step))
  {
    match step
    case Log => LogInOrder(s);
    case RequestFlush(f) => RequestInOrder(s, f);
    case WorkerTake => TakeInOrder(s);
    case WorkerCommit => CommitInOrder(s);
    case _ =>
  }

  /** Without drains the table is a prefix of the log, in its order, and what is missing is in the
      worker's batch and then in the queue. */
  lemma {:induction false} WithoutDrainsTableIsPrefix(s: State, steps: seq<Step>)
    requires InLogOrder(s) && Legal(s, steps)
    requires forall k :: 0 <= k < |steps| ==> steps[k] != DrainStart
    ensures InLogOrder(Run(s, steps))
    decreases |steps|
  {
    if steps != [] {
      assert steps[0] != DrainStart;
      StepInOrder(s, steps[0]);
      WithoutDrainsTableIsPrefix(Next(s, steps[0]), steps[1..]);
    }
  }

  // ---- What a completed flush means ----

  /** Everything logged before the flush was requested is on disk. */
  ghost predicate Honest(s: State, f: nat)
    requires f in s.marks
  {
    forall i: nat :: i < s.marks[f] ==> i in s.persisted
  }

  /** Nothing logged before the flush was requested is still in the hands of a writer. */
  ghost predicate NoneInHand(s: State, f: nat)
    requires f in s.marks
  {
    && (forall i: nat :: i in WorkerRows(s.worker) ==> s.marks[f] <= i)
    && (forall h, i: nat :: 0 <= h < |s.hands| && s.hands[h].Holding? && i in s.hands[h].rows ==> s.marks[f] <= i)
  }

  /** In every reachable state a completed flush is honest if and only if no drain, and not
      the worker, still holds an unwritten record that precedes its request. */
  lemma ResolvedIsHonestIffNoneInHand(s0: State, steps: seq<Step>, f: nat)
    requires Initial(s0) && Legal(s0, steps) && f in Run(s0, steps).resolved
    ensures f in Run(s0, steps).marks
    ensures Honest(Run(s0, steps), f) <==> NoneInHand(Run(s0, steps), f)
  {
    InitialInv(s0);
    RunKeepsInv(s0, steps);
    HonestIffNoneInHand(Run(s0, steps), f);
  }

  lemma OnDiskIffNotInHand(s: State, f: nat, i: nat)
    requires Inv(s) && (f in s.resolved || f in Waiting(s.worker)) && f in s.marks && i < s.marks[f]
    ensures i in s.persisted <==> i !in WorkerRows(s.worker) && Held(s.hands, i) == 0
  {
    assert Places(s, i) == 1;
    OccMember(s.persisted, i);
    OccMember(WorkerRows(s.worker), i);
    OccMember(Rows(s.queue), i);
    RowsMember(s.queue, i);
    assert AllBehind(s.queue, s.marks[f]);
  }

  lemma HonestIffNoneInHand(s: State, f: nat)
    requires Inv(s) && (f in s.resolved || f in Waiting(s.worker))
    ensures f in s.marks && (Honest(s, f) <==> NoneInHand(s, f))
  {
    if NoneInHand(s, f) {
      forall i: nat | i < s.marks[f]
        ensures i in s.persisted
      {
        OnDiskIffNotInHand(s, f, i);
        HeldMember(s.hands, i);
      }
    }
    if Honest(s, f) {
      forall i: nat | i in WorkerRows(s.worker)
        ensures s.marks[f] <= i
      {
        if i < s.marks[f] {
          OnDiskIffNotInHand(s, f, i);
        }
      }
      forall h, i: nat | 0 <= h < |s.hands| && s.hands[h].Holding? && i in s.hands[h].rows
        ensures s.marks[f] <= i
      {
        if i < s.marks[f] {
          OnDiskIffNotInHand(s, f, i);
          HeldMember(s.hands, i);
        }
      }
    }
  }

  /** The worker alone never holds back a record that precedes a completed flush. */
  ghost predicate WorkerBehind(s: State) {
    s.hands == [] && forall f, i: nat :: f in s.resolved && f in s.marks && i in WorkerRows(s.worker) ==> s.marks[f] <= i
  }

  lemma StepWorkerBehind(s: State, step: Step)
    requires Inv(s) && WorkerBehind(s) && Enabled(s, step) && step != DrainStart
    ensures WorkerBehind(Next(s, step))
  {
    var s' := Next(s, step);
    forall f, i: nat | f in s'.resolved && f in s'.marks && i in WorkerRows(s'.worker)
      ensures s'.marks[f] <= i
    {
      assert f in s.resolved && f in s.marks && s'.marks[f] == s.marks[f];
      assert AllBehind(s.queue, s.marks[f]);
      if i !in WorkerRows(s.worker) {
        assert step.WorkerTake? && s.queue[0] == Row(i);
      }
    }
  }

  /** Without drains, for any number of overlapping flushers: every completed flush has
      everything that was logged before its request on disk. */
  lemma {:induction false} WithoutDrainsFlushesAreHonest(s: State, steps: seq<Step>)
    requires Inv(s) && WorkerBehind(s) && Legal(s, steps)
    requires forall k :: 0 <= k < |steps| ==> steps[k] != DrainStart
    ensures forall f :: f in Run(s, steps).resolved ==> f in Run(s, steps).marks && Honest(Run(s, steps), f)
    decreases |steps|
  {
    if steps == [] {
      forall f | f in s.resolved
        ensures f in s.marks && Honest(s, f)
      {
        HonestIffNoneInHand(s, f);
      }
    } else {
      assert steps[0] != DrainStart;
      StepKeepsInv(s, steps[0]);
      StepWorkerBehind(s, steps[0]);
      WithoutDrainsFlushesAreHonest(Next(s, steps[0]), steps[1..]);
    }
  }

  /** A record logged, grabbed by a drain that has not yet written, and then a flush that
      the idle worker completes: the flush reports success with nothing on disk. */
  lemma FlushCanBeDishonest(s0: State)
    requires Initial(s0)
    ensures
      var steps := [Log, DrainStart, RequestFlush(0), WorkerTake];
      && Legal(s0, steps)
      && 0 in Run(s0, steps).resolved
      && Run(s0, steps).marks[0] == 1
      && Run(s0, steps).persisted == []
  {
    var s1 := Next(s0, Log);
    assert s1.queue == [Row(0)];
    var s2 := Next(s1, DrainStart);
    var s3 := Next(s2, RequestFlush(0));
    assert s3.queue == [Flush(0)];
    var s4 := Next(s3, WorkerTake);
    var steps := [Log, DrainStart, RequestFlush(0), WorkerTake];
    assert steps[1..] == [DrainStart, RequestFlush(0), WorkerTake];
    assert steps[1..][1..] == [RequestFlush(0), WorkerTake];
    assert steps[1..][1..][1..] == [WorkerTake];
    assert steps[1..][1..][1..][1..] == [];
  }
}
