/** The worker pool's reconciliation of its lanes, proved against `Staffing`. */
module WorkerPools {
  import opened Contracts
  import opened Staffing

  /** A worker's mode and number never change; its parameters and its life cycle do. */
  class PoolWorker {
    const badge: Badge
    const lane: Priority
    var batchSize: int
    var batchTimeoutMs: real
    var hasTask: bool
    var stopRequested: bool
    var stopped: bool

    constructor (badge: Badge, lane: Priority, size: int, timeoutMs: real)
      ensures this.badge == badge && this.lane == lane && Tuned(this, size, timeoutMs)
      ensures !hasTask && IsRunning()
    {
      this.badge, this.lane := badge, lane;
      batchSize, batchTimeoutMs := if size < 1 then 1 else size, if timeoutMs < 1.0 then 1.0 else timeoutMs;
      hasTask, stopRequested, stopped := false, false, false;
    }

    /** True even of a worker that was never started. */
    predicate IsRunning()
      reads this
    {
      !stopped && !stopRequested
    }

    method Start()
      modifies `hasTask, `stopRequested, `stopped
      ensures hasTask && (old(hasTask) || IsRunning())
      ensures old(hasTask) ==> stopped == old(stopped) && stopRequested == old(stopRequested)
    {
      if hasTask {
        return;
      }
      stopRequested, stopped, hasTask := false, false, true;
    }

    method Stop()
      modifies `hasTask, `stopRequested, `stopped
      ensures stopped && stopRequested && !hasTask
    {
      stopRequested := true;
      hasTask := false;
      stopped := true;
    }

    method SetBatchParams(size: int, timeoutMs: real)
      modifies `batchSize, `batchTimeoutMs
      ensures Tuned(this, size, timeoutMs)
    {
      batchSize, batchTimeoutMs := if size < 1 then 1 else size, if timeoutMs < 1.0 then 1.0 else timeoutMs;
    }
  }

  /** A batch worker carries the requested parameters, kept positive. */
  predicate Tuned(w: PoolWorker, size: int, timeoutMs: real)
    reads w
  {
    || w.badge.stream
    || (w.batchSize == (if size < 1 then 1 else size) && w.batchTimeoutMs == (if timeoutMs < 1.0 then 1.0 else timeoutMs))
  }

  function Badges(ws: seq<PoolWorker>): seq<Badge> {
    if ws == [] then [] else Badges(ws[..|ws| - 1]) + [ws[|ws| - 1].badge]
  }

  /** The workers of one mode, in order. */
  function Chosen(ws: seq<PoolWorker>, stream: bool): seq<PoolWorker> {
    if ws == [] then []
    else Chosen(ws[..|ws| - 1], stream) + if ws[|ws| - 1].badge.stream == stream then [ws[|ws| - 1]] else []
  }

  lemma BadgesSnoc(ws: seq<PoolWorker>, w: PoolWorker)
    ensures Badges(ws + [w]) == Badges(ws) + [w.badge]
  {
    assert (ws + [w])[..|ws|] == ws;
  }

  lemma {:induction false} BadgesConcat(a: seq<PoolWorker>, b: seq<PoolWorker>)
    ensures Badges(a + b) == Badges(a) + Badges(b) && |Badges(a)| == |a|
  {
    if b == [] {
      assert a + b == a && Badges(a) + [] == Badges(a);
      if a != [] {
        BadgesConcat(a[..|a| - 1], []);
      }
    } else {
      assert (a + b)[..|a + b| - 1] == a + b[..|b| - 1];
      BadgesConcat(a, b[..|b| - 1]);
    }
  }

  lemma MatchingSnoc(bs: seq<Badge>, b: Badge, stream: bool)
    ensures Matching(bs + [b], stream) == Matching(bs, stream) + if b.stream == stream then [b] else []
  {
    assert (bs + [b])[..|bs|] == bs;
  }

  lemma {:induction false} ChosenBadges(ws: seq<PoolWorker>, stream: bool)
    ensures Badges(Chosen(ws, stream)) == Matching(Badges(ws), stream)
  {
    if ws != [] {
      var n := |ws| - 1;
      ChosenBadges(ws[..n], stream);
      MatchingSnoc(Badges(ws[..n]), ws[n].badge, stream);
      if ws[n].badge.stream == stream {
        BadgesSnoc(Chosen(ws[..n], stream), ws[n]);
      } else {
        assert Chosen(ws, stream) == Chosen(ws[..n], stream);
      }
    }
  }

  lemma BadgesPrefix(ws: seq<PoolWorker>, n: nat)
    requires n <= |ws|
    ensures |Badges(ws)| == |ws| && Badges(ws[..n]) == Badges(ws)[..n]
  {
    assert ws == ws[..n] + ws[n..];
    BadgesConcat(ws[..n], ws[n..]);
  }

  predicate NoDup(ws: seq<PoolWorker>) {
    forall i, j :: 0 <= i < j < |ws| ==> ws[i] != ws[j]
  }

  predicate OfLane(ws: seq<PoolWorker>, p: Priority) {
    forall w :: w in ws ==> w.lane == p
  }

  lemma {:induction false} ChosenMembers(ws: seq<PoolWorker>, stream: bool)
    ensures forall w :: w in Chosen(ws, stream) <==> w in ws && w.badge.stream == stream
  {
    if ws != [] {
      ChosenMembers(ws[..|ws| - 1], stream);
      assert ws == ws[..|ws| - 1] + [ws[|ws| - 1]];
    }
  }

  lemma {:induction false} ChosenNoDup(ws: seq<PoolWorker>, stream: bool)
    requires NoDup(ws)
    ensures NoDup(Chosen(ws, stream))
  {
    if ws != [] {
      ChosenNoDup(ws[..|ws| - 1], stream);
      ChosenMembers(ws[..|ws| - 1], stream);
    }
  }

  /** Splits a lane by mode; the batch workers that stay take the new parameters. */
  method Partition(ws: seq<PoolWorker>, stream: bool, size: int, timeoutMs: real)
    returns (keep: seq<PoolWorker>, retire: seq<PoolWorker>)
    modifies ws`batchSize, ws`batchTimeoutMs
    ensures keep == Chosen(ws, stream) && retire == Chosen(ws, !stream)
    ensures forall w :: w in keep ==> Tuned(w, size, timeoutMs)
  {
    keep, retire := [], [];
    for i := 0 to |ws|
      invariant keep == Chosen(ws[..i], stream) && retire == Chosen(ws[..i], !stream)
      invariant forall w :: w in keep ==> Tuned(w, size, timeoutMs)
    {
      assert ws[..i + 1][..i] == ws[..i];
      if ws[i].badge.stream == stream {
        keep := keep + [ws[i]];
        if !ws[i].badge.stream {
          ws[i].SetBatchParams(size, timeoutMs);
        }
      } else {
        retire := retire + [ws[i]];
      }
    }
    assert ws[..|ws|] == ws;
  }

  method StopAll(ws: seq<PoolWorker>)
    modifies ws`hasTask, ws`stopRequested, ws`stopped
    ensures forall w :: w in ws ==> w.stopped && !w.hasTask
  {
    for i := 0 to |ws|
      invariant forall j :: 0 <= j < i ==> ws[j].stopped && !ws[j].hasTask
    {
      ws[i].Stop();
    }
  }

  /** Retires workers from the end until no more than `n` are left. */
  method Trim(keep: seq<PoolWorker>, n: nat) returns (kept: seq<PoolWorker>)
    requires NoDup(keep)
    modifies keep[Min(|keep|, n)..]`hasTask, keep[Min(|keep|, n)..]`stopRequested, keep[Min(|keep|, n)..]`stopped
    ensures kept == keep[..Min(|keep|, n)]
    ensures forall w :: w in keep[Min(|keep|, n)..] ==> w.stopped && !w.hasTask
  {
    kept := keep;
    while |kept| > n
      invariant Min(|keep|, n) <= |kept| <= |keep| && kept == keep[..|kept|]
      invariant forall w :: w in keep[|kept|..] ==> w.stopped && !w.hasTask
    {
      var last := |kept| - 1;
      var retiring := kept[last];
      kept := kept[..last];
      assert keep[last..] == [retiring] + keep[last + 1..];
      assert retiring in keep[Min(|keep|, n)..];
      retiring.Stop();
    }
  }

  lemma NoDupPrefix(ws: seq<PoolWorker>, n: nat)
    requires NoDup(ws) && n <= |ws|
    ensures NoDup(ws[..n])
    ensures forall w :: w in ws[..n] ==> w !in ws[n..]
  {
  }

  predicate Within(a: seq<PoolWorker>, ws: seq<PoolWorker>) {
    forall i :: 0 <= i < |a| ==> a[i] in ws
  }

  /** Where each worker of a lane goes: kept, cut for being beyond the target, or retired. */
  lemma Fates(ws: seq<PoolWorker>, stream: bool, n: nat)
    requires NoDup(ws)
    ensures var keep := Chosen(ws, stream);
      var k := Min(|keep|, n);
      && NoDup(keep) && NoDup(keep[..k]) && Within(keep[..k], ws) && Within(keep[k..], ws) && Within(Chosen(ws, !stream), ws)
      && (forall w :: w in ws ==> w in keep[..k] || w in keep[k..] || w in Chosen(ws, !stream))
      && (forall w :: w in keep[..k] ==> w in keep && w !in keep[k..] && w !in Chosen(ws, !stream))
  {
    var keep := Chosen(ws, stream);
    var k := Min(|keep|, n);
    ChosenMembers(ws, stream);
    ChosenMembers(ws, !stream);
    ChosenNoDup(ws, stream);
    NoDupPrefix(keep, k);
    assert keep == keep[..k] + keep[k..];
    ChosenWithin(ws, stream);
    ChosenWithin(ws, !stream);
    assert forall i :: 0 <= i < |keep[k..]| ==> keep[k..][i] == keep[k + i];
  }

  lemma ChosenWithin(ws: seq<PoolWorker>, stream: bool)
    ensures Within(Chosen(ws, stream), ws)
  {
    ChosenMembers(ws, stream);
    forall i | 0 <= i < |Chosen(ws, stream)|
      ensures Chosen(ws, stream)[i] in ws
    {
      assert Chosen(ws, stream)[i] in Chosen(ws, stream);
    }
  }

  /** Retires the workers of the wrong mode and those beyond the target; nothing else of the
      others changes than their batch parameters. */
  method Reduce(ws: seq<PoolWorker>, stream: bool, n: nat, size: int, timeoutMs: real) returns (kept: seq<PoolWorker>)
    requires NoDup(ws)
    modifies ws
    ensures kept == Chosen(ws, stream)[..Min(|Chosen(ws, stream)|, n)] && NoDup(kept) && Within(kept, ws)
    ensures forall w :: w in kept ==> Tuned(w, size, timeoutMs)
    ensures forall w :: w in ws && w in kept ==> w.hasTask == old(w.hasTask) && w.IsRunning() == old(w.IsRunning())
    ensures forall w :: w in ws && w !in kept ==> w.stopped && !w.hasTask
  {
    Fates(ws, stream, n);
    var keep, retire := Partition(ws, stream, size, timeoutMs);
    StopAll(retire);
    kept := Trim(keep, n);
  }

  lemma NoDupConcat(a: seq<PoolWorker>, b: seq<PoolWorker>)
    requires NoDup(a) && NoDup(b) && forall w :: w in a ==> w !in b
    ensures NoDup(a + b)
  {
    forall i, j | 0 <= i < j < |a + b|
      ensures (a + b)[i] != (a + b)[j]
    {
      if i < |a| <= j {
        assert a[i] in a && b[j - |a|] in b;
      }
    }
  }

  /** What reconciling a lane leaves, as workers rather than as values. */
  lemma StaffedBadges(ws: seq<PoolWorker>, stream: bool, n: nat, hired: seq<PoolWorker>)
    requires n <= |Chosen(ws, stream)|
    ensures |Chosen(ws, stream)| == |Matching(Badges(ws), stream)|
    ensures Badges(Chosen(ws, stream)[..n] + hired) == Matching(Badges(ws), stream)[..n] + Badges(hired)
  {
    ChosenBadges(ws, stream);
    BadgesPrefix(Chosen(ws, stream), n);
    BadgesConcat(Chosen(ws, stream)[..n], hired);
  }

  type Crews = map<Priority, seq<PoolWorker>>

  predicate Listed(workers: Crews, modes: map<Priority, bool>) {
    forall p: Priority :: p in workers && p in modes
  }

  ghost predicate Orderly(workers: Crews) {
    forall p :: p in workers ==> NoDup(workers[p]) && OfLane(workers[p], p)
  }

  /** A pool by value. */
  function Roll(workers: Crews, modes: map<Priority, bool>, counter: nat): Roster
    requires Listed(workers, modes)
  {
    Roster(Badges(workers[Critical]), Badges(workers[Normal]), Badges(workers[BestEffort]),
           modes[Critical], modes[Normal], modes[BestEffort], counter)
  }

  lemma RollReplace(workers: Crews, modes: map<Priority, bool>, counter: nat, p: Priority, ws: seq<PoolWorker>, issued: nat)
    requires Listed(workers, modes)
    ensures Roll(workers[p := ws], modes, issued)
         == WithLane(Roll(workers, modes, counter), p, Badges(ws)).(counter := issued)
    ensures LaneOf(Roll(workers, modes, counter), p) == Badges(workers[p])
    ensures Streams(Roll(workers, modes, counter), p) == modes[p]
  {
    match p
    case Critical =>
    case Normal =>
    case BestEffort =>
  }

  lemma RollSwitch(workers: Crews, modes: map<Priority, bool>, counter: nat, w: Switch)
    requires Listed(workers, modes)
    ensures Listed(workers, modes[w.lane := w.stream])
    ensures Roll(workers, modes[w.lane := w.stream], counter) == WithMode(Roll(workers, modes, counter), w)
  {
    match w.lane
    case Critical =>
    case Normal =>
    case BestEffort =>
  }

  lemma StaffedLane(before: Roster, t: Target, ws: seq<PoolWorker>, kept: seq<PoolWorker>, hired: seq<PoolWorker>)
    requires LaneOf(before, t.lane) == Badges(ws)
    requires var keep := Chosen(ws, Streams(before, t.lane)); kept == keep[..Min(|keep|, Wanted(t.count))]
    requires Badges(hired) == Issue(before.counter, Wanted(t.count) - |kept|, Streams(before, t.lane))
    ensures Badges(kept + hired) == Staffed(before, t)
    ensures Shortage(before, t) == Wanted(t.count) - |kept|
  {
    var stream := Streams(before, t.lane);
    StaffedBadges(ws, stream, |kept|, hired);
    assert |Matching(Badges(ws), stream)| == |Chosen(ws, stream)|;
  }

  /** Replacing a lane by what was kept and what was hired is what `Staff` says. */
  lemma StaffedRoll(workers: Crews, modes: map<Priority, bool>, counter: nat, t: Target,
                    kept: seq<PoolWorker>, hired: seq<PoolWorker>)
    requires Listed(workers, modes)
    requires var keep := Chosen(workers[t.lane], modes[t.lane]); kept == keep[..Min(|keep|, Wanted(t.count))]
    requires Badges(hired) == Issue(counter, Wanted(t.count) - |kept|, modes[t.lane])
    ensures Roll(workers[t.lane := kept + hired], modes, counter + (Wanted(t.count) - |kept|))
         == Staff(Roll(workers, modes, counter), t)
  {
    RollReplace(workers, modes, counter, t.lane, kept + hired, counter + (Wanted(t.count) - |kept|));
    StaffedLane(Roll(workers, modes, counter), t, workers[t.lane], kept, hired);
  }

  lemma StaffedIsOrderly(workers: Crews, p: Priority, kept: seq<PoolWorker>, hired: seq<PoolWorker>)
    requires Orderly(workers) && p in workers
    requires NoDup(kept) && Within(kept, workers[p]) && NoDup(hired) && OfLane(hired, p)
    requires forall w :: w in kept ==> w !in hired
    ensures Orderly(workers[p := kept + hired])
  {
    NoDupConcat(kept, hired);
  }

  ghost function Crew(workers: Crews): set<PoolWorker> {
    set p, i | p in workers && 0 <= i < |workers[p]| :: workers[p][i]
  }

  lemma CrewHas(workers: Crews, p: Priority)
    requires p in workers
    ensures forall i :: 0 <= i < |workers[p]| ==> workers[p][i] in Crew(workers)
    ensures forall w :: w in workers[p] ==> w in Crew(workers)
  {
    forall w | w in workers[p]
      ensures w in Crew(workers)
    {
      var i :| 0 <= i < |workers[p]| && workers[p][i] == w;
    }
  }

  /** Replacing a lane only brings in its new workers and only takes out its old ones. */
  lemma CrewReplace(workers: Crews, p: Priority, ws: seq<PoolWorker>)
    requires p in workers
    ensures forall w :: w in Crew(workers[p := ws]) ==> w in Crew(workers) || w in ws
    ensures forall w :: w in Crew(workers) ==> w in Crew(workers[p := ws]) || w in workers[p]
    ensures forall w :: w in ws ==> w in Crew(workers[p := ws])
    ensures forall w :: w in workers[p] ==> w in Crew(workers)
  {
    var after := workers[p := ws];
    CrewHas(workers, p);
    CrewHas(after, p);
    forall w | w in Crew(after)
      ensures w in Crew(workers) || w in ws
    {
      var q, i :| q in after && 0 <= i < |after[q]| && after[q][i] == w;
      if q != p {
        assert workers[q][i] == w;
      }
    }
    forall w | w in Crew(workers)
      ensures w in Crew(after) || w in workers[p]
    {
      var q, i :| q in workers && 0 <= i < |workers[q]| && workers[q][i] == w;
      if q != p {
        assert after[q][i] == w;
      }
    }
  }

  /** A worker of the crew is on its own lane and no other. */
  lemma CrewLane(workers: Crews, p: Priority)
    requires Orderly(workers) && p in workers
    ensures forall w :: w in workers[p] <==> w in Crew(workers) && w.lane == p
  {
    CrewHas(workers, p);
    forall w | w in Crew(workers) && w.lane == p
      ensures w in workers[p]
    {
      var q, i :| q in workers && 0 <= i < |workers[q]| && workers[q][i] == w;
      assert w in workers[q];
    }
  }

  /** The three lanes hold the whole crew. */
  lemma CrewLanes(workers: Crews)
    requires forall p: Priority :: p in workers
    ensures forall w :: w in Crew(workers) <==> w in workers[Critical] || w in workers[Normal] || w in workers[BestEffort]
  {
    CrewHas(workers, Critical);
    CrewHas(workers, Normal);
    CrewHas(workers, BestEffort);
    forall w | w in Crew(workers)
      ensures w in workers[Critical] || w in workers[Normal] || w in workers[BestEffort]
    {
      var q, i :| q in workers && 0 <= i < |workers[q]| && workers[q][i] == w;
      match q
      case Critical =>
      case Normal =>
      case BestEffort =>
    }
  }

  lemma LanesApart(workers: Crews)
    requires Orderly(workers) && forall p: Priority :: p in workers
    ensures forall w :: w in workers[Critical] ==> w !in workers[Normal] && w !in workers[BestEffort]
    ensures forall w :: w in workers[Normal] ==> w !in workers[BestEffort]
  {
    CrewLane(workers, Critical);
    CrewLane(workers, Normal);
    CrewLane(workers, BestEffort);
  }

  class WorkerPool {
    var workers: Crews
    var modes: map<Priority, bool>
    var workerCounter: nat
    var isRunning: bool

    ghost predicate Valid()
      reads this
    {
      Listed(workers, modes) && Orderly(workers)
    }

    ghost function State(): Roster
      reads this
      requires Listed(workers, modes)
    {
      Roll(workers, modes, workerCounter)
    }

    constructor ()
      ensures Valid() && !isRunning
      ensures State() == Roster([], [], [], true, false, false, 0)
    {
      workers := map[Critical := [], Normal := [], BestEffort := []];
      modes := map[Critical := true, Normal := false, BestEffort := false];
      workerCounter, isRunning := 0, false;
      new;
      forall p: Priority
        ensures p in workers && p in modes
      {
        match p
        case Critical =>
        case Normal =>
        case BestEffort =>
      }
    }

    method CreateWorker(p: Priority, stream: bool, size: int, timeoutMs: real) returns (w: PoolWorker)
      modifies `workerCounter
      ensures workerCounter == old(workerCounter) + 1
      ensures fresh(w) && w.badge == Badge(workerCounter, stream) && w.lane == p
      ensures Tuned(w, size, timeoutMs) && w.IsRunning() && !w.hasTask
    {
      workerCounter := workerCounter + 1;
      w := new PoolWorker(Badge(workerCounter, stream), p, size, timeoutMs);
    }

    /** Adds workers with new numbers, started if the pool is running. */
    method Hire(p: Priority, stream: bool, n: nat, size: int, timeoutMs: real) returns (hired: seq<PoolWorker>)
      modifies `workerCounter
      ensures workerCounter == old(workerCounter) + n
      ensures |hired| == n && Badges(hired) == Issue(old(workerCounter), n, stream)
      ensures NoDup(hired) && OfLane(hired, p)
      ensures forall w :: w in hired ==> fresh(w) && Tuned(w, size, timeoutMs) && w.IsRunning() && w.hasTask == isRunning
    {
      hired := [];
      while |hired| < n
        invariant |hired| <= n && workerCounter == old(workerCounter) + |hired|
        invariant Badges(hired) == Issue(old(workerCounter), |hired|, stream)
        invariant NoDup(hired) && OfLane(hired, p)
        invariant forall w :: w in hired ==> fresh(w) && Tuned(w, size, timeoutMs) && w.IsRunning() && w.hasTask == isRunning
      {
        var w := CreateWorker(p, stream, size, timeoutMs);
        if isRunning {
          w.Start();
        }
        BadgesSnoc(hired, w);
        hired := hired + [w];
      }
    }

    /** Keeps the first workers in the lane's mode, up to the target, as they are but for their
        batch parameters; stops the rest; hires what is missing, started if the pool runs. */
    method Reconcile(p: Priority, n: nat, size: int, timeoutMs: real)
      returns (kept: seq<PoolWorker>, hired: seq<PoolWorker>)
      requires Valid()
      modifies `workerCounter, workers[p]
      ensures kept == Chosen(workers[p], modes[p])[..Min(|Chosen(workers[p], modes[p])|, n)]
      ensures |hired| == n - |kept| && Badges(hired) == Issue(old(workerCounter), n - |kept|, modes[p])
      ensures Orderly(workers[p := kept + hired]) && workerCounter == old(workerCounter) + |hired|
      ensures forall w :: w in workers[p] && w in kept ==> w.hasTask == old(w.hasTask) && w.IsRunning() == old(w.IsRunning())
      ensures forall w :: w in workers[p] && w !in kept ==> w.stopped && !w.hasTask
      ensures forall w :: w in kept ==> w in workers[p]
      ensures forall w :: w in hired ==> fresh(w) && w.IsRunning() && w.hasTask == isRunning
      ensures forall w :: w in kept || w in hired ==> Tuned(w, size, timeoutMs)
    {
      kept := Reduce(workers[p], modes[p], n, size, timeoutMs);
      hired := Hire(p, modes[p], n - |kept|, size, timeoutMs);
      StaffedIsOrderly(workers, p, kept, hired);
    }

    /** The lane as it is to be: reconciled, but not yet in place. */
    method Restaff(t: Target, size: int, timeoutMs: real) returns (lane: seq<PoolWorker>)
      requires Valid()
      modifies `workerCounter, workers[t.lane]
      ensures Orderly(workers[t.lane := lane])
      ensures Roll(workers[t.lane := lane], modes, workerCounter) == Staff(old(State()), t)
      ensures forall w :: w in lane ==> (w in workers[t.lane] || fresh(w)) && Tuned(w, size, timeoutMs)
      ensures forall w :: w in workers[t.lane] && w in lane ==>
        w.hasTask == old(w.hasTask) && w.IsRunning() == old(w.IsRunning())
      ensures forall w :: w in workers[t.lane] && w !in lane ==> Retired(w)
      ensures forall w :: w in lane && w !in workers[t.lane] ==> w.IsRunning() && w.hasTask == isRunning
    {
      var kept, hired := Reconcile(t.lane, if t.count < 0 then 0 else t.count, size, timeoutMs);
      StaffedRoll(workers, modes, old(workerCounter), t, kept, hired);
      lane := kept + hired;
    }

    /** Brings one lane to its target: its workers carry the parameters, those that stay are
        otherwise as they were, those that leave are stopped, and those that come are started
        if the pool runs. */
    method SetLane(t: Target, size: int, timeoutMs: real)
      requires Valid()
      modifies `workers, `workerCounter, workers[t.lane]
      ensures Valid() && State() == Staff(old(State()), t)
      ensures workers == old(workers)[t.lane := workers[t.lane]]
      ensures forall w :: w in workers[t.lane] ==> (w in old(workers[t.lane]) || fresh(w)) && Tuned(w, size, timeoutMs)
      ensures forall w :: w in old(workers[t.lane]) && w in workers[t.lane] ==>
        w.hasTask == old(w.hasTask) && w.IsRunning() == old(w.IsRunning())
      ensures forall w :: w in old(workers[t.lane]) && w !in workers[t.lane] ==> Retired(w)
      ensures forall w :: w in workers[t.lane] && w !in old(workers[t.lane]) ==> w.IsRunning() && w.hasTask == isRunning
    {
      ghost var was := workers[t.lane];
      var lane := Restaff(t, size, timeoutMs);
      ghost var roll := Roll(workers[t.lane := lane], modes, workerCounter);
      workers := workers[t.lane := lane];
      assert workers[t.lane] == lane && old(workers)[t.lane] == was;
      assert State() == roll;
    }

    method SetModes(switches: seq<Switch>)
      requires Valid()
      modifies `modes
      ensures Valid() && State() == Switched(old(State()), switches)
    {
      for i := 0 to |switches|
        invariant Valid() && State() == Switched(old(State()), switches[..i])
      {
        assert switches[..i + 1][..i] == switches[..i];
        RollSwitch(workers, modes, workerCounter, switches[i]);
        modes := modes[switches[i].lane := switches[i].stream];
      }
      assert switches[..|switches|] == switches;
    }

    ghost function Everyone(): set<PoolWorker>
      reads this
    {
      Crew(workers)
    }

    /** The workers of a lane carry the parameters the call gives it, or the defaults. */
    ghost predicate TunedAs(p: Priority, sizes: map<Priority, int>, timeoutsMs: map<Priority, real>)
      reads this, if p in workers then workers[p] else []
    {
      p in workers && forall w :: w in workers[p] ==> Tuned(w, SizeFor(sizes, p), TimeoutFor(timeoutsMs, p))
    }

    /** One lane of a call. Workers only come from where they were or are new; whoever leaves is
        retired; the lane is tuned, and the other lanes stay as they were. */
    method SetNamedLane(t: Target, sizes: map<Priority, int>, timeoutsMs: map<Priority, real>)
      requires Valid()
      modifies `workers, `workerCounter, Everyone()
      ensures Valid() && State() == Staff(old(State()), t)
      ensures forall w :: w in Everyone() ==> w in old(Everyone()) || fresh(w)
      ensures forall w :: w in old(Everyone()) ==> w in Everyone() || Retired(w)
      ensures forall w :: w in old(Everyone()) && w in Everyone() ==>
        w.hasTask == old(w.hasTask) && w.IsRunning() == old(w.IsRunning())
      ensures forall w :: w in Everyone() && w !in old(Everyone()) ==> w.IsRunning() && w.hasTask == isRunning
      ensures TunedAs(t.lane, sizes, timeoutsMs)
      ensures forall p :: old(TunedAs(p, sizes, timeoutsMs)) ==> TunedAs(p, sizes, timeoutsMs)
    {
      CrewHas(workers, t.lane);
      CrewLane(workers, t.lane);
      ghost var was := workers;
      SetLane(t, SizeFor(sizes, t.lane), TimeoutFor(timeoutsMs, t.lane));
      CrewReplace(was, t.lane, workers[t.lane]);
      CrewLane(workers, t.lane);
    }

    method SetLanes(allocation: seq<Target>, sizes: map<Priority, int>, timeoutsMs: map<Priority, real>)
      requires Valid()
      modifies `workers, `workerCounter, Everyone()
      ensures Valid() && State() == StaffAll(old(State()), allocation)
      ensures forall w :: w in Everyone() ==> w in old(Everyone()) || fresh(w)
      ensures forall w :: w in old(Everyone()) ==> w in Everyone() || Retired(w)
      ensures forall w :: w in old(Everyone()) && w in Everyone() ==>
        w.hasTask == old(w.hasTask) && w.IsRunning() == old(w.IsRunning())
      ensures forall w :: w in Everyone() && w !in old(Everyone()) ==> w.IsRunning() && w.hasTask == isRunning
      ensures forall p :: Asked(allocation, p).Some? ==> TunedAs(p, sizes, timeoutsMs)
    {
      for i := 0 to |allocation|
        invariant Valid() && State() == StaffAll(old(State()), allocation[..i])
        invariant forall w :: w in Everyone() ==> w in old(Everyone()) || fresh(w)
        invariant forall w :: w in old(Everyone()) ==> w in Everyone() || Retired(w)
        invariant forall w :: w in old(Everyone()) && w in Everyone() ==>
          w.hasTask == old(w.hasTask) && w.IsRunning() == old(w.IsRunning())
        invariant forall w :: w in Everyone() && w !in old(Everyone()) ==> w.IsRunning() && w.hasTask == isRunning
        invariant forall p :: Asked(allocation[..i], p).Some? ==> TunedAs(p, sizes, timeoutsMs)
      {
        assert allocation[..i + 1][..i] == allocation[..i];
        SetNamedLane(allocation[i], sizes, timeoutsMs);
      }
      assert allocation[..|allocation|] == allocation;
    }

    /** The whole call: the modes, then lane by lane in the order the allocation names them. */
    method SetAllocation(c: Call, sizes: map<Priority, int>, timeoutsMs: map<Priority, real>)
      requires Valid()
      modifies `modes, `workers, `workerCounter, Everyone()
      ensures Valid() && State() == Apply(old(State()), c)
      ensures forall w :: w in Everyone() ==> w in old(Everyone()) || fresh(w)
      ensures forall w :: w in old(Everyone()) ==> w in Everyone() || Retired(w)
      ensures forall w :: w in old(Everyone()) && w in Everyone() ==>
        w.hasTask == old(w.hasTask) && w.IsRunning() == old(w.IsRunning())
      ensures forall w :: w in Everyone() && w !in old(Everyone()) ==> w.IsRunning() && w.hasTask == isRunning
      ensures forall p :: Asked(c.allocation, p).Some? ==> TunedAs(p, sizes, timeoutsMs)
    {
      SetModes(c.switches);
      SetLanes(c.allocation, sizes, timeoutsMs);
    }

    /** The loop that ends `start`, lane after lane: it starts the workers that do not report
        that they run. */
    method StartExisting()
      requires Valid()
      modifies Everyone()
      ensures Valid()
      ensures forall w :: w in Everyone() ==> (w.hasTask <==> old(w.hasTask) || !old(w.IsRunning()))
      ensures forall w :: w in Everyone() && old(w.hasTask) ==> w.IsRunning() == old(w.IsRunning())
    {
      CrewLanes(workers);
      LanesApart(workers);
      StartIdle(workers[Critical]);
      StartIdle(workers[Normal]);
      StartIdle(workers[BestEffort]);
    }

    /** Starting the pool. A worker that joins has a task; one that was there before and stays has
        a task if and only if it had one or had been stopped: a worker that was allocated while
        the pool did not run, and never started, reports that it runs and is left without. */
    method Start(c: Call, sizes: map<Priority, int>, timeoutsMs: map<Priority, real>)
      requires Valid()
      modifies this, Everyone()
      ensures Valid() && isRunning
      ensures State() == if old(isRunning) then old(State()) else Apply(old(State()), c)
      ensures !old(isRunning) ==> forall w :: w in Everyone() ==>
        (w.hasTask <==> w !in old(Everyone()) || old(w.hasTask) || !old(w.IsRunning()))
      ensures !old(isRunning) ==>
        ((forall w :: w in Everyone() ==> w.hasTask) <==>
         (forall w :: w in Everyone() && w in old(Everyone()) ==> old(w.hasTask) || !old(w.IsRunning())))
    {
      if isRunning {
        return;
      }
      isRunning := true;
      SetAllocation(c, sizes, timeoutsMs);
      StartExisting();
    }
  }

  /** Starts those of the workers that do not report that they run. */
  method StartIdle(ws: seq<PoolWorker>)
    requires NoDup(ws)
    modifies ws`hasTask, ws`stopRequested, ws`stopped
    ensures forall w :: w in ws ==> (w.hasTask <==> old(w.hasTask) || !old(w.IsRunning()))
    ensures forall w :: w in ws && old(w.hasTask) ==> w.IsRunning() == old(w.IsRunning())
    ensures (forall w :: w in ws ==> w.hasTask) <==> forall w :: w in ws ==> old(w.hasTask) || !old(w.IsRunning())
  {
    for i := 0 to |ws|
      invariant forall j :: 0 <= j < i ==> (ws[j].hasTask <==> old(ws[j].hasTask) || !old(ws[j].IsRunning()))
      invariant forall j :: 0 <= j < i && old(ws[j].hasTask) ==> ws[j].IsRunning() == old(ws[j].IsRunning())
      invariant forall j :: i <= j < |ws| ==> ws[j].hasTask == old(ws[j].hasTask)
      invariant forall j :: i <= j < |ws| ==> ws[j].IsRunning() == old(ws[j].IsRunning())
    {
      if !ws[i].IsRunning() {
        ws[i].Start();
      }
    }
  }

  /** Stopped, with no task left. */
  predicate Retired(w: PoolWorker)
    reads w
  {
    w.stopped && !w.hasTask
  }

  function SizeFor(sizes: map<Priority, int>, p: Priority): int {
    if p in sizes then sizes[p] else 50
  }

  function TimeoutFor(timeoutsMs: map<Priority, real>, p: Priority): real {
    if p in timeoutsMs then timeoutsMs[p] else 100.0
  }
}
