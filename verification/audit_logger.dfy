/** The audit logger: a queue of records and flush sentinels, one batching worker,
    and the drain that empties what is left. */
module Audit {

  datatype Record = Record(eventId: string, eventType: string, priority: string, ruleId: string,
                           score: real, evaluatedAt: real, createdAt: real)

  /** A flusher's future. `mark` is how many records had been logged when it was requested. */
  datatype Future = Future(id: nat, mark: nat)

  datatype Item = Row(record: Record) | Flush(future: Future)

  function Records(q: seq<Item>): seq<Record> {
    if q == [] then []
    else Records(q[..|q| - 1]) + if q[|q| - 1].Row? then [q[|q| - 1].record] else []
  }

  function Futures(q: seq<Item>): seq<Future> {
    if q == [] then []
    else Futures(q[..|q| - 1]) + if q[|q| - 1].Flush? then [q[|q| - 1].future] else []
  }

  lemma {:induction false} ItemsConcat(a: seq<Item>, b: seq<Item>)
    ensures Records(a + b) == Records(a) + Records(b)
    ensures Futures(a + b) == Futures(a) + Futures(b)
  {
    if b == [] {
      assert a + b == a;
    } else {
      assert (a + b)[..|a + b| - 1] == a + b[..|b| - 1];
      ItemsConcat(a, b[..|b| - 1]);
    }
  }

  lemma OneItem(item: Item)
    ensures Records([item]) == if item.Row? then [item.record] else []
    ensures Futures([item]) == if item.Flush? then [item.future] else []
  {
    assert [item][..0] == [];
  }

  /** Taking the head of the queue takes its record or its future, and nothing else. */
  lemma ItemsHead(q: seq<Item>)
    requires q != []
    ensures Records(q) == (if q[0].Row? then [q[0].record] else []) + Records(q[1..])
    ensures Futures(q) == (if q[0].Flush? then [q[0].future] else []) + Futures(q[1..])
  {
    assert q == [q[0]] + q[1..];
    ItemsConcat([q[0]], q[1..]);
    OneItem(q[0]);
  }

  lemma Assoc<T>(a: seq<T>, b: seq<T>, c: seq<T>)
    ensures (a + b) + c == a + (b + c)
  {
  }

  /** First in, first out: exactly the records logged before a flush was requested precede
      its sentinel, `done` of them having left the queue already. */
  ghost predicate Marked(q: seq<Item>, done: nat) {
    forall i :: 0 <= i < |q| && q[i].Flush? ==> q[i].future.mark == done + |Records(q[..i])|
  }

  lemma MarkedTail(q: seq<Item>, done: nat)
    requires q != [] && Marked(q, done)
    ensures Marked(q[1..], done + if q[0].Row? then 1 else 0)
    ensures q[0].Flush? ==> q[0].future.mark == done
  {
    var t := q[1..];
    forall i | 0 <= i < |t| && t[i].Flush?
      ensures t[i].future.mark == done + (if q[0].Row? then 1 else 0) + |Records(t[..i])|
    {
      assert q[i + 1] == t[i];
      ItemsHead(q[..i + 1]);
      assert q[..i + 1][1..] == t[..i];
    }
    assert q[..0] == [];
  }

  lemma MarkedSnoc(q: seq<Item>, item: Item, done: nat)
    requires Marked(q, done)
    requires item.Flush? ==> item.future.mark == done + |Records(q)|
    ensures Marked(q + [item], done)
  {
    var r := q + [item];
    forall i | 0 <= i < |r| && r[i].Flush?
      ensures r[i].future.mark == done + |Records(r[..i])|
    {
      assert r[..i] == q[..i];
      assert q[..|q|] == q;
    }
  }

  /** What taking the head does to the queue's contribution to the invariant. */
  lemma HeadMoves(q: seq<Item>, batch: seq<Record>, done: nat)
    requires q != [] && Marked(q, done)
    ensures Marked(q[1..], done + if q[0].Row? then 1 else 0)
    ensures q[0].Row? ==> batch + Records(q) == (batch + [q[0].record]) + Records(q[1..])
    ensures q[0].Row? ==> [] + Futures(q) == [] + Futures(q[1..])
    ensures q[0].Flush? ==> batch + Records(q) == batch + Records(q[1..]) && q[0].future.mark == done
    ensures q[0].Flush? ==> [] + Futures(q) == [q[0].future] + Futures(q[1..])
  {
    ItemsHead(q);
    MarkedTail(q, done);
    if q[0].Row? {
      Assoc(batch, [q[0].record], Records(q[1..]));
      assert [] + Futures(q[1..]) == Futures(q[1..]);
    } else {
      assert [] + Records(q[1..]) == Records(q[1..]);
      assert [] + ([q[0].future] + Futures(q[1..])) == [q[0].future] + Futures(q[1..]);
    }
  }

  lemma RowArrives(persisted: seq<Record>, batch: seq<Record>, q: seq<Item>, r: Record)
    ensures persisted + (batch + Records(q + [Row(r)])) == (persisted + (batch + Records(q))) + [r]
    ensures Futures(q + [Row(r)]) == Futures(q)
  {
    ItemsConcat(q, [Row(r)]);
    OneItem(Row(r));
    Assoc(batch, Records(q), [r]);
    Assoc(persisted, batch + Records(q), [r]);
  }

  lemma FlushArrives(resolved: seq<Future>, held: seq<Future>, q: seq<Item>, f: Future)
    ensures resolved + (held + Futures(q + [Flush(f)])) == (resolved + (held + Futures(q))) + [f]
    ensures Records(q + [Flush(f)]) == Records(q)
  {
    ItemsConcat(q, [Flush(f)]);
    OneItem(Flush(f));
    Assoc(held, Futures(q), [f]);
    Assoc(resolved, held + Futures(q), [f]);
  }

  /** Moving the middle part to the front leaves nothing in the middle. */
  lemma MiddleMoves<T>(a: seq<T>, b: seq<T>, c: seq<T>)
    ensures a + (b + c) == (a + b) + ([] + c)
  {
    Assoc(a, b, c);
    assert [] + c == c;
  }

  /** What an observer has seen so far. `atStop` and `flushesAtStop` are what had been logged
      and requested when the stop was requested, if it has been, and `doneAtStop` how many
      futures had been completed by then. */
  datatype Seen = Seen(logged: seq<Record>, requested: seq<Future>, persisted: seq<Record>, resolved: seq<Future>,
                       stopped: bool, atStop: seq<Record>, flushesAtStop: seq<Future>, doneAtStop: nat)

  /** `b` is a later sight of what `a` was: everything only grows, and the stop comes once,
      at a moment that has seen all of `a`. */
  predicate Follows(a: Seen, b: Seen) {
    && a.logged <= b.logged && a.requested <= b.requested
    && a.persisted <= b.persisted && a.resolved <= b.resolved
    && (a.stopped ==> b.stopped && b.atStop == a.atStop && b.flushesAtStop == a.flushesAtStop
                      && b.doneAtStop == a.doneAtStop)
    && (!a.stopped && b.stopped ==> a.logged <= b.atStop <= b.logged && a.requested <= b.flushesAtStop <= b.requested
                                    && |a.resolved| <= b.doneAtStop <= |b.resolved|)
  }

  /** Between the two sights the item took effect: its record is the next row on disk, or its
      future the next one completed. */
  predicate Served(item: Item, a: Seen, b: Seen) {
    match item
    case Row(r) => a.persisted + [r] <= b.persisted
    case Flush(f) => a.resolved + [f] <= b.resolved
  }

  lemma FollowsTransitive(a: Seen, b: Seen, c: Seen)
    requires Follows(a, b) && Follows(b, c)
    ensures Follows(a, c)
  {
  }

  function Total(sizes: seq<nat>): nat {
    if sizes == [] then 0 else Total(sizes[..|sizes| - 1]) + sizes[|sizes| - 1]
  }

  /** Between `a` and `b` only batches of one to `most` records were written. */
  predicate WritesFit(a: seq<nat>, b: seq<nat>, most: nat) {
    a <= b && forall k :: |a| <= k < |b| ==> 0 < b[k] <= most
  }

  class AuditLogger {
    const batchSize: nat
    var queue: seq<Item>
    /** The rows of `decision_audit_logs`, in insertion order. */
    var persisted: seq<Record>
    var flushedCount: nat
    var batchesCount: nat
    /** The futures completed so far. */
    var resolved: seq<Future>
    var stopRequested: bool
    /** How many more awaits pass before another task requests the stop, at the latest. */
    var patience: nat
    /** History: every record ever logged, in order. */
    var logged: seq<Record>
    ghost var requested: seq<Future>
    /** How many rows were on disk at the moment each future was completed. */
    ghost var durable: seq<nat>
    /** The size of every batch written. */
    ghost var writes: seq<nat>
    /** What had been logged, which flushes requested and how many futures completed when the
        stop was requested. */
    ghost var loggedAtStop: seq<Record>
    ghost var requestedAtStop: seq<Future>
    ghost var resolvedAtStop: nat

    ghost function Sight(): Seen
      reads this
    {
      Seen(logged, requested, persisted, resolved, stopRequested, loggedAtStop, requestedAtStop, resolvedAtStop)
    }

    /** What holds at every await of the coroutine whose unwritten records are `batch` and which
        has taken, but not yet completed, the futures `held`. */
    ghost predicate Inv(batch: seq<Record>, held: seq<Future>)
      reads this
    {
      && batchSize >= 1
      && logged == persisted + (batch + Records(queue))
      && requested == resolved + (held + Futures(queue))
      && (forall k :: 0 <= k < |held| ==> held[k].mark == |persisted| + |batch|)
      && Marked(queue, |persisted| + |batch|)
      && flushedCount == |persisted|
      && |durable| == |resolved|
      && batchesCount == |writes| && Total(writes) == |persisted|
    }

    constructor (batchSize: int, patience: nat)
      ensures Inv([], []) && this.batchSize == if batchSize < 1 then 1 else batchSize
      ensures queue == [] && persisted == [] && logged == [] && resolved == [] && !stopRequested
    {
      this.batchSize := if batchSize < 1 then 1 else batchSize;
      this.patience := patience;
      queue, persisted, logged, resolved, requested := [], [], [], [], [];
      flushedCount, batchesCount, stopRequested := 0, 0, false;
      durable, writes := [], [];
      loggedAtStop, requestedAtStop, resolvedAtStop := [], [], 0;
    }

    method Log(r: Record, ghost batch: seq<Record>, ghost held: seq<Future>)
      requires Inv(batch, held)
      modifies `queue, `logged
      ensures Inv(batch, held) && queue == old(queue) + [Row(r)] && logged == old(logged) + [r]
      ensures Follows(old(Sight()), Sight())
    {
      RowArrives(persisted, batch, queue, r);
      MarkedSnoc(queue, Row(r), |persisted| + |batch|);
      queue := queue + [Row(r)];
      logged := logged + [r];
    }

    /** The first half of `flush`: the caller then awaits the future. */
    method RequestFlush(id: nat, ghost batch: seq<Record>, ghost held: seq<Future>)
      requires Inv(batch, held)
      modifies `queue, `requested
      ensures Inv(batch, held) && queue == old(queue) + [Flush(Future(id, |logged|))]
      ensures requested == old(requested) + [Future(id, |logged|)]
      ensures Follows(old(Sight()), Sight())
    {
      var item := Flush(Future(id, |logged|));
      FlushArrives(resolved, held, queue, item.future);
      MarkedSnoc(queue, item, |persisted| + |batch|);
      queue := queue + [item];
      requested := requested + [item.future];
    }

    method RequestStop()
      modifies `stopRequested, `loggedAtStop, `requestedAtStop, `resolvedAtStop
      ensures stopRequested
      ensures old(stopRequested) ==> Sight() == old(Sight())
      ensures Follows(old(Sight()), Sight())
      ensures !old(stopRequested) ==>
        loggedAtStop == logged && requestedAtStop == requested && resolvedAtStop == |resolved|
    {
      if !stopRequested {
        stopRequested := true;
        loggedAtStop, requestedAtStop, resolvedAtStop := logged, requested, |resolved|;
      }
    }

    /** Another coroutine's turn: a record is logged, a flush requested, or the stop. */
    method OthersTurn(ghost batch: seq<Record>, ghost held: seq<Future>)
      requires Inv(batch, held)
      modifies `queue, `logged, `requested, `stopRequested, `loggedAtStop, `requestedAtStop, `resolvedAtStop
      ensures Inv(batch, held) && Follows(old(Sight()), Sight()) && old(queue) <= queue
    {
      if {
        case true =>
          var r: Record := *;
          Log(r, batch, held);
        case true =>
          var id: nat := *;
          RequestFlush(id, batch, held);
        case true =>
          RequestStop();
      }
    }

    /** An await: any number of other turns, and no more awaits than `patience` without a stop. */
    method Await(ghost batch: seq<Record>, ghost held: seq<Future>)
      requires Inv(batch, held)
      modifies `queue, `logged, `requested, `stopRequested, `patience, `loggedAtStop, `requestedAtStop, `resolvedAtStop
      ensures Inv(batch, held) && Follows(old(Sight()), Sight()) && old(queue) <= queue
      ensures stopRequested || patience < old(patience)
    {
      var turns: nat := *;
      while turns > 0
        modifies `queue, `logged, `requested, `stopRequested, `loggedAtStop, `requestedAtStop, `resolvedAtStop
        invariant Inv(batch, held) && Follows(old(Sight()), Sight()) && old(queue) <= queue
      {
        ghost var before := Sight();
        OthersTurn(batch, held);
        FollowsTransitive(old(Sight()), before, Sight());
        turns := turns - 1;
      }
      if patience == 0 {
        ghost var before := Sight();
        RequestStop();
        FollowsTransitive(old(Sight()), before, Sight());
      } else {
        patience := patience - 1;
      }
    }

    /** `queue.get()`: the coroutine holding `batch` receives the head of the queue. A sentinel
        comes out only when everything logged before it is written or in `batch`. */
    method Take(ghost batch: seq<Record>) returns (item: Item)
      requires Inv(batch, []) && queue != []
      modifies `queue
      ensures item == old(queue)[0] && queue == old(queue)[1..]
      ensures item.Row? ==> Inv(batch + [item.record], [])
      ensures item.Flush? ==> Inv(batch, [item.future])
    {
      HeadMoves(queue, batch, |persisted| + |batch|);
      item := queue[0];
      queue := queue[1..];
    }

    /** The same with nothing in hand: a record taken is the whole of what is unwritten. */
    method TakeFirst() returns (item: Item)
      requires Inv([], []) && queue != []
      modifies `queue
      ensures item == old(queue)[0]
      ensures item.Row? ==> Inv([item.record], [])
      ensures item.Flush? ==> Inv([], [item.future])
    {
      item := Take([]);
      if item.Row? {
        assert [] + [item.record] == [item.record];
      }
    }

    /** Completes a future that was taken from the queue. */
    method Resolve(f: Future, ghost batch: seq<Record>)
      requires Inv(batch, [f])
      modifies `resolved, `durable
      ensures Inv(batch, []) && resolved == old(resolved) + [f]
      ensures durable == old(durable) + [|persisted|] && f.mark == |persisted| + |batch|
    {
      MiddleMoves(resolved, [f], Futures(queue));
      resolved := resolved + [f];
      durable := durable + [|persisted|];
      assert [f][0].mark == |persisted| + |batch|;
    }

    /** The rows are committed and counted. */
    method Commit(batch: seq<Record>, ghost held: seq<Future>)
      requires Inv(batch, held) && batch != []
      modifies `persisted, `flushedCount, `batchesCount, `writes
      ensures Inv([], held) && persisted == old(persisted) + batch && batchesCount == old(batchesCount) + 1
      ensures Follows(old(Sight()), Sight())
      ensures writes == old(writes) + [|batch|]
    {
      assert (writes + [|batch|])[..|writes|] == writes;
      MiddleMoves(persisted, batch, Records(queue));
      persisted := persisted + batch;
      flushedCount := flushedCount + |batch|;
      batchesCount := batchesCount + 1;
      writes := writes + [|batch|];
    }

    /** Other tasks only append to the queue, so it does not matter when during the await
        the writer thread commits. */
    method FlushBatch(batch: seq<Record>, ghost held: seq<Future>)
      requires Inv(batch, held)
      modifies `queue, `logged, `requested, `stopRequested, `patience, `loggedAtStop, `requestedAtStop, `resolvedAtStop
      modifies `persisted, `flushedCount, `batchesCount, `writes
      ensures Inv([], held) && persisted == old(persisted) + batch
      ensures batchesCount == old(batchesCount) + if batch == [] then 0 else 1
      ensures Follows(old(Sight()), Sight())
      ensures stopRequested || patience <= old(patience)
      ensures writes == old(writes) + if batch == [] then [] else [|batch|]
    {
      if |batch| == 0 {
        return;
      }
      Await(batch, held);
      ghost var awaited := Sight();
      Commit(batch, held);
      FollowsTransitive(old(Sight()), awaited, Sight());
    }

    /** From the `from`-th completion on, every future was completed exactly when the records
        logged before its request, and no others, were on disk. */
    ghost predicate HonestFrom(from: nat)
      reads this
    {
      |durable| == |resolved| && forall k :: from <= k < |resolved| ==> resolved[k].mark == durable[k]
    }

    /** A wait for one more item, which may time out. */
    method Next(ghost batch: seq<Record>) returns (item: seq<Item>)
      requires Inv(batch, [])
      modifies `queue, `logged, `requested, `stopRequested, `patience, `loggedAtStop, `requestedAtStop, `resolvedAtStop
      ensures |item| <= 1
      ensures item == [] ==> Inv(batch, [])
      ensures item != [] && item[0].Row? ==> Inv(batch + [item[0].record], [])
      ensures item != [] && item[0].Flush? ==> Inv(batch, [item[0].future])
      ensures Follows(old(Sight()), Sight())
      ensures stopRequested || patience <= old(patience)
    {
      Await(batch, []);
      var timedOut: bool := *;
      if timedOut || |queue| == 0 {
        return [];
      }
      ghost var awaited := Sight();
      var next := Take(batch);
      assert Sight() == awaited;
      return [next];
    }

    /** The gathering loop, up to a full batch, a timeout, a stop or a sentinel. */
    method Collect(first: Record) returns (batch: seq<Record>, sentinel: seq<Future>)
      requires Inv([first], [])
      modifies `queue, `logged, `requested, `stopRequested, `patience, `loggedAtStop, `requestedAtStop, `resolvedAtStop
      ensures Inv(batch, sentinel) && [first] <= batch && |batch| <= batchSize && |sentinel| <= 1
      ensures Follows(old(Sight()), Sight())
      ensures stopRequested || patience <= old(patience)
    {
      batch, sentinel := [first], [];
      while |batch| < batchSize && !stopRequested
        invariant Inv(batch, []) && [first] <= batch && |batch| <= batchSize && sentinel == []
        invariant Follows(old(Sight()), Sight())
        invariant stopRequested || patience <= old(patience)
        decreases batchSize - |batch|
      {
        var timeLeft: bool := *;
        if !timeLeft {
          break;
        }
        ghost var before := Sight();
        var next := Next(batch);
        FollowsTransitive(old(Sight()), before, Sight());
        if |next| == 0 {
          break;
        }
        if next[0].Flush? {
          sentinel := [next[0].future];
          return;
        }
        batch := batch + [next[0].record];
      }
    }

    /** What the worker does at a sentinel met mid-batch: it writes what it has, and only then
        completes the future. */
    method FlushAt(batch: seq<Record>, f: Future, ghost from: nat)
      requires Inv(batch, [f]) && 0 < |batch| <= batchSize && HonestFrom(from)
      modifies this
      ensures Inv([], []) && HonestFrom(from) && persisted == old(persisted) + batch
      ensures WritesFit(old(writes), writes, batchSize)
      ensures Follows(old(Sight()), Sight())
      ensures stopRequested || patience <= old(patience)
    {
      FlushBatch(batch, [f]);
      Resolve(f, []);
    }

    /** Gathers a batch from its first record, flushing at a sentinel. The result is what is
        still unwritten; the first record is written or heads it. */
    method Gather(first: Record, ghost from: nat) returns (batch: seq<Record>)
      requires Inv([first], []) && HonestFrom(from)
      modifies this
      ensures Inv(batch, []) && |batch| <= batchSize && HonestFrom(from)
      ensures WritesFit(old(writes), writes, batchSize)
      ensures old(persisted) + [first] <= persisted + batch
      ensures Follows(old(Sight()), Sight())
      ensures stopRequested || patience <= old(patience)
    {
      var sentinel;
      batch, sentinel := Collect(first);
      if |sentinel| == 1 {
        assert sentinel == [sentinel[0]];
        ghost var collected := Sight();
        FlushAt(batch, sentinel[0], from);
        FollowsTransitive(old(Sight()), collected, Sight());
        batch := [];
      }
    }

    /** What the worker does with the item that ended its wait: a record reaches the table and
        a sentinel's future completes. */
    method Serve(item: Item, ghost from: nat)
      requires item.Row? ==> Inv([item.record], [])
      requires item.Flush? ==> Inv([], [item.future])
      requires HonestFrom(from)
      modifies this
      ensures Inv([], []) && HonestFrom(from)
      ensures Served(item, old(Sight()), Sight()) && WritesFit(old(writes), writes, batchSize)
      ensures Follows(old(Sight()), Sight())
      ensures stopRequested || patience <= old(patience)
    {
      if item.Flush? {
        Resolve(item.future, []);
        return;
      }
      var batch := Gather(item.record, from);
      ghost var gathered := Sight();
      FlushBatch(batch, []);
      FollowsTransitive(old(Sight()), gathered, Sight());
    }

    /** One turn of the worker's outer loop, whose wait may time out: otherwise the head of the
        queue, if there is one, is served. */
    method Round(timedOut: bool, ghost from: nat)
      requires Inv([], []) && HonestFrom(from)
      modifies this
      ensures Inv([], []) && HonestFrom(from)
      ensures !timedOut && old(queue) != [] ==> Served(old(queue)[0], old(Sight()), Sight())
      ensures WritesFit(old(writes), writes, batchSize)
      ensures Follows(old(Sight()), Sight())
      ensures stopRequested || patience < old(patience)
    {
      Await([], []);
      if timedOut || |queue| == 0 {
        return;
      }
      ghost var awaited := Sight();
      var item := TakeFirst();
      Serve(item, from);
      FollowsTransitive(old(Sight()), awaited, Sight());
    }

    /** The worker coroutine, from start to stop. When it ends, everything that had been logged
        when the stop was requested is on disk, in order, and every flush requested by then is
        completed. The batch is empty at every head of the outer loop, so the source's flush
        of a partial batch on an idle timeout never has anything to write. `byWorker` counts
        the futures completed before the final drain, all those completed before the stop was
        requested among them: each was completed when exactly the records logged before its
        request were on disk. */
    method WorkerLoop() returns (ghost byWorker: nat)
      requires Inv([], [])
      requires stopRequested ==>
        loggedAtStop <= logged && requestedAtStop <= requested && resolvedAtStop <= |resolved|
      modifies this
      ensures Inv([], []) && stopRequested
      ensures loggedAtStop <= persisted && requestedAtStop <= resolved
      ensures old(logged) <= persisted && old(requested) <= resolved
      ensures !old(stopRequested) ==> old(logged) <= loggedAtStop && old(requested) <= requestedAtStop
      ensures old(stopRequested) ==> loggedAtStop == old(loggedAtStop) && requestedAtStop == old(requestedAtStop)
      ensures |old(resolved)| <= byWorker <= |resolved| == |durable| && resolvedAtStop <= byWorker
      ensures !old(stopRequested) ==> |old(resolved)| <= resolvedAtStop
      ensures forall k :: |old(resolved)| <= k < byWorker ==> resolved[k].mark == durable[k]
      ensures old(writes) <= writes && forall k :: |old(writes)| <= k < |writes| - 1 ==> 0 < writes[k] <= batchSize
    {
      ghost var from := |resolved|;
      while !stopRequested
        invariant Inv([], []) && HonestFrom(from) && Follows(old(Sight()), Sight())
        invariant WritesFit(old(writes), writes, batchSize)
        invariant stopRequested ==>
          loggedAtStop <= logged && requestedAtStop <= requested && resolvedAtStop <= |resolved|
        decreases if stopRequested then 0 else patience + 1
      {
        ghost var before := Sight();
        var timedOut: bool := *;
        Round(timedOut, from);
        FollowsTransitive(old(Sight()), before, Sight());
      }
      byWorker := |resolved|;
      DrainRemaining();
    }

    /** The drain's loop, up to its write: sentinels are completed as they are met. */
    method EmptyQueue() returns (drained: seq<Record>)
      requires Inv([], [])
      modifies `queue, `resolved, `durable
      ensures Inv(drained, []) && queue == [] && old(resolved) <= resolved
      ensures |old(durable)| <= |durable| && durable[..|old(durable)|] == old(durable)
      ensures forall k :: |old(durable)| <= k < |durable| ==> durable[k] == |persisted|
    {
      drained := [];
      while |queue| > 0
        invariant Inv(drained, []) && old(resolved) <= resolved
        invariant |old(durable)| <= |durable| && durable[..|old(durable)|] == old(durable)
        invariant forall k :: |old(durable)| <= k < |durable| ==> durable[k] == |persisted|
        decreases |queue|
      {
        var item := Take(drained);
        if item.Flush? {
          Resolve(item.future, drained);
        } else {
          drained := drained + [item.record];
        }
      }
    }

    /** Empties the queue in one step, completing sentinels as they are met, and writes the
        records only afterwards: the futures completed here see only the rows that were on
        disk before, so each is honest exactly when no record precedes it in the queue. */
    method DrainRemaining()
      requires Inv([], [])
      modifies `queue, `logged, `requested, `stopRequested, `patience, `resolved, `durable
      modifies `persisted, `flushedCount, `batchesCount, `writes, `loggedAtStop, `requestedAtStop, `resolvedAtStop
      ensures Inv([], []) && Follows(old(Sight()), Sight())
      ensures persisted == old(logged) && resolved == old(requested) && old(resolved) <= resolved
      ensures old(writes) <= writes && |writes| <= |old(writes)| + 1
      ensures |old(durable)| <= |durable| && durable[..|old(durable)|] == old(durable)
      ensures forall k :: |old(durable)| <= k < |durable| ==> durable[k] == |old(persisted)|
    {
      var drained := EmptyQueue();
      assert drained + [] == drained;
      assert [] + Futures(queue) == [];
      assert resolved + [] == resolved;
      assert persisted + drained == old(logged);
      FlushBatch(drained, []);
    }
  }
}
