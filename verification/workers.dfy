/** The batch worker's run loop and the event processor, cut at their awaits: each method
    is the code between two suspension points and performs one step of `Delivery`. */
module Workers {
  import opened Contracts
  import opened Lanes
  import opened InFlight
  import opened Consumer
  import Delivery

  /** The `processed_events` table under its primary key. */
  class Repository {
    var rows: map<EventId, Event>

    constructor ()
      ensures rows == map[]
    {
      rows := map[];
    }

    /** Bulk `INSERT OR REPLACE`: a later record of a batch replaces an earlier one. */
    method InsertEventsBatch(records: seq<Event>)
      modifies this
      ensures rows == Delivery.Upsert(old(rows), records)
    {
      for i := 0 to |records|
        invariant rows == Delivery.Upsert(old(rows), records[..i])
      {
        assert records[..i + 1][..i] == records[..i];
        rows := rows[records[i].id := EnsurePriority(records[i])];
      }
      assert records[..|records|] == records;
    }
  }

  lemma {:induction false} UpsertHolds(rows: map<EventId, Event>, records: seq<Event>)
    ensures forall i :: 0 <= i < |records| ==> records[i].id in Delivery.Upsert(rows, records)
    ensures rows.Keys <= Delivery.Upsert(rows, records).Keys
  {
    if records != [] {
      UpsertHolds(rows, records[..|records| - 1]);
    }
  }

  /** What a dequeue does to the parts of the state that its worker sees. */
  lemma DequeueLocally(s: Delivery.State, w: nat, n: nat, buffer: seq<Event>)
    requires w < |s.workers| && s.workers[w] == Delivery.Worker(s.workers[w].lane, n, Delivery.Collecting(buffer))
    requires Delivery.CanDequeue(s, w)
    ensures var s', q := Delivery.DoDequeue(s, w), Delivery.Lane(s, s.workers[w].lane);
      && |s'.workers| == |s.workers| && s'.tracker == s.tracker && s'.store == s.store
      && s'.workers[w] == Delivery.Worker(s.workers[w].lane, n, Delivery.Collecting(buffer + [q[0]]))
      && Delivery.Lane(s', s.workers[w].lane) == q[1..]
  {
  }

  datatype WorkerState = Idle | Busy

  class BatchWorker {
    const lane: Priority
    const queue: LaneQueue
    const tracker: InFlightTracker
    const repository: Repository
    var batchSize: nat
    var batch: seq<Event>
    var state: WorkerState
    /** Whether the repository has committed the batch being processed. */
    var stored: bool
    var eventsProcessed: nat
    var batchesProcessed: nat
    var errorsCount: nat

    /** A batch that counts as stored is in the table, event by event. */
    ghost predicate Valid()
      reads this, queue, tracker, tracker.criticalQueue, repository
    {
      && queue.Valid() && tracker.Valid()
      && batchSize >= 1
      && (state == Busy && stored ==> forall i :: 0 <= i < |batch| ==> batch[i].id in repository.rows)
    }

    /** Where the worker stands in the delivery protocol. */
    ghost function Phase(): Delivery.Phase
      reads this
    {
      if state == Idle then Delivery.Collecting(batch) else Delivery.Processing(batch, stored)
    }

    /** The objects around this worker are what the state `s` says of its worker `w`. */
    ghost predicate Shows(s: Delivery.State, w: nat)
      reads this, queue, tracker, repository
    {
      && w < |s.workers| && s.workers[w] == Delivery.Worker(lane, batchSize, Phase())
      && Delivery.Lane(s, lane) == queue.items
      && s.tracker == tracker.State() && s.store == repository.rows
    }

    constructor (lane: Priority, queue: LaneQueue, tracker: InFlightTracker, repository: Repository, batchSize: int)
      requires queue.Valid() && tracker.Valid()
      ensures Valid() && this.lane == lane
      ensures this.queue == queue && this.tracker == tracker && this.repository == repository
      ensures Phase() == Delivery.Collecting([]) && this.batchSize == if batchSize < 1 then 1 else batchSize
      ensures eventsProcessed == batchesProcessed == errorsCount == 0
    {
      this.lane, this.queue, this.tracker, this.repository := lane, queue, tracker, repository;
      this.batchSize := if batchSize < 1 then 1 else batchSize;
      batch, state, stored := [], Idle, false;
      eventsProcessed, batchesProcessed, errorsCount := 0, 0, 0;
    }

    /** One successful `queue.get()` while the batch is being gathered. */
    method CollectNext(ghost s: Delivery.State, ghost w: nat) returns (more: bool)
      requires Valid() && state == Idle
      modifies this, queue
      ensures Valid() && state == Idle && batchSize == old(batchSize)
      ensures more <==> |old(batch)| < batchSize && old(queue.items) != []
      ensures more ==> batch == old(batch) + [old(queue.items)[0]] && queue.items == old(queue.items)[1..]
      ensures !more ==> batch == old(batch) && queue.items == old(queue.items)
      ensures old(Shows(s, w)) ==> more == Delivery.CanDequeue(s, w)
      ensures old(Shows(s, w)) && more ==> Shows(Delivery.DoDequeue(s, w), w)
    {
      if |batch| >= batchSize {
        return false;
      }
      ghost var shown := Shows(s, w);
      var e := queue.DequeueNowait();
      if e == None {
        return false;
      }
      if shown {
        DequeueLocally(s, w, batchSize, batch);
      }
      batch := batch + [e.value];
      return true;
    }

    method TrackBatch(now: real)
      requires tracker.Valid()
      modifies tracker
      ensures tracker.Valid() && tracker.State() == TrackAll(old(tracker.State()), batch, now)
    {
      for i := 0 to |batch|
        invariant tracker.Valid() && tracker.State() == TrackAll(old(tracker.State()), batch[..i], now)
      {
        assert batch[..i + 1][..i] == batch[..i];
        tracker.Track(batch[i], now);
      }
      assert batch[..|batch|] == batch;
    }

    method AckBatch()
      requires tracker.Valid()
      modifies tracker
      ensures tracker.Valid() && tracker.State() == AckAll(old(tracker.State()), batch)
    {
      for i := 0 to |batch|
        invariant tracker.Valid() && tracker.State() == AckAll(old(tracker.State()), batch[..i])
      {
        assert batch[..i + 1][..i] == batch[..i];
        var _ := tracker.Ack(batch[i].id);
      }
      assert batch[..|batch|] == batch;
    }

    /** Every event of the batch is tracked before processing starts. */
    method BeginProcessing(now: real, ghost s: Delivery.State, ghost w: nat)
      requires Valid() && state == Idle && batch != []
      modifies this, tracker
      ensures Valid() && state == Busy && !stored && batch == old(batch) && batchSize == old(batchSize)
      ensures tracker.State() == TrackAll(old(tracker.State()), batch, now)
      ensures old(Shows(s, w)) && s.clock == now ==> Delivery.CanBegin(s, w) && Shows(Delivery.DoBegin(s, w), w)
    {
      TrackBatch(now);
      state, stored := Busy, false;
    }

    /** `process_batch`: the rows are committed before it returns. */
    method ProcessBatch(ghost s: Delivery.State, ghost w: nat)
      requires Valid() && state == Busy && !stored
      modifies `stored, repository
      ensures Valid() && state == Busy && stored
      ensures repository.rows == Delivery.Upsert(old(repository.rows), batch)
      ensures old(Shows(s, w)) ==> Delivery.IsProcessing(s, w, false) && Shows(Delivery.DoCommit(s, w), w)
    {
      UpsertHolds(repository.rows, batch);
      repository.InsertEventsBatch(batch);
      stored := true;
    }

    /** Resumption after a successful `process_batch`: only a stored batch is acknowledged, and
        only then forgotten. */
    method CompleteOk(ghost s: Delivery.State, ghost w: nat)
      requires Valid() && state == Busy && stored
      modifies this, tracker
      ensures Valid() && state == Idle && batch == [] && batchSize == old(batchSize)
      ensures tracker.State() == AckAll(old(tracker.State()), old(batch))
      ensures forall i :: 0 <= i < |old(batch)| ==> old(batch)[i].id in repository.rows
      ensures eventsProcessed == old(eventsProcessed) + |old(batch)|
      ensures batchesProcessed == old(batchesProcessed) + 1 && errorsCount == old(errorsCount)
      ensures old(Shows(s, w)) ==> Delivery.IsProcessing(s, w, true) && Shows(Delivery.DoFinish(s, w), w)
    {
      batchesProcessed := batchesProcessed + 1;
      eventsProcessed := eventsProcessed + |batch|;
      AckBatch();
      state, stored, batch := Idle, false, [];
    }

    /** Resumption with an exception: nothing is acknowledged, so the sweep will recover the batch. */
    method CompleteError(ghost s: Delivery.State, ghost w: nat)
      requires Valid() && state == Busy
      modifies this
      ensures Valid() && state == Idle && batch == [] && batchSize == old(batchSize)
      ensures errorsCount == old(errorsCount) + 1
      ensures eventsProcessed == old(eventsProcessed) && batchesProcessed == old(batchesProcessed)
      ensures old(Shows(s, w)) ==> Delivery.Enabled(s, Delivery.Fail(w)) && Shows(Delivery.Next(s, Delivery.Fail(w)), w)
    {
      errorsCount := errorsCount + 1;
      state, stored, batch := Idle, false, [];
    }
  }
}
