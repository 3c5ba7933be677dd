# PulseFlow, modelled and proved

PulseFlow is an event pipeline with three priority lanes. Workers take events from the lanes,
track them as in flight, process them into a keyed store and acknowledge them; a sweep returns
what was not acknowledged in time to the CRITICAL lane. Around that sit a batching audit log,
a dispatcher that ages BEST_EFFORT events, and several control loops. All of it runs on one
asyncio loop, so the code between two awaits is one step.

The model follows that structure. What an operation does is a function on values; what the
operations promise together is proved about runs of those functions; and the objects that the
source updates in place are classes whose methods are proved against the functions.

| files | subject |
|---|---|
| `contracts.dfy`, `lane_queue.dfy` | events, lanes, the queue of one lane |
| `in_flight.dfy`, `consumer.dfy` | the in-flight map, by value and as an object |
| `delivery.dfy`, `delivery_safety.dfy`, `delivery_loss.dfy`, `delivery_history.dfy`, `delivery_drain.dfy`, `delivery_liveness.dfy`, `workers.dfy` | the delivery protocol as a state machine, its safety, what it can lose, what runs keep of the past, its draining, the worker code between awaits |
| `audit_logger.dfy`, `audit_drain.dfy`, `audit_honesty.dfy`, `audit_settling.dfy` | the audit worker with interference at its awaits, the machine with concurrent drains, when a flush tells the truth, and that the writers finish |
| `aging.dfy`, `dispatcher.dfy` | lazy priority aging |
| `admission.dfy`, `admission_runs.dfy`, `admission_ledger.dfy`, `adaptive_admission.dfy`, `backpressure.dfy` | ingestion under backpressure, with no handler, the default one or the adaptive one |
| `staffing.dfy`, `worker_pool.dfy` | worker reconciliation |
| `autoscaler.dfy`, `batch_sizing.dfy`, `pressure.dfy`, `decision_engine.dfy` | the control loops and the decision engine |
| `telemetry.dfy`, `telemetry_tracker.dfy`, `rate_tracker.dfy`, `latency.dfy`, `rounding.dfy` | sliding windows, rates, percentiles, rounding |
| `benchmarks.dfy`, `benchmark_runs.dfy`, `benchmark_pipelines.dfy`, `workload.dfy` | the benchmark pipelines, by value, over runs and as objects, and the traffic profile |

`dafny verify dfyconfig.toml` checks everything.

Conventions. An await is a point where other tasks may act; methods are cut there, or (in the
audit worker) interference is modelled by a method that lets other tasks run. Times, rates and
averages are `real`; Python's `round` is rounding to nearest, ties to even, over the reals. The
in-flight dictionary is a sequence of entries with distinct keys, in insertion order. The random
draw of the sampler and the time are parameters. A Python exception that a caller can see is a
result (`raised`, `None` or `false`).

Where the code does less than its documentation says, the model follows the code and states
exactly when the promise holds:

- A sweep pops an entry before it adds one to the event's `_retry_count`, which is client data:
  one that is neither absent nor a number makes it raise, and the event is lost
  (`DeliveryLoss.SafeForeverIff`). So does a bounded CRITICAL queue that is full, and there a
  negative acknowledgement too (`InFlight.SweepLosesNothingIff`, `Consumer.InFlightTracker.NackRequeue`).
- The audit drain completes flush futures before it writes the drained records: a completed flush
  is truthful exactly under `AuditHonesty.CompletionIsHonestIff`, one that timed out exactly under
  `AuditHonesty.TimedOutFlushIsHonestIff`; `AuditDrain.FlushCanBeDishonest` is a run in which it is not.
- A BEST_EFFORT head that may not be promoted blocks aging behind it: what pulls serve is exactly
  the eligible prefix (`Aging.EligiblePrefixIsServed`, `Aging.ServedIffAllMayBePromoted`), and what
  is behind a stateful event is never served (`Aging.EverServedIff`).
- The sliding window is right after a prune exactly when no old sample stands behind a younger one
  and the clock has not gone back past a dropped one (`Telemetry.DropOldIsSinceIff`,
  `Telemetry.WindowStaysRightIff`; `Telemetry.OutOfOrderKeepsOld` is a run that fails).
- Ingestion accepts events that are queued nowhere: without an enqueue handler
  (`Admission.AcceptedMeansQueuedIff`), and with the adaptive one, which the application registers,
  where the event is shed or sampled out (`AdaptiveAdmission.AcceptedIsQueuedIff`).
- The watermark bounds the lower lanes only if no lane can be full below it, or their limits
  together fit under it; and, since the adaptive handler goes by type where the gate goes by the
  priority asked for, only if no event asks for CRITICAL against its type
  (`AdmissionRuns.WatermarkBoundsEveryRunIff`). CRITICAL is spared the gate only where the two agree
  (`AdmissionRuns.CriticalIsKeptIff`).
- Starting the pool leaves without a task exactly the workers that were allocated earlier and never
  started, which report that they run (`WorkerPools.WorkerPool.Start`).
- The batch sizer books its return to the floor at low depth as a decrease even when the size
  rises (`BatchSizing.BookedDecreaseLowersIff`, `BatchSizing.SnapCanRaise`).
- The pressure score falls with the processing rate only while ingress is not negative
  (`Pressure.FasterHelpsIff`).

The flush on an idle timeout in the audit worker's outer loop is dead code: its batch is always
empty there.

## Model

| member | source | states |
|---|---|---|
| `DeliverySafety.AcceptedIsNeverLost` | pulseflow/pipeline/consumer.py:75-153 | In every run, over every interleaving of ingestion, dequeues, batch collection, tracking, commits, late acknowledgements, failures, crashes, requeues, sweeps and worker changes, an accepted event has at most one live copy in a lane, a batch buffer or the in-flight map, and a stored row keeps the accepted origin; if the retry note it was accepted with is absent or a number, it always has that copy or is stored |
| `DeliveryLoss.SafeForeverIff` | pulseflow/pipeline/consumer.py:131-146 | From every reachable state, an accepted event survives whatever happens next if and only if it is already stored or the retry note it was accepted with is absent or a number |
| `DeliveryLoss.StepLosesIff` | pulseflow/pipeline/consumer.py:131-139 | A single step loses an event if and only if it is a sweep that raises at its retry note while it is not stored |
| `DeliveryLoss.SomeRunLoses` | pulseflow/pipeline/consumer.py:131-139 | Wherever an unstored event with any other retry note is, some continuation loses it |
| `DeliverySafety.RunKeepsInv` | pulseflow/pipeline/workers/batch_worker.py:39-100 | The whole invariant (genuine copies, at most one live copy, nothing lost whose retry note counts, ledger, ages) survives any legal run |
| `DeliverySafety.InitialInv` | pulseflow/pipeline/consumer.py:32-51 | The empty system satisfies the invariant |
| `DeliverySafety.StepSingleToken` | pulseflow/pipeline/consumer.py:75-79 | No step, stale workers included, makes a second live copy of an event, so tracking never overwrites an entry |
| `DeliverySafety.CountersBalance` | pulseflow/pipeline/consumer.py:75-146 | In every reachable state tracked = acknowledged + recovered + in flight, and in-flight keys are distinct |
| `DeliverySafety.BoundedAge` | pulseflow/pipeline/consumer.py:174-185 | With completed sweeps at most delta apart no in-flight entry is ever older than the timeout plus delta |
| `DeliverySafety.AckIsSafeIffStored` | pulseflow/pipeline/consumer.py:81-90 | An acknowledgement from anywhere loses nothing if and only if it names nothing in flight or an event already stored |
| `DeliveryHistory.LanesAreFifo` | pulseflow/pipeline/consumer.py:92-146 | Over every run, what the workers took from a lane followed by what it holds is what it held followed by what entered it: ingested events on the lane they ask for, negatively acknowledged and recovered ones on CRITICAL |
| `DeliveryHistory.RetriesCountRecoveries` | pulseflow/pipeline/consumer.py:138-141 | In every run the retry note of an event's live copy is the note it was accepted with plus the number of sweeps that put it back |
| `DeliveryHistory.SweepRequeuesIffLate` | pulseflow/pipeline/consumer.py:126-146 | A sweep puts back only events in flight for longer than the timeout, and all of them if nothing stops it |
| `DeliveryHistory.BegunIsGivenTheTimeout` | pulseflow/pipeline/consumer.py:75-79 | Whatever happens to it meanwhile, an event is not recovered before the timeout has passed since a worker began it |
| `DeliveryHistory.BatchesFit` | pulseflow/pipeline/workers/batch_worker.py:63-79 | No worker ever holds more than its batch size or processes an empty batch |
| `DeliveryHistory.LastRecordWins` | pulseflow/pipeline/storage/repository.py:54-79 | The last record of a batch under an identifier is the row, on the lane it asks for and otherwise as recorded |
| `DeliveryHistory.RowsAreCommitted` | pulseflow/pipeline/storage/repository.py:54-79 | Over every run a row is in the store if and only if it was there or some worker committed a batch with its event |
| `DeliveryHistory.PhaseCycle` | pulseflow/pipeline/workers/batch_worker.py:39-100 | A worker starts on exactly what it collected, keeps that batch until it finishes or fails, and stops for good when it crashes or is retired; a step moves only the worker it names |
| `DeliveryHistory.WorkersKeepTheirPosts` | pulseflow/pipeline/workers/batch_worker.py:36-37 | Workers keep their lane and batch size, and a new one is idle on the lane it was made for |
| `DeliveryHistory.StepTouchesOnly` | pulseflow/pipeline/consumer.py:75-153 | Only commits change the store, only ingestion the accepted events, only tracking, acknowledging, requeueing and sweeps the tracker |
| `DeliverySafety.TokensAccepted` | pulseflow/pipeline/processing/event_processor.py:27-57 | Every live copy anywhere belongs to an accepted event: the workers invent none |
| `Contracts.ClassifiedBy` | pulseflow/contracts/priorities.py:30-49 | Orders and payments are CRITICAL, carts and inventory NORMAL, everything else BEST_EFFORT |
| `Contracts.EnsuredIsAsked` | pulseflow/contracts/events.py:41-45 | Ensuring a priority keeps the one that is set, sets the type's own otherwise, and changes nothing else |
| `Delivery.StepTokens` | pulseflow/pipeline/workers/stream_worker.py:30-61 | How each step changes the number of live copies of each event, exactly: only an acknowledgement and a sweep that raises take one away |
| `Delivery.EnvironmentIsFree` | pulseflow/pipeline/consumer.py:75-153 | In every state clients, the clock, the monitor and the pool may act, anything in flight may be negatively acknowledged, and a worker may fail or crash at any moment of its processing |
| `DeliveryDrain.DrainingIsBounded` | pulseflow/pipeline/consumer.py:116-153 | Without ingestion, the working steps of any run are at most the backlog measure plus a fixed cost per fault, so workers and sweeps run out of work |
| `DeliveryDrain.DrainingCompletes` | pulseflow/pipeline/storage/schema.py:8 | A draining run that comes to rest has empty lanes, nothing in flight, rows of accepted events only, each of the right origin, and exactly one row per accepted event whose retry note is absent or a number, despite reprocessing |
| `DeliveryDrain.QuiescentIffDrained` | pulseflow/pipeline/workers/batch_worker.py:39-100 | With a live worker on every lane, nothing is left to do now or later if and only if everything is drained, and every accepted event whose retry note counts is stored |
| `DeliveryDrain.WorkLowersMeasure` | pulseflow/pipeline/workers/stream_worker.py:30-61 | Every working step that is not a fault lowers the measure by at least one |
| `DeliveryLiveness.SomeRunDrains` | pulseflow/pipeline/consumer.py:116-153 | From every staffed state within the invariant, hence every reachable one, some run without arrivals or faults ends drained with every event stored whose retry note counts |
| `DeliveryDrain.MeasureAtMostBound` | pulseflow/pipeline/consumer.py:67-69 | The measure never exceeds a bound fixed by the accepted events and the workers |
| `InFlight.SweepConserves` | pulseflow/pipeline/consumer.py:116-146 | For every identifier what a sweep leaves, what it requeues and the entry it drops where it raises make up what was there |
| `InFlight.SweptAreRecovered` | pulseflow/pipeline/consumer.py:138-146 | Whatever a sweep puts back was in flight for longer than the timeout and is bound for CRITICAL, dated, with one more retry noted, and otherwise as it was |
| `InFlight.SweepLosesNothingIff` | pulseflow/pipeline/consumer.py:131-146 | A sweep into a CRITICAL queue with any room keeps every event if and only if all timed-out events fit and the retry note of each is absent or a number |
| `InFlight.TrackKeepsAllIff` | pulseflow/pipeline/consumer.py:75-79 | Tracking keeps every entry if and only if the identifier is not in flight already, or only with this very entry |
| `InFlight.PutIsAssignment` | pulseflow/pipeline/consumer.py:78 | Assigning a key replaces in place or appends, and leaves the other entries and their order alone |
| `InFlight.RemoveIsFilter` | pulseflow/pipeline/consumer.py:86-88 | Deleting a key removes exactly that entry and keeps the others in order |
| `InFlight.AckAllIsWithout` | pulseflow/pipeline/workers/batch_worker.py:92-93 | Acknowledging a batch removes exactly its identifiers, counting only those that were present |
| `InFlight.WithoutExpired` | pulseflow/pipeline/consumer.py:131-134 | Popping every collected identifier leaves exactly the entries that had not timed out |
| `Consumer.InFlightTracker.Track` | pulseflow/pipeline/consumer.py:75-79 | Dictionary assignment: replaces in place or appends, and counts |
| `Consumer.InFlightTracker.Ack` | pulseflow/pipeline/consumer.py:81-90 | True exactly when present; removes the entry and counts only then |
| `Consumer.InFlightTracker.NackRequeue` | pulseflow/pipeline/consumer.py:92-102 | Requeues to CRITICAL and counts it; on a full queue the popped event is in no place afterwards and nothing is counted |
| `Consumer.InFlightTracker.CollectTimedOut` | pulseflow/pipeline/consumer.py:122-129 | The identifiers strictly older than the timeout, in map order |
| `Consumer.InFlightTracker.PopAndRequeue` | pulseflow/pipeline/consumer.py:131-146 | One entry leaves the map and is counted; it is appended to CRITICAL exactly where its retry note can be added to and the queue is not full, with the note one higher, or one where there was none, and otherwise as it was |
| `Consumer.InFlightTracker.RequeueTimedOut` | pulseflow/pipeline/consumer.py:131-146 | The second pass pops and counts each timed-out entry and appends it to CRITICAL, up to and with the first whose retry note raises or that does not fit |
| `Consumer.InFlightTracker.CheckAndRecoverTimeouts` | pulseflow/pipeline/consumer.py:116-153 | Without a raise exactly the entries with age above the timeout leave, each appended once to CRITICAL in map order; where it raises, the entries popped and requeued so far and the counters are stated exactly; into an unlimited queue it is the sweep of the protocol, raise or not |
| `Workers.Repository.InsertEventsBatch` | pulseflow/pipeline/storage/repository.py:54-79 | Bulk insert-or-replace: one row per identifier, later records replacing earlier ones |
| `Workers.BatchWorker.CollectNext` | pulseflow/pipeline/workers/batch_worker.py:63-79 | One get appends the head of the lane to the buffer, up to the batch size; it is the protocol's dequeue step |
| `Workers.BatchWorker.BeginProcessing` | pulseflow/pipeline/workers/batch_worker.py:81-87 | Every event of the batch is tracked, in order, before processing starts; it is the protocol's begin step |
| `Workers.BatchWorker.ProcessBatch` | pulseflow/pipeline/processing/event_processor.py:59-109 | The rows are committed before processing returns; it is the protocol's commit step |
| `Workers.BatchWorker.CompleteOk` | pulseflow/pipeline/workers/batch_worker.py:88-93 | Only a stored batch, whose every event is in the table, is acknowledged and counted; it is the protocol's finish step |
| `Workers.BatchWorker.CompleteError` | pulseflow/pipeline/workers/batch_worker.py:94-100 | A failure acknowledges nothing and leaves the batch in flight; it is the protocol's failure step |
| `Audit.AuditLogger.WorkerLoop` | pulseflow/pipeline/audit.py:247-315 | When the worker ends, everything that had been logged when the stop was requested is on disk in order and every flush requested by then is completed; each future completed before the final drain, which includes all those completed before the stop was requested, was completed when exactly the records logged before its request were on disk; every batch it writes before that drain holds one to batch-size records |
| `Audit.AuditLogger.Collect` | pulseflow/pipeline/audit.py:281-306 | The gathering loop: a batch that begins with the first record, never exceeds the batch size, and stops at a sentinel |
| `Audit.AuditLogger.Gather` | pulseflow/pipeline/audit.py:281-310 | A sentinel met mid-batch is completed only after the batch is written; the first record is written or heads what is still unwritten |
| `Audit.AuditLogger.Serve` | pulseflow/pipeline/audit.py:267-310 | A record becomes the next row on disk and a sentinel's future the next one completed, leaving nothing unwritten in hand |
| `Audit.AuditLogger.Round` | pulseflow/pipeline/audit.py:251-310 | A turn whose wait does not time out serves the head of the queue; the batch is empty again at the end of the turn |
| `Audit.AuditLogger.FlushBatch` | pulseflow/pipeline/audit.py:238-245 | Appends the batch to the table in order and counts its rows, whatever is logged during the write |
| `Audit.AuditLogger.Take` | pulseflow/pipeline/audit.py:253-279 | A sentinel comes out of the queue only when everything logged before it is written or in the batch |
| `Audit.AuditLogger.Resolve` | pulseflow/pipeline/audit.py:272-275 | Completing a future records how many rows were on disk at that moment |
| `Audit.AuditLogger.Log` | pulseflow/pipeline/audit.py:149-170 | The record joins the queue and the logged sequence; nothing else changes |
| `Audit.AuditLogger.RequestFlush` | pulseflow/pipeline/audit.py:372-384 | The sentinel joins the queue marked with what had been logged |
| `Audit.AuditLogger.DrainRemaining` | pulseflow/pipeline/audit.py:317-335 | Writes everything queued in order, but completes the sentinels it meets when only the earlier rows are on disk |
| `AuditDrain.RunKeepsInv` | pulseflow/pipeline/audit.py:238-335 | With any number of drains and flushes interleaving with the worker, each logged record is in exactly one of table, worker batch, a drain batch or queue, and the counter follows the rows |
| `AuditDrain.SettledIsComplete` | pulseflow/pipeline/audit.py:379-384 | When all writers have finished, every logged record is in the table exactly once and the flushed counter is the number of rows |
| `AuditSettling.SomeRunSettles` | pulseflow/pipeline/audit.py:247-335 | From every reachable state the worker and the drains already begun can finish by themselves: some run without new drains puts everything logged on disk, once each and counted, and completes every flush asked for |
| `AuditSettling.RestMeansComplete` | pulseflow/pipeline/audit.py:247-335 | Any run, drains and timeouts included, after which no writer has anything left to do has everything logged on disk once, counted, and every flush completed |
| `AuditSettling.SettlingIsBounded` | pulseflow/pipeline/audit.py:247-335 | Without new records and requests the steps that get something done are at most four for each queued item and three for what the writers hold |
| `AuditHonesty.CompletionIsHonestIff` | pulseflow/pipeline/audit.py:267-334 | In every reachable state, the step that completes a flush finds its records on disk if and only if no drain holds an older record and, when that step is a drain, the worker holds none and no record stands before the sentinel in the queue |
| `AuditHonesty.DrainCompletesHonestlyIff` | pulseflow/pipeline/audit.py:317-334 | The same for one sentinel in the queue a drain is about to take |
| `AuditHonesty.TakeCompletesHonestlyIff` | pulseflow/pipeline/audit.py:267-276 | The idle worker completes a sentinel truthfully if and only if no drain holds an older record |
| `AuditHonesty.ResumeCompletesHonestlyIff` | pulseflow/pipeline/audit.py:293-304 | The worker that wrote its batch first does so under the same condition |
| `AuditHonesty.HonestyLasts` | pulseflow/pipeline/audit.py:216-236 | A flush completed truthfully stays so, whatever follows |
| `AuditHonesty.TimedOutFlushIsHonestIff` | pulseflow/pipeline/audit.py:379-384 | From the drain of a flush that timed out on, and so when it returns, its records are on disk if and only if neither the worker nor any drain still holds one of them |
| `AuditDrain.ResolvedIsHonestIffNoneInHand` | pulseflow/pipeline/audit.py:324-334 | At any later time, a completed flush has its records on disk if and only if neither the worker nor any drain holds an unwritten record that precedes its request |
| `AuditDrain.WithoutDrainsFlushesAreHonest` | pulseflow/pipeline/audit.py:267-304 | Without drains every completed flush, of any number of overlapping flushers, has its records on disk |
| `AuditDrain.WithoutDrainsTableIsPrefix` | pulseflow/pipeline/audit.py:238-304 | Without drains the table, then the worker's batch, then the queue are the log in order, at every step of every run |
| `AuditDrain.FlushCanBeDishonest` | pulseflow/pipeline/audit.py:317-334 | A concrete run in which a flush completes with nothing on disk |
| `Aging.DeliveriesAreAShuffle` | pulseflow/pipeline/dispatcher.py:91-167 | In any run of enqueues and pulls, what a lane delivered followed by what it holds is what it held followed by what entered it: nothing lost, duplicated or reordered within a lane |
| `Aging.OneOp` | pulseflow/pipeline/queues/base_queue.py:76-103 | One pull takes the head of one lane, one enqueue extends the tail of one, nothing else moves |
| `Aging.AntiStarvation` | pulseflow/pipeline/dispatcher.py:82-142 | If BEST_EFFORT is ordered by reference time, its first k+1 events are stateless and the k-th has aged, the next k+1 turns return exactly those, in order, whatever else is held or added |
| `Aging.StarvingAreServedNext` | pulseflow/pipeline/dispatcher.py:162-210 | The same for any number of turns and any interleaved traffic |
| `Aging.PromotionsAreProper` | pulseflow/pipeline/dispatcher.py:91-142 | Over any run each promotion was of an aged, stateless event, and evaluated = promoted + skipped stateful + skipped not expired |
| `Aging.PromotedIff` | pulseflow/pipeline/dispatcher.py:82-167 | A pull for NORMAL promotes the BEST_EFFORT head if and only if it is a click, a page view or a log entry that has waited longer than the threshold since it was received, or made; it returns the NORMAL head otherwise |
| `Aging.InspectionIsBooked` | pulseflow/pipeline/dispatcher.py:101-141 | Each inspection is booked once: as too young, else as stateful, else as promoted and dated |
| `Aging.ForemostIsPulled` | pulseflow/pipeline/dispatcher.py:189-210 | A general pull returns the CRITICAL head if there is one, else what a pull for NORMAL returns, else the BEST_EFFORT head, and nothing only when every lane is empty |
| `Aging.EligiblePrefixIsServed` | pulseflow/pipeline/dispatcher.py:82-167 | NORMAL pulls at one time, whatever the other lanes receive or deliver meanwhile, serve of BEST_EFFORT exactly its stateless and aged events from the head on, as many as there are pulls |
| `Aging.ServedIffAllMayBePromoted` | pulseflow/pipeline/dispatcher.py:104-116 | Given enough pulls between two times, whatever arrives anywhere meanwhile, the event at position k is served if every event up to it is stateless and aged at the first, and only if every one is at the last |
| `Aging.EverServedIff` | pulseflow/pipeline/dispatcher.py:104-125 | However long one waits, some course of NORMAL pulls serves the event at position k if and only if no event up to it is stateful |
| `Aging.StatefulHeadBlocks` | pulseflow/pipeline/dispatcher.py:109-111 | Behind a head that may not be promoted nothing in BEST_EFFORT is ever served by NORMAL pulls |
| `Dispatching.Dispatcher.CheckAndPromoteAgedEvent` | pulseflow/pipeline/dispatcher.py:82-142 | Refines the promotion step, statistics included |
| `Dispatching.Dispatcher.PopNormalNowait` | pulseflow/pipeline/dispatcher.py:162-167 | Promoted event first, NORMAL head otherwise |
| `Dispatching.Dispatcher.PopAnyEvent` | pulseflow/pipeline/dispatcher.py:189-210 | CRITICAL, then a promotion, then NORMAL, then BEST_EFFORT |
| `Lanes.LaneQueue.EnqueueNowait` | pulseflow/pipeline/queues/base_queue.py:54-66 | Appends unless full; the lane is stamped on an event without one |
| `Lanes.LaneQueue.DequeueNowait` | pulseflow/pipeline/queues/base_queue.py:82-92 | The n-th event out is the n-th that came in |
| `Lanes.LaneQueue.Peek` | pulseflow/pipeline/queues/base_queue.py:94-103 | The head without removing it |
| `AutoScaling.FlapBound` | pulseflow/pipeline/dispatcher.py:300-341 | With nondecreasing times, ups minus downs is one exactly when scaled up, and ups over an elapsed T are at most 1 + floor(T / cooldown) |
| `AutoScaling.EmaInHull` | pulseflow/pipeline/dispatcher.py:285-293 | The moving average never leaves the range of the samples |
| `AutoScaling.EmaDecays` | pulseflow/pipeline/dispatcher.py:285-293 | After n empty samples the average is at most E / (1 + n * alpha) |
| `AutoScaling.EmaIsWeighted` | pulseflow/pipeline/dispatcher.py:285-293 | The average is the sum of the samples by exponentially decaying weights, a negative depth counting as zero |
| `AutoScaling.WeightAt` | pulseflow/pipeline/dispatcher.py:285-293 | The weight of each sample: alpha times a power of what alpha leaves, by age, the first standing for all before it |
| `AutoScaling.ScalesDownAfterQuiet` | pulseflow/pipeline/dispatcher.py:319-335 | An explicit number of empty samples, with the last a cooldown after the scale-up, after which the pool is scaled down |
| `AutoScaling.ScalesUpAfterLoad` | pulseflow/pipeline/dispatcher.py:312-318 | An explicit number of samples at or above a level over the threshold after which the pool is up |
| `AutoScaling.ScalesExactlyWhen` | pulseflow/pipeline/dispatcher.py:312-332 | After an evaluation the pool is up if and only if the rounded average reaches the threshold, or it was up and the cooldown is not over; each change is dated and counted, and nothing else |
| `AutoScaling.UpIff` | pulseflow/pipeline/dispatcher.py:300-341 | Over any run the pool is up if and only if it went up at some sample and every later reading below the threshold came within the cooldown of it |
| `AutoScaling.QueueLagAutoScaler.ComputeEma` | pulseflow/pipeline/dispatcher.py:285-293 | Refines the average update; returns it rounded to four decimals |
| `AutoScaling.QueueLagAutoScaler.EvaluateScaling` | pulseflow/pipeline/dispatcher.py:300-341 | The pool is up afterwards exactly when the rounded average reaches the threshold or the cooldown of a pool that was up is not over; it is reallocated to its surge or base exactly where that changes |
| `BatchSizing.Converges` | pulseflow/adaptive/allocation/batch_sizer.py:68-118 | Sustained growth (drain) with depth above the low threshold reaches the maximum (minimum) within required * (table entries strictly between + 1) samples |
| `BatchSizing.UpMove` | pulseflow/adaptive/allocation/batch_sizer.py:55-60 | Each increase moves strictly towards the maximum and skips no table entry |
| `BatchSizing.DownMove` | pulseflow/adaptive/allocation/batch_sizer.py:61-66 | Each decrease moves strictly towards the minimum and skips no table entry |
| `BatchSizing.DownUndoesUp` | pulseflow/adaptive/allocation/batch_sizer.py:31 | For adjacent table steps inside the bounds, down undoes up |
| `BatchSizing.EvaluateKeepsBounds` | pulseflow/adaptive/allocation/batch_sizer.py:68-118 | Sizes stay between the configured bounds |
| `BatchSizing.TableClimb` | pulseflow/adaptive/allocation/batch_sizer.py:31 | Within the widest bounds the increases go through 25, 50, 75, 100, 150, 200, 300, 400, 600, 800 and 1000 |
| `BatchSizing.TooFewChangeNothing` | pulseflow/adaptive/allocation/batch_sizer.py:86-113 | Hysteresis: fewer consecutive samples than required change nothing |
| `BatchSizing.CountersAreStreaks` | pulseflow/adaptive/allocation/batch_sizer.py:88-116 | Over any run each counter is the unbroken streak of its kind at the end, modulo the samples required |
| `BatchSizing.SizeMovesExactly` | pulseflow/adaptive/allocation/batch_sizer.py:68-118 | Over any run the size after each sample, exactly: the floor on a nearly empty queue, a step up or down at the end of each full round of consecutive growing or draining samples, no change otherwise |
| `BatchSizing.CompletesRoundIff` | pulseflow/adaptive/allocation/batch_sizer.py:88-113 | A round is full exactly when the unbroken streak is a positive multiple of the samples required |
| `BatchSizing.MovesNeedStreaks` | pulseflow/adaptive/allocation/batch_sizer.py:88-116 | Above the low threshold the size rises only if the last required samples were all growing, and falls only if they were all draining |
| `BatchSizing.ChangesAreBooked` | pulseflow/adaptive/allocation/batch_sizer.py:78-110 | Each change of size is booked once with the size before it, as an increase at a growing sample and as a decrease at any other |
| `BatchSizing.BookedDecreaseLowersIff` | pulseflow/adaptive/allocation/batch_sizer.py:72-86 | A booked decrease lowers the size if and only if it is not the low-depth snap to the floor from below it |
| `BatchSizing.SnapCanRaise` | pulseflow/adaptive/allocation/batch_sizer.py:72-84 | With the default configuration a nearly empty BEST_EFFORT lane at 50 goes to 100, booked as a decrease |
| `BatchSizing.AboveIsLeast` | pulseflow/adaptive/allocation/batch_sizer.py:55-60 | The upward search finds the least table entry above, or none exists |
| `BatchSizing.BelowIsGreatest` | pulseflow/adaptive/allocation/batch_sizer.py:61-66 | The downward search finds the greatest table entry below, or none exists |
| `BatchSizing.AdaptiveBatchSizer.GetNextStep` | pulseflow/adaptive/allocation/batch_sizer.py:55-66 | The table-search loops compute the next step |
| `BatchSizing.AdaptiveBatchSizer.EvaluateLane` | pulseflow/adaptive/allocation/batch_sizer.py:68-118 | Refines one lane evaluation; updated exactly when the size changed |
| `BatchSizing.AdaptiveBatchSizer.Calculate` | pulseflow/adaptive/allocation/batch_sizer.py:120-145 | Nothing is evaluated inside the cooldown; an adjustment restarts it and dates the lane; the sizes in force are returned |
| `Admission.ActiveIffLastDecisiveWasHigh` | pulseflow/pipeline/ingestion/api.py:68-79 | Backpressure is on if and only if the last ratio seen outside [low, high) was at or above the high watermark |
| `Admission.FlipsCrossTheBand` | pulseflow/pipeline/ingestion/api.py:68-79 | Each flip after the first needs the ratio to cross the whole band, so chattering costs travel |
| `Admission.RatioIsShare` | pulseflow/pipeline/ingestion/api.py:62-66 | The ratio times the capacity is the depth; without a capacity it is zero |
| `Admission.AdmittedLands` | pulseflow/pipeline/ingestion/api.py:212-228 | With the default handler an event that the gate lets through is stamped and appended to its own lane, or waits for it where the lane is full, and touches no other |
| `Admission.RejectedLeavesNoTrace` | pulseflow/pipeline/ingestion/api.py:81-94 | An event that the gate turns away is not CRITICAL, is counted once and is in no lane |
| `Admission.BatchAdmitsAllCritical` | pulseflow/pipeline/ingestion/api.py:81-94 | With the default handler every CRITICAL event of a batch is queued, in order, whatever the gate says |
| `Admission.BatchIsAccounted` | pulseflow/pipeline/ingestion/api.py:246-259 | With the default handler what a batch adds to the lanes, plus what waits for room, plus what it throttles is the batch, limits or not |
| `Admission.BatchIsCutOnce` | pulseflow/pipeline/ingestion/api.py:246-259 | With the default handler there is one point in a batch up to which NORMAL and BEST_EFFORT are all admitted and after which none is |
| `Admission.AcceptedMeansQueuedIff` | pulseflow/pipeline/ingestion/api.py:253-259 | With the default handler or none, the accepted count is the number of events queued if and only if there is a handler, the batch is empty, or the gate closes on the first event and none is CRITICAL |
| `Admission.UnroutedThrottles` | pulseflow/pipeline/ingestion/api.py:246-259 | Without a handler a closed gate throttles every event but the CRITICAL ones, an open one none, and nothing is queued |
| `Admission.UnroutedEventIsDropped` | pulseflow/pipeline/ingestion/api.py:212-228 | One event let through with no handler registered is accepted and queued nowhere |
| `AdaptiveAdmission.AcceptedIsQueuedIff` | pulseflow/adaptive/scheduler/decision_engine.py:67-81 | With the adaptive handler, which the application registers, an event that the gate lets through is counted as accepted; it is queued on every draw if and only if its type is not BEST_EFFORT, or the score is below HIGH, or below EXTREME with a sampling rate of one |
| `AdaptiveAdmission.SampledOutIsAccepted` | pulseflow/pipeline/main.py:151-187 | A concrete click at empty lanes and an open gate that is accepted and sampled out |
| `Admission.BoundPartition` | pulseflow/pipeline/ingestion/api.py:246-249 | Every event of a batch is counted under exactly one lane |
| `AdmissionRuns.GateIsHysteresis` | pulseflow/pipeline/ingestion/api.py:68-94 | In every reachable state the gate reads as the hysteresis of everything it has observed |
| `AdmissionLedger.GateSeesEveryRatio` | pulseflow/pipeline/ingestion/api.py:68-79 | Over every run the gate has seen the ratio that each arrival and each look met, in order, and no other |
| `AdmissionLedger.ThrottledIff` | pulseflow/pipeline/ingestion/api.py:81-94 | An arrival is throttled and counted if and only if the gate is closed after looking at the depth it met and the event does not ask for CRITICAL |
| `AdmissionRuns.DepthBound` | pulseflow/pipeline/ingestion/api.py:81-94 | In every run, requeues to CRITICAL and promotions included, NORMAL plus BEST_EFFORT hold at most ceil(high * capacity) plus the events that entered late from a full lane, unless the adaptive handler is given an event that asks for CRITICAL against its type |
| `AdmissionLedger.LateCountsEntries` | pulseflow/pipeline/ingestion/api.py:246-259 | That allowance is exactly the number of suspended puts that completed on NORMAL or BEST_EFFORT |
| `AdmissionLedger.WhatIsLetInIsKept` | pulseflow/pipeline/ingestion/api.py:212-259 | Over every run, with any handlers, limits, pulls, requeues and suspended puts, what was there plus what was let in is delivered, queued or waiting, each event exactly as often |
| `AdmissionLedger.SiteLanesAreFifo` | pulseflow/pipeline/queues/queue_manager.py:174-180 | Over every such run what a lane delivered, promotions included, followed by what it holds is what it held followed by what joined it |
| `AdmissionRuns.WatermarkBoundsEveryRunIff` | pulseflow/pipeline/queues/queue_manager.py:174-180 | For any kind of events sent to the adaptive handler: the watermark itself bounds that depth in every run if and only if neither lane can be full below it and none of these events asks for CRITICAL against its type, or the two limits together fit under it |
| `AdmissionRuns.OverclaimBreaks` | pulseflow/pipeline/main.py:151-187 | The run in which an event sent again and again as CRITICAL against its type passes the watermark |
| `AdmissionRuns.CriticalIsNeverThrottled` | pulseflow/pipeline/ingestion/api.py:88-91 | Over every run with a handler that agrees with the gate on what is CRITICAL, as the default one always does, all CRITICAL arrivals and requeues are delivered or waiting, in order, and nothing else |
| `AdmissionRuns.CriticalIsKeptIff` | pulseflow/adaptive/queues/adaptive_queue.py:15-19 | For any kind of events sent to the adaptive handler: that holds in every run if and only if each of these events asks for CRITICAL exactly when its type is |
| `Backpressure.QueueManager.Enqueue` | pulseflow/pipeline/queues/queue_manager.py:88-101 | Stamps the lane and appends to that lane only |
| `Backpressure.QueueManager.TotalCapacity` | pulseflow/pipeline/queues/queue_manager.py:209-215 | The sum of the finite lane capacities, or a positive fallback: never zero |
| `Backpressure.BackpressureController.TotalCapacity` | pulseflow/pipeline/ingestion/api.py:50-54 | At least one under any override |
| `Backpressure.BackpressureController.Compare` | pulseflow/pipeline/ingestion/api.py:73-78 | Refines the two comparisons; states the hysteresis |
| `Backpressure.BackpressureController.UpdateState` | pulseflow/pipeline/ingestion/api.py:68-79 | Observes exactly one ratio and reports the gate |
| `Backpressure.BackpressureController.ShouldThrottle` | pulseflow/pipeline/ingestion/api.py:81-94 | Throttles exactly a non-CRITICAL event at a closed gate, and counts it |
| `Backpressure.IngestionApi.IngestOne` | pulseflow/pipeline/ingestion/api.py:194-228 | Refines one arrival at the default handler or none; 429 exactly for a throttled event, never for CRITICAL, and 503 exactly where the handler raises |
| `Backpressure.IngestionApi.IngestBatch` | pulseflow/pipeline/ingestion/api.py:231-268 | With the default handler or none: accepted plus rejected is the batch, rejected is what was throttled or failed, lanes are counted, and lanes and gate end as the events in order leave them |
| `Backpressure.IngestionApi.IngestEach` | pulseflow/pipeline/ingestion/api.py:244-259 | The loop of the batch endpoint: what it accepts is what is neither throttled nor failed |
| `Backpressure.ReliableOffers` | pulseflow/pipeline/ingestion/api.py:246-259 | With a handler that never raises a batch arrives as `Admission` says |
| `Staffing.RunStaffsExactly` | pulseflow/pipeline/workers/worker_pool.py:104-165 | After any run of calls a lane has exactly max(0, target) workers for the target last asked of it |
| `Staffing.NamedLanesAreInMode` | pulseflow/pipeline/workers/worker_pool.py:134-146 | Every lane a call names ends with all its workers in the lane's mode |
| `Staffing.ModesTakeEffect` | pulseflow/pipeline/workers/worker_pool.py:116-120 | After a call a lane is in the mode of the last switch that names it, or else in the mode it had |
| `Staffing.UnnamedLanesKeepTheirWorkers` | pulseflow/pipeline/workers/worker_pool.py:118-124 | A lane switched without being named keeps its workers, in the old mode |
| `Staffing.NumbersAreNeverReused` | pulseflow/pipeline/workers/worker_pool.py:83-84 | A worker number that was issued and is held by nobody is never held again |
| `Staffing.RunKeepsDistinct` | pulseflow/pipeline/workers/worker_pool.py:75-102 | No two workers ever share a number |
| `Staffing.SurvivorsAreTheFirst` | pulseflow/pipeline/workers/worker_pool.py:130-153 | Over any run that leaves a lane's mode alone, the workers that survive are exactly the first ones, in order, as many as the fewest ever asked for |
| `Staffing.SettledCallsChangeNothing` | pulseflow/pipeline/workers/worker_pool.py:136-140 | A call asking for what is there, such as a change of batch sizes, replaces no worker |
| `WorkerPools.WorkerPool.CreateWorker` | pulseflow/pipeline/workers/worker_pool.py:75-102 | A new worker takes the next number |
| `WorkerPools.Partition` | pulseflow/pipeline/workers/worker_pool.py:130-142 | Splits a lane by mode, in order, and retunes the batch workers that stay |
| `WorkerPools.Trim` | pulseflow/pipeline/workers/worker_pool.py:148-151 | Pops and stops workers from the end until the target is met |
| `WorkerPools.WorkerPool.Reconcile` | pulseflow/pipeline/workers/worker_pool.py:134-163 | The same worker objects are kept, undisturbed; the others are stopped; the hired ones are new and started if the pool runs |
| `WorkerPools.WorkerPool.SetAllocation` | pulseflow/pipeline/workers/worker_pool.py:104-165 | Refines a whole call; whoever leaves the pool is stopped, whoever stays is undisturbed, whoever comes is started if the pool runs, and every named lane carries the parameters of the call |
| `WorkerPools.StartIdle` | pulseflow/pipeline/workers/worker_pool.py:188-192 | The loop that starts workers: afterwards every worker has a task if and only if before it each had one or did not report that it runs |
| `WorkerPools.WorkerPool.StartExisting` | pulseflow/pipeline/workers/worker_pool.py:188-192 | The same over all lanes, worker by worker |
| `WorkerPools.WorkerPool.Start` | pulseflow/pipeline/workers/worker_pool.py:167-192 | After the start of a stopped pool every worker has a task if and only if each worker that was there before and stays had one or had been stopped; a running pool is left alone |
| `WorkerPools.PoolWorker.Start` | pulseflow/pipeline/workers/worker.py:61-68 | Starting a worker that has a task changes nothing |
| `Pressure.HeavierLoadIsHandledHarder` | pulseflow/adaptive/pressure/pressure_calculator.py:40-77 | On nonnegative figures, a load heavier in every respect has at least the score, the state, the severity on every lane and the CRITICAL workers, with eight workers in all |
| `Pressure.RateFactorMonotone` | pulseflow/adaptive/pressure/pressure_calculator.py:52-59 | The rate factor rises with ingress and falls with processing across the zero-rate branches |
| `Pressure.ScoreMonotone` | pulseflow/adaptive/pressure/pressure_calculator.py:40-71 | The score is monotone in depth, utilisation, ingress and latency and antitone in processing rate |
| `Pressure.ClampIsIdle` | pulseflow/adaptive/pressure/pressure_config.py:29-33 | On nonnegative figures the weights alone keep the score in [0, 1] |
| `Pressure.ScoreIsWeighted` | pulseflow/adaptive/pressure/pressure_calculator.py:40-71 | While nothing is saturated the score is each figure as a fraction of its saturation, by weights of 40, 30, 15 and 15 hundredths |
| `Pressure.ReportedInRange` | pulseflow/adaptive/pressure/pressure_calculator.py:71-83 | The reported score is in [0, 1] whatever the figures |
| `Pressure.ReportedNear` | pulseflow/adaptive/pressure/pressure_calculator.py:71-83 | The reported score is within half of its last decimal of the score |
| `Pressure.FasterHelpsIff` | pulseflow/adaptive/pressure/pressure_calculator.py:52-59 | Processing faster never raises the rate factor if and only if ingress is not negative |
| `Pressure.FactorWeighs` | pulseflow/adaptive/pressure/pressure_config.py:29-37 | A factor alone contributes at most its weight, and all of it exactly when its figure saturates |
| `Pressure.PressureNeedsCompany` | pulseflow/adaptive/pressure/pressure_config.py:25-33 | HIGH needs at least two factors above zero and EXTREME at least three |
| `Pressure.LevelsDecide` | pulseflow/adaptive/policies/policy_engine.py:27-68 | Severity and allocation are monotone in the state |
| `Pressure.ActionsByScore` | pulseflow/adaptive/policies/policy_engine.py:27-68 | CRITICAL streams on every load; NORMAL batches and BEST_EFFORT samples exactly from 0.45 up to 0.75, and they defer and shed exactly from 0.75 |
| `Pressure.WorkersByScore` | pulseflow/adaptive/allocation/worker_allocator.py:15-47 | Four workers for NORMAL on every load; each threshold moves one of two from BEST_EFFORT to CRITICAL |
| `Pressure.LighterLoadKeepsMore` | pulseflow/adaptive/scheduler/decision_engine.py:69-79 | On the same draw, an event kept under a load is kept under any lighter one |
| `Pressure.LaneIsSafeIff` | pulseflow/adaptive/policies/policy_engine.py:36-58 | A lane keeps every event on every draw if and only if it is not BEST_EFFORT, or the score is below the HIGH threshold, or below the EXTREME one with a sampling rate of one |
| `DecisionEngines.AllocationIsMet` | pulseflow/adaptive/allocation/worker_allocator.py:15-47 | The reallocation call leaves every lane with the share the pressure calls for |
| `DecisionEngines.ProbabilisticSampler.ShouldKeep` | pulseflow/adaptive/sampling/sampler.py:44-68 | Kept exactly when the draw is below the rate; every evaluation is counted once |
| `DecisionEngines.DecisionEngine.Admit` | pulseflow/adaptive/scheduler/decision_engine.py:69-82 | A kept event joins its own lane only; a lost one changes no lane |
| `DecisionEngines.DecisionEngine.Reallocate` | pulseflow/adaptive/scheduler/decision_engine.py:84-88 | A running pool is reconciled to the allocation, its batch workers carrying the sizes in force; a stopped one is left alone |
| `DecisionEngines.DecisionEngine.ProcessEvent` | pulseflow/adaptive/scheduler/decision_engine.py:45-101 | A CRITICAL-classified event is always streamed and routed; the other lanes get the action their score calls for; and the pool, lanes, batch sizes and every figure of the decision agree with score, policy and sampler |
| `DecisionEngines.DecisionEngine.AdaptiveEnqueue` | pulseflow/pipeline/main.py:151-187 | The registered handler queues the event on its type's lane exactly when policy and sampler keep it under the pressure of the moment |
| `DecisionEngines.DecisionEngine.IngestOne` | pulseflow/pipeline/ingestion/api.py:194-228 | The endpoint in front of that handler refines one arrival of `Admission`; the answer does not say whether the event was kept |
| `Telemetry.WindowIsRecentHistory` | pulseflow/pipeline/processing/telemetry.py:76-80 | For nondecreasing times and any mix of recordings and queries, the pruned deque is the full history filtered to the window |
| `Telemetry.DropOldIsSinceIff` | pulseflow/pipeline/processing/telemetry.py:76-80 | Popping old samples from the left is filtering if and only if no old sample stands behind a younger one in the deque |
| `Telemetry.WindowStaysRightIff` | pulseflow/pipeline/processing/telemetry.py:76-80 | From a right window the next is right if and only if that holds of the deque about to be pruned and the clock has not gone back to where a dropped sample would be in view |
| `Telemetry.WindowIsSuffix` | pulseflow/pipeline/processing/telemetry.py:39-80 | However time runs, the window is the most recent part of the history |
| `Telemetry.OutOfOrderKeepsOld` | pulseflow/pipeline/processing/telemetry.py:76-80 | A run in which, with time out of order, an old sample outlives the window |
| `Telemetry.ExtendKeepsLastN` | pulseflow/pipeline/processing/telemetry.py:66-74 | A bounded deque is the last N of everything ever appended to it |
| `Telemetry.LaneWindowIsRecentHistory` | pulseflow/pipeline/processing/telemetry.py:104-110 | A lane's part of the window is that lane's history filtered to the window |
| `Telemetry.SinceIsExact` | pulseflow/pipeline/processing/telemetry.py:76-80 | What is recent is every recording no older than the cutoff, as often as it was recorded, and nothing else |
| `Telemetry.LastNIsTail` | pulseflow/pipeline/processing/telemetry.py:34-37 | The recent latencies are all there are, or exactly the given number of the last ones |
| `Telemetry.AverageWithin` | pulseflow/pipeline/processing/telemetry.py:95-122 | An average of samples lies between bounds on what they sum up |
| `TelemetryTracking.AverageIsBetween` | pulseflow/pipeline/processing/telemetry.py:95-122 | The reported average, of all or of one lane, lies between the least and greatest of the recorded latencies it is taken over |
| `TelemetryTracking.AverageIsMean` | pulseflow/pipeline/processing/telemetry.py:95-122 | The reported average, of all or of one lane, is the mean of the latencies recorded in the window, or of the recent ones if there are none, rounded to two decimals |
| `TelemetryTracking.CleanIsFloored` | pulseflow/pipeline/processing/telemetry.py:55-67 | A batch is recorded with its negative latencies as zero and the others as they are |
| `TelemetryTracking.ExtendsItsLane` | pulseflow/pipeline/processing/telemetry.py:50-73 | A recording adds to the latencies of its own lane and to no other |
| `TelemetryTracking.SumWithin` | pulseflow/pipeline/processing/telemetry.py:55-74 | A recorded batch carries a total between its extremes times its size |
| `TelemetryTracking.ProcessingTelemetryTracker.Record` | pulseflow/pipeline/processing/telemetry.py:39-53 | Keeps window, recent latencies, total and the latencies behind each sample equal to their histories |
| `TelemetryTracking.ProcessingTelemetryTracker.RecordBatch` | pulseflow/pipeline/processing/telemetry.py:55-74 | The same for a batch, negative latencies counted as zero |
| `TelemetryTracking.ProcessingTelemetryTracker.GetProcessingRate` | pulseflow/pipeline/processing/telemetry.py:82-93 | Events in the window over its span, never less than a second |
| `TelemetryTracking.ProcessingTelemetryTracker.GetAvgLatencyMs` | pulseflow/pipeline/processing/telemetry.py:95-122 | The mean of the latencies recorded in the window, of one lane if named, else of the recent latencies, else zero; between any bounds on them |
| `TelemetryTracking.ProcessingTelemetryTracker.GetPercentiles` | pulseflow/pipeline/processing/telemetry.py:124-132 | The entries at 95 and 99 hundredths of the recent latencies in order, rounded down, whatever sorts them, and in that order |
| `TelemetryTracking.Averaged` | pulseflow/pipeline/processing/telemetry.py:104-122 | The summing and dividing of either average |
| `TelemetryTracking.Counted` | pulseflow/pipeline/processing/telemetry.py:86-90 | The summing loop over the window |
| `TelemetryTracking.Totalled` | pulseflow/pipeline/processing/telemetry.py:106-112 | The summing loop over the window's latencies |
| `RateTracking.RateIsOverRecentMarks` | pulseflow/pipeline/main.py:45-70 | For nondecreasing times the reported rate is the events marked in the last window over the time since the first of them, between one second and the width, to two decimals; it lies between zero and their number |
| `RateTracking.RateTracker.MarkEvents` | pulseflow/pipeline/main.py:45-52 | Counts, records and reports the rate over the pruned window |
| `RateTracking.RateTracker.GetRate` | pulseflow/pipeline/main.py:60-70 | The rate over the window pruned at the time of the query; the total is the sum over the whole history |
| `Latency.PercentileOfPermutation` | pulseflow/benchmark/metrics/latency.py:18-28 | The percentile depends on the samples as a multiset only |
| `Latency.PercentileMonotone` | pulseflow/benchmark/metrics/latency.py:18-28 | Monotone in the percentile, across segment boundaries |
| `Latency.PercentileExtremes` | pulseflow/benchmark/metrics/latency.py:18-28 | The minimum at 0, the maximum at 100, in between otherwise |
| `Latency.PercentileOfNone` | pulseflow/benchmark/metrics/latency.py:17-20 | Without samples every percentile is zero |
| `Latency.PercentileBetweenRanks` | pulseflow/benchmark/metrics/latency.py:23-27 | The percentile at the weight w past the i-th of the samples in order is (1 - w) of that and w of the next, rounded |
| `Latency.PercentileAtRank` | pulseflow/benchmark/metrics/latency.py:23-27 | The percentile at a rank is the sample of that rank, rounded |
| `Latency.MedianIsMiddle` | pulseflow/benchmark/metrics/latency.py:51 | The 50th percentile is the middle sample, or the mean of the two middle ones, rounded |
| `Latency.SumOfParts` | pulseflow/benchmark/metrics/latency.py:50 | A sum is that of its parts, which fixes it |
| `Latency.SortedUnique` | pulseflow/benchmark/metrics/latency.py:22 | Sorted permutations of one another are equal |
| `Latency.FiguresAreOrdered` | pulseflow/benchmark/metrics/latency.py:44-58 | min <= p50 <= p90 <= p95 <= p99 <= max and min <= average <= max |
| `Latency.FromSamples` | pulseflow/benchmark/metrics/latency.py:44-58 | The summary of any sample list, the empty one included: extremes, mean, median as the middle of the samples in order, and the other percentiles |
| `Rounding.RoundMonotone` | pulseflow/benchmark/metrics/latency.py:28 | Rounding to a number of decimals is monotone |
| `Rounding.RoundNear` | pulseflow/benchmark/metrics/latency.py:28 | Rounding errs by at most half a unit of the last decimal |
| `Rounding.RoundsToIff` | pulseflow/benchmark/metrics/latency.py:27 | To the nearest whole number, and to the even one of two equally near |
| `Rounding.RoundIsWhole` | pulseflow/benchmark/metrics/latency.py:27 | A rounded number is a whole number of units of the last decimal |
| `Benchmarks.NaiveAccountsForEverything` | pulseflow/benchmark/fifo_pipeline.py:85-155 | At every yield point, per lane, generated = queued + in hand + processed + dropped, totals agree and the queue keeps within its capacity |
| `Benchmarks.NaiveLosesWhatMeetsAFullQueue` | pulseflow/benchmark/fifo_pipeline.py:85-112 | Over any run a lane, CRITICAL included, loses exactly the events it offers to a queue filled to capacity |
| `Benchmarks.EverythingIsAccountedFor` | pulseflow/benchmark/pulseflow_runner.py:221-356 | At every yield point, incoming = blocked + queued + in hand + processed + deferred + shed by lane with no loss term for CRITICAL, streamed + batched = processed, and every queue is within its capacity |
| `Benchmarks.ServiceIsStrictAndInOrder` | pulseflow/benchmark/pulseflow_runner.py:277-330 | An idle worker serves the foremost non-empty lane and only it, from the front, and never leaves empty-handed while anything is queued |
| `Benchmarks.LightLoadLosesNothing` | pulseflow/benchmark/pulseflow_runner.py:143-219 | While no lane is more than three tenths full nothing is lost or blocked |
| `Benchmarks.BacklogBoundsWork` | pulseflow/benchmark/pulseflow_runner.py:277-330 | Without arrivals the steps that change anything are at most the backlog |
| `Benchmarks.DrainedMeansProcessed` | pulseflow/benchmark/pulseflow_runner.py:277-356 | When nothing is left inside, every CRITICAL event was processed and only deferrals and sheds are missing |
| `Benchmarks.ArrivalIsLostIff` | pulseflow/benchmark/pulseflow_runner.py:221-275 | An arrival is lost exactly when it is NORMAL and its lane is full, or BEST_EFFORT and shed, sampled out or without room |
| `BenchmarkRuns.NaiveIsFifo` | pulseflow/benchmark/fifo_pipeline.py:85-155 | Over any run the baseline serves what met room, all lanes alike, in the order it was offered |
| `BenchmarkRuns.VerdictFollowsFill` | pulseflow/benchmark/pulseflow_runner.py:157-219 | Shedding and batches of 20 above 0.6, sampling and batches of 10 above 0.3, streaming up to it, of the fills weighed 0.5, 0.3 and 0.2 |
| `BenchmarkRuns.ArrivalTakesItsLane` | pulseflow/benchmark/pulseflow_runner.py:221-275 | An arrival that is kept takes the last place of its own lane, a CRITICAL one without room waits, and nothing else moves |
| `BenchmarkRuns.ArrivalIsBooked` | pulseflow/benchmark/pulseflow_runner.py:221-275 | An arrival counts as sampled exactly in the sampling band and below its rate, as deferred exactly at a full NORMAL lane |
| `BenchmarkRuns.LookTakesABatch` | pulseflow/benchmark/pulseflow_runner.py:292-318 | A look at NORMAL takes a micro-batch exactly while batching is in force, full unless the lane runs out; any other look takes one event |
| `BenchmarkRuns.FinishIsBooked` | pulseflow/benchmark/pulseflow_runner.py:277-356 | Finished work is counted as streamed or batched by how it was taken and frees only its own worker |
| `BenchmarkRuns.SimLanesAreFifo` | pulseflow/benchmark/pulseflow_runner.py:221-330 | Over any run each lane of the simulated pipeline is first in, first out, micro-batches included |
| `BenchmarkPipelines.NaiveFIFOPipeline.Enqueue` | pulseflow/benchmark/fifo_pipeline.py:85-112 | Refines an offer; false exactly when dropped |
| `BenchmarkPipelines.NaiveFIFOPipeline.FinishEvent` | pulseflow/benchmark/fifo_pipeline.py:143-155 | Counts the event under its lane |
| `BenchmarkPipelines.SimulatedPulseFlowPipeline.Enqueue` | pulseflow/benchmark/pulseflow_runner.py:221-275 | Refines an arrival; never false for CRITICAL |
| `BenchmarkPipelines.SimulatedPulseFlowPipeline.PullBatch` | pulseflow/benchmark/pulseflow_runner.py:296-302 | Takes the first events of NORMAL, up to the batch size |
| `BenchmarkPipelines.SimulatedPulseFlowPipeline.TakeWork` | pulseflow/benchmark/pulseflow_runner.py:277-330 | Refines a worker's look at the queues, strict priority included |
| `BenchmarkPipelines.SimulatedPulseFlowPipeline.FinishWork` | pulseflow/benchmark/pulseflow_runner.py:332-356 | Counts single events and micro-batches |
| `Workload.RatesStayInRange` | pulseflow/techpulse/generator/traffic_profiles.py:244-344 | In every reachable state a spike is within the maximum, a steady profile is at its baseline, and the rate is zero only if the baseline is |
| `Workload.CountedSpikeIsExact` | pulseflow/techpulse/generator/traffic_profiles.py:302-331 | A custom run is on if and only if fewer events than requested have been delivered |
| `Workload.TimedSpikeEndsWhenRead` | pulseflow/techpulse/generator/traffic_profiles.py:244-252 | A timed spike is over exactly once the rate has been read at or after its deadline |
| `Workload.PresetSpikeEndsWhenRead` | pulseflow/techpulse/generator/traffic_profiles.py:244-276 | A preset spike runs at its multiple of the baseline, capped at the maximum, until the rate is read at or after its deadline, and for good without one |
| `Workload.CommandsTakeEffectIff` | pulseflow/techpulse/generator/traffic_profiles.py:254-324 | A command is refused exactly on a figure that is not positive or exceeds the maximum, and then changes nothing; otherwise what was in force before is forgotten |
| `Workload.DynamicWorkloadProfile.SetPresetSpike` | pulseflow/techpulse/generator/traffic_profiles.py:254-276 | Refines the preset command, refusals included |
| `Workload.DynamicWorkloadProfile.SetCustomSpike` | pulseflow/techpulse/generator/traffic_profiles.py:278-300 | Refines the custom rate command, refusals included |
| `Workload.DynamicWorkloadProfile.SetCustomEventRun` | pulseflow/techpulse/generator/traffic_profiles.py:302-324 | Refines the custom count command, refusals included |
| `Workload.DynamicWorkloadProfile.RecordEventsDelivered` | pulseflow/techpulse/generator/traffic_profiles.py:326-331 | Counts deliveries and returns to baseline at the target |
| `Workload.DynamicWorkloadProfile.TargetRate` | pulseflow/techpulse/generator/traffic_profiles.py:244-252 | Reading an expired spike returns to baseline |

## Left out

- Aliasing of event objects: one Python event object may be shared by a stale worker and a queue; events here are immutable records, so payload keys other than the retry count, recovery and promotion times are not modelled.
- Crashes while events are only in a worker's untracked buffer, `nack(requeue=False)`, `clear()` and the graceful shutdown: the source gives no guarantee for them.
- asyncio internals: rebinding of queues and locks to another loop, task cancellation, `wait_for` races; SQLite failures.
- The stream worker is the batch worker with a batch of one; pausing a worker is not modelled.
- Workers pull from their own lane directly, not through the dispatcher, so the aging results are about the dispatcher and its callers.
- Workers.BatchWorker.BeginProcessing: tracks a batch with one clock reading, where the source reads the clock for each event within the same step.
- Audit.AuditLogger.RequestFlush: states what the request itself does; waiting for it, the timeout and the drain of a caller that finds the worker dead are steps of `AuditDrain`.
- AdmissionRuns.DepthBound: holds for a fixed capacity and no depth override, since moving either moves the bound itself; enqueue handlers other than the default and the adaptive one are not modelled.
- Backpressure.IngestionApi.IngestBatch: covers the default handler or none; the adaptive one awaits the worker pool within a batch, so a batch in front of it is a run of `AdmissionRuns`.
- Backpressure.QueueManager.Enqueue: for the manager's own lanes, which have no size limit, and a resolved priority; puts suspended on a bounded lane are in `AdmissionRuns`.
- DecisionEngines.DecisionEngine.IngestOne: takes the adaptive handler not to raise; where it does, the answer is the one `Backpressure.Offer` describes.
- The worker pool's `stop`, and other calls between the two locked parts of its `start`.
- Two events under one identifier: ingestion is taken to be given distinct identifiers, which the source does not check; `InFlight.TrackKeepsAllIff` says what tracking a second one does.
- WorkerPools.WorkerPool.SetAllocation: lanes are given resolved, and a mode is stream or batch, any text other than STREAM meaning batch.
- BatchSizing.AdaptiveBatchSizer.EvaluateLane: leaves the date of a lane's last change to `Calculate`.
- The audit batch count under concurrent drains.
- QueueGrowthTracker, lane queue names, `get_metrics` dictionaries, reports, JSON history and comparator percentages: they would only add easy members.
- The Redis backend, HTTP routes beyond ingestion, dashboards, HTTP clients, signal handling, the command line and the other traffic profiles.
- Floating point: computed over the reals, so rounding inside the interpreter is not modelled.
- The benchmark pipelines' periodic snapshots, peak figures, latency lists and worker allocation figures.
