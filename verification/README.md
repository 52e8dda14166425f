# A verified model of the OCR serving pipeline

The repository turns documents into text: a gateway puts jobs on a Redis
Stream, workers reserve them, cut the pages into regions, send the regions to
an engine, and stream tokens back through an event log.  This project models
the parts of it where correctness rests on an argument rather than on one
function body, and proves those arguments.

**Delivering jobs** (`Broker`, `JobQueue`, `Delivery`, `Settling`, `Cancelling`,
`Expiry`, `Exclusive`, `Attempts`, `Retries`).  `Broker` is the stream, the pending list and the
dead-letter stream, one function a command; `JobQueue` is the queue class over
it.  `Delivery` is the protocol as a step relation: producers, any number of
workers with any number of job tasks, heartbeats, reclaims, lost replies, failing
commands and crashes, interleaved at every command.  On top of it stand delivery
at least once, what one delivery comes to when nothing interrupts it or a command
fails, what a request to cancel comes to, exclusive running in milliseconds, the
bound on attempts and the life of a job that always fails.

**What happens otherwise** (`Scenes`, `Races`, `Counting`, `Relapse`).  Timely
runs put together from pieces, from the first worker starting to the failure, in
which heartbeats go out exactly the gap apart and only reclaimed entries wait to be
registered, and with them the exact conditions of exclusive running, of the attempt
bound, of a true attempt counter and of a terminal status that lasts.

**One job** (`PageSchedule`, `TokenStream`, `EventLog`).  The page tasks with
their slots, the deduplication map and the exceptions they can raise as a state
machine; the token relay and the retry loop of the engine client as classes, and
a relay shared by the regions of a page; the event log and its two readers.

**A page** (`Sorting`, `Regions`, `GapSweep`, `XYCut`, `Tiling`, `Detection`).
The widest-gap sweep, the recursive XY-cut, tiling, and the decoding of detector
output back to page pixels.

**Text** (`Text`, `Stitching`, `PageMerge`, `LoopFilter`).  Joining region texts
and pages, and cutting off a generation that loops.

**The rate limit** (`TokenBucket`, `Rounding`).  The bucket script, its key
expiry and the retry time it announces; `Rounding` has the double arithmetic that
the announcement goes through, in whole numbers.

Loops of the source are methods with loops, proved equal to specification
functions; objects updated in place are classes; the lemmas are about the
functions.  `Basics` holds what all parts share.

## What the code does not keep

These are proved, each with a run or an input and the exact condition.

- Exclusive running holds exactly when the time an entry waits to be registered
  plus the time between heartbeats stays below the visibility timeout
  (`Races.ExclusiveIff`).  With the interval the worker uses, a timeout of five
  seconds or less never suffices (`Races.IntervalSuffices`).  A reclaimed entry
  waits for a free job slot before it is registered, and that wait has no bound of
  its own; a reserved one has its slot already.
- A worker that shuts down sends no heartbeats while it waits for its jobs: once the
  timeout has passed, what it still runs can be taken over
  (`Exclusive.StoppedEntryIsReclaimable`).
- Under the same condition, and only then, the attempts of a job stay within the
  limit plus its interruptions (`Races.AttemptBoundIff`): otherwise two workers can
  both make the last attempt (`Races.OverTheLimit`).
- Again under the same condition, and only then, the counter is the number of
  attempts begun (`Counting.CounterIsTrueIff`): otherwise a worker can write an old
  count over a newer one (`Counting.AttemptLost`).
- FAILED is not skipped on redelivery.  With one task for the job it is closed down
  for good exactly until a crash or a failing command cuts the closing down short
  while its entry is pending (`Relapse.SealedIff`, `Relapse.FailedStaysFailed`); after
  every such cut the job can be run again (`Relapse.CutRunsAgain`), and one crash
  before the acknowledgement does it (`Relapse.FailedRunsAgain`).
- COMPLETED is not final.  Once the only task of the job has written it, it lasts,
  through any number of redeliveries and crashes, exactly until a command fails in
  the processing of the job, its loading after a redelivery included, while its
  attempts are used up (`Relapse.KeptIff`, `Relapse.CompletedStaysCompleted`); then the job ends up failed and dead-lettered
  (`Relapse.LateFailure`, `Relapse.CompletedEndsFailed`,
  `Relapse.RedeliveredEndsFailed`).
- The engine client documents that it retries only while no token has been
  emitted.  It retries after tokens too (`TokenStream.RetryCanFollowTokens`);
  the stream equals the final text exactly when no retried attempt had emitted
  anything (`TokenStream.StreamIsTextIff`).
- A page whose announcement fails, or whose tokens cannot be flushed, leaves its
  duplicates waiting with a slot in hand.  The pages can all come to an end exactly
  when no page that has not ended shares the hash of such a one
  (`PageSchedule.CanFinishIff`).
- A reader of events that leaves on the job status has everything exactly when
  nothing was published after its last read (`EventLog.DrainedSawExactly`), and the
  last event of every history can be missed, whether the status is written before
  or after it (`EventLog.LastEventCanBeMissed`).
- Tiling never ends for one-row strips with an overlap (`Tiling.TilingDivergesIff`).
- Detector output with a single detection is squeezed out of shape and refused, and
  in the corner layout exactly 14 rows are read in the other layout
  (`Detection.CornersAreReadIff`, `Detection.CentresAreReadIff`).
- The wait announced to a refused client is rounded twice, and obeying it is
  enough exactly in the cases `TokenBucket.ObeyingHeaderServedIff` names; at 5 ms
  below a whole second it depends on which side of the wait the nearest double lies
  (`TokenBucket.TiesGoBothWays`).

## Model

| member | source | states |
|---|---|---|
| JobQueue.JobQueue.Enqueue | src/ocr_serving/common/queue.py:51-52 | appends the job under the next entry id and keeps the queue sound |
| JobQueue.JobQueue.Reserve | src/ocr_serving/common/queue.py:63-75 | hands out exactly the oldest entries never delivered, as many as there are up to the count, now pending for this consumer, and changes nothing else |
| JobQueue.JobQueue.Reclaim | src/ocr_serving/common/queue.py:77-95 | claims exactly the oldest entries idle for the timeout, up to the count, and hands out, oldest first, one job for each of them still in the stream: the entry with the job it carries; one gone from the stream is pending no longer; nothing else changes. In a sound queue none is gone and job i is that of claimed entry i. Without a consumer group nothing happens |
| JobQueue.OldestFirst | src/ocr_serving/common/queue.py:80-83 | an idle entry that a batch passes over is newer than all in the batch, which is then full |
| JobQueue.JobQueue.Ack | src/ocr_serving/common/queue.py:97-99 | the acknowledgement and then the deletion, nothing else; keeps a sound queue sound |
| JobQueue.JobQueue.DeadLetterJob | src/ocr_serving/common/queue.py:101-109 | one dead letter naming job and entry, then the acknowledgement and the deletion |
| JobQueue.SoundMissesNone | src/ocr_serving/common/queue.py:87-91 | in a sound queue the tombstone branch finds nothing to drop, for any batch of claimed entries |
| JobQueue.ClaimAllKeeps | src/ocr_serving/common/queue.py:80-83 | claiming a batch changes owner and time of exactly the claimed entries and who is pending not at all |
| Delivery.StepKeepsInv | src/ocr_serving/workers/cpu_worker.py:310-365 | every step of every party keeps: pending entries are in the stream, every entry is undelivered, pending or its job ended, and tasks past the terminal status have an ended job |
| Delivery.RunKeepsInv | src/ocr_serving/workers/cpu_worker.py:310-365 | the same over runs of any length |
| Delivery.AtLeastOnce | src/ocr_serving/common/queue.py:63-109 | in every interleaving every entry is undelivered, pending, or its job was given a terminal status; no pending entry is missing from the stream, so no tombstone is ever possible |
| Delivery.NoTombstones | src/ocr_serving/common/queue.py:87-91 | the tombstone branch cannot be reached in a state that keeps the invariant |
| Delivery.AckedOnlyAfterTerminal | src/ocr_serving/workers/cpu_worker.py:315-323 | whatever step takes an entry off the pending list, a terminal status had been written for its job before |
| Delivery.StepKeeps | src/ocr_serving/common/queue.py:63-109 | no step un-delivers an entry, forgets that a job ended or makes an acknowledged entry pending again |
| Delivery.FailedJobRunsAgain | src/ocr_serving/workers/cpu_worker.py:371-389 | wherever a failed job is loaded with no cancel flag, four commands lead to it being worked on with status PROCESSING; when that comes about is stated by the rows of Relapse |
| Settling.DeliverySettles | src/ocr_serving/workers/cpu_worker.py:310-389 | an uninterrupted delivery ends within eleven commands, from any state, as the verdict on the job says: missing state fails and is acknowledged, finished jobs are skipped, a cancel flag stops the job before an attempt is counted, unreadable input fails without a dead letter, a broken run is left pending until the attempts are used up and only then dead-lettered; nothing else changes |
| Settling.FromFailure | src/ocr_serving/workers/cpu_worker.py:341-365 | the failure handling marks, dead-letters and acknowledges exactly when the error is permanent or the attempts are used up, and otherwise leaves the entry pending |
| Settling.FromAck | src/ocr_serving/common/queue.py:97-99 | the last two commands take the entry off the pending list and the stream and the task off the register |
| Settling.FailingCommandSettles | src/ocr_serving/workers/cpu_worker.py:315-365 | a command that fails while a job is processed, whether it took effect or not, is an attempt that broke: run on, the job is failed, dead-lettered and off the queue if the attempts are used up, and otherwise left as the command left it |
| Settling.FailingHandlingEnds | src/ocr_serving/workers/cpu_worker.py:310-365 | a command that fails in that handling ends the task, off the register, with nothing but its own effect, and is one interruption |
| Cancelling.CheckSeesRequestIff | src/ocr_serving/workers/cpu_worker.py:374-378 | in every run from the start, a task that comes to the check is sent to cancel its job if and only if the run holds a request for that job that has not expired since, and otherwise to count the attempt |
| Cancelling.NoWorkAfterRequest | src/ocr_serving/workers/cpu_worker.py:374-384 | once the cancellation of a job is asked for, and until the request expires, no task of it that was not there already gets to counting an attempt or to the work, whatever everybody else does |
| Cancelling.RequestedNeverCounts | src/ocr_serving/workers/cpu_worker.py:374-378 | nor does any step of such a task change the attempts counter |
| Cancelling.RequestedSettlesCancelled | src/ocr_serving/common/events.py:127-134 | a delivery that is loaded after the request and not interrupted leaves an unfinished job cancelled, with no attempt counted, its entry acknowledged and deleted, and nothing dead-lettered |
| Cancelling.FailingAckKeepsCancelled | src/ocr_serving/workers/cpu_worker.py:318-320 | once the cancellation is announced, an acknowledgement that fails ends the task and leaves the job cancelled; the entry stays pending exactly if the acknowledgement took no effect |
| Cancelling.FailingDelKeepsCancelled | src/ocr_serving/common/queue.py:97-99 | so does a deletion that fails after it, with the entry no longer pending |
| Expiry.SubmittedWaits | src/ocr_serving/gateway/main.py:240-252 | a submitted job waits, with no attempt counted, until one of its own tasks takes a command or its state expires |
| Expiry.ExpiredSettlesFailed | src/ocr_serving/workers/cpu_worker.py:367-371 | a delivery that is loaded after the state of its job has expired and is not interrupted leaves the job failed with no attempt counted, its entry acknowledged and deleted, and nothing dead-lettered |
| Exclusive.TimedStep | src/ocr_serving/workers/cpu_worker.py:231-261 | one step of any party keeps every registered claim younger than the last heartbeat plus the longest wait to be registered, and one runner and one holder an entry |
| Exclusive.ExclusiveRunning | src/ocr_serving/workers/cpu_worker.py:231-261 | when the longest wait to be registered plus the heartbeat gap stay below the visibility timeout, no two workers that are not shutting down ever run one entry, and nothing they run or have registered can be reclaimed |
| Races.TwoRunners | src/ocr_serving/workers/cpu_worker.py:247-261 | otherwise, for any such delays, a timely run without shutdowns from the first worker's start to two workers running one entry |
| Races.ExclusiveIff | src/ocr_serving/workers/cpu_worker.py:231-261 | exclusive running over all timely runs holds if and only if the sum of the delays is below the timeout, whatever shorter wait reserved entries have and whatever the least pause between heartbeats |
| Races.IntervalSuffices | src/ocr_serving/workers/cpu_worker.py:214-257 | the same for entries registered at once when reserved and after a wait when reclaimed, and heartbeats at the interval max(timeout / 3, 5 s) or late by some slack, as a condition on the settings |
| Exclusive.CrashOrphans | src/ocr_serving/workers/cpu_worker.py:310-329 | the crash of a worker leaves what it ran pending, unchanged, and in nobody's register |
| Exclusive.OrphanRun | src/ocr_serving/common/queue.py:77-83 | until somebody reclaims it such an entry keeps owner and claim time, or its job has ended, whatever else happens |
| Exclusive.CrashedEntryIsReclaimable | src/ocr_serving/common/queue.py:77-95 | once the timeout has passed since its last claim, every worker that is not shutting down can take over a crashed worker's entry, unless its job ended |
| Exclusive.StopOrphans | src/ocr_serving/workers/cpu_worker.py:218-223 | a worker that shuts down leaves what it runs pending and in the register of nobody who sends heartbeats, while it goes on running it |
| Exclusive.StoppedEntryIsReclaimable | src/ocr_serving/workers/cpu_worker.py:218-223 | so once the timeout has passed since its last claim any other worker can take that entry over, unless its job ended |
| Exclusive.HeartbeatsIff | src/ocr_serving/workers/cpu_worker.py:196-223 | in every run, a worker sends heartbeats if and only if it has been started and has neither crashed nor begun to shut down since |
| Attempts.StepBounded | src/ocr_serving/workers/cpu_worker.py:341-389 | with at most one task for the job, every step keeps the counter within the limit plus the interruptions, with room for one more whenever the job will be tried again |
| Attempts.AttemptBound | src/ocr_serving/workers/cpu_worker.py:341-389 | in every run with single ownership the attempts counter is at most the limit plus the number of times a run of the job was interrupted |
| Attempts.AttemptBoundInTime | src/ocr_serving/workers/cpu_worker.py:231-389 | the same bound for every run in which heartbeats come in time and no worker is shut down, with no assumption on ownership |
| Scenes.AfterAttempts | src/ocr_serving/workers/cpu_worker.py:341-355 | for every number of attempts below the limit, a timely run from the start in which so many attempts broke, none was interrupted, and the job is pending and held by nobody |
| Races.OverTheLimit | src/ocr_serving/workers/cpu_worker.py:378-389 | for all settings with delays that are too long, a run from the start, with no attempt interrupted, that takes the counter to one over the limit |
| Races.AttemptBoundIff | src/ocr_serving/workers/cpu_worker.py:341-389 | over all timely runs without shutdowns the bound holds if and only if the sum of the delays is below the timeout |
| Counting.CounterIsTrue | src/ocr_serving/workers/cpu_worker.py:378-389 | with at most one task for the job and its state kept, the counter is the number of attempts begun in the run |
| Counting.AttemptLost | src/ocr_serving/workers/cpu_worker.py:378-389 | for all settings with delays that are too long, a run from the start in which two attempts are begun, both tasks are at work and the counter is one |
| Counting.CounterIsTrueIff | src/ocr_serving/workers/cpu_worker.py:378-389 | over all timely runs without shutdowns the counter is the number of attempts begun if and only if the sum of the delays is below the timeout |
| Relapse.SealedIff | src/ocr_serving/workers/cpu_worker.py:341-371 | with one task for it a job that is closing down, or off the queue, stays so through exactly the steps that do not cut its closing down short: a crash of its worker, or a failing command other than an acknowledgement that takes effect, while its entry is pending |
| Relapse.FailedStaysFailed | src/ocr_serving/workers/cpu_worker.py:354-371 | in every run with one task for the job that makes no such cut, however often it was interrupted before, a job is never loaded or worked on again once FAILED is written, stays failed while its state is kept, and has its entry gone when its task is over |
| Relapse.RaiseSealedIff | src/ocr_serving/workers/cpu_worker.py:341-365 | a command of the closing down that fails, or the write of FAILED when it fails after taking effect, ends the task and leaves the job closed down if and only if its entry is no longer pending |
| Relapse.CutRunsAgain | src/ocr_serving/workers/cpu_worker.py:354-389 | from every state and every such cut, with a worker alive and no cancel flag, seven steps lead to the failed job being worked on with status PROCESSING |
| Relapse.FailedRunsAgain | src/ocr_serving/workers/cpu_worker.py:354-371 | whatever the settings, a run with one interruption: the worker crashes before the acknowledgement, another takes the entry over, loads the failed job and works on it |
| Relapse.KeptIff | src/ocr_serving/workers/cpu_worker.py:310-371 | while a completed job has no task in the middle of its processing, exactly the steps that do not spoil it keep it so, its expiry aside: spoiling is a command of one of its tasks failing at the loading, the announcement or the acknowledgement with the attempts used up |
| Relapse.CompletingKeeps | src/ocr_serving/workers/cpu_worker.py:315-323 | the write of COMPLETED by the only task of the job leads there; when that write takes effect but fails, if and only if attempts are left |
| Relapse.CompletedStaysCompleted | src/ocr_serving/workers/cpu_worker.py:310-371 | from the write of COMPLETED by the only task of the job it stays completed, and is never worked on, in every run that does not spoil it, with any number of redeliveries, crashes and tasks |
| Relapse.LateFailure | src/ocr_serving/workers/cpu_worker.py:315-365 | when a command fails in the processing of a job that is completed, or the write of COMPLETED fails after taking effect, the job ends failed, dead-lettered and off the queue if its attempts are used up, and otherwise stays completed |
| Relapse.CompletedEndsFailed | src/ocr_serving/workers/cpu_worker.py:315-365 | whatever the settings, a run with nothing interrupted from the start to a completed job, and on to that job failed, dead-lettered and its task over |
| Relapse.RedeliveredEndsFailed | src/ocr_serving/workers/cpu_worker.py:315-371 | whatever the settings, a run from the start to a job completed in its last attempt whose worker crashes before the acknowledgement, and on: another takes the entry over, the loading fails, and the job ends failed and dead-lettered |
| Attempts.Elsewhere | src/ocr_serving/workers/cpu_worker.py:310-365 | steps that are not about a job leave its hash, its tasks, its entry and its dead letters as they are |
| Retries.StepAt | src/ocr_serving/workers/cpu_worker.py:341-389 | for a job that always fails, each step about it brings the end strictly nearer, each try counts exactly one attempt, and status, dead letters and counter agree with the place reached |
| Retries.TriedExactly | src/ocr_serving/workers/cpu_worker.py:341-365 | such a job is tried at most as often as the limit says, is failed or dead-lettered only after exactly that many tries, and in the end is failed, dead-lettered once and gone from pending list and stream; at most 20 steps an attempt and 15 more |
| Retries.NeverStuck | src/ocr_serving/workers/cpu_worker.py:207-261 | until then some step of its task, a read of a new entry, or after the timeout a reclaim is always possible |
| PageSchedule.StepKeepsInv | src/ocr_serving/workers/cpu_worker.py:464-607 | every step, tasks that raise included, keeps slots, owners of hashes, landed pages and the done counter consistent |
| PageSchedule.StepDescends | src/ocr_serving/workers/cpu_worker.py:474-488 | every step lowers a measure over all page tasks |
| PageSchedule.NeverStuck | src/ocr_serving/workers/cpu_worker.py:475-476 | with at least one slot some step is possible until all pages have ended, although duplicates wait while holding one, as long as no page is doomed to wait for a dropped one |
| PageSchedule.CanFinishIff | src/ocr_serving/workers/cpu_worker.py:544-591 | all pages can be brought to an end if and only if no page that has not ended shares the hash of one whose task raised without handing over its text |
| PageSchedule.AnnouncementDooms | src/ocr_serving/workers/cpu_worker.py:555-563 | for every job whose first two pages share a hash, four steps from the start in which one failed publish dooms the second |
| PageSchedule.EveryRunEnds | src/ocr_serving/workers/cpu_worker.py:464-510 | every run has at most seven steps a page, can stop only with all pages ended or one doomed, and then exactly the pages dropped by an exception are missing from the result |
| PageSchedule.EveryRunCompletes | src/ocr_serving/workers/cpu_worker.py:464-510 | when no task raises, a run can stop only with all pages finished, and then every index is there once with the promised content and pages_done is the page count |
| PageSchedule.EachHashReadOnce | src/ocr_serving/workers/cpu_worker.py:544-591 | with deduplication, of the pages with one hash exactly one was read; the others point to it and carry its stitched, unfiltered text |
| PageSchedule.RaisedReadingShares | src/ocr_serving/workers/cpu_worker.py:565-591 | when the reading of a page raises, in every run from there its duplicates land with exactly the partial text if it was handed over, those waiting can go on, and otherwise none of them ever lands or can go on |
| PageSchedule.ResidentMost | src/ocr_serving/workers/cpu_worker.py:490-500 | in every run at most all pages, and at most one more than slots and prefetch together, are in memory at a time |
| PageSchedule.ResidentReached | src/ocr_serving/workers/cpu_worker.py:490-500 | for every number within both limits a run from the start that gets so many into memory |
| PageSchedule.SortedResult | src/ocr_serving/workers/cpu_worker.py:412-413 | sorted by index, page k of the result is page k of the document |
| TokenStream.TokenRelay.Call | src/ocr_serving/workers/cpu_worker.py:107-112 | nothing is reordered or sent twice: payloads plus buffer grow by the delta; flushes exactly on size or time; afterwards the buffer is below flush_chars; a publish that fails raises and loses exactly the payload it carried |
| TokenStream.TokenRelay.Flush | src/ocr_serving/workers/cpu_worker.py:114-124 | hands the buffer to publish as one payload with the next sequence number, or nothing if it is empty; a publish that fails uses up the number and the payload |
| TokenStream.StreamStats.ConsumeStream | src/ocr_serving/common/engine.py:176-209 | the deltas of a response are appended to the text and to the relay, in order, and the counts follow the usage rules, up to the end of the response or the delta whose publishing fails, which raises and loses one payload |
| TokenStream.TryOnce | src/ocr_serving/common/engine.py:134-173 | tries again exactly on a transient fault of the engine with retries left, also after tokens were emitted, and never after a failed publish; text and count restart, the prompt count does not |
| TokenStream.OcrPageStream | src/ocr_serving/common/engine.py:125-174 | the relay receives all deltas of all attempts as far as they went, the statistics are those of the last attempt, whose text ends what was streamed, at most max_retries + 1 attempts; the counts are those the next three rows describe; a failed publish ends the request as an error, so at most one payload is lost |
| TokenStream.CompletionCount | src/ocr_serving/common/engine.py:192-205 | on the chunks alone: the completion count is the last report of the last attempt, plus the non-empty deltas from that chunk on at which no attempt had yet brought a prompt count; without a report it is those deltas alone |
| TokenStream.ReportIsCount | src/ocr_serving/common/engine.py:192-205 | a last report that comes with a prompt count, or after one, is the completion count |
| TokenStream.PromptIsLastReport | src/ocr_serving/common/engine.py:192-205 | the prompt count is the last that any attempt reported |
| TokenStream.PlayedIsScript | src/ocr_serving/common/engine.py:132-174 | when no publish fails the attempts made are exactly those of the engine up to the first that does not end in a transient fault, or all that are allowed |
| TokenStream.RelayPage | src/ocr_serving/workers/cpu_worker.py:565-589 | for every interleaving of the regions of a page on their shared relay, and whichever publishes fail, what it holds and has issued is exactly what was said, all of it issued after a closing flush; each region's characters, picked out, are what that region said; payloads are lost only by failing publishes |
| TokenStream.EachIsHeard | src/ocr_serving/workers/cpu_worker.py:572-587 | picking one region's characters out of everything said gives its deltas in order |
| TokenStream.StreamIsTextIff | src/ocr_serving/common/engine.py:153-171 | what was streamed is the final text if and only if no retried attempt had emitted anything |
| TokenStream.RetryCanFollowTokens | src/ocr_serving/common/engine.py:136-145 | a run in which a retry follows emitted tokens and the stream repeats text |
| TokenStream.FallbackCountIff | src/ocr_serving/common/engine.py:192-205 | without usage reports the token count is the number of deltas if and only if no earlier attempt left a prompt count behind (or there are no deltas) |
| EventLog.Stream.Publish | src/ocr_serving/common/events.py:29-42 | appends under a strictly larger id and trims only from the front, never below the cap |
| EventLog.SendBatch | src/ocr_serving/gateway/main.py:395-400 | the loop over a batch delivers up to and including the first terminal event, or the whole batch on the socket |
| EventLog.EventSource | src/ocr_serving/gateway/main.py:378-400 | the reading loop is the specified session |
| EventLog.SessionIsSegment | src/ocr_serving/gateway/main.py:378-400 | over an untrimmed log a session delivers exactly the stretch behind its last id, for all batch cuts and appends, and ends at the first terminal event |
| EventLog.RoundDelivers | src/ocr_serving/gateway/main.py:386-400 | a round with the client there delivers all there is to read up to the count, on the event stream unless a terminal event comes first |
| EventLog.DoneIffTerminalDelivered | src/ocr_serving/gateway/main.py:395-400 | whatever is read and trimmed, a session is over because of an event if and only if it has delivered one that says complete, failed or cancelled, which on the event stream is its last |
| EventLog.NothingAfterLeaving | src/ocr_serving/gateway/main.py:386-387 | once the client has left, nothing more is delivered |
| EventLog.ResumeIsSeamless | src/ocr_serving/common/events.py:3-7 | splitting a session after any event and resuming there gives one unbroken stretch, and the same events when both reach the end of the job |
| EventLog.OnlyWhatWasRead | src/ocr_serving/gateway/main.py:387-400 | a session delivers nothing beyond the window of its last read |
| EventLog.DrainedSawExactly | src/ocr_serving/gateway/main.py:388-392 | a session that left on the job status had delivered exactly what was published up to its last read, and the whole history if and only if nothing was published after that |
| EventLog.LastEventCanBeMissed | src/ocr_serving/gateway/main.py:388-392 | for every history and every moment at which the status becomes terminal, a session that leaves on the status without the last event |
| EventLog.SocketExtendsStream | src/ocr_serving/gateway/main.py:473-490 | on the same reads the socket delivers what the event stream does and then at most the rest of the batch |
| EventLog.TrimmedSession | src/ocr_serving/common/events.py:29-42 | with trimming, ids still only rise, nothing is delivered twice, and only trimmed events are missing |
| GapSweep.SweepWidestGap | src/ocr_serving/workers/layout.py:200-215 | the sweep computes the specified gap |
| GapSweep.WidestGapIsWidest | src/ocr_serving/workers/layout.py:200-215 | what it returns is an empty band as wide as any, the first of the widest, with nothing touching its middle |
| GapSweep.NoGapIffCovered | src/ocr_serving/workers/layout.py:200-205 | it returns nothing if and only if the projections cover the whole span |
| XYCut.AssignReadingOrder | src/ocr_serving/workers/layout.py:245-264 | the same regions but for their places, numbered 0, 1, 2, ..., each preceding only what the geometry lets it precede; for boxes that are not inside out they are in the order by bands: at every depth below 16 split at the widest empty band of either axis that reaches a hundredth of the page width and 8 pixels, and by corners where there is none |
| XYCut.ChooseCutIsWidest | src/ocr_serving/workers/layout.py:229-236 | there is no cut if and only if no empty band on either axis reaches min_gap; otherwise the cut is in the middle of a band as wide as any on both axes, the vertical one on a tie and the first of its axis |
| XYCut.OrderIsByBands | src/ocr_serving/workers/layout.py:218-242 | the order is the one by bands, which names regions and empty bands only |
| XYCut.ByBandsIsUnique | src/ocr_serving/workers/layout.py:218-242 | and there is exactly one such order |
| XYCut.WidestBandIsReadAcross | src/ocr_serving/workers/layout.py:229-241 | everything before the widest band of a page is read before everything behind it |
| XYCut.OrderIsPermutation | src/ocr_serving/workers/layout.py:218-242 | the order has the same regions |
| XYCut.OrderIsCanonical | src/ocr_serving/workers/layout.py:218-242 | with distinct top left corners the order does not depend on the input order |
| XYCut.OrderIsIdempotent | src/ocr_serving/workers/layout.py:218-242 | ordering an ordered list changes nothing, for all inputs |
| XYCut.AssignTwice | src/ocr_serving/workers/layout.py:245-264 | assigning the reading order twice is assigning it once, numbers included |
| XYCut.CutSeparates | src/ocr_serving/workers/layout.py:229-240 | a chosen cut leaves both sides inhabited and min_gap apart, so the degenerate-split branch is unreachable |
| XYCut.OrderFollowsGeometry | src/ocr_serving/workers/layout.py:218-242 | whatever precedes either ends min_gap before the other begins on an axis, or has a top left corner not after it; at every depth |
| XYCut.AboveLeftIsReadFirst | src/ocr_serving/workers/layout.py:245-264 | a box wholly above and left of another is read first |
| Tiling.TileRegion | src/ocr_serving/workers/layout.py:271-284 | watched for any number of rounds, the loop over a region has ended exactly when the specification says so, and then with the specified strips |
| Tiling.Tile | src/ocr_serving/workers/layout.py:267-287 | for all inputs: the specified tiles, numbered from 0, exactly when every loop ends within the rounds watched, and always if they advance and are watched for a round a row |
| Tiling.TilingDivergesIff | src/ocr_serving/workers/layout.py:276-284 | for an over-tall region the loop runs forever if and only if max_height is 1 and overlap at least 1 |
| Tiling.TallRegionCount | src/ocr_serving/workers/layout.py:276-284 | the number of tiles is 1 plus (height - max_height) / step rounded up |
| Tiling.TallRegionStrip | src/ocr_serving/workers/layout.py:278-281 | each tile is a strip of its region within the budget |
| Tiling.TallRegionOverlap | src/ocr_serving/workers/layout.py:276-284 | neighbours share exactly min(overlap, max_height - max_height // 2) rows and each adds new ones |
| Tiling.TallRegionCovered | src/ocr_serving/workers/layout.py:276-284 | every row is in some tile |
| Tiling.TilingKeepsOrder | src/ocr_serving/workers/layout.py:267-287 | tiles keep the order of their regions, every region has one, all fit the budget |
| Tiling.TileTwice | src/ocr_serving/workers/layout.py:267-287 | tiling twice is tiling once |
| Detection.PageFitsCanvas | src/ocr_serving/workers/layout.py:35-43 | the resized page lies in the canvas and fills it one way |
| Detection.PageIsCentred | src/ocr_serving/workers/layout.py:35-43 | both sides are the page scaled by the one scale to the nearest pixel, ties to even, and the margins on opposite sides differ by at most one |
| Detection.LetterboxRoundTrip | src/ocr_serving/workers/layout.py:112-126 | a page box of whole pixels and sides of 16 or more comes back unchanged from the canvas |
| Detection.KeptBoxIsTight | src/ocr_serving/workers/layout.py:117-126 | a kept box lies in the page, contains the clamped back-projection and exceeds it by less than a pixel a side |
| Detection.CropOfPageRegion | src/ocr_serving/workers/layout.py:290-298 | cropping a region of the page never falls back to the whole image and goes beyond it by the margin on each side, or to the edge of the page |
| Detection.CropFallsBackIff | src/ocr_serving/workers/layout.py:290-298 | any region is replaced by the whole image if and only if, margin and all, no column or no row of the page is covered by it |
| Detection.CentresAreReadIff | src/ocr_serving/workers/layout.py:95-105 | detections exported in the centre layout are read back if and only if there is not exactly one |
| Detection.CornersAreReadIff | src/ocr_serving/workers/layout.py:84-94 | those in the corner layout are read back if and only if there are neither one nor 14 of them |
| Detection.LayoutsAgree | src/ocr_serving/workers/layout.py:87-110 | both layouts give the same candidates when suppression keeps everything |
| Detection.DecodeBoxes | src/ocr_serving/workers/layout.py:112-128 | the loop over boxes yields the specified regions |
| Detection.DecodeDetections | src/ocr_serving/workers/layout.py:60-128 | refuses exactly what cannot be read; otherwise every region lies in the page, carries text, crops without fallback and is made of a detection that reaches the threshold; with the corner layout every such detection is used, with the centre layout exactly those that suppression keeps |
| Detection.RegionsInOrder | src/ocr_serving/workers/layout.py:112-128 | the regions come in the order of the detections, one for each that carries text and is large enough |
| Detection.SuppressedIsGone | src/ocr_serving/workers/layout.py:104-110 | with the centre layout what suppression drops yields no region and what it keeps does |
| Detection.SkippedIff | src/ocr_serving/workers/layout.py:26-32 | exactly two classes carry no text, and a class number the table does not have is taken for text |
| Detection.Detect | src/ocr_serving/workers/layout.py:170-181 | at least one region, numbered in reading order and in the page, whatever the detector puts out; the whole page when it fails or its output is refused |
| Detection.DecodedRegionsAreUsable | src/ocr_serving/workers/layout.py:112-128 | every region lies in the page, carries text, and crops without fallback |
| Stitching.OverlapIsLongest | src/ocr_serving/workers/postprocess.py:81-88 | the largest matching size in 21..min(400, both lengths), and 0 if and only if there is none |
| Stitching.AttachKeeps | src/ocr_serving/workers/postprocess.py:95-99 | attaching a part leaves what is there, opens with a blank line and adds the part short of its overlap and of the white space right behind that |
| Stitching.PartsInOrder | src/ocr_serving/workers/postprocess.py:91-93 | the parts are the normalised texts at the places where there is any, first to last |
| Stitching.StitchRegions | src/ocr_serving/workers/postprocess.py:91-100 | the loop computes the specified text |
| Stitching.StitchedIsStripped | src/ocr_serving/workers/postprocess.py:91-100 | the text neither begins nor ends with white space |
| Stitching.StitchLosesNothing | src/ocr_serving/workers/postprocess.py:91-100 | white space aside, every part is found whole and in order, and nothing else is in the text |
| Stitching.PlainJoinIsConcat | src/ocr_serving/workers/postprocess.py:98-99 | without overlap removal the text is the parts end to end |
| PageMerge.MergePages | src/ocr_serving/workers/postprocess.py:103-114 | the loop computes the specified accumulation over the kept pages |
| PageMerge.KeptInOrder | src/ocr_serving/workers/postprocess.py:103-107 | the kept pages are the stripped texts at the places where there is any, first to last |
| PageMerge.AccumulatorIsLocal | src/ocr_serving/workers/postprocess.py:108-113 | the accumulator, which sees only its own end, decides as looking at neighbouring pages would |
| PageMerge.MergeIsLocal | src/ocr_serving/workers/postprocess.py:103-114 | the merged text is the contributions of the pages; the final strip removes nothing |
| PageMerge.MergeErased | src/ocr_serving/workers/postprocess.py:103-114 | white space aside, all pages in order short of exactly one hyphen at each word split across pages |
| LoopFilter.RepetitionRatio | src/ocr_serving/workers/postprocess.py:46-58 | the dictionary count is the count of lines equal to an earlier one in the window |
| LoopFilter.FilterDegenerate | src/ocr_serving/workers/postprocess.py:61-78 | the loop computes the specified cut |
| LoopFilter.FlaggedIff | src/ocr_serving/workers/postprocess.py:46-67 | a text is flagged if and only if at least the threshold share of its long lines repeat, when stripped, one of the thirty before; with fewer than six such lines only if the threshold is not positive |
| LoopFilter.FlaggedIsCutAtFirstRepeat | src/ocr_serving/workers/postprocess.py:61-78 | a flagged text is cut to the longest line prefix whose long lines are pairwise distinct; the next line repeats one of them |
| LoopFilter.FilteringIsFinal | src/ocr_serving/workers/postprocess.py:61-78 | at a positive threshold a filtered text is never flagged again |
| TokenBucket.RateLimiter.Check | src/ocr_serving/common/ratelimit.py:74-90 | decides and leaves the bucket as if keys never expired, and announces the wait in hundredths of a second; fails open when switched off or unreachable; touches no other key |
| TokenBucket.TakeStaysInRange | src/ocr_serving/common/ratelimit.py:33-52 | tokens stay between 0 and the burst on any clock |
| TokenBucket.AdmissionBound | src/ocr_serving/common/ratelimit.py:33-55 | in every window of every run the admitted cost is at most burst plus rate times the forward steps of the clock |
| TokenBucket.SteadyAdmissionBound | src/ocr_serving/common/ratelimit.py:33-55 | on a clock that never steps back: burst plus rate times the window in seconds |
| TokenBucket.GrantedIff | src/ocr_serving/common/ratelimit.py:33-55 | a request on a fresh key is granted if and only if, counted from every request before it and from itself, the cost admitted since and its own are at most burst plus rate times the forward steps of the clock |
| TokenBucket.RemainingIsLeast | src/ocr_serving/common/ratelimit.py:45-55 | what the client is told to have left is the floor of the least of those differences after the decision |
| TokenBucket.ExpiryIsInvisible | src/ocr_serving/common/ratelimit.py:36-43 | when the key expires the bucket would be full anyway |
| TokenBucket.RetryIsExact | src/ocr_serving/common/ratelimit.py:47-52 | a refused cost within the burst is granted from retry_after on and at no earlier millisecond, even with refused requests in between |
| TokenBucket.AboveBurstNeverGranted | src/ocr_serving/common/ratelimit.py:47-52 | a cost above the burst is never granted |
| Rounding.HundredthsOf | src/ocr_serving/common/ratelimit.py:88 | what dividing milliseconds by 1000 in doubles and rounding to two places gives, ties decided by the side the double lies on |
| TokenBucket.HundredthsSufficeIff | src/ocr_serving/common/ratelimit.py:88 | the announced hundredths cover the wait if and only if its last digit is 0, above 5, or 5 with the double above the tie |
| TokenBucket.HeaderSufficesIff | src/ocr_serving/gateway/auth.py:61-65 | the whole seconds of the header cover the wait if and only if it is at most a second, whole seconds, within 4 ms below one, or 5 ms below one with the double above it |
| TokenBucket.ObeyingHeaderServedIff | src/ocr_serving/gateway/auth.py:53-65 | a client that waits as told and asks again alone is served exactly in those cases and refused in all others |
| TokenBucket.TiesGoBothWays | src/ocr_serving/common/ratelimit.py:88 | 8995 ms are announced as 8 s and 1995 ms as 2 s |

## Left out

- Redis, HTTP, PostgreSQL, files and PDFs: only the stream, pending list, hash, flag and log the core reads and writes.
- Deskewing, contrast, non-maximum suppression, rendering and perceptual hashing: foreign code; the hash of a page and the suppression are parameters.
- Unicode normalisation and the regular expressions of `normalize_text`: a parameter, whose result is stripped; `isalpha` is a parameter too.
- Page quota, authentication, idempotency keys, artifacts, metrics, logging, settings, retention, deployment and the mock engine.
- Streaming with `replay=false`, which has no promise of losing nothing.
- Regions and pages are values: that `assign_reading_order` and `tile` renumber the caller's own region objects in place is not captured, only the numbers they end with.
- Coordinates, scores and tokens of the bucket are exact reals (cut positions are counted in half pixels); only the announced wait is modelled in doubles.
- TokenBucket.HeaderSufficesIff: for waits below 2^53 ms, as far as milliseconds are whole doubles; so are TokenBucket.HundredthsSufficeIff and TokenBucket.ObeyingHeaderServedIff.
- JobQueue.JobQueue.Reserve: the filter on entries without a job id, which do not occur in this model.
- JobQueue.JobQueue.Reclaim: the same filter.
- JobQueue.JobQueue.DeadLetterJob: the reason text, and trimming the dead-letter stream to about a thousand entries; it is kept whole.
- Delivery.AtLeastOnce: what a job writes besides status and attempts (pages_done, result paths, events) is not in the protocol model; the work on the pages is one step with four outcomes.
- Delivery.StepKeepsInv: entries without a job id do not occur, the broker loses no data, and taking the list of registered entries and claiming them is one step of the heartbeat.
- Exclusive.ExclusiveRunning: a worker that drains its jobs after a stop signal sends no heartbeats, and nothing is claimed about it (the conditions of Races and Counting are over runs without shutdowns, except Races.ExclusiveIff); time is in whole milliseconds, so a third of the timeout is rounded up.
- Races.TwoRunners: a worker may reclaim at any moment; that its loop looks for old entries only every max(timeout / 2, 10 s) is not modelled, so the run may fall between two such looks.
- Races.AttemptBoundIff: a command is sent once; the client is made with `retry_on_timeout`, and an increment of the attempts that is sent again after its reply timed out would count two for one attempt with nothing interrupted.
- Counting.CounterIsTrueIff: for the same reason holds for commands that are sent once.
- Attempts.AttemptBound: an interruption is a crash or a failing command outside the part of a run that has its own failure handling; an entry lost on the way to a worker is none.
- Retries.TriedExactly: says that the steps are bounded and one is always possible, not that the scheduler takes it.
- The limit on jobs a worker runs at once is not in the protocol model: any number of tasks is allowed, which only adds runs; waiting for a slot is the registration delay.
- PageSchedule.StepKeepsInv: cancellation of the job, which ends all page tasks, and an exception of the page producer are not modelled.
- PageSchedule.EveryRunEnds: whether an exception of a page task is raised again after the last gather is not modelled.
- PageSchedule.EveryRunCompletes: for runs without cancellation of the job.
- TokenStream.TokenRelay.Flush: the swap of the buffer and the step of the sequence number, which happen before the source awaits, are one step.
- TokenStream.OcrPageStream: an error of the callback that is itself an httpx transport error does not occur; a failed publish is never retried.
- EventLog.Stream.Publish: ids count up from the clock; how much is trimmed is a parameter, within the cap.
- EventLog.EventSource: which part of the history each read sees, whether the client has left and whether the job is over are parameters of each round; keepalives and socket errors are not modelled.
- TokenBucket.RateLimiter.Check: the clock of the caller and the clock that expires keys are one.
- Detection.DecodeDetections: the output of one image at a time; the iou threshold is part of the suppression parameter.
- Tiling.Tile: the source does not count rounds; the count is what lets a loop that never ends be watched.
