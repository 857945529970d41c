# Verified model of the log delivery pipeline

A Dafny model of what happens to a log entry between the call that logs it and the end of its
delivery, and proofs about every run of it. `dafny verify dfyconfig.toml` checks the whole project.

| file | what it models |
|---|---|
| `Prelude.dfy`, `LogEntries.dfy` | shared vocabulary: optional values, subsequences, the log entry |
| `Sanitizer.dfy`, `SanitizerReach.dfy` | redaction of a context, which may be a cyclic graph; what it does not reach |
| `LogFilter.dfy` | the filter step |
| `MemoryBuffer.dfy` | byte accounting, the tracker, the buffer's limits, the buffer |
| `FlushScheduler.dfy`, `FlushPool.dfy` | the bounded queue of batches; the queue together with its workers |
| `FlushInterleavings.dfy` | producers, flush callers, the timer, `destroy` and workers in parallel |
| `FlushCustody.dfy`, `FlushProgress.dfy` | where entries are; the queue drains and calls end |
| `FlushReceipt.dfy`, `FlushShutdown.dfy` | what counts as sent and as failed; what `destroy` delivers and leaves behind |
| `FlushTimers.dfy`, `FlushDeadlock.dfy` | flushes that hold the buffer's lock; which configurations can hang |
| `FlushCrew.dfy`, `FlushOutcome.dfy` | states with many workers sending; what a caller may conclude from its outcome |
| `CircuitBreaker.dfy` | the breaker, and the breaker without overlapping calls |
| `BreakerInterleavings.dfy`, `BreakerBounds.dfy` | overlapping calls; exact bounds on probes, cool-down |
| `BreakerCallers.dfy` | how many overlapping calls it takes to exceed the limit on probes |
| `ResilientTransport.dfy` | retry with backoff, breaker, fall-back to the dead letter queue |
| `MemoryDlq.dfy`, `FileDlq.dfy` | the two dead letter queues |
| `ServiceDlq.dfy`, `ServiceBreaker.dfy` | the running service with its unlocked memory dead letter queue, and with its breaker |
| `LokiFormat.dfy` | grouping, stable sorting by decimal string, timestamps |

Objects whose methods change fields are classes. Each method is proved against a function of the old
fields (`BreakerRules`, `FlushRules`, `BufferPolicy`, ...), and the machines for parallel runs are
built from the same functions, so what is proved of a run speaks of the code of the methods. In a
machine, a step is one locked section, one unlocked read or write of a shared field, or the end of a
foreign call; a run is any sequence of enabled steps. History (`books`, `period`, `admitted`,
`leftOver`, `added`, `flushed`, `offered`) is only recorded, never read by a step.

## Findings

Where the code does less than its documentation or its shape suggests, the model follows the code,
and the exact condition is proved.

- The buffer's timer calls `flush` while it holds the buffer's lock, and a worker takes that lock to
  update its metrics before it signals the waiting caller. With metrics on, a timer flush can hang for
  good and block all producers: after its own send goes well, or with its batch still queued behind
  workers whose sends went well (`FlushDeadlocks.TimerFlushFinishesIff`). A service is free of this
  exactly if metrics or automatic flushing are off, or the buffer has no room for an entry
  (`FlushDeadlocks.EveryCallCanFinishIff`).
- A caller of `flush` can raise although its batch was sent: an error in its worker's metrics update
  counts as the batch's error. That can happen exactly if metrics are on, the buffer has room for an
  entry, and the update can raise (`FlushOutcomes.EveryOutcomeIsTruthfulIff`). Nothing in the buffer and
  the transports of the repository is known to make it raise; a transport of one's own can.
- `half_open_requests` does not bound the probes running at once: calls admitted earlier take probes
  out of the count (`BreakerBounds.LiveProbesBoundedIffNoHazard`). It takes more calls under way than
  `half_open_requests` (`BreakerCallers.ProbeLimitIffFewCallers`), which in the service takes
  `max_concurrent_flushes` above `half_open_requests` (`ServiceBreakers.ServiceProbeLimitIff`).
- ARCHITECTURE.md speaks of bounded-memory policies. What is bounded is 200 bytes for each entry; the
  estimated bytes can exceed the limit after an add (`BufferPolicy.MemoryLimitKeptIffTiny`).
- ARCHITECTURE.md speaks of a bounded memory dead letter queue. Without a lock, K workers overshoot
  by K - 1 letters, or pop from an empty list if the limit is below K; the rest of that batch is lost.
  K is `max_concurrent_flushes` (`ServiceDlqs.ServiceQueueBoundIsAttained`,
  `ServiceDlqs.ServicePopIsSafeIff`).
- The file dead letter queue recurses without end when its newest line exceeds the file limit, and
  the count `add_batch` returns omits letters dropped by trimming the file: it is right exactly if the
  untrimmed queue fits. When `add_batch` raises, the transport counts none of the letters it dropped.
- A value that JSON has no form for, a set in a context say, passes the sanitiser, makes the send of its
  batch fail while the batch is formatted, and then makes `json.dumps` raise in the file dead letter queue,
  where its letter is queued already. From then on every `add_batch` raises and nothing reaches the file,
  until the letter has been pushed out (`UnwritableLetters.BlockedIff`, `UnwritableLetters.BlockedRun`).
- Sanitising does not look into a list inside a list: with `{"k": [["a@b.co"]]}` the address stays, and
  so does every sensitive key below such a list (`SanitizerReach.SecretRemainsIff`,
  `SanitizerReach.NestedListKeepsSecret`). Keys themselves, labels, identifiers and metadata are never
  redacted.
- A dead letter whose text holds U+0085, U+2028 or U+2029 is written as one line and read as several.
- Streams are sorted by decimal string, which can disagree with time order between times of different
  lengths and always does between times before 1970 of one length (`LokiFormat.StreamInTimeOrderIff`,
  `Numerals.StringOrderIff`). Fractions of a second before 1970 are converted wrongly, and from 2^34
  seconds on, in the year 2514, the end of a second comes out one second late
  (`LokiFormat.TimestampExactIff`).
- Filtering is idempotent only with a length limit of at least ten, for messages not redacted, or if the
  cut mark of redaction is itself detected (`LogFilters.FilterIsIdempotentIff`).

## Model

| member | source | states |
|---|---|---|
| `FlushCustody.ExactlyOnePlace` | src/logs_interceptor/application/log_service.py:210-275 | In every reachable state of producers, flush callers, a firing timer, `destroy` and workers, an entry the buffer accepted is in exactly one place, once: buffered, held by a caller, queued, being sent, sent, failed, dropped by a limit, or cleared with the buffer |
| `FlushCustody.NothingFromNowhere` | src/logs_interceptor/application/log_service.py:210-275 | An entry the buffer did not accept, a destroyed buffer's included, is in none of those places |
| `FlushCustody.NothingLostAtShutdown` | src/logs_interceptor/application/log_service.py:326-351 | With the buffer destroyed, the queue idle and no caller holding a batch, the accepted entries are exactly those sent, failed, dropped and cleared, as multisets |
| `FlushShutdowns.TestedIsTaken` | src/logs_interceptor/application/log_service.py:210-219 | Whatever the interleaving, a call of `flush` or `destroy` that got past its test of the buffer has left nothing in it of what was there at the test |
| `FlushShutdowns.ClosingClearsOnlyLate` | src/logs_interceptor/application/log_service.py:326-344 | A `destroy` about to clear the buffer finds in it only entries accepted after its own test |
| `FlushShutdowns.LoneDestroyClearsNothing` | src/logs_interceptor/application/log_service.py:326-344 | Without new entries and other calls of `destroy`, and whatever flushes run beside it, a `destroy` clears and drops nothing |
| `FlushShutdowns.ShutdownDelivers` | src/logs_interceptor/application/log_service.py:326-351 | Then every entry in the buffer at its test has been sent, or failed to be, once the call has ended, the pool is idle and no flush holds a batch |
| `FlushShutdowns.DestroyMarks` | src/logs_interceptor/application/log_service.py:326-344 | A `destroy` that was not too late has marked the service before it tests the buffer, and has destroyed the buffer when it ends, also when its batch failed |
| `FlushShutdowns.LateCallsReturn` | src/logs_interceptor/application/log_service.py:210-212 | A `flush` or `destroy` that begins after the mark does nothing but return |
| `FlushShutdowns.ClosedForGood` | src/logs_interceptor/infrastructure/buffer/memory_buffer.py:31-34 | A destroyed buffer stays empty and accepts nothing, in every run |
| `FlushCustody.StepKeepsCustody` | src/logs_interceptor/application/log_service.py:224-270 | Each single step of anyone keeps the count of an entry over all places equal to how often it was accepted |
| `FlushReceipts.ReceiptLaw` | src/logs_interceptor/application/log_service.py:245-263 | In every reachable state an entry counts as sent if and only if a batch with it was sent without an error, and as failed if and only if such a send ended with one |
| `FlushInterleavings.SchedulerSafety` | src/logs_interceptor/application/log_service.py:235-270 | In every reachable state the slot counter is the number of live workers and at most the limit; a waiting batch means the limit is reached; the batches started followed by those queued are all batches in order; the clamp at zero never acts |
| `FlushInterleavings.OwnOutcome` | src/logs_interceptor/application/log_service.py:224-233 | A caller that enqueued raises exactly when its own batch's send (or its own worker's metrics update after a good send) raised, with that error, under every interleaving; a caller with nothing to send never raises |
| `FlushInterleavings.StepKeepsSafe` | src/logs_interceptor/application/log_service.py:224-275 | Every step keeps the scheduler's invariant, what each caller knows of its task, and who holds the buffer's lock; a signalled task never changes again |
| `FlushProgress.WorkIsBounded` | src/logs_interceptor/application/log_service.py:245-270 | No run holds more worker steps than the work at its start plus five for each batch enqueued during it, so workers cannot go on for ever |
| `FlushProgress.SomeWorkerCanMove` | src/logs_interceptor/application/log_service.py:245-270 | While anything is queued or in flight and no worker is kept from the buffer's lock, some worker has a step to take |
| `FlushProgress.Drain` | src/logs_interceptor/application/log_service.py:235-275 | From every such state the workers alone reach an empty queue with nothing in flight, leaving the callers where they were |
| `FlushProgress.DrainedMeansSignalled` | src/logs_interceptor/application/log_service.py:264-275 | Once idle, every task has its event set, and every caller waiting for its batch or for the queue can move |
| `FlushProgress.MovesAreBounded` | src/logs_interceptor/application/log_service.py:210-275 | Without new entries and calls, any order of worker and caller steps ends: each lowers a potential by at least one |
| `FlushProgress.EveryScheduleEnds` | src/logs_interceptor/application/log_service.py:210-275 | From any safe state in which no worker is kept from the lock, every maximal order of steps, whatever the scheduler does, ends with every call finished and the queue idle, within a bound given by the state |
| `FlushProgress.CallCanFinish` | src/logs_interceptor/application/log_service.py:210-275 | So every call, also one waiting behind a timer that holds the lock with metrics off, can be brought to its end |
| `FlushProgress.ReturnSawIdle` | src/logs_interceptor/application/log_service.py:210-219 | A `flush` that returns normally has passed a moment, after its enqueue, with an empty queue and nothing in flight |
| `FlushDeadlocks.TimerFlushFinishesIff` | src/logs_interceptor/infrastructure/buffer/memory_buffer.py:163-178 | In every reachable state in which a timer's flush holds the buffer's lock, it can still end if and only if metrics are off, it has not made its first test, or it is not jammed: its batch is with a worker that does not want the lock, or waits while fewer workers than slots want it |
| `FlushDeadlocks.TimerFlushLocksUpIff` | src/logs_interceptor/infrastructure/buffer/memory_buffer.py:163-178 | In every such state some continuation locks it up for good if and only if metrics are on, it has not found the service destroyed, and its batch, if started, has not failed to be sent |
| `FlushTimers.StuckForever` | src/logs_interceptor/infrastructure/buffer/memory_buffer.py:163-178 | A jammed flush stays jammed under every continuation, its own batch sent or still queued, and no producer gets another entry in |
| `FlushReceipts.TimerFlushExcludes` | src/logs_interceptor/infrastructure/buffer/memory_buffer.py:163-178 | While a timer's flush runs, no other call looks into the buffer, takes from it or clears it, no entry comes in, no second timer fires and no metrics are updated |
| `FlushDeadlocks.FiringTimerCanLockUp` | src/logs_interceptor/infrastructure/buffer/memory_buffer.py:163-178 | With metrics on, every timer that fires on a non-empty buffer of a live service can lock up for good, whether or not a worker slot is free |
| `FlushDeadlocks.EveryCallCanFinishIff` | src/logs_interceptor/infrastructure/buffer/memory_buffer.py:163-178 | For every configuration: every call in every reachable state can end if and only if metrics are off, the buffer has no automatic flush, or it has no room for an entry |
| `FlushDeadlocks.EveryScheduleEndsIff` | src/logs_interceptor/infrastructure/buffer/memory_buffer.py:163-178 | Under exactly the same condition every reachable state in which no worker and no caller can move has all calls finished |
| `FlushOutcomes.UpdateErrorRaises` | src/logs_interceptor/application/log_service.py:249-265 | If bringing the metrics up to date can raise, every reachable state with metrics on, the lock free and a caller of `flush` waiting for a batch being sent leads to that caller raising although its batch was sent |
| `FlushCrews.BusyCrew` | src/logs_interceptor/application/log_service.py:235-243 | A service with room for an entry reaches states with any number of workers up to the limit sending at once |
| `FlushOutcomes.EveryOutcomeIsTruthfulIff` | src/logs_interceptor/application/log_service.py:249-265 | Every caller of every reachable state raises if and only if its own send failed, exactly for configurations with metrics off, without room for an entry, or whose metrics update never raises |
| `FlushRules.DispatchStartsPrefix` | src/logs_interceptor/application/log_service.py:235-243 | The dispatch loop starts the longest prefix of the queue for which there are slots, in order, and nothing else |
| `FlushRules.EnqueueKeepsWorkConserving` | src/logs_interceptor/application/log_service.py:224-229 | Appending a batch and dispatching stays within the limit, leaves no batch beside a free slot, and keeps the order of all batches |
| `FlushRules.ReleaseKeepsWorkConserving` | src/logs_interceptor/application/log_service.py:267-270 | A finished worker lowers queued plus in flight by exactly one, and dispatching keeps the limit and the order |
| `FlushPools.EnqueueKeepsSafe` | src/logs_interceptor/application/log_service.py:224-229 | The locked section of an enqueue keeps one live worker for each slot taken and touches no running worker or older task |
| `FlushPools.ReleaseKeepsSafe` | src/logs_interceptor/application/log_service.py:264-270 | A worker's last section keeps the slot counter equal to the live workers, with a slot to give back whenever it runs |
| `FlushSchedulers.FlushScheduler.ProcessFlushQueueLocked` | src/logs_interceptor/application/log_service.py:235-243 | The loop over the shared queue refines the dispatch function |
| `FlushSchedulers.FlushScheduler.AppendTask` | src/logs_interceptor/application/log_service.py:227-229 | The new queue, slot counter and start order; the invariant is kept and no batch overtakes another |
| `FlushSchedulers.FlushScheduler.ReleaseSlot` | src/logs_interceptor/application/log_service.py:267-270 | The new queue, slot counter and start order; queued plus in flight falls by one |
| `BreakerInterleavings.BreakerInvariant` | src/logs_interceptor/infrastructure/circuit_breaker/circuit_breaker.py:25-110 | In every reachable state, whatever calls overlap: closed if and only if below the failure threshold; no probe counters outside half-open; open has a next attempt; half-open has fewer than N successes and between 0 and N in flight |
| `BreakerInterleavings.ProbeBudget` | src/logs_interceptor/infrastructure/circuit_breaker/circuit_breaker.py:25-48 | A half-open period never admits more than 2N - 1 calls beyond those that had recorded but not finished when it began, stale calls included |
| `BreakerInterleavings.StepKeepsSafe` | src/logs_interceptor/infrastructure/circuit_breaker/circuit_breaker.py:25-110 | Every step, the unlocked check before the decrement among them, keeps the field invariant and the ledger of admissions behind the budget |
| `BreakerBounds.ProbeBudgetIsAttained` | src/logs_interceptor/infrastructure/circuit_breaker/circuit_breaker.py:25-48 | From every state in which a period begins, some continuation admits exactly that many calls, so the budget is exact |
| `BreakerBounds.LiveProbesBoundedIffNoHazard` | src/logs_interceptor/infrastructure/circuit_breaker/circuit_breaker.py:35-48 | At most N probes ever run at once in a period if and only if, as it begins, no older call is past its record, and (for N of at least 2) none is still running |
| `BreakerBounds.HazardBreaksLimit` | src/logs_interceptor/infrastructure/circuit_breaker/circuit_breaker.py:45-48 | Any such older call has a continuation in which N + 1 probes run at once |
| `ServiceBreakers.ServiceProbeLimitIff` | src/logs_interceptor/infrastructure/circuit_breaker/circuit_breaker.py:25-48 | In every run of the whole service with the breaker, in which each worker calls it once while it sends, never more than N probes are live if and only if the breaker is switched off, `max_concurrent_flushes` is at most N, or the buffer has no room for an entry |
| `ServiceBreakers.ServiceOverruns` | src/logs_interceptor/infrastructure/circuit_breaker/circuit_breaker.py:25-48 | Otherwise a run of the service has more: failing flushes open the breaker, N flushes are let in while the last of them is on its way out, and one more once it is out |
| `ServiceBreakers.RefusedSendFails` | src/logs_interceptor/infrastructure/circuit_breaker/circuit_breaker.py:29-36 | A worker that the breaker turns away is not let in later in any run: its send, once it has ended, has failed |
| `BreakerCallers.ProbeLimitIffFewCallers` | src/logs_interceptor/infrastructure/circuit_breaker/circuit_breaker.py:25-48 | With at most K calls under way at once, never more than N probes are live if and only if the breaker is switched off or K is at most N |
| `BreakerCallers.PlainProbeLimitIffOff` | src/logs_interceptor/infrastructure/circuit_breaker/circuit_breaker.py:25-48 | With any number of calls under way, if and only if the breaker is switched off |
| `BreakerCallers.ManyCallersOverrun` | src/logs_interceptor/infrastructure/circuit_breaker/circuit_breaker.py:35-48 | With the breaker on, for every K above N, some run from the start with at most K calls under way has more than N live probes |
| `BreakerBounds.NoAdmissionDuringCoolDown` | src/logs_interceptor/infrastructure/circuit_breaker/circuit_breaker.py:66-77 | After a failure that leaves the breaker open, whatever calls finish meanwhile, no call is admitted before `reset_timeout` milliseconds after that failure's clock reading, unless `reset` runs |
| `BreakerLaws.RefusedUntilDeadlineIff` | src/logs_interceptor/infrastructure/circuit_breaker/circuit_breaker.py:66-77 | After a failure that leaves the breaker open, a call is refused if and only if fewer than `reset_timeout` milliseconds have passed since the failure was recorded (or that deadline is the time 0.0); from then on it is let in as the first probe |
| `BreakerLaws.RefusedOverLimitIff` | src/logs_interceptor/infrastructure/circuit_breaker/circuit_breaker.py:32-36 | A breaker that is not open refuses a call if and only if it is half-open with N probes in flight |
| `BreakerLaws.LastErrorLaw` | src/logs_interceptor/infrastructure/circuit_breaker/circuit_breaker.py:50-77 | The last error and its time are those of the latest failure, kept until a success of a closed breaker or the one that closes it |
| `BreakerBounds.ResetReadmits` | src/logs_interceptor/infrastructure/circuit_breaker/circuit_breaker.py:91-99 | After a `reset`, whatever the state and whichever calls are still under way, every call is let in, and none as a probe, until the threshold of failures is reached again |
| `BreakerSequential.SequentialRefinement` | src/logs_interceptor/infrastructure/circuit_breaker/circuit_breaker.py:25-77 | Over any sequence of calls that do not overlap, the breaker is a three-state automaton without in-flight counters, and nothing is in flight between calls |
| `BreakerSequential.RefusedOnlyWhileCooling` | src/logs_interceptor/infrastructure/circuit_breaker/circuit_breaker.py:29-36 | A lone call is refused exactly while the breaker cools down, and a refusal changes nothing |
| `BreakerSequential.OpensOnThresholdFailure` | src/logs_interceptor/infrastructure/circuit_breaker/circuit_breaker.py:66-77 | The automaton opens on exactly the threshold-th consecutive failure and counts the trailing failures before that |
| `BreakerSequential.ClosesAfterProbes` | src/logs_interceptor/infrastructure/circuit_breaker/circuit_breaker.py:50-77 | After the cool-down, exactly N consecutive successes close it and the first failure reopens it |
| `CircuitBreakers.CircuitBreaker.IsOpenLocked` | src/logs_interceptor/infrastructure/circuit_breaker/circuit_breaker.py:101-110 | Whether a call is turned away, and the one transition from open to half-open |
| `CircuitBreakers.CircuitBreaker.Enter` | src/logs_interceptor/infrastructure/circuit_breaker/circuit_breaker.py:29-36 | The gate of `execute`, with both refusals, as the state machine's entry step; the invariant is kept |
| `CircuitBreakers.CircuitBreaker.RecordSuccess` | src/logs_interceptor/infrastructure/circuit_breaker/circuit_breaker.py:50-64 | The fields after a recorded success, as the state machine's step; the invariant is kept |
| `CircuitBreakers.CircuitBreaker.RecordFailure` | src/logs_interceptor/infrastructure/circuit_breaker/circuit_breaker.py:66-77 | The fields after a recorded failure, as the state machine's step; the invariant is kept |
| `CircuitBreakers.CircuitBreaker.Leave` | src/logs_interceptor/infrastructure/circuit_breaker/circuit_breaker.py:38-48 | The second half of `execute` when nothing comes between: record, then give back the probe |
| `CircuitBreakers.CircuitBreaker.Reset` | src/logs_interceptor/infrastructure/circuit_breaker/circuit_breaker.py:91-99 | Whatever the state, the breaker is as it was when created |
| `MemoryBuffers.MemoryBuffer.Add` | src/logs_interceptor/infrastructure/buffer/memory_buffer.py:31-49 | The entries an add leaves, across its three ways to drop; added = flushed + dropped + cleared + present; flushed followed by present is an order-preserving subsequence of the adds; the tracker agrees with the plain sums; a destroyed buffer ignores the add |
| `MemoryBuffers.MemoryBuffer.Flush` | src/logs_interceptor/infrastructure/buffer/memory_buffer.py:51-65 | Hands out everything present, in order, and the tracker is back at zero; the timer is rearmed exactly with automatic flushing on a live buffer |
| `MemoryBuffers.MemoryBuffer.Clear` | src/logs_interceptor/infrastructure/buffer/memory_buffer.py:86-92 | Everything present is cleared, none counted as dropped, and the accounting holds |
| `MemoryBuffers.MemoryBuffer.Destroy` | src/logs_interceptor/infrastructure/buffer/memory_buffer.py:94-102 | As clearing, and no entry, timer or callback is left |
| `MemoryBuffers.MemoryBuffer.OnTimer` | src/logs_interceptor/infrastructure/buffer/memory_buffer.py:167-173 | The flush callback is due exactly if the buffer is live, has a callback and has entries |
| `MemoryBuffers.MemoryBuffer.RemoveOldEntries` | src/logs_interceptor/infrastructure/buffer/memory_buffer.py:141-161 | Entries at the age limit go, then, if still over the memory limit, a tenth and at least one; each removed entry is counted as dropped and forgotten by the tracker |
| `MemoryBuffers.MemoryBuffer.DropOldestEntries` | src/logs_interceptor/infrastructure/buffer/memory_buffer.py:125-131 | Exactly the oldest entries go, are counted and are forgotten by the tracker |
| `BufferPolicy.AddKeepsBounds` | src/logs_interceptor/infrastructure/buffer/memory_buffer.py:31-49 | Every add keeps the length within the maximum; one that trips the memory limit never leaves more entries than before it; so 200 bytes for each entry stay within the memory limit in every run |
| `BufferPolicy.AfterAddIsSub` | src/logs_interceptor/infrastructure/buffer/memory_buffer.py:31-49 | What any add leaves is an order-preserving subsequence of the old entries followed by the new one |
| `BufferPolicy.AddKeepsNewestIff` | src/logs_interceptor/infrastructure/buffer/memory_buffer.py:31-43 | An add loses nothing but the oldest entries over the count if and only if what is then left does not trip the memory limit |
| `BufferPolicy.SurvivesAgeIff` | src/logs_interceptor/infrastructure/buffer/memory_buffer.py:141-153 | An entry survives the age pass if and only if its timestamp does not parse or is less than `max_age` milliseconds old |
| `BufferPolicy.ReliefDropsTenth` | src/logs_interceptor/infrastructure/buffer/memory_buffer.py:159-161 | What survives loses its oldest tenth, rounded down but one entry at least, if and only if it still exceeds the limit in binary megabytes |
| `BufferPolicy.AddKeepsTheYoung` | src/logs_interceptor/infrastructure/buffer/memory_buffer.py:31-43 | An add whose capped list exceeds the memory limit leaves no entry over the age limit, and all younger ones if these fit |
| `BufferPolicy.MemoryLimitKeptIffTiny` | src/logs_interceptor/infrastructure/buffer/memory_buffer.py:39-43 | The byte limit itself is kept by every add if and only if the buffer cannot hold two entries, or its limit is zero: one pass of relief need not suffice |
| `BufferPolicy.MemoryLimitExceeded` | src/logs_interceptor/infrastructure/buffer/memory_buffer.py:39-43 | For every other configuration, a buffer and an entry after whose add the bytes exceed the limit |
| `MemoryAccounting.NoteTracks` | src/logs_interceptor/infrastructure/memory/memory_tracker.py:22-26 | The incremental total, count and key set agree with the plain sums after an add if and only if the object was not already present |
| `MemoryAccounting.ForgetSplit` | src/logs_interceptor/infrastructure/memory/memory_tracker.py:28-38 | Removing the one part of any split of the entries leaves totals that are the plain sums of the other |
| `MemoryAccounting.DoubleAddLeaks` | src/logs_interceptor/infrastructure/memory/memory_tracker.py:22-38 | An object added twice leaves its size and one entry on the books after everything has been removed |
| `MemoryAccounting.TextSizeLaw` | src/logs_interceptor/infrastructure/memory/memory_tracker.py:67-95 | Each character of a text adds two bytes to the estimate, wherever it is |
| `MemoryAccounting.FieldSizeLaw` | src/logs_interceptor/infrastructure/memory/memory_tracker.py:67-95 | What an empty entry is taken to occupy, and what each context key, label and metadata add |
| `MemoryTrackers.MemoryTracker.AddEntry` | src/logs_interceptor/infrastructure/memory/memory_tracker.py:22-26 | The tracker's three fields after an add |
| `MemoryTrackers.MemoryTracker.RemoveEntries` | src/logs_interceptor/infrastructure/memory/memory_tracker.py:36-38 | The tracker's three fields after removing a list, unknown objects skipped |
| `MemoryTrackers.MemoryTracker.EstimateSize` | src/logs_interceptor/infrastructure/memory/memory_tracker.py:67-95 | The accumulated estimate is the size that all byte totals are sums of |
| `MemoryDlqs.MemoryDeadLetterQueue.AddBatch` | src/logs_interceptor/infrastructure/dlq/memory_dlq.py:26-35 | Serially, the queue becomes the newest `max_size` of old and new letters, and the result counts those that went |
| `MemoryDlqs.PushAllKeepsNewest` | src/logs_interceptor/infrastructure/dlq/memory_dlq.py:29-34 | Pushing letter by letter, dropping the oldest when full, keeps the last `max_size` of the concatenation |
| `MemoryDlqs.LettersLaw` | src/logs_interceptor/infrastructure/dlq/memory_dlq.py:29-34 | A batch becomes one letter for each entry, in order, with its reason and time, not yet retried |
| `MemoryDlqInterleavings.QueueBound` | src/logs_interceptor/infrastructure/dlq/memory_dlq.py:26-35 | With K workers interleaving the length test, the pop and the append without a lock, batch after batch, a failed pop included, the queue never exceeds `max_size` + K - 1 |
| `MemoryDlqInterleavings.QueueBoundIsAttained` | src/logs_interceptor/infrastructure/dlq/memory_dlq.py:26-35 | Some interleaving reaches that length, for every size and number of workers |
| `MemoryDlqInterleavings.PopIsSafeIff` | src/logs_interceptor/infrastructure/dlq/memory_dlq.py:30-31 | No interleaving pops from an empty list if and only if `max_size` is at least the number of workers |
| `MemoryDlqInterleavings.QueueIsFifo` | src/logs_interceptor/infrastructure/dlq/memory_dlq.py:29-34 | Whatever the interleaving, the queue holds the newest of what it held and what was appended, in that order |
| `MemoryDlqInterleavings.AloneIsSerial` | src/logs_interceptor/infrastructure/dlq/memory_dlq.py:29-34 | A worker that nobody interrupts leaves the queue as the serial `add_batch` does |
| `ServiceDlqs.ServiceQueueBound` | src/logs_interceptor/infrastructure/dlq/memory_dlq.py:26-35 | In every run of the whole service with that queue, in which a worker whose send fails offers its own batch once before the send ends, the queue never exceeds `max_size` + `max_concurrent_flushes` - 1 |
| `ServiceDlqs.LettersAreOfFailedBatches` | src/logs_interceptor/infrastructure/transport/resilient_transport.py:59-70 | In every reachable state of the service, each letter in the queue is an entry of the batch of a worker whose send has failed, or whose send can no longer end well |
| `ServiceDlqs.FailedBatchesAreOfferedOnce` | src/logs_interceptor/infrastructure/transport/resilient_transport.py:59-70 | In every run a batch whose send has ended was offered to the queue exactly once if the send failed, and never if it did not |
| `ServiceDlqs.OfferLaw` | src/logs_interceptor/infrastructure/transport/resilient_transport.py:59-68 | What a worker offers is its own batch, one letter for each entry, in order, not yet retried |
| `ServiceDlqs.FullCrew` | src/logs_interceptor/application/log_service.py:235-256 | For any number of letters up to `max_size`, a service with room for an entry gets into a state in which that many failed flushes of one entry have left their letters and as many workers as allowed are sending |
| `ServiceDlqs.ServiceQueueBoundIsAttained` | src/logs_interceptor/infrastructure/dlq/memory_dlq.py:26-35 | Such a service reaches the bound: after `max_size` - 1 failed flushes of one entry, `max_concurrent_flushes` of them fail at once |
| `ServiceDlqs.ServicePopIsSafeIff` | src/logs_interceptor/infrastructure/dlq/memory_dlq.py:30-31 | No worker of the service ever pops from an empty queue if and only if `max_size` is at least `max_concurrent_flushes` or the buffer has no room for an entry; otherwise `max_size` failed flushes followed by `max_concurrent_flushes` that fail at once lead to one that does |
| `FileDlqs.FileDeadLetterQueue.AddBatch` | src/logs_interceptor/infrastructure/dlq/file_dlq.py:47-62 | The queue before trimming is the newest `max_size` of old and new; the call returns if and only if every letter of it can be written as JSON and the newest line alone fits the file limit, and raises otherwise with the file untouched; with a letter that cannot be written nothing is trimmed. When it returns, file and queue agree within the limit, and the returned count of dropped letters is the growth of the object's counter if and only if the untrimmed queue fits |
| `FileDlqs.FileDeadLetterQueue.PersistQueueToDisk` | src/logs_interceptor/infrastructure/dlq/file_dlq.py:144-170 | Writes the file exactly if every letter can be written and the newest line fits, with the file equal to the kept queue and within the limit; otherwise the file is untouched, and the queue is whole (a letter cannot be written) or down to one letter; every letter trimmed is counted |
| `FileDlqs.FileDeadLetterQueue.LoadFromDisk` | src/logs_interceptor/infrastructure/dlq/file_dlq.py:95-142 | Reads what the file's lines hold, skips blank, undecodable and over-retried ones, keeps the newest `max_size` and counts the rest as dropped |
| `FileDlqRules.PersistEndsIff` | src/logs_interceptor/infrastructure/dlq/file_dlq.py:144-168 | A file gets written if and only if every letter of the queue can be written and the newest alone fits |
| `UnwritableLetters.ForeignIsUnwritable` | src/logs_interceptor/infrastructure/dlq/file_dlq.py:145-157 | A value that JSON has no form for, anywhere in its context or metadata, makes a letter one that cannot be written |
| `UnwritableLetters.BlockedIff` | src/logs_interceptor/infrastructure/dlq/file_dlq.py:47-62 | After a letter that cannot be written, with m letters from it to the newest, further letters leave the queue one that cannot be written if and only if they number at most `max_size` - m |
| `UnwritableLetters.BlockedRun` | src/logs_interceptor/infrastructure/dlq/file_dlq.py:47-62 | Until then, over any sequence of batches, each call raises, nothing is trimmed and the queue is the newest `max_size` letters |
| `FileDlqRules.SomeHalvingFitsIff` | src/logs_interceptor/infrastructure/dlq/file_dlq.py:161-168 | For letters that can be written, the newest alone fits if and only if some number of halvings makes the file fit |
| `FileDlqRules.OversizedEntry` | src/logs_interceptor/infrastructure/dlq/file_dlq.py:161-168 | For every file limit there is an entry that, added to any queue, keeps the halving from ending |
| `FileDlqRules.PersistKeepsLeastHalving` | src/logs_interceptor/infrastructure/dlq/file_dlq.py:161-168 | What is kept of n letters are the last n div 2^k, for the least k whose file fits |
| `FileDlqRules.RoundTripIff` | src/logs_interceptor/infrastructure/dlq/file_dlq.py:95-170 | A written queue whose text holds no U+0085, U+2028 or U+2029 is read back as it was if and only if every entry is normalised and no letter was retried too often |
| `FileDlqRules.LinesReadIffNoSeparator` | src/logs_interceptor/infrastructure/dlq/file_dlq.py:100-101 | A written file splits into the lines it was written from if and only if no letter's text holds one of those three characters |
| `FileDlqRules.ReadLineLaw` | src/logs_interceptor/infrastructure/dlq/file_dlq.py:103-131 | A line gives a letter if and only if it is not all spaces, decodes and was not retried too often, and then the letter it says |
| `FileDlqRules.LoadedIsNewest` | src/logs_interceptor/infrastructure/dlq/file_dlq.py:135-138 | Of a file with more letters than the queue may hold the newest are kept, in order |
| `EntryDicts.DictRoundTrip` | src/logs_interceptor/domain/entities.py:22-41 | Writing an entry as a dictionary and reading it back turns empty identifiers, labels and metadata into none and changes nothing else; it is the identity exactly on entries without such |
| `EntryDicts.DictLaw` | src/logs_interceptor/domain/entities.py:22-41 | Each key of a written entry holds its own field, and the optional ones are there if and only if they are not empty |
| `LineFiles.LinesSurviveIff` | src/logs_interceptor/infrastructure/dlq/file_dlq.py:157-170 | Non-empty lines, joined and split again as `splitlines` does, come back if and only if none holds a line boundary |
| `LineFiles.SuffixIsShorter` | src/logs_interceptor/infrastructure/dlq/file_dlq.py:161-168 | Dropping the oldest lines never makes the file longer in bytes |
| `LineFiles.Utf8Law` | src/logs_interceptor/infrastructure/dlq/file_dlq.py:155-160 | The size of a file is its length and one more for each character from U+0080, U+0800 and U+10000 on |
| `ResilientTransports.ResilientTransport.Send` | src/logs_interceptor/infrastructure/transport/resilient_transport.py:44-76 | For any batch: total = successful + failed; a refusal makes no attempt; otherwise the error is the last attempt's; the breaker sees one outcome however many attempts; the whole batch goes to the dead letter queue, in memory or on file, once if and only if the send raises, and an error of that queue, from a letter that cannot be written or is too big, is not what is raised |
| `SendRules.FailingSendsOpen` | src/logs_interceptor/infrastructure/transport/resilient_transport.py:44-62 | Exactly threshold-many failing sends in a row open a fresh breaker, none fewer, and the next send is refused until the reset timeout has passed |
| `ResilientTransports.ResilientTransport.RetryOperation` | src/logs_interceptor/infrastructure/transport/resilient_transport.py:78-100 | At most `max_retries` + 1 attempts, the outcome of the last one, the milliseconds slept and both retry counters |
| `ResilientTransports.ResilientTransport.Deliver` | src/logs_interceptor/infrastructure/transport/resilient_transport.py:50-58 | `execute` around the whole retry loop: the gate's answer, the attempts, and what the breaker records of them: one failure with its text, opening at the threshold or from half-open, or one success |
| `ResilientTransports.ResilientTransport.EnqueueDlq` | src/logs_interceptor/infrastructure/transport/resilient_transport.py:64-76 | The batch becomes the newest letters of the queue, with the drops counted unless the queue raises; then exactly one warning goes out if the last is more than ten seconds old |
| `RetryRules.LoopStops` | src/logs_interceptor/infrastructure/transport/resilient_transport.py:78-100 | All attempts but the last failed retryably, and the loop stopped there only at the limit, at a success or at a failure not to be retried |
| `RetryRules.DeliveredIff` | src/logs_interceptor/infrastructure/transport/resilient_transport.py:78-100 | A send gets through if and only if some attempt within the limit would succeed and all before it fail retryably |
| `RetryRules.BackoffBounds` | src/logs_interceptor/infrastructure/transport/resilient_transport.py:97-100 | r retries sleep between d(2^r - 1) and d(2^r - 1) + 250r milliseconds |
| `RetryRules.BackoffIsExact` | src/logs_interceptor/infrastructure/transport/resilient_transport.py:97-100 | To the millisecond they sleep d(2^r - 1) and the sum of the jitters |
| `RetryRules.RetryableIff` | src/logs_interceptor/infrastructure/transport/resilient_transport.py:103-123 | A failure is retried by its own flag if it has one, else by its status code (429, or 500 and above), else if its text holds one of the eight words, in any case |
| `LokiFormat.FormatForLoki` | src/logs_interceptor/infrastructure/transport/loki_json_transport.py:175-208 | The two dictionaries filled in a loop give one stream for each label set, the group sorted |
| `LokiFormat.KeysAreTheLabelSets` | src/logs_interceptor/infrastructure/transport/loki_json_transport.py:178-200 | The streams' label sets are distinct and are exactly those of the batch |
| `LokiFormat.KeysInFirstAppearanceOrder` | src/logs_interceptor/infrastructure/transport/loki_json_transport.py:200-206 | The streams come in the order in which their label sets first appear |
| `LokiFormat.LabelMapHolds` | src/logs_interceptor/infrastructure/transport/loki_json_transport.py:180-181 | A pair is in the label set of an entry if and only if it is among its labels |
| `LokiFormat.StreamsHoldTheirEntries` | src/logs_interceptor/infrastructure/transport/loki_json_transport.py:199-206 | Each stream holds each line as often as there are entries with that line whose own labels are just the pairs of the stream's |
| `LokiFormat.EveryEntryHasAStream` | src/logs_interceptor/infrastructure/transport/loki_json_transport.py:199-206 | Each entry has its line in exactly one stream with its labels |
| `LokiFormat.SameStreamIff` | src/logs_interceptor/infrastructure/transport/loki_json_transport.py:180-181 | Two entries share a stream if and only if their labels are the same pairs, in any order |
| `LokiFormat.LineLaw` | src/logs_interceptor/infrastructure/transport/loki_json_transport.py:183-199 | A line holds its entry's own fields, identifiers and metadata only when not empty |
| `LokiFormat.GroupsPartition` | src/logs_interceptor/infrastructure/transport/loki_json_transport.py:199-206 | Each line occurs in the streams together as often as in the batch |
| `LokiFormat.StableSortIsStableSort` | src/logs_interceptor/infrastructure/transport/loki_json_transport.py:205 | The sorted stream is in string order of the timestamps and keeps the order of equal ones |
| `LokiFormat.StableSortIsUnique` | src/logs_interceptor/infrastructure/transport/loki_json_transport.py:205 | Only one arrangement is sorted and keeps equal timestamps in order, so any correct stable sort gives this stream |
| `LokiFormat.StreamInTimeOrderIff` | src/logs_interceptor/infrastructure/transport/loki_json_transport.py:205 | A stream is in time order if and only if no two of its times are such that the earlier comes later as a decimal string |
| `LokiFormat.StreamsAreInTimeOrder` | src/logs_interceptor/infrastructure/transport/loki_json_transport.py:205 | When all times of a batch lie from 10^18 to 10^19 - 1 nanoseconds, each stream is in time order |
| `LokiFormat.EarlyTimesRunBackwards` | src/logs_interceptor/infrastructure/transport/loki_json_transport.py:205 | Two times before 1970 with equally many digits always come in the wrong order |
| `LokiFormat.TimeOrderFailsAcrossLengths` | src/logs_interceptor/infrastructure/transport/loki_json_transport.py:205 | The last eighteen-digit time sorts after the first nineteen-digit one |
| `LokiFormat.TimestampExactIff` | src/logs_interceptor/infrastructure/transport/loki_json_transport.py:211-218 | With the division rounded to the nearest double, the conversion to nanoseconds is exact if and only if the time is a whole second, or is after the epoch and does not round up to the next second, or is before it and does |
| `LokiFormat.WholeSecondsIff` | src/logs_interceptor/infrastructure/transport/loki_json_transport.py:217 | Cutting off the rounded quotient gives the whole seconds, or one more exactly if the fraction is within half a step of doubles of the next second |
| `LokiFormat.NothingRoundsUpBefore2514` | src/logs_interceptor/infrastructure/transport/loki_json_transport.py:217 | Within 2^34 seconds of the epoch no time rounds up |
| `LokiFormat.LateTimesRoundUp` | src/logs_interceptor/infrastructure/transport/loki_json_transport.py:217 | From 2^34 seconds on, in every second its last microsecond does |
| `Numerals.StringOrderIff` | src/logs_interceptor/infrastructure/transport/loki_json_transport.py:205 | Exactly when string order puts one decimal numeral before another, for integers of any length and sign |
| `Numerals.StrLaw` | src/logs_interceptor/infrastructure/transport/loki_json_transport.py:199 | The decimal string of a number says that number, without a leading zero |
| `Sanitizers.SanitizeData` | src/logs_interceptor/utils.py:180-226 | The loop over a dictionary graph, cyclic or not, ends, and computes the redacted tree together with the dictionaries seen |
| `Sanitizers.SanitizeList` | src/logs_interceptor/utils.py:206-217 | The loop over a list's direct items, inner lists passed on unread |
| `Sanitizers.DictIsClean` | src/logs_interceptor/utils.py:180-226 | Every value under a sensitive key is redacted, and every text that is a dictionary value or a direct item of a list is redacted or undetected, in every dictionary that the traversal reads; a list inside a list is passed on unread |
| `SanitizerReach.UnreadIff` | src/logs_interceptor/utils.py:180-226 | The lists passed on are exactly those found inside a list that a dictionary reached by the traversal holds under a key that is not sensitive, on any graph, cyclic or not |
| `SanitizerReach.SecretRemainsIff` | src/logs_interceptor/utils.py:206-217 | A detected text other than the mark can be read off a result if and only if one lies below such a list |
| `SanitizerReach.NestedListKeepsSecret` | src/logs_interceptor/utils.py:206-217 | The input on which it can: any detected text in a list in a list under any key that is not sensitive |
| `SanitizerReach.NeverMissesIff` | src/logs_interceptor/utils.py:206-217 | For a set of patterns no result ever holds such a text if and only if every key is sensitive or nothing but the mark is detected |
| `Sanitizers.FieldsKept` | src/logs_interceptor/utils.py:197-224 | Keys keep their place and their text, and what is neither sensitive nor detected is untouched |
| `Sanitizers.RedactedIff` | src/logs_interceptor/utils.py:197-204 | A text value is redacted if and only if its key is sensitive, or a configured or a built-in pattern matches it, and is else as it was |
| `Sanitizers.ItemsKept` | src/logs_interceptor/utils.py:206-217 | The items of a list keep their places: texts by the same rule, dictionaries sanitised, the rest as it was |
| `Sanitizers.CircularLaw` | src/logs_interceptor/utils.py:188-190 | A dictionary met again leaves just the mark |
| `Sanitizers.SanitizeIsIdempotent` | src/logs_interceptor/utils.py:180-226 | A second pass over the result, held by any heap as the new objects it is, changes nothing |
| `Sanitizers.Store` | src/logs_interceptor/utils.py:180-226 | Every tree can be so held, in an extension of any heap, by dictionaries not there before |
| `LogFilters.FilteredIsClean` | src/logs_interceptor/infrastructure/filter/log_filter.py:29-52 | With sanitising on, the message of a filtered entry is redacted or undetected, and so is its context as far as the traversal reads it |
| `LogFilters.SecretPassesIff` | src/logs_interceptor/infrastructure/filter/log_filter.py:29-52 | With sanitising on, a detected text other than the mark can be read off the message or context of a filtered entry if and only if its context has one below a list inside a list that the traversal gets to |
| `LogFilters.FilterLaw` | src/logs_interceptor/infrastructure/filter/log_filter.py:29-52 | Filtering changes message and context only; the message is redacted if and only if sanitising is on and a pattern matches what is left of it; without sanitising the context is the caller's own |
| `LogFilters.TruncateLaw` | src/logs_interceptor/infrastructure/filter/log_filter.py:30-32 | A message over the limit keeps just that many of its first characters and gets the mark |
| `LogFilters.FilterIsIdempotentIff` | src/logs_interceptor/infrastructure/filter/log_filter.py:29-52 | Filtering twice equals filtering once if and only if the message is not redacted, the length limit is at least ten, or the cut-off mark of redaction is itself detected |
| `LogFilters.MessageIsIdempotentIff` | src/logs_interceptor/infrastructure/filter/log_filter.py:29-39 | The same for the message alone |
| `LogFilters.TruncateIsIdempotent` | src/logs_interceptor/infrastructure/filter/log_filter.py:30-32 | Cutting again changes nothing, although a cut text is longer than the limit |
| `LogFilters.FilteredCanBeHeld` | src/logs_interceptor/infrastructure/filter/log_filter.py:29-52 | A filtered entry can always be fed back, so the law above is never empty |
| `LogFilters.ShortLimitRedactsTwice` | src/logs_interceptor/infrastructure/filter/log_filter.py:29-39 | An entry on which filtering with a limit of three is not idempotent |

## Left out

Assumed rather than modelled:

- The JSON library. `JsonLines.Faithful` says what is assumed of it: values with integers of at most 4300
  digits, nested no deeper than some limit, can be written, and those with a part that JSON has no form
  for cannot; of any line it writes, decoding undoes encoding, the line is not blank and not shorter than
  the message in it, and the only line boundaries left unescaped are the three separators. NaN, infinities
  and the negative zero are outside the model.
- The regular expressions: two arbitrary predicates on texts.
- The clock and random numbers: parameters of each operation or step. Clock readings never decrease in
  `BreakerInterleavings`.
- Each object is put into a live buffer at most once (`MemoryAccounting.DoubleAddLeaks` shows why).
- `max_size` of the dead letter queues, `failure_threshold` and `half_open_requests` are at least 1, and
  `max_retries`, `max_age`, `max_memory_mb` and the message limit not negative, as the parsing of the
  environment enforces.

Not modelled:

- HTTP, compression, and the protobuf transport, which repeats the grouping without the sort.
- Configuration loading and merging, framework integrations, factories, OpenTelemetry, `WorkerPool`.
- Levels, sampling and patterns that decide whether an entry is logged at all, and the counters of `log`.
- Percentiles, averages, throughput, `get_health`, `get_metrics`: short computations on snapshots.
- `_safe_convert` and `safe_stringify`, which pass exception arguments through unread.
- `threading.Timer`: a timer firing is a step that may happen whenever automatic flushing is on and the
  buffer is live and not empty, and an immediate flush is an ordinary caller. The one-second timeout of
  the idle wait, failure to start a thread, and exceptions outside `Exception` are not modelled.
- Updates of the unlocked metrics and drop counters that parallel workers lose: their totals are claimed
  for serial runs only.
- Users that clear, flush or read the memory dead letter queue while workers fill it.
- Errors of the file system, the translation of line ends on reading and writing, files written by
  others with values of unexpected JSON types, and lone surrogates.
- Rounding of clock readings, which are reals here; that of timestamps is modelled in `LokiFormat`.
  Lower-casing outside ASCII.
- Keys of a context that are not text, and values of other types than text, list and dictionary, which
  sanitising passes on as they are.

Stated as is:

- FlushProgress.CallCanFinish: for states in which no worker is kept from the buffer's lock; the others are those of `FlushDeadlocks.TimerFlushFinishesIff`.
- FlushProgress.Drain: for states in which no worker is kept from the buffer's lock, as above.
- MemoryBuffers.MemoryBuffer.OnTimer: tells whether the callback is due; that the callback runs while the buffer's lock is held is modelled in `FlushInterleavings`.
- FlushOutcomes.UpdateErrorRaises: whether an update of the metrics can raise is a switch of the configuration; what in it does is not part of this model.
- FileDlqs.FileDeadLetterQueue.PersistQueueToDisk: the recursion that Python aborts at its limit is a result `false` after the first level that changes nothing.
- FileDlqRules.RoundTripIff: for queues without separators; how a line broken by one is read is left to the decoder.
- Sanitizers.SanitizeData: the recursion limit of Python on deeply nested contexts is not modelled.
