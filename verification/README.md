# Needle job processors and batch workers, modelled in Dafny

This project models the core of Asc.Utils.Needle, a C# library of background job runners. It covers two families.

- **Job processors** are long-lived. A channel of submitted jobs is read by a fixed pool of worker loops. The loops can be started, paused and resumed through an asynchronous manual-reset event, and are stopped by disposal.
- **Batch workers** collect a list of jobs and run them in one `RunAsync` call. Concurrency is bounded by a semaphore or unbounded. The failure policy either cancels the pending jobs or lets them run.

## Modules

| module | file | what it models |
|---|---|---|
| `Jobs` | jobs.dfy | shared vocabulary: errors, `Result`/`Option`, failure policy, processor status, job priority, the job-body oracle |
| `Gate` | gate.dfy | `AsyncManualResetEvent`: the event as a growing sequence of task-completion handles, one per `Set`/`Reset` |
| `Pool`, `Phases` | pool.dfy, phases.dfy | the unbounded channel plus worker slots, with a history of what was written, read, run and discarded |
| `JobProcessor` | job_processor.dfy | `JobProcessorSlim` |
| `LegacyProcessor` | legacy_processor.dfy | the older `Implementation/NeedleJobProcessorSlim` |
| `CountingProcessor` | counting_processor.dfy | `NeedleJobProcessor`, the counting decorator, built over the `JobProcessor` model (see Left out for its base class) |
| `Batch` | batch.dfy | state and operations shared by the slim batch workers: add, cancel, exception management, end of run |
| `SemaphoreWorkerSlim`, `SemaphoreWorker` | semaphore_worker_slim.dfy, semaphore_worker.dfy | the semaphore-bounded batch workers |
| `ParallelWorkerSlim` | parallel_worker_slim.dfy | the unbounded batch worker |
| `Legacy` | legacy.dfy | state shared by the older workers `NeedleWorker`, `NeddleWorker` and `ParallelWorker`: job lists, counters, progress, cancellation and failure handling |
| `PriorityOrder` | priority_order.dfy | their dispatch order: actions before tasks, stably sorted by `JobPriority` |
| `PriorityWorker` | priority_worker.dfy | `NeedleWorker` and `NeddleWorker` |
| `ParallelWorker` | parallel_worker.dfy | `ParallelWorker` |

## Abstractions

- **Jobs are oracles.** A job is not code. A job body says what happens when the job is invoked:
  - it completes;
  - it throws;
  - it returns a faulted task, a canceled task, or a null task;
  - a faulted or canceled task carries whether it was still pending when the job returned; only `SemaphoreWorker` treats such a late task differently, because it keeps the task for its final `Task.WhenAll`;
  - it calls the worker's cancel method a given number of times.
  
  Processor jobs are identified values that either fault or complete.
- **Processors are interleavings.** A processor is a state with one phase per worker slot. `Step(p, i, …)` is one atomic move of worker loop `i`:
  - pass the gate;
  - park on a handle;
  - read a job;
  - finish the job and report a fault.
  
  Any interleaving of `Step` with the public operations is a possible execution. `handlerThrows` is a parameter saying whether a `JobFaulted` subscriber throws.
- **Batch runs are sequential.** `RunAsync` is `Begin`, then `Pump`, then `End`. `Begin` holds the guards and the start of the run. `Pump` dispatches every job and runs it to completion before the next dispatch. `End` is the `finally` block and the result. The result is a `Batch.Run`:
  - `Rejected(error)` when a guard throws;
  - `Hangs` when a dispatch waits for a permit nobody will release;
  - `Finished(result, after)` otherwise.
  
  Calls made while a run is in progress are modelled by calling `Cancel`, `RequestCancellation` or `Dispose` on the intermediate states.
- **Integers are unbounded.** Event counts (`canceledEvents`, `completedEvents`, `statusNotices`) count how often an event is raised; they stand for the subscribers being notified.

## Model

| member | source | states |
|---|---|---|
| Gate.Create | Asc.Utils.Needle.Code/Asc.Utils.Needle/Implementation/AsyncManualResetEvent.cs:17-25 | A new event is set exactly when the initial state asks for it. |
| Gate.Set | Asc.Utils.Needle.Code/Asc.Utils.Needle/Implementation/AsyncManualResetEvent.cs:41-49 | Set leaves the event set. It releases the handle waiters held before the call and leaves every older handle as it was. |
| Gate.Reset | Asc.Utils.Needle.Code/Asc.Utils.Needle/Implementation/AsyncManualResetEvent.cs:51-57 | Reset leaves the event unset without releasing anyone: every existing handle, the current one included, keeps its state. |
| Gate.WaitAsync | Asc.Utils.Needle.Code/Asc.Utils.Needle/Implementation/AsyncManualResetEvent.cs:27-39 | A canceled token wins. Otherwise a set event completes the wait at once. Otherwise the wait is pending on the current, unreleased handle. |
| Gate.Observe | Asc.Utils.Needle.Code/Asc.Utils.Needle/Implementation/AsyncManualResetEvent.cs:35-38 | A pending wait changes only when its own handle is released, then completing, or when the token fires, then canceling. A finished wait never changes. |
| Gate.ReleaseIsPermanent | Asc.Utils.Needle.Code/Asc.Utils.Needle/Implementation/AsyncManualResetEvent.cs:41-57 | Once a handle is released, no sequence of Set and Reset un-releases it. |
| Gate.InitialStateDecidesFirstWait | Asc.Utils.Needle.Code/Asc.Utils.Needle/Implementation/AsyncManualResetEvent.cs:17-33 | The first wait on a new event completes if it was created set, and pends on the first handle otherwise. |
| Gate.CanceledTokenBeatsSignal | Asc.Utils.Needle.Code/Asc.Utils.Needle/Implementation/AsyncManualResetEvent.cs:29-33 | Even on a set event, a wait with a canceled token is canceled. |
| Gate.SetReleasesEveryWaiter | Asc.Utils.Needle.Code/Asc.Utils.Needle/Implementation/AsyncManualResetEvent.cs:41-49 | Every waiter that started before a Set completes after it; none is canceled. |
| Gate.SetIsIdempotent | Asc.Utils.Needle.Code/Asc.Utils.Needle/Implementation/AsyncManualResetEvent.cs:41-49 | Setting once or twice leaves a set event, on which new waits complete at once. |
| Gate.ResetBlocksUntilNextSet | Asc.Utils.Needle.Code/Asc.Utils.Needle/Implementation/AsyncManualResetEvent.cs:41-57 | A wait that starts after a Reset stays pending until the next Set, and that Set completes it. |
| Gate.SupersededHandleStaysPending | Asc.Utils.Needle.Code/Asc.Utils.Needle/Implementation/AsyncManualResetEvent.cs:43-56 | A handle replaced while unreleased is never released by any later Set or Reset. |
| Gate.WaiterLostByDoubleReset | Asc.Utils.Needle.Code/Asc.Utils.Needle/Implementation/AsyncManualResetEvent.cs:51-57 | A waiter that captured the handle of one Reset, followed by a second Reset, is stranded under any later operations: only its token can end the wait. |
| Pool.Write | Asc.Utils.Needle.Code/Asc.Utils.Needle/Implementation/JobProcessorSlim.cs:28-33 | Writing to the unbounded channel appends the job at the tail and to the submission history, and keeps the channel accounting valid. |
| Pool.Clear | Asc.Utils.Needle.Code/Asc.Utils.Needle/Implementation/JobProcessorSlim.cs:133-140 | Draining the channel empties it, records every drained job as read and discarded, and leaves finished and running jobs alone. |
| Pool.Take | Asc.Utils.Needle.Code/Asc.Utils.Needle/Implementation/JobProcessorSlim.cs:195-198 | A read hands the head of the channel to the worker and removes exactly that job. |
| Pool.Finish | Asc.Utils.Needle.Code/Asc.Utils.Needle/Implementation/JobProcessorSlim.cs:200-211 | A worker finishing its job adds it to the succeeded or the failed history according to whether it faulted. The set of finished jobs grows by exactly that job. |
| Pool.ExecutedAtMostOnce | Asc.Utils.Needle.Code/Asc.Utils.Needle/Implementation/JobProcessorSlim.cs:183-222 | Every finished job was submitted, no job finishes more times than it was submitted, and jobs leave the channel in submission order. |
| Pool.QuietPoolIsSettled | Asc.Utils.Needle.Code/Asc.Utils.Needle/Implementation/JobProcessorSlim.cs:183-222 | When no worker is running a job, every job read from the channel has either finished or been discarded. |
| Pool.SettledAccount | Asc.Utils.Needle.Code/Asc.Utils.Needle/Implementation/JobProcessorSlim.cs:236-258 | Once every worker is idle after a drain, the finished jobs are the earlier ones plus those in flight plus the queued jobs that were not discarded. |
| JobProcessor.Create | Asc.Utils.Needle.Code/Asc.Utils.Needle/Implementation/JobProcessorSlim.cs:22-37 | A negative pool size is refused. Otherwise the processor is stopped, its channel empty and no loop spawned. |
| JobProcessor.Status | Asc.Utils.Needle.Code/Asc.Utils.Needle/Implementation/JobProcessorSlim.cs:49-54 | The status is Stopped before the start. After it, the status is Paused exactly while paused and Running otherwise. |
| JobProcessor.ProcessJob | Asc.Utils.Needle.Code/Asc.Utils.Needle/Implementation/JobProcessorSlim.cs:56-80 | A disposed processor refuses with ObjectDisposed and a null job is refused with ArgumentNull. While the writer is open the job is appended and the pending count grows by one. After the stop the submission is silently dropped. |
| JobProcessor.Start | Asc.Utils.Needle.Code/Asc.Utils.Needle/Implementation/JobProcessorSlim.cs:82-90 | Start succeeds only once and never after disposal. It opens the gate and spawns every loop at the gate without touching the channel. |
| JobProcessor.SpawnAll | Asc.Utils.Needle.Code/Asc.Utils.Needle/Implementation/JobProcessorSlim.cs:150-158 | Spawning starts a loop, at the gate, in every empty slot and leaves the slots already started alone. |
| JobProcessor.Pause | Asc.Utils.Needle.Code/Asc.Utils.Needle/Implementation/JobProcessorSlim.cs:92-98 | Pause succeeds only on a started, unpaused, undisposed processor. It closes the gate and leaves the channel and workers alone. |
| JobProcessor.Resume | Asc.Utils.Needle.Code/Asc.Utils.Needle/Implementation/JobProcessorSlim.cs:100-106 | Resume succeeds only on a paused processor. It reopens the gate and leaves the channel and workers alone. |
| JobProcessor.ClearChannel | Asc.Utils.Needle.Code/Asc.Utils.Needle/Implementation/JobProcessorSlim.cs:133-140 | Clearing empties the channel and sets the pending count to zero; nothing else changes. |
| JobProcessor.StopInternal | Asc.Utils.Needle.Code/Asc.Utils.Needle/Implementation/JobProcessorSlim.cs:172-181 | The stop closes the writer, clears the channel, fires the token and pauses. A second stop changes nothing. Queued jobs are discarded, not run. |
| JobProcessor.Step | Asc.Utils.Needle.Code/Asc.Utils.Needle/Implementation/JobProcessorSlim.cs:183-222 | One move of a worker loop leaves the flags, the gate, the submissions and every other loop as they were. The move blocks exactly when the loop has ended, is parked on an unreleased handle, or is reading an empty open channel, and the token has not fired. A finished job is recorded as succeeded or failed by whether it faults. The shared channel loses its head when the loop takes a job, and is emptied when a job faults under CancelPendingJobs (:209-210); otherwise it is unchanged. |
| JobProcessor.PassGate | Asc.Utils.Needle.Code/Asc.Utils.Needle/Implementation/JobProcessorSlim.cs:185-190 | A loop at the gate moves alone. It exits exactly when the token fired, goes on to read exactly when the token has not fired and the gate is open, and parks otherwise. |
| JobProcessor.Unpark | Asc.Utils.Needle.Code/Asc.Utils.Needle/Implementation/JobProcessorSlim.cs:187-190 | A parked loop stays blocked exactly while its handle is unreleased and the token has not fired. When it moves, it exits if the token fired and reads otherwise. |
| JobProcessor.Read | Asc.Utils.Needle.Code/Asc.Utils.Needle/Implementation/JobProcessorSlim.cs:195-220 | A reading loop blocks exactly on an empty, open channel with the token not fired. Otherwise it takes the head of a non-empty channel, or exits when the token fired or the channel is completed and empty. |
| JobProcessor.Complete | Asc.Utils.Needle.Code/Asc.Utils.Needle/Implementation/JobProcessorSlim.cs:200-211 | A finished job is recorded once. A fault under the cancel-pending policy discards the queue; otherwise the queue is unchanged. The loop returns to the gate either way. |
| JobProcessor.Settle | Asc.Utils.Needle.Code/Asc.Utils.Needle/Implementation/JobProcessorSlim.cs:185-216 | After the token fires, a live loop ends without taking a job. |
| JobProcessor.Drain | Asc.Utils.Needle.Code/Asc.Utils.Needle/Implementation/JobProcessorSlim.cs:245-252 | Waiting for the started loops ends every live loop from the given slot on and changes nothing else. |
| JobProcessor.Dispose | Asc.Utils.Needle.Code/Asc.Utils.Needle/Implementation/JobProcessorSlim.cs:236-258 | Disposal stops the processor, waits for every loop to end and leaves the channel empty. Disposing twice is the same as once. |
| JobProcessor.DisposeAsync | Asc.Utils.Needle.Code/Asc.Utils.Needle/Implementation/JobProcessorSlim.cs:266-281 | Asynchronous disposal leaves a disposed processor that satisfies the invariant. |
| JobProcessor.DisposeAsyncAgreesWithDispose | Asc.Utils.Needle.Code/Asc.Utils.Needle/Implementation/JobProcessorSlim.cs:236-281 | Both disposals reach the same state, and disposal is idempotent. |
| JobProcessor.DisposeRunsInFlightJobs | Asc.Utils.Needle.Code/Asc.Utils.Needle/Implementation/JobProcessorSlim.cs:236-258 | Disposal lets the in-flight jobs finish and discards exactly the queued ones. |
| JobProcessor.DisposeCountsInFlightJobs | Asc.Utils.Needle.Code/Asc.Utils.Needle/Implementation/JobProcessorSlim.cs:236-258 | The number of finished jobs after disposal is the earlier number plus the number in flight. |
| JobProcessor.DisposedRejectsEverything | Asc.Utils.Needle.Code/Asc.Utils.Needle/Implementation/JobProcessorSlim.cs:128-131 | After disposal, submitting, starting, pausing and resuming all throw ObjectDisposed. |
| JobProcessor.SubmissionAfterStopIsDropped | Asc.Utils.Needle.Code/Asc.Utils.Needle/Implementation/JobProcessorSlim.cs:172-181 | Once the writer is completed, a submission succeeds but changes nothing. Stopping twice is the same as stopping once. |
| JobProcessor.StatusLifecycle | Asc.Utils.Needle.Code/Asc.Utils.Needle/Implementation/JobProcessorSlim.cs:82-106 | Start, Pause and Resume cycle the status through Running, Paused and Running. Each call out of order throws InvalidOperation. |
| JobProcessor.ReaderTakesHead | Asc.Utils.Needle.Code/Asc.Utils.Needle/Implementation/JobProcessorSlim.cs:195-198 | A loop reading a non-empty channel takes its head job and decrements the pending count. |
| JobProcessor.PausedLoopStopsAtGate | Asc.Utils.Needle.Code/Asc.Utils.Needle/Implementation/JobProcessorSlim.cs:187 | A loop at the gate of a paused processor parks. It stays parked until Resume, after which it goes on to read. |
| JobProcessor.DequeuedJobSurvivesPause | Asc.Utils.Needle.Code/Asc.Utils.Needle/Implementation/JobProcessorSlim.cs:195-204 | A job already taken by a loop still finishes after a Pause. |
| JobProcessor.FaultKeepsLoopAlive | Asc.Utils.Needle.Code/Asc.Utils.Needle/Implementation/JobProcessorSlim.cs:204-211 | A faulting job sends the loop back to the gate whether or not a fault handler throws. Under the cancel-pending policy the channel is cleared; otherwise it is kept. |
| LegacyProcessor.Create | Implementation/NeedleJobProcessorSlim.cs:22-36 | A negative pool size is refused. Otherwise the processor is not started, its private gate is closed and its channel is empty. |
| LegacyProcessor.ProcessJob | Implementation/NeedleJobProcessorSlim.cs:38-54 | Only disposal is checked. Any job, a null one included, is appended to the channel even after the stop; nothing else changes. |
| LegacyProcessor.Start | Implementation/NeedleJobProcessorSlim.cs:56-61 | Start succeeds only once and never after disposal. It unpauses, opens the gate and spawns every loop at the gate. |
| LegacyProcessor.SpawnAll | Implementation/NeedleJobProcessorSlim.cs:120-125 | Spawning starts a loop, at the gate, in every empty slot and leaves the slots already started alone. |
| LegacyProcessor.Pause | Implementation/NeedleJobProcessorSlim.cs:63-69 | Pause succeeds only on a started, unpaused, undisposed processor. It closes the gate and leaves the channel alone. |
| LegacyProcessor.Resume | Implementation/NeedleJobProcessorSlim.cs:71-77 | Resume succeeds only on a paused processor. It reopens the gate and leaves the channel alone. |
| LegacyProcessor.StopInternal | Implementation/NeedleJobProcessorSlim.cs:140-145 | The stop pauses, clears the channel and fires the token. It has no guard and does not close the writer. |
| LegacyProcessor.Complete | Implementation/NeedleJobProcessorSlim.cs:163-173 | A finished job is recorded once, as failed exactly when it faults. A throwing fault handler ends the loop without clearing. Otherwise a fault under the cancel-pending policy clears the channel. |
| LegacyProcessor.Step | Implementation/NeedleJobProcessorSlim.cs:147-187 | One move of a worker loop leaves the policy, the flags, the gate and every other loop as they were. The move blocks exactly when the loop has ended, is parked on an unreleased handle, or is reading an empty channel, and the token has not fired. The shared channel loses its head when the loop takes a job, and is emptied when a job faults under CancelPendingJobs and no JobFaulted subscriber throws (:171-172); otherwise it is unchanged. |
| LegacyProcessor.Settle | Implementation/NeedleJobProcessorSlim.cs:149-155 | After the token fires, with the channel empty, a live loop ends. |
| LegacyProcessor.Drain | Implementation/NeedleJobProcessorSlim.cs:198-205 | Waiting for the started loops ends every live loop from the given slot on and changes nothing else. |
| LegacyProcessor.Dispose | Implementation/NeedleJobProcessorSlim.cs:189-212 | Disposal stops, waits for every loop and leaves an empty channel. Disposing twice is the same as once. |
| LegacyProcessor.NullJobIsAcceptedAndFaults | Implementation/NeedleJobProcessorSlim.cs:49-54 | A null job is queued. When a worker runs it, it is recorded as a fault. |
| LegacyProcessor.HandlerExceptionEndsLoop | Implementation/NeedleJobProcessorSlim.cs:167-173 | When a fault handler throws, the loop ends for good and the channel is kept. |
| LegacyProcessor.SubmissionAfterStopIsStranded | Implementation/NeedleJobProcessorSlim.cs:140-145 | A job submitted after the stop is queued, but no loop ever takes it. |
| LegacyProcessor.DisposedRejectsEverything | Implementation/NeedleJobProcessorSlim.cs:103-106 | After disposal, submitting, starting, pausing and resuming throw ObjectDisposed, and a second disposal changes nothing. |
| LegacyProcessor.DisposeRunsInFlightJobs | Implementation/NeedleJobProcessorSlim.cs:189-212 | Disposal lets the in-flight jobs finish and discards exactly the queued ones. |
| CountingProcessor.Create | Asc.Utils.Needle.Code/Asc.Utils.Needle/Implementation/NeedleJobProcessor.cs:21-25 | A negative pool size is refused. Otherwise all three counters start at zero over a stopped processor. |
| CountingProcessor.ProcessJob | Asc.Utils.Needle.Code/Asc.Utils.Needle/Implementation/NeedleJobProcessor.cs:42-91 | The decorator refuses a disposed processor or a null job. Otherwise it counts the submission and forwards it to the processor, even when the processor then drops it. |
| CountingProcessor.Start | Asc.Utils.Needle.Code/Asc.Utils.Needle/Implementation/NeedleJobProcessor.cs:93-97 | Start forwards to the processor and passes its errors through. A status notice is raised only on success. |
| CountingProcessor.Pause | Asc.Utils.Needle.Code/Asc.Utils.Needle/Implementation/NeedleJobProcessor.cs:99-103 | Pause forwards to the processor and passes its errors through. A status notice is raised only on success. |
| CountingProcessor.Resume | Asc.Utils.Needle.Code/Asc.Utils.Needle/Implementation/NeedleJobProcessor.cs:105-109 | Resume forwards to the processor and passes its errors through. A status notice is raised only on success. |
| CountingProcessor.Step | Asc.Utils.Needle.Code/Asc.Utils.Needle/Implementation/NeedleJobProcessor.cs:50-63 | A worker move on the decorated processor bumps the fault counter for a faulting job, the success counter for one that returns, and neither otherwise. The total never changes. |
| CountingProcessor.Dispose | Asc.Utils.Needle.Code/Asc.Utils.Needle/Implementation/NeedleJobProcessor.cs:121-125 | Disposal counts every in-flight job once, as a success or a fault, and leaves the total alone. |
| CountingProcessor.CountsNeverExceedTotal | Asc.Utils.Needle.Code/Asc.Utils.Needle/Implementation/NeedleJobProcessor.cs:17-19 | Successes plus faults never exceed the number of accepted submissions. |
| CountingProcessor.DroppedSubmissionIsCounted | Asc.Utils.Needle.Code/Asc.Utils.Needle/Implementation/NeedleJobProcessor.cs:68-74 | After the stop, a submission is counted in the total although the processor drops it, so the counters fall strictly short of the total. |
| CountingProcessor.FaultCountedWhateverHandlersDo | Asc.Utils.Needle.Code/Asc.Utils.Needle/Implementation/NeedleJobProcessor.cs:24-31 | A faulting job bumps the fault counter exactly once, whether or not another fault subscriber throws. |
| Batch.Create | Asc.Utils.Needle.Code/Asc.Utils.Needle/Implementation/SemaphoreWorkerSlim.cs:31-38 | A new worker has no jobs, no errors, is neither running, canceled nor disposed, and has raised no Canceled event. |
| Batch.AddJob | Asc.Utils.Needle.Code/Asc.Utils.Needle/Implementation/SemaphoreWorkerSlim.cs:55-75 | Adding is refused with ObjectDisposed after disposal, then with InvalidOperation while running, then with ArgumentNull for a null job. Otherwise the job goes to the end of the list. |
| Batch.Raise | Asc.Utils.Needle.Code/Asc.Utils.Needle/Implementation/SemaphoreWorkerSlim.cs:144-154 | Raising Canceled notifies subscribers only the first time in a run. |
| Batch.Cancel | Asc.Utils.Needle.Code/Asc.Utils.Needle/Implementation/SemaphoreWorkerSlim.cs:77-85 | Cancel succeeds only on a running, undisposed, not yet canceled worker. It fires the token and raises Canceled once. |
| Batch.Manage | Asc.Utils.Needle.Code/Asc.Utils.Needle/Implementation/SemaphoreWorkerSlim.cs:124-130 | A job failure is recorded. Under the cancel-pending policy it cancels a run not yet canceled; otherwise nothing else changes. |
| Batch.Invoke | Asc.Utils.Needle.Code/Asc.Utils.Needle/Implementation/ParallelWorkerSlim.cs:185-197 | Invoking a body that throws reports the exception. A body that calls Cancel cancels the run, and it reports InvalidOperation for a Cancel call after the token has fired. |
| Batch.CallCancelOutcome | Asc.Utils.Needle.Code/Asc.Utils.Needle/Implementation/SemaphoreWorkerSlim.cs:77-85 | Calling Cancel n times from a job cancels once. Every later call, and every call on a canceled run, throws InvalidOperation. |
| Batch.EndRun | Asc.Utils.Needle.Code/Asc.Utils.Needle/Implementation/SemaphoreWorkerSlim.cs:98-112 | The end of a run reports an aggregate of the recorded failures exactly when there are any. It clears the jobs and errors, renews the token, resets the Canceled guard and keeps the policy and disposal. |
| SemaphoreWorkerSlim.Create | Asc.Utils.Needle.Code/Asc.Utils.Needle/Implementation/SemaphoreWorkerSlim.cs:31-38 | A non-positive thread count is refused with an argument error. Otherwise every permit is free and no job is queued. |
| SemaphoreWorkerSlim.AddJob | Asc.Utils.Needle.Code/Asc.Utils.Needle/Implementation/SemaphoreWorkerSlim.cs:55-75 | The shared add is applied, its errors are passed through and the permits are untouched. |
| SemaphoreWorkerSlim.Cancel | Asc.Utils.Needle.Code/Asc.Utils.Needle/Implementation/SemaphoreWorkerSlim.cs:77-85 | The shared cancel is applied, its errors are passed through and the permits are untouched. |
| SemaphoreWorkerSlim.Begin | Asc.Utils.Needle.Code/Asc.Utils.Needle/Implementation/SemaphoreWorkerSlim.cs:87-96 | A run starts only on an undisposed, idle worker with jobs. The checks are, in order: ObjectDisposed, then InvalidOperation for no jobs or a run already in progress. |
| SemaphoreWorkerSlim.Acquire | Asc.Utils.Needle.Code/Asc.Utils.Needle/Implementation/SemaphoreWorkerSlim.cs:168-174 | A dispatch on a canceled run stops the loop. Otherwise it takes one permit. |
| SemaphoreWorkerSlim.Failure | Asc.Utils.Needle.Code/Asc.Utils.Needle/Implementation/SemaphoreWorkerSlim.cs:211-226 | A job fails unless it completes or only calls Cancel. |
| SemaphoreWorkerSlim.RunJob | Asc.Utils.Needle.Code/Asc.Utils.Needle/Implementation/SemaphoreWorkerSlim.cs:211-231 | A successful job changes nothing. A failing job goes through exception management. A job that calls Cancel leaves the run canceled. |
| SemaphoreWorkerSlim.Execute | Asc.Utils.Needle.Code/Asc.Utils.Needle/Implementation/SemaphoreWorkerSlim.cs:211-231 | A dispatched job always gives its permit back. On a canceled run it is skipped; otherwise it is run. |
| SemaphoreWorkerSlim.End | Asc.Utils.Needle.Code/Asc.Utils.Needle/Implementation/SemaphoreWorkerSlim.cs:98-112 | After the loop, the run fails with an aggregate of the recorded failures exactly when there are any. The worker is idle, its jobs cleared and all permits free. |
| SemaphoreWorkerSlim.Dispose | Asc.Utils.Needle.Code/Asc.Utils.Needle/Implementation/SemaphoreWorkerSlim.cs:244-260 | Disposal during a run throws InvalidOperation and a second disposal changes nothing. Otherwise the worker is disposed with its jobs cleared. |
| SemaphoreWorkerSlim.NoFailuresIffAllSucceed | Asc.Utils.Needle.Code/Asc.Utils.Needle/Implementation/SemaphoreWorkerSlim.cs:181-182 | No failure is recorded exactly when every job succeeds. |
| SemaphoreWorkerSlim.Turn | Asc.Utils.Needle.Code/Asc.Utils.Needle/Implementation/SemaphoreWorkerSlim.cs:168-176 | One turn of an uncanceled loop acquires a permit, runs the next job and gives the permit back. |
| SemaphoreWorkerSlim.Pump | Asc.Utils.Needle.Code/Asc.Utils.Needle/Implementation/SemaphoreWorkerSlim.cs:166-179 | When the loop ends, the worker is still running, the dispatching is over and the jobs and capacity are unchanged. |
| SemaphoreWorkerSlim.PumpTakesSteps | Asc.Utils.Needle.Code/Asc.Utils.Needle/Implementation/SemaphoreWorkerSlim.cs:168-177 | The loop blocks exactly when an uncanceled dispatch finds no free permit. Otherwise it is one dispatch followed by the rest of the loop. |
| SemaphoreWorkerSlim.RunAsync | Asc.Utils.Needle.Code/Asc.Utils.Needle/Implementation/SemaphoreWorkerSlim.cs:87-113 | A run is rejected exactly when the start is refused, with the same error. A finished run leaves an idle worker with no jobs. |
| SemaphoreWorkerSlim.ContinueStep | Asc.Utils.Needle.Code/Asc.Utils.Needle/Implementation/SemaphoreWorkerSlim.cs:124-130 | Under the continue policy a job that does not cancel adds its own failure, if any, and nothing else. |
| SemaphoreWorkerSlim.PumpNeverHangs | Asc.Utils.Needle.Code/Asc.Utils.Needle/Implementation/SemaphoreWorkerSlim.cs:211-231 | Because every dispatched job releases its permit, the loop never waits forever. |
| SemaphoreWorkerSlim.RunNeverHangs | Asc.Utils.Needle.Code/Asc.Utils.Needle/Implementation/SemaphoreWorkerSlim.cs:87-113 | No run waits forever. |
| SemaphoreWorkerSlim.PumpStopsWhenCanceled | Asc.Utils.Needle.Code/Asc.Utils.Needle/Implementation/SemaphoreWorkerSlim.cs:172-174 | On a canceled run the loop stops at once and dispatches nothing. |
| SemaphoreWorkerSlim.PumpRecordsEveryFailure | Asc.Utils.Needle.Code/Asc.Utils.Needle/Implementation/SemaphoreWorkerSlim.cs:166-183 | Under the continue policy, with no job calling Cancel, every remaining job runs and each failure is recorded in order. The run is not canceled and no Canceled event is raised. |
| SemaphoreWorkerSlim.PumpStopsAtFirstFailure | Asc.Utils.Needle.Code/Asc.Utils.Needle/Implementation/SemaphoreWorkerSlim.cs:124-130 | Under the cancel-pending policy, when the jobs run one at a time (one permit, or no job whose task settles late), the loop records only the first failure, and the run ends canceled exactly when there was one. |
| SemaphoreWorkerSlim.ContinuePolicyReportsEveryFailure | Asc.Utils.Needle.Code/Asc.Utils.Needle/Implementation/SemaphoreWorkerSlim.cs:179-182 | Under the continue policy, with no job calling Cancel, a run succeeds when no job fails. Otherwise it fails with an aggregate of every failure, listed in job order (an order the source does not fix; see Left out). No Canceled event is raised. |
| SemaphoreWorkerSlim.CancelPolicyReportsFirstFailure | Asc.Utils.Needle.Code/Asc.Utils.Needle/Implementation/SemaphoreWorkerSlim.cs:124-130 | Under the cancel-pending policy, when the jobs run one at a time (one permit, or no job whose task settles late), a run fails with an aggregate of the first failure only, and raises Canceled once exactly when a job failed. |
| SemaphoreWorkerSlim.PumpRaisesAtMostOnce | Asc.Utils.Needle.Code/Asc.Utils.Needle/Implementation/SemaphoreWorkerSlim.cs:144-154 | The loop raises Canceled at most once, and only when it cancels the run. |
| SemaphoreWorkerSlim.RunJobRaisesOnCancel | Asc.Utils.Needle.Code/Asc.Utils.Needle/Implementation/SemaphoreWorkerSlim.cs:144-154 | A job run leaves the Canceled event raised exactly when it cancels the run, having raised it once. |
| SemaphoreWorkerSlim.CanceledRaisedAtMostOncePerRun | Asc.Utils.Needle.Code/Asc.Utils.Needle/Implementation/SemaphoreWorkerSlim.cs:87-113 | A whole run raises Canceled at most once. |
| SemaphoreWorkerSlim.CanceledDispatchIsSkipped | Asc.Utils.Needle.Code/Asc.Utils.Needle/Implementation/SemaphoreWorkerSlim.cs:215-219 | A job dispatched before a Cancel but run after it is skipped: no error, one Canceled event, and its permit returned. |
| SemaphoreWorker.Create | Asc.Utils.Needle.Code/Asc.Utils.Needle/Implementation/SemaphoreWorker.cs:23-26 | A non-positive thread count is refused with an argument error. Otherwise all permits are free and all counters are zero. |
| SemaphoreWorker.AddJob | Asc.Utils.Needle.Code/Asc.Utils.Needle/Implementation/SemaphoreWorker.cs:73-87 | The base add is applied and its errors passed through. The total grows by one only when the add is accepted. |
| SemaphoreWorker.Cancel | Asc.Utils.Needle.Code/Asc.Utils.Needle/Implementation/SemaphoreWorkerSlim.cs:77-85 | The shared cancel is applied and its errors are passed through. The counters and permits are untouched. |
| SemaphoreWorker.Begin | Asc.Utils.Needle.Code/Asc.Utils.Needle/Implementation/SemaphoreWorker.cs:43-52 | A run starts only on an undisposed, idle worker with jobs. It raises ObjectDisposed, then InvalidOperation. |
| SemaphoreWorker.Acquire | Asc.Utils.Needle.Code/Asc.Utils.Needle/Implementation/SemaphoreWorkerSlim.cs:168-174 | The dispatch blocks exactly when the run is not canceled and no permit is free. A canceled run stops the loop; otherwise one permit is taken. |
| SemaphoreWorker.Manage | Asc.Utils.Needle.Code/Asc.Utils.Needle/Implementation/SemaphoreWorker.cs:169-181 | A failure goes through the base exception management and bumps the fault counter once. |
| SemaphoreWorker.Failure | Asc.Utils.Needle.Code/Asc.Utils.Needle/Implementation/SemaphoreWorker.cs:101-166 | A thrown exception, a faulted task (wrapped in an aggregate, whether it faulted before or after the job returned) or a null task (as InvalidOperation) is a failure. A completed or canceled task is not. |
| SemaphoreWorker.Kept | Asc.Utils.Needle.Code/Asc.Utils.Needle/Implementation/SemaphoreWorker.cs:117-139 | The model keeps, for the final wait, exactly the tasks that were still pending when their job returned and later fault or are canceled. The source keeps every pending task; those that complete do not change the wait's outcome. |
| SemaphoreWorker.FirstFault | Asc.Utils.Needle.Code/Asc.Utils.Needle/Implementation/SemaphoreWorkerSlim.cs:179 | Awaiting the kept tasks raises a faulted task's exception exactly when some kept task faulted. |
| SemaphoreWorker.FirstFaultIsFirst | Asc.Utils.Needle.Code/Asc.Utils.Needle/Implementation/SemaphoreWorkerSlim.cs:179 | The exception chosen is the own exception of a kept task that faulted. |
| SemaphoreWorker.WhenAll | Asc.Utils.Needle.Code/Asc.Utils.Needle/Implementation/SemaphoreWorkerSlim.cs:179 | Awaiting the kept tasks throws exactly when one faulted or was canceled. A faulted task's exception wins over cancellation, which is reported as TaskCanceled. |
| SemaphoreWorker.RunJob | Asc.Utils.Needle.Code/Asc.Utils.Needle/Implementation/SemaphoreWorker.cs:101-166 | Every run job is counted once, as a success or a fault, except a canceled task, which raises Canceled instead. Each fault adds exactly one error. |
| SemaphoreWorker.Execute | Asc.Utils.Needle.Code/Asc.Utils.Needle/Implementation/SemaphoreWorker.cs:89-166 | The corrected dispatch releases its permit on every path, the skip included. A canceled run skips the job and raises Canceled. A job whose task was still pending when it returned is kept for the final wait, and no other job is. |
| SemaphoreWorker.ExecuteAsWritten | Asc.Utils.Needle.Code/Asc.Utils.Needle/Implementation/SemaphoreWorker.cs:95-99 | The dispatch as written matches the corrected one, except that a skip keeps its permit. |
| SemaphoreWorker.Turn | Asc.Utils.Needle.Code/Asc.Utils.Needle/Implementation/SemaphoreWorker.cs:89-166 | One turn of an uncanceled loop with a free permit runs the next job, gives the permit back, and keeps that job's task for the final wait exactly when it settled late. |
| SemaphoreWorker.Pump | Asc.Utils.Needle.Code/Asc.Utils.Needle/Implementation/SemaphoreWorkerSlim.cs:166-179 | When the loop ends, the jobs, capacity, free permits and total are unchanged and the invariant is kept. |
| SemaphoreWorker.End | Asc.Utils.Needle.Code/Asc.Utils.Needle/Implementation/SemaphoreWorker.cs:56-70 | The corrected end first awaits the kept tasks: if one faulted, the run fails with the first such task's own exception; else if one was canceled, with TaskCanceled (SemaphoreWorkerSlim.cs:179). Otherwise it reports an aggregate of the failures exactly when there are any. It clears the jobs and the kept tasks, resets the Canceled guard and keeps the counters. |
| SemaphoreWorker.EndAsWritten | Asc.Utils.Needle.Code/Asc.Utils.Needle/Implementation/SemaphoreWorker.cs:60-70 | The end as written reports the same result as the corrected one and leaves the same state, except that the Canceled guard is left as it was. |
| SemaphoreWorker.RunAsync | Asc.Utils.Needle.Code/Asc.Utils.Needle/Implementation/SemaphoreWorker.cs:43-71 | A run is rejected exactly when the start is refused. A finished run leaves an idle worker with the guard reset and the total unchanged. |
| SemaphoreWorker.RunAsyncAsWritten | Asc.Utils.Needle.Code/Asc.Utils.Needle/Implementation/SemaphoreWorker.cs:43-71 | The run as written is rejected, hangs and reports the same result as the corrected run, and raises the same number of Canceled events. |
| SemaphoreWorker.Dispose | Asc.Utils.Needle.Code/Asc.Utils.Needle/Implementation/SemaphoreWorkerSlim.cs:244-260 | The corrected disposal refuses during a run. Otherwise it disposes and keeps the counters. |
| SemaphoreWorker.DisposeAsWritten | Asc.Utils.Needle.Code/Asc.Utils.Needle/Implementation/SemaphoreWorkerSlim.cs:244-260 | The disposal as written always succeeds; during a run it leaves a disposed worker that is still running. |
| SemaphoreWorker.PumpNeverHangs | Asc.Utils.Needle.Code/Asc.Utils.Needle/Implementation/SemaphoreWorker.cs:89-137 | With every path releasing its permit, the loop never waits forever. |
| SemaphoreWorker.RunNeverHangs | Asc.Utils.Needle.Code/Asc.Utils.Needle/Implementation/SemaphoreWorker.cs:43-71 | With the corrected dispatch, no run waits forever. |
| SemaphoreWorker.LateTaskDecidesRun | Asc.Utils.Needle.Code/Asc.Utils.Needle/Implementation/SemaphoreWorker.cs:117-166 | For a one-job run, a task that faults after the job returned fails the run with its own exception, where one that faulted before fails it with the aggregate; a late canceled task fails the run with TaskCanceled, where an early one lets it succeed (SemaphoreWorkerSlim.cs:179-182). |
| SemaphoreWorker.OneJobRun | Asc.Utils.Needle.Code/Asc.Utils.Needle/Implementation/SemaphoreWorker.cs:43-166 | A one-job run whose job does not cancel fails with the awaited task's exception if it was kept, else with the aggregate of the job's failure if any, and succeeds otherwise. |
| SemaphoreWorker.SkippedJobLeaksPermit | Asc.Utils.Needle.Code/Asc.Utils.Needle/Implementation/SemaphoreWorker.cs:95-99 | In a one-thread worker, one job skipped after a Cancel keeps the only permit, so the next run as written hangs. |
| SemaphoreWorker.PumpRaisesAtMostOnce | Asc.Utils.Needle.Code/Asc.Utils.Needle/Implementation/SemaphoreWorkerSlim.cs:144-154 | The loop raises Canceled at most once, and only when the guard was not already set. |
| SemaphoreWorker.RunJobRaisesOnce | Asc.Utils.Needle.Code/Asc.Utils.Needle/Implementation/SemaphoreWorker.cs:117-124 | A job run raises Canceled at most once and never clears the guard. |
| SemaphoreWorker.RaisedGuardSticks | Asc.Utils.Needle.Code/Asc.Utils.Needle/Implementation/SemaphoreWorker.cs:60-66 | As written, a worker whose guard was set raises no Canceled event in a later run and keeps the guard. |
| SemaphoreWorker.CancelingRunRaisesCanceled | Asc.Utils.Needle.Code/Asc.Utils.Needle/Implementation/SemaphoreWorkerSlim.cs:77-85 | With the corrected end, a run whose first job calls Cancel raises exactly one Canceled event, whatever earlier runs raised, so each canceling run announces it. |
| SemaphoreWorker.SecondCancelNotAnnounced | Asc.Utils.Needle.Code/Asc.Utils.Needle/Implementation/SemaphoreWorker.cs:60-66 | As written, a worker whose first job cancels its run raises Canceled in that run, and a second run with another canceling job raises none. |
| SemaphoreWorker.DisposeDuringRunAccepted | Asc.Utils.Needle.Code/Asc.Utils.Needle/Implementation/SemaphoreWorkerSlim.cs:249-250 | As written, disposal during a run succeeds and breaks the worker invariant. The corrected disposal refuses with InvalidOperation. |
| SemaphoreWorker.CountsNeverExceedTotal | Asc.Utils.Needle.Code/Asc.Utils.Needle/Implementation/SemaphoreWorker.cs:9-11 | Successes plus faults never exceed the number of added jobs. |
| SemaphoreWorker.Successes | Asc.Utils.Needle.Code/Asc.Utils.Needle/Implementation/SemaphoreWorker.cs:125-129 | The jobs that succeed and those that fail together number no more than the jobs. |
| SemaphoreWorker.ContinueStep | Asc.Utils.Needle.Code/Asc.Utils.Needle/Implementation/SemaphoreWorker.cs:117-137 | Under the continue policy a job adds its own failure to the errors and bumps exactly one counter. A canceled task bumps neither and raises Canceled. |
| SemaphoreWorker.PumpCountsEveryJob | Asc.Utils.Needle.Code/Asc.Utils.Needle/Implementation/SemaphoreWorker.cs:89-181 | Under the continue policy, with no job calling Cancel, the loop records every failure in order and counts every success and every fault. |
| SemaphoreWorker.PumpKeepsLateTasks | Asc.Utils.Needle.Code/Asc.Utils.Needle/Implementation/SemaphoreWorker.cs:139 | Under the same conditions, the loop keeps for the final wait exactly the tasks that settle late, in dispatch order. |
| SemaphoreWorker.ContinuePolicyCountsEveryJob | Asc.Utils.Needle.Code/Asc.Utils.Needle/Implementation/SemaphoreWorker.cs:43-181 | Under the continue policy, with no job calling Cancel, a run fails with the first late-faulted task's own exception, else with TaskCanceled if a late task was canceled, else with the aggregate of all failures exactly when there are any. Its success and fault counters grow by the numbers of succeeding and failing jobs. |
| ParallelWorkerSlim.Create | Asc.Utils.Needle.Code/Asc.Utils.Needle/Implementation/ParallelWorkerSlim.cs:7-34 | A new worker has the chosen policy and no jobs. |
| ParallelWorkerSlim.CreateDefault | Asc.Utils.Needle.Code/Asc.Utils.Needle/Implementation/ParallelWorkerSlim.cs:19 | The default worker cancels pending jobs when one fails. |
| ParallelWorkerSlim.AddJob | Asc.Utils.Needle.Code/Asc.Utils.Needle/Implementation/ParallelWorkerSlim.cs:36-56 | The shared add is applied and its errors are passed through. |
| ParallelWorkerSlim.Cancel | Asc.Utils.Needle.Code/Asc.Utils.Needle/Implementation/ParallelWorkerSlim.cs:58-66 | The shared cancel is applied and its errors are passed through. |
| ParallelWorkerSlim.Begin | Asc.Utils.Needle.Code/Asc.Utils.Needle/Implementation/ParallelWorkerSlim.cs:68-77 | A run starts only on an undisposed, idle worker with jobs. It raises ObjectDisposed, then InvalidOperation. |
| ParallelWorkerSlim.Failure | Asc.Utils.Needle.Code/Asc.Utils.Needle/Implementation/ParallelWorkerSlim.cs:185-207 | A thrown exception or a faulted task (wrapped in an aggregate) is a failure. Nothing else is. |
| ParallelWorkerSlim.Start | Asc.Utils.Needle.Code/Asc.Utils.Needle/Implementation/ParallelWorkerSlim.cs:185-219 | Starting a job fails with a null-reference only for a null task. A failure goes through exception management and a canceled task raises Canceled. |
| ParallelWorkerSlim.Step | Asc.Utils.Needle.Code/Asc.Utils.Needle/Implementation/ParallelWorkerSlim.cs:109-122 | One dispatch on a canceled run raises Canceled and stops. Otherwise it starts the next job, which throws NullReference exactly for a null task. |
| ParallelWorkerSlim.Pump | Asc.Utils.Needle.Code/Asc.Utils.Needle/Implementation/ParallelWorkerSlim.cs:100-124 | The dispatch loop either covers every job or stops at a null task, raising NullReference with the rest undispatched. |
| ParallelWorkerSlim.End | Asc.Utils.Needle.Code/Asc.Utils.Needle/Implementation/ParallelWorkerSlim.cs:79-93 | A thrown exception becomes the run's error. Otherwise the run fails with an aggregate exactly when failures were recorded. The worker ends idle with no jobs. |
| ParallelWorkerSlim.RunAsync | Asc.Utils.Needle.Code/Asc.Utils.Needle/Implementation/ParallelWorkerSlim.cs:68-94 | A run never hangs. It is rejected exactly when the start is refused, with the same error. |
| ParallelWorkerSlim.Dispose | Asc.Utils.Needle.Code/Asc.Utils.Needle/Implementation/ParallelWorkerSlim.cs:234-246 | Disposal during a run throws InvalidOperation and a second disposal changes nothing. A disposed worker refuses runs and additions with ObjectDisposed. The job list is not cleared. |
| ParallelWorkerSlim.HasNullTaskIffSome | Asc.Utils.Needle.Code/Asc.Utils.Needle/Implementation/ParallelWorkerSlim.cs:189-191 | The null-task check finds a null task exactly when some job returns one. |
| ParallelWorkerSlim.ContinueStep | Asc.Utils.Needle.Code/Asc.Utils.Needle/Implementation/ParallelWorkerSlim.cs:165-171 | Under the continue policy one dispatch adds its own failure, if any, and does not cancel. |
| ParallelWorkerSlim.PumpUnderContinuePolicy | Asc.Utils.Needle.Code/Asc.Utils.Needle/Implementation/ParallelWorkerSlim.cs:100-124 | Under the continue policy the loop throws exactly when a remaining job returns a null task. Otherwise it records every failure in order. |
| ParallelWorkerSlim.ContinuePolicyOutcome | Asc.Utils.Needle.Code/Asc.Utils.Needle/Implementation/ParallelWorkerSlim.cs:68-128 | Under the continue policy a run fails with NullReference if a job returns a null task. Otherwise it fails with the aggregate of all failures when there are any, and succeeds otherwise. |
| ParallelWorkerSlim.PumpStopsAtFirstFailure | Asc.Utils.Needle.Code/Asc.Utils.Needle/Implementation/ParallelWorkerSlim.cs:165-171 | Under the cancel-pending policy, when no job's task faults after the loop has moved on, the loop records only the first failure and ends canceled exactly when there was one. |
| ParallelWorkerSlim.CancelPolicyReportsFirstFailure | Asc.Utils.Needle.Code/Asc.Utils.Needle/Implementation/ParallelWorkerSlim.cs:165-171 | Under the cancel-pending policy, for a run without null tasks in which no job's task faults after the loop has moved on, the run fails with an aggregate of the first failure only. |
| ParallelWorkerSlim.StartRaisesOnce | Asc.Utils.Needle.Code/Asc.Utils.Needle/Implementation/ParallelWorkerSlim.cs:173-183 | Starting a job raises Canceled at most once, and only when the guard was not set. |
| ParallelWorkerSlim.PumpRaisesAtMostOnce | Asc.Utils.Needle.Code/Asc.Utils.Needle/Implementation/ParallelWorkerSlim.cs:173-183 | The loop raises Canceled at most once and never clears the guard. |
| ParallelWorkerSlim.CanceledRaisedAtMostOncePerRun | Asc.Utils.Needle.Code/Asc.Utils.Needle/Implementation/ParallelWorkerSlim.cs:68-94 | A whole run raises Canceled at most once. |
| ParallelWorkerSlim.CanceledLoopStops | Asc.Utils.Needle.Code/Asc.Utils.Needle/Implementation/ParallelWorkerSlim.cs:111-119 | After a Cancel, the loop dispatches nothing more and adds no error. It raises Canceled only if Cancel had not already raised it. |
| Legacy.Create | Asc.Utils.Needle.Code/Asc.Utils.Needle/Implementation/NeedleWorker.cs:7-21 | A new worker has the chosen policy, no jobs, zero counters, is idle and not disposed, and has raised no event. |
| Legacy.AddJob | Asc.Utils.Needle.Code/Asc.Utils.Needle/Implementation/NeedleWorker.cs:118-140 | The checks are, in order: ObjectDisposed, then ArgumentNull for a null job, then InvalidOperation while running. Otherwise the job joins the action or the task list with its priority and the total grows by one. |
| Legacy.RequestCancellation | Asc.Utils.Needle.Code/Asc.Utils.Needle/Implementation/NeedleWorker.cs:152-160 | Cancellation is refused after disposal and outside a run. Otherwise it only fires the token: a repeated request is accepted and no event is raised. |
| Legacy.Progress | Asc.Utils.Needle.Code/Asc.Utils.Needle/Implementation/NeedleWorker.cs:83-92 | Progress throws after disposal. With no jobs it is zero; otherwise it is the completed share of the total in whole percent, rounded down. While completions do not exceed the total, it lies between 0 and 100 and is 100 exactly when there are jobs and all of them completed. |
| Legacy.Fail | Asc.Utils.Needle.Code/Asc.Utils.Needle/Implementation/NeedleWorker.cs:286-296 | A failure is appended to the errors. Under the cancel-pending policy it also cancels the run. |
| Legacy.Failure | Asc.Utils.Needle.Code/Asc.Utils.Needle/Implementation/NeedleWorker.cs:230-284 | An action fails only by throwing. A task also fails with its fault, with a canceled-task error when canceled, and with a null-reference error when it returns no task. |
| Legacy.Attempt | Asc.Utils.Needle.Code/Asc.Utils.Needle/Implementation/NeedleWorker.cs:230-256 | A job on a canceled run is skipped and raises Canceled, every time. A failing job is recorded. A successful job bumps the completed count and may cancel the run. The job lists, total and running flag never change. |
| Legacy.Step | Asc.Utils.Needle.Code/Asc.Utils.Needle/Implementation/NeedleWorker.cs:214-222 | Dispatch takes the head of the queue and attempts it. |
| Legacy.Pump | Asc.Utils.Needle.Code/Asc.Utils.Needle/Implementation/NeedleWorker.cs:214-224 | The loop empties the queue, completes at most one job per queued job and changes neither the job lists nor the total. |
| Legacy.BeginAsWritten | Asc.Utils.Needle.Code/Asc.Utils.Needle/Implementation/NeedleWorker.cs:162-169 | The start as written refuses only a disposed worker or one with no jobs. It does not refuse a running worker, and appends another copy of the jobs to the queue. |
| Legacy.Begin | Asc.Utils.Needle.Code/Asc.Utils.Needle/Implementation/NeedleWorker.cs:162-169 | The corrected start also refuses a worker that is already running. Where it succeeds it agrees with the start as written, and the queue is exactly the dispatch order. |
| Legacy.EndState | Asc.Utils.Needle.Code/Asc.Utils.Needle/Implementation/NeedleWorker.cs:179-186 | The end of a run leaves an idle worker with no jobs, zero counters and no errors. It raises Completed once and keeps the policy and disposal. |
| Legacy.Dispose | Asc.Utils.Needle.Code/Asc.Utils.Needle/Implementation/NeedleWorker.cs:320-336 | Disposal during a run throws InvalidOperation and a second disposal changes nothing. Otherwise the jobs and counters are cleared and the worker is disposed. |
| Legacy.AddJobKeepsInv | Asc.Utils.Needle.Code/Asc.Utils.Needle/Implementation/NeedleWorker.cs:118-140 | Adding a job keeps the total equal to the number of jobs held. |
| Legacy.AddJobAddsEntry | Asc.Utils.Needle.Code/Asc.Utils.Needle/Implementation/NeedleWorker.cs:126-138 | An accepted job is exactly one new entry among the worker's jobs. |
| Legacy.BeginKeepsInv | Asc.Utils.Needle.Code/Asc.Utils.Needle/Implementation/NeedleWorker.cs:162-169 | Starting with a dispatch order of the right length keeps the invariant: no more jobs are completed or queued than were added. |
| Legacy.StepKeepsInv | Asc.Utils.Needle.Code/Asc.Utils.Needle/Implementation/NeedleWorker.cs:230-256 | A dispatch keeps the invariant. |
| Legacy.PumpKeepsInv | Asc.Utils.Needle.Code/Asc.Utils.Needle/Implementation/NeedleWorker.cs:214-224 | The whole loop keeps the invariant. |
| Legacy.OthersKeepInv | Asc.Utils.Needle.Code/Asc.Utils.Needle/Implementation/NeedleWorker.cs:152-186 | Cancellation, the end of a run and disposal keep the invariant. |
| Legacy.SkippedJobsEachRaise | Asc.Utils.Needle.Code/Asc.Utils.Needle/Implementation/NeedleWorker.cs:236-240 | On a canceled run every remaining job raises its own Canceled event and nothing else happens. |
| Legacy.CancelPolicyRecordsAtMostOne | Asc.Utils.Needle.Code/Asc.Utils.Needle/Implementation/NeedleWorker.cs:286-296 | Under the cancel-pending policy a run whose jobs are dispatched one at a time records at most one failure, and none once it is canceled. |
| Legacy.Recorded | Asc.Utils.Needle.Code/Asc.Utils.Needle/Implementation/NeedleWorker.cs:247-250 | A job leaves at most one error, exactly its failure. |
| Legacy.ContinueStep | Asc.Utils.Needle.Code/Asc.Utils.Needle/Implementation/NeedleWorker.cs:230-296 | Under the continue policy a job that does not cancel either records its failure or completes, and raises no Canceled event. |
| Legacy.ContinuePolicyRecordsAll | Asc.Utils.Needle.Code/Asc.Utils.Needle/Implementation/NeedleWorker.cs:214-227 | Under the continue policy, with no job canceling, the loop records every failure in dispatch order and raises no Canceled event. |
| Legacy.ContinuePolicyCompletesRest | Asc.Utils.Needle.Code/Asc.Utils.Needle/Implementation/NeedleWorker.cs:242-245 | Under the continue policy, with no job canceling, every job that does not fail is counted as completed. |
| Legacy.ConcurrentRunOvercounts | Asc.Utils.Needle.Code/Asc.Utils.Needle/Implementation/NeedleWorker.cs:162-169 | As written, a second run started while the first is running counts one job twice, so progress reads 200. The corrected start refuses the second run. |
| PriorityOrder.WithPriorityAppend | Asc.Utils.Needle.Code/Asc.Utils.Needle/Implementation/NeedleWorker.cs:203-209 | Selecting one priority from actions followed by tasks gives the selected actions followed by the selected tasks. |
| PriorityOrder.WithPriorityValue | Asc.Utils.Needle.Code/Asc.Utils.Needle/JobPriority.cs:8-12 | Every selected job has the selected priority. |
| PriorityOrder.WithPriorityTwice | Asc.Utils.Needle.Code/Asc.Utils.Needle/JobPriority.cs:8-12 | Selecting one priority twice is selecting it once; selecting two different priorities in turn selects nothing. |
| PriorityOrder.FromValues | Asc.Utils.Needle.Code/Asc.Utils.Needle/Implementation/NeedleWorker.cs:214 | The jobs from one priority value on have at least that value. |
| PriorityOrder.FromSorted | Asc.Utils.Needle.Code/Asc.Utils.Needle/Implementation/NeedleWorker.cs:214 | The jobs from one priority value on are in non-decreasing priority order. |
| PriorityOrder.ByPrioritySorted | Asc.Utils.Needle.Code/Asc.Utils.Needle/Implementation/NeedleWorker.cs:214 | The dispatch order never puts a job before one of a lower priority value. |
| PriorityOrder.FromFiltered | Asc.Utils.Needle.Code/Asc.Utils.Needle/Implementation/NeedleWorker.cs:214 | The jobs of one priority in the order from a value on are exactly those jobs in their given order, and none when the value is out of range. |
| PriorityOrder.ByPriorityStable | Asc.Utils.Needle.Code/Asc.Utils.Needle/Implementation/NeedleWorker.cs:214 | The sort is stable: the jobs of each priority keep their given order. |
| PriorityOrder.AtLeastSplit | Asc.Utils.Needle.Code/Asc.Utils.Needle/Implementation/NeedleWorker.cs:214 | The jobs of value at least v are those of value v together with those of value at least v + 1. |
| PriorityOrder.AtLeastBounds | Asc.Utils.Needle.Code/Asc.Utils.Needle/JobPriority.cs:8-12 | Every job has a priority value from 1 to 5. |
| PriorityOrder.FromPermutes | Asc.Utils.Needle.Code/Asc.Utils.Needle/Implementation/NeedleWorker.cs:214 | The order from value v on holds the same jobs as those of value at least v. |
| PriorityOrder.ByPriorityPermutes | Asc.Utils.Needle.Code/Asc.Utils.Needle/Implementation/NeedleWorker.cs:214 | The dispatch order is a permutation of the jobs: none lost, none duplicated. |
| PriorityOrder.Order | Asc.Utils.Needle.Code/Asc.Utils.Needle/Implementation/NeedleWorker.cs:214 | The single-pass bucket sort computes the dispatch order. Its result is sorted and a permutation of its input. |
| PriorityWorker.Create | Asc.Utils.Needle.Code/Asc.Utils.Needle/Implementation/NeedleWorker.cs:7-15 | A negative thread count is refused, as the semaphore refuses it. Otherwise the worker starts empty with that many permits. |
| PriorityWorker.NeddleDefault | Asc.Utils.Needle.Code/Asc.Utils.Needle/Implementation/NeddleWorker.cs:6 | The default worker has three threads and cancels pending jobs. |
| PriorityWorker.NeedleDefault | Asc.Utils.Needle.Code/Asc.Utils.Needle/Implementation/NeedleWorker.cs:25 | The default worker takes the processor count as its thread count. |
| PriorityWorker.AddJob | Asc.Utils.Needle.Code/Asc.Utils.Needle/Implementation/NeddleWorker.cs:120-142 | Adding is refused exactly after disposal, for a null job, or while running. Otherwise the job is one new entry and the total grows by one. |
| PriorityWorker.RequestCancellation | Asc.Utils.Needle.Code/Asc.Utils.Needle/Implementation/NeddleWorker.cs:181-189 | Cancellation is refused with ObjectDisposed after disposal and with InvalidOperation outside a run. Otherwise it only fires the token. |
| PriorityWorker.Progress | Asc.Utils.Needle.Code/Asc.Utils.Needle/Implementation/NeddleWorker.cs:72-81 | Progress throws after disposal. Otherwise it lies between 0 and 100 and is 100 exactly when every added job completed. |
| PriorityWorker.Begin | Asc.Utils.Needle.Code/Asc.Utils.Needle/Implementation/NeddleWorker.cs:144-151 | The corrected start refuses a disposed, empty or running worker. Otherwise it queues the jobs in dispatch order. |
| PriorityWorker.Pump | Asc.Utils.Needle.Code/Asc.Utils.Needle/Implementation/NeddleWorker.cs:214-224 | With no permit, a non-empty run waits forever. Otherwise every queued job is dispatched in order. |
| PriorityWorker.End | Asc.Utils.Needle.Code/Asc.Utils.Needle/Implementation/NeddleWorker.cs:161-168 | The run fails with an aggregate of the recorded failures exactly when there are any. Either way the worker is reset. |
| PriorityWorker.RunAsync | Asc.Utils.Needle.Code/Asc.Utils.Needle/Implementation/NeddleWorker.cs:144-169 | A run is rejected exactly when the start is refused. A finished run leaves an idle, empty worker and raises Completed once. |
| PriorityWorker.Dispose | Asc.Utils.Needle.Code/Asc.Utils.Needle/Implementation/NeddleWorker.cs:303-329 | Disposal during a run throws InvalidOperation and a second disposal changes nothing. A disposed worker's progress throws. |
| PriorityWorker.RunHangsIffNoPermits | Asc.Utils.Needle.Code/Asc.Utils.Needle/Implementation/NeddleWorker.cs:214-216 | A run waits forever exactly when it starts with zero permits. |
| PriorityWorker.DispatchOrder | Asc.Utils.Needle.Code/Asc.Utils.Needle/Implementation/NeddleWorker.cs:203-214 | The run dispatches every action and task once, sorted by priority, with equal priorities in their added order: actions first, then tasks. |
| PriorityWorker.QuietPermutation | Asc.Utils.Needle.Code/Asc.Utils.Needle/Implementation/NeddleWorker.cs:214 | Reordering the jobs does not change whether any of them cancels the run. |
| PriorityWorker.ContinuePolicyOutcome | Asc.Utils.Needle.Code/Asc.Utils.Needle/Implementation/NeddleWorker.cs:224-227 | With one permit, under the continue policy and with no job canceling, a run fails with the aggregate of every failure in dispatch order exactly when there is one. |
| PriorityWorker.ContinuePolicyProgress | Asc.Utils.Needle.Code/Asc.Utils.Needle/Implementation/NeddleWorker.cs:72-81 | Under the continue policy, with no job canceling, progress after the loop reads 100 exactly when no job failed. |
| PriorityWorker.CancelPolicyOneFailure | Asc.Utils.Needle.Code/Asc.Utils.Needle/Implementation/NeddleWorker.cs:282-290 | With at most one permit, under the cancel-pending policy a failed run reports exactly one inner exception. |
| ParallelWorker.Create | Asc.Utils.Needle.Code/Asc.Utils.Needle/Implementation/ParallelWorker.cs:7-20 | A new worker has the chosen policy, no jobs and nothing thrown. |
| ParallelWorker.CreateDefault | Asc.Utils.Needle.Code/Asc.Utils.Needle/Implementation/ParallelWorker.cs:7 | The default worker cancels pending jobs. |
| ParallelWorker.AddJob | Asc.Utils.Needle.Code/Asc.Utils.Needle/Implementation/ParallelWorker.cs:105-127 | Adding is refused exactly after disposal, for a null job, or while running. Otherwise the job joins its list and the total grows by one. |
| ParallelWorker.RequestCancellation | Asc.Utils.Needle.Code/Asc.Utils.Needle/Implementation/ParallelWorker.cs:139-147 | Cancellation is refused with ObjectDisposed after disposal and with InvalidOperation outside a run. Otherwise it only fires the token. |
| ParallelWorker.Progress | Asc.Utils.Needle.Code/Asc.Utils.Needle/Implementation/ParallelWorker.cs:65-74 | Progress throws after disposal. Otherwise it lies between 0 and 100 and is 100 exactly when every added job completed. |
| ParallelWorker.Begin | Asc.Utils.Needle.Code/Asc.Utils.Needle/Implementation/ParallelWorker.cs:149-163 | The corrected start refuses a disposed, empty or running worker. Otherwise it starts the actions, then the tasks, in added order. |
| ParallelWorker.Rethrown | Asc.Utils.Needle.Code/Asc.Utils.Needle/Implementation/ParallelWorker.cs:165 | The run keeps the first exception that escapes an action task; later ones are dropped. |
| ParallelWorker.StepAsWritten | Asc.Utils.Needle.Code/Asc.Utils.Needle/Implementation/ParallelWorker.cs:183-206 | As written, an action not skipped is invoked twice. The second invocation's exception escapes the task; a task job is invoked once. |
| ParallelWorker.Step | Asc.Utils.Needle.Code/Asc.Utils.Needle/Implementation/ParallelWorker.cs:183-230 | The corrected dispatch invokes each job not skipped exactly once and lets no exception escape. |
| ParallelWorker.PumpAsWritten | Asc.Utils.Needle.Code/Asc.Utils.Needle/Implementation/ParallelWorker.cs:160-165 | As written, the loop does the same bookkeeping as the corrected one, with at least as many invocations. |
| ParallelWorker.Pump | Asc.Utils.Needle.Code/Asc.Utils.Needle/Implementation/ParallelWorker.cs:160-165 | Every queued job is either invoked once or skipped with a Canceled event. |
| ParallelWorker.End | Asc.Utils.Needle.Code/Asc.Utils.Needle/IParallelWorker.cs:89-96 | The corrected end fails with an escaped exception if there is one. Otherwise it fails exactly when a job failure was recorded, with the aggregate of the recorded failures, as the interface documents. It leaves the same state as the end as written. |
| ParallelWorker.EndAsWritten | Asc.Utils.Needle.Code/Asc.Utils.Needle/Implementation/ParallelWorker.cs:165-178 | As written, the run fails exactly when an exception escaped a task, with that exception. The recorded job failures are never reported. |
| ParallelWorker.RunAsyncAsWritten | Asc.Utils.Needle.Code/Asc.Utils.Needle/Implementation/ParallelWorker.cs:149-179 | As written, a run never hangs and is rejected exactly when the start is refused. |
| ParallelWorker.RunAsync | Asc.Utils.Needle.Code/Asc.Utils.Needle/Implementation/ParallelWorker.cs:149-179 | With the corrected dispatch and end, a run that starts fails exactly when the loop recorded a failure, with the aggregate of the recorded failures, and leaves an idle, empty worker. |
| ParallelWorker.Dispose | Asc.Utils.Needle.Code/Asc.Utils.Needle/Implementation/ParallelWorker.cs:273-286 | Disposal during a run throws InvalidOperation and a second disposal changes nothing. A disposed worker's progress throws. |
| ParallelWorker.PumpKeepsThrown | Asc.Utils.Needle.Code/Asc.Utils.Needle/Implementation/ParallelWorker.cs:204 | As written, when no action throws, nothing escapes the loop. |
| ParallelWorker.TaskFailuresDoNotFailRun | Asc.Utils.Needle.Code/Asc.Utils.Needle/Implementation/ParallelWorker.cs:208-230 | As written, a run in which no action throws succeeds, however many tasks fail. |
| ParallelWorker.FirstThrow | Asc.Utils.Needle.Code/Asc.Utils.Needle/Implementation/ParallelWorker.cs:204 | The first throwing action, if any, gives the exception that escapes. |
| ParallelWorker.FirstThrowStep | Asc.Utils.Needle.Code/Asc.Utils.Needle/Implementation/ParallelWorker.cs:195-204 | As written, the first dispatch on a clean run lets an exception escape exactly when the job is a throwing action. |
| ParallelWorker.ContinuePolicyThrown | Asc.Utils.Needle.Code/Asc.Utils.Needle/Implementation/ParallelWorker.cs:183-206 | Under the continue policy, with no job canceling, the escaping exception is the first throwing action's. |
| ParallelWorker.PumpKeepsThrownSome | Asc.Utils.Needle.Code/Asc.Utils.Needle/Implementation/ParallelWorker.cs:165 | As written, once an exception has escaped, later ones do not replace it. |
| ParallelWorker.ContinuePolicyOutcomeAsWritten | Asc.Utils.Needle.Code/Asc.Utils.Needle/Implementation/ParallelWorker.cs:149-179 | As written under the continue policy, a run fails exactly when some action throws, with the first such action's exception. |
| ParallelWorker.ActionInvokedTwice | Asc.Utils.Needle.Code/Asc.Utils.Needle/Implementation/ParallelWorker.cs:195-204 | As written, a single completing action is invoked twice, and a single throwing action fails the run with its bare exception. The corrected run invokes it once and fails with the aggregate of its failure. |
| ParallelWorker.FailedTaskNotReported | Asc.Utils.Needle.Code/Asc.Utils.Needle/Implementation/ParallelWorker.cs:149-179 | As written, a run whose single task job throws succeeds. The corrected run fails with the aggregate of that failure. |
| ParallelWorker.ContinuePolicyOutcome | Asc.Utils.Needle.Code/Asc.Utils.Needle/IParallelWorker.cs:89-96 | Under the continue policy, with no job canceling, the corrected run fails exactly when some job fails, with the aggregate of all the failures in dispatch order. |

## Left out

- Real concurrency is left out. Processor loops interleave only at the modelled steps, and a batch run executes its jobs one after another. The lost-update races on the plain counters of `NeddleWorker` (no lock around `CompletedJobsCount++`) is not modelled.
- Two concurrent runs of one batch worker are modelled only as the second start of the older workers (`Legacy.BeginAsWritten`), not as an interleaving of their loops.
- 32-bit overflow is left out. Counters and the progress product `completed * 100` are unbounded integers.
- `BeginRun` is left out. It only schedules `RunAsync` on the thread pool after the same checks, so it is `RunAsync` detached from its caller.
- `PropertyChanged` notifications, `ToString`/debugger display, the `CancellationToken` accessors and the `JobFaulted` subscriptions of the batch workers are left out. They carry no state the model needs; `JobFaulted` on the processors is modelled only through whether a subscriber throws.
- Exceptions thrown by `Completed`, `Canceled` or `JobFaulted` subscribers of the older workers are left out, because they depend on user code.
- Exceptions thrown by `Canceled` subscribers of `SemaphoreWorkerSlim`, `SemaphoreWorker` and `ParallelWorkerSlim` are left out for the same reason. `RaiseCanceled` runs inside `Cancel()`, which `ManageException` calls before it records the job's exception (SemaphoreWorkerSlim.cs:123-129 and :144-154, ParallelWorkerSlim.cs:173-183). A throwing subscriber would lose that failure and fail the run with its own exception. `Batch.Raise` and `Batch.Manage` model only subscribers that return.
- `CountingProcessor`: the source derives `NeedleJobProcessor` from `NeedleJobProcessorSlim` (NeedleJobProcessor.cs:9), but its base-constructor call passes three arguments (:21-22), which matches `JobProcessorSlim` (JobProcessorSlim.cs:22) and not the two-argument legacy `Implementation/NeedleJobProcessorSlim` (:22). The decorator is built over the `JobProcessor` model. Over the legacy base it would accept null jobs, end a loop on a throwing fault handler and strand submissions after the stop, as `LegacyProcessor` shows.
- `Batch.EndRun`: the inner exceptions of the aggregate are listed in recording order. The source collects them in a `ConcurrentBag` (SemaphoreWorkerSlim.cs:17, ParallelWorkerSlim.cs:15), whose enumeration order is unspecified, so only the multiset of inner exceptions is promised by the source; the order is not part of what the model claims about it.
- `SemaphoreWorkerSlim.End`: the aggregate's inner exceptions are in recording order, where the source's bag has no defined order (see `Batch.EndRun`).
- `SemaphoreWorkerSlim.ContinuePolicyReportsEveryFailure`: the failures are listed in job order, where the source's bag has no defined order; only their multiset carries over.
- `SemaphoreWorker.End`: the aggregate's inner exceptions are in recording order, where the inherited bag has no defined order.
- `SemaphoreWorker.EndAsWritten`: the same order caveat as `SemaphoreWorker.End`.
- `SemaphoreWorker.ContinuePolicyCountsEveryJob`: the failures are listed in job order, where the inherited bag has no defined order; only their multiset carries over.
- `ParallelWorkerSlim.End`: the aggregate's inner exceptions are in recording order, where the source's bag (ParallelWorkerSlim.cs:15, :127) has no defined order.
- `ParallelWorkerSlim.ContinuePolicyOutcome`: the failures are listed in start order, where the source's bag has no defined order; only their multiset carries over.
- `SemaphoreWorkerSlim.PumpStopsAtFirstFailure`: stated for jobs that run one at a time: one permit, or no job whose task is still pending when it returns. `RunJobAsync` gives the permit back only after awaiting the job (SemaphoreWorkerSlim.cs:211-231), so with more permits several pending jobs can fail before the first `Cancel()` is seen, and `ManageException` records each of them (:124-130).
- `SemaphoreWorkerSlim.CancelPolicyReportsFirstFailure`: stated under the same one-at-a-time condition as `SemaphoreWorkerSlim.PumpStopsAtFirstFailure`; with jobs running together the aggregate can hold several failures.
- `ParallelWorkerSlim.PumpStopsAtFirstFailure`: stated for runs in which no job's task faults after the loop has moved on. Such a task is recorded by its continuation (ParallelWorkerSlim.cs:209-218) while later jobs are started (:109-122), so several failures can be recorded.
- `ParallelWorkerSlim.CancelPolicyReportsFirstFailure`: stated under the same condition as `ParallelWorkerSlim.PumpStopsAtFirstFailure`; otherwise the aggregate can hold several failures.
- `Legacy.CancelPolicyRecordsAtMostOne`: holds for jobs run one after another. `NeedleWorker`, `NeddleWorker` and `ParallelWorker` start every job with `Task.Run` (NeedleWorker.cs:232 and :260), so with more than one job running, two can fail and be recorded before either cancel is seen (NeedleWorker.cs:286-294).
- `PriorityWorker.CancelPolicyOneFailure`: stated for at most one permit, which serialises the jobs because it is given back only in each job's `finally`. With more permits two running jobs can both fail, and the run reports both.
- `PriorityWorker.ContinuePolicyOutcome`: stated for one permit. With more, the failure list fills in completion order, which the sequential model does not represent.
- `ParallelWorker.ContinuePolicyOutcome`: the failures are listed in dispatch order. The source starts every job with `Task.Run` and adds failures to a `List` as they happen (ParallelWorker.cs:19 and :237-246), so with jobs running together the order is the completion order, which the sequential model does not represent.
- `SemaphoreWorker.LateTaskDecidesRun`: a late task is modelled as settling after the loop has dispatched every job. Its success or failure is counted and its permit released at dispatch, where the source does so in the continuation (SemaphoreWorker.cs:141-166).
- `Environment.ProcessorCount` is a parameter of `PriorityWorker.NeedleDefault`, because it is a property of the machine.
- `Legacy.Failure`: an action job's body may only complete, throw or call for cancellation. The faulted, canceled and null task bodies are treated as completing for actions, because an `Action` returns no task.
- `ParallelWorker.AddJob`: `ParallelWorker` has no priorities. Its entries carry `Medium`, which nothing reads.
- `JobProcessor.Dispose`: disposal is one atomic move. Submissions racing with a disposal in progress are covered only by the lemmas about the stop.
- `LegacyProcessor.Create`: the private gate's initial state (closed) is fixed. The injected gate of the newer processor is a parameter.
- Task exception wrapping is reduced to the error the source observes: `Aggregate([e])` for a faulted task inspected through `Task.Exception`, `e` for an awaited one.
- MasterNeddleWorker, MainBackgroundWorker, Pincushion, Needle and the interfaces are not part of this model.

## Findings

| source | as written | input that shows it | evidently intended | confidence | as-written member | corrected member |
|---|---|---|---|---|---|---|
| Asc.Utils.Needle.Code/Asc.Utils.Needle/Implementation/SemaphoreWorker.cs:95-99 | A job dispatched after cancellation returns without `ReleaseSemaphore()`, so the permit acquired for it is never given back. | A one-thread worker with one job. Cancel after the dispatch acquired the permit, then run again: the next acquire waits forever. | Every dispatched job releases its permit, as the throw and null paths at 103-115 do. | high, not executed | SemaphoreWorker.ExecuteAsWritten, SemaphoreWorker.SkippedJobLeaksPermit | SemaphoreWorker.Execute, SemaphoreWorker.RunNeverHangs |
| Asc.Utils.Needle.Code/Asc.Utils.Needle/Implementation/SemaphoreWorker.cs:60-70 | The overriding `RunAsync` never resets `_canceledEventAlreadyRaised`, unlike the base at SemaphoreWorkerSlim.cs:107. After one canceled run, `Canceled` is never raised again. | Two runs, each with one job that calls `Cancel()`: the first raises `Canceled`, the second does not. | `Canceled` is raised once per canceled run. | high, not executed | SemaphoreWorker.RunAsyncAsWritten, SemaphoreWorker.SecondCancelNotAnnounced | SemaphoreWorker.RunAsync, SemaphoreWorker.CancelingRunRaisesCanceled |
| Asc.Utils.Needle.Code/Asc.Utils.Needle/Implementation/SemaphoreWorkerSlim.cs:249-250 | `SemaphoreWorker` sets its own `IsRunning`, never the base `_isRunning` that `Dispose` checks, so a `SemaphoreWorker` can be disposed mid-run. | Dispose a `SemaphoreWorker` while a run is in progress: no exception, and the worker is disposed and running. | Disposal during a run throws `InvalidOperationException`. | high, not executed | SemaphoreWorker.DisposeAsWritten, SemaphoreWorker.DisposeDuringRunAccepted | SemaphoreWorker.Dispose |
| Asc.Utils.Needle.Code/Asc.Utils.Needle/Implementation/ParallelWorker.cs:204 | After the try/catch, `job()` is called a second time outside any handler. Every action runs twice, and the second call's exception escapes into `Task.WhenAll`. | One action that completes runs twice. One action that throws `e` fails the run with `e`. | Each action runs once, and its failure is recorded and reported in the run's aggregate, as for task jobs (see the next row). | high, not executed | ParallelWorker.RunAsyncAsWritten, ParallelWorker.ActionInvokedTwice | ParallelWorker.RunAsync, ParallelWorker.Step |
| Asc.Utils.Needle.Code/Asc.Utils.Needle/Implementation/ParallelWorker.cs:149-179 | `RunAsync` awaits `Task.WhenAll` and returns. The failures that `ManageException` collects in `exceptions` (:237-246) are never thrown, although the interface documents an `AggregateException` when any job fails (IParallelWorker.cs:95). | One task job that throws `e`: the run succeeds. | The run throws an aggregate of the recorded failures, as `NeedleWorker` does (NeedleWorker.cs:224-227). | high, not executed | ParallelWorker.EndAsWritten, ParallelWorker.FailedTaskNotReported, ParallelWorker.TaskFailuresDoNotFailRun | ParallelWorker.End, ParallelWorker.ContinuePolicyOutcome |
| Asc.Utils.Needle.Code/Asc.Utils.Needle/Implementation/NeedleWorker.cs:162-169 | `RunAsync` never checks `IsRunning`. A second call while running dispatches every job again, and `CompletedJobsCount` can exceed `TotalJobsCount`. The same holds in NeddleWorker.cs:144-151 and ParallelWorker.cs:149-156. | One completing action. Start two runs, then dispatch both copies: `Progress` reads 200. | A run in progress refuses another start, as the slim workers do. | medium, not executed | Legacy.BeginAsWritten, Legacy.ConcurrentRunOvercounts | Legacy.Begin, Legacy.Progress |
