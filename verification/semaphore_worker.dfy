/** The observable semaphore worker (`SemaphoreWorker`): the semaphore batch
    worker plus job counters, a `JobFaulted` notification and its own running
    flag.

    The subclass replaces the job wrapper: a job's synchronous failure, a null
    task and a faulted task are recorded (a faulted task with the exception
    the task carries, an aggregate), a canceled task only raises `Canceled`,
    and a task that completes counts as a success. Every recorded failure
    also bumps the fault counter and raises `JobFaulted` (its subscribers'
    exceptions are swallowed, so they change nothing here). A task still
    pending when its job returns is handled the same way once it settles,
    and is also kept for the final `Task.WhenAll`, whose exception then
    replaces the aggregate as the result of the run.

    `Valid` is what the code as written keeps; `Inv` adds what the corrected
    operations keep: every permit comes back and the `Canceled` guard is
    re-armed between runs. The corrected operations are the model; each
    as-written variant is kept next to its correction, with a lemma showing
    the difference. */
module SemaphoreWorker {
  import opened Jobs
  import Batch

  /** The three counters; none of them is ever reset. */
  datatype Counts = Counts(total: nat, success: nat, faulted: nat)

  datatype Worker = Worker(
    batch: Batch.Batch,
    capacity: nat,
    free: nat,
    next: nat,
    holding: bool,
    dispatching: bool,
    counts: Counts,
    tasks: seq<Body>)

  /** What the code as written keeps: permits never exceed the capacity, the
      dispatch position and the running flag agree, a canceled run has raised
      `Canceled`, and no job is counted before it is dispatched. */
  ghost predicate Valid(w: Worker) {
    && w.capacity >= 1
    && w.free + (if w.holding then 1 else 0) <= w.capacity
    && w.next <= |w.batch.jobs|
    && (w.holding ==> w.dispatching)
    && (w.dispatching ==> w.batch.running && w.next < |w.batch.jobs|)
    && (w.batch.running && !w.dispatching && !w.batch.canceled ==> w.next == |w.batch.jobs|)
    && (w.batch.disposed ==> !w.batch.running && w.batch.jobs == [])
    && (!w.batch.running ==> w.next == 0 && !w.dispatching && !w.batch.canceled && w.batch.errors == [])
    && (w.batch.canceled ==> w.batch.raised)
    && w.counts.success + w.counts.faulted + |w.batch.jobs| - w.next <= w.counts.total
    && (!w.batch.running ==> w.tasks == [])
  }

  /** What the corrected worker keeps besides: every permit is free except
      the one held by the job about to start, and between runs the
      `Canceled` guard is armed. */
  ghost predicate Inv(w: Worker) {
    && Valid(w)
    && w.free + (if w.holding then 1 else 0) == w.capacity
    && (!w.batch.running ==> !w.batch.raised)
  }

  /** The constructor: a non-positive thread count is rejected. */
  function Create(threads: int, policy: Policy): (r: Result<Worker>)
    ensures r.Err? <==> threads <= 0
    ensures r.Err? ==> r.error == Argument
    ensures r.Ok? ==> Inv(r.value) && r.value.capacity == threads && r.value.free == threads
    ensures r.Ok? ==> r.value.batch == Batch.Create(policy) && r.value.counts == Counts(0, 0, 0)
  {
    if threads <= 0 then Err(Argument)
    else Ok(Worker(Batch.Create(policy), threads, threads, 0, false, false, Counts(0, 0, 0), []))
  }

  /** Adds a job after the base checks and counts it. */
  function AddJob(w: Worker, job: Option<Body>): (r: Result<Worker>)
    requires Valid(w)
    ensures Batch.AddJob(w.batch, job).Err? ==> r == Err(Batch.AddJob(w.batch, job).error)
    ensures r.Ok? ==> r.value.batch == Batch.AddJob(w.batch, job).value
    ensures r.Ok? ==> r.value.counts == w.counts.(total := w.counts.total + 1)
    ensures r.Ok? ==> r.value == w.(batch := r.value.batch, counts := r.value.counts)
    ensures r.Ok? ==> Valid(r.value) && (Inv(w) ==> Inv(r.value))
  {
    match Batch.AddJob(w.batch, job)
    case Err(e) => Err(e)
    case Ok(b) => Ok(w.(batch := b, counts := w.counts.(total := w.counts.total + 1)))
  }

  /** Requests cancellation of the current run; see `Batch.Cancel`. */
  function Cancel(w: Worker): (r: Result<Worker>)
    requires Valid(w)
    ensures Batch.Cancel(w.batch).Err? ==> r == Err(Batch.Cancel(w.batch).error)
    ensures r.Ok? ==> r.value == w.(batch := Batch.Cancel(w.batch).value)
    ensures r.Ok? ==> Valid(r.value) && (Inv(w) ==> Inv(r.value))
  {
    match Batch.Cancel(w.batch)
    case Err(e) => Err(e)
    case Ok(b) => Ok(w.(batch := b))
  }

  /** The guards of `RunAsync`, in order: disposed, nothing to run, already
      running; then the run starts with the first job. */
  function Begin(w: Worker): (r: Result<Worker>)
    requires Valid(w)
    ensures r.Ok? <==> !w.batch.disposed && w.batch.jobs != [] && !w.batch.running
    ensures w.batch.disposed ==> r == Err(ObjectDisposed)
    ensures !w.batch.disposed && (w.batch.jobs == [] || w.batch.running) ==> r == Err(InvalidOperation)
    ensures r.Ok? ==> r.value == w.(batch := w.batch.(running := true), dispatching := true)
    ensures r.Ok? ==> Valid(r.value) && (Inv(w) ==> Inv(r.value))
  {
    if w.batch.disposed then Err(ObjectDisposed)
    else if w.batch.jobs == [] then Err(InvalidOperation)
    else if w.batch.running then Err(InvalidOperation)
    else Ok(w.(batch := w.batch.(running := true), dispatching := true))
  }

  /** The inherited permit wait: a canceled token ends the loop, otherwise the
      next job takes a free permit; `None` is a wait that never completes. */
  function Acquire(w: Worker): (r: Option<Worker>)
    requires Valid(w) && w.dispatching && !w.holding
    ensures r.None? <==> !w.batch.canceled && w.free == 0
    ensures w.batch.canceled ==> r == Some(w.(dispatching := false))
    ensures !w.batch.canceled && r.Some? ==> r.value == w.(free := w.free - 1, holding := true)
    ensures r.Some? ==> Valid(r.value) && (Inv(w) ==> Inv(r.value))
  {
    if w.batch.canceled then Some(w.(dispatching := false))
    else if w.free == 0 then None
    else Some(w.(free := w.free - 1, holding := true))
  }

  /** Records a failure: the base handling (cancel under the cancel policy,
      then record), then the fault counter and `JobFaulted`. */
  function Manage(b: Batch.Batch, c: Counts, e: Error): (r: (Batch.Batch, Counts))
    requires b.running && !b.disposed
    ensures r.0 == Batch.Manage(b, e)
    ensures r.1 == c.(faulted := c.faulted + 1)
  {
    (Batch.Manage(b, e), c.(faulted := c.faulted + 1))
  }

  /** The exception this worker records for a job invoked in a run that has
      not been canceled, unless its body calls `Cancel`: a faulted task
      contributes the aggregate it carries, a null task an invalid-operation
      error, and a canceled task nothing. */
  function Failure(body: Body): (r: Option<Error>)
    ensures r.None? <==> body.Completes? || body.CanceledTask? || body.CallsCancel?
    ensures body.FaultedTask? ==> r == Some(Aggregate([body.e]))
  {
    match body
    case Throws(e) => Some(e)
    case FaultedTask(e, _) => Some(Aggregate([e]))
    case NullTask => Some(InvalidOperation)
    case _ => None
  }

  /** The tasks one invoked job adds to the final wait: a task still pending
      when its job returned is kept as well as handled when it settles. */
  function Kept(body: Body): (r: seq<Body>)
    ensures r == [] <==> !SettlesLate(body)
    ensures r != [] ==> r == [body]
  {
    if SettlesLate(body) then [body] else []
  }

  /** The tasks a run that nothing cancels keeps, in dispatch order. */
  function KeptAll(jobs: seq<Body>): (r: seq<Body>)
    ensures |r| <= |jobs|
  {
    if |jobs| == 0 then [] else Kept(jobs[0]) + KeptAll(jobs[1..])
  }

  /** The exception of the first faulted task of `tasks`, if any. */
  function FirstFault(tasks: seq<Body>): (r: Option<Error>)
    ensures r.None? <==> forall k :: 0 <= k < |tasks| ==> !tasks[k].FaultedTask?
  {
    if |tasks| == 0 then None
    else if tasks[0].FaultedTask? then Some(tasks[0].e)
    else
      assert forall k :: 1 <= k < |tasks| ==> tasks[k] == tasks[1..][k - 1];
      FirstFault(tasks[1..])
  }

  /** `FirstFault` is the exception of a faulted task that no faulted task
      precedes. */
  lemma {:induction false} FirstFaultIsFirst(tasks: seq<Body>)
    requires FirstFault(tasks).Some?
    ensures exists k :: 0 <= k < |tasks| && tasks[k].FaultedTask? && tasks[k].e == FirstFault(tasks).value
                        && forall j :: 0 <= j < k ==> !tasks[j].FaultedTask?
  {
    if !tasks[0].FaultedTask? {
      var t := tasks[1..];
      FirstFaultIsFirst(t);
      var k :| 0 <= k < |t| && t[k].FaultedTask? && t[k].e == FirstFault(t).value
               && forall j :: 0 <= j < k ==> !t[j].FaultedTask?;
      assert tasks[k + 1] == t[k];
      assert forall j :: 1 <= j < k + 1 ==> tasks[j] == t[j - 1];
    }
  }

  /** What awaiting `Task.WhenAll` over the kept tasks throws: the job's own
      exception from the first faulted task in the list, otherwise a
      task-canceled error when some task was canceled, otherwise nothing. */
  function WhenAll(tasks: seq<Body>): (r: Option<Error>)
    ensures r.None? <==> forall k :: 0 <= k < |tasks| ==> !tasks[k].FaultedTask? && !tasks[k].CanceledTask?
    ensures FirstFault(tasks).Some? ==> r == FirstFault(tasks)
    ensures FirstFault(tasks).None? && r.Some? ==> r == Some(TaskCanceled)
  {
    if FirstFault(tasks).Some? then FirstFault(tasks)
    else if exists k :: 0 <= k < |tasks| && tasks[k].CanceledTask? then Some(TaskCanceled)
    else None
  }

  /** The overridden job wrapper without its cancellation check: invoke the
      job, then handle its task. */
  function RunJob(b: Batch.Batch, c: Counts, body: Body): (r: (Batch.Batch, Counts))
    requires b.running && !b.disposed
    ensures r.0.running && !r.0.disposed && r.0.jobs == b.jobs && r.0.policy == b.policy
    ensures r.1.total == c.total && r.1.success >= c.success && r.1.faulted >= c.faulted
    ensures r.1.success + r.1.faulted == c.success + c.faulted + (if body.CanceledTask? then 0 else 1)
    ensures |r.0.errors| == |b.errors| + (r.1.faulted - c.faulted)
    ensures b.canceled ==> r.0.canceled
    ensures b.raised ==> r.0.raised
    ensures (b.canceled ==> b.raised) ==> (r.0.canceled ==> r.0.raised)
    ensures !body.CallsCancel? && Failure(body).Some? ==> r == Manage(b, c, Failure(body).value)
    ensures body.CanceledTask? ==> r == (Batch.Raise(b), c)
    ensures body.Completes? ==> r == (b, c.(success := c.success + 1))
  {
    var (b', thrown) := Batch.Invoke(b, body);
    if thrown.Some? then Manage(b', c, thrown.value)
    else if body.NullTask? then Manage(b', c, InvalidOperation)
    else if body.FaultedTask? then Manage(b', c, Aggregate([body.e]))
    else if body.CanceledTask? then (Batch.Raise(b'), c)
    else (b', c.(success := c.success + 1))
  }

  /** The job holding the permit, as corrected: a job that finds the token
      canceled is skipped and raises `Canceled`, any other runs; the permit
      is released in every case. */
  function Execute(w: Worker): (r: Worker)
    requires Valid(w) && w.holding
    ensures Valid(r) && (Inv(w) ==> Inv(r))
    ensures !r.holding && r.free == w.free + 1 && r.next == w.next + 1
    ensures r.dispatching <==> w.next + 1 < |w.batch.jobs|
    ensures r.capacity == w.capacity && r.batch.jobs == w.batch.jobs && r.batch.policy == w.batch.policy
    ensures w.batch.canceled ==> r.batch == Batch.Raise(w.batch) && r.counts == w.counts
    ensures !w.batch.canceled ==> (r.batch, r.counts) == RunJob(w.batch, w.counts, w.batch.jobs[w.next])
    ensures r.tasks == w.tasks + (if w.batch.canceled then [] else Kept(w.batch.jobs[w.next]))
  {
    var (b, c) := if w.batch.canceled then (Batch.Raise(w.batch), w.counts)
                  else RunJob(w.batch, w.counts, w.batch.jobs[w.next]);
    var t := if w.batch.canceled then [] else Kept(w.batch.jobs[w.next]);
    w.(batch := b, counts := c, free := w.free + 1, holding := false,
       next := w.next + 1, dispatching := w.next + 1 < |w.batch.jobs|, tasks := w.tasks + t)
  }

  /** The job holding the permit, as written: identical to `Execute` except
      that the skip path returns without releasing the permit. */
  function ExecuteAsWritten(w: Worker): (r: Worker)
    requires Valid(w) && w.holding
    ensures Valid(r)
    ensures !w.batch.canceled ==> r == Execute(w)
    ensures w.batch.canceled ==> r == Execute(w).(free := w.free)
    ensures w.batch.canceled ==> r.free + 1 == Execute(w).free && !r.holding
  {
    var x := Execute(w);
    if w.batch.canceled then x.(free := w.free) else x
  }

  /** One uncanceled turn of the dispatch loop: take a permit, run the job. */
  function Turn(w: Worker): (x: Worker)
    requires Valid(w) && w.dispatching && !w.holding && !w.batch.canceled && w.free > 0
    ensures Valid(x) && (Inv(w) ==> Inv(x)) && x.batch.running && !x.holding
    ensures x.next == w.next + 1 && x.free == w.free && x.capacity == w.capacity
    ensures x.batch.jobs == w.batch.jobs && x.batch.policy == w.batch.policy
    ensures (x.batch, x.counts) == RunJob(w.batch, w.counts, w.batch.jobs[w.next])
    ensures x.tasks == w.tasks + Kept(w.batch.jobs[w.next])
    ensures x == Execute(Acquire(w).value)
  {
    var (b, c) := RunJob(w.batch, w.counts, w.batch.jobs[w.next]);
    w.(batch := b, counts := c, next := w.next + 1, dispatching := w.next + 1 < |w.batch.jobs|,
       tasks := w.tasks + Kept(w.batch.jobs[w.next]))
  }

  /** The inherited dispatch loop over the overridden wrapper, with no outside
      call in between; `None` when a permit wait never completes. */
  function Pump(w: Worker): (r: Option<Worker>)
    requires Valid(w) && w.batch.running && !w.holding
    ensures r.Some? ==> Valid(r.value) && r.value.batch.running && !r.value.dispatching && !r.value.holding
    ensures r.Some? ==> r.value.batch.jobs == w.batch.jobs && r.value.capacity == w.capacity
    ensures r.Some? ==> r.value.free == w.free && r.value.counts.total == w.counts.total
    ensures r.Some? && Inv(w) ==> Inv(r.value)
    decreases |w.batch.jobs| - w.next + (if w.dispatching then 1 else 0)
  {
    if !w.dispatching then Some(w)
    else if w.batch.canceled then Some(w.(dispatching := false))
    else if w.free == 0 then None
    else Pump(Turn(w))
  }

  /** The end of `RunAsync`, as corrected: the final wait over the kept
      tasks, whose exception, if any, is the result of the run; otherwise the
      aggregate of the recorded failures, listed in recording order (see
      `Batch.EndRun`). Then the base reset, which re-arms the `Canceled`
      guard. */
  function End(w: Worker): (r: (Result<()>, Worker))
    requires Valid(w) && w.batch.running && !w.dispatching
    ensures Valid(r.1) && (Inv(w) ==> Inv(r.1))
    ensures !r.1.batch.running && !r.1.batch.raised && r.1.batch.jobs == [] && r.1.tasks == []
    ensures r.0.Err? <==> w.batch.errors != [] || WhenAll(w.tasks).Some?
    ensures WhenAll(w.tasks).Some? ==> r.0 == Err(WhenAll(w.tasks).value)
    ensures WhenAll(w.tasks).None? && r.0.Err? ==> r.0.error == Aggregate(w.batch.errors)
    ensures r.1.counts == w.counts && r.1.free == w.free && r.1.capacity == w.capacity
    ensures r.1.batch.canceledEvents == w.batch.canceledEvents
  {
    var (res, b) := Batch.EndRun(w.batch);
    var after := w.(batch := b, next := 0, tasks := []);
    match WhenAll(w.tasks)
    case Some(e) => (Err(e), after)
    case None => (res, after)
  }

  /** The end of `RunAsync`, as written: the subclass's own `finally` block
      resets the running flag, the token and the collections, but not the
      `Canceled` guard. The aggregate is as in `End`. */
  function EndAsWritten(w: Worker): (r: (Result<()>, Worker))
    requires Valid(w) && w.batch.running && !w.dispatching
    ensures Valid(r.1)
    ensures r.1.batch.raised == w.batch.raised
    ensures r.0 == End(w).0 && r.1 == End(w).1.(batch := End(w).1.batch.(raised := w.batch.raised))
  {
    var (res, x) := End(w);
    (res, x.(batch := x.batch.(raised := w.batch.raised)))
  }

  /** A whole `RunAsync` call, as corrected. */
  function RunAsync(w: Worker): (r: Batch.Run<Worker>)
    requires Valid(w)
    ensures r.Rejected? <==> Begin(w).Err?
    ensures r.Rejected? ==> r.error == Begin(w).error
    ensures r.Finished? ==> Valid(r.after) && !r.after.batch.running && r.after.batch.jobs == []
    ensures r.Finished? ==> r.after.counts.total == w.counts.total && !r.after.batch.raised
    ensures r.Finished? && Inv(w) ==> Inv(r.after)
  {
    match Begin(w)
    case Err(e) => Batch.Rejected(e)
    case Ok(s) =>
      match Pump(s)
      case None => Batch.Hangs
      case Some(d) => var (res, a) := End(d); Batch.Finished(res, a)
  }

  /** A whole `RunAsync` call, as written. */
  function RunAsyncAsWritten(w: Worker): (r: Batch.Run<Worker>)
    requires Valid(w)
    ensures r.Rejected? <==> RunAsync(w).Rejected?
    ensures r.Hangs? <==> RunAsync(w).Hangs?
    ensures r.Finished? ==> r.result == RunAsync(w).result && Valid(r.after)
    ensures r.Finished? ==> r.after.batch.canceledEvents == RunAsync(w).after.batch.canceledEvents
  {
    match Begin(w)
    case Err(e) => Batch.Rejected(e)
    case Ok(s) =>
      match Pump(s)
      case None => Batch.Hangs
      case Some(d) => var (res, a) := EndAsWritten(d); Batch.Finished(res, a)
  }

  /** Disposal, as corrected: a second call does nothing, a running worker
      refuses, otherwise the jobs are forgotten. */
  function Dispose(w: Worker): (r: Result<Worker>)
    requires Valid(w)
    ensures r.Err? <==> !w.batch.disposed && w.batch.running
    ensures r.Err? ==> r.error == InvalidOperation
    ensures w.batch.disposed ==> r == Ok(w)
    ensures r.Ok? ==> Valid(r.value) && (Inv(w) ==> Inv(r.value))
    ensures r.Ok? ==> r.value.batch.disposed && r.value.batch.jobs == [] && r.value.counts == w.counts
  {
    if w.batch.disposed then Ok(w)
    else if w.batch.running then Err(InvalidOperation)
    else Ok(w.(batch := w.batch.(jobs := [], errors := [], disposed := true)))
  }

  /** Disposal, as written: the inherited check reads the base class's own
      running flag, which this subclass never sets, so it never refuses. */
  function DisposeAsWritten(w: Worker): (r: Result<Worker>)
    requires Valid(w)
    ensures r.Ok?
    ensures !w.batch.running ==> r == Dispose(w)
    ensures w.batch.running ==> r.value.batch.disposed && r.value.batch.running
  {
    if w.batch.disposed then Ok(w)
    else Ok(w.(batch := w.batch.(jobs := [], errors := [], disposed := true)))
  }

  /** Between steps every permit is back: the corrected loop never waits forever. */
  lemma {:induction false} PumpNeverHangs(w: Worker)
    requires Inv(w) && w.batch.running && !w.holding
    ensures Pump(w).Some?
    decreases |w.batch.jobs| - w.next + (if w.dispatching then 1 else 0)
  {
    if w.dispatching && !w.batch.canceled {
      PumpNeverHangs(Turn(w));
    }
  }

  /** A corrected run never hangs on its semaphore. */
  lemma RunNeverHangs(w: Worker)
    requires Inv(w)
    ensures !RunAsync(w).Hangs?
  {
    if Begin(w).Ok? {
      PumpNeverHangs(Begin(w).value);
    }
  }

  /** The run of a single job whose task faults after the job returned fails
      with the job's own exception, thrown by the final wait, where a task
      already faulted on return fails it with the aggregate of the recorded
      failures. A task canceled after its job returned fails the run with a
      task-canceled error, where one canceled on return lets it succeed. */
  lemma LateTaskDecidesRun(threads: int, policy: Policy, e: Error)
    requires threads >= 1
    ensures var r := RunAsync(AddJob(Create(threads, policy).value, Some(FaultedTask(e, true))).value);
            r.Finished? && r.result == Err(e)
    ensures var r := RunAsync(AddJob(Create(threads, policy).value, Some(FaultedTask(e, false))).value);
            r.Finished? && r.result == Err(Aggregate([Aggregate([e])]))
    ensures var r := RunAsync(AddJob(Create(threads, policy).value, Some(CanceledTask(true))).value);
            r.Finished? && r.result == Err(TaskCanceled)
    ensures var r := RunAsync(AddJob(Create(threads, policy).value, Some(CanceledTask(false))).value);
            r.Finished? && r.result == Ok(())
  {
    OneJobRun(threads, policy, FaultedTask(e, true));
    OneJobRun(threads, policy, FaultedTask(e, false));
    OneJobRun(threads, policy, CanceledTask(true));
    OneJobRun(threads, policy, CanceledTask(false));
  }

  /** A run of a single job that does not call `Cancel`: the final wait's
      exception, if its task was kept, otherwise the aggregate of its failure,
      if any. */
  lemma OneJobRun(threads: int, policy: Policy, body: Body)
    requires threads >= 1 && !body.CallsCancel?
    ensures var r := RunAsync(AddJob(Create(threads, policy).value, Some(body)).value);
            && r.Finished?
            && r.result == (if WhenAll(Kept(body)).Some? then Err(WhenAll(Kept(body)).value)
                            else if Recorded(body) == [] then Ok(())
                            else Err(Aggregate(Recorded(body))))
  {
    var s := Begin(AddJob(Create(threads, policy).value, Some(body)).value).value;
    assert s.batch.jobs == [body] && s.tasks == [];
    var x := Turn(s);
    assert x.batch.errors == Recorded(body);
    assert Pump(s) == Some(x);
  }

  /** As written, a job skipped after an outside `Cancel` keeps its permit for
      good: with one thread, the next run waits forever for its first permit. */
  lemma SkippedJobLeaksPermit()
    ensures var w0 := Create(1, CancelPendingJobs).value;
            var w1 := AddJob(w0, Some(Completes)).value;
            var w2 := Acquire(Begin(w1).value).value;
            var w3 := Cancel(w2).value;
            var w4 := ExecuteAsWritten(w3);
            var w5 := AddJob(EndAsWritten(w4).1, Some(Completes)).value;
            && w4.free == 0 && w5.free == 0
            && RunAsyncAsWritten(w5).Hangs?
  {
    var w0 := Create(1, CancelPendingJobs).value;
    var w1 := AddJob(w0, Some(Completes)).value;
    var w2 := Acquire(Begin(w1).value).value;
    var w3 := Cancel(w2).value;
    var w4 := ExecuteAsWritten(w3);
    var w5 := AddJob(EndAsWritten(w4).1, Some(Completes)).value;
    assert Pump(Begin(w5).value) == None;
  }

  /** The corrected loop raises `Canceled` at most once per run: only when the
      guard was still armed, and a canceled run always ends with it set. */
  lemma {:induction false} PumpRaisesAtMostOnce(w: Worker)
    requires Valid(w) && w.batch.running && !w.holding
    ensures Pump(w).Some? ==>
              && Pump(w).value.batch.canceledEvents
                   == w.batch.canceledEvents + (if Pump(w).value.batch.raised && !w.batch.raised then 1 else 0)
              && (w.batch.raised ==> Pump(w).value.batch.raised)
    decreases |w.batch.jobs| - w.next + (if w.dispatching then 1 else 0)
  {
    if w.dispatching && !w.batch.canceled && w.free > 0 {
      var x := Turn(w);
      RunJobRaisesOnce(w.batch, w.counts, w.batch.jobs[w.next]);
      PumpRaisesAtMostOnce(x);
    }
  }

  /** Running one job raises `Canceled` at most once, and only with an armed
      guard. */
  lemma RunJobRaisesOnce(b: Batch.Batch, c: Counts, body: Body)
    requires b.running && !b.disposed && (b.canceled ==> b.raised)
    ensures var r := RunJob(b, c, body).0;
            && r.canceledEvents == b.canceledEvents + (if r.raised && !b.raised then 1 else 0)
            && (b.raised ==> r.raised)
  {
    if body.CallsCancel? {
      Batch.CallCancelOutcome(b, body.times);
    }
  }

  /** As written, once `Canceled` has been raised it is never raised again:
      a later run leaves the event count unchanged, whatever its jobs do. */
  lemma RaisedGuardSticks(w: Worker)
    requires Valid(w) && w.batch.raised
    ensures RunAsyncAsWritten(w).Finished? ==>
              && RunAsyncAsWritten(w).after.batch.canceledEvents == w.batch.canceledEvents
              && RunAsyncAsWritten(w).after.batch.raised
  {
    if Begin(w).Ok? {
      PumpRaisesAtMostOnce(Begin(w).value);
    }
  }

  /** Corrected, every run whose first job cancels it raises `Canceled`
      exactly once, so two such runs raise it twice. */
  lemma CancelingRunRaisesCanceled(w: Worker)
    requires Inv(w) && !w.batch.disposed && !w.batch.running && w.batch.jobs != []
    requires w.batch.jobs[0] == CallsCancel(1)
    ensures RunAsync(w).Finished?
    ensures RunAsync(w).after.batch.canceledEvents == w.batch.canceledEvents + 1
  {
    var s := Begin(w).value;
    Batch.CallCancelOutcome(s.batch, 1);
    var x := Turn(s);
    assert x.batch.canceled && x.batch.canceledEvents == w.batch.canceledEvents + 1;
    assert Pump(s) == Pump(x);
  }

  /** As written, the second canceling run of a worker raises no `Canceled`:
      the guard set by the first run is never reset. Corrected, the same two
      runs raise it twice (`CancelingRunRaisesCanceled`). */
  lemma SecondCancelNotAnnounced(w0: Worker)
    requires Inv(w0) && !w0.batch.disposed && !w0.batch.running
    requires w0.batch.jobs != [] && w0.batch.jobs[0] == CallsCancel(1)
    ensures var r1 := RunAsyncAsWritten(w0);
            && r1.Finished? && r1.after.batch.canceledEvents == w0.batch.canceledEvents + 1
            && AddJob(r1.after, Some(CallsCancel(1))).Ok?
            && var r2 := RunAsyncAsWritten(AddJob(r1.after, Some(CallsCancel(1))).value);
               r2.Finished? && r2.after.batch.canceledEvents == w0.batch.canceledEvents + 1
  {
    CancelingRunRaisesCanceled(w0);
    PumpRaisesAtMostOnce(Begin(w0).value);
    var w1 := AddJob(RunAsyncAsWritten(w0).after, Some(CallsCancel(1))).value;
    PumpNeverHangs(Begin(w1).value);
    RaisedGuardSticks(w1);
  }

  /** As written, disposing in the middle of a run is accepted and leaves a
      disposed worker that is still running; corrected, it is refused. */
  lemma DisposeDuringRunAccepted(w: Worker)
    requires Valid(w) && w.batch.running
    ensures DisposeAsWritten(w).Ok? && DisposeAsWritten(w).value.batch.running
    ensures !Valid(DisposeAsWritten(w).value)
    ensures Dispose(w) == Err(InvalidOperation)
  {
  }

  /** The counters never claim more finished jobs than were added. */
  lemma CountsNeverExceedTotal(w: Worker)
    requires Valid(w)
    ensures w.counts.success + w.counts.faulted <= w.counts.total
  {
  }

  /** The failure a job records, as a sequence of at most one exception. */
  function Recorded(body: Body): (r: seq<Error>)
    ensures |r| <= 1 && (r == [] <==> Failure(body).None?)
  {
    if Failure(body).Some? then [Failure(body).value] else []
  }

  /** The failures of a run that nothing cancels, in dispatch order. */
  function Failures(jobs: seq<Body>): (r: seq<Error>)
    ensures |r| <= |jobs|
  {
    if |jobs| == 0 then [] else Recorded(jobs[0]) + Failures(jobs[1..])
  }

  /** The jobs of a run that nothing cancels that count as successes. */
  function Successes(jobs: seq<Body>): (n: nat)
    ensures n + |Failures(jobs)| <= |jobs|
  {
    if |jobs| == 0 then 0 else (if jobs[0].Completes? then 1 else 0) + Successes(jobs[1..])
  }

  /** Under the continue policy a job that does not call `Cancel` adds its
      failure, if any, and its count; a canceled task also raises `Canceled`. */
  lemma ContinueStep(b: Batch.Batch, c: Counts, body: Body)
    requires b.running && !b.disposed && !b.canceled && b.policy == ContinueRunningPendingJobs
    requires !body.CallsCancel?
    ensures var (b', c') := RunJob(b, c, body);
            && b' == (if body.CanceledTask? then Batch.Raise(b) else b).(errors := b.errors + Recorded(body))
            && c' == c.(success := c.success + (if body.Completes? then 1 else 0),
                        faulted := c.faulted + |Recorded(body)|)
  {
  }

  /** One turn under the continue policy, as the induction below needs it. */
  lemma ContinueTurn(w: Worker)
    requires Inv(w) && w.dispatching && !w.holding && !w.batch.canceled
    requires w.batch.policy == ContinueRunningPendingJobs
    requires forall k :: w.next <= k < |w.batch.jobs| ==> !w.batch.jobs[k].CallsCancel?
    ensures var x := Turn(w);
            var body := w.batch.jobs[w.next];
            && Inv(x) && !x.batch.canceled && x.batch.policy == ContinueRunningPendingJobs
            && x.batch.errors == w.batch.errors + Recorded(body)
            && x.counts.success == w.counts.success + (if body.Completes? then 1 else 0)
            && x.counts.faulted == w.counts.faulted + |Recorded(body)|
            && Failures(w.batch.jobs[w.next..]) == Recorded(body) + Failures(w.batch.jobs[x.next..])
            && Successes(w.batch.jobs[w.next..]) == (if body.Completes? then 1 else 0) + Successes(w.batch.jobs[x.next..])
  {
    var jobs := w.batch.jobs;
    ContinueStep(w.batch, w.counts, jobs[w.next]);
    assert jobs[w.next..][1..] == jobs[w.next + 1..];
  }

  /** Under the continue policy, a corrected loop whose jobs do not call
      `Cancel` runs every job, records every failure in order, and counts
      every success and every fault. */
  lemma {:induction false} PumpCountsEveryJob(w: Worker)
    requires Inv(w) && w.batch.running && !w.holding && !w.batch.canceled
    requires w.batch.policy == ContinueRunningPendingJobs
    requires forall k :: w.next <= k < |w.batch.jobs| ==> !w.batch.jobs[k].CallsCancel?
    ensures Pump(w).Some?
    ensures var d := Pump(w).value; var rest := w.batch.jobs[w.next..];
            && d.batch.errors == w.batch.errors + Failures(rest)
            && d.counts.success == w.counts.success + Successes(rest)
            && d.counts.faulted == w.counts.faulted + |Failures(rest)|
    decreases |w.batch.jobs| - w.next + (if w.dispatching then 1 else 0)
  {
    var jobs := w.batch.jobs;
    if !w.dispatching {
      assert jobs[w.next..] == [];
    } else {
      var x := Turn(w);
      PumpTurn(w);
      ContinueTurn(w);
      assert x.batch.jobs == jobs && x.next == w.next + 1 && !x.holding && x.batch.running;
      PumpCountsEveryJob(x);
      var d := Pump(x).value;
      var r := Recorded(jobs[w.next]);
      var rest, tail := jobs[w.next..], jobs[x.next..];
      assert d.batch.errors == w.batch.errors + Failures(rest) by {
        assert d.batch.errors == (w.batch.errors + r) + Failures(tail);
        assert Failures(rest) == r + Failures(tail);
      }
    }
  }

  /** Under the same conditions the loop keeps, in dispatch order, exactly
      the tasks that settle late. */
  lemma {:induction false} PumpKeepsLateTasks(w: Worker)
    requires Inv(w) && w.batch.running && !w.holding && !w.batch.canceled
    requires w.batch.policy == ContinueRunningPendingJobs
    requires forall k :: w.next <= k < |w.batch.jobs| ==> !w.batch.jobs[k].CallsCancel?
    ensures Pump(w).Some? ==> Pump(w).value.tasks == w.tasks + KeptAll(w.batch.jobs[w.next..])
    decreases |w.batch.jobs| - w.next + (if w.dispatching then 1 else 0)
  {
    var jobs := w.batch.jobs;
    if !w.dispatching {
      assert jobs[w.next..] == [];
    } else if w.free > 0 {
      var x := Turn(w);
      PumpTurn(w);
      ContinueTurnKeepsPolicy(w);
      KeptAllStep(jobs, w.next);
      PumpKeepsLateTasks(x);
      var t, tail := Kept(jobs[w.next]), KeptAll(jobs[x.next..]);
      assert (w.tasks + t) + tail == w.tasks + (t + tail);
    }
  }

  /** The tasks kept from `jobs[i..]` are those of job `i`, then the rest. */
  lemma KeptAllStep(jobs: seq<Body>, i: nat)
    requires i < |jobs|
    ensures KeptAll(jobs[i..]) == Kept(jobs[i]) + KeptAll(jobs[i + 1..])
  {
    assert jobs[i..][1..] == jobs[i + 1..];
  }

  /** One turn under the continue policy keeps the run uncanceled and the
      invariant, so the loop can go on. */
  lemma ContinueTurnKeepsPolicy(w: Worker)
    requires Inv(w) && w.dispatching && !w.holding && !w.batch.canceled
    requires w.batch.policy == ContinueRunningPendingJobs
    requires forall k :: w.next <= k < |w.batch.jobs| ==> !w.batch.jobs[k].CallsCancel?
    ensures var x := Turn(w);
            && Inv(x) && x.batch.running && !x.holding && !x.batch.canceled
            && x.batch.policy == ContinueRunningPendingJobs
            && x.batch.jobs == w.batch.jobs && x.next == w.next + 1
            && x.tasks == w.tasks + Kept(w.batch.jobs[w.next])
  {
    ContinueStep(w.batch, w.counts, w.batch.jobs[w.next]);
  }

  /** A loop that can dispatch runs one turn and goes on from there. */
  lemma PumpTurn(w: Worker)
    requires Valid(w) && w.batch.running && !w.holding && w.dispatching && !w.batch.canceled && w.free > 0
    ensures Pump(w) == Pump(Turn(w))
  {
  }

  /** A corrected run under the continue policy fails exactly when some job
      fails. When a job's task faults or is canceled after the job returned,
      the final wait throws: the first such fault, else a task-canceled
      error. Otherwise the run fails with every failure (listed in dispatch
      order, an order the source's bag does not keep). Either way the
      counters grow by the successes and the failures. */
  lemma ContinuePolicyCountsEveryJob(w: Worker)
    requires Inv(w) && !w.batch.disposed && !w.batch.running && w.batch.jobs != []
    requires w.batch.policy == ContinueRunningPendingJobs
    requires forall k :: 0 <= k < |w.batch.jobs| ==> !w.batch.jobs[k].CallsCancel?
    ensures RunAsync(w).Finished?
    ensures var fs := Failures(w.batch.jobs); var a := RunAsync(w).after;
            && RunAsync(w).result == (if WhenAll(KeptAll(w.batch.jobs)).Some? then Err(WhenAll(KeptAll(w.batch.jobs)).value)
                                      else if fs == [] then Ok(())
                                      else Err(Aggregate(fs)))
            && a.counts == w.counts.(success := w.counts.success + Successes(w.batch.jobs),
                                     faulted := w.counts.faulted + |fs|)
  {
    var s := Begin(w).value;
    PumpCountsEveryJob(s);
    PumpKeepsLateTasks(s);
    assert s.batch.jobs[0..] == w.batch.jobs;
    var d := Pump(s).value;
    assert d.tasks == KeptAll(w.batch.jobs) && d.batch.errors == Failures(w.batch.jobs);
    assert RunAsync(w) == Batch.Finished(End(d).0, End(d).1);
  }
}
