/** The legacy unbounded worker `ParallelWorker`: the shared legacy state,
    no priorities and no permit bound. A run starts every action job, then
    every task job; here they run one after another in that order.

    The action wrapper invokes the job a second time after its try/catch
    block, whatever the first invocation did (unless the job was skipped).
    The second invocation's exception is not caught: it faults the job's
    task, and the run, which awaits all tasks, fails with the first such
    exception in job order. The exceptions recorded by the catch blocks are
    never reported by the run, although the worker's interface documents an
    aggregate exception when any job fails. `thrown` is that uncaught
    exception of the current run and `invocations` counts job invocations
    over the worker's life.

    `StepAsWritten`, `PumpAsWritten`, `EndAsWritten` and `RunAsyncAsWritten`
    model the code as written; `Step`, `Pump`, `End` and `RunAsync` are the
    corrected worker, which invokes each job once and ends a run with the
    aggregate of the recorded failures, as the other legacy workers do. */
module ParallelWorker {
  import opened Jobs
  import Batch
  import Legacy

  datatype Worker = Worker(base: Legacy.Worker, thrown: Option<Error>, invocations: nat)

  /** The legacy invariant; no uncaught exception outlives a run. */
  ghost predicate Inv(w: Worker) {
    Legacy.Inv(w.base) && (!w.base.running ==> w.thrown.None?)
  }

  /** A worker with the given failure policy. */
  function Create(policy: Policy): (w: Worker)
    ensures Inv(w) && w.base == Legacy.Create(policy) && w.thrown.None? && w.invocations == 0
  {
    Worker(Legacy.Create(policy), None, 0)
  }

  /** The worker with its default policy, which cancels pending jobs after a
      failure. */
  function CreateDefault(): (w: Worker)
    ensures Inv(w) && w.base.policy == CancelPendingJobs && Legacy.AllJobs(w.base) == []
  {
    Create(CancelPendingJobs)
  }

  /** Registers an action or a task-returning job; jobs have no priority
      here, so every entry carries the default. See `Legacy.AddJob`. */
  function AddJob(w: Worker, job: Option<Body>, action: bool): (r: Result<Worker>)
    requires Inv(w)
    ensures r.Err? <==> w.base.disposed || job.None? || w.base.running
    ensures r.Err? ==> r.error == Legacy.AddJob(w.base, job, Medium, action).error
    ensures r.Ok? ==> Inv(r.value) && r.value.base.total == w.base.total + 1
    ensures r.Ok? && action ==> r.value.base.actions == w.base.actions + [Entry(job.value, Medium, true)]
    ensures r.Ok? && !action ==> r.value.base.tasks == w.base.tasks + [Entry(job.value, Medium, false)]
  {
    Legacy.AddJobKeepsInv(w.base, job, Medium, action);
    match Legacy.AddJob(w.base, job, Medium, action)
    case Err(e) => Err(e)
    case Ok(b) => Ok(w.(base := b))
  }

  /** Requests cancellation of the current run; see
      `Legacy.RequestCancellation`. */
  function RequestCancellation(w: Worker): (r: Result<Worker>)
    requires Inv(w)
    ensures r.Ok? <==> !w.base.disposed && w.base.running
    ensures r.Err? ==> r.error == (if w.base.disposed then ObjectDisposed else InvalidOperation)
    ensures r.Ok? ==> Inv(r.value) && r.value == w.(base := w.base.(canceled := true))
  {
    Legacy.OthersKeepInv(w.base);
    match Legacy.RequestCancellation(w.base)
    case Err(e) => Err(e)
    case Ok(b) => Ok(w.(base := b))
  }

  /** `Progress`; see `Legacy.Progress`. */
  function Progress(w: Worker): (r: Result<int>)
    requires Inv(w)
    ensures r.Err? <==> w.base.disposed
    ensures r.Ok? ==> 0 <= r.value <= 100
    ensures r.Ok? ==> (r.value == 100 <==> w.base.total > 0 && w.base.completed == w.base.total)
  {
    Legacy.Progress(w.base)
  }

  /** The start of `RunAsync`: refused when disposed, with nothing to run,
      or (corrected) while running; otherwise every action job and then
      every task job is queued, in the order they were registered. */
  function Begin(w: Worker): (r: Result<Worker>)
    requires Inv(w)
    ensures r.Ok? <==> !w.base.disposed && Legacy.AllJobs(w.base) != [] && !w.base.running
    ensures r.Err? ==> r.error == (if w.base.disposed then ObjectDisposed else InvalidOperation)
    ensures r.Ok? ==> Inv(r.value) && r.value.base.running && r.value.thrown.None?
    ensures r.Ok? ==> r.value.base.queue == w.base.actions + w.base.tasks
  {
    Legacy.BeginKeepsInv(w.base, Legacy.AllJobs(w.base));
    match Legacy.Begin(w.base, Legacy.AllJobs(w.base))
    case Err(e) => Err(e)
    case Ok(b) => Ok(w.(base := b))
  }

  /** The uncaught exception after a job's second invocation: the first one
      of the run is kept. */
  function Rethrown(thrown: Option<Error>, e: Entry): (r: Option<Error>)
    ensures thrown.Some? ==> r == thrown
    ensures thrown.None? ==> (r.Some? <==> e.body.Throws?)
    ensures thrown.None? && e.body.Throws? ==> r == Some(e.body.e)
  {
    if thrown.None? && e.body.Throws? then Some(e.body.e) else thrown
  }

  /** One dispatched job, as written: a skipped job is not invoked; an
      action job runs the shared wrapper and is then invoked again outside
      it; a task job is invoked once. The second invocation changes nothing
      in the worker: a job that requests cancellation finds the run already
      canceled by its first invocation. */
  function StepAsWritten(w: Worker): (r: Worker)
    requires w.base.queue != []
    ensures r.base == Legacy.Step(w.base)
    ensures r.invocations == w.invocations +
              (if w.base.canceled then 0 else if w.base.queue[0].action then 2 else 1)
    ensures r.thrown == if !w.base.canceled && w.base.queue[0].action then Rethrown(w.thrown, w.base.queue[0]) else w.thrown
  {
    var e := w.base.queue[0];
    var b := Legacy.Step(w.base);
    if w.base.canceled then w.(base := b)
    else if e.action then w.(base := b, thrown := Rethrown(w.thrown, e), invocations := w.invocations + 2)
    else w.(base := b, invocations := w.invocations + 1)
  }

  /** One dispatched job, corrected: every job not skipped is invoked
      exactly once, and nothing escapes the wrapper. */
  function Step(w: Worker): (r: Worker)
    requires w.base.queue != []
    ensures r.base == Legacy.Step(w.base) && r.thrown == w.thrown
    ensures r.invocations == w.invocations + (if w.base.canceled then 0 else 1)
  {
    var b := Legacy.Step(w.base);
    if w.base.canceled then w.(base := b) else w.(base := b, invocations := w.invocations + 1)
  }

  /** Every job left in the run, as written. */
  function PumpAsWritten(w: Worker): (r: Worker)
    ensures r.base == Legacy.Pump(w.base)
    ensures r.invocations >= w.invocations
    decreases |w.base.queue|
  {
    if w.base.queue == [] then w else PumpAsWritten(StepAsWritten(w))
  }

  /** Every job left in the run, corrected: each job is either skipped,
      raising `Canceled`, or invoked once. */
  function Pump(w: Worker): (r: Worker)
    ensures r.base == Legacy.Pump(w.base) && r.thrown == w.thrown
    ensures r.invocations + r.base.canceledEvents == w.invocations + w.base.canceledEvents + |w.base.queue|
    decreases |w.base.queue|
  {
    if w.base.queue == [] then w else Pump(Step(w))
  }

  /** The end of a run, as written: it fails with the uncaught exception, if
      any, and never with the exceptions the wrapper recorded; in every case
      the worker is reset (see `Legacy.EndState`). */
  function EndAsWritten(w: Worker): (r: (Result<()>, Worker))
    requires Legacy.Inv(w.base)
    ensures r.0.Err? <==> w.thrown.Some?
    ensures r.0.Err? ==> r.0.error == w.thrown.value
    ensures Inv(r.1) && r.1.base == Legacy.EndState(w.base) && r.1.invocations == w.invocations
  {
    Legacy.OthersKeepInv(w.base);
    var after := w.(base := Legacy.EndState(w.base), thrown := None);
    match w.thrown
    case Some(e) => (Err(e), after)
    case None => (Ok(()), after)
  }

  /** The end of a run, corrected: an uncaught exception still decides the
      result; otherwise the run fails with the aggregate of the recorded
      failures exactly when there are any. The reset is as written. */
  function End(w: Worker): (r: (Result<()>, Worker))
    requires Legacy.Inv(w.base)
    ensures w.thrown.Some? ==> r.0 == Err(w.thrown.value)
    ensures w.thrown.None? ==> (r.0.Err? <==> w.base.errors != [])
    ensures w.thrown.None? && r.0.Err? ==> r.0.error == Aggregate(w.base.errors)
    ensures r.1 == EndAsWritten(w).1
  {
    var (res, after) := EndAsWritten(w);
    if w.thrown.None? && w.base.errors != [] then (Err(Aggregate(w.base.errors)), after) else (res, after)
  }

  /** A whole `RunAsync` call as written, with no outside call during it. */
  function RunAsyncAsWritten(w: Worker): (r: Batch.Run<Worker>)
    requires Inv(w)
    ensures !r.Hangs?
    ensures r.Rejected? <==> Begin(w).Err?
    ensures r.Rejected? ==> r.error == Begin(w).error
    ensures r.Finished? ==> Inv(r.after) && !r.after.base.running && Legacy.AllJobs(r.after.base) == []
  {
    match Begin(w)
    case Err(e) => Batch.Rejected(e)
    case Ok(s) => var (res, a) := EndAsWritten(PumpAsWritten(s)); Batch.Finished(res, a)
  }

  /** A whole `RunAsync` call, corrected: once started, nothing escapes the
      jobs, and the run fails with the aggregate of the recorded failures
      exactly when some job failed. */
  function RunAsync(w: Worker): (r: Batch.Run<Worker>)
    requires Inv(w)
    ensures !r.Hangs?
    ensures r.Rejected? <==> Begin(w).Err?
    ensures r.Rejected? ==> r.error == Begin(w).error
    ensures r.Finished? ==> (r.result.Err? <==> Legacy.Pump(Begin(w).value.base).errors != [])
    ensures r.Finished? && r.result.Err? ==> r.result.error == Aggregate(Legacy.Pump(Begin(w).value.base).errors)
    ensures r.Finished? ==> Inv(r.after) && !r.after.base.running && Legacy.AllJobs(r.after.base) == []
  {
    match Begin(w)
    case Err(e) => Batch.Rejected(e)
    case Ok(s) =>
      Legacy.PumpKeepsInv(s.base);
      var (res, a) := End(Pump(s)); Batch.Finished(res, a)
  }

  /** Disposal; see `Legacy.Dispose`. */
  function Dispose(w: Worker): (r: Result<Worker>)
    requires Inv(w)
    ensures r.Err? <==> !w.base.disposed && w.base.running
    ensures r.Err? ==> r.error == InvalidOperation
    ensures w.base.disposed ==> r == Ok(w)
    ensures r.Ok? ==> Inv(r.value) && r.value.base.disposed && Progress(r.value).Err?
  {
    Legacy.OthersKeepInv(w.base);
    match Legacy.Dispose(w.base)
    case Err(e) => Err(e)
    case Ok(b) => Ok(w.(base := b))
  }

  // ----- Properties of a run -----

  /** No action job of `q` throws. */
  predicate NoThrowingAction(q: seq<Entry>) {
    forall k :: 0 <= k < |q| ==> !(q[k].action && q[k].body.Throws?)
  }

  /** Without an action job that throws, nothing escapes a run as written. */
  lemma {:induction false} PumpKeepsThrown(w: Worker)
    requires NoThrowingAction(w.base.queue)
    ensures PumpAsWritten(w).thrown == w.thrown
    decreases |w.base.queue|
  {
    if w.base.queue != [] {
      var s := StepAsWritten(w);
      assert NoThrowingAction(s.base.queue) by {
        assert forall k :: 0 <= k < |s.base.queue| ==> s.base.queue[k] == w.base.queue[k + 1];
      }
      PumpKeepsThrown(s);
    }
  }

  /** As written, the failures of task jobs never make a run fail: a run
      fails only through the second invocation of an action job. */
  lemma TaskFailuresDoNotFailRun(w: Worker)
    requires Inv(w) && NoThrowingAction(w.base.actions + w.base.tasks)
    ensures RunAsyncAsWritten(w).Finished? ==> RunAsyncAsWritten(w).result == Ok(())
  {
    if Begin(w).Ok? {
      PumpKeepsThrown(Begin(w).value);
    }
  }

  /** The second invocation: as written, a run of one action job invokes it
      twice, and a run of one throwing action fails with the job's own
      exception although the wrapper already recorded it; the corrected
      wrapper invokes the job once, and the run fails with the aggregate of
      the recorded failure. */
  lemma ActionInvokedTwice()
    ensures var w := AddJob(Create(ContinueRunningPendingJobs), Some(Completes), true).value;
            && RunAsyncAsWritten(w).Finished? && RunAsyncAsWritten(w).after.invocations == 2
            && RunAsync(w).Finished? && RunAsync(w).after.invocations == 1
    ensures var w := AddJob(Create(ContinueRunningPendingJobs), Some(Throws(JobError(1))), true).value;
            && RunAsyncAsWritten(w).Finished? && RunAsyncAsWritten(w).result == Err(JobError(1))
            && RunAsync(w).Finished? && RunAsync(w).result == Err(Aggregate([JobError(1)]))
  {
    var w := AddJob(Create(ContinueRunningPendingJobs), Some(Completes), true).value;
    var s := Begin(w).value;
    assert s.base.queue == [Entry(Completes, Medium, true)];
    assert PumpAsWritten(s) == PumpAsWritten(StepAsWritten(s));
    assert Pump(s) == Pump(Step(s));
    var v := AddJob(Create(ContinueRunningPendingJobs), Some(Throws(JobError(1))), true).value;
    var t := Begin(v).value;
    assert t.base.queue == [Entry(Throws(JobError(1)), Medium, true)];
    assert PumpAsWritten(t) == PumpAsWritten(StepAsWritten(t));
  }

  /** As written, a run whose only job is a task that throws succeeds: the
      wrapper records the failure and the run drops it. Corrected, the run
      fails with the aggregate of that failure. */
  lemma FailedTaskNotReported(policy: Policy, e: Error)
    ensures var w := AddJob(Create(policy), Some(Throws(e)), false).value;
            && RunAsyncAsWritten(w).Finished? && RunAsyncAsWritten(w).result == Ok(())
            && RunAsync(w).Finished? && RunAsync(w).result == Err(Aggregate([e]))
  {
    var w := AddJob(Create(policy), Some(Throws(e)), false).value;
    var s := Begin(w).value;
    assert s.base.queue == [Entry(Throws(e), Medium, false)];
    assert PumpAsWritten(s) == PumpAsWritten(StepAsWritten(s));
    assert Legacy.Pump(s.base) == Legacy.Pump(Legacy.Step(s.base));
  }

  /** Corrected, under the continue policy with no job asking for
      cancellation, a run fails exactly when some job fails, with the
      aggregate of every failure, in dispatch order. */
  lemma ContinuePolicyOutcome(w: Worker)
    requires Inv(w) && w.base.policy == ContinueRunningPendingJobs && Begin(w).Ok?
    requires Legacy.Quiet(w.base.actions + w.base.tasks)
    ensures RunAsync(w).Finished?
    ensures var fs := Legacy.Failures(w.base.actions + w.base.tasks);
            RunAsync(w).result == if fs == [] then Ok(()) else Err(Aggregate(fs))
  {
    var s := Begin(w).value;
    Legacy.ContinuePolicyRecordsAll(s.base);
  }

  /** The first action job of `q` that throws, if any. */
  function FirstThrow(q: seq<Entry>): (r: Option<Error>)
    ensures r.None? <==> NoThrowingAction(q)
    ensures r.Some? ==> exists k :: 0 <= k < |q| && q[k].action && q[k].body == Throws(r.value)
  {
    if q == [] then None
    else if q[0].action && q[0].body.Throws? then Some(q[0].body.e)
    else
      var r := FirstThrow(q[1..]);
      assert forall k :: 0 <= k < |q[1..]| ==> q[1..][k] == q[k + 1];
      r
  }

  /** One dispatch as written, with the run not canceled. */
  lemma FirstThrowStep(w: Worker)
    requires !w.base.canceled && w.base.queue != [] && w.thrown.None?
    ensures StepAsWritten(w).thrown == (if w.base.queue[0].action && w.base.queue[0].body.Throws? then Some(w.base.queue[0].body.e) else None)
    ensures StepAsWritten(w).base.queue == w.base.queue[1..]
  {
  }

  /** As written, under the continue policy with no job asking for
      cancellation, a run fails exactly when some action job throws, with
      the exception of the first one. */
  lemma {:induction false} ContinuePolicyThrown(w: Worker)
    requires w.base.policy == ContinueRunningPendingJobs && !w.base.canceled && Legacy.Quiet(w.base.queue)
    requires w.thrown.None?
    ensures PumpAsWritten(w).thrown == FirstThrow(w.base.queue)
    decreases |w.base.queue|
  {
    if w.base.queue != [] {
      Legacy.QuietTail(w.base.queue);
      Legacy.ContinueStep(w.base);
      FirstThrowStep(w);
      var s := StepAsWritten(w);
      if s.thrown.Some? {
        assert FirstThrow(w.base.queue) == s.thrown;
        assert PumpAsWritten(w) == PumpAsWritten(s);
        PumpKeepsThrownSome(s);
      } else {
        ContinuePolicyThrown(s);
      }
    }
  }

  /** Once an exception escaped, it is the one the run ends with. */
  lemma {:induction false} PumpKeepsThrownSome(w: Worker)
    requires w.thrown.Some?
    ensures PumpAsWritten(w).thrown == w.thrown
    decreases |w.base.queue|
  {
    if w.base.queue != [] {
      PumpKeepsThrownSome(StepAsWritten(w));
    }
  }

  /** As written, under the continue policy with no job asking for
      cancellation, `RunAsync` fails with the exception of the first action
      job that throws, and succeeds when none does. */
  lemma ContinuePolicyOutcomeAsWritten(w: Worker)
    requires Inv(w) && w.base.policy == ContinueRunningPendingJobs && Begin(w).Ok?
    requires Legacy.Quiet(w.base.actions + w.base.tasks)
    ensures RunAsyncAsWritten(w).Finished?
    ensures RunAsyncAsWritten(w).result ==
              match FirstThrow(w.base.actions + w.base.tasks) case None => Ok(()) case Some(e) => Err(e)
  {
    var s := Begin(w).value;
    ContinuePolicyThrown(s);
  }
}
