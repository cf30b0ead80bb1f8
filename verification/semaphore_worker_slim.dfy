/** The semaphore batch worker (`SemaphoreWorkerSlim`): jobs collected between
    runs are dispatched in insertion order, each after taking a permit of a
    semaphore sized at construction; the dispatch loop stops at the first
    permit request made after cancellation.

    A run is a state machine: `Begin` (the guards of `RunAsync`), then per job
    `Acquire` (the permit wait) and `Execute` (the job wrapper), then `End`
    (the `finally` block). Jobs run to completion inside `Execute`; outside
    calls such as `Cancel` may come between any two steps. `RunAsync`
    composes the steps with no outside call in between. */
module SemaphoreWorkerSlim {
  import opened Jobs
  import Batch

  datatype Worker = Worker(
    batch: Batch.Batch,
    capacity: nat,
    free: nat,
    next: nat,
    holding: bool,
    dispatching: bool)

  /** The worker invariant:
      - every permit is free except the one held by a job about to start;
      - `next` indexes the next job to dispatch, and a held permit belongs to it;
      - the dispatch loop only runs during a run, and ends early only after
        cancellation;
      - between runs nothing is canceled, raised or recorded;
      - cancellation and the raised `Canceled` event go together. */
  ghost predicate Inv(w: Worker) {
    && w.capacity >= 1
    && w.free + (if w.holding then 1 else 0) == w.capacity
    && w.next <= |w.batch.jobs|
    && (w.holding ==> w.dispatching)
    && (w.dispatching ==> w.batch.running && w.next < |w.batch.jobs|)
    && (w.batch.running && !w.dispatching && !w.batch.canceled ==> w.next == |w.batch.jobs|)
    && (w.batch.disposed ==> !w.batch.running && w.batch.jobs == [])
    && (!w.batch.running ==> w.next == 0 && !w.dispatching && !w.batch.canceled && w.batch.errors == [])
    && (w.batch.canceled <==> w.batch.raised)
  }

  /** The constructor: a non-positive thread count is rejected. */
  function Create(threads: int, policy: Policy): (r: Result<Worker>)
    ensures r.Err? <==> threads <= 0
    ensures r.Err? ==> r.error == Argument
    ensures r.Ok? ==> Inv(r.value) && r.value.capacity == threads && r.value.free == threads
    ensures r.Ok? ==> r.value.batch == Batch.Create(policy)
  {
    if threads <= 0 then Err(Argument)
    else Ok(Worker(Batch.Create(policy), threads, threads, 0, false, false))
  }

  /** Adds a job (`None` is a null delegate); see `Batch.AddJob`. */
  function AddJob(w: Worker, job: Option<Body>): (r: Result<Worker>)
    requires Inv(w)
    ensures Batch.AddJob(w.batch, job).Err? ==> r == Err(Batch.AddJob(w.batch, job).error)
    ensures r.Ok? ==> Inv(r.value) && r.value == w.(batch := Batch.AddJob(w.batch, job).value)
  {
    match Batch.AddJob(w.batch, job)
    case Err(e) => Err(e)
    case Ok(b) => Ok(w.(batch := b))
  }

  /** Requests cancellation of the current run; see `Batch.Cancel`. */
  function Cancel(w: Worker): (r: Result<Worker>)
    requires Inv(w)
    ensures Batch.Cancel(w.batch).Err? ==> r == Err(Batch.Cancel(w.batch).error)
    ensures r.Ok? ==> Inv(r.value) && r.value == w.(batch := Batch.Cancel(w.batch).value)
  {
    match Batch.Cancel(w.batch)
    case Err(e) => Err(e)
    case Ok(b) => Ok(w.(batch := b))
  }

  /** The guards of `RunAsync`, in order: disposed, nothing to run, already
      running; then the run starts with the first job. */
  function Begin(w: Worker): (r: Result<Worker>)
    requires Inv(w)
    ensures r.Ok? <==> !w.batch.disposed && w.batch.jobs != [] && !w.batch.running
    ensures w.batch.disposed ==> r == Err(ObjectDisposed)
    ensures !w.batch.disposed && (w.batch.jobs == [] || w.batch.running) ==> r == Err(InvalidOperation)
    ensures r.Ok? ==> Inv(r.value) && r.value.batch.running && r.value.dispatching && r.value.next == 0
    ensures r.Ok? ==> r.value.batch == w.batch.(running := true) && r.value.free == w.free
  {
    if w.batch.disposed then Err(ObjectDisposed)
    else if w.batch.jobs == [] then Err(InvalidOperation)
    else if w.batch.running then Err(InvalidOperation)
    else Ok(w.(batch := w.batch.(running := true), dispatching := true))
  }

  /** The permit wait of the dispatch loop: a canceled token ends the loop,
      otherwise the next job takes a free permit. `None` is a wait that never
      completes (no permit is free and nothing will release one). */
  function Acquire(w: Worker): (r: Option<Worker>)
    requires Inv(w) && w.dispatching && !w.holding
    ensures w.batch.canceled ==> r == Some(w.(dispatching := false))
    ensures !w.batch.canceled ==> r.Some? && r.value == w.(free := w.free - 1, holding := true)
    ensures r.Some? ==> Inv(r.value)
  {
    if w.batch.canceled then Some(w.(dispatching := false))
    else if w.free == 0 then None
    else Some(w.(free := w.free - 1, holding := true))
  }

  /** The exception a job records when it is invoked in a run that has not
      been canceled, unless its body calls `Cancel`. */
  function Failure(body: Body): (r: Option<Error>)
    ensures r.None? <==> body.Completes? || body.CallsCancel?
  {
    match body
    case Throws(e) => Some(e)
    case FaultedTask(e, _) => Some(e)
    case CanceledTask(_) => Some(TaskCanceled)
    case NullTask => Some(NullReference)
    case _ => None
  }

  /** The job wrapper without its cancellation check: invoke the job, await
      its task, and hand any exception (including awaiting a canceled task or
      a null task) to the failure handling. */
  function RunJob(b: Batch.Batch, body: Body): (r: Batch.Batch)
    requires b.running && !b.disposed
    ensures r.running && !r.disposed && r.jobs == b.jobs && r.policy == b.policy
    ensures !body.CallsCancel? && Failure(body).None? ==> r == b
    ensures !body.CallsCancel? && Failure(body).Some? ==> r == Batch.Manage(b, Failure(body).value)
    ensures body.CallsCancel? && body.times >= 1 ==> r.canceled
  {
    var (c, thrown) := Batch.Invoke(b, body);
    if thrown.Some? then Batch.Manage(c, thrown.value)
    else match body
      case FaultedTask(e, _) => Batch.Manage(c, e)
      case CanceledTask(_) => Batch.Manage(c, TaskCanceled)
      case NullTask => Batch.Manage(c, NullReference)
      case _ => c
  }

  /** Runs the job holding the permit: a job that finds the token canceled is
      skipped and (re)raises `Canceled`, any other runs; the permit is
      released in every case. */
  function Execute(w: Worker): (r: Worker)
    requires Inv(w) && w.holding
    ensures Inv(r) && !r.holding && r.free == r.capacity && r.next == w.next + 1
    ensures r.dispatching <==> w.next + 1 < |w.batch.jobs|
    ensures r.capacity == w.capacity && r.batch.jobs == w.batch.jobs && r.batch.policy == w.batch.policy
    ensures w.batch.canceled ==> r.batch == w.batch
    ensures !w.batch.canceled ==> r.batch == RunJob(w.batch, w.batch.jobs[w.next])
  {
    var b := if w.batch.canceled then Batch.Raise(w.batch) else RunJob(w.batch, w.batch.jobs[w.next]);
    w.(batch := b, free := w.free + 1, holding := false, next := w.next + 1, dispatching := w.next + 1 < |w.batch.jobs|)
  }

  /** The `finally` block of `RunAsync`, once every dispatched job finished:
      the run's result and the reset worker. The aggregate lists the failures
      in recording order (see `Batch.EndRun`). */
  function End(w: Worker): (r: (Result<()>, Worker))
    requires Inv(w) && w.batch.running && !w.dispatching
    ensures Inv(r.1) && !r.1.batch.running && r.1.batch.jobs == [] && r.1.free == w.capacity
    ensures r.0.Err? <==> w.batch.errors != []
    ensures r.0.Err? ==> r.0.error == Aggregate(w.batch.errors)
    ensures r.1.batch.canceledEvents == w.batch.canceledEvents && r.1.capacity == w.capacity
  {
    var (res, b) := Batch.EndRun(w.batch);
    (res, w.(batch := b, next := 0))
  }

  /** Disposal: a second call does nothing, a running worker refuses,
      otherwise the jobs are forgotten. */
  function Dispose(w: Worker): (r: Result<Worker>)
    requires Inv(w)
    ensures r.Err? <==> !w.batch.disposed && w.batch.running
    ensures r.Err? ==> r.error == InvalidOperation
    ensures w.batch.disposed ==> r == Ok(w)
    ensures r.Ok? ==> Inv(r.value) && r.value.batch.disposed && r.value.batch.jobs == []
  {
    if w.batch.disposed then Ok(w)
    else if w.batch.running then Err(InvalidOperation)
    else Ok(w.(batch := w.batch.(jobs := [], errors := [], disposed := true)))
  }

  /** A run records no failure exactly when no job fails. */
  lemma {:induction false} NoFailuresIffAllSucceed(jobs: seq<Body>)
    ensures Failures(jobs) == [] <==> forall k :: 0 <= k < |jobs| ==> Failure(jobs[k]).None?
    decreases |jobs|
  {
    if |jobs| > 0 {
      NoFailuresIffAllSucceed(jobs[1..]);
      assert forall k :: 1 <= k < |jobs| ==> jobs[k] == jobs[1..][k - 1];
    }
  }

  /** One uncanceled turn of the dispatch loop: take a permit, run the job. */
  function Turn(w: Worker): (x: Worker)
    requires Inv(w) && w.dispatching && !w.holding && !w.batch.canceled
    ensures Inv(x) && x.batch.running && !x.holding && x.next == w.next + 1
    ensures x.batch.jobs == w.batch.jobs && x.batch.policy == w.batch.policy && x.capacity == w.capacity
    ensures x.batch == RunJob(w.batch, w.batch.jobs[w.next])
    ensures x == Execute(Acquire(w).value)
  {
    var b := RunJob(w.batch, w.batch.jobs[w.next]);
    w.(batch := b, next := w.next + 1, dispatching := w.next + 1 < |w.batch.jobs|)
  }

  /** The dispatch loop from the current job on, with no outside call in
      between; `None` when a permit wait never completes. */
  function Pump(w: Worker): (r: Option<Worker>)
    requires Inv(w) && w.batch.running && !w.holding
    ensures r.Some? ==> Inv(r.value) && r.value.batch.running && !r.value.dispatching && !r.value.holding
    ensures r.Some? ==> r.value.batch.jobs == w.batch.jobs && r.value.capacity == w.capacity
    decreases |w.batch.jobs| - w.next + (if w.dispatching then 1 else 0)
  {
    if !w.dispatching then Some(w)
    else if w.batch.canceled then Some(w.(dispatching := false))
    else if w.free == 0 then None
    else Pump(Turn(w))
  }

  /** The loop above is the permit wait followed by the job, step by step. */
  lemma PumpTakesSteps(w: Worker)
    requires Inv(w) && w.batch.running && !w.holding && w.dispatching
    ensures Acquire(w).None? <==> Pump(w).None? && !w.batch.canceled && w.free == 0
    ensures Acquire(w).Some? && Acquire(w).value.holding ==> Pump(w) == Pump(Execute(Acquire(w).value))
    ensures Acquire(w).Some? && !Acquire(w).value.holding ==> Pump(w) == Acquire(w)
  {
  }

  /** A whole `RunAsync` call. */
  function RunAsync(w: Worker): (r: Batch.Run<Worker>)
    requires Inv(w)
    ensures r.Rejected? <==> Begin(w).Err?
    ensures r.Rejected? ==> r.error == Begin(w).error
    ensures r.Finished? ==> Inv(r.after) && !r.after.batch.running && r.after.batch.jobs == []
  {
    match Begin(w)
    case Err(e) => Batch.Rejected(e)
    case Ok(s) =>
      match Pump(s)
      case None => Batch.Hangs
      case Some(d) => var (res, a) := End(d); Batch.Finished(res, a)
  }

  /** The failure a job records, as a sequence of at most one exception. */
  function Recorded(body: Body): (r: seq<Error>)
    ensures |r| <= 1 && (r == [] <==> Failure(body).None?)
  {
    if Failure(body).Some? then [Failure(body).value] else []
  }

  /** The failures of a run that nothing cancels, in dispatch order. */
  function Failures(jobs: seq<Body>): (r: seq<Error>)
    ensures |r| <= |jobs|
  {
    if |jobs| == 0 then [] else Recorded(jobs[0]) + Failures(jobs[1..])
  }

  /** Under the continue policy a job that does not call `Cancel` only adds
      its failure to the recorded ones. */
  lemma ContinueStep(b: Batch.Batch, body: Body)
    requires b.running && !b.disposed && !b.canceled && b.policy == ContinueRunningPendingJobs
    requires !body.CallsCancel?
    ensures RunJob(b, body) == b.(errors := b.errors + Recorded(body))
  {
  }

  /** Between steps every permit is back: the dispatch loop never waits forever. */
  lemma {:induction false} PumpNeverHangs(w: Worker)
    requires Inv(w) && w.batch.running && !w.holding
    ensures Pump(w).Some?
    decreases |w.batch.jobs| - w.next + (if w.dispatching then 1 else 0)
  {
    if w.dispatching && !w.batch.canceled {
      PumpNeverHangs(Turn(w));
    }
  }

  /** A run of this worker never hangs on its semaphore. */
  lemma RunNeverHangs(w: Worker)
    requires Inv(w)
    ensures !RunAsync(w).Hangs?
  {
    if Begin(w).Ok? {
      PumpNeverHangs(Begin(w).value);
    }
  }

  /** Once the token is canceled the loop stops at the next permit wait. */
  lemma PumpStopsWhenCanceled(w: Worker)
    requires Inv(w) && w.batch.running && !w.holding && w.batch.canceled
    ensures Pump(w) == Some(w.(dispatching := false))
  {
  }

  /** Under the continue policy, a run whose jobs do not call `Cancel` and
      that nothing cancels from outside invokes every job and records every
      failure, in order. */
  lemma {:induction false} PumpRecordsEveryFailure(w: Worker)
    requires Inv(w) && w.batch.running && !w.holding && !w.batch.canceled
    requires w.batch.policy == ContinueRunningPendingJobs
    requires forall k :: w.next <= k < |w.batch.jobs| ==> !w.batch.jobs[k].CallsCancel?
    ensures Pump(w).Some? && !Pump(w).value.batch.canceled
    ensures Pump(w).value.batch.errors == w.batch.errors + Failures(w.batch.jobs[w.next..])
    ensures Pump(w).value.batch.canceledEvents == w.batch.canceledEvents
    decreases |w.batch.jobs| - w.next + (if w.dispatching then 1 else 0)
  {
    var jobs := w.batch.jobs;
    if !w.dispatching {
      assert jobs[w.next..] == [];
    } else {
      var x := Turn(w);
      ContinueTurn(w);
      PumpRecordsEveryFailure(x);
      var r := Recorded(jobs[w.next]);
      assert (w.batch.errors + r) + Failures(jobs[x.next..]) == w.batch.errors + (r + Failures(jobs[x.next..]));
    }
  }

  /** One turn of the loop under the continue policy, as the induction step
      above needs it. */
  lemma ContinueTurn(w: Worker)
    requires Inv(w) && w.dispatching && !w.holding && !w.batch.canceled
    requires w.batch.policy == ContinueRunningPendingJobs
    requires forall k :: w.next <= k < |w.batch.jobs| ==> !w.batch.jobs[k].CallsCancel?
    ensures var x := Turn(w);
            && Inv(x) && x.batch.running && !x.holding && !x.batch.canceled && x.next == w.next + 1
            && x.batch.policy == ContinueRunningPendingJobs && x.batch.jobs == w.batch.jobs
            && x.batch.errors == w.batch.errors + Recorded(w.batch.jobs[w.next])
            && x.batch.canceledEvents == w.batch.canceledEvents
            && Failures(w.batch.jobs[w.next..]) == Recorded(w.batch.jobs[w.next]) + Failures(w.batch.jobs[x.next..])
  {
    var jobs := w.batch.jobs;
    ContinueStep(w.batch, jobs[w.next]);
    assert jobs[w.next..] == [jobs[w.next]] + jobs[w.next + 1..];
  }

  /** Under the cancel policy, a run whose jobs do not call `Cancel` and that
      nothing cancels from outside stops after the first failing job: it
      records that failure only and raises `Canceled` once. This needs the
      jobs to run one at a time: with a single permit, or with every task
      settled when its job returns, no job starts while a failing one is
      still pending. */
  lemma {:induction false} PumpStopsAtFirstFailure(w: Worker)
    requires Inv(w) && w.batch.running && !w.holding && !w.batch.canceled
    requires w.batch.policy == CancelPendingJobs
    requires forall k :: w.next <= k < |w.batch.jobs| ==> !w.batch.jobs[k].CallsCancel?
    requires w.capacity == 1 || forall k :: w.next <= k < |w.batch.jobs| ==> !SettlesLate(w.batch.jobs[k])
    ensures Pump(w).Some?
    ensures var fs := Failures(w.batch.jobs[w.next..]);
            && Pump(w).value.batch.errors == w.batch.errors + (if fs == [] then [] else [fs[0]])
            && (Pump(w).value.batch.canceled <==> fs != [])
            && Pump(w).value.batch.canceledEvents == w.batch.canceledEvents + (if fs == [] then 0 else 1)
    decreases |w.batch.jobs| - w.next + (if w.dispatching then 1 else 0)
  {
    var jobs := w.batch.jobs;
    if !w.dispatching {
      assert jobs[w.next..] == [];
    } else {
      var x := Turn(w);
      assert jobs[w.next..] == [jobs[w.next]] + jobs[w.next + 1..];
      if Failure(jobs[w.next]).Some? {
        assert x.batch.canceled;
        PumpStopsWhenCanceled(x);
      } else {
        PumpStopsAtFirstFailure(x);
      }
    }
  }

  /** A run under the continue policy fails exactly when some job fails, and
      its aggregate holds every failure; the model lists them in dispatch
      order, an order the source's bag does not keep. */
  lemma ContinuePolicyReportsEveryFailure(w: Worker)
    requires Inv(w) && !w.batch.disposed && !w.batch.running && w.batch.jobs != []
    requires w.batch.policy == ContinueRunningPendingJobs
    requires forall k :: 0 <= k < |w.batch.jobs| ==> !w.batch.jobs[k].CallsCancel?
    ensures RunAsync(w).Finished?
    ensures var fs := Failures(w.batch.jobs);
            RunAsync(w).result == (if fs == [] then Ok(()) else Err(Aggregate(fs)))
    ensures RunAsync(w).after.batch.canceledEvents == w.batch.canceledEvents
  {
    var s := Begin(w).value;
    PumpRecordsEveryFailure(s);
    assert s.batch.jobs[0..] == w.batch.jobs;
  }

  /** A run under the cancel policy fails exactly when some job fails, with
      the first failure alone, and raises `Canceled` exactly then; as above,
      the jobs must run one at a time. */
  lemma CancelPolicyReportsFirstFailure(w: Worker)
    requires Inv(w) && !w.batch.disposed && !w.batch.running && w.batch.jobs != []
    requires w.batch.policy == CancelPendingJobs
    requires forall k :: 0 <= k < |w.batch.jobs| ==> !w.batch.jobs[k].CallsCancel?
    requires w.capacity == 1 || forall k :: 0 <= k < |w.batch.jobs| ==> !SettlesLate(w.batch.jobs[k])
    ensures RunAsync(w).Finished?
    ensures var fs := Failures(w.batch.jobs);
            && RunAsync(w).result == (if fs == [] then Ok(()) else Err(Aggregate([fs[0]])))
            && RunAsync(w).after.batch.canceledEvents == w.batch.canceledEvents + (if fs == [] then 0 else 1)
  {
    var s := Begin(w).value;
    PumpStopsAtFirstFailure(s);
    assert s.batch.jobs[0..] == w.batch.jobs;
  }

  /** Whatever the jobs do, the `Canceled` event fires at most once per run,
      and exactly when the run was canceled. */
  lemma {:induction false} PumpRaisesAtMostOnce(w: Worker)
    requires Inv(w) && w.batch.running && !w.holding
    ensures Pump(w).Some?
    ensures Pump(w).value.batch.canceledEvents
              == w.batch.canceledEvents + (if Pump(w).value.batch.canceled && !w.batch.canceled then 1 else 0)
    ensures w.batch.canceled ==> Pump(w).value.batch.canceled
    decreases |w.batch.jobs| - w.next + (if w.dispatching then 1 else 0)
  {
    if w.dispatching && !w.batch.canceled {
      var x := Turn(w);
      {
        if !w.batch.canceled && x.batch.canceled {
          assert x.batch.canceledEvents == w.batch.canceledEvents + 1 by {
            RunJobRaisesOnCancel(w.batch, w.batch.jobs[w.next]);
          }
        } else if !w.batch.canceled {
          RunJobRaisesOnCancel(w.batch, w.batch.jobs[w.next]);
        }
        PumpRaisesAtMostOnce(x);
      }
    }
  }

  /** Running one job raises `Canceled` exactly when it cancels the run. */
  lemma RunJobRaisesOnCancel(b: Batch.Batch, body: Body)
    requires b.running && !b.disposed && !b.canceled && !b.raised
    ensures RunJob(b, body).canceledEvents == b.canceledEvents + (if RunJob(b, body).canceled then 1 else 0)
    ensures RunJob(b, body).canceled <==> RunJob(b, body).raised
  {
    if body.CallsCancel? {
      Batch.CallCancelOutcome(b, body.times);
    }
  }

  /** A run raises `Canceled` at most once, whatever its jobs do. */
  lemma CanceledRaisedAtMostOncePerRun(w: Worker)
    requires Inv(w)
    ensures RunAsync(w).Finished? ==> RunAsync(w).after.batch.canceledEvents <= w.batch.canceledEvents + 1
  {
    if Begin(w).Ok? {
      PumpRaisesAtMostOnce(Begin(w).value);
    }
  }

  /** A job that took its permit before an outside `Cancel` is skipped, gives
      its permit back, and does not raise `Canceled` a second time. */
  lemma CanceledDispatchIsSkipped(w: Worker)
    requires Inv(w) && w.holding && Cancel(w).Ok?
    ensures var x := Execute(Cancel(w).value);
            && x.batch.errors == w.batch.errors
            && x.batch.canceledEvents == w.batch.canceledEvents + 1
            && x.free == x.capacity
  {
  }
}
