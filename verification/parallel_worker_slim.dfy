/** The parallel batch worker (`ParallelWorkerSlim`): jobs collected between
    runs are all started, in insertion order, without any limit on how many
    run at once; the start loop stops at the first job that finds the token
    canceled. The default failure policy cancels pending jobs.

    A run is `Begin` (the guards of `RunAsync`), then one `Step` per started
    job, then `End` (the `finally` block). A job whose delegate returns a
    null task makes the start loop itself throw: the run ends at once with
    that exception and the failures recorded so far are dropped. */
module ParallelWorkerSlim {
  import opened Jobs
  import Batch

  datatype Worker = Worker(batch: Batch.Batch, next: nat, dispatching: bool)

  /** The worker invariant: `next` indexes the next job to start, the loop
      only runs during a run and ends early only after cancellation, nothing
      is canceled, raised or recorded between runs, and a canceled run has
      raised `Canceled`. */
  ghost predicate Inv(w: Worker) {
    && w.next <= |w.batch.jobs|
    && (w.dispatching ==> w.batch.running && w.next < |w.batch.jobs|)
    && (w.batch.running && !w.dispatching && !w.batch.canceled ==> w.next == |w.batch.jobs|)
    && (w.batch.disposed ==> !w.batch.running)
    && (!w.batch.running ==> w.next == 0 && !w.dispatching && !w.batch.canceled && !w.batch.raised && w.batch.errors == [])
    && (w.batch.canceled ==> w.batch.raised)
  }

  /** A new worker with the given failure policy. */
  function Create(policy: Policy): (w: Worker)
    ensures Inv(w) && w.batch == Batch.Create(policy)
  {
    Worker(Batch.Create(policy), 0, false)
  }

  /** A new worker with the default policy, which cancels pending jobs. */
  function CreateDefault(): (w: Worker)
    ensures Inv(w) && w.batch.policy == CancelPendingJobs && w.batch.jobs == []
  {
    Create(CancelPendingJobs)
  }

  /** Adds a job (`None` is a null delegate); see `Batch.AddJob`. */
  function AddJob(w: Worker, job: Option<Body>): (r: Result<Worker>)
    requires Inv(w)
    ensures Batch.AddJob(w.batch, job).Err? ==> r == Err(Batch.AddJob(w.batch, job).error)
    ensures r.Ok? ==> Inv(r.value) && r.value == w.(batch := Batch.AddJob(w.batch, job).value)
  {
    match Batch.AddJob(w.batch, job)
    case Err(e) => Err(e)
    case Ok(b) => Ok(w.(batch := b))
  }

  /** Requests cancellation of the current run; see `Batch.Cancel`. */
  function Cancel(w: Worker): (r: Result<Worker>)
    requires Inv(w)
    ensures Batch.Cancel(w.batch).Err? ==> r == Err(Batch.Cancel(w.batch).error)
    ensures r.Ok? ==> Inv(r.value) && r.value == w.(batch := Batch.Cancel(w.batch).value)
  {
    match Batch.Cancel(w.batch)
    case Err(e) => Err(e)
    case Ok(b) => Ok(w.(batch := b))
  }

  /** The guards of `RunAsync`, in order: disposed, nothing to run, already
      running; then the run starts with the first job. */
  function Begin(w: Worker): (r: Result<Worker>)
    requires Inv(w)
    ensures r.Ok? <==> !w.batch.disposed && w.batch.jobs != [] && !w.batch.running
    ensures w.batch.disposed ==> r == Err(ObjectDisposed)
    ensures !w.batch.disposed && (w.batch.jobs == [] || w.batch.running) ==> r == Err(InvalidOperation)
    ensures r.Ok? ==> Inv(r.value) && r.value == w.(batch := w.batch.(running := true), dispatching := true)
  {
    if w.batch.disposed then Err(ObjectDisposed)
    else if w.batch.jobs == [] then Err(InvalidOperation)
    else if w.batch.running then Err(InvalidOperation)
    else Ok(w.(batch := w.batch.(running := true), dispatching := true))
  }

  /** The exception this worker records for a job started in a run that has
      not been canceled, unless its body calls `Cancel`: a faulted task
      contributes the aggregate it carries. */
  function Failure(body: Body): (r: Option<Error>)
    ensures r.Some? <==> body.Throws? || body.FaultedTask?
    ensures body.Throws? ==> r == Some(body.e)
    ensures body.FaultedTask? ==> r == Some(Aggregate([body.e]))
  {
    match body
    case Throws(e) => Some(e)
    case FaultedTask(e, _) => Some(Aggregate([e]))
    case _ => None
  }

  /** Starts one job: a thrown exception or a faulted task is recorded; a
      canceled task, or a token canceled by the time the job's task is done,
      raises `Canceled`; a null task makes the loop throw (`None`). */
  function Start(b: Batch.Batch, body: Body): (r: Option<Batch.Batch>)
    requires b.running && !b.disposed && !b.canceled
    ensures r.None? <==> body.NullTask?
    ensures r.Some? ==> r.value.running && !r.value.disposed && r.value.jobs == b.jobs && r.value.policy == b.policy
    ensures r.Some? && b.raised ==> r.value.raised
    ensures r.Some? && r.value.canceled ==> r.value.raised
    ensures !body.CallsCancel? && Failure(body).Some? ==> r == Some(Batch.Manage(b, Failure(body).value))
    ensures body.CanceledTask? ==> r == Some(Batch.Raise(b))
    ensures body.Completes? ==> r == Some(b)
  {
    var (c, thrown) := Batch.Invoke(b, body);
    if thrown.Some? then Some(Batch.Manage(c, thrown.value))
    else if body.NullTask? then None
    else if body.FaultedTask? then Some(Batch.Manage(c, Aggregate([body.e])))
    else if body.CanceledTask? || c.canceled then Some(Batch.Raise(c))
    else Some(c)
  }

  /** One iteration of the start loop: a canceled token raises `Canceled` and
      ends the loop, otherwise the next job starts. `Err` is the exception
      the loop throws. */
  function Step(w: Worker): (r: Result<Worker>)
    requires Inv(w) && w.dispatching
    ensures r.Err? <==> !w.batch.canceled && w.batch.jobs[w.next].NullTask?
    ensures r.Err? ==> r.error == NullReference
    ensures r.Ok? ==> Inv(r.value) && r.value.batch.running && r.value.batch.jobs == w.batch.jobs
    ensures r.Ok? ==> r.value.batch.policy == w.batch.policy
    ensures w.batch.canceled ==> r == Ok(w.(batch := Batch.Raise(w.batch), dispatching := false))
    ensures !w.batch.canceled && r.Ok? ==>
              && r.value.next == w.next + 1
              && r.value.batch == Start(w.batch, w.batch.jobs[w.next]).value
  {
    if w.batch.canceled then Ok(w.(batch := Batch.Raise(w.batch), dispatching := false))
    else match Start(w.batch, w.batch.jobs[w.next])
      case None => Err(NullReference)
      case Some(b) => Ok(w.(batch := b, next := w.next + 1, dispatching := w.next + 1 < |w.batch.jobs|))
  }

  /** The start loop from the current job on, with no outside call in
      between: the worker where the loop stopped, and the exception it threw
      if a job returned a null task (the loop stops at that job). */
  function Pump(w: Worker): (r: (Worker, Option<Error>))
    requires Inv(w) && w.batch.running
    ensures Inv(r.0) && r.0.batch.running
    ensures r.0.batch.jobs == w.batch.jobs && r.0.batch.policy == w.batch.policy
    ensures r.1.None? ==> !r.0.dispatching
    ensures r.1.Some? ==> r.1 == Some(NullReference) && r.0.dispatching && !r.0.batch.canceled
    ensures r.1.Some? ==> r.0.batch.jobs[r.0.next].NullTask?
    decreases |w.batch.jobs| - w.next + (if w.dispatching then 1 else 0)
  {
    if !w.dispatching then (w, None)
    else match Step(w)
      case Err(e) => (w, Some(e))
      case Ok(x) => Pump(x)
  }

  /** The `finally` block of `RunAsync`: the worker stops running, gets a
      fresh token and a re-armed guard and forgets its jobs and failures. The
      run fails with the loop's own exception if it threw, otherwise with an
      aggregate of the recorded failures if there are any, listed in
      recording order (see `Batch.EndRun`). */
  function End(w: Worker, thrown: Option<Error>): (r: (Result<()>, Worker))
    requires Inv(w) && w.batch.running && (thrown.None? ==> !w.dispatching)
    ensures Inv(r.1) && !r.1.batch.running && r.1.batch.jobs == []
    ensures thrown.Some? ==> r.0 == Err(thrown.value)
    ensures thrown.None? ==> (r.0.Err? <==> w.batch.errors != [])
    ensures thrown.None? && r.0.Err? ==> r.0.error == Aggregate(w.batch.errors)
    ensures r.1.batch.canceledEvents == w.batch.canceledEvents && r.1.batch.policy == w.batch.policy
  {
    var (res, b) := Batch.EndRun(w.batch);
    (if thrown.Some? then Err(thrown.value) else res, Worker(b, 0, false))
  }

  /** A whole `RunAsync` call; it never waits on anything but its own jobs. */
  function RunAsync(w: Worker): (r: Batch.Run<Worker>)
    requires Inv(w)
    ensures !r.Hangs?
    ensures r.Rejected? <==> Begin(w).Err?
    ensures r.Rejected? ==> r.error == Begin(w).error
    ensures r.Finished? ==> Inv(r.after) && !r.after.batch.running && r.after.batch.jobs == []
  {
    match Begin(w)
    case Err(e) => Batch.Rejected(e)
    case Ok(s) =>
      var (d, thrown) := Pump(s);
      var (res, a) := End(d, thrown);
      Batch.Finished(res, a)
  }

  /** Disposal: a second call does nothing, a running worker refuses,
      otherwise the worker is marked disposed (its jobs are kept, but no
      operation can reach them any more). */
  function Dispose(w: Worker): (r: Result<Worker>)
    requires Inv(w)
    ensures r.Err? <==> !w.batch.disposed && w.batch.running
    ensures r.Err? ==> r.error == InvalidOperation
    ensures w.batch.disposed ==> r == Ok(w)
    ensures r.Ok? ==> Inv(r.value) && r.value.batch.disposed && r.value.batch.jobs == w.batch.jobs
    ensures r.Ok? ==> Begin(r.value) == Err(ObjectDisposed) && AddJob(r.value, Some(Completes)) == Err(ObjectDisposed)
  {
    if w.batch.disposed then Ok(w)
    else if w.batch.running then Err(InvalidOperation)
    else Ok(w.(batch := w.batch.(disposed := true)))
  }

  /** The failure a job records, as a sequence of at most one exception. */
  function Recorded(body: Body): (r: seq<Error>)
    ensures |r| <= 1 && (r == [] <==> Failure(body).None?)
  {
    if Failure(body).Some? then [Failure(body).value] else []
  }

  /** The failures of a run that nothing cancels, in start order. */
  function Failures(jobs: seq<Body>): (r: seq<Error>)
    ensures |r| <= |jobs|
  {
    if |jobs| == 0 then [] else Recorded(jobs[0]) + Failures(jobs[1..])
  }

  /** Whether some job returns a null task. */
  predicate HasNullTask(jobs: seq<Body>)
  {
    |jobs| > 0 && (jobs[0].NullTask? || HasNullTask(jobs[1..]))
  }

  /** `HasNullTask` is the existence of a job returning a null task. */
  lemma {:induction false} HasNullTaskIffSome(jobs: seq<Body>)
    ensures HasNullTask(jobs) <==> exists k :: 0 <= k < |jobs| && jobs[k].NullTask?
    decreases |jobs|
  {
    if |jobs| > 0 {
      HasNullTaskIffSome(jobs[1..]);
      assert forall k :: 1 <= k < |jobs| ==> jobs[k] == jobs[1..][k - 1];
    }
  }

  /** One start under the continue policy, as the induction below needs it. */
  lemma ContinueStep(w: Worker)
    requires Inv(w) && w.dispatching && !w.batch.canceled
    requires w.batch.policy == ContinueRunningPendingJobs
    requires !w.batch.jobs[w.next].CallsCancel? && !w.batch.jobs[w.next].NullTask?
    ensures var x := Step(w).value;
            var body := w.batch.jobs[w.next];
            var jobs := w.batch.jobs;
            && Step(w).Ok? && x.next == w.next + 1 && !x.batch.canceled
            && x.batch.policy == w.batch.policy && x.batch.jobs == jobs
            && x.batch.errors == w.batch.errors + Recorded(body)
            && Failures(jobs[w.next..]) == Recorded(body) + Failures(jobs[x.next..])
            && (HasNullTask(jobs[w.next..]) <==> HasNullTask(jobs[x.next..]))
  {
    var jobs := w.batch.jobs;
    assert jobs[w.next..][1..] == jobs[w.next + 1..];
  }

  /** Under the continue policy, a loop whose jobs do not call `Cancel` and
      that nothing cancels from outside throws exactly when some job returns
      a null task, and otherwise records every failure in order. */
  lemma {:induction false} PumpUnderContinuePolicy(w: Worker)
    requires Inv(w) && w.batch.running && !w.batch.canceled
    requires w.batch.policy == ContinueRunningPendingJobs
    requires forall k :: w.next <= k < |w.batch.jobs| ==> !w.batch.jobs[k].CallsCancel?
    ensures var rest := w.batch.jobs[w.next..];
            && (Pump(w).1.Some? <==> HasNullTask(rest))
            && (Pump(w).1.None? ==> Pump(w).0.batch.errors == w.batch.errors + Failures(rest))
    decreases |w.batch.jobs| - w.next + (if w.dispatching then 1 else 0)
  {
    var jobs := w.batch.jobs;
    if !w.dispatching {
      assert jobs[w.next..] == [];
    } else if jobs[w.next].NullTask? {
      assert jobs[w.next..][0] == jobs[w.next];
    } else {
      var x := Step(w).value;
      ContinueStep(w);
      PumpUnderContinuePolicy(x);
      var r := Recorded(jobs[w.next]);
      assert (w.batch.errors + r) + Failures(jobs[x.next..]) == w.batch.errors + (r + Failures(jobs[x.next..]));
    }
  }

  /** A run under the continue policy whose jobs do not call `Cancel` fails
      with the null-reference error if some job returns a null task (the
      recorded failures are then lost), and otherwise fails exactly when some
      job fails, with every failure (listed in start order, an order the
      source's bag does not keep). */
  lemma ContinuePolicyOutcome(w: Worker)
    requires Inv(w) && !w.batch.disposed && !w.batch.running && w.batch.jobs != []
    requires w.batch.policy == ContinueRunningPendingJobs
    requires forall k :: 0 <= k < |w.batch.jobs| ==> !w.batch.jobs[k].CallsCancel?
    ensures RunAsync(w).Finished?
    ensures var fs := Failures(w.batch.jobs);
            RunAsync(w).result == (if HasNullTask(w.batch.jobs) then Err(NullReference)
                                   else if fs == [] then Ok(()) else Err(Aggregate(fs)))
  {
    var s := Begin(w).value;
    PumpUnderContinuePolicy(s);
    assert s.batch.jobs[0..] == w.batch.jobs;
  }

  /** Under the cancel policy, a loop whose jobs neither call `Cancel` nor
      return a null task, and that nothing cancels from outside, stops after
      the first failing job, having recorded that failure alone. This needs
      every faulting task to have faulted by the time its job returns: the
      loop starts every job whose task is still pending before any such
      fault is seen. */
  lemma {:induction false} PumpStopsAtFirstFailure(w: Worker)
    requires Inv(w) && w.batch.running && !w.batch.canceled
    requires w.batch.policy == CancelPendingJobs
    requires forall k :: w.next <= k < |w.batch.jobs| ==> !w.batch.jobs[k].CallsCancel? && !w.batch.jobs[k].NullTask?
    requires forall k :: w.next <= k < |w.batch.jobs| ==> !(w.batch.jobs[k].FaultedTask? && w.batch.jobs[k].late)
    ensures Pump(w).1.None?
    ensures var fs := Failures(w.batch.jobs[w.next..]);
            && Pump(w).0.batch.errors == w.batch.errors + (if fs == [] then [] else [fs[0]])
            && (Pump(w).0.batch.canceled <==> fs != [])
    decreases |w.batch.jobs| - w.next + (if w.dispatching then 1 else 0)
  {
    var jobs := w.batch.jobs;
    if !w.dispatching {
      assert jobs[w.next..] == [];
    } else {
      var x := Step(w).value;
      assert jobs[w.next..] == [jobs[w.next]] + jobs[w.next + 1..];
      if Failure(jobs[w.next]).Some? {
        assert x.batch.canceled;
        assert x.dispatching ==> Pump(x) == Pump(Step(x).value);
      } else {
        PumpStopsAtFirstFailure(x);
      }
    }
  }

  /** A run under the cancel policy whose jobs neither call `Cancel` nor
      return a null task fails exactly when some job fails, with the first
      failure alone; as above, no task may fault after its job returned. */
  lemma CancelPolicyReportsFirstFailure(w: Worker)
    requires Inv(w) && !w.batch.disposed && !w.batch.running && w.batch.jobs != []
    requires w.batch.policy == CancelPendingJobs
    requires forall k :: 0 <= k < |w.batch.jobs| ==> !w.batch.jobs[k].CallsCancel? && !w.batch.jobs[k].NullTask?
    requires forall k :: 0 <= k < |w.batch.jobs| ==> !(w.batch.jobs[k].FaultedTask? && w.batch.jobs[k].late)
    ensures RunAsync(w).Finished?
    ensures var fs := Failures(w.batch.jobs);
            RunAsync(w).result == (if fs == [] then Ok(()) else Err(Aggregate([fs[0]])))
  {
    var s := Begin(w).value;
    PumpStopsAtFirstFailure(s);
    assert s.batch.jobs[0..] == w.batch.jobs;
  }

  /** Starting one job raises `Canceled` at most once, and only with an armed
      guard. */
  lemma StartRaisesOnce(b: Batch.Batch, body: Body)
    requires b.running && !b.disposed && !b.canceled
    ensures Start(b, body).Some? ==>
              && Start(b, body).value.canceledEvents
                   == b.canceledEvents + (if Start(b, body).value.raised && !b.raised then 1 else 0)
  {
    if body.CallsCancel? {
      Batch.CallCancelOutcome(b, body.times);
    }
  }

  /** Whatever the jobs do, the loop raises `Canceled` at most once: only if
      the guard was armed, and then it stays set. */
  lemma {:induction false} PumpRaisesAtMostOnce(w: Worker)
    requires Inv(w) && w.batch.running
    ensures Pump(w).0.batch.canceledEvents
              == w.batch.canceledEvents + (if Pump(w).0.batch.raised && !w.batch.raised then 1 else 0)
    ensures w.batch.raised ==> Pump(w).0.batch.raised
    decreases |w.batch.jobs| - w.next + (if w.dispatching then 1 else 0)
  {
    if w.dispatching && Step(w).Ok? {
      if !w.batch.canceled {
        StartRaisesOnce(w.batch, w.batch.jobs[w.next]);
      }
      PumpRaisesAtMostOnce(Step(w).value);
    }
  }

  /** A run raises `Canceled` at most once, whatever its jobs do. */
  lemma CanceledRaisedAtMostOncePerRun(w: Worker)
    requires Inv(w)
    ensures RunAsync(w).Finished? ==> RunAsync(w).after.batch.canceledEvents <= w.batch.canceledEvents + 1
  {
    if Begin(w).Ok? {
      PumpRaisesAtMostOnce(Begin(w).value);
    }
  }

  /** An outside `Cancel` between two starts ends the loop at the next job,
      which does not run, and does not raise `Canceled` again. */
  lemma CanceledLoopStops(w: Worker)
    requires Inv(w) && w.dispatching && Cancel(w).Ok?
    ensures var x := Cancel(w).value;
            && Pump(x) == (x.(dispatching := false), None)
            && Pump(x).0.batch.errors == w.batch.errors
            && Pump(x).0.batch.canceledEvents == w.batch.canceledEvents + (if w.batch.raised then 0 else 1)
  {
  }
}
