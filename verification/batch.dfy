/** The state and the operations shared by the slim batch workers
    (`SemaphoreWorkerSlim`, its subclass `SemaphoreWorker`, and
    `ParallelWorkerSlim`): a list of jobs collected between runs, a running
    flag, the cancellation token of the current run, the once-per-run guard of
    the `Canceled` event, and the exceptions recorded during a run.

    `canceledEvents` counts how many times the `Canceled` event has been raised
    over the worker's life; it is the observable effect of the guard. */
module Batch {
  import opened Jobs

  datatype Batch = Batch(
    policy: Policy,
    jobs: seq<Body>,
    running: bool,
    canceled: bool,
    raised: bool,
    errors: seq<Error>,
    disposed: bool,
    canceledEvents: nat)

  /** The outcome of a whole `RunAsync` call that is not interleaved with
      outside calls: rejected by a guard before anything runs, suspended
      forever on a semaphore, or finished with a result and the worker
      afterwards. */
  datatype Run<W> = Rejected(error: Error) | Hangs | Finished(result: Result<()>, after: W)

  /** A new worker: no jobs, not running, no cancellation requested. */
  function Create(policy: Policy): (b: Batch)
    ensures b.policy == policy && b.jobs == [] && b.errors == []
    ensures !b.running && !b.canceled && !b.raised && !b.disposed && b.canceledEvents == 0
  {
    Batch(policy, [], false, false, false, [], false, 0)
  }

  /** Adds a job (`None` is a null delegate). The checks run in the order
      disposed, running, null; an action is wrapped into a job that returns a
      completed task, so both overloads behave alike here. */
  function AddJob(b: Batch, job: Option<Body>): (r: Result<Batch>)
    ensures r.Err? <==> b.disposed || b.running || job.None?
    ensures b.disposed ==> r == Err(ObjectDisposed)
    ensures !b.disposed && b.running ==> r == Err(InvalidOperation)
    ensures !b.disposed && !b.running && job.None? ==> r == Err(ArgumentNull)
    ensures r.Ok? ==> |r.value.jobs| == |b.jobs| + 1 && r.value.jobs[..|b.jobs|] == b.jobs
    ensures r.Ok? ==> r.value.jobs[|b.jobs|] == job.value && r.value == b.(jobs := r.value.jobs)
  {
    if b.disposed then Err(ObjectDisposed)
    else if b.running then Err(InvalidOperation)
    else if job.None? then Err(ArgumentNull)
    else Ok(b.(jobs := b.jobs + [job.value]))
  }

  /** Raises the `Canceled` event unless it was already raised in this run. */
  function Raise(b: Batch): (r: Batch)
    ensures r.raised
    ensures r.canceledEvents == b.canceledEvents + (if b.raised then 0 else 1)
    ensures r == b.(raised := true, canceledEvents := r.canceledEvents)
  {
    if b.raised then b else b.(raised := true, canceledEvents := b.canceledEvents + 1)
  }

  /** Requests cancellation of the current run: only while running, only once
      per run; the first request raises `Canceled`. */
  function Cancel(b: Batch): (r: Result<Batch>)
    ensures r.Ok? <==> !b.disposed && b.running && !b.canceled
    ensures b.disposed ==> r == Err(ObjectDisposed)
    ensures !b.disposed && (!b.running || b.canceled) ==> r == Err(InvalidOperation)
    ensures r.Ok? ==> r.value.canceled && r.value.raised && r.value.jobs == b.jobs && r.value.errors == b.errors
    ensures r.Ok? ==> r.value.running && r.value.policy == b.policy && r.value.disposed == b.disposed
    ensures r.Ok? ==> r.value.canceledEvents == b.canceledEvents + (if b.raised then 0 else 1)
  {
    if b.disposed then Err(ObjectDisposed)
    else if !b.running then Err(InvalidOperation)
    else if b.canceled then Err(InvalidOperation)
    else Ok(Raise(b.(canceled := true)))
  }

  /** Records a job failure; under the cancel policy the first failure of a
      run requests cancellation (and so raises `Canceled`). */
  function Manage(b: Batch, e: Error): (r: Batch)
    requires b.running && !b.disposed
    ensures r.errors == b.errors + [e] && r.jobs == b.jobs && r.policy == b.policy
    ensures r.running && !r.disposed
    ensures r.canceled <==> b.canceled || b.policy == CancelPendingJobs
    ensures !b.canceled && b.policy == CancelPendingJobs ==>
              r.raised && r.canceledEvents == b.canceledEvents + (if b.raised then 0 else 1)
    ensures b.canceled || b.policy != CancelPendingJobs ==> r == b.(errors := b.errors + [e])
  {
    var c := if !b.canceled && b.policy == CancelPendingJobs then Cancel(b).value else b;
    c.(errors := c.errors + [e])
  }

  /** A job calling the worker's `Cancel` `n` times from its body: the calls
      run in order and the first one that throws ends the body with that
      exception. Returns the worker afterwards and the exception, if any. */
  function CallCancel(b: Batch, n: nat): (r: (Batch, Option<Error>))
    requires b.running && !b.disposed
    ensures r.0.running && !r.0.disposed && r.0.jobs == b.jobs && r.0.errors == b.errors
    ensures r.0.policy == b.policy
    decreases n
  {
    if n == 0 then (b, None)
    else match Cancel(b)
      case Err(e) => (b, Some(e))
      case Ok(c) => CallCancel(c, n - 1)
  }

  /** Invokes a job body: its synchronous part, up to the task it returns.
      Returns the worker afterwards and the exception thrown, if any. */
  function Invoke(b: Batch, body: Body): (r: (Batch, Option<Error>))
    requires b.running && !b.disposed
    ensures r.0.running && !r.0.disposed && r.0.jobs == b.jobs && r.0.errors == b.errors
    ensures r.0.policy == b.policy
    ensures !body.CallsCancel? || b.canceled ==> r.0 == b
    ensures r.1.Some? <==> body.Throws? || (body.CallsCancel? && ((b.canceled && body.times >= 1) || body.times >= 2))
    ensures body.Throws? ==> r.1 == Some(body.e)
    ensures body.CallsCancel? && r.1.Some? ==> r.1 == Some(InvalidOperation)
    ensures body.CallsCancel? && body.times >= 1 ==> r.0.canceled
    ensures body.CallsCancel? && body.times >= 1 && !b.canceled ==> r.0 == Cancel(b).value
    ensures body.CallsCancel? && body.times == 0 ==> r.0 == b
  {
    match body
    case Throws(e) => (b, Some(e))
    case CallsCancel(n) => CallCancelOutcome(b, n); CallCancel(b, n)
    case _ => (b, None)
  }

  /** Calling `Cancel` from a job body: the first call of a run succeeds and
      raises `Canceled`, every later call throws. */
  lemma CallCancelOutcome(b: Batch, n: nat)
    requires b.running && !b.disposed
    ensures n == 0 ==> CallCancel(b, n).0 == b && CallCancel(b, n).1 == None
    ensures n >= 1 ==> CallCancel(b, n).0.canceled
    ensures n >= 1 && b.canceled ==> CallCancel(b, n) == (b, Some(InvalidOperation))
    ensures n >= 1 && !b.canceled ==> CallCancel(b, n).0 == Cancel(b).value
    ensures CallCancel(b, n).1.Some? <==> (n >= 1 && b.canceled) || n >= 2
    ensures CallCancel(b, n).1.Some? ==> CallCancel(b, n).1 == Some(InvalidOperation)
  {
    if n >= 1 && !b.canceled {
      var c := Cancel(b).value;
      assert CallCancel(b, n) == CallCancel(c, n - 1);
      if n >= 2 {
        assert CallCancel(c, n - 1) == (c, Some(InvalidOperation));
      }
    }
  }

  /** The end of a run, after all dispatched jobs finished: the worker stops
      running, gets a fresh token and a re-armed `Canceled` guard, and forgets
      its jobs and exceptions. The run fails with an aggregate of the recorded
      exceptions when there are any. The model lists them in recording
      order; the source collects them in a `ConcurrentBag`, whose enumeration
      order is unspecified, so only their multiset carries over. */
  function EndRun(b: Batch): (r: (Result<()>, Batch))
    ensures r.0.Err? <==> b.errors != []
    ensures r.0.Err? ==> r.0.error == Aggregate(b.errors)
    ensures !r.1.running && !r.1.canceled && !r.1.raised && r.1.jobs == [] && r.1.errors == []
    ensures r.1.policy == b.policy && r.1.disposed == b.disposed && r.1.canceledEvents == b.canceledEvents
  {
    var after := b.(running := false, raised := false, canceled := false, jobs := [], errors := []);
    if b.errors == [] then (Ok(()), after) else (Err(Aggregate(b.errors)), after)
  }
}
