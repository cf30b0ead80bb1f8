/** Vocabulary shared by every engine of the toolkit: the exceptions the
    engines throw or record, the failure policy, the processor status, the
    legacy job priorities, and the behaviour of a job body.

    Jobs are opaque delegates in the toolkit; here a job is described by what
    it does when invoked (a `Body`), which is the oracle the sequential
    abstraction folds over. */
module Jobs {

  /** The exception kinds the engines throw or record. `JobError(code)` is a
      job's own exception, distinguished by an arbitrary code. */
  datatype Error =
    | InvalidOperation
    | ArgumentNull
    | Argument
    | ObjectDisposed
    | NullReference
    | TaskCanceled
    | Overflow
    | JobError(code: nat)
    | Aggregate(inner: seq<Error>)

  /** The outcome of an operation that either succeeds with a value or throws. */
  datatype Result<T> = Ok(value: T) | Err(error: Error)

  /** A value that may be absent (a null reference in the toolkit). */
  datatype Option<T> = None | Some(value: T)

  /** What a worker does after a job fails. */
  datatype Policy = CancelPendingJobs | ContinueRunningPendingJobs

  /** Status reported by a job processor. */
  datatype Status = Stopped | Running | Paused

  /** Priorities of the legacy workers; `Value` is the integer the ordering uses. */
  datatype Priority = Highest | High | Medium | Low | Lowest {
    function Value(): int {
      match this
      case Highest => 1
      case High => 2
      case Medium => 3
      case Low => 4
      case Lowest => 5
    }
  }

  /** What a batch job does when it is invoked:
      - `Completes`: returns normally (an action) or returns a completed task;
      - `Throws(e)`: throws `e` before returning;
      - `FaultedTask(e, late)`: returns a task that faults with `e`;
      - `CanceledTask(late)`: returns a task that is canceled;
      - `NullTask`: an asynchronous job that returns null instead of a task;
      - `CallsCancel(times)`: calls the worker's cancel operation `times` times
        and then returns normally, unless one of those calls throws.
      `late` says whether the returned task is still pending when the job
      returns (it faults or is canceled afterwards) rather than already
      finished. Only a worker that inspects the task without awaiting it can
      tell the two apart. */
  datatype Body =
    | Completes
    | Throws(e: Error)
    | FaultedTask(e: Error, late: bool)
    | CanceledTask(late: bool)
    | NullTask
    | CallsCancel(times: nat)

  /** The job returned a task that was still pending and later faults or is
      canceled. */
  predicate SettlesLate(b: Body) {
    (b.FaultedTask? || b.CanceledTask?) && b.late
  }

  /** A job of the legacy priority and parallel workers: its body, its
      priority, and whether it was added as an action (which returns nothing)
      rather than as a task-returning function. */
  datatype Entry = Entry(body: Body, priority: Priority, action: bool)

  /** A processor job: an identity (its submission tag) and whether its body
      throws, or `Null`, a null delegate, which throws a null reference
      exception when it is invoked. */
  datatype Job = Job(id: nat, fails: bool) | Null

  /** Invoking the job throws. */
  predicate Faults(j: Job) {
    j.Null? || j.fails
  }
}
