/** The state and the operations shared by the legacy workers
    (`NeedleWorker`, `NeddleWorker` and `ParallelWorker`): the action jobs and
    the task jobs collected between runs, the job counters behind `Progress`,
    the running flag, the cancellation token of the current run and the
    exceptions recorded during a run.

    A run is a sequence of dispatches: `queue` holds the jobs the current run
    has yet to dispatch, in dispatch order, and `Step` dispatches the first
    one and runs it to completion. Outside calls may happen between steps.
    `canceledEvents` and `completedEvents` count how many times the
    `Canceled` and `Completed` events have been raised over the worker's
    life.

    `RunAsync` in these workers has no already-running guard, so a second run
    can start while one is in progress; `BeginAsWritten` models that and
    `ConcurrentRunOvercounts` shows what it does to `Progress`. `Begin` is
    the corrected start, which refuses a running worker; the workers use it. */
module Legacy {
  import opened Jobs

  datatype Worker = Worker(
    policy: Policy,
    actions: seq<Entry>,
    tasks: seq<Entry>,
    queue: seq<Entry>,
    running: bool,
    canceled: bool,
    errors: seq<Error>,
    total: nat,
    completed: nat,
    disposed: bool,
    canceledEvents: nat,
    completedEvents: nat)

  /** The registered jobs: the action jobs, then the task jobs. */
  function AllJobs(w: Worker): seq<Entry> {
    w.actions + w.tasks
  }

  /** What the operations keep: each list holds jobs of its kind, the total
      is the number of registered jobs, no more jobs complete than were
      registered, an idle worker has no run state, and a disposed worker is
      idle and empty. */
  ghost predicate Inv(w: Worker) {
    && (forall i :: 0 <= i < |w.actions| ==> w.actions[i].action)
    && (forall i :: 0 <= i < |w.tasks| ==> !w.tasks[i].action)
    && w.total == |w.actions| + |w.tasks|
    && w.completed + |w.queue| <= w.total
    && (!w.running ==> w.queue == [] && w.completed == 0 && !w.canceled && w.errors == [])
    && (w.disposed ==> !w.running && w.total == 0)
  }

  /** A new worker with the given failure policy. */
  function Create(policy: Policy): (w: Worker)
    ensures Inv(w) && w.policy == policy && AllJobs(w) == [] && w.total == 0
    ensures !w.running && !w.disposed && w.canceledEvents == 0 && w.completedEvents == 0
  {
    Worker(policy, [], [], [], false, false, [], 0, 0, false, 0, 0)
  }

  /** Registers a job (`None` is a null delegate) with a priority, as an
      action or as a task-returning function. The checks run in the order
      disposed, null, running; an accepted job is appended to its list and
      counted in the total. */
  function AddJob(w: Worker, job: Option<Body>, priority: Priority, action: bool): (r: Result<Worker>)
    ensures r.Err? <==> w.disposed || job.None? || w.running
    ensures w.disposed ==> r == Err(ObjectDisposed)
    ensures !w.disposed && job.None? ==> r == Err(ArgumentNull)
    ensures !w.disposed && job.Some? && w.running ==> r == Err(InvalidOperation)
    ensures r.Ok? ==> r.value.total == w.total + 1
    ensures r.Ok? && action ==> r.value == w.(actions := w.actions + [Entry(job.value, priority, true)], total := r.value.total)
    ensures r.Ok? && !action ==> r.value == w.(tasks := w.tasks + [Entry(job.value, priority, false)], total := r.value.total)
    ensures r.Ok? ==> AllJobs(r.value) != [] && |AllJobs(r.value)| == |AllJobs(w)| + 1
  {
    if w.disposed then Err(ObjectDisposed)
    else if job.None? then Err(ArgumentNull)
    else if w.running then Err(InvalidOperation)
    else if action then Ok(w.(actions := w.actions + [Entry(job.value, priority, true)], total := w.total + 1))
    else Ok(w.(tasks := w.tasks + [Entry(job.value, priority, false)], total := w.total + 1))
  }

  /** Requests cancellation of the current run: refused when idle, with no
      guard against a second request and no event. */
  function RequestCancellation(w: Worker): (r: Result<Worker>)
    ensures r.Ok? <==> !w.disposed && w.running
    ensures w.disposed ==> r == Err(ObjectDisposed)
    ensures !w.disposed && !w.running ==> r == Err(InvalidOperation)
    ensures r.Ok? ==> r.value.canceled && r.value == w.(canceled := true)
  {
    if w.disposed then Err(ObjectDisposed)
    else if !w.running then Err(InvalidOperation)
    else Ok(w.(canceled := true))
  }

  /** The percentage of registered jobs completed, rounded down; 0 with no
      jobs. Like every accessor it throws once the worker is disposed. While
      no more jobs have completed than are registered, it stays between 0
      and 100, and is 100 exactly when there are jobs and all completed. */
  function Progress(w: Worker): (r: Result<int>)
    ensures r.Err? <==> w.disposed
    ensures r.Err? ==> r.error == ObjectDisposed
    ensures r.Ok? && w.total == 0 ==> r.value == 0
    ensures r.Ok? && w.total > 0 ==> r.value * w.total <= w.completed * 100 < (r.value + 1) * w.total
    ensures r.Ok? && w.completed <= w.total ==>
              0 <= r.value <= 100 && (r.value == 100 <==> w.total > 0 && w.completed == w.total)
  {
    if w.disposed then Err(ObjectDisposed)
    else if w.total == 0 then Ok(0)
    else if w.completed < w.total then
      PercentBelow(w.completed, w.total); Ok(w.completed * 100 / w.total)
    else if w.completed == w.total then
      PercentWhole(w.total); Ok(w.completed * 100 / w.total)
    else Ok(w.completed * 100 / w.total)
  }

  /** Records a job failure; under the cancel policy it also cancels the run.
      (`NeddleWorker` records before canceling and the others after; the
      resulting state is the same.) */
  function Fail(w: Worker, e: Error): (r: Worker)
    ensures r.errors == w.errors + [e]
    ensures r.canceled <==> w.canceled || w.policy == CancelPendingJobs
    ensures r == w.(errors := r.errors, canceled := r.canceled)
  {
    w.(errors := w.errors + [e], canceled := w.canceled || w.policy == CancelPendingJobs)
  }

  /** The exception a job ends with when it is invoked, if any. An action
      returns no task, so only its throwing matters; a task job also fails
      with the fault of its task, with a task-canceled exception for a
      canceled task, and with a null reference exception for a null task. */
  function Failure(e: Entry): (r: Option<Error>)
    ensures e.body.Throws? ==> r == Some(e.body.e)
    ensures e.body.Completes? || e.body.CallsCancel? ==> r.None?
    ensures e.action && !e.body.Throws? ==> r.None?
    ensures !e.action && e.body.FaultedTask? ==> r == Some(e.body.e)
    ensures !e.action && e.body.CanceledTask? ==> r == Some(TaskCanceled)
    ensures !e.action && e.body.NullTask? ==> r == Some(NullReference)
  {
    match e.body
    case Throws(x) => Some(x)
    case FaultedTask(x, _) => if e.action then None else Some(x)
    case CanceledTask(_) => if e.action then None else Some(TaskCanceled)
    case NullTask => if e.action then None else Some(NullReference)
    case _ => None
  }

  /** The job's body requests cancellation of the run it is part of. */
  predicate Cancels(e: Entry) {
    e.body.CallsCancel? && e.body.times >= 1
  }

  /** One dispatched job, run to completion: skipped with a `Canceled` event
      when the run is canceled (every skipped job raises it); otherwise
      invoked, and then either recorded as a failure or counted as completed.
      Cancellation requested from inside the job always succeeds, since the
      worker is running. */
  function Attempt(w: Worker, e: Entry): (r: Worker)
    ensures r.canceledEvents == w.canceledEvents + (if w.canceled then 1 else 0)
    ensures w.canceled ==> r == w.(canceledEvents := r.canceledEvents)
    ensures !w.canceled && Failure(e).Some? ==> r == Fail(w, Failure(e).value)
    ensures !w.canceled && Failure(e).None? ==>
              r == w.(completed := w.completed + 1, canceled := Cancels(e))
    ensures r.queue == w.queue && r.actions == w.actions && r.tasks == w.tasks && r.total == w.total
    ensures r.running == w.running && r.disposed == w.disposed && r.policy == w.policy
    ensures r.completedEvents == w.completedEvents
  {
    if w.canceled then w.(canceledEvents := w.canceledEvents + 1)
    else match Failure(e)
      case Some(x) => Fail(w, x)
      case None => w.(completed := w.completed + 1, canceled := Cancels(e))
  }

  /** Dispatches the next job of the run and runs it to completion. */
  function Step(w: Worker): (r: Worker)
    requires w.queue != []
    ensures r.queue == w.queue[1..]
    ensures r == Attempt(w.(queue := w.queue[1..]), w.queue[0])
  {
    Attempt(w.(queue := w.queue[1..]), w.queue[0])
  }

  /** Dispatches every job left in the run, with no outside call between. */
  function Pump(w: Worker): (r: Worker)
    ensures r.queue == [] && r.actions == w.actions && r.tasks == w.tasks && r.total == w.total
    ensures r.running == w.running && r.disposed == w.disposed && r.policy == w.policy
    ensures r.completedEvents == w.completedEvents
    ensures r.completed <= w.completed + |w.queue|
    decreases |w.queue|
  {
    if w.queue == [] then w else Pump(Step(w))
  }

  /** The start of a run as written: refused only when disposed or with
      nothing to run; a running worker is not refused, and the new run's
      dispatches join those the current run has left. */
  function BeginAsWritten(w: Worker, order: seq<Entry>): (r: Result<Worker>)
    ensures r.Err? <==> w.disposed || AllJobs(w) == []
    ensures w.disposed ==> r == Err(ObjectDisposed)
    ensures !w.disposed && AllJobs(w) == [] ==> r == Err(InvalidOperation)
    ensures r.Ok? ==> r.value == w.(running := true, queue := w.queue + order)
  {
    if w.disposed then Err(ObjectDisposed)
    else if AllJobs(w) == [] then Err(InvalidOperation)
    else Ok(w.(running := true, queue := w.queue + order))
  }

  /** The start of a run: as written, but a running worker is refused, as
      the slim workers refuse it. `order` is the worker's dispatch order of
      its registered jobs. */
  function Begin(w: Worker, order: seq<Entry>): (r: Result<Worker>)
    ensures r.Ok? <==> !w.disposed && AllJobs(w) != [] && !w.running
    ensures w.disposed ==> r == Err(ObjectDisposed)
    ensures !w.disposed && (AllJobs(w) == [] || w.running) ==> r == Err(InvalidOperation)
    ensures r.Ok? ==> r == BeginAsWritten(w, order)
    ensures Inv(w) && r.Ok? ==> r.value == w.(running := true, queue := order)
  {
    if !w.disposed && AllJobs(w) != [] && w.running then Err(InvalidOperation)
    else BeginAsWritten(w, order)
  }

  /** The end of every run, whatever its outcome: the worker stops running,
      forgets its jobs, exceptions and counts, gets a fresh token and raises
      `Completed`. */
  function EndState(w: Worker): (r: Worker)
    ensures !r.running && !r.canceled && AllJobs(r) == [] && r.queue == [] && r.errors == []
    ensures r.total == 0 && r.completed == 0
    ensures r.completedEvents == w.completedEvents + 1 && r.canceledEvents == w.canceledEvents
    ensures r.policy == w.policy && r.disposed == w.disposed
  {
    w.(running := false, canceled := false, actions := [], tasks := [], queue := [], errors := [],
       total := 0, completed := 0, completedEvents := w.completedEvents + 1)
  }

  /** Disposes the worker: nothing on a disposed worker, refused while
      running, otherwise the job lists and counts are cleared. */
  function Dispose(w: Worker): (r: Result<Worker>)
    ensures r.Err? <==> !w.disposed && w.running
    ensures r.Err? ==> r.error == InvalidOperation
    ensures w.disposed ==> r == Ok(w)
    ensures !w.disposed && !w.running ==>
              r == Ok(w.(disposed := true, actions := [], tasks := [], errors := [], total := 0, completed := 0))
    ensures r.Ok? ==> r.value.disposed
  {
    if w.disposed then Ok(w)
    else if w.running then Err(InvalidOperation)
    else Ok(w.(disposed := true, actions := [], tasks := [], errors := [], total := 0, completed := 0))
  }

  // ----- The invariant -----

  /** Registering a job keeps the invariant. */
  lemma AddJobKeepsInv(w: Worker, job: Option<Body>, priority: Priority, action: bool)
    requires Inv(w)
    ensures AddJob(w, job, priority, action).Ok? ==> Inv(AddJob(w, job, priority, action).value)
  {
    if AddJob(w, job, priority, action).Ok? {
      var r := AddJob(w, job, priority, action).value;
      if action {
        assert forall i :: 0 <= i < |r.actions| ==> r.actions[i] == if i < |w.actions| then w.actions[i] else Entry(job.value, priority, true);
      } else {
        assert forall i :: 0 <= i < |r.tasks| ==> r.tasks[i] == if i < |w.tasks| then w.tasks[i] else Entry(job.value, priority, false);
      }
    }
  }

  /** An accepted job joins the registered jobs. */
  lemma AddJobAddsEntry(w: Worker, job: Option<Body>, priority: Priority, action: bool)
    requires AddJob(w, job, priority, action).Ok?
    ensures multiset(AllJobs(AddJob(w, job, priority, action).value))
              == multiset(AllJobs(w)) + multiset{Entry(job.value, priority, action)}
  {
    var r := AddJob(w, job, priority, action).value;
    var e := Entry(job.value, priority, action);
    if action {
      assert AllJobs(r) == w.actions + [e] + w.tasks;
    } else {
      assert AllJobs(r) == w.actions + w.tasks + [e];
    }
  }

  /** Starting a run with an order of all the registered jobs keeps the
      invariant. */
  lemma BeginKeepsInv(w: Worker, order: seq<Entry>)
    requires Inv(w) && |order| == |AllJobs(w)|
    ensures Begin(w, order).Ok? ==> Inv(Begin(w, order).value)
  {
  }

  /** Dispatching a job keeps the invariant. */
  lemma StepKeepsInv(w: Worker)
    requires Inv(w) && w.running && w.queue != []
    ensures Inv(Step(w))
  {
  }

  /** Dispatching the rest of the run keeps the invariant. */
  lemma {:induction false} PumpKeepsInv(w: Worker)
    requires Inv(w) && w.running
    ensures Inv(Pump(w))
    decreases |w.queue|
  {
    if w.queue != [] {
      StepKeepsInv(w);
      PumpKeepsInv(Step(w));
    }
  }

  /** Requests, the end of a run and disposal keep the invariant. */
  lemma OthersKeepInv(w: Worker)
    requires Inv(w)
    ensures RequestCancellation(w).Ok? ==> Inv(RequestCancellation(w).value)
    ensures Inv(EndState(w))
    ensures Dispose(w).Ok? ==> Inv(Dispose(w).value)
  {
  }

  // ----- Progress -----

  /** `n * 100 / d` is below 100 when `n < d`. */
  lemma PercentBelow(n: nat, d: nat)
    requires n < d
    ensures n * 100 / d < 100
  {
    var p := n * 100 / d;
    assert p * d <= n * 100 < 100 * d;
  }

  /** A positive multiple of `d` is at least `d`. */
  lemma MulAtLeast(x: int, d: nat)
    requires x >= 1
    ensures x * d >= d
  {
    assert x * d == (x - 1) * d + d;
  }

  /** `d * 100 / d` is 100. */
  lemma PercentWhole(d: nat)
    requires d > 0
    ensures d * 100 / d == 100
  {
    var q, m := d * 100 / d, d * 100 % d;
    var x := 100 - q;
    assert x * d == m by {
      assert d * 100 == q * d + m;
    }
    if x >= 1 {
      MulAtLeast(x, d);
    } else if x <= -1 {
      MulAtLeast(-x, d);
    }
  }

  // ----- Runs -----

  /** Once the run is canceled, every remaining job is skipped, each with
      its own `Canceled` event, and nothing is completed or recorded. */
  lemma {:induction false} SkippedJobsEachRaise(w: Worker)
    requires w.canceled
    ensures Pump(w).canceledEvents == w.canceledEvents + |w.queue|
    ensures Pump(w).completed == w.completed && Pump(w).errors == w.errors && Pump(w).canceled
    decreases |w.queue|
  {
    if w.queue != [] {
      SkippedJobsEachRaise(Step(w));
    }
  }

  /** Under the cancel policy a run of jobs dispatched one at a time records
      at most one failure: the first failure cancels the run and every later
      job is skipped. */
  lemma {:induction false} CancelPolicyRecordsAtMostOne(w: Worker)
    requires w.policy == CancelPendingJobs
    ensures |Pump(w).errors| <= |w.errors| + (if w.canceled then 0 else 1)
    decreases |w.queue|
  {
    if w.queue != [] {
      var s := Step(w);
      if s.canceled {
        SkippedJobsEachRaise(s);
      } else {
        CancelPolicyRecordsAtMostOne(s);
      }
    }
  }

  /** The failure of one job, as a sequence of zero or one exception. */
  function Recorded(e: Entry): (r: seq<Error>)
    ensures |r| <= 1 && (r == [] <==> Failure(e).None?)
    ensures Failure(e).Some? ==> r == [Failure(e).value]
  {
    match Failure(e)
    case Some(x) => [x]
    case None => []
  }

  /** The failures of `q`, in order. */
  function Failures(q: seq<Entry>): (r: seq<Error>)
    ensures |r| <= |q|
  {
    if q == [] then [] else Recorded(q[0]) + Failures(q[1..])
  }

  /** No job of `q` requests cancellation. */
  predicate Quiet(q: seq<Entry>) {
    forall k :: 0 <= k < |q| ==> !Cancels(q[k])
  }

  /** The jobs after the first of a quiet sequence are quiet. */
  lemma QuietTail(q: seq<Entry>)
    requires q != [] && Quiet(q)
    ensures !Cancels(q[0]) && Quiet(q[1..])
  {
    assert forall k :: 0 <= k < |q[1..]| ==> q[1..][k] == q[k + 1];
  }

  /** One dispatch under the continue policy with no cancellation. */
  lemma ContinueStep(w: Worker)
    requires w.policy == ContinueRunningPendingJobs && !w.canceled && w.queue != [] && !Cancels(w.queue[0])
    ensures !Step(w).canceled && Step(w).canceledEvents == w.canceledEvents
    ensures Step(w).errors == w.errors + Recorded(w.queue[0])
    ensures Step(w).completed == w.completed + 1 - |Recorded(w.queue[0])|
  {
  }

  /** Under the continue policy, with no cancellation requested, the run
      stays uncanceled, raises no `Canceled` event, and records each failure
      in dispatch order, which is also completion order when the jobs run one
      at a time. */
  lemma {:induction false} ContinuePolicyRecordsAll(w: Worker)
    requires w.policy == ContinueRunningPendingJobs && !w.canceled && Quiet(w.queue)
    ensures Pump(w).errors == w.errors + Failures(w.queue)
    ensures !Pump(w).canceled && Pump(w).canceledEvents == w.canceledEvents
    decreases |w.queue|
  {
    if w.queue != [] {
      QuietTail(w.queue);
      ContinueStep(w);
      var s := Step(w);
      ContinuePolicyRecordsAll(s);
      assert w.errors + Recorded(w.queue[0]) + Failures(s.queue) == w.errors + Failures(w.queue);
    }
  }

  /** Under the continue policy, with no cancellation requested, every job
      that does not fail completes. */
  lemma {:induction false} ContinuePolicyCompletesRest(w: Worker)
    requires w.policy == ContinueRunningPendingJobs && !w.canceled && Quiet(w.queue)
    ensures Pump(w).completed == w.completed + |w.queue| - |Failures(w.queue)|
    decreases |w.queue|
  {
    if w.queue != [] {
      QuietTail(w.queue);
      ContinueStep(w);
      ContinuePolicyCompletesRest(Step(w));
    }
  }

  /** A second run started while one is in progress dispatches every job
      again, so more jobs complete than are registered and `Progress`
      reaches 200; the corrected start refuses the second run. */
  lemma ConcurrentRunOvercounts()
    ensures var w1 := AddJob(Create(ContinueRunningPendingJobs), Some(Completes), Medium, true).value;
            var w2 := BeginAsWritten(w1, AllJobs(w1)).value;
            var w3 := BeginAsWritten(w2, AllJobs(w2));
            && w3.Ok?
            && Progress(Step(Step(w3.value))) == Ok(200)
            && Begin(w2, AllJobs(w2)) == Err(InvalidOperation)
  {
    var w1 := AddJob(Create(ContinueRunningPendingJobs), Some(Completes), Medium, true).value;
    var w2 := BeginAsWritten(w1, AllJobs(w1)).value;
    var w3 := BeginAsWritten(w2, AllJobs(w2)).value;
    assert w3.queue == [Entry(Completes, Medium, true), Entry(Completes, Medium, true)];
    assert Step(Step(w3)).completed == 2 && Step(Step(w3)).total == 1;
  }
}
