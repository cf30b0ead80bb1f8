/** The legacy priority workers, `NeedleWorker` and the older `NeddleWorker`:
    the shared legacy state plus a semaphore of `maxThreads` permits, with
    jobs dispatched in priority order.

    The two classes behave alike here; they differ in their defaults
    (`NeddleWorker` takes 3 permits, `NeedleWorker` one per processor) and in
    whether a failure is recorded before or after it cancels the run, which
    leaves the same state.

    A dispatched job holds its permit until it finishes, and here it runs to
    completion inside its step, so with at least one permit no acquisition
    waits; with no permit the first acquisition waits forever. A negative
    count is rejected by the semaphore when the worker is built. */
module PriorityWorker {
  import opened Jobs
  import Batch
  import Legacy
  import PriorityOrder

  datatype Worker = Worker(base: Legacy.Worker, maxThreads: int)

  /** The legacy invariant, with a permit count the semaphore accepted. */
  ghost predicate Inv(w: Worker) {
    Legacy.Inv(w.base) && w.maxThreads >= 0
  }

  /** A worker with `maxThreads` permits and a failure policy; the semaphore
      rejects a negative count with an argument exception. */
  function Create(maxThreads: int, policy: Policy): (r: Result<Worker>)
    ensures r.Err? <==> maxThreads < 0
    ensures r.Err? ==> r.error == Argument
    ensures r.Ok? ==> Inv(r.value) && r.value.maxThreads == maxThreads && r.value.base == Legacy.Create(policy)
  {
    if maxThreads < 0 then Err(Argument) else Ok(Worker(Legacy.Create(policy), maxThreads))
  }

  /** `NeddleWorker` with its defaults: 3 permits, failures cancel pending
      jobs. */
  function NeddleDefault(): (r: Result<Worker>)
    ensures r.Ok? && Inv(r.value) && r.value.maxThreads == 3 && r.value.base.policy == CancelPendingJobs
  {
    Create(3, CancelPendingJobs)
  }

  /** `NeedleWorker` with its default permit count, one per processor
      (`processors`, supplied by the environment). */
  function NeedleDefault(processors: int, policy: Policy): (r: Result<Worker>)
    ensures r.Ok? <==> processors >= 0
    ensures r.Ok? ==> r.value.maxThreads == processors && r.value.base.policy == policy
  {
    Create(processors, policy)
  }

  /** Registers a job with a priority; see `Legacy.AddJob`. */
  function AddJob(w: Worker, job: Option<Body>, priority: Priority, action: bool): (r: Result<Worker>)
    requires Inv(w)
    ensures r.Err? <==> w.base.disposed || job.None? || w.base.running
    ensures r.Err? ==> r.error == Legacy.AddJob(w.base, job, priority, action).error
    ensures r.Ok? ==> Inv(r.value) && r.value.maxThreads == w.maxThreads
    ensures r.Ok? ==> r.value.base.total == w.base.total + 1
    ensures r.Ok? ==> multiset(Legacy.AllJobs(r.value.base)) == multiset(Legacy.AllJobs(w.base)) + multiset{Entry(job.value, priority, action)}
  {
    Legacy.AddJobKeepsInv(w.base, job, priority, action);
    if Legacy.AddJob(w.base, job, priority, action).Ok? then
      Legacy.AddJobAddsEntry(w.base, job, priority, action);
      Ok(w.(base := Legacy.AddJob(w.base, job, priority, action).value))
    else
      Err(Legacy.AddJob(w.base, job, priority, action).error)
  }

  /** Requests cancellation of the current run; see
      `Legacy.RequestCancellation`. */
  function RequestCancellation(w: Worker): (r: Result<Worker>)
    requires Inv(w)
    ensures r.Ok? <==> !w.base.disposed && w.base.running
    ensures r.Err? ==> r.error == (if w.base.disposed then ObjectDisposed else InvalidOperation)
    ensures r.Ok? ==> Inv(r.value) && r.value.base.canceled && r.value == w.(base := w.base.(canceled := true))
  {
    Legacy.OthersKeepInv(w.base);
    match Legacy.RequestCancellation(w.base)
    case Err(e) => Err(e)
    case Ok(b) => Ok(w.(base := b))
  }

  /** `Progress`; see `Legacy.Progress`. */
  function Progress(w: Worker): (r: Result<int>)
    requires Inv(w)
    ensures r.Err? <==> w.base.disposed
    ensures r.Ok? ==> 0 <= r.value <= 100
    ensures r.Ok? ==> (r.value == 100 <==> w.base.total > 0 && w.base.completed == w.base.total)
  {
    Legacy.Progress(w.base)
  }

  /** The dispatch order of a run: every registered job, action jobs first,
      stably sorted by priority value. */
  function Order(w: Worker): seq<Entry> {
    PriorityOrder.ByPriority(Legacy.AllJobs(w.base))
  }

  /** The start of `RunAsync`: refused when disposed, with nothing to run,
      or (corrected) while running; otherwise the run's queue is the
      dispatch order. */
  function Begin(w: Worker): (r: Result<Worker>)
    requires Inv(w)
    ensures r.Ok? <==> !w.base.disposed && Legacy.AllJobs(w.base) != [] && !w.base.running
    ensures r.Err? ==> r.error == (if w.base.disposed then ObjectDisposed else InvalidOperation)
    ensures r.Ok? ==> Inv(r.value) && r.value.base.running && r.value.base.queue == Order(w)
    ensures r.Ok? ==> r.value == w.(base := w.base.(running := true, queue := Order(w)))
  {
    PriorityOrder.ByPriorityPermutes(Legacy.AllJobs(w.base));
    assert |Order(w)| == |multiset(Order(w))|;
    Legacy.BeginKeepsInv(w.base, Order(w));
    match Legacy.Begin(w.base, Order(w))
    case Err(e) => Err(e)
    case Ok(b) => Ok(w.(base := b))
  }

  /** Dispatches the rest of the run: each job first takes a permit, so with
      no permit the run waits forever (`None`); otherwise every job runs to
      completion in dispatch order. */
  function Pump(w: Worker): (r: Option<Worker>)
    requires Inv(w) && w.base.running
    ensures r.None? <==> w.base.queue != [] && w.maxThreads == 0
    ensures r.Some? ==> Inv(r.value) && r.value.base.running && r.value.base.queue == []
    ensures r.Some? ==> r.value == w.(base := Legacy.Pump(w.base))
  {
    Legacy.PumpKeepsInv(w.base);
    if w.base.queue != [] && w.maxThreads == 0 then None
    else Some(w.(base := Legacy.Pump(w.base)))
  }

  /** The end of a run: fails with an aggregate of the recorded exceptions
      when there are any; in every case the worker is reset (see
      `Legacy.EndState`). */
  function End(w: Worker): (r: (Result<()>, Worker))
    requires Inv(w)
    ensures r.0.Err? <==> w.base.errors != []
    ensures r.0.Err? ==> r.0.error == Aggregate(w.base.errors)
    ensures Inv(r.1) && r.1 == w.(base := Legacy.EndState(w.base))
  {
    Legacy.OthersKeepInv(w.base);
    var after := w.(base := Legacy.EndState(w.base));
    if w.base.errors == [] then (Ok(()), after) else (Err(Aggregate(w.base.errors)), after)
  }

  /** A whole `RunAsync` call with no outside call during it. */
  function RunAsync(w: Worker): (r: Batch.Run<Worker>)
    requires Inv(w)
    ensures r.Rejected? <==> Begin(w).Err?
    ensures r.Rejected? ==> r.error == Begin(w).error
    ensures r.Finished? ==> Inv(r.after) && !r.after.base.running && Legacy.AllJobs(r.after.base) == []
    ensures r.Finished? ==> r.after.base.total == 0 && r.after.base.completedEvents == w.base.completedEvents + 1
  {
    match Begin(w)
    case Err(e) => Batch.Rejected(e)
    case Ok(s) =>
      match Pump(s)
      case None => Batch.Hangs
      case Some(d) => var (res, a) := End(d); Batch.Finished(res, a)
  }

  /** Disposal; see `Legacy.Dispose`. */
  function Dispose(w: Worker): (r: Result<Worker>)
    requires Inv(w)
    ensures r.Err? <==> !w.base.disposed && w.base.running
    ensures r.Err? ==> r.error == InvalidOperation
    ensures w.base.disposed ==> r == Ok(w)
    ensures r.Ok? ==> Inv(r.value) && r.value.base.disposed && Progress(r.value).Err?
  {
    Legacy.OthersKeepInv(w.base);
    match Legacy.Dispose(w.base)
    case Err(e) => Err(e)
    case Ok(b) => Ok(w.(base := b))
  }

  // ----- Properties of a run -----

  /** A run waits forever exactly when it starts and the worker has no
      permit. */
  lemma RunHangsIffNoPermits(w: Worker)
    requires Inv(w)
    ensures RunAsync(w).Hangs? <==> Begin(w).Ok? && w.maxThreads == 0
  {
  }

  /** The queue of a run is a stable sort of the registered jobs by
      priority: sorted by value, a permutation of the jobs, and the jobs of
      each priority in the order they were registered, actions first. */
  lemma DispatchOrder(w: Worker)
    requires Inv(w) && Begin(w).Ok?
    ensures PriorityOrder.Sorted(Begin(w).value.base.queue)
    ensures multiset(Begin(w).value.base.queue) == multiset(w.base.actions + w.base.tasks)
    ensures forall v :: 1 <= v <= 5 ==>
              PriorityOrder.WithPriority(Begin(w).value.base.queue, v) == PriorityOrder.WithPriority(w.base.actions + w.base.tasks, v)
  {
    var jobs := Legacy.AllJobs(w.base);
    PriorityOrder.ByPrioritySorted(jobs);
    PriorityOrder.ByPriorityPermutes(jobs);
    forall v | 1 <= v <= 5
      ensures PriorityOrder.WithPriority(PriorityOrder.ByPriority(jobs), v) == PriorityOrder.WithPriority(jobs, v)
    {
      PriorityOrder.ByPriorityStable(jobs, v);
    }
  }

  /** A permutation of a quiet sequence is quiet. */
  lemma QuietPermutation(a: seq<Entry>, b: seq<Entry>)
    requires multiset(a) == multiset(b) && Legacy.Quiet(a)
    ensures Legacy.Quiet(b)
  {
    forall k | 0 <= k < |b|
      ensures !Legacy.Cancels(b[k])
    {
      assert b[k] in multiset(a);
      var j :| 0 <= j < |a| && a[j] == b[k];
    }
  }

  /** The dispatch order of quiet jobs is quiet. */
  lemma QuietOrder(w: Worker)
    requires Legacy.Quiet(Legacy.AllJobs(w.base))
    ensures Legacy.Quiet(Order(w))
  {
    PriorityOrder.ByPriorityPermutes(Legacy.AllJobs(w.base));
    QuietPermutation(Legacy.AllJobs(w.base), Order(w));
  }

  /** Under the continue policy, with one permit and no job asking for
      cancellation, a run that starts runs every job and fails exactly when
      some job fails, with the failures in dispatch order. One permit, given
      back only in each job's `finally`, runs the jobs one at a time; with
      more, the list fills in completion order. */
  lemma ContinuePolicyOutcome(w: Worker)
    requires Inv(w) && w.base.policy == ContinueRunningPendingJobs && w.maxThreads == 1
    requires Legacy.Quiet(Legacy.AllJobs(w.base)) && Begin(w).Ok?
    ensures RunAsync(w).Finished?
    ensures var fs := Legacy.Failures(Order(w));
            RunAsync(w).result == if fs == [] then Ok(()) else Err(Aggregate(fs))
  {
    var s := Begin(w).value;
    QuietOrder(w);
    Legacy.ContinuePolicyRecordsAll(s.base);
    var d := Pump(s).value;
    assert d.base.errors == Legacy.Failures(Order(w));
    assert RunAsync(w) == Batch.Finished(End(d).0, End(d).1);
  }

  /** Under the continue policy, with at least one permit and no job asking
      for cancellation, once every job of a run is dispatched `Progress` is
      100 exactly when no job failed. */
  lemma ContinuePolicyProgress(w: Worker)
    requires Inv(w) && w.base.policy == ContinueRunningPendingJobs && w.maxThreads >= 1
    requires Legacy.Quiet(Legacy.AllJobs(w.base)) && Begin(w).Ok?
    ensures Pump(Begin(w).value).Some?
    ensures Progress(Pump(Begin(w).value).value) == Ok(100) <==> Legacy.Failures(Order(w)) == []
  {
    var s := Begin(w).value;
    QuietOrder(w);
    assert |Order(w)| == w.base.total by {
      PriorityOrder.ByPriorityPermutes(Legacy.AllJobs(w.base));
      assert |Order(w)| == |multiset(Order(w))|;
    }
    Legacy.ContinuePolicyCompletesRest(s.base);
    var d := Pump(s).value;
    assert d.base.completed == w.base.total - |Legacy.Failures(Order(w))|;
  }

  /** Under the cancel policy, with at most one permit, a run that fails
      reports exactly one exception: the first failure cancels the run and
      the rest are skipped. With more permits, jobs already running when the
      cancel lands may fail too. */
  lemma CancelPolicyOneFailure(w: Worker)
    requires Inv(w) && w.base.policy == CancelPendingJobs && w.maxThreads <= 1
    ensures RunAsync(w).Finished? && RunAsync(w).result.Err? ==>
              exists e :: RunAsync(w).result.error == Aggregate([e])
  {
    if Begin(w).Ok? && w.maxThreads >= 1 {
      var s := Begin(w).value;
      Legacy.CancelPolicyRecordsAtMostOne(s.base);
      var es := Legacy.Pump(s.base).errors;
      if es != [] {
        assert es == [es[0]];
      }
    }
  }
}
