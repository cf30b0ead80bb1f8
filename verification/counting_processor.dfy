/** The counting job processor (`NeedleJobProcessor`): a decorator over the
    job processor that counts accepted submissions, successful jobs and
    faulted jobs.

    The decorator wraps every job so that the success counter is bumped when
    the job body returns, and subscribes, in its constructor and therefore
    before any other subscriber, to the processor's fault notification, which
    bumps the fault counter. The total is bumped before the job reaches the
    channel, so a submission the channel drops or a clear discards is counted
    without ever running. */
module CountingProcessor {
  import opened Jobs
  import opened Phases
  import Gate
  import Pool
  import JobProcessor

  datatype Counting = Counting(
    base: JobProcessor.Processor,
    total: nat,
    success: nat,
    faulted: nat,
    statusNotices: nat)

  /** The counters mirror the base processor's history: every successful run
      and every fault is counted once, and every job that reached the channel
      was counted as submitted. */
  ghost predicate Inv(c: Counting) {
    && JobProcessor.Inv(c.base)
    && c.success == |c.base.pool.succeeded|
    && c.faulted == |c.base.pool.failed|
    && |c.base.pool.submitted| <= c.total
  }

  /** A new counting processor over a freshly constructed processor. */
  function Create(size: int, policy: Policy, gate: Gate.Event): (r: Result<Counting>)
    requires Gate.Valid(gate)
    ensures r.Err? <==> size < 0
    ensures r.Err? ==> r.error == Overflow
    ensures r.Ok? ==> Inv(r.value) && r.value.total == 0 && r.value.success == 0 && r.value.faulted == 0
    ensures r.Ok? ==> r.value.base.size == size && JobProcessor.Status(r.value.base) == Stopped
  {
    match JobProcessor.Create(size, policy, gate)
    case Err(e) => Err(e)
    case Ok(p) => Ok(Counting(p, 0, 0, 0, 0))
  }

  /** Submits a job. The decorator repeats the disposal and null checks of
      the base processor and counts the job before handing it on, so a job
      submitted after the processor stopped is counted but never runs. */
  function ProcessJob(c: Counting, job: Job): (r: Result<Counting>)
    requires Inv(c)
    ensures r.Err? <==> c.base.disposed || job.Null?
    ensures c.base.disposed ==> r == Err(ObjectDisposed)
    ensures !c.base.disposed && job.Null? ==> r == Err(ArgumentNull)
    ensures r.Ok? ==> Inv(r.value)
    ensures r.Ok? ==> r.value.total == c.total + 1 && r.value.success == c.success && r.value.faulted == c.faulted
    ensures r.Ok? ==> Ok(r.value.base) == JobProcessor.ProcessJob(c.base, job)
  {
    if c.base.disposed then Err(ObjectDisposed)
    else if job.Null? then Err(ArgumentNull)
    else
      var b := JobProcessor.ProcessJob(c.base, job);
      Ok(c.(base := b.value, total := c.total + 1))
  }

  /** Starts the base processor; a status change is announced only when the
      base call did not throw. */
  function Start(c: Counting): (r: Result<Counting>)
    requires Inv(c)
    ensures JobProcessor.Start(c.base).Err? ==> r == Err(JobProcessor.Start(c.base).error)
    ensures r.Ok? ==> Inv(r.value) && r.value.base == JobProcessor.Start(c.base).value
    ensures r.Ok? ==> r.value == c.(base := r.value.base, statusNotices := c.statusNotices + 1)
  {
    match JobProcessor.Start(c.base)
    case Err(e) => Err(e)
    case Ok(b) => Ok(c.(base := b, statusNotices := c.statusNotices + 1))
  }

  /** Pauses the base processor; a status change is announced only on success. */
  function Pause(c: Counting): (r: Result<Counting>)
    requires Inv(c)
    ensures JobProcessor.Pause(c.base).Err? ==> r == Err(JobProcessor.Pause(c.base).error)
    ensures r.Ok? ==> Inv(r.value) && r.value.base == JobProcessor.Pause(c.base).value
    ensures r.Ok? ==> r.value == c.(base := r.value.base, statusNotices := c.statusNotices + 1)
  {
    match JobProcessor.Pause(c.base)
    case Err(e) => Err(e)
    case Ok(b) => Ok(c.(base := b, statusNotices := c.statusNotices + 1))
  }

  /** Resumes the base processor; a status change is announced only on success. */
  function Resume(c: Counting): (r: Result<Counting>)
    requires Inv(c)
    ensures JobProcessor.Resume(c.base).Err? ==> r == Err(JobProcessor.Resume(c.base).error)
    ensures r.Ok? ==> Inv(r.value) && r.value.base == JobProcessor.Resume(c.base).value
    ensures r.Ok? ==> r.value == c.(base := r.value.base, statusNotices := c.statusNotices + 1)
  {
    match JobProcessor.Resume(c.base)
    case Err(e) => Err(e)
    case Ok(b) => Ok(c.(base := b, statusNotices := c.statusNotices + 1))
  }

  /** One step of worker `i` of the base processor. A job that returns bumps
      the success counter from inside its wrapper; a job that throws bumps the
      fault counter from the first fault subscriber, whatever the later
      subscribers do. */
  function Step(c: Counting, i: nat, handlerThrows: bool): (r: Option<Counting>)
    requires Inv(c) && i < c.base.size
    ensures r.None? <==> JobProcessor.Step(c.base, i, handlerThrows).None?
    ensures r.Some? ==> Inv(r.value) && r.value.base == JobProcessor.Step(c.base, i, handlerThrows).value
    ensures r.Some? ==> r.value.total == c.total
    ensures r.Some? && c.base.pool.workers[i].Executing? ==>
              if Faults(c.base.pool.workers[i].job)
              then r.value.faulted == c.faulted + 1 && r.value.success == c.success
              else r.value.success == c.success + 1 && r.value.faulted == c.faulted
    ensures r.Some? && !c.base.pool.workers[i].Executing? ==>
              r.value.success == c.success && r.value.faulted == c.faulted
  {
    match JobProcessor.Step(c.base, i, handlerThrows)
    case None => None
    case Some(b) =>
      var ph := c.base.pool.workers[i];
      if ph.Executing? && Faults(ph.job) then Some(c.(base := b, faulted := c.faulted + 1))
      else if ph.Executing? then Some(c.(base := b, success := c.success + 1))
      else Some(c.(base := b))
  }

  /** Disposes the base processor, which runs the in-flight jobs to the end
      while the fault subscription is still attached, then detaches it. */
  function Dispose(c: Counting): (r: Counting)
    requires Inv(c)
    ensures Inv(r) && r.base == JobProcessor.Dispose(c.base) && r.total == c.total
    ensures r.success + r.faulted == c.success + c.faulted + |InFlight(c.base.pool.workers)|
  {
    var b := JobProcessor.Dispose(c.base);
    JobProcessor.DisposeCountsInFlightJobs(c.base);
    c.(base := b, success := |b.pool.succeeded|, faulted := |b.pool.failed|)
  }

  /** The counters never claim more finished jobs than were submitted. */
  lemma CountsNeverExceedTotal(c: Counting)
    requires Inv(c)
    ensures c.success + c.faulted <= c.total
  {
    Pool.ExecutedAtMostOnce(c.base.pool);
    var done := Pool.Done(c.base.pool);
    assert |done| == c.success + c.faulted;
    assert |done| <= |multiset(c.base.pool.submitted)|;
  }

  /** A submission accepted after the processor stopped is counted, but the
      channel does not hold it, so the counters can never catch up with it. */
  lemma DroppedSubmissionIsCounted(c: Counting, j: Job)
    requires Inv(c) && c.base.stopped && !c.base.disposed && !j.Null?
    ensures ProcessJob(c, j).Ok?
    ensures ProcessJob(c, j).value.total == c.total + 1
    ensures ProcessJob(c, j).value.base == c.base
    ensures ProcessJob(c, j).value.success + ProcessJob(c, j).value.faulted < ProcessJob(c, j).value.total
  {
    CountsNeverExceedTotal(c);
  }

  /** A throwing fault handler neither loses nor duplicates a fault count. */
  lemma FaultCountedWhateverHandlersDo(c: Counting, i: nat)
    requires Inv(c) && i < c.base.size && c.base.pool.workers[i].Executing?
    requires Faults(c.base.pool.workers[i].job)
    ensures Step(c, i, true) == Step(c, i, false)
    ensures Step(c, i, true).Some? && Step(c, i, true).value.faulted == c.faulted + 1
  {
    JobProcessor.FaultKeepsLoopAlive(c.base, i);
  }
}
