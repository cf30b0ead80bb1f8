/** The long-running job processor (`JobProcessorSlim`): an unbounded FIFO
    channel drained by a fixed pool of worker loops behind a pause gate.

    The processor state is immutable here; every public operation is a
    function from state to `Result<state>`, and the concurrency of the worker
    loops is a nondeterministic choice of which worker takes the next `Step`.
    Each step is one atomic move of one loop between its suspension points. */
module JobProcessor {
  import opened Jobs
  import opened Phases
  import Gate
  import Pool

  datatype Processor = Processor(
    size: nat,
    policy: Policy,
    gate: Gate.Event,
    pool: Pool.Pool,
    writerOpen: bool,
    pending: int,
    started: bool,
    paused: bool,
    stopped: bool,
    canceled: bool,
    disposed: bool)

  /** The processor invariant:
      - the channel accounting holds and there is one slot per worker;
      - the pending counter equals the channel length;
      - worker slots are spawned exactly when the processor has started,
        loops exit only after the stop token fired, and a disposed processor
        has no live loop;
      - a started, unpaused processor has an open gate, a paused one (not
        stopping) a closed gate;
      - stopping completes the writer, empties the channel and fires the token. */
  ghost predicate Inv(p: Processor) {
    && Pool.Valid(p.pool)
    && |p.pool.workers| == p.size
    && p.pending == |p.pool.queue|
    && WorkersAgree(p.pool.workers, p.started, p.canceled, p.disposed)
    && Flags(p)
  }

  /** The phase of each slot agrees with the started, canceled and disposed flags. */
  ghost predicate WorkersAgree(ws: seq<Phase>, started: bool, canceled: bool, disposed: bool) {
    forall k :: 0 <= k < |ws| ==> PhaseAgrees(ws[k], started, canceled, disposed)
  }

  ghost predicate PhaseAgrees(ph: Phase, started: bool, canceled: bool, disposed: bool) {
    && (ph.Unspawned? <==> !started)
    && (ph.Exited? ==> canceled)
    && (disposed ==> !Live(ph))
  }

  /** The gate, the writer and the token agree with the flags. */
  ghost predicate Flags(p: Processor) {
    && Gate.Valid(p.gate)
    && (p.started && !p.paused ==> Gate.IsSet(p.gate))
    && (p.paused && !p.stopped ==> !Gate.IsSet(p.gate))
    && (p.paused ==> p.started || p.stopped)
    && (p.canceled <==> p.stopped)
    && (p.stopped <==> !p.writerOpen)
    && (p.stopped ==> p.pool.queue == [])
    && (p.disposed ==> p.stopped)
  }

  /** Changing one slot to a phase that agrees with the flags keeps the slots agreeing. */
  lemma WorkersAgreeUpdate(ws: seq<Phase>, i: nat, ph: Phase, started: bool, canceled: bool, disposed: bool)
    requires WorkersAgree(ws, started, canceled, disposed) && i < |ws|
    requires PhaseAgrees(ph, started, canceled, disposed)
    ensures WorkersAgree(ws[i := ph], started, canceled, disposed)
  {
  }

  /** The constructor reserves `size` worker slots without starting them; a
      negative size fails the slot array allocation. The gate is supplied by
      the caller. */
  function Create(size: int, policy: Policy, gate: Gate.Event): (r: Result<Processor>)
    requires Gate.Valid(gate)
    ensures r.Err? <==> size < 0
    ensures r.Err? ==> r.error == Overflow
    ensures r.Ok? ==> Inv(r.value) && r.value.size == size && r.value.policy == policy
    ensures r.Ok? ==> Status(r.value) == Stopped && r.value.pool.queue == [] && r.value.pending == 0
    ensures r.Ok? ==> Spawned(r.value.pool.workers) == 0
  {
    if size < 0 then Err(Overflow)
    else
      var c := Pool.Empty(size);
      NoneSpawned(c.workers);
      Ok(Processor(size, policy, gate, c, true, 0, false, false, false, false, false))
  }

  lemma {:induction false} NoneSpawned(ws: seq<Phase>)
    requires forall k :: 0 <= k < |ws| ==> ws[k].Unspawned?
    ensures Spawned(ws) == 0
    decreases |ws|
  {
    if |ws| > 0 {
      NoneSpawned(ws[..|ws| - 1]);
    }
  }

  /** The reported status depends on the started and paused flags only. */
  function Status(p: Processor): (s: Status)
    ensures s == Stopped <==> !p.started
    ensures s == Paused <==> p.started && p.paused
    ensures s == Running <==> p.started && !p.paused
  {
    if !p.started then Stopped else if p.paused then Paused else Running
  }

  /** Submits a job (`Null` is a null delegate). The disposal check comes
      before the null check; a job written to the open channel bumps the
      pending counter; once the writer is completed a submission is dropped
      without an error. */
  function ProcessJob(p: Processor, job: Job): (r: Result<Processor>)
    requires Inv(p)
    ensures r.Err? <==> p.disposed || job.Null?
    ensures p.disposed ==> r == Err(ObjectDisposed)
    ensures !p.disposed && job.Null? ==> r == Err(ArgumentNull)
    ensures r.Ok? ==> Inv(r.value)
    ensures r.Ok? && p.writerOpen ==>
              r.value.pool.queue == p.pool.queue + [job] && r.value.pending == p.pending + 1
              && r.value.pool.submitted == p.pool.submitted + [job]
              && r.value.pool.workers == p.pool.workers && Status(r.value) == Status(p)
    ensures r.Ok? && !p.writerOpen ==> r.value == p
  {
    if p.disposed then Err(ObjectDisposed)
    else if job.Null? then Err(ArgumentNull)
    else if !p.writerOpen then Ok(p)
    else Ok(p.(pool := Pool.Write(p.pool, job), pending := p.pending + 1))
  }

  /** Marks every reserved slot as a running loop, skipping slots already in use. */
  function SpawnAll(ws: seq<Phase>): (ws': seq<Phase>)
    ensures |ws'| == |ws|
    ensures forall k :: 0 <= k < |ws| ==> ws'[k] == (if ws[k].Unspawned? then AtGate else ws[k])
  {
    seq(|ws|, k requires 0 <= k < |ws| => if ws[k].Unspawned? then AtGate else ws[k])
  }

  /** Starts the processor: succeeds once, opens the gate and spawns one loop per slot. */
  function Start(p: Processor): (r: Result<Processor>)
    requires Inv(p)
    ensures r.Ok? <==> !p.disposed && !p.started
    ensures p.disposed ==> r == Err(ObjectDisposed)
    ensures !p.disposed && p.started ==> r == Err(InvalidOperation)
    ensures r.Ok? ==> Inv(r.value) && r.value.started && Gate.IsSet(r.value.gate)
    ensures r.Ok? ==> Spawned(r.value.pool.workers) == p.size
    ensures r.Ok? ==> forall k :: 0 <= k < p.size ==> r.value.pool.workers[k] == AtGate
    ensures r.Ok? ==> r.value.pool.queue == p.pool.queue
    ensures r.Ok? && !p.stopped ==> Status(r.value) == Running
  {
    if p.disposed then Err(ObjectDisposed)
    else if p.started then Err(InvalidOperation)
    else
      var ws := SpawnAll(p.pool.workers);
      InFlightEmpty(p.pool.workers);
      InFlightEmpty(ws);
      SpawnedAll(ws);
      Ok(p.(started := true, gate := Gate.Set(p.gate), pool := p.pool.(workers := ws)))
  }

  /** Pauses a started, running processor by resetting the gate. */
  function Pause(p: Processor): (r: Result<Processor>)
    requires Inv(p)
    ensures r.Ok? <==> !p.disposed && p.started && !p.paused
    ensures p.disposed ==> r == Err(ObjectDisposed)
    ensures !p.disposed && (!p.started || p.paused) ==> r == Err(InvalidOperation)
    ensures r.Ok? ==> Inv(r.value) && Status(r.value) == Paused
    ensures r.Ok? && !p.stopped ==> !Gate.IsSet(r.value.gate)
    ensures r.Ok? ==> r.value.pool == p.pool
  {
    if p.disposed then Err(ObjectDisposed)
    else if !p.started then Err(InvalidOperation)
    else if p.paused then Err(InvalidOperation)
    else Ok(p.(paused := true, gate := Gate.Reset(p.gate)))
  }

  /** Resumes a paused processor by setting the gate. */
  function Resume(p: Processor): (r: Result<Processor>)
    requires Inv(p)
    ensures r.Ok? <==> !p.disposed && p.started && p.paused
    ensures p.disposed ==> r == Err(ObjectDisposed)
    ensures !p.disposed && (!p.started || !p.paused) ==> r == Err(InvalidOperation)
    ensures r.Ok? ==> Inv(r.value) && Status(r.value) == Running && Gate.IsSet(r.value.gate)
    ensures r.Ok? ==> r.value.pool == p.pool
  {
    if p.disposed then Err(ObjectDisposed)
    else if !p.started then Err(InvalidOperation)
    else if !p.paused then Err(InvalidOperation)
    else Ok(p.(paused := false, gate := Gate.Set(p.gate)))
  }

  /** Empties the channel; each discarded job lowers the pending counter. */
  function ClearChannel(p: Processor): (q: Processor)
    requires Inv(p)
    ensures Inv(q) && q.pool.queue == [] && q.pending == 0
    ensures q.pool == Pool.Clear(p.pool)
    ensures q == p.(pool := q.pool, pending := 0)
  {
    p.(pool := Pool.Clear(p.pool), pending := 0)
  }

  /** Stops the processor once: closes the gate, completes the writer, clears
      the channel and fires the stop token. A second call does nothing. */
  function StopInternal(p: Processor): (q: Processor)
    requires Inv(p)
    ensures Inv(q) && q.stopped && q.canceled && !q.writerOpen && q.pool.queue == []
    ensures p.stopped ==> q == p
    ensures !p.stopped ==> q.pool == Pool.Clear(p.pool) && q.paused && !Gate.IsSet(q.gate)
    ensures q.pool.workers == p.pool.workers && q.disposed == p.disposed && q.started == p.started
    ensures q.pool.removed == p.pool.removed + p.pool.queue && q.pool.discarded == p.pool.discarded + p.pool.queue
    ensures Pool.Done(q.pool) == Pool.Done(p.pool)
  {
    if p.stopped then
      assert p.pool.queue == [];
      p
    else
      p.(paused := true, gate := Gate.Reset(p.gate), writerOpen := false,
         pool := Pool.Clear(p.pool), pending := 0, canceled := true, stopped := true)
  }

  /** Moves worker `i` to a phase that holds no job. */
  function MoveTo(p: Processor, i: nat, ph: Phase): (q: Processor)
    requires Inv(p) && i < p.size
    requires !p.pool.workers[i].Executing? && !ph.Executing?
    requires PhaseAgrees(ph, p.started, p.canceled, p.disposed)
    ensures Inv(q)
    ensures q == p.(pool := p.pool.(workers := p.pool.workers[i := ph]))
  {
    WorkersAgreeUpdate(p.pool.workers, i, ph, p.started, p.canceled, p.disposed);
    p.(pool := Pool.Move(p.pool, i, ph))
  }

  /** Worker `i` takes the job at the head of the channel. */
  function Dequeue(p: Processor, i: nat): (q: Processor)
    requires Inv(p) && i < p.size && p.pool.workers[i] == Reading && |p.pool.queue| > 0
    requires !p.disposed
    ensures Inv(q)
    ensures q.pool == Pool.Take(p.pool, i) && q.pending == p.pending - 1
    ensures q == p.(pool := q.pool, pending := p.pending - 1)
  {
    WorkersAgreeUpdate(p.pool.workers, i, Executing(p.pool.queue[0]), p.started, p.canceled, p.disposed);
    p.(pool := Pool.Take(p.pool, i), pending := p.pending - 1)
  }

  /** Worker `i` leaves the job it ran for phase `ph`; the job is recorded as
      succeeded or failed. */
  function Record(p: Processor, i: nat, ph: Phase): (q: Processor)
    requires Inv(p) && i < p.size && p.pool.workers[i].Executing? && !ph.Executing?
    requires PhaseAgrees(ph, p.started, p.canceled, p.disposed)
    ensures Inv(q)
    ensures q == p.(pool := Pool.Finish(p.pool, i, ph))
  {
    WorkersAgreeUpdate(p.pool.workers, i, ph, p.started, p.canceled, p.disposed);
    p.(pool := Pool.Finish(p.pool, i, ph))
  }

  /** Worker `i` finishes its job: a success is recorded; a fault raises
      `JobFaulted` (whose handler exceptions are swallowed) and, under
      `CancelPendingJobs`, clears the channel. Either way the loop goes on. */
  function Complete(p: Processor, i: nat): (q: Processor)
    requires Inv(p) && i < p.size && p.pool.workers[i].Executing?
    ensures Inv(q)
    ensures q.pool.workers == p.pool.workers[i := AtGate] && q.pool.submitted == p.pool.submitted
    ensures Pool.Done(q.pool) == Pool.Done(p.pool) + multiset{p.pool.workers[i].job}
    ensures q.pool.succeeded == p.pool.succeeded + Pool.Outcome(p.pool.workers[i], false)
    ensures q.pool.failed == p.pool.failed + Pool.Outcome(p.pool.workers[i], true)
    ensures Faults(p.pool.workers[i].job) && p.policy == CancelPendingJobs ==>
              q.pool.queue == [] && q.pool.discarded == p.pool.discarded + p.pool.queue
    ensures !(Faults(p.pool.workers[i].job) && p.policy == CancelPendingJobs) ==>
              q.pool.queue == p.pool.queue && q.pool.discarded == p.pool.discarded
    ensures q == p.(pool := q.pool, pending := q.pending)
  {
    var p1 := Record(p, i, AtGate);
    if Faults(p.pool.workers[i].job) && p.policy == CancelPendingJobs then ClearChannel(p1) else p1
  }

  /** One atomic move of worker loop `i`, or `None` when that loop is suspended
      (or not running). `handlerThrows` says whether a `JobFaulted` subscriber
      throws; this processor swallows such exceptions.
      - at the gate: the loop exits if the token fired, passes an open gate,
        and parks on the installed handle of a closed one;
      - parked: it resumes once its handle completed (then re-checks the
        token) or exits when the token fires;
      - reading: it exits on cancellation, takes the head of the channel, exits
        when the channel is completed and empty, and otherwise waits;
      - executing: it finishes the job and returns to the gate; a fault under
        `CancelPendingJobs` also empties the shared channel. */
  function Step(p: Processor, i: nat, handlerThrows: bool): (r: Option<Processor>)
    requires Inv(p) && i < p.size
    ensures r.None? <==> !Live(p.pool.workers[i])
                         || (p.pool.workers[i].Parked? && !p.canceled
                             && !Gate.Released(p.gate, p.pool.workers[i].gen))
                         || (p.pool.workers[i].Reading? && !p.canceled && p.pool.queue == [] && p.writerOpen)
    ensures r.Some? ==> MovedAlone(p, i, r.value)
    ensures r.Some? ==>
              r.value.pool.queue ==
                (if p.pool.workers[i].Executing? && Faults(p.pool.workers[i].job) && p.policy == CancelPendingJobs then []
                 else if p.pool.workers[i].Reading? && !p.canceled && p.pool.queue != [] then p.pool.queue[1..]
                 else p.pool.queue)
  {
    match p.pool.workers[i]
    case Unspawned => None
    case Exited => None
    case AtGate => Some(PassGate(p, i))
    case Parked(_) => Unpark(p, i)
    case Reading => Read(p, i)
    case Executing(_) => CompleteMovesAlone(p, i); Some(Complete(p, i))
  }

  /** Worker `i` alone moved one step from `p` to `q`: the flags, the gate,
      the submissions and the other slots are as they were, and the job it
      was running, if any, is recorded as succeeded or failed. The channel is
      shared, so it is not framed here; `Step` states what a move does to it. */
  ghost predicate MovedAlone(p: Processor, i: nat, q: Processor)
    requires i < |p.pool.workers|
  {
    && Inv(q)
    && q.size == p.size && q.policy == p.policy && q.canceled == p.canceled && q.disposed == p.disposed
    && q.gate == p.gate && q.paused == p.paused && q.writerOpen == p.writerOpen && q.stopped == p.stopped
    && q.pool.submitted == p.pool.submitted && q.started == p.started
    && (forall k :: 0 <= k < |p.pool.workers| && k < |q.pool.workers| && k != i ==> q.pool.workers[k] == p.pool.workers[k])
    && q.pool.succeeded == p.pool.succeeded + Pool.Outcome(p.pool.workers[i], false)
    && q.pool.failed == p.pool.failed + Pool.Outcome(p.pool.workers[i], true)
  }

  /** Moving an idle worker moves it alone. */
  lemma MoveToMovesAlone(p: Processor, i: nat, ph: Phase)
    requires Inv(p) && i < p.size
    requires !p.pool.workers[i].Executing? && !ph.Executing?
    requires PhaseAgrees(ph, p.started, p.canceled, p.disposed)
    ensures MovedAlone(p, i, MoveTo(p, i, ph)) && MoveTo(p, i, ph).pool.workers[i] == ph
  {
    var q := MoveTo(p, i, ph);
    assert Pool.Outcome(p.pool.workers[i], false) == [] && Pool.Outcome(p.pool.workers[i], true) == [];
    assert q.pool.succeeded + [] == q.pool.succeeded && q.pool.failed + [] == q.pool.failed;
  }

  /** Taking the head of the channel moves the reader alone. */
  lemma DequeueMovesAlone(p: Processor, i: nat)
    requires Inv(p) && i < p.size && p.pool.workers[i] == Reading && |p.pool.queue| > 0
    requires !p.disposed
    ensures MovedAlone(p, i, Dequeue(p, i)) && Dequeue(p, i).pool.workers[i] == Executing(p.pool.queue[0])
  {
    var q := Dequeue(p, i);
    assert Pool.Outcome(p.pool.workers[i], false) == [] && Pool.Outcome(p.pool.workers[i], true) == [];
    assert q.pool.succeeded + [] == q.pool.succeeded && q.pool.failed + [] == q.pool.failed;
  }

  /** Finishing a job moves its worker alone, back to the gate. */
  lemma CompleteMovesAlone(p: Processor, i: nat)
    requires Inv(p) && i < p.size && p.pool.workers[i].Executing?
    ensures MovedAlone(p, i, Complete(p, i)) && Complete(p, i).pool.workers[i] == AtGate
  {
  }

  /** A loop at the gate: it exits if the token fired, passes an open gate,
      and parks on the installed handle of a closed one. */
  function PassGate(p: Processor, i: nat): (q: Processor)
    requires Inv(p) && i < p.size && p.pool.workers[i] == AtGate
    ensures MovedAlone(p, i, q)
    ensures q.pool.workers[i].Exited? <==> p.canceled
    ensures q.pool.workers[i] == Reading <==> !p.canceled && Gate.IsSet(p.gate)
  {
    match Gate.WaitAsync(p.gate, p.canceled)
    case WaitCanceled => MoveToMovesAlone(p, i, Exited); MoveTo(p, i, Exited)
    case WaitCompleted => MoveToMovesAlone(p, i, Reading); MoveTo(p, i, Reading)
    case WaitPending(g) => MoveToMovesAlone(p, i, Parked(g)); MoveTo(p, i, Parked(g))
  }

  /** A parked loop: it resumes once its handle completed (then re-checks
      the token) or exits when the token fires; otherwise it stays parked. */
  function Unpark(p: Processor, i: nat): (r: Option<Processor>)
    requires Inv(p) && i < p.size && p.pool.workers[i].Parked?
    ensures r.None? <==> !p.canceled && !Gate.Released(p.gate, p.pool.workers[i].gen)
    ensures r.Some? ==> MovedAlone(p, i, r.value) && r.value.pool.workers[i] == (if p.canceled then Exited else Reading)
  {
    match Gate.Observe(p.gate, Gate.WaitPending(p.pool.workers[i].gen), p.canceled)
    case WaitPending(_) => None
    case WaitCanceled => MoveToMovesAlone(p, i, Exited); Some(MoveTo(p, i, Exited))
    case WaitCompleted =>
      var ph := if p.canceled then Exited else Reading;
      MoveToMovesAlone(p, i, ph); Some(MoveTo(p, i, ph))
  }

  /** A reading loop: it exits on cancellation or on a completed, empty
      channel, takes the head of a non-empty one, and otherwise waits. */
  function Read(p: Processor, i: nat): (r: Option<Processor>)
    requires Inv(p) && i < p.size && p.pool.workers[i] == Reading
    ensures r.None? <==> !p.canceled && p.pool.queue == [] && p.writerOpen
    ensures r.Some? ==> MovedAlone(p, i, r.value)
    ensures r.Some? && !p.canceled && p.pool.queue != [] ==> r.value.pool.workers[i] == Executing(p.pool.queue[0])
    ensures r.Some? && (p.canceled || p.pool.queue == []) ==> r.value.pool.workers[i] == Exited
  {
    if p.canceled || (|p.pool.queue| == 0 && !p.writerOpen) then
      MoveToMovesAlone(p, i, Exited); Some(MoveTo(p, i, Exited))
    else if |p.pool.queue| > 0 then DequeueMovesAlone(p, i); Some(Dequeue(p, i))
    else None
  }

  /** Lets worker `k` of a stopping processor run to its end: a running job
      finishes (the channel is already empty, so a fault has nothing left to
      clear), then the loop exits. */
  function Settle(p: Processor, k: nat): (q: Processor)
    requires Inv(p) && p.canceled && k < p.size
    ensures q.size == p.size && Inv(q) && q.canceled && q.disposed == p.disposed
    ensures q.pool.workers == p.pool.workers[k := if Live(p.pool.workers[k]) then Exited else p.pool.workers[k]]
    ensures q.pool.queue == p.pool.queue && q.pool.submitted == p.pool.submitted
    ensures q.pool.removed == p.pool.removed && q.pool.discarded == p.pool.discarded
    ensures !Live(p.pool.workers[k]) ==> q == p
  {
    if !Live(p.pool.workers[k]) then p
    else if p.pool.workers[k].Executing? then Record(p, k, Exited)
    else MoveTo(p, k, Exited)
  }

  /** Settles workers `k..size-1`. */
  function Drain(p: Processor, k: nat): (q: Processor)
    requires Inv(p) && p.canceled && k <= p.size
    ensures q.size == p.size && Inv(q) && q.canceled && q.disposed == p.disposed
    ensures forall m :: k <= m < p.size ==> !Live(q.pool.workers[m])
    ensures forall m :: 0 <= m < k ==> q.pool.workers[m] == p.pool.workers[m]
    ensures q.pool.queue == p.pool.queue && q.pool.submitted == p.pool.submitted
    ensures q.pool.removed == p.pool.removed && q.pool.discarded == p.pool.discarded
    ensures (forall m :: k <= m < p.size ==> !Live(p.pool.workers[m])) ==> q == p
    decreases p.size - k
  {
    if k == p.size then p else Drain(Settle(p, k), k + 1)
  }

  /** `Dispose`: a disposed processor is left alone; otherwise stop, wait for
      every started loop to finish (in-flight jobs complete), then mark disposed. */
  function Dispose(p: Processor): (q: Processor)
    requires Inv(p)
    ensures Inv(q) && q.disposed && q.stopped && q.pool.queue == [] && q.pending == 0
    ensures forall k :: 0 <= k < q.size ==> !Live(q.pool.workers[k])
    ensures p.disposed ==> q == p
    ensures q.pool.submitted == p.pool.submitted
  {
    if p.disposed then p
    else Drain(StopInternal(p), 0).(disposed := true)
  }

  /** `DisposeAsync` does not look at the disposed flag first; it relies on
      the stop being idempotent. */
  function DisposeAsync(p: Processor): (q: Processor)
    requires Inv(p)
    ensures Inv(q) && q.disposed
  {
    Drain(StopInternal(p), 0).(disposed := true)
  }

  // ---------------------------------------------------------------------
  // Properties

  /** Both disposal paths end in the same state, and a second disposal of
      either kind changes nothing. */
  lemma DisposeAsyncAgreesWithDispose(p: Processor)
    requires Inv(p)
    ensures DisposeAsync(p) == Dispose(p)
    ensures Dispose(Dispose(p)) == Dispose(p)
    ensures DisposeAsync(Dispose(p)) == Dispose(p)
  {
  }

  /** Disposal waits for in-flight jobs: the jobs that have run afterwards are
      the ones that had run plus the ones that were running, and everything
      still queued is discarded. */
  lemma DisposeRunsInFlightJobs(p: Processor)
    requires Inv(p) && !p.disposed
    ensures Pool.Done(Dispose(p).pool) == Pool.Done(p.pool) + InFlight(p.pool.workers)
    ensures Dispose(p).pool.discarded == p.pool.discarded + p.pool.queue
  {
    var q := Dispose(p);
    Pool.SettledAccount(p.pool, q.pool, p.pool.queue);
    var d, before := Pool.Done(q.pool), Pool.Done(p.pool) + InFlight(p.pool.workers);
    assert d == before + (multiset(p.pool.queue) - multiset(p.pool.queue));
    forall x
      ensures d[x] == before[x]
    {
    }
  }

  /** Disposal adds exactly the in-flight jobs to the number of jobs that have run. */
  lemma DisposeCountsInFlightJobs(p: Processor)
    requires Inv(p)
    ensures |Pool.Done(Dispose(p).pool)| == |Pool.Done(p.pool)| + |InFlight(p.pool.workers)|
  {
    if p.disposed {
      InFlightEmpty(p.pool.workers);
    } else {
      DisposeRunsInFlightJobs(p);
    }
  }

  /** After disposal every operation except disposal itself throws `ObjectDisposed`. */
  lemma DisposedRejectsEverything(p: Processor, job: Job)
    requires Inv(p)
    ensures ProcessJob(Dispose(p), job) == Err(ObjectDisposed)
    ensures Start(Dispose(p)) == Err(ObjectDisposed)
    ensures Pause(Dispose(p)) == Err(ObjectDisposed)
    ensures Resume(Dispose(p)) == Err(ObjectDisposed)
  {
  }

  /** Between the stop and the end of disposal, submissions are dropped silently. */
  lemma SubmissionAfterStopIsDropped(p: Processor, j: Job)
    requires Inv(p) && !p.disposed && !j.Null?
    ensures ProcessJob(StopInternal(p), j) == Ok(StopInternal(p))
    ensures StopInternal(StopInternal(p)) == StopInternal(p)
  {
  }

  /** The status lifecycle: Stopped, then Running after `Start`, Paused after
      `Pause`, Running again after `Resume`; the guards reject every other order. */
  lemma StatusLifecycle(p: Processor)
    requires Inv(p) && !p.disposed && !p.started && !p.stopped
    ensures Start(p).Ok? && Status(Start(p).value) == Running
    ensures Pause(Start(p).value).Ok? && Status(Pause(Start(p).value).value) == Paused
    ensures Resume(Pause(Start(p).value).value).Ok?
    ensures Status(Resume(Pause(Start(p).value).value).value) == Running
    ensures Start(Start(p).value) == Err(InvalidOperation)
    ensures Resume(Start(p).value) == Err(InvalidOperation)
    ensures Pause(Pause(Start(p).value).value) == Err(InvalidOperation)
    ensures Pause(p) == Err(InvalidOperation) && Resume(p) == Err(InvalidOperation)
  {
  }

  /** A loop reading from the channel takes its head, whether or not the processor is paused. */
  lemma ReaderTakesHead(p: Processor, i: nat, handlerThrows: bool)
    requires Inv(p) && i < p.size && p.pool.workers[i] == Reading && !p.canceled && |p.pool.queue| > 0
    ensures Step(p, i, handlerThrows).Some?
    ensures var q := Step(p, i, handlerThrows).value;
            q.pool.workers[i] == Executing(p.pool.queue[0]) && q.pool.queue == p.pool.queue[1..]
            && q.paused == p.paused && q.pending == p.pending - 1
  {
  }

  /** On a paused processor a loop at the gate parks instead of reading, and a
      loop parked on the installed handle stays suspended until `Resume`. */
  lemma PausedLoopStopsAtGate(p: Processor, i: nat, handlerThrows: bool)
    requires Inv(p) && i < p.size && p.paused && !p.stopped && p.pool.workers[i] == AtGate
    ensures Step(p, i, handlerThrows).Some?
    ensures var q := Step(p, i, handlerThrows).value;
            q.pool.workers[i] == Parked(Gate.Current(p.gate)) && q.pool.queue == p.pool.queue
            && Step(q, i, handlerThrows).None?
            && Resume(q).Ok? && Step(Resume(q).value, i, handlerThrows).Some?
            && Step(Resume(q).value, i, handlerThrows).value.pool.workers[i] == Reading
  {
    var q := Step(p, i, handlerThrows).value;
    assert !Gate.Released(q.gate, Gate.Current(p.gate));
  }

  /** A job that was dequeued before `Pause` still runs to completion. */
  lemma DequeuedJobSurvivesPause(p: Processor, i: nat, handlerThrows: bool)
    requires Inv(p) && i < p.size && p.pool.workers[i].Executing? && Pause(p).Ok?
    ensures var q := Pause(p).value;
            Step(q, i, handlerThrows).Some?
            && Pool.Done(Step(q, i, handlerThrows).value.pool) == Pool.Done(p.pool) + multiset{p.pool.workers[i].job}
  {
  }

  /** A faulted job never ends its loop; under `CancelPendingJobs` the channel
      is emptied, under `ContinueRunningPendingJobs` it is left as it was.
      Whether a fault handler throws makes no difference. */
  lemma FaultKeepsLoopAlive(p: Processor, i: nat)
    requires Inv(p) && i < p.size && p.pool.workers[i].Executing? && Faults(p.pool.workers[i].job)
    ensures Step(p, i, true) == Step(p, i, false)
    ensures Step(p, i, false).Some? && Step(p, i, false).value.pool.workers[i] == AtGate
    ensures p.policy == CancelPendingJobs ==>
              Step(p, i, false).value.pool.queue == [] && Step(p, i, false).value.pending == 0
    ensures p.policy == ContinueRunningPendingJobs ==> Step(p, i, false).value.pool.queue == p.pool.queue
  {
  }
}
