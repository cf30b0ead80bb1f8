/** The older job processor (`Implementation/NeedleJobProcessorSlim`): the same
    channel-and-workers design as `JobProcessor`, with these differences:
    - the pause gate is private and starts closed;
    - a null job is accepted, and it faults when a worker invokes it;
    - there is no pending counter and the writer is never completed, so the
      stop does not turn later submissions away;
    - the stop is not guarded against running twice;
    - an exception thrown by a `JobFaulted` subscriber escapes the worker loop,
      which then ends without clearing the channel. */
module LegacyProcessor {
  import opened Jobs
  import opened Phases
  import Gate
  import Pool

  datatype Processor = Processor(
    size: nat,
    policy: Policy,
    gate: Gate.Event,
    pool: Pool.Pool,
    started: bool,
    paused: bool,
    canceled: bool,
    disposed: bool)

  /** The processor invariant: the channel accounting holds; slots are spawned
      exactly when the processor has started and a disposed processor has no
      live loop; the gate agrees with the paused flag until the token fires;
      disposal fires the token. A loop may end before the token fires. */
  ghost predicate Inv(p: Processor) {
    && Pool.Valid(p.pool)
    && |p.pool.workers| == p.size
    && WorkersAgree(p.pool.workers, p.started, p.disposed)
    && Gate.Valid(p.gate)
    && (p.started && !p.paused ==> Gate.IsSet(p.gate))
    && (p.paused && !p.canceled ==> !Gate.IsSet(p.gate))
    && (p.paused ==> p.started || p.canceled)
    && (p.disposed ==> p.canceled && p.pool.queue == [])
  }

  ghost predicate WorkersAgree(ws: seq<Phase>, started: bool, disposed: bool) {
    forall k :: 0 <= k < |ws| ==> PhaseAgrees(ws[k], started, disposed)
  }

  ghost predicate PhaseAgrees(ph: Phase, started: bool, disposed: bool) {
    && (ph.Unspawned? <==> !started)
    && (disposed ==> !Live(ph))
  }

  lemma WorkersAgreeUpdate(ws: seq<Phase>, i: nat, ph: Phase, started: bool, disposed: bool)
    requires WorkersAgree(ws, started, disposed) && i < |ws|
    requires PhaseAgrees(ph, started, disposed)
    ensures WorkersAgree(ws[i := ph], started, disposed)
  {
  }

  /** The constructor reserves the slots and creates a closed gate; a negative
      size fails the slot array allocation. */
  function Create(size: int, policy: Policy): (r: Result<Processor>)
    ensures r.Err? <==> size < 0
    ensures r.Err? ==> r.error == Overflow
    ensures r.Ok? ==> Inv(r.value) && r.value.size == size && r.value.policy == policy
    ensures r.Ok? ==> !Gate.IsSet(r.value.gate) && !r.value.started && r.value.pool.queue == []
  {
    if size < 0 then Err(Overflow)
    else Ok(Processor(size, policy, Gate.Create(false), Pool.Empty(size), false, false, false, false))
  }

  /** Submits a job. Only disposal is checked: a null job is written like any
      other, and a job written after the stop stays in the channel. */
  function ProcessJob(p: Processor, job: Job): (r: Result<Processor>)
    requires Inv(p)
    ensures r.Err? <==> p.disposed
    ensures r.Err? ==> r.error == ObjectDisposed
    ensures r.Ok? ==> Inv(r.value) && r.value.pool.queue == p.pool.queue + [job]
    ensures r.Ok? ==> r.value.pool.submitted == p.pool.submitted + [job]
    ensures r.Ok? ==> r.value == p.(pool := r.value.pool)
  {
    if p.disposed then Err(ObjectDisposed)
    else Ok(p.(pool := Pool.Write(p.pool, job)))
  }

  function SpawnAll(ws: seq<Phase>): (ws': seq<Phase>)
    ensures |ws'| == |ws|
    ensures forall k :: 0 <= k < |ws| ==> ws'[k] == (if ws[k].Unspawned? then AtGate else ws[k])
  {
    seq(|ws|, k requires 0 <= k < |ws| => if ws[k].Unspawned? then AtGate else ws[k])
  }

  /** Starts the processor once: clears the paused flag, opens the gate and
      spawns the loops. */
  function Start(p: Processor): (r: Result<Processor>)
    requires Inv(p)
    ensures r.Ok? <==> !p.disposed && !p.started
    ensures p.disposed ==> r == Err(ObjectDisposed)
    ensures !p.disposed && p.started ==> r == Err(InvalidOperation)
    ensures r.Ok? ==> r.value.size == p.size
    ensures r.Ok? ==> Inv(r.value) && r.value.started && !r.value.paused && Gate.IsSet(r.value.gate)
    ensures r.Ok? ==> forall k :: 0 <= k < p.size ==> r.value.pool.workers[k] == AtGate
  {
    if p.disposed then Err(ObjectDisposed)
    else if p.started then Err(InvalidOperation)
    else
      var ws := SpawnAll(p.pool.workers);
      InFlightEmpty(p.pool.workers);
      InFlightEmpty(ws);
      Ok(p.(started := true, paused := false, gate := Gate.Set(p.gate), pool := p.pool.(workers := ws)))
  }

  /** Pauses a started, running processor by resetting the gate. */
  function Pause(p: Processor): (r: Result<Processor>)
    requires Inv(p)
    ensures r.Ok? <==> !p.disposed && p.started && !p.paused
    ensures p.disposed ==> r == Err(ObjectDisposed)
    ensures !p.disposed && (!p.started || p.paused) ==> r == Err(InvalidOperation)
    ensures r.Ok? ==> Inv(r.value) && r.value.paused && r.value.pool == p.pool
    ensures r.Ok? && !p.canceled ==> !Gate.IsSet(r.value.gate)
  {
    if p.disposed then Err(ObjectDisposed)
    else if !p.started then Err(InvalidOperation)
    else if p.paused then Err(InvalidOperation)
    else Ok(p.(paused := true, gate := Gate.Reset(p.gate)))
  }

  /** Resumes a paused processor by setting the gate. */
  function Resume(p: Processor): (r: Result<Processor>)
    requires Inv(p)
    ensures r.Ok? <==> !p.disposed && p.started && p.paused
    ensures p.disposed ==> r == Err(ObjectDisposed)
    ensures !p.disposed && (!p.started || !p.paused) ==> r == Err(InvalidOperation)
    ensures r.Ok? ==> Inv(r.value) && !r.value.paused && Gate.IsSet(r.value.gate) && r.value.pool == p.pool
  {
    if p.disposed then Err(ObjectDisposed)
    else if !p.started then Err(InvalidOperation)
    else if !p.paused then Err(InvalidOperation)
    else Ok(p.(paused := false, gate := Gate.Set(p.gate)))
  }

  /** Stops the processor: pauses, clears the channel and fires the token. */
  function StopInternal(p: Processor): (q: Processor)
    requires Inv(p)
    ensures Inv(q) && q.canceled && q.paused && !Gate.IsSet(q.gate)
    ensures q.pool == Pool.Clear(p.pool)
    ensures q.disposed == p.disposed && q.started == p.started && q.size == p.size
  {
    p.(paused := true, gate := Gate.Reset(p.gate), pool := Pool.Clear(p.pool), canceled := true)
  }

  function MoveTo(p: Processor, i: nat, ph: Phase): (q: Processor)
    requires Inv(p) && i < p.size
    requires !p.pool.workers[i].Executing? && !ph.Executing?
    requires PhaseAgrees(ph, p.started, p.disposed)
    ensures Inv(q)
    ensures q == p.(pool := p.pool.(workers := p.pool.workers[i := ph]))
  {
    WorkersAgreeUpdate(p.pool.workers, i, ph, p.started, p.disposed);
    p.(pool := Pool.Move(p.pool, i, ph))
  }

  function Dequeue(p: Processor, i: nat): (q: Processor)
    requires Inv(p) && i < p.size && p.pool.workers[i] == Reading && |p.pool.queue| > 0
    requires !p.disposed
    ensures Inv(q)
    ensures q == p.(pool := Pool.Take(p.pool, i))
  {
    WorkersAgreeUpdate(p.pool.workers, i, Executing(p.pool.queue[0]), p.started, p.disposed);
    p.(pool := Pool.Take(p.pool, i))
  }

  function Record(p: Processor, i: nat, ph: Phase): (q: Processor)
    requires Inv(p) && i < p.size && p.pool.workers[i].Executing? && !ph.Executing?
    requires PhaseAgrees(ph, p.started, p.disposed)
    ensures Inv(q)
    ensures q == p.(pool := Pool.Finish(p.pool, i, ph))
  {
    WorkersAgreeUpdate(p.pool.workers, i, ph, p.started, p.disposed);
    p.(pool := Pool.Finish(p.pool, i, ph))
  }

  /** Worker `i` finishes its job. A fault raises `JobFaulted`; when a
      subscriber throws, the exception ends the loop before the clear,
      otherwise `CancelPendingJobs` clears the channel and the loop goes on. */
  function Complete(p: Processor, i: nat, handlerThrows: bool): (q: Processor)
    requires Inv(p) && i < p.size && p.pool.workers[i].Executing?
    ensures Inv(q)
    ensures Pool.Done(q.pool) == Pool.Done(p.pool) + multiset{p.pool.workers[i].job}
    ensures q.pool.workers == p.pool.workers[i := if Faults(p.pool.workers[i].job) && handlerThrows then Exited else AtGate]
    ensures q.pool.succeeded == p.pool.succeeded + Pool.Outcome(p.pool.workers[i], false)
    ensures q.pool.failed == p.pool.failed + Pool.Outcome(p.pool.workers[i], true)
    ensures Faults(p.pool.workers[i].job) && !handlerThrows && p.policy == CancelPendingJobs ==>
              q.pool.queue == [] && q.pool.discarded == p.pool.discarded + p.pool.queue
    ensures !(Faults(p.pool.workers[i].job) && !handlerThrows && p.policy == CancelPendingJobs) ==>
              q.pool.queue == p.pool.queue
    ensures q == p.(pool := q.pool)
  {
    var j := p.pool.workers[i].job;
    if Faults(j) && handlerThrows then Record(p, i, Exited)
    else
      var p1 := Record(p, i, AtGate);
      if Faults(j) && p.policy == CancelPendingJobs then p1.(pool := Pool.Clear(p1.pool)) else p1
  }

  /** One atomic move of worker loop `i`, or `None` when it is suspended or not
      running. The channel is never completed, so a reading loop ends only on
      cancellation. The move leaves the flags, the gate and the other loops as
      they were; the shared channel loses its head when the loop takes a job,
      and is emptied when a fault under `CancelPendingJobs` reaches the clear. */
  function Step(p: Processor, i: nat, handlerThrows: bool): (r: Option<Processor>)
    requires Inv(p) && i < p.size
    ensures r.Some? ==> Inv(r.value)
    ensures r.Some? ==> r.value.size == p.size && r.value.canceled == p.canceled && r.value.disposed == p.disposed
    ensures r.Some? ==> r.value.policy == p.policy && r.value.gate == p.gate
                        && r.value.paused == p.paused && r.value.started == p.started
    ensures r.Some? ==> forall k :: 0 <= k < p.size && k != i ==> r.value.pool.workers[k] == p.pool.workers[k]
    ensures r.Some? ==>
              r.value.pool.queue ==
                (if p.pool.workers[i].Executing? && Faults(p.pool.workers[i].job) && !handlerThrows
                    && p.policy == CancelPendingJobs then []
                 else if p.pool.workers[i].Reading? && !p.canceled && p.pool.queue != [] then p.pool.queue[1..]
                 else p.pool.queue)
    ensures r.None? <==> !Live(p.pool.workers[i])
                         || (p.pool.workers[i].Parked? && !p.canceled
                             && !Gate.Released(p.gate, p.pool.workers[i].gen))
                         || (p.pool.workers[i].Reading? && !p.canceled && p.pool.queue == [])
  {
    match p.pool.workers[i]
    case Unspawned => None
    case Exited => None
    case AtGate => Wait(p, i)
    case Parked(_) => Wait(p, i)
    case Reading =>
      if p.canceled then Some(MoveTo(p, i, Exited))
      else if |p.pool.queue| > 0 then Some(Dequeue(p, i))
      else None
    case Executing(_) => Some(Complete(p, i, handlerThrows))
  }

  /** A loop at the gate or parked on its handle: it exits if the token
      fired, reads once the gate is open, and otherwise parks (or stays
      parked). Only its own slot changes. */
  function Wait(p: Processor, i: nat): (r: Option<Processor>)
    requires Inv(p) && i < p.size && (p.pool.workers[i].AtGate? || p.pool.workers[i].Parked?)
    ensures r.None? <==> p.pool.workers[i].Parked? && !p.canceled && !Gate.Released(p.gate, p.pool.workers[i].gen)
    ensures r.Some? ==> Inv(r.value) && |r.value.pool.workers| == p.size && !r.value.pool.workers[i].Executing?
    ensures r.Some? ==> r.value == p.(pool := p.pool.(workers := p.pool.workers[i := r.value.pool.workers[i]]))
  {
    var ph :=
      if p.pool.workers[i].AtGate? then
        (match Gate.WaitAsync(p.gate, p.canceled)
         case WaitCanceled => Some(Exited)
         case WaitCompleted => Some(Reading)
         case WaitPending(g) => Some(Parked(g)))
      else
        (match Gate.Observe(p.gate, Gate.WaitPending(p.pool.workers[i].gen), p.canceled)
         case WaitPending(_) => None
         case WaitCanceled => Some(Exited)
         case WaitCompleted => Some(if p.canceled then Exited else Reading));
    if ph.None? then None else Some(MoveTo(p, i, ph.value))
  }

  /** Lets worker `k` of a stopped processor whose channel is empty run to its end. */
  function Settle(p: Processor, k: nat): (q: Processor)
    requires Inv(p) && p.canceled && p.pool.queue == [] && k < p.size
    ensures q.size == p.size && Inv(q) && q.canceled && q.disposed == p.disposed
    ensures q.pool.workers == p.pool.workers[k := if Live(p.pool.workers[k]) then Exited else p.pool.workers[k]]
    ensures q.pool.queue == [] && q.pool.submitted == p.pool.submitted
    ensures q.pool.removed == p.pool.removed && q.pool.discarded == p.pool.discarded
  {
    if !Live(p.pool.workers[k]) then p
    else if p.pool.workers[k].Executing? then Record(p, k, Exited)
    else MoveTo(p, k, Exited)
  }

  function Drain(p: Processor, k: nat): (q: Processor)
    requires Inv(p) && p.canceled && p.pool.queue == [] && k <= p.size
    ensures q.size == p.size && Inv(q) && q.canceled && q.disposed == p.disposed
    ensures forall m :: k <= m < p.size ==> !Live(q.pool.workers[m])
    ensures forall m :: 0 <= m < k ==> q.pool.workers[m] == p.pool.workers[m]
    ensures q.pool.queue == [] && q.pool.submitted == p.pool.submitted
    ensures q.pool.removed == p.pool.removed && q.pool.discarded == p.pool.discarded
    decreases p.size - k
  {
    if k == p.size then p else Drain(Settle(p, k), k + 1)
  }

  /** `Dispose`: stop, wait for every started loop, mark disposed; a second
      call does nothing. */
  function Dispose(p: Processor): (q: Processor)
    requires Inv(p)
    ensures Inv(q) && q.disposed && q.canceled && q.pool.queue == []
    ensures forall k :: 0 <= k < q.size ==> !Live(q.pool.workers[k])
    ensures p.disposed ==> q == p
    ensures q.pool.submitted == p.pool.submitted
  {
    if p.disposed then p
    else Drain(StopInternal(p), 0).(disposed := true)
  }

  // ---------------------------------------------------------------------
  // Properties

  /** A null job is accepted and, once a worker runs it, recorded as a fault. */
  lemma NullJobIsAcceptedAndFaults(p: Processor, i: nat, handlerThrows: bool)
    requires Inv(p) && !p.disposed
    ensures ProcessJob(p, Null).Ok?
    ensures ProcessJob(p, Null).value.pool.queue == p.pool.queue + [Null]
    ensures i < p.size && p.pool.workers[i] == Executing(Null) ==>
              Step(p, i, handlerThrows).Some?
              && Step(p, i, handlerThrows).value.pool.failed == p.pool.failed + [Null]
  {
  }

  /** A throwing fault handler ends the loop for good and leaves the channel
      as it was, whatever the failure policy. */
  lemma HandlerExceptionEndsLoop(p: Processor, i: nat)
    requires Inv(p) && i < p.size && p.pool.workers[i].Executing? && Faults(p.pool.workers[i].job)
    ensures Step(p, i, true).Some?
    ensures var q := Step(p, i, true).value;
            q.pool.workers[i] == Exited && q.pool.queue == p.pool.queue
            && Step(q, i, false).None? && Step(q, i, true).None?
  {
  }

  /** A job submitted after the stop is accepted and queued, but no loop ever
      takes a job from a stopped processor. */
  lemma SubmissionAfterStopIsStranded(p: Processor, j: Job, i: nat, handlerThrows: bool)
    requires Inv(p) && !p.disposed && i < p.size
    ensures ProcessJob(StopInternal(p), j).Ok?
    ensures var q := ProcessJob(StopInternal(p), j).value;
            q.pool.queue == [j]
            && (Step(q, i, handlerThrows).Some? ==> !Step(q, i, handlerThrows).value.pool.workers[i].Executing?)
  {
  }

  /** After disposal every operation except disposal itself throws `ObjectDisposed`. */
  lemma DisposedRejectsEverything(p: Processor, job: Job)
    requires Inv(p)
    ensures ProcessJob(Dispose(p), job) == Err(ObjectDisposed)
    ensures Start(Dispose(p)) == Err(ObjectDisposed)
    ensures Pause(Dispose(p)) == Err(ObjectDisposed)
    ensures Resume(Dispose(p)) == Err(ObjectDisposed)
    ensures Dispose(Dispose(p)) == Dispose(p)
  {
  }

  /** Disposal waits for in-flight jobs and discards the queued ones. */
  lemma DisposeRunsInFlightJobs(p: Processor)
    requires Inv(p) && !p.disposed
    ensures Pool.Done(Dispose(p).pool) == Pool.Done(p.pool) + InFlight(p.pool.workers)
    ensures Dispose(p).pool.discarded == p.pool.discarded + p.pool.queue
  {
    var q := Dispose(p);
    Pool.SettledAccount(p.pool, q.pool, p.pool.queue);
    var d, before := Pool.Done(q.pool), Pool.Done(p.pool) + InFlight(p.pool.workers);
    assert d == before + (multiset(p.pool.queue) - multiset(p.pool.queue));
    forall x
      ensures d[x] == before[x]
    {
    }
  }
}
