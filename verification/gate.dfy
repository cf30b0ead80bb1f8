/** The asynchronous manual-reset event that the job processors use as their
    pause gate.

    The event holds one completion handle at a time. `Set` swaps in a handle
    that is already completed and then completes the handle it replaced;
    `Reset` swaps in a fresh pending handle. A waiter is attached to the
    handle that was current when it called `WaitAsync`.

    Handles are modelled as numbered generations: `handles[g]` says whether
    the handle of generation `g` has completed, and the current handle is the
    last one. A completed handle never becomes pending again. */
module Gate {

  datatype Event = Event(handles: seq<bool>)

  predicate Valid(e: Event) {
    |e.handles| > 0
  }

  /** Generation of the handle currently installed. */
  function Current(e: Event): nat
    requires Valid(e)
  {
    |e.handles| - 1
  }

  /** True when the installed handle has completed (the event is signaled). */
  predicate IsSet(e: Event)
    requires Valid(e)
  {
    e.handles[Current(e)]
  }

  /** Generation `g` exists and its handle has completed: every waiter attached to it is released. */
  predicate Released(e: Event, g: nat) {
    g < |e.handles| && e.handles[g]
  }

  /** The constructor: a single handle, completed iff `initialState`. */
  function Create(initialState: bool): (e: Event)
    ensures Valid(e) && Current(e) == 0
    ensures IsSet(e) <==> initialState
  {
    Event([initialState])
  }

  /** Completes the installed handle and installs a new, already completed one. */
  function Set(e: Event): (e': Event)
    requires Valid(e)
    ensures Valid(e') && Current(e') == Current(e) + 1
    ensures IsSet(e')
    ensures Released(e', Current(e))
    ensures forall g :: 0 <= g < Current(e) ==> e'.handles[g] == e.handles[g]
  {
    Event(e.handles[Current(e) := true] + [true])
  }

  /** Installs a new pending handle; earlier handles are left as they are. */
  function Reset(e: Event): (e': Event)
    requires Valid(e)
    ensures Valid(e') && Current(e') == Current(e) + 1
    ensures !IsSet(e')
    ensures forall g :: 0 <= g <= Current(e) ==> e'.handles[g] == e.handles[g]
  {
    Event(e.handles + [false])
  }

  /** The immediate result of `WaitAsync`: a canceled task, an already
      completed task, or a task attached to the handle of generation `gen`. */
  datatype Wait = WaitCanceled | WaitCompleted | WaitPending(gen: nat)

  /** `WaitAsync` with a token whose cancellation state is `tokenCanceled`.
      The token is consulted before the handle. */
  function WaitAsync(e: Event, tokenCanceled: bool): (w: Wait)
    requires Valid(e)
    ensures w.WaitCanceled? <==> tokenCanceled
    ensures w.WaitCompleted? <==> !tokenCanceled && IsSet(e)
    ensures w.WaitPending? ==> w.gen == Current(e) && !Released(e, w.gen)
  {
    if tokenCanceled then WaitCanceled
    else if e.handles[Current(e)] then WaitCompleted
    else WaitPending(Current(e))
  }

  /** A pending waiter looks at the event and its token: it completes when its
      handle has completed, is canceled when its token has fired, and otherwise
      stays pending. A resolved waiter stays as it is. */
  function Observe(e: Event, w: Wait, tokenCanceled: bool): (w': Wait)
    ensures !w.WaitPending? ==> w' == w
    ensures w.WaitPending? ==> (w' != w <==> Released(e, w.gen) || tokenCanceled)
    ensures w.WaitPending? && Released(e, w.gen) ==> w' == WaitCompleted
    ensures w.WaitPending? && !Released(e, w.gen) && tokenCanceled ==> w' == WaitCanceled
  {
    match w
    case WaitPending(g) =>
      if Released(e, g) then WaitCompleted
      else if tokenCanceled then WaitCanceled
      else w
    case _ => w
  }

  /** The two operations that change the event. */
  datatype Op = SetOp | ResetOp

  function Apply(e: Event, op: Op): (e': Event)
    requires Valid(e)
    ensures Valid(e')
  {
    match op
    case SetOp => Set(e)
    case ResetOp => Reset(e)
  }

  function ApplyAll(e: Event, ops: seq<Op>): (e': Event)
    requires Valid(e)
    ensures Valid(e')
    decreases |ops|
  {
    if |ops| == 0 then e else ApplyAll(Apply(e, ops[0]), ops[1..])
  }

  /** Neither operation ever takes back a release. */
  lemma {:induction false} ReleaseIsPermanent(e: Event, ops: seq<Op>, g: nat)
    requires Valid(e) && Released(e, g)
    ensures Released(ApplyAll(e, ops), g)
    decreases |ops|
  {
    if |ops| > 0 {
      ReleaseIsPermanent(Apply(e, ops[0]), ops[1..], g);
    }
  }

  /** The constructor honours `initialState`: a wait on a fresh signaled event
      completes at once, a wait on a fresh unsignaled one is pending. */
  lemma InitialStateDecidesFirstWait(initialState: bool)
    ensures initialState ==> WaitAsync(Create(initialState), false) == WaitCompleted
    ensures !initialState ==> WaitAsync(Create(initialState), false) == WaitPending(0)
  {
  }

  /** An already canceled token wins over a signaled event. */
  lemma CanceledTokenBeatsSignal(e: Event)
    requires Valid(e) && IsSet(e)
    ensures WaitAsync(e, true) == WaitCanceled
  {
  }

  /** Broadcast: all waiters that registered on the pending event are released
      together by one `Set`. */
  lemma SetReleasesEveryWaiter(e: Event, waiters: seq<Wait>)
    requires Valid(e)
    requires forall k :: 0 <= k < |waiters| ==> waiters[k] == WaitAsync(e, false)
    ensures forall k :: 0 <= k < |waiters| ==> Observe(Set(e), waiters[k], false) != WaitCanceled
    ensures forall k :: 0 <= k < |waiters| ==> Observe(Set(e), waiters[k], false) == WaitCompleted
  {
  }

  /** `Set` is idempotent: a second `Set` leaves the event signaled and a wait
      after either one completes without suspending (no lost wake-up). */
  lemma SetIsIdempotent(e: Event)
    requires Valid(e)
    ensures IsSet(Set(e)) && IsSet(Set(Set(e)))
    ensures WaitAsync(Set(e), false) == WaitCompleted
    ensures WaitAsync(Set(Set(e)), false) == WaitCompleted
  {
  }

  /** After `Reset`, a new wait is pending and is released by the next `Set`. */
  lemma ResetBlocksUntilNextSet(e: Event)
    requires Valid(e)
    ensures WaitAsync(Reset(e), false) == WaitPending(Current(Reset(e)))
    ensures Observe(Reset(e), WaitAsync(Reset(e), false), false).WaitPending?
    ensures Observe(Set(Reset(e)), WaitAsync(Reset(e), false), false) == WaitCompleted
  {
  }

  /** A handle that is no longer installed and has not completed never completes:
      `Set` only completes the handle installed at call time. */
  lemma {:induction false} SupersededHandleStaysPending(e: Event, ops: seq<Op>, g: nat)
    requires Valid(e) && g < Current(e) && !e.handles[g]
    ensures !Released(ApplyAll(e, ops), g)
    decreases |ops|
  {
    if |ops| > 0 {
      var e1 := Apply(e, ops[0]);
      assert !e1.handles[g];
      SupersededHandleStaysPending(e1, ops[1..], g);
    }
  }

  /** A waiter that registered on a reset event which is then reset again is
      released by no later sequence of `Set`/`Reset`: only its token can end the wait. */
  lemma WaiterLostByDoubleReset(e: Event, ops: seq<Op>)
    requires Valid(e)
    ensures var e1 := Reset(e);
            var w := WaitAsync(e1, false);
            w.WaitPending? &&
            Observe(ApplyAll(Reset(e1), ops), w, false) == w &&
            Observe(ApplyAll(Reset(e1), ops), w, true) == WaitCanceled
  {
    var e1 := Reset(e);
    SupersededHandleStaysPending(Reset(e1), ops, Current(e1));
  }
}
