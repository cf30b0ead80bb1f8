/** The unbounded job channel of a processor together with its worker slots,
    shared by both processor variants.

    Besides the queued jobs and the phase of each worker loop, a pool keeps
    the history of the channel: `submitted` (every job written, in order),
    `removed` (every job taken out, in order), and where each removed job went:
    `succeeded`, `failed`, still in flight on a worker, or `discarded` by a
    clear. */
module Pool {
  import opened Jobs
  import opened Phases

  datatype Pool = Pool(
    queue: seq<Job>,
    workers: seq<Phase>,
    submitted: seq<Job>,
    removed: seq<Job>,
    succeeded: seq<Job>,
    failed: seq<Job>,
    discarded: seq<Job>)

  /** The channel is FIFO (what was written is what was removed followed by
      what is queued), and every removed job is accounted for exactly once. */
  ghost predicate Valid(c: Pool) {
    && c.submitted == c.removed + c.queue
    && multiset(c.removed) == multiset(c.succeeded) + multiset(c.failed) + InFlight(c.workers) + multiset(c.discarded)
  }

  /** Jobs that have run to the end, successfully or not. */
  function Done(c: Pool): (m: multiset<Job>)
    ensures m == multiset(c.succeeded) + multiset(c.failed)
  {
    multiset(c.succeeded + c.failed)
  }

  /** The job a worker in phase `ph` finishes with outcome `faulted`, if any. */
  function Outcome(ph: Phase, faulted: bool): (s: seq<Job>)
    ensures |s| <= 1
    ensures |s| == 1 <==> ph.Executing? && Faults(ph.job) == faulted
    ensures |s| == 1 ==> s[0] == ph.job
  {
    if ph.Executing? && Faults(ph.job) == faulted then [ph.job] else []
  }

  /** A pool of `size` reserved, unstarted slots and an empty channel. */
  function Empty(size: nat): (c: Pool)
    ensures Valid(c) && c.queue == [] && |c.workers| == size
    ensures forall k :: 0 <= k < size ==> c.workers[k] == Unspawned
    ensures Done(c) == multiset{} && c.submitted == []
  {
    var ws := seq(size, _ => Unspawned);
    InFlightEmpty(ws);
    Pool([], ws, [], [], [], [], [])
  }

  /** Writes a job at the tail of the channel. */
  function Write(c: Pool, j: Job): (d: Pool)
    requires Valid(c)
    ensures Valid(d)
    ensures d.queue == c.queue + [j] && d.submitted == c.submitted + [j]
    ensures d == c.(queue := c.queue + [j], submitted := c.submitted + [j])
  {
    var d := c.(queue := c.queue + [j], submitted := c.submitted + [j]);
    assert d.submitted == d.removed + d.queue;
    d
  }

  /** Reads and throws away every queued job. */
  function Clear(c: Pool): (d: Pool)
    requires Valid(c)
    ensures Valid(d) && d.queue == []
    ensures d.discarded == c.discarded + c.queue && d.removed == c.removed + c.queue
    ensures d.submitted == c.submitted && d.workers == c.workers
    ensures d.succeeded == c.succeeded && d.failed == c.failed
    ensures c.queue == [] ==> d == c
  {
    var d := c.(queue := [], removed := c.removed + c.queue, discarded := c.discarded + c.queue);
    assert d.submitted == d.removed + d.queue;
    d
  }

  /** Moves worker `i` between two phases that hold no job. */
  function Move(c: Pool, i: nat, ph: Phase): (d: Pool)
    requires Valid(c) && i < |c.workers| && !c.workers[i].Executing? && !ph.Executing?
    ensures Valid(d)
    ensures d == c.(workers := c.workers[i := ph])
  {
    InFlightIdleUpdate(c.workers, i, ph);
    c.(workers := c.workers[i := ph])
  }

  /** Worker `i` reads the job at the head of the channel and starts running it. */
  function Take(c: Pool, i: nat): (d: Pool)
    requires Valid(c) && i < |c.workers| && !c.workers[i].Executing? && |c.queue| > 0
    ensures Valid(d)
    ensures d.workers == c.workers[i := Executing(c.queue[0])]
    ensures d.queue == c.queue[1..] && d.removed == c.removed + [c.queue[0]]
    ensures d.submitted == c.submitted && d.succeeded == c.succeeded
    ensures d.failed == c.failed && d.discarded == c.discarded
  {
    var j := c.queue[0];
    var d := c.(queue := c.queue[1..], removed := c.removed + [j], workers := c.workers[i := Executing(j)]);
    assert c.queue == [j] + d.queue;
    assert d.submitted == d.removed + d.queue;
    InFlightTake(c.workers, i, j);
    d
  }

  /** Worker `i` is done with its job and moves to phase `ph`; the job is
      recorded as failed when invoking it throws, as succeeded otherwise. */
  function Finish(c: Pool, i: nat, ph: Phase): (d: Pool)
    requires Valid(c) && i < |c.workers| && c.workers[i].Executing? && !ph.Executing?
    ensures Valid(d)
    ensures d.workers == c.workers[i := ph] && d.queue == c.queue
    ensures d.submitted == c.submitted && d.removed == c.removed && d.discarded == c.discarded
    ensures d.succeeded == c.succeeded + Outcome(c.workers[i], false)
    ensures d.failed == c.failed + Outcome(c.workers[i], true)
    ensures Done(d) == Done(c) + multiset{c.workers[i].job}
  {
    var j := c.workers[i].job;
    var ws := c.workers[i := ph];
    InFlightFinish(c.workers, i, ph);
    MoveToDone(multiset(c.removed), multiset(c.succeeded), multiset(c.failed), InFlight(c.workers),
               InFlight(ws), multiset(c.discarded), j);
    if Faults(j) then c.(failed := c.failed + [j], workers := ws)
    else c.(succeeded := c.succeeded + [j], workers := ws)
  }

  /** A job leaving the in-flight jobs for the succeeded or the failed ones keeps the account balanced. */
  lemma MoveToDone(removed: multiset<Job>, succeeded: multiset<Job>, failed: multiset<Job>,
                   inFlight: multiset<Job>, inFlight': multiset<Job>, discarded: multiset<Job>, j: Job)
    requires removed == succeeded + failed + inFlight + discarded
    requires inFlight' + multiset{j} == inFlight
    ensures removed == (succeeded + multiset{j}) + failed + inFlight' + discarded
    ensures removed == succeeded + (failed + multiset{j}) + inFlight' + discarded
  {
    forall x
      ensures removed[x] == ((succeeded + multiset{j}) + failed + inFlight' + discarded)[x]
      ensures removed[x] == (succeeded + (failed + multiset{j}) + inFlight' + discarded)[x]
    {
      assert (inFlight' + multiset{j})[x] == inFlight[x];
    }
  }

  /** Every job runs at most once per submission, and the channel hands jobs
      out in submission order. */
  lemma ExecutedAtMostOnce(c: Pool)
    requires Valid(c)
    ensures Done(c) <= multiset(c.submitted)
    ensures c.removed == c.submitted[..|c.removed|]
  {
    assert multiset(c.submitted) == multiset(c.removed) + multiset(c.queue);
  }

  /** Once no worker holds a job, everything taken out of the channel has
      either run or been discarded. */
  lemma QuietPoolIsSettled(c: Pool)
    requires Valid(c)
    requires forall k :: 0 <= k < |c.workers| ==> !c.workers[k].Executing?
    ensures multiset(c.removed) == Done(c) + multiset(c.discarded)
  {
    InFlightEmpty(c.workers);
  }

  /** Between two quiet points at which the channel is empty and the clears
      discarded exactly `lost`, the jobs that ran are the ones that were
      running or had run, plus the queued jobs that were not discarded. */
  lemma SettledAccount(c: Pool, d: Pool, lost: seq<Job>)
    requires Valid(c) && Valid(d)
    requires forall k :: 0 <= k < |d.workers| ==> !d.workers[k].Executing?
    requires d.removed == c.removed + c.queue && d.discarded == c.discarded + lost
    requires multiset(lost) <= multiset(c.queue)
    ensures Done(d) == Done(c) + InFlight(c.workers) + (multiset(c.queue) - multiset(lost))
  {
    InFlightEmpty(d.workers);
    var ran := multiset(c.queue) - multiset(lost);
    forall x
      ensures Done(d)[x] == (Done(c) + InFlight(c.workers) + ran)[x]
    {
      assert multiset(d.removed)[x] == multiset(c.removed)[x] + multiset(c.queue)[x];
      assert multiset(d.discarded)[x] == multiset(c.discarded)[x] + multiset(lost)[x];
    }
  }
}
