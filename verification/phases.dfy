/** The phases of one worker loop of a job processor, shared by both
    processor variants.

    A worker slot is `Unspawned` until `Start`; a spawned loop is about to
    check the token and wait on the gate (`AtGate`), suspended on the gate
    handle of generation `gen` (`Parked`), waiting for the next queued job
    (`Reading`), running a dequeued job (`Executing`), or finished (`Exited`). */
module Phases {
  import opened Jobs

  datatype Phase =
    | Unspawned
    | AtGate
    | Parked(gen: nat)
    | Reading
    | Executing(job: Job)
    | Exited

  /** The job a phase holds, as a multiset of at most one element. */
  function Held(ph: Phase): (m: multiset<Job>)
    ensures ph.Executing? ==> m == multiset{ph.job}
    ensures !ph.Executing? ==> m == multiset{}
  {
    if ph.Executing? then multiset{ph.job} else multiset{}
  }

  /** The jobs currently being run by the workers. */
  function InFlight(ws: seq<Phase>): (m: multiset<Job>)
    decreases |ws|
  {
    if |ws| == 0 then multiset{} else InFlight(ws[..|ws| - 1]) + Held(ws[|ws| - 1])
  }

  /** The in-flight jobs of a pool, one worker at a time. */
  lemma InFlightSnoc(pre: seq<Phase>, last: Phase)
    ensures InFlight(pre + [last]) == InFlight(pre) + Held(last)
  {
    assert (pre + [last])[..|pre|] == pre;
  }

  /** Replacing one worker's phase swaps its held job in the in-flight multiset. */
  lemma {:induction false} InFlightUpdate(ws: seq<Phase>, i: nat, ph: Phase)
    requires i < |ws|
    ensures InFlight(ws[i := ph]) + Held(ws[i]) == InFlight(ws) + Held(ph)
    decreases |ws|
  {
    var n := |ws| - 1;
    var pre := ws[..n];
    assert ws == pre + [ws[n]];
    InFlightSnoc(pre, ws[n]);
    if i == n {
      assert ws[i := ph] == pre + [ph];
      InFlightSnoc(pre, ph);
      Rearrange(InFlight(pre), InFlight(pre), multiset{}, Held(ph) + Held(ws[n]), Held(ws[n]) + Held(ph));
    } else {
      assert ws[i := ph] == pre[i := ph] + [ws[n]];
      InFlightSnoc(pre[i := ph], ws[n]);
      InFlightUpdate(pre, i, ph);
      Rearrange(InFlight(pre[i := ph]), InFlight(pre), Held(ws[n]), Held(ws[i]), Held(ph));
    }
  }

  /** Adding the same multiset to both sides of a balanced account. */
  lemma Rearrange(a: multiset<Job>, b: multiset<Job>, c: multiset<Job>, x: multiset<Job>, y: multiset<Job>)
    requires a + x == b + y
    ensures a + c + x == b + c + y
  {
    forall j
      ensures (a + c + x)[j] == (b + c + y)[j]
    {
      assert (a + x)[j] == (b + y)[j];
    }
  }

  /** Moving a worker between phases that hold no job leaves the in-flight jobs alone. */
  lemma InFlightIdleUpdate(ws: seq<Phase>, i: nat, ph: Phase)
    requires i < |ws| && !ws[i].Executing? && !ph.Executing?
    ensures InFlight(ws[i := ph]) == InFlight(ws)
  {
    InFlightUpdate(ws, i, ph);
    var a, b := InFlight(ws[i := ph]), InFlight(ws);
    assert Held(ws[i]) == multiset{} && Held(ph) == multiset{};
    forall x
      ensures a[x] == b[x]
    {
      assert (a + Held(ws[i]))[x] == (b + Held(ph))[x];
    }
  }

  /** A worker that takes a job adds it to the in-flight jobs. */
  lemma InFlightTake(ws: seq<Phase>, i: nat, j: Job)
    requires i < |ws| && !ws[i].Executing?
    ensures InFlight(ws[i := Executing(j)]) == InFlight(ws) + multiset{j}
  {
    InFlightUpdate(ws, i, Executing(j));
    var a := InFlight(ws[i := Executing(j)]);
    assert forall x :: (a + Held(ws[i]))[x] == a[x];
  }

  /** A worker that finishes its job removes it from the in-flight jobs. */
  lemma InFlightFinish(ws: seq<Phase>, i: nat, ph: Phase)
    requires i < |ws| && ws[i].Executing? && !ph.Executing?
    ensures InFlight(ws[i := ph]) + multiset{ws[i].job} == InFlight(ws)
  {
    InFlightUpdate(ws, i, ph);
    var b := InFlight(ws);
    assert forall x :: (b + Held(ph))[x] == b[x];
  }

  /** A worker that is not running a job contributes nothing in flight. */
  lemma {:induction false} InFlightEmpty(ws: seq<Phase>)
    requires forall k :: 0 <= k < |ws| ==> !ws[k].Executing?
    ensures InFlight(ws) == multiset{}
    decreases |ws|
  {
    if |ws| > 0 {
      InFlightEmpty(ws[..|ws| - 1]);
    }
  }

  /** The job held by worker `i` is in flight. */
  lemma {:induction false} HeldIsInFlight(ws: seq<Phase>, i: nat)
    requires i < |ws| && ws[i].Executing?
    ensures ws[i].job in InFlight(ws)
    decreases |ws|
  {
    var n := |ws| - 1;
    if i < n {
      HeldIsInFlight(ws[..n], i);
    }
  }

  /** A worker loop that has been spawned and has not exited. */
  predicate Live(ph: Phase) {
    !ph.Unspawned? && !ph.Exited?
  }

  /** Number of spawned workers. */
  function Spawned(ws: seq<Phase>): (n: nat)
    ensures n <= |ws|
    decreases |ws|
  {
    if |ws| == 0 then 0 else Spawned(ws[..|ws| - 1]) + (if ws[|ws| - 1].Unspawned? then 0 else 1)
  }

  lemma {:induction false} SpawnedAll(ws: seq<Phase>)
    requires forall k :: 0 <= k < |ws| ==> !ws[k].Unspawned?
    ensures Spawned(ws) == |ws|
    decreases |ws|
  {
    if |ws| > 0 {
      SpawnedAll(ws[..|ws| - 1]);
    }
  }
}
