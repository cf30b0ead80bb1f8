/** The dispatch order of the priority workers (`NeedleWorker`,
    `NeddleWorker`): action jobs first, then task jobs, ordered by priority
    value with a stable sort, so jobs of equal priority keep that order.

    `ByPriority` is the reference: the jobs of value 1, then of value 2, and
    so on up to 5. The lemmas show it is a stable sort (sorted, a
    permutation, and each priority's jobs in their original order), and
    `Order` computes it with one pass into five buckets. */
module PriorityOrder {
  import opened Jobs

  /** The jobs of `s` whose priority value is `v`, in their order in `s`. */
  function WithPriority(s: seq<Entry>, v: int): (r: seq<Entry>)
    ensures |r| <= |s|
  {
    if s == [] then [] else (if s[0].priority.Value() == v then [s[0]] else []) + WithPriority(s[1..], v)
  }

  /** The jobs of priority value `v` and above, by increasing value. */
  function From(s: seq<Entry>, v: int): (r: seq<Entry>)
    decreases 6 - v
  {
    if v > 5 then [] else WithPriority(s, v) + From(s, v + 1)
  }

  /** The dispatch order. */
  function ByPriority(s: seq<Entry>): (r: seq<Entry>)
  {
    From(s, 1)
  }

  /** No job comes after one with a higher priority value. */
  predicate Sorted(s: seq<Entry>)
  {
    forall i, j :: 0 <= i < j < |s| ==> s[i].priority.Value() <= s[j].priority.Value()
  }

  /** Filtering distributes over concatenation. */
  lemma {:induction false} WithPriorityAppend(a: seq<Entry>, b: seq<Entry>, v: int)
    ensures WithPriority(a + b, v) == WithPriority(a, v) + WithPriority(b, v)
    decreases |a|
  {
    if a != [] {
      assert (a + b)[0] == a[0] && (a + b)[1..] == a[1..] + b;
      WithPriorityAppend(a[1..], b, v);
    } else {
      assert a + b == b;
    }
  }

  /** Every filtered job has the filtered value. */
  lemma {:induction false} WithPriorityValue(s: seq<Entry>, v: int)
    ensures forall x :: x in WithPriority(s, v) ==> x.priority.Value() == v
    decreases |s|
  {
    if s != [] {
      WithPriorityValue(s[1..], v);
    }
  }

  /** Filtering twice keeps the jobs of one value or none. */
  lemma {:induction false} WithPriorityTwice(s: seq<Entry>, u: int, v: int)
    ensures WithPriority(WithPriority(s, u), v) == if u == v then WithPriority(s, u) else []
    decreases |s|
  {
    if s != [] {
      WithPriorityTwice(s[1..], u, v);
      var h := if s[0].priority.Value() == u then [s[0]] else [];
      WithPriorityAppend(h, WithPriority(s[1..], u), v);
    }
  }

  /** The jobs from value `v` on all have a value of at least `v`. */
  lemma {:induction false} FromValues(s: seq<Entry>, v: int)
    ensures forall x :: x in From(s, v) ==> v <= x.priority.Value()
    decreases 6 - v
  {
    if v <= 5 {
      WithPriorityValue(s, v);
      FromValues(s, v + 1);
    }
  }

  /** The jobs from value `v` on are sorted. */
  lemma {:induction false} FromSorted(s: seq<Entry>, v: int)
    ensures Sorted(From(s, v))
    decreases 6 - v
  {
    if v <= 5 {
      var w: seq<Entry> := WithPriority(s, v);
      var rest: seq<Entry> := From(s, v + 1);
      var all: seq<Entry> := w + rest;
      WithPriorityValue(s, v);
      FromValues(s, v + 1);
      FromSorted(s, v + 1);
      forall i, j | 0 <= i < j < |all|
        ensures all[i].priority.Value() <= all[j].priority.Value()
      {
        if j < |w| {
          assert w[i] in w && w[j] in w;
        } else if i < |w| {
          assert w[i] in w && rest[j - |w|] in rest;
        } else {
          assert all[i] == rest[i - |w|] && all[j] == rest[j - |w|];
        }
      }
    }
  }

  /** The dispatch order is sorted by priority value. */
  lemma ByPrioritySorted(s: seq<Entry>)
    ensures Sorted(ByPriority(s))
  {
    FromSorted(s, 1);
  }

  /** Filtering the jobs from value `u` on by one value `v`. */
  lemma {:induction false} FromFiltered(s: seq<Entry>, u: int, v: int)
    ensures WithPriority(From(s, u), v) == if u <= v <= 5 then WithPriority(s, v) else []
    decreases 6 - u
  {
    if u <= 5 {
      WithPriorityAppend(WithPriority(s, u), From(s, u + 1), v);
      WithPriorityTwice(s, u, v);
      FromFiltered(s, u + 1, v);
    }
  }

  /** The dispatch order is stable: the jobs of each priority come in the
      order they were given. */
  lemma ByPriorityStable(s: seq<Entry>, v: int)
    requires 1 <= v <= 5
    ensures WithPriority(ByPriority(s), v) == WithPriority(s, v)
  {
    FromFiltered(s, 1, v);
  }

  /** The jobs of `s` whose priority value is at least `v`, in their order
      in `s`. */
  function AtLeast(s: seq<Entry>, v: int): (r: seq<Entry>)
    ensures |r| <= |s|
  {
    if s == [] then [] else (if s[0].priority.Value() >= v then [s[0]] else []) + AtLeast(s[1..], v)
  }

  /** The jobs of value at least `v` are those of value `v` and those of
      value at least `v + 1`. */
  lemma {:induction false} AtLeastSplit(s: seq<Entry>, v: int)
    ensures multiset(AtLeast(s, v)) == multiset(WithPriority(s, v)) + multiset(AtLeast(s, v + 1))
    decreases |s|
  {
    if s != [] {
      AtLeastSplit(s[1..], v);
    }
  }

  /** Every job has a value between 1 and 5. */
  lemma {:induction false} AtLeastBounds(s: seq<Entry>)
    ensures AtLeast(s, 1) == s && AtLeast(s, 6) == []
    decreases |s|
  {
    if s != [] {
      AtLeastBounds(s[1..]);
      assert s == [s[0]] + s[1..];
    }
  }

  /** The jobs from value `v` on are a permutation of those of value at
      least `v`. */
  lemma {:induction false} FromPermutes(s: seq<Entry>, v: int)
    requires 1 <= v <= 6
    ensures multiset(From(s, v)) == multiset(AtLeast(s, v))
    decreases 6 - v
  {
    if v <= 5 {
      FromPermutes(s, v + 1);
      AtLeastSplit(s, v);
    } else {
      AtLeastBounds(s);
    }
  }

  /** The dispatch order is a permutation of the jobs. */
  lemma ByPriorityPermutes(s: seq<Entry>)
    ensures multiset(ByPriority(s)) == multiset(s)
  {
    FromPermutes(s, 1);
    AtLeastBounds(s);
  }

  /** Extending the filtered prefix by one job. */
  lemma WithPrioritySnoc(s: seq<Entry>, i: nat, v: int)
    requires i < |s|
    ensures WithPriority(s[..i + 1], v)
              == WithPriority(s[..i], v) + (if s[i].priority.Value() == v then [s[i]] else [])
  {
    assert s[..i + 1] == s[..i] + [s[i]];
    WithPriorityAppend(s[..i], [s[i]], v);
    assert [s[i]][1..] == [];
  }

  /** Computes the dispatch order in one pass: each job goes to the bucket
      of its priority, then the buckets are joined by increasing value. */
  method Order(s: seq<Entry>) returns (r: seq<Entry>)
    ensures r == ByPriority(s)
    ensures Sorted(r) && multiset(r) == multiset(s)
  {
    var b1, b2, b3, b4, b5 := [], [], [], [], [];
    var i := 0;
    while i < |s|
      invariant 0 <= i <= |s|
      invariant b1 == WithPriority(s[..i], 1) && b2 == WithPriority(s[..i], 2)
      invariant b3 == WithPriority(s[..i], 3) && b4 == WithPriority(s[..i], 4)
      invariant b5 == WithPriority(s[..i], 5)
    {
      WithPrioritySnoc(s, i, 1);
      WithPrioritySnoc(s, i, 2);
      WithPrioritySnoc(s, i, 3);
      WithPrioritySnoc(s, i, 4);
      WithPrioritySnoc(s, i, 5);
      match s[i].priority {
        case Highest => b1 := b1 + [s[i]];
        case High => b2 := b2 + [s[i]];
        case Medium => b3 := b3 + [s[i]];
        case Low => b4 := b4 + [s[i]];
        case Lowest => b5 := b5 + [s[i]];
      }
      i := i + 1;
    }
    assert s[..i] == s;
    r := b1 + (b2 + (b3 + (b4 + (b5 + []))));
    assert From(s, 6) == [];
    ByPrioritySorted(s);
    ByPriorityPermutes(s);
  }
}
