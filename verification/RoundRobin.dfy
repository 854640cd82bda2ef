// The cyclic scan shared by the control and the construction lane: it starts behind the slot selected last and takes
// the first queued slot it meets.
module RoundRobin {
  import opened Basics

  const CAPACITY: nat := 16

  /** How many steps behind `last` the scan meets slot `i`: 1 for its successor, CAPACITY for `last` itself. */
  function Distance(last: nat, i: nat): (d: nat)
    requires last < CAPACITY && i < CAPACITY
    ensures 1 <= d <= CAPACITY
    ensures (last + d) % CAPACITY == i
  {
    if i > last then i - last else CAPACITY + i - last
  }

  function PickFrom(queued: seq<bool>, last: nat, offset: nat): (r: Option<nat>)
    requires |queued| == CAPACITY && last < CAPACITY && 1 <= offset <= CAPACITY + 1
    ensures r.Some? ==> r.value < CAPACITY
    decreases CAPACITY + 1 - offset
  {
    if offset > CAPACITY then None
    else if queued[(last + offset) % CAPACITY] then Some((last + offset) % CAPACITY)
    else PickFrom(queued, last, offset + 1)
  }

  /** The slot the scan takes, or None when it meets no queued slot. */
  function Pick(queued: seq<bool>, last: nat): (r: Option<nat>)
    requires |queued| == CAPACITY && last < CAPACITY
    ensures r.Some? ==> r.value < CAPACITY
  {
    PickFrom(queued, last, 1)
  }

  lemma {:induction false} PickFromNearest(queued: seq<bool>, last: nat, offset: nat)
    requires |queued| == CAPACITY && last < CAPACITY && 1 <= offset <= CAPACITY + 1
    requires forall i :: 0 <= i < CAPACITY && queued[i] ==> offset <= Distance(last, i)
    ensures var r := PickFrom(queued, last, offset);
            match r
            case None => forall i :: 0 <= i < CAPACITY ==> !queued[i]
            case Some(i) =>
              queued[i] && forall j :: 0 <= j < CAPACITY && queued[j] ==> Distance(last, i) <= Distance(last, j)
    decreases CAPACITY + 1 - offset
  {
    if offset <= CAPACITY {
      var i := (last + offset) % CAPACITY;
      assert Distance(last, i) == offset;
      if !queued[i] {
        forall j | 0 <= j < CAPACITY && queued[j]
          ensures offset + 1 <= Distance(last, j)
        {
          assert (last + Distance(last, j)) % CAPACITY == j;
        }
        PickFromNearest(queued, last, offset + 1);
      }
    }
  }

  /** The scan finds a queued slot whenever there is one, and then the one nearest behind the last selection. */
  lemma PickNearest(queued: seq<bool>, last: nat)
    requires |queued| == CAPACITY && last < CAPACITY
    ensures var r := Pick(queued, last);
            match r
            case None => forall i :: 0 <= i < CAPACITY ==> !queued[i]
            case Some(i) =>
              queued[i] && forall j :: 0 <= j < CAPACITY && queued[j] ==> Distance(last, i) <= Distance(last, j)
  {
    PickFromNearest(queued, last, 1);
  }

  /** A scan that stops at `picked` before slot `i` has come nearer to `i`. */
  lemma ScanApproaches(last: nat, picked: nat, i: nat)
    requires last < CAPACITY && picked < CAPACITY && i < CAPACITY && picked != i
    requires Distance(last, picked) <= Distance(last, i)
    ensures Distance(picked, i) == Distance(last, i) - Distance(last, picked)
  {
  }

  /** Once the log has grown by `d` entries, `w` is one of them. */
  ghost predicate WithinNext<T>(d: nat, w: T, was: seq<T>, log: seq<T>)
    requires was <= log
  {
    |log| >= |was| + d ==> w in log[|was|..|was| + d]
  }

  lemma WithinNow<T>(d: nat, w: T, was: seq<T>, mid: seq<T>, log: seq<T>)
    requires was <= log && mid == was + [w] && mid <= log && 1 <= d
    ensures WithinNext(d, w, was, log)
  {
    if |log| >= |was| + d {
      assert log[|was|..|was| + d][0] == mid[|was|];
    }
  }

  lemma WithinLater<T>(d: nat, d': nat, w: T, was: seq<T>, mid: seq<T>, log: seq<T>)
    requires was <= mid && mid <= log && was <= log && |mid| + d' <= |was| + d
    requires WithinNext(d', w, mid, log)
    ensures WithinNext(d, w, was, log)
  {
    if |log| >= |was| + d {
      var k :| 0 <= k < d' && log[|mid|..|mid| + d'][k] == w;
      assert log[|was|..|was| + d][|mid| + k - |was|] == w;
    }
  }
}
