// RedXe/ControlWorkQueue: the fixed slots of the control lane and the operations performed on them under its lock.
// `ControlLane` is the value of the shared fields; `ControlWorkQueue` updates the fields in place and every method is
// proved to compute the function of the same name on that value.
module ControlLanes {
  import opened Basics
  import opened RoundRobin

  const BUDGET_MILLISECONDS: nat := 3000

  datatype SlotState = Empty | Queued | Running | Complete

  datatype Slot = Slot(work: Option<Work>, state: SlotState, result: HResult, rerun: bool, queuedAt: nat)

  const NO_SLOT := Slot(None, Empty, Ok, false, 0)

  datatype Lane = Lane(slots: seq<Slot>, lastSelected: nat, completed: bool, ready: bool)
  {
    ghost predicate Sized() { |slots| == CAPACITY && lastSelected < CAPACITY }
  }

  predicate Holds(w: Work, slot: Slot) { slot.work == Some(w) }
  predicate IsEmpty(slot: Slot) { slot.state.Empty? }
  predicate IsComplete(slot: Slot) { slot.state.Complete? }
  function Queueds(slots: seq<Slot>): (q: seq<bool>) {
    seq(|slots|, i requires 0 <= i < |slots| => slots[i].state.Queued?)
  }
  function Cleared(slot: Slot): (r: Slot) { if slot.state.Complete? then NO_SLOT else slot }

  /** The slot array with `work` submitted at `now`: coalesced into the slot that holds it, or queued in a free slot. */
  function Submitted(lane: Lane, work: Work, now: nat): (r: (Lane, HResult))
    requires lane.Sized()
    ensures r.0.Sized()
  {
    var held := First(lane.slots, (slot: Slot) => Holds(work, slot));
    var free := First(lane.slots, IsEmpty);
    if held < CAPACITY then
      (if lane.slots[held].state.Queued? then lane
       else lane.(slots := lane.slots[held := lane.slots[held].(rerun := true)]), False)
    else if free < CAPACITY then
      (lane.(slots := lane.slots[free := lane.slots[free].(work := Some(work), state := Queued, queuedAt := now)],
             ready := true), Ok)
    else
      (lane, Busy)
  }

  function Enqueued(lane: Lane, running: bool, work: Option<Work>, now: nat): (r: (Lane, HResult))
    requires lane.Sized()
    ensures r.0.Sized()
  {
    if work.None? then (lane, Pointer)
    else if !running then (lane, Unexpected)
    else Submitted(lane, work.value, now)
  }

  /** The worker's selection: the picked slot becomes Running and the scan resumes behind it next time. */
  function Selected(lane: Lane): (r: (Lane, Option<nat>))
    requires lane.Sized()
    ensures r.0.Sized()
    ensures r.1.Some? ==> r.1.value < CAPACITY
  {
    var picked := Pick(Queueds(lane.slots), lane.lastSelected);
    if picked.None? then (lane, None) else
    var i := picked.value;
    (lane.(slots := lane.slots[i := lane.slots[i].(state := Running)], lastSelected := i), picked)
  }

  /** A selection takes a Queued slot, the one nearest behind the last; without one the worker goes back to its wait. */
  lemma SelectCases(lane: Lane)
    requires lane.Sized()
    ensures var (after, selected) := Selected(lane);
            if selected.None? then
              after == lane && forall i :: 0 <= i < CAPACITY ==> !lane.slots[i].state.Queued?
            else
              var i := selected.value;
              lane.slots[i].state.Queued? && after.lastSelected == i &&
              after == lane.(slots := lane.slots[i := lane.slots[i].(state := Running)], lastSelected := i) &&
              forall j :: 0 <= j < CAPACITY && lane.slots[j].state.Queued? ==>
                Distance(lane.lastSelected, i) <= Distance(lane.lastSelected, j)
  {
    PickNearest(Queueds(lane.slots), lane.lastSelected);
    assert forall i :: 0 <= i < CAPACITY ==> Queueds(lane.slots)[i] == lane.slots[i].state.Queued?;
  }

  function Published(lane: Lane, selected: nat, result: HResult): (r: Lane)
    requires lane.Sized() && selected < CAPACITY
    ensures r.Sized()
  {
    lane.(slots := lane.slots[selected := lane.slots[selected].(result := result, state := Complete)],
          completed := true)
  }

  /** The sweep of a drain: every Complete slot moves out, in slot order, and leaves an empty slot behind. */
  function Swept(lane: Lane): (r: (Lane, seq<Slot>))
    requires lane.Sized()
    ensures r.0.Sized()
  {
    (lane.(slots := seq(CAPACITY, i requires 0 <= i < CAPACITY => Cleared(lane.slots[i]))),
     Filter(lane.slots, IsComplete))
  }

  function Vacated(lane: Lane): (r: Lane)
    requires lane.Sized()
    ensures r.Sized()
  {
    lane.(slots := seq(CAPACITY, i => NO_SLOT), completed := false, ready := false)
  }

  /** What a selected job's slot is given: no apartment, a spent budget, or the job's own answer. */
  function Outcome(apartment: HResult, age: nat, answer: HResult): (r: HResult) {
    if !apartment.Succeeded() then apartment
    else if age >= BUDGET_MILLISECONDS then Timeout
    else answer
  }

  lemma NextSwept(slots: seq<Slot>, i: nat)
    requires i < |slots|
    ensures Filter(slots[..i + 1], IsComplete) ==
              Filter(slots[..i], IsComplete) + if IsComplete(slots[i]) then [slots[i]] else []
  {
    assert slots[..i + 1] == slots[..i] + [slots[i]];
    FilterSnoc(slots[..i], slots[i], IsComplete);
  }

  class ControlWorkQueue {
    const slots: array<Slot>
    var lastSelected: nat
    var completed: bool
    var ready: bool
    var running: bool

    ghost predicate Valid()
      reads this
    {
      slots.Length == CAPACITY && lastSelected < CAPACITY
    }

    ghost function Value(): (lane: Lane)
      reads this, slots
      requires Valid()
      ensures lane.Sized()
    {
      Lane(slots[..], lastSelected, completed, ready)
    }

    constructor ()
      ensures Valid() && fresh(slots)
      ensures Value() == Lane(seq(CAPACITY, i => NO_SLOT), CAPACITY - 1, false, false) && !running
    {
      slots := new Slot[CAPACITY](i => NO_SLOT);
      lastSelected, completed, ready, running := CAPACITY - 1, false, false, false;
      new;
      assert slots[..] == seq(CAPACITY, i => NO_SLOT);
    }

    method Enqueue(work: Option<Work>, now: nat) returns (result: HResult)
      requires Valid()
      modifies this`ready, slots
      ensures Valid()
      ensures (Value(), result) == Enqueued(old(Value()), running, work, now)
    {
      if work.None? {
        return Pointer;
      }
      if !running {
        return Unexpected;
      }
      result := Submit(work.value, now);
    }

    // The part of Enqueue under the lock.
    method Submit(work: Work, now: nat) returns (result: HResult)
      requires Valid()
      modifies this`ready, slots
      ensures Valid()
      ensures (Value(), result) == Submitted(old(Value()), work, now)
    {
      ghost var was := slots[..];
      for i := 0 to CAPACITY
        invariant slots[..] == was && ready == old(ready)
        invariant forall j :: 0 <= j < i ==> !Holds(work, was[j])
      {
        if slots[i].work != Some(work) {
          continue;
        }
        FirstIs(was, (slot: Slot) => Holds(work, slot), i);
        if slots[i].state != Queued {
          slots[i] := slots[i].(rerun := true);
          assert slots[..] == was[i := was[i].(rerun := true)];
        }
        return False;
      }
      FirstIs(was, (slot: Slot) => Holds(work, slot), CAPACITY);
      for i := 0 to CAPACITY
        invariant slots[..] == was && ready == old(ready)
        invariant forall j :: 0 <= j < i ==> !IsEmpty(was[j])
      {
        if slots[i].state != Empty {
          continue;
        }
        FirstIs(was, IsEmpty, i);
        slots[i] := slots[i].(work := Some(work), state := Queued, queuedAt := now);
        assert slots[..] == was[i := was[i].(work := Some(work), state := Queued, queuedAt := now)];
        ready := true;
        return Ok;
      }
      FirstIs(was, IsEmpty, CAPACITY);
      return Busy;
    }

    method Select() returns (selected: Option<nat>)
      requires Valid()
      modifies this`lastSelected, slots
      ensures Valid()
      ensures (Value(), selected) == Selected(old(Value()))
    {
      ghost var was := slots[..];
      for offset := 1 to CAPACITY + 1
        invariant slots[..] == was && lastSelected == old(lastSelected)
        invariant Pick(Queueds(was), lastSelected) == PickFrom(Queueds(was), lastSelected, offset)
      {
        var i := (lastSelected + offset) % CAPACITY;
        if slots[i].state != Queued {
          continue;
        }
        lastSelected := i;
        slots[i] := slots[i].(state := Running);
        assert slots[..] == was[i := was[i].(state := Running)];
        return Some(i);
      }
      return None;
    }

    method Publish(selected: nat, result: HResult)
      requires Valid() && selected < CAPACITY
      modifies this`completed, slots
      ensures Valid()
      ensures Value() == Published(old(Value()), selected, result)
    {
      ghost var was := slots[..];
      slots[selected] := slots[selected].(result := result, state := Complete);
      assert slots[..] == was[selected := was[selected].(result := result, state := Complete)];
      completed := true;
    }

    // The first step of a drain: the completion flag is read and cleared at once.
    method Exchange() returns (was: bool)
      requires Valid()
      modifies this`completed
      ensures Valid()
      ensures was == old(completed) && Value() == old(Value()).(completed := false)
    {
      was, completed := completed, false;
    }

    method Sweep() returns (ready: seq<Slot>)
      requires Valid()
      modifies slots
      ensures Valid()
      ensures (Value(), ready) == Swept(old(Value()))
    {
      ghost var was := slots[..];
      ready := [];
      for i := 0 to CAPACITY
        invariant forall j :: 0 <= j < i ==> slots[j] == Cleared(was[j])
        invariant forall j :: i <= j < CAPACITY ==> slots[j] == was[j]
        invariant ready == Filter(was[..i], IsComplete)
      {
        NextSwept(was, i);
        if slots[i].state != Complete {
          continue;
        }
        ready := ready + [slots[i]];
        slots[i] := NO_SLOT;
      }
      assert was[..CAPACITY] == was;
      assert slots[..] == seq(CAPACITY, i requires 0 <= i < CAPACITY => Cleared(was[i]));
    }

    // The end of Stop, after the worker is joined.
    method Vacate()
      requires Valid()
      modifies this, slots
      ensures Valid()
      ensures Value() == Vacated(old(Value())) && !running
    {
      forall i | 0 <= i < CAPACITY {
        slots[i] := NO_SLOT;
      }
      assert slots[..] == seq(CAPACITY, i => NO_SLOT);
      completed, ready, running := false, false, false;
    }
  }
}
