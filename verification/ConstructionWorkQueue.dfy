// RedXe/ConstructionWorkQueue: the fixed slots of the construction lane, the operations performed on them under its
// lock, and the class that updates them in place.
module ConstructionLanes {
  import opened Basics
  import opened RoundRobin

  const WORK_MILLISECONDS: nat := 3000
  const STOP_MILLISECONDS: nat := 1000

  datatype SlotState = Empty | Queued | Running | Complete

  datatype Slot = Slot(work: Option<Work>, state: SlotState, result: HResult, queuedAt: nat)

  const NO_SLOT := Slot(None, Empty, Ok, 0)

  datatype Lane = Lane(slots: seq<Slot>, lastSelected: nat, completed: bool, ready: bool)
  {
    ghost predicate Sized() { |slots| == CAPACITY && lastSelected < CAPACITY }
  }

  function NewLane(): (lane: Lane)
    ensures lane.Sized()
  {
    Lane(seq(CAPACITY, i => NO_SLOT), CAPACITY - 1, false, false)
  }

  predicate Holds(w: Work, slot: Slot) { slot.work == Some(w) }
  predicate IsEmpty(slot: Slot) { slot.state.Empty? }
  predicate IsComplete(slot: Slot) { slot.state.Complete? }
  /** What a Stop discards: queued jobs and undelivered results, never the Running slot. */
  predicate IsIdleJob(slot: Slot) { slot.state.Queued? || slot.state.Complete? }
  function Queueds(slots: seq<Slot>): (q: seq<bool>) {
    seq(|slots|, i requires 0 <= i < |slots| => slots[i].state.Queued?)
  }
  function Without(slot: Slot, p: Slot -> bool): (r: Slot) { if p(slot) then NO_SLOT else slot }
  function AllWithout(slots: seq<Slot>, p: Slot -> bool): (r: seq<Slot>)
    ensures |r| == |slots|
  {
    seq(|slots|, i requires 0 <= i < |slots| => Without(slots[i], p))
  }

  function Submitted(lane: Lane, work: Work, now: nat): (r: (Lane, HResult))
    requires lane.Sized()
    ensures r.0.Sized()
  {
    var held := First(lane.slots, (slot: Slot) => Holds(work, slot));
    var free := First(lane.slots, IsEmpty);
    if held < CAPACITY then (lane, False)
    else if free < CAPACITY then
      (lane.(slots := lane.slots[free := lane.slots[free].(work := Some(work), state := Queued, queuedAt := now)],
             ready := true), Ok)
    else (lane, Busy)
  }

  function Enqueued(lane: Lane, running: bool, stop: bool, work: Option<Work>, now: nat): (r: (Lane, HResult))
    requires lane.Sized()
    ensures r.0.Sized()
  {
    if work.None? then (lane, Pointer)
    else if !running || stop then (lane, Unexpected)
    else Submitted(lane, work.value, now)
  }

  function Selected(lane: Lane): (r: (Lane, Option<nat>))
    requires lane.Sized()
    ensures r.0.Sized()
    ensures r.1.Some? ==> r.1.value < CAPACITY
  {
    var picked := Pick(Queueds(lane.slots), lane.lastSelected);
    if picked.None? then (lane, None) else
    var i := picked.value;
    (lane.(slots := lane.slots[i := lane.slots[i].(state := Running)], lastSelected := i), picked)
  }

  /** A selection takes a Queued slot, the one nearest behind the last; without one the worker goes back to its wait. */
  lemma SelectCases(lane: Lane)
    requires lane.Sized()
    ensures var (after, selected) := Selected(lane);
            if selected.None? then
              after == lane && forall i :: 0 <= i < CAPACITY ==> !lane.slots[i].state.Queued?
            else
              var i := selected.value;
              lane.slots[i].state.Queued? &&
              after == lane.(slots := lane.slots[i := lane.slots[i].(state := Running)], lastSelected := i) &&
              forall j :: 0 <= j < CAPACITY && lane.slots[j].state.Queued? ==>
                Distance(lane.lastSelected, i) <= Distance(lane.lastSelected, j)
  {
    PickNearest(Queueds(lane.slots), lane.lastSelected);
    assert forall i :: 0 <= i < CAPACITY ==> Queueds(lane.slots)[i] == lane.slots[i].state.Queued?;
  }

  /** The completion flag is raised, and the UI thread notified, only while no stop is signalled. */
  function Published(lane: Lane, selected: nat, result: HResult, stop: bool): (r: Lane)
    requires lane.Sized() && selected < CAPACITY
    ensures r.Sized()
  {
    lane.(slots := lane.slots[selected := lane.slots[selected].(result := result, state := Complete)],
          completed := lane.completed || !stop)
  }

  /** Every slot satisfying `p` moves out, in slot order, and leaves an empty slot behind. */
  function MovedOut(lane: Lane, p: Slot -> bool): (r: (Lane, seq<Slot>))
    requires lane.Sized()
    ensures r.0.Sized()
  {
    (lane.(slots := AllWithout(lane.slots, p)), Filter(lane.slots, p))
  }

  /** What a selected job's slot is given. `started` and `ended` are its ages around Run. */
  function Outcome(apartment: HResult, started: nat, answer: HResult, ended: nat): (r: HResult) {
    var result := if !apartment.Succeeded() then apartment
                  else if started >= WORK_MILLISECONDS then Timeout
                  else answer;
    if result.Succeeded() && ended >= WORK_MILLISECONDS then Timeout else result
  }

  /** No success is published after the budget. */
  lemma SuccessIsInTime(apartment: HResult, started: nat, answer: HResult, ended: nat)
    requires started <= ended
    ensures Outcome(apartment, started, answer, ended).Succeeded() <==>
              apartment.Succeeded() && answer.Succeeded() && ended < WORK_MILLISECONDS
  {
  }

  lemma NextDiscarded(slots: seq<Slot>, i: nat)
    requires i < |slots|
    ensures Filter(slots[..i + 1], IsIdleJob) ==
              Filter(slots[..i], IsIdleJob) + if IsIdleJob(slots[i]) then [slots[i]] else []
  {
    assert slots[..i + 1] == slots[..i] + [slots[i]];
    FilterSnoc(slots[..i], slots[i], IsIdleJob);
  }

  class ConstructionWorkQueue {
    const slots: array<Slot>
    var lastSelected: nat
    var completed: bool
    var ready: bool
    var running: bool
    var stop: bool
    var waitedOut: bool

    ghost predicate Valid()
      reads this
    {
      slots.Length == CAPACITY && lastSelected < CAPACITY
    }

    ghost function Value(): (lane: Lane)
      reads this, slots
      requires Valid()
      ensures lane.Sized()
    {
      Lane(slots[..], lastSelected, completed, ready)
    }

    constructor ()
      ensures Valid() && fresh(slots)
      ensures Value() == NewLane() && !running && !stop && !waitedOut
    {
      slots := new Slot[CAPACITY](i => NO_SLOT);
      lastSelected, completed, ready, running, stop, waitedOut := CAPACITY - 1, false, false, false, false, false;
      new;
      assert slots[..] == NewLane().slots;
    }

    method Enqueue(work: Option<Work>, now: nat) returns (result: HResult)
      requires Valid()
      modifies this`ready, slots
      ensures Valid()
      ensures (Value(), result) == Enqueued(old(Value()), running, stop, work, now)
    {
      if work.None? {
        return Pointer;
      }
      if !running || stop {
        return Unexpected;
      }
      ghost var was := slots[..];
      for i := 0 to CAPACITY
        invariant slots[..] == was && ready == old(ready)
        invariant forall j :: 0 <= j < i ==> !Holds(work.value, was[j])
      {
        if slots[i].work == work {
          FirstIs(was, (slot: Slot) => Holds(work.value, slot), i);
          return False;
        }
      }
      FirstIs(was, (slot: Slot) => Holds(work.value, slot), CAPACITY);
      for i := 0 to CAPACITY
        invariant slots[..] == was && ready == old(ready)
        invariant forall j :: 0 <= j < i ==> !IsEmpty(was[j])
      {
        if slots[i].state != Empty {
          continue;
        }
        FirstIs(was, IsEmpty, i);
        slots[i] := slots[i].(work := work, state := Queued, queuedAt := now);
        assert slots[..] == was[i := was[i].(work := work, state := Queued, queuedAt := now)];
        ready := true;
        return Ok;
      }
      FirstIs(was, IsEmpty, CAPACITY);
      return Busy;
    }

    method Select() returns (selected: Option<nat>)
      requires Valid()
      modifies this`lastSelected, slots
      ensures Valid()
      ensures (Value(), selected) == Selected(old(Value()))
    {
      ghost var was := slots[..];
      for offset := 1 to CAPACITY + 1
        invariant slots[..] == was && lastSelected == old(lastSelected)
        invariant Pick(Queueds(was), lastSelected) == PickFrom(Queueds(was), lastSelected, offset)
      {
        var i := (lastSelected + offset) % CAPACITY;
        if slots[i].state != Queued {
          continue;
        }
        lastSelected := i;
        slots[i] := slots[i].(state := Running);
        assert slots[..] == was[i := was[i].(state := Running)];
        return Some(i);
      }
      return None;
    }

    method Publish(selected: nat, result: HResult) returns (notify: bool)
      requires Valid() && selected < CAPACITY
      modifies this`completed, slots
      ensures Valid()
      ensures notify == !stop && Value() == Published(old(Value()), selected, result, stop)
    {
      ghost var was := slots[..];
      slots[selected] := slots[selected].(result := result, state := Complete);
      assert slots[..] == was[selected := was[selected].(result := result, state := Complete)];
      notify := !stop;
      if notify {
        completed := true;
      }
    }

    // The locked part of a drain.
    method Sweep() returns (ready: seq<Slot>)
      requires Valid()
      modifies slots
      ensures Valid()
      ensures (Value(), ready) == MovedOut(old(Value()), IsComplete)
    {
      ghost var was := slots[..];
      ready := [];
      for i := 0 to CAPACITY
        invariant forall j :: 0 <= j < i ==> slots[j] == Without(was[j], IsComplete)
        invariant forall j :: i <= j < CAPACITY ==> slots[j] == was[j]
        invariant ready == Filter(was[..i], IsComplete)
      {
        assert was[..i + 1] == was[..i] + [was[i]];
        FilterSnoc(was[..i], was[i], IsComplete);
        if slots[i].state != Complete {
          continue;
        }
        ready := ready + [slots[i]];
        slots[i] := NO_SLOT;
      }
      assert was[..CAPACITY] == was;
      assert slots[..] == AllWithout(was, IsComplete);
    }

    // The locked part of Stop, after the stop event is set.
    method Discard() returns (discarded: seq<Slot>, inProgress: bool)
      requires Valid()
      modifies slots
      ensures Valid()
      ensures (Value(), discarded) == MovedOut(old(Value()), IsIdleJob)
      ensures inProgress <==> exists i :: 0 <= i < CAPACITY && old(slots[i].state.Running?)
    {
      ghost var was := slots[..];
      discarded, inProgress := [], false;
      for i := 0 to CAPACITY
        invariant forall j :: 0 <= j < i ==> slots[j] == Without(was[j], IsIdleJob)
        invariant forall j :: i <= j < CAPACITY ==> slots[j] == was[j]
        invariant discarded == Filter(was[..i], IsIdleJob)
        invariant inProgress <==> exists j :: 0 <= j < i && was[j].state.Running?
      {
        NextDiscarded(was, i);
        if slots[i].state == Running {
          inProgress := true;
        } else if slots[i].state != Empty {
          discarded := discarded + [slots[i]];
          slots[i] := NO_SLOT;
        }
      }
      assert was[..CAPACITY] == was;
      assert slots[..] == AllWithout(was, IsIdleJob);
    }

    method Reset()
      requires Valid()
      modifies this, slots
      ensures Valid()
      ensures Value() == NewLane() && !running && !stop && !waitedOut
    {
      forall i | 0 <= i < CAPACITY {
        slots[i] := NO_SLOT;
      }
      lastSelected, completed, ready, running, stop, waitedOut := CAPACITY - 1, false, false, false, false, false;
      assert slots[..] == NewLane().slots;
    }
  }
}
