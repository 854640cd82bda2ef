// RedXe/LaunchWorker: a ring of eight fixed slots, the operations performed on it under the slot lock, and the class
// that updates the ring in place.
module LaunchRings {
  import opened Basics

  /** A copied launch request; its text is opaque here. */
  type Request = nat

  const SLOT_COUNT: nat := 8

  datatype SlotState = Empty | Queued | Running | Complete

  datatype Slot = Slot(request: Request, state: SlotState, result: HResult)

  const NO_SLOT := Slot(0, Empty, Ok)

  datatype Ring = Ring(slots: seq<Slot>, head: nat, count: nat)
  {
    ghost predicate Sized() { |slots| == SLOT_COUNT && head < SLOT_COUNT && count <= SLOT_COUNT }

    function Index(offset: nat): (i: nat) { (head + offset) % SLOT_COUNT }

    /** The slots read from the head; the first `count` are the ring's contents in submission order. */
    function View(): (view: seq<Slot>)
      requires Sized()
      ensures |view| == SLOT_COUNT
    {
      seq(SLOT_COUNT, k requires 0 <= k => slots[Index(k)])
    }
  }

  function Pushed(ring: Ring, request: Request): (r: (Ring, HResult))
    requires ring.Sized()
    ensures r.0.Sized()
  {
    if ring.count == SLOT_COUNT then (ring, Busy) else
    (ring.(slots := ring.slots[ring.Index(ring.count) := Slot(request, Queued, Ok)],
           count := ring.count + 1), Ok)
  }

  function TakenFrom(ring: Ring, offset: nat): (r: (Ring, Option<nat>))
    requires ring.Sized() && offset <= ring.count
    ensures r.0.Sized() && (r.1.Some? ==> r.1.value < SLOT_COUNT)
    decreases ring.count - offset
  {
    if offset == ring.count then (ring, None)
    else if ring.slots[ring.Index(offset)].state.Queued? then
      var i := ring.Index(offset);
      (ring.(slots := ring.slots[i := ring.slots[i].(state := Running)]), Some(i))
    else TakenFrom(ring, offset + 1)
  }

  /** The worker's next launch: the first Queued slot from the head becomes Running. */
  function Taken(ring: Ring): (r: (Ring, Option<nat>))
    requires ring.Sized()
    ensures r.0.Sized() && (r.1.Some? ==> r.1.value < SLOT_COUNT)
  {
    TakenFrom(ring, 0)
  }

  function Finished(ring: Ring, i: nat, result: HResult): (r: Ring)
    requires ring.Sized() && i < SLOT_COUNT
    ensures r.Sized()
  {
    ring.(slots := ring.slots[i := ring.slots[i].(result := result, state := Complete)])
  }

  /** One turn of a drain: the head slot leaves the ring when it is Complete. */
  function Popped(ring: Ring): (r: (Ring, Option<Slot>))
    requires ring.Sized()
    ensures r.0.Sized()
  {
    if ring.count == 0 || !ring.slots[ring.head].state.Complete? then (ring, None) else
    (ring.(slots := ring.slots[ring.head := ring.slots[ring.head].(state := Empty)],
           head := (ring.head + 1) % SLOT_COUNT, count := ring.count - 1), Some(ring.slots[ring.head]))
  }

  ghost predicate Launching(ring: Ring)
  {
    exists i :: 0 <= i < |ring.slots| && ring.slots[i].state.Running?
  }

  function Emptied(ring: Ring): (r: Ring)
    requires ring.Sized()
    ensures r.Sized()
  {
    Ring(seq(SLOT_COUNT, i requires 0 <= i < SLOT_COUNT => ring.slots[i].(state := Empty)), 0, 0)
  }

  /** Writing the slot at one offset writes the view there. */
  lemma UpdatedView(ring: Ring, offset: nat, slot: Slot)
    requires ring.Sized() && offset < SLOT_COUNT
    ensures ring.(slots := ring.slots[ring.Index(offset) := slot]).View() == ring.View()[offset := slot]
  {
  }

  /** A new request goes in behind the contents. */
  lemma PushedView(ring: Ring, request: Request)
    requires ring.Sized() && ring.count < SLOT_COUNT
    ensures Pushed(ring, request).0.View() == ring.View()[ring.count := Slot(request, Queued, Ok)]
  {
    UpdatedView(ring, ring.count, Slot(request, Queued, Ok));
    var r := Pushed(ring, request).0;
    assert forall k :: 0 <= k < SLOT_COUNT ==> r.Index(k) == ring.Index(k);
  }

  /** A drained slot leaves at the head. */
  lemma PoppedView(ring: Ring)
    requires ring.Sized() && ring.count > 0 && ring.View()[0].state.Complete?
    ensures ring.slots[ring.head] == ring.View()[0]
    ensures Popped(ring).1 == Some(ring.View()[0]) && Popped(ring).0.count == ring.count - 1
    ensures Popped(ring).0.View() == ring.View()[1..] + [ring.View()[0].(state := Empty)]
    ensures forall k: nat :: Popped(ring).0.Index(k) == ring.Index(k + 1)
  {
    var r := Popped(ring).0;
    assert ring.slots[ring.head] == ring.View()[0];
    assert forall k: nat :: r.Index(k) == ring.Index(k + 1);
    assert ring.Index(SLOT_COUNT) == ring.head;
    forall k | 0 <= k < SLOT_COUNT - 1
      ensures r.View()[k] == ring.View()[k + 1]
    {
      assert ring.Index(k + 1) != ring.head;
    }
  }

  lemma {:induction false} TakenFirst(ring: Ring, from: nat, queued: nat)
    requires ring.Sized() && from <= queued <= ring.count
    requires forall k :: from <= k < queued ==> !ring.View()[k].state.Queued?
    requires queued < ring.count ==> ring.View()[queued].state.Queued?
    ensures queued == ring.count ==> TakenFrom(ring, from) == (ring, None)
    ensures queued < ring.count ==>
              var (r, i) := TakenFrom(ring, from);
              i == Some(ring.Index(queued)) && r.head == ring.head && r.count == ring.count &&
              r.View() == ring.View()[queued := ring.View()[queued].(state := Running)]
    decreases queued - from
  {
    if from < queued {
      assert ring.slots[ring.Index(from)] == ring.View()[from];
      TakenFirst(ring, from + 1, queued);
    } else if queued < ring.count {
      assert ring.slots[ring.Index(queued)] == ring.View()[queued];
      UpdatedView(ring, queued, ring.View()[queued].(state := Running));
    }
  }

  class LaunchWorker {
    const slots: array<Slot>
    var head: nat
    var count: nat

    ghost predicate Valid()
      reads this
    {
      slots.Length == SLOT_COUNT && head < SLOT_COUNT && count <= SLOT_COUNT
    }

    ghost function Value(): (ring: Ring)
      reads this, slots
      requires Valid()
      ensures ring.Sized()
    {
      Ring(slots[..], head, count)
    }

    constructor ()
      ensures Valid() && fresh(slots)
      ensures Value() == Ring(seq(SLOT_COUNT, i => NO_SLOT), 0, 0)
    {
      slots := new Slot[SLOT_COUNT](i => NO_SLOT);
      head, count := 0, 0;
      new;
      assert slots[..] == seq(SLOT_COUNT, i => NO_SLOT);
    }

    // The locked part of Enqueue.
    method Push(request: Request) returns (result: HResult)
      requires Valid()
      modifies this`count, slots
      ensures Valid()
      ensures (Value(), result) == Pushed(old(Value()), request)
    {
      if count == SLOT_COUNT {
        return Busy;
      }
      ghost var was := slots[..];
      var tail := (head + count) % SLOT_COUNT;
      slots[tail] := Slot(request, Queued, Ok);
      assert slots[..] == was[tail := Slot(request, Queued, Ok)];
      count := count + 1;
      return Ok;
    }

    method Take() returns (running: Option<nat>)
      requires Valid()
      modifies slots
      ensures Valid()
      ensures (Value(), running) == Taken(old(Value()))
    {
      ghost var was := Value();
      var offset := 0;
      running := None;
      while offset < count && running.None?
        invariant offset <= count && Valid()
        invariant running.None? ==> Value() == was && Taken(was) == TakenFrom(was, offset)
        invariant running.Some? ==> (Value(), running) == Taken(was)
        decreases count - offset, if running.None? then 1 else 0
      {
        var i := (head + offset) % SLOT_COUNT;
        if slots[i].state == Queued {
          slots[i] := slots[i].(state := Running);
          assert slots[..] == was.slots[i := was.slots[i].(state := Running)];
          running := Some(i);
        }
        offset := offset + 1;
      }
    }

    method Finish(running: nat, result: HResult)
      requires Valid() && running < SLOT_COUNT
      modifies slots
      ensures Valid()
      ensures Value() == Finished(old(Value()), running, result)
    {
      ghost var was := slots[..];
      slots[running] := slots[running].(result := result, state := Complete);
      assert slots[..] == was[running := was[running].(result := result, state := Complete)];
    }

    method Pop() returns (done: Option<Slot>)
      requires Valid()
      modifies this`head, this`count, slots
      ensures Valid()
      ensures (Value(), done) == Popped(old(Value()))
    {
      if count == 0 || slots[head].state != Complete {
        return None;
      }
      ghost var was := slots[..];
      done := Some(slots[head]);
      slots[head] := slots[head].(state := Empty);
      assert slots[..] == was[head := was[head].(state := Empty)];
      head := (head + 1) % SLOT_COUNT;
      count := count - 1;
    }

    // The loop of a Stop whose wait ran out.
    method Probe() returns (launching: bool)
      requires Valid()
      ensures launching <==> Launching(Value())
    {
      launching := false;
      for i := 0 to SLOT_COUNT
        invariant launching <==> exists j :: 0 <= j < i && slots[j].state.Running?
      {
        launching := launching || slots[i].state == Running;
      }
      assert forall j :: 0 <= j < SLOT_COUNT ==> Value().slots[j] == slots[j];
    }

    // The end of a Stop that joined the thread.
    method Clear()
      requires Valid()
      modifies this, slots
      ensures Valid()
      ensures Value() == Emptied(old(Value()))
    {
      ghost var was := slots[..];
      for i := 0 to SLOT_COUNT
        invariant forall j :: 0 <= j < i ==> slots[j] == was[j].(state := Empty)
        invariant forall j :: i <= j < SLOT_COUNT ==> slots[j] == was[j]
      {
        slots[i] := slots[i].(state := Empty);
      }
      head, count := 0, 0;
      assert slots[..] == seq(SLOT_COUNT, i requires 0 <= i < SLOT_COUNT => was[i].(state := Empty));
    }
  }
}
