// The control lane as a step system: the UI thread and the worker thread interleave one atomic step at a time, a step
// being one lock section, one event or flag operation, or one callback boundary of RedXe/ControlWorkQueue.cpp.
module ControlProtocol {
  import opened Basics
  import opened RoundRobin
  import opened ControlLanes

  // Blocked: in the wait on the stop and wake events. Checking: before the stop test of the inner loop.
  // Scanning: between that test and the lock. Performing: the slot is Running, its job or verdict is being computed.
  datatype Worker = Blocked | Checking | Scanning | Performing(slot: nat) | Notifying | Exited

  // A drain is Exchanging, then Sweeping, then Delivering its swept copies one by one; InCallback is inside Complete
  // of the first remaining copy. Joining is inside Stop, which returns to where it was called.
  datatype Ui =
    | Idle
    | Exchanging
    | Sweeping
    | Delivering(todo: seq<Slot>)
    | InCallback(todo: seq<Slot>)
    | Joining(back: Ui)

  datatype State = State(
    lane: Lane,
    running: bool,
    stop: bool,
    apartment: HResult,
    worker: Worker,
    ui: Ui,
    posted: bool,           // a completion message is on its way to the UI thread
    selections: seq<Work>,  // history: every work selected, a Run or a timeout verdict
    borrowed: nat)          // history: free slots that callbacks of the current drain have taken

  datatype Event =
    // UI thread
    | Start(apartment: HResult)
    | Enqueue(work: Option<Work>, now: nat)
    | Message
    | Exchange
    | Sweep
    | BeginComplete
    | EndComplete(now: nat)
    | StopBegin
    | StopJoined
    // worker thread
    | Wake
    | CheckStop
    | SelectNext
    | Finish(now: nat, answer: HResult)
    | Notify
    // another source of the same UI message
    | Invalidate

  function Initial(): (r: State) {
    State(Lane(seq(CAPACITY, i => NO_SLOT), CAPACITY - 1, false, false), false, false, Ok, Exited, Idle, false, [], 0)
  }

  /** Where plugins and the host may call Enqueue, Start and Stop. */
  predicate Free(ui: Ui) { ui.Idle? || ui.InCallback? }

  predicate Enabled(s: State, e: Event)
  {
    match e
    case Start(_) => Free(s.ui) && !s.running
    case Enqueue(_, _) => Free(s.ui)
    case Message => s.ui.Idle? && s.posted
    case Exchange => s.ui.Exchanging?
    case Sweep => s.ui.Sweeping?
    case BeginComplete => s.ui.Delivering?
    case EndComplete(_) => s.ui.InCallback? && s.ui.todo != []
    case StopBegin => Free(s.ui) && s.running
    case StopJoined => s.ui.Joining? && s.worker.Exited?
    case Wake => s.worker.Blocked? && (s.stop || s.lane.ready)
    case CheckStop => s.worker.Checking?
    case SelectNext => s.worker.Scanning?
    case Finish(now, _) =>
      s.worker.Performing? && s.worker.slot < |s.lane.slots| && s.lane.slots[s.worker.slot].queuedAt <= now
    case Notify => s.worker.Notifying?
    case Invalidate => true
  }

  function Next(s: State, e: Event): (s': State)
    requires s.lane.Sized() && Enabled(s, e)
    ensures s'.lane.Sized()
  {
    match e
    case Start(apartment) =>
      s.(running := true, stop := false, worker := Blocked, apartment := apartment, lane := s.lane.(ready := false))
    case Enqueue(work, now) =>
      var (lane, result) := Enqueued(s.lane, s.running, work, now);
      s.(lane := lane, borrowed := s.borrowed + if s.ui.InCallback? && result.Ok? then 1 else 0)
    case Message => s.(posted := false, ui := Exchanging)
    case Exchange => s.(ui := if s.lane.completed then Sweeping else Idle, lane := s.lane.(completed := false))
    case Sweep =>
      var (lane, ready) := Swept(s.lane);
      s.(lane := lane, ui := Delivering(ready), borrowed := 0)
    case BeginComplete => s.(ui := if s.ui.todo == [] || !s.running then Idle else InCallback(s.ui.todo))
    case EndComplete(now) =>
      var done, rest := s.ui.todo[0], s.ui.todo[1..];
      s.(ui := Delivering(rest),
         lane := if done.rerun && s.running then Enqueued(s.lane, s.running, done.work, now).0 else s.lane)
    case StopBegin => s.(stop := true, ui := Joining(s.ui))
    case StopJoined => s.(lane := Vacated(s.lane), running := false, stop := false, ui := s.ui.back)
    case Wake =>
      if s.stop then s.(worker := Exited) else s.(worker := Checking, lane := s.lane.(ready := false))
    case CheckStop => s.(worker := if s.stop then Exited else Scanning)
    case SelectNext =>
      var (lane, selected) := Selected(s.lane);
      if selected.None? || lane.slots[selected.value].work.None? then s.(lane := lane, worker := Blocked)
      else
        s.(lane := lane, worker := Performing(selected.value),
           selections := s.selections + [lane.slots[selected.value].work.value])
    case Finish(now, answer) =>
      var i := s.worker.slot;
      s.(lane := Published(s.lane, i, Outcome(s.apartment, now - s.lane.slots[i].queuedAt, answer)),
         worker := Notifying)
    case Notify => s.(posted := true, worker := Checking)
    case Invalidate => s.(posted := true)
  }

  // ---------------------------------------------------------------------------------------------------------------
  // The inductive invariant

  ghost predicate SlotConsistent(slot: Slot) {
    && (slot.state.Empty? <==> slot.work.None?)
    && (slot.state.Empty? ==> slot == NO_SLOT)
    && (slot.state.Queued? ==> !slot.rerun)
  }

  ghost predicate Drained(todo: seq<Slot>) {
    forall i :: 0 <= i < |todo| ==> todo[i].work.Some? && todo[i].state.Complete?
  }

  function UiTodo(ui: Ui): (todo: seq<Slot>) {
    match ui
    case Delivering(todo) => todo
    case InCallback(todo) => todo
    case Joining(back) => UiTodo(back)
    case _ => []
  }

  function EmptyUnit(slot: Slot): (r: nat) { if slot.state.Empty? then 1 else 0 }

  ghost predicate Distinct(slots: seq<Slot>) {
    forall i, j :: 0 <= i < j < |slots| && slots[i].work.Some? ==> slots[i].work != slots[j].work
  }

  /** The slots themselves: works distinct, Running exactly where the worker performs. */
  ghost predicate SlotsOk(s: State) {
    && s.lane.Sized()
    && (forall i :: 0 <= i < CAPACITY ==> SlotConsistent(s.lane.slots[i]))
    && Distinct(s.lane.slots)
    && (s.worker.Performing? ==> s.worker.slot < CAPACITY)
    && (forall i :: 0 <= i < CAPACITY ==> (s.lane.slots[i].state.Running? <==> s.worker == Performing(i)))
  }

  /** No wake-up and no completion is ever lost. */
  ghost predicate SignalsOk(s: State)
    requires s.lane.Sized()
  {
    && (s.running && !s.stop && s.worker.Blocked? && !s.lane.ready ==>
          forall i :: 0 <= i < CAPACITY ==> !s.lane.slots[i].state.Queued?)
    && (!s.ui.Sweeping? && !s.lane.completed ==> forall i :: 0 <= i < CAPACITY ==> !s.lane.slots[i].state.Complete?)
    && (s.lane.completed ==> s.posted || s.worker.Notifying? || s.ui.Exchanging?)
  }

  ghost predicate ThreadsOk(s: State)
    requires s.lane.Sized()
  {
    && (s.stop <==> s.ui.Joining?)
    && (s.stop ==> s.running && Free(s.ui.back))
    && (s.running && s.worker.Exited? ==> s.stop)
    && (!s.running ==> s.worker.Exited? && !s.lane.completed)
    && (!s.running ==> forall i :: 0 <= i < CAPACITY ==> s.lane.slots[i] == NO_SLOT)
  }

  /** The swept copies, and the free slots kept back for their reruns. */
  ghost predicate DrainOk(s: State)
    requires s.lane.Sized()
  {
    && Drained(UiTodo(s.ui)) && Distinct(UiTodo(s.ui))
    && (s.ui.InCallback? || (s.ui.Joining? && s.ui.back.InCallback?) ==> UiTodo(s.ui) != [])
    && |UiTodo(s.ui)| <= CAPACITY
    && |UiTodo(s.ui)| <= Sum(s.lane.slots, EmptyUnit) + s.borrowed
  }

  ghost predicate Inv(s: State) { SlotsOk(s) && SignalsOk(s) && ThreadsOk(s) && DrainOk(s) }

  lemma {:induction false} FilterDistinct(slots: seq<Slot>)
    requires Distinct(slots) && forall i :: 0 <= i < |slots| ==> SlotConsistent(slots[i])
    ensures Distinct(Filter(slots, IsComplete)) && Drained(Filter(slots, IsComplete))
  {
    if slots != [] {
      var rest := slots[1..];
      FilterDistinct(rest);
      FilterMembers(rest, IsComplete);
      forall k | 0 <= k < |Filter(rest, IsComplete)|
        ensures Filter(rest, IsComplete)[k].work != slots[0].work || slots[0].work.None?
      {
        assert Filter(rest, IsComplete)[k] in rest;
      }
    }
  }

  lemma {:induction false} SweepFrees(slots: seq<Slot>, after: seq<Slot>)
    requires |after| == |slots| && forall i :: 0 <= i < |slots| ==> after[i] == Cleared(slots[i])
    ensures Sum(after, EmptyUnit) == Sum(slots, EmptyUnit) + |Filter(slots, IsComplete)|
  {
    if slots != [] {
      SweepFrees(slots[1..], after[1..]);
    }
  }

  lemma {:induction false} AllEmpty(slots: seq<Slot>)
    requires forall i :: 0 <= i < |slots| ==> slots[i].state.Empty?
    ensures Sum(slots, EmptyUnit) == |slots|
  {
    if slots != [] {
      AllEmpty(slots[1..]);
    }
  }

  /** The four ways a submission ends. */
  lemma SubmitCases(lane: Lane, work: Work, now: nat)
    requires lane.Sized()
    ensures var (after, result) := Submitted(lane, work, now);
            var held := First(lane.slots, (slot: Slot) => Holds(work, slot));
            var free := First(lane.slots, IsEmpty);
            if held < CAPACITY then
              result == False && Holds(work, lane.slots[held]) &&
              after == (if lane.slots[held].state.Queued? then lane
                        else lane.(slots := lane.slots[held := lane.slots[held].(rerun := true)]))
            else if free < CAPACITY then
              result == Ok && lane.slots[free].state.Empty? &&
              after == lane.(slots := lane.slots[free := lane.slots[free].(work := Some(work), state := Queued,
                                                                           queuedAt := now)],
                             ready := true)
            else result == Busy && after == lane && forall i :: 0 <= i < CAPACITY ==> !lane.slots[i].state.Empty?
    ensures First(lane.slots, (slot: Slot) => Holds(work, slot)) >= CAPACITY ==>
              forall i :: 0 <= i < CAPACITY ==> !Holds(work, lane.slots[i])
  {
  }

  /** A submission keeps the slots in order and takes at most one of the free ones. */
  lemma SubmitKeeps(s: State, work: Work, now: nat)
    requires Inv(s) && s.running && !s.stop
    ensures var s' := s.(lane := Submitted(s.lane, work, now).0);
            SlotsOk(s') && SignalsOk(s') && ThreadsOk(s') &&
            Sum(s.lane.slots, EmptyUnit) ==
              Sum(s'.lane.slots, EmptyUnit) + if Submitted(s.lane, work, now).1.Ok? then 1 else 0
  {
    SubmitCases(s.lane, work, now);
    var held := First(s.lane.slots, (slot: Slot) => Holds(work, slot));
    var free := First(s.lane.slots, IsEmpty);
    if held < CAPACITY {
      SumUpdate(s.lane.slots, held, s.lane.slots[held].(rerun := true), EmptyUnit);
    } else if free < CAPACITY {
      SumUpdate(s.lane.slots, free, s.lane.slots[free].(work := Some(work), state := Queued, queuedAt := now),
                EmptyUnit);
    }
  }

  function Selecting(s: State, i: nat): (s': State)
    requires s.lane.Sized() && i < CAPACITY && s.lane.slots[i].work.Some?
    ensures s'.lane.Sized()
  {
    s.(lane := s.lane.(slots := s.lane.slots[i := s.lane.slots[i].(state := Running)], lastSelected := i),
       worker := Performing(i), selections := s.selections + [s.lane.slots[i].work.value])
  }

  lemma SelectingKeeps(s: State, i: nat)
    requires Inv(s) && s.worker.Scanning? && i < CAPACITY && s.lane.slots[i].state.Queued?
    ensures s.lane.slots[i].work.Some? && Inv(Selecting(s, i))
  {
    SumUpdate(s.lane.slots, i, s.lane.slots[i].(state := Running), EmptyUnit);
  }

  lemma SelectKeeps(s: State)
    requires Inv(s) && s.worker.Scanning?
    ensures Inv(Next(s, SelectNext))
    ensures var selected := Selected(s.lane).1;
            if selected.None? then Next(s, SelectNext) == s.(worker := Blocked)
            else s.lane.slots[selected.value].state.Queued? && s.lane.slots[selected.value].work.Some? &&
                 Next(s, SelectNext) == Selecting(s, selected.value)
  {
    SelectOutcome(s);
    var selected := Selected(s.lane).1;
    if selected.Some? {
      SelectingKeeps(s, selected.value);
    } else {
      BlockingKeeps(s);
    }
  }

  lemma SelectOutcome(s: State)
    requires Inv(s) && s.worker.Scanning?
    ensures var selected := Selected(s.lane).1;
            if selected.None? then
              Next(s, SelectNext) == s.(worker := Blocked) &&
              forall i :: 0 <= i < CAPACITY ==> !s.lane.slots[i].state.Queued?
            else s.lane.slots[selected.value].state.Queued? && s.lane.slots[selected.value].work.Some? &&
                 Next(s, SelectNext) == Selecting(s, selected.value)
  {
    SelectCases(s.lane);
    if Selected(s.lane).1.Some? {
      assert SlotConsistent(s.lane.slots[Selected(s.lane).1.value]);
    }
  }

  lemma BlockingKeeps(s: State)
    requires Inv(s) && s.worker.Scanning? && forall i :: 0 <= i < CAPACITY ==> !s.lane.slots[i].state.Queued?
    ensures Inv(s.(worker := Blocked))
  {
  }

  lemma FinishKeeps(s: State, now: nat, answer: HResult)
    requires Inv(s) && Enabled(s, Finish(now, answer))
    ensures Inv(Next(s, Finish(now, answer)))
  {
    var s' := Next(s, Finish(now, answer));
    SumUpdate(s.lane.slots, s.worker.slot, s'.lane.slots[s.worker.slot], EmptyUnit);
  }

  lemma SweepKeeps(s: State)
    requires Inv(s) && s.ui.Sweeping?
    ensures Inv(Next(s, Sweep))
  {
    FilterDistinct(s.lane.slots);
    SweepFrees(s.lane.slots, Next(s, Sweep).lane.slots);
    SumBound(Next(s, Sweep).lane.slots);
  }

  lemma {:induction false} SumBound(slots: seq<Slot>)
    ensures Sum(slots, EmptyUnit) <= |slots|
  {
    if slots != [] {
      SumBound(slots[1..]);
    }
  }

  lemma SignalKeeps(s: State, e: Event)
    requires Inv(s) && Enabled(s, e)
    requires e.Message? || e.Exchange? || e.BeginComplete? || e.Wake? || e.CheckStop? || e.Notify? || e.Invalidate?
    ensures Inv(Next(s, e))
  {
    assert Next(s, e).lane.slots == s.lane.slots;
  }

  lemma StartOrStopKeeps(s: State, e: Event)
    requires Inv(s) && Enabled(s, e) && (e.Start? || e.StopBegin? || e.StopJoined?)
    ensures Inv(Next(s, e))
  {
    if e.StopJoined? {
      AllEmpty(Next(s, e).lane.slots);
    }
  }

  lemma StepKeepsInv(s: State, e: Event)
    requires Inv(s) && Enabled(s, e)
    ensures Inv(Next(s, e))
  {
    match e
    case Enqueue(work, now) =>
      if work.Some? && s.running {
        SubmitKeeps(s, work.value, now);
      }
    case EndComplete(now) =>
      var done := s.ui.todo[0];
      if done.rerun && s.running {
        SubmitKeeps(s, done.work.value, now);
      }
    case SelectNext => SelectKeeps(s);
    case Finish(now, answer) => FinishKeeps(s, now, answer);
    case Sweep => SweepKeeps(s);
    case Start(_) => StartOrStopKeeps(s, e);
    case StopBegin => StartOrStopKeeps(s, e);
    case StopJoined => StartOrStopKeeps(s, e);
    case _ => SignalKeeps(s, e);
  }
}
