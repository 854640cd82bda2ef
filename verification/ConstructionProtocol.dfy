// The construction lane as a step system: the UI thread and the worker interleave one atomic step at a time, a step
// being one lock section, one event or flag operation, one wait result, or one callback boundary of
// RedXe/ConstructionWorkQueue.cpp.
module ConstructionProtocol {
  import opened Basics
  import opened RoundRobin
  import opened ConstructionLanes

  datatype StopResult = Stopped | Exiting | WorkInProgress

  datatype Worker = Blocked | Scanning | Performing(slot: nat) | Notifying | Exited

  // A drain is Exchanging, Sweeping, then Delivering its swept copies; InCallback is inside Complete of a copy with the
  // rest still to come. StopLocking and Waiting are inside Stop, which returns to where it was called.
  datatype Ui =
    | Idle
    | Exchanging
    | Sweeping
    | Delivering(todo: seq<Slot>)
    | InCallback(todo: seq<Slot>)
    | StopLocking(back: Ui, timeout: nat)
    | Waiting(back: Ui, wait: nat, inProgress: bool)

  datatype State = State(
    lane: Lane,
    running: bool,
    stop: bool,
    waitedOut: bool,
    apartment: HResult,
    worker: Worker,
    ui: Ui,
    posted: bool,
    verdict: Option<StopResult>,  // the last answer of Stop
    spent: nat,                   // history of one thread lifetime: positive waits that ran out
    selections: seq<Work>,        // history: every work selected
    accepted: multiset<Work>,     // history: every work answered S_OK
    delivered: multiset<Work>,    // history: every call of Complete
    dropped: multiset<Work>)      // history: every reference released without Complete

  datatype Event =
    // UI thread
    | Start(apartment: HResult)
    | Enqueue(work: Option<Work>, now: nat)
    | Message
    | Exchange
    | Sweep
    | BeginComplete
    | EndComplete
    | Stop(timeout: nat)
    | Discard
    | WaitJoins
    | WaitRunsOut
    // worker thread
    | Wake
    | SelectNext
    | Finish(started: nat, answer: HResult, ended: nat)
    | Notify
    // another source of the same UI message
    | Invalidate

  function Initial(): (r: State) {
    State(NewLane(), false, false, false, Ok, Exited, Idle, false, None, 0, [], multiset{}, multiset{}, multiset{})
  }

  /** Where plugins and the host may call Enqueue, Start and Stop. */
  predicate Free(ui: Ui) { ui.Idle? || ui.InCallback? }

  predicate Enabled(s: State, e: Event)
  {
    match e
    case Start(_) => Free(s.ui) && !s.running
    case Enqueue(_, _) => Free(s.ui)
    case Message => s.ui.Idle? && s.posted
    case Exchange => s.ui.Exchanging?
    case Sweep => s.ui.Sweeping?
    case BeginComplete => s.ui.Delivering?
    case EndComplete => s.ui.InCallback?
    case Stop(_) => Free(s.ui)
    case Discard => s.ui.StopLocking?
    case WaitJoins => s.ui.Waiting? && s.worker.Exited?
    case WaitRunsOut => s.ui.Waiting? && !s.worker.Exited?
    case Wake => s.worker.Blocked? && (s.stop || s.lane.ready)
    case SelectNext => s.worker.Scanning?
    case Finish(started, _, ended) =>
      s.worker.Performing? && s.worker.slot < |s.lane.slots| &&
      s.lane.slots[s.worker.slot].queuedAt <= started <= ended
    case Notify => s.worker.Notifying?
    case Invalidate => true
  }

  function WorkOf(slot: Slot): (r: multiset<Work>) { if slot.work.Some? then multiset{slot.work.value} else multiset{} }

  /** The references a sequence of slots holds. */
  function Works(slots: seq<Slot>): (r: multiset<Work>) {
    if slots == [] then multiset{} else WorkOf(slots[0]) + Works(slots[1..])
  }

  function Next(s: State, e: Event): (s': State)
    requires s.lane.Sized() && Enabled(s, e)
    ensures s'.lane.Sized()
  {
    match e
    case Start(apartment) => s.(running := true, worker := Blocked, apartment := apartment)
    case Enqueue(work, now) =>
      var (lane, result) := Enqueued(s.lane, s.running, s.stop, work, now);
      s.(lane := lane, accepted := if result.Ok? && work.Some? then s.accepted + multiset{work.value} else s.accepted)
    case Message => s.(posted := false, ui := Exchanging)
    case Exchange =>
      if !s.running || s.stop then s.(ui := Idle)
      else s.(ui := if s.lane.completed then Sweeping else Idle, lane := s.lane.(completed := false))
    case Sweep =>
      var (lane, ready) := MovedOut(s.lane, IsComplete);
      s.(lane := lane, ui := Delivering(ready))
    case BeginComplete =>
      if s.ui.todo == [] || !s.running || s.stop then s.(ui := Idle, dropped := s.dropped + Works(s.ui.todo))
      else s.(ui := InCallback(s.ui.todo[1..]), delivered := s.delivered + WorkOf(s.ui.todo[0]))
    case EndComplete => s.(ui := Delivering(s.ui.todo))
    case Stop(timeout) =>
      if !s.running then s.(verdict := Some(Stopped))
      else s.(stop := true, ui := StopLocking(s.ui, timeout))
    case Discard =>
      var (lane, discarded) := MovedOut(s.lane, IsIdleJob);
      var inProgress := exists i :: 0 <= i < CAPACITY && s.lane.slots[i].state.Running?;
      var wait := if s.waitedOut then 0
                  else if s.ui.timeout < STOP_MILLISECONDS then s.ui.timeout else STOP_MILLISECONDS;
      s.(lane := lane, dropped := s.dropped + Works(discarded), ui := Waiting(s.ui.back, wait, inProgress))
    case WaitJoins =>
      s.(lane := NewLane(), running := false, stop := false, waitedOut := false, spent := 0, verdict := Some(Stopped),
         dropped := s.dropped + Works(s.lane.slots), ui := s.ui.back)
    case WaitRunsOut =>
      s.(waitedOut := s.waitedOut || s.ui.inProgress || s.ui.wait != 0,
         spent := s.spent + (if s.ui.wait != 0 then 1 else 0),
         verdict := Some(if s.ui.inProgress then WorkInProgress else Exiting), ui := s.ui.back)
    case Wake => if s.stop then s.(worker := Exited) else s.(worker := Scanning, lane := s.lane.(ready := false))
    case SelectNext =>
      if s.stop then s.(worker := Exited) else
      var (lane, selected) := Selected(s.lane);
      if selected.None? then s.(worker := Blocked)
      else s.(lane := lane, worker := Performing(selected.value), selections := s.selections +
              if lane.slots[selected.value].work.Some? then [lane.slots[selected.value].work.value] else [])
    case Finish(started, answer, ended) =>
      var queuedAt := s.lane.slots[s.worker.slot].queuedAt;
      var result := Outcome(s.apartment, started - queuedAt, answer, ended - queuedAt);
      s.(lane := Published(s.lane, s.worker.slot, result, s.stop),
         worker := if s.stop then Scanning else Notifying)
    case Notify => s.(posted := true, worker := Scanning)
    case Invalidate => s.(posted := true)
  }

  // ---------------------------------------------------------------------------------------------------------------
  // The inductive invariant

  ghost predicate SlotConsistent(slot: Slot) {
    (slot.state.Empty? <==> slot.work.None?) && (slot.state.Empty? ==> slot == NO_SLOT)
  }

  function UiTodo(ui: Ui): (todo: seq<Slot>) {
    match ui
    case Delivering(todo) => todo
    case InCallback(todo) => todo
    case StopLocking(back, _) => UiTodo(back)
    case Waiting(back, _, _) => UiTodo(back)
    case _ => []
  }

  predicate Stopping(ui: Ui) { ui.StopLocking? || ui.Waiting? }

  ghost predicate Distinct(slots: seq<Slot>) {
    forall i, j :: 0 <= i < j < |slots| && slots[i].work.Some? ==> slots[i].work != slots[j].work
  }

  /** Works are distinct, Empty means no work, and the one Running slot is the worker's. */
  ghost predicate SlotsOk(s: State) {
    && s.lane.Sized()
    && (forall i :: 0 <= i < CAPACITY ==> SlotConsistent(s.lane.slots[i]))
    && Distinct(s.lane.slots)
    && (s.worker.Performing? ==> s.worker.slot < CAPACITY)
    && (forall i :: 0 <= i < CAPACITY ==> (s.lane.slots[i].state.Running? <==> s.worker == Performing(i)))
  }

  /** No wake-up and no completion is ever lost. */
  ghost predicate SignalsOk(s: State)
    requires s.lane.Sized()
  {
    && (s.running && !s.stop && s.worker.Blocked? && !s.lane.ready ==>
          forall i :: 0 <= i < CAPACITY ==> !s.lane.slots[i].state.Queued?)
    && (!s.stop && !s.ui.Sweeping? && !s.lane.completed ==>
          forall i :: 0 <= i < CAPACITY ==> !s.lane.slots[i].state.Complete?)
    && (!s.stop && s.lane.completed ==> s.posted || s.worker.Notifying? || s.ui.Exchanging?)
  }

  ghost predicate ThreadsOk(s: State) {
    && (s.stop ==> s.running)
    && (Stopping(s.ui) ==> s.stop && Free(s.ui.back))
    && (s.ui.Sweeping? ==> s.running && !s.stop)
    && (s.running && s.worker.Exited? ==> s.stop)
    && (!s.running ==> s.worker.Exited? && s.lane == NewLane())
  }

  /** Every acceptance of `w` is in a slot, among the swept copies, delivered once, or dropped once. */
  ghost predicate ConservedFor(s: State, w: Work) {
    s.accepted[w] == Works(s.lane.slots)[w] + Works(UiTodo(s.ui))[w] + s.delivered[w] + s.dropped[w]
  }

  ghost predicate Conserved(s: State) { forall w :: ConservedFor(s, w) }

  /** Of all the waits of a thread lifetime at most one positive wait runs out. */
  ghost predicate WaitsOk(s: State) {
    && s.spent <= 1
    && (s.spent == 1 ==> s.waitedOut)
    && (s.ui.Waiting? && s.waitedOut ==> s.ui.wait == 0)
    && (s.ui.Waiting? ==> s.ui.wait <= STOP_MILLISECONDS)
  }

  /** The answers of Stop are true for as long as they stand. */
  ghost predicate VerdictOk(s: State) {
    && (s.verdict == Some(Exiting) ==> s.stop && !s.worker.Performing?)
    && (s.ui.Waiting? && !s.ui.inProgress ==> !s.worker.Performing?)
  }

  ghost predicate ThreadInv(s: State) {
    SlotsOk(s) && SignalsOk(s) && ThreadsOk(s) && WaitsOk(s) && VerdictOk(s)
  }

  ghost predicate Inv(s: State) { ThreadInv(s) && Conserved(s) }

  lemma {:induction false} WorksUpdate(slots: seq<Slot>, i: nat, slot: Slot, w: Work)
    requires i < |slots|
    ensures Works(slots[i := slot])[w] + WorkOf(slots[i])[w] == Works(slots)[w] + WorkOf(slot)[w]
  {
    if i == 0 {
      assert slots[0 := slot][1..] == slots[1..];
    } else {
      WorksUpdate(slots[1..], i - 1, slot, w);
      assert slots[i := slot][1..] == slots[1..][i - 1 := slot];
    }
  }

  lemma {:induction false} WorksMoved(slots: seq<Slot>, p: Slot -> bool, w: Work)
    ensures Works(AllWithout(slots, p))[w] + Works(Filter(slots, p))[w] == Works(slots)[w]
  {
    if slots != [] {
      WorksMoved(slots[1..], p, w);
      assert AllWithout(slots, p)[1..] == AllWithout(slots[1..], p);
      if p(slots[0]) {
        assert Filter(slots, p) == [slots[0]] + Filter(slots[1..], p);
      } else {
        assert Filter(slots, p) == Filter(slots[1..], p);
      }
    }
  }

  lemma {:induction false} NoWorks(slots: seq<Slot>)
    requires forall i :: 0 <= i < |slots| ==> slots[i].work.None?
    ensures Works(slots) == multiset{}
  {
    if slots != [] {
      NoWorks(slots[1..]);
    }
  }

  lemma InitialInv()
    ensures Inv(Initial())
  {
    NewLaneHoldsNothing();
    InitialThreads();
    forall w
      ensures ConservedFor(Initial(), w)
    {
      assert Works(Initial().lane.slots)[w] == 0 && UiTodo(Initial().ui) == [];
    }
  }

  lemma InitialThreads()
    ensures ThreadInv(Initial())
  {
    assert forall i :: 0 <= i < CAPACITY ==> Initial().lane.slots[i] == NO_SLOT;
  }

  lemma SubmitCases(lane: Lane, work: Work, now: nat)
    requires lane.Sized()
    ensures var (after, result) := Submitted(lane, work, now);
            var free := First(lane.slots, IsEmpty);
            if result.Ok? then
              free < CAPACITY && lane.slots[free].state.Empty? &&
              (forall i :: 0 <= i < CAPACITY ==> !Holds(work, lane.slots[i])) &&
              after == lane.(slots := lane.slots[free := lane.slots[free].(work := Some(work), state := Queued,
                                                                           queuedAt := now)],
                             ready := true)
            else after == lane
  {
  }

  lemma EnqueueKeeps(s: State, work: Work, now: nat)
    requires ThreadInv(s) && Free(s.ui) && s.running && !s.stop
    ensures ThreadInv(Next(s, Enqueue(Some(work), now)))
  {
    SubmitCases(s.lane, work, now);
  }

  /** A selection, spelled out. */
  lemma SelectOutcome(s: State)
    requires ThreadInv(s) && s.worker.Scanning? && !s.stop
    ensures var selected := Selected(s.lane).1;
            if selected.None? then
              Next(s, SelectNext) == s.(worker := Blocked) &&
              forall i :: 0 <= i < CAPACITY ==> !s.lane.slots[i].state.Queued?
            else
              var i := selected.value;
              s.lane.slots[i].state.Queued? && s.lane.slots[i].work.Some? &&
              Next(s, SelectNext) ==
                s.(lane := s.lane.(slots := s.lane.slots[i := s.lane.slots[i].(state := Running)], lastSelected := i),
                   worker := Performing(i), selections := s.selections + [s.lane.slots[i].work.value])
  {
    SelectCases(s.lane);
    if Selected(s.lane).1.Some? {
      assert SlotConsistent(s.lane.slots[Selected(s.lane).1.value]);
    }
  }

  lemma SelectKeeps(s: State)
    requires ThreadInv(s) && s.worker.Scanning? && !s.stop
    ensures ThreadInv(Next(s, SelectNext))
  {
    SelectOutcome(s);
  }

  lemma SweepKeeps(s: State)
    requires ThreadInv(s) && s.ui.Sweeping?
    ensures ThreadInv(Next(s, Sweep))
  {
  }

  lemma DiscardKeeps(s: State)
    requires ThreadInv(s) && s.ui.StopLocking?
    ensures ThreadInv(Next(s, Discard))
  {
  }

  lemma FinishKeeps(s: State, e: Event)
    requires ThreadInv(s) && Enabled(s, e) && e.Finish?
    ensures ThreadInv(Next(s, e))
  {
  }

  lemma StartKeeps(s: State, e: Event)
    requires ThreadInv(s) && Enabled(s, e) && e.Start?
    ensures ThreadInv(Next(s, e))
  {
    assert Next(s, e) == s.(running := true, worker := Blocked, apartment := e.apartment);
  }

  lemma JoinResets(s: State)
    requires s.lane.Sized() && Enabled(s, WaitJoins)
    ensures Next(s, WaitJoins).lane == NewLane() && UiTodo(Next(s, WaitJoins).ui) == UiTodo(s.ui)
  {
  }

  lemma JoinKeeps(s: State)
    requires ThreadInv(s) && Enabled(s, WaitJoins)
    ensures ThreadInv(Next(s, WaitJoins))
  {
    assert forall i :: 0 <= i < CAPACITY ==> NewLane().slots[i] == NO_SLOT;
  }

  lemma StopStepKeeps(s: State, e: Event)
    requires ThreadInv(s) && Enabled(s, e) && (e.Stop? || e.WaitRunsOut?)
    ensures ThreadInv(Next(s, e))
  {
    assert Next(s, e).lane == s.lane;
  }

  lemma DeliveryKeeps(s: State)
    requires ThreadInv(s) && s.ui.Delivering?
    ensures ThreadInv(Next(s, BeginComplete))
  {
    var s' := Next(s, BeginComplete);
    assert s'.ui.Idle? || s'.ui.InCallback?;
    assert s' == s.(ui := s'.ui, delivered := s'.delivered, dropped := s'.dropped);
  }

  lemma CallbackKeeps(s: State)
    requires ThreadInv(s) && s.ui.InCallback?
    ensures ThreadInv(Next(s, EndComplete))
  {
    assert Next(s, EndComplete) == s.(ui := Delivering(s.ui.todo));
  }

  lemma ExchangeKeeps(s: State)
    requires ThreadInv(s) && s.ui.Exchanging?
    ensures ThreadInv(Next(s, Exchange))
  {
    assert Next(s, Exchange).lane.slots == s.lane.slots;
  }

  lemma SignalStepKeeps(s: State, e: Event)
    requires ThreadInv(s) && Enabled(s, e) && (e.Message? || e.Wake? || e.Notify? || e.Invalidate?)
    ensures ThreadInv(Next(s, e))
  {
    assert Next(s, e).lane.slots == s.lane.slots;
  }

  lemma StepKeepsThreads(s: State, e: Event)
    requires ThreadInv(s) && Enabled(s, e)
    ensures ThreadInv(Next(s, e))
  {
    match e
    case Enqueue(work, now) =>
      if work.Some? && s.running && !s.stop {
        EnqueueKeeps(s, work.value, now);
      }
    case SelectNext =>
      if !s.stop {
        SelectKeeps(s);
      }
    case Sweep => SweepKeeps(s);
    case Discard => DiscardKeeps(s);
    case Finish(_, _, _) => FinishKeeps(s, e);
    case Start(_) => StartKeeps(s, e);
    case Stop(_) => StopStepKeeps(s, e);
    case WaitJoins => JoinKeeps(s);
    case WaitRunsOut => StopStepKeeps(s, e);
    case Exchange => ExchangeKeeps(s);
    case BeginComplete => DeliveryKeeps(s);
    case EndComplete => CallbackKeeps(s);
    case _ => SignalStepKeeps(s, e);
  }

  lemma EnqueueConserves(s: State, work: Work, now: nat, w: Work)
    requires ThreadInv(s) && ConservedFor(s, w) && Free(s.ui) && s.running && !s.stop
    ensures ConservedFor(Next(s, Enqueue(Some(work), now)), w)
  {
    SubmitCases(s.lane, work, now);
    if Submitted(s.lane, work, now).1.Ok? {
      var free := First(s.lane.slots, IsEmpty);
      assert SlotConsistent(s.lane.slots[free]);
      WorksUpdate(s.lane.slots, free, s.lane.slots[free].(work := Some(work), state := Queued, queuedAt := now), w);
    }
  }

  lemma SelectConserves(s: State, w: Work)
    requires ThreadInv(s) && ConservedFor(s, w) && s.worker.Scanning? && !s.stop
    ensures ConservedFor(Next(s, SelectNext), w)
  {
    SelectOutcome(s);
    if i :| Selected(s.lane).1 == Some(i) {
      WorksUpdate(s.lane.slots, i, s.lane.slots[i].(state := Running), w);
    }
  }

  lemma FinishConserves(s: State, e: Event, w: Work)
    requires ThreadInv(s) && ConservedFor(s, w) && Enabled(s, e) && e.Finish?
    ensures ConservedFor(Next(s, e), w)
  {
    WorksUpdate(s.lane.slots, s.worker.slot, Next(s, e).lane.slots[s.worker.slot], w);
  }

  lemma SweepConserves(s: State, w: Work)
    requires ThreadInv(s) && ConservedFor(s, w) && s.ui.Sweeping?
    ensures ConservedFor(Next(s, Sweep), w)
  {
    WorksMoved(s.lane.slots, IsComplete, w);
    assert UiTodo(Next(s, Sweep).ui) == Filter(s.lane.slots, IsComplete);
  }

  lemma DiscardConserves(s: State, w: Work)
    requires s.lane.Sized() && ConservedFor(s, w) && s.ui.StopLocking?
    ensures ConservedFor(Next(s, Discard), w)
  {
    WorksMoved(s.lane.slots, IsIdleJob, w);
    DiscardMoves(s, w);
  }

  lemma DiscardMoves(s: State, w: Work)
    requires s.lane.Sized() && s.ui.StopLocking?
    ensures var s' := Next(s, Discard);
            s'.lane.slots == AllWithout(s.lane.slots, IsIdleJob) && s'.ui.Waiting? && s'.ui.back == s.ui.back &&
            s'.accepted == s.accepted && s'.delivered == s.delivered &&
            s'.dropped[w] == s.dropped[w] + Works(Filter(s.lane.slots, IsIdleJob))[w]
  {
  }

  lemma DeliverConserves(s: State, w: Work)
    requires ConservedFor(s, w) && s.lane.Sized() && s.ui.Delivering?
    ensures ConservedFor(Next(s, BeginComplete), w)
  {
  }

  lemma JoinConserves(s: State, w: Work)
    requires s.lane.Sized() && ConservedFor(s, w) && Enabled(s, WaitJoins)
    ensures ConservedFor(Next(s, WaitJoins), w)
  {
    var s' := Next(s, WaitJoins);
    assert UiTodo(s'.ui) == UiTodo(s.ui);
    NewLaneHoldsNothing();
    assert Works(s'.lane.slots)[w] == 0;
  }

  lemma NewLaneHoldsNothing()
    ensures Works(NewLane().slots) == multiset{}
  {
    NoWorks(NewLane().slots);
  }

  lemma SignalConserves(s: State, e: Event, w: Work)
    requires ThreadInv(s) && ConservedFor(s, w) && Enabled(s, e)
    requires !e.Enqueue? && !e.SelectNext? && !e.Finish? && !e.Sweep? && !e.Discard? && !e.BeginComplete? &&
             !e.WaitJoins?
    ensures ConservedFor(Next(s, e), w)
  {
    var s' := Next(s, e);
    SignalMovesNothing(s, e);
    assert s'.accepted[w] == s.accepted[w] && s'.delivered[w] == s.delivered[w] && s'.dropped[w] == s.dropped[w];
  }

  lemma SignalMovesNothing(s: State, e: Event)
    requires ThreadInv(s) && Enabled(s, e)
    requires !e.Enqueue? && !e.SelectNext? && !e.Finish? && !e.Sweep? && !e.Discard? && !e.BeginComplete? &&
             !e.WaitJoins?
    ensures var s' := Next(s, e);
            s'.lane.slots == s.lane.slots && UiTodo(s'.ui) == UiTodo(s.ui) && s'.accepted == s.accepted &&
            s'.delivered == s.delivered && s'.dropped == s.dropped
  {
  }

  lemma StepConserves(s: State, e: Event, w: Work)
    requires ThreadInv(s) && ConservedFor(s, w) && Enabled(s, e)
    ensures ConservedFor(Next(s, e), w)
  {
    match e
    case Enqueue(work, now) =>
      if work.Some? && s.running && !s.stop {
        EnqueueConserves(s, work.value, now, w);
      }
    case SelectNext =>
      if !s.stop {
        SelectConserves(s, w);
      }
    case Finish(_, _, _) => FinishConserves(s, e, w);
    case Sweep => SweepConserves(s, w);
    case Discard => DiscardConserves(s, w);
    case BeginComplete => DeliverConserves(s, w);
    case WaitJoins => JoinConserves(s, w);
    case _ => SignalConserves(s, e, w);
  }

  lemma StepKeepsInv(s: State, e: Event)
    requires Inv(s) && Enabled(s, e)
    ensures Inv(Next(s, e))
  {
    StepKeepsThreads(s, e);
    forall w
      ensures ConservedFor(Next(s, e), w)
    {
      assert ConservedFor(s, w);
      StepConserves(s, e, w);
    }
  }
}
