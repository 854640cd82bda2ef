// What the construction lane promises, over every interleaving of the step system in ConstructionProtocol.
module ConstructionGuarantees {
  import opened Basics
  import opened RoundRobin
  import opened ConstructionLanes
  import opened ConstructionProtocol

  ghost predicate IsRun(s: State, es: seq<Event>, s': State)
    decreases es
  {
    if es == [] then s' == s
    else s.lane.Sized() && Enabled(s, es[0]) && IsRun(Next(s, es[0]), es[1..], s')
  }

  lemma {:induction false} RunKeepsInv(s: State, es: seq<Event>, s': State)
    requires Inv(s) && IsRun(s, es, s')
    ensures Inv(s')
    decreases es
  {
    if es != [] {
      StepKeepsInv(s, es[0]);
      RunKeepsInv(Next(s, es[0]), es[1..], s');
    }
  }

  // ---------------------------------------------------------------------------------------------------------------
  // Conservation and pinning

  /** In every reachable state each accepted job is in exactly one place: a slot, the swept copies, delivered or
      dropped; so Complete is called at most once per acceptance. At most one slot is Running. */
  lemma JobsAreConserved(es: seq<Event>, s: State)
    requires IsRun(Initial(), es, s)
    ensures s.accepted == Works(s.lane.slots) + Works(UiTodo(s.ui)) + s.delivered + s.dropped
    ensures s.delivered <= s.accepted
    ensures forall i, j :: 0 <= i < j < |s.lane.slots| && s.lane.slots[i].state.Running? ==>
              !s.lane.slots[j].state.Running?
    ensures forall i, j :: 0 <= i < j < |s.lane.slots| && s.lane.slots[i].work.Some? ==>
              s.lane.slots[i].work != s.lane.slots[j].work
  {
    InitialInv();
    RunKeepsInv(Initial(), es, s);
    ConservedWhole(s);
    JobsAreDistinct(s);
  }

  lemma JobsAreDistinct(s: State)
    requires SlotsOk(s)
    ensures forall i, j :: 0 <= i < j < |s.lane.slots| && s.lane.slots[i].state.Running? ==>
              !s.lane.slots[j].state.Running?
    ensures forall i, j :: 0 <= i < j < |s.lane.slots| && s.lane.slots[i].work.Some? ==>
              s.lane.slots[i].work != s.lane.slots[j].work
  {
  }

  lemma ConservedWhole(s: State)
    requires Conserved(s)
    ensures s.accepted == Works(s.lane.slots) + Works(UiTodo(s.ui)) + s.delivered + s.dropped
    ensures s.delivered <= s.accepted
  {
    forall w
      ensures s.accepted[w] == (Works(s.lane.slots) + Works(UiTodo(s.ui)) + s.delivered + s.dropped)[w]
      ensures s.delivered[w] <= s.accepted[w]
    {
      assert ConservedFor(s, w);
    }
  }

  predicate WorkerStep(e: Event) { e.Wake? || e.SelectNext? || e.Finish? || e.Notify? }

  /** No UI step writes the Running slot or moves the worker off it. */
  lemma RunningSlotIsPinned(s: State, e: Event)
    requires Inv(s) && Enabled(s, e) && s.worker.Performing? && !WorkerStep(e)
    ensures Next(s, e).worker == s.worker
    ensures Next(s, e).lane.slots[s.worker.slot] == s.lane.slots[s.worker.slot]
  {
  }

  lemma WorkerKeepsHistory(s: State, e: Event)
    requires s.lane.Sized() && Enabled(s, e) && WorkerStep(e)
    ensures var s' := Next(s, e);
            s'.accepted == s.accepted && s'.delivered == s.delivered && s'.dropped == s.dropped && s'.ui == s.ui
  {
  }

  lemma WorkerKeepsCount(s: State, e: Event, w: Work)
    requires Inv(s) && Enabled(s, e) && WorkerStep(e)
    ensures Works(Next(s, e).lane.slots)[w] == Works(s.lane.slots)[w]
  {
    assert ConservedFor(s, w);
    StepConserves(s, e, w);
    WorkerKeepsHistory(s, e);
  }

  /** Only UI steps deliver or release a reference. */
  lemma WorkerReleasesNothing(s: State, e: Event)
    requires Inv(s) && Enabled(s, e) && WorkerStep(e)
    ensures Next(s, e).delivered == s.delivered && Next(s, e).dropped == s.dropped
    ensures Works(Next(s, e).lane.slots) == Works(s.lane.slots)
  {
    WorkerKeepsHistory(s, e);
    forall w
      ensures Works(Next(s, e).lane.slots)[w] == Works(s.lane.slots)[w]
    {
      WorkerKeepsCount(s, e, w);
    }
  }

  // ---------------------------------------------------------------------------------------------------------------
  // Stop

  predicate NoJoin(es: seq<Event>) { forall e :: e in es ==> !e.WaitJoins? }

  lemma StopStep(s: State, e: Event)
    requires Inv(s) && Enabled(s, e) && s.stop && !e.WaitJoins?
    ensures var s' := Next(s, e);
            s'.stop && s'.accepted == s.accepted && s'.delivered == s.delivered && s'.selections == s.selections &&
            (s'.worker.Performing? ==> s.worker.Performing?)
  {
  }

  /** From the moment Stop sets its event until the thread is joined, no job starts, none is accepted, and no Complete
      is called; a thread that is not performing never performs again. */
  lemma {:induction false} StopSilencesTheLane(s: State, es: seq<Event>, s': State)
    requires Inv(s) && s.stop && IsRun(s, es, s') && NoJoin(es)
    ensures Inv(s') && s'.stop
    ensures s'.accepted == s.accepted && s'.delivered == s.delivered && s'.selections == s.selections
    ensures !s.worker.Performing? ==> !s'.worker.Performing?
    decreases es
  {
    if es != [] {
      StopStep(s, es[0]);
      StepKeepsInv(s, es[0]);
      StopSilencesTheLane(Next(s, es[0]), es[1..], s');
    }
  }

  /** The answer of a Stop whose wait ran out. Exiting: nothing runs on the thread and nothing will. */
  lemma StopAnswersTruthfully(s: State, es: seq<Event>, s': State)
    requires Inv(s) && Enabled(s, WaitRunsOut)
    requires Next(s, WaitRunsOut).verdict == Some(Exiting)
    requires IsRun(Next(s, WaitRunsOut), es, s') && NoJoin(es)
    ensures !s'.worker.Performing? && s'.selections == s.selections
  {
    StepKeepsInv(s, WaitRunsOut);
    StopSilencesTheLane(Next(s, WaitRunsOut), es, s');
  }

  /** Stop reads whether work is in progress exactly, discards everything else, and never the running job. */
  lemma DiscardIsExact(s: State)
    requires Inv(s) && s.ui.StopLocking?
    ensures Next(s, Discard).ui.inProgress <==> s.worker.Performing?
    ensures forall i :: 0 <= i < CAPACITY ==>
              Next(s, Discard).lane.slots[i] == if s.lane.slots[i].state.Running? then s.lane.slots[i] else NO_SLOT
  {
    if s.worker.Performing? {
      assert s.lane.slots[s.worker.slot].state.Running?;
    }
    assert forall i :: 0 <= i < CAPACITY ==> SlotConsistent(s.lane.slots[i]);
  }

  /** Over all the Stops of a thread lifetime at most one positive wait runs out, and no wait exceeds one second. */
  lemma OneWaitRunsOut(es: seq<Event>, s: State)
    requires IsRun(Initial(), es, s)
    ensures s.spent <= 1
    ensures s.ui.Waiting? ==> s.ui.wait <= STOP_MILLISECONDS
    ensures s.ui.Waiting? && s.spent == 1 ==> s.ui.wait == 0
  {
    InitialInv();
    RunKeepsInv(Initial(), es, s);
  }

  // ---------------------------------------------------------------------------------------------------------------
  // Bounded bypass

  lemma {:induction false} SelectionsGrow(s: State, es: seq<Event>, s': State)
    requires IsRun(s, es, s')
    ensures s.selections <= s'.selections
    decreases es
  {
    if es != [] {
      SelectionsGrow(Next(s, es[0]), es[1..], s');
    }
  }

  predicate Unstopped(es: seq<Event>) { forall e :: e in es ==> !e.Stop? }

  ghost predicate Waits(s: State, i: nat, w: Work) {
    s.lane.Sized() && i < CAPACITY && s.lane.slots[i].state.Queued? && s.lane.slots[i].work == Some(w)
  }

  /** The job waiting in slot `i` was selected, or still waits with the scan nearer by one per selection. */
  ghost predicate Nearer(s: State, mid: State, i: nat, w: Work)
    requires Waits(s, i, w)
  {
    s.selections <= mid.selections &&
    (mid.selections == s.selections + [w] ||
     (Waits(mid, i, w) &&
      |mid.selections| - |s.selections| + Distance(mid.lane.lastSelected, i) <= Distance(s.lane.lastSelected, i)))
  }

  lemma SelectBypass(s: State, i: nat, w: Work)
    requires Inv(s) && s.worker.Scanning? && !s.stop && Waits(s, i, w)
    ensures Nearer(s, Next(s, SelectNext), i, w)
  {
    SelectCases(s.lane);
    SelectOutcome(s);
    var picked := Selected(s.lane).1.value;
    if picked != i {
      ScanApproaches(s.lane.lastSelected, picked, i);
    }
  }

  lemma EnqueueBypass(s: State, work: Option<Work>, now: nat, i: nat, w: Work)
    requires Inv(s) && Enabled(s, Enqueue(work, now)) && !s.stop && Waits(s, i, w)
    ensures Nearer(s, Next(s, Enqueue(work, now)), i, w)
  {
    if work.Some? {
      SubmitCases(s.lane, work.value, now);
    }
  }

  lemma BypassStep(s: State, e: Event, i: nat, w: Work)
    requires Inv(s) && Enabled(s, e) && !Stopping(s.ui) && !s.stop && Waits(s, i, w) && !e.Stop?
    ensures !Next(s, e).stop && !Stopping(Next(s, e).ui) && Nearer(s, Next(s, e), i, w)
  {
    if e.SelectNext? {
      SelectBypass(s, i, w);
    } else if e.Enqueue? {
      EnqueueBypass(s, e.work, e.now, i, w);
    } else {
      SlotStays(s, e, i);
    }
  }

  lemma SlotStays(s: State, e: Event, i: nat)
    requires Inv(s) && Enabled(s, e) && !e.SelectNext? && !e.Enqueue? && !Stopping(s.ui)
    requires i < CAPACITY && s.lane.slots[i].state.Queued?
    ensures var s' := Next(s, e);
            s'.lane.slots[i] == s.lane.slots[i] && s'.lane.lastSelected == s.lane.lastSelected &&
            s'.selections == s.selections
  {
  }

  /** A queued job is among the next selections, at the latest when the scan comes round to its slot: at most
      CAPACITY - 1 selections of other jobs go first, whatever is submitted meanwhile. */
  lemma {:induction false} BoundedBypass(s: State, es: seq<Event>, s': State, i: nat, w: Work)
    requires Inv(s) && !s.stop && Waits(s, i, w) && IsRun(s, es, s') && Unstopped(es)
    ensures s.selections <= s'.selections
    ensures WithinNext(Distance(s.lane.lastSelected, i), w, s.selections, s'.selections)
    decreases es
  {
    SelectionsGrow(s, es, s');
    if es != [] {
      var mid := Next(s, es[0]);
      StepKeepsInv(s, es[0]);
      BypassStep(s, es[0], i, w);
      SelectionsGrow(mid, es[1..], s');
      var d := Distance(s.lane.lastSelected, i);
      if mid.selections == s.selections + [w] {
        WithinNow(d, w, s.selections, mid.selections, s'.selections);
      } else {
        BoundedBypass(mid, es[1..], s', i, w);
        WithinLater(d, Distance(mid.lane.lastSelected, i), w, s.selections, mid.selections, s'.selections);
      }
    }
  }

  // ---------------------------------------------------------------------------------------------------------------
  // Coming to rest

  predicate Internal(e: Event) { !e.Start? && !e.Enqueue? && !e.Stop? && !e.Invalidate? }

  predicate AtRest(s: State) {
    s.running && !s.stop && s.worker.Blocked? && !s.lane.ready && s.ui.Idle? && !s.posted
  }

  lemma {:induction false} NeverDropped(s: State, es: seq<Event>, s': State)
    requires Inv(s) && !s.stop && !Stopping(s.ui) && s.dropped == multiset{} && UiTodoUndisturbed(s)
    requires IsRun(s, es, s') && Unstopped(es)
    ensures s'.dropped == multiset{} && UiTodoUndisturbed(s')
    decreases es
  {
    if es != [] {
      StepKeepsInv(s, es[0]);
      NeverDropped(Next(s, es[0]), es[1..], s');
    }
  }

  /** Swept copies are only pending on a running lane. */
  predicate UiTodoUndisturbed(s: State) { UiTodo(s.ui) != [] ==> s.running }

  /** In a run without Stop a lane at rest has delivered every accepted job exactly once. */
  lemma RestHasDeliveredAll(es: seq<Event>, s: State)
    requires IsRun(Initial(), es, s) && Unstopped(es) && AtRest(s)
    ensures s.delivered == s.accepted
    ensures forall i :: 0 <= i < |s.lane.slots| ==> s.lane.slots[i] == NO_SLOT
  {
    InitialInv();
    RunKeepsInv(Initial(), es, s);
    NeverDropped(Initial(), es, s);
    RestHasDelivered(s);
  }

  lemma RestHasDelivered(s: State)
    requires Inv(s) && AtRest(s) && s.dropped == multiset{}
    ensures s.delivered == s.accepted
    ensures forall i :: 0 <= i < |s.lane.slots| ==> s.lane.slots[i] == NO_SLOT
  {
    assert forall i :: 0 <= i < CAPACITY ==> SlotConsistent(s.lane.slots[i]);
    NoWorks(s.lane.slots);
    ConservedWhole(s);
  }

  function SlotWeight(slot: Slot): (r: nat) {
    match slot.state case Empty => 0 case Queued => 10 case Running => 9 case Complete => 2
  }

  function UiWeight(ui: Ui): (r: nat) {
    match ui
    case Idle => 0
    case Exchanging => 3
    case Sweeping => 2
    case Delivering(todo) => 1 + 2 * |todo|
    case InCallback(todo) => 2 + 2 * |todo|
    case StopLocking(back, _) => 2 + UiWeight(back)
    case Waiting(back, _, _) => 1 + UiWeight(back)
  }

  function WorkerWeight(worker: Worker): (r: nat) {
    match worker
    case Exited => 0 case Blocked => 1 case Scanning => 2 case Performing(_) => 2 case Notifying => 7
  }

  function Measure(s: State): (r: nat) {
    Sum(s.lane.slots, SlotWeight) + UiWeight(s.ui) + WorkerWeight(s.worker) +
    (if s.lane.ready then 2 else 0) + (if s.posted then 4 else 0)
  }

  lemma {:induction false} MoveWeight(slots: seq<Slot>, p: Slot -> bool)
    requires forall slot :: p(slot) ==> SlotWeight(slot) >= 2
    ensures Sum(AllWithout(slots, p), SlotWeight) + 2 * |Filter(slots, p)| <= Sum(slots, SlotWeight)
  {
    if slots != [] {
      MoveWeight(slots[1..], p);
      assert AllWithout(slots, p)[1..] == AllWithout(slots[1..], p);
    }
  }

  lemma SelectDescends(s: State)
    requires Inv(s) && s.worker.Scanning?
    ensures Measure(Next(s, SelectNext)) < Measure(s)
  {
    if !s.stop {
      SelectOutcome(s);
      if i :| Selected(s.lane).1 == Some(i) {
        SumUpdate(s.lane.slots, i, s.lane.slots[i].(state := Running), SlotWeight);
      }
    }
  }

  lemma MoveDescends(s: State, e: Event)
    requires Inv(s) && Enabled(s, e) && (e.Sweep? || e.Discard?)
    ensures Measure(Next(s, e)) < Measure(s)
  {
    if e.Sweep? {
      MoveWeight(s.lane.slots, IsComplete);
    } else {
      MoveWeight(s.lane.slots, IsIdleJob);
    }
  }

  lemma FinishDescends(s: State, e: Event)
    requires Inv(s) && Enabled(s, e) && e.Finish?
    ensures Measure(Next(s, e)) < Measure(s)
  {
    SumUpdate(s.lane.slots, s.worker.slot, Next(s, e).lane.slots[s.worker.slot], SlotWeight);
  }

  lemma WaitDescends(s: State, e: Event)
    requires Inv(s) && Enabled(s, e) && (e.WaitJoins? || e.WaitRunsOut?)
    ensures Measure(Next(s, e)) < Measure(s)
  {
    SumZero(NewLane().slots, SlotWeight);
  }

  lemma SignalDescends(s: State, e: Event)
    requires Inv(s) && Enabled(s, e)
    requires e.Message? || e.Exchange? || e.Wake? || e.Notify?
    ensures Measure(Next(s, e)) < Measure(s)
  {
    assert Next(s, e).lane.slots == s.lane.slots;
  }

  lemma DeliveryDescends(s: State, e: Event)
    requires Inv(s) && Enabled(s, e) && (e.BeginComplete? || e.EndComplete?)
    ensures Measure(Next(s, e)) < Measure(s)
  {
    var s' := Next(s, e);
    assert s' == s.(ui := s'.ui, delivered := s'.delivered, dropped := s'.dropped);
  }

  lemma InternalStepDescends(s: State, e: Event)
    requires Inv(s) && Enabled(s, e) && Internal(e)
    ensures Measure(Next(s, e)) < Measure(s)
  {
    match e
    case SelectNext => SelectDescends(s);
    case Finish(_, _, _) => FinishDescends(s, e);
    case Sweep => MoveDescends(s, e);
    case Discard => MoveDescends(s, e);
    case WaitJoins => WaitDescends(s, e);
    case WaitRunsOut => WaitDescends(s, e);
    case BeginComplete => DeliveryDescends(s, e);
    case EndComplete => DeliveryDescends(s, e);
    case _ => SignalDescends(s, e);
  }

  /** Left alone, the lane takes at most Measure(s) more steps. */
  lemma {:induction false} RunsToRest(s: State, es: seq<Event>, s': State)
    requires Inv(s) && IsRun(s, es, s') && forall e :: e in es ==> Internal(e)
    ensures |es| + Measure(s') <= Measure(s)
    decreases es
  {
    if es != [] {
      InternalStepDescends(s, es[0]);
      StepKeepsInv(s, es[0]);
      RunsToRest(Next(s, es[0]), es[1..], s');
    }
  }

  /** A stopped thread has run out and the next Stop joins it at once. */
  predicate StoppedAtRest(s: State) { s.stop && s.worker.Exited? && s.ui.Idle? && !s.posted }

  /** Deadlock-free: a running lane that is not at rest, and a stopped one whose thread has not run out, has a thread
      that can take a step by itself. */
  lemma StepUntilRest(s: State)
    requires Inv(s) && s.running && !AtRest(s) && !StoppedAtRest(s)
    ensures exists e :: Internal(e) && Enabled(s, e)
  {
    var e :=
      if s.ui.Exchanging? then Exchange
      else if s.ui.Sweeping? then Sweep
      else if s.ui.Delivering? then BeginComplete
      else if s.ui.InCallback? then EndComplete
      else if s.ui.StopLocking? then Discard
      else
        match s.worker
        case Exited => if s.ui.Waiting? then WaitJoins else Message
        case Blocked => if s.lane.ready || s.stop then Wake else Message
        case Scanning => SelectNext
        case Performing(i) => Finish(s.lane.slots[i].queuedAt, Ok, s.lane.slots[i].queuedAt)
        case _ => Notify;
    assert Internal(e) && Enabled(s, e);
  }

  // ---------------------------------------------------------------------------------------------------------------
  // Liveness

  /** No thread can take a step by itself. */
  ghost predicate Stuck(s: State) { forall e :: Internal(e) ==> !Enabled(s, e) }

  predicate AllInternal(es: seq<Event>) { forall e :: e in es ==> Internal(e) }

  /** A lane left alone comes to rest, a stopped one with its thread run out: its runs are bounded, and one that cannot
      be extended ends there. */
  lemma LeftAloneItRests(s: State, es: seq<Event>, s': State)
    requires Inv(s) && IsRun(s, es, s') && AllInternal(es) && Stuck(s') && s'.running
    ensures |es| <= Measure(s) && (AtRest(s') || StoppedAtRest(s'))
  {
    RunsToRest(s, es, s');
    RunKeepsInv(s, es, s');
    if !AtRest(s') && !StoppedAtRest(s') {
      StepUntilRest(s');
      assert false;
    }
  }

  lemma InternalStepNeverStops(s: State, e: Event)
    requires s.lane.Sized() && Enabled(s, e) && Internal(e) && s.running && !s.stop && !Stopping(s.ui)
    ensures var s' := Next(s, e); s'.running && !s'.stop && !Stopping(s'.ui) && s'.accepted == s.accepted
  {
    if WorkerStep(e) {
      WorkerNeverStops(s, e);
    }
  }

  lemma WorkerNeverStops(s: State, e: Event)
    requires s.lane.Sized() && Enabled(s, e) && WorkerStep(e)
    ensures var s' := Next(s, e);
            s'.running == s.running && s'.stop == s.stop && s'.ui == s.ui && s'.accepted == s.accepted
  {
  }

  lemma {:induction false} InternalRunsNeverStop(s: State, es: seq<Event>, s': State)
    requires Inv(s) && s.running && !s.stop && !Stopping(s.ui) && IsRun(s, es, s') && AllInternal(es)
    ensures s'.running && !s'.stop && s'.accepted == s.accepted && Unstopped(es)
    decreases es
  {
    if es != [] {
      InternalStepNeverStops(s, es[0]);
      StepKeepsInv(s, es[0]);
      InternalRunsNeverStop(Next(s, es[0]), es[1..], s');
    }
  }

  /** Every job accepted by a running lane that is never stopped and then left alone is delivered exactly once: every
      run that cannot be extended has delivered them all. */
  lemma JobsAreDelivered(before: seq<Event>, s: State, es: seq<Event>, s': State)
    requires IsRun(Initial(), before, s) && Unstopped(before) && s.running && !s.stop && !Stopping(s.ui)
    requires IsRun(s, es, s') && AllInternal(es) && Stuck(s')
    ensures |es| <= Measure(s) && s'.delivered == s'.accepted == s.accepted
  {
    InitialInv();
    RunKeepsInv(Initial(), before, s);
    InternalRunsNeverStop(s, es, s');
    LeftAloneItRests(s, es, s');
    RunKeepsInv(s, es, s');
    NeverDropped(Initial(), before, s);
    NeverDropped(s, es, s');
    RestHasDelivered(s');
  }
}
