// What the control lane promises its callers, over every interleaving of the step system in ControlProtocol.
module ControlGuarantees {
  import opened Basics
  import opened RoundRobin
  import opened ControlLanes
  import opened ControlProtocol

  ghost predicate IsRun(s: State, es: seq<Event>, s': State)
    decreases es
  {
    if es == [] then s' == s
    else s.lane.Sized() && Enabled(s, es[0]) && IsRun(Next(s, es[0]), es[1..], s')
  }

  lemma {:induction false} RunKeepsInv(s: State, es: seq<Event>, s': State)
    requires Inv(s) && IsRun(s, es, s')
    ensures Inv(s')
    decreases es
  {
    if es != [] {
      StepKeepsInv(s, es[0]);
      RunKeepsInv(Next(s, es[0]), es[1..], s');
    }
  }

  lemma {:induction false} RunJoins(s: State, es: seq<Event>, mid: State, more: seq<Event>, s': State)
    requires IsRun(s, es, mid) && IsRun(mid, more, s')
    ensures IsRun(s, es + more, s')
    decreases es
  {
    if es == [] {
      assert es + more == more;
    } else {
      var joined := es + more;
      assert joined[0] == es[0] && joined[1..] == es[1..] + more;
      RunJoins(Next(s, es[0]), es[1..], mid, more, s');
    }
  }

  lemma InitialInv()
    ensures Inv(Initial())
  {
    AllEmpty(Initial().lane.slots);
  }

  /** The invariant holds in every state the lane can reach. */
  lemma ReachableInv(es: seq<Event>, s: State)
    requires IsRun(Initial(), es, s)
    ensures Inv(s)
  {
    InitialInv();
    RunKeepsInv(Initial(), es, s);
  }

  // ---------------------------------------------------------------------------------------------------------------
  // No request is lost

  predicate Owes(slot: Slot, w: Work) { slot.work == Some(w) && (slot.state.Queued? || slot.rerun) }

  /** A request for `w` is still to be selected: it is queued, or its slot or its drained copy carries a rerun. */
  ghost predicate Promised(s: State, w: Work)
    requires s.lane.Sized()
  {
    || (exists i :: 0 <= i < CAPACITY && Owes(s.lane.slots[i], w))
    || (exists k :: 0 <= k < |UiTodo(s.ui)| && Owes(UiTodo(s.ui)[k], w))
  }

  /** A drain is about to submit the rerun of `w` again and finds every slot taken. */
  ghost predicate Refused(s: State, e: Event, w: Work)
    requires s.lane.Sized()
  {
    && e.EndComplete? && s.ui.InCallback? && s.ui.todo != [] && Owes(s.ui.todo[0], w)
    && forall i :: 0 <= i < CAPACITY ==> s.lane.slots[i].work.Some? && s.lane.slots[i].work != Some(w)
  }

  ghost predicate Selects(s: State, e: Event, w: Work)
    requires s.lane.Sized() && Enabled(s, e)
  {
    Next(s, e).selections == s.selections + [w]
  }

  lemma PromiseInTodo(s: State, k: nat, w: Work)
    requires s.lane.Sized() && k < |UiTodo(s.ui)| && Owes(UiTodo(s.ui)[k], w)
    ensures Promised(s, w)
  {
  }

  lemma PromiseInSlot(s: State, i: nat, w: Work)
    requires s.lane.Sized() && i < CAPACITY && Owes(s.lane.slots[i], w)
    ensures Promised(s, w)
  {
  }

  /** A submission answered S_OK or S_FALSE is a promise, and no submission breaks another promise. */
  lemma SubmitPromises(s: State, s': State, work: Work, now: nat, w: Work)
    requires Inv(s) && s'.lane == Submitted(s.lane, work, now).0
    requires (exists i :: 0 <= i < CAPACITY && Owes(s.lane.slots[i], w)) ||
             (w == work && Submitted(s.lane, work, now).1.Succeeded())
    ensures Promised(s', w)
  {
    SubmitCases(s.lane, work, now);
    var held := First(s.lane.slots, (slot: Slot) => Holds(work, slot));
    var free := First(s.lane.slots, IsEmpty);
    if w == work && Submitted(s.lane, work, now).1.Succeeded() {
      PromiseInSlot(s', if held < CAPACITY then held else free, w);
    } else {
      var i :| 0 <= i < CAPACITY && Owes(s.lane.slots[i], w);
      PromiseInSlot(s', i, w);
    }
  }

  /** One step keeps a promise, redeems it by a selection, or is a refused resubmission; only a stop drops it. */
  lemma PromiseStep(s: State, e: Event, w: Work)
    requires Inv(s) && Enabled(s, e) && s.running && !e.StopJoined? && Promised(s, w)
    ensures Selects(s, e, w) || Promised(Next(s, e), w) || Refused(s, e, w)
  {
    StepKeepsInv(s, e);
    var s' := Next(s, e);
    if k :| 0 <= k < |UiTodo(s.ui)| && Owes(UiTodo(s.ui)[k], w) {
      if e.EndComplete? {
        if k == 0 {
          ResubmitPromises(s, e, w);
        } else {
          assert UiTodo(s'.ui)[k - 1] == UiTodo(s.ui)[k];
          PromiseInTodo(s', k - 1, w);
        }
      } else {
        assert UiTodo(s'.ui) == UiTodo(s.ui);
        PromiseInTodo(s', k, w);
      }
    } else {
      var i :| 0 <= i < CAPACITY && Owes(s.lane.slots[i], w);
      SlotPromiseStep(s, e, w, i);
    }
  }

  lemma ResubmitPromises(s: State, e: Event, w: Work)
    requires Inv(s) && Enabled(s, e) && s.running && e.EndComplete? && Owes(s.ui.todo[0], w)
    ensures Promised(Next(s, e), w) || Refused(s, e, w)
  {
    assert s.ui.todo == UiTodo(s.ui);
    SubmitCases(s.lane, w, e.now);
    if Submitted(s.lane, w, e.now).1.Succeeded() {
      SubmitPromises(s, Next(s, e), w, e.now, w);
    }
  }

  lemma SlotPromiseStep(s: State, e: Event, w: Work, i: nat)
    requires Inv(s) && Enabled(s, e) && s.running && !e.StopJoined? && i < CAPACITY && Owes(s.lane.slots[i], w)
    ensures Selects(s, e, w) || Promised(Next(s, e), w)
  {
    var s' := Next(s, e);
    match e
    case Enqueue(work, now) =>
      if work.Some? {
        SubmitPromises(s, s', work.value, now, w);
      } else {
        PromiseInSlot(s', i, w);
      }
    case EndComplete(now) =>
      var done := s.ui.todo[0];
      if done.rerun {
        SubmitPromises(s, s', done.work.value, now, w);
      } else {
        PromiseInSlot(s', i, w);
      }
    case SelectNext =>
      SelectKeeps(s);
      if !(Selected(s.lane).1 == Some(i)) {
        PromiseInSlot(s', i, w);
      }
    case Sweep =>
      if s.lane.slots[i].state.Complete? {
        FilterMembers(s.lane.slots, IsComplete);
        assert s.lane.slots[i] in Filter(s.lane.slots, IsComplete);
        var k :| 0 <= k < |UiTodo(s'.ui)| && UiTodo(s'.ui)[k] == s.lane.slots[i];
        PromiseInTodo(s', k, w);
      } else {
        PromiseInSlot(s', i, w);
      }
    case _ =>
      PromiseInSlot(s', i, w);
  }

  /** A promise is lost exactly by a refused resubmission. */
  lemma LostExactlyWhenRefused(s: State, e: Event, w: Work)
    requires Inv(s) && Enabled(s, e) && s.running && !e.StopJoined? && Promised(s, w)
    ensures !Selects(s, e, w) && !Promised(Next(s, e), w) <==> Refused(s, e, w)
  {
    PromiseStep(s, e, w);
    if Refused(s, e, w) {
      assert s.ui.todo == UiTodo(s.ui);
      SubmitCases(s.lane, w, e.now);
      assert Next(s, e).selections == s.selections;
    }
  }

  predicate NoStop(es: seq<Event>) { forall e :: e in es ==> !e.StopJoined? }

  ghost predicate NeverRefused(s: State, es: seq<Event>, w: Work)
    decreases es
  {
    es == [] ||
    (s.lane.Sized() && Enabled(s, es[0]) && !Refused(s, es[0], w) && NeverRefused(Next(s, es[0]), es[1..], w))
  }

  /** Callbacks of the run's drains submit nothing. */
  ghost predicate QuietCallbacks(s: State, es: seq<Event>)
    decreases es
  {
    es == [] ||
    (s.lane.Sized() && Enabled(s, es[0]) && !(es[0].Enqueue? && s.ui.InCallback?) &&
     QuietCallbacks(Next(s, es[0]), es[1..]))
  }

  lemma {:induction false} QuietBorrowsNothing(s: State, es: seq<Event>, s': State)
    requires s.borrowed == 0 && QuietCallbacks(s, es) && IsRun(s, es, s')
    ensures s'.borrowed == 0
    decreases es
  {
    if es != [] {
      QuietBorrowsNothing(Next(s, es[0]), es[1..], s');
    }
  }

  /** The resubmission after a drain never finds the lane full unless a callback of that drain took a slot. */
  lemma RefusalNeedsBorrower(s: State, e: Event, w: Work)
    requires Inv(s) && Refused(s, e, w)
    ensures s.borrowed > 0
  {
    SumZero(s.lane.slots, EmptyUnit);
    assert s.ui.todo == UiTodo(s.ui);
  }

  lemma {:induction false} QuietNeverRefused(s: State, es: seq<Event>, s': State, w: Work)
    requires Inv(s) && s.borrowed == 0 && QuietCallbacks(s, es) && IsRun(s, es, s')
    ensures NeverRefused(s, es, w)
    decreases es
  {
    if es != [] {
      if Refused(s, es[0], w) {
        RefusalNeedsBorrower(s, es[0], w);
      }
      StepKeepsInv(s, es[0]);
      QuietNeverRefused(Next(s, es[0]), es[1..], s', w);
    }
  }

  lemma {:induction false} SelectionsGrow(s: State, es: seq<Event>, s': State)
    requires IsRun(s, es, s')
    ensures s.selections <= s'.selections
    decreases es
  {
    if es != [] {
      SelectionsGrow(Next(s, es[0]), es[1..], s');
    }
  }

  lemma LaterSelections(selections: seq<Work>, from: nat, later: nat)
    requires from <= later <= |selections|
    ensures forall x :: x in selections[later..] ==> x in selections[from..]
  {
    assert selections[from..] == selections[from..later] + selections[later..];
  }

  lemma {:induction false} PromiseRun(s: State, es: seq<Event>, s': State, w: Work)
    requires Inv(s) && s.running && Promised(s, w) && IsRun(s, es, s') && NoStop(es) && NeverRefused(s, es, w)
    ensures Inv(s') && s.selections <= s'.selections
    ensures w in s'.selections[|s.selections|..] || Promised(s', w)
    decreases es
  {
    RunKeepsInv(s, es, s');
    SelectionsGrow(s, es, s');
    if es != [] {
      var mid := Next(s, es[0]);
      PromiseStep(s, es[0], w);
      StepKeepsInv(s, es[0]);
      SelectionsGrow(mid, es[1..], s');
      if Selects(s, es[0], w) {
        assert s'.selections[|s.selections|..][0] == w;
      } else {
        PromiseRun(mid, es[1..], s', w);
        LaterSelections(s'.selections, |s.selections|, |mid.selections|);
      }
    }
  }

  /** Both threads wait and nothing is on its way between them. */
  predicate AtRest(s: State) {
    s.running && s.worker.Blocked? && !s.lane.ready && s.ui.Idle? && !s.posted
  }

  lemma RestOwesNothing(s: State, w: Work)
    requires Inv(s) && AtRest(s)
    ensures !Promised(s, w)
    ensures forall i :: 0 <= i < CAPACITY ==> s.lane.slots[i].state.Empty?
  {
    assert forall i :: 0 <= i < CAPACITY ==> SlotConsistent(s.lane.slots[i]);
  }

  /** A request answered S_OK or S_FALSE is covered by a later selection, in every run without a stop in which its
      rerun is never refused: it is promised until then, and a lane at rest has covered it. */
  lemma RequestCovered(s: State, w: Work, now: nat, es: seq<Event>, s': State)
    requires Inv(s) && Enabled(s, Enqueue(Some(w), now))
    requires Enqueued(s.lane, s.running, Some(w), now).1.Succeeded()
    requires var s1 := Next(s, Enqueue(Some(w), now)); IsRun(s1, es, s') && NoStop(es) && NeverRefused(s1, es, w)
    ensures Inv(s') && s.selections <= s'.selections
    ensures w in s'.selections[|s.selections|..] || Promised(s', w)
    ensures AtRest(s') ==> w in s'.selections[|s.selections|..]
  {
    var e := Enqueue(Some(w), now);
    StepKeepsInv(s, e);
    SubmitPromises(s, Next(s, e), w, now, w);
    PromiseRun(Next(s, e), es, s', w);
    if AtRest(s') {
      RestOwesNothing(s', w);
    }
  }

  /** No control request is lost while completions submit no new work. */
  lemma NoRequestLost(before: seq<Event>, s: State, w: Work, now: nat, after: seq<Event>, s': State)
    requires IsRun(Initial(), before, s) && QuietCallbacks(Initial(), before) && s.lane.Sized()
    requires Enabled(s, Enqueue(Some(w), now)) && Enqueued(s.lane, s.running, Some(w), now).1.Succeeded()
    requires s.ui.Idle?
    requires var s1 := Next(s, Enqueue(Some(w), now));
             IsRun(s1, after, s') && NoStop(after) && QuietCallbacks(s1, after)
    ensures Inv(s') && s.selections <= s'.selections
    ensures w in s'.selections[|s.selections|..] || Promised(s', w)
    ensures AtRest(s') ==> w in s'.selections[|s.selections|..]
  {
    var s1 := Next(s, Enqueue(Some(w), now));
    ReachableInv(before, s);
    QuietBorrowsNothing(Initial(), before, s);
    StepKeepsInv(s, Enqueue(Some(w), now));
    QuietNeverRefused(s1, after, s', w);
    RequestCovered(s, w, now, after, s');
  }

  // ---------------------------------------------------------------------------------------------------------------
  // Bounded bypass

  /** One step selects the job waiting in slot `i`, or leaves it waiting with the scan nearer by one per selection. */
  lemma BypassStep(s: State, e: Event, i: nat, w: Work)
    requires Inv(s) && Enabled(s, e) && !e.StopJoined? && i < CAPACITY
    requires s.lane.slots[i].state.Queued? && s.lane.slots[i].work == Some(w)
    ensures var mid := Next(s, e);
            Selects(s, e, w) ||
            (mid.lane.slots[i] == s.lane.slots[i] && s.selections <= mid.selections &&
             |mid.selections| - |s.selections| + Distance(mid.lane.lastSelected, i) <= Distance(s.lane.lastSelected, i))
  {
    if e.SelectNext? {
      SelectCases(s.lane);
      SelectKeeps(s);
      var picked := Selected(s.lane).1.value;
      if picked != i {
        ScanApproaches(s.lane.lastSelected, picked, i);
      }
    } else {
      QueuedStays(s, e, i);
    }
  }

  /** A queued job is among the next selections, at the latest when the scan comes round to its slot: at most
      CAPACITY - 1 selections of other jobs go first, whatever is submitted meanwhile. */
  lemma {:induction false} BoundedBypass(s: State, es: seq<Event>, s': State, i: nat, w: Work)
    requires Inv(s) && i < CAPACITY && s.lane.slots[i].state.Queued? && s.lane.slots[i].work == Some(w)
    requires IsRun(s, es, s') && NoStop(es)
    ensures s.selections <= s'.selections
    ensures WithinNext(Distance(s.lane.lastSelected, i), w, s.selections, s'.selections)
    decreases es
  {
    SelectionsGrow(s, es, s');
    if es != [] {
      var mid := Next(s, es[0]);
      var d := Distance(s.lane.lastSelected, i);
      StepKeepsInv(s, es[0]);
      BypassStep(s, es[0], i, w);
      SelectionsGrow(mid, es[1..], s');
      if Selects(s, es[0], w) {
        WithinNow(d, w, s.selections, mid.selections, s'.selections);
      } else {
        BoundedBypass(mid, es[1..], s', i, w);
        WithinLater(d, Distance(mid.lane.lastSelected, i), w, s.selections, mid.selections, s'.selections);
      }
    }
  }

  lemma QueuedStays(s: State, e: Event, i: nat)
    requires Inv(s) && Enabled(s, e) && !e.SelectNext? && !e.StopJoined? && i < CAPACITY
    requires s.lane.slots[i].state.Queued?
    ensures Next(s, e).lane.slots[i] == s.lane.slots[i]
    ensures Next(s, e).lane.lastSelected == s.lane.lastSelected && Next(s, e).selections == s.selections
  {
    if e.Enqueue? && e.work.Some? {
      SubmissionLeavesQueued(s.lane, e.work.value, e.now, i);
    } else if e.EndComplete? && s.ui.todo[0].work.Some? {
      SubmissionLeavesQueued(s.lane, s.ui.todo[0].work.value, e.now, i);
    }
  }

  lemma SubmissionLeavesQueued(lane: Lane, work: Work, now: nat, i: nat)
    requires lane.Sized() && i < CAPACITY && lane.slots[i].state.Queued?
    ensures var after := Submitted(lane, work, now).0;
            after.slots[i] == lane.slots[i] && after.lastSelected == lane.lastSelected
  {
    SubmitCases(lane, work, now);
  }

  // ---------------------------------------------------------------------------------------------------------------
  // Coming to rest

  /** Steps the two threads take by themselves; the others are new requests, starts, stops and foreign messages. */
  predicate Internal(e: Event) { !e.Start? && !e.Enqueue? && !e.StopBegin? && !e.Invalidate? }

  function SlotWeight(slot: Slot): (r: nat) {
    (match slot.state case Empty => 0 case Queued => 10 case Running => 9 case Complete => 2) +
        if slot.rerun then 13 else 0
  }

  function UiWeight(ui: Ui): (r: nat) {
    match ui
    case Idle => 0
    case Exchanging => 3
    case Sweeping => 2
    case Delivering(todo) => 1 + Sum(todo, SlotWeight)
    case InCallback(todo) => Sum(todo, SlotWeight)
    case Joining(back) => 1 + UiWeight(back)
  }

  function WorkerWeight(worker: Worker): (r: nat) {
    match worker
    case Exited => 0 case Blocked => 1 case Scanning => 2 case Checking => 3 case Performing(_) => 2 case Notifying => 8
  }

  function Measure(s: State): (r: nat) {
    Sum(s.lane.slots, SlotWeight) + UiWeight(s.ui) + WorkerWeight(s.worker) +
    (if s.lane.ready then 3 else 0) + (if s.posted then 4 else 0)
  }

  lemma {:induction false} SweepMovesWeight(slots: seq<Slot>, after: seq<Slot>)
    requires |after| == |slots| && forall i :: 0 <= i < |slots| ==> after[i] == Cleared(slots[i])
    ensures Sum(after, SlotWeight) + Sum(Filter(slots, IsComplete), SlotWeight) == Sum(slots, SlotWeight)
  {
    if slots != [] {
      SweepMovesWeight(slots[1..], after[1..]);
      SumConcat(if IsComplete(slots[0]) then [slots[0]] else [], Filter(slots[1..], IsComplete), SlotWeight);
    }
  }

  lemma SubmitWeight(lane: Lane, work: Work, now: nat)
    requires lane.Sized() && forall i :: 0 <= i < CAPACITY ==> SlotConsistent(lane.slots[i])
    ensures var after := Submitted(lane, work, now).0;
            Sum(after.slots, SlotWeight) + (if after.ready then 3 else 0) <=
            Sum(lane.slots, SlotWeight) + (if lane.ready then 3 else 0) + 13
  {
    SubmitCases(lane, work, now);
    var held := First(lane.slots, (slot: Slot) => Holds(work, slot));
    var free := First(lane.slots, IsEmpty);
    if held < CAPACITY {
      SumUpdate(lane.slots, held, lane.slots[held].(rerun := true), SlotWeight);
    } else if free < CAPACITY {
      assert SlotConsistent(lane.slots[free]);
      SumUpdate(lane.slots, free, lane.slots[free].(work := Some(work), state := Queued, queuedAt := now), SlotWeight);
    }
  }

  lemma SelectDescends(s: State)
    requires Inv(s) && s.worker.Scanning?
    ensures Measure(Next(s, SelectNext)) < Measure(s)
  {
    SelectKeeps(s);
    var selected := Selected(s.lane).1;
    if selected.Some? {
      SumUpdate(s.lane.slots, selected.value, s.lane.slots[selected.value].(state := Running), SlotWeight);
    }
  }

  lemma EndCompleteDescends(s: State, now: nat)
    requires Inv(s) && Enabled(s, EndComplete(now))
    ensures Measure(Next(s, EndComplete(now))) < Measure(s)
  {
    assert s.ui.todo == UiTodo(s.ui);
    if s.ui.todo[0].rerun {
      SubmitWeight(s.lane, s.ui.todo[0].work.value, now);
    }
  }

  lemma FinishDescends(s: State, e: Event)
    requires Inv(s) && Enabled(s, e) && e.Finish?
    ensures Measure(Next(s, e)) < Measure(s)
  {
    SumUpdate(s.lane.slots, s.worker.slot, Next(s, e).lane.slots[s.worker.slot], SlotWeight);
  }

  lemma SignalDescends(s: State, e: Event)
    requires Inv(s) && Enabled(s, e)
    requires e.Message? || e.Exchange? || e.BeginComplete? || e.Wake? || e.CheckStop? || e.Notify?
    ensures Measure(Next(s, e)) < Measure(s)
  {
    assert Next(s, e).lane.slots == s.lane.slots;
  }

  lemma InternalStepDescends(s: State, e: Event)
    requires Inv(s) && Enabled(s, e) && Internal(e)
    ensures Measure(Next(s, e)) < Measure(s)
  {
    if e.SelectNext? {
      SelectDescends(s);
    } else if e.Finish? {
      FinishDescends(s, e);
    } else if e.EndComplete? {
      EndCompleteDescends(s, e.now);
    } else if e.Sweep? {
      SweepMovesWeight(s.lane.slots, Next(s, e).lane.slots);
    } else if e.StopJoined? {
      SumZero(Next(s, e).lane.slots, SlotWeight);
    } else {
      SignalDescends(s, e);
    }
  }

  /** Left alone, the lane takes at most Measure(s) more steps. */
  lemma {:induction false} RunsToRest(s: State, es: seq<Event>, s': State)
    requires Inv(s) && IsRun(s, es, s') && forall e :: e in es ==> Internal(e)
    ensures |es| + Measure(s') <= Measure(s)
    decreases es
  {
    if es != [] {
      InternalStepDescends(s, es[0]);
      StepKeepsInv(s, es[0]);
      RunsToRest(Next(s, es[0]), es[1..], s');
    }
  }

  /** Deadlock-free: while the lane is running and not at rest, some thread can take a step by itself. */
  lemma StepUntilRest(s: State)
    requires Inv(s) && s.running && !AtRest(s)
    ensures exists e :: Internal(e) && Enabled(s, e)
  {
    var e :=
      match s.ui
      case Exchanging => Exchange
      case Sweeping => Sweep
      case Delivering(_) => BeginComplete
      case InCallback(_) => EndComplete(0)
      case Joining(_) =>
        (match s.worker
         case Exited => StopJoined
         case Blocked => Wake
         case Checking => CheckStop
         case Scanning => SelectNext
         case Performing(i) => Finish(s.lane.slots[i].queuedAt, Ok)
         case Notifying => Notify)
      case Idle =>
        (match s.worker
         case Blocked => if s.lane.ready then Wake else Message
         case Checking => CheckStop
         case Scanning => SelectNext
         case Performing(i) => Finish(s.lane.slots[i].queuedAt, Ok)
         case _ => Notify);
    assert s.ui.InCallback? ==> UiTodo(s.ui) == s.ui.todo;
    assert Internal(e) && Enabled(s, e);
  }

  // ---------------------------------------------------------------------------------------------------------------
  // Stop

  /** Once Stop has set its event at most one more job is selected, and only when the worker had already passed its
      stop test; when Stop returns, no slot holds a job. */
  lemma {:induction false} StopSelectsAtMostOne(s: State, es: seq<Event>, s': State)
    requires Inv(s) && s.stop && IsRun(s, es, s') && NoStop(es)
    ensures |s'.selections| <= |s.selections| + if s.worker.Scanning? then 1 else 0
    ensures Inv(s') && s'.stop
    ensures s'.worker.Exited? ==> forall i :: 0 <= i < CAPACITY ==> Next(s', StopJoined).lane.slots[i] == NO_SLOT
    decreases es
  {
    RunKeepsInv(s, es, s');
    if es != [] {
      StepKeepsInv(s, es[0]);
      if es[0].SelectNext? {
        SelectKeeps(s);
      }
      StopSelectsAtMostOne(Next(s, es[0]), es[1..], s');
    }
  }

  // ---------------------------------------------------------------------------------------------------------------
  // Liveness

  /** No thread can take a step by itself. */
  ghost predicate Stuck(s: State) { forall e :: Internal(e) ==> !Enabled(s, e) }

  predicate AllInternal(es: seq<Event>) { forall e :: e in es ==> Internal(e) }

  /** A lane left alone comes to rest: its runs are bounded, and one that cannot be extended ends at rest. */
  lemma LeftAloneItRests(s: State, es: seq<Event>, s': State)
    requires Inv(s) && IsRun(s, es, s') && AllInternal(es) && Stuck(s') && s'.running
    ensures |es| <= Measure(s) && AtRest(s')
  {
    RunsToRest(s, es, s');
    RunKeepsInv(s, es, s');
    if !AtRest(s') {
      StepUntilRest(s');
      assert false;
    }
  }

  lemma InternalStepIsQuiet(s: State, e: Event)
    requires s.lane.Sized() && Enabled(s, e) && Internal(e) && s.running && !s.stop && !s.ui.Joining?
    ensures var s' := Next(s, e); !e.StopJoined? && s'.running && !s'.stop && !s'.ui.Joining?
  {
  }

  lemma {:induction false} InternalRunsAreQuiet(s: State, es: seq<Event>, s': State)
    requires Inv(s) && s.running && !s.stop && !s.ui.Joining? && IsRun(s, es, s') && AllInternal(es)
    ensures NoStop(es) && QuietCallbacks(s, es) && s'.running
    decreases es
  {
    if es != [] {
      InternalStepIsQuiet(s, es[0]);
      StepKeepsInv(s, es[0]);
      InternalRunsAreQuiet(Next(s, es[0]), es[1..], s');
    }
  }

  /** A request answered S_OK or S_FALSE on a running lane that is then left alone is selected: every run that cannot be
      extended has selected it, within boundedly many steps. */
  lemma RequestIsSelected(before: seq<Event>, s: State, w: Work, now: nat, es: seq<Event>, s': State)
    requires IsRun(Initial(), before, s) && QuietCallbacks(Initial(), before) && s.lane.Sized() && s.ui.Idle?
    requires Enabled(s, Enqueue(Some(w), now)) && Enqueued(s.lane, s.running, Some(w), now).1.Succeeded() && !s.stop
    requires IsRun(Next(s, Enqueue(Some(w), now)), es, s') && AllInternal(es) && Stuck(s')
    ensures |es| <= Measure(Next(s, Enqueue(Some(w), now)))
    ensures s.selections <= s'.selections && w in s'.selections[|s.selections|..]
  {
    var s1 := Next(s, Enqueue(Some(w), now));
    ReachableInv(before, s);
    StepKeepsInv(s, Enqueue(Some(w), now));
    InternalRunsAreQuiet(s1, es, s');
    LeftAloneItRests(s1, es, s');
    NoRequestLost(before, s, w, now, es, s');
  }
}
