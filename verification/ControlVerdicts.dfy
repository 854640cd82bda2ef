// What the control lane tells its jobs. A history runs beside the step system of ControlProtocol: when each job was
// queued, the verdict reached for it, and the calls of Complete.
module ControlVerdicts {
  import opened Basics
  import opened RoundRobin
  import opened ControlLanes
  import opened ControlProtocol
  import opened ControlGuarantees

  datatype Verdict = Verdict(work: Work, result: HResult)

  /** The state of the lane with its history: when the work now in the lane was queued, the verdicts reached, those told
      in a call of Complete, and those dropped by a Stop. */
  datatype History = History(
    s: State,
    since: map<Work, nat>,
    reached: multiset<Verdict>,
    told: multiset<Verdict>,
    dropped: multiset<Verdict>)

  function Start(): (h: History) { History(Initial(), map[], multiset{}, multiset{}, multiset{}) }

  /** A job's verdict: the apartment's failure, a time-out once it has waited three seconds, or its own answer. */
  function JobVerdict(apartment: HResult, age: int, answer: HResult): (r: HResult) {
    if apartment != Ok && apartment != False then apartment else if age >= 3000 then Timeout else answer
  }

  predicate InLane(lane: Lane, w: Work) { exists i :: 0 <= i < |lane.slots| && lane.slots[i].work == Some(w) }

  function ResultOf(slot: Slot): (r: multiset<Verdict>) {
    if slot.state.Complete? && slot.work.Some? then multiset{Verdict(slot.work.value, slot.result)} else multiset{}
  }

  function Results(slots: seq<Slot>): (r: multiset<Verdict>) {
    if slots == [] then multiset{} else ResultOf(slots[0]) + Results(slots[1..])
  }

  /** The swept copies whose Complete is still to be called. */
  function Untold(ui: Ui): (todo: seq<Slot>) {
    match ui
    case Delivering(todo) => todo
    case InCallback(todo) => if todo == [] then [] else todo[1..]
    case Joining(back) => Untold(back)
    case _ => []
  }

  function Queueing(h: History, s': State, w: Work, now: nat): (since: map<Work, nat>) {
    if !InLane(h.s.lane, w) && InLane(s'.lane, w) then h.since[w := now] else h.since
  }

  function Then(h: History, e: Event): (r: History)
    requires h.s.lane.Sized() && Enabled(h.s, e)
    ensures r.s == Next(h.s, e)
  {
    var s, s' := h.s, Next(h.s, e);
    match e
    case Enqueue(work, now) => h.(s := s', since := if work.Some? then Queueing(h, s', work.value, now) else h.since)
    case EndComplete(now) =>
      var work := s.ui.todo[0].work;
      h.(s := s', since := if work.Some? then Queueing(h, s', work.value, now) else h.since)
    case Finish(now, answer) =>
      var work := s.lane.slots[s.worker.slot].work;
      if work.Some? && work.value in h.since then
        h.(s := s', reached := h.reached + multiset{Verdict(work.value,
                                                            JobVerdict(s.apartment, now - h.since[work.value],
                                                                       answer))})
      else h.(s := s')
    case BeginComplete =>
      if s'.ui.InCallback? then h.(s := s', told := h.told + ResultOf(s.ui.todo[0]))
      else h.(s := s', dropped := h.dropped + Results(s.ui.todo))
    case StopJoined => h.(s := s', dropped := h.dropped + Results(s.lane.slots))
    case _ => h.(s := s')
  }

  // ---------------------------------------------------------------------------------------------------------------
  // The invariant

  /** Every slot in use knows when its work was queued. */
  ghost predicate TimesOk(h: History) {
    forall i :: 0 <= i < |h.s.lane.slots| && h.s.lane.slots[i].work.Some? ==>
      h.s.lane.slots[i].work.value in h.since && h.since[h.s.lane.slots[i].work.value] == h.s.lane.slots[i].queuedAt
  }

  /** Every verdict reached is in a slot, in a swept copy, told once or dropped once. */
  ghost predicate ConservedFor(h: History, v: Verdict) {
    h.reached[v] == Results(h.s.lane.slots)[v] + Results(Untold(h.s.ui))[v] + h.told[v] + h.dropped[v]
  }

  ghost predicate HistoryOk(h: History) { Inv(h.s) && TimesOk(h) && forall v :: ConservedFor(h, v) }

  lemma {:induction false} ResultsUpdate(slots: seq<Slot>, i: nat, slot: Slot, v: Verdict)
    requires i < |slots|
    ensures Results(slots[i := slot])[v] + ResultOf(slots[i])[v] == Results(slots)[v] + ResultOf(slot)[v]
  {
    if i == 0 {
      assert slots[0 := slot][1..] == slots[1..];
    } else {
      ResultsUpdate(slots[1..], i - 1, slot, v);
      assert slots[i := slot][1..] == slots[1..][i - 1 := slot];
    }
  }

  lemma {:induction false} ResultsSwept(slots: seq<Slot>, after: seq<Slot>, v: Verdict)
    requires |after| == |slots| && forall i :: 0 <= i < |slots| ==> after[i] == Cleared(slots[i])
    ensures Results(after)[v] + Results(Filter(slots, IsComplete))[v] == Results(slots)[v]
  {
    if slots != [] {
      ResultsSwept(slots[1..], after[1..], v);
      if IsComplete(slots[0]) {
        assert Filter(slots, IsComplete) == [slots[0]] + Filter(slots[1..], IsComplete);
      } else {
        assert Filter(slots, IsComplete) == Filter(slots[1..], IsComplete);
      }
    }
  }

  lemma {:induction false} NoResults(slots: seq<Slot>)
    requires forall i :: 0 <= i < |slots| ==> !slots[i].state.Complete?
    ensures Results(slots) == multiset{}
  {
    if slots != [] {
      NoResults(slots[1..]);
    }
  }

  /** A submission moves no result. */
  lemma SubmissionMovesNothing(lane: Lane, work: Work, now: nat, v: Verdict)
    requires lane.Sized() && forall i :: 0 <= i < CAPACITY ==> SlotConsistent(lane.slots[i])
    ensures Results(Submitted(lane, work, now).0.slots)[v] == Results(lane.slots)[v]
  {
    SubmitCases(lane, work, now);
    var held := First(lane.slots, (slot: Slot) => Holds(work, slot));
    var free := First(lane.slots, IsEmpty);
    if held < CAPACITY {
      ResultsUpdate(lane.slots, held, lane.slots[held].(rerun := true), v);
    } else if free < CAPACITY {
      var slot := lane.slots[free].(work := Some(work), state := Queued, queuedAt := now);
      ResultsUpdate(lane.slots, free, slot, v);
    }
  }

  /** It notes when the work was queued, and only then. */
  lemma SubmissionIsNoted(h: History, work: Work, now: nat, h': History)
    requires SlotsOk(h.s) && TimesOk(h) && h'.s.lane == Submitted(h.s.lane, work, now).0
    requires h'.since == Queueing(h, h'.s, work, now)
    ensures TimesOk(h')
  {
    SubmitCases(h.s.lane, work, now);
    var slots := h.s.lane.slots;
    var held := First(slots, (slot: Slot) => Holds(work, slot));
    var free := First(slots, IsEmpty);
    if held < CAPACITY {
      assert slots[held].work == Some(work);
      assert InLane(h.s.lane, work);
    } else if free < CAPACITY {
      assert !InLane(h.s.lane, work);
      assert h'.s.lane.slots[free].work == Some(work);
      assert InLane(h'.s.lane, work);
    }
  }

  lemma TimesKept(h: History, h': History)
    requires TimesOk(h) && h'.since == h.since && |h'.s.lane.slots| == |h.s.lane.slots|
    requires forall i :: 0 <= i < |h.s.lane.slots| ==>
               h'.s.lane.slots[i].work.None? || (h'.s.lane.slots[i].work == h.s.lane.slots[i].work &&
                                                h'.s.lane.slots[i].queuedAt == h.s.lane.slots[i].queuedAt)
    ensures TimesOk(h')
  {
  }

  lemma StepIsTimed(h: History, e: Event)
    requires Inv(h.s) && TimesOk(h) && Enabled(h.s, e)
    ensures TimesOk(Then(h, e))
  {
    var h' := Then(h, e);
    if e.Enqueue? {
      if e.work.Some? && h.s.running {
        SubmissionIsNoted(h, e.work.value, e.now, h');
      }
    } else if e.EndComplete? {
      var done := UiTodo(h.s.ui)[0];
      if done.rerun && h.s.running {
        SubmissionIsNoted(h, done.work.value, e.now, h');
      } else {
        assert h'.since == h.since;
      }
    } else {
      SlotsAreKept(h.s, e);
      TimesKept(h, h');
    }
  }

  /** No other step puts work into a slot, or a new time beside it. */
  lemma SlotsAreKept(s: State, e: Event)
    requires Inv(s) && Enabled(s, e) && !e.Enqueue? && !e.EndComplete?
    ensures var slots' := Next(s, e).lane.slots;
            forall i :: 0 <= i < CAPACITY ==>
              slots'[i].work.None? ||
              (slots'[i].work == s.lane.slots[i].work && slots'[i].queuedAt == s.lane.slots[i].queuedAt)
  {
    if e.SelectNext? {
      SelectOutcome(s);
    }
  }

  lemma EnqueueTells(h: History, e: Event, v: Verdict)
    requires Inv(h.s) && ConservedFor(h, v) && Enabled(h.s, e) && e.Enqueue?
    ensures ConservedFor(Then(h, e), v)
  {
    if e.work.Some? && h.s.running {
      SubmissionMovesNothing(h.s.lane, e.work.value, e.now, v);
    }
  }

  lemma EndCompleteTells(h: History, e: Event, v: Verdict)
    requires Inv(h.s) && ConservedFor(h, v) && Enabled(h.s, e) && e.EndComplete?
    ensures ConservedFor(Then(h, e), v)
  {
    EndCompleteMovesNothing(h.s, e, v);
    Unmoved(h, Then(h, e), v);
  }

  lemma EndCompleteMovesNothing(s: State, e: Event, v: Verdict)
    requires Inv(s) && Enabled(s, e) && e.EndComplete?
    ensures Results(Next(s, e).lane.slots)[v] == Results(s.lane.slots)[v]
    ensures Untold(Next(s, e).ui) == Untold(s.ui)
  {
    assert Next(s, e).ui == Delivering(s.ui.todo[1..]);
    var done := UiTodo(s.ui)[0];
    if done.rerun && s.running {
      assert Next(s, e).lane == Submitted(s.lane, done.work.value, e.now).0;
      SubmissionMovesNothing(s.lane, done.work.value, e.now, v);
    } else {
      assert Next(s, e).lane == s.lane;
    }
  }

  lemma Unmoved(h: History, h': History, v: Verdict)
    requires ConservedFor(h, v) && Results(h'.s.lane.slots)[v] == Results(h.s.lane.slots)[v]
    requires Untold(h'.s.ui) == Untold(h.s.ui)
    requires h'.reached == h.reached && h'.told == h.told && h'.dropped == h.dropped
    ensures ConservedFor(h', v)
  {
  }

  /** What Finish stores is the verdict reached, for the work it was reached for. */
  lemma FinishStores(h: History, e: Event)
    requires Inv(h.s) && TimesOk(h) && Enabled(h.s, e) && e.Finish?
    ensures var i, s' := h.s.worker.slot, Next(h.s, e);
            h.s.lane.slots[i].work.Some? && h.s.lane.slots[i].work.value in h.since &&
            s'.lane.slots == h.s.lane.slots[i := s'.lane.slots[i]] && ResultOf(h.s.lane.slots[i]) == multiset{} &&
            Then(h, e).reached == h.reached + ResultOf(s'.lane.slots[i]) &&
            s'.lane.slots[i].state == Complete && s'.lane.slots[i].work == h.s.lane.slots[i].work &&
            s'.lane.slots[i].result ==
              JobVerdict(h.s.apartment, e.now - h.since[h.s.lane.slots[i].work.value], e.answer)
  {
    assert SlotConsistent(h.s.lane.slots[h.s.worker.slot]);
  }

  lemma FinishTells(h: History, e: Event, v: Verdict)
    requires Inv(h.s) && TimesOk(h) && ConservedFor(h, v) && Enabled(h.s, e) && e.Finish?
    ensures ConservedFor(Then(h, e), v)
  {
    FinishStores(h, e);
    var i := h.s.worker.slot;
    ResultsUpdate(h.s.lane.slots, i, Next(h.s, e).lane.slots[i], v);
  }

  lemma SelectTells(h: History, v: Verdict)
    requires Inv(h.s) && ConservedFor(h, v) && h.s.worker.Scanning?
    ensures ConservedFor(Then(h, SelectNext), v)
  {
    SelectMovesNothing(h.s, v);
    Unmoved(h, Then(h, SelectNext), v);
  }

  lemma SelectMovesNothing(s: State, v: Verdict)
    requires Inv(s) && s.worker.Scanning?
    ensures Results(Next(s, SelectNext).lane.slots)[v] == Results(s.lane.slots)[v]
    ensures Next(s, SelectNext).ui == s.ui
  {
    SelectOutcome(s);
    var selected := Selected(s.lane).1;
    if selected.Some? {
      ResultsUpdate(s.lane.slots, selected.value, s.lane.slots[selected.value].(state := Running), v);
    }
  }

  lemma SweepTells(h: History, v: Verdict)
    requires h.s.lane.Sized() && ConservedFor(h, v) && h.s.ui.Sweeping?
    ensures ConservedFor(Then(h, Sweep), v)
  {
    SweepMoves(h.s, v);
    var h' := Then(h, Sweep);
    assert h'.reached == h.reached && h'.told == h.told && h'.dropped == h.dropped;
  }

  lemma SweepMoves(s: State, v: Verdict)
    requires s.lane.Sized() && s.ui.Sweeping?
    ensures Untold(s.ui) == []
    ensures var s' := Next(s, Sweep); Results(s'.lane.slots)[v] + Results(Untold(s'.ui))[v] == Results(s.lane.slots)[v]
  {
    var s' := Next(s, Sweep);
    assert s'.ui == Delivering(Filter(s.lane.slots, IsComplete));
    ResultsSwept(s.lane.slots, s'.lane.slots, v);
  }

  lemma DeliveryTells(h: History, v: Verdict)
    requires h.s.lane.Sized() && ConservedFor(h, v) && h.s.ui.Delivering?
    ensures ConservedFor(Then(h, BeginComplete), v)
  {
    var todo, h' := h.s.ui.todo, Then(h, BeginComplete);
    if h'.s.ui.InCallback? {
      assert Untold(h'.s.ui) == todo[1..] && h'.told[v] == h.told[v] + ResultOf(todo[0])[v];
    } else {
      assert Untold(h'.s.ui) == [] && h'.dropped[v] == h.dropped[v] + Results(todo)[v];
    }
  }

  lemma StopTells(h: History, v: Verdict)
    requires h.s.lane.Sized() && ConservedFor(h, v) && Enabled(h.s, StopJoined)
    ensures ConservedFor(Then(h, StopJoined), v)
  {
    var h' := Then(h, StopJoined);
    NoResults(h'.s.lane.slots);
    assert Untold(h'.s.ui) == Untold(h.s.ui);
  }

  lemma SignalTells(h: History, e: Event, v: Verdict)
    requires h.s.lane.Sized() && ConservedFor(h, v) && Enabled(h.s, e)
    requires e.Start? || e.Message? || e.Exchange? || e.StopBegin? || e.Wake? || e.CheckStop? || e.Notify? ||
             e.Invalidate?
    ensures ConservedFor(Then(h, e), v)
  {
    var s' := Next(h.s, e);
    assert s'.lane.slots == h.s.lane.slots && Untold(s'.ui) == Untold(h.s.ui);
  }

  lemma StepTellsOf(h: History, e: Event, v: Verdict)
    requires Inv(h.s) && TimesOk(h) && ConservedFor(h, v) && Enabled(h.s, e)
    ensures ConservedFor(Then(h, e), v)
  {
    match e
    case Enqueue(_, _) => EnqueueTells(h, e, v);
    case EndComplete(_) => EndCompleteTells(h, e, v);
    case Finish(_, _) => FinishTells(h, e, v);
    case SelectNext => SelectTells(h, v);
    case Sweep => SweepTells(h, v);
    case BeginComplete => DeliveryTells(h, v);
    case StopJoined => StopTells(h, v);
    case _ => SignalTells(h, e, v);
  }

  lemma StepTells(h: History, e: Event)
    requires HistoryOk(h) && Enabled(h.s, e)
    ensures HistoryOk(Then(h, e))
  {
    StepKeepsInv(h.s, e);
    StepIsTimed(h, e);
    forall v
      ensures ConservedFor(Then(h, e), v)
    {
      assert ConservedFor(h, v);
      StepTellsOf(h, e, v);
    }
  }

  ghost predicate IsTold(h: History, es: seq<Event>, h': History)
    decreases |es|
  {
    if es == [] then h' == h
    else h.s.lane.Sized() && Enabled(h.s, es[0]) && IsTold(Then(h, es[0]), es[1..], h')
  }

  lemma {:induction false} RunTells(h: History, es: seq<Event>, h': History)
    requires HistoryOk(h) && IsTold(h, es, h')
    ensures HistoryOk(h')
    decreases |es|
  {
    if es != [] {
      StepTells(h, es[0]);
      RunTells(Then(h, es[0]), es[1..], h');
    }
  }

  lemma StartOk()
    ensures HistoryOk(Start())
  {
    InitialInv();
    NoResults(Start().s.lane.slots);
  }

  /** Over every run: what Complete was called with, together with the results still in slots and swept copies and those
      a Stop dropped, is exactly the verdicts reached, each for its own job and by its own age and answer. */
  lemma VerdictsAreConserved(es: seq<Event>, h: History, v: Verdict)
    requires IsTold(Start(), es, h)
    ensures h.reached[v] == Results(h.s.lane.slots)[v] + Results(Untold(h.s.ui))[v] + h.told[v] + h.dropped[v]
  {
    StartOk();
    RunTells(Start(), es, h);
    assert ConservedFor(h, v);
  }

  // ---------------------------------------------------------------------------------------------------------------
  // Without a Stop everything is told

  predicate Draining(ui: Ui) { UiTodo(ui) != [] || ui.Sweeping? }

  lemma NothingDropped(h: History, e: Event)
    requires Inv(h.s) && Enabled(h.s, e) && !e.StopJoined? && (Draining(h.s.ui) ==> h.s.running)
    ensures Then(h, e).dropped == h.dropped && (Draining(Then(h, e).s.ui) ==> Then(h, e).s.running)
  {
    if e.BeginComplete? && (h.s.ui.todo == [] || !h.s.running) {
      assert h.s.ui.todo == [] && h.dropped + Results(h.s.ui.todo) == h.dropped;
    }
  }

  lemma {:induction false} RunDropsNothing(h: History, es: seq<Event>, h': History)
    requires Inv(h.s) && (Draining(h.s.ui) ==> h.s.running)
    requires IsTold(h, es, h') && forall e :: e in es ==> !e.StopJoined?
    ensures h'.dropped == h.dropped
    decreases |es|
  {
    if es != [] {
      assert es[0] in es;
      NothingDropped(h, es[0]);
      StepKeepsInv(h.s, es[0]);
      RunDropsNothing(Then(h, es[0]), es[1..], h');
    }
  }

  /** In a run without Stop a lane with empty slots and no drain under way, such as a lane at rest, has told every
      verdict exactly once. */
  lemma EveryVerdictIsTold(es: seq<Event>, h: History)
    requires IsTold(Start(), es, h) && forall e :: e in es ==> !e.StopJoined?
    requires h.s.ui.Idle? && forall i :: 0 <= i < |h.s.lane.slots| ==> h.s.lane.slots[i].state.Empty?
    ensures h.told == h.reached
  {
    StartOk();
    RunDropsNothing(Start(), es, h);
    NoResults(h.s.lane.slots);
    forall v
      ensures h.told[v] == h.reached[v]
    {
      VerdictsAreConserved(es, h, v);
    }
  }

  // ---------------------------------------------------------------------------------------------------------------
  // The answers of Enqueue

  /** Null work, no thread, work the lane holds already, a free slot, a full lane: each has its own answer, and only the
      free slot takes the work, queued now. */
  lemma EnqueueAnswers(lane: Lane, running: bool, work: Option<Work>, now: nat)
    requires lane.Sized() && forall i :: 0 <= i < |lane.slots| ==> SlotConsistent(lane.slots[i])
    ensures var (after, answer) := Enqueued(lane, running, work, now);
            (answer == Pointer <==> work.None?) && (answer == Unexpected <==> work.Some? && !running) &&
            (work.Some? && running ==>
              (answer == False <==> InLane(lane, work.value)) &&
              (answer == Busy <==> !InLane(lane, work.value) &&
                                   forall i :: 0 <= i < |lane.slots| ==> lane.slots[i].work.Some?) &&
              (answer == Ok <==> !InLane(lane, work.value) &&
                                 exists i :: 0 <= i < |lane.slots| && lane.slots[i].work.None?)) &&
            (answer != Ok && answer != False ==> after == lane)
    ensures var (after, answer) := Enqueued(lane, running, work, now);
            answer == Ok ==>
              after.ready && after.lastSelected == lane.lastSelected && after.completed == lane.completed &&
              exists i :: 0 <= i < |lane.slots| && lane.slots[i].state == Empty &&
                after.slots == lane.slots[i := Slot(work, Queued, Ok, false, now)]
  {
    if work.Some? && running {
      SubmitCases(lane, work.value, now);
      var held := First(lane.slots, (slot: Slot) => Holds(work.value, slot));
      var free := First(lane.slots, IsEmpty);
      if held >= CAPACITY {
        assert !InLane(lane, work.value);
        if free < CAPACITY {
          assert SlotConsistent(lane.slots[free]);
        }
      }
    }
  }

  // ---------------------------------------------------------------------------------------------------------------
  // Stop

  /** A finished Stop leaves an empty lane without a thread, whose next scan resumes where the last one stopped. */
  lemma StopEmptiesLane(s: State)
    requires Inv(s) && Enabled(s, StopJoined)
    ensures var s' := Next(s, StopJoined);
            !s'.running && !s'.stop && !s'.lane.completed && !s'.lane.ready && |s'.lane.slots| == 16 &&
            s'.lane.lastSelected == s.lane.lastSelected && s'.selections == s.selections &&
            forall i :: 0 <= i < |s'.lane.slots| ==> s'.lane.slots[i] == Slot(None, Empty, Ok, false, 0)
  {
  }

  /** A started lane waits for its first job, whatever woke the thread before it. */
  lemma StartWaits(s: State, apartment: HResult)
    requires Inv(s) && Enabled(s, ControlProtocol.Start(apartment))
    ensures var s' := Next(s, ControlProtocol.Start(apartment));
            s'.running && !s'.stop && s'.worker == Blocked && !s'.lane.ready && s'.apartment == apartment &&
            s'.lane.slots == s.lane.slots && s'.ui == s.ui
  {
  }
}
