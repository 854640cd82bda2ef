// What the construction lane tells its jobs. A history runs beside the step system of ConstructionProtocol: when each
// job was queued, the verdict reached for it, and the calls of Complete.
module ConstructionVerdicts {
  import opened Basics
  import opened RoundRobin
  import opened ConstructionLanes
  import opened ConstructionProtocol
  import opened ConstructionGuarantees

  datatype Verdict = Verdict(work: Work, result: HResult)

  /** The state of the lane with its history: when the work now in the lane was queued, the verdicts reached, those told
      in a call of Complete, and those dropped by a Stop. */
  datatype History = History(
    s: State,
    since: map<Work, nat>,
    reached: multiset<Verdict>,
    told: multiset<Verdict>,
    dropped: multiset<Verdict>)

  function Start(): (h: History) { History(Initial(), map[], multiset{}, multiset{}, multiset{}) }

  predicate Fine(r: HResult) { r == Ok || r == False }

  /** A job's verdict: the apartment's failure; a time-out once it has waited three seconds, or when it succeeds only
      after them; else its own answer. */
  function JobVerdict(apartment: HResult, started: int, answer: HResult, ended: int): (r: HResult) {
    if !Fine(apartment) then apartment
    else if started >= 3000 then Timeout
    else if Fine(answer) && ended >= 3000 then Timeout
    else answer
  }

  predicate InLane(lane: Lane, w: Work) { exists i :: 0 <= i < |lane.slots| && lane.slots[i].work == Some(w) }

  function ResultOf(slot: Slot): (r: multiset<Verdict>) {
    if slot.state.Complete? && slot.work.Some? then multiset{Verdict(slot.work.value, slot.result)} else multiset{}
  }

  function Results(slots: seq<Slot>): (r: multiset<Verdict>) {
    if slots == [] then multiset{} else ResultOf(slots[0]) + Results(slots[1..])
  }

  function Then(h: History, e: Event): (r: History)
    requires h.s.lane.Sized() && Enabled(h.s, e)
    ensures r.s == Next(h.s, e)
  {
    var s, s' := h.s, Next(h.s, e);
    match e
    case Enqueue(work, now) =>
      var taken := work.Some? && !InLane(s.lane, work.value) && InLane(s'.lane, work.value);
      h.(s := s', since := if taken then h.since[work.value := now] else h.since)
    case Finish(started, answer, ended) =>
      var work := s.lane.slots[s.worker.slot].work;
      if work.Some? && work.value in h.since then
        var at := h.since[work.value];
        h.(s := s', reached := h.reached + multiset{Verdict(work.value, JobVerdict(s.apartment, started - at, answer,
                                                                                   ended - at))})
      else h.(s := s')
    case BeginComplete =>
      if s'.ui.InCallback? then h.(s := s', told := h.told + ResultOf(s.ui.todo[0]))
      else h.(s := s', dropped := h.dropped + Results(s.ui.todo))
    case Discard => h.(s := s', dropped := h.dropped + Results(s.lane.slots))
    case WaitJoins => h.(s := s', dropped := h.dropped + Results(s.lane.slots))
    case _ => h.(s := s')
  }

  // ---------------------------------------------------------------------------------------------------------------
  // The invariant

  /** Every slot in use knows when its work was queued. */
  ghost predicate TimesOk(h: History) {
    forall i :: 0 <= i < |h.s.lane.slots| && h.s.lane.slots[i].work.Some? ==>
      h.s.lane.slots[i].work.value in h.since && h.since[h.s.lane.slots[i].work.value] == h.s.lane.slots[i].queuedAt
  }

  /** Every verdict reached is in a slot, in a swept copy, told once or dropped once. */
  ghost predicate ConservedFor(h: History, v: Verdict) {
    h.reached[v] == Results(h.s.lane.slots)[v] + Results(UiTodo(h.s.ui))[v] + h.told[v] + h.dropped[v]
  }

  ghost predicate HistoryOk(h: History) { Inv(h.s) && TimesOk(h) && forall v :: ConservedFor(h, v) }

  lemma {:induction false} ResultsUpdate(slots: seq<Slot>, i: nat, slot: Slot, v: Verdict)
    requires i < |slots|
    ensures Results(slots[i := slot])[v] + ResultOf(slots[i])[v] == Results(slots)[v] + ResultOf(slot)[v]
  {
    if i == 0 {
      assert slots[0 := slot][1..] == slots[1..];
    } else {
      ResultsUpdate(slots[1..], i - 1, slot, v);
      assert slots[i := slot][1..] == slots[1..][i - 1 := slot];
    }
  }

  lemma {:induction false} ResultsSwept(slots: seq<Slot>, after: seq<Slot>, v: Verdict)
    requires |after| == |slots| && forall i :: 0 <= i < |slots| ==> after[i] == Without(slots[i], IsComplete)
    ensures Results(after)[v] + Results(Filter(slots, IsComplete))[v] == Results(slots)[v]
  {
    if slots != [] {
      ResultsSwept(slots[1..], after[1..], v);
      if IsComplete(slots[0]) {
        assert Filter(slots, IsComplete) == [slots[0]] + Filter(slots[1..], IsComplete);
      } else {
        assert Filter(slots, IsComplete) == Filter(slots[1..], IsComplete);
      }
    }
  }

  lemma {:induction false} NoResults(slots: seq<Slot>)
    requires forall i :: 0 <= i < |slots| ==> !slots[i].state.Complete?
    ensures Results(slots) == multiset{}
  {
    if slots != [] {
      NoResults(slots[1..]);
    }
  }

  lemma Unmoved(h: History, h': History, v: Verdict)
    requires ConservedFor(h, v) && Results(h'.s.lane.slots)[v] == Results(h.s.lane.slots)[v]
    requires UiTodo(h'.s.ui) == UiTodo(h.s.ui)
    requires h'.reached == h.reached && h'.told == h.told && h'.dropped == h.dropped
    ensures ConservedFor(h', v)
  {
  }

  /** A submission moves no result. */
  lemma SubmissionMovesNothing(lane: Lane, work: Work, now: nat, v: Verdict)
    requires lane.Sized() && forall i :: 0 <= i < CAPACITY ==> SlotConsistent(lane.slots[i])
    ensures Results(Submitted(lane, work, now).0.slots)[v] == Results(lane.slots)[v]
  {
    SubmitCases(lane, work, now);
    if Submitted(lane, work, now).1.Ok? {
      var free := First(lane.slots, IsEmpty);
      var slot := lane.slots[free].(work := Some(work), state := Queued, queuedAt := now);
      ResultsUpdate(lane.slots, free, slot, v);
    }
  }

  /** It notes when the work was queued, and only then. */
  lemma SubmissionIsNoted(h: History, e: Event)
    requires SlotsOk(h.s) && TimesOk(h) && Enabled(h.s, e) && e.Enqueue?
    ensures TimesOk(Then(h, e))
  {
    if e.work.Some? && h.s.running && !h.s.stop {
      SubmitCases(h.s.lane, e.work.value, e.now);
      var h' := Then(h, e);
      if Submitted(h.s.lane, e.work.value, e.now).1.Ok? {
        var free := First(h.s.lane.slots, IsEmpty);
        assert !InLane(h.s.lane, e.work.value);
        assert h'.s.lane.slots[free].work == Some(e.work.value);
        assert InLane(h'.s.lane, e.work.value);
      } else {
        assert h'.s.lane == h.s.lane;
      }
    }
  }

  lemma TimesKept(h: History, h': History)
    requires TimesOk(h) && h'.since == h.since && |h'.s.lane.slots| == |h.s.lane.slots|
    requires forall i :: 0 <= i < |h.s.lane.slots| ==>
               h'.s.lane.slots[i].work.None? || (h'.s.lane.slots[i].work == h.s.lane.slots[i].work &&
                                                h'.s.lane.slots[i].queuedAt == h.s.lane.slots[i].queuedAt)
    ensures TimesOk(h')
  {
  }

  /** No other step puts work into a slot, or a new time beside it. */
  lemma SlotsAreKept(s: State, e: Event)
    requires ThreadInv(s) && Enabled(s, e) && !e.Enqueue?
    ensures var slots' := Next(s, e).lane.slots;
            forall i :: 0 <= i < CAPACITY ==>
              slots'[i].work.None? ||
              (slots'[i].work == s.lane.slots[i].work && slots'[i].queuedAt == s.lane.slots[i].queuedAt)
  {
    if e.SelectNext? && !s.stop {
      SelectOutcome(s);
    }
  }

  lemma StepIsTimed(h: History, e: Event)
    requires Inv(h.s) && TimesOk(h) && Enabled(h.s, e)
    ensures TimesOk(Then(h, e))
  {
    if e.Enqueue? {
      SubmissionIsNoted(h, e);
    } else {
      SlotsAreKept(h.s, e);
      TimesKept(h, Then(h, e));
    }
  }

  lemma EnqueueTells(h: History, e: Event, v: Verdict)
    requires Inv(h.s) && ConservedFor(h, v) && Enabled(h.s, e) && e.Enqueue?
    ensures ConservedFor(Then(h, e), v)
  {
    if e.work.Some? && h.s.running && !h.s.stop {
      SubmissionMovesNothing(h.s.lane, e.work.value, e.now, v);
    }
    Unmoved(h, Then(h, e), v);
  }

  /** What Finish stores is the verdict reached, for the work it was reached for. */
  lemma FinishStores(h: History, e: Event)
    requires SlotsOk(h.s) && TimesOk(h) && Enabled(h.s, e) && e.Finish?
    ensures var i, s' := h.s.worker.slot, Next(h.s, e);
            h.s.lane.slots[i].work.Some? && h.s.lane.slots[i].work.value in h.since &&
            s'.lane.slots == h.s.lane.slots[i := s'.lane.slots[i]] && ResultOf(h.s.lane.slots[i]) == multiset{} &&
            s'.ui == h.s.ui && Then(h, e).reached == h.reached + ResultOf(s'.lane.slots[i]) &&
            s'.lane.slots[i].state == Complete && s'.lane.slots[i].work == h.s.lane.slots[i].work &&
            var at := h.since[h.s.lane.slots[i].work.value];
            s'.lane.slots[i].result == JobVerdict(h.s.apartment, e.started - at, e.answer, e.ended - at)
  {
    assert SlotConsistent(h.s.lane.slots[h.s.worker.slot]);
  }

  lemma FinishTells(h: History, e: Event, v: Verdict)
    requires Inv(h.s) && TimesOk(h) && ConservedFor(h, v) && Enabled(h.s, e) && e.Finish?
    ensures ConservedFor(Then(h, e), v)
  {
    FinishStores(h, e);
    var i := h.s.worker.slot;
    ResultsUpdate(h.s.lane.slots, i, Next(h.s, e).lane.slots[i], v);
  }

  lemma SelectMovesNothing(s: State, v: Verdict)
    requires ThreadInv(s) && s.worker.Scanning?
    ensures Results(Next(s, SelectNext).lane.slots)[v] == Results(s.lane.slots)[v]
    ensures Next(s, SelectNext).ui == s.ui
  {
    if !s.stop {
      SelectOutcome(s);
      if i :| Selected(s.lane).1 == Some(i) {
        ResultsUpdate(s.lane.slots, i, s.lane.slots[i].(state := Running), v);
      }
    }
  }

  lemma SelectTells(h: History, v: Verdict)
    requires Inv(h.s) && ConservedFor(h, v) && h.s.worker.Scanning?
    ensures ConservedFor(Then(h, SelectNext), v)
  {
    SelectMovesNothing(h.s, v);
    Unmoved(h, Then(h, SelectNext), v);
  }

  lemma SweepMoves(s: State, v: Verdict)
    requires s.lane.Sized() && s.ui.Sweeping?
    ensures UiTodo(s.ui) == []
    ensures var s' := Next(s, Sweep); Results(s'.lane.slots)[v] + Results(UiTodo(s'.ui))[v] == Results(s.lane.slots)[v]
  {
    var s' := Next(s, Sweep);
    assert s'.ui == Delivering(Filter(s.lane.slots, IsComplete));
    ResultsSwept(s.lane.slots, s'.lane.slots, v);
  }

  lemma SweepTells(h: History, v: Verdict)
    requires h.s.lane.Sized() && ConservedFor(h, v) && h.s.ui.Sweeping?
    ensures ConservedFor(Then(h, Sweep), v)
  {
    SweepMoves(h.s, v);
    var h' := Then(h, Sweep);
    assert h'.reached == h.reached && h'.told == h.told && h'.dropped == h.dropped;
  }

  lemma DeliveryTells(h: History, v: Verdict)
    requires h.s.lane.Sized() && ConservedFor(h, v) && h.s.ui.Delivering?
    ensures ConservedFor(Then(h, BeginComplete), v)
  {
    DeliveryMoves(h.s);
    var todo, h' := h.s.ui.todo, Then(h, BeginComplete);
    if h'.s.ui.InCallback? {
      assert h'.told[v] == h.told[v] + ResultOf(todo[0])[v] && h'.dropped == h.dropped;
    } else {
      assert h'.dropped[v] == h.dropped[v] + Results(todo)[v] && h'.told == h.told;
    }
  }

  lemma DeliveryMoves(s: State)
    requires s.lane.Sized() && s.ui.Delivering?
    ensures var s' := Next(s, BeginComplete);
            s'.lane == s.lane && UiTodo(s.ui) == s.ui.todo &&
            if s'.ui.InCallback? then s.ui.todo != [] && UiTodo(s'.ui) == s.ui.todo[1..] else UiTodo(s'.ui) == []
  {
  }

  lemma StopTells(h: History, e: Event, v: Verdict)
    requires h.s.lane.Sized() && ConservedFor(h, v) && Enabled(h.s, e) && (e.Discard? || e.WaitJoins?)
    ensures ConservedFor(Then(h, e), v)
  {
    StopMoves(h.s, e);
    var h' := Then(h, e);
    assert h'.reached == h.reached && h'.told == h.told && h'.dropped == h.dropped + Results(h.s.lane.slots);
  }

  lemma StopMoves(s: State, e: Event)
    requires s.lane.Sized() && Enabled(s, e) && (e.Discard? || e.WaitJoins?)
    ensures Results(Next(s, e).lane.slots) == multiset{} && UiTodo(Next(s, e).ui) == UiTodo(s.ui)
  {
    if e.Discard? {
      DiscardMoves(s, 0);
      NoResults(AllWithout(s.lane.slots, IsIdleJob));
    } else {
      JoinResets(s);
      NewLaneTellsNothing();
    }
  }

  lemma NewLaneTellsNothing()
    ensures Results(NewLane().slots) == multiset{}
  {
    NoResults(NewLane().slots);
  }

  lemma SignalTells(h: History, e: Event, v: Verdict)
    requires Inv(h.s) && ConservedFor(h, v) && Enabled(h.s, e)
    requires e.Start? || e.Message? || e.Exchange? || e.EndComplete? || e.Stop? || e.WaitRunsOut? || e.Wake? ||
             e.Notify? || e.Invalidate?
    ensures ConservedFor(Then(h, e), v)
  {
    SignalMovesNothing(h.s, e);
    Unmoved(h, Then(h, e), v);
  }

  lemma StepTellsOf(h: History, e: Event, v: Verdict)
    requires Inv(h.s) && TimesOk(h) && ConservedFor(h, v) && Enabled(h.s, e)
    ensures ConservedFor(Then(h, e), v)
  {
    match e
    case Enqueue(_, _) => EnqueueTells(h, e, v);
    case Finish(_, _, _) => FinishTells(h, e, v);
    case SelectNext => SelectTells(h, v);
    case Sweep => SweepTells(h, v);
    case BeginComplete => DeliveryTells(h, v);
    case Discard => StopTells(h, e, v);
    case WaitJoins => StopTells(h, e, v);
    case _ => SignalTells(h, e, v);
  }

  lemma StepTells(h: History, e: Event)
    requires HistoryOk(h) && Enabled(h.s, e)
    ensures HistoryOk(Then(h, e))
  {
    StepKeepsInv(h.s, e);
    StepIsTimed(h, e);
    forall v
      ensures ConservedFor(Then(h, e), v)
    {
      assert ConservedFor(h, v);
      StepTellsOf(h, e, v);
    }
  }

  ghost predicate IsTold(h: History, es: seq<Event>, h': History)
    decreases |es|
  {
    if es == [] then h' == h
    else h.s.lane.Sized() && Enabled(h.s, es[0]) && IsTold(Then(h, es[0]), es[1..], h')
  }

  lemma {:induction false} RunTells(h: History, es: seq<Event>, h': History)
    requires HistoryOk(h) && IsTold(h, es, h')
    ensures HistoryOk(h')
    decreases |es|
  {
    if es != [] {
      StepTells(h, es[0]);
      RunTells(Then(h, es[0]), es[1..], h');
    }
  }

  lemma StartOk()
    ensures HistoryOk(Start())
  {
    InitialInv();
    NoResults(Start().s.lane.slots);
  }

  /** Over every run: what Complete was called with, together with the results still in slots and swept copies and those
      a Stop dropped, is exactly the verdicts reached, each for its own job and by its own ages and answer. */
  lemma VerdictsAreConserved(es: seq<Event>, h: History, v: Verdict)
    requires IsTold(Start(), es, h)
    ensures h.reached[v] == Results(h.s.lane.slots)[v] + Results(UiTodo(h.s.ui))[v] + h.told[v] + h.dropped[v]
  {
    StartOk();
    RunTells(Start(), es, h);
    assert ConservedFor(h, v);
  }

  /** Null work, no thread or a Stop under way, work the lane holds already, a free slot, a full lane: each has its own
      answer, and only the free slot takes the work, queued now. */
  lemma EnqueueAnswers(lane: Lane, running: bool, stop: bool, work: Option<Work>, now: nat)
    requires lane.Sized() && forall i :: 0 <= i < |lane.slots| ==> SlotConsistent(lane.slots[i])
    ensures var (after, answer) := Enqueued(lane, running, stop, work, now);
            (answer == Pointer <==> work.None?) && (answer == Unexpected <==> work.Some? && (!running || stop)) &&
            (work.Some? && running && !stop ==>
              (answer == False <==> InLane(lane, work.value)) &&
              (answer == Busy <==> !InLane(lane, work.value) &&
                                   forall i :: 0 <= i < |lane.slots| ==> lane.slots[i].work.Some?) &&
              (answer == Ok <==> !InLane(lane, work.value) &&
                                 exists i :: 0 <= i < |lane.slots| && lane.slots[i].work.None?)) &&
            (answer != Ok ==> after == lane)
    ensures var (after, answer) := Enqueued(lane, running, stop, work, now);
            answer == Ok ==>
              after.ready && after.lastSelected == lane.lastSelected && after.completed == lane.completed &&
              exists i :: 0 <= i < |lane.slots| && lane.slots[i].state == Empty &&
                after.slots == lane.slots[i := Slot(work, Queued, Ok, now)]
  {
    if work.Some? && running && !stop {
      SubmitCases(lane, work.value, now);
      var free := First(lane.slots, IsEmpty);
      if First(lane.slots, (slot: Slot) => Holds(work.value, slot)) >= CAPACITY {
        assert !InLane(lane, work.value);
        if free < CAPACITY {
          assert SlotConsistent(lane.slots[free]);
        }
      }
    }
  }

  // ---------------------------------------------------------------------------------------------------------------
  // Stop

  /** A job that finishes is announced exactly while no stop is signalled. */
  lemma FinishAnnounces(s: State, e: Event)
    requires ThreadInv(s) && Enabled(s, e) && e.Finish?
    ensures var s' := Next(s, e);
            (s'.lane.completed <==> s.lane.completed || !s.stop) && (s'.worker == Notifying <==> !s.stop) &&
            (s.stop ==> s'.worker == Scanning) && s'.posted == s.posted
  {
  }

  /** Stop waits as long as asked, a second at most, and not at all once a wait has run out. */
  lemma StopWaits(s: State, timeout: nat)
    requires ThreadInv(s) && Free(s.ui)
    ensures var asked := Next(s, ConstructionProtocol.Stop(timeout));
            if !s.running then asked == s.(verdict := Some(Stopped))
            else
              asked.stop && asked.ui.StopLocking? && asked.lane == s.lane &&
              var waiting := Next(asked, Discard).ui;
              waiting.Waiting? && waiting.back == s.ui &&
              waiting.wait == if s.waitedOut then 0 else if timeout <= 1000 then timeout else 1000
  {
  }

  /** A wait that runs out is answered by whether a job was running, and counts unless it was an idle zero wait; a
      joined thread is answered Stopped and leaves the lane as constructed. */
  lemma StopAnswers(s: State)
    requires ThreadInv(s) && s.ui.Waiting?
    ensures !s.worker.Exited? ==>
              var s' := Next(s, WaitRunsOut);
              s'.verdict == Some(if s.ui.inProgress then WorkInProgress else Exiting) && s'.ui == s.ui.back &&
              (s'.waitedOut <==> s.waitedOut || s.ui.inProgress || s.ui.wait > 0) && s'.lane == s.lane
    ensures s.worker.Exited? ==>
              var s' := Next(s, WaitJoins);
              s'.verdict == Some(Stopped) && !s'.running && !s'.stop && !s'.waitedOut && !s'.lane.completed &&
              s'.lane.lastSelected == 15 && |s'.lane.slots| == 16 &&
              forall i :: 0 <= i < |s'.lane.slots| ==> s'.lane.slots[i] == Slot(None, Empty, Ok, 0)
  {
  }
}
