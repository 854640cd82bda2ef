// The launch lane as a step system, and its refinement of a first-in first-out queue. A step is one lock section, one
// event operation or one wait result of RedXe/LaunchWorker.cpp.
module LaunchProtocol {
  import opened Basics
  import opened LaunchRings

  datatype StopResult = Stopped | Exiting | LaunchInProgress

  datatype Worker = Blocked | Scanning | Performing(slot: nat) | Notifying | Exited

  // Submitting: in Enqueue before the lock. Signalling: in Enqueue between the lock and SetEvent. Waiting and Probing:
  // in Stop, waiting for the thread, and after a wait of that length ran out.
  datatype Ui = Idle | Submitting(request: Request) | Signalling | Draining | Waiting(wait: nat) | Probing(wait: nat)

  datatype Launch = Launch(request: Request, result: HResult)

  datatype State = State(
    ring: Ring,
    running: bool,
    stop: bool,
    wake: bool,
    apartment: HResult,
    waitedOut: bool,
    worker: Worker,
    ui: Ui,
    posted: bool,
    verdict: Option<StopResult>,  // the last answer of Stop
    // History of one thread lifetime, from one Stopped to the next
    accepted: seq<Request>,
    performed: seq<Launch>,
    logged: seq<Launch>,
    spent: nat)                   // positive waits that ran out

  datatype Event =
    // UI thread
    | Enqueue(request: Request, apartment: HResult)
    | Submit
    | Signal
    | Message
    | DrainNext
    | Stop(timeout: nat)
    | WaitJoins
    | WaitRunsOut
    | Probe
    // worker thread
    | Wake
    | TakeNext
    | Finish(answer: HResult)
    | Notify
    // another source of the same UI message
    | Invalidate

  function Initial(): (r: State) {
    State(Ring(seq(SLOT_COUNT, i => NO_SLOT), 0, 0), false, false, false, Ok, false, Exited, Idle, false, None, [], [],
          [], 0)
  }

  predicate Enabled(s: State, e: Event)
  {
    match e
    case Enqueue(_, _) => s.ui.Idle?
    case Submit => s.ui.Submitting?
    case Signal => s.ui.Signalling?
    case Message => s.ui.Idle? && s.posted
    case DrainNext => s.ui.Draining?
    case Stop(_) => s.ui.Idle?
    case WaitJoins => s.ui.Waiting? && s.worker.Exited?
    case WaitRunsOut => s.ui.Waiting? && !s.worker.Exited?
    case Probe => s.ui.Probing?
    case Wake => s.worker.Blocked? && (s.stop || s.wake)
    case TakeNext => s.worker.Scanning?
    case Finish(_) => s.worker.Performing? && s.worker.slot < SLOT_COUNT
    case Notify => s.worker.Notifying?
    case Invalidate => true
  }

  function Next(s: State, e: Event): (s': State)
    requires s.ring.Sized() && Enabled(s, e)
    ensures s'.ring.Sized()
  {
    match e
    case Enqueue(request, apartment) =>
      if s.running && s.stop then s
      else if s.running then s.(ui := Submitting(request))
      else s.(running := true, worker := Blocked, apartment := apartment, ui := Submitting(request))
    case Submit =>
      var (ring, result) := Pushed(s.ring, s.ui.request);
      if result.Ok? then s.(ring := ring, ui := Signalling, accepted := s.accepted + [s.ui.request]) else s.(ui := Idle)
    case Signal => s.(wake := true, ui := Idle)
    case Message => s.(posted := false, ui := Draining)
    case DrainNext =>
      var (ring, done) := Popped(s.ring);
      if done.None? then s.(ui := Idle)
      else s.(ring := ring, logged := s.logged + [Launch(done.value.request, done.value.result)])
    case Stop(timeout) =>
      if !s.running then s.(verdict := Some(Stopped))
      else s.(stop := true, ui := Waiting(if s.waitedOut then 0 else timeout))
    case WaitJoins =>
      s.(ring := Emptied(s.ring), running := false, stop := false, waitedOut := false, ui := Idle,
         verdict := Some(Stopped), accepted := [], performed := [], logged := [], spent := 0)
    case WaitRunsOut => s.(ui := Probing(s.ui.wait), spent := s.spent + if s.ui.wait != 0 then 1 else 0)
    case Probe =>
      var launching := exists i :: 0 <= i < SLOT_COUNT && s.ring.slots[i].state.Running?;
      s.(waitedOut := s.waitedOut || launching || s.ui.wait != 0, ui := Idle,
         verdict := Some(if launching then LaunchInProgress else Exiting))
    case Wake => if s.stop then s.(worker := Exited) else s.(worker := Scanning, wake := false)
    case TakeNext =>
      if s.stop then s.(worker := Exited) else
      var (ring, running) := Taken(s.ring);
      s.(ring := ring, worker := if running.None? then Blocked else Performing(running.value))
    case Finish(answer) =>
      var result := if s.apartment.Succeeded() then answer else s.apartment;
      s.(ring := Finished(s.ring, s.worker.slot, result), worker := Notifying,
         performed := s.performed + [Launch(s.ring.slots[s.worker.slot].request, result)])
    case Notify => s.(posted := true, worker := Scanning)
    case Invalidate => s.(posted := true)
  }

  // ---------------------------------------------------------------------------------------------------------------
  // The ring is a FIFO

  /** Launches performed and not yet logged: the Complete slots at the head. */
  function Done(s: State): (r: int) { |s.performed| - |s.logged| }
  function Started(s: State): (r: int) { Done(s) + if s.worker.Performing? then 1 else 0 }

  /** A view of `count` slots is Complete* Running? Queued* with every other slot Empty. */
  ghost predicate Ordered(view: seq<Slot>, done: nat, started: nat, count: nat) {
    && |view| == SLOT_COUNT && done <= started <= done + 1 && started <= count <= SLOT_COUNT
    && (forall k :: 0 <= k < done ==> view[k].state.Complete?)
    && (done < started ==> view[done].state.Running?)
    && (forall k :: started <= k < count ==> view[k].state.Queued?)
    && (forall k :: count <= k < SLOT_COUNT ==> view[k].state.Empty?)
  }

  /** Read from the head, the ring is ordered, and the Running slot is the worker's. */
  ghost predicate Shape(s: State)
  {
    && s.ring.Sized() && 0 <= Done(s)
    && Ordered(s.ring.View(), Done(s), Started(s), s.ring.count)
    && (s.worker.Performing? ==> s.worker.slot == s.ring.Index(Done(s)))
  }

  /** The abstraction: accepted requests split into logged launches, then the ring's contents in order. */
  ghost predicate Fifo(s: State)
    requires Shape(s)
  {
    Queue(s.ring.View(), s.ring.count, s.accepted, s.performed, s.logged)
  }

  ghost predicate Queue(view: seq<Slot>, count: nat, accepted: seq<Request>, performed: seq<Launch>,
                        logged: seq<Launch>)
    requires |view| == SLOT_COUNT && count <= SLOT_COUNT
  {
    && |accepted| == |logged| + count
    && logged <= performed && |performed| <= |accepted|
    && (forall k :: 0 <= k < count ==> view[k].request == accepted[|logged| + k])
    && (forall k :: 0 <= k < |performed| - |logged| ==> view[k].result == performed[|logged| + k].result)
    && (forall k :: 0 <= k < |performed| ==> performed[k].request == accepted[k])
  }

  /** No wake-up and no completion is ever lost. */
  ghost predicate SignalsOk(s: State) {
    && (s.running && !s.stop && s.worker.Blocked? && !s.wake && !s.ui.Signalling? ==> Started(s) == s.ring.count)
    && (Done(s) > 0 ==> s.posted || s.worker.Notifying? || s.ui.Draining?)
  }

  ghost predicate ThreadOk(s: State) {
    && (s.stop ==> s.running)
    && (s.ui.Waiting? || s.ui.Probing? ==> s.stop)
    && (s.ui.Submitting? || s.ui.Signalling? ==> s.running && !s.stop)
    && (!s.running ==> s.worker.Exited? && s.ring.count == 0)
    && (s.running && s.worker.Exited? ==> s.stop)
  }

  /** Of all the waits of a thread lifetime at most one positive wait runs out. */
  ghost predicate WaitsOk(s: State) {
    && s.spent <= 1
    && (s.spent == 1 ==> s.waitedOut || (s.ui.Probing? && s.ui.wait != 0))
    && (s.ui.Waiting? && s.waitedOut ==> s.ui.wait == 0)
    && (s.ui.Probing? && s.ui.wait != 0 ==> !s.waitedOut)
  }

  /** The answers of Stop are true for as long as they stand: an Exiting thread runs nothing and never will. */
  ghost predicate VerdictOk(s: State) {
    s.verdict == Some(Exiting) ==> s.stop && !s.worker.Performing?
  }

  ghost predicate Inv(s: State) {
    Shape(s) && Fifo(s) && SignalsOk(s) && ThreadOk(s) && WaitsOk(s) && VerdictOk(s)
  }

  lemma InitialInv()
    ensures Inv(Initial())
  {
  }

  lemma SubmitViews(view: seq<Slot>, done: nat, started: nat, count: nat, accepted: seq<Request>,
                    performed: seq<Launch>, logged: seq<Launch>, request: Request)
    requires Ordered(view, done, started, count) && count < SLOT_COUNT && done == |performed| - |logged|
    requires Queue(view, count, accepted, performed, logged)
    ensures var after := view[count := Slot(request, Queued, Ok)];
            Ordered(after, done, started, count + 1) &&
            Queue(after, count + 1, accepted + [request], performed, logged)
  {
  }

  lemma SubmitPushes(s: State)
    requires Inv(s) && s.ui.Submitting? && s.ring.count < SLOT_COUNT
    ensures var s' := Next(s, Submit);
            s' == s.(ring := s'.ring, ui := Signalling, accepted := s'.accepted) && Shape(s') && Fifo(s') &&
            s'.ring.count == s.ring.count + 1
  {
    PushedView(s.ring, s.ui.request);
    SubmitViews(s.ring.View(), Done(s), Started(s), s.ring.count, s.accepted, s.performed, s.logged, s.ui.request);
  }

  lemma SubmitKeeps(s: State)
    requires Inv(s) && s.ui.Submitting?
    ensures Inv(Next(s, Submit))
  {
    if s.ring.count < SLOT_COUNT {
      SubmitPushes(s);
    }
  }

  lemma PopViews(view: seq<Slot>, done: nat, started: nat, count: nat, accepted: seq<Request>, performed: seq<Launch>,
                 logged: seq<Launch>)
    requires Ordered(view, done, started, count) && done > 0 && done == |performed| - |logged|
    requires Queue(view, count, accepted, performed, logged)
    ensures var after := view[1..] + [view[0].(state := Empty)];
            Ordered(after, done - 1, started - 1, count - 1) &&
            Queue(after, count - 1, accepted, performed, logged + [Launch(view[0].request, view[0].result)])
  {
    assert view[0].request == accepted[|logged|] && view[0].result == performed[|logged|].result;
  }

  lemma DrainPops(s: State)
    requires Inv(s) && s.ui.Draining? && Done(s) > 0
    ensures Shape(Next(s, DrainNext)) && Fifo(Next(s, DrainNext))
    ensures Next(s, DrainNext) == s.(ring := Next(s, DrainNext).ring, logged := Next(s, DrainNext).logged)
    ensures Done(Next(s, DrainNext)) == Done(s) - 1 && Next(s, DrainNext).ring.count == s.ring.count - 1
  {
    var view := s.ring.View();
    PoppedView(s.ring);
    PopViews(view, Done(s), Started(s), s.ring.count, s.accepted, s.performed, s.logged);
    assert s.ring.slots[s.ring.head] == view[0];
  }

  lemma DrainEnds(s: State)
    requires Inv(s) && s.ui.Draining? && Done(s) == 0
    ensures Next(s, DrainNext) == s.(ui := Idle)
  {
    assert s.ring.slots[s.ring.head] == s.ring.View()[0];
    assert !s.ring.View()[0].state.Complete?;
  }

  lemma DrainKeeps(s: State)
    requires Inv(s) && s.ui.Draining?
    ensures Inv(Next(s, DrainNext))
  {
    if Done(s) > 0 {
      DrainPops(s);
    } else {
      DrainEnds(s);
    }
  }

  lemma TakeViews(view: seq<Slot>, done: nat, count: nat, accepted: seq<Request>, performed: seq<Launch>,
                  logged: seq<Launch>)
    requires Ordered(view, done, done, count) && done < count && done == |performed| - |logged|
    requires Queue(view, count, accepted, performed, logged)
    ensures var after := view[done := view[done].(state := Running)];
            Ordered(after, done, done + 1, count) && Queue(after, count, accepted, performed, logged)
  {
  }

  lemma TakeStarts(s: State)
    requires Inv(s) && s.worker.Scanning? && !s.stop && Started(s) < s.ring.count
    ensures var s' := Next(s, TakeNext);
            s' == s.(ring := s'.ring, worker := Performing(s.ring.Index(Done(s)))) && Shape(s') && Fifo(s') &&
            s'.ring.count == s.ring.count
  {
    TakenFirst(s.ring, 0, Started(s));
    TakeViews(s.ring.View(), Done(s), s.ring.count, s.accepted, s.performed, s.logged);
  }

  lemma TakeKeeps(s: State)
    requires Inv(s) && s.worker.Scanning? && !s.stop
    ensures Inv(Next(s, TakeNext))
  {
    if Started(s) < s.ring.count {
      TakeStarts(s);
    } else {
      TakenFirst(s.ring, 0, Started(s));
    }
  }

  lemma FinishViews(view: seq<Slot>, done: nat, count: nat, accepted: seq<Request>, performed: seq<Launch>,
                    logged: seq<Launch>, result: HResult)
    requires Ordered(view, done, done + 1, count) && done == |performed| - |logged|
    requires Queue(view, count, accepted, performed, logged)
    ensures var after := view[done := view[done].(result := result, state := Complete)];
            Ordered(after, done + 1, done + 1, count) &&
            Queue(after, count, accepted, performed + [Launch(view[done].request, result)], logged)
  {
  }

  lemma FinishKeeps(s: State, answer: HResult)
    requires Inv(s) && Enabled(s, Finish(answer))
    ensures Inv(Next(s, Finish(answer)))
  {
    var result := if s.apartment.Succeeded() then answer else s.apartment;
    var slot := s.ring.View()[Done(s)];
    assert s.ring.slots[s.worker.slot] == slot;
    UpdatedView(s.ring, Done(s), slot.(result := result, state := Complete));
    FinishViews(s.ring.View(), Done(s), s.ring.count, s.accepted, s.performed, s.logged, result);
  }

  /** Every slot is somewhere in the view. */
  lemma OffsetOf(ring: Ring, i: nat) returns (k: nat)
    requires ring.Sized() && i < SLOT_COUNT
    ensures k < SLOT_COUNT && ring.View()[k] == ring.slots[i]
  {
    k := if i >= ring.head then i - ring.head else i + SLOT_COUNT - ring.head;
    assert ring.Index(k) == i;
  }

  /** Some slot is Running exactly when the worker is performing. */
  lemma RunningIsPerforming(s: State)
    requires Shape(s)
    ensures (exists i :: 0 <= i < SLOT_COUNT && s.ring.slots[i].state.Running?) <==> s.worker.Performing?
  {
    if i :| 0 <= i < SLOT_COUNT && s.ring.slots[i].state.Running? {
      var k := OffsetOf(s.ring, i);
      assert s.ring.View()[k].state.Running?;
    }
    if s.worker.Performing? {
      assert s.ring.slots[s.worker.slot] == s.ring.View()[Done(s)];
    }
  }

  lemma JoinKeeps(s: State)
    requires Inv(s) && Enabled(s, WaitJoins)
    ensures Inv(Next(s, WaitJoins))
  {
  }

  lemma StepKeepsInv(s: State, e: Event)
    requires Inv(s) && Enabled(s, e)
    ensures Inv(Next(s, e))
  {
    match e
    case Submit => SubmitKeeps(s);
    case DrainNext => DrainKeeps(s);
    case TakeNext => if !s.stop { TakeKeeps(s); }
    case Finish(answer) => FinishKeeps(s, answer);
    case Probe => RunningIsPerforming(s);
    case WaitJoins => JoinKeeps(s);
    case _ => SignalKeeps(s, e);
  }

  lemma SignalKeeps(s: State, e: Event)
    requires Inv(s) && Enabled(s, e)
    requires e.Enqueue? || e.Signal? || e.Message? || e.Stop? || e.WaitRunsOut? || e.Wake? || e.Notify? ||
             e.Invalidate?
    ensures Inv(Next(s, e))
  {
    var s' := Next(s, e);
    assert s'.ring == s.ring && s'.accepted == s.accepted && s'.performed == s.performed && s'.logged == s.logged;
  }
}
