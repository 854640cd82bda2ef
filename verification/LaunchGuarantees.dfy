// What the launch lane promises, over every interleaving of the step system in LaunchProtocol.
module LaunchGuarantees {
  import opened Basics
  import opened LaunchRings
  import opened LaunchProtocol

  ghost predicate IsRun(s: State, es: seq<Event>, s': State)
    decreases es
  {
    if es == [] then s' == s
    else s.ring.Sized() && Enabled(s, es[0]) && IsRun(Next(s, es[0]), es[1..], s')
  }

  lemma {:induction false} RunKeepsInv(s: State, es: seq<Event>, s': State)
    requires Inv(s) && IsRun(s, es, s')
    ensures Inv(s')
    decreases es
  {
    if es != [] {
      StepKeepsInv(s, es[0]);
      RunKeepsInv(Next(s, es[0]), es[1..], s');
    }
  }

  function Requests(launches: seq<Launch>): (r: seq<Request>)
    ensures |r| == |launches|
  {
    seq(|launches|, k requires 0 <= k < |launches| => launches[k].request)
  }

  /** In every reachable state of a thread lifetime the logged launches are a prefix of the performed ones, and those,
      followed by the one in progress, are a prefix of the accepted ones: first in, first out, each at most once. */
  lemma FirstInFirstOut(es: seq<Event>, s: State)
    requires IsRun(Initial(), es, s)
    ensures s.logged <= s.performed
    ensures Requests(s.performed) <= s.accepted
    ensures s.worker.Performing? ==>
              s.worker.slot < |s.ring.slots| &&
              Requests(s.performed) + [s.ring.slots[s.worker.slot].request] <= s.accepted
    ensures |s.accepted| - |s.logged| <= SLOT_COUNT
  {
    InitialInv();
    RunKeepsInv(Initial(), es, s);
    if s.worker.Performing? {
      assert s.ring.slots[s.worker.slot] == s.ring.View()[Done(s)];
    }
  }

  /** An Enqueue is refused as busy exactly when eight launches are accepted and not yet logged. */
  lemma BusyExactlyWhenFull(s: State)
    requires Inv(s) && s.ui.Submitting?
    ensures Next(s, Submit).accepted == s.accepted <==> |s.accepted| - |s.logged| == SLOT_COUNT
  {
  }

  /** While a launch runs, no step of the UI thread writes its slot. */
  lemma RunningSlotIsPinned(s: State, e: Event)
    requires Inv(s) && Enabled(s, e) && s.worker.Performing? && !e.Finish?
    ensures Next(s, e).worker == s.worker
    ensures Next(s, e).ring.slots[s.worker.slot] == s.ring.slots[s.worker.slot]
  {
    var i := s.worker.slot;
    assert s.ring.slots[i] == s.ring.View()[Done(s)];
    if e.Submit? && s.ring.count < SLOT_COUNT {
      assert s.ring.slots[s.ring.Index(s.ring.count)] == s.ring.View()[s.ring.count];
    }
  }

  // ---------------------------------------------------------------------------------------------------------------
  // Coming to rest

  predicate Internal(e: Event) { !e.Enqueue? && !e.Stop? && !e.Invalidate? }

  predicate AtRest(s: State) { s.running && s.worker.Blocked? && !s.wake && s.ui.Idle? && !s.posted && !s.stop }

  /** At rest every accepted launch has been performed and logged, in order. */
  lemma RestHasLoggedAll(s: State)
    requires Inv(s) && AtRest(s)
    ensures s.logged == s.performed && Requests(s.logged) == s.accepted
  {
  }

  function Weight(s: State): (r: int) {
    10 * (s.ring.count - Started(s)) + Done(s) +
    (match s.ui
     case Idle => 0 case Submitting(_) => 14 case Signalling => 3 case Draining => 1 case Waiting(_) => 2
     case Probing(_) => 1) +
    (match s.worker
     case Exited => 0 case Blocked => 1 case Scanning => 2 case Performing(_) => 9 case Notifying => 6) +
    (if s.wake then 2 else 0) + (if s.posted then 2 else 0)
  }

  lemma DrainDescends(s: State)
    requires Inv(s) && s.ui.Draining?
    ensures Weight(Next(s, DrainNext)) < Weight(s)
  {
    if Done(s) > 0 {
      DrainPops(s);
    } else {
      DrainEnds(s);
    }
  }

  lemma TakeDescends(s: State)
    requires Inv(s) && s.worker.Scanning?
    ensures Weight(Next(s, TakeNext)) < Weight(s)
  {
    if !s.stop {
      TakenFirst(s.ring, 0, Started(s));
    }
  }

  lemma InternalStepDescends(s: State, e: Event)
    requires Inv(s) && Enabled(s, e) && Internal(e)
    ensures Weight(Next(s, e)) < Weight(s)
  {
    match e
    case DrainNext => DrainDescends(s);
    case TakeNext => TakeDescends(s);
    case _ =>
  }

  /** Left alone, the lane takes at most Weight(s) more steps. */
  lemma {:induction false} RunsToRest(s: State, es: seq<Event>, s': State)
    requires Inv(s) && IsRun(s, es, s') && forall e :: e in es ==> Internal(e)
    ensures |es| + Weight(s') <= Weight(s) && 0 <= Weight(s')
    decreases es
  {
    if es != [] {
      InternalStepDescends(s, es[0]);
      StepKeepsInv(s, es[0]);
      RunsToRest(Next(s, es[0]), es[1..], s');
    }
  }

  /** A stopped thread has run out and the next Stop joins it at once. */
  predicate StoppedAtRest(s: State) { s.stop && s.worker.Exited? && s.ui.Idle? && !s.posted }

  /** Deadlock-free: a running lane that is not at rest, and a stopped one whose thread has not run out, has a thread
      that can take a step by itself. */
  lemma StepUntilRest(s: State)
    requires Inv(s) && s.running && !AtRest(s) && !StoppedAtRest(s)
    ensures exists e :: Internal(e) && Enabled(s, e)
  {
    var e :=
      match s.ui
      case Submitting(_) => Submit
      case Signalling => Signal
      case Draining => DrainNext
      case Probing(_) => Probe
      case _ =>
        (match s.worker
         case Exited => if s.ui.Waiting? then WaitJoins else Message
         case Blocked => if s.wake || s.stop then Wake else Message
         case Scanning => TakeNext
         case Performing(_) => Finish(Ok)
         case _ => Notify);
    assert Internal(e) && Enabled(s, e);
  }

  // ---------------------------------------------------------------------------------------------------------------
  // Stop

  predicate NoJoin(es: seq<Event>) { forall e :: e in es ==> !e.WaitJoins? }

  /** After the stop event is set no slot goes from Queued to Running. */
  lemma NoStartAfterStop(s: State, e: Event)
    requires Inv(s) && Enabled(s, e) && s.stop
    ensures Next(s, e).worker.Performing? ==> s.worker.Performing?
    ensures e.WaitJoins? || Next(s, e).stop
  {
  }

  /** The answer of a Stop whose wait ran out: LaunchInProgress exactly when a launch is running at that moment. */
  lemma ProbeTellsTheTruth(s: State)
    requires Inv(s) && s.ui.Probing?
    ensures Next(s, Probe).verdict == Some(LaunchInProgress) <==> s.worker.Performing?
    ensures Next(s, Probe).verdict == Some(Exiting) <==> !s.worker.Performing?
  {
    RunningIsPerforming(s);
  }

  /** After Exiting nothing runs and nothing will on this thread, however often Stop is called again. */
  lemma {:induction false} ExitingIsFinal(s: State, es: seq<Event>, s': State)
    requires Inv(s) && s.stop && !s.worker.Performing? && IsRun(s, es, s') && NoJoin(es)
    ensures s'.stop && !s'.worker.Performing? && s'.performed == s.performed && s'.accepted == s.accepted
    decreases es
  {
    if es != [] {
      StepKeepsInv(s, es[0]);
      ExitingIsFinal(Next(s, es[0]), es[1..], s');
    }
  }

  function StartedLaunches(s: State): (r: nat) { |s.performed| + if s.worker.Performing? then 1 else 0 }

  lemma StopStartsNothing(s: State, e: Event)
    requires Inv(s) && s.stop && Enabled(s, e) && !e.WaitJoins?
    ensures Next(s, e).stop && Next(s, e).accepted == s.accepted && StartedLaunches(Next(s, e)) == StartedLaunches(s)
  {
  }

  /** A stopped thread performs at most the launch that was running, and accepts nothing. */
  lemma {:induction false} StopOnlyFinishes(s: State, es: seq<Event>, s': State)
    requires Inv(s) && s.stop && IsRun(s, es, s') && NoJoin(es)
    ensures s'.accepted == s.accepted && StartedLaunches(s') == StartedLaunches(s)
    decreases es
  {
    if es != [] {
      StepKeepsInv(s, es[0]);
      StopStartsNothing(s, es[0]);
      StopOnlyFinishes(Next(s, es[0]), es[1..], s');
    }
  }

  /** Over all the Stops of a thread lifetime at most one positive wait runs out, and after one the later waits are
      0. */
  lemma OneWaitRunsOut(es: seq<Event>, s: State)
    requires IsRun(Initial(), es, s)
    ensures s.spent <= 1
    ensures s.spent == 1 && s.ui.Waiting? ==> s.ui.wait == 0
  {
    InitialInv();
    RunKeepsInv(Initial(), es, s);
  }

  // ---------------------------------------------------------------------------------------------------------------
  // Liveness

  /** No thread can take a step by itself. */
  ghost predicate Stuck(s: State) { forall e :: Internal(e) ==> !Enabled(s, e) }

  predicate AllInternal(es: seq<Event>) { forall e :: e in es ==> Internal(e) }

  /** A lane left alone comes to rest, a stopped one with its thread run out: its runs are bounded, and one that cannot
      be extended ends there. */
  lemma LeftAloneItRests(s: State, es: seq<Event>, s': State)
    requires Inv(s) && IsRun(s, es, s') && AllInternal(es) && Stuck(s') && s'.running
    ensures |es| <= Weight(s) && (AtRest(s') || StoppedAtRest(s'))
  {
    RunsToRest(s, es, s');
    RunKeepsInv(s, es, s');
    if !AtRest(s') && !StoppedAtRest(s') {
      StepUntilRest(s');
      assert false;
    }
  }

  lemma InternalStepNeverStops(s: State, e: Event)
    requires Inv(s) && Enabled(s, e) && Internal(e) && s.running && !s.stop
    ensures var s' := Next(s, e); s'.running && !s'.stop && s.accepted <= s'.accepted
  {
  }

  lemma {:induction false} InternalRunsNeverStop(s: State, es: seq<Event>, s': State)
    requires Inv(s) && s.running && !s.stop && IsRun(s, es, s') && AllInternal(es)
    ensures s'.running && !s'.stop && s.accepted <= s'.accepted
    decreases es
  {
    if es != [] {
      InternalStepNeverStops(s, es[0]);
      StepKeepsInv(s, es[0]);
      InternalRunsNeverStop(Next(s, es[0]), es[1..], s');
    }
  }

  /** Every launch accepted by a running lane that is then left alone is performed and logged, in order: every run that
      cannot be extended has logged them all. */
  lemma LaunchesAreLogged(before: seq<Event>, s: State, es: seq<Event>, s': State)
    requires IsRun(Initial(), before, s) && s.running && !s.stop
    requires IsRun(s, es, s') && AllInternal(es) && Stuck(s')
    ensures |es| <= Weight(s) && s.accepted <= s'.accepted && Requests(s'.logged) == s'.accepted
  {
    InitialInv();
    RunKeepsInv(Initial(), before, s);
    RunKeepsInv(s, es, s');
    InternalRunsNeverStop(s, es, s');
    LeftAloneItRests(s, es, s');
    RestHasLoggedAll(s');
  }

  // ---------------------------------------------------------------------------------------------------------------
  // What is stored and logged

  /** A launch performed is the request of its own slot with its own answer, or the apartment's failure when there is
      none to perform it in; the slot keeps both for the drain. */
  lemma LaunchIsStored(s: State, answer: HResult)
    requires Inv(s) && Enabled(s, Finish(answer))
    ensures var i, s' := s.worker.slot, Next(s, Finish(answer));
            var result := if s.apartment == Ok || s.apartment == False then answer else s.apartment;
            s'.performed == s.performed + [Launch(s.ring.slots[i].request, result)] &&
            s'.ring.slots[i] == Slot(s.ring.slots[i].request, Complete, result) && s'.logged == s.logged
  {
  }

  /** One turn of a drain logs the oldest launch performed and not yet logged, with the result it was performed with, or
      ends when there is none. */
  lemma DrainLogsInOrder(s: State)
    requires Inv(s) && s.ui.Draining?
    ensures var s' := Next(s, DrainNext);
            if |s.logged| < |s.performed| then
              s'.logged == s.logged + [s.performed[|s.logged|]] && s'.ui == s.ui && s'.performed == s.performed
            else s'.logged == s.logged && s'.ui == Idle
  {
    if Done(s) > 0 {
      DrainPops(s);
      assert s.ring.slots[s.ring.head] == s.ring.View()[0];
      assert s.logged <= s.performed;
      assert s.performed[|s.logged|].request == s.accepted[|s.logged|];
    } else {
      DrainEnds(s);
    }
  }

  /** A request is answered busy exactly when all eight slots are in use; else it is answered Ok and queued last. */
  lemma PushAnswers(ring: Ring, request: Request)
    requires ring.Sized()
    ensures var (after, answer) := Pushed(ring, request);
            if ring.count == 8 then answer == Busy && after == ring
            else answer == Ok && after.count == ring.count + 1 && after.head == ring.head &&
                 after.View() == ring.View()[ring.count := Slot(request, Queued, Ok)]
  {
    if ring.count < 8 {
      PushedView(ring, request);
    }
  }

  /** Stop waits as long as asked, and not at all once a wait has run out; a wait that runs out counts unless it was an
      idle zero wait; a joined thread leaves an empty ring. */
  lemma StopWaits(s: State, timeout: nat)
    requires Inv(s) && s.ui.Idle?
    ensures var asked := Next(s, Stop(timeout));
            if !s.running then asked == s.(verdict := Some(Stopped))
            else asked == s.(stop := true, ui := Waiting(if s.waitedOut then 0 else timeout))
  {
  }

  lemma StopAnswers(s: State)
    requires Inv(s)
    ensures s.ui.Probing? ==>
              var s' := Next(s, Probe);
              (s'.waitedOut <==> s.waitedOut || s.worker.Performing? || s.ui.wait > 0) && s'.ui == Idle &&
              s'.ring == s.ring
    ensures s.ui.Waiting? && s.worker.Exited? ==>
              var s' := Next(s, WaitJoins);
              s'.verdict == Some(Stopped) && !s'.running && !s'.stop && !s'.waitedOut && s'.ring.count == 0 &&
              s'.ring.head == 0 && forall i :: 0 <= i < |s'.ring.slots| ==> s'.ring.slots[i].state == Empty
  {
    RunningIsPerforming(s);
  }
}
