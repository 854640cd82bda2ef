// A reachable run of the control lane in which a completion callback fills the lane, so that the drain's own
// resubmission is refused and an accepted request is never selected again.
module ControlLoss {
  import opened Basics
  import opened RoundRobin
  import opened ControlLanes
  import opened ControlProtocol
  import opened ControlGuarantees

  const FREE_SLOTS: seq<Slot> := seq(CAPACITY, i => NO_SLOT)

  function Job(w: Work, state: SlotState, rerun: bool): (r: Slot) { Slot(Some(w), state, Ok, rerun, 0) }

  /** Slot k takes job k + 1, for every slot from `k` on. */
  lemma {:induction false} CallbackFills(s: State, k: nat) returns (es: seq<Event>, s': State)
    requires k <= CAPACITY && s.lane.Sized() && s.running && s.ui.InCallback?
    requires forall i :: 0 <= i < k ==> s.lane.slots[i] == Job(i + 1, Queued, false)
    requires forall i :: k <= i < CAPACITY ==> s.lane.slots[i] == NO_SLOT
    ensures IsRun(s, es, s')
    ensures s'.lane.Sized() && s'.running && s'.ui == s.ui && s'.selections == s.selections
    ensures forall i :: 0 <= i < CAPACITY ==> s'.lane.slots[i] == Job(i + 1, Queued, false)
    decreases CAPACITY - k
  {
    if k == CAPACITY {
      es, s' := [], s;
    } else {
      var e := Enqueue(Some(k + 1), 0);
      FirstIs(s.lane.slots, (slot: Slot) => Holds(k + 1, slot), CAPACITY);
      FirstIs(s.lane.slots, IsEmpty, k);
      var mid := Next(s, e);
      assert mid.lane.slots == s.lane.slots[k := Job(k + 1, Queued, false)];
      es, s' := CallbackFills(mid, k + 1);
      assert ([e] + es)[1..] == es;
      es := [e] + es;
    }
  }

  /** One step appended to a run. */
  lemma Then(s: State, es: seq<Event>, mid: State, e: Event) returns (es': seq<Event>, s': State)
    requires IsRun(s, es, mid) && mid.lane.Sized() && Enabled(mid, e)
    ensures s' == Next(mid, e) && es' == es + [e] && IsRun(s, es', s')
  {
    s', es' := Next(mid, e), es + [e];
    assert [e][1..] == [];
    RunJoins(s, es, mid, [e], s');
  }

  /** Job 0 runs, is requested again while it runs, completes, and is inside its Complete callback. */
  lemma FirstCallback() returns (es: seq<Event>, s: State)
    ensures IsRun(Initial(), es, s)
    ensures s.lane == Lane(FREE_SLOTS, 0, false, false) && s.running && s.selections == [0]
    ensures s.ui == InCallback([Job(0, Complete, true)])
  {
    es, s := [], Initial();
    es, s := Then(Initial(), es, s, Start(Ok));
    FirstIs(s.lane.slots, (slot: Slot) => Holds(0, slot), CAPACITY);
    FirstIs(s.lane.slots, IsEmpty, 0);
    es, s := Then(Initial(), es, s, Enqueue(Some(0), 0));
    assert s.lane == Lane(FREE_SLOTS[0 := Job(0, Queued, false)], CAPACITY - 1, false, true);
    es, s := Then(Initial(), es, s, Wake);
    es, s := Then(Initial(), es, s, CheckStop);
    es, s := FirstSelection(es, s);
    es, s := FirstCompletion(es, s);
  }

  lemma FirstSelection(es0: seq<Event>, s0: State) returns (es: seq<Event>, s: State)
    requires IsRun(Initial(), es0, s0)
    requires s0.lane == Lane(FREE_SLOTS[0 := Job(0, Queued, false)], CAPACITY - 1, false, false) && s0.running &&
             !s0.stop
    requires s0.worker == Scanning && s0.ui == Idle && s0.apartment == Ok && s0.selections == []
    ensures IsRun(Initial(), es, s)
    ensures s.lane == Lane(FREE_SLOTS[0 := Job(0, Running, true)], 0, false, false) && s.running && !s.stop
    ensures s.worker == Performing(0) && s.ui == Idle && s.apartment == Ok && s.selections == [0]
  {
    SelectCases(s0.lane);
    assert s0.lane.slots[0].state.Queued?;
    es, s := Then(Initial(), es0, s0, SelectNext);
    assert s.lane == Lane(FREE_SLOTS[0 := Job(0, Running, false)], 0, false, false);
    FirstIs(s.lane.slots, (slot: Slot) => Holds(0, slot), 0);
    es, s := Then(Initial(), es, s, Enqueue(Some(0), 0));
  }

  lemma FirstCompletion(es0: seq<Event>, s0: State) returns (es: seq<Event>, s: State)
    requires IsRun(Initial(), es0, s0)
    requires s0.lane == Lane(FREE_SLOTS[0 := Job(0, Running, true)], 0, false, false) && s0.running && !s0.stop
    requires s0.worker == Performing(0) && s0.ui == Idle && s0.apartment == Ok && s0.selections == [0]
    ensures IsRun(Initial(), es, s)
    ensures s.lane == Lane(FREE_SLOTS, 0, false, false) && s.running && s.selections == [0]
    ensures s.ui == InCallback([Job(0, Complete, true)])
  {
    es, s := Then(Initial(), es0, s0, Finish(0, Ok));
    assert s.lane == Lane(FREE_SLOTS[0 := Job(0, Complete, true)], 0, true, false);
    es, s := Then(Initial(), es, s, Notify);
    es, s := Then(Initial(), es, s, Message);
    es, s := Then(Initial(), es, s, Exchange);
    es, s := FirstSweep(es, s);
  }

  lemma FirstSweep(es0: seq<Event>, s0: State) returns (es: seq<Event>, s: State)
    requires IsRun(Initial(), es0, s0)
    requires s0.lane == Lane(FREE_SLOTS[0 := Job(0, Complete, true)], 0, false, false) && s0.running
    requires s0.ui == Sweeping && s0.selections == [0]
    ensures IsRun(Initial(), es, s)
    ensures s.lane == Lane(FREE_SLOTS, 0, false, false) && s.running && s.selections == [0]
    ensures s.ui == InCallback([Job(0, Complete, true)])
  {
    assert s0.lane.slots[1..] == seq(CAPACITY - 1, i => NO_SLOT);
    NoneComplete(CAPACITY - 1);
    es, s := Then(Initial(), es0, s0, Sweep);
    assert s.lane.slots == FREE_SLOTS;
    es, s := Then(Initial(), es, s, BeginComplete);
  }

  lemma {:induction false} NoneComplete(n: nat)
    ensures Filter(seq(n, i => NO_SLOT), IsComplete) == []
  {
    if n > 0 {
      assert seq(n, i => NO_SLOT)[1..] == seq(n - 1, i => NO_SLOT);
      NoneComplete(n - 1);
    }
  }

  /** The promise of NoRequestLost fails when completions submit new work: job 0 is requested, promised, and after the
      refused resubmission neither selected nor promised. */
  lemma CallbackCanLoseRequest() returns (es: seq<Event>, s: State, e: Event)
    ensures IsRun(Initial(), es, s) && Inv(s) && Enabled(s, e) && Refused(s, e, 0)
    ensures Promised(s, 0) && !Promised(Next(s, e), 0) && !Selects(s, e, 0)
    ensures s.selections == [0]
  {
    var es0, s0 := FirstCallback();
    var es1, s1 := CallbackFills(s0, 0);
    RunJoins(Initial(), es0, s0, es1, s1);
    es, s, e := es0 + es1, s1, EndComplete(0);
    ReachableInv(es, s);
    assert Owes(UiTodo(s.ui)[0], 0);
    PromiseInTodo(s, 0, 0);
    LostExactlyWhenRefused(s, e, 0);
  }
}
