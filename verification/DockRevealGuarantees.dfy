// What the autohide bar guarantees over every run of events, timer messages, frames, placements, settings changes and
// thickness drags, for a bar whose placements succeed.
module DockRevealGuarantees {
  import opened Basics
  import opened DockGeometry
  import opened DockAppBars
  import opened DockReveals

  datatype Step =
    | React(event: RevealEvent, around: Around)
    | Evaluate(around: Around)
    | Timer(around: Around)
    | Frame(progress: Option<int>)
    | Settle
    | Place(full: int)
    | Configure(settings: Settings, full: int, around: Around)
    | BeginDrag(around: Around)
    | Drag(full: int)
    | EndDrag(full: int, around: Around)

  predicate Between(px: int, a: int, b: int) { a <= px <= b || b <= px <= a }

  /** A frame of a slide shows a size between its start and its end; a drag starts on a bar that is not hiding; every
      placement has some size across the edge. */
  ghost predicate Enabled(b: BarState, s: Step) {
    match s
    case Frame(progress) => progress.Some? ==> Between(progress.value, b.slideFrom, b.Target())
    case Place(full) => full >= 1
    case Configure(_, full, _) => full >= 1
    case BeginDrag(_) => !b.HiddenOrHiding()
    case Drag(full) => full >= 1
    case EndDrag(full, _) => full >= 1
    case _ => true
  }

  function Next(b: BarState, s: Step): (r: BarState) {
    match s
    case React(event, around) => Handled(b, event, around)
    case Evaluate(around) => Evaluated(b, around)
    case Timer(around) => TimerHandled(b, around)
    case Frame(progress) => Ticked(b, progress)
    case Settle => Settled(b)
    case Place(full) => PlacedAt(b, full)
    case Configure(settings, full, around) => Configured(b, settings, full, around)
    case BeginDrag(around) => DragBegun(b, around)
    case Drag(full) => Dragged(b, full)
    case EndDrag(full, around) => DragEnded(b, full, around)
  }

  // ---------------------------------------------------------------------------------------------------------------
  // The invariant

  /** The timer is armed exactly while a delay runs. */
  ghost predicate TimerFollows(b: BarState) { b.timer.Some? <==> Pending(b.state) }

  /** Without a slide the window has the size the reveal state asks for; a slide keeps it between strip and bar. */
  ghost predicate WindowFollows(b: BarState) {
    (!b.sliding ==> b.window == b.Target()) &&
    (b.sliding ==> b.window == b.visible && b.Peek() <= b.window <= b.full && b.Peek() <= b.slideFrom <= b.full)
  }

  ghost predicate Inv(b: BarState) {
    b.full >= 1 && TimerFollows(b) && WindowFollows(b) &&
    (b.settings.mode.Fixed? ==> b.state.Revealed? && !b.sliding && !b.pinnedByAction) &&
    (b.dragging ==> b.state.Revealed? && !b.sliding)
  }

  /** ApplyDockRevealState keeps the window following whatever state it is given, and restores the timer. */
  lemma AppliedFollows(b: BarState, state: Reveal, frames: bool)
    requires b.full >= 1 && b.settings.mode.Autohide? && WindowFollows(b) && (TimerFollows(b) || state != b.state)
    ensures var b' := Applied(b, state, frames);
            b'.full == b.full && b'.state == state && b'.settings == b.settings && b'.dragging == b.dragging &&
            b'.pinnedByAction == b.pinnedByAction && TimerFollows(b') && WindowFollows(b')
    ensures ShowsStrip(state) == ShowsStrip(b.state) ==> Applied(b, state, frames).sliding == b.sliding
  {
  }

  lemma SettledFollows(b: BarState)
    requires b.full >= 1 && WindowFollows(b)
    ensures Settled(b) == b.(sliding := false, window := Settled(b).window, visible := Settled(b).visible)
    ensures Settled(b).window == b.Target()
  {
  }

  lemma EvaluatedKeepsInv(b: BarState, around: Around)
    requires Inv(b.(dragging := false)) && (b.dragging ==> !b.sliding && !ShowsStrip(b.state))
    ensures Inv(Evaluated(b, around))
  {
    if b.settings.mode.Autohide? {
      var b' := b.(pinnedByAction := b.pinnedByAction && !CurrentHolds(b, around).AnyOther());
      var next := NextReveal(b.state, HoldsChanged, CurrentHolds(b', around), b.settings.revealDelay,
                             b.settings.hideDelay);
      AppliedFollows(b', next, around.frames);
    }
  }

  lemma HandledKeepsInv(b: BarState, event: RevealEvent, around: Around)
    requires Inv(b)
    ensures Inv(Handled(b, event, around))
  {
    if b.settings.mode.Autohide? {
      var b' := b.(pinnedByAction := ActionPinned(b, event, around));
      var next := NextReveal(b.state, event, CurrentHolds(b', around), b.settings.revealDelay, b.settings.hideDelay);
      AppliedFollows(b', next, around.frames);
    }
  }

  /** Whenever a dock timer message arrives, even one posted before its timer was killed, no delay is left running. */
  lemma TimerKeepsInv(b: BarState, around: Around)
    requires Inv(b)
    ensures Inv(TimerHandled(b, around))
    ensures !Pending(TimerHandled(b, around).state)
  {
    if b.settings.mode.Autohide? {
      var event := if b.state.RevealPending? then DwellElapsed else HideElapsed;
      var killed := b.(timer := None);
      var next := NextReveal(b.state, event, CurrentHolds(killed, around), b.settings.revealDelay,
                             b.settings.hideDelay);
      AppliedFollows(killed, next, around.frames);
    }
  }

  lemma PlacedKeepsInv(b: BarState, full: int)
    requires b.full >= 1 && full >= 1 && TimerFollows(b)
    requires b.settings.mode.Fixed? ==> b.state.Revealed? && !b.pinnedByAction
    requires b.dragging ==> b.state.Revealed?
    ensures Inv(PlacedAt(b, full))
  {
  }

  lemma ConfiguredKeepsInv(b: BarState, next: Settings, full: int, around: Around)
    requires Inv(b) && full >= 1
    ensures Inv(Configured(b, next, full, around))
  {
    if next != b.settings {
      PlacedKeepsInv(Switched(b, next), full);
      EvaluatedKeepsInv(PlacedAt(Switched(b, next), full), around);
    }
  }

  lemma DragKeepsInv(b: BarState, s: Step)
    requires Inv(b) && Enabled(b, s) && (s.BeginDrag? || s.Drag? || s.EndDrag?)
    ensures Inv(Next(b, s))
  {
    match s
    case BeginDrag(around) =>
      if !b.dragging {
        SettledFollows(b);
        EvaluatedKeepsInv(Settled(b).(dragging := true), around);
      }
    case Drag(_) =>
    case EndDrag(full, around) =>
      if b.dragging {
        PlacedKeepsInv(b.(dragging := false), full);
        EvaluatedKeepsInv(PlacedAt(b.(dragging := false), full), around);
      }
  }

  lemma StepKeepsInv(b: BarState, s: Step)
    requires Inv(b) && Enabled(b, s)
    ensures Inv(Next(b, s))
  {
    match s
    case React(event, around) => HandledKeepsInv(b, event, around);
    case Evaluate(around) => EvaluatedKeepsInv(b, around);
    case Timer(around) => TimerKeepsInv(b, around);
    case Frame(progress) =>
    case Settle => SettledFollows(b);
    case Place(full) => PlacedKeepsInv(b, full);
    case Configure(settings, full, around) => ConfiguredKeepsInv(b, settings, full, around);
    case BeginDrag(_) => DragKeepsInv(b, s);
    case Drag(_) => DragKeepsInv(b, s);
    case EndDrag(_, _) => DragKeepsInv(b, s);
  }

  ghost predicate IsRun(b: BarState, steps: seq<Step>, b': BarState)
    decreases |steps|
  {
    if steps == [] then b' == b else Enabled(b, steps[0]) && IsRun(Next(b, steps[0]), steps[1..], b')
  }

  lemma {:induction false} RunKeepsInv(b: BarState, steps: seq<Step>, b': BarState)
    requires Inv(b) && IsRun(b, steps, b')
    ensures Inv(b')
    decreases |steps|
  {
    if steps != [] {
      StepKeepsInv(b, steps[0]);
      RunKeepsInv(Next(b, steps[0]), steps[1..], b');
    }
  }

  /** From a newly placed bar on, after every step of every run, the timer is armed exactly in the two pending states
      and a window without a slide is the clamped peek strip in the two strip states and the full bar otherwise. */
  lemma TimerAndWindowFollow(settings: Settings, full: int, steps: seq<Step>, b: BarState)
    requires full >= 1
    requires IsRun(BarState(settings, Revealed, None, false, 0, 0, full, full, false, false), steps, b)
    ensures b.full >= 1
    ensures b.timer.Some? <==> b.state.HidePending? || b.state.RevealPending?
    ensures !b.sliding && b.settings.mode.Autohide? && (b.state.Hidden? || b.state.RevealPending?) ==>
              b.window == Clamped(b.settings.peek, 1, b.full)
    ensures !b.sliding && !(b.settings.mode.Autohide? && (b.state.Hidden? || b.state.RevealPending?)) ==>
              b.window == b.full
    ensures Clamped(b.settings.peek, 1, b.full) <= b.window <= b.full
  {
    RunKeepsInv(BarState(settings, Revealed, None, false, 0, 0, full, full, false, false), steps, b);
  }

  // ---------------------------------------------------------------------------------------------------------------
  // The slide

  ghost predicate NeverJumps(b: BarState, b': BarState) {
    if b'.sliding then
      b'.window == b.window && (ShowsStrip(b.state) != ShowsStrip(b'.state) ==> b'.slideFrom == b.window)
    else b'.window == b'.Target()
  }

  lemma AppliedNeverJumps(b: BarState, state: Reveal, frames: bool)
    requires b.full >= 1 && b.settings.mode.Autohide? && WindowFollows(b)
    ensures NeverJumps(b, Applied(b, state, frames))
  {
  }

  /** A reveal or hide that starts, or reverses, a slide never jumps: the window keeps the size it has, and the slide
      starts there. Without one the window is at once what the new state asks for. */
  lemma NoJump(b: BarState, s: Step)
    requires Inv(b) && (s.React? || s.Evaluate? || s.Timer?)
    ensures NeverJumps(b, Next(b, s))
  {
    match s
    case React(event, around) =>
      if b.settings.mode.Autohide? {
        var b' := b.(pinnedByAction := ActionPinned(b, event, around));
        AppliedNeverJumps(b', NextReveal(b.state, event, CurrentHolds(b', around), b.settings.revealDelay,
                                         b.settings.hideDelay), around.frames);
      }
    case Evaluate(around) =>
      if b.settings.mode.Autohide? {
        var b' := b.(pinnedByAction := b.pinnedByAction && !CurrentHolds(b, around).AnyOther());
        AppliedNeverJumps(b', NextReveal(b.state, HoldsChanged, CurrentHolds(b', around), b.settings.revealDelay,
                                         b.settings.hideDelay), around.frames);
      }
    case Timer(around) =>
      if b.settings.mode.Autohide? {
        var event := if b.state.RevealPending? then DwellElapsed else HideElapsed;
        var b' := b.(timer := None);
        AppliedNeverJumps(b', NextReveal(b.state, event, CurrentHolds(b', around), b.settings.revealDelay,
                                         b.settings.hideDelay), around.frames);
      }
  }

  /** A slide lasts no longer than the configured animation, a full travel exactly as long, and a shorter one its share
      of it, to within half a millisecond or the one-millisecond minimum. */
  lemma SlideTakesItsShare(animation: nat, from: int, to: int, peek: int, full: int)
    requires peek < full && peek <= from <= full && peek <= to <= full
    ensures var ms := SlideDuration(animation, from, to, peek, full);
            var travel, distance := full - peek, Distance(from, to);
            (ms == 0 <==> animation == 0 || distance == 0) && ms <= animation &&
            (distance == travel ==> ms == animation) &&
            (ms > 1 ==> 2 * (ms * travel) - 2 * (animation * distance) <= travel &&
                        2 * (animation * distance) - 2 * (ms * travel) <= travel)
  {
    ShareSpelled(animation, Distance(from, to), full - peek);
  }

  lemma ShareSpelled(animation: nat, distance: nat, travel: nat)
    requires travel > 0 && distance <= travel
    ensures var ms := if animation == 0 || distance == 0 then 0
                      else AtLeastOne((animation * distance + travel / 2) / travel);
            (ms == 0 <==> animation == 0 || distance == 0) && ms <= animation &&
            (distance == travel ==> ms == animation) &&
            (ms > 1 ==> 2 * (ms * travel) - 2 * (animation * distance) <= travel &&
                        2 * (animation * distance) - 2 * (ms * travel) <= travel)
  {
    if animation > 0 && distance > 0 {
      var product := animation * distance;
      RoundedShare(product, travel);
      if distance == travel {
        QuotientIs(product + travel / 2, travel, animation);
      } else {
        ShareAtMost(animation, distance, travel);
      }
    }
  }

  lemma RoundedShare(n: nat, d: nat)
    requires d > 0
    ensures var q := (n + d / 2) / d; 2 * (q * d) - 2 * n <= d && 2 * n - 2 * (q * d) <= d
  {
    var q := (n + d / 2) / d;
    assert n + d / 2 == q * d + (n + d / 2) % d;
  }

  lemma ShareAtMost(animation: nat, distance: nat, travel: nat)
    requires 0 < distance < travel && animation > 0
    ensures (animation * distance + travel / 2) / travel <= animation
  {
    MulMonotone(distance, travel, animation);
    DivMonotone(animation * distance + travel / 2, animation * travel + travel / 2, travel);
    QuotientIs(animation * travel + travel / 2, travel, animation);
  }

  // ---------------------------------------------------------------------------------------------------------------
  // What brings the bar out, and what puts it in

  /** The events that ask for the bar. */
  predicate Asks(event: RevealEvent) { event in {Pin, TouchOnStrip, ActionShow, ActionToggle, PageOrWidgetChange} }

  /** A hidden bar comes out at once exactly when it is asked for, after the dwell of a pointer, or for the pointer
      itself without a dwell. */
  lemma ComesOutExactly(current: Reveal, event: RevealEvent, holds: Holds, revealDelay: nat, hideDelay: nat)
    requires ShowsStrip(current)
    ensures var next := NextReveal(current, event, holds, revealDelay, hideDelay);
            (next.Revealed? <==>
              Asks(event) || (event == DwellElapsed && current.RevealPending?) ||
              (event == PointerEnteredStrip && current.Hidden? && revealDelay == 0)) &&
            (current.Hidden? && next.RevealPending? ==> event == PointerEnteredStrip) && !next.HidePending?
  {
  }

  /** A bar that is out goes in exactly for an action nothing refuses, at the end of its hide delay, or when its last
      hold goes and there is no delay. */
  lemma GoesInExactly(current: Reveal, event: RevealEvent, holds: Holds, revealDelay: nat, hideDelay: nat)
    requires !ShowsStrip(current)
    ensures var next := NextReveal(current, event, holds, revealDelay, hideDelay);
            (next.Hidden? <==>
              (event in {ActionHide, ActionToggle} && !holds.RefusesHide()) ||
              (event == HideElapsed && current.HidePending?) ||
              (event == HoldsChanged && current.Revealed? && !holds.Any() && hideDelay == 0)) &&
            (current.Revealed? && next.HidePending? ==> event == HoldsChanged && !holds.Any()) && !next.RevealPending?
  {
  }

  lemma AskedBarState(b: BarState, event: RevealEvent, around: Around)
    requires b.settings.mode.Autohide? && ShowsStrip(b.state) && Asks(event)
    ensures Handled(b, event, around).state.Revealed? && Handled(b, event, around).settings == b.settings &&
            Handled(b, event, around).full == b.full
  {
    var b' := b.(pinnedByAction := ActionPinned(b, event, around));
    ComesOutExactly(b.state, event, CurrentHolds(b', around), b.settings.revealDelay, b.settings.hideDelay);
  }

  /** Asked for, a hidden bar comes out whatever holds it: once its slide has ended the window is the full bar. */
  lemma AskedBarComesOut(b: BarState, event: RevealEvent, around: Around)
    requires Inv(b) && b.settings.mode.Autohide? && ShowsStrip(b.state) && Asks(event)
    ensures Handled(b, event, around).state.Revealed? && Settled(Handled(b, event, around)).window == b.full
  {
    AskedBarState(b, event, around);
    HandledKeepsInv(b, event, around);
    SettledFollows(Handled(b, event, around));
  }

  /** The step asks for nothing: no such event, no pointer on the strip, no switch to a fixed bar. */
  predicate AsksNothing(s: Step) {
    match s
    case React(event, _) => !Asks(event) && event != PointerEnteredStrip
    case Configure(settings, _, _) => settings.mode.Autohide?
    case _ => true
  }

  lemma HiddenStep(b: BarState, s: Step)
    requires Inv(b) && b.settings.mode.Autohide? && b.state.Hidden? && Enabled(b, s) && AsksNothing(s)
    ensures Next(b, s).settings.mode.Autohide? && Next(b, s).state.Hidden?
  {
    match s
    case React(event, around) =>
      var b' := b.(pinnedByAction := ActionPinned(b, event, around));
      ComesOutExactly(b.state, event, CurrentHolds(b', around), b.settings.revealDelay, b.settings.hideDelay);
    case _ =>
  }

  /** Nothing but asking, and a pointer on the strip, brings a hidden bar out: no hold, evaluation, late timer message,
      placement or reload does, over any run, and once its slide has ended its window stays the strip. */
  lemma {:induction false} HiddenBarStaysIn(b: BarState, steps: seq<Step>, b': BarState)
    requires Inv(b) && b.settings.mode.Autohide? && b.state.Hidden? && IsRun(b, steps, b')
    requires forall i :: 0 <= i < |steps| ==> AsksNothing(steps[i])
    ensures b'.state.Hidden? && (!b'.sliding ==> b'.window == b'.Peek())
    decreases |steps|
  {
    if steps != [] {
      assert AsksNothing(steps[0]);
      HiddenStep(b, steps[0]);
      StepKeepsInv(b, steps[0]);
      HiddenBarStaysIn(Next(b, steps[0]), steps[1..], b');
    }
  }

  // ---------------------------------------------------------------------------------------------------------------
  // Holds

  /** After the holds are evaluated, a bar that is out is kept there exactly when something holds it; otherwise it
      counts down. Evaluating again changes nothing. */
  lemma EvaluationDecides(b: BarState, around: Around)
    requires Inv(b) && b.settings.mode.Autohide?
    ensures var b' := Evaluated(b, around);
            !ShowsStrip(b'.state) ==> (b'.state.Revealed? <==> CurrentHolds(b', around).Any())
    ensures var b' := Evaluated(b, around); Evaluated(b', around) == b'
  {
  }

  /** The events that leave the settings, the drag and the placement alone. */
  predicate Ordinary(s: Step) { s.React? || s.Evaluate? || s.Timer? || s.Frame? || s.Settle? }

  function Surroundings(s: Step): (r: Option<Around>) {
    match s
    case React(_, around) => Some(around)
    case Evaluate(around) => Some(around)
    case Timer(around) => Some(around)
    case _ => None
  }

  lemma HeldStep(b: BarState, s: Step)
    requires b.state.Revealed? && Ordinary(s) && (Surroundings(s).Some? ==> Surroundings(s).value.RefusesHide())
    ensures Next(b, s).state.Revealed?
  {
    match s
    case React(event, around) =>
      var b' := b.(pinnedByAction := ActionPinned(b, event, around));
      GoesInExactly(b.state, event, CurrentHolds(b', around), b.settings.revealDelay, b.settings.hideDelay);
    case _ =>
  }

  /** While a capture, a raised widget, a dialog or a pending screenshot lasts, no event, action or late timer message
      hides a revealed bar, over any run. */
  lemma {:induction false} HeldBarStaysOut(b: BarState, steps: seq<Step>, b': BarState)
    requires Inv(b) && b.state.Revealed? && IsRun(b, steps, b')
    requires forall i :: 0 <= i < |steps| ==>
               Ordinary(steps[i]) && (Surroundings(steps[i]).Some? ==> Surroundings(steps[i]).value.RefusesHide())
    ensures b'.state.Revealed?
    decreases |steps|
  {
    if steps != [] {
      StepKeepsInv(b, steps[0]);
      assert Ordinary(steps[0]);
      HeldStep(b, steps[0]);
      HeldBarStaysOut(Next(b, steps[0]), steps[1..], b');
    }
  }

  /** A bar shown by an action with nothing holding it stays out, whatever is evaluated, until another hold appears. */
  lemma {:induction false} ShownBarStaysOut(b: BarState, steps: seq<Step>, b': BarState)
    requires Inv(b) && b.settings.mode.Autohide? && b.state.Revealed? && b.pinnedByAction && !b.dragging
    requires IsRun(b, steps, b')
    requires forall i :: 0 <= i < |steps| ==>
               Ordinary(steps[i]) && !steps[i].React? &&
               (Surroundings(steps[i]).Some? ==> Surroundings(steps[i]).value.Free())
    ensures b'.state.Revealed? && b'.pinnedByAction
    decreases |steps|
  {
    if steps != [] {
      StepKeepsInv(b, steps[0]);
      assert Ordinary(steps[0]) && !steps[0].React?;
      ShownBarStaysOut(Next(b, steps[0]), steps[1..], b');
    }
  }

  lemma ShowingPins(b: BarState, around: Around)
    requires Inv(b) && b.settings.mode.Autohide? && around.Free() && !b.dragging
    ensures var b' := Handled(b, ActionShow, around);
            b'.state.Revealed? && b'.pinnedByAction && b'.settings == b.settings
  {
    HandledKeepsInv(b, ActionShow, around);
  }

  /** Once another hold has appeared and gone, the shown bar hides after its delay: its pin is spent, the timer runs for
      the delay, and the window ends at the strip. */
  lemma LeftAloneItHides(b: BarState, held: Around, free: Around)
    requires Inv(b) && b.settings.mode.Autohide? && b.state.Revealed? && !b.dragging && !b.sliding
    requires !held.Free() && free.Free()
    ensures var left := Evaluated(Evaluated(b, held), free);
            if b.settings.hideDelay > 0 then
              left.timer == Some(b.settings.hideDelay) && Settled(TimerHandled(left, free)).window == b.Peek()
            else left.timer == None && Settled(left).window == b.Peek()
  {
    HoldSpendsPin(b, held);
    var kept := b.(pinnedByAction := false);
    FreeBarCountsDown(kept, free);
    var left := Evaluated(kept, free);
    if b.settings.hideDelay > 0 {
      HideDelayEnds(left, free);
    } else {
      SettledFollows(left);
    }
  }

  lemma HoldSpendsPin(b: BarState, held: Around)
    requires Inv(b) && b.settings.mode.Autohide? && b.state.Revealed? && !held.Free()
    ensures Evaluated(b, held) == b.(pinnedByAction := false)
  {
  }

  lemma FreeBarCountsDown(b: BarState, free: Around)
    requires Inv(b) && b.settings.mode.Autohide? && b.state.Revealed?
    requires !b.dragging && !b.sliding && !b.pinnedByAction && free.Free()
    ensures var left := Evaluated(b, free);
            Inv(left) && left.settings == b.settings && left.full == b.full && left.dragging == b.dragging &&
            if b.settings.hideDelay > 0 then left.state.HidePending? && left.timer == Some(b.settings.hideDelay)
            else left.state.Hidden?
  {
    EvaluatedKeepsInv(b, free);
    assert !CurrentHolds(b, free).Any();
    AppliedFollows(b, if b.settings.hideDelay == 0 then Hidden else HidePending, free.frames);
  }

  lemma HideDelayEnds(b: BarState, around: Around)
    requires Inv(b) && b.settings.mode.Autohide? && b.state.HidePending?
    ensures Settled(TimerHandled(b, around)).window == b.Peek()
  {
    TimerKeepsInv(b, around);
    AppliedFollows(b.(timer := None), Hidden, around.frames);
    SettledFollows(TimerHandled(b, around));
  }

  /** A pointer that stays on the strip for the dwell reveals the bar; one that leaves before does not. */
  lemma DwellReveals(b: BarState, around: Around, later: Around)
    requires Inv(b) && b.settings.mode.Autohide? && b.state.Hidden? && b.settings.revealDelay > 0
    ensures var entered := Handled(b, PointerEnteredStrip, around);
            entered.timer == Some(b.settings.revealDelay) && entered.window == b.window &&
            Settled(TimerHandled(entered, later)).window == b.full &&
            Handled(entered, PointerLeft, later) == b
  {
    HandledKeepsInv(b, PointerEnteredStrip, around);
    var entered := Handled(b, PointerEnteredStrip, around);
    TimerKeepsInv(entered, later);
    SettledFollows(TimerHandled(entered, later));
  }
}
