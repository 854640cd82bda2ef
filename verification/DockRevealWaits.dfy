// The autohide bar while placements wait: RedXe's thread dispatches sent messages inside the shell and window calls of
// a pass, so events can start a slide, or end a drag, between the settled slide and the bar's new extent.
module DockRevealWaits {
  import opened Basics
  import opened DockGeometry
  import opened DockAppBars
  import opened DockReveals
  import opened DockRevealGuarantees

  /** No placement runs, or a pass waits; afterwards the holds are evaluated when the caller of PlaceDock does so. */
  datatype Pass = NoPass | InPass(evaluates: bool)

  datatype State = State(bar: BarState, pass: Pass)

  datatype Event =
    | Handle(step: Step)                              // at any time, inside a waiting pass as outside one
    | BeginPlace
    | BeginConfigure(settings: Settings)
    | BeginEndDrag
    | LoseCapture(around: Around)                     // a drag ends inside a pass: its placement is only recorded
    | FinishPass(full: int, again: bool, around: Around)  // `again`: a recorded request makes one more pass

  /** Steps that place the bar are the events below; the others may also come while a pass waits. */
  predicate Unplaced(step: Step) { !step.Place? && !step.Configure? && !step.EndDrag? }

  ghost predicate Possible(s: State, e: Event) {
    match e
    case Handle(step) => Unplaced(step) && Enabled(s.bar, step)
    case BeginPlace => s.pass.NoPass?
    case BeginConfigure(settings) => s.pass.NoPass? && settings != s.bar.settings
    case BeginEndDrag => s.pass.NoPass? && s.bar.dragging
    case LoseCapture(_) => s.pass.InPass? && s.bar.dragging
    case FinishPass(full, _, _) => s.pass.InPass? && full >= 1
  }

  function Ended(s: State, full: int, again: bool, around: Around): (r: State)
    requires s.pass.InPass?
  {
    var bar := Resized(s.bar, full);
    if again then s.(bar := Settled(bar))
    else State(if s.pass.evaluates then Evaluated(bar, around) else bar, NoPass)
  }

  function After(s: State, e: Event): (r: State)
    requires e.FinishPass? ==> s.pass.InPass?
  {
    match e
    case Handle(step) => s.(bar := Next(s.bar, step))
    case BeginPlace => State(Settled(s.bar), InPass(false))
    case BeginConfigure(settings) => State(Settled(Switched(s.bar, settings)), InPass(settings.mode.Autohide?))
    case BeginEndDrag => State(Settled(s.bar.(dragging := false)), InPass(true))
    case LoseCapture(around) => s.(bar := Evaluated(s.bar.(dragging := false), around))
    case FinishPass(full, again, around) => Ended(s, full, again, around)
  }

  // ---------------------------------------------------------------------------------------------------------------
  // The invariant

  ghost predicate WindowSettled(b: BarState) { b.sliding || b.window == b.Target() }

  /** What holds of the bar even while a pass waits. */
  ghost predicate BarOk(b: BarState) {
    b.full >= 1 && TimerFollows(b) &&
    (b.settings.mode.Fixed? ==> b.state.Revealed? && !b.sliding && !b.pinnedByAction) &&
    (b.dragging ==> b.state.Revealed? && !b.sliding)
  }

  ghost predicate StateOk(s: State) { BarOk(s.bar) && (s.pass.NoPass? ==> WindowSettled(s.bar)) }

  /** ApplyDockRevealState keeps a settled window settled, and a window it moves without a slide is settled. */
  lemma AppliedSettles(b: BarState, state: Reveal, frames: bool)
    requires b.full >= 1 && b.settings.mode.Autohide? && (TimerFollows(b) || state != b.state)
    ensures var b' := Applied(b, state, frames);
            b'.full == b.full && b'.state == state && b'.settings == b.settings && b'.dragging == b.dragging &&
            b'.pinnedByAction == b.pinnedByAction && TimerFollows(b') && (WindowSettled(b) ==> WindowSettled(b'))
    ensures ShowsStrip(state) == ShowsStrip(b.state) ==> Applied(b, state, frames).sliding == b.sliding
  {
  }

  lemma EvaluatedOk(b: BarState, around: Around)
    requires BarOk(b.(dragging := false)) && (b.dragging ==> !b.sliding && !ShowsStrip(b.state))
    ensures BarOk(Evaluated(b, around)) && (WindowSettled(b) ==> WindowSettled(Evaluated(b, around)))
  {
    if b.settings.mode.Autohide? {
      var b' := b.(pinnedByAction := b.pinnedByAction && !CurrentHolds(b, around).AnyOther());
      var next := NextReveal(b.state, HoldsChanged, CurrentHolds(b', around), b.settings.revealDelay,
                             b.settings.hideDelay);
      AppliedSettles(b', next, around.frames);
    }
  }

  lemma HandledOk(b: BarState, event: RevealEvent, around: Around)
    requires BarOk(b)
    ensures BarOk(Handled(b, event, around)) && (WindowSettled(b) ==> WindowSettled(Handled(b, event, around)))
  {
    if b.settings.mode.Autohide? {
      var b' := b.(pinnedByAction := ActionPinned(b, event, around));
      var next := NextReveal(b.state, event, CurrentHolds(b', around), b.settings.revealDelay, b.settings.hideDelay);
      AppliedSettles(b', next, around.frames);
    }
  }

  lemma TimerOk(b: BarState, around: Around)
    requires BarOk(b)
    ensures BarOk(TimerHandled(b, around)) && (WindowSettled(b) ==> WindowSettled(TimerHandled(b, around)))
  {
    if b.settings.mode.Autohide? {
      var event := if b.state.RevealPending? then DwellElapsed else HideElapsed;
      var killed := b.(timer := None);
      var next := NextReveal(b.state, event, CurrentHolds(killed, around), b.settings.revealDelay,
                             b.settings.hideDelay);
      AppliedSettles(killed, next, around.frames);
    }
  }

  lemma SettledOk(b: BarState)
    requires b.full >= 1
    ensures Settled(b) == b.(sliding := false, window := Settled(b).window, visible := Settled(b).visible)
    ensures WindowSettled(b) ==> WindowSettled(Settled(b))
  {
  }

  lemma HandleOk(b: BarState, step: Step)
    requires BarOk(b) && Unplaced(step) && Enabled(b, step)
    ensures BarOk(Next(b, step)) && (WindowSettled(b) ==> WindowSettled(Next(b, step)))
  {
    match step
    case React(event, around) => HandledOk(b, event, around);
    case Evaluate(around) => EvaluatedOk(b, around);
    case Timer(around) => TimerOk(b, around);
    case Settle => SettledOk(b);
    case BeginDrag(around) =>
      if !b.dragging {
        SettledOk(b);
        EvaluatedOk(Settled(b).(dragging := true), around);
      }
    case _ =>
  }

  lemma EndedOk(s: State, full: int, again: bool, around: Around)
    requires StateOk(s) && s.pass.InPass? && full >= 1
    ensures StateOk(Ended(s, full, again, around))
  {
    var bar := Resized(s.bar, full);
    SettledOk(bar);
    EvaluatedOk(bar, around);
  }

  lemma StepOk(s: State, e: Event)
    requires StateOk(s) && Possible(s, e)
    ensures StateOk(After(s, e))
  {
    match e
    case Handle(step) => HandleOk(s.bar, step);
    case BeginPlace => SettledOk(s.bar);
    case BeginConfigure(settings) => SettledOk(Switched(s.bar, settings));
    case BeginEndDrag => SettledOk(s.bar.(dragging := false));
    case LoseCapture(around) => EvaluatedOk(s.bar.(dragging := false), around);
    case FinishPass(full, again, around) => EndedOk(s, full, again, around);
  }

  ghost predicate IsRunOf(s: State, es: seq<Event>, s': State)
    decreases |es|
  {
    if es == [] then s' == s else Possible(s, es[0]) && IsRunOf(After(s, es[0]), es[1..], s')
  }

  lemma {:induction false} RunOk(s: State, es: seq<Event>, s': State)
    requires StateOk(s) && IsRunOf(s, es, s')
    ensures StateOk(s')
    decreases |es|
  {
    if es != [] {
      StepOk(s, es[0]);
      RunOk(After(s, es[0]), es[1..], s');
    }
  }

  /** Whatever comes while placements wait: after every event the timer is armed exactly in the two pending states, and
      whenever neither a slide runs nor a pass waits, the window is the clamped peek strip of a hidden bar and the full
      bar otherwise. */
  lemma TimerAndWindowFollowThroughWaits(settings: Settings, full: int, es: seq<Event>, s: State)
    requires full >= 1
    requires IsRunOf(State(BarState(settings, Revealed, None, false, 0, 0, full, full, false, false), NoPass), es, s)
    ensures s.bar.full >= 1
    ensures s.bar.timer.Some? <==> s.bar.state.HidePending? || s.bar.state.RevealPending?
    ensures !s.bar.sliding && s.pass.NoPass? ==>
              s.bar.window == if s.bar.HiddenOrHiding() then Clamped(s.bar.settings.peek, 1, s.bar.full) else s.bar.full
  {
    RunOk(State(BarState(settings, Revealed, None, false, 0, 0, full, full, false, false), NoPass), es, s);
  }

  /** A pass in which nothing happens is the placement of the other results. */
  lemma QuietPassPlaces(s: State, full: int, around: Around)
    requires s.pass.NoPass? && full >= 1
    ensures After(After(s, BeginPlace), FinishPass(full, false, around)) == s.(bar := PlacedAt(s.bar, full))
  {
  }

  /** A slide that an event starts while a pass waits is not lost: once it ends, after the pass, the window is what the
      reveal state asks of the bar just placed. */
  lemma SlideOutlivesPass(s: State, full: int, around: Around)
    requires StateOk(s) && s.pass == InPass(false) && s.bar.sliding && full >= 1
    ensures var s' := After(s, FinishPass(full, false, around));
            s'.bar.sliding && Ticked(s'.bar, None).window == s'.bar.Target() && s'.bar.state == s.bar.state
  {
  }
}
