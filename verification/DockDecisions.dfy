// What each handler of the autohide bar decides, with the holds and the delays spelled out: evaluations, actions,
// settings reloads and thickness drags.
module DockDecisions {
  import opened Basics
  import opened DockGeometry
  import opened DockAppBars
  import opened DockReveals
  import opened DockRevealGuarantees

  /** Something other than the reveal itself keeps the bar out. */
  predicate Holding(around: Around) {
    around.pointerInside || around.windowActive || around.captureActive || around.widgetRaised || around.dialogShown ||
    around.screenshot
  }

  /** The bar is out and neither held nor pinned: it starts the hide delay, or without a delay hides at once. */
  ghost predicate LetGo(b: BarState, b': BarState) {
    if b.settings.hideDelay > 0 then
      b'.state == HidePending && b'.timer == Some(b.settings.hideDelay) && b'.window == b.full && !b'.sliding
    else b'.state == Hidden && b'.timer == None && Settled(b').window == b.Peek()
  }

  /** An evaluation leaves a hidden bar hidden. A bar that is out stays or comes back when something holds it, which
      ends an action's pin, and when it is pinned or still sliding out; else it is let go, or goes on counting down. */
  lemma EvaluationSpelled(b: BarState, around: Around)
    requires Inv(b) && b.settings.mode.Autohide?
    ensures var b' := Evaluated(b, around);
            var held := Holding(around) || b.dragging;
            b'.settings == b.settings && b'.full == b.full && b'.dragging == b.dragging &&
            (b'.pinnedByAction <==> b.pinnedByAction && !held) &&
            if ShowsStrip(b.state) then b'.state == b.state && b'.timer == b.timer
            else if held || b.pinnedByAction || b.sliding then b'.state == Revealed && b'.timer == None
            else if b.state == HidePending then b' == b
            else LetGo(b, b')
  {
    EvaluatedKeepsInv(b, around);
    SettledFollows(Evaluated(b, around));
  }

  /** A reload that keeps the settings does nothing; one to a fixed bar reveals it for good; one to an autohide bar
      places it and then decides by what holds it. */
  lemma ReloadDecides(b: BarState, next: Settings, full: int, around: Around)
    requires Inv(b) && full >= 1
    ensures next == b.settings ==> Configured(b, next, full, around) == b
    ensures var b' := Configured(b, next, full, around);
            next != b.settings ==>
              b'.settings == next && b'.full == full &&
              if next.mode.Fixed? then
                b'.state == Revealed && b'.timer == None && !b'.pinnedByAction && b'.window == full
              else if ShowsStrip(b.state) then
                b'.state == b.state && b'.window == Clamped(next.peek, 1, full)
              else if Holding(around) || b.dragging then
                b'.state == Revealed && b'.timer == None && b'.window == full && !b'.pinnedByAction
              else if b.pinnedByAction then
                b'.state == Revealed && b'.timer == None && b'.window == full && b'.pinnedByAction
              else if b.state == HidePending then
                b'.state == HidePending && b'.timer == b.timer && b'.window == full
              else if next.hideDelay > 0 then
                b'.state == HidePending && b'.timer == Some(next.hideDelay) && b'.window == full
              else
                b'.state == Hidden && b'.timer == None && Settled(b').window == Clamped(next.peek, 1, full)
  {
    if next != b.settings {
      var placed := PlacedAt(Switched(b, next), full);
      PlacedKeepsInv(Switched(b, next), full);
      if next.mode.Autohide? {
        EvaluationSpelled(placed, around);
        EvaluatedKeepsInv(placed, around);
      }
    }
  }

  /** The end of a drag places the bar and decides the same way. */
  lemma DragEndDecides(b: BarState, full: int, around: Around)
    requires Inv(b) && b.dragging && full >= 1
    ensures var b' := DragEnded(b, full, around);
            !b'.dragging && b'.settings == b.settings && b'.full == full &&
            if b.settings.mode.Fixed? || Holding(around) || b.pinnedByAction then
              b'.state == Revealed && b'.timer == None && b'.window == full
            else if b.settings.hideDelay > 0 then
              b'.state == HidePending && b'.timer == Some(b.settings.hideDelay) && b'.window == full
            else
              b'.state == Hidden && b'.timer == None && Settled(b').window == Clamped(b.settings.peek, 1, full)
  {
    var placed := PlacedAt(b.(dragging := false), full);
    PlacedKeepsInv(b.(dragging := false), full);
    if b.settings.mode.Autohide? {
      EvaluationSpelled(placed, around);
    }
  }

  /** The start of a drag ends a slide and a countdown and keeps the bar out. */
  lemma DragBeginHolds(b: BarState, around: Around)
    requires Inv(b) && !b.dragging && !b.HiddenOrHiding()
    ensures var b' := DragBegun(b, around);
            b'.dragging && b'.state == Revealed && b'.timer == None && b'.window == b.full && !b'.sliding &&
            !b'.pinnedByAction
  {
    SettledFollows(b);
    EvaluatedKeepsInv(Settled(b).(dragging := true), around);
  }

  /** A drag shows the bar at the size dragged to, without touching what keeps it out. */
  lemma DragShows(b: BarState, full: int)
    requires Inv(b) && b.dragging && full >= 1
    ensures Dragged(b, full) == b.(full := full, window := full)
  {
  }

  /** An action that shows the bar pins it exactly when nothing else holds it; one that hides it takes the pin away, and
      hides it exactly when no capture, drag, raise, dialog or screenshot refuses. No other event touches the pin. */
  lemma ActionsSpelled(b: BarState, event: RevealEvent, around: Around)
    requires Inv(b) && b.settings.mode.Autohide?
    ensures var b' := Handled(b, event, around);
            var shows := event == ActionShow || (event == ActionToggle && ShowsStrip(b.state));
            var hides := event == ActionHide || (event == ActionToggle && !ShowsStrip(b.state));
            (shows ==> b'.state == Revealed && (b'.pinnedByAction <==> !Holding(around) && !b.dragging)) &&
            (hides ==> !b'.pinnedByAction) &&
            (hides && ShowsStrip(b.state) ==> b'.state == Hidden) &&
            (hides && !ShowsStrip(b.state) ==>
              b'.state == if around.captureActive || b.dragging || around.widgetRaised || around.dialogShown ||
                             around.screenshot
                          then b.state else Hidden) &&
            (event != ActionShow && event != ActionHide && event != ActionToggle ==>
              b'.pinnedByAction == b.pinnedByAction)
  {
  }

  /** The two delays end where they lead, and the pointer's leaving ends the dwell. */
  lemma DelaysSpelled(b: BarState, around: Around)
    requires Inv(b) && b.settings.mode.Autohide?
    ensures var b' := TimerHandled(b, around);
            b'.timer == None && b'.state == match b.state
                                            case RevealPending => Revealed
                                            case HidePending => Hidden
                                            case other => other
    ensures b.state == Hidden ==>
              var b' := Handled(b, PointerEnteredStrip, around);
              if b.settings.revealDelay > 0 then b'.state == RevealPending && b'.timer == Some(b.settings.revealDelay)
              else b'.state == Revealed && b'.timer == None
    ensures b.state == RevealPending ==>
              var b' := Handled(b, PointerLeft, around); b'.state == Hidden && b'.timer == None
  {
  }

  /** A reveal or hide slides exactly when frames are presented, an animation is set, and the window has some way to go;
      otherwise the window is at once where the state asks. */
  lemma SlidesExactly(b: BarState, state: Reveal, frames: bool)
    requires Inv(b) && b.settings.mode.Autohide? && ShowsStrip(state) != ShowsStrip(b.state)
    ensures var b' := Applied(b, state, frames);
            var target := if ShowsStrip(state) then b.Peek() else b.full;
            (b'.sliding <==> frames && b.settings.animation > 0 && b.window != target) &&
            (b'.sliding ==> b'.window == b.window) && (!b'.sliding ==> b'.window == target)
  {
    AppliedFollows(b, state, frames);
    var target := if ShowsStrip(state) then b.Peek() else b.full;
    if b.Peek() < b.full {
      SlideTakesItsShare(b.settings.animation, b.window, target, b.Peek(), b.full);
    }
  }

  /** A frame of a slide shows the bar at the frame's size, within the bar; the slide's end shows the size the reveal
      state asks for. */
  lemma FramesShow(b: BarState, px: int)
    requires Inv(b) && b.sliding
    ensures var b' := Ticked(b, Some(px));
            b'.sliding && b'.state == b.state && b'.timer == b.timer &&
            b'.window == if px < 1 then 1 else if px > b.full then b.full else px
    ensures var b' := Ticked(b, None); !b'.sliding && b'.window == b.Target() && b'.state == b.state
  {
  }
}
