// The autohide bar: the reveal machine of RedXe/DockPlacement.h and the part of Application that follows it with a
// timer, a slide and the size of the window. Sizes are the bar's extent across its edge, in pixels.
module DockReveals {
  import opened Basics
  import opened DockGeometry
  import opened DockAppBars

  datatype Reveal = Revealed | HidePending | Hidden | RevealPending

  datatype RevealEvent =
    | PointerEnteredStrip
    | PointerLeft
    | DwellElapsed
    | HideElapsed
    | TouchOnStrip
    | ActionShow
    | ActionHide
    | ActionToggle
    | PageOrWidgetChange
    | HoldsChanged
    | Pin

  datatype Holds = Holds(pointerInside: bool, windowActive: bool, captureActive: bool, widgetRaised: bool,
                         dialogShown: bool, pinned: bool, pinnedByAction: bool, revealSliding: bool)
  {
    predicate AnyOther() {
      pointerInside || windowActive || captureActive || widgetRaised || dialogShown || pinned
    }
    predicate Any() { AnyOther() || pinnedByAction || revealSliding }
    predicate RefusesHide() { captureActive || widgetRaised || dialogShown || pinned }
  }

  datatype Settings = Settings(mode: Mode, peek: nat, revealDelay: nat, hideDelay: nat, animation: nat)

  /** What the rest of the application contributes when an event is handled: its holds, and whether frames are being
      presented so that a slide can run. */
  datatype Around = Around(pointerInside: bool, windowActive: bool, captureActive: bool, widgetRaised: bool,
                           dialogShown: bool, screenshot: bool, frames: bool)
  {
    predicate RefusesHide() { captureActive || widgetRaised || dialogShown || screenshot }
    predicate Free() { !RefusesHide() && !pointerInside && !windowActive }
  }

  /** The placed bar: `window` is the size the window has, `visible` the one last asked for, `timer` the armed delay. */
  datatype BarState = BarState(settings: Settings, state: Reveal, timer: Option<nat>, sliding: bool, slideFrom: int,
                               visible: int, window: int, full: int, pinnedByAction: bool, dragging: bool)
  {
    predicate HiddenOrHiding() { settings.mode.Autohide? && ShowsStrip(state) }
    predicate IsHidden() { HiddenOrHiding() && !sliding }
    function Peek(): (r: int) { Clamped(settings.peek, 1, AtLeastOne(full)) }

    // The size the reveal state asks for.
    function Target(): (r: int) { if HiddenOrHiding() then Peek() else full }
  }

  predicate ShowsStrip(state: Reveal) { state.Hidden? || state.RevealPending? }

  predicate Pending(state: Reveal) { state.HidePending? || state.RevealPending? }

  function NextReveal(current: Reveal, event: RevealEvent, holds: Holds, revealDelay: nat,
                      hideDelay: nat): (r: Reveal) {
    var hideTarget := if hideDelay == 0 then Hidden else HidePending;
    var revealTarget := if revealDelay == 0 then Revealed else RevealPending;
    match event
    case Pin => Revealed
    case PointerEnteredStrip => if current.Hidden? then revealTarget else current
    case DwellElapsed => if current.RevealPending? then Revealed else current
    case PointerLeft => if current.RevealPending? then Hidden else current
    case TouchOnStrip => Revealed
    case ActionShow => Revealed
    case PageOrWidgetChange => Revealed
    case ActionHide => if !ShowsStrip(current) && holds.RefusesHide() then current else Hidden
    case ActionToggle =>
      if ShowsStrip(current) then Revealed else if holds.RefusesHide() then current else Hidden
    case HideElapsed => if current.HidePending? then Hidden else current
    case HoldsChanged =>
      if current.Revealed? then (if holds.Any() then current else hideTarget)
      else if current.HidePending? then (if holds.Any() then Revealed else current)
      else current
  }

  function CurrentHolds(b: BarState, around: Around): (r: Holds) {
    Holds(around.pointerInside, around.windowActive, around.captureActive || b.dragging, around.widgetRaised,
          around.dialogShown, around.screenshot, b.pinnedByAction, b.sliding && !b.HiddenOrHiding())
  }

  // ---------------------------------------------------------------------------------------------------------------
  // The slide

  function Distance(a: int, b: int): (r: nat) { if a > b then a - b else b - a }

  function SlideDuration(animation: nat, from: int, to: int, peek: int, full: int): (ms: nat) {
    var travel := full - peek;
    var distance := if Distance(from, to) < travel then Distance(from, to) else travel;
    if animation == 0 || travel <= 0 || distance <= 0 then 0
    else AtLeastOne((animation * distance + travel / 2) / travel)
  }

  /** SetDockVisiblePixels: a slide does not place the window again at the size it has. */
  function Shown(b: BarState, px: int): (r: BarState) {
    if b.full <= 0 then b else
    var visible := Clamped(px, 1, b.full);
    b.(window := if !b.sliding || visible != b.visible then visible else b.window, visible := visible)
  }

  function Settled(b: BarState): (r: BarState) {
    if !b.sliding then b else Shown(b.(sliding := false), b.(sliding := false).Target())
  }

  /** TickDockSlide: the size of this frame, or None when the slide's time is over. */
  function Ticked(b: BarState, progress: Option<int>): (r: BarState) {
    if !b.sliding then b else if progress.None? then Settled(b) else Shown(b, progress.value)
  }

  // ---------------------------------------------------------------------------------------------------------------
  // Following the reveal state

  function DelayFor(b: BarState, state: Reveal): (r: Option<nat>) {
    if state.RevealPending? then Some(AtLeastOne(b.settings.revealDelay))
    else if state.HidePending? then Some(AtLeastOne(b.settings.hideDelay))
    else None
  }

  function Moved(b: BarState, wasStrip: bool, frames: bool): (r: BarState) {
    var toStrip := ShowsStrip(b.state);
    var target := if toStrip then b.Peek() else b.full;
    var from := if b.sliding then b.visible else if wasStrip then b.Peek() else b.full;
    if SlideDuration(b.settings.animation, from, target, b.Peek(), b.full) == 0 || !frames then
      Shown(b.(sliding := false), target)
    else
      Shown(b.(sliding := true, slideFrom := from), from)
  }

  /** ApplyDockRevealState. */
  function Applied(b: BarState, state: Reveal, frames: bool): (r: BarState) {
    if state == b.state then b else
    var next := b.(timer := DelayFor(b, state), state := state);
    if ShowsStrip(state) == ShowsStrip(b.state) then next else Moved(next, ShowsStrip(b.state), frames)
  }

  predicate ActionPinned(b: BarState, event: RevealEvent, around: Around) {
    if event.ActionShow? || (event.ActionToggle? && ShowsStrip(b.state)) then !CurrentHolds(b, around).AnyOther()
    else if event.ActionHide? || event.ActionToggle? then false
    else b.pinnedByAction
  }

  /** OnDockEvent. */
  function Handled(b: BarState, event: RevealEvent, around: Around): (r: BarState) {
    if b.settings.mode.Fixed? then b else
    var pinned := b.(pinnedByAction := ActionPinned(b, event, around));
    Applied(pinned,
            NextReveal(b.state, event, CurrentHolds(pinned, around), b.settings.revealDelay, b.settings.hideDelay),
            around.frames)
  }

  /** EvaluateDockHolds. */
  function Evaluated(b: BarState, around: Around): (r: BarState) {
    if b.settings.mode.Fixed? then b else
    var b' := b.(pinnedByAction := b.pinnedByAction && !CurrentHolds(b, around).AnyOther());
    Applied(b',
            NextReveal(b.state, HoldsChanged, CurrentHolds(b', around), b.settings.revealDelay, b.settings.hideDelay),
            around.frames)
  }

  /** WM_TIMER for the dock timer. */
  function TimerHandled(b: BarState, around: Around): (r: BarState) {
    Handled(b.(timer := None), if b.state.RevealPending? then DwellElapsed else HideElapsed, around)
  }

  /** The end of a placement pass: the bar's new extent, and the window sized to it as the reveal state asks. */
  function Resized(b: BarState, full: int): (r: BarState) {
    var moved := b.(full := full);
    moved.(window := if moved.IsHidden() then moved.Peek() else full)
  }

  /** A whole placement pass in which nothing else happens: the slide is settled first. */
  function PlacedAt(b: BarState, full: int): (r: BarState) { Resized(Settled(b), full) }

  /** What ApplyDockSettings does before it places the bar. */
  function Switched(b: BarState, next: Settings): (r: BarState) {
    var switched := b.(settings := next);
    if b.settings.mode != next.mode && next.mode.Fixed?
    then switched.(timer := None, state := Revealed, pinnedByAction := false) else switched
  }

  /** ApplyDockSettings for a dock that stays a dock, the placement it makes coming out at `full`. */
  function Configured(b: BarState, next: Settings, full: int, around: Around): (r: BarState) {
    if next == b.settings then b else
    var placed := PlacedAt(Switched(b, next), full);
    if next.mode.Autohide? then Evaluated(placed, around) else placed
  }

  function DragBegun(b: BarState, around: Around): (r: BarState) {
    if b.dragging then b else Evaluated(Settled(b).(dragging := true), around)
  }

  function Dragged(b: BarState, full: int): (r: BarState) {
    if b.dragging then b.(full := full, window := full) else b
  }

  function DragEnded(b: BarState, full: int, around: Around): (r: BarState) {
    if b.dragging then Evaluated(PlacedAt(b.(dragging := false), full), around) else b
  }

  // ---------------------------------------------------------------------------------------------------------------
  // The code that updates it in place

  class Dock {
    var settings: Settings
    var state: Reveal
    var timerArmed: bool
    var timerDelay: nat
    var sliding: bool
    var slideFrom: int
    var visible: int
    var window: int
    var full: int
    var pinnedByAction: bool
    var dragging: bool

    function Value(): (r: BarState)
      reads this
    {
      BarState(settings, state, if timerArmed then Some(timerDelay) else None, sliding, slideFrom, visible, window,
               full,
               pinnedByAction, dragging)
    }

    constructor (settings: Settings, full: int)
      ensures Value() == BarState(settings, Revealed, None, false, 0, 0, full, full, false, false)
    {
      this.settings, state, timerArmed, timerDelay := settings, Revealed, false, 0;
      sliding, slideFrom, visible, window, this.full := false, 0, 0, full, full;
      pinnedByAction, dragging := false, false;
    }

    method ArmTimer(delay: nat)
      modifies this`timerArmed, this`timerDelay
      ensures timerArmed && timerDelay == AtLeastOne(delay)
    {
      timerDelay := AtLeastOne(delay);
      timerArmed := true;
    }

    method KillTimer()
      modifies this`timerArmed
      ensures !timerArmed
    {
      timerArmed := false;
    }

    method SetVisiblePixels(px: int)
      modifies this`window, this`visible
      ensures Value() == Shown(old(Value()), px)
    {
      if full <= 0 {
        return;
      }
      var clamped := Clamped(px, 1, full);
      if !sliding || clamped != visible {
        window := clamped;
      }
      visible := clamped;
    }

    method SettleSlide()
      modifies this`sliding, this`window, this`visible
      ensures Value() == Settled(old(Value()))
    {
      if !sliding {
        return;
      }
      sliding := false;
      SetVisiblePixels(Value().Target());
    }

    method TickSlide(progress: Option<int>)
      modifies this`sliding, this`window, this`visible
      ensures Value() == Ticked(old(Value()), progress)
    {
      if !sliding {
        return;
      }
      match progress {
        case Some(px) => SetVisiblePixels(px);
        case None => SettleSlide();
      }
    }

    method ApplyRevealState(next: Reveal, frames: bool)
      modifies this
      ensures Value() == Applied(old(Value()), next, frames)
    {
      if next == state {
        return;
      }
      var wasStrip := ShowsStrip(state);
      KillTimer();
      state := next;
      if next.RevealPending? {
        ArmTimer(settings.revealDelay);
      } else if next.HidePending? {
        ArmTimer(settings.hideDelay);
      }
      var toStrip := ShowsStrip(next);
      if toStrip == wasStrip {
        return;
      }
      var peek := Value().Peek();
      var target := if toStrip then peek else full;
      var from := if sliding then visible else if wasStrip then peek else full;
      var duration := SlideDuration(settings.animation, from, target, peek, full);
      if duration == 0 || !frames {
        sliding := false;
        SetVisiblePixels(target);
        return;
      }
      sliding := true;
      slideFrom := from;
      SetVisiblePixels(from);
    }

    method OnEvent(event: RevealEvent, around: Around)
      modifies this
      ensures Value() == Handled(old(Value()), event, around)
    {
      if settings.mode.Fixed? {
        return;
      }
      if event.ActionShow? || (event.ActionToggle? && ShowsStrip(state)) {
        pinnedByAction := !CurrentHolds(Value(), around).AnyOther();
      } else if event.ActionHide? || event.ActionToggle? {
        pinnedByAction := false;
      }
      var holds := CurrentHolds(Value(), around);
      var next := NextReveal(state, event, holds, settings.revealDelay, settings.hideDelay);
      ApplyRevealState(next, around.frames);
    }

    method EvaluateHolds(around: Around)
      modifies this
      ensures Value() == Evaluated(old(Value()), around)
    {
      if settings.mode.Fixed? {
        return;
      }
      var holds := CurrentHolds(Value(), around);
      if pinnedByAction && holds.AnyOther() {
        pinnedByAction := false;
        holds := holds.(pinnedByAction := false);
      }
      var next := NextReveal(state, HoldsChanged, holds, settings.revealDelay, settings.hideDelay);
      ApplyRevealState(next, around.frames);
    }

    method OnTimer(around: Around)
      modifies this
      ensures Value() == TimerHandled(old(Value()), around)
    {
      KillTimer();
      OnEvent(if state.RevealPending? then DwellElapsed else HideElapsed, around);
    }

    /** The end of a placement pass. */
    method FinishPass(placed: int)
      modifies this`full, this`window
      ensures Value() == Resized(old(Value()), placed)
    {
      full := placed;
      window := if Value().IsHidden() then Value().Peek() else full;
    }

    method Place(placed: int)
      modifies this
      ensures Value() == PlacedAt(old(Value()), placed)
    {
      SettleSlide();
      FinishPass(placed);
    }

    method ApplySettings(next: Settings, placed: int, around: Around)
      modifies this
      ensures Value() == Configured(old(Value()), next, placed, around)
    {
      if next == settings {
        return;
      }
      var previous := settings.mode;
      settings := next;
      if previous != settings.mode && settings.mode.Fixed? {
        KillTimer();
        state := Revealed;
        pinnedByAction := false;
      }
      Place(placed);
      if settings.mode.Autohide? {
        EvaluateHolds(around);
      }
    }

    method BeginResize(around: Around)
      modifies this
      ensures Value() == DragBegun(old(Value()), around)
    {
      if dragging {
        return;
      }
      SettleSlide();
      dragging := true;
      EvaluateHolds(around);
    }

    method UpdateResize(preview: int)
      modifies this`full, this`window
      ensures Value() == Dragged(old(Value()), preview)
    {
      if !dragging {
        return;
      }
      full := preview;
      window := full;
    }

    method EndResize(placed: int, around: Around)
      modifies this
      ensures Value() == DragEnded(old(Value()), placed, around)
    {
      if !dragging {
        return;
      }
      dragging := false;
      Place(placed);
      EvaluateHolds(around);
    }
  }
}
