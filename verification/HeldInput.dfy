// RedXe/HostActions.cpp: the held-input engine. `Host` is the value of its globals together with the desktop it drives;
// every operation is a function from a host and the answers of the system (clock readings, how many batches SendInput
// takes) to the next host. HostActions.dfy holds the statements that compute these functions.
module HeldInput {
  import opened Basics
  import opened InputRecords

  const HELD_RELEASE_MILLISECONDS: nat := 2000
  const RETRY_MILLISECONDS: nat := 250
  const MAXIMUM_RELEASE_ATTEMPTS: nat := 40

  datatype Hold = Hold(due: nat, failedReleases: nat, held: bool, deviceAccess: bool, expired: bool)

  const NO_HOLD := Hold(0, 0, false, false, false)

  /** What has become of the holds of one kind so far; `failures` counts the refused releases of the last one. */
  datatype Ledger = Ledger(begun: nat, released: nat, abandoned: nat, failures: nat)

  datatype Timer = Timer(armedAt: nat, fireAt: nat)

  datatype Host = Host(
    window: bool,
    timer: Option<Timer>,
    chord: Hold,
    heldChord: KeyChord,
    mouse: Hold,
    heldButton: Input,
    injected: nat,              // records counted as injected, sent or not
    down: set<Input>,           // the desktop: keys and buttons RedXe has left down
    chords: Ledger,             // history
    buttons: Ledger,            // history
    leaked: set<Input>,         // history: inputs an abandoned hold or an interrupted injection may have left down
    taken: seq<Record>)         // history: every record the desktop has taken

  /** One release attempt: the batches SendInput takes, and the clock when a refusal is rescheduled. */
  datatype Attempt = Attempt(batches: nat, now: nat)

  /** The answers of the system during one Execute. */
  datatype Answers = Answers(
    expireNow: nat, chordExpiry: Attempt, mouseExpiry: Attempt, expireArm: nat,
    release: Attempt, batches: nat -> nat, begin: nat, arm: nat)

  datatype Action =
    | Press(chords: seq<KeyChord>)
    | Type(units: seq<nat>)
    | Tap(virtualKey: nat, extended: bool)
    | Click(button: Input, clicks: nat)
    | HoldChord(chord: KeyChord, release: bool)
    | HoldButton(button: Input, release: bool)
    | Inert       // an action that injects nothing that is pressed, or whose target does not parse

  const NO_LEDGER := Ledger(0, 0, 0, 0)
  const NO_CHORD := KeyChord(false, false, false, false, 0, false)

  function Initial(): (r: Host) {
    Host(false, None, NO_HOLD, NO_CHORD, NO_HOLD, Button(0, 0), 0, {}, NO_LEDGER, NO_LEDGER, {}, [])
  }

  // ---------------------------------------------------------------------------------------------------------------
  // Injection

  /** Inject: the records that reached the desktop, and whether all of them did. */
  function Injected(h: Host, records: seq<Record>, deviceAccess: bool, batches: nat): (r: (Host, bool)) {
    var counted := h.(injected := h.injected + |records|);
    if !deviceAccess then (counted, true) else
    var n := Taken(|records|, batches);
    (counted.(down := Apply(h.down, records[..n]), taken := h.taken + records[..n]), n == |records|)
  }

  // ---------------------------------------------------------------------------------------------------------------
  // Holds and their timer

  function EarliestDue(h: Host): (due: nat)
    requires h.chord.held || h.mouse.held
  {
    if !h.mouse.held || (h.chord.held && h.chord.due <= h.mouse.due) then h.chord.due else h.mouse.due
  }

  function Armed(h: Host, now: nat): (r: Host) {
    if !h.window then h
    else if !h.chord.held && !h.mouse.held then h.(timer := None)
    else
      var due := EarliestDue(h);
      h.(timer := Some(Timer(now, now + if due > now then due - now else 1)))
  }

  function Begun(now: nat, deviceAccess: bool): (r: Hold) {
    Hold(now + HELD_RELEASE_MILLISECONDS, 0, true, deviceAccess, false)
  }

  predicate Retries(hold: Hold, sent: bool, retry: bool) {
    !sent && retry && hold.failedReleases + 1 < MAXIMUM_RELEASE_ATTEMPTS
  }

  function Settled(hold: Hold, sent: bool, expired: bool, retry: bool, now: nat): (r: Hold) {
    if Retries(hold, sent, retry) then hold.(failedReleases := hold.failedReleases + 1, due := now + RETRY_MILLISECONDS)
    else hold.(held := false, expired := expired && sent, failedReleases := 0)
  }

  function Recorded(ledger: Ledger, hold: Hold, sent: bool, retry: bool): (r: Ledger) {
    if Retries(hold, sent, retry) then ledger.(failures := ledger.failures + 1)
    else if sent then ledger.(released := ledger.released + 1)
    else ledger.(abandoned := ledger.abandoned + 1, failures := ledger.failures + 1)
  }

  function Left(hold: Hold, sent: bool, retry: bool, inputs: set<Input>): (r: set<Input>) {
    if !sent && !Retries(hold, sent, retry) && hold.deviceAccess then inputs else {}
  }

  /** ReleaseChord: Ok, or the refusal; False when no chord is held. */
  function ChordReleased(h: Host, expired: bool, retry: bool, a: Attempt): (r: (Host, HResult)) {
    if !h.chord.held then (h, False) else
    var (h', sent) := Injected(h, ChordRecords(h.heldChord, true), h.chord.deviceAccess, a.batches);
    (h'.(chord := Settled(h.chord, sent, expired, retry, a.now), chords := Recorded(h.chords, h.chord, sent, retry),
         leaked := h.leaked + Left(h.chord, sent, retry, ChordKeys(h.heldChord))),
     if sent then Ok else Failed(5))
  }

  function MouseReleased(h: Host, expired: bool, retry: bool, a: Attempt): (r: (Host, HResult)) {
    if !h.mouse.held then (h, False) else
    var (h', sent) := Injected(h, [Record(h.heldButton, true)], h.mouse.deviceAccess, a.batches);
    (h'.(mouse := Settled(h.mouse, sent, expired, retry, a.now), buttons := Recorded(h.buttons, h.mouse, sent, retry),
         leaked := h.leaked + Left(h.mouse, sent, retry, {h.heldButton})),
     if sent then Ok else Failed(5))
  }

  /** ExpireHeld: what is past its deadline or due for a retry is released, and the timer follows. */
  function Expired(h: Host, now: nat, chord: Attempt, mouse: Attempt, arm: nat): (r: Host) {
    var h1 := if h.chord.held && now >= h.chord.due then ChordReleased(h, true, true, chord).0 else h;
    var h2 := if h1.mouse.held && now >= h1.mouse.due then MouseReleased(h1, true, true, mouse).0 else h1;
    Armed(h2, arm)
  }

  // ---------------------------------------------------------------------------------------------------------------
  // Actions

  /** What an injection leaves down beyond what was down before is remembered, should it be interrupted. */
  function Sent(h: Host, records: seq<Record>, deviceAccess: bool, batches: nat): (r: (Host, bool)) {
    var (h', sent) := Injected(h, records, deviceAccess, batches);
    (h'.(leaked := h.leaked + (h'.down - h.down)), sent)
  }

  /** TypeText: one Inject for every full buffer and one for the rest, up to the first refusal. */
  function Typed(h: Host, units: seq<nat>, deviceAccess: bool, batches: nat -> nat, call: nat): (r: (Host, HResult))
    decreases |units|
  {
    if units == [] then (h, Ok) else
    var n := if |units| < BATCH_LIMIT / 2 then |units| else BATCH_LIMIT / 2;
    var (h', sent) := Sent(h, TypeRecords(units[..n]), deviceAccess, batches(call));
    if sent then Typed(h', units[n..], deviceAccess, batches, call + 1) else (h', Failed(5))
  }

  /** The press of a new hold, or the stand-alone release of a chord no hold records. */
  function ChordSent(h: Host, chord: KeyChord, release: bool, deviceAccess: bool, batches: nat,
                     begin: nat): (r: (Host, bool)) {
    var (h', sent) := Injected(h, ChordRecords(chord, release), deviceAccess, batches);
    if !sent || release then (h', sent) else
    (h'.(heldChord := chord, chord := Begun(begin, deviceAccess),
         chords := h'.chords.(begun := h'.chords.begun + 1, failures := 0)), true)
  }

  function ButtonSent(h: Host, button: Input, release: bool, deviceAccess: bool, batches: nat,
                      begin: nat): (r: (Host, bool)) {
    var (h', sent) := Injected(h, [Record(button, release)], deviceAccess, batches);
    if !sent || release then (h', sent) else
    (h'.(heldButton := button, mouse := Begun(begin, deviceAccess),
         buttons := h'.buttons.(begun := h'.buttons.begun + 1, failures := 0)), true)
  }

  function ChordHeld(h: Host, chord: KeyChord, release: bool, deviceAccess: bool, a: Answers): (r: (Host, HResult)) {
    var own := chord == h.heldChord;
    if release && h.chord.held && own then
      var (h', result) := ChordReleased(h, false, true, a.release);
      (Armed(h', a.arm), result)
    else if release && h.chord.expired && own then
      (h.(chord := h.chord.(expired := false)), False)
    else
      var (h1, released) := if !release then ChordReleased(h, false, true, a.release) else (h, Ok);
      if !released.Succeeded() then (Armed(h1, a.arm), released) else
      var (h2, sent) := ChordSent(h1, chord, release, deviceAccess, a.batches(0), a.begin);
      (Armed(h2, a.arm), if sent then Ok else Failed(5))
  }

  function ButtonHeld(h: Host, button: Input, release: bool, deviceAccess: bool, a: Answers): (r: (Host, HResult)) {
    var own := button == h.heldButton;
    if release && h.mouse.held && own then
      var (h', result) := MouseReleased(h, false, true, a.release);
      (Armed(h', a.arm), result)
    else if release && h.mouse.expired && own then
      (h.(mouse := h.mouse.(expired := false)), False)
    else
      var (h1, released) := if !release then MouseReleased(h, false, true, a.release) else (h, Ok);
      if !released.Succeeded() then (Armed(h1, a.arm), released) else
      var (h2, sent) := ButtonSent(h1, button, release, deviceAccess, a.batches(0), a.begin);
      (Armed(h2, a.arm), if sent then Ok else Failed(5))
  }

  function Performed(h: Host, action: Action, deviceAccess: bool, a: Answers): (r: (Host, HResult)) {
    match action
    case Press(chords) => Answered(Sent(h, PressRecords(chords), deviceAccess, a.batches(0)))
    case Type(units) => Typed(h, units, deviceAccess, a.batches, 0)
    case Tap(vk, extended) =>
      Answered(Sent(h, [Record(Key(vk, extended), false), Record(Key(vk, extended), true)], deviceAccess, a.batches(0)))
    case Click(button, clicks) => Answered(Sent(h, ClickRecords(button, clicks), deviceAccess, a.batches(0)))
    case HoldChord(chord, release) => ChordHeld(h, chord, release, deviceAccess, a)
    case HoldButton(button, release) => ButtonHeld(h, button, release, deviceAccess, a)
    case Inert => (h, InvalidArg)
  }

  function Answered(r: (Host, bool)): (result: (Host, HResult)) { (r.0, if r.1 then Ok else Failed(5)) }

  function Executed(h: Host, action: Action, deviceAccess: bool, a: Answers): (r: (Host, HResult)) {
    Performed(Expired(h, a.expireNow, a.chordExpiry, a.mouseExpiry, a.expireArm), action, deviceAccess, a)
  }

  /** SetHostWindow: a closing window makes the last release attempt. */
  function WindowSet(h: Host, window: bool, chord: Attempt, mouse: Attempt, arm: nat): (r: Host) {
    var h1 := if window then h else MouseReleased(ChordReleased(h, false, false, chord).0, false, false, mouse).0;
    Armed(h1.(timer := if h1.window then None else h1.timer, window := window), arm)
  }

  /** ReleaseHeld, at shutdown. */
  function AllReleased(h: Host, chord: Attempt, mouse: Attempt, arm: nat): (r: Host) {
    var h1 := MouseReleased(ChordReleased(h, false, false, chord).0, false, false, mouse).0;
    Armed(h1.(chord := NO_HOLD, mouse := NO_HOLD), arm)
  }

  /** ReleasesTrackedHold for a parsed keys.up or mouse.up. */
  predicate Tracks(h: Host, action: Action) {
    match action
    case HoldChord(chord, true) => (h.chord.held || h.chord.expired) && chord == h.heldChord
    case HoldButton(button, true) => (h.mouse.held || h.mouse.expired) && button == h.heldButton
    case _ => false
  }
}
