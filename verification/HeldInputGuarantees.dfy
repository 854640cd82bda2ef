// What the held-input engine keeps over every run of its operations, whatever SendInput and the clock answer.
module HeldInputGuarantees {
  import opened Basics
  import opened InputRecords
  import opened HeldInput

  datatype Op =
    | Execute(action: Action, deviceAccess: bool, answers: Answers)
    | HeldTimer(now: nat, chord: Attempt, mouse: Attempt, arm: nat)
    | SetHostWindow(window: bool, chord: Attempt, mouse: Attempt, arm: nat)
    | ReleaseHeld(chord: Attempt, mouse: Attempt, arm: nat)

  function Next(h: Host, op: Op): (r: Host) {
    match op
    case Execute(action, deviceAccess, answers) => Executed(h, action, deviceAccess, answers).0
    case HeldTimer(now, chord, mouse, arm) => Expired(h, now, chord, mouse, arm)
    case SetHostWindow(window, chord, mouse, arm) => WindowSet(h, window, chord, mouse, arm)
    case ReleaseHeld(chord, mouse, arm) => AllReleased(h, chord, mouse, arm)
  }

  function Run(h: Host, ops: seq<Op>): (r: Host)
    decreases ops
  {
    if ops == [] then h else Run(Next(h, ops[0]), ops[1..])
  }

  // ---------------------------------------------------------------------------------------------------------------
  // The invariant

  /** Holds begun are released, abandoned or still held, and a hold is abandoned by its 40th refusal at the latest. */
  predicate LedgerOk(ledger: Ledger, hold: Hold) {
    && ledger.begun == ledger.released + ledger.abandoned + (if hold.held then 1 else 0)
    && ledger.failures <= MAXIMUM_RELEASE_ATTEMPTS
    && (hold.held ==> ledger.failures == hold.failedReleases < MAXIMUM_RELEASE_ATTEMPTS)
  }

  predicate AnythingHeld(h: Host) { h.chord.held || h.mouse.held }

  /** While there is a window, the timer runs exactly while something is held, for the earliest due time. */
  predicate TimerOk(h: Host) {
    if !h.window || !AnythingHeld(h) then h.timer.None?
    else
      h.timer.Some? &&
      var t := h.timer.value;
      t.fireAt == if EarliestDue(h) > t.armedAt then EarliestDue(h) else t.armedAt + 1
  }

  /** The inputs of the recorded chord and button, while their holds are tracked and really pressed. */
  function TrackedInputs(h: Host): (r: set<Input>) {
    (if h.chord.held && h.chord.deviceAccess then ChordKeys(h.heldChord) else {}) +
    (if h.mouse.held && h.mouse.deviceAccess then {h.heldButton} else {})
  }

  predicate DownOk(h: Host) { h.down <= TrackedInputs(h) + h.leaked }

  predicate HoldsOk(h: Host) { LedgerOk(h.chords, h.chord) && LedgerOk(h.buttons, h.mouse) && DownOk(h) }

  predicate Inv(h: Host) { HoldsOk(h) && TimerOk(h) }

  lemma ArmedTimerOk(h: Host, now: nat)
    requires h.window || h.timer.None?
    ensures TimerOk(Armed(h, now)) && Armed(h, now) == h.(timer := Armed(h, now).timer)
  {
  }

  lemma ArmingKeeps(h: Host, now: nat)
    requires HoldsOk(h) && (h.window || h.timer.None?)
    ensures Inv(Armed(h, now)) && Armed(h, now).leaked == h.leaked
  {
    ArmedTimerOk(h, now);
    assert TrackedInputs(Armed(h, now)) == TrackedInputs(h);
  }

  /** A batch of up to 32 records is sent whole or not at all. */
  lemma InjectSmall(h: Host, records: seq<Record>, deviceAccess: bool, batches: nat)
    requires |records| <= BATCH_LIMIT
    ensures var (h', sent) := Injected(h, records, deviceAccess, batches);
            h'.down == (if deviceAccess && sent then Apply(h.down, records) else h.down) &&
            h' == h.(injected := h.injected + |records|, down := h'.down, taken := h'.taken) &&
            (!deviceAccess ==> sent) && (batches >= 1 ==> sent)
  {
    if deviceAccess && Taken(|records|, batches) == |records| {
      assert records[..|records|] == records;
    }
  }

  lemma ChordReleaseKeeps(h: Host, expired: bool, retry: bool, a: Attempt)
    requires HoldsOk(h)
    ensures var (h', result) := ChordReleased(h, expired, retry, a);
            HoldsOk(h') &&
                h' == h.(injected := h'.injected, down := h'.down, taken := h'.taken, chord := h'.chord,
                         chords := h'.chords,
                                    leaked := h'.leaked) &&
            h'.down <= h.down && h.down - h'.down <= ChordKeys(h.heldChord) &&
            (result.Succeeded() || !retry ==> !h'.chord.held) &&
            (a.batches >= 1 ==> h'.leaked == h.leaked && !h'.chord.held)
  {
    if h.chord.held {
      InjectSmall(h, ChordRecords(h.heldChord, true), h.chord.deviceAccess, a.batches);
      ChordEffect(h.down, h.heldChord, true);
    }
  }

  lemma MouseReleaseKeeps(h: Host, expired: bool, retry: bool, a: Attempt)
    requires HoldsOk(h)
    ensures var (h', result) := MouseReleased(h, expired, retry, a);
            HoldsOk(h') &&
                h' == h.(injected := h'.injected, down := h'.down, taken := h'.taken, mouse := h'.mouse,
                         buttons := h'.buttons,
                                    leaked := h'.leaked) &&
            h'.down <= h.down && h.down - h'.down <= {h.heldButton} &&
            (result.Succeeded() || !retry ==> !h'.mouse.held) &&
            (a.batches >= 1 ==> h'.leaked == h.leaked && !h'.mouse.held)
  {
    if h.mouse.held {
      var records := [Record(h.heldButton, true)];
      InjectSmall(h, records, h.mouse.deviceAccess, a.batches);
      assert records[1..] == [];
      assert Apply(h.down, records) == Step(h.down, records[0]);
    }
  }

  lemma ExpiryKeeps(h: Host, now: nat, chord: Attempt, mouse: Attempt, arm: nat)
    requires Inv(h)
    ensures Inv(Expired(h, now, chord, mouse, arm))
    ensures chord.batches >= 1 && mouse.batches >= 1 ==> Expired(h, now, chord, mouse, arm).leaked == h.leaked
  {
    ChordReleaseKeeps(h, true, true, chord);
    var h1 := if h.chord.held && now >= h.chord.due then ChordReleased(h, true, true, chord).0 else h;
    MouseReleaseKeeps(h1, true, true, mouse);
    var h2 := if h1.mouse.held && now >= h1.mouse.due then MouseReleased(h1, true, true, mouse).0 else h1;
    ArmedTimerOk(h2, arm);
  }

  lemma SentKeeps(h: Host, records: seq<Record>, deviceAccess: bool, batches: nat)
    requires Inv(h)
    ensures Inv(Sent(h, records, deviceAccess, batches).0)
    ensures Sent(h, records, deviceAccess, batches).0.down <= h.down ==>
              Sent(h, records, deviceAccess, batches).0.leaked == h.leaked
  {
  }

  lemma {:induction false} TypingKeeps(h: Host, units: seq<nat>, deviceAccess: bool, batches: nat -> nat, call: nat)
    requires Inv(h)
    ensures Inv(Typed(h, units, deviceAccess, batches, call).0)
    ensures Typed(h, units, deviceAccess, batches, call).0.leaked == h.leaked
    decreases |units|
  {
    if units != [] {
      var n := if |units| < BATCH_LIMIT / 2 then |units| else BATCH_LIMIT / 2;
      var h' := Sent(h, TypeRecords(units[..n]), deviceAccess, batches(call)).0;
      SentKeeps(h, TypeRecords(units[..n]), deviceAccess, batches(call));
      InjectSmall(h, TypeRecords(units[..n]), deviceAccess, batches(call));
      TypingLeavesNothing(h.down, units[..n]);
      TypingKeeps(h', units[n..], deviceAccess, batches, call + 1);
    }
  }

  lemma ChordSentKeeps(h: Host, chord: KeyChord, release: bool, deviceAccess: bool, batches: nat, begin: nat)
    requires HoldsOk(h) && (!release ==> !h.chord.held)
    ensures var h' := ChordSent(h, chord, release, deviceAccess, batches, begin).0;
            HoldsOk(h') && h'.leaked == h.leaked && h'.window == h.window && h'.timer == h.timer
  {
    InjectSmall(h, ChordRecords(chord, release), deviceAccess, batches);
    ChordEffect(h.down, chord, release);
  }

  lemma HoldChordKeeps(h: Host, chord: KeyChord, release: bool, deviceAccess: bool, a: Answers)
    requires Inv(h)
    ensures Inv(ChordHeld(h, chord, release, deviceAccess, a).0)
    ensures a.release.batches >= 1 ==> ChordHeld(h, chord, release, deviceAccess, a).0.leaked == h.leaked
  {
    ChordReleaseKeeps(h, false, true, a.release);
    var (h1, released) := if !release then ChordReleased(h, false, true, a.release) else (h, Ok);
    ArmingKeeps(h1, a.arm);
    if released.Succeeded() {
      ChordSentKeeps(h1, chord, release, deviceAccess, a.batches(0), a.begin);
      ArmingKeeps(ChordSent(h1, chord, release, deviceAccess, a.batches(0), a.begin).0, a.arm);
    }
  }

  lemma ButtonSentKeeps(h: Host, button: Input, release: bool, deviceAccess: bool, batches: nat, begin: nat)
    requires HoldsOk(h) && (!release ==> !h.mouse.held)
    ensures var h' := ButtonSent(h, button, release, deviceAccess, batches, begin).0;
            HoldsOk(h') && h'.leaked == h.leaked && h'.window == h.window && h'.timer == h.timer
  {
    var records := [Record(button, release)];
    InjectSmall(h, records, deviceAccess, batches);
    assert records[1..] == [];
    assert Apply(h.down, records) == Step(h.down, records[0]);
  }

  lemma HoldButtonKeeps(h: Host, button: Input, release: bool, deviceAccess: bool, a: Answers)
    requires Inv(h)
    ensures Inv(ButtonHeld(h, button, release, deviceAccess, a).0)
    ensures a.release.batches >= 1 ==> ButtonHeld(h, button, release, deviceAccess, a).0.leaked == h.leaked
  {
    MouseReleaseKeeps(h, false, true, a.release);
    var (h1, released) := if !release then MouseReleased(h, false, true, a.release) else (h, Ok);
    ArmingKeeps(h1, a.arm);
    if released.Succeeded() {
      ButtonSentKeeps(h1, button, release, deviceAccess, a.batches(0), a.begin);
      ArmingKeeps(ButtonSent(h1, button, release, deviceAccess, a.batches(0), a.begin).0, a.arm);
    }
  }

  lemma PerformKeeps(h: Host, action: Action, deviceAccess: bool, a: Answers)
    requires Inv(h)
    ensures Inv(Performed(h, action, deviceAccess, a).0)
  {
    match action
    case Press(chords) => SentKeeps(h, PressRecords(chords), deviceAccess, a.batches(0));
    case Type(units) => TypingKeeps(h, units, deviceAccess, a.batches, 0);
    case Tap(vk, extended) =>
      SentKeeps(h, [Record(Key(vk, extended), false), Record(Key(vk, extended), true)], deviceAccess, a.batches(0));
    case Click(button, clicks) => SentKeeps(h, ClickRecords(button, clicks), deviceAccess, a.batches(0));
    case HoldChord(chord, release) => HoldChordKeeps(h, chord, release, deviceAccess, a);
    case HoldButton(button, release) => HoldButtonKeeps(h, button, release, deviceAccess, a);
    case Inert =>
  }

  lemma WindowKeeps(h: Host, window: bool, chord: Attempt, mouse: Attempt, arm: nat)
    requires Inv(h)
    ensures Inv(WindowSet(h, window, chord, mouse, arm))
    ensures !window ==> !AnythingHeld(WindowSet(h, window, chord, mouse, arm))
    ensures chord.batches >= 1 && mouse.batches >= 1 ==> WindowSet(h, window, chord, mouse, arm).leaked == h.leaked
  {
    ChordReleaseKeeps(h, false, false, chord);
    MouseReleaseKeeps(ChordReleased(h, false, false, chord).0, false, false, mouse);
    var h1 := if window then h else MouseReleased(ChordReleased(h, false, false, chord).0, false, false, mouse).0;
    ArmedTimerOk(h1.(timer := if h1.window then None else h1.timer, window := window), arm);
  }

  lemma ReleaseAllKeeps(h: Host, chord: Attempt, mouse: Attempt, arm: nat)
    requires Inv(h)
    ensures Inv(AllReleased(h, chord, mouse, arm))
    ensures TrackedInputs(AllReleased(h, chord, mouse, arm)) == {}
    ensures chord.batches >= 1 && mouse.batches >= 1 ==> AllReleased(h, chord, mouse, arm).leaked == h.leaked
  {
    ChordReleaseKeeps(h, false, false, chord);
    MouseReleaseKeeps(ChordReleased(h, false, false, chord).0, false, false, mouse);
    var h1 := MouseReleased(ChordReleased(h, false, false, chord).0, false, false, mouse).0;
    ArmedTimerOk(h1.(chord := NO_HOLD, mouse := NO_HOLD), arm);
  }

  lemma StepKeepsInv(h: Host, op: Op)
    requires Inv(h)
    ensures Inv(Next(h, op))
  {
    match op
    case Execute(action, deviceAccess, a) =>
      ExpiryKeeps(h, a.expireNow, a.chordExpiry, a.mouseExpiry, a.expireArm);
      PerformKeeps(Expired(h, a.expireNow, a.chordExpiry, a.mouseExpiry, a.expireArm), action, deviceAccess, a);
    case HeldTimer(now, chord, mouse, arm) => ExpiryKeeps(h, now, chord, mouse, arm);
    case SetHostWindow(window, chord, mouse, arm) => WindowKeeps(h, window, chord, mouse, arm);
    case ReleaseHeld(chord, mouse, arm) => ReleaseAllKeeps(h, chord, mouse, arm);
  }

  lemma {:induction false} RunKeepsInv(h: Host, ops: seq<Op>)
    requires Inv(h)
    ensures Inv(Run(h, ops))
    decreases ops
  {
    if ops != [] {
      StepKeepsInv(h, ops[0]);
      RunKeepsInv(Next(h, ops[0]), ops[1..]);
    }
  }

  /** Whatever the system answers, in every run: holds are conserved and timed, and whatever is down belongs to a
      tracked hold or was left by an abandoned hold or an interrupted injection. */
  lemma HoldsAreConservedAndTimed(ops: seq<Op>)
    ensures Inv(Run(Initial(), ops))
  {
    RunKeepsInv(Initial(), ops);
  }

  // ---------------------------------------------------------------------------------------------------------------
  // Nothing stays pressed untracked

  /** The system takes every batch of the operation. */
  predicate AllTaken(op: Op) {
    match op
    case Execute(action, _, a) =>
      a.chordExpiry.batches >= 1 && a.mouseExpiry.batches >= 1 && a.release.batches >= 1 &&
      (action.Press? ==> |PressRecords(action.chords)| <= BATCH_LIMIT * a.batches(0))
    case HeldTimer(_, chord, mouse, _) => chord.batches >= 1 && mouse.batches >= 1
    case SetHostWindow(_, chord, mouse, _) => chord.batches >= 1 && mouse.batches >= 1
    case ReleaseHeld(chord, mouse, _) => chord.batches >= 1 && mouse.batches >= 1
  }

  lemma SentWholeLeaksNothing(h: Host, records: seq<Record>, deviceAccess: bool, batches: nat)
    requires Inv(h) && |records| <= BATCH_LIMIT * batches && Apply(h.down, records) <= h.down
    ensures Sent(h, records, deviceAccess, batches).0.leaked == h.leaked
  {
    assert Taken(|records|, batches) == |records|;
    assert records[..|records|] == records;
    SentKeeps(h, records, deviceAccess, batches);
  }

  lemma TakenActionLeaksNothing(h: Host, action: Action, deviceAccess: bool, a: Answers)
    requires Inv(h) && AllTaken(Execute(action, deviceAccess, a))
    ensures Performed(h, action, deviceAccess, a).0.leaked == h.leaked
  {
    match action
    case Press(chords) =>
      PressesLeaveNothing(h.down, chords);
      SentWholeLeaksNothing(h, PressRecords(chords), deviceAccess, a.batches(0));
    case HoldChord(chord, release) => HoldChordKeeps(h, chord, release, deviceAccess, a);
    case HoldButton(button, release) => HoldButtonKeeps(h, button, release, deviceAccess, a);
    case _ => StandAloneLeaksNothing(h, action, deviceAccess, a);
  }

  /** However many batches of clicks are taken, none ends between a down and its up. */
  lemma {:induction false} ClickPrefix(button: Input, clicks: nat, pairs: nat)
    requires pairs <= clicks
    ensures ClickRecords(button, clicks)[..2 * pairs] == ClickRecords(button, pairs)
  {
    if pairs > 0 {
      ClickPrefix(button, clicks - 1, pairs - 1);
      var click, rest := [Record(button, false), Record(button, true)], ClickRecords(button, clicks - 1);
      assert (click + rest)[..2 * pairs] == click + rest[..2 * (pairs - 1)];
    }
  }

  lemma ClicksLeakNothing(h: Host, button: Input, clicks: nat, deviceAccess: bool, batches: nat)
    ensures Sent(h, ClickRecords(button, clicks), deviceAccess, batches).0.leaked == h.leaked
  {
    var n := Taken(2 * clicks, batches);
    var pairs := if n == 2 * clicks then clicks else BATCH_LIMIT / 2 * batches;
    assert n == 2 * pairs;
    ClickPrefix(button, clicks, pairs);
    ClicksLeaveNothing(h.down, button, pairs);
    assert h.leaked + {} == h.leaked;
  }

  /** Keys typed, tapped and clicks never stay down, whatever is refused. */
  lemma StandAloneLeaksNothing(h: Host, action: Action, deviceAccess: bool, a: Answers)
    requires Inv(h) && (action.Tap? || action.Type? || action.Inert? || action.Click?)
    ensures Performed(h, action, deviceAccess, a).0.leaked == h.leaked
  {
    match action
    case Type(units) => TypingKeeps(h, units, deviceAccess, a.batches, 0);
    case Tap(vk, extended) =>
      PairEffect(h.down, Key(vk, extended));
      InjectSmall(h, [Record(Key(vk, extended), false), Record(Key(vk, extended), true)], deviceAccess, a.batches(0));
    case Click(button, clicks) => ClicksLeakNothing(h, button, clicks, deviceAccess, a.batches(0));
    case Inert =>
  }

  lemma TakenStepLeaksNothing(h: Host, op: Op)
    requires Inv(h) && AllTaken(op)
    ensures Next(h, op).leaked == h.leaked
  {
    match op
    case Execute(action, deviceAccess, a) =>
      ExpiryKeeps(h, a.expireNow, a.chordExpiry, a.mouseExpiry, a.expireArm);
      TakenActionLeaksNothing(Expired(h, a.expireNow, a.chordExpiry, a.mouseExpiry, a.expireArm), action, deviceAccess,
                              a);
    case HeldTimer(now, chord, mouse, arm) => ExpiryKeeps(h, now, chord, mouse, arm);
    case SetHostWindow(window, chord, mouse, arm) => WindowKeeps(h, window, chord, mouse, arm);
    case ReleaseHeld(chord, mouse, arm) => ReleaseAllKeeps(h, chord, mouse, arm);
  }

  lemma {:induction false} TakenRunLeaksNothing(h: Host, ops: seq<Op>)
    requires Inv(h) && forall op :: op in ops ==> AllTaken(op)
    ensures Run(h, ops).leaked == h.leaked
    decreases ops
  {
    if ops != [] {
      StepKeepsInv(h, ops[0]);
      TakenStepLeaksNothing(h, ops[0]);
      TakenRunLeaksNothing(Next(h, ops[0]), ops[1..]);
    }
  }

  /** In every run whose batches SendInput takes, what RedXe has left down belongs to a hold still tracked, and
      ReleaseHeld leaves nothing down. */
  lemma NothingStaysPressedUntracked(ops: seq<Op>, last: Op)
    requires (forall op :: op in ops ==> AllTaken(op)) && last.ReleaseHeld? && AllTaken(last)
    ensures Run(Initial(), ops).down <= TrackedInputs(Run(Initial(), ops))
    ensures Next(Run(Initial(), ops), last).down == {}
  {
    RunKeepsInv(Initial(), ops);
    TakenRunLeaksNothing(Initial(), ops);
    var h := Run(Initial(), ops);
    TakenStepLeaksNothing(h, last);
    ReleaseAllKeeps(h, last.chord, last.mouse, last.arm);
  }

  // ---------------------------------------------------------------------------------------------------------------
  // What a refusal can leave behind

  function Abandoned(h: Host): (n: nat) { h.chords.abandoned + h.buttons.abandoned }

  /** A keys.press whose last taken batch ends inside a chord. */
  predicate CutShort(action: Action, deviceAccess: bool, batches: nat) {
    action.Press? && deviceAccess && BATCH_LIMIT * batches < |PressRecords(action.chords)| &&
    !Between(action.chords, BATCH_LIMIT * batches)
  }

  predicate CutsShort(op: Op) { op.Execute? && CutShort(op.action, op.deviceAccess, op.answers.batches(0)) }

  /** Something more was left down untracked only if a hold was abandoned, or a press cut short. */
  predicate Explained(h: Host, h': Host, cut: bool) {
    Abandoned(h) <= Abandoned(h') && (h'.leaked != h.leaked ==> cut || Abandoned(h) < Abandoned(h'))
  }

  lemma ReleasesExplained(h: Host, expired: bool, retry: bool, a: Attempt)
    ensures Explained(h, ChordReleased(h, expired, retry, a).0, false)
    ensures Explained(h, MouseReleased(h, expired, retry, a).0, false)
  {
  }

  lemma ExpiryExplained(h: Host, now: nat, chord: Attempt, mouse: Attempt, arm: nat)
    ensures Explained(h, Expired(h, now, chord, mouse, arm), false)
  {
    ReleasesExplained(h, true, true, chord);
    var h1 := if h.chord.held && now >= h.chord.due then ChordReleased(h, true, true, chord).0 else h;
    ReleasesExplained(h1, true, true, mouse);
    var h2 := if h1.mouse.held && now >= h1.mouse.due then MouseReleased(h1, true, true, mouse).0 else h1;
    assert Explained(h, h2, false);
    ArmingAddsNoHistory(h2, arm);
  }

  lemma ArmingAddsNoHistory(h: Host, now: nat)
    ensures Armed(h, now).leaked == h.leaked && Abandoned(Armed(h, now)) == Abandoned(h)
  {
  }

  lemma BothReleasesExplained(h: Host, chord: Attempt, mouse: Attempt)
    ensures Explained(h, MouseReleased(ChordReleased(h, false, false, chord).0, false, false, mouse).0, false)
  {
    ReleasesExplained(h, false, false, chord);
    ReleasesExplained(ChordReleased(h, false, false, chord).0, false, false, mouse);
  }

  lemma ChordExplained(h: Host, chord: KeyChord, release: bool, deviceAccess: bool, a: Answers)
    ensures Explained(h, ChordHeld(h, chord, release, deviceAccess, a).0, false)
  {
    if release {
      ChordUpExplained(h, chord, deviceAccess, a);
    } else {
      ChordDownExplained(h, chord, deviceAccess, a);
    }
  }

  lemma ChordUpExplained(h: Host, chord: KeyChord, deviceAccess: bool, a: Answers)
    ensures Explained(h, ChordHeld(h, chord, true, deviceAccess, a).0, false)
  {
    ReleasesExplained(h, false, true, a.release);
    ChordSentAddsNoHistory(h, chord, true, deviceAccess, a.batches(0), a.begin);
  }

  lemma ChordDownExplained(h: Host, chord: KeyChord, deviceAccess: bool, a: Answers)
    ensures Explained(h, ChordHeld(h, chord, false, deviceAccess, a).0, false)
  {
    ReleasesExplained(h, false, true, a.release);
    var h1 := ChordReleased(h, false, true, a.release).0;
    ChordSentAddsNoHistory(h1, chord, false, deviceAccess, a.batches(0), a.begin);
  }

  lemma ChordSentAddsNoHistory(h: Host, chord: KeyChord, release: bool, deviceAccess: bool, batches: nat,
                              begin: nat)
    ensures var h' := ChordSent(h, chord, release, deviceAccess, batches, begin).0;
            h'.leaked == h.leaked && Abandoned(h') == Abandoned(h)
  {
  }

  lemma ButtonExplained(h: Host, button: Input, release: bool, deviceAccess: bool, a: Answers)
    ensures Explained(h, ButtonHeld(h, button, release, deviceAccess, a).0, false)
  {
    if release {
      ButtonUpExplained(h, button, deviceAccess, a);
    } else {
      ButtonDownExplained(h, button, deviceAccess, a);
    }
  }

  lemma ButtonUpExplained(h: Host, button: Input, deviceAccess: bool, a: Answers)
    ensures Explained(h, ButtonHeld(h, button, true, deviceAccess, a).0, false)
  {
    ReleasesExplained(h, false, true, a.release);
    ButtonSentAddsNoHistory(h, button, true, deviceAccess, a.batches(0), a.begin);
  }

  lemma ButtonDownExplained(h: Host, button: Input, deviceAccess: bool, a: Answers)
    ensures Explained(h, ButtonHeld(h, button, false, deviceAccess, a).0, false)
  {
    ReleasesExplained(h, false, true, a.release);
    var h1 := MouseReleased(h, false, true, a.release).0;
    ButtonSentAddsNoHistory(h1, button, false, deviceAccess, a.batches(0), a.begin);
  }

  lemma ButtonSentAddsNoHistory(h: Host, button: Input, release: bool, deviceAccess: bool, batches: nat,
                              begin: nat)
    ensures var h' := ButtonSent(h, button, release, deviceAccess, batches, begin).0;
            h'.leaked == h.leaked && Abandoned(h') == Abandoned(h)
  {
  }

  lemma {:induction false} TypingAbandonsNothing(h: Host, units: seq<nat>, deviceAccess: bool, batches: nat -> nat,
                                                 call: nat)
    ensures Abandoned(Typed(h, units, deviceAccess, batches, call).0) == Abandoned(h)
    decreases |units|
  {
    if units != [] {
      var n := if |units| < BATCH_LIMIT / 2 then |units| else BATCH_LIMIT / 2;
      var h' := Sent(h, TypeRecords(units[..n]), deviceAccess, batches(call)).0;
      TypingAbandonsNothing(h', units[n..], deviceAccess, batches, call + 1);
    }
  }

  lemma ActionExplained(h: Host, action: Action, deviceAccess: bool, a: Answers)
    requires Inv(h)
    ensures Explained(h, Performed(h, action, deviceAccess, a).0, CutShort(action, deviceAccess, a.batches(0)))
  {
    if action.HoldChord? {
      ChordExplained(h, action.chord, action.release, deviceAccess, a);
    } else if action.HoldButton? {
      ButtonExplained(h, action.button, action.release, deviceAccess, a);
    } else if action.Press? {
      PressLeaves(h, action.chords, deviceAccess, a);
      assert Abandoned(Performed(h, action, deviceAccess, a).0) == Abandoned(h);
    } else {
      StandAloneLeaksNothing(h, action, deviceAccess, a);
      if action.Type? {
        TypingAbandonsNothing(h, action.units, deviceAccess, a.batches, 0);
      }
    }
  }

  /** Of all operations, the timer, a closing window and shutdown included, only two things leave an untracked input
      down: abandoning a hold, and a keys.press cut short inside a chord. */
  lemma LeaksHaveACause(h: Host, op: Op)
    requires Inv(h)
    ensures Abandoned(h) <= Abandoned(Next(h, op))
    ensures Next(h, op).leaked != h.leaked ==> Abandoned(h) < Abandoned(Next(h, op)) || CutsShort(op)
  {
    match op
    case Execute(action, deviceAccess, a) =>
      ExpiryKeeps(h, a.expireNow, a.chordExpiry, a.mouseExpiry, a.expireArm);
      ExpiryExplained(h, a.expireNow, a.chordExpiry, a.mouseExpiry, a.expireArm);
      ActionExplained(Expired(h, a.expireNow, a.chordExpiry, a.mouseExpiry, a.expireArm), action, deviceAccess, a);
    case HeldTimer(now, chord, mouse, arm) => ExpiryExplained(h, now, chord, mouse, arm);
    case SetHostWindow(window, chord, mouse, _) => BothReleasesExplained(h, chord, mouse);
    case ReleaseHeld(chord, mouse, _) => BothReleasesExplained(h, chord, mouse);
  }

  lemma {:induction false} RunLeaksHaveACause(h: Host, ops: seq<Op>)
    requires Inv(h)
    ensures Explained(h, Run(h, ops), exists i :: 0 <= i < |ops| && CutsShort(ops[i]))
    decreases ops
  {
    if ops != [] {
      LeaksHaveACause(h, ops[0]);
      StepKeepsInv(h, ops[0]);
      var rest := ops[1..];
      RunLeaksHaveACause(Next(h, ops[0]), rest);
      if i :| 0 <= i < |rest| && CutsShort(rest[i]) {
        assert CutsShort(ops[i + 1]);
      }
    }
  }

  /** In every run, an input down that no tracked hold accounts for is explained: a hold was abandoned after its refused
      releases, or a keys.press was cut short inside a chord. */
  lemma UntrackedInputsHaveACause(ops: seq<Op>)
    requires !(Run(Initial(), ops).down <= TrackedInputs(Run(Initial(), ops)))
    ensures Abandoned(Run(Initial(), ops)) > 0 || exists i :: 0 <= i < |ops| && CutsShort(ops[i])
  {
    RunKeepsInv(Initial(), ops);
    RunLeaksHaveACause(Initial(), ops);
  }

  // ---------------------------------------------------------------------------------------------------------------
  // keys.press

  /** Whatever is held meanwhile, a keys.press leaves newly down exactly what its last taken batch cuts off. */
  lemma PressLeaves(h: Host, chords: seq<KeyChord>, deviceAccess: bool, a: Answers)
    ensures var (h', result) := Performed(h, Press(chords), deviceAccess, a);
            var n := Taken(|PressRecords(chords)|, a.batches(0));
            (result.Succeeded() <==> !deviceAccess || n == |PressRecords(chords)|) &&
            h'.down - h.down == (if deviceAccess then CutOff(chords, n) - h.down else {}) &&
            h'.leaked == h.leaked + (h'.down - h.down) &&
            (CutOff(chords, n) == {} <==> n == |PressRecords(chords)| || Between(chords, n))
  {
    var records := PressRecords(chords);
    var n := Taken(|records|, a.batches(0));
    NewlyDown(h.down, records[..n]);
    InterruptedPress(chords, n);
    if n == |records| {
      assert records[..n] == records;
      PressesLeaveNothing({}, chords);
    } else {
      EvenCutIsBetween(chords, BATCH_LIMIT / 2 * a.batches(0));
    }
  }

  /** A refused keys.press leaves nothing down that was not down before exactly when what its last batch cuts off was;
      it cuts nothing off exactly when that batch ends between two chords. */
  lemma RefusedPress(h: Host, chords: seq<KeyChord>, a: Answers)
    requires BATCH_LIMIT * a.batches(0) < |PressRecords(chords)|
    ensures var (h', result) := Performed(h, Press(chords), true, a);
            var n := BATCH_LIMIT * a.batches(0);
            !result.Succeeded() && (h'.down <= h.down <==> CutOff(chords, n) <= h.down) &&
            (CutOff(chords, n) == {} <==> Between(chords, n))
  {
    PressLeaves(h, chords, true, a);
    NothingNew(Performed(h, Press(chords), true, a).0.down, h.down, CutOff(chords, BATCH_LIMIT * a.batches(0)));
  }

  lemma NothingNew(after: set<Input>, before: set<Input>, left: set<Input>)
    requires after - before == left - before
    ensures after <= before <==> left <= before
  {
    assert forall x :: x in left <==> x in left - before || (x in left && x in before);
    assert forall x :: x in after <==> x in after - before || (x in after && x in before);
  }

  const WIDE_CHORD := KeyChord(true, true, true, true, 0x41, false)

  lemma WideChordsCutOff()
    ensures var chords := [WIDE_CHORD, WIDE_CHORD, WIDE_CHORD, WIDE_CHORD];
            |PressRecords(chords)| == 40 && CutOff(chords, 32) == {Key(VK_CONTROL, false), Key(VK_SHIFT, false)}
  {
    var c := WIDE_CHORD;
    assert ModifierKeys(c) ==
           [Key(VK_CONTROL, false), Key(VK_SHIFT, false), Key(VK_MENU, false), Key(VK_LWIN, true)];
    assert |Tapped(c)| == 10;
    var four, three, two, one := [c, c, c, c], [c, c, c], [c, c], [c];
    assert four[1..] == three && three[1..] == two && two[1..] == one && one[1..] == [];
    assert CutOff(four, 32) == CutOff(three, 22) == CutOff(two, 12) == CutOff(one, 2) == PartPressed(c, 2);
    assert ChordInputs(c, false)[..2] == [Key(VK_CONTROL, false), Key(VK_SHIFT, false)];
    assert |PressRecords(one)| == 10 && |PressRecords(two)| == 20 && |PressRecords(three)| == 30;
  }

  /** Four chords of five keys, the second batch refused: two modifiers stay down for every application, and not even
      shutdown lifts them, because no hold tracks them. */
  lemma RefusedPressLeavesModifiers(a: Answers, chord: Attempt, mouse: Attempt, arm: nat)
    requires a.batches(0) == 1
    ensures var chords := [WIDE_CHORD, WIDE_CHORD, WIDE_CHORD, WIDE_CHORD];
            var h := Next(Initial(), Execute(Press(chords), true, a));
            h.down == {Key(VK_CONTROL, false), Key(VK_SHIFT, false)} && TrackedInputs(h) == {} &&
            Next(h, ReleaseHeld(chord, mouse, arm)).down == h.down
  {
    var chords := [WIDE_CHORD, WIDE_CHORD, WIDE_CHORD, WIDE_CHORD];
    WideChordsCutOff();
    PressLeaves(Initial(), chords, true, a);
    var h := Next(Initial(), Execute(Press(chords), true, a));
    assert h.down - {} == h.down;
  }

  // ---------------------------------------------------------------------------------------------------------------
  // keys.up

  /** A keys.up of a tracked hold lifts only that hold's keys; after the deadline has released them it injects nothing
      and answers S_FALSE. */
  lemma TrackedUpLiftsOnlyItsHold(h: Host, chord: KeyChord, deviceAccess: bool, a: Answers)
    requires Inv(h) && Tracks(h, HoldChord(chord, true))
    ensures var (h', result) := ChordHeld(h, chord, true, deviceAccess, a);
            h'.down <= h.down && h.down - h'.down <= ChordKeys(chord) && h'.mouse == h.mouse &&
            (!h.chord.held ==> h'.injected == h.injected && h'.down == h.down && result == False && !h'.chord.expired)
  {
    ChordReleaseKeeps(h, false, true, a.release);
  }

  /** Any other keys.up is a stand-alone release: it injects exactly its own chord and leaves the hold alone. */
  lemma OtherUpIsStandAlone(h: Host, chord: KeyChord, a: Answers)
    requires Inv(h) && !Tracks(h, HoldChord(chord, true)) && a.batches(0) >= 1
    ensures var (h', result) := ChordHeld(h, chord, true, true, a);
            result == Ok && h'.down == h.down - ChordKeys(chord) && h'.chord == h.chord && h'.mouse == h.mouse &&
            h'.chords == h.chords && h'.injected == h.injected + |ChordRecords(chord, true)|
  {
    InjectSmall(h, ChordRecords(chord, true), true, a.batches(0));
    ChordEffect(h.down, chord, true);
  }

  /** The operation expires the chord held in `h`, and the system takes its release. */
  predicate ExpiresChord(h: Host, op: Op) {
    h.chord.held &&
    match op
    case HeldTimer(now, chord, _, _) => now >= h.chord.due && chord.batches >= 1
    case Execute(action, _, a) =>
      a.expireNow >= h.chord.due && a.chordExpiry.batches >= 1 && LeavesChord(op, h.heldChord)
    case _ => false
  }

  /** Neither a keys.down, nor a keys.up of `chord`, nor shutdown. */
  predicate LeavesChord(op: Op, chord: KeyChord) {
    match op
    case Execute(HoldChord(other, release), _, _) => release && other != chord
    case ReleaseHeld(_, _, _) => false
    case _ => true
  }

  predicate ChordExpired(h: Host) { h.chord.expired && !h.chord.held }

  lemma {:induction false} TypingLeavesHolds(h: Host, units: seq<nat>, deviceAccess: bool, batches: nat -> nat,
                                             call: nat)
    ensures var h' := Typed(h, units, deviceAccess, batches, call).0;
            h' == h.(injected := h'.injected, down := h'.down, taken := h'.taken, leaked := h'.leaked)
    decreases |units|
  {
    if units != [] {
      var n := if |units| < BATCH_LIMIT / 2 then |units| else BATCH_LIMIT / 2;
      var h' := Sent(h, TypeRecords(units[..n]), deviceAccess, batches(call)).0;
      TypingLeavesHolds(h', units[n..], deviceAccess, batches, call + 1);
    }
  }

  predicate SameChord(h: Host, h': Host) {
    h'.chord == h.chord && h'.heldChord == h.heldChord && h'.chords == h.chords
  }

  predicate SameButton(h: Host, h': Host) {
    h'.mouse == h.mouse && h'.heldButton == h.heldButton && h'.buttons == h.buttons
  }

  lemma OtherUpLeavesChord(h: Host, chord: KeyChord, deviceAccess: bool, a: Answers)
    requires chord != h.heldChord
    ensures SameChord(h, ChordHeld(h, chord, true, deviceAccess, a).0)
  {
  }

  lemma ButtonLeavesChord(h: Host, button: Input, release: bool, deviceAccess: bool, a: Answers)
    ensures SameChord(h, ButtonHeld(h, button, release, deviceAccess, a).0)
  {
    if release {
      ButtonUpLeavesChord(h, button, deviceAccess, a);
    } else {
      ButtonDownLeavesChord(h, button, deviceAccess, a);
    }
  }

  lemma ButtonUpLeavesChord(h: Host, button: Input, deviceAccess: bool, a: Answers)
    ensures SameChord(h, ButtonHeld(h, button, true, deviceAccess, a).0)
  {
  }

  lemma ButtonDownLeavesChord(h: Host, button: Input, deviceAccess: bool, a: Answers)
    ensures SameChord(h, ButtonHeld(h, button, false, deviceAccess, a).0)
  {
    var h1 := MouseReleased(h, false, true, a.release).0;
    assert SameChord(h, h1);
    assert SameChord(h1, ButtonSent(h1, button, false, deviceAccess, a.batches(0), a.begin).0);
  }

  lemma ActionLeavesChord(h: Host, action: Action, deviceAccess: bool, a: Answers)
    requires action.HoldChord? ==> action.release && action.chord != h.heldChord
    ensures SameChord(h, Performed(h, action, deviceAccess, a).0)
  {
    match action
    case Type(units) => TypingLeavesHolds(h, units, deviceAccess, a.batches, 0);
    case HoldChord(chord, _) => OtherUpLeavesChord(h, chord, deviceAccess, a);
    case HoldButton(button, release) => ButtonLeavesChord(h, button, release, deviceAccess, a);
    case _ =>
  }

  lemma ExpiryReleasesChord(h: Host, now: nat, chord: Attempt, mouse: Attempt, arm: nat)
    requires h.chord.held && now >= h.chord.due && chord.batches >= 1
    ensures var h' := Expired(h, now, chord, mouse, arm);
            ChordExpired(h') && h'.heldChord == h.heldChord &&
            h'.chords == h.chords.(released := h.chords.released + 1) &&
            (h.chord.deviceAccess ==> h'.down !! ChordKeys(h.heldChord))
  {
    InjectSmall(h, ChordRecords(h.heldChord, true), h.chord.deviceAccess, chord.batches);
    ChordEffect(h.down, h.heldChord, true);
    MouseReleaseOnlyLifts(ChordReleased(h, true, true, chord).0, true, true, mouse);
  }

  lemma MouseReleaseOnlyLifts(h: Host, expired: bool, retry: bool, a: Attempt)
    ensures var h' := MouseReleased(h, expired, retry, a).0;
            h' == h.(injected := h'.injected, down := h'.down, taken := h'.taken, mouse := h'.mouse,
                     buttons := h'.buttons,
                     leaked := h'.leaked) &&
            h'.down <= h.down && h.down - h'.down <= {h.heldButton} &&
            (h.mouse.held && a.batches >= 1 ==>
              !h'.mouse.held && h'.mouse.expired == expired &&
                  h'.buttons == h.buttons.(released := h.buttons.released + 1) &&
              h'.down == if h.mouse.deviceAccess then h.down - {h.heldButton} else h.down)
  {
    if h.mouse.held {
      var records := [Record(h.heldButton, true)];
      InjectSmall(h, records, h.mouse.deviceAccess, a.batches);
      assert records[1..] == [];
      assert Apply(h.down, records) == Step(h.down, records[0]);
    }
  }

  lemma ExpiredChordStays(h: Host, op: Op)
    requires ChordExpired(h) && LeavesChord(op, h.heldChord)
    ensures SameChord(h, Next(h, op))
  {
    if op.Execute? {
      var a := op.answers;
      var h' := Expired(h, a.expireNow, a.chordExpiry, a.mouseExpiry, a.expireArm);
      assert SameChord(h, h');
      ActionLeavesChord(h', op.action, op.deviceAccess, a);
    }
  }

  lemma {:induction false} ExpiredChordStaysOverRun(h: Host, ops: seq<Op>)
    requires ChordExpired(h) && forall op :: op in ops ==> LeavesChord(op, h.heldChord)
    ensures SameChord(h, Run(h, ops))
    decreases ops
  {
    if ops != [] {
      ExpiredChordStays(h, ops[0]);
      ExpiredChordStaysOverRun(Next(h, ops[0]), ops[1..]);
    }
  }

  /** When a chord has expired by the time its own keys.up is performed, that up injects nothing: what is injected is
      the expiry's, and the answer is S_FALSE. */
  lemma OwnUpInjectsNothing(h: Host, deviceAccess: bool, a: Answers)
    requires ChordExpired(Expired(h, a.expireNow, a.chordExpiry, a.mouseExpiry, a.expireArm))
    ensures var expired := Expired(h, a.expireNow, a.chordExpiry, a.mouseExpiry, a.expireArm);
            Executed(h, HoldChord(expired.heldChord, true), deviceAccess, a) ==
            (expired.(chord := expired.chord.(expired := false)), False)
  {
  }

  lemma FirstExpiresChord(h: Host, first: Op)
    requires ExpiresChord(h, first)
    ensures var h' := Next(h, first);
            ChordExpired(h') && h'.heldChord == h.heldChord &&
            h'.chords == h.chords.(released := h.chords.released + 1)
  {
    if first.HeldTimer? {
      ExpiryReleasesChord(h, first.now, first.chord, first.mouse, first.arm);
    } else {
      var b := first.answers;
      ExpiryReleasesChord(h, b.expireNow, b.chordExpiry, b.mouseExpiry, b.expireArm);
      ActionLeavesChord(Expired(h, b.expireNow, b.chordExpiry, b.mouseExpiry, b.expireArm), first.action,
                        first.deviceAccess, b);
    }
  }

  /** Each expired hold is released exactly once. From the operation that expires it, over any run without a keys.down
      or shutdown, the hold stays as the expiry left it, counted as released once, and its own keys.up, however many
      operations later, injects nothing and answers S_FALSE. */
  lemma ExpiredHoldIsReleasedOnce(h: Host, first: Op, ops: seq<Op>, deviceAccess: bool, a: Answers)
    requires ExpiresChord(h, first) && forall op :: op in ops ==> LeavesChord(op, h.heldChord)
    ensures var before := Run(Next(h, first), ops);
            var (after, result) := Executed(before, HoldChord(h.heldChord, true), deviceAccess, a);
            ChordExpired(before) && before.chords == h.chords.(released := h.chords.released + 1) &&
            result == False && !after.chord.held && !after.chord.expired && after.chords == before.chords &&
            var expiry := Expired(before, a.expireNow, a.chordExpiry, a.mouseExpiry, a.expireArm);
            after.injected == expiry.injected && after.down == expiry.down &&
            (!before.mouse.held || a.expireNow < before.mouse.due ==> after.injected == before.injected)
  {
    FirstExpiresChord(h, first);
    ExpiredChordStaysOverRun(Next(h, first), ops);
    OwnUpInjectsNothing(Run(Next(h, first), ops), deviceAccess, a);
  }

  // ---------------------------------------------------------------------------------------------------------------
  // mouse.up

  /** A mouse.up of a tracked hold lifts only that hold's button; after the deadline has released it, it injects nothing
      and answers S_FALSE. */
  lemma TrackedUpLiftsOnlyItsButton(h: Host, button: Input, deviceAccess: bool, a: Answers)
    requires Tracks(h, HoldButton(button, true))
    ensures var (h', result) := ButtonHeld(h, button, true, deviceAccess, a);
            h'.down <= h.down && h.down - h'.down <= {button} && h'.chord == h.chord &&
            (!h.mouse.held ==> h'.injected == h.injected && h'.down == h.down && result == False && !h'.mouse.expired)
  {
    MouseReleaseOnlyLifts(h, false, true, a.release);
  }

  /** Any other mouse.up is a stand-alone release: it injects exactly its own button and leaves the hold alone. */
  lemma OtherButtonUpIsStandAlone(h: Host, button: Input, a: Answers)
    requires !Tracks(h, HoldButton(button, true)) && a.batches(0) >= 1
    ensures var (h', result) := ButtonHeld(h, button, true, true, a);
            result == Ok && h'.down == h.down - {button} && h'.chord == h.chord && h'.mouse == h.mouse &&
            h'.buttons == h.buttons && h'.injected == h.injected + 1
  {
    var records := [Record(button, true)];
    InjectSmall(h, records, true, a.batches(0));
    assert records[1..] == [];
    assert Apply(h.down, records) == Step(h.down, records[0]);
  }

  /** The operation expires the button held in `h`, and the system takes its release. */
  predicate ExpiresButton(h: Host, op: Op) {
    h.mouse.held &&
    match op
    case HeldTimer(now, _, mouse, _) => now >= h.mouse.due && mouse.batches >= 1
    case Execute(action, _, a) =>
      a.expireNow >= h.mouse.due && a.mouseExpiry.batches >= 1 && LeavesButton(op, h.heldButton)
    case _ => false
  }

  /** Neither a mouse.down, nor a mouse.up of `button`, nor shutdown. */
  predicate LeavesButton(op: Op, button: Input) {
    match op
    case Execute(HoldButton(other, release), _, _) => release && other != button
    case ReleaseHeld(_, _, _) => false
    case _ => true
  }

  predicate ButtonExpired(h: Host) { h.mouse.expired && !h.mouse.held }

  lemma OtherUpLeavesButton(h: Host, button: Input, deviceAccess: bool, a: Answers)
    requires button != h.heldButton
    ensures SameButton(h, ButtonHeld(h, button, true, deviceAccess, a).0)
  {
  }

  lemma ChordLeavesButton(h: Host, chord: KeyChord, release: bool, deviceAccess: bool, a: Answers)
    ensures SameButton(h, ChordHeld(h, chord, release, deviceAccess, a).0)
  {
    if release {
      ChordUpLeavesButton(h, chord, deviceAccess, a);
    } else {
      ChordDownLeavesButton(h, chord, deviceAccess, a);
    }
  }

  lemma ChordUpLeavesButton(h: Host, chord: KeyChord, deviceAccess: bool, a: Answers)
    ensures SameButton(h, ChordHeld(h, chord, true, deviceAccess, a).0)
  {
  }

  lemma ChordDownLeavesButton(h: Host, chord: KeyChord, deviceAccess: bool, a: Answers)
    ensures SameButton(h, ChordHeld(h, chord, false, deviceAccess, a).0)
  {
    var h1 := ChordReleased(h, false, true, a.release).0;
    assert SameButton(h, h1);
    assert SameButton(h1, ChordSent(h1, chord, false, deviceAccess, a.batches(0), a.begin).0);
  }

  lemma ActionLeavesButton(h: Host, action: Action, deviceAccess: bool, a: Answers)
    requires action.HoldButton? ==> action.release && action.button != h.heldButton
    ensures SameButton(h, Performed(h, action, deviceAccess, a).0)
  {
    match action
    case Type(units) => TypingLeavesHolds(h, units, deviceAccess, a.batches, 0);
    case HoldButton(button, _) => OtherUpLeavesButton(h, button, deviceAccess, a);
    case HoldChord(chord, release) => ChordLeavesButton(h, chord, release, deviceAccess, a);
    case _ =>
  }

  lemma ExpiryReleasesButton(h: Host, now: nat, chord: Attempt, mouse: Attempt, arm: nat)
    requires h.mouse.held && now >= h.mouse.due && mouse.batches >= 1
    ensures var h' := Expired(h, now, chord, mouse, arm);
            ButtonExpired(h') && h'.heldButton == h.heldButton &&
            h'.buttons == h.buttons.(released := h.buttons.released + 1) &&
            (h.mouse.deviceAccess ==> h.heldButton !in h'.down)
  {
    var h1 := if h.chord.held && now >= h.chord.due then ChordReleased(h, true, true, chord).0 else h;
    assert SameButton(h, h1);
    MouseReleaseOnlyLifts(h1, true, true, mouse);
  }

  lemma ExpiredButtonStays(h: Host, op: Op)
    requires ButtonExpired(h) && LeavesButton(op, h.heldButton)
    ensures SameButton(h, Next(h, op))
  {
    if op.Execute? {
      var a := op.answers;
      var h' := Expired(h, a.expireNow, a.chordExpiry, a.mouseExpiry, a.expireArm);
      assert SameButton(h, h');
      ActionLeavesButton(h', op.action, op.deviceAccess, a);
    }
  }

  lemma {:induction false} ExpiredButtonStaysOverRun(h: Host, ops: seq<Op>)
    requires ButtonExpired(h) && forall op :: op in ops ==> LeavesButton(op, h.heldButton)
    ensures SameButton(h, Run(h, ops))
    decreases ops
  {
    if ops != [] {
      ExpiredButtonStays(h, ops[0]);
      ExpiredButtonStaysOverRun(Next(h, ops[0]), ops[1..]);
    }
  }

  /** When a button has expired by the time its own mouse.up is performed, that up injects nothing. */
  lemma OwnButtonUpInjectsNothing(h: Host, deviceAccess: bool, a: Answers)
    requires ButtonExpired(Expired(h, a.expireNow, a.chordExpiry, a.mouseExpiry, a.expireArm))
    ensures var expired := Expired(h, a.expireNow, a.chordExpiry, a.mouseExpiry, a.expireArm);
            Executed(h, HoldButton(expired.heldButton, true), deviceAccess, a) ==
            (expired.(mouse := expired.mouse.(expired := false)), False)
  {
  }

  lemma FirstExpiresButton(h: Host, first: Op)
    requires ExpiresButton(h, first)
    ensures var h' := Next(h, first);
            ButtonExpired(h') && h'.heldButton == h.heldButton &&
            h'.buttons == h.buttons.(released := h.buttons.released + 1)
  {
    if first.HeldTimer? {
      ExpiryReleasesButton(h, first.now, first.chord, first.mouse, first.arm);
    } else {
      var b := first.answers;
      ExpiryReleasesButton(h, b.expireNow, b.chordExpiry, b.mouseExpiry, b.expireArm);
      ActionLeavesButton(Expired(h, b.expireNow, b.chordExpiry, b.mouseExpiry, b.expireArm), first.action,
                         first.deviceAccess, b);
    }
  }

  /** Each expired button is released exactly once, over any run without a mouse.down or shutdown. */
  lemma ExpiredButtonIsReleasedOnce(h: Host, first: Op, ops: seq<Op>, deviceAccess: bool, a: Answers)
    requires ExpiresButton(h, first) && forall op :: op in ops ==> LeavesButton(op, h.heldButton)
    ensures var before := Run(Next(h, first), ops);
            var (after, result) := Executed(before, HoldButton(h.heldButton, true), deviceAccess, a);
            ButtonExpired(before) && before.buttons == h.buttons.(released := h.buttons.released + 1) &&
            result == False && !after.mouse.held && !after.mouse.expired && after.buttons == before.buttons &&
            var expiry := Expired(before, a.expireNow, a.chordExpiry, a.mouseExpiry, a.expireArm);
            after.injected == expiry.injected && after.down == expiry.down &&
            (!before.chord.held || a.expireNow < before.chord.due ==> after.injected == before.injected)
  {
    FirstExpiresButton(h, first);
    ExpiredButtonStaysOverRun(Next(h, first), ops);
    OwnButtonUpInjectsNothing(Run(Next(h, first), ops), deviceAccess, a);
  }
}
