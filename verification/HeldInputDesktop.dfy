// What the actions of the held-input engine send: the records the desktop takes, one by one, and when a hold is
// released. Record contents, virtual keys and times are spelled out here.
module HeldInputDesktop {
  import opened Basics
  import opened InputRecords
  import opened HeldInput
  import opened HeldInputGuarantees

  // ---------------------------------------------------------------------------------------------------------------
  // Batches

  /** The records that get through when `batches` calls of 32 are taken and the next is refused. */
  function Through(records: seq<Record>, batches: nat): (r: seq<Record>) {
    if 32 * batches < |records| then records[..32 * batches] else records
  }

  /** An injection sends its records in order, 32 a call, until a call is refused; without device access it only counts
      them. */
  lemma InjectionReaches(h: Host, records: seq<Record>, deviceAccess: bool, batches: nat)
    ensures var (h', sent) := Injected(h, records, deviceAccess, batches);
            h'.injected == h.injected + |records| &&
            (sent <==> !deviceAccess || |records| <= 32 * batches) &&
            h'.taken == (if deviceAccess then h.taken + Through(records, batches) else h.taken) &&
            h' == h.(injected := h'.injected, taken := h'.taken, down := h'.down)
  {
    if 32 * batches >= |records| {
      assert records[..|records|] == records;
    }
  }

  // ---------------------------------------------------------------------------------------------------------------
  // keys.type

  lemma {:induction false} TypeRecordsSpelled(units: seq<nat>, k: nat)
    requires k < |units|
    ensures |TypeRecords(units)| == 2 * |units|
    ensures TypeRecords(units)[2 * k] == Record(Unicode(units[k]), false)
    ensures TypeRecords(units)[2 * k + 1] == Record(Unicode(units[k]), true)
  {
    if k > 0 {
      TypeRecordsSpelled(units[1..], k - 1);
    }
  }

  lemma BufferReaches(h: Host, records: seq<Record>, batches: nat)
    requires 0 < |records| <= 32
    ensures var (h', sent) := Sent(h, records, true, batches);
            (sent <==> batches >= 1) && h'.taken == if sent then h.taken + records else h.taken
  {
    InjectionReaches(h, records, true, batches);
    assert h.taken + [] == h.taken;
  }

  lemma TypeRecordsJoin(before: seq<Record>, units: seq<nat>, n: nat, typed: nat)
    requires n <= typed <= |units|
    ensures before + TypeRecords(units[..n]) + TypeRecords(units[n..][..typed - n]) ==
            before + TypeRecords(units[..typed])
  {
    assert units[..typed] == units[..n] + units[n..][..typed - n];
    TypeConcat(units[..n], units[n..][..typed - n]);
  }

  /** The typing of units got as far as `typed`: everything, or, when the call `last` is refused, a part in whole
      buffers of 16 units. */
  ghost predicate TypedSoFar(h: Host, units: seq<nat>, batches: nat -> nat, call: nat, typed: nat, last: nat) {
    var (h', result) := Typed(h, units, true, batches, call);
    typed <= |units| && h'.taken == h.taken + TypeRecords(units[..typed]) &&
    (result == Ok <==> typed == |units|) && (typed == |units| || (typed % 16 == 0 && batches(last) == 0))
  }

  lemma FirstBufferTyped(h: Host, units: seq<nat>, batches: nat -> nat, call: nat, n: nat, more: nat, last: nat)
    requires units != [] && n == (if |units| < 16 then |units| else 16) && batches(call) >= 1
    requires TypedSoFar(Sent(h, TypeRecords(units[..n]), true, batches(call)).0, units[n..], batches, call + 1, more,
                        last)
    ensures TypedSoFar(h, units, batches, call, n + more, last)
  {
    BufferReaches(h, TypeRecords(units[..n]), batches(call));
    TypeRecordsJoin(h.taken, units, n, n + more);
  }

  lemma NothingTyped(h: Host, units: seq<nat>, batches: nat -> nat, call: nat)
    requires units == [] || batches(call) == 0
    ensures TypedSoFar(h, units, batches, call, 0, call)
  {
    assert TypeRecords(units[..0]) == [] && h.taken + [] == h.taken;
    if units != [] {
      var n := if |units| < 16 then |units| else 16;
      BufferReaches(h, TypeRecords(units[..n]), batches(call));
    }
  }

  lemma {:induction false} TypingReaches(h: Host, units: seq<nat>, batches: nat -> nat, call: nat)
    returns (typed: nat, last: nat)
    ensures TypedSoFar(h, units, batches, call, typed, last)
    decreases |units|
  {
    if units == [] || batches(call) == 0 {
      NothingTyped(h, units, batches, call);
      typed, last := 0, call;
    } else {
      var n := if |units| < 16 then |units| else 16;
      var more;
      more, last :=
            TypingReaches(Sent(h, TypeRecords(units[..n]), true, batches(call)).0, units[n..], batches, call + 1);
      FirstBufferTyped(h, units, batches, call, n, more, last);
      typed := n + more;
    }
  }

  /** keys.type hands the desktop its own code units, each pressed and released, in order: all of them unless the call
      `last` is refused, and then those of the whole buffers before it. */
  lemma TypedTextReachesTheDesktop(h: Host, units: seq<nat>, a: Answers) returns (typed: nat, last: nat)
    ensures var (h', result) := Performed(h, Type(units), true, a);
            typed <= |units| && |h'.taken| == |h.taken| + 2 * typed && h.taken <= h'.taken &&
            (forall k :: 0 <= k < typed ==>
              h'.taken[|h.taken| + 2 * k] == Record(Unicode(units[k]), false) &&
              h'.taken[|h.taken| + 2 * k + 1] == Record(Unicode(units[k]), true)) &&
            (result == Ok <==> typed == |units|) &&
            (typed == |units| || (typed % 16 == 0 && a.batches(last) == 0))
  {
    typed, last := TypingReaches(h, units, a.batches, 0);
    var h' := Performed(h, Type(units), true, a).0;
    forall k | 0 <= k < typed
      ensures h'.taken[|h.taken| + 2 * k] == Record(Unicode(units[k]), false)
      ensures h'.taken[|h.taken| + 2 * k + 1] == Record(Unicode(units[k]), true)
    {
      TypeRecordsSpelled(units[..typed], k);
    }
  }

  // ---------------------------------------------------------------------------------------------------------------
  // Chords, taps and clicks

  function One(on: bool): (n: nat) { if on then 1 else 0 }

  /** A chord goes down Ctrl, Shift, Alt, Win and last its key, and comes up with its key first. */
  lemma ChordSpelled(chord: KeyChord)
    ensures var r := ChordRecords(chord, false);
            var c := One(chord.control);
            var s := c + One(chord.shift);
            var m := s + One(chord.alt);
            var w := m + One(chord.win);
            |r| == w + 1 && r[w] == Record(Key(chord.virtualKey, chord.extended), false) &&
            (chord.control ==> r[0] == Record(Key(0x11, false), false)) &&
            (chord.shift ==> r[c] == Record(Key(0x10, false), false)) &&
            (chord.alt ==> r[s] == Record(Key(0x12, false), false)) &&
            (chord.win ==> r[m] == Record(Key(0x5B, true), false))
    ensures var r := ChordRecords(chord, true);
            var c := 1 + One(chord.control);
            var s := c + One(chord.shift);
            var m := s + One(chord.alt);
            var w := m + One(chord.win);
            |r| == w && r[0] == Record(Key(chord.virtualKey, chord.extended), true) &&
            (chord.control ==> r[1] == Record(Key(0x11, false), true)) &&
            (chord.shift ==> r[c] == Record(Key(0x10, false), true)) &&
            (chord.alt ==> r[s] == Record(Key(0x12, false), true)) &&
            (chord.win ==> r[m] == Record(Key(0x5B, true), true))
  {
  }

  lemma {:induction false} PressConcat(a: seq<KeyChord>, b: seq<KeyChord>)
    ensures PressRecords(a + b) == PressRecords(a) + PressRecords(b)
    decreases a
  {
    if a == [] {
      assert a + b == b;
    } else {
      var both := a + b;
      assert both[0] == a[0] && both[1..] == a[1..] + b;
      PressConcat(a[1..], b);
    }
  }

  /** Among the records of several presses each chord's are its own downs and then its own ups. */
  lemma PressSpelled(chords: seq<KeyChord>, k: nat)
    requires k < |chords|
    ensures PressRecords(chords) ==
            PressRecords(chords[..k]) + (ChordRecords(chords[k], false) + ChordRecords(chords[k], true)) +
            PressRecords(chords[k + 1..])
  {
    var before, after := chords[..k], chords[k..];
    assert chords == before + after;
    PressConcat(before, after);
    assert after[0] == chords[k] && after[1..] == chords[k + 1..];
    Regrouped(PressRecords(before), Tapped(chords[k]), PressRecords(chords[k + 1..]));
  }

  lemma Regrouped(a: seq<Record>, b: seq<Record>, c: seq<Record>)
    ensures a + (b + c) == a + b + c
  {
  }

  /** keys.press sends its presses, as many as get through. */
  lemma PressReaches(h: Host, chords: seq<KeyChord>, a: Answers)
    ensures var (h', result) := Performed(h, Press(chords), true, a);
            h'.taken == h.taken + Through(PressRecords(chords), a.batches(0)) &&
            (result == Ok <==> |PressRecords(chords)| <= 32 * a.batches(0))
  {
    InjectionReaches(h, PressRecords(chords), true, a.batches(0));
  }

  lemma {:induction false} ClicksSpelled(button: Input, clicks: nat, k: nat)
    requires k < clicks
    ensures |ClickRecords(button, clicks)| == 2 * clicks
    ensures ClickRecords(button, clicks)[2 * k] == Record(button, false)
    ensures ClickRecords(button, clicks)[2 * k + 1] == Record(button, true)
  {
    if k > 0 {
      ClicksSpelled(button, clicks - 1, k - 1);
    }
  }

  /** A tap is one press and release of its key; clicks are as many of the button. */
  lemma TapsAndClicksReach(h: Host, action: Action, a: Answers)
    requires (action.Tap? || action.Click?) && a.batches(0) >= 1 && (action.Click? ==> action.clicks <= 16)
    ensures var (h', result) := Performed(h, action, true, a);
            var n := if action.Tap? then 1 else action.clicks;
            var input := if action.Tap? then Key(action.virtualKey, action.extended) else action.button;
            result == Ok && h.taken <= h'.taken && |h'.taken| == |h.taken| + 2 * n &&
            forall k :: 0 <= k < n ==>
              h'.taken[|h.taken| + 2 * k] == Record(input, false) &&
                  h'.taken[|h.taken| + 2 * k + 1] == Record(input, true)
  {
    if action.Tap? {
      var input := Key(action.virtualKey, action.extended);
      InjectionReaches(h, [Record(input, false), Record(input, true)], true, a.batches(0));
    } else {
      InjectionReaches(h, ClickRecords(action.button, action.clicks), true, a.batches(0));
      forall k | 0 <= k < action.clicks
        ensures |ClickRecords(action.button, action.clicks)| == 2 * action.clicks
        ensures ClickRecords(action.button, action.clicks)[2 * k] == Record(action.button, false)
        ensures ClickRecords(action.button, action.clicks)[2 * k + 1] == Record(action.button, true)
      {
        ClicksSpelled(action.button, action.clicks, k);
      }
    }
  }

  // ---------------------------------------------------------------------------------------------------------------
  // Release attempts

  /** One attempt to lift the held chord sends its ups. Taken, it ends the hold; refused, the hold is tried again 250 ms
      later, up to its 40th refusal, unless no retry is left; then it is abandoned. */
  lemma ChordAttempt(h: Host, expired: bool, retry: bool, a: Attempt)
    requires h.chord.held && h.chord.deviceAccess
    ensures var (h', result) := ChordReleased(h, expired, retry, a);
            h'.heldChord == h.heldChord && h'.mouse == h.mouse && h'.timer == h.timer &&
            if a.batches >= 1 then
              result == Ok && h'.taken == h.taken + ChordRecords(h.heldChord, true) && !h'.chord.held &&
              h'.chord.expired == expired && h'.chords == h.chords.(released := h.chords.released + 1)
            else if retry && h.chord.failedReleases < 39 then
              result.Failed? && h'.taken == h.taken && h'.chords.abandoned == h.chords.abandoned &&
              h'.chord == h.chord.(due := a.now + 250, failedReleases := h.chord.failedReleases + 1)
            else
              result.Failed? && h'.taken == h.taken && !h'.chord.held && !h'.chord.expired &&
              h'.chords.abandoned == h.chords.abandoned + 1 && h'.chords.released == h.chords.released
  {
    InjectionReaches(h, ChordRecords(h.heldChord, true), true, a.batches);
  }

  lemma ButtonAttempt(h: Host, expired: bool, retry: bool, a: Attempt)
    requires h.mouse.held && h.mouse.deviceAccess
    ensures var (h', result) := MouseReleased(h, expired, retry, a);
            h'.heldButton == h.heldButton && h'.chord == h.chord && h'.timer == h.timer &&
            if a.batches >= 1 then
              result == Ok && h'.taken == h.taken + [Record(h.heldButton, true)] && !h'.mouse.held &&
              h'.mouse.expired == expired && h'.buttons == h.buttons.(released := h.buttons.released + 1)
            else if retry && h.mouse.failedReleases < 39 then
              result.Failed? && h'.taken == h.taken && h'.buttons.abandoned == h.buttons.abandoned &&
              h'.mouse == h.mouse.(due := a.now + 250, failedReleases := h.mouse.failedReleases + 1)
            else
              result.Failed? && h'.taken == h.taken && !h'.mouse.held && !h'.mouse.expired &&
              h'.buttons.abandoned == h.buttons.abandoned + 1 && h'.buttons.released == h.buttons.released
  {
    InjectionReaches(h, [Record(h.heldButton, true)], true, a.batches);
  }

  // ---------------------------------------------------------------------------------------------------------------
  // keys.down and mouse.down

  /** A keys.down whose calls are taken sends the ups of the chord held before, if one was, and then its own downs, and
      from then on its chord is held, due two seconds after the press. */
  lemma DownPressesAndHolds(h: Host, chord: KeyChord, a: Answers)
    requires a.release.batches >= 1 && a.batches(0) >= 1 && (h.chord.held ==> h.chord.deviceAccess)
    ensures var (h', result) := ChordHeld(h, chord, false, true, a);
            var lifted := if h.chord.held then ChordRecords(h.heldChord, true) else [];
            result == Ok && h'.taken == h.taken + lifted + ChordRecords(chord, false) && h'.heldChord == chord &&
            h'.chord == Hold(a.begin + 2000, 0, true, true, false) && h'.mouse == h.mouse &&
            h'.chords.begun == h.chords.begun + 1
  {
    if h.chord.held {
      ChordAttempt(h, false, true, a.release);
    }
    InjectionReaches(ChordReleased(h, false, true, a.release).0, ChordRecords(chord, false), true, a.batches(0));
  }

  lemma ButtonDownPressesAndHolds(h: Host, button: Input, a: Answers)
    requires a.release.batches >= 1 && a.batches(0) >= 1 && (h.mouse.held ==> h.mouse.deviceAccess)
    ensures var (h', result) := ButtonHeld(h, button, false, true, a);
            var lifted := if h.mouse.held then [Record(h.heldButton, true)] else [];
            result == Ok && h'.taken == h.taken + lifted + [Record(button, false)] && h'.heldButton == button &&
            h'.mouse == Hold(a.begin + 2000, 0, true, true, false) && h'.chord == h.chord &&
            h'.buttons.begun == h.buttons.begun + 1
  {
    if h.mouse.held {
      ButtonAttempt(h, false, true, a.release);
    }
    InjectionReaches(MouseReleased(h, false, true, a.release).0, [Record(button, false)], true, a.batches(0));
  }

  /** Over a hold whose release is refused nothing is pressed: the old hold stays, unless that refusal was its 40th, and
      the failure is the answer. A refused press begins no hold. */
  lemma RefusedDownHoldsNothingNew(h: Host, chord: KeyChord, a: Answers)
    requires (h.chord.held && h.chord.deviceAccess && a.release.batches == 0) || (!h.chord.held && a.batches(0) == 0)
    ensures var (h', result) := ChordHeld(h, chord, false, true, a);
            result.Failed? && h'.taken == h.taken && h'.heldChord == h.heldChord && h'.chords.begun == h.chords.begun &&
            (h'.chord.held <==> h.chord.held && h.chord.failedReleases < 39)
  {
    if h.chord.held {
      ChordAttempt(h, false, true, a.release);
    } else {
      InjectionReaches(h, ChordRecords(chord, false), true, 0);
      assert Through(ChordRecords(chord, false), 0) == [];
    }
  }

  lemma RefusedButtonDownHoldsNothingNew(h: Host, button: Input, a: Answers)
    requires (h.mouse.held && h.mouse.deviceAccess && a.release.batches == 0) || (!h.mouse.held && a.batches(0) == 0)
    ensures var (h', result) := ButtonHeld(h, button, false, true, a);
            result.Failed? && h'.taken == h.taken && h'.heldButton == h.heldButton &&
            h'.buttons.begun == h.buttons.begun && (h'.mouse.held <==> h.mouse.held && h.mouse.failedReleases < 39)
  {
    if h.mouse.held {
      ButtonAttempt(h, false, true, a.release);
    } else {
      InjectionReaches(h, [Record(button, false)], true, 0);
      assert Through([Record(button, false)], 0) == [];
    }
  }

  // ---------------------------------------------------------------------------------------------------------------
  // The deadline

  /** When the operation looks for what has expired, its clock reads before `due`. */
  predicate Before(op: Op, due: nat) {
    match op
    case Execute(_, _, a) => a.expireNow < due
    case HeldTimer(now, _, _, _) => now < due
    case SetHostWindow(window, _, _, _) => window
    case ReleaseHeld(_, _, _) => false
  }

  lemma NotYetDueStays(h: Host, op: Op)
    requires h.chord.held && Before(op, h.chord.due) && LeavesChord(op, h.heldChord)
    ensures SameChord(h, Next(h, op))
  {
    if op.Execute? {
      var a := op.answers;
      var h' := Expired(h, a.expireNow, a.chordExpiry, a.mouseExpiry, a.expireArm);
      assert SameChord(h, h');
      ActionLeavesChord(h', op.action, op.deviceAccess, a);
    }
  }

  /** A held chord is left alone until it is due, whatever other operations come. */
  lemma {:induction false} HeldUntilDue(h: Host, ops: seq<Op>)
    requires h.chord.held
    requires forall op :: op in ops ==> Before(op, h.chord.due) && LeavesChord(op, h.heldChord)
    ensures SameChord(h, Run(h, ops))
    decreases ops
  {
    if ops != [] {
      NotYetDueStays(h, ops[0]);
      HeldUntilDue(Next(h, ops[0]), ops[1..]);
    }
  }

  lemma ButtonNotYetDueStays(h: Host, op: Op)
    requires h.mouse.held && Before(op, h.mouse.due) && LeavesButton(op, h.heldButton)
    ensures SameButton(h, Next(h, op))
  {
    if op.Execute? {
      var a := op.answers;
      var h' := Expired(h, a.expireNow, a.chordExpiry, a.mouseExpiry, a.expireArm);
      assert SameButton(h, h');
      ActionLeavesButton(h', op.action, op.deviceAccess, a);
    }
  }

  lemma {:induction false} ButtonHeldUntilDue(h: Host, ops: seq<Op>)
    requires h.mouse.held
    requires forall op :: op in ops ==> Before(op, h.mouse.due) && LeavesButton(op, h.heldButton)
    ensures SameButton(h, Run(h, ops))
    decreases ops
  {
    if ops != [] {
      ButtonNotYetDueStays(h, ops[0]);
      ButtonHeldUntilDue(Next(h, ops[0]), ops[1..]);
    }
  }

  /** A chord pressed is held for two seconds: no expiry of any run before 2000 ms past the press releases it, and the
      first one at or past them does, sending its ups. */
  lemma HoldLastsTwoSeconds(h: Host, chord: KeyChord, a: Answers, ops: seq<Op>, now: nat, release: Attempt,
                            mouse: Attempt, arm: nat)
    requires a.release.batches >= 1 && a.batches(0) >= 1 && (h.chord.held ==> h.chord.deviceAccess)
    requires forall op :: op in ops ==> Before(op, a.begin + 2000) && LeavesChord(op, chord)
    requires now >= a.begin + 2000 && release.batches >= 1
    ensures var kept := Run(ChordHeld(h, chord, false, true, a).0, ops);
            kept.chord.held && kept.heldChord == chord &&
            var h' := HeldInput.Expired(kept, now, release, mouse, arm);
            !h'.chord.held && h'.chord.expired && kept.taken + ChordRecords(chord, true) <= h'.taken
  {
    DownPressesAndHolds(h, chord, a);
    HeldUntilDue(ChordHeld(h, chord, false, true, a).0, ops);
    var kept := Run(ChordHeld(h, chord, false, true, a).0, ops);
    ChordAttempt(kept, true, true, release);
    ExpiryReleasesChord(kept, now, release, mouse, arm);
    MouseOnlyAppends(ChordReleased(kept, true, true, release).0, mouse);
  }

  lemma MouseOnlyAppends(h: Host, a: Attempt)
    ensures h.taken <= MouseReleased(h, true, true, a).0.taken
  {
    if h.mouse.held {
      InjectionReaches(h, [Record(h.heldButton, true)], h.mouse.deviceAccess, a.batches);
    }
  }

  lemma ButtonLastsTwoSeconds(h: Host, button: Input, a: Answers, ops: seq<Op>, now: nat, chord: Attempt,
                              release: Attempt, arm: nat)
    requires a.release.batches >= 1 && a.batches(0) >= 1 && (h.mouse.held ==> h.mouse.deviceAccess)
    requires forall op :: op in ops ==> Before(op, a.begin + 2000) && LeavesButton(op, button)
    requires now >= a.begin + 2000 && release.batches >= 1
    ensures var kept := Run(ButtonHeld(h, button, false, true, a).0, ops);
            kept.mouse.held && kept.heldButton == button &&
            var h' := HeldInput.Expired(kept, now, chord, release, arm);
            !h'.mouse.held && h'.mouse.expired && h'.buttons.released == kept.buttons.released + 1
  {
    ButtonDownPressesAndHolds(h, button, a);
    ButtonHeldUntilDue(ButtonHeld(h, button, false, true, a).0, ops);
    ExpiryReleasesButton(Run(ButtonHeld(h, button, false, true, a).0, ops), now, chord, release, arm);
  }

  /** In every run, while a window is set and something is held, the timer fires at the first due time of what is held,
      or a millisecond after it was armed when that has passed. */
  lemma TimerFiresFirst(ops: seq<Op>)
    ensures var h := Run(Initial(), ops);
            h.window && (h.chord.held || h.mouse.held) ==>
              h.timer.Some? &&
              var t := h.timer.value;
              (h.chord.held ==> t.fireAt <= h.chord.due || t.fireAt == t.armedAt + 1) &&
              (h.mouse.held ==> t.fireAt <= h.mouse.due || t.fireAt == t.armedAt + 1) &&
              ((h.chord.held && t.fireAt == h.chord.due) || (h.mouse.held && t.fireAt == h.mouse.due) ||
               (t.fireAt == t.armedAt + 1 && ((h.chord.held && h.chord.due <= t.armedAt) ||
                                             (h.mouse.held && h.mouse.due <= t.armedAt))))
    ensures var h := Run(Initial(), ops); !h.window || (!h.chord.held && !h.mouse.held) ==> h.timer.None?
  {
    RunKeepsInv(Initial(), ops);
  }

  // ---------------------------------------------------------------------------------------------------------------
  // The desktop is what it has taken

  predicate Faithful(h: Host) { h.down == Apply({}, h.taken) }

  lemma InjectionIsFaithful(h: Host, records: seq<Record>, deviceAccess: bool, batches: nat)
    requires Faithful(h)
    ensures Faithful(Injected(h, records, deviceAccess, batches).0)
  {
    ApplyConcat({}, h.taken, records[..Taken(|records|, batches)]);
  }

  lemma ReleasesAreFaithful(h: Host, expired: bool, retry: bool, a: Attempt)
    requires Faithful(h)
    ensures Faithful(ChordReleased(h, expired, retry, a).0) && Faithful(MouseReleased(h, expired, retry, a).0)
  {
    InjectionIsFaithful(h, ChordRecords(h.heldChord, true), h.chord.deviceAccess, a.batches);
    InjectionIsFaithful(h, [Record(h.heldButton, true)], h.mouse.deviceAccess, a.batches);
  }

  lemma ExpiryIsFaithful(h: Host, now: nat, chord: Attempt, mouse: Attempt, arm: nat)
    requires Faithful(h)
    ensures Faithful(HeldInput.Expired(h, now, chord, mouse, arm))
  {
    ReleasesAreFaithful(h, true, true, chord);
    var h1 := if h.chord.held && now >= h.chord.due then ChordReleased(h, true, true, chord).0 else h;
    ReleasesAreFaithful(h1, true, true, mouse);
  }

  lemma {:induction false} TypingIsFaithful(h: Host, units: seq<nat>, deviceAccess: bool, batches: nat -> nat,
                                            call: nat)
    requires Faithful(h)
    ensures Faithful(Typed(h, units, deviceAccess, batches, call).0)
    decreases |units|
  {
    if units != [] {
      var n := if |units| < BATCH_LIMIT / 2 then |units| else BATCH_LIMIT / 2;
      InjectionIsFaithful(h, TypeRecords(units[..n]), deviceAccess, batches(call));
      var h' := Sent(h, TypeRecords(units[..n]), deviceAccess, batches(call)).0;
      TypingIsFaithful(h', units[n..], deviceAccess, batches, call + 1);
    }
  }

  lemma ChordUpIsFaithful(h: Host, chord: KeyChord, deviceAccess: bool, a: Answers)
    requires Faithful(h)
    ensures Faithful(ChordHeld(h, chord, true, deviceAccess, a).0)
  {
    ReleasesAreFaithful(h, false, true, a.release);
    InjectionIsFaithful(h, ChordRecords(chord, true), deviceAccess, a.batches(0));
  }

  lemma ChordDownIsFaithful(h: Host, chord: KeyChord, deviceAccess: bool, a: Answers)
    requires Faithful(h)
    ensures Faithful(ChordHeld(h, chord, false, deviceAccess, a).0)
  {
    ReleasesAreFaithful(h, false, true, a.release);
    var h1 := ChordReleased(h, false, true, a.release).0;
    InjectionIsFaithful(h1, ChordRecords(chord, false), deviceAccess, a.batches(0));
  }

  lemma ButtonUpIsFaithful(h: Host, button: Input, deviceAccess: bool, a: Answers)
    requires Faithful(h)
    ensures Faithful(ButtonHeld(h, button, true, deviceAccess, a).0)
  {
    ReleasesAreFaithful(h, false, true, a.release);
    InjectionIsFaithful(h, [Record(button, true)], deviceAccess, a.batches(0));
  }

  lemma ButtonDownIsFaithful(h: Host, button: Input, deviceAccess: bool, a: Answers)
    requires Faithful(h)
    ensures Faithful(ButtonHeld(h, button, false, deviceAccess, a).0)
  {
    ReleasesAreFaithful(h, false, true, a.release);
    var h1 := MouseReleased(h, false, true, a.release).0;
    InjectionIsFaithful(h1, [Record(button, false)], deviceAccess, a.batches(0));
  }

  lemma ActionIsFaithful(h: Host, action: Action, deviceAccess: bool, a: Answers)
    requires Faithful(h)
    ensures Faithful(Performed(h, action, deviceAccess, a).0)
  {
    match action
    case Press(chords) => InjectionIsFaithful(h, PressRecords(chords), deviceAccess, a.batches(0));
    case Type(units) => TypingIsFaithful(h, units, deviceAccess, a.batches, 0);
    case Tap(vk, extended) =>
      InjectionIsFaithful(h, [Record(Key(vk, extended), false), Record(Key(vk, extended), true)], deviceAccess,
                          a.batches(0));
    case Click(button, clicks) => InjectionIsFaithful(h, ClickRecords(button, clicks), deviceAccess, a.batches(0));
    case HoldChord(chord, release) =>
      if release { ChordUpIsFaithful(h, chord, deviceAccess, a); } else { ChordDownIsFaithful(h, chord, deviceAccess,
                                                                                              a); }
    case HoldButton(button, release) =>
      if release { ButtonUpIsFaithful(h, button, deviceAccess, a); } else { ButtonDownIsFaithful(h, button,
                                                                                                 deviceAccess, a); }
    case Inert =>
  }

  lemma StepIsFaithful(h: Host, op: Op)
    requires Faithful(h)
    ensures Faithful(Next(h, op))
  {
    match op
    case Execute(action, deviceAccess, a) =>
      ExpiryIsFaithful(h, a.expireNow, a.chordExpiry, a.mouseExpiry, a.expireArm);
      ActionIsFaithful(HeldInput.Expired(h, a.expireNow, a.chordExpiry, a.mouseExpiry, a.expireArm), action,
                       deviceAccess, a);
    case HeldTimer(now, chord, mouse, arm) => ExpiryIsFaithful(h, now, chord, mouse, arm);
    case SetHostWindow(_, chord, mouse, _) =>
      ReleasesAreFaithful(h, false, false, chord);
      ReleasesAreFaithful(ChordReleased(h, false, false, chord).0, false, false, mouse);
    case ReleaseHeld(chord, mouse, _) =>
      ReleasesAreFaithful(h, false, false, chord);
      ReleasesAreFaithful(ChordReleased(h, false, false, chord).0, false, false, mouse);
  }

  lemma {:induction false} RunIsFaithful(h: Host, ops: seq<Op>)
    requires Faithful(h)
    ensures Faithful(Run(h, ops))
    decreases ops
  {
    if ops != [] {
      StepIsFaithful(h, ops[0]);
      RunIsFaithful(Next(h, ops[0]), ops[1..]);
    }
  }

  /** Over every run, what is down is what the records taken so far leave down, in order. */
  lemma DownIsWhatWasTaken(ops: seq<Op>)
    ensures Run(Initial(), ops).down == Apply({}, Run(Initial(), ops).taken)
  {
    RunIsFaithful(Initial(), ops);
  }

  // ---------------------------------------------------------------------------------------------------------------
  // Shutdown, and what does not parse

  /** Shutdown makes one attempt for each kind and forgets both: nothing is held or marked expired after it. */
  lemma ShutdownForgets(h: Host, chord: Attempt, mouse: Attempt, arm: nat)
    ensures var h' := AllReleased(h, chord, mouse, arm);
            h'.chord == Hold(0, 0, false, false, false) && h'.mouse == Hold(0, 0, false, false, false) &&
            h.taken <= h'.taken && h'.window == h.window && (h.window ==> h'.timer.None?)
  {
    ReleaseAppends(h, false, chord);
    ReleaseAppends(ChordReleased(h, false, false, chord).0, false, mouse);
  }

  lemma ReleaseAppends(h: Host, expired: bool, a: Attempt)
    ensures h.taken <= ChordReleased(h, expired, false, a).0.taken
    ensures h.taken <= MouseReleased(h, expired, false, a).0.taken
  {
    InjectionReaches(h, ChordRecords(h.heldChord, true), h.chord.deviceAccess, a.batches);
    InjectionReaches(h, [Record(h.heldButton, true)], h.mouse.deviceAccess, a.batches);
  }

  /** An action whose target does not parse is answered so and does nothing beyond the expiry before it. */
  lemma UnparsedDoesNothing(h: Host, deviceAccess: bool, a: Answers)
    ensures Executed(h, Inert, deviceAccess, a) ==
            (HeldInput.Expired(h, a.expireNow, a.chordExpiry, a.mouseExpiry, a.expireArm), InvalidArg)
  {
  }

  /** Without device access nothing is sent: an action only counts its records. */
  lemma WithoutAccessNothingIsSent(h: Host, action: Action, a: Answers)
    requires action.Press? || action.Type? || action.Tap? || action.Click?
    ensures var (h', result) := Performed(h, action, false, a);
            result == Ok && h'.taken == h.taken && h'.down == h.down
  {
    if action.Type? {
      TypingWithoutAccess(h, action.units, a.batches, 0);
    }
  }

  lemma {:induction false} TypingWithoutAccess(h: Host, units: seq<nat>, batches: nat -> nat, call: nat)
    ensures var (h', result) := Typed(h, units, false, batches, call);
            result == Ok && h'.taken == h.taken && h'.down == h.down
    decreases |units|
  {
    if units != [] {
      var n := if |units| < BATCH_LIMIT / 2 then |units| else BATCH_LIMIT / 2;
      TypingWithoutAccess(Sent(h, TypeRecords(units[..n]), false, batches(call)).0, units[n..], batches, call + 1);
    }
  }

  /** A hold begun without device access sends nothing, neither its press nor its release, and ends all the same. */
  lemma HoldsWithoutAccessSendNothing(h: Host, chord: KeyChord, button: Input, a: Answers, expired: bool, retry: bool,
                                      release: Attempt)
    requires !h.chord.held && !h.mouse.held
    ensures var h' := ChordHeld(h, chord, false, false, a).0;
            h'.chord == Hold(a.begin + 2000, 0, true, false, false) && h'.heldChord == chord && h'.taken == h.taken &&
            var ended := ChordReleased(h', expired, retry, release).0;
            !ended.chord.held && ended.taken == h.taken && ended.chords.released == h.chords.released + 1
    ensures var h' := ButtonHeld(h, button, false, false, a).0;
            h'.mouse == Hold(a.begin + 2000, 0, true, false, false) && h'.heldButton == button && h'.taken == h.taken &&
            var ended := MouseReleased(h', expired, retry, release).0;
            !ended.mouse.held && ended.taken == h.taken && ended.buttons.released == h.buttons.released + 1
  {
  }
}
