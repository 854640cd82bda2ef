// The statements of RedXe/HostActions.cpp over its globals, each proved to compute its function in HeldInput.
module HostActionsEngine {
  import opened Basics
  import opened InputRecords
  import opened HeldInput

  /** The modifier table: the key of modifier `i` when the chord has it. */
  function ModifierAt(chord: KeyChord, i: nat): (r: Option<Input>)
    requires i < 4
  {
    if i == 0 then if chord.control then Some(Key(VK_CONTROL, false)) else None
    else if i == 1 then if chord.shift then Some(Key(VK_SHIFT, false)) else None
    else if i == 2 then if chord.alt then Some(Key(VK_MENU, false)) else None
    else if chord.win then Some(Key(VK_LWIN, true)) else None
  }

  ghost function ModifiersBefore(chord: KeyChord, i: nat): (r: seq<Input>)
    requires i <= 4
  {
    if i == 0 then []
    else ModifiersBefore(chord, i - 1) + match ModifierAt(chord, i - 1) case Some(key) => [key] case None => []
  }

  lemma ModifiersInOrder(chord: KeyChord)
    ensures ModifiersBefore(chord, 4) == ModifierKeys(chord)
  {
    assert ModifiersBefore(chord, 1) == if chord.control then [Key(VK_CONTROL, false)] else [];
    assert ModifiersBefore(chord, 2) == ModifiersBefore(chord, 1) + if chord.shift then [Key(VK_SHIFT, false)] else [];
    assert ModifiersBefore(chord, 3) == ModifiersBefore(chord, 2) + if chord.alt then [Key(VK_MENU, false)] else [];
  }

  lemma RecordsSnoc(inputs: seq<Input>, input: Input, up: bool)
    ensures Records(inputs + [input], up) == Records(inputs, up) + [Record(input, up)]
  {
  }

  /** The units still to be typed once a full buffer has gone. */
  lemma FullBuffer(units: seq<nat>, start: nat, cursor: nat)
    requires start <= cursor <= |units| && cursor - start <= |units| - start
    ensures units[start..][..cursor - start] == units[start..cursor]
    ensures units[start..][cursor - start..] == units[cursor..]
  {
  }

  /** Typing the rest is sending a buffer that is full, or the last, and typing what is left after it. */
  lemma TypedBuffer(h: Host, units: seq<nat>, start: nat, cursor: nat, deviceAccess: bool, batches: nat -> nat,
                    call: nat)
    requires start < cursor <= |units|
    requires cursor - start == BATCH_LIMIT / 2 || (cursor == |units| && cursor - start < BATCH_LIMIT / 2)
    ensures Typed(h, units[start..], deviceAccess, batches, call) ==
            (var (h', sent) := Sent(h, TypeRecords(units[start..cursor]), deviceAccess, batches(call));
             if sent then Typed(h', units[cursor..], deviceAccess, batches, call + 1) else (h', Failed(5)))
  {
    FullBuffer(units, start, cursor);
  }

  class HostActions {
    var window: bool
    var timer: Option<Timer>
    var chord: Hold
    var heldChord: KeyChord
    var mouse: Hold
    var heldButton: Input
    var injected: nat
    var down: set<Input>  // the desktop
    ghost var chords: Ledger
    ghost var buttons: Ledger
    ghost var leaked: set<Input>
    ghost var taken: seq<Record>

    ghost function Value(): (r: Host)
      reads this
    {
      Host(window, timer, chord, heldChord, mouse, heldButton, injected, down, chords, buttons, leaked, taken)
    }

    constructor ()
      ensures Value() == Initial()
    {
      window, timer, chord, heldChord, mouse, heldButton := false, None, NO_HOLD, NO_CHORD, NO_HOLD, Button(0, 0);
      injected, down, chords, buttons, leaked, taken := 0, {}, NO_LEDGER, NO_LEDGER, {}, [];
    }

    // Sends at most BATCH_LIMIT records a call; the desktop takes `batches` calls and refuses the next.
    method Inject(records: seq<Record>, deviceAccess: bool, batches: nat) returns (sent: bool)
      modifies this`injected, this`down, this`taken
      ensures (Value(), sent) == Injected(old(Value()), records, deviceAccess, batches)
    {
      injected := injected + |records|;
      if !deviceAccess {
        return true;
      }
      var offset, calls := 0, 0;
      assert records[..0] == [] && taken + [] == taken;
      while offset < |records|
        invariant calls <= batches && offset == Taken(|records|, calls)
        invariant injected == old(injected) + |records| && down == Apply(old(down), records[..offset])
        invariant taken == old(taken) + records[..offset]
        decreases |records| - offset
      {
        if calls == batches {
          return false;
        }
        var batch := if BATCH_LIMIT < |records| - offset then BATCH_LIMIT else |records| - offset;
        assert records[..offset + batch] == records[..offset] + records[offset..offset + batch];
        ApplyConcat(old(down), records[..offset], records[offset..offset + batch]);
        down := Apply(down, records[offset..offset + batch]);
        taken := taken + records[offset..offset + batch];
        offset, calls := offset + batch, calls + 1;
      }
      return true;
    }

    // The records that press a chord, or lift it, one modifier after the other.
    static method FillChord(chord: KeyChord, up: bool) returns (inputs: seq<Record>)
      ensures inputs == ChordRecords(chord, up)
    {
      inputs := [];
      if up {
        inputs := inputs + [Record(MainKey(chord), true)];
      }
      ghost var first := inputs;
      for i := 0 to 4
        invariant inputs == first + Records(ModifiersBefore(chord, i), up)
      {
        var modifier := ModifierAt(chord, i);
        if modifier.Some? {
          RecordsSnoc(ModifiersBefore(chord, i), modifier.value, up);
          inputs := inputs + [Record(modifier.value, up)];
        }
      }
      ModifiersInOrder(chord);
      if up {
        assert inputs == ChordRecords(chord, true);
      } else {
        RecordsSnoc(ModifierKeys(chord), MainKey(chord), false);
        inputs := inputs + [Record(MainKey(chord), false)];
      }
    }

    method ArmHeldTimer(now: nat)
      modifies this`timer
      ensures Value() == Armed(old(Value()), now)
    {
      if !window {
        return;
      }
      timer := None;
      if !chord.held && !mouse.held {
        return;
      }
      var due := if !mouse.held || (chord.held && chord.due <= mouse.due) then chord.due else mouse.due;
      timer := Some(Timer(now, now + if due > now then due - now else 1));
    }

    static method SettleRelease(hold: Hold, sent: bool, expired: bool, retry: bool, now: nat) returns (settled: Hold)
      ensures settled == Settled(hold, sent, expired, retry, now)
    {
      settled := hold;
      if !sent && retry {
        settled := settled.(failedReleases := settled.failedReleases + 1);
        if settled.failedReleases < MAXIMUM_RELEASE_ATTEMPTS {
          settled := settled.(due := now + RETRY_MILLISECONDS);
          return;
        }
      }
      settled := settled.(held := false, expired := expired && sent, failedReleases := 0);
    }

    method ReleaseChord(expired: bool, retry: bool, a: Attempt) returns (result: HResult)
      modifies this`injected, this`down, this`taken, this`chord, this`chords, this`leaked
      ensures (Value(), result) == ChordReleased(old(Value()), expired, retry, a)
    {
      if !chord.held {
        return False;
      }
      var inputs := FillChord(heldChord, true);
      var sent := Inject(inputs, chord.deviceAccess, a.batches);
      chords := Recorded(chords, chord, sent, retry);
      leaked := leaked + Left(chord, sent, retry, ChordKeys(heldChord));
      chord := SettleRelease(chord, sent, expired, retry, a.now);
      return if sent then Ok else Failed(5);
    }

    method ReleaseMouse(expired: bool, retry: bool, a: Attempt) returns (result: HResult)
      modifies this`injected, this`down, this`taken, this`mouse, this`buttons, this`leaked
      ensures (Value(), result) == MouseReleased(old(Value()), expired, retry, a)
    {
      if !mouse.held {
        return False;
      }
      var sent := Inject([Record(heldButton, true)], mouse.deviceAccess, a.batches);
      buttons := Recorded(buttons, mouse, sent, retry);
      leaked := leaked + Left(mouse, sent, retry, {heldButton});
      mouse := SettleRelease(mouse, sent, expired, retry, a.now);
      return if sent then Ok else Failed(5);
    }

    method ExpireHeld(now: nat, chordAttempt: Attempt, mouseAttempt: Attempt, arm: nat)
      modifies this
      ensures Value() == Expired(old(Value()), now, chordAttempt, mouseAttempt, arm)
    {
      if chord.held && now >= chord.due {
        var _ := ReleaseChord(true, true, chordAttempt);
      }
      if mouse.held && now >= mouse.due {
        var _ := ReleaseMouse(true, true, mouseAttempt);
      }
      ArmHeldTimer(arm);
    }

    // Inject for an action that presses and releases; what an interruption leaves down is noted.
    method Send(records: seq<Record>, deviceAccess: bool, batches: nat) returns (sent: bool)
      modifies this`injected, this`down, this`taken, this`leaked
      ensures (Value(), sent) == Sent(old(Value()), records, deviceAccess, batches)
    {
      ghost var before := down;
      sent := Inject(records, deviceAccess, batches);
      leaked := leaked + (down - before);
    }

    method PressChords(sequence: seq<KeyChord>, deviceAccess: bool, batches: nat) returns (sent: bool)
      modifies this`injected, this`down, this`taken, this`leaked
      ensures (Value(), sent) == Sent(old(Value()), PressRecords(sequence), deviceAccess, batches)
    {
      var inputs := [];
      for i := 0 to |sequence|
        invariant inputs == PressRecords(sequence[..i])
        invariant Value() == old(Value())
      {
        var press := FillChord(sequence[i], false);
        var release := FillChord(sequence[i], true);
        assert sequence[..i + 1] == sequence[..i] + [sequence[i]];
        PressSnoc(sequence[..i], sequence[i]);
        assert inputs + press + release == inputs + (press + release);
        inputs := inputs + press + release;
      }
      assert sequence[..|sequence|] == sequence;
      sent := Send(inputs, deviceAccess, batches);
    }

    // The down and up records of one code unit.
    static method AppendUnit(inputs: seq<Record>, unit: nat, ghost typed: seq<nat>) returns (longer: seq<Record>)
      requires inputs == TypeRecords(typed)
      ensures longer == TypeRecords(typed + [unit])
    {
      longer := inputs;
      for phase := 0 to 2
        invariant longer == inputs + [Record(Unicode(unit), false), Record(Unicode(unit), true)][..phase]
      {
        longer := longer + [Record(Unicode(unit), phase == 1)];
      }
      TypeConcat(typed, [unit]);
      assert TypeRecords([unit]) == [Record(Unicode(unit), false), Record(Unicode(unit), true)];
    }

    // The buffer is sent each time it is full, and once more for what is left.
    method TypeText(units: seq<nat>, deviceAccess: bool, batches: nat -> nat) returns (result: HResult)
      modifies this`injected, this`down, this`taken, this`leaked
      ensures (Value(), result) == Typed(old(Value()), units, deviceAccess, batches, 0)
    {
      var inputs: seq<Record> := [];
      var cursor, calls, sent := 0, 0, true;
      ghost var start := 0;
      assert units[0..] == units;
      while cursor < |units| && sent
        invariant start <= cursor <= |units| && (sent ==> inputs == TypeRecords(units[start..cursor]))
        invariant cursor - start < BATCH_LIMIT / 2
        invariant sent ==> Typed(old(Value()), units, deviceAccess, batches, 0) ==
                           Typed(Value(), units[start..], deviceAccess, batches, calls)
        invariant !sent ==> Typed(old(Value()), units, deviceAccess, batches, 0) == (Value(), Failed(5))
        decreases |units| - cursor, if sent then 1 else 0
      {
        assert units[start..cursor + 1] == units[start..cursor] + [units[cursor]];
        inputs := AppendUnit(inputs, units[cursor], units[start..cursor]);
        cursor := cursor + 1;
        if |inputs| == BATCH_LIMIT {
          TypedBuffer(Value(), units, start, cursor, deviceAccess, batches, calls);
          sent := Send(inputs, deviceAccess, batches(calls));
          inputs, calls, start := [], calls + 1, cursor;
        }
      }
      if sent && |inputs| != 0 {
        TypedBuffer(Value(), units, start, cursor, deviceAccess, batches, calls);
        sent := Send(inputs, deviceAccess, batches(calls));
      }
      return if sent then Ok else Failed(5);
    }

    method ClickButton(button: Input, clicks: nat, deviceAccess: bool, batches: nat) returns (sent: bool)
      modifies this`injected, this`down, this`taken, this`leaked
      ensures (Value(), sent) == Sent(old(Value()), ClickRecords(button, clicks), deviceAccess, batches)
    {
      var inputs := [];
      for click := 0 to clicks
        invariant inputs + ClickRecords(button, clicks - click) == ClickRecords(button, clicks)
        invariant Value() == old(Value())
      {
        inputs := inputs + [Record(button, false), Record(button, true)];
      }
      assert inputs + [] == inputs;
      sent := Send(inputs, deviceAccess, batches);
    }

    // The batch of a press, which begins a hold, or of a release no hold records.
    method SendChord(target: KeyChord, release: bool, deviceAccess: bool, batches: nat, begin: nat) returns (sent: bool)
      modifies this
      ensures (Value(), sent) == ChordSent(old(Value()), target, release, deviceAccess, batches, begin)
    {
      var inputs := FillChord(target, release);
      sent := Inject(inputs, deviceAccess, batches);
      if sent && !release {
        heldChord := target;
        chord := Begun(begin, deviceAccess);
        chords := chords.(begun := chords.begun + 1, failures := 0);
      }
    }

    method SendButton(target: Input, release: bool, deviceAccess: bool, batches: nat, begin: nat) returns (sent: bool)
      modifies this
      ensures (Value(), sent) == ButtonSent(old(Value()), target, release, deviceAccess, batches, begin)
    {
      sent := Inject([Record(target, release)], deviceAccess, batches);
      if sent && !release {
        heldButton := target;
        mouse := Begun(begin, deviceAccess);
        buttons := buttons.(begun := buttons.begun + 1, failures := 0);
      }
    }

    method HoldChord(target: KeyChord, release: bool, deviceAccess: bool, a: Answers) returns (result: HResult)
      modifies this
      ensures (Value(), result) == ChordHeld(old(Value()), target, release, deviceAccess, a)
    {
      var own := target == heldChord;
      if release && chord.held && own {
        result := ReleaseChord(false, true, a.release);
        ArmHeldTimer(a.arm);
        return;
      }
      if release && chord.expired && own {
        chord := chord.(expired := false);
        return False;
      }
      if !release && chord.held {
        result := ReleaseChord(false, true, a.release);
        if !result.Succeeded() {
          ArmHeldTimer(a.arm);
          return;
        }
      }
      var sent := SendChord(target, release, deviceAccess, a.batches(0), a.begin);
      ArmHeldTimer(a.arm);
      return if sent then Ok else Failed(5);
    }

    method HoldButton(target: Input, release: bool, deviceAccess: bool, a: Answers) returns (result: HResult)
      modifies this
      ensures (Value(), result) == ButtonHeld(old(Value()), target, release, deviceAccess, a)
    {
      var own := target == heldButton;
      if release && mouse.held && own {
        result := ReleaseMouse(false, true, a.release);
        ArmHeldTimer(a.arm);
        return;
      }
      if release && mouse.expired && own {
        mouse := mouse.(expired := false);
        return False;
      }
      if !release && mouse.held {
        result := ReleaseMouse(false, true, a.release);
        if !result.Succeeded() {
          ArmHeldTimer(a.arm);
          return;
        }
      }
      var sent := SendButton(target, release, deviceAccess, a.batches(0), a.begin);
      ArmHeldTimer(a.arm);
      return if sent then Ok else Failed(5);
    }

    method SetHostWindow(next: bool, chordAttempt: Attempt, mouseAttempt: Attempt, arm: nat)
      modifies this
      ensures Value() == WindowSet(old(Value()), next, chordAttempt, mouseAttempt, arm)
    {
      if !next {
        var _ := ReleaseChord(false, false, chordAttempt);
        var _ := ReleaseMouse(false, false, mouseAttempt);
      }
      if window {
        timer := None;
      }
      window := next;
      ArmHeldTimer(arm);
    }

    method ReleaseHeld(chordAttempt: Attempt, mouseAttempt: Attempt, arm: nat)
      modifies this
      ensures Value() == AllReleased(old(Value()), chordAttempt, mouseAttempt, arm)
    {
      var _ := ReleaseChord(false, false, chordAttempt);
      var _ := ReleaseMouse(false, false, mouseAttempt);
      chord := NO_HOLD;
      mouse := NO_HOLD;
      ArmHeldTimer(arm);
    }

    method Execute(action: Action, deviceAccess: bool, a: Answers) returns (result: HResult)
      modifies this
      ensures (Value(), result) == Executed(old(Value()), action, deviceAccess, a)
    {
      ExpireHeld(a.expireNow, a.chordExpiry, a.mouseExpiry, a.expireArm);
      match action
      case Press(sequence) =>
        var sent := PressChords(sequence, deviceAccess, a.batches(0));
        return if sent then Ok else Failed(5);
      case Type(units) =>
        result := TypeText(units, deviceAccess, a.batches);
      case Tap(vk, extended) =>
        var sent := Send([Record(Key(vk, extended), false), Record(Key(vk, extended), true)], deviceAccess,
                         a.batches(0));
        return if sent then Ok else Failed(5);
      case Click(button, clicks) =>
        var sent := ClickButton(button, clicks, deviceAccess, a.batches(0));
        return if sent then Ok else Failed(5);
      case HoldChord(target, release) =>
        result := HoldChord(target, release, deviceAccess, a);
      case HoldButton(target, release) =>
        result := HoldButton(target, release, deviceAccess, a);
      case Inert =>
        return InvalidArg;
    }
  }
}
