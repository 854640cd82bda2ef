// The input records RedXe/HostActions.cpp builds and sends, and what they do to the set of keys and buttons that are
// down on the desktop.
module InputRecords {
  const VK_CONTROL: nat := 0x11
  const VK_SHIFT: nat := 0x10
  const VK_MENU: nat := 0x12
  const VK_LWIN: nat := 0x5B

  const BATCH_LIMIT: nat := 32

  datatype Input = Key(virtualKey: nat, extended: bool) | Unicode(unit: nat) | Button(flags: nat, data: nat)

  datatype Record = Record(input: Input, up: bool)

  datatype KeyChord = KeyChord(control: bool, shift: bool, alt: bool, win: bool, virtualKey: nat, extended: bool)

  function ModifierKeys(chord: KeyChord): (keys: seq<Input>)
    ensures |keys| <= 4
  {
    (if chord.control then [Key(VK_CONTROL, false)] else []) +
    (if chord.shift then [Key(VK_SHIFT, false)] else []) +
    (if chord.alt then [Key(VK_MENU, false)] else []) +
    (if chord.win then [Key(VK_LWIN, true)] else [])
  }

  function MainKey(chord: KeyChord): (r: Input) { Key(chord.virtualKey, chord.extended) }

  function Records(inputs: seq<Input>, up: bool): (r: seq<Record>)
    ensures |r| == |inputs|
  {
    seq(|inputs|, i requires 0 <= i < |inputs| => Record(inputs[i], up))
  }

  /** The chord's inputs in the order they go down, or up: the main key goes down last and comes up first. */
  function ChordInputs(chord: KeyChord, up: bool): (inputs: seq<Input>)
    ensures 1 <= |inputs| <= 5 && |inputs| == |ModifierKeys(chord)| + 1
  {
    if up then [MainKey(chord)] + ModifierKeys(chord) else ModifierKeys(chord) + [MainKey(chord)]
  }

  function ChordRecords(chord: KeyChord, up: bool): (r: seq<Record>)
    ensures 1 <= |r| <= 5 && |r| == |ModifierKeys(chord)| + 1
  {
    Records(ChordInputs(chord, up), up)
  }

  function Members(inputs: seq<Input>): (keys: set<Input>) { set i | i in inputs }

  /** Every input a chord presses. */
  function ChordKeys(chord: KeyChord): (keys: set<Input>) { {MainKey(chord)} + Members(ModifierKeys(chord)) }

  function Step(down: set<Input>, record: Record): (r: set<Input>) {
    if record.up then down - {record.input} else down + {record.input}
  }

  /** What is down after the desktop has processed `records`. */
  function Apply(down: set<Input>, records: seq<Record>): (r: set<Input>)
    decreases records
  {
    if records == [] then down else Apply(Step(down, records[0]), records[1..])
  }

  lemma {:induction false} ApplyConcat(down: set<Input>, a: seq<Record>, b: seq<Record>)
    ensures Apply(down, a + b) == Apply(Apply(down, a), b)
    decreases a
  {
    if a == [] {
      assert a + b == b;
    } else {
      ApplyConcat(Step(down, a[0]), a[1..], b);
      assert (a + b)[1..] == a[1..] + b;
    }
  }

  lemma {:induction false} ApplyRecords(down: set<Input>, inputs: seq<Input>, up: bool)
    ensures Apply(down, Records(inputs, up)) ==
              if up then down - Members(inputs) else down + Members(inputs)
    decreases inputs
  {
    if inputs != [] {
      ApplyRecords(Step(down, Record(inputs[0], up)), inputs[1..], up);
      assert Records(inputs, up)[1..] == Records(inputs[1..], up);
      assert inputs == [inputs[0]] + inputs[1..];
    }
  }

  /** Sent whole, a chord's press adds exactly its keys and its release removes exactly them. */
  lemma ChordEffect(down: set<Input>, chord: KeyChord, up: bool)
    ensures Apply(down, ChordRecords(chord, up)) ==
              if up then down - ChordKeys(chord) else down + ChordKeys(chord)
  {
    ApplyRecords(down, ChordInputs(chord, up), up);
    assert Members(ChordInputs(chord, up)) == ChordKeys(chord);
  }

  function Tapped(chord: KeyChord): (r: seq<Record>)
    ensures 2 <= |r| <= 10 && |r| == 2 * |ChordInputs(chord, true)|
  {
    ChordRecords(chord, false) + ChordRecords(chord, true)
  }

  /** keys.press: every chord pressed and released in turn. */
  function PressRecords(chords: seq<KeyChord>): (r: seq<Record>)
    ensures |r| <= 10 * |chords|
  {
    if chords == [] then [] else Tapped(chords[0]) + PressRecords(chords[1..])
  }

  lemma {:induction false} PressSnoc(chords: seq<KeyChord>, chord: KeyChord)
    ensures PressRecords(chords + [chord]) == PressRecords(chords) + Tapped(chord)
  {
    if chords == [] {
      assert [chord][1..] == [];
    } else {
      var more := chords + [chord];
      assert more[0] == chords[0] && more[1..] == chords[1..] + [chord];
      PressSnoc(chords[1..], chord);
      assert PressRecords(more) == Tapped(chords[0]) + PressRecords(more[1..]);
    }
  }

  /** keys.type: one press and release a code unit. */
  function TypeRecords(units: seq<nat>): (r: seq<Record>)
    ensures |r| == 2 * |units|
  {
    if units == [] then []
    else [Record(Unicode(units[0]), false), Record(Unicode(units[0]), true)] + TypeRecords(units[1..])
  }

  lemma {:induction false} TypeConcat(a: seq<nat>, b: seq<nat>)
    ensures TypeRecords(a + b) == TypeRecords(a) + TypeRecords(b)
  {
    if a == [] {
      assert a + b == b;
    } else {
      var both := a + b;
      assert both[0] == a[0] && both[1..] == a[1..] + b;
      TypeConcat(a[1..], b);
      assert TypeRecords(both) == TypeRecords([a[0]] + both[1..]);
    }
  }

  function ClickRecords(button: Input, clicks: nat): (r: seq<Record>)
    ensures |r| == 2 * clicks
  {
    if clicks == 0 then [] else [Record(button, false), Record(button, true)] + ClickRecords(button, clicks - 1)
  }

  // ---------------------------------------------------------------------------------------------------------------
  // Batches

  /** How many of `count` records the desktop takes when it accepts that many whole batches and refuses the next. */
  function Taken(count: nat, batches: nat): (n: nat)
    ensures n <= count
    ensures n == count || n % BATCH_LIMIT == 0
    ensures count <= BATCH_LIMIT ==> n == 0 || n == count
  {
    if BATCH_LIMIT * batches < count then BATCH_LIMIT * batches else count
  }

  lemma PairEffect(down: set<Input>, input: Input)
    ensures Apply(down, [Record(input, false), Record(input, true)]) == down - {input}
  {
    var pair := [Record(input, false), Record(input, true)];
    assert pair == [pair[0]] + [pair[1]];
    ApplyConcat(down, [pair[0]], [pair[1]]);
  }

  /** A chord sent whole leaves none of its keys down, and every other input as it was. */
  lemma TapEffect(down: set<Input>, chord: KeyChord)
    ensures Apply(down, Tapped(chord)) == down - ChordKeys(chord)
  {
    ApplyConcat(down, ChordRecords(chord, false), ChordRecords(chord, true));
    ChordEffect(down, chord, false);
    ChordEffect(down + ChordKeys(chord), chord, true);
  }

  lemma {:induction false} PressesLeaveNothing(down: set<Input>, chords: seq<KeyChord>)
    ensures Apply(down, PressRecords(chords)) <= down
    decreases chords
  {
    if chords != [] {
      TapEffect(down, chords[0]);
      ApplyConcat(down, Tapped(chords[0]), PressRecords(chords[1..]));
      PressesLeaveNothing(Apply(down, Tapped(chords[0])), chords[1..]);
    }
  }

  lemma {:induction false} TypingLeavesNothing(down: set<Input>, units: seq<nat>)
    ensures Apply(down, TypeRecords(units)) <= down
    decreases units
  {
    if units != [] {
      PairEffect(down, Unicode(units[0]));
      ApplyConcat(down, [Record(Unicode(units[0]), false), Record(Unicode(units[0]), true)], TypeRecords(units[1..]));
      TypingLeavesNothing(down - {Unicode(units[0])}, units[1..]);
    }
  }

  lemma {:induction false} ClicksLeaveNothing(down: set<Input>, button: Input, clicks: nat)
    ensures Apply(down, ClickRecords(button, clicks)) <= down
    decreases clicks
  {
    if clicks > 0 {
      PairEffect(down, button);
      ApplyConcat(down, [Record(button, false), Record(button, true)], ClickRecords(button, clicks - 1));
      ClicksLeaveNothing(down - {button}, button, clicks - 1);
    }
  }

  /** The record counts at which the presses of `chords` are complete. */
  predicate Between(chords: seq<KeyChord>, n: nat) {
    n == 0 || (chords != [] && n >= |Tapped(chords[0])| && Between(chords[1..], n - |Tapped(chords[0])|))
  }

  /** A chord whose last modifier is its main key as well, as in Ctrl+Ctrl: its last record lifts nothing. */
  predicate EndsOnItsKey(chord: KeyChord) {
    var modifiers := ModifierKeys(chord);
    modifiers != [] && modifiers[|modifiers| - 1] == MainKey(chord)
  }

  /** What the first `n` records of a chord's press and release leave down: the downs so far, or the ups to come. */
  function PartPressed(chord: KeyChord, n: nat): (keys: set<Input>)
    requires n <= |Tapped(chord)|
  {
    var press, release := ChordInputs(chord, false), ChordInputs(chord, true);
    if n <= |press| then Members(press[..n]) else ChordKeys(chord) - Members(release[..n - |press|])
  }

  /** What the first `n` records of the presses leave down: the part of the one chord the cut falls into. */
  function CutOff(chords: seq<KeyChord>, n: nat): (keys: set<Input>)
  {
    if chords == [] then {}
    else if n < |Tapped(chords[0])| then PartPressed(chords[0], n)
    else CutOff(chords[1..], n - |Tapped(chords[0])|)
  }

  lemma PartOfTapEffect(chord: KeyChord, n: nat)
    requires n <= |Tapped(chord)|
    ensures Apply({}, Tapped(chord)[..n]) == PartPressed(chord, n)
  {
    var press, release := ChordInputs(chord, false), ChordInputs(chord, true);
    if n <= |press| {
      assert Tapped(chord)[..n] == Records(press[..n], false);
      ApplyRecords({}, press[..n], false);
    } else {
      var k := n - |press|;
      assert Tapped(chord)[..n] == ChordRecords(chord, false) + Records(release[..k], true);
      ApplyConcat({}, ChordRecords(chord, false), Records(release[..k], true));
      ChordEffect({}, chord, false);
      assert {} + ChordKeys(chord) == ChordKeys(chord);
      ApplyRecords(ChordKeys(chord), release[..k], true);
    }
  }

  /** Cutting a chord short leaves something down, except just before a last up that lifts nothing. */
  lemma PartPressedEmpty(chord: KeyChord, n: nat)
    requires n < |Tapped(chord)|
    ensures PartPressed(chord, n) == {} <==> n == 0 || (n == |Tapped(chord)| - 1 && EndsOnItsKey(chord))
  {
    var press, modifiers := ChordInputs(chord, false), ModifierKeys(chord);
    if n == 0 {
      assert press[..0] == [];
    } else if n <= |press| {
      assert press[0] in Members(press[..n]);
    } else {
      ModifiersDiffer(chord);
      RestOfRelease(MainKey(chord), modifiers, n - |press|);
    }
  }

  lemma ModifiersDiffer(chord: KeyChord)
    ensures var keys := ModifierKeys(chord); forall i, j :: 0 <= i < j < |keys| ==> keys[i] != keys[j]
  {
  }

  /** Of a key and its modifiers, the first `k` ups leave nothing down only if the one up to come repeats the key. */
  lemma RestOfRelease(key: Input, modifiers: seq<Input>, k: nat)
    requires 0 < k <= |modifiers| && forall i, j :: 0 <= i < j < |modifiers| ==> modifiers[i] != modifiers[j]
    ensures ({key} + Members(modifiers)) - Members(([key] + modifiers)[..k]) == {} <==>
              k == |modifiers| && modifiers[|modifiers| - 1] == key
  {
    var last := |modifiers| - 1;
    var lifted := [key] + modifiers[..k - 1];
    assert ([key] + modifiers)[..k] == lifted;
    if modifiers[last] != key {
      assert modifiers[last] !in lifted;
      assert modifiers[last] in ({key} + Members(modifiers)) - Members(lifted);
    } else if k <= last {
      assert modifiers[last - 1] != key;
      assert modifiers[last - 1] !in lifted;
      assert modifiers[last - 1] in ({key} + Members(modifiers)) - Members(lifted);
    } else {
      forall i | i in {key} + Members(modifiers)
        ensures i in Members(lifted)
      {
        if i != key {
          var j :| 0 <= j < |modifiers| && modifiers[j] == i;
          assert lifted[j + 1] == i;
        }
      }
    }
  }

  /** A press interrupted after `n` records leaves down exactly what it cuts off. */
  lemma {:induction false} InterruptedPress(chords: seq<KeyChord>, n: nat)
    requires n <= |PressRecords(chords)|
    ensures Apply({}, PressRecords(chords)[..n]) == CutOff(chords, n)
    decreases chords
  {
    if chords != [] {
      var c, rest := chords[0], chords[1..];
      var tap := Tapped(c);
      if n < |tap| {
        assert PressRecords(chords)[..n] == tap[..n];
        PartOfTapEffect(c, n);
      } else {
        var m := n - |tap|;
        assert PressRecords(chords)[..n] == tap + PressRecords(rest)[..m];
        ApplyConcat({}, tap, PressRecords(rest)[..m]);
        TapEffect({}, c);
        assert {} - ChordKeys(c) == {};
        InterruptedPress(rest, m);
      }
    }
  }

  lemma EvenPartPressed(chord: KeyChord, pairs: nat)
    requires 2 * pairs < |Tapped(chord)|
    ensures PartPressed(chord, 2 * pairs) == {} <==> pairs == 0
  {
    PartPressedEmpty(chord, 2 * pairs);
    assert 2 * pairs != 2 * |ChordInputs(chord, true)| - 1;
  }

  /** An even number of records, such as any number of whole batches, cuts nothing off exactly when it ends between two
      chords. */
  lemma {:induction false} EvenCutIsBetween(chords: seq<KeyChord>, pairs: nat)
    requires 2 * pairs <= |PressRecords(chords)|
    ensures CutOff(chords, 2 * pairs) == {} <==> Between(chords, 2 * pairs)
    decreases chords
  {
    if chords != [] {
      if 2 * pairs < |Tapped(chords[0])| {
        EvenPartPressed(chords[0], pairs);
      } else {
        EvenCutIsBetween(chords[1..], pairs - |ChordInputs(chords[0], true)|);
      }
    }
  }

  /** What records leave down that was not down before does not depend on what was down before. */
  lemma {:induction false} NewlyDown(down: set<Input>, records: seq<Record>)
    ensures Apply({}, records) <= Apply(down, records) <= down + Apply({}, records)
    decreases records
  {
    if records != [] {
      var step := Step({}, records[0]);
      NewlyDownFrom(step, Step(down, records[0]), down, records[1..]);
    }
  }

  lemma {:induction false} NewlyDownFrom(fewer: set<Input>, more: set<Input>, extra: set<Input>, records: seq<Record>)
    requires fewer <= more <= extra + fewer
    ensures Apply(fewer, records) <= Apply(more, records) <= extra + Apply(fewer, records)
    decreases records
  {
    if records != [] {
      NewlyDownFrom(Step(fewer, records[0]), Step(more, records[0]), extra, records[1..]);
    }
  }
}
