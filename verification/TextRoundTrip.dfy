// What crossing the boundary guarantees: an encoded document decodes to itself, encoding succeeds exactly for sound
// documents, and a valid structure re-encodes to itself with its unused buffer space cleared.
module TextRoundTrip {
  import opened Basics
  import opened TextChunks
  import opened TextTransport

  // ---------------------------------------------------------------------------------------------------------------
  // Soundness, said of the document alone: no saturation, no 32-bit indices, no flags

  ghost predicate InRange(index: Option<nat>, first: nat, last: nat) {
    index.Some? ==> first <= index.value <= last
  }

  ghost predicate Rising(clauses: seq<nat>, first: nat, last: nat) {
    (forall i :: 0 <= i < |clauses| ==> first <= clauses[i] <= last) &&
    forall i, j :: 0 <= i < j < |clauses| ==> clauses[i] <= clauses[j]
  }

  ghost predicate SoundComposition(d: Document) {
    if d.compositionStart.None? then
      d.compositionEnd.None? && d.compositionCursor.None? && d.conversionStart.None? && d.conversionEnd.None? &&
      d.clauses == []
    else
      d.compositionEnd.Some? && d.compositionStart.value <= d.compositionEnd.value <= |d.text| &&
      var first, last := d.compositionStart.value, d.compositionEnd.value;
      InRange(d.compositionCursor, first, last) &&
      (d.conversionStart.Some? <==> d.conversionEnd.Some?) &&
      (d.conversionStart.Some? ==> first <= d.conversionStart.value <= d.conversionEnd.value <= last) &&
      Rising(d.clauses, first, last)
  }

  ghost predicate Sound(d: Document) {
    |d.text| <= MAXIMUM_UNITS && |d.clauses| <= MAXIMUM_CLAUSES && Clean(d.text) &&
    d.caret <= |d.text| && InRange(d.anchor, 0, |d.text|) && d.firstVisibleLine <= Newlines(d.text) &&
    SoundComposition(d)
  }

  /** The bounds, when there are any, are finite and ordered once scaled. */
  ghost predicate OrderedIfPresent(r: Option<Rectangle>, dpi: real, times: Scaling) {
    r.Some? ==> Ordered(Pixels(r.value, dpi, times))
  }

  // ---------------------------------------------------------------------------------------------------------------
  // Flags

  lemma FlagsAreKnown(d: Document, caret: bool, viewport: bool)
    ensures EncodedFlags(d, caret, viewport) & !KNOWN_FLAGS == 0
  {
  }

  lemma FlagsTellModes(d: Document, caret: bool, viewport: bool)
    ensures var f := EncodedFlags(d, caret, viewport);
            (f & READ_ONLY != 0 <==> d.readOnly) && (f & MASKED != 0 <==> d.masked) &&
            (f & MULTILINE != 0 <==> d.multiline)
  {
  }

  lemma FlagsTellParts(d: Document, caret: bool, viewport: bool)
    ensures var f := EncodedFlags(d, caret, viewport);
            (f & COMPOSING != 0 <==> d.compositionStart.Some?) && (f & CARET_BOUNDS != 0 <==> caret) &&
            (f & VIEWPORT_BOUNDS != 0 <==> viewport)
  {
  }

  // ---------------------------------------------------------------------------------------------------------------
  // Saturation

  /** Rounding never turns two numbers round. */
  ghost predicate Monotone(times: Scaling, dpi: real) {
    forall a, b :: a <= b && times(a, dpi).Some? && times(b, dpi).Some? ==> times(a, dpi).value <= times(b, dpi).value
  }

  /** Ordered bounds stay ordered unless a coordinate overflows, and then they are refused. */
  lemma ScalingKeepsOrder(r: Rectangle, dpi: real, times: Scaling)
    requires Monotone(times, dpi) && Ordered(r)
    ensures Ordered(Pixels(r, dpi, times)) <==>
            times(r.left.value, dpi).Some? && times(r.top.value, dpi).Some? && times(r.right.value, dpi).Some? &&
            times(r.bottom.value, dpi).Some?
  {
  }

  /** The clauses rise in the buffer exactly when they rise in the document: a saturated one lies past every text. */
  lemma ClausesKeepOrder(s: TextState, d: Document)
    requires |d.clauses| <= MAXIMUM_CLAUSES && s.clauses == Saturated(d.clauses) && s.compositionEnd <= MAXIMUM_UNITS
    ensures ClausesRise(s, |d.clauses|) <==> Rising(d.clauses, s.compositionStart, s.compositionEnd)
  {
    forall i | 0 <= i < |d.clauses|
      ensures s.clauses[i] == Minimum(d.clauses[i], MAX_U32)
    {
    }
    if ClausesRise(s, |d.clauses|) {
      assert forall i :: 0 <= i < |d.clauses| ==> InComposition(s, s.clauses[i]) && s.clauses[i] == d.clauses[i];
    } else if Rising(d.clauses, s.compositionStart, s.compositionEnd) {
      assert forall i :: 0 <= i < |d.clauses| ==> s.clauses[i] == d.clauses[i];
      assert false;
    }
  }

  lemma CompositionIsSound(s: TextState, d: Document)
    requires |d.text| <= MAXIMUM_UNITS && |d.clauses| <= MAXIMUM_CLAUSES
    requires s.textLength == |d.text| && s.clauseCount == |d.clauses| && s.clauses == Saturated(d.clauses)
    requires s.compositionStart == Index(d.compositionStart) && s.compositionEnd == Index(d.compositionEnd)
    requires s.compositionCursor == Index(d.compositionCursor)
    requires s.conversionStart == Index(d.conversionStart) && s.conversionEnd == Index(d.conversionEnd)
    ensures d.compositionStart.Some? ==> (CompositionInside(s) <==> SoundComposition(d))
    ensures d.compositionStart.None? ==> (NoComposition(s) <==> SoundComposition(d))
  {
    if d.compositionStart.Some? && s.compositionEnd <= s.textLength {
      ClausesKeepOrder(s, d);
    }
  }

  /** EncodeTextState succeeds exactly for a sound document with live identities, a usable DPI and
      bounds that are finite and ordered once scaled, however the machine rounds. */
  lemma EncodesExactlySound(revision: nat, focusId: nat, d: Document, caret: Option<Rectangle>,
                            viewport: Option<Rectangle>, dpi: Option<real>, times: Scaling)
    ensures Encoded(revision, focusId, d, caret, viewport, dpi, times).0 == Ok <==>
            dpi.Some? && dpi.value > 0.0 && revision != 0 && focusId != 0 && Sound(d) &&
            OrderedIfPresent(caret, dpi.value, times) && OrderedIfPresent(viewport, dpi.value, times)
  {
    if dpi.Some? && dpi.value > 0.0 && |d.text| <= MAXIMUM_UNITS && |d.clauses| <= MAXIMUM_CLAUSES {
      var s := Filled(revision, focusId, d, caret, viewport, dpi.value, times);
      FlagsAreKnown(d, caret.Some?, viewport.Some?);
      FlagsTellParts(d, caret.Some?, viewport.Some?);
      CompositionIsSound(s, d);
      assert s.text[..s.textLength] == d.text;
    }
  }

  lemma IndicesSurvive(d: Document)
    requires Sound(d)
    ensures Slot(Index(d.anchor)) == d.anchor && Slot(Index(d.compositionStart)) == d.compositionStart
    ensures Slot(Index(d.compositionEnd)) == d.compositionEnd && Slot(Index(d.compositionCursor)) == d.compositionCursor
    ensures Slot(Index(d.conversionStart)) == d.conversionStart && Slot(Index(d.conversionEnd)) == d.conversionEnd
  {
  }

  lemma ClausesSurvive(s: TextState, d: Document)
    requires Sound(d) && s.clauses == Saturated(d.clauses) && s.clauseCount == |d.clauses|
    ensures s.clauses[..s.clauseCount] == d.clauses
  {
    forall i | 0 <= i < |d.clauses|
      ensures s.clauses[i] == d.clauses[i]
    {
      assert s.clauses[i] == Minimum(d.clauses[i], MAX_U32);
    }
  }

  /** Whatever is encoded decodes to exactly what it was. */
  lemma RoundTrip(revision: nat, focusId: nat, d: Document, caret: Option<Rectangle>, viewport: Option<Rectangle>,
                  dpi: Option<real>, times: Scaling)
    requires Encoded(revision, focusId, d, caret, viewport, dpi, times).0 == Ok
    ensures Decoded(Encoded(revision, focusId, d, caret, viewport, dpi, times).1, true) == (Ok, d)
  {
    EncodesExactlySound(revision, focusId, d, caret, viewport, dpi, times);
    var s := Encoded(revision, focusId, d, caret, viewport, dpi, times).1;
    FlagsTellModes(d, caret.Some?, viewport.Some?);
    IndicesSurvive(d);
    ClausesSurvive(s, d);
    assert s.text[..s.textLength] == d.text;
  }

  // ---------------------------------------------------------------------------------------------------------------
  // What crosses beside the document

  /** Each coordinate is the machine's product of the same coordinate and the DPI's scale. */
  ghost predicate ScaledFrom(target: Rectangle, source: Rectangle, dpi: real, times: Scaling) {
    source.left.Some? && target.left == times(source.left.value, dpi) &&
    source.top.Some? && target.top == times(source.top.value, dpi) &&
    source.right.Some? && target.right == times(source.right.value, dpi) &&
    source.bottom.Some? && target.bottom == times(source.bottom.value, dpi)
  }

  ghost predicate AllZero(r: Rectangle) {
    r.left == Some(0.0) && r.top == Some(0.0) && r.right == Some(0.0) && r.bottom == Some(0.0)
  }

  /** At every DPI a structure encoded carries its bounds scaled, coordinate by coordinate, under their own flags;
      bounds that are missing are zero and unflagged. The identities cross as they are, and buffer space past the text
      and the clauses is zero. */
  lemma RestIsCarried(revision: nat, focusId: nat, d: Document, caret: Option<Rectangle>, viewport: Option<Rectangle>,
                      dpi: Option<real>, times: Scaling)
    requires Encoded(revision, focusId, d, caret, viewport, dpi, times).0 == Ok
    ensures var s := Encoded(revision, focusId, d, caret, viewport, dpi, times).1;
            s.sizeBytes == 9312 && s.revision == revision && s.focusId == focusId &&
            (forall i :: |d.text| <= i < 4096 ==> s.text[i] == 0) &&
            (forall i :: |d.clauses| <= i < 256 ==> s.clauses[i] == 0)
    ensures var s := Encoded(revision, focusId, d, caret, viewport, dpi, times).1;
            (s.flags & 1 != 0 <==> d.readOnly) && (s.flags & 2 != 0 <==> d.masked) &&
            (s.flags & 4 != 0 <==> d.multiline) && (s.flags & 8 != 0 <==> d.compositionStart.Some?) &&
            (s.flags & 16 != 0 <==> caret.Some?) && (s.flags & 32 != 0 <==> viewport.Some?) && s.flags < 64 &&
            (if caret.Some? then ScaledFrom(s.caretBounds, caret.value, dpi.value,
                                            times) else AllZero(s.caretBounds)) &&
            (if viewport.Some? then ScaledFrom(s.viewportBounds, viewport.value, dpi.value, times)
             else AllZero(s.viewportBounds))
  {
    FlagsTellModes(d, caret.Some?, viewport.Some?);
    FlagsTellParts(d, caret.Some?, viewport.Some?);
    FlagsAreKnown(d, caret.Some?, viewport.Some?);
    KnownAreSmall(EncodedFlags(d, caret.Some?, viewport.Some?));
  }

  lemma KnownAreSmall(f: bv32)
    requires f & !KNOWN_FLAGS == 0
    ensures f < 64
  {
  }

  /** An index that is missing crosses as FFFFFFFF, every other number as itself. */
  ghost predicate CrossesAs(value: Option<nat>, index: U32) {
    index == if value.Some? then value.value else 0xFFFF_FFFF
  }

  lemma NumbersAreCarried(revision: nat, focusId: nat, d: Document, caret: Option<Rectangle>,
                          viewport: Option<Rectangle>, dpi: Option<real>, times: Scaling)
    requires Encoded(revision, focusId, d, caret, viewport, dpi, times).0 == Ok
    ensures var s := Encoded(revision, focusId, d, caret, viewport, dpi, times).1;
            s.textLength == |d.text| && s.caret == d.caret && s.firstVisibleLine == d.firstVisibleLine &&
            s.clauseCount == |d.clauses| && CrossesAs(d.anchor, s.anchor) &&
            CrossesAs(d.compositionStart, s.compositionStart) && CrossesAs(d.compositionEnd, s.compositionEnd) &&
            CrossesAs(d.compositionCursor, s.compositionCursor) && CrossesAs(d.conversionStart, s.conversionStart) &&
            CrossesAs(d.conversionEnd, s.conversionEnd)
  {
    EncodesExactlySound(revision, focusId, d, caret, viewport, dpi, times);
  }

  /** Decoding refuses what is not valid, and gives nothing when memory runs out; either leaves an empty document. */
  lemma DecodingRefuses(s: TextState, memory: bool)
    ensures var (answer, d) := Decoded(s, memory);
            (answer == InvalidArg <==> !ValidState(s)) && (answer == OutOfMemory <==> ValidState(s) && !memory) &&
            (answer == Ok <==> ValidState(s) && memory) &&
            (answer != Ok ==> d.text == [] && d.caret == 0 && d.anchor.None? && d.firstVisibleLine == 0 &&
                              !d.readOnly && !d.masked && !d.multiline && d.compositionStart.None? &&
                              d.compositionEnd.None? && d.clauses == [])
  {
  }

  /** What is refused leaves the empty structure, and the answer says why: a DPI or document that cannot be encoded, or
      one too large for the buffers. */
  lemma RefusalsSayWhy(revision: nat, focusId: nat, d: Document, caret: Option<Rectangle>, viewport: Option<Rectangle>,
                       dpi: Option<real>, times: Scaling)
    ensures var (answer, s) := Encoded(revision, focusId, d, caret, viewport, dpi, times);
            (answer == Overflow <==> dpi.Some? && dpi.value > 0.0 && (|d.text| > 4096 || |d.clauses| > 256)) &&
            (answer == Ok || answer == Overflow || answer == InvalidArg) &&
            (answer != Ok ==>
              s.revision == 0 && s.focusId == 0 && s.textLength == 0 && s.clauseCount == 0 && s.flags == 0 &&
              !ValidState(s))
  {
  }

  // ---------------------------------------------------------------------------------------------------------------
  // The other way round

  /** A structure with its unused buffer space, and the bounds its flags leave out, cleared. */
  function Cleared(s: TextState): (r: TextState)
    requires s.textLength <= MAXIMUM_UNITS && s.clauseCount <= MAXIMUM_CLAUSES
  {
    s.(text := Padded(s.text[..s.textLength]), clauses := Saturated(s.clauses[..s.clauseCount]),
       caretBounds := if s.flags & CARET_BOUNDS != 0 then s.caretBounds else NoRectangle(),
       viewportBounds := if s.flags & VIEWPORT_BOUNDS != 0 then s.viewportBounds else NoRectangle())
  }

  function BoundsUnder(s: TextState, flag: bv32, bounds: Rectangle): (r: Option<Rectangle>) {
    if s.flags & flag != 0 then Some(bounds) else None
  }

  /** Known flags are the union of their six bits, and each bit is there or not. */
  lemma Bits(f: bv32)
    requires f & 0xFFFF_FFC0 == 0
    ensures f == (f & 1) | (f & 2) | (f & 4) | (f & 8) | (f & 16) | (f & 32)
  {
  }

  lemma Bit0(f: bv32)
    ensures f & 1 == 0 || f & 1 == 1
  {
  }

  lemma Bit1(f: bv32)
    ensures f & 2 == 0 || f & 2 == 2
  {
  }

  lemma Bit2(f: bv32)
    ensures f & 4 == 0 || f & 4 == 4
  {
  }

  lemma Bit3(f: bv32)
    ensures f & 8 == 0 || f & 8 == 8
  {
  }

  lemma Bit4(f: bv32)
    ensures f & 16 == 0 || f & 16 == 16
  {
  }

  lemma Bit5(f: bv32)
    ensures f & 32 == 0 || f & 32 == 32
  {
  }

  lemma FlagsRebuilt(f: bv32)
    requires f & !KNOWN_FLAGS == 0
    ensures f == Flag(f & READ_ONLY != 0, READ_ONLY) | Flag(f & MASKED != 0, MASKED) |
                 Flag(f & MULTILINE != 0, MULTILINE) |
                 Flag(f & COMPOSING != 0, COMPOSING) | Flag(f & CARET_BOUNDS != 0, CARET_BOUNDS) |
                 Flag(f & VIEWPORT_BOUNDS != 0, VIEWPORT_BOUNDS)
  {
    Bits(f);
    Bit0(f);
    Bit1(f);
    Bit2(f);
    Bit3(f);
    Bit4(f);
    Bit5(f);
  }

  lemma CarriedIsSound(s: TextState)
    requires ValidState(s)
    ensures Sound(Carried(s))
  {
    var d := Carried(s);
    if s.flags & COMPOSING != 0 {
      assert Rising(d.clauses, s.compositionStart, s.compositionEnd) by {
        assert forall i :: 0 <= i < |d.clauses| ==> d.clauses[i] == s.clauses[i] && InComposition(s, s.clauses[i]);
      }
    }
    assert SoundComposition(d);
  }

  lemma SlotAndBack(index: U32)
    requires index <= MAXIMUM_UNITS || index == NO_INDEX
    ensures Index(Slot(index)) == index
  {
  }

  /** Multiplying by one is exact, as it is in floating point. */
  ghost predicate KeepsAt96(times: Scaling) {
    forall c: Coordinate :: Scaled(c, 96.0, times) == c
  }

  lemma UnscaledBounds(s: TextState, flag: bv32, bounds: Rectangle, times: Scaling)
    requires KeepsAt96(times)
    ensures PixelsOr(BoundsUnder(s, flag, bounds), 96.0, times) ==
            if s.flags & flag != 0 then bounds else NoRectangle()
  {
  }

  lemma RefilledIndices(s: TextState, filled: TextState, caret: Option<Rectangle>, viewport: Option<Rectangle>,
                        times: Scaling)
    requires ValidState(s) && filled == Filled(s.revision, s.focusId, Carried(s), caret, viewport, 96.0, times)
    ensures filled.anchor == s.anchor && filled.compositionStart == s.compositionStart
    ensures filled.compositionEnd == s.compositionEnd && filled.compositionCursor == s.compositionCursor
    ensures filled.conversionStart == s.conversionStart && filled.conversionEnd == s.conversionEnd
  {
    SlotAndBack(s.anchor);
    SlotAndBack(s.compositionStart);
    SlotAndBack(s.compositionEnd);
    SlotAndBack(s.compositionCursor);
    SlotAndBack(s.conversionStart);
    SlotAndBack(s.conversionEnd);
  }

  /** A composition is carried exactly when the flag says so. */
  lemma CompositionFlagged(s: TextState)
    requires ValidState(s)
    ensures Carried(s).compositionStart.Some? <==> s.flags & COMPOSING != 0
  {
  }

  /** Encoding the document a valid structure carries with the structure's identities and
      bounds, at the DPI that does not scale, gives the structure back. */
  lemma ReencodesToItself(s: TextState, times: Scaling)
    requires ValidState(s) && KeepsAt96(times)
    ensures Encoded(s.revision, s.focusId, Carried(s), BoundsUnder(s, CARET_BOUNDS, s.caretBounds),
                    BoundsUnder(s, VIEWPORT_BOUNDS, s.viewportBounds), Some(96.0), times) == (Ok, Cleared(s))
  {
    var caret := BoundsUnder(s, CARET_BOUNDS, s.caretBounds);
    var viewport := BoundsUnder(s, VIEWPORT_BOUNDS, s.viewportBounds);
    CarriedIsSound(s);
    EncodesExactlySound(s.revision, s.focusId, Carried(s), caret, viewport, Some(96.0), times);
    var filled := Filled(s.revision, s.focusId, Carried(s), caret, viewport, 96.0, times);
    RefilledIndices(s, filled, caret, viewport, times);
    CompositionFlagged(s);
    FlagsRebuilt(s.flags);
    UnscaledBounds(s, CARET_BOUNDS, s.caretBounds, times);
    UnscaledBounds(s, VIEWPORT_BOUNDS, s.viewportBounds, times);
  }

  /** Lines are counted by line feeds. */
  lemma {:induction false} NewlinesSpelled(text: seq<Unit>)
    ensures Newlines(text) == multiset(text)[10]
  {
    if text != [] {
      NewlinesSpelled(text[1..]);
      assert text == [text[0]] + text[1..];
    }
  }
}
