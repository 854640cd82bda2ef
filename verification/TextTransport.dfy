// Common/DxUiTextTransport.h and Common/TextInputValidation.h: a text control's document crosses the plugin boundary in
// a bounded structure of fixed buffers and 32-bit indices. Encoding saturates what does not fit; the validator that
// runs last lets nothing saturated through, so whatever is encoded decodes to exactly what it was.
module TextTransport {
  import opened Basics
  import opened TextChunks

  type U32 = n: nat | n < 0x1_0000_0000

  const MAX_U32: U32 := 0xFFFF_FFFF
  const NO_INDEX: U32 := 0xFFFF_FFFF
  const MAXIMUM_UNITS: nat := 4096
  const MAXIMUM_CLAUSES: nat := 256
  const SIZE_OF_STATE: U32 := 9312

  const READ_ONLY: bv32 := 1
  const MASKED: bv32 := 2
  const MULTILINE: bv32 := 4
  const COMPOSING: bv32 := 8
  const CARET_BOUNDS: bv32 := 16
  const VIEWPORT_BOUNDS: bv32 := 32
  const KNOWN_FLAGS: bv32 := 63

  type UnitBuffer = s: seq<Unit> | |s| == MAXIMUM_UNITS witness seq(MAXIMUM_UNITS, i => 0)
  type ClauseBuffer = s: seq<U32> | |s| == MAXIMUM_CLAUSES witness seq(MAXIMUM_CLAUSES, i => 0)

  /** A coordinate is None when it is infinite or not a number. */
  type Coordinate = Option<real>
  datatype Rectangle = Rectangle(left: Coordinate, top: Coordinate, right: Coordinate, bottom: Coordinate)

  /** RedXeTextState, the structure that crosses the boundary. */
  datatype TextState = TextState(
    sizeBytes: U32, flags: bv32, revision: nat, focusId: nat,
    textLength: U32, caret: U32, anchor: U32, firstVisibleLine: U32,
    compositionStart: U32, compositionEnd: U32, compositionCursor: U32,
    conversionStart: U32, conversionEnd: U32, clauseCount: U32,
    caretBounds: Rectangle, viewportBounds: Rectangle,
    text: UnitBuffer, clauses: ClauseBuffer)

  /** NativeTextInputState, the control's own document. */
  datatype Document = Document(
    text: seq<Unit>, caret: nat, anchor: Option<nat>, firstVisibleLine: nat,
    readOnly: bool, masked: bool, multiline: bool,
    compositionStart: Option<nat>, compositionEnd: Option<nat>, compositionCursor: Option<nat>,
    conversionStart: Option<nat>, conversionEnd: Option<nat>, clauses: seq<nat>)

  function NoRectangle(): (r: Rectangle) { Rectangle(Some(0.0), Some(0.0), Some(0.0), Some(0.0)) }

  function NoUnits(): (r: UnitBuffer) { seq(MAXIMUM_UNITS, i => 0) }

  function NoClauses(): (r: ClauseBuffer) { seq(MAXIMUM_CLAUSES, i => 0) }

  function EmptyState(): (r: TextState) {
    TextState(SIZE_OF_STATE, 0, 0, 0, 0, 0, NO_INDEX, 0, NO_INDEX, NO_INDEX, NO_INDEX, NO_INDEX, NO_INDEX, 0,
              NoRectangle(), NoRectangle(), NoUnits(), NoClauses())
  }

  function EmptyDocument(): (r: Document) {
    Document([], 0, None, 0, false, false, false, None, None, None, None, None, [])
  }

  // ---------------------------------------------------------------------------------------------------------------
  // What a valid state is

  ghost predicate Clean(text: seq<Unit>) {
    0 !in text && Paired(text)
  }

  const NEWLINE: Unit := 10

  function Newlines(text: seq<Unit>): (n: nat)
    ensures n <= |text|
  {
    if text == [] then 0 else (if text[0] == NEWLINE then 1 else 0) + Newlines(text[1..])
  }

  ghost predicate Ordered(r: Rectangle) {
    r.left.Some? && r.top.Some? && r.right.Some? && r.bottom.Some? &&
    r.left.value <= r.right.value && r.top.value <= r.bottom.value
  }

  ghost predicate InComposition(s: TextState, index: U32) {
    s.compositionStart <= index <= s.compositionEnd
  }

  ghost predicate NoComposition(s: TextState) {
    s.compositionStart == NO_INDEX && s.compositionEnd == NO_INDEX && s.compositionCursor == NO_INDEX &&
    s.conversionStart == NO_INDEX && s.conversionEnd == NO_INDEX && s.clauseCount == 0
  }

  ghost predicate ClausesRise(s: TextState, n: nat)
    requires n <= MAXIMUM_CLAUSES
  {
    (forall i :: 0 <= i < n ==> InComposition(s, s.clauses[i])) &&
    forall i, j :: 0 <= i < j < n ==> s.clauses[i] <= s.clauses[j]
  }

  ghost predicate CompositionInside(s: TextState) {
    s.compositionStart <= s.compositionEnd <= s.textLength &&
    (s.compositionCursor != NO_INDEX ==> InComposition(s, s.compositionCursor)) &&
    ((s.conversionStart == NO_INDEX && s.conversionEnd == NO_INDEX) ||
     s.compositionStart <= s.conversionStart <= s.conversionEnd <= s.compositionEnd) &&
    s.clauseCount <= MAXIMUM_CLAUSES && ClausesRise(s, s.clauseCount)
  }

  ghost predicate HeaderValid(s: TextState) {
    s.sizeBytes == SIZE_OF_STATE && s.revision != 0 && s.focusId != 0 && s.flags & !KNOWN_FLAGS == 0 &&
    s.textLength <= MAXIMUM_UNITS && s.clauseCount <= MAXIMUM_CLAUSES &&
    s.caret <= s.textLength && (s.anchor != NO_INDEX ==> s.anchor <= s.textLength)
  }

  ghost predicate TextValid(s: TextState)
    requires s.textLength <= MAXIMUM_UNITS
  {
    Clean(s.text[..s.textLength]) && s.firstVisibleLine <= Newlines(s.text[..s.textLength])
  }

  ghost predicate BoundsValid(s: TextState) {
    (s.flags & CARET_BOUNDS != 0 ==> Ordered(s.caretBounds)) &&
    (s.flags & VIEWPORT_BOUNDS != 0 ==> Ordered(s.viewportBounds))
  }

  ghost predicate ValidState(s: TextState) {
    HeaderValid(s) && TextValid(s) && BoundsValid(s) &&
    if s.flags & COMPOSING != 0 then CompositionInside(s) else NoComposition(s)
  }

  // ---------------------------------------------------------------------------------------------------------------
  // The validator

  /** The scan of the text: refused at the first unit that makes it unclean, else the lines it breaks into. */
  method ScanText(s: TextState) returns (clean: bool, lines: nat)
    requires s.textLength <= MAXIMUM_UNITS
    ensures clean <==> Clean(s.text[..s.textLength])
    ensures clean ==> lines == Newlines(s.text[..s.textLength])
  {
    ghost var text := s.text[..s.textLength];
    lines := 0;
    var i: nat := 0;
    assert text[0..] == text;
    while i < s.textLength
      invariant Scanning(text, i, lines)
    {
      var unit := s.text[i];
      ScanStep(text, i, lines);
      if unit == 0 {
        return false, lines;
      }
      if unit == NEWLINE {
        lines := lines + 1;
      }
      if High(unit) {
        i := i + 1;
        if i == s.textLength || !Low(s.text[i]) {
          return false, lines;
        }
      } else if Low(unit) {
        return false, lines;
      }
      i := i + 1;
    }
    assert text[i..] == [];
    return true, lines;
  }

  /** The units before `i` are clean and break into `lines` lines. */
  ghost predicate Scanning(text: seq<Unit>, i: nat, lines: nat) {
    i <= |text| && (Clean(text) <==> Clean(text[i..])) && lines + Newlines(text[i..]) == Newlines(text)
  }

  lemma ScanStep(text: seq<Unit>, i: nat, lines: nat)
    requires Scanning(text, i, lines) && i < |text|
    ensures var unit := text[i];
            var pair := High(unit) && i + 1 < |text| && Low(text[i + 1]);
            (unit == 0 || Low(unit) || (High(unit) && !pair) ==> !Clean(text)) &&
            (pair ==> Scanning(text, i + 2, lines)) &&
            (unit != 0 && !High(unit) && !Low(unit) ==>
              Scanning(text, i + 1, lines + if unit == NEWLINE then 1 else 0))
  {
    var rest := text[i..];
    assert rest[0] == text[i] && (|rest| > 1 ==> rest[1] == text[i + 1]);
    CleanStep(rest);
    NewlinesStep(text, i);
    assert rest[1..] == text[i + 1..];
    if StartsWithPair(rest) {
      NewlinesStep(text, i + 1);
      assert rest[2..] == text[i + 2..];
    }
  }

  lemma CleanStep(text: seq<Unit>)
    requires text != []
    ensures StartsWithPair(text) ==> (Clean(text) <==> Clean(text[2..]))
    ensures !StartsWithPair(text) ==>
              (Clean(text) <==> text[0] != 0 && !High(text[0]) && !Low(text[0]) && Clean(text[1..]))
  {
    if StartsWithPair(text) {
      assert text == [text[0], text[1]] + text[2..];
    } else {
      assert text == [text[0]] + text[1..];
    }
  }

  lemma NewlinesStep(text: seq<Unit>, i: nat)
    requires i < |text|
    ensures Newlines(text[i..]) == (if text[i] == NEWLINE then 1 else 0) + Newlines(text[i + 1..])
  {
    assert text[i..][1..] == text[i + 1..];
  }

  method CheckRectangle(r: Rectangle) returns (valid: bool)
    ensures valid <==> Ordered(r)
  {
    valid := r.left.Some? && r.top.Some? && r.right.Some? && r.bottom.Some? &&
             r.left.value <= r.right.value && r.top.value <= r.bottom.value;
  }

  /** The last loop: every clause lies in the composition and none goes back. */
  method CheckClauses(s: TextState) returns (valid: bool)
    requires s.clauseCount <= MAXIMUM_CLAUSES
    ensures valid <==> ClausesRise(s, s.clauseCount)
  {
    var i: nat := 0;
    while i < s.clauseCount
      invariant i <= s.clauseCount && ClausesRise(s, i)
    {
      if !(s.compositionStart <= s.clauses[i] <= s.compositionEnd) || (i > 0 && s.clauses[i - 1] > s.clauses[i]) {
        return false;
      }
      i := i + 1;
    }
    return true;
  }

  method CheckComposition(s: TextState) returns (valid: bool)
    requires s.textLength <= MAXIMUM_UNITS && s.clauseCount <= MAXIMUM_CLAUSES
    ensures valid <==> CompositionInside(s)
  {
    if s.compositionStart > s.compositionEnd || s.compositionEnd > s.textLength {
      return false;
    }
    if s.compositionCursor != NO_INDEX && !(s.compositionStart <= s.compositionCursor <= s.compositionEnd) {
      return false;
    }
    if s.conversionStart != NO_INDEX || s.conversionEnd != NO_INDEX {
      if !(s.compositionStart <= s.conversionStart <= s.compositionEnd) ||
         !(s.compositionStart <= s.conversionEnd <= s.compositionEnd) || s.conversionStart > s.conversionEnd {
        return false;
      }
    }
    valid := CheckClauses(s);
  }

  /** IsValidRedXeTextState decides exactly what a valid state is. */
  method IsValidState(s: TextState) returns (valid: bool)
    ensures valid <==> ValidState(s)
  {
    if s.sizeBytes != SIZE_OF_STATE || s.revision == 0 || s.focusId == 0 || s.flags & !KNOWN_FLAGS != 0 ||
       s.textLength > MAXIMUM_UNITS || s.clauseCount > MAXIMUM_CLAUSES || s.caret > s.textLength ||
       (s.anchor != NO_INDEX && s.anchor > s.textLength) {
      return false;
    }
    var clean, lines := ScanText(s);
    if !clean || s.firstVisibleLine > lines {
      return false;
    }
    if s.flags & CARET_BOUNDS != 0 {
      var ok := CheckRectangle(s.caretBounds);
      if !ok { return false; }
    }
    if s.flags & VIEWPORT_BOUNDS != 0 {
      var ok := CheckRectangle(s.viewportBounds);
      if !ok { return false; }
    }
    if s.flags & COMPOSING == 0 {
      return s.compositionStart == NO_INDEX && s.compositionEnd == NO_INDEX && s.compositionCursor == NO_INDEX &&
             s.conversionStart == NO_INDEX && s.conversionEnd == NO_INDEX && s.clauseCount == 0;
    }
    valid := CheckComposition(s);
  }

  // ---------------------------------------------------------------------------------------------------------------
  // Encoding

  function Minimum(a: nat, b: nat): (r: nat) { if a < b then a else b }

  function Index(value: Option<nat>): (index: U32) {
    if value.Some? then Minimum(value.value, MAX_U32 - 1) else NO_INDEX
  }

  function Flag(on: bool, flag: bv32): (r: bv32) { if on then flag else 0 }

  /** The machine's product of a finite coordinate and the scale of a DPI, rounded in any way, None when it
      overflows. */
  type Scaling = (real, real) -> Coordinate

  function Scaled(c: Coordinate, dpi: real, times: Scaling): (r: Coordinate) {
    if c.Some? then times(c.value, dpi) else None
  }

  function Pixels(r: Rectangle, dpi: real, times: Scaling): (pixels: Rectangle) {
    Rectangle(Scaled(r.left, dpi, times), Scaled(r.top, dpi, times), Scaled(r.right, dpi, times),
              Scaled(r.bottom, dpi, times))
  }

  function PixelsOr(r: Option<Rectangle>, dpi: real, times: Scaling): (pixels: Rectangle) {
    if r.Some? then Pixels(r.value, dpi, times) else NoRectangle()
  }

  function EncodedFlags(d: Document, caret: bool, viewport: bool): (r: bv32) {
    Flag(d.readOnly, READ_ONLY) | Flag(d.masked, MASKED) | Flag(d.multiline, MULTILINE) |
    Flag(d.compositionStart.Some?, COMPOSING) | Flag(caret, CARET_BOUNDS) | Flag(viewport, VIEWPORT_BOUNDS)
  }

  function Padded(text: seq<Unit>): (r: UnitBuffer)
    requires |text| <= MAXIMUM_UNITS
  {
    text + seq(MAXIMUM_UNITS - |text|, i => 0)
  }

  function Saturated(clauses: seq<nat>): (r: ClauseBuffer)
    requires |clauses| <= MAXIMUM_CLAUSES
  {
    seq(MAXIMUM_CLAUSES, i => if 0 <= i < |clauses| then Minimum(clauses[i], MAX_U32) else 0)
  }

  /** The structure EncodeTextState fills before it validates. */
  function Filled(revision: nat, focusId: nat, d: Document, caret: Option<Rectangle>, viewport: Option<Rectangle>,
                  dpi: real, times: Scaling): (filled: TextState)
    requires |d.text| <= MAXIMUM_UNITS && |d.clauses| <= MAXIMUM_CLAUSES
  {
    TextState(SIZE_OF_STATE, EncodedFlags(d, caret.Some?, viewport.Some?), revision, focusId,
              |d.text|, Minimum(d.caret, MAX_U32), Index(d.anchor), Minimum(d.firstVisibleLine, MAX_U32),
              Index(d.compositionStart), Index(d.compositionEnd), Index(d.compositionCursor),
              Index(d.conversionStart), Index(d.conversionEnd), |d.clauses|,
              PixelsOr(caret, dpi, times), PixelsOr(viewport, dpi, times), Padded(d.text), Saturated(d.clauses))
  }

  /** What EncodeTextState answers and leaves in the structure; a DPI that is not finite is None. */
  ghost function Encoded(revision: nat, focusId: nat, d: Document, caret: Option<Rectangle>,
                         viewport: Option<Rectangle>, dpi: Option<real>, times: Scaling): (r: (HResult, TextState))
  {
    if dpi.None? || dpi.value <= 0.0 then (InvalidArg, EmptyState())
    else if |d.text| > MAXIMUM_UNITS || |d.clauses| > MAXIMUM_CLAUSES then (Overflow, EmptyState())
    else
      var filled := Filled(revision, focusId, d, caret, viewport, dpi.value, times);
      if ValidState(filled) then (Ok, filled) else (InvalidArg, EmptyState())
  }

  /** The loop over the clauses, into a buffer of zeros. */
  method CopyClauses(source: seq<nat>) returns (clauses: ClauseBuffer)
    requires |source| <= MAXIMUM_CLAUSES
    ensures clauses == Saturated(source)
  {
    clauses := NoClauses();
    for i := 0 to |source|
      invariant forall j :: 0 <= j < MAXIMUM_CLAUSES ==> clauses[j] == if j < i then Minimum(source[j], MAX_U32) else 0
    {
      clauses := clauses[i := Minimum(source[i], MAX_U32)];
    }
  }

  method EncodeTextState(revision: nat, focusId: nat, d: Document, caret: Option<Rectangle>,
                         viewport: Option<Rectangle>, dpi: Option<real>, times: Scaling)
    returns (answer: HResult, target: TextState)
    ensures (answer, target) == Encoded(revision, focusId, d, caret, viewport, dpi, times)
  {
    target := EmptyState();
    if dpi.None? || dpi.value <= 0.0 {
      return InvalidArg, target;
    }
    if |d.text| > MAXIMUM_UNITS || |d.clauses| > MAXIMUM_CLAUSES {
      return Overflow, target;
    }
    target := target.(revision := revision, focusId := focusId, textLength := |d.text|, text := Padded(d.text));
    target := target.(caret := Minimum(d.caret, MAX_U32), anchor := Index(d.anchor),
                      firstVisibleLine := Minimum(d.firstVisibleLine, MAX_U32));
    target := target.(flags := Flag(d.readOnly, READ_ONLY) | Flag(d.masked, MASKED) | Flag(d.multiline, MULTILINE) |
                               Flag(d.compositionStart.Some?, COMPOSING));
    target := target.(compositionStart := Index(d.compositionStart), compositionEnd := Index(d.compositionEnd),
                      compositionCursor := Index(d.compositionCursor), conversionStart := Index(d.conversionStart),
                      conversionEnd := Index(d.conversionEnd), clauseCount := |d.clauses|);
    var clauses := CopyClauses(d.clauses);
    target := target.(clauses := clauses);
    if caret.Some? {
      target := target.(flags := target.flags | CARET_BOUNDS, caretBounds := Pixels(caret.value, dpi.value, times));
    }
    if viewport.Some? {
      target := target.(flags := target.flags | VIEWPORT_BOUNDS,
                        viewportBounds := Pixels(viewport.value, dpi.value, times));
    }
    FlagsInSteps(d, caret.Some?, viewport.Some?);
    assert target == Filled(revision, focusId, d, caret, viewport, dpi.value, times);
    var valid := IsValidState(target);
    if valid {
      return Ok, target;
    }
    return InvalidArg, EmptyState();
  }

  lemma OrZero(f: bv32)
    ensures f | 0 == f
  {
  }

  lemma FlagsInSteps(d: Document, caret: bool, viewport: bool)
    ensures var f := Flag(d.readOnly, READ_ONLY) | Flag(d.masked, MASKED) | Flag(d.multiline, MULTILINE) |
                     Flag(d.compositionStart.Some?, COMPOSING);
            var g := if caret then f | CARET_BOUNDS else f;
            EncodedFlags(d, caret, viewport) == if viewport then g | VIEWPORT_BOUNDS else g
  {
    var f := Flag(d.readOnly, READ_ONLY) | Flag(d.masked, MASKED) | Flag(d.multiline, MULTILINE) |
        Flag(d.compositionStart.Some?, COMPOSING);
    OrZero(f);
    OrZero(f | Flag(caret, CARET_BOUNDS));
  }

  // ---------------------------------------------------------------------------------------------------------------
  // Decoding

  function Slot(index: U32): (value: Option<nat>) {
    if index == NO_INDEX then None else Some(index)
  }

  /** The document a valid structure carries. */
  function Carried(s: TextState): (r: Document)
    requires s.textLength <= MAXIMUM_UNITS && s.clauseCount <= MAXIMUM_CLAUSES
  {
    Document(s.text[..s.textLength], s.caret, Slot(s.anchor), s.firstVisibleLine,
             s.flags & READ_ONLY != 0, s.flags & MASKED != 0, s.flags & MULTILINE != 0,
             Slot(s.compositionStart), Slot(s.compositionEnd), Slot(s.compositionCursor),
             Slot(s.conversionStart), Slot(s.conversionEnd), s.clauses[..s.clauseCount])
  }

  /** DecodeTextState; `memory` says whether its allocations succeed. */
  ghost function Decoded(s: TextState, memory: bool): (r: (HResult, Document)) {
    if !ValidState(s) then (InvalidArg, EmptyDocument())
    else if memory then (Ok, Carried(s))
    else (OutOfMemory, EmptyDocument())
  }

  method DecodeTextState(s: TextState, memory: bool) returns (answer: HResult, target: Document)
    ensures (answer, target) == Decoded(s, memory)
  {
    target := EmptyDocument();
    var valid := IsValidState(s);
    if !valid {
      return InvalidArg, target;
    }
    if !memory {
      return OutOfMemory, target;
    }
    target := target.(text := s.text[..s.textLength], caret := s.caret, anchor := Slot(s.anchor),
                      firstVisibleLine := s.firstVisibleLine);
    target := target.(readOnly := s.flags & READ_ONLY != 0, masked := s.flags & MASKED != 0,
                      multiline := s.flags & MULTILINE != 0);
    target := target.(compositionStart := Slot(s.compositionStart), compositionEnd := Slot(s.compositionEnd),
                      compositionCursor := Slot(s.compositionCursor), conversionStart := Slot(s.conversionStart),
                      conversionEnd := Slot(s.conversionEnd));
    target := target.(clauses := s.clauses[..s.clauseCount]);
    return Ok, target;
  }
}
