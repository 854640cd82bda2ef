// Common/FailureReports.h: text leaves a failing process in chunks through fixed buffers. UTF-16 text is converted to
// UTF-8 chunk by chunk (section 2.2 of RFC 2781 decodes it), UTF-8 text to UTF-16 (section 3 of RFC 3629).
module TextChunks {

  type Unit = u: nat | u < 0x1_0000
  type Byte = b: nat | b < 0x100

  const CHUNK_LIMIT: nat := 256

  // ---------------------------------------------------------------------------------------------------------------
  // UTF-16 to UTF-8

  predicate High(u: Unit) { 0xD800 <= u <= 0xDBFF }
  predicate Low(u: Unit) { 0xDC00 <= u <= 0xDFFF }

  function Scalar(high: Unit, low: Unit): (c: nat)
    requires High(high) && Low(low)
    ensures 0x1_0000 <= c <= 0x10_FFFF
  {
    0x1_0000 + (high - 0xD800) * 0x400 + (low - 0xDC00)
  }

  const REPLACEMENT: nat := 0xFFFD

  function EncodeScalar(c: nat): (r: seq<Byte>)
    requires c <= 0x10_FFFF
    ensures 1 <= |r| <= 4 && (c < 0x1_0000 ==> |r| <= 3)
  {
    if c < 0x80 then [c]
    else if c < 0x800 then [0xC0 + c / 0x40, 0x80 + c % 0x40]
    else if c < 0x1_0000 then [0xE0 + c / 0x1000, 0x80 + c / 0x40 % 0x40, 0x80 + c % 0x40]
    else [0xF0 + c / 0x4_0000, 0x80 + c / 0x1000 % 0x40, 0x80 + c / 0x40 % 0x40, 0x80 + c % 0x40]
  }

  predicate StartsWithPair(text: seq<Unit>) {
    |text| >= 2 && High(text[0]) && Low(text[1])
  }

  function HeadUnits(text: seq<Unit>): (n: nat)
    requires text != []
    ensures 1 <= n <= |text|
  {
    if StartsWithPair(text) then 2 else 1
  }

  function HeadBytes(text: seq<Unit>): (bytes: seq<Byte>)
    requires text != []
    ensures 1 <= |bytes| <= 3 * HeadUnits(text)
  {
    if StartsWithPair(text) then EncodeScalar(Scalar(text[0], text[1]))
    else if High(text[0]) || Low(text[0]) then EncodeScalar(REPLACEMENT)
    else EncodeScalar(text[0])
  }

  /** The conversion to UTF-8 of text that is not validated: an unpaired surrogate becomes U+FFFD. */
  function ToUtf8(text: seq<Unit>): (bytes: seq<Byte>)
    ensures |bytes| <= 3 * |text|
    ensures text != [] ==> bytes != []
  {
    if text == [] then [] else HeadBytes(text) + ToUtf8(text[HeadUnits(text)..])
  }

  /** What the text starts with is seen in any prefix that does not split it. */
  lemma HeadAlone(text: seq<Unit>, k: nat)
    requires 0 < k <= |text| && (k > 1 || !SplitsPair(text, k))
    ensures HeadUnits(text) <= k
    ensures HeadUnits(text[..k]) == HeadUnits(text) && HeadBytes(text[..k]) == HeadBytes(text)
  {
    assert forall i :: 0 <= i < k ==> text[..k][i] == text[i];
  }

  lemma CutAfter<T>(text: seq<T>, n: nat, k: nat)
    requires n <= k <= |text|
    ensures text[n..][..k - n] == text[..k][n..] && text[n..][k - n..] == text[k..]
  {
  }

  lemma Regrouped<T>(a: seq<T>, b: seq<T>, c: seq<T>)
    ensures a + (b + c) == (a + b) + c
  {
  }

  predicate SplitsPair(text: seq<Unit>, k: nat)
    requires k <= |text|
  {
    0 < k < |text| && High(text[k - 1]) && Low(text[k])
  }

  /** Conversion distributes over any cut that splits no surrogate pair. */
  lemma {:induction false} ToUtf8Cut(text: seq<Unit>, k: nat)
    requires k <= |text| && !SplitsPair(text, k)
    ensures ToUtf8(text) == ToUtf8(text[..k]) + ToUtf8(text[k..])
    decreases |text|
  {
    if k == 0 {
      assert text[0..] == text;
    } else {
      HeadAlone(text, k);
      var n := HeadUnits(text);
      ToUtf8Cut(text[n..], k - n);
      CutAfter(text, n, k);
      Regrouped(HeadBytes(text), ToUtf8(text[..k][n..]), ToUtf8(text[k..]));
    }
  }

  /** A cut inside a pair does change the conversion. */
  lemma {:induction false} ToUtf8Split(text: seq<Unit>, k: nat)
    requires k <= |text|
    ensures |ToUtf8(text[..k])| + |ToUtf8(text[k..])| == |ToUtf8(text)| + if SplitsPair(text, k) then 2 else 0
    decreases |text|
  {
    if !SplitsPair(text, k) {
      ToUtf8Cut(text, k);
    } else if k == 1 {
      PairSplit(text);
    } else {
      HeadAlone(text, k);
      var n := HeadUnits(text);
      assert n < k && SplitsPair(text[n..], k - n);
      ToUtf8Split(text[n..], k - n);
      CutAfter(text, n, k);
      HeadLength(text);
      HeadLength(text[..k]);
    }
  }

  lemma HeadLength(text: seq<Unit>)
    requires text != []
    ensures |ToUtf8(text)| == |HeadBytes(text)| + |ToUtf8(text[HeadUnits(text)..])|
  {
  }

  lemma PairSplit(text: seq<Unit>)
    requires StartsWithPair(text)
    ensures |ToUtf8(text[..1])| + |ToUtf8(text[1..])| == |ToUtf8(text)| + 2
  {
    assert text[..1] == [text[0]] && text[1..][1..] == text[2..];
    assert ToUtf8(text[..1]) == EncodeScalar(REPLACEMENT) + ToUtf8([]);
    assert ToUtf8(text[1..]) == EncodeScalar(REPLACEMENT) + ToUtf8(text[2..]);
  }

  function Flat<T>(parts: seq<seq<T>>): (r: seq<T>) {
    if parts == [] then [] else Flat(parts[..|parts| - 1]) + parts[|parts| - 1]
  }

  lemma FlatSnoc<T>(parts: seq<seq<T>>, part: seq<T>)
    ensures Flat(parts + [part]) == Flat(parts) + part
  {
    assert (parts + [part])[..|parts|] == parts;
  }

  ghost predicate Fits<T>(writes: seq<seq<T>>, limit: nat) {
    forall i :: 0 <= i < |writes| ==> 1 <= |writes[i]| <= limit
  }

  /** No write is shorter. */
  ghost predicate AtLeast<T>(writes: seq<seq<T>>, least: nat) {
    forall i :: 0 <= i < |writes| ==> |writes[i]| >= least
  }

  /** One more chunk handed over: what was written and what remains still make up the whole. */
  lemma NextWrite<T>(writes: seq<seq<T>>, write: seq<T>, after: seq<T>, all: seq<T>)
    requires Flat(writes) + (write + after) == all
    ensures Flat(writes + [write]) + after == all
  {
    FlatSnoc(writes, write);
    Regrouped(Flat(writes), write, after);
  }

  lemma FitsSnoc<T>(writes: seq<seq<T>>, write: seq<T>, limit: nat)
    requires Fits(writes, limit) && 1 <= |write| <= limit
    ensures Fits(writes + [write], limit)
  {
  }

  /** The bytes written so far and the conversion of what remains make up the whole conversion. */
  ghost predicate Converting(bytes: seq<seq<Byte>>, rest: seq<Unit>, text: seq<Unit>) {
    Flat(bytes) + ToUtf8(rest) == ToUtf8(text) && Fits(bytes, 3 * CHUNK_LIMIT)
  }

  lemma NextConversion(bytes: seq<seq<Byte>>, rest: seq<Unit>, text: seq<Unit>, count: nat)
    requires Converting(bytes, rest, text)
    requires 1 <= count <= |rest| && count <= CHUNK_LIMIT && !SplitsPair(rest, count)
    ensures Converting(bytes + [ToUtf8(rest[..count])], rest[count..], text)
  {
    ToUtf8Cut(rest, count);
    NextWrite(bytes, ToUtf8(rest[..count]), ToUtf8(rest[count..]), ToUtf8(text));
    FitsSnoc(bytes, ToUtf8(rest[..count]), 3 * CHUNK_LIMIT);
  }

  ghost predicate Copying<T>(chunks: seq<seq<T>>, rest: seq<T>, text: seq<T>) {
    Flat(chunks) + rest == text && Fits(chunks, CHUNK_LIMIT)
  }

  lemma NextCopy<T>(chunks: seq<seq<T>>, rest: seq<T>, text: seq<T>, count: nat)
    requires Copying(chunks, rest, text)
    requires 1 <= count <= |rest| && count <= CHUNK_LIMIT
    ensures Copying(chunks + [rest[..count]], rest[count..], text)
  {
    assert rest == rest[..count] + rest[count..];
    NextWrite(chunks, rest[..count], rest[count..], text);
    FitsSnoc(chunks, rest[..count], CHUNK_LIMIT);
  }

  /** WriteToStandardError: the writes it makes, UTF-16 to a console and UTF-8 to anything else. Every loop turn makes
      progress, every conversion fits the buffer, and the writes together are the whole text's conversion. */
  method WriteToStandardError(text: seq<Unit>, console: bool) returns (units: seq<seq<Unit>>, bytes: seq<seq<Byte>>)
    ensures Flat(units) == if console then text else []
    ensures Flat(bytes) == if console then [] else ToUtf8(text)
    ensures Fits(units, 256) && Fits(bytes, 768) && (units != [] ==> AtLeast(units[..|units| - 1], 255))
  {
    units, bytes := [], [];
    var rest := text;
    while rest != []
      invariant if console then Copying(units, rest, text) && bytes == []
                else Converting(bytes, rest, text) && units == []
      invariant rest != [] ==> AtLeast(units, 255)
      invariant units != [] ==> AtLeast(units[..|units| - 1], 255)
      decreases |rest|
    {
      var count := if |rest| < CHUNK_LIMIT then |rest| else CHUNK_LIMIT;
      if count < |rest| && High(rest[count - 1]) {
        count := count - 1;
      }
      if console {
        NextCopy(units, rest, text, count);
        assert (units + [rest[..count]])[..|units|] == units;
        units := units + [rest[..count]];
      } else {
        NextConversion(bytes, rest, text, count);
        var converted := ToUtf8(rest[..count]);
        if |converted| > 0 {
          bytes := bytes + [converted];
        }
      }
      rest := rest[count..];
    }
  }

  // ---------------------------------------------------------------------------------------------------------------
  // UTF-8 to UTF-16

  predicate Continuation(b: Byte) { 0x80 <= b <= 0xBF }

  /** The length of the sequence the text starts with, or 0 when it starts with none. */
  function SequenceLength(text: seq<Byte>): (n: nat)
    ensures n <= 4 && n <= |text|
    ensures n > 0 ==> !Continuation(text[0]) && forall i :: 0 < i < n ==> Continuation(text[i])
  {
    if text == [] then 0
    else if text[0] <= 0x7F then 1
    else if 0xC2 <= text[0] <= 0xDF && |text| >= 2 && Continuation(text[1]) then 2
    else if 0xE0 <= text[0] <= 0xEF && |text| >= 3 && Continuation(text[1]) && Continuation(text[2]) &&
            (text[0] == 0xE0 ==> text[1] >= 0xA0) && (text[0] == 0xED ==> text[1] <= 0x9F) then 3
    else if 0xF0 <= text[0] <= 0xF4 && |text| >= 4 && Continuation(text[1]) && Continuation(text[2]) &&
            Continuation(text[3]) && (text[0] == 0xF0 ==> text[1] >= 0x90) &&
                (text[0] == 0xF4 ==> text[1] <= 0x8F) then 4
    else 0
  }

  predicate WellFormed(text: seq<Byte>)
    decreases |text|
  {
    text == [] || (SequenceLength(text) > 0 && WellFormed(text[SequenceLength(text)..]))
  }

  function DecodedScalar(text: seq<Byte>): (c: nat)
    requires SequenceLength(text) > 0
    ensures c <= 0x10_FFFF && (c >= 0x1_0000 <==> SequenceLength(text) == 4)
  {
    var n, lead: nat := SequenceLength(text), text[0];
    if n == 1 then lead
    else
      var second: nat := text[1] - 0x80;
      if n == 2 then (lead - 0xC0) * 0x40 + second
      else
        var third: nat := text[2] - 0x80;
        if n == 3 then (lead - 0xE0) * 0x1000 + second * 0x40 + third
        else
          var fourth: nat := text[3] - 0x80;
          (lead - 0xF0) * 0x4_0000 + second * 0x1000 + third * 0x40 + fourth
  }

  function UnitsOf(c: nat): (units: seq<Unit>)
    requires c <= 0x10_FFFF
    ensures |units| == if c < 0x1_0000 then 1 else 2
  {
    if c < 0x1_0000 then [c as Unit]
    else [(0xD800 + (c - 0x1_0000) / 0x400) as Unit, (0xDC00 + (c - 0x1_0000) % 0x400) as Unit]
  }

  function DecodeSequence(text: seq<Byte>): (units: seq<Unit>)
    requires SequenceLength(text) > 0
    ensures 1 <= |units| <= SequenceLength(text)
  {
    UnitsOf(DecodedScalar(text))
  }

  /** The conversion of well-formed UTF-8 to UTF-16. */
  function ToUtf16(text: seq<Byte>): (units: seq<Unit>)
    requires WellFormed(text)
    ensures |units| <= |text|
    decreases |text|
  {
    if text == [] then [] else DecodeSequence(text) + ToUtf16(text[SequenceLength(text)..])
  }

  /** A cut starts no chunk inside a sequence. */
  predicate Boundary(text: seq<Byte>, k: nat)
    requires k <= |text|
  {
    k == |text| || !Continuation(text[k])
  }

  lemma SequenceAlone(text: seq<Byte>, k: nat)
    requires SequenceLength(text) <= k <= |text| && SequenceLength(text) > 0
    ensures SequenceLength(text[..k]) == SequenceLength(text)
    ensures DecodeSequence(text[..k]) == DecodeSequence(text)
  {
    assert forall i :: 0 <= i < k ==> text[..k][i] == text[i];
  }

  /** Well-formed text cut at a boundary is two well-formed texts, and conversion distributes over the cut. */
  lemma {:induction false} ToUtf16Cut(text: seq<Byte>, k: nat)
    requires WellFormed(text) && k <= |text| && Boundary(text, k)
    ensures WellFormed(text[..k]) && WellFormed(text[k..])
    ensures ToUtf16(text) == ToUtf16(text[..k]) + ToUtf16(text[k..])
    decreases |text|
  {
    if k == 0 {
      assert text[0..] == text && text[..0] == [];
    } else {
      var n := SequenceLength(text);
      assert n <= k;
      ToUtf16Cut(text[n..], k - n);
      CutAfter(text, n, k);
      HeadSequence(text, k);
      Regrouped(DecodeSequence(text), ToUtf16(text[..k][n..]), ToUtf16(text[k..]));
    }
  }

  lemma HeadSequence(text: seq<Byte>, k: nat)
    requires SequenceLength(text) > 0 && SequenceLength(text) <= k <= |text|
    requires WellFormed(text[..k][SequenceLength(text)..])
    ensures WellFormed(text[..k])
    ensures ToUtf16(text[..k]) == DecodeSequence(text) + ToUtf16(text[..k][SequenceLength(text)..])
  {
    SequenceAlone(text, k);
  }

  /** In well-formed text a boundary is never more than three bytes back. */
  lemma {:induction false} BoundaryNear(text: seq<Byte>, k: nat) returns (j: nat)
    requires WellFormed(text) && k <= |text|
    ensures j <= k <= j + 3 && Boundary(text, j)
    decreases |text|
  {
    var n := SequenceLength(text);
    if k < n || text == [] {
      j := 0;
    } else {
      var i := BoundaryNear(text[n..], k - n);
      j := i + n;
    }
  }

  /** The chunk of WriteUtf8ToStandardError: as long as the buffer allows without ending inside a sequence. */
  method ChunkLength(text: seq<Byte>) returns (count: nat)
    requires text != []
    ensures 1 <= count <= |text| && count <= 256
    ensures WellFormed(text) ==> Boundary(text, count) && if |text| <= 256 then count == |text| else count >= 253
    ensures !Boundary(text, count) ==> forall i :: 0 < i <= count ==> Continuation(text[i])
  {
    var limit := if |text| < CHUNK_LIMIT then |text| else CHUNK_LIMIT;
    count := limit;
    ghost var near: nat := 0;
    if WellFormed(text) {
      near := BoundaryNear(text, limit);
    }
    while count < |text| && count != 0 && Continuation(text[count])
      invariant near <= count <= limit && (|text| <= CHUNK_LIMIT ==> count == |text|)
      invariant forall i :: count < i <= limit && i < |text| ==> Continuation(text[i])
      decreases count
    {
      count := count - 1;
    }
    if count == 0 {
      count := limit;
    }
  }

  /** WriteUtf8ToStandardError to a console: the chunks are the text, each nonempty and within the buffer, and for
      well-formed text no chunk starts inside a sequence, so the conversions together are the whole text's. */
  method WriteUtf8ToStandardError(text: seq<Byte>) returns (chunks: seq<seq<Byte>>)
    ensures Flat(chunks) == text && Fits(chunks, CHUNK_LIMIT)
    ensures WellFormed(text) ==> AllWellFormed(chunks) && Shown(chunks) == ToUtf16(text)
  {
    chunks := [];
    var rest := text;
    while rest != []
      invariant Copying(chunks, rest, text)
      invariant WellFormed(text) ==> Showing(chunks, rest, text)
      decreases |rest|
    {
      var count := ChunkLength(rest);
      var chunk := rest[..count];
      NextCopy(chunks, rest, text, count);
      if WellFormed(text) {
        NextShown(chunks, rest, text, count);
      }
      chunks := chunks + [chunk];
      rest := rest[count..];
    }
  }

  ghost predicate AllWellFormed(chunks: seq<seq<Byte>>) {
    forall i :: 0 <= i < |chunks| ==> WellFormed(chunks[i])
  }

  /** What the console shows of well-formed chunks, each converted on its own. */
  ghost function Shown(chunks: seq<seq<Byte>>): (r: seq<Unit>)
    requires AllWellFormed(chunks)
  {
    if chunks == [] then [] else Shown(chunks[..|chunks| - 1]) + ToUtf16(chunks[|chunks| - 1])
  }

  lemma ShownSnoc(chunks: seq<seq<Byte>>, chunk: seq<Byte>)
    requires AllWellFormed(chunks) && WellFormed(chunk)
    ensures AllWellFormed(chunks + [chunk]) && Shown(chunks + [chunk]) == Shown(chunks) + ToUtf16(chunk)
  {
    assert (chunks + [chunk])[..|chunks|] == chunks;
  }

  /** What the console shows of the chunks, and what it will show of the rest, make up the whole conversion. */
  ghost predicate Showing(chunks: seq<seq<Byte>>, rest: seq<Byte>, text: seq<Byte>)
    requires WellFormed(text)
  {
    AllWellFormed(chunks) && WellFormed(rest) && Shown(chunks) + ToUtf16(rest) == ToUtf16(text)
  }

  lemma NextShown(chunks: seq<seq<Byte>>, rest: seq<Byte>, text: seq<Byte>, count: nat)
    requires WellFormed(text) && Showing(chunks, rest, text) && count <= |rest| && Boundary(rest, count)
    ensures Showing(chunks + [rest[..count]], rest[count..], text)
  {
    ToUtf16Cut(rest, count);
    ShownSnoc(chunks, rest[..count]);
    Regrouped(Shown(chunks), ToUtf16(rest[..count]), ToUtf16(rest[count..]));
  }

  // ---------------------------------------------------------------------------------------------------------------
  // Text without unpaired surrogates survives the trip

  predicate Paired(text: seq<Unit>) {
    text == [] ||
    (if StartsWithPair(text) then Paired(text[2..]) else !High(text[0]) && !Low(text[0]) && Paired(text[1..]))
  }

  lemma EncodedUnit(c: nat)
    requires c < 0x1_0000 && !(0xD800 <= c <= 0xDFFF)
    ensures SequenceLength(EncodeScalar(c)) == |EncodeScalar(c)| && DecodeSequence(EncodeScalar(c)) == [c]
  {
  }

  lemma Digits(c: nat)
    ensures c / 0x40 / 0x40 == c / 0x1000 && c / 0x1000 / 0x40 == c / 0x4_0000
    ensures c == c / 0x4_0000 * 0x4_0000 + c / 0x1000 % 0x40 * 0x1000 + c / 0x40 % 0x40 * 0x40 + c % 0x40
  {
  }

  lemma EncodedScalar(c: nat)
    requires 0x1_0000 <= c <= 0x10_FFFF
    ensures var r := EncodeScalar(c); SequenceLength(r) == |r| && DecodedScalar(r) == c
  {
    Digits(c);
  }

  lemma EncodedPair(high: Unit, low: Unit)
    requires High(high) && Low(low)
    ensures var r := EncodeScalar(Scalar(high, low));
            SequenceLength(r) == |r| && DecodeSequence(r) == [high, low]
  {
    EncodedScalar(Scalar(high, low));
    assert Scalar(high, low) - 0x1_0000 == (high - 0xD800) * 0x400 + (low - 0xDC00);
  }

  lemma SequenceThen(head: seq<Byte>, rest: seq<Byte>)
    requires SequenceLength(head) == |head| > 0 && WellFormed(rest)
    ensures WellFormed(head + rest) && ToUtf16(head + rest) == DecodeSequence(head) + ToUtf16(rest)
  {
    SequenceBefore(head, rest);
    assert (head + rest)[|head|..] == rest;
  }

  lemma SequenceBefore(head: seq<Byte>, rest: seq<Byte>)
    requires SequenceLength(head) == |head| > 0
    ensures SequenceLength(head + rest) == |head| && DecodeSequence(head + rest) == DecodeSequence(head)
  {
  }

  /** UTF-16 text without unpaired surrogates converts to well-formed UTF-8 and back to itself. */
  lemma {:induction false} ConversionRoundTrip(text: seq<Unit>)
    requires Paired(text)
    ensures WellFormed(ToUtf8(text)) && ToUtf16(ToUtf8(text)) == text
    decreases |text|
  {
    if text != [] {
      var n := HeadUnits(text);
      HeadDecodes(text);
      ConversionRoundTrip(text[n..]);
      SequenceThen(HeadBytes(text), ToUtf8(text[n..]));
      assert text == text[..n] + text[n..];
    }
  }

  lemma HeadDecodes(text: seq<Unit>)
    requires text != [] && Paired(text)
    ensures var n, head := HeadUnits(text), HeadBytes(text);
            Paired(text[n..]) && SequenceLength(head) == |head| && DecodeSequence(head) == text[..n]
  {
    if StartsWithPair(text) {
      EncodedPair(text[0], text[1]);
      assert text[..2] == [text[0], text[1]];
    } else {
      EncodedUnit(text[0]);
      assert text[..1] == [text[0]];
    }
  }

  // ---------------------------------------------------------------------------------------------------------------
  // Spelled out

  /** A high surrogate, D800 to DBFF, has a low one, DC00 to DFFF, after it, and a low one a high one before it. */
  predicate UnitPaired(text: seq<Unit>, i: nat)
    requires i < |text|
  {
    (0xD800 <= text[i] <= 0xDBFF ==> i + 1 < |text| && 0xDC00 <= text[i + 1] <= 0xDFFF) &&
    (0xDC00 <= text[i] <= 0xDFFF ==> i > 0 && 0xD800 <= text[i - 1] <= 0xDBFF)
  }

  ghost predicate AllPaired(text: seq<Unit>) { forall i :: 0 <= i < |text| ==> UnitPaired(text, i) }

  lemma PairedAfterHead(text: seq<Unit>)
    requires text != [] && (StartsWithPair(text) || (!High(text[0]) && !Low(text[0])))
    ensures AllPaired(text) <==> AllPaired(text[HeadUnits(text)..])
  {
    var n := HeadUnits(text);
    var rest := text[n..];
    if AllPaired(text) {
      forall i | 0 <= i < |rest|
        ensures UnitPaired(rest, i)
      {
        assert UnitPaired(text, i + n);
      }
    }
    if AllPaired(rest) {
      forall i | 0 <= i < |text|
        ensures UnitPaired(text, i)
      {
        if i >= n {
          assert UnitPaired(rest, i - n);
        }
      }
    }
  }

  /** Text is paired when each of its units is. */
  lemma {:induction false} PairedSpelled(text: seq<Unit>)
    ensures Paired(text) <==> AllPaired(text)
    decreases |text|
  {
    if text != [] {
      if StartsWithPair(text) || (!High(text[0]) && !Low(text[0])) {
        PairedAfterHead(text);
        PairedSpelled(text[HeadUnits(text)..]);
      } else {
        assert !UnitPaired(text, 0);
      }
    }
  }

  /** A surrogate without its partner leaves as the three bytes of U+FFFD. */
  lemma UnpairedIsReplaced(text: seq<Unit>)
    requires |text| == 1 && 0xD800 <= text[0] <= 0xDFFF
    ensures ToUtf8(text) == [0xEF, 0xBF, 0xBD]
  {
    assert text[1..] == [];
  }
}
