/** Where things sit on the wire, in bytes counted from the start of the datagram. */
module WireLayout {
  import opened Bytes
  import opened Header
  import opened ContextWalk
  import opened Interpreter

  /** Four bytes in network order. */
  lemma FourBytes(b: bytes)
    requires |b| == 4
    ensures FromBE(b) == b[0] as int * 0x100_0000 + b[1] as int * 0x1_0000 + b[2] as int * 0x100 + b[3]
  {
    assert b == [b[0], b[1], b[2], b[3]];
    FromBEAppend([], b[0]);
    FromBEAppend([b[0]], b[1]);
    FromBEAppend([b[0], b[1]], b[2]);
    FromBEAppend([b[0], b[1], b[2]], b[3]);
    assert [] + [b[0]] == [b[0]] && [b[0]] + [b[1]] == [b[0], b[1]];
    assert [b[0], b[1]] + [b[2]] == [b[0], b[1], b[2]] && [b[0], b[1], b[2]] + [b[3]] == b;
  }

  /** A signed field is negative exactly when its first bit is set. */
  lemma SignBit(b: bytes)
    requires |b| > 0
    ensures SignedBE(b) < 0 <==> b[0] >= 128
  {
    Leading(b);
    Halves(b[0], FromBE(b), Pow256(|b| - 1));
  }

  lemma Halves(x: int, v: int, p: int)
    requires 0 < p && x * p <= v < (x + 1) * p
    ensures 2 * v < 256 * p <==> x < 128
  {
    if x < 128 {
      Scaled(x + 1, 128, p);
    } else {
      Scaled(128, x, p);
    }
  }

  lemma Scaled(x: int, y: int, p: int)
    requires 0 < p && x <= y
    ensures x * p <= y * p
  {
  }

  lemma {:induction false} Leading(b: bytes)
    requires |b| > 0
    ensures b[0] * Pow256(|b| - 1) <= FromBE(b) < (b[0] + 1) * Pow256(|b| - 1)
  {
    if |b| > 1 {
      var front := b[..|b| - 1];
      Leading(front);
      Longer(b[0], FromBE(front), Pow256(|front| - 1), b[|b| - 1]);
    }
  }

  lemma Longer(x: int, v: int, p: int, last: byte)
    requires x * p <= v < (x + 1) * p
    ensures x * (256 * p) <= v * 256 + last < (x + 1) * (256 * p)
  {
    assert x * (256 * p) == 256 * (x * p) && (x + 1) * (256 * p) == 256 * ((x + 1) * p);
  }

  /** Word 0, window by window, in the bytes of the datagram. */
  function Word0At(b: bytes): Word0
    requires |b| >= 4
  {
    Word0(b[0] / 16, b[0] / 8 % 2 == 1, b[0] / 4 % 2 == 1, b[0] % 4, b[1] / 64, b[1] / 16 % 4, b[1] % 16, b[2] as int * 0x100 + b[3])
  }

  lemma Word0Bytes(b: bytes)
    requires |b| >= 4
    ensures Word0Of(FromBE(b[..4])) == Word0At(b)
  {
    hide Word0Of, FromBE;
    FourBytes(b[..4]);
    var w := Word0At(b);
    TopByte(b[0]);
    assert b[1] == 64 * w.tsi + 16 * w.tsf + w.counter;
    assert EncodeWord0(w) == FromBE(b[..4]);
    DecodeEncodeWord0(w);
  }

  lemma TopByte(x: byte)
    ensures x == 16 * (x / 16) + (if x / 8 % 2 == 1 then 8 else 0) + (if x / 4 % 2 == 1 then 4 else 0) + x % 4
  {
  }

  /** An optional field of `n` bytes at `at`. */
  predicate FieldIs(present: bool, v: Option<nat>, b: bytes, at: nat, n: nat) {
    if present then at + n <= |b| && v == Some(FromBE(b[at..at + n])) else v == None
  }

  /** The whole prologue by byte positions: stream id first for types 1, 3, 4 and 5, then the
      eight class id bytes, then four and eight bytes of time, each if its flag is set; a
      datagram fails exactly if it is shorter than that. */
  lemma HeaderLayout(b: bytes)
    ensures |b| < 4 ==> HeaderOf(b).Err?
    ensures |b| >= 4 ==>
      var w := Word0At(b);
      var classAt := if w.packetType in {1, 3, 4, 5} then 8 else 4;
      var intAt := if w.classId then classAt + 8 else classAt;
      var fracAt := if w.tsi != 0 then intAt + 4 else intAt;
      var len := if w.tsf != 0 then fracAt + 8 else fracAt;
      && (HeaderOf(b).Err? <==> |b| < len)
      && (|b| >= len ==>
            var h := HeaderOf(b).value;
            && h.packetType == w.packetType && h.hasTrailer == w.trailer && h.tsi == w.tsi && h.tsf == w.tsf
            && h.packetCounter == w.counter && h.packetSize == w.size && h.headerLen == len
            && FieldIs(w.packetType in {1, 3, 4, 5}, h.streamId, b, 4, 4)
            && h.classId == (if w.classId then Some(b[classAt..classAt + 8]) else None)
            && FieldIs(w.tsi != 0, h.intTs, b, intAt, 4)
            && FieldIs(w.tsf != 0, h.fracPs, b, fracAt, 8))
  {
    hide Word0Of, FromBE;
    if |b| >= 4 {
      Word0Bytes(b);
    }
  }

  // ---------- Context fields ----------

  /** The present bits of a kind above `bit`. */
  function PresentOf(cif: Cif, kind: set<int>, bit: int): set<int> {
    set k | k in kind && bit < k && 0 <= k < 32 && cif[k]
  }

  const FOUR_BYTES := {30, 24, 23, 22, 19, 18, 16, 10}
  const EIGHT_BYTES := {29, 28, 27, 26, 25, 21, 20, 17, 15}

  /** How far behind the indicator word the field of `bit` starts: four, eight, 44 or 52
      bytes for each present bit above it, by kind. */
  function Distance(cif: Cif, bit: int): nat {
    4 * |PresentOf(cif, FOUR_BYTES, bit)| + 8 * |PresentOf(cif, EIGHT_BYTES, bit)|
    + 44 * |PresentOf(cif, {14, 13}, bit)| + 52 * |PresentOf(cif, {12, 11}, bit)|
  }

  lemma PresentStep(cif: Cif, kind: set<int>, bit: nat)
    requires bit < 32
    ensures |PresentOf(cif, kind, bit - 1)| == |PresentOf(cif, kind, bit)| + (if bit in kind && cif[bit] then 1 else 0)
  {
    if bit in kind && cif[bit] {
      assert PresentOf(cif, kind, bit - 1) == PresentOf(cif, kind, bit) + {bit};
    } else {
      assert PresentOf(cif, kind, bit - 1) == PresentOf(cif, kind, bit);
    }
  }

  lemma NonePresent(cif: Cif, kind: set<int>)
    requires forall k :: k in kind ==> k <= 30
    ensures PresentOf(cif, kind, 30) == {}
  {
  }

  lemma {:induction false} FieldDistance(cif: Cif, bit: int)
    requires 9 <= bit <= 30
    ensures SizeAbove(cif, bit) == Distance(cif, bit)
    decreases 30 - bit
  {
    hide PresentOf, SizeAbove;
    if bit == 30 {
      NothingAbove(cif);
      NonePresent(cif, FOUR_BYTES);
      NonePresent(cif, EIGHT_BYTES);
      NonePresent(cif, {14, 13});
      NonePresent(cif, {12, 11});
    } else {
      FieldDistance(cif, bit + 1);
      SizeStep(cif, bit + 1);
      PresentStep(cif, FOUR_BYTES, bit + 1);
      PresentStep(cif, EIGHT_BYTES, bit + 1);
      PresentStep(cif, {14, 13}, bit + 1);
      PresentStep(cif, {12, 11}, bit + 1);
    }
  }

  lemma NothingAbove(cif: Cif)
    ensures SizeAbove(cif, 30) == 0
  {
  }

  /** The walk stops at the highest present bit below ten, and at none above. */
  lemma StopsBelowTen(cif: Cif)
    ensures StopBit(cif) < 10
    ensures 0 <= StopBit(cif) ==> cif[StopBit(cif)]
    ensures forall k :: StopBit(cif) < k < 10 ==> !cif[k]
    ensures SizeAbove(cif, StopBit(cif)) == Distance(cif, 9)
  {
    StopFound(cif, 30);
    FieldDistance(cif, 9);
    NothingBelow(cif, StopBit(cif));
  }

  lemma {:induction false} StopFound(cif: Cif, bit: int)
    requires -1 <= bit <= 30
    ensures var stop := StopFrom(cif, bit);
      && stop < 10 && (0 <= stop ==> cif[stop])
      && forall k :: stop < k < 10 && k <= bit ==> !cif[k]
  {
    if 0 <= bit {
      StopFound(cif, bit - 1);
    }
  }

  lemma {:induction false} NothingBelow(cif: Cif, bit: int)
    requires -1 <= bit < 10 && forall k :: bit < k < 10 ==> !cif[k]
    ensures SizeAbove(cif, bit) == SizeAbove(cif, 9)
    decreases 9 - bit
  {
    if bit < 9 {
      NothingBelow(cif, bit + 1);
    }
  }

  /** A signed field of `n` bytes behind the indicator word, if its bit is set. */
  predicate SignedIs(cif: Cif, bit: nat, v: Option<int>, b: bytes, base: nat)
    requires bit < 32
  {
    var at := base + Distance(cif, bit);
    if cif[bit] then at + 8 <= |b| && v == Some(SignedBE(b[at..at + 8])) else v == None
  }

  /** The whole context by bit numbers and byte positions: bits 29, 27 and 21 are signed
      64-bit frequencies, bit 23 two signed 16-bit gain stages, bit 15 the payload format
      word, and bit 31 announces a change. Decoding fails exactly when the declared or the
      received bytes end inside the indicator word or a fixed-size field. */
  lemma ContextLayout(b: bytes, hdr: Header)
    ensures var base, end := hdr.headerLen + 4, Min(|b|, 4 * hdr.packetSize);
      if end < base then ContextOf(b, hdr).Err?
      else
        var cif: Cif := Bits(FromBE(b[base - 4..base]), 32);
        && (ContextOf(b, hdr).Err? <==> end < base + Distance(cif, 9))
        && (ContextOf(b, hdr).Ok? ==> ContextHas(ContextOf(b, hdr).value, b, base, cif))
  {
    hide Explicit, ContextOf, Distance, StopBit, SizeAbove, FieldsAt, FromBE;
    ContextMeaning(b, hdr);
    var base, end := hdr.headerLen + 4, Min(|b|, 4 * hdr.packetSize);
    if base <= end {
      var cif: Cif := Bits(FromBE(b[base - 4..base]), 32);
      StopsBelowTen(cif);
      if base + Distance(cif, 9) <= end {
        ExplicitHas(b, base, cif);
      }
    }
  }

  predicate ContextHas(c: Context, b: bytes, base: nat, cif: Cif) {
    && c.fieldChange == cif[31]
    && SignedIs(cif, 29, c.bandwidth, b, base)
    && SignedIs(cif, 27, c.rf, b, base)
    && SignedIs(cif, 21, c.sampleRate, b, base)
    && (var at := base + Distance(cif, 23);
        if cif[23] then at + 4 <= |b| && c.gain == Some(SignedBE(b[at..at + 2]) + SignedBE(b[at + 2..at + 4])) else c.gain == None)
    && (var at := base + Distance(cif, 15);
        if cif[15] then at + 8 <= |b| && FormatIs(c, FromBE(b[at..at + 8]))
        else c.supported == None && c.dtype == None && c.bytesPerSample == None && c.isComplex == None && c.itemFormat == None)
  }

  /** The five entries a payload format word gives a context. */
  predicate FormatIs(c: Context, u: nat) {
    var f := PayloadFormat.Decode(u);
    && c.supported == Some(f.supported) && c.dtype == f.componentDType && c.bytesPerSample == f.bytesPerSample
    && c.isComplex == Some(f.isComplex) && c.itemFormat == Some(f.windows.dataItemFormat)
  }

  lemma ExplicitHas(b: bytes, base: nat, cif: Cif)
    requires base + Distance(cif, 9) <= |b|
    ensures ContextHas(Explicit(cif, StopBit(cif) + 1, FieldsAt(b, base, cif)), b, base, cif)
  {
    hide Distance, StopBit, SizeAbove, FieldsAt, FromBE, SignedBE, PayloadFormat.Decode;
    StopsBelowTen(cif);
    FieldWithin(b, base, cif, 29);
    FieldWithin(b, base, cif, 27);
    FieldWithin(b, base, cif, 23);
    FieldWithin(b, base, cif, 21);
    FieldWithin(b, base, cif, 15);
    if cif[23] {
      GainAt(b, base + Distance(cif, 23));
    }
  }

  lemma GainAt(b: bytes, at: nat)
    requires at + 4 <= |b|
    ensures GainOf(b[at..at + 4]) == SignedBE(b[at..at + 2]) + SignedBE(b[at + 2..at + 4])
  {
    assert b[at..at + 4][..2] == b[at..at + 2] && b[at..at + 4][2..4] == b[at + 2..at + 4];
  }

  lemma FieldWithin(b: bytes, base: nat, cif: Cif, bit: nat)
    requires base + Distance(cif, 9) <= |b| && bit in {29, 27, 23, 21, 15}
    ensures var at, n := base + Distance(cif, bit), (if bit == 23 then 4 else 8);
      cif[bit] ==> at + n <= |b| && FieldsAt(b, base, cif)[bit] == b[at..at + n]
  {
    hide Distance, SizeAbove;
    SizeStep(cif, bit);
    FieldDistance(cif, bit);
    FieldDistance(cif, 9);
    SizeAboveGrows(cif, 9, bit - 1);
  }

  // ---------- Records ----------

  /** Only packets of type 1 and 4 become records, data and contexts; the others are dropped. */
  lemma RecordTypes(s: State, maxStreams: int, raw: bytes)
    ensures var o := Step(s, maxStreams, raw);
      && (o.record.Some? ==> |raw| >= 4 && raw[0] / 16 == (if o.record.value.ContextRecord? then 4 else 1))
      && (HeaderOf(raw).Ok? && raw[0] / 16 !in {1, 4} ==> o == Outcome(s.(dropped := s.dropped + 1), None))
  {
    hide HeaderOf, ContextOf, Trim.TrimData, Usable, CounterGap;
    HeaderLayout(raw);
  }

  /** A context datagram of a stream with a slot that is cut inside its indicator word or one
      of its fields is one error and changes nothing else. */
  lemma CutContext(s: State, maxStreams: int, raw: bytes)
    requires HeaderOf(raw).Ok? && raw[0] / 16 == 4
    requires var sid := HeaderOf(raw).value.streamId; sid.Some? ==> sid.value in s.contexts || |s.contexts| < maxStreams
    requires var h := HeaderOf(raw).value;
      var base, end := h.headerLen + 4, Min(|raw|, 4 * h.packetSize);
      end < base || end < base + Distance(Bits(FromBE(raw[base - 4..base]), 32), 9)
    ensures Step(s, maxStreams, raw) == Outcome(s.(errors := s.errors + 1), None)
  {
    hide HeaderOf, ContextOf, Distance, FromBE;
    HeaderLayout(raw);
    ContextLayout(raw, HeaderOf(raw).value);
  }

  /** The first accepted data packet of a stream shows no gap. */
  lemma FirstShowsNoGap(s: State, maxStreams: int, raw: bytes)
    ensures var o := Step(s, maxStreams, raw);
      o.record.Some? && o.record.value.DataRecord? && o.record.value.metadata.streamId !in s.lastCounter ==>
        !o.record.value.metadata.gapBefore
  {
    hide HeaderOf, ContextOf, Trim.TrimData, Usable;
  }
}
