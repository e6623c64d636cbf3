/** The context packet's CIF0 walk (ANSI/VITA 49.2, section 9.1). */
module ContextWalk {
  import opened Bytes
  import opened Formats
  import opened Header
  import PayloadFormat

  /** A decoded context. A field is None when the packet did not carry it. Frequencies
      are the raw signed fixed-point integers; `gain` is the sum of the two stages. */
  datatype Context = Context(
    fieldChange: bool, bandwidth: Option<int>, rf: Option<int>, gain: Option<int>, sampleRate: Option<int>,
    supported: Option<bool>, dtype: Option<DType>, bytesPerSample: Option<nat>, isComplex: Option<bool>,
    itemFormat: Option<nat>)

  const EMPTY := Context(false, None, None, None, None, None, None, None, None, None)

  const CIF_BITS := 32

  /** The context indicator word as its bits, bit 0 first. */
  type Cif = s: seq<bool> | |s| == CIF_BITS witness seq(CIF_BITS, _ => false)

  /** The bytes the field of `bit` occupies in the packet. */
  function PresentSize(cif: Cif, bit: nat): nat
    requires bit < CIF_BITS
  {
    if cif[bit] && FieldSize(bit).Some? then FieldSize(bit).value else 0
  }

  /** The total size of the present fields above `bit`; bit 31 occupies nothing. */
  function SizeAbove(cif: Cif, bit: int): nat
    requires -1 <= bit
    decreases CIF_BITS - bit
  {
    if bit >= CONTEXT_FIELD_CHANGE_BIT - 1 then 0 else SizeAbove(cif, bit + 1) + PresentSize(cif, bit + 1)
  }

  /** The highest present bit up to `bit` that has no fixed size, or -1. */
  function StopFrom(cif: Cif, bit: int): (stop: int)
    requires -1 <= bit < CIF_BITS
    ensures -1 <= stop <= bit
  {
    if bit < 0 then -1
    else if cif[bit] && FieldSize(bit).None? then bit
    else StopFrom(cif, bit - 1)
  }

  /** Where the walk stops: nothing at or below this bit is decoded. */
  function StopBit(cif: Cif): int {
    StopFrom(cif, CONTEXT_FIELD_CHANGE_BIT - 1)
  }

  /** Two 16-bit stages, the second one first. */
  function GainOf(field: bytes): int {
    if |field| < 4 then 0 else SignedBE(field[..2]) + SignedBE(field[2..4])
  }

  /** Stores one present field; fields nobody uses leave the context alone. */
  function Adopt(ctx: Context, bit: nat, field: bytes): Context {
    if bit == CONTEXT_FIELD_CHANGE_BIT then ctx.(fieldChange := true)
    else if bit == CIF_BANDWIDTH then ctx.(bandwidth := Some(SignedBE(field)))
    else if bit == CIF_RF_REF_FREQ then ctx.(rf := Some(SignedBE(field)))
    else if bit == CIF_GAIN then ctx.(gain := Some(GainOf(field)))
    else if bit == CIF_SAMPLE_RATE then ctx.(sampleRate := Some(SignedBE(field)))
    else if bit == CIF_DATA_PAYLOAD_FORMAT then
      var format := PayloadFormat.Decode(FromBE(field));
      ctx.(supported := Some(format.supported), dtype := format.componentDType,
           bytesPerSample := format.bytesPerSample, isComplex := Some(format.isComplex),
           itemFormat := Some(format.windows.dataItemFormat))
    else ctx
  }

  /** The context made of the present fields numbered `from` and up. */
  function Assemble(cif: Cif, from: nat, fields: seq<bytes>): Context
    requires |fields| == CIF_BITS
    decreases CIF_BITS - from
  {
    if from >= CIF_BITS then EMPTY
    else
      var higher := Assemble(cif, from + 1, fields);
      if cif[from] then Adopt(higher, from, fields[from]) else higher
  }

  /** `size` bytes at an offset, or none when they do not fit. */
  function FieldAt(b: bytes, at: nat, size: nat): bytes {
    if at + size <= |b| then b[at..at + size] else []
  }

  /** Every field read at the offset that the sizes of the higher present fields add up to. */
  function FieldsAt(b: bytes, base: nat, cif: Cif): (fields: seq<bytes>)
    ensures |fields| == CIF_BITS
  {
    seq(CIF_BITS, bit requires 0 <= bit < CIF_BITS => FieldAt(b, base + SizeAbove(cif, bit), PresentSize(cif, bit)))
  }

  /** The walk from `bit` downwards, with the offset reached and the fields decoded so far. */
  function Walk(b: bytes, end: nat, cif: Cif, bit: int, offset: nat, ctx: Context): Result<Context>
    requires end <= |b| && -1 <= bit < CIF_BITS
    decreases bit
  {
    if bit < 0 then Ok(ctx)
    else if !cif[bit] then Walk(b, end, cif, bit - 1, offset, ctx)
    else if bit == CONTEXT_FIELD_CHANGE_BIT then Walk(b, end, cif, bit - 1, offset, ctx.(fieldChange := true))
    else match FieldSize(bit)
      case None => Ok(ctx)
      case Some(size) =>
        if end < offset + size then Err
        else Walk(b, end, cif, bit - 1, offset + size, Adopt(ctx, bit, b[offset..offset + size]))
  }

  /** The context a packet carries, read no further than its declared end. */
  function ContextOf(b: bytes, hdr: Header): Result<Context> {
    var end := Min(|b|, hdr.packetSize * 4);
    var base := hdr.headerLen + 4;
    if end < base then Err
    else Walk(b, end, Bits(FromBE(b[hdr.headerLen..base]), CIF_BITS), CIF_BITS - 1, base, EMPTY)
  }

  /** Walks the indicator bits downwards, advancing past every fixed-size field. */
  method DecodeContext(b: bytes, hdr: Header) returns (r: Result<Context>)
    ensures r == ContextOf(b, hdr)
  {
    hide Adopt;
    var endLimit: nat := Min(|b|, hdr.packetSize * 4);
    var offset: nat := hdr.headerLen;
    if endLimit < offset + 4 {
      return Err;
    }
    var cif := Bits(FromBE(b[offset..offset + 4]), CIF_BITS);
    offset := offset + 4;
    var ctx := EMPTY;
    for bit := CIF_BITS downto 0
      invariant ContextOf(b, hdr) == Walk(b, endLimit, cif, bit - 1, offset, ctx)
    {
      if !cif[bit] {
        continue;
      }
      if bit == CONTEXT_FIELD_CHANGE_BIT {
        ctx := ctx.(fieldChange := true);
        continue;
      }
      var size := FieldSize(bit);
      if size.None? {
        return Ok(ctx);
      }
      if endLimit < offset + size.value {
        return Err;
      }
      ctx := Adopt(ctx, bit, b[offset..offset + size.value]);
      offset := offset + size.value;
    }
    r := Ok(ctx);
  }

  // ---------- What the walk computes, without walking ----------

  /** It fails exactly when the usable bytes cut into the fields above the stop bit, and
      otherwise reads each of them where the higher ones end. */
  function Closed(b: bytes, end: nat, cif: Cif, base: nat): Result<Context> {
    if end < base + SizeAbove(cif, StopBit(cif)) then Err
    else Ok(Assemble(cif, StopBit(cif) + 1, FieldsAt(b, base, cif)))
  }

  lemma {:induction false} SizeAboveGrows(cif: Cif, low: int, high: int)
    requires -1 <= low <= high
    ensures SizeAbove(cif, high) <= SizeAbove(cif, low)
    decreases high - low
  {
    if low < high {
      SizeAboveGrows(cif, low + 1, high);
    }
  }

  lemma SizeStep(cif: Cif, bit: nat)
    requires bit < CIF_BITS
    ensures SizeAbove(cif, bit - 1) == SizeAbove(cif, bit) + (if bit < CONTEXT_FIELD_CHANGE_BIT then PresentSize(cif, bit) else 0)
  {
  }

  lemma AssembleStep(cif: Cif, bit: nat, fields: seq<bytes>)
    requires |fields| == CIF_BITS && bit < CIF_BITS
    ensures Assemble(cif, bit, fields)
         == if cif[bit] then Adopt(Assemble(cif, bit + 1, fields), bit, fields[bit])
            else Assemble(cif, bit + 1, fields)
  {
    hide Adopt;
  }

  lemma AdoptChange(ctx: Context, field: bytes)
    ensures Adopt(ctx, CONTEXT_FIELD_CHANGE_BIT, field) == ctx.(fieldChange := true)
  {
  }

  lemma {:induction false} WalkFrom(b: bytes, end: nat, cif: Cif, base: nat, bit: int)
    requires end <= |b| && -1 <= bit < CIF_BITS
    requires base + SizeAbove(cif, bit) <= end
    requires StopBit(cif) <= bit && (bit < CIF_BITS - 1 ==> StopBit(cif) == StopFrom(cif, bit))
    ensures Walk(b, end, cif, bit, base + SizeAbove(cif, bit), Assemble(cif, bit + 1, FieldsAt(b, base, cif)))
         == Closed(b, end, cif, base)
    decreases bit
  {
    hide Adopt, Assemble, SizeAbove, FieldSize;
    if 0 <= bit {
      var fields := FieldsAt(b, base, cif);
      SizeStep(cif, bit);
      AssembleStep(cif, bit, fields);
      if bit == CONTEXT_FIELD_CHANGE_BIT {
        AdoptChange(Assemble(cif, bit + 1, fields), fields[bit]);
        WalkFrom(b, end, cif, base, bit - 1);
      } else if cif[bit] && FieldSize(bit).None? {
      } else if base + SizeAbove(cif, bit - 1) <= end {
        WalkFrom(b, end, cif, base, bit - 1);
      } else {
        SizeAboveGrows(cif, StopBit(cif), bit - 1);
      }
    }
  }

  lemma WalkIsClosed(b: bytes, end: nat, cif: Cif, base: nat)
    requires base <= end <= |b|
    ensures Walk(b, end, cif, CIF_BITS - 1, base, EMPTY) == Closed(b, end, cif, base)
  {
    hide Adopt, Closed, Walk;
    WalkFrom(b, end, cif, base, CIF_BITS - 1);
  }

  // ---------- The encoder and the round trip ----------

  /** The present fields above `bit`, in descending bit order. */
  function EncodeAbove(cif: Cif, fields: seq<bytes>, bit: int): bytes
    requires -1 <= bit && |fields| == CIF_BITS
    decreases CIF_BITS - bit
  {
    if bit >= CONTEXT_FIELD_CHANGE_BIT - 1 then []
    else EncodeAbove(cif, fields, bit + 1) + (if PresentSize(cif, bit + 1) > 0 then fields[bit + 1] else [])
  }

  /** Every present fixed-size field is given by as many bytes as the table says. */
  predicate WellSized(cif: Cif, fields: seq<bytes>) {
    && |fields| == CIF_BITS
    && forall bit :: 0 <= bit < CONTEXT_FIELD_CHANGE_BIT && PresentSize(cif, bit) > 0 ==> |fields[bit]| == PresentSize(cif, bit)
  }

  /** The indicator word, then the fields the walk will reach. */
  function EncodeFields(cif: Cif, fields: seq<bytes>): bytes
    requires |fields| == CIF_BITS
  {
    ToBE(FromBits(cif), 4) + EncodeAbove(cif, fields, StopBit(cif))
  }

  lemma {:induction false} EncodedSize(cif: Cif, fields: seq<bytes>, bit: int)
    requires -1 <= bit && WellSized(cif, fields)
    ensures |EncodeAbove(cif, fields, bit)| == SizeAbove(cif, bit)
    decreases CIF_BITS - bit
  {
    if bit < CONTEXT_FIELD_CHANGE_BIT - 1 {
      EncodedSize(cif, fields, bit + 1);
    }
  }

  /** The field of `bit` sits right behind all the present fields above it. */
  lemma {:induction false} EncodedField(cif: Cif, fields: seq<bytes>, low: int, bit: nat)
    requires -1 <= low < bit < CONTEXT_FIELD_CHANGE_BIT
    requires WellSized(cif, fields) && PresentSize(cif, bit) > 0
    ensures var at := SizeAbove(cif, bit);
      && at + |fields[bit]| <= |EncodeAbove(cif, fields, low)|
      && EncodeAbove(cif, fields, low)[at..at + |fields[bit]|] == fields[bit]
    decreases bit - low
  {
    hide FieldSize;
    EncodedSize(cif, fields, low + 1);
    if low + 1 < bit {
      EncodedField(cif, fields, low + 1, bit);
    }
  }

  lemma {:induction false} AssembleSame(cif: Cif, from: nat, fields: seq<bytes>, read: seq<bytes>)
    requires |fields| == |read| == CIF_BITS
    requires StopBit(cif) < from
    requires forall bit :: from <= bit < CONTEXT_FIELD_CHANGE_BIT && PresentSize(cif, bit) > 0 ==> read[bit] == fields[bit]
    ensures Assemble(cif, from, fields) == Assemble(cif, from, read)
    decreases CIF_BITS - from
  {
    if from < CIF_BITS {
      AssembleSame(cif, from + 1, fields, read);
      if from < CONTEXT_FIELD_CHANGE_BIT && cif[from] {
        NoStopAbove(cif, from);
      }
    }
  }

  /** Every present bit above the stop bit has a fixed size. */
  lemma NoStopAbove(cif: Cif, bit: nat)
    requires StopBit(cif) < bit < CONTEXT_FIELD_CHANGE_BIT && cif[bit]
    ensures FieldSize(bit).Some?
  {
    NoStopFrom(cif, CONTEXT_FIELD_CHANGE_BIT - 1, bit);
  }

  lemma {:induction false} NoStopFrom(cif: Cif, top: int, bit: nat)
    requires -1 <= top < CIF_BITS && StopFrom(cif, top) < bit <= top && cif[bit]
    ensures FieldSize(bit).Some?
  {
    if bit < top {
      NoStopFrom(cif, top - 1, bit);
    }
  }

  /** Round trip: for every indicator word, any fields, anything before and after,
      decoding the encoded fields returns exactly the fields above the stop bit. */
  lemma DecodeEncode(hdr: Header, head: bytes, cif: Cif, fields: seq<bytes>, tail: bytes)
    requires WellSized(cif, fields)
    requires |head| == hdr.headerLen
    requires 4 * hdr.packetSize >= |head + EncodeFields(cif, fields)|
    ensures ContextOf(head + EncodeFields(cif, fields) + tail, hdr) == Ok(Assemble(cif, StopBit(cif) + 1, fields))
  {
    hide Walk, Assemble, EncodeAbove, FromBE, ToBE, FromBits, Bits, SizeAbove, FieldSize;
    var b := head + EncodeFields(cif, fields) + tail;
    var base := hdr.headerLen + 4;
    var body := EncodeAbove(cif, fields, StopBit(cif));
    assert b == head + ToBE(FromBits(cif), 4) + body + tail;
    assert b[hdr.headerLen..base] == ToBE(FromBits(cif), 4);
    assert b[base..base + |body|] == body;
    CifRoundTrip(cif);
    WalkEncoded(b, Min(|b|, hdr.packetSize * 4), cif, base, fields, body);
  }

  lemma WalkEncoded(b: bytes, end: nat, cif: Cif, base: nat, fields: seq<bytes>, body: bytes)
    requires WellSized(cif, fields) && body == EncodeAbove(cif, fields, StopBit(cif))
    requires base + |body| <= end <= |b| && b[base..base + |body|] == body
    ensures Walk(b, end, cif, CIF_BITS - 1, base, EMPTY) == Ok(Assemble(cif, StopBit(cif) + 1, fields))
  {
    hide Walk, Adopt, Assemble, FieldSize;
    EncodedSize(cif, fields, StopBit(cif));
    FieldsRead(b, base, cif, fields, body);
    WalkIsClosed(b, end, cif, base);
    AssembleSame(cif, StopBit(cif) + 1, fields, FieldsAt(b, base, cif));
  }

  lemma CifRoundTrip(cif: Cif)
    ensures Bits(FromBE(ToBE(FromBits(cif), 4)), CIF_BITS) == cif
  {
    Pow256Values();
    Pow2Of64();
    assert FromBits(cif) < Pow2(CIF_BITS);
    FromToBE(FromBits(cif), 4);
    BitsFromBits(cif);
  }

  lemma FieldsRead(b: bytes, base: nat, cif: Cif, fields: seq<bytes>, body: bytes)
    requires WellSized(cif, fields) && body == EncodeAbove(cif, fields, StopBit(cif))
    requires base + |body| <= |b| && b[base..base + |body|] == body
    ensures forall bit :: StopBit(cif) < bit < CONTEXT_FIELD_CHANGE_BIT && PresentSize(cif, bit) > 0 ==>
              FieldsAt(b, base, cif)[bit] == fields[bit]
  {
    hide FieldSize, EncodeAbove, StopFrom, SizeAbove, FieldsAt, PresentSize;
    forall bit | StopBit(cif) < bit < CONTEXT_FIELD_CHANGE_BIT && PresentSize(cif, bit) > 0
      ensures FieldsAt(b, base, cif)[bit] == fields[bit]
    {
      FieldRead(b, base, cif, fields, body, bit);
    }
  }

  lemma FieldRead(b: bytes, base: nat, cif: Cif, fields: seq<bytes>, body: bytes, bit: nat)
    requires WellSized(cif, fields) && body == EncodeAbove(cif, fields, StopBit(cif))
    requires base + |body| <= |b| && b[base..base + |body|] == body
    requires StopBit(cif) < bit < CONTEXT_FIELD_CHANGE_BIT && PresentSize(cif, bit) > 0
    ensures FieldsAt(b, base, cif)[bit] == fields[bit]
  {
    hide FieldSize, EncodeAbove, StopFrom, SizeAbove;
    EncodedField(cif, fields, StopBit(cif), bit);
    SliceOfSlice(b, base, |body|, SizeAbove(cif, bit), |fields[bit]|);
  }

  lemma SliceOfSlice(b: bytes, base: nat, length: nat, at: nat, size: nat)
    requires at + size <= length && base + length <= |b|
    ensures b[base + at..base + at + size] == b[base..base + length][at..at + size]
  {
    var whole := b[base..base + length];
    var direct, nested := b[base + at..base + at + size], whole[at..at + size];
    forall i | 0 <= i < size
      ensures direct[i] == nested[i]
    {
      assert nested[i] == whole[at + i] == b[base + (at + i)];
    }
  }

  /** The same for a whole context packet, header included. */
  lemma ContextPacketRoundTrip(hdr: Header, reserved: nat, cif: Cif, fields: seq<bytes>, tail: bytes)
    requires hdr.Printable() && reserved < 4
    requires WellSized(cif, fields)
    requires 4 * hdr.packetSize >= hdr.headerLen + |EncodeFields(cif, fields)|
    ensures var raw := PrintHeader(hdr, reserved) + EncodeFields(cif, fields) + tail;
      && HeaderOf(raw) == Ok(hdr)
      && ContextOf(raw, hdr) == Ok(Assemble(cif, StopBit(cif) + 1, fields))
  {
    var head := PrintHeader(hdr, reserved);
    assert head + EncodeFields(cif, fields) + tail == head + (EncodeFields(cif, fields) + tail);
    ParsePrint(hdr, reserved, EncodeFields(cif, fields) + tail);
    DecodeEncode(hdr, head, cif, fields, tail);
  }

  lemma {:induction false} WalkIgnoresTail(b: bytes, end: nat, cif: Cif, bit: int, offset: nat, ctx: Context, tail: bytes)
    requires end <= |b| && -1 <= bit < CIF_BITS
    ensures Walk(b + tail, end, cif, bit, offset, ctx) == Walk(b, end, cif, bit, offset, ctx)
    decreases bit
  {
    hide Adopt;
    if bit < 0 {
    } else if !cif[bit] {
      WalkIgnoresTail(b, end, cif, bit - 1, offset, ctx, tail);
    } else if bit == CONTEXT_FIELD_CHANGE_BIT {
      WalkIgnoresTail(b, end, cif, bit - 1, offset, ctx.(fieldChange := true), tail);
    } else {
      match FieldSize(bit)
      case None =>
      case Some(size) =>
        if offset + size <= end {
          assert (b + tail)[offset..offset + size] == b[offset..offset + size];
          WalkIgnoresTail(b, end, cif, bit - 1, offset + size, Adopt(ctx, bit, b[offset..offset + size]), tail);
        }
    }
  }

  /** Fields are never read past the declared packet end. */
  lemma ContextIgnoresTail(b: bytes, hdr: Header, tail: bytes)
    requires hdr.packetSize * 4 <= |b|
    ensures ContextOf(b + tail, hdr) == ContextOf(b, hdr)
  {
    hide Walk;
    var end := hdr.packetSize * 4;
    var base := hdr.headerLen + 4;
    if base <= end {
      assert (b + tail)[hdr.headerLen..base] == b[hdr.headerLen..base];
      WalkIgnoresTail(b, end, Bits(FromBE(b[hdr.headerLen..base]), CIF_BITS), CIF_BITS - 1, base, EMPTY, tail);
    }
  }

  predicate Decoded(cif: Cif, from: nat, bit: nat)
    requires bit < CIF_BITS
  {
    from <= bit && cif[bit]
  }

  /** The same context, field by field. */
  function Explicit(cif: Cif, from: nat, fields: seq<bytes>): Context
    requires |fields| == CIF_BITS
  {
    var format := PayloadFormat.Decode(FromBE(fields[CIF_DATA_PAYLOAD_FORMAT]));
    var hasFormat := Decoded(cif, from, CIF_DATA_PAYLOAD_FORMAT);
    Context(
      fieldChange := Decoded(cif, from, CONTEXT_FIELD_CHANGE_BIT),
      bandwidth := if Decoded(cif, from, CIF_BANDWIDTH) then Some(SignedBE(fields[CIF_BANDWIDTH])) else None,
      rf := if Decoded(cif, from, CIF_RF_REF_FREQ) then Some(SignedBE(fields[CIF_RF_REF_FREQ])) else None,
      gain := if Decoded(cif, from, CIF_GAIN) then Some(GainOf(fields[CIF_GAIN])) else None,
      sampleRate := if Decoded(cif, from, CIF_SAMPLE_RATE) then Some(SignedBE(fields[CIF_SAMPLE_RATE])) else None,
      supported := if hasFormat then Some(format.supported) else None,
      dtype := if hasFormat then format.componentDType else None,
      bytesPerSample := if hasFormat then format.bytesPerSample else None,
      isComplex := if hasFormat then Some(format.isComplex) else None,
      itemFormat := if hasFormat then Some(format.windows.dataItemFormat) else None)
  }

  /** Field by field: each used field is present in the context exactly when its bit is
      set above the stop bit, and holds the value of that bit's own bytes. */
  lemma {:induction false} AssembleExplicit(cif: Cif, from: nat, fields: seq<bytes>)
    requires |fields| == CIF_BITS
    ensures Assemble(cif, from, fields) == Explicit(cif, from, fields)
    decreases CIF_BITS - from
  {
    if from < CIF_BITS {
      AssembleExplicit(cif, from + 1, fields);
    }
  }

  /** What decoding a context packet means: it succeeds exactly when the declared and the
      received bytes hold the indicator word and every field above the stop bit, and then
      reads each used field at the offset its higher present fields add up to. */
  lemma ContextMeaning(b: bytes, hdr: Header)
    ensures var base, end := hdr.headerLen + 4, Min(|b|, hdr.packetSize * 4);
      ContextOf(b, hdr) ==
        if end < base then Err
        else
          var cif := Bits(FromBE(b[hdr.headerLen..base]), CIF_BITS);
          if end < base + SizeAbove(cif, StopBit(cif)) then Err
          else Ok(Explicit(cif, StopBit(cif) + 1, FieldsAt(b, base, cif)))
  {
    hide Walk, Explicit, Assemble, FromBE, Bits, SizeAbove, FieldsAt;
    var base, end := hdr.headerLen + 4, Min(|b|, hdr.packetSize * 4);
    if base <= end {
      var cif := Bits(FromBE(b[hdr.headerLen..base]), CIF_BITS);
      WalkIsClosed(b, end, cif, base);
      AssembleExplicit(cif, StopBit(cif) + 1, FieldsAt(b, base, cif));
    }
  }

  /** A context either has a whole sample interpretation or none at all. */
  predicate WellFormed(c: Context) {
    && (c.dtype.Some? <==> c.supported == Some(true))
    && (c.bytesPerSample.Some? <==> c.supported == Some(true))
    && (c.dtype.Some? ==>
          && c.isComplex.Some?
          && c.dtype.value.Component? && 0 < c.dtype.value.size
          && c.bytesPerSample.value == (if c.isComplex.value then 2 else 1) * c.dtype.value.size)
  }

  lemma AdoptWellFormed(ctx: Context, bit: nat, field: bytes)
    requires WellFormed(ctx)
    ensures WellFormed(Adopt(ctx, bit, field))
  {
    PayloadFormat.SampleSize(FromBE(field));
    hide PayloadFormat.Decode, SignedBE, GainOf;
  }

  lemma {:induction false} WalkWellFormed(b: bytes, end: nat, cif: Cif, bit: int, offset: nat, ctx: Context)
    requires end <= |b| && -1 <= bit < CIF_BITS && WellFormed(ctx)
    ensures Walk(b, end, cif, bit, offset, ctx).Ok? ==> WellFormed(Walk(b, end, cif, bit, offset, ctx).value)
    decreases bit
  {
    hide Adopt;
    if bit < 0 {
    } else if !cif[bit] {
      WalkWellFormed(b, end, cif, bit - 1, offset, ctx);
    } else if bit == CONTEXT_FIELD_CHANGE_BIT {
      WalkWellFormed(b, end, cif, bit - 1, offset, ctx.(fieldChange := true));
    } else {
      match FieldSize(bit)
      case None =>
      case Some(size) =>
        if offset + size <= end {
          AdoptWellFormed(ctx, bit, b[offset..offset + size]);
          WalkWellFormed(b, end, cif, bit - 1, offset + size, Adopt(ctx, bit, b[offset..offset + size]));
        }
    }
  }

  /** Every decoded context is well formed. */
  lemma DecodedFormat(b: bytes, hdr: Header)
    requires ContextOf(b, hdr).Ok?
    ensures WellFormed(ContextOf(b, hdr).value)
  {
    hide Walk;
    var base := hdr.headerLen + 4;
    WalkWellFormed(b, Min(|b|, hdr.packetSize * 4), Bits(FromBE(b[hdr.headerLen..base]), CIF_BITS), CIF_BITS - 1, base, EMPTY);
  }
}
