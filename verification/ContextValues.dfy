/** Context packets by value: the fields a context is made of, serialised and read back. */
module ContextValues {
  import opened Bytes
  import opened Formats
  import opened Header
  import opened ContextWalk

  /** The values of the five fields that are used. */
  datatype Values = Values(
    bandwidth: int, rf: int, stage2: int, stage1: int, sampleRate: int, format: PayloadFormat.Windows)
  {
    predicate InRange() {
      && FitsSigned(bandwidth, 8) && FitsSigned(rf, 8) && FitsSigned(sampleRate, 8)
      && FitsSigned(stage2, 2) && FitsSigned(stage1, 2)
      && format.InRange()
    }
  }

  /** The bits of the used fields. */
  const USED: set<nat> := {CIF_BANDWIDTH, CIF_RF_REF_FREQ, CIF_GAIN, CIF_SAMPLE_RATE, CIF_DATA_PAYLOAD_FORMAT}

  /** The wire form of the field of a used bit. */
  function ValueField(v: Values, bit: nat): bytes
    requires v.InRange() && bit in USED
  {
    if bit == CIF_BANDWIDTH then ToSignedBE(v.bandwidth, 8)
    else if bit == CIF_RF_REF_FREQ then ToSignedBE(v.rf, 8)
    else if bit == CIF_GAIN then ToSignedBE(v.stage2, 2) + ToSignedBE(v.stage1, 2)
    else if bit == CIF_SAMPLE_RATE then ToSignedBE(v.sampleRate, 8)
    else
      PayloadFormat.DecodeEncode(v.format);
      ToBE(PayloadFormat.Encode(v.format), 8)
  }

  /** All fields: the used ones carry the values, the others whatever bytes are given. */
  function FieldsOf(v: Values, others: seq<bytes>): (fields: seq<bytes>)
    requires v.InRange() && |others| == CIF_BITS
    ensures |fields| == CIF_BITS
  {
    seq(CIF_BITS, bit requires 0 <= bit < CIF_BITS => if bit in USED then ValueField(v, bit) else others[bit])
  }

  /** Every present field that nobody uses is given by as many bytes as the table says. */
  predicate OthersSized(cif: Cif, others: seq<bytes>) {
    && |others| == CIF_BITS
    && forall bit :: 0 <= bit < CONTEXT_FIELD_CHANGE_BIT && bit !in USED && PresentSize(cif, bit) > 0 ==>
         |others[bit]| == PresentSize(cif, bit)
  }

  lemma FieldsWellSized(cif: Cif, v: Values, others: seq<bytes>)
    requires v.InRange() && OthersSized(cif, others)
    ensures WellSized(cif, FieldsOf(v, others))
  {
    hide ToSignedBE, FitsSigned, PayloadFormat.Encode, ToBE;
  }

  /** The context that the given values amount to: those of the present fields above the
      stop bit. Bit 31 announces a change and has no bytes. */
  function Carried(cif: Cif, v: Values): Context {
    var from := StopBit(cif) + 1;
    var format := PayloadFormat.Classify(v.format);
    var hasFormat := Decoded(cif, from, CIF_DATA_PAYLOAD_FORMAT);
    Context(
      fieldChange := Decoded(cif, from, CONTEXT_FIELD_CHANGE_BIT),
      bandwidth := if Decoded(cif, from, CIF_BANDWIDTH) then Some(v.bandwidth) else None,
      rf := if Decoded(cif, from, CIF_RF_REF_FREQ) then Some(v.rf) else None,
      gain := if Decoded(cif, from, CIF_GAIN) then Some(v.stage2 + v.stage1) else None,
      sampleRate := if Decoded(cif, from, CIF_SAMPLE_RATE) then Some(v.sampleRate) else None,
      supported := if hasFormat then Some(format.supported) else None,
      dtype := if hasFormat then format.componentDType else None,
      bytesPerSample := if hasFormat then format.bytesPerSample else None,
      isComplex := if hasFormat then Some(format.isComplex) else None,
      itemFormat := if hasFormat then Some(v.format.dataItemFormat) else None)
  }

  lemma FieldsReadBack(v: Values, others: seq<bytes>)
    requires v.InRange() && |others| == CIF_BITS
    ensures var fields := FieldsOf(v, others);
      && SignedBE(fields[CIF_BANDWIDTH]) == v.bandwidth && SignedBE(fields[CIF_RF_REF_FREQ]) == v.rf
      && SignedBE(fields[CIF_SAMPLE_RATE]) == v.sampleRate
  {
    hide ToSignedBE, SignedBE, FitsSigned, PayloadFormat.Encode, ToBE;
    SignedRoundTrip(v.bandwidth, 8);
    SignedRoundTrip(v.rf, 8);
    SignedRoundTrip(v.sampleRate, 8);
  }

  /** The two gain stages, each with its own sign. */
  lemma GainReadBack(stage2: int, stage1: int)
    requires FitsSigned(stage2, 2) && FitsSigned(stage1, 2)
    ensures GainOf(ToSignedBE(stage2, 2) + ToSignedBE(stage1, 2)) == stage2 + stage1
  {
    hide ToSignedBE, SignedBE, FitsSigned;
    SignedRoundTrip(stage2, 2);
    SignedRoundTrip(stage1, 2);
    var high, low := ToSignedBE(stage2, 2), ToSignedBE(stage1, 2);
    assert (high + low)[..2] == high && (high + low)[2..4] == low;
  }

  lemma FormatReadBack(w: PayloadFormat.Windows)
    requires w.InRange()
    ensures 0 <= PayloadFormat.Encode(w)
    ensures PayloadFormat.Decode(FromBE(ToBE(PayloadFormat.Encode(w), 8))) == PayloadFormat.Classify(w)
    ensures PayloadFormat.Classify(w).windows == w
  {
    hide PayloadFormat.Encode, PayloadFormat.WindowsOf;
    PayloadFormat.DecodeEncode(w);
    Pow256Values();
    FromToBE(PayloadFormat.Encode(w), 8);
  }

  lemma ExplicitIsCarried(cif: Cif, v: Values, others: seq<bytes>)
    requires v.InRange() && |others| == CIF_BITS
    ensures Explicit(cif, StopBit(cif) + 1, FieldsOf(v, others)) == Carried(cif, v)
  {
    hide ToSignedBE, SignedBE, FitsSigned, PayloadFormat.Encode, PayloadFormat.Decode, PayloadFormat.Classify, ToBE, GainOf, StopFrom;
    FieldsReadBack(v, others);
    GainReadBack(v.stage2, v.stage1);
    FormatReadBack(v.format);
  }

  /** Round trip by value: for every indicator word, every value in range of the used fields,
      any bytes in the other ones and whatever follows, the packet is read back as exactly
      the values it gives above the stop bit, and no others. */
  lemma ContextRoundTrip(hdr: Header, reserved: nat, cif: Cif, v: Values, others: seq<bytes>, tail: bytes)
    requires hdr.Printable() && reserved < 4
    requires v.InRange() && OthersSized(cif, others)
    requires 4 * hdr.packetSize >= hdr.headerLen + |EncodeFields(cif, FieldsOf(v, others))|
    ensures var raw := PrintHeader(hdr, reserved) + EncodeFields(cif, FieldsOf(v, others)) + tail;
      HeaderOf(raw) == Ok(hdr) && ContextOf(raw, hdr) == Ok(Carried(cif, v))
  {
    hide Values.InRange, FieldsOf, Carried, Assemble, Explicit, EncodeFields, PrintHeader, ContextOf, HeaderOf, WellSized;
    var fields := FieldsOf(v, others);
    FieldsWellSized(cif, v, others);
    ContextPacketRoundTrip(hdr, reserved, cif, fields, tail);
    AssembleExplicit(cif, StopBit(cif) + 1, fields);
    ExplicitIsCarried(cif, v, others);
  }
}
