/** The 64-bit data packet payload format word (ANSI/VITA 49.2, section 9.13.3). */
module PayloadFormat {
  import opened Bytes
  import opened Formats

  const WORD64 := 0x1_0000_0000_0000_0000

  /** The eleven bit windows of the word, top first. The two size windows hold the
      size less one on the wire. */
  datatype Windows = Windows(
    packingMethod: nat, rcType: nat, dataItemFormat: nat, sampleComponentRepeat: nat,
    eventTag: nat, channelTag: nat, fractionSize: nat, itemPackingBits: nat, itemBits: nat,
    repeatCount: nat, vectorSize: nat)
  {
    predicate InRange() {
      && packingMethod < 2 && rcType < 4 && dataItemFormat < 32 && sampleComponentRepeat < 2
      && eventTag < 8 && channelTag < 16 && fractionSize < 16
      && 1 <= itemPackingBits <= 64 && 1 <= itemBits <= 64
      && repeatCount < 0x1_0000 && vectorSize < 0x1_0000
    }
  }

  datatype Format = Format(
    windows: Windows, isComplex: bool, componentDType: Option<DType>, bytesPerSample: Option<nat>, supported: bool)

  /** Classifies a payload format word; total, it never fails. */
  function Decode(u: nat): Format {
    Classify(WindowsOf(u))
  }

  function WindowsOf(u: nat): Windows {
    Windows(
      packingMethod := Shr(u, 63) % 2,
      rcType := Shr(u, 61) % 4,
      dataItemFormat := Shr(u, 56) % 32,
      sampleComponentRepeat := Shr(u, 55) % 2,
      eventTag := Shr(u, 52) % 8,
      channelTag := Shr(u, 48) % 16,
      fractionSize := Shr(u, 44) % 16,
      itemPackingBits := Shr(u, 38) % 64 + 1,
      itemBits := Shr(u, 32) % 64 + 1,
      repeatCount := Shr(u, 16) % 0x1_0000,
      vectorSize := u % 0x1_0000)
  }

  function Classify(w: Windows): Format {
    var dtype := ItemFormatDType(w.dataItemFormat, w.itemBits);
    var isComplex := w.rcType == RC_TYPE_COMPLEX_CARTESIAN;
    var supported :=
      && w.packingMethod == 0
      && (w.rcType == RC_TYPE_REAL || w.rcType == RC_TYPE_COMPLEX_CARTESIAN)
      && dtype.Some?
      && w.itemPackingBits == w.itemBits
      && w.eventTag == 0
      && w.channelTag == 0
      && w.sampleComponentRepeat == 0
      && w.fractionSize == 0
      && w.repeatCount == 0
      && w.vectorSize == 0;
    Format(w, isComplex,
           if supported then dtype else None,
           if supported then Some((if isComplex then 2 else 1) * (w.itemBits / 8)) else None,
           supported)
  }

  /** The word that carries the eleven windows. */
  function Encode(w: Windows): int {
    w.packingMethod * 0x8000_0000_0000_0000
    + w.rcType * 0x2000_0000_0000_0000
    + w.dataItemFormat * 0x100_0000_0000_0000
    + w.sampleComponentRepeat * 0x80_0000_0000_0000
    + w.eventTag * 0x10_0000_0000_0000
    + w.channelTag * 0x1_0000_0000_0000
    + w.fractionSize * 0x1000_0000_0000
    + (w.itemPackingBits - 1) * 0x40_0000_0000
    + (w.itemBits - 1) * 0x1_0000_0000
    + w.repeatCount * 0x1_0000
    + w.vectorSize
  }

  /** The word shifted to each window boundary, lowest first: what is above each
      window, and the window. */
  predicate Layers(u: nat, q: seq<nat>, w: Windows) {
    |q| == 10 && LowLayers(u, q, w) && HighLayers(q, w)
  }

  predicate LowLayers(u: nat, q: seq<nat>, w: Windows)
    requires |q| == 10
  {
    && u == 0x1_0000 * q[0] + w.vectorSize
    && q[0] == 0x1_0000 * q[1] + w.repeatCount
    && q[1] == 64 * q[2] + (w.itemBits - 1)
    && q[2] == 64 * q[3] + (w.itemPackingBits - 1)
    && q[3] == 16 * q[4] + w.fractionSize
  }

  predicate HighLayers(q: seq<nat>, w: Windows)
    requires |q| == 10
  {
    && q[4] == 16 * q[5] + w.channelTag
    && q[5] == 8 * q[6] + w.eventTag
    && q[6] == 2 * q[7] + w.sampleComponentRepeat
    && q[7] == 32 * q[8] + w.dataItemFormat
    && q[8] == 4 * q[9] + w.rcType
    && q[9] == w.packingMethod
  }

  lemma LayersEncode(u: nat, q: seq<nat>, w: Windows)
    requires Layers(u, q, w)
    ensures Encode(w) == u
  {
  }

  lemma EncodeLayers(w: Windows) returns (q: seq<nat>)
    requires w.InRange()
    ensures 0 <= Encode(w) < WORD64 && Layers(Encode(w), q, w)
  {
    var a9 := w.packingMethod;
    var a8 := 4 * a9 + w.rcType;
    var a7 := 32 * a8 + w.dataItemFormat;
    var a6 := 2 * a7 + w.sampleComponentRepeat;
    var a5 := 8 * a6 + w.eventTag;
    var a4 := 16 * a5 + w.channelTag;
    var a3 := 16 * a4 + w.fractionSize;
    var a2 := 64 * a3 + (w.itemPackingBits - 1);
    var a1 := 64 * a2 + (w.itemBits - 1);
    var a0 := 0x1_0000 * a1 + w.repeatCount;
    q := [a0, a1, a2, a3, a4, a5, a6, a7, a8, a9];
  }

  /** What shifting a word to each window boundary leaves, lowest boundary first. */
  function Shifts(u: nat): seq<nat> {
    [Shr(u, 16), Shr(u, 32), Shr(u, 38), Shr(u, 44), Shr(u, 48), Shr(u, 52), Shr(u, 55), Shr(u, 56), Shr(u, 61), Shr(u, 63)]
  }

  lemma DecodeLowLayers(u: nat)
    ensures LowLayers(u, Shifts(u), WindowsOf(u))
  {
    hide Shr, Pow2;
    Pow2Values();
    ShrZero(u);
    SplitWindow(u, 0, 16);
    SplitWindow(u, 16, 16);
    SplitWindow(u, 32, 6);
    SplitWindow(u, 38, 6);
    SplitWindow(u, 44, 4);
  }

  lemma DecodeHighLayers(u: nat)
    requires Shr(u, 63) < 2
    ensures HighLayers(Shifts(u), WindowsOf(u))
  {
    hide Shr, Pow2;
    Pow2Values();
    SplitWindow(u, 48, 4);
    SplitWindow(u, 52, 3);
    SplitWindow(u, 55, 1);
    SplitWindow(u, 56, 5);
    SplitWindow(u, 61, 2);
  }

  lemma LowWindows(u: nat, q: seq<nat>, w: Windows)
    requires |q| == 10 && LowLayers(u, q, w) && w.InRange()
    ensures Shr(u, 48) == q[4]
    ensures var v := WindowsOf(u);
      && v.vectorSize == w.vectorSize && v.repeatCount == w.repeatCount && v.itemBits == w.itemBits
      && v.itemPackingBits == w.itemPackingBits && v.fractionSize == w.fractionSize
  {
    hide Shr, Pow2;
    Pow2Values();
    ShrZero(u);
    ReadWindow(u, 0, 16, q[0], w.vectorSize);
    ReadWindow(u, 16, 16, q[1], w.repeatCount);
    ReadWindow(u, 32, 6, q[2], w.itemBits - 1);
    ReadWindow(u, 38, 6, q[3], w.itemPackingBits - 1);
    ReadWindow(u, 44, 4, q[4], w.fractionSize);
  }

  lemma HighWindows(u: nat, q: seq<nat>, w: Windows)
    requires |q| == 10 && HighLayers(q, w) && w.InRange() && Shr(u, 48) == q[4]
    ensures var v := WindowsOf(u);
      && v.channelTag == w.channelTag && v.eventTag == w.eventTag && v.sampleComponentRepeat == w.sampleComponentRepeat
      && v.dataItemFormat == w.dataItemFormat && v.rcType == w.rcType && v.packingMethod == w.packingMethod
  {
    hide Shr, Pow2;
    Pow2Values();
    ReadWindow(u, 48, 4, q[5], w.channelTag);
    ReadWindow(u, 52, 3, q[6], w.eventTag);
    ReadWindow(u, 55, 1, q[7], w.sampleComponentRepeat);
    ReadWindow(u, 56, 5, q[8], w.dataItemFormat);
    ReadWindow(u, 61, 2, q[9], w.rcType);
  }

  lemma LayersDecode(u: nat, q: seq<nat>, w: Windows)
    requires Layers(u, q, w) && w.InRange()
    ensures WindowsOf(u) == w
  {
    hide Shr;
    LowWindows(u, q, w);
    HighWindows(u, q, w);
  }

  /** Nothing of the word is lost: it can be rebuilt from its decoded windows. */
  lemma EncodeDecode(u: nat)
    requires u < WORD64
    ensures WindowsOf(u).InRange()
    ensures Encode(WindowsOf(u)) == u
  {
    Pow2Of64();
    ShrBelow(u, 63, 1);
    DecodeLowLayers(u);
    DecodeHighLayers(u);
    LayersEncode(u, Shifts(u), WindowsOf(u));
  }

  /** The windows do not overlap: each is read back as it was written. */
  lemma DecodeEncode(w: Windows)
    requires w.InRange()
    ensures 0 <= Encode(w) < WORD64
    ensures WindowsOf(Encode(w)) == w
  {
    var q := EncodeLayers(w);
    LayersDecode(Encode(w), q, w);
  }

  /** The word of an item format and size with every other window at its default. */
  function PlainWord(itemFormat: nat, itemBits: nat, complex: bool): int {
    Encode(Windows(0, if complex then 1 else 0, itemFormat, 0, 0, 0, 0, itemBits, itemBits, 0, 0))
  }

  function PlainWords(complex: bool): set<int> {
    {PlainWord(ITEM_FORMAT_SIGNED_FIXED, 8, complex), PlainWord(ITEM_FORMAT_SIGNED_FIXED, 16, complex),
     PlainWord(ITEM_FORMAT_SIGNED_FIXED, 32, complex), PlainWord(ITEM_FORMAT_UNSIGNED_FIXED, 8, complex),
     PlainWord(ITEM_FORMAT_UNSIGNED_FIXED, 16, complex), PlainWord(ITEM_FORMAT_UNSIGNED_FIXED, 32, complex),
     PlainWord(ITEM_FORMAT_IEEE_FLOAT32, 32, complex), PlainWord(ITEM_FORMAT_IEEE_FLOAT64, 64, complex)}
  }

  lemma SupportedIsPlain(w: Windows)
    requires w.InRange()
    ensures Classify(w).supported <==>
      w == Windows(0, w.rcType, w.dataItemFormat, 0, 0, 0, 0, w.itemBits, w.itemBits, 0, 0)
      && w.rcType < 2 && ItemFormatDType(w.dataItemFormat, w.itemBits).Some?
  {
  }

  /** Of all 2^64 words exactly sixteen are supported: eight real and eight complex ones. */
  lemma SupportedExactly(u: nat)
    requires u < WORD64
    ensures Decode(u).supported <==> u in PlainWords(false) + PlainWords(true)
  {
    hide Classify, WindowsOf, PlainWords;
    EncodeDecode(u);
    if Decode(u).supported {
      SupportedIsListed(WindowsOf(u));
    }
    if u in PlainWords(false) {
      ListedIsSupported(u, false);
    }
    if u in PlainWords(true) {
      ListedIsSupported(u, true);
    }
  }

  lemma SupportedIsListed(w: Windows)
    requires w.InRange() && Classify(w).supported
    ensures Encode(w) in PlainWords(w.rcType == 1)
  {
    hide Encode;
    SupportedIsPlain(w);
    assert Encode(w) == PlainWord(w.dataItemFormat, w.itemBits, w.rcType == 1);
  }

  lemma ListedIsSupported(u: int, complex: bool)
    requires u in PlainWords(complex)
    ensures 0 <= u < WORD64 && Decode(u).supported
  {
    hide Encode, WindowsOf, PlainWords, Classify;
    var f, b := PlainItem(u, complex);
    var v := Windows(0, if complex then 1 else 0, f, 0, 0, 0, 0, b, b, 0, 0);
    DecodeEncode(v);
    SupportedIsPlain(v);
  }

  lemma PlainItem(u: int, complex: bool) returns (f: nat, b: nat)
    requires u in PlainWords(complex)
    ensures u == PlainWord(f, b, complex) && ItemFormatDType(f, b).Some? && f < 32 && 1 <= b <= 64
  {
    f := if u == PlainWord(0, 8, complex) || u == PlainWord(0, 16, complex) || u == PlainWord(0, 32, complex) then 0
         else if u == PlainWord(14, 32, complex) then 14 else if u == PlainWord(15, 64, complex) then 15 else 16;
    b := if u == PlainWord(f, 8, complex) then 8 else if u == PlainWord(f, 16, complex) then 16
         else if u == PlainWord(f, 32, complex) then 32 else 64;
  }

  lemma SupportedCount()
    ensures |PlainWords(false) + PlainWords(true)| == 16
  {
    EightWords(false);
    EightWords(true);
    ComplexBit(false);
    ComplexBit(true);
    assert PlainWords(false) !! PlainWords(true);
  }

  lemma EightWords(complex: bool)
    ensures |PlainWords(complex)| == 8
  {
    Ascending(PlainWord(0, 8, complex), PlainWord(0, 16, complex), PlainWord(0, 32, complex),
              PlainWord(14, 32, complex), PlainWord(15, 64, complex),
              PlainWord(16, 8, complex), PlainWord(16, 16, complex), PlainWord(16, 32, complex));
    assert PlainWords(complex) ==
      {PlainWord(0, 8, complex), PlainWord(0, 16, complex), PlainWord(0, 32, complex),
       PlainWord(14, 32, complex), PlainWord(15, 64, complex),
       PlainWord(16, 8, complex), PlainWord(16, 16, complex), PlainWord(16, 32, complex)};
  }

  lemma ComplexBit(complex: bool)
    ensures forall u :: u in PlainWords(complex) ==> (complex <==> u / 0x2000_0000_0000_0000 % 2 == 1)
  {
  }

  lemma Ascending(a: int, b: int, c: int, d: int, e: int, f: int, g: int, h: int)
    requires a < b < c < d < e < f < g < h
    ensures |{a, b, c, d, e, f, g, h}| == 8
  {
    assert {a, b, c, d, e, f, g, h} == {a, b, c, d} + {e, f, g, h};
  }

  /** A supported word has a component type of 1, 2, 4 or 8 bytes and one or two
      components a sample; an unsupported one has neither. */
  lemma SampleSize(u: nat)
    ensures var f := Decode(u);
      && (f.supported <==> f.componentDType.Some?) && (f.supported <==> f.bytesPerSample.Some?)
      && (f.supported ==>
            && f.componentDType.value.Component? && f.componentDType.value.size in {1, 2, 4, 8}
            && f.bytesPerSample.value == (if f.isComplex then 2 else 1) * f.componentDType.value.size)
  {
  }

  /** The real-or-complex window alone says whether samples are complex. */
  lemma ComplexMeans(u: nat)
    ensures Decode(u).isComplex <==> u / 0x2000_0000_0000_0000 % 4 == 1
  {
    hide Shr, Pow2;
    Pow2Of61();
    ShrIsDiv(u, 61);
  }

  lemma Pow2Of61()
    ensures Pow2(61) == 0x2000_0000_0000_0000
  {
    Pow2Of64();
    assert Pow2(64) == 8 * Pow2(61);
  }

  /** The component kind of an item format code and size; this is the whole table. */
  predicate Listed(itemFormat: nat, itemBits: nat, kind: ComponentKind) {
    match kind
    case SignedFixed => itemFormat == 0 && itemBits in {8, 16, 32}
    case UnsignedFixed => itemFormat == 16 && itemBits in {8, 16, 32}
    case IeeeFloat => (itemFormat == 14 && itemBits == 32) || (itemFormat == 15 && itemBits == 64)
  }

  /** How the samples of each supported word are to be read: components of the listed kind
      and size, two of them a sample when complex. */
  lemma ListedDecoded(itemFormat: nat, itemBits: nat, kind: ComponentKind, complex: bool)
    requires Listed(itemFormat, itemBits, kind)
    ensures var u := (if complex then 0x2000_0000_0000_0000 else 0) + itemFormat * 0x100_0000_0000_0000
        + (itemBits - 1) * 0x40_0000_0000 + (itemBits - 1) * 0x1_0000_0000;
      Decode(u) == Format(WindowsOf(u), complex, Some(Component(kind, itemBits / 8)),
                          Some(if complex then itemBits / 4 else itemBits / 8), true)
  {
    hide WindowsOf;
    var w := Windows(0, if complex then 1 else 0, itemFormat, 0, 0, 0, 0, itemBits, itemBits, 0, 0);
    DecodeEncode(w);
    assert Encode(w) == (if complex then 0x2000_0000_0000_0000 else 0) + itemFormat * 0x100_0000_0000_0000
                        + (itemBits - 1) * 0x40_0000_0000 + (itemBits - 1) * 0x1_0000_0000;
  }

  /** And no other word is supported. */
  lemma SupportedListed(u: nat)
    requires u < WORD64 && Decode(u).supported
    ensures exists itemFormat: nat, itemBits: nat, kind ::
      && Listed(itemFormat, itemBits, kind)
      && u == (if Decode(u).isComplex then 0x2000_0000_0000_0000 else 0) + itemFormat * 0x100_0000_0000_0000
              + (itemBits - 1) * 0x40_0000_0000 + (itemBits - 1) * 0x1_0000_0000
  {
    hide WindowsOf;
    EncodeDecode(u);
    var w := WindowsOf(u);
    SupportedIsPlain(w);
    var kind := ItemFormatDType(w.dataItemFormat, w.itemBits).value.kind;
    assert Listed(w.dataItemFormat, w.itemBits, kind);
  }
}
