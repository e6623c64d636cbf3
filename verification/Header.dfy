/** The flag-driven packet prologue (ANSI/VITA 49.2, section 5.1): word 0 decides which
    optional fields follow, and so every offset. */
module Header {
  import opened Bytes
  import opened Formats

  datatype Header = Header(
    packetType: nat, classId: Option<bytes>, hasTrailer: bool, tsi: nat, tsf: nat,
    packetCounter: nat, packetSize: nat, streamId: Option<nat>, intTs: Option<nat>,
    fracPs: Option<nat>, headerLen: nat)
  {
    /** Packet time in seconds; a missing half counts as zero. */
    function Timestamp(): real {
      (if intTs.Some? then intTs.value else 0) as real
      + (if fracPs.Some? then fracPs.value else 0) as real / 1000000000000.0
    }

    /** What a header must satisfy to have a printed form. */
    predicate Printable() {
      && packetType < 16 && tsi < 4 && tsf < 4 && packetCounter < 16 && packetSize < 0x1_0000
      && (streamId.Some? <==> HasStreamId(packetType))
      && (streamId.Some? ==> streamId.value < Pow256(STREAM_ID_SIZE))
      && (classId.Some? ==> |classId.value| == CLASS_ID_SIZE)
      && (intTs.Some? <==> tsi != 0)
      && (intTs.Some? ==> intTs.value < Pow256(INT_TS_SIZE))
      && (fracPs.Some? <==> tsf != 0)
      && (fracPs.Some? ==> fracPs.value < Pow256(FRAC_TS_SIZE))
      && headerLen == HeaderLength(streamId.Some?, classId.Some?, tsi, tsf)
    }
  }

  /** The windows of word 0. `reserved` are the two bits the parser ignores. */
  datatype Word0 = Word0(
    packetType: nat, classId: bool, trailer: bool, reserved: nat, tsi: nat, tsf: nat, counter: nat, size: nat)
  {
    predicate InRange() {
      packetType < 16 && reserved < 4 && tsi < 4 && tsf < 4 && counter < 16 && size < 0x1_0000
    }
  }

  function Word0Of(word: nat): Word0 {
    Word0(
      packetType := Shr(word, 28) % 16,
      classId := Bit(word, 27),
      trailer := Bit(word, 26),
      reserved := Shr(word, 24) % 4,
      tsi := Shr(word, 22) % 4,
      tsf := Shr(word, 20) % 4,
      counter := Shr(word, 16) % 16,
      size := word % 0x1_0000)
  }

  function EncodeWord0(w: Word0): nat {
    w.packetType * 0x1000_0000
    + (if w.classId then 0x800_0000 else 0)
    + (if w.trailer then 0x400_0000 else 0)
    + w.reserved * 0x100_0000
    + w.tsi * 0x40_0000
    + w.tsf * 0x10_0000
    + w.counter * 0x1_0000
    + w.size
  }

  /** The word shifted to each window boundary, lowest first. */
  predicate Layers(u: nat, q: seq<nat>, w: Word0) {
    |q| == 7 && LowLayers(u, q, w) && HighLayers(q, w)
  }

  predicate LowLayers(u: nat, q: seq<nat>, w: Word0)
    requires |q| == 7
  {
    && u == 0x1_0000 * q[0] + w.size
    && q[0] == 16 * q[1] + w.counter
    && q[1] == 4 * q[2] + w.tsf
    && q[2] == 4 * q[3] + w.tsi
  }

  predicate HighLayers(q: seq<nat>, w: Word0)
    requires |q| == 7
  {
    && q[3] == 4 * q[4] + w.reserved
    && q[4] == 2 * q[5] + (if w.trailer then 1 else 0)
    && q[5] == 2 * q[6] + (if w.classId then 1 else 0)
    && q[6] == w.packetType
  }

  function Shifts(u: nat): seq<nat> {
    [Shr(u, 16), Shr(u, 20), Shr(u, 22), Shr(u, 24), Shr(u, 26), Shr(u, 27), Shr(u, 28)]
  }

  lemma LayersEncode(u: nat, q: seq<nat>, w: Word0)
    requires Layers(u, q, w)
    ensures u == EncodeWord0(w)
  {
  }

  lemma EncodeLayers(w: Word0) returns (q: seq<nat>)
    requires w.InRange()
    ensures EncodeWord0(w) < 0x1_0000_0000 && Layers(EncodeWord0(w), q, w)
  {
    var a6 := w.packetType;
    var a5 := 2 * a6 + (if w.classId then 1 else 0);
    var a4 := 2 * a5 + (if w.trailer then 1 else 0);
    var a3 := 4 * a4 + w.reserved;
    var a2 := 4 * a3 + w.tsi;
    var a1 := 4 * a2 + w.tsf;
    var a0 := 16 * a1 + w.counter;
    q := [a0, a1, a2, a3, a4, a5, a6];
  }

  lemma DecodeLowLayers(word: nat)
    ensures LowLayers(word, Shifts(word), Word0Of(word))
  {
    hide Shr, Pow2;
    Pow2Values();
    ShrZero(word);
    SplitWindow(word, 0, 16);
    SplitWindow(word, 16, 4);
    SplitWindow(word, 20, 2);
    SplitWindow(word, 22, 2);
  }

  lemma DecodeHighLayers(word: nat)
    requires Shr(word, 28) < 16
    ensures HighLayers(Shifts(word), Word0Of(word))
  {
    hide Shr, Pow2;
    Pow2Values();
    SplitWindow(word, 24, 2);
    SplitWindow(word, 26, 1);
    SplitWindow(word, 27, 1);
  }

  /** Word 0 is rebuilt from its windows. */
  lemma EncodeDecodeWord0(word: nat)
    requires word < 0x1_0000_0000
    ensures Word0Of(word).InRange() && EncodeWord0(Word0Of(word)) == word
  {
    Pow2Values();
    Pow2Of64();
    ShrBelow(word, 28, 4);
    DecodeLowLayers(word);
    DecodeHighLayers(word);
    LayersEncode(word, Shifts(word), Word0Of(word));
  }

  /** The windows of word 0 do not overlap. */
  lemma DecodeEncodeWord0(w: Word0)
    requires w.InRange()
    ensures EncodeWord0(w) < 0x1_0000_0000 && Word0Of(EncodeWord0(w)) == w
  {
    hide Shr, Pow2, EncodeWord0;
    Pow2Values();
    ShrZero(EncodeWord0(w));
    var q := EncodeLayers(w);
    var u := EncodeWord0(w);
    ReadWindow(u, 0, 16, q[0], w.size);
    ReadWindow(u, 16, 4, q[1], w.counter);
    ReadWindow(u, 20, 2, q[2], w.tsf);
    ReadWindow(u, 22, 2, q[3], w.tsi);
    ReadWindow(u, 24, 2, q[4], w.reserved);
    ReadWindow(u, 26, 1, q[5], if w.trailer then 1 else 0);
    ReadWindow(u, 27, 1, q[6], if w.classId then 1 else 0);
  }

  /** The header a datagram carries: each field read at the offset that the sizes of
      the present fields before it add up to. */
  function HeaderOf(b: bytes): (r: Result<Header>)
    ensures r.Ok? ==> r.value.Printable() && r.value.headerLen <= |b|
  {
    if |b| < WORD0_SIZE then Err
    else
      Pow256Values();
      var w := Word0Of(FromBE(b[..WORD0_SIZE]));
      var hasStreamId := HasStreamId(w.packetType);
      var len := HeaderLength(hasStreamId, w.classId, w.tsi, w.tsf);
      if |b| < len then Err
      else
        var classAt := HeaderLength(hasStreamId, false, 0, 0);
        var intAt := HeaderLength(hasStreamId, w.classId, 0, 0);
        var fracAt := HeaderLength(hasStreamId, w.classId, w.tsi, 0);
        Ok(Header(
          packetType := w.packetType,
          classId := if w.classId then Some(b[classAt..classAt + CLASS_ID_SIZE]) else None,
          hasTrailer := w.trailer,
          tsi := w.tsi,
          tsf := w.tsf,
          packetCounter := w.counter,
          packetSize := w.size,
          streamId := if hasStreamId then Some(FromBE(b[WORD0_SIZE..WORD0_SIZE + STREAM_ID_SIZE])) else None,
          intTs := if w.tsi != 0 then Some(FromBE(b[intAt..intAt + INT_TS_SIZE])) else None,
          fracPs := if w.tsf != 0 then Some(FromBE(b[fracAt..fracAt + FRAC_TS_SIZE])) else None,
          headerLen := len))
  }

  /** Parses the prologue, advancing one offset past each field that word 0 announces. */
  method ParseHeader(b: bytes) returns (r: Result<Header>)
    ensures r == HeaderOf(b)
  {
    hide Shr, FromBE;
    if |b| < WORD0_SIZE {
      return Err;
    }
    var word0 := FromBE(b[..WORD0_SIZE]);
    var packetType := Shr(word0, 28) % 16;
    var hasClassId := Bit(word0, 27);
    var hasTrailer := Bit(word0, 26);
    var tsi := Shr(word0, 22) % 4;
    var tsf := Shr(word0, 20) % 4;
    var hasStreamId := HasStreamId(packetType);
    var expectedLen := HeaderLength(hasStreamId, hasClassId, tsi, tsf);
    if |b| < expectedLen {
      return Err;
    }
    var off := WORD0_SIZE;
    var streamId := None;
    if hasStreamId {
      streamId := Some(FromBE(b[off..off + STREAM_ID_SIZE]));
      off := off + STREAM_ID_SIZE;
    }
    var classId := None;
    if hasClassId {
      classId := Some(b[off..off + CLASS_ID_SIZE]);
      off := off + CLASS_ID_SIZE;
    }
    var intTs := None;
    if tsi != 0 {
      intTs := Some(FromBE(b[off..off + INT_TS_SIZE]));
      off := off + INT_TS_SIZE;
    }
    var fracPs := None;
    if tsf != 0 {
      fracPs := Some(FromBE(b[off..off + FRAC_TS_SIZE]));
      off := off + FRAC_TS_SIZE;
    }
    r := Ok(Header(packetType, classId, hasTrailer, tsi, tsf, Shr(word0, 16) % 16, word0 % 0x1_0000,
                   streamId, intTs, fracPs, off));
  }

  function Word0For(h: Header, reserved: nat): Word0 {
    Word0(h.packetType, h.classId.Some?, h.hasTrailer, reserved, h.tsi, h.tsf, h.packetCounter, h.packetSize)
  }

  function OptionalBE(v: Option<nat>, n: nat): bytes {
    if v.Some? then ToBE(v.value, n) else []
  }

  function ReadOptional(present: bool, b: bytes): Option<nat> {
    if present then Some(FromBE(b)) else None
  }

  /** The bytes of a header. */
  function PrintHeader(h: Header, reserved: nat): (b: bytes)
    requires h.Printable()
    ensures |b| == h.headerLen
  {
    ToBE(EncodeWord0(Word0For(h, reserved)), WORD0_SIZE)
    + OptionalBE(h.streamId, STREAM_ID_SIZE)
    + (if h.classId.Some? then h.classId.value else [])
    + OptionalBE(h.intTs, INT_TS_SIZE)
    + OptionalBE(h.fracPs, FRAC_TS_SIZE)
  }

  /** A datagram cut at the four boundaries of its header fields. */
  predicate CutAt(all: bytes, word0: bytes, streamId: bytes, classId: bytes, intTs: bytes, fracPs: bytes)
  {
    var i := |word0| + |streamId|;
    var j := i + |classId|;
    var k := j + |intTs|;
    && k + |fracPs| <= |all|
    && all[..|word0|] == word0
    && all[|word0|..i] == streamId
    && all[i..j] == classId
    && all[j..k] == intTs
    && all[k..k + |fracPs|] == fracPs
  }

  lemma CutOfConcat(a: bytes, b: bytes, c: bytes, d: bytes, e: bytes, tail: bytes)
    ensures CutAt(a + b + c + d + e + tail, a, b, c, d, e)
  {
  }

  lemma ConcatOfCut(all: bytes, a: bytes, b: bytes, c: bytes, d: bytes, e: bytes)
    requires CutAt(all, a, b, c, d, e)
    ensures a + b + c + d + e == all[..|a| + |b| + |c| + |d| + |e|]
  {
  }

  /** A header is exactly what its five byte ranges say. */
  lemma HeaderOfCut(all: bytes, h: Header, reserved: nat, a: bytes, b: bytes, c: bytes, d: bytes, e: bytes)
    requires h.Printable() && reserved < 4
    requires CutAt(all, a, b, c, d, e)
    requires |a| == WORD0_SIZE && Word0Of(FromBE(a)) == Word0For(h, reserved)
    requires |b| == (if h.streamId.Some? then STREAM_ID_SIZE else 0) && h.streamId == ReadOptional(h.streamId.Some?, b)
    requires h.classId.Some? ==> c == h.classId.value
    requires h.classId.None? ==> c == []
    requires |d| == (if h.intTs.Some? then INT_TS_SIZE else 0) && h.intTs == ReadOptional(h.intTs.Some?, d)
    requires |e| == (if h.fracPs.Some? then FRAC_TS_SIZE else 0) && h.fracPs == ReadOptional(h.fracPs.Some?, e)
    ensures HeaderOf(all) == Ok(h)
  {
  }

  lemma OptionalFromTo(v: Option<nat>, n: nat)
    requires v.Some? ==> v.value < Pow256(n)
    ensures v == ReadOptional(v.Some?, OptionalBE(v, n))
  {
    if v.Some? {
      FromToBE(v.value, n);
    }
  }

  lemma OptionalToFrom(v: Option<nat>, b: bytes)
    requires v == ReadOptional(v.Some?, b)
    requires v.None? ==> b == []
    ensures b == OptionalBE(v, |b|)
  {
    if v.Some? {
      ToFromBE(b);
    }
  }

  /** Parsing a printed header gives it back, whatever follows it. */
  lemma ParsePrint(h: Header, reserved: nat, tail: bytes)
    requires h.Printable() && reserved < 4
    ensures HeaderOf(PrintHeader(h, reserved) + tail) == Ok(h)
  {
    var w := Word0For(h, reserved);
    var a := ToBE(EncodeWord0(w), WORD0_SIZE);
    var b := OptionalBE(h.streamId, STREAM_ID_SIZE);
    var c := if h.classId.Some? then h.classId.value else [];
    var d := OptionalBE(h.intTs, INT_TS_SIZE);
    var e := OptionalBE(h.fracPs, FRAC_TS_SIZE);
    CutOfConcat(a, b, c, d, e, tail);
    DecodeEncodeWord0(w);
    Pow256Values();
    FromToBE(EncodeWord0(w), WORD0_SIZE);
    OptionalFromTo(h.streamId, STREAM_ID_SIZE);
    OptionalFromTo(h.intTs, INT_TS_SIZE);
    OptionalFromTo(h.fracPs, FRAC_TS_SIZE);
    HeaderOfCut(PrintHeader(h, reserved) + tail, h, reserved, a, b, c, d, e);
  }

  /** Printing what was parsed gives the header bytes back, given the reserved bits. */
  lemma PrintParse(all: bytes)
    requires HeaderOf(all).Ok?
    ensures var h := HeaderOf(all).value;
      PrintHeader(h, Word0Of(FromBE(all[..WORD0_SIZE])).reserved) == all[..h.headerLen]
  {
    hide FromBE, ToBE, Word0Of, EncodeWord0, HasStreamId, Pow256, CutAt;
    var h := HeaderOf(all).value;
    var classAt := HeaderLength(h.streamId.Some?, false, 0, 0);
    var intAt := HeaderLength(h.streamId.Some?, h.classId.Some?, 0, 0);
    var fracAt := HeaderLength(h.streamId.Some?, h.classId.Some?, h.tsi, 0);
    var a, b := all[..WORD0_SIZE], all[WORD0_SIZE..classAt];
    var c, d, e := all[classAt..intAt], all[intAt..fracAt], all[fracAt..h.headerLen];
    Pow256Values();
    EncodeDecodeWord0(FromBE(a));
    ToFromBE(a);
    OptionalToFrom(h.streamId, b);
    OptionalToFrom(h.intTs, d);
    OptionalToFrom(h.fracPs, e);
    RangesCut(all, WORD0_SIZE, classAt, intAt, fracAt, h.headerLen);
    ConcatOfCut(all, a, b, c, d, e);
  }

  lemma RangesCut(all: bytes, i: nat, j: nat, k: nat, l: nat, m: nat)
    requires i <= j <= k <= l <= m <= |all|
    ensures CutAt(all, all[..i], all[i..j], all[j..k], all[k..l], all[l..m])
  {
  }

  /** Bytes after the header play no part in parsing it. */
  lemma HeaderIgnoresTail(b: bytes, tail: bytes)
    requires HeaderOf(b).Ok?
    ensures HeaderOf(b + tail) == HeaderOf(b)
  {
    hide HeaderOf, PrintHeader, FromBE, Shr;
    var h := HeaderOf(b).value;
    var reserved := Word0Of(FromBE(b[..WORD0_SIZE])).reserved;
    PrintParse(b);
    assert b == b[..h.headerLen] + b[h.headerLen..];
    assert b + tail == PrintHeader(h, reserved) + (b[h.headerLen..] + tail);
    ParsePrint(h, reserved, b[h.headerLen..] + tail);
  }

  /** A timestamp loses nothing: as long as the fraction is below a second, its whole part
      and its picoseconds can be read off, a missing half reading as zero. */
  lemma TimestampRead(h: Header)
    ensures var whole, ps := (if h.intTs.Some? then h.intTs.value else 0), (if h.fracPs.Some? then h.fracPs.value else 0);
      && (h.Timestamp() * 1000000000000.0).Floor == 1000000000000 * whole + ps
      && (ps < 1000000000000 <==> h.Timestamp().Floor == whole)
  {
    var whole: nat, ps: nat := (if h.intTs.Some? then h.intTs.value else 0), (if h.fracPs.Some? then h.fracPs.value else 0);
    assert h.Timestamp() * 1000000000000.0 == (1000000000000 * whole + ps) as real;
  }
}
