/** Per-stream interpretation: raw datagrams in, typed records out. */
module Interpreter {
  import opened Bytes
  import opened Formats
  import opened Header
  import opened ContextWalk
  import opened ContextValues
  import opened Trim

  datatype Metadata = Metadata(
    streamId: nat, counter: nat, timestamp: real, packetSize: nat,
    dtype: Option<DType>, bytesPerSample: Option<nat>, isComplex: Option<bool>, gapBefore: bool)

  datatype Record =
    | ContextRecord(metadata: Metadata, context: Context)
    | DataRecord(metadata: Metadata, data: bytes)

  /** The interpreter's whole state. */
  datatype State = State(contexts: map<nat, Context>, lastCounter: map<nat, nat>, errors: nat, dropped: nat)

  const INITIAL := State(map[], map[], 0, 0)

  datatype Outcome = Outcome(state: State, record: Option<Record>)

  function MetadataOf(hdr: Header, ctx: Context, gapBefore: bool): Metadata
    requires hdr.streamId.Some?
  {
    Metadata(hdr.streamId.value, hdr.packetCounter, hdr.Timestamp(), hdr.packetSize,
             ctx.dtype, ctx.bytesPerSample, ctx.isComplex, gapBefore)
  }

  predicate IsContext(hdr: Header) {
    hdr.packetType == PACKET_TYPE_IF_CONTEXT
  }

  predicate IsData(hdr: Header) {
    hdr.packetType == PACKET_TYPE_IF_DATA
  }

  /** Whether data can be interpreted under a context. */
  predicate Usable(c: Context) {
    c.supported != Some(false) && c.bytesPerSample.Some?
  }

  /** Whether a counter value breaks the mod-16 sequence of the last accepted one. */
  predicate CounterGap(last: Option<nat>, counter: nat) {
    last.Some? && counter != (last.value + 1) % 16
  }

  function Lookup<V>(m: map<nat, V>, k: nat): Option<V> {
    if k in m then Some(m[k]) else None
  }

  function Failed(s: State): Outcome {
    Outcome(s.(errors := s.errors + 1), None)
  }

  function Dropped(s: State): Outcome {
    Outcome(s.(dropped := s.dropped + 1), None)
  }

  /** What processing one datagram does. */
  function Step(s: State, maxStreams: int, raw: bytes): Outcome {
    match HeaderOf(raw)
    case Err => Failed(s)
    case Ok(hdr) =>
      if IsContext(hdr) then StepContext(s, maxStreams, raw, hdr)
      else if IsData(hdr) then StepData(s, raw, hdr)
      else Dropped(s)
  }

  function StepContext(s: State, maxStreams: int, raw: bytes, hdr: Header): Outcome
    requires hdr.streamId.Some?
  {
    var sid := hdr.streamId.value;
    if sid !in s.contexts && |s.contexts| >= maxStreams then Dropped(s)
    else match ContextOf(raw, hdr)
      case Err => Failed(s)
      case Ok(ctx) =>
        Outcome(s.(contexts := s.contexts[sid := ctx]), Some(ContextRecord(MetadataOf(hdr, ctx, false), ctx)))
  }

  function StepData(s: State, raw: bytes, hdr: Header): Outcome
    requires hdr.streamId.Some?
  {
    var sid := hdr.streamId.value;
    if sid !in s.contexts || !Usable(s.contexts[sid]) then Dropped(s)
    else
      var ctx := s.contexts[sid];
      match TrimData(raw, hdr, ctx.bytesPerSample.value)
      case Err => Failed(s)
      case Ok(t) =>
        var gap := CounterGap(Lookup(s.lastCounter, sid), hdr.packetCounter);
        Outcome(s.(lastCounter := s.lastCounter[sid := hdr.packetCounter]),
                Some(DataRecord(MetadataOf(hdr, ctx, gap), t.body)))
  }

  /** The interpreter object: its fields change in place, one datagram at a time. */
  class Interpreter {
    const maxStreams: int
    var errors: nat
    var dropped: nat
    var contexts: map<nat, Context>
    var lastCounter: map<nat, nat>

    function View(): State
      reads this
    {
      State(contexts, lastCounter, errors, dropped)
    }

    constructor (maxStreams: int)
      ensures this.maxStreams == maxStreams && View() == INITIAL
    {
      this.maxStreams := maxStreams;
      errors := 0;
      dropped := 0;
      contexts := map[];
      lastCounter := map[];
    }

    /** Never fails: whatever goes wrong inside is counted as one error. */
    method Process(raw: bytes) returns (record: Option<Record>)
      modifies this
      ensures Outcome(View(), record) == Step(old(View()), maxStreams, raw)
    {
      var r := TryProcess(raw);
      match r
      case Ok(rec) =>
        record := rec;
      case Err =>
        errors := errors + 1;
        record := None;
    }

    method TryProcess(raw: bytes) returns (r: Result<Option<Record>>)
      modifies this
      ensures r.Ok? ==> Outcome(View(), r.value) == Step(old(View()), maxStreams, raw)
      ensures r.Err? ==> View() == old(View()) && Failed(View()) == Step(View(), maxStreams, raw)
    {
      var parsed := ParseHeader(raw);
      if parsed.Err? {
        return Err;
      }
      var hdr := parsed.value;
      if !IsData(hdr) && !IsContext(hdr) {
        dropped := dropped + 1;
        return Ok(None);
      }
      var streamId := hdr.streamId.value;
      if IsContext(hdr) {
        if streamId !in contexts && |contexts| >= maxStreams {
          dropped := dropped + 1;
          return Ok(None);
        }
        var decoded := DecodeContext(raw, hdr);
        if decoded.Err? {
          return Err;
        }
        contexts := contexts[streamId := decoded.value];
        return Ok(Some(ContextRecord(MetadataOf(hdr, decoded.value, false), decoded.value)));
      }
      if streamId !in contexts {
        dropped := dropped + 1;
        return Ok(None);
      }
      var ctx := contexts[streamId];
      if ctx.supported == Some(false) || ctx.bytesPerSample.None? {
        dropped := dropped + 1;
        return Ok(None);
      }
      var trimmed := TrimData(raw, hdr, ctx.bytesPerSample.value);
      if trimmed.Err? {
        return Err;
      }
      var prev := Lookup(lastCounter, streamId);
      var gapBefore := prev.Some? && hdr.packetCounter != (prev.value + 1) % 16;
      lastCounter := lastCounter[streamId := hdr.packetCounter];
      r := Ok(Some(DataRecord(MetadataOf(hdr, ctx, gapBefore), trimmed.value.body)));
    }
  }

  // ---------- Whole runs ----------

  /** The state after a list of datagrams, in order. */
  function RunAlone(maxStreams: int, raws: seq<bytes>): State {
    if |raws| == 0 then INITIAL
    else Step(RunAlone(maxStreams, raws[..|raws| - 1]), maxStreams, raws[|raws| - 1]).state
  }

  /** How many datagrams of a run produced a record. */
  function Records(maxStreams: int, raws: seq<bytes>): nat {
    if |raws| == 0 then 0
    else
      Records(maxStreams, raws[..|raws| - 1])
      + (if Step(RunAlone(maxStreams, raws[..|raws| - 1]), maxStreams, raws[|raws| - 1]).record.Some? then 1 else 0)
  }

  /** What every reachable state satisfies. */
  ghost predicate StateInv(s: State, maxStreams: int) {
    && |s.contexts| <= Max(0, maxStreams)
    && s.lastCounter.Keys <= s.contexts.Keys
    && (forall k :: k in s.contexts ==> WellFormed(s.contexts[k]))
    && (forall k :: k in s.lastCounter ==> s.lastCounter[k] < 16)
  }

  lemma StepInv(s: State, maxStreams: int, raw: bytes)
    requires StateInv(s, maxStreams)
    ensures StateInv(Step(s, maxStreams, raw).state, maxStreams)
  {
    hide HeaderOf, ContextOf, TrimData, WellFormed, StepContext, StepData, MetadataOf;
    if HeaderOf(raw).Ok? {
      var hdr := HeaderOf(raw).value;
      if IsContext(hdr) {
        StepContextInv(s, maxStreams, raw, hdr);
      } else if IsData(hdr) {
        StepDataInv(s, maxStreams, raw, hdr);
      }
    }
  }

  lemma StepContextInv(s: State, maxStreams: int, raw: bytes, hdr: Header)
    requires StateInv(s, maxStreams) && hdr.streamId.Some?
    ensures StateInv(StepContext(s, maxStreams, raw, hdr).state, maxStreams)
    ensures !LockedOut(s, maxStreams, hdr.streamId.value) && ContextOf(raw, hdr).Ok? ==>
      StepContext(s, maxStreams, raw, hdr).state.contexts.Keys == s.contexts.Keys + {hdr.streamId.value}
  {
    hide ContextOf, WellFormed, MetadataOf;
    var sid := hdr.streamId.value;
    if !LockedOut(s, maxStreams, sid) && ContextOf(raw, hdr).Ok? {
      DecodedFormat(raw, hdr);
      KeysAfter(s.contexts, sid, ContextOf(raw, hdr).value);
    }
  }

  lemma KeysAfter<V>(m: map<nat, V>, k: nat, v: V)
    ensures m[k := v].Keys == m.Keys + {k}
    ensures |m[k := v]| == if k in m then |m| else |m| + 1
  {
    assert m[k := v].Keys == m.Keys + {k};
    assert |m.Keys| == |m| && |m[k := v].Keys| == |m[k := v]|;
    if k in m {
      assert m.Keys + {k} == m.Keys;
    }
  }

  lemma StepDataInv(s: State, maxStreams: int, raw: bytes, hdr: Header)
    requires StateInv(s, maxStreams) && hdr.streamId.Some? && hdr.packetCounter < 16
    ensures StateInv(StepData(s, raw, hdr).state, maxStreams)
  {
    hide TrimData, WellFormed, MetadataOf;
  }

  /** The bookkeeping of one step. */
  predicate Accounts(s: State, o: Outcome) {
    && o.state.errors + o.state.dropped + (if o.record.Some? then 1 else 0) == s.errors + s.dropped + 1
    && s.errors <= o.state.errors && s.dropped <= o.state.dropped
    && (o.record.None? ==> o.state.contexts == s.contexts && o.state.lastCounter == s.lastCounter)
    && s.contexts.Keys <= o.state.contexts.Keys
  }

  /** A datagram yields a record, or raises one of the two counters by one and leaves
      contexts and packet counters alone. No stream is ever forgotten. */
  lemma StepAccounts(s: State, maxStreams: int, raw: bytes)
    ensures Accounts(s, Step(s, maxStreams, raw))
  {
    hide HeaderOf, StepContext, StepData;
    if HeaderOf(raw).Ok? {
      ContextAccounts(s, maxStreams, raw, HeaderOf(raw).value);
      DataAccounts(s, raw, HeaderOf(raw).value);
    }
  }

  lemma ContextAccounts(s: State, maxStreams: int, raw: bytes, hdr: Header)
    ensures hdr.streamId.Some? ==> Accounts(s, StepContext(s, maxStreams, raw, hdr))
  {
    hide ContextOf, MetadataOf;
  }

  lemma DataAccounts(s: State, raw: bytes, hdr: Header)
    ensures hdr.streamId.Some? ==> Accounts(s, StepData(s, raw, hdr))
  {
    hide TrimData, MetadataOf, Usable, CounterGap;
  }

  /** Over every run: each call is a record, an error or a drop; the tracked streams stay
      within the bound; only tracked streams have a packet counter. */
  lemma {:induction false} Accounting(maxStreams: int, raws: seq<bytes>)
    ensures var s := RunAlone(maxStreams, raws);
      && Records(maxStreams, raws) + s.errors + s.dropped == |raws|
      && StateInv(s, maxStreams)
  {
    hide Step, StateInv;
    if |raws| == 0 {
      InitialInv(maxStreams);
    } else {
      var front, last := raws[..|raws| - 1], raws[|raws| - 1];
      Accounting(maxStreams, front);
      StepAccounts(RunAlone(maxStreams, front), maxStreams, last);
      StepInv(RunAlone(maxStreams, front), maxStreams, last);
    }
  }

  lemma InitialInv(maxStreams: int)
    ensures StateInv(INITIAL, maxStreams)
  {
  }

  /** Tracked streams are never evicted, however the run goes on. */
  lemma {:induction false} NeverEvicted(maxStreams: int, raws: seq<bytes>, more: seq<bytes>)
    ensures RunAlone(maxStreams, raws).contexts.Keys <= RunAlone(maxStreams, raws + more).contexts.Keys
  {
    hide Step;
    if |more| == 0 {
      assert raws + more == raws;
    } else {
      var front := more[..|more| - 1];
      assert (raws + more)[..|raws + more| - 1] == raws + front;
      NeverEvicted(maxStreams, raws, front);
      StepAccounts(RunAlone(maxStreams, raws + front), maxStreams, more[|more| - 1]);
    }
  }

  /** Bytes after the declared end of a complete datagram are invisible. */
  lemma TrailingBytesInvisible(s: State, maxStreams: int, raw: bytes, tail: bytes)
    requires HeaderOf(raw).Ok? && HeaderOf(raw).value.packetSize * 4 <= |raw|
    ensures Step(s, maxStreams, raw + tail) == Step(s, maxStreams, raw)
  {
    hide HeaderOf, ContextOf, TrimData;
    var hdr := HeaderOf(raw).value;
    HeaderIgnoresTail(raw, tail);
    ContextIgnoresTail(raw, hdr, tail);
    if hdr.streamId.Some? && hdr.streamId.value in s.contexts && Usable(s.contexts[hdr.streamId.value]) {
      TrimIgnoresTail(raw, hdr, s.contexts[hdr.streamId.value].bytesPerSample.value, tail);
    }
  }

  /** What goes wrong with a datagram and what is merely not wanted: an error is a header too
      short for its flags, a context of a stream with a slot that does not decode, or usable
      data shorter than declared; a drop is a foreign packet type, a context beyond the stream
      limit, or data without a usable context. */
  lemma WhyNoRecord(s: State, maxStreams: int, raw: bytes)
    requires StateInv(s, maxStreams)
    ensures var o, h := Step(s, maxStreams, raw), HeaderOf(raw);
      && (o.state.errors == s.errors + 1 <==>
            || h.Err?
            || (IsContext(h.value) && !LockedOut(s, maxStreams, h.value.streamId.value) && ContextOf(raw, h.value).Err?)
            || (IsData(h.value) && h.value.streamId.value in s.contexts && Usable(s.contexts[h.value.streamId.value])
                && |raw| < 4 * h.value.packetSize))
      && (o.state.dropped == s.dropped + 1 <==>
            && h.Ok?
            && (|| (!IsContext(h.value) && !IsData(h.value))
                || (IsContext(h.value) && LockedOut(s, maxStreams, h.value.streamId.value))
                || (IsData(h.value) && !(h.value.streamId.value in s.contexts && Usable(s.contexts[h.value.streamId.value])))))
  {
    hide HeaderOf, ContextOf, TrimData, MetadataOf;
    if HeaderOf(raw).Ok? && IsData(HeaderOf(raw).value) {
      var hdr := HeaderOf(raw).value;
      if hdr.streamId.value in s.contexts && Usable(s.contexts[hdr.streamId.value]) {
        TrimFailsWhenShort(raw, hdr, s.contexts[hdr.streamId.value]);
      }
    }
  }

  lemma TrimFailsWhenShort(raw: bytes, hdr: Header, c: Context)
    requires WellFormed(c) && Usable(c)
    ensures TrimData(raw, hdr, c.bytesPerSample.value).Err? <==> |raw| < 4 * hdr.packetSize
  {
  }

  /** What a record says of the header it came from. */
  predicate FromHeader(md: Metadata, hdr: Header) {
    && hdr.streamId == Some(md.streamId) && md.counter == hdr.packetCounter
    && md.timestamp == hdr.Timestamp() && md.packetSize == hdr.packetSize
  }

  /** A serialised context packet, whatever follows it, is adopted for its stream and
      announced with exactly the values that were serialised. */
  lemma EncodedContextProcessed(s: State, maxStreams: int, hdr: Header, reserved: nat, cif: Cif, v: Values, others: seq<bytes>, tail: bytes)
    requires hdr.Printable() && reserved < 4 && IsContext(hdr)
    requires v.InRange() && OthersSized(cif, others)
    requires 4 * hdr.packetSize >= hdr.headerLen + |EncodeFields(cif, FieldsOf(v, others))|
    requires !LockedOut(s, maxStreams, hdr.streamId.value)
    ensures var o := Step(s, maxStreams, PrintHeader(hdr, reserved) + EncodeFields(cif, FieldsOf(v, others)) + tail);
      && o.state == s.(contexts := s.contexts[hdr.streamId.value := Carried(cif, v)])
      && o.record.Some? && o.record.value.ContextRecord? && o.record.value.context == Carried(cif, v)
      && FromHeader(o.record.value.metadata, hdr) && !o.record.value.metadata.gapBefore
  {
    hide HeaderOf, ContextOf, PrintHeader, EncodeFields, FieldsOf, Carried, Values.InRange, OthersSized;
    ContextRoundTrip(hdr, reserved, cif, v, others, tail);
  }

  /** A serialised data packet of whole samples, padded by less than one, is accepted for a
      usable stream and carries exactly its payload. */
  lemma EncodedDataProcessed(s: State, maxStreams: int, hdr: Header, reserved: nat, payload: bytes, pad: bytes, trailer: bytes, extra: bytes)
    requires hdr.Printable() && reserved < 4 && IsData(hdr)
    requires hdr.streamId.value in s.contexts && Usable(s.contexts[hdr.streamId.value])
    requires var size := s.contexts[hdr.streamId.value].bytesPerSample.value;
      |pad| < size && |payload| % size == 0
    requires |trailer| == if hdr.hasTrailer then TRAILER_SIZE else 0
    requires 4 * hdr.packetSize == hdr.headerLen + |payload| + |pad| + |trailer|
    ensures var o := Step(s, maxStreams, PrintHeader(hdr, reserved) + payload + pad + trailer + extra);
      && o.state == s.(lastCounter := s.lastCounter[hdr.streamId.value := hdr.packetCounter])
      && o.record.Some? && o.record.value.DataRecord? && o.record.value.data == payload
      && FromHeader(o.record.value.metadata, hdr)
      && o.record.value.metadata.gapBefore == CounterGap(Lookup(s.lastCounter, hdr.streamId.value), hdr.packetCounter)
  {
    hide HeaderOf, TrimData, PrintHeader, CounterGap;
    DataPacketRoundTrip(hdr, reserved, payload, pad, trailer, extra, s.contexts[hdr.streamId.value].bytesPerSample.value);
  }

  // ---------- One stream at a time ----------

  /** Whether a datagram can touch the state of stream `sid`. */
  predicate Addresses(raw: bytes, sid: nat) {
    && HeaderOf(raw).Ok?
    && (IsContext(HeaderOf(raw).value) || IsData(HeaderOf(raw).value))
    && HeaderOf(raw).value.streamId == Some(sid)
  }

  /** Two interpreter states hold the same about stream `sid`. */
  predicate SameStream(s: State, t: State, sid: nat) {
    Lookup(s.contexts, sid) == Lookup(t.contexts, sid) && Lookup(s.lastCounter, sid) == Lookup(t.lastCounter, sid)
  }

  /** No slot is left for stream `sid`, and it has none: it will never be tracked. */
  predicate LockedOut(s: State, maxStreams: int, sid: nat) {
    sid !in s.contexts && |s.contexts| >= maxStreams
  }

  /** A datagram that does not address a stream leaves it alone and says nothing of it. */
  lemma ForeignDatagram(s: State, maxStreams: int, raw: bytes, sid: nat)
    requires !Addresses(raw, sid)
    ensures var o := Step(s, maxStreams, raw);
      SameStream(o.state, s, sid) && (o.record.Some? ==> o.record.value.metadata.streamId != sid)
  {
    hide HeaderOf, ContextOf, TrimData, Usable, CounterGap;
  }

  /** A record speaks of the stream its datagram addresses. */
  lemma RecordAddresses(s: State, maxStreams: int, raw: bytes)
    ensures var o := Step(s, maxStreams, raw); o.record.Some? ==> Addresses(raw, o.record.value.metadata.streamId)
  {
    hide HeaderOf, ContextOf, TrimData, Usable, CounterGap;
  }

  /** A stream's own datagram acts on that stream the same in any two states that agree on
      it, as long as neither has locked it out. */
  lemma OwnDatagram(s: State, t: State, maxStreams: int, raw: bytes, sid: nat)
    requires Addresses(raw, sid) && SameStream(s, t, sid)
    requires !LockedOut(s, maxStreams, sid) && !LockedOut(t, maxStreams, sid)
    ensures var o, p := Step(s, maxStreams, raw), Step(t, maxStreams, raw);
      && SameStream(o.state, p.state, sid) && o.record == p.record
      && (o.record.Some? ==> o.record.value.metadata.streamId == sid)
  {
    hide HeaderOf, ContextOf, TrimData, MetadataOf;
    var hdr := HeaderOf(raw).value;
    if IsContext(hdr) {
      OwnContext(s, t, maxStreams, raw, hdr);
    } else {
      OwnData(s, t, raw, hdr);
    }
  }

  lemma OwnContext(s: State, t: State, maxStreams: int, raw: bytes, hdr: Header)
    requires hdr.streamId.Some? && SameStream(s, t, hdr.streamId.value)
    requires !LockedOut(s, maxStreams, hdr.streamId.value) && !LockedOut(t, maxStreams, hdr.streamId.value)
    ensures var o, p := StepContext(s, maxStreams, raw, hdr), StepContext(t, maxStreams, raw, hdr);
      && SameStream(o.state, p.state, hdr.streamId.value) && o.record == p.record
      && (o.record.Some? ==> o.record.value.metadata.streamId == hdr.streamId.value)
  {
    hide ContextOf;
  }

  lemma OwnData(s: State, t: State, raw: bytes, hdr: Header)
    requires hdr.streamId.Some? && SameStream(s, t, hdr.streamId.value)
    ensures var o, p := StepData(s, raw, hdr), StepData(t, raw, hdr);
      && SameStream(o.state, p.state, hdr.streamId.value) && o.record == p.record
      && (o.record.Some? ==> o.record.value.metadata.streamId == hdr.streamId.value)
  {
    hide TrimData;
  }

  /** Being locked out is for ever. */
  lemma LockedOutStays(s: State, maxStreams: int, raw: bytes, sid: nat)
    requires LockedOut(s, maxStreams, sid)
    ensures LockedOut(Step(s, maxStreams, raw).state, maxStreams, sid)
  {
    hide HeaderOf, ContextOf, TrimData, MetadataOf;
    var t := Step(s, maxStreams, raw).state;
    if t.contexts != s.contexts {
      var other := HeaderOf(raw).value.streamId.value;
      KeysAfter(s.contexts, other, t.contexts[other]);
    }
  }
}
