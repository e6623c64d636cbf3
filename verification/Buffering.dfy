/** One stream's accumulation buffer: what each operation does to its state, and the
    units it hands downstream. */
module Buffering {
  import opened Bytes
  import opened Formats
  import opened ContextWalk
  import opened Interpreter

  /** The context fields that can be part of the flush identity. */
  datatype FlushField =
    | ContextFieldChange | BandwidthHz | RfHz | GainDb | SampleRateHz
    | SupportedFlag | ComponentDType | SampleBytes | IsComplex | DataItemFormat

  const DEFAULT_FLUSH_FIELDS := {RfHz, SampleRateHz, ComponentDType, IsComplex}

  datatype Config = Config(maxSamples: int, maxAge: real, flushFields: set<FlushField>)

  predicate AgreeOn(f: FlushField, a: Context, b: Context) {
    match f
    case ContextFieldChange => a.fieldChange == b.fieldChange
    case BandwidthHz => a.bandwidth == b.bandwidth
    case RfHz => a.rf == b.rf
    case GainDb => a.gain == b.gain
    case SampleRateHz => a.sampleRate == b.sampleRate
    case SupportedFlag => a.supported == b.supported
    case ComponentDType => a.dtype == b.dtype
    case SampleBytes => a.bytesPerSample == b.bytesPerSample
    case IsComplex => a.isComplex == b.isComplex
    case DataItemFormat => a.itemFormat == b.itemFormat
  }

  predicate Agree(fields: set<FlushField>, a: Context, b: Context) {
    forall f :: f in fields ==> AgreeOn(f, a, b)
  }

  /** A change in any flush field between the adopted context and a new one. */
  predicate Differs(fields: set<FlushField>, current: Option<Context>, new_: Context) {
    current.None? || !Agree(fields, current.value, new_)
  }

  /** Field by field: what the configured identity compares, and nothing else. */
  predicate SameIn(fields: set<FlushField>, a: Context, b: Context) {
    && (ContextFieldChange in fields ==> a.fieldChange == b.fieldChange)
    && (BandwidthHz in fields ==> a.bandwidth == b.bandwidth)
    && (RfHz in fields ==> a.rf == b.rf)
    && (GainDb in fields ==> a.gain == b.gain)
    && (SampleRateHz in fields ==> a.sampleRate == b.sampleRate)
    && (SupportedFlag in fields ==> a.supported == b.supported)
    && (ComponentDType in fields ==> a.dtype == b.dtype)
    && (SampleBytes in fields ==> a.bytesPerSample == b.bytesPerSample)
    && (IsComplex in fields ==> a.isComplex == b.isComplex)
    && (DataItemFormat in fields ==> a.itemFormat == b.itemFormat)
  }

  /** The default identity: tuning, rate and how bytes are read. */
  predicate SameTuning(a: Context, b: Context) {
    a.rf == b.rf && a.sampleRate == b.sampleRate && a.dtype == b.dtype && a.isComplex == b.isComplex
  }

  lemma AgreeMeans(fields: set<FlushField>, a: Context, b: Context)
    ensures Agree(fields, a, b) <==> SameIn(fields, a, b)
  {
    if SameIn(fields, a, b) {
      forall f | f in fields
        ensures AgreeOn(f, a, b)
      {
      }
    }
    if Agree(fields, a, b) {
      forall f: FlushField
        ensures f in fields ==> AgreeOn(f, a, b)
      {
      }
      EachAgrees(fields, a, b);
    }
  }

  lemma EachAgrees(fields: set<FlushField>, a: Context, b: Context)
    requires Agree(fields, a, b)
    ensures SameIn(fields, a, b)
  {
    assert ContextFieldChange in fields ==> AgreeOn(ContextFieldChange, a, b);
    assert BandwidthHz in fields ==> AgreeOn(BandwidthHz, a, b);
    assert RfHz in fields ==> AgreeOn(RfHz, a, b);
    assert GainDb in fields ==> AgreeOn(GainDb, a, b);
    assert SampleRateHz in fields ==> AgreeOn(SampleRateHz, a, b);
    assert SupportedFlag in fields ==> AgreeOn(SupportedFlag, a, b);
    assert ComponentDType in fields ==> AgreeOn(ComponentDType, a, b);
    assert SampleBytes in fields ==> AgreeOn(SampleBytes, a, b);
    assert IsComplex in fields ==> AgreeOn(IsComplex, a, b);
    assert DataItemFormat in fields ==> AgreeOn(DataItemFormat, a, b);
  }

  lemma DefaultIdentity(a: Context, b: Context)
    ensures SameIn(DEFAULT_FLUSH_FIELDS, a, b) <==> SameTuning(a, b)
  {
  }

  /** A context under which a buffer accepts no data. */
  predicate InertContext(c: Context) {
    c.supported == Some(false) || c.dtype.None?
  }

  /** How the bytes of a window are to be read. */
  datatype Interpretation = Interpretation(dtype: DType, isComplex: bool, bytesPerSample: nat)
  {
    function ItemSize(): nat {
      match dtype
      case Component(_, size) => size
      case Foreign(_) => 0
    }

    function PerSample(): nat {
      if isComplex then 2 else 1
    }

    /** A numeric component type whose size adds up to the sample size. */
    predicate Convertible() {
      dtype.Component? && ItemSize() * PerSample() == bytesPerSample
    }
  }

  function InterpretationOf(md: Metadata): Interpretation
    requires md.dtype.Some? && md.bytesPerSample.Some?
  {
    Interpretation(md.dtype.value, md.isComplex == Some(true), md.bytesPerSample.value)
  }

  /** Defence against unusable records: a type, a sample size, whole samples. */
  predicate UsableData(md: Metadata, data: bytes) {
    && md.dtype.Some?
    && md.bytesPerSample.Some?
    && md.bytesPerSample.value != 0
    && |data| % md.bytesPerSample.value == 0
  }

  /** What a flush hands downstream. `arrayLength` is the length of the converted array. */
  datatype Unit = Unit(
    raw: bytes, arrayLength: nat, context: Option<Context>, startTimestamp: Option<real>, numSamples: nat,
    streamId: nat, interpretation: Option<Interpretation>)

  datatype Buffer = Buffer(
    chunks: seq<bytes>, numSamples: nat, latched: Option<Interpretation>, startTimestamp: Option<real>,
    firstArrival: Option<real>, context: Option<Context>, inert: bool, dropped: nat)

  const FRESH := Buffer([], 0, None, None, None, None, false, 0)

  datatype Effect = Effect(buffer: Buffer, units: seq<Unit>)

  /** What numpy needs to turn bytes into samples without raising. */
  predicate CanConvert(raw: bytes, i: Interpretation) {
    && 0 < |raw|
    && 0 < i.ItemSize()
    && |raw| % i.ItemSize() == 0
    && |raw| / i.ItemSize() % i.PerSample() == 0
  }

  function ArrayLength(raw: bytes, i: Interpretation): nat {
    if i.ItemSize() == 0 then 0 else |raw| / i.ItemSize() / i.PerSample()
  }

  function UnitOf(sid: nat, s: Buffer): Unit {
    var raw := Join(s.chunks);
    Unit(raw, if s.latched.Some? then ArrayLength(raw, s.latched.value) else 0, s.context, s.startTimestamp,
         s.numSamples, sid, s.latched)
  }

  /** Emits the open window, if there is one; the context stays. */
  function Flush(sid: nat, s: Buffer): Effect {
    if s.chunks == [] then Effect(s, [])
    else Effect(Buffer([], 0, None, None, None, s.context, s.inert, s.dropped), [UnitOf(sid, s)])
  }

  function PushContext(cfg: Config, sid: nat, s: Buffer, ctx: Context): Effect {
    var e := if s.chunks != [] && Differs(cfg.flushFields, s.context, ctx) then Flush(sid, s) else Effect(s, []);
    Effect(e.buffer.(context := Some(ctx), inert := InertContext(ctx)), e.units)
  }

  /** What a new context does: it is adopted; the open window goes out under the old one if
      a configured field changed, and otherwise stays as it is. */
  lemma ContextPushMeaning(cfg: Config, sid: nat, s: Buffer, ctx: Context)
    ensures var e := PushContext(cfg, sid, s, ctx);
      && e.buffer.context == Some(ctx) && e.buffer.dropped == s.dropped
      && (if s.chunks == [] || (s.context.Some? && SameIn(cfg.flushFields, s.context.value, ctx))
          then e.units == [] && e.buffer == s.(context := Some(ctx), inert := e.buffer.inert)
          else
            && e.buffer.chunks == [] && |e.units| == 1
            && e.units[0].context == s.context && e.units[0].raw == Join(s.chunks) && e.units[0].streamId == sid)
  {
    hide Agree, SameIn, Join, InertContext;
    if s.context.Some? {
      AgreeMeans(cfg.flushFields, s.context.value, ctx);
    }
  }

  /** Whether an admitted record ends the open window before it is appended. */
  predicate ClosesWindow(s: Buffer, md: Metadata)
    requires md.dtype.Some? && md.bytesPerSample.Some?
  {
    s.chunks != [] && (md.gapBefore || s.latched != Some(InterpretationOf(md)))
  }

  function PushData(cfg: Config, sid: nat, s: Buffer, md: Metadata, data: bytes, now: real): Effect {
    if s.context.None? || s.inert || !UsableData(md, data) then Effect(s.(dropped := s.dropped + 1), [])
    else
      var e := if ClosesWindow(s, md) then Flush(sid, s) else Effect(s, []);
      if data == [] then e
      else
        var a := Append(cfg, sid, e.buffer, md, data, now);
        Effect(a.buffer, e.units + a.units)
  }

  /** The buffer with one more chunk, the first one opening a window. */
  function Longer(s: Buffer, md: Metadata, data: bytes, now: real): Buffer
    requires UsableData(md, data)
  {
    var i := InterpretationOf(md);
    var started := if s.chunks == []
      then s.(latched := Some(i), startTimestamp := Some(md.timestamp), firstArrival := Some(now))
      else s;
    started.(chunks := s.chunks + [data], numSamples := s.numSamples + |data| / i.bytesPerSample)
  }

  /** Appends a chunk, latching the interpretation with a window's first one, and flushes
      a window that has reached its size. */
  function Append(cfg: Config, sid: nat, s: Buffer, md: Metadata, data: bytes, now: real): Effect
    requires UsableData(md, data)
  {
    var i := InterpretationOf(md);
    if s.chunks == [] && !i.Convertible() then Effect(s.(dropped := s.dropped + 1), [])
    else
      var longer := Longer(s, md, data, now);
      if longer.numSamples >= cfg.maxSamples then Flush(sid, longer) else Effect(longer, [])
  }

  function Push(cfg: Config, sid: nat, s: Buffer, rec: Record, now: real): Effect {
    match rec
    case ContextRecord(_, ctx) => PushContext(cfg, sid, s, ctx)
    case DataRecord(md, data) => PushData(cfg, sid, s, md, data, now)
  }

  /** The age trigger, polled. */
  function Poll(cfg: Config, sid: nat, s: Buffer, now: real): Effect {
    if s.chunks != [] && s.firstArrival.Some? && now - s.firstArrival.value >= cfg.maxAge then Flush(sid, s)
    else Effect(s, [])
  }

  // ---------- What every reachable buffer satisfies ----------

  /** An open window has a latched convertible interpretation, a start, an arrival and a
      context, and counts the samples of its chunks; a closed one has none of them. */
  predicate BufferInv(s: Buffer) {
    && (s.context.None? ==> !s.inert && s.chunks == [])
    && (s.context.Some? ==> s.inert == InertContext(s.context.value))
    && (s.chunks == [] ==> s.numSamples == 0 && s.latched == None && s.startTimestamp == None && s.firstArrival == None)
    && (s.chunks != [] ==>
          && s.latched.Some? && s.startTimestamp.Some? && s.firstArrival.Some?
          && s.latched.value.Convertible() && 0 < s.latched.value.bytesPerSample
          && 0 < |Join(s.chunks)|
          && |Join(s.chunks)| == s.numSamples * s.latched.value.bytesPerSample)
  }

  /** An emitted unit converts without an error into exactly `numSamples` samples. */
  predicate Sound(u: Unit) {
    && u.context.Some? && u.startTimestamp.Some? && u.interpretation.Some?
    && 0 < u.interpretation.value.bytesPerSample
    && |u.raw| == u.numSamples * u.interpretation.value.bytesPerSample
    && CanConvert(u.raw, u.interpretation.value)
    && u.arrayLength == u.numSamples
  }

  lemma WholeComponents(raw: bytes, i: Interpretation, n: nat)
    requires i.Convertible() && 0 < i.bytesPerSample && 0 < |raw| && |raw| == n * i.bytesPerSample
    ensures CanConvert(raw, i) && ArrayLength(raw, i) == n
  {
    var size, per := i.ItemSize(), i.PerSample();
    assert 0 < size;
    assert |raw| == size * (per * n) + 0;
    DivUnique(|raw|, size, per * n, 0);
    DivUnique(per * n, per, n, 0);
  }

  /** A flush is total: every window converts, and nothing of it stays behind. */
  lemma FlushSound(sid: nat, s: Buffer)
    requires BufferInv(s)
    ensures var e := Flush(sid, s);
      && BufferInv(e.buffer) && e.buffer.chunks == []
      && forall u :: u in e.units ==> Sound(u)
  {
    if s.chunks != [] {
      WholeComponents(Join(s.chunks), s.latched.value, s.numSamples);
    }
  }

  lemma AppendSound(cfg: Config, sid: nat, s: Buffer, md: Metadata, data: bytes, now: real)
    requires BufferInv(s) && s.context.Some? && UsableData(md, data) && data != []
    requires s.chunks != [] ==> s.latched == Some(InterpretationOf(md))
    ensures var e := Append(cfg, sid, s, md, data, now);
      && BufferInv(e.buffer)
      && forall u :: u in e.units ==> Sound(u)
  {
    hide AgreeOn, Flush, CanConvert, ArrayLength, Longer;
    if s.chunks != [] || InterpretationOf(md).Convertible() {
      LongerSane(s, md, data, now);
      FlushSound(sid, Longer(s, md, data, now));
    }
  }

  lemma LongerSane(s: Buffer, md: Metadata, data: bytes, now: real)
    requires BufferInv(s) && s.context.Some? && UsableData(md, data) && data != []
    requires if s.chunks != [] then s.latched == Some(InterpretationOf(md)) else InterpretationOf(md).Convertible()
    ensures BufferInv(Longer(s, md, data, now))
  {
    hide InertContext;
    var longer := Longer(s, md, data, now);
    JoinConcat(s.chunks, [data]);
    JoinOne(data);
    ExactSamples(|data|, md.bytesPerSample.value);
    assert |Join(longer.chunks)| == longer.numSamples * md.bytesPerSample.value;
  }

  lemma ExactSamples(length: nat, size: nat)
    requires 0 < size && length % size == 0
    ensures length / size * size == length
  {
  }

  /** Pushing any record, even one no interpreter would make, keeps the invariant and
      emits only sound units. */
  lemma PushSound(cfg: Config, sid: nat, s: Buffer, rec: Record, now: real)
    requires BufferInv(s)
    ensures var e := Push(cfg, sid, s, rec, now);
      && BufferInv(e.buffer)
      && forall u :: u in e.units ==> Sound(u)
  {
    hide Flush, Append, AgreeOn, Sound;
    FlushSound(sid, s);
    if rec.DataRecord? && s.context.Some? && UsableData(rec.metadata, rec.data) {
      var e := if ClosesWindow(s, rec.metadata) then Flush(sid, s) else Effect(s, []);
      FlushKeeps(sid, s);
      if rec.data != [] {
        AppendSound(cfg, sid, e.buffer, rec.metadata, rec.data, now);
      }
    } else if rec.ContextRecord? {
      FlushKeeps(sid, s);
    }
  }

  lemma FlushKeeps(sid: nat, s: Buffer)
    ensures var b := Flush(sid, s).buffer;
      b.context == s.context && b.inert == s.inert && b.dropped == s.dropped && b.chunks == []
  {
  }

  /** After a poll no window is open whose first chunk is as old as the limit. */
  lemma PollSound(cfg: Config, sid: nat, s: Buffer, now: real)
    requires BufferInv(s)
    ensures var e := Poll(cfg, sid, s, now);
      && BufferInv(e.buffer)
      && (forall u :: u in e.units ==> Sound(u))
      && (e.buffer.chunks != [] ==> now - e.buffer.firstArrival.value < cfg.maxAge)
  {
    FlushSound(sid, s);
  }
}
