/** The buffer laws on whole pipeline runs, for every stream. */
module EndToEnd {
  import opened Bytes
  import opened Header
  import opened ContextWalk
  import opened Trim
  import opened Interpreter
  import opened Buffering
  import opened Segmentation
  import opened Routing
  import opened Stack
  import opened Streams
  import opened WindowLaws
  import opened Contiguity

  /** Every unit of every run converts without an error into exactly its sample count. */
  lemma UnitsConvert(cfg: Config, maxStreams: int, evs: seq<Input>, sid: nat)
    requires CoversReading(cfg)
    ensures forall u :: u in UnitsOf(Run(cfg, maxStreams, evs).units, sid) ==> Sound(u)
  {
    hide Run, Replay, Sound, StreamEvents, UnitsOf;
    Demultiplexed(cfg, maxStreams, evs, sid);
    ReplaySound(cfg, sid, StreamEvents(maxStreams, evs, sid));
  }

  /** Every unit's label agrees, on every flush field, with the context in force when each of
      its chunks was accepted. */
  lemma RunLabels(cfg: Config, maxStreams: int, evs: seq<Input>, sid: nat, i: nat, c: nat)
    requires CoversReading(cfg)
    ensures var own, us := StreamEvents(maxStreams, evs, sid), UnitsOf(Run(cfg, maxStreams, evs).units, sid);
      i < |Windows(cfg, own)| && Windows(cfg, own)[i].lo <= c < Windows(cfg, own)[i].hi ==>
      && i < |us| && c < |Chunks(own)|
      && var inForce := ContextAfter(own[..Chunks(own)[c].at]);
      us[i].context.Some? && inForce.Some? && SameIn(cfg.flushFields, inForce.value, us[i].context.value)
  {
    hide Run, Replay, StreamEvents, UnitsOf, Windows, Chunks, SameIn, ContextAfter;
    Demultiplexed(cfg, maxStreams, evs, sid);
    LabelsCorrect(cfg, sid, StreamEvents(maxStreams, evs, sid), i, c);
  }

  /** With the default identity: every chunk of every unit was accepted under the unit's own
      frequency, sample rate, component type and complexity. */
  lemma RunTuning(cfg: Config, maxStreams: int, evs: seq<Input>, sid: nat, i: nat, c: nat)
    requires cfg.flushFields == DEFAULT_FLUSH_FIELDS
    ensures var own, us := StreamEvents(maxStreams, evs, sid), UnitsOf(Run(cfg, maxStreams, evs).units, sid);
      i < |Windows(cfg, own)| && Windows(cfg, own)[i].lo <= c < Windows(cfg, own)[i].hi ==>
      && i < |us| && c < |Chunks(own)|
      && var inForce := ContextAfter(own[..Chunks(own)[c].at]);
      us[i].context.Some? && inForce.Some? && SameTuning(inForce.value, us[i].context.value)
  {
    hide Run, StreamEvents, UnitsOf, Windows, Chunks, SameIn, SameTuning, ContextAfter;
    var own, us := StreamEvents(maxStreams, evs, sid), UnitsOf(Run(cfg, maxStreams, evs).units, sid);
    RunLabels(cfg, maxStreams, evs, sid, i, c);
    if i < |Windows(cfg, own)| && Windows(cfg, own)[i].lo <= c < Windows(cfg, own)[i].hi {
      DefaultIdentity(ContextAfter(own[..Chunks(own)[c].at]).value, us[i].context.value);
    }
  }

  /** With the default identity, in every run: a context packet of a tracked stream that
      changes none of the four fields is a heartbeat, which emits nothing and leaves the open
      window as it is; one that changes any of them emits the open window, if there is one,
      under the context it was collected under, and nothing else. */
  lemma RetuneOrHeartbeat(cfg: Config, maxStreams: int, evs: seq<Input>, raw: bytes, now: real)
    requires cfg.flushFields == DEFAULT_FLUSH_FIELDS
    ensures var s, t := Run(cfg, maxStreams, evs), Run(cfg, maxStreams, evs + [Datagram(raw, now)]);
      var o := Step(s.interp, maxStreams, raw);
      o.record.Some? && o.record.value.ContextRecord? && o.record.value.metadata.streamId in s.interp.contexts ==>
        var sid, next := o.record.value.metadata.streamId, o.record.value.context;
        var before, after := BufferFor(s.router, sid), BufferFor(t.router, sid);
        && after.context == Some(next)
        && (if before.chunks == [] || SameTuning(s.interp.contexts[sid], next)
            then t.units == s.units && after.chunks == before.chunks && after.firstArrival == before.firstArrival
            else
              && after.chunks == [] && |t.units| == |s.units| + 1 && t.units[..|s.units|] == s.units
              && t.units[|s.units|].streamId == sid && t.units[|s.units|].context == Some(s.interp.contexts[sid])
              && t.units[|s.units|].raw == Join(before.chunks))
  {
    hide Run, Step, SameIn, SameTuning, RouterInv, StateInv, PushContext, Join;
    var s := Run(cfg, maxStreams, evs);
    var o := Step(s.interp, maxStreams, raw);
    RunStep(cfg, maxStreams, evs, Datagram(raw, now));
    AlwaysLockstep(cfg, maxStreams, evs);
    if o.record.Some? && o.record.value.ContextRecord? && o.record.value.metadata.streamId in s.interp.contexts {
      var sid, next := o.record.value.metadata.streamId, o.record.value.context;
      ContextPushMeaning(cfg, sid, s.router.buffers[sid], next);
      DefaultIdentity(s.interp.contexts[sid], next);
    }
  }

  const MAX_PACKET_BYTES := 4 * 0xFFFF

  /** A data record never holds more than a declared packet can. */
  lemma RecordFits(s: State, maxStreams: int, raw: bytes)
    ensures var o := Step(s, maxStreams, raw);
      o.record.Some? && o.record.value.DataRecord? ==> |o.record.value.data| <= MAX_PACKET_BYTES
  {
    hide ContextOf, TrimData, HeaderOf;
    if HeaderOf(raw).Ok? {
      var hdr := HeaderOf(raw).value;
      if IsData(hdr) && hdr.streamId.value in s.contexts && Usable(s.contexts[hdr.streamId.value]) {
        TrimFits(raw, hdr, s.contexts[hdr.streamId.value].bytesPerSample.value);
      }
    }
  }

  lemma TrimFits(b: bytes, hdr: Header, bytesPerSample: nat)
    ensures TrimData(b, hdr, bytesPerSample).Ok? ==> |TrimData(b, hdr, bytesPerSample).value.body| <= 4 * hdr.packetSize
  {
    hide TrimData;
    if hdr.headerLen <= |b| {
      TrimMeaning(b, hdr, bytesPerSample);
    } else {
      NothingToTrim(b, hdr, bytesPerSample);
    }
  }

  lemma NothingToTrim(b: bytes, hdr: Header, bytesPerSample: nat)
    requires |b| < hdr.headerLen
    ensures TrimData(b, hdr, bytesPerSample).Ok? ==> TrimData(b, hdr, bytesPerSample).value.body == []
  {
  }

  lemma {:induction false} EventsFit(maxStreams: int, evs: seq<Input>, sid: nat)
    ensures forall k :: 0 <= k < |StreamEvents(maxStreams, evs, sid)| && CarriesData(StreamEvents(maxStreams, evs, sid)[k]) ==>
      |StreamEvents(maxStreams, evs, sid)[k].record.data| <= MAX_PACKET_BYTES
  {
    hide Step, InterpAfter;
    if |evs| != 0 {
      var front := evs[..|evs| - 1];
      EventsFit(maxStreams, front, sid);
      if evs[|evs| - 1].Datagram? {
        RecordFits(InterpAfter(maxStreams, front), maxStreams, evs[|evs| - 1].raw);
      }
    }
  }

  /** A packet holds no more samples than its bytes have room for. */
  lemma SamplesFit(c: Chunk)
    requires 0 < c.interpretation.bytesPerSample && |c.data| <= MAX_PACKET_BYTES
    ensures ChunkSamples(c) <= MAX_PACKET_BYTES / c.interpretation.bytesPerSample
  {
    QuotientGrows(|c.data|, MAX_PACKET_BYTES, c.interpretation.bytesPerSample);
  }

  lemma QuotientGrows(m: nat, n: nat, d: nat)
    requires 0 < d && m <= n
    ensures m / d <= n / d
  {
    var p, q := m / d, n / d;
    assert d * p <= n < d * (q + 1);
    MulOrder(d, p, q + 1);
  }

  /** All chunks of a window are read the same way. */
  lemma LastReadAlike(cfg: Config, evs: seq<Event>, w: Window)
    requires Cut(cfg, evs, w)
    ensures w.lo < w.hi <= |Chunks(evs)|
    ensures Chunks(evs)[w.hi - 1].interpretation == Chunks(evs)[w.lo].interpretation
  {
    hide Chunks, Ends, GoesOn, Quiet, Samples, Cut, UsableData, InertContext;
    WindowClosing(cfg, evs, w);
    ChunkContext(evs, w.hi - 1);
    if w.lo < w.hi - 1 {
      NoGapInside(cfg, evs, w, Chunks(evs)[w.hi - 1].at);
    }
  }

  /** No unit exceeds the limit less one by more samples than one packet has room for. */
  predicate Bounded(cfg: Config, u: Unit) {
    && u.interpretation.Some? && 0 < u.interpretation.value.bytesPerSample
    && u.numSamples <= cfg.maxSamples - 1 + MAX_PACKET_BYTES / u.interpretation.value.bytesPerSample
  }

  lemma WindowUnitBounded(cfg: Config, sid: nat, evs: seq<Event>, w: Window)
    requires 1 <= cfg.maxSamples && Cut(cfg, evs, w)
    requires forall k :: 0 <= k < |evs| && CarriesData(evs[k]) ==> |evs[k].record.data| <= MAX_PACKET_BYTES
    ensures w.lo < w.hi <= |Chunks(evs)| && w.at < |evs|
    ensures Bounded(cfg, WindowUnit(sid, evs, w))
  {
    hide Chunks, Cut, Samples, Join, Datas, ContextAfter, Ends, GoesOn, Quiet;
    WindowClosing(cfg, evs, w);
    LastReadAlike(cfg, evs, w);
    CutBounded(cfg, evs, w);
    ChunkContext(evs, w.hi - 1);
    SamplesFit(Chunks(evs)[w.hi - 1]);
  }

  /** An emitted unit exceeds the size limit less one by at most the samples one packet has
      room for, and an open window stays below the limit. */
  lemma UnitsBounded(cfg: Config, maxStreams: int, evs: seq<Input>, sid: nat)
    requires CoversReading(cfg) && 1 <= cfg.maxSamples
    ensures forall u :: u in UnitsOf(Run(cfg, maxStreams, evs).units, sid) ==> Bounded(cfg, u)
    ensures var b := BufferFor(Run(cfg, maxStreams, evs).router, sid);
      b.chunks != [] ==> b.numSamples <= cfg.maxSamples - 1
  {
    hide Run, Replay, StreamEvents, UnitsOf, Windows, Chunks, Bounded, Cut, WindowUnit;
    var own := StreamEvents(maxStreams, evs, sid);
    var ws := Windows(cfg, own);
    Demultiplexed(cfg, maxStreams, evs, sid);
    OpenWindowBounded(cfg, sid, own);
    WindowsAreCorrect(cfg, own);
    BufferRefinesSegmentation(cfg, sid, own);
    EventsFit(maxStreams, evs, sid);
    forall i | 0 <= i < |ws|
      ensures Bounded(cfg, WindowUnits(sid, own, ws)[i])
    {
      CutOf(cfg, own, ws, i);
      WindowUnitBounded(cfg, sid, own, ws[i]);
    }
  }
}
