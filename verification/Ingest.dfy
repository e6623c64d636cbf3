/** The buffer and router objects: fields updated in place, each method doing what the
    value-level operations say. */
module Ingest {
  import opened Bytes
  import opened Formats
  import opened ContextWalk
  import opened Interpreter
  import opened Buffering
  import opened Segmentation
  import opened Routing

  /** The emit callback: every call appends one unit to what the consumer has been given. */
  class Sink {
    ghost var units: seq<Unit>

    constructor ()
      ensures units == []
    {
      units := [];
    }

    method Emit(u: Unit)
      modifies this
      ensures units == old(units) + [u]
    {
      units := units + [u];
    }
  }

  /** The array conversion: it would raise on bytes that are not whole samples. */
  method Convert(raw: bytes, i: Interpretation) returns (length: nat)
    requires CanConvert(raw, i)
    ensures length == ArrayLength(raw, i)
  {
    var components := |raw| / i.ItemSize();
    length := components / i.PerSample();
  }

  class IngestBuffer {
    const sink: Sink
    const cfg: Config
    const streamId: nat
    var chunks: seq<bytes>
    var numSamples: nat
    var componentDType: Option<DType>
    var bytesPerSample: Option<nat>
    var isComplex: Option<bool>
    var startTimestamp: Option<real>
    var firstArrival: Option<real>
    var currentContext: Option<Context>
    var inert: bool
    var dropped: nat

    function Latched(): Option<Interpretation>
      reads this
    {
      if componentDType.Some? && isComplex.Some? && bytesPerSample.Some?
      then Some(Interpretation(componentDType.value, isComplex.value, bytesPerSample.value))
      else None
    }

    function View(): Buffer
      reads this
    {
      Buffer(chunks, numSamples, Latched(), startTimestamp, firstArrival, currentContext, inert, dropped)
    }

    predicate Valid()
      reads this
    {
      && BufferInv(View())
      && (componentDType.Some? <==> isComplex.Some?) && (componentDType.Some? <==> bytesPerSample.Some?)
    }

    constructor (sink: Sink, cfg: Config, streamId: nat)
      ensures Valid() && View() == FRESH
      ensures this.sink == sink && this.cfg == cfg && this.streamId == streamId
    {
      this.sink := sink;
      this.cfg := cfg;
      this.streamId := streamId;
      chunks := [];
      numSamples := 0;
      componentDType := None;
      bytesPerSample := None;
      isComplex := None;
      startTimestamp := None;
      firstArrival := None;
      currentContext := None;
      inert := false;
      dropped := 0;
    }

    method Push(record: Option<Record>, now: real)
      requires Valid()
      modifies this, sink
      ensures Valid()
      ensures record.None? ==> View() == old(View()) && sink.units == old(sink.units)
      ensures record.Some? ==>
        var e := Buffering.Push(cfg, streamId, old(View()), record.value, now);
        View() == e.buffer && sink.units == old(sink.units) + e.units
    {
      hide AgreeOn, Join, CanConvert, ArrayLength;
      if record.None? {
        return;
      }
      ghost var before := View();
      PushSound(cfg, streamId, before, record.value, now);
      match record.value
      case ContextRecord(_, ctx) => PushContext(ctx);
      case DataRecord(md, data) => PushData(md, data, now);
    }

    method PushContext(ctx: Context)
      requires Valid()
      modifies this, sink
      ensures Valid()
      ensures var e := Buffering.PushContext(cfg, streamId, old(View()), ctx);
        View() == e.buffer && sink.units == old(sink.units) + e.units
    {
      hide AgreeOn, Join, CanConvert, ArrayLength;
      if chunks != [] && Differs(cfg.flushFields, currentContext, ctx) {
        Flush();
      }
      currentContext := Some(ctx);
      inert := ctx.supported == Some(false) || ctx.dtype.None?;
    }

    method PushData(md: Metadata, data: bytes, now: real)
      requires Valid()
      modifies this, sink
      ensures Valid()
      ensures var e := Buffering.PushData(cfg, streamId, old(View()), md, data, now);
        View() == e.buffer && sink.units == old(sink.units) + e.units
    {
      hide Join, CanConvert, ArrayLength, Buffering.Append;
      if currentContext.None? || inert {
        dropped := dropped + 1;
        return;
      }
      if md.dtype.None? || md.bytesPerSample.None? || md.bytesPerSample.value == 0 || |data| % md.bytesPerSample.value != 0 {
        dropped := dropped + 1;
        return;
      }
      var dtype, bps := md.dtype.value, md.bytesPerSample.value;
      var complex := md.isComplex == Some(true);
      if chunks != [] && md.gapBefore {
        Flush();
      }
      if chunks != [] && (Some(dtype) != componentDType || Some(complex) != isComplex || Some(bps) != bytesPerSample) {
        Flush();
      }
      if data == [] {
        return;
      }
      Append(md, data, now);
    }

    method Append(md: Metadata, data: bytes, now: real)
      requires Valid() && currentContext.Some? && UsableData(md, data) && data != []
      requires chunks != [] ==> Latched() == Some(InterpretationOf(md))
      modifies this, sink
      ensures Valid()
      ensures var e := Buffering.Append(cfg, streamId, old(View()), md, data, now);
        View() == e.buffer && sink.units == old(sink.units) + e.units
    {
      hide Join, CanConvert, ArrayLength, UnitOf, Buffering.Flush;
      var dtype, bps := md.dtype.value, md.bytesPerSample.value;
      ghost var before := View();
      if chunks == [] {
        var ok := Latch(dtype, md.isComplex == Some(true), bps);
        if !ok {
          dropped := dropped + 1;
          return;
        }
        startTimestamp := Some(md.timestamp);
        firstArrival := Some(now);
      }
      chunks := chunks + [data];
      numSamples := numSamples + |data| / bps;
      LongerSane(before, md, data, now);
      if numSamples >= cfg.maxSamples {
        Flush();
      }
    }

    /** Latches an interpretation if it can be converted. */
    method Latch(dtype: DType, complex: bool, bps: nat) returns (ok: bool)
      modifies this
      ensures ok == Interpretation(dtype, complex, bps).Convertible()
      ensures ok ==> Latched() == Some(Interpretation(dtype, complex, bps))
      ensures ok ==> componentDType.Some? && isComplex.Some? && bytesPerSample.Some?
      ensures !ok ==> componentDType == old(componentDType) && isComplex == old(isComplex) && bytesPerSample == old(bytesPerSample)
      ensures View() == old(View()).(latched := Latched())
    {
      if dtype.Foreign? || dtype.size * (if complex then 2 else 1) != bps {
        return false;
      }
      componentDType := Some(dtype);
      isComplex := Some(complex);
      bytesPerSample := Some(bps);
      return true;
    }

    method MaybeFlushOnAge(now: real)
      requires Valid()
      modifies this, sink
      ensures Valid()
      ensures var e := Poll(cfg, streamId, old(View()), now);
        View() == e.buffer && sink.units == old(sink.units) + e.units
    {
      if chunks != [] && now - firstArrival.value >= cfg.maxAge {
        Flush();
      }
    }

    /** Converts the open window once and emits it; the state is reset before the call. */
    method Flush()
      requires Valid()
      modifies this, sink
      ensures Valid()
      ensures var e := Buffering.Flush(streamId, old(View()));
        View() == e.buffer && sink.units == old(sink.units) + e.units
    {
      hide Join, CanConvert;
      if chunks == [] {
        return;
      }
      var raw := Join(chunks);
      var i := Latched().value;
      WholeComponents(raw, i, numSamples);
      var length := Convert(raw, i);
      var unit := Unit(raw, length, currentContext, startTimestamp, numSamples, streamId, Some(i));
      chunks := [];
      numSamples := 0;
      componentDType := None;
      bytesPerSample := None;
      isComplex := None;
      startTimestamp := None;
      firstArrival := None;
      sink.Emit(unit);
    }
  }

  class BufferRouter {
    const sink: Sink
    const cfg: Config
    const maxStreams: int
    var buffers: map<nat, IngestBuffer>
    var order: seq<nat>  // the dictionary's insertion order
    var dropped: nat

    ghost predicate Valid()
      reads this, buffers.Values
    {
      && (forall i, j :: 0 <= i < j < |order| ==> order[i] != order[j])
      && (forall k :: k in buffers <==> k in order)
      && (forall k :: k in buffers ==>
            && buffers[k].Valid()
            && buffers[k].streamId == k && buffers[k].cfg == cfg && buffers[k].sink == sink)
      && (forall j, k :: j in buffers && k in buffers && j != k ==> buffers[j] != buffers[k])
    }

    ghost function View(): Router
      reads this, buffers.Values
    {
      Router(order, map k | k in buffers :: buffers[k].View(), dropped)
    }

    constructor (sink: Sink, cfg: Config, maxStreams: int)
      ensures Valid() && View() == EMPTY_ROUTER
      ensures this.sink == sink && this.cfg == cfg && this.maxStreams == maxStreams
      ensures buffers == map[]
    {
      this.sink := sink;
      this.cfg := cfg;
      this.maxStreams := maxStreams;
      buffers := map[];
      order := [];
      dropped := 0;
    }

    /** When one buffer has changed and the others have not, so has the router's view. */
    twostate lemma OneBuffer(sid: nat)
      requires old(Valid()) && buffers == old(buffers) && order == old(order) && dropped == old(dropped)
      requires sid in buffers && buffers[sid].Valid()
      requires forall k :: k in buffers && k != sid ==> unchanged(buffers[k])
      ensures Valid()
      ensures sid in old(View()).buffers && old(View()).buffers[sid] == old(buffers[sid].View())
      ensures View() == old(View()).(buffers := old(View()).buffers[sid := buffers[sid].View()])
    {
      hide BufferInv, IngestBuffer.View, IngestBuffer.Valid;
      assert View().buffers == old(View()).buffers[sid := buffers[sid].View()];
    }

    method Push(record: Option<Record>, now: real)
      requires Valid()
      modifies this, sink, buffers.Values
      ensures Valid() && fresh(buffers.Values - old(buffers.Values))
      ensures record.None? ==> View() == old(View()) && sink.units == old(sink.units)
      ensures record.Some? ==>
        var e := Route(cfg, maxStreams, old(View()), record.value, now);
        View() == e.router && sink.units == old(sink.units) + e.units
    {
      hide Buffering.Push, BufferInv, IngestBuffer.View, IngestBuffer.Valid, View, WithBuffer;
      if record.None? {
        return;
      }
      ghost var before := View();
      var sid := record.value.metadata.streamId;
      ViewKeys();
      if sid !in buffers {
        if |buffers| >= maxStreams {
          CountDrop();
          return;
        }
        Create(sid);
      } else {
        Known(before, sid);
      }
      label Created:
      var buf := buffers[sid];
      buf.Push(record, now);
      OneBuffer@Created(sid);
    }

    lemma Known(r: Router, sid: nat)
      requires sid in r.buffers
      ensures WithBuffer(r, sid) == r
    {
    }

    lemma ViewKeys()
      requires Valid()
      ensures View().buffers.Keys == buffers.Keys && |View().buffers| == |buffers|
    {
      SameSize(buffers, View().buffers);
    }

    method CountDrop()
      requires Valid()
      modifies this`dropped
      ensures Valid() && View() == old(View()).(dropped := old(View()).dropped + 1)
    {
      hide BufferInv, IngestBuffer.View, IngestBuffer.Valid;
      dropped := dropped + 1;
    }

    /** A new buffer under a new key keeps the router sane ... */
    twostate lemma AddedValid(sid: nat, new created: IngestBuffer)
      requires old(Valid()) && sid !in old(buffers) && !old(allocated(created))
      requires buffers == old(buffers)[sid := created] && order == old(order) + [sid]
      requires forall k :: k in old(buffers) ==> unchanged(old(buffers)[k])
      requires created.Valid() && created.streamId == sid && created.cfg == cfg && created.sink == sink
      ensures Valid()
    {
      hide BufferInv, IngestBuffer.View, IngestBuffer.Valid;
    }

    /** ... and its view is the old one with a fresh buffer added. */
    twostate lemma AddedView(sid: nat, new created: IngestBuffer)
      requires old(Valid()) && sid !in old(buffers) && dropped == old(dropped)
      requires buffers == old(buffers)[sid := created] && order == old(order) + [sid]
      requires forall k :: k in old(buffers) ==> unchanged(old(buffers)[k])
      requires created.View() == FRESH
      ensures View() == WithBuffer(old(View()), sid)
    {
      hide BufferInv, IngestBuffer.View, IngestBuffer.Valid;
      assert View().buffers == old(View()).buffers[sid := FRESH];
    }

    /** Gives a new stream its own buffer. */
    method Create(sid: nat)
      requires Valid() && sid !in buffers
      modifies this
      ensures Valid() && sid in buffers && fresh(buffers.Values - old(buffers.Values))
      ensures View() == WithBuffer(old(View()), sid)
    {
      hide BufferInv, IngestBuffer.View, IngestBuffer.Valid, View, Valid;
      var created := new IngestBuffer(sink, cfg, sid);
      buffers := buffers[sid := created];
      order := order + [sid];
      AddedValid(sid, created);
      AddedView(sid, created);
    }

    /** Polls the age of every buffer; `clock` gives the reading each of them sees. */
    method MaybeFlushOnAge(clock: nat -> real)
      requires Valid()
      modifies sink, buffers.Values
      ensures Valid()
      ensures (forall k :: k in old(View()).order ==> k in old(View()).buffers) &&
        var e := PollAll(cfg, old(View()), clock);
        View() == e.router && sink.units == old(sink.units) + e.units
    {
      hide React, Poll, BufferInv, IngestBuffer.View, IngestBuffer.Valid, View, Valid, Sweep;
      ghost var before := View();
      ghost var event := (sid: nat) => Polled(clock(sid));
      Shape();
      SweepNone(cfg, before, event);
      for i := 0 to |order|
        invariant Valid()
        invariant View() == Sweep(cfg, before, event, i).router
        invariant sink.units == old(sink.units) + Sweep(cfg, before, event, i).units
      {
        SweepNext(cfg, before, event, i);
        ReactCases(cfg, order[i], View().buffers[order[i]], clock(order[i]));
        PollOne(order[i], clock(order[i]));
      }
    }

    method PollOne(sid: nat, now: real)
      requires Valid() && sid in order
      modifies sink, buffers.Values
      ensures Valid()
      ensures sid in old(View()).buffers &&
        var e := Poll(cfg, sid, old(View()).buffers[sid], now);
        && View() == old(View()).(buffers := old(View()).buffers[sid := e.buffer])
        && sink.units == old(sink.units) + e.units
    {
      hide Poll, BufferInv, IngestBuffer.View, IngestBuffer.Valid, View;
      buffers[sid].MaybeFlushOnAge(now);
      OneBuffer(sid);
    }

    /** Drains every stream's open window. */
    method FlushAll()
      requires Valid()
      modifies sink, buffers.Values
      ensures Valid()
      ensures (forall k :: k in old(View()).order ==> k in old(View()).buffers) &&
        var e := Routing.FlushAll(cfg, old(View()));
        View() == e.router && sink.units == old(sink.units) + e.units
    {
      hide React, Buffering.Flush, BufferInv, IngestBuffer.View, IngestBuffer.Valid, View, Valid, Sweep;
      ghost var before := View();
      ghost var event := (sid: nat) => Drained;
      Shape();
      SweepNone(cfg, before, event);
      for i := 0 to |order|
        invariant Valid()
        invariant View() == Sweep(cfg, before, event, i).router
        invariant sink.units == old(sink.units) + Sweep(cfg, before, event, i).units
      {
        SweepNext(cfg, before, event, i);
        ReactCases(cfg, order[i], View().buffers[order[i]], 0.0);
        FlushOne(order[i]);
      }
    }

    method FlushOne(sid: nat)
      requires Valid() && sid in order
      modifies sink, buffers.Values
      ensures Valid()
      ensures sid in old(View()).buffers &&
        var e := Buffering.Flush(sid, old(View()).buffers[sid]);
        && View() == old(View()).(buffers := old(View()).buffers[sid := e.buffer])
        && sink.units == old(sink.units) + e.units
    {
      hide Buffering.Flush, BufferInv, IngestBuffer.View, IngestBuffer.Valid, View;
      buffers[sid].Flush();
      OneBuffer(sid);
    }

    lemma Shape()
      requires Valid()
      ensures View().order == order
      ensures forall k :: k in order ==> k in View().buffers
    {
    }
  }

  lemma ReactCases(cfg: Config, sid: nat, s: Buffer, now: real)
    ensures React(cfg, sid, s, Polled(now)) == Poll(cfg, sid, s, now)
    ensures React(cfg, sid, s, Drained) == Buffering.Flush(sid, s)
  {
  }

  lemma SameSize<U, V>(m: map<nat, U>, n: map<nat, V>)
    requires m.Keys == n.Keys
    ensures |m| == |n|
  {
  }
}
