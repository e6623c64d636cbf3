/** Interpreter and router as one machine, over whole runs. */
module Stack {
  import opened Bytes
  import opened Header
  import opened ContextWalk
  import opened Trim
  import opened Interpreter
  import opened Buffering
  import opened Segmentation
  import opened Routing

  /** What drives the machine: a datagram, an age poll of every buffer, the final flush. */
  datatype Input = Datagram(raw: bytes, now: real) | Tick(clock: nat -> real) | Finish

  datatype Sys = Sys(interp: State, router: Router, units: seq<Unit>)

  const BOOT := Sys(INITIAL, EMPTY_ROUTER, [])

  /** One input, as the dequeue loop handles it. */
  ghost function Advance(cfg: Config, maxStreams: int, s: Sys, e: Input): (t: Sys)
    requires RouterInv(s.router)
  {
    match e
    case Datagram(raw, now) =>
      var o := Step(s.interp, maxStreams, raw);
      if o.record.None? then s.(interp := o.state)
      else
        var r := Route(cfg, maxStreams, s.router, o.record.value, now);
        Sys(o.state, r.router, s.units + r.units)
    case Tick(clock) =>
      var r := PollAll(cfg, s.router, clock);
      s.(router := r.router, units := s.units + r.units)
    case Finish =>
      var r := FlushAll(cfg, s.router);
      s.(router := r.router, units := s.units + r.units)
  }

  lemma AdvanceKeepsRouter(cfg: Config, maxStreams: int, s: Sys, e: Input)
    requires RouterInv(s.router)
    ensures RouterInv(Advance(cfg, maxStreams, s, e).router)
  {
    hide RouterInv, Sweep, Route, Step;
    match e
    case Datagram(raw, now) =>
      var o := Step(s.interp, maxStreams, raw);
      if o.record.Some? {
        RouteKeepsInv(cfg, maxStreams, s.router, o.record.value, now);
      }
    case Tick(clock) =>
      SweepKeepsInv(cfg, s.router, (sid: nat) => Polled(clock(sid)), |s.router.order|);
    case Finish =>
      SweepKeepsInv(cfg, s.router, (sid: nat) => Drained, |s.router.order|);
  }

  /** The machine after a list of inputs. */
  ghost function Run(cfg: Config, maxStreams: int, evs: seq<Input>): (s: Sys)
    ensures RouterInv(s.router)
  {
    if |evs| == 0 then BOOT
    else
      var before := Run(cfg, maxStreams, evs[..|evs| - 1]);
      AdvanceKeepsRouter(cfg, maxStreams, before, evs[|evs| - 1]);
      Advance(cfg, maxStreams, before, evs[|evs| - 1])
  }

  /** The interpreter's part of a run. */
  function InterpAfter(maxStreams: int, evs: seq<Input>): State {
    if |evs| == 0 then INITIAL
    else
      var before := InterpAfter(maxStreams, evs[..|evs| - 1]);
      match evs[|evs| - 1]
      case Datagram(raw, _) => Step(before, maxStreams, raw).state
      case _ => before
  }

  /** The datagrams an input list contains, in order. */
  function Datagrams(inputs: seq<Input>): seq<bytes> {
    if |inputs| == 0 then []
    else Datagrams(inputs[..|inputs| - 1]) + (if inputs[|inputs| - 1].Datagram? then [inputs[|inputs| - 1].raw] else [])
  }

  /** The interpreter sees nothing of a run but its datagrams. */
  lemma {:induction false} InterpSeesDatagrams(maxStreams: int, evs: seq<Input>)
    ensures InterpAfter(maxStreams, evs) == RunAlone(maxStreams, Datagrams(evs))
  {
    hide Step;
    if |evs| != 0 {
      var front := evs[..|evs| - 1];
      InterpSeesDatagrams(maxStreams, front);
      assert Datagrams(evs) == if evs[|evs| - 1].Datagram? then Datagrams(front) + [evs[|evs| - 1].raw] else Datagrams(front);
      if evs[|evs| - 1].Datagram? {
        assert Datagrams(evs)[..|Datagrams(evs)| - 1] == Datagrams(front);
      }
    }
  }

  // ---------- Lockstep ----------

  /** The interpretation data of a usable context gets. */
  function ReadAs(c: Context): Option<Interpretation> {
    if c.dtype.Some? && c.isComplex.Some? && c.bytesPerSample.Some?
    then Some(Interpretation(c.dtype.value, c.isComplex.value, c.bytesPerSample.value))
    else None
  }

  /** A buffer and the interpreter hold the same about a stream: the context, whether data
      is accepted, and how the open window is read. Nothing was ever dropped. */
  predicate InStep(b: Buffer, c: Context) {
    && b.context == Some(c)
    && b.dropped == 0
    && (b.inert <==> !Usable(c))
    && (b.chunks != [] ==> Usable(c) && b.latched == ReadAs(c))
  }

  ghost predicate Lockstep(s: Sys, maxStreams: int) {
    && StateInv(s.interp, maxStreams)
    && RouterInv(s.router)
    && s.router.dropped == 0
    && s.router.buffers.Keys == s.interp.contexts.Keys
    && forall k :: k in s.router.buffers ==> InStep(s.router.buffers[k], s.interp.contexts[k])
  }

  /** The flush identity covers how bytes are read; the default one does. */
  predicate CoversReading(cfg: Config) {
    ComponentDType in cfg.flushFields && IsComplex in cfg.flushFields
  }

  lemma DefaultCoversReading(maxSamples: int, maxAge: real)
    ensures CoversReading(Config(maxSamples, maxAge, DEFAULT_FLUSH_FIELDS))
  {
  }

  lemma ContextInStep(cfg: Config, sid: nat, b: Buffer, old_: Option<Context>, c: Context)
    requires CoversReading(cfg) && WellFormed(c)
    requires if old_.Some? then WellFormed(old_.value) && InStep(b, old_.value) else b == FRESH
    ensures InStep(PushContext(cfg, sid, b, c).buffer, c)
  {
    hide UnitOf;
    if b.chunks != [] && !Differs(cfg.flushFields, b.context, c) {
      assert AgreeOn(ComponentDType, old_.value, c) && AgreeOn(IsComplex, old_.value, c);
    }
  }

  /** Data the interpreter lets through always fits the buffer: it is admitted, it can be
      latched, and it is read as the open window is read. */
  predicate Fits(b: Buffer, md: Metadata, data: bytes) {
    && b.context.Some? && !b.inert
    && UsableData(md, data)
    && InterpretationOf(md).Convertible()
    && (b.chunks != [] ==> b.latched == Some(InterpretationOf(md)))
  }

  lemma DataFits(b: Buffer, c: Context, md: Metadata, data: bytes)
    requires InStep(b, c) && WellFormed(c) && Usable(c)
    requires md.dtype == c.dtype && md.isComplex == c.isComplex && md.bytesPerSample == c.bytesPerSample
    requires |data| % c.bytesPerSample.value == 0
    ensures Fits(b, md, data)
  {
  }

  lemma DataInStep(cfg: Config, sid: nat, b: Buffer, c: Context, md: Metadata, data: bytes, now: real)
    requires InStep(b, c) && Usable(c) && Fits(b, md, data) && Some(InterpretationOf(md)) == ReadAs(c)
    ensures InStep(PushData(cfg, sid, b, md, data, now).buffer, c)
  {
    hide UnitOf, Usable;
  }

  lemma PollInStep(cfg: Config, sid: nat, b: Buffer, c: Context, e: Event)
    requires InStep(b, c) && !e.Pushed?
    ensures InStep(React(cfg, sid, b, e).buffer, c)
  {
    hide UnitOf;
  }

  /** What a record of the interpreter looks like. */
  lemma RecordShape(s: State, maxStreams: int, raw: bytes)
    requires StateInv(s, maxStreams) && Step(s, maxStreams, raw).record.Some?
    ensures var o := Step(s, maxStreams, raw);
      var sid := o.record.value.metadata.streamId;
      match o.record.value
      case ContextRecord(_, c) =>
        WellFormed(c) && o.state.contexts == s.contexts[sid := c] && (sid in s.contexts || |s.contexts| < maxStreams)
      case DataRecord(md, data) =>
        && o.state.contexts == s.contexts && sid in s.contexts && Usable(s.contexts[sid]) && WellFormed(s.contexts[sid])
        && md.dtype == s.contexts[sid].dtype && md.isComplex == s.contexts[sid].isComplex
        && md.bytesPerSample == s.contexts[sid].bytesPerSample
        && md.bytesPerSample.value != 0 && |data| % md.bytesPerSample.value == 0
        && o.state.lastCounter == s.lastCounter[sid := md.counter]
        && md.gapBefore == CounterGap(Lookup(s.lastCounter, sid), md.counter)
  {
    hide HeaderOf, ContextOf, TrimData, WellFormed;
    var hdr := HeaderOf(raw).value;
    if IsContext(hdr) {
      DecodedFormat(raw, hdr);
    } else {
      var c := s.contexts[hdr.streamId.value];
      assert WellFormed(c);
      SampleSizePositive(c);
      var t := TrimData(raw, hdr, c.bytesPerSample.value).value;
      MultipleMod(t.numSamples, c.bytesPerSample.value);
    }
  }

  lemma SampleSizePositive(c: Context)
    requires WellFormed(c) && c.bytesPerSample.Some?
    ensures c.bytesPerSample.value != 0
  {
  }

  lemma MultipleMod(n: nat, size: nat)
    requires 0 < size
    ensures n * size % size == 0
  {
    DivUnique(n * size, size, n, 0);
  }

  lemma LockstepStep(cfg: Config, maxStreams: int, s: Sys, e: Input)
    requires CoversReading(cfg) && Lockstep(s, maxStreams)
    ensures Lockstep(Advance(cfg, maxStreams, s, e), maxStreams)
  {
    hide StateInv, RouterInv, Sweep, Route, Step, InStep;
    AdvanceKeepsRouter(cfg, maxStreams, s, e);
    match e
    case Datagram(raw, now) =>
      StepInv(s.interp, maxStreams, raw);
      var o := Step(s.interp, maxStreams, raw);
      if o.record.None? {
        StepAccounts(s.interp, maxStreams, raw);
      } else {
        LockstepRoute(cfg, maxStreams, s, raw, now);
      }
    case Tick(clock) =>
      LockstepSweep(cfg, maxStreams, s, (sid: nat) => Polled(clock(sid)));
    case Finish =>
      LockstepSweep(cfg, maxStreams, s, (sid: nat) => Drained);
  }

  lemma LockstepSweep(cfg: Config, maxStreams: int, s: Sys, event: nat -> Event)
    requires Lockstep(s, maxStreams) && forall sid: nat :: !event(sid).Pushed?
    ensures var r := Sweep(cfg, s.router, event, |s.router.order|).router;
      forall k :: k in r.buffers ==> k in s.interp.contexts && InStep(r.buffers[k], s.interp.contexts[k])
  {
    hide StateInv, BufferInv, Sweep, React, InStep;
    var r := Sweep(cfg, s.router, event, |s.router.order|).router;
    forall k | k in r.buffers
      ensures k in s.interp.contexts && InStep(r.buffers[k], s.interp.contexts[k])
    {
      FullSweep(cfg, s.router, event, k);
      PollInStep(cfg, k, s.router.buffers[k], s.interp.contexts[k], event(k));
    }
  }

  /** A record of a stream the machine tracks, or can still track. */
  lemma HasRoom(maxStreams: int, s: Sys, raw: bytes)
    requires Lockstep(s, maxStreams) && Step(s.interp, maxStreams, raw).record.Some?
    ensures var sid := Step(s.interp, maxStreams, raw).record.value.metadata.streamId;
      sid in s.router.buffers || |s.router.buffers| < maxStreams
  {
    hide StateInv, RouterInv, Step, InStep;
    RecordShape(s.interp, maxStreams, raw);
    assert |s.router.buffers| == |s.router.buffers.Keys| == |s.interp.contexts.Keys| == |s.interp.contexts|;
  }

  lemma LockstepRoute(cfg: Config, maxStreams: int, s: Sys, raw: bytes, now: real)
    requires CoversReading(cfg) && Lockstep(s, maxStreams)
    requires Step(s.interp, maxStreams, raw).record.Some?
    ensures var o := Step(s.interp, maxStreams, raw);
      var r := Route(cfg, maxStreams, s.router, o.record.value, now).router;
      && r.dropped == 0 && r.buffers.Keys == o.state.contexts.Keys
      && forall k :: k in r.buffers ==> InStep(r.buffers[k], o.state.contexts[k])
  {
    hide StateInv, RouterInv, Step, InStep, PushContext, PushData, WellFormed, Usable;
    var o := Step(s.interp, maxStreams, raw);
    var rec, sid := o.record.value, o.record.value.metadata.streamId;
    HasRoom(maxStreams, s, raw);
    RecordShape(s.interp, maxStreams, raw);
    OwnInStep(cfg, maxStreams, s, raw, now);
  }

  lemma OwnInStep(cfg: Config, maxStreams: int, s: Sys, raw: bytes, now: real)
    requires CoversReading(cfg) && Lockstep(s, maxStreams)
    requires Step(s.interp, maxStreams, raw).record.Some?
    ensures var o := Step(s.interp, maxStreams, raw);
      var rec, sid := o.record.value, o.record.value.metadata.streamId;
      sid in o.state.contexts &&
      InStep(Buffering.Push(cfg, sid, BufferFor(s.router, sid), rec, now).buffer, o.state.contexts[sid])
  {
    hide RouterInv, Step, InStep, PushContext, PushData, WellFormed, Usable, Fits, InterpretationOf, ReadAs;
    var o := Step(s.interp, maxStreams, raw);
    var sid := o.record.value.metadata.streamId;
    RecordShape(s.interp, maxStreams, raw);
    var b := BufferFor(s.router, sid);
    match o.record.value
    case ContextRecord(_, c) =>
      ContextInStep(cfg, sid, b, Lookup(s.interp.contexts, sid), c);
    case DataRecord(md, data) =>
      var c := s.interp.contexts[sid];
      DataFits(b, c, md, data);
      SameReading(c, md);
      DataInStep(cfg, sid, b, c, md, data, now);
  }

  lemma SameReading(c: Context, md: Metadata)
    requires WellFormed(c) && Usable(c)
    requires md.dtype == c.dtype && md.isComplex == c.isComplex && md.bytesPerSample == c.bytesPerSample
    ensures md.dtype.Some? && md.bytesPerSample.Some? && Some(InterpretationOf(md)) == ReadAs(c)
  {
  }

  /** Lockstep: for every run the router has a buffer for exactly the streams the interpreter
      tracks, each under the interpreter's context for it, inert exactly when the interpreter
      withholds that stream's data, and neither the router nor any buffer drops a record. */
  lemma {:induction false} AlwaysLockstep(cfg: Config, maxStreams: int, evs: seq<Input>)
    requires CoversReading(cfg)
    ensures Lockstep(Run(cfg, maxStreams, evs), maxStreams)
  {
    hide Lockstep, Advance;
    if |evs| == 0 {
      BootLockstep(maxStreams);
    } else {
      AlwaysLockstep(cfg, maxStreams, evs[..|evs| - 1]);
      LockstepRouter(Run(cfg, maxStreams, evs[..|evs| - 1]), maxStreams);
      LockstepStep(cfg, maxStreams, Run(cfg, maxStreams, evs[..|evs| - 1]), evs[|evs| - 1]);
    }
  }

  lemma LockstepRouter(s: Sys, maxStreams: int)
    requires Lockstep(s, maxStreams)
    ensures RouterInv(s.router)
  {
    hide RouterInv;
  }

  lemma BootLockstep(maxStreams: int)
    ensures Lockstep(BOOT, maxStreams)
  {
  }

  /** In every run, data that leaves the interpreter is admitted by its buffer, can be
      latched, and is never read differently from the open window: the defensive drops, the
      failing latch and the mixed-interpretation flush are unreachable. */
  lemma DataAlwaysFits(cfg: Config, maxStreams: int, evs: seq<Input>, raw: bytes)
    requires CoversReading(cfg)
    ensures var s := Run(cfg, maxStreams, evs);
      var o := Step(s.interp, maxStreams, raw);
      o.record.Some? && o.record.value.DataRecord? ==>
        var rec := o.record.value;
        && rec.metadata.streamId in s.router.buffers
        && Fits(s.router.buffers[rec.metadata.streamId], rec.metadata, rec.data)
  {
    hide RouterInv, Step, InStep, WellFormed, Usable, Fits, Run;
    AlwaysLockstep(cfg, maxStreams, evs);
    var s := Run(cfg, maxStreams, evs);
    var o := Step(s.interp, maxStreams, raw);
    if o.record.Some? && o.record.value.DataRecord? {
      RecordShape(s.interp, maxStreams, raw);
      var md, sid := o.record.value.metadata, o.record.value.metadata.streamId;
      DataFits(s.router.buffers[sid], s.interp.contexts[sid], md, o.record.value.data);
    }
  }
}
