/** A run seen from one stream: its events, its units, and that nobody else matters. */
module Streams {
  import opened Bytes
  import opened ContextWalk
  import opened Interpreter
  import opened Buffering
  import opened Segmentation
  import opened Routing
  import opened Stack

  /** What one input means for one stream's buffer. */
  function EventsFor(s: State, maxStreams: int, e: Input, sid: nat): seq<Event> {
    match e
    case Datagram(raw, now) =>
      var rec := Step(s, maxStreams, raw).record;
      if rec.Some? && rec.value.metadata.streamId == sid then [Pushed(rec.value, now)] else []
    case Tick(clock) => [Polled(clock(sid))]
    case Finish => [Drained]
  }

  /** Everything that happens to a stream's buffer in a run. */
  function StreamEvents(maxStreams: int, evs: seq<Input>, sid: nat): seq<Event> {
    if |evs| == 0 then []
    else
      var front := evs[..|evs| - 1];
      StreamEvents(maxStreams, front, sid) + EventsFor(InterpAfter(maxStreams, front), maxStreams, evs[|evs| - 1], sid)
  }

  lemma {:induction false} RunInterp(cfg: Config, maxStreams: int, evs: seq<Input>)
    ensures Run(cfg, maxStreams, evs).interp == InterpAfter(maxStreams, evs)
  {
    hide Step, Route, Sweep, RouterInv;
    if |evs| != 0 {
      RunInterp(cfg, maxStreams, evs[..|evs| - 1]);
    }
  }

  /** Interpreter accounting over whole pipeline runs. */
  lemma RunAccounting(cfg: Config, maxStreams: int, evs: seq<Input>)
    ensures var s := Run(cfg, maxStreams, evs).interp;
      && Records(maxStreams, Datagrams(evs)) + s.errors + s.dropped == |Datagrams(evs)|
      && StateInv(s, maxStreams)
  {
    hide Run, StateInv, Records, RunAlone, InterpAfter, Datagrams;
    RunInterp(cfg, maxStreams, evs);
    InterpSeesDatagrams(maxStreams, evs);
    Accounting(maxStreams, Datagrams(evs));
  }

  lemma ReplayNothing(cfg: Config, sid: nat, evs: seq<Event>)
    ensures Replay(cfg, sid, evs + []) == Replay(cfg, sid, evs)
  {
    assert evs + [] == evs;
  }

  /** One input moves each stream exactly as its own events move a lone buffer. */
  lemma AdvanceOneStream(cfg: Config, maxStreams: int, s: Sys, e: Input, sid: nat)
    requires Lockstep(s, maxStreams) && RouterInv(s.router)
    ensures var t, own := Advance(cfg, maxStreams, s, e), EventsFor(s.interp, maxStreams, e, sid);
      |own| <= 1 &&
      var a := if own == [] then Effect(BufferFor(s.router, sid), []) else React(cfg, sid, BufferFor(s.router, sid), own[0]);
      BufferFor(t.router, sid) == a.buffer && UnitsOf(t.units, sid) == UnitsOf(s.units, sid) + a.units
  {
    hide StateInv, BufferInv, Sweep, Route, Step, InStep, UnitsOf, Push, Poll, Flush;
    match e
    case Datagram(raw, now) =>
      var o := Step(s.interp, maxStreams, raw);
      if o.record.Some? {
        HasRoom(maxStreams, s, raw);
        RouteOneStream(cfg, maxStreams, s.router, o.record.value, now, sid);
        UnitsOfConcat(s.units, Route(cfg, maxStreams, s.router, o.record.value, now).units, sid);
      }
    case Tick(clock) =>
      var event := (k: nat) => Polled(clock(k));
      FullSweep(cfg, s.router, event, sid);
      UnitsOfConcat(s.units, PollAll(cfg, s.router, clock).units, sid);
    case Finish =>
      var event := (k: nat) => Drained;
      FullSweep(cfg, s.router, event, sid);
      UnitsOfConcat(s.units, FlushAll(cfg, s.router).units, sid);
  }

  /** Demultiplexing: in every run, what a stream's buffer holds and what it has emitted is
      what a lone buffer would after that stream's events alone. */
  lemma {:induction false} Demultiplexed(cfg: Config, maxStreams: int, evs: seq<Input>, sid: nat)
    requires CoversReading(cfg)
    ensures var s, r := Run(cfg, maxStreams, evs), Replay(cfg, sid, StreamEvents(maxStreams, evs, sid));
      BufferFor(s.router, sid) == r.buffer && UnitsOf(s.units, sid) == r.units
  {
    hide Lockstep, Advance, UnitsOf, EventsFor, RouterInv, React;
    if |evs| == 0 {
      NoUnits(sid);
    } else {
      var front, e := evs[..|evs| - 1], evs[|evs| - 1];
      var s, before := Run(cfg, maxStreams, front), StreamEvents(maxStreams, front, sid);
      Demultiplexed(cfg, maxStreams, front, sid);
      AlwaysLockstep(cfg, maxStreams, front);
      RunInterp(cfg, maxStreams, front);
      AdvanceOneStream(cfg, maxStreams, s, e, sid);
      var own := EventsFor(s.interp, maxStreams, e, sid);
      if own == [] {
        ReplayNothing(cfg, sid, before);
      } else {
        assert own == [own[0]];
        ReplayStep(cfg, sid, before, own[0]);
      }
    }
  }

  // ---------- Non-interference ----------

  /** Whether an input concerns a stream: its own datagrams, and every poll and flush. */
  predicate Concerns(e: Input, sid: nat) {
    e.Datagram? ==> Addresses(e.raw, sid)
  }

  /** A run with everything but one stream's own inputs taken out. */
  function Only(evs: seq<Input>, sid: nat): seq<Input> {
    if |evs| == 0 then []
    else Only(evs[..|evs| - 1], sid) + (if Concerns(evs[|evs| - 1], sid) then [evs[|evs| - 1]] else [])
  }

  lemma {:induction false} InterpAfterInv(maxStreams: int, evs: seq<Input>)
    ensures StateInv(InterpAfter(maxStreams, evs), maxStreams)
  {
    hide StateInv, Step;
    if |evs| == 0 {
      InitialInv(maxStreams);
    } else {
      InterpAfterInv(maxStreams, evs[..|evs| - 1]);
      match evs[|evs| - 1]
      case Datagram(raw, _) => StepInv(InterpAfter(maxStreams, evs[..|evs| - 1]), maxStreams, raw);
      case _ =>
    }
  }

  lemma InterpStep(maxStreams: int, evs: seq<Input>, e: Input)
    ensures InterpAfter(maxStreams, evs + [e]) ==
      if e.Datagram? then Step(InterpAfter(maxStreams, evs), maxStreams, e.raw).state else InterpAfter(maxStreams, evs)
  {
    assert (evs + [e])[..|evs|] == evs;
  }

  /** A run of one stream's inputs tracks no other stream. */
  lemma {:induction false} OnlyOneTracked(maxStreams: int, evs: seq<Input>, sid: nat)
    ensures forall k :: k in InterpAfter(maxStreams, Only(evs, sid)).contexts ==> k == sid
  {
    hide Step, Addresses;
    if |evs| != 0 {
      var front, e := evs[..|evs| - 1], evs[|evs| - 1];
      OnlyOneTracked(maxStreams, front, sid);
      if Concerns(e, sid) {
        InterpStep(maxStreams, Only(front, sid), e);
        if e.Datagram? {
          TracksOwn(InterpAfter(maxStreams, Only(front, sid)), maxStreams, e.raw, sid);
        }
      }
      assert Only(front, sid) + [] == Only(front, sid);
    }
  }

  lemma TracksOwn(s: State, maxStreams: int, raw: bytes, sid: nat)
    requires Addresses(raw, sid)
    ensures Step(s, maxStreams, raw).state.contexts.Keys <= s.contexts.Keys + {sid}
  {
    hide ContextOf, Trim.TrimData;
  }

  lemma RoomAlone(s: State, maxStreams: int, t: State, sid: nat)
    requires !LockedOut(s, maxStreams, sid) && StateInv(s, maxStreams)
    requires forall k :: k in t.contexts ==> k == sid
    ensures !LockedOut(t, maxStreams, sid)
  {
    hide WellFormed;
    if sid in s.contexts {
      assert |s.contexts| > 0;
    }
    if sid !in t.contexts {
      assert t.contexts == map[];
    }
  }

  /** As long as a stream is not locked out, the run and its solo run agree on it. */
  lemma {:induction false} SoloAgrees(maxStreams: int, evs: seq<Input>, sid: nat)
    requires !LockedOut(InterpAfter(maxStreams, evs), maxStreams, sid)
    ensures SameStream(InterpAfter(maxStreams, evs), InterpAfter(maxStreams, Only(evs, sid)), sid)
    ensures StreamEvents(maxStreams, evs, sid) == StreamEvents(maxStreams, Only(evs, sid), sid)
  {
    hide Step, LockedOut, SameStream, Addresses, EventsFor;
    if |evs| != 0 {
      var front, e := evs[..|evs| - 1], evs[|evs| - 1];
      var s, t := InterpAfter(maxStreams, front), InterpAfter(maxStreams, Only(front, sid));
      assert evs == front + [e];
      InterpStep(maxStreams, front, e);
      if LockedOut(s, maxStreams, sid) && e.Datagram? {
        LockedOutStays(s, maxStreams, e.raw, sid);
      }
      SoloAgrees(maxStreams, front, sid);
      OnlyOneTracked(maxStreams, front, sid);
      InterpAfterInv(maxStreams, front);
      RoomAlone(s, maxStreams, t, sid);
      SoloStep(maxStreams, s, t, e, sid);
      if Concerns(e, sid) {
        InterpStep(maxStreams, Only(front, sid), e);
        StreamStep(maxStreams, Only(front, sid), e, sid);
      } else {
        assert Only(front, sid) + [] == Only(front, sid);
        assert StreamEvents(maxStreams, front, sid) + [] == StreamEvents(maxStreams, front, sid);
      }
    } else {
      SameSelf(INITIAL, sid);
    }
  }

  lemma SameSelf(s: State, sid: nat)
    ensures SameStream(s, s, sid)
  {
  }

  lemma StreamStep(maxStreams: int, evs: seq<Input>, e: Input, sid: nat)
    ensures StreamEvents(maxStreams, evs + [e], sid) ==
      StreamEvents(maxStreams, evs, sid) + EventsFor(InterpAfter(maxStreams, evs), maxStreams, e, sid)
  {
    hide EventsFor;
    assert (evs + [e])[..|evs|] == evs;
  }

  lemma SoloStep(maxStreams: int, s: State, t: State, e: Input, sid: nat)
    requires SameStream(s, t, sid) && !LockedOut(s, maxStreams, sid) && !LockedOut(t, maxStreams, sid)
    ensures var s' := if e.Datagram? then Step(s, maxStreams, e.raw).state else s;
      var t' := if e.Datagram? && Concerns(e, sid) then Step(t, maxStreams, e.raw).state else t;
      SameStream(s', t', sid)
    ensures EventsFor(s, maxStreams, e, sid) == if Concerns(e, sid) then EventsFor(t, maxStreams, e, sid) else []
  {
    hide Step, LockedOut, Addresses;
    if e.Datagram? {
      if Addresses(e.raw, sid) {
        OwnDatagram(s, t, maxStreams, e.raw, sid);
      } else {
        ForeignDatagram(s, maxStreams, e.raw, sid);
      }
    }
  }

  /** Non-interference: unless the stream limit locked it out, a stream's units and its open
      window are those of a run given only its own datagrams and the same polls, whatever
      other streams, malformed datagrams or floods were mixed in. */
  lemma NonInterference(cfg: Config, maxStreams: int, evs: seq<Input>, sid: nat)
    requires CoversReading(cfg)
    requires !LockedOut(InterpAfter(maxStreams, evs), maxStreams, sid)
    ensures var s, t := Run(cfg, maxStreams, evs), Run(cfg, maxStreams, Only(evs, sid));
      UnitsOf(s.units, sid) == UnitsOf(t.units, sid) && BufferFor(s.router, sid) == BufferFor(t.router, sid)
  {
    hide Run, StreamEvents, Replay, UnitsOf, LockedOut;
    SoloAgrees(maxStreams, evs, sid);
    Demultiplexed(cfg, maxStreams, evs, sid);
    Demultiplexed(cfg, maxStreams, Only(evs, sid), sid);
  }

  /** A solo run emits nothing but its stream's units. */
  lemma {:induction false} SoloUnits(cfg: Config, maxStreams: int, evs: seq<Input>, sid: nat)
    requires CoversReading(cfg)
    ensures UnitsOf(Run(cfg, maxStreams, Only(evs, sid)).units, sid) == Run(cfg, maxStreams, Only(evs, sid)).units
  {
    hide Lockstep, RouterInv, Sweep, Step, Route, Run, PollAll, FlushAll;
    if |evs| != 0 {
      var front, e := evs[..|evs| - 1], evs[|evs| - 1];
      SoloUnits(cfg, maxStreams, front, sid);
      assert Only(front, sid) + [] == Only(front, sid);
      if Concerns(e, sid) {
        SoloUnitsStep(cfg, maxStreams, Only(front, sid), e, front, sid);
      }
    } else {
      BootUnits(cfg, maxStreams, sid);
    }
  }

  lemma BootUnits(cfg: Config, maxStreams: int, sid: nat)
    ensures UnitsOf(Run(cfg, maxStreams, []).units, sid) == Run(cfg, maxStreams, []).units
  {
  }

  lemma RunStep(cfg: Config, maxStreams: int, evs: seq<Input>, e: Input)
    ensures Run(cfg, maxStreams, evs + [e]) == Advance(cfg, maxStreams, Run(cfg, maxStreams, evs), e)
  {
    hide Advance, RouterInv;
    assert (evs + [e])[..|evs|] == evs;
  }

  lemma SoloUnitsStep(cfg: Config, maxStreams: int, solo: seq<Input>, e: Input, front: seq<Input>, sid: nat)
    requires CoversReading(cfg) && solo == Only(front, sid) && Concerns(e, sid)
    requires UnitsOf(Run(cfg, maxStreams, solo).units, sid) == Run(cfg, maxStreams, solo).units
    ensures UnitsOf(Run(cfg, maxStreams, solo + [e]).units, sid) == Run(cfg, maxStreams, solo + [e]).units
  {
    hide StateInv, Sweep, Step, Route, Run, UnitsOf, InStep, BufferInv;
    RunStep(cfg, maxStreams, solo, e);
    AlwaysLockstep(cfg, maxStreams, solo);
    RunInterp(cfg, maxStreams, solo);
    OnlyOneTracked(maxStreams, front, sid);
    var s := Run(cfg, maxStreams, solo);
    match e
    case Datagram(raw, now) =>
      OwnDatagramTagged(s.interp, maxStreams, raw, sid);
      var o := Step(s.interp, maxStreams, raw);
      if o.record.Some? {
        RouteTagged(cfg, maxStreams, s.router, o.record.value, now);
        var r := Route(cfg, maxStreams, s.router, o.record.value, now);
        UnitsOfTagged(r.units, sid, sid);
        UnitsOfConcat(s.units, r.units, sid);
      }
    case Tick(clock) =>
      var event := (k: nat) => Polled(clock(k));
      SweepTagged(cfg, s.router, event, |s.router.order|, sid);
      UnitsOfTagged(PollAll(cfg, s.router, clock).units, sid, sid);
      UnitsOfConcat(s.units, PollAll(cfg, s.router, clock).units, sid);
    case Finish =>
      var event := (k: nat) => Drained;
      SweepTagged(cfg, s.router, event, |s.router.order|, sid);
      UnitsOfTagged(FlushAll(cfg, s.router).units, sid, sid);
      UnitsOfConcat(s.units, FlushAll(cfg, s.router).units, sid);
  }

  lemma OwnDatagramTagged(s: State, maxStreams: int, raw: bytes, sid: nat)
    requires Addresses(raw, sid)
    ensures var o := Step(s, maxStreams, raw); o.record.Some? ==> o.record.value.metadata.streamId == sid
  {
    hide ContextOf, Trim.TrimData;
  }

  lemma RouteTagged(cfg: Config, maxStreams: int, r: Router, rec: Record, now: real)
    ensures forall u :: u in Route(cfg, maxStreams, r, rec, now).units ==> u.streamId == rec.metadata.streamId
  {
    hide Push;
    var sid := rec.metadata.streamId;
    UnitsTagged(cfg, sid, BufferFor(r, sid), Pushed(rec, now));
  }

  lemma {:induction false} SweepTagged(cfg: Config, r: Router, event: nat -> Event, n: nat, sid: nat)
    requires n <= |r.order| && forall k :: k in r.order ==> k in r.buffers && k == sid
    ensures forall u :: u in Sweep(cfg, r, event, n).units ==> u.streamId == sid
  {
    hide React;
    if n != 0 {
      SweepTagged(cfg, r, event, n - 1, sid);
      var before := Sweep(cfg, r, event, n - 1);
      assert r.order[n - 1] in r.order;
      UnitsTagged(cfg, sid, before.router.buffers[sid], event(sid));
    }
  }

  /** A stream the interpreter does not track, locked out or not yet announced, has emitted
      nothing and buffers nothing. */
  lemma UntrackedSilent(cfg: Config, maxStreams: int, evs: seq<Input>, sid: nat)
    requires CoversReading(cfg)
    requires sid !in Run(cfg, maxStreams, evs).interp.contexts
    ensures UnitsOf(Run(cfg, maxStreams, evs).units, sid) == []
    ensures BufferFor(Run(cfg, maxStreams, evs).router, sid) == FRESH
  {
    hide Run, UnitsOf, Replay, StreamEvents;
    RunInterp(cfg, maxStreams, evs);
    Demultiplexed(cfg, maxStreams, evs, sid);
    UntrackedIdle(cfg, maxStreams, evs, sid);
  }

  lemma {:induction false} UntrackedIdle(cfg: Config, maxStreams: int, evs: seq<Input>, sid: nat)
    requires sid !in InterpAfter(maxStreams, evs).contexts
    ensures Replay(cfg, sid, StreamEvents(maxStreams, evs, sid)) == Effect(FRESH, [])
  {
    hide Step, React;
    if |evs| != 0 {
      var front, e := evs[..|evs| - 1], evs[|evs| - 1];
      var s := InterpAfter(maxStreams, front);
      if e.Datagram? {
        StepAccounts(s, maxStreams, e.raw);
        SilentStep(maxStreams, front, e, sid);
      }
      UntrackedIdle(cfg, maxStreams, front, sid);
      var before, own := StreamEvents(maxStreams, front, sid), EventsFor(s, maxStreams, e, sid);
      if own == [] {
        assert before + [] == before;
      } else {
        ReplayStep(cfg, sid, before, own[0]);
        FreshIdle(cfg, sid, own[0]);
      }
    }
  }

  lemma SilentStep(maxStreams: int, front: seq<Input>, e: Input, sid: nat)
    requires e.Datagram? && sid !in Step(InterpAfter(maxStreams, front), maxStreams, e.raw).state.contexts
    ensures EventsFor(InterpAfter(maxStreams, front), maxStreams, e, sid) == []
  {
    hide Step;
    var s := InterpAfter(maxStreams, front);
    InterpAfterInv(maxStreams, front);
    if Step(s, maxStreams, e.raw).record.Some? {
      RecordShape(s, maxStreams, e.raw);
    }
  }

  // ---------- Age ----------

  /** After a poll no stream, however many there are, holds a window as old as the limit. */
  lemma NoOldWindows(cfg: Config, maxStreams: int, evs: seq<Input>, clock: nat -> real, sid: nat)
    requires CoversReading(cfg)
    ensures var b := BufferFor(Run(cfg, maxStreams, evs + [Tick(clock)]).router, sid);
      b.chunks != [] ==> b.firstArrival.Some? && clock(sid) - b.firstArrival.value < cfg.maxAge
  {
    hide Run, BufferInv, Replay, StreamEvents, InterpAfter;
    Demultiplexed(cfg, maxStreams, evs + [Tick(clock)], sid);
    StreamStep(maxStreams, evs, Tick(clock), sid);
    var before := StreamEvents(maxStreams, evs, sid);
    ReplayStep(cfg, sid, before, Polled(clock(sid)));
    ReplaySound(cfg, sid, before);
    PollSound(cfg, sid, Replay(cfg, sid, before).buffer, clock(sid));
    OpenHasArrival(Poll(cfg, sid, Replay(cfg, sid, before).buffer, clock(sid)).buffer);
  }

  lemma OpenHasArrival(b: Buffer)
    requires BufferInv(b)
    ensures b.chunks != [] ==> b.firstArrival.Some?
  {
  }
}
