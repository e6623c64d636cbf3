/** Gap-free windows: mod-16 packet counters are enough to keep every window a run of
    consecutive packets, as long as no jump, forwards or backwards, is one that a counter
    mod 16 cannot tell from the next packet. */
module Contiguity {
  import opened Bytes
  import opened Header
  import opened ContextWalk
  import opened Interpreter
  import opened Buffering
  import opened Segmentation
  import opened Routing
  import opened Stack
  import opened Streams
  import opened WindowLaws

  predicate CarriesData(e: Event) {
    e.Pushed? && e.record.DataRecord?
  }

  function CounterOf(e: Event): nat
    requires CarriesData(e)
  {
    e.record.metadata.counter
  }

  /** The position of the last data event, or -1. */
  function LastData(evs: seq<Event>): (j: int)
    ensures -1 <= j < |evs| && (0 <= j ==> CarriesData(evs[j]))
    ensures forall k :: j < k < |evs| ==> !CarriesData(evs[k])
  {
    if |evs| == 0 then -1
    else if CarriesData(evs[|evs| - 1]) then |evs| - 1
    else LastData(evs[..|evs| - 1])
  }

  function LastCounter(evs: seq<Event>): Option<nat> {
    if LastData(evs) < 0 then None else Some(CounterOf(evs[LastData(evs)]))
  }

  /** A data event of a stream: its gap flag compares its counter with that of the data
      event before it, and its buffer admits it and can latch it. */
  predicate WellFlagged(evs: seq<Event>, k: nat)
    requires k < |evs|
  {
    CarriesData(evs[k]) ==>
      && evs[k].record.metadata.gapBefore == CounterGap(LastCounter(evs[..k]), CounterOf(evs[k]))
      && Admits(ContextAfter(evs[..k]), evs[k].record.metadata, evs[k].record.data)
      && InterpretationOf(evs[k].record.metadata).Convertible()
  }

  predicate AllFlagged(evs: seq<Event>) {
    forall k :: 0 <= k < |evs| ==> WellFlagged(evs, k)
  }

  /** The interpreter's memory of a stream is what the stream's events say. */
  predicate Remembers(s: State, sid: nat, evs: seq<Event>) {
    && Lookup(s.contexts, sid) == ContextAfter(evs)
    && Lookup(s.lastCounter, sid) == LastCounter(evs)
    && AllFlagged(evs)
  }

  lemma FlaggedAppend(evs: seq<Event>, e: Event)
    requires AllFlagged(evs)
    requires CarriesData(e) ==>
      && e.record.metadata.gapBefore == CounterGap(LastCounter(evs), CounterOf(e))
      && Admits(ContextAfter(evs), e.record.metadata, e.record.data)
      && InterpretationOf(e.record.metadata).Convertible()
    ensures AllFlagged(evs + [e])
    ensures LastCounter(evs + [e]) == if CarriesData(e) then Some(CounterOf(e)) else LastCounter(evs)
  {
    hide Admits, CounterGap, ContextAfter;
    var all := evs + [e];
    assert all[..|evs|] == evs;
    forall k | 0 <= k < |all|
      ensures WellFlagged(all, k)
    {
      if k < |evs| {
        assert all[..k] == evs[..k] && all[k] == evs[k];
        assert WellFlagged(evs, k);
      }
    }
  }

  lemma AdmittedByContext(c: Context, md: Metadata, data: bytes)
    requires WellFormed(c) && Usable(c)
    requires md.dtype == c.dtype && md.isComplex == c.isComplex && md.bytesPerSample == c.bytesPerSample
    requires md.bytesPerSample.value != 0 && |data| % md.bytesPerSample.value == 0
    ensures Admits(Some(c), md, data) && InterpretationOf(md).Convertible()
  {
  }

  lemma {:induction false} StreamRemembered(maxStreams: int, evs: seq<Input>, sid: nat)
    ensures Remembers(InterpAfter(maxStreams, evs), sid, StreamEvents(maxStreams, evs, sid))
  {
    hide Step, EventsFor, Remembers;
    if |evs| == 0 {
      NothingRemembered(sid);
    } else {
      var front, e := evs[..|evs| - 1], evs[|evs| - 1];
      var before, s := StreamEvents(maxStreams, front, sid), InterpAfter(maxStreams, front);
      StreamRemembered(maxStreams, front, sid);
      InterpAfterInv(maxStreams, front);
      RememberStep(maxStreams, s, e, sid, before);
    }
  }

  lemma NothingRemembered(sid: nat)
    ensures Remembers(INITIAL, sid, [])
  {
  }

  lemma RememberStep(maxStreams: int, s: State, e: Input, sid: nat, before: seq<Event>)
    requires StateInv(s, maxStreams) && Remembers(s, sid, before)
    ensures var s' := if e.Datagram? then Step(s, maxStreams, e.raw).state else s;
      Remembers(s', sid, before + EventsFor(s, maxStreams, e, sid))
  {
    hide Step, StateInv, AllFlagged, LastCounter, ContextAfter, Admits, WellFormed, Usable, CounterGap;
    var own := EventsFor(s, maxStreams, e, sid);
    if own == [] {
      assert before + own == before;
      if e.Datagram? {
        OthersRecord(s, maxStreams, e.raw, sid);
      }
    } else {
      var b := own[0];
      ChunksGrow(before, b);
      if e.Datagram? {
        RecordShape(s, maxStreams, e.raw);
        match b.record
        case ContextRecord(_, c) =>
          ContextKeepsCounters(s, maxStreams, e.raw);
        case DataRecord(md, data) =>
          AdmittedByContext(s.contexts[sid], md, data);
      }
      FlaggedAppend(before, b);
    }
  }

  lemma ContextKeepsCounters(s: State, maxStreams: int, raw: bytes)
    ensures var o := Step(s, maxStreams, raw);
      o.record.Some? && o.record.value.ContextRecord? ==> o.state.lastCounter == s.lastCounter
  {
    hide HeaderOf, ContextOf, Trim.TrimData;
  }

  /** Without a record of its own a stream is remembered as before. */
  lemma OthersRecord(s: State, maxStreams: int, raw: bytes, sid: nat)
    requires var o := Step(s, maxStreams, raw); o.record.Some? ==> o.record.value.metadata.streamId != sid
    ensures var t := Step(s, maxStreams, raw).state;
      Lookup(t.contexts, sid) == Lookup(s.contexts, sid) && Lookup(t.lastCounter, sid) == Lookup(s.lastCounter, sid)
  {
    hide Step, HeaderOf;
    var o := Step(s, maxStreams, raw);
    if o.record.None? {
      StepAccounts(s, maxStreams, raw);
    } else {
      RecordAddresses(s, maxStreams, raw);
      ForeignDatagram(s, maxStreams, raw, sid);
    }
  }

  // ---------- Numbers ----------

  /** A sender that numbers a stream's data packets and sends each number mod 16. */
  predicate Numbered(evs: seq<Event>, nums: seq<nat>) {
    && |nums| == |evs|
    && forall k :: 0 <= k < |evs| && CarriesData(evs[k]) ==> CounterOf(evs[k]) == nums[k] % 16
  }

  /** The gap flag misses exactly the jumps past a multiple of sixteen packets. */
  lemma GapFlagExact(last: nat, next: nat)
    ensures CounterGap(Some(last % 16), next % 16) <==> (next - last - 1) % 16 != 0
  {
  }

  /** So sixteen missing packets in a row go unnoticed. */
  lemma SixteenMissingUnseen(last: nat)
    ensures !CounterGap(Some(last % 16), (last + 17) % 16)
  {
  }

  /** And so does a packet that arrives sixteen positions late. */
  lemma SixteenLateUnseen(last: nat)
    requires 15 <= last
    ensures !CounterGap(Some(last % 16), (last - 15) % 16)
  {
  }

  /** How many packets are missing between data event `k` and the one before it; negative
      for a packet that is repeated or late. */
  function Missing(evs: seq<Event>, nums: seq<nat>, k: nat): int
    requires |nums| == |evs| && k < |evs| && 0 <= LastData(evs[..k])
  {
    var last: int, next: int := nums[LastData(evs[..k])], nums[k];
    next - last - 1
  }

  /** Whether every data event in (a, b] carries the successor of the number before it. */
  predicate Consecutive(evs: seq<Event>, nums: seq<nat>, a: nat, b: nat)
    requires |nums| == |evs| && b < |evs|
  {
    forall k :: a < k <= b && CarriesData(evs[k]) && 0 <= LastData(evs[..k]) ==> Missing(evs, nums, k) == 0
  }

  /** Whether what is missing before data event `k` looks like nothing mod 16, but is not. */
  predicate Aliased(evs: seq<Event>, nums: seq<nat>, k: nat)
    requires |nums| == |evs| && k < |evs| && 0 <= LastData(evs[..k])
  {
    Missing(evs, nums, k) != 0 && Missing(evs, nums, k) % 16 == 0
  }

  /** Whether no data event in (a, b] jumps past a positive multiple of sixteen numbers, or
      back by one less than such a multiple. */
  predicate NoAliasedJump(evs: seq<Event>, nums: seq<nat>, a: nat, b: nat)
    requires |nums| == |evs| && b < |evs|
  {
    forall k :: a < k <= b && CarriesData(evs[k]) && 0 <= LastData(evs[..k]) ==> !Aliased(evs, nums, k)
  }

  /** The same over a whole stream, however its packets were lost, repeated or reordered. */
  predicate NeverAliased(evs: seq<Event>, nums: seq<nat>)
    requires |nums| == |evs|
  {
    forall k :: 0 <= k < |evs| && CarriesData(evs[k]) && 0 <= LastData(evs[..k]) ==> !Aliased(evs, nums, k)
  }

  /** Fewer than sixteen packets missing in a row, and none sixteen or more positions late. */
  predicate SmallJumps(evs: seq<Event>, nums: seq<nat>)
    requires |nums| == |evs|
  {
    forall k :: 0 <= k < |evs| && CarriesData(evs[k]) && 0 <= LastData(evs[..k]) ==> -16 < Missing(evs, nums, k) < 16
  }

  /** Whether every data event in (a, b] follows the one before it, up to multiples of sixteen. */
  predicate ConsecutiveMod16(evs: seq<Event>, nums: seq<nat>, a: nat, b: nat)
    requires |nums| == |evs| && b < |evs|
  {
    forall k :: a < k <= b && CarriesData(evs[k]) && 0 <= LastData(evs[..k]) ==> Missing(evs, nums, k) % 16 == 0
  }

  /** The data bodies of an event list, empty ones included, joined. */
  function Bodies(evs: seq<Event>): bytes {
    if |evs| == 0 then []
    else Bodies(evs[..|evs| - 1]) + (if CarriesData(evs[|evs| - 1]) then evs[|evs| - 1].record.data else [])
  }

  lemma {:induction false} BodiesConcat(a: seq<Event>, b: seq<Event>)
    ensures Bodies(a + b) == Bodies(a) + Bodies(b)
  {
    if |b| == 0 {
      assert a + b == a;
    } else {
      assert (a + b)[..|a + b| - 1] == a + b[..|b| - 1];
      BodiesConcat(a, b[..|b| - 1]);
    }
  }

  lemma FlaggedPrefix(evs: seq<Event>, n: nat)
    requires AllFlagged(evs) && n <= |evs|
    ensures AllFlagged(evs[..n])
  {
    hide Admits, CounterGap, ContextAfter, LastCounter;
    forall k | 0 <= k < n
      ensures WellFlagged(evs[..n], k)
    {
      assert evs[..n][..k] == evs[..k] && evs[..n][k] == evs[k];
      assert WellFlagged(evs, k);
    }
  }

  /** Every body of a stream is a chunk, unless it is empty. */
  lemma {:induction false} ChunksAreBodies(evs: seq<Event>)
    requires AllFlagged(evs)
    ensures Join(Datas(Chunks(evs))) == Bodies(evs)
  {
    hide Admits, CounterGap, ContextAfter, LastCounter, Join;
    if |evs| == 0 {
      JoinNothing();
    } else {
      var front, e := evs[..|evs| - 1], evs[|evs| - 1];
      FlaggedPrefix(evs, |evs| - 1);
      ChunksAreBodies(front);
      assert WellFlagged(evs, |evs| - 1);
      DatasConcat(Chunks(front), NewChunks(front, e));
      JoinConcat(Datas(Chunks(front)), Datas(NewChunks(front, e)));
      NewBody(front, e);
    }
  }

  lemma JoinNothing()
    ensures Join(Datas([])) == []
  {
  }

  lemma NewBody(front: seq<Event>, e: Event)
    requires CarriesData(e) ==> Admits(ContextAfter(front), e.record.metadata, e.record.data) && InterpretationOf(e.record.metadata).Convertible()
    ensures Join(Datas(NewChunks(front, e))) == if CarriesData(e) then e.record.data else []
  {
    hide Admits, ContextAfter;
    JoinNothing();
    if CarriesData(e) {
      JoinOne(e.record.data);
      assert NewChunks(front, e) != [] ==> Datas(NewChunks(front, e)) == [e.record.data];
    }
  }

  /** The chunks of a prefix of the events are a prefix of the chunks. */
  lemma {:induction false} ChunksPrefix(evs: seq<Event>, p: nat)
    requires p < |Chunks(evs)|
    ensures Chunks(evs[..Chunks(evs)[p].at]) == Chunks(evs)[..p]
    ensures Chunks(evs[..Chunks(evs)[p].at + 1]) == Chunks(evs)[..p + 1]
  {
    hide Chunks, NewChunks;
    var front, e := evs[..|evs| - 1], evs[|evs| - 1];
    assert evs == front + [e];
    ChunksGrow(front, e);
    OneChunk(front, e);
    if p < |Chunks(front)| {
      ChunksPrefix(front, p);
      var at := Chunks(front)[p].at;
      assert evs[..at] == front[..at] && evs[..at + 1] == front[..at + 1];
      assert Chunks(evs)[..p] == Chunks(front)[..p] && Chunks(evs)[..p + 1] == Chunks(front)[..p + 1];
    } else {
      assert evs[..|front|] == front && evs[..|front| + 1] == evs;
      assert Chunks(evs)[..p] == Chunks(front) && Chunks(evs)[..p + 1] == Chunks(evs);
    }
  }

  lemma OneChunk(front: seq<Event>, e: Event)
    ensures |NewChunks(front, e)| <= 1
    ensures NewChunks(front, e) != [] ==> NewChunks(front, e)[0].at == |front|
  {
  }

  /** The bytes of a window are the bodies of all events from its first chunk to its last. */
  lemma WindowBodies(evs: seq<Event>, lo: nat, hi: nat)
    requires AllFlagged(evs) && lo < hi <= |Chunks(evs)|
    ensures Chunks(evs)[lo].at <= Chunks(evs)[hi - 1].at < |evs|
    ensures Join(Datas(Chunks(evs)[lo..hi])) == Bodies(evs[Chunks(evs)[lo].at..Chunks(evs)[hi - 1].at + 1])
  {
    hide AllFlagged, Join, Bodies, Datas, Chunks;
    var cs := Chunks(evs);
    var a, b := cs[lo].at, cs[hi - 1].at;
    assert lo < hi - 1 ==> a < b;
    ChunksPrefix(evs, lo);
    ChunksPrefix(evs, hi - 1);
    FlaggedPrefix(evs, a);
    FlaggedPrefix(evs, b + 1);
    ChunksAreBodies(evs[..a]);
    ChunksAreBodies(evs[..b + 1]);
    assert evs[..b + 1] == evs[..a] + evs[a..b + 1];
    BodiesConcat(evs[..a], evs[a..b + 1]);
    DatasSplit(cs, lo, hi);
    SameTail(Join(Datas(cs[..lo])), Join(Datas(cs[lo..hi])), Bodies(evs[a..b + 1]));
  }

  lemma SameTail(x: bytes, y: bytes, z: bytes)
    requires x + y == x + z
    ensures y == z
  {
    assert (x + y)[|x|..] == y && (x + z)[|x|..] == z;
  }

  /** Inside a window every data event, empty or not, follows the one before it up to a
      multiple of sixteen, whatever was lost, repeated or reordered. */
  lemma WindowNumbers(cfg: Config, evs: seq<Event>, nums: seq<nat>, w: Window)
    requires AllFlagged(evs) && Numbered(evs, nums) && Cut(cfg, evs, w)
    ensures var a, b := Chunks(evs)[w.lo].at, Chunks(evs)[w.hi - 1].at;
      a <= b < |evs| && ConsecutiveMod16(evs, nums, a, b)
  {
    hide Chunks, Ends, GoesOn, Quiet, Samples, AllFlagged, CounterGap, Admits, ContextAfter, LastData;
    var a, b := Chunks(evs)[w.lo].at, Chunks(evs)[w.hi - 1].at;
    forall k | a < k <= b && CarriesData(evs[k]) && 0 <= LastData(evs[..k])
      ensures Missing(evs, nums, k) % 16 == 0
    {
      InsideCongruent(cfg, evs, nums, w, k);
    }
  }

  lemma InsideCongruent(cfg: Config, evs: seq<Event>, nums: seq<nat>, w: Window, k: nat)
    requires AllFlagged(evs) && Numbered(evs, nums) && Cut(cfg, evs, w)
    requires Chunks(evs)[w.lo].at < k <= Chunks(evs)[w.hi - 1].at
    requires k < |evs| && CarriesData(evs[k]) && 0 <= LastData(evs[..k])
    ensures Missing(evs, nums, k) % 16 == 0
  {
    hide Chunks, Ends, GoesOn, Quiet, Samples, CounterGap, Admits, ContextAfter, Cut, Missing;
    WindowClosing(cfg, evs, w);
    assert WellFlagged(evs, k);
    NoGapInside(cfg, evs, w, k);
    FlagMissing(evs, nums, k);
  }

  /** A well-flagged data event shows no gap exactly when what is missing before it is a
      multiple of sixteen. */
  lemma FlagMissing(evs: seq<Event>, nums: seq<nat>, k: nat)
    requires Numbered(evs, nums) && k < |evs| && CarriesData(evs[k]) && WellFlagged(evs, k)
    requires 0 <= LastData(evs[..k])
    ensures !evs[k].record.metadata.gapBefore <==> Missing(evs, nums, k) % 16 == 0
  {
    hide CounterGap, Admits, ContextAfter;
    var j := LastData(evs[..k]);
    assert evs[..k][j] == evs[j];
    GapFlagExact(nums[j], nums[k]);
  }

  /** A unit made of the bodies of all packets from event `a` to event `b`. */
  predicate IsSpan(evs: seq<Event>, a: nat, b: nat, u: Unit) {
    a <= b < |evs| && u.raw == Bodies(evs[a..b + 1])
  }

  /** A span of consecutive packets, up to multiples of sixteen. */
  predicate IsCounterRun(evs: seq<Event>, nums: seq<nat>, a: nat, b: nat, u: Unit)
    requires |nums| == |evs|
  {
    IsSpan(evs, a, b, u) && ConsecutiveMod16(evs, nums, a, b)
  }

  /** A span of consecutive packets. */
  predicate IsPacketRun(evs: seq<Event>, nums: seq<nat>, a: nat, b: nat, u: Unit)
    requires |nums| == |evs|
  {
    IsSpan(evs, a, b, u) && Consecutive(evs, nums, a, b)
  }

  lemma WindowIsCounterRun(cfg: Config, sid: nat, evs: seq<Event>, nums: seq<nat>, w: Window)
    requires AllFlagged(evs) && Numbered(evs, nums) && Cut(cfg, evs, w)
    ensures w.lo < w.hi <= |Chunks(evs)| && w.at < |evs|
    ensures IsCounterRun(evs, nums, Chunks(evs)[w.lo].at, Chunks(evs)[w.hi - 1].at, WindowUnit(sid, evs, w))
  {
    hide Chunks, Cut, ConsecutiveMod16, Bodies, AllFlagged, Samples, Join, Datas, ContextAfter;
    WindowNumbers(cfg, evs, nums, w);
    WindowClosing(cfg, evs, w);
    WindowBodies(evs, w.lo, w.hi);
  }

  /** Whatever is lost, repeated or reordered: in every run each emitted unit is exactly the
      bodies of a span of the stream's packets, empty packets included, inside which every
      packet follows the one before it up to a multiple of sixteen. */
  lemma UnitsAreCounterRuns(cfg: Config, maxStreams: int, evs: seq<Input>, sid: nat, nums: seq<nat>)
    requires CoversReading(cfg) && Numbered(StreamEvents(maxStreams, evs, sid), nums)
    ensures forall u :: u in UnitsOf(Run(cfg, maxStreams, evs).units, sid) ==>
      exists a, b :: IsCounterRun(StreamEvents(maxStreams, evs, sid), nums, a, b, u)
  {
    hide Run, Replay, Windows, Chunks, Cut, AllFlagged, StreamEvents, UnitsOf, IsCounterRun, WindowUnit;
    var own := StreamEvents(maxStreams, evs, sid);
    var ws := Windows(cfg, own);
    Demultiplexed(cfg, maxStreams, evs, sid);
    StreamRemembered(maxStreams, evs, sid);
    RememberedFlags(InterpAfter(maxStreams, evs), sid, own);
    WindowsAreCorrect(cfg, own);
    BufferRefinesSegmentation(cfg, sid, own);
    forall i | 0 <= i < |ws|
      ensures exists a, b :: IsCounterRun(own, nums, a, b, WindowUnits(sid, own, ws)[i])
    {
      CutOf(cfg, own, ws, i);
      WindowIsCounterRun(cfg, sid, own, nums, ws[i]);
      var cs, w := Chunks(own), ws[i];
      assert WindowUnits(sid, own, ws)[i] == WindowUnit(sid, own, w);
      assert IsCounterRun(own, nums, cs[w.lo].at, cs[w.hi - 1].at, WindowUnits(sid, own, ws)[i]);
    }
  }

  /** A span that the counters show without a gap is a run of consecutive packets exactly
      when no jump inside it is aliased. */
  lemma CounterRunIsPacketRun(evs: seq<Event>, nums: seq<nat>, a: nat, b: nat, u: Unit)
    requires |nums| == |evs| && IsCounterRun(evs, nums, a, b, u)
    ensures IsPacketRun(evs, nums, a, b, u) <==> NoAliasedJump(evs, nums, a, b)
  {
    hide LastData;
  }

  /** Gap-free windows, for every run: if no packet of a stream jumps by an aliased distance,
      each emitted unit is exactly the bodies of a run of consecutive packets. */
  lemma GapFreeWindows(cfg: Config, maxStreams: int, evs: seq<Input>, sid: nat, nums: seq<nat>)
    requires CoversReading(cfg)
    requires Numbered(StreamEvents(maxStreams, evs, sid), nums) && NeverAliased(StreamEvents(maxStreams, evs, sid), nums)
    ensures forall u :: u in UnitsOf(Run(cfg, maxStreams, evs).units, sid) ==>
      exists a, b :: IsPacketRun(StreamEvents(maxStreams, evs, sid), nums, a, b, u)
  {
    hide Run, StreamEvents, UnitsOf, IsCounterRun, IsPacketRun, NeverAliased;
    var own, us := StreamEvents(maxStreams, evs, sid), UnitsOf(Run(cfg, maxStreams, evs).units, sid);
    UnitsAreCounterRuns(cfg, maxStreams, evs, sid, nums);
    forall u | u in us
      ensures exists a, b :: IsPacketRun(own, nums, a, b, u)
    {
      var a, b :| IsCounterRun(own, nums, a, b, u);
      UnaliasedRun(own, nums, a, b, u);
    }
  }

  lemma UnaliasedRun(evs: seq<Event>, nums: seq<nat>, a: nat, b: nat, u: Unit)
    requires |nums| == |evs| && IsCounterRun(evs, nums, a, b, u) && NeverAliased(evs, nums)
    ensures IsPacketRun(evs, nums, a, b, u)
  {
    hide LastData, Aliased;
    CounterRunIsPacketRun(evs, nums, a, b, u);
  }

  /** Fewer than sixteen packets missing in a row, repeats, and packets fewer than sixteen
      positions late are all harmless. */
  lemma GapFreeUnderSmallJumps(cfg: Config, maxStreams: int, evs: seq<Input>, sid: nat, nums: seq<nat>)
    requires CoversReading(cfg)
    requires Numbered(StreamEvents(maxStreams, evs, sid), nums) && SmallJumps(StreamEvents(maxStreams, evs, sid), nums)
    ensures forall u :: u in UnitsOf(Run(cfg, maxStreams, evs).units, sid) ==>
      exists a, b :: IsPacketRun(StreamEvents(maxStreams, evs, sid), nums, a, b, u)
  {
    hide Run, StreamEvents, UnitsOf, IsPacketRun, SmallJumps, NeverAliased;
    SmallIsUnaliased(StreamEvents(maxStreams, evs, sid), nums);
    GapFreeWindows(cfg, maxStreams, evs, sid, nums);
  }

  lemma SmallIsUnaliased(evs: seq<Event>, nums: seq<nat>)
    requires |nums| == |evs| && SmallJumps(evs, nums)
    ensures NeverAliased(evs, nums)
  {
    hide LastData;
  }

  lemma RememberedFlags(s: State, sid: nat, evs: seq<Event>)
    requires Remembers(s, sid, evs)
    ensures AllFlagged(evs)
  {
    hide AllFlagged;
  }

  lemma CutOf(cfg: Config, evs: seq<Event>, ws: seq<Window>, i: nat)
    requires IsSegmentation(cfg, evs, ws) && i < |ws|
    ensures Cut(cfg, evs, ws[i])
  {
    hide Cut, GoesOn, Chunks;
  }
}
