/** Which windows a stream's buffer emits, said without the buffer: an event list is cut
    into windows by what the events are, and the buffer's units are exactly those windows. */
module Segmentation {
  import opened Bytes
  import opened ContextWalk
  import opened Interpreter
  import opened Buffering

  /** What can happen to one buffer: a record, an age poll, a final flush. */
  datatype Event = Pushed(record: Record, now: real) | Polled(now: real) | Drained

  function React(cfg: Config, sid: nat, s: Buffer, e: Event): Effect {
    match e
    case Pushed(rec, now) => Push(cfg, sid, s, rec, now)
    case Polled(now) => Poll(cfg, sid, s, now)
    case Drained => Flush(sid, s)
  }

  /** The buffer after an event list, and every unit it emitted, in order. */
  function Replay(cfg: Config, sid: nat, evs: seq<Event>): Effect {
    if |evs| == 0 then Effect(FRESH, [])
    else
      var before := Replay(cfg, sid, evs[..|evs| - 1]);
      var last := React(cfg, sid, before.buffer, evs[|evs| - 1]);
      Effect(last.buffer, before.units + last.units)
  }

  lemma ReplayStep(cfg: Config, sid: nat, evs: seq<Event>, e: Event)
    ensures var before, after := Replay(cfg, sid, evs), Replay(cfg, sid, evs + [e]);
      var a := React(cfg, sid, before.buffer, e);
      after == Effect(a.buffer, before.units + a.units)
  {
    hide React;
    assert (evs + [e])[..|evs|] == evs;
  }

  // ---------- The windows, declaratively ----------

  /** The latest context an event list adopts. */
  function ContextAfter(evs: seq<Event>): Option<Context> {
    if |evs| == 0 then None
    else
      match evs[|evs| - 1]
      case Pushed(ContextRecord(_, ctx), _) => Some(ctx)
      case _ => ContextAfter(evs[..|evs| - 1])
  }

  /** Data that a stream takes notice of under a context. */
  predicate Admits(ctx: Option<Context>, md: Metadata, data: bytes) {
    ctx.Some? && !InertContext(ctx.value) && UsableData(md, data)
  }

  /** Data that ends up in a window. */
  predicate Accepts(ctx: Option<Context>, md: Metadata, data: bytes) {
    Admits(ctx, md, data) && data != [] && InterpretationOf(md).Convertible()
  }

  /** An accepted data body, with the position of its event. */
  datatype Chunk = Chunk(at: nat, interpretation: Interpretation, timestamp: real, arrival: real, data: bytes)

  function NewChunks(evs: seq<Event>, e: Event): seq<Chunk> {
    match e
    case Pushed(DataRecord(md, data), now) =>
      if Accepts(ContextAfter(evs), md, data)
      then [Chunk(|evs|, InterpretationOf(md), md.timestamp, now, data)]
      else []
    case _ => []
  }

  /** All accepted data of an event list, in arrival order. */
  function Chunks(evs: seq<Event>): (cs: seq<Chunk>)
    ensures forall i :: 0 <= i < |cs| ==> cs[i].at < |evs| && cs[i].data != []
    ensures forall i :: 0 <= i < |cs| ==> cs[i].interpretation.Convertible() && 0 < cs[i].interpretation.bytesPerSample
    ensures forall i, j :: 0 <= i < j < |cs| ==> cs[i].at < cs[j].at
  {
    if |evs| == 0 then [] else Chunks(evs[..|evs| - 1]) + NewChunks(evs[..|evs| - 1], evs[|evs| - 1])
  }

  function Samples(cs: seq<Chunk>): nat
    requires forall i :: 0 <= i < |cs| ==> 0 < cs[i].interpretation.bytesPerSample
  {
    if |cs| == 0 then 0
    else Samples(cs[..|cs| - 1]) + |cs[|cs| - 1].data| / cs[|cs| - 1].interpretation.bytesPerSample
  }

  function Datas(cs: seq<Chunk>): (ds: seq<bytes>)
    ensures |ds| == |cs|
  {
    seq(|cs|, i requires 0 <= i < |cs| => cs[i].data)
  }

  /** Whether event `k` ends a window opened by chunk `opener`: a context that changes the
      flush identity; admitted data after a counter gap, or read differently; a poll that
      finds the window too old; a final flush. Nothing else does. */
  predicate Ends(cfg: Config, evs: seq<Event>, k: nat, opener: Chunk)
    requires k < |evs|
  {
    match evs[k]
    case Pushed(ContextRecord(_, ctx), _) => Differs(cfg.flushFields, ContextAfter(evs[..k]), ctx)
    case Pushed(DataRecord(md, data), _) =>
      Admits(ContextAfter(evs[..k]), md, data) && (md.gapBefore || InterpretationOf(md) != opener.interpretation)
    case Polled(now) => now - opener.arrival >= cfg.maxAge
    case Drained => true
  }

  /** Chunks `lo` to `hi`, closed by event `at`. */
  datatype Window = Window(lo: nat, hi: nat, at: nat)

  /** One past the last event that can end a window after chunk `p`. */
  function Horizon(evs: seq<Event>, p: nat): nat
    requires p < |Chunks(evs)|
  {
    if p + 1 < |Chunks(evs)| then Chunks(evs)[p + 1].at + 1 else |evs|
  }

  /** No event ends the window opened by chunk `lo` from chunk `p` until `limit`. */
  predicate Quiet(cfg: Config, evs: seq<Event>, lo: nat, p: nat, limit: nat)
    requires lo <= p < |Chunks(evs)| && limit <= |evs|
  {
    forall k :: Chunks(evs)[p].at < k < limit ==> !Ends(cfg, evs, k, Chunks(evs)[lo])
  }

  /** The window opened by chunk `lo` stays open between chunk `p` and the next one. */
  predicate GoesOn(cfg: Config, evs: seq<Event>, lo: nat, p: nat)
    requires lo <= p < |Chunks(evs)|
  {
    Samples(Chunks(evs)[lo..p + 1]) < cfg.maxSamples && Quiet(cfg, evs, lo, p, Horizon(evs, p))
  }

  /** A window that was cut for a reason, at the first reason, and not before. */
  predicate Cut(cfg: Config, evs: seq<Event>, w: Window) {
    && w.lo < w.hi <= |Chunks(evs)|
    && (forall p :: w.lo <= p < w.hi - 1 ==> GoesOn(cfg, evs, w.lo, p))
    && (if Samples(Chunks(evs)[w.lo..w.hi]) >= cfg.maxSamples
        then w.at == Chunks(evs)[w.hi - 1].at
        else
          && Chunks(evs)[w.hi - 1].at < w.at < Horizon(evs, w.hi - 1)
          && Ends(cfg, evs, w.at, Chunks(evs)[w.lo])
          && Quiet(cfg, evs, w.lo, w.hi - 1, w.at))
  }

  /** Where the open window starts, after the closed ones. */
  function OpenAt(ws: seq<Window>): nat {
    if |ws| == 0 then 0 else ws[|ws| - 1].hi
  }

  /** The windows follow one another without a gap, from the first chunk on. */
  predicate Tiled(ws: seq<Window>) {
    forall i :: 0 <= i < |ws| ==> ws[i].lo == OpenAt(ws[..i])
  }

  /** Every closed window was cut correctly, and the rest is one window still open. */
  predicate IsSegmentation(cfg: Config, evs: seq<Event>, ws: seq<Window>) {
    && Tiled(ws)
    && OpenAt(ws) <= |Chunks(evs)|
    && (forall i :: 0 <= i < |ws| ==> Cut(cfg, evs, ws[i]))
    && (forall p :: OpenAt(ws) <= p < |Chunks(evs)| ==> GoesOn(cfg, evs, OpenAt(ws), p))
  }

  /** The unit a window stands for: its bodies joined, labelled with the context in force
      when it was closed, stamped by its first chunk. */
  function WindowUnit(sid: nat, evs: seq<Event>, w: Window): Unit
    requires w.lo < w.hi <= |Chunks(evs)| && w.at <= |evs|
  {
    var cs := Chunks(evs)[w.lo..w.hi];
    Unit(Join(Datas(cs)), Samples(cs), ContextAfter(evs[..w.at]), Some(cs[0].timestamp), Samples(cs), sid, Some(cs[0].interpretation))
  }

  predicate InRange(evs: seq<Event>, ws: seq<Window>) {
    forall i :: 0 <= i < |ws| ==> ws[i].lo < ws[i].hi <= |Chunks(evs)| && ws[i].at < |evs|
  }

  function WindowUnits(sid: nat, evs: seq<Event>, ws: seq<Window>): (us: seq<Unit>)
    requires InRange(evs, ws)
    ensures |us| == |ws|
  {
    seq(|ws|, i requires 0 <= i < |ws| => WindowUnit(sid, evs, ws[i]))
  }

  // ---------- One more event ----------

  lemma ChunksGrow(evs: seq<Event>, e: Event)
    ensures Chunks(evs + [e]) == Chunks(evs) + NewChunks(evs, e)
    ensures ContextAfter(evs + [e]) == match e case Pushed(ContextRecord(_, ctx), _) => Some(ctx) case _ => ContextAfter(evs)
  {
    assert (evs + [e])[..|evs|] == evs;
  }

  /** Past events end windows just as they did before. */
  lemma EndsStable(cfg: Config, evs: seq<Event>, e: Event, k: nat, opener: Chunk)
    requires k < |evs|
    ensures Ends(cfg, evs + [e], k, opener) == Ends(cfg, evs, k, opener)
  {
    assert (evs + [e])[..k] == evs[..k];
    assert (evs + [e])[k] == evs[k];
  }

  lemma QuietStable(cfg: Config, evs: seq<Event>, e: Event, lo: nat, p: nat, limit: nat)
    requires lo <= p < |Chunks(evs)| && limit <= |evs|
    ensures p < |Chunks(evs + [e])|
    ensures Quiet(cfg, evs + [e], lo, p, limit) == Quiet(cfg, evs, lo, p, limit)
  {
    hide Ends, Chunks;
    ChunksGrow(evs, e);
    var cs, cs' := Chunks(evs), Chunks(evs + [e]);
    assert cs'[p] == cs[p] && cs'[lo] == cs[lo];
    forall k: nat | k < |evs|
      ensures Ends(cfg, evs + [e], k, Chunks(evs)[lo]) == Ends(cfg, evs, k, Chunks(evs)[lo])
    {
      EndsStable(cfg, evs, e, k, Chunks(evs)[lo]);
    }
  }

  /** Between two old chunks nothing changes; after the last one the new event counts too. */
  lemma GoesOnStable(cfg: Config, evs: seq<Event>, e: Event, lo: nat, p: nat)
    requires lo <= p < |Chunks(evs)|
    ensures p < |Chunks(evs + [e])|
    ensures p + 1 < |Chunks(evs)| ==> Horizon(evs + [e], p) == Horizon(evs, p)
    ensures p + 1 == |Chunks(evs)| ==> Horizon(evs + [e], p) == Horizon(evs, p) + 1 == |evs| + 1
    ensures GoesOn(cfg, evs + [e], lo, p) <==>
      GoesOn(cfg, evs, lo, p) && (p + 1 == |Chunks(evs)| ==> !Ends(cfg, evs + [e], |evs|, Chunks(evs)[lo]))
  {
    hide Ends, Samples, Chunks;
    ChunksGrow(evs, e);
    var cs, cs' := Chunks(evs), Chunks(evs + [e]);
    assert cs'[lo..p + 1] == cs[lo..p + 1];
    if p + 1 == |cs| && |cs'| > |cs| {
      assert NewChunks(evs, e)[0].at == |evs|;
    }
    QuietStable(cfg, evs, e, lo, p, Horizon(evs, p));
    if p + 1 == |cs| {
      QuietSplit(cfg, evs + [e], lo, p, |evs|);
    }
  }

  lemma QuietSplit(cfg: Config, evs: seq<Event>, lo: nat, p: nat, limit: nat)
    requires lo <= p < |Chunks(evs)| && Chunks(evs)[p].at < limit < |evs|
    ensures Quiet(cfg, evs, lo, p, limit + 1) <==>
      Quiet(cfg, evs, lo, p, limit) && !Ends(cfg, evs, limit, Chunks(evs)[lo])
  {
    hide Ends, Chunks;
  }

  lemma CutStable(cfg: Config, evs: seq<Event>, e: Event, w: Window)
    requires Cut(cfg, evs, w)
    ensures Cut(cfg, evs + [e], w)
    ensures WindowUnitSame(evs, e, w)
  {
    hide Ends, GoesOn, Quiet, Samples, Chunks, Horizon, ContextAfter;
    ChunksGrow(evs, e);
    var cs, cs' := Chunks(evs), Chunks(evs + [e]);
    assert cs'[w.lo..w.hi] == cs[w.lo..w.hi];
    GoesOnStable(cfg, evs, e, w.lo, w.hi - 1);
    forall p | w.lo <= p < w.hi - 1
      ensures GoesOn(cfg, evs + [e], w.lo, p)
    {
      GoesOnStable(cfg, evs, e, w.lo, p);
    }
    CutAtEvent(evs, w, cfg);
    EndsStable(cfg, evs, e, w.at, cs[w.lo]);
    QuietStable(cfg, evs, e, w.lo, w.hi - 1, w.at);
    assert (evs + [e])[..w.at] == evs[..w.at];
  }

  predicate WindowUnitSame(evs: seq<Event>, e: Event, w: Window) {
    && w.lo < w.hi <= |Chunks(evs)| && w.hi <= |Chunks(evs + [e])| && w.at < |evs|
    && Chunks(evs + [e])[w.lo..w.hi] == Chunks(evs)[w.lo..w.hi]
    && (evs + [e])[..w.at] == evs[..w.at]
  }

  lemma CutAtEvent(evs: seq<Event>, w: Window, cfg: Config)
    requires Cut(cfg, evs, w)
    ensures w.at < |evs|
  {
    hide Ends, GoesOn, Quiet, Samples, Chunks;
  }

  /** How the windows of an event list go on with one more event. */
  function NextWindows(cfg: Config, evs: seq<Event>, ws: seq<Window>, e: Event): seq<Window>
    requires OpenAt(ws) <= |Chunks(evs)|
  {
    var all, n := evs + [e], |Chunks(evs)|;
    var ended := Closing(cfg, evs, ws, e);
    if |NewChunks(evs, e)| > 0 && Samples((Chunks(evs) + NewChunks(evs, e))[OpenAt(ended)..]) >= cfg.maxSamples
    then ended + [Window(OpenAt(ended), n + 1, |evs|)]
    else ended
  }

  /** The windows once the new event has ended the open one, if it does. */
  function Closing(cfg: Config, evs: seq<Event>, ws: seq<Window>, e: Event): (ended: seq<Window>)
    requires OpenAt(ws) <= |Chunks(evs)|
    ensures OpenAt(ended) <= |Chunks(evs)|
  {
    var n := |Chunks(evs)|;
    if OpenAt(ws) < n && Ends(cfg, evs + [e], |evs|, Chunks(evs)[OpenAt(ws)])
    then ws + [Window(OpenAt(ws), n, |evs|)]
    else ws
  }

  /** The windows of an event list. */
  function Windows(cfg: Config, evs: seq<Event>): (ws: seq<Window>)
    ensures OpenAt(ws) <= |Chunks(evs)|
  {
    if |evs| == 0 then []
    else
      var front, e := evs[..|evs| - 1], evs[|evs| - 1];
      assert Chunks(evs) == Chunks(front) + NewChunks(front, e);
      NextWindows(cfg, front, Windows(cfg, front), e)
  }

  lemma TiledAppend(ws: seq<Window>, w: Window)
    requires Tiled(ws) && w.lo == OpenAt(ws)
    ensures Tiled(ws + [w]) && OpenAt(ws + [w]) == w.hi
  {
    forall i | 0 <= i < |ws + [w]|
      ensures (ws + [w])[i].lo == OpenAt((ws + [w])[..i])
    {
      if i < |ws| {
        assert (ws + [w])[..i] == ws[..i];
      } else {
        assert (ws + [w])[..i] == ws;
      }
    }
  }

  /** The event that ends the open window cuts it correctly. */
  lemma CutOpen(cfg: Config, evs: seq<Event>, e: Event, open: nat)
    requires open < |Chunks(evs)|
    requires forall p :: open <= p < |Chunks(evs)| ==> GoesOn(cfg, evs, open, p)
    requires Ends(cfg, evs + [e], |evs|, Chunks(evs)[open])
    ensures Cut(cfg, evs + [e], Window(open, |Chunks(evs)|, |evs|))
  {
    hide Ends, Quiet, Chunks, GoesOn, Samples, NewChunks, ContextAfter;
    ChunksGrow(evs, e);
    var n := |Chunks(evs)|;
    var cs, cs' := Chunks(evs), Chunks(evs + [e]);
    assert cs'[open..n] == cs[open..n];
    forall p | open <= p < n - 1
      ensures GoesOn(cfg, evs + [e], open, p)
    {
      GoesOnStable(cfg, evs, e, open, p);
    }
    GoesOnStable(cfg, evs, e, open, n - 1);
    GoesOnFacts(cfg, evs, open, n - 1);
    QuietStable(cfg, evs, e, open, n - 1, |evs|);
  }

  lemma GoesOnFacts(cfg: Config, evs: seq<Event>, lo: nat, p: nat)
    requires lo <= p < |Chunks(evs)| && GoesOn(cfg, evs, lo, p)
    ensures Samples(Chunks(evs)[lo..p + 1]) < cfg.maxSamples
    ensures p + 1 == |Chunks(evs)| ==> Quiet(cfg, evs, lo, p, |evs|)
  {
    hide Quiet, Chunks, Samples;
  }

  /** A chunk that has just arrived has had no event after it. */
  lemma NewestChunk(cfg: Config, evs: seq<Event>, e: Event, lo: nat)
    requires |NewChunks(evs, e)| > 0 && lo <= |Chunks(evs)|
    ensures var n := |Chunks(evs)|;
      && |Chunks(evs + [e])| == n + 1 && Chunks(evs + [e])[n].at == |evs|
      && Horizon(evs + [e], n) == |evs| + 1
      && Quiet(cfg, evs + [e], lo, n, |evs| + 1)
  {
    hide Ends, Chunks;
    ChunksGrow(evs, e);
  }

  lemma ExtendSegmentation(cfg: Config, evs: seq<Event>, ws: seq<Window>, e: Event)
    requires IsSegmentation(cfg, evs, ws)
    ensures IsSegmentation(cfg, evs + [e], NextWindows(cfg, evs, ws, e))
  {
    hide Ends, Quiet, Chunks, GoesOn, Cut, Samples, Tiled, NewChunks, Closing;
    OpenInRange(cfg, evs, ws);
    hide IsSegmentation;
    ChunksGrow(evs, e);
    var all, n := evs + [e], |Chunks(evs)|;
    var ended := Closing(cfg, evs, ws, e);
    ExtendClosing(cfg, evs, ws, e);
    if NewChunks(evs, e) == [] {
      assert Chunks(all) == Chunks(evs);
      StillOpen(cfg, all, ended);
    } else {
      NewestChunk(cfg, evs, e, OpenAt(ended));
      assert Chunks(all)[OpenAt(ended)..] == Chunks(all)[OpenAt(ended)..n + 1];
      ExtendNewest(cfg, evs, ended, e);
    }
  }

  /** Everything but the newest chunk, after the closing step. */
  lemma ExtendClosing(cfg: Config, evs: seq<Event>, ws: seq<Window>, e: Event)
    requires IsSegmentation(cfg, evs, ws)
    ensures var ended := Closing(cfg, evs, ws, e);
      && Tiled(ended)
      && |Chunks(evs)| <= |Chunks(evs + [e])|
      && (forall i :: 0 <= i < |ended| ==> Cut(cfg, evs + [e], ended[i]))
      && (forall p :: OpenAt(ended) <= p < |Chunks(evs)| ==> GoesOn(cfg, evs + [e], OpenAt(ended), p))
  {
    hide Ends, Quiet, Chunks, GoesOn, Cut, Samples, Tiled, NewChunks;
    ChunksGrow(evs, e);
    var n, open := |Chunks(evs)|, OpenAt(ws);
    var ended := Closing(cfg, evs, ws, e);
    forall i | 0 <= i < |ws|
      ensures Cut(cfg, evs + [e], ws[i])
    {
      CutStable(cfg, evs, e, ws[i]);
    }
    if ended != ws {
      CutOpen(cfg, evs, e, open);
      TiledAppend(ws, Window(open, n, |evs|));
    } else {
      forall p | open <= p < n
        ensures GoesOn(cfg, evs + [e], open, p)
      {
        GoesOnStable(cfg, evs, e, open, p);
      }
    }
  }

  lemma ExtendNewest(cfg: Config, evs: seq<Event>, ended: seq<Window>, e: Event)
    requires |NewChunks(evs, e)| > 0 && Tiled(ended) && OpenAt(ended) <= |Chunks(evs)|
    requires |Chunks(evs)| + 1 == |Chunks(evs + [e])| && Chunks(evs + [e])[|Chunks(evs)|].at == |evs|
    requires forall i :: 0 <= i < |ended| ==> Cut(cfg, evs + [e], ended[i])
    requires forall p :: OpenAt(ended) <= p < |Chunks(evs)| ==> GoesOn(cfg, evs + [e], OpenAt(ended), p)
    ensures var n, w := |Chunks(evs)|, Window(OpenAt(ended), |Chunks(evs)| + 1, |evs|);
      if Samples(Chunks(evs + [e])[OpenAt(ended)..n + 1]) >= cfg.maxSamples
      then IsSegmentation(cfg, evs + [e], ended + [w])
      else IsSegmentation(cfg, evs + [e], ended)
  {
    hide Ends, Quiet, Chunks, Samples, Tiled, NewChunks, GoesOn, Cut, IsSegmentation, ContextAfter;
    var all, n, open := evs + [e], |Chunks(evs)|, OpenAt(ended);
    NewestVerdict(cfg, evs, e, open);
    if Samples(Chunks(all)[open..n + 1]) >= cfg.maxSamples {
      JustClosed(cfg, all, ended, Window(open, n + 1, |evs|));
    } else {
      StillOpen(cfg, all, ended);
    }
  }

  /** A segmentation whose last window takes the newest chunk. */
  lemma JustClosed(cfg: Config, evs: seq<Event>, ended: seq<Window>, w: Window)
    requires Tiled(ended) && forall i :: 0 <= i < |ended| ==> Cut(cfg, evs, ended[i])
    requires Cut(cfg, evs, w) && w.lo == OpenAt(ended) && w.hi == |Chunks(evs)|
    ensures IsSegmentation(cfg, evs, ended + [w])
  {
    hide Cut, GoesOn, Chunks, Tiled;
    TiledAppend(ended, w);
  }

  /** A segmentation whose last window is open. */
  lemma StillOpen(cfg: Config, evs: seq<Event>, ended: seq<Window>)
    requires Tiled(ended) && OpenAt(ended) <= |Chunks(evs)|
    requires forall i :: 0 <= i < |ended| ==> Cut(cfg, evs, ended[i])
    requires forall p :: OpenAt(ended) <= p < |Chunks(evs)| ==> GoesOn(cfg, evs, OpenAt(ended), p)
    ensures IsSegmentation(cfg, evs, ended)
  {
    hide Cut, GoesOn, Chunks, Tiled;
  }

  /** The size limit alone decides about the newest chunk. */
  lemma NewestVerdict(cfg: Config, evs: seq<Event>, e: Event, open: nat)
    requires |NewChunks(evs, e)| > 0 && open <= |Chunks(evs)|
    requires |Chunks(evs)| + 1 == |Chunks(evs + [e])| && Chunks(evs + [e])[|Chunks(evs)|].at == |evs|
    requires forall p :: open <= p < |Chunks(evs)| ==> GoesOn(cfg, evs + [e], open, p)
    ensures var n := |Chunks(evs)|;
      if Samples(Chunks(evs + [e])[open..n + 1]) >= cfg.maxSamples
      then Cut(cfg, evs + [e], Window(open, n + 1, |evs|))
      else GoesOn(cfg, evs + [e], open, n)
  {
    hide Ends, Quiet, Chunks, Samples, NewChunks;
    NewestChunk(cfg, evs, e, open);
  }

  /** The windows of every event list are cut correctly. */
  lemma {:induction false} WindowsAreCorrect(cfg: Config, evs: seq<Event>)
    ensures IsSegmentation(cfg, evs, Windows(cfg, evs))
  {
    hide IsSegmentation, NextWindows, Chunks;
    if |evs| == 0 {
      NoWindows(cfg);
    } else {
      var front, e := evs[..|evs| - 1], evs[|evs| - 1];
      assert evs == front + [e];
      WindowsAreCorrect(cfg, front);
      OpenInRange(cfg, front, Windows(cfg, front));
      ExtendSegmentation(cfg, front, Windows(cfg, front), e);
    }
  }

  lemma NoWindows(cfg: Config)
    ensures IsSegmentation(cfg, [], [])
  {
  }

  lemma OpenInRange(cfg: Config, evs: seq<Event>, ws: seq<Window>)
    requires IsSegmentation(cfg, evs, ws)
    ensures OpenAt(ws) <= |Chunks(evs)| && InRange(evs, ws)
  {
    hide Ends, Quiet, Chunks, GoesOn, Samples, Tiled;
  }

  // ---------- There is only one way to cut ----------

  lemma CutStops(cfg: Config, evs: seq<Event>, w: Window)
    requires Cut(cfg, evs, w)
    ensures !GoesOn(cfg, evs, w.lo, w.hi - 1)
  {
    hide Ends, Chunks, Samples;
  }

  lemma SameCut(cfg: Config, evs: seq<Event>, v: Window, w: Window)
    requires Cut(cfg, evs, v) && Cut(cfg, evs, w) && v.lo == w.lo
    ensures v == w
  {
    hide Ends, Chunks, Samples, GoesOn;
    CutStops(cfg, evs, v);
    CutStops(cfg, evs, w);
  }

  /** Two correct segmentations agree as far as both go, and so are equal. */
  lemma {:induction false} SamePrefix(cfg: Config, evs: seq<Event>, vs: seq<Window>, ws: seq<Window>, n: nat)
    requires IsSegmentation(cfg, evs, vs) && IsSegmentation(cfg, evs, ws)
    requires n <= |vs| && n <= |ws|
    ensures vs[..n] == ws[..n]
  {
    hide Cut, GoesOn, Chunks;
    if n != 0 {
      SamePrefix(cfg, evs, vs, ws, n - 1);
      SameCut(cfg, evs, vs[n - 1], ws[n - 1]);
    }
  }

  lemma NoShorter(cfg: Config, evs: seq<Event>, vs: seq<Window>, ws: seq<Window>)
    requires IsSegmentation(cfg, evs, vs) && IsSegmentation(cfg, evs, ws)
    ensures |ws| <= |vs|
  {
    hide GoesOn, Chunks;
    if |vs| < |ws| {
      SamePrefix(cfg, evs, vs, ws, |vs|);
      var w := ws[|vs|];
      assert ws[..|vs|] == vs;
      CutStops(cfg, evs, w);
      assert false;
    }
  }

  /** The cuts are determined by the events: there is exactly one correct segmentation. */
  lemma UniqueSegmentation(cfg: Config, evs: seq<Event>, ws: seq<Window>)
    ensures IsSegmentation(cfg, evs, ws) <==> ws == Windows(cfg, evs)
  {
    hide IsSegmentation, Windows, Chunks;
    var all := Windows(cfg, evs);
    WindowsAreCorrect(cfg, evs);
    if IsSegmentation(cfg, evs, ws) {
      NoShorter(cfg, evs, all, ws);
      NoShorter(cfg, evs, ws, all);
      SamePrefix(cfg, evs, all, ws, |ws|);
    }
  }

  // ---------- The buffer emits these windows ----------

  /** The buffer that holds the chunks from `open` on. */
  function OpenBuffer(evs: seq<Event>, open: nat, dropped: nat): Buffer
    requires open <= |Chunks(evs)|
  {
    var cs, ctx := Chunks(evs)[open..], ContextAfter(evs);
    var inert := ctx.Some? && InertContext(ctx.value);
    if cs == [] then Buffer([], 0, None, None, None, ctx, inert, dropped)
    else Buffer(Datas(cs), Samples(cs), Some(cs[0].interpretation), Some(cs[0].timestamp), Some(cs[0].arrival), ctx, inert, dropped)
  }

  /** The machine's state is the open window and its output the closed ones. */
  predicate Matches(cfg: Config, sid: nat, evs: seq<Event>, ws: seq<Window>, r: Effect)
    requires OpenAt(ws) <= |Chunks(evs)|
  {
    && InRange(evs, ws)
    && r.units == WindowUnits(sid, evs, ws)
    && r.buffer == OpenBuffer(evs, OpenAt(ws), r.buffer.dropped)
  }

  lemma DatasAppend(cs: seq<Chunk>, c: Chunk)
    ensures Datas(cs + [c]) == Datas(cs) + [c.data]
  {
  }

  lemma SamplesAppend(cs: seq<Chunk>, c: Chunk)
    requires forall i :: 0 <= i < |cs| ==> 0 < cs[i].interpretation.bytesPerSample
    requires 0 < c.interpretation.bytesPerSample
    ensures Samples(cs + [c]) == Samples(cs) + |c.data| / c.interpretation.bytesPerSample
  {
    assert (cs + [c])[..|cs|] == cs;
  }

  /** Flushing the open buffer emits the unit of the window it holds. */
  lemma FlushOpen(cfg: Config, sid: nat, evs: seq<Event>, open: nat, dropped: nat, all: seq<Event>, w: Window)
    requires open < |Chunks(evs)| && BufferInv(OpenBuffer(evs, open, dropped))
    requires w.lo == open && w.hi == |Chunks(evs)| && w.at <= |all|
    requires |Chunks(all)| >= w.hi && Chunks(all)[w.lo..w.hi] == Chunks(evs)[open..]
    requires ContextAfter(all[..w.at]) == ContextAfter(evs)
    ensures var s := OpenBuffer(evs, open, dropped);
      Flush(sid, s).units == [WindowUnit(sid, all, w)] && Flush(sid, s).buffer.chunks == []
  {
    hide Chunks, Samples, Join, CanConvert;
    var s := OpenBuffer(evs, open, dropped);
    assert |Datas(Chunks(evs)[open..])| > 0;
    WholeComponents(Join(s.chunks), s.latched.value, s.numSamples);
  }

  lemma OldUnits(cfg: Config, sid: nat, evs: seq<Event>, ws: seq<Window>, e: Event)
    requires IsSegmentation(cfg, evs, ws)
    ensures InRange(evs, ws) && InRange(evs + [e], ws)
    ensures WindowUnits(sid, evs + [e], ws) == WindowUnits(sid, evs, ws)
  {
    hide Cut, GoesOn, Chunks, Tiled, Samples, Datas;
    ChunksGrow(evs, e);
    OpenInRange(cfg, evs, ws);
    forall i | 0 <= i < |ws|
      ensures WindowUnit(sid, evs + [e], ws[i]) == WindowUnit(sid, evs, ws[i])
    {
      CutStable(cfg, evs, e, ws[i]);
    }
  }

  lemma UnitsAppend(sid: nat, evs: seq<Event>, ws: seq<Window>, w: Window)
    requires InRange(evs, ws) && w.lo < w.hi <= |Chunks(evs)| && w.at < |evs|
    ensures InRange(evs, ws + [w])
    ensures WindowUnits(sid, evs, ws + [w]) == WindowUnits(sid, evs, ws) + [WindowUnit(sid, evs, w)]
  {
    hide Chunks, WindowUnit;
  }

  /** The first half of a reaction: flush the open window, if the event ends it. */
  function CloseFirst(cfg: Config, sid: nat, evs: seq<Event>, ws: seq<Window>, e: Event, s: Buffer): Effect
    requires OpenAt(ws) <= |Chunks(evs)|
  {
    if Closing(cfg, evs, ws, e) == ws then Effect(s, []) else Flush(sid, s)
  }

  lemma CloseFirstMatches(cfg: Config, sid: nat, evs: seq<Event>, ws: seq<Window>, e: Event, r: Effect)
    requires IsSegmentation(cfg, evs, ws) && Matches(cfg, sid, evs, ws, r) && BufferInv(r.buffer)
    ensures var ended, c := Closing(cfg, evs, ws, e), CloseFirst(cfg, sid, evs, ws, e, r.buffer);
      && InRange(evs + [e], ended)
      && r.units + c.units == WindowUnits(sid, evs + [e], ended)
      && c.buffer == OpenBuffer(evs, OpenAt(ended), r.buffer.dropped)
      && BufferInv(c.buffer)
  {
    hide Ends, Chunks, Samples, Cut, GoesOn, Tiled, WindowUnits, BufferInv, IsSegmentation, NewChunks, Flush, OpenBuffer, ContextAfter;
    OldUnits(cfg, sid, evs, ws, e);
    FlushSound(sid, r.buffer);
    if Closing(cfg, evs, ws, e) != ws {
      ClosedUnits(cfg, sid, evs, ws, e, r.buffer.dropped);
    } else {
      assert r.units + [] == r.units;
    }
  }

  /** Closing the open window adds its unit and leaves an empty buffer. */
  lemma ClosedUnits(cfg: Config, sid: nat, evs: seq<Event>, ws: seq<Window>, e: Event, dropped: nat)
    requires OpenAt(ws) < |Chunks(evs)| && InRange(evs + [e], ws)
    requires BufferInv(OpenBuffer(evs, OpenAt(ws), dropped))
    ensures var all, w := evs + [e], Window(OpenAt(ws), |Chunks(evs)|, |evs|);
      var f := Flush(sid, OpenBuffer(evs, OpenAt(ws), dropped));
      && InRange(all, ws + [w])
      && WindowUnits(sid, all, ws) + f.units == WindowUnits(sid, all, ws + [w])
      && f.buffer == OpenBuffer(evs, |Chunks(evs)|, dropped)
  {
    hide Ends, Chunks, Samples, WindowUnits, WindowUnit, BufferInv, NewChunks;
    var n, open := |Chunks(evs)|, OpenAt(ws);
    var w := Window(open, n, |evs|);
    ChunksGrow(evs, e);
    var cs, all := Chunks(evs), evs + [e];
    assert Chunks(all)[open..n] == cs[open..];
    assert all[..|evs|] == evs;
    FlushOpen(cfg, sid, evs, open, dropped, all, w);
    UnitsAppend(sid, all, ws, w);
    assert cs[n..] == [];
  }

  /** Appending the new chunk gives the buffer of one more chunk. */
  lemma LongerIsOpen(evs: seq<Event>, md: Metadata, data: bytes, now: real, open: nat, dropped: nat)
    requires open <= |Chunks(evs)|
    requires Accepts(ContextAfter(evs), md, data)
    ensures var all := evs + [Pushed(DataRecord(md, data), now)];
      && open < |Chunks(all)| == |Chunks(evs)| + 1
      && ContextAfter(all) == ContextAfter(evs)
      && OpenBuffer(all, open, dropped) == Longer(OpenBuffer(evs, open, dropped), md, data, now)
  {
    hide Chunks, Samples, Datas, InertContext;
    var e := Pushed(DataRecord(md, data), now);
    ChunksGrow(evs, e);
    var cs, c := Chunks(evs)[open..], NewChunks(evs, e)[0];
    assert Chunks(evs + [e])[open..] == cs + [c];
    DatasAppend(cs, c);
    SamplesAppend(cs, c);
    NoSamples();
  }

  lemma NoSamples()
    ensures Samples([]) == 0 && Datas([]) == []
  {
  }

  /** Whether the new event ends a window, in terms of the context in force. */
  predicate EndsNow(cfg: Config, ctx: Option<Context>, e: Event, opener: Chunk) {
    match e
    case Pushed(ContextRecord(_, new_), _) => Differs(cfg.flushFields, ctx, new_)
    case Pushed(DataRecord(md, data), _) =>
      Admits(ctx, md, data) && (md.gapBefore || InterpretationOf(md) != opener.interpretation)
    case Polled(now) => now - opener.arrival >= cfg.maxAge
    case Drained => true
  }

  lemma EndsNewest(cfg: Config, evs: seq<Event>, e: Event, opener: Chunk)
    ensures Ends(cfg, evs + [e], |evs|, opener) == EndsNow(cfg, ContextAfter(evs), e, opener)
  {
    assert (evs + [e])[..|evs|] == evs;
  }

  lemma CloseFirstMeans(cfg: Config, sid: nat, evs: seq<Event>, ws: seq<Window>, e: Event, s: Buffer)
    requires OpenAt(ws) <= |Chunks(evs)| && s == OpenBuffer(evs, OpenAt(ws), s.dropped)
    ensures s.chunks != [] <==> OpenAt(ws) < |Chunks(evs)|
    ensures CloseFirst(cfg, sid, evs, ws, e, s) ==
      if s.chunks != [] && EndsNow(cfg, ContextAfter(evs), e, Chunks(evs)[OpenAt(ws)]) then Flush(sid, s) else Effect(s, [])
  {
    hide Ends, EndsNow, Chunks, Samples, Flush;
    if OpenAt(ws) < |Chunks(evs)| {
      EndsNewest(cfg, evs, e, Chunks(evs)[OpenAt(ws)]);
    }
  }

  /** Events other than accepted data: the reaction is the closing step, and a context is
      adopted. */
  lemma QuietReaction(cfg: Config, sid: nat, evs: seq<Event>, ws: seq<Window>, e: Event, s: Buffer)
    requires OpenAt(ws) <= |Chunks(evs)| && s == OpenBuffer(evs, OpenAt(ws), s.dropped)
    requires NewChunks(evs, e) == []
    ensures var c, a := CloseFirst(cfg, sid, evs, ws, e, s), React(cfg, sid, s, e);
      && a.units == c.units
      && Adopted(c.buffer, a.buffer, if e.Pushed? && e.record.ContextRecord? then Some(e.record.context) else s.context)
  {
    hide Ends, Chunks, Samples, CloseFirst, AgreeOn, Join;
    CloseFirstMeans(cfg, sid, evs, ws, e, s);
  }

  /** The same buffer under a context, up to the drop count. */
  predicate Adopted(before: Buffer, after: Buffer, ctx: Option<Context>) {
    after == before.(context := ctx, inert := ctx.Some? && InertContext(ctx.value), dropped := after.dropped)
  }

  /** Accepted data: the closing step, then the append. */
  lemma AcceptedReaction(cfg: Config, sid: nat, evs: seq<Event>, ws: seq<Window>, md: Metadata, data: bytes, now: real, s: Buffer)
    requires OpenAt(ws) <= |Chunks(evs)| && s == OpenBuffer(evs, OpenAt(ws), s.dropped)
    requires Accepts(ContextAfter(evs), md, data)
    ensures var e := Pushed(DataRecord(md, data), now);
      var c := CloseFirst(cfg, sid, evs, ws, e, s);
      var a := Append(cfg, sid, c.buffer, md, data, now);
      && React(cfg, sid, s, e) == Effect(a.buffer, c.units + a.units)
      && (c.buffer.chunks != [] ==> c.buffer.latched == Some(InterpretationOf(md)))
  {
    hide Ends, Chunks, Samples, CloseFirst, Join, Append, InertContext;
    var e := Pushed(DataRecord(md, data), now);
    CloseFirstMeans(cfg, sid, evs, ws, e, s);
  }

  /** The windows once the newest chunk has closed the open one, if it reached the limit. */
  function Reaching(cfg: Config, evs: seq<Event>, ended: seq<Window>, at: nat): seq<Window>
    requires OpenAt(ended) <= |Chunks(evs)|
  {
    if Samples(Chunks(evs)[OpenAt(ended)..]) >= cfg.maxSamples then ended + [Window(OpenAt(ended), |Chunks(evs)|, at)] else ended
  }

  /** Appending makes the open buffer longer by the new chunk, and then flushes it or not. */
  lemma AppendIsLonger(cfg: Config, sid: nat, evs: seq<Event>, open: nat, md: Metadata, data: bytes, now: real, b: Buffer)
    requires Accepts(ContextAfter(evs), md, data) && open <= |Chunks(evs)|
    requires b == OpenBuffer(evs, open, b.dropped) && BufferInv(b)
    requires b.chunks != [] ==> b.latched == Some(InterpretationOf(md))
    ensures var all := evs + [Pushed(DataRecord(md, data), now)];
      && open < |Chunks(all)| == |Chunks(evs)| + 1 && ContextAfter(all) == ContextAfter(evs)
      && var longer := OpenBuffer(all, open, b.dropped);
      && BufferInv(longer)
      && Append(cfg, sid, b, md, data, now) == if longer.numSamples >= cfg.maxSamples then Flush(sid, longer) else Effect(longer, [])
  {
    hide Chunks, Samples, Join, InertContext, BufferInv, Datas, ContextAfter, Longer, Flush;
    LongerIsOpen(evs, md, data, now, open, b.dropped);
    LongerSane(b, md, data, now);
  }

  /** A window that reached the limit is closed by the very event that filled it. */
  lemma SizeReached(cfg: Config, sid: nat, evs: seq<Event>, e: Event, ended: seq<Window>, dropped: nat, units: seq<Unit>)
    requires var all := evs + [e];
      && OpenAt(ended) < |Chunks(all)| && ContextAfter(all) == ContextAfter(evs)
      && InRange(all, ended) && units == WindowUnits(sid, all, ended)
      && BufferInv(OpenBuffer(all, OpenAt(ended), dropped))
    ensures var all := evs + [e];
      var f, w := Flush(sid, OpenBuffer(all, OpenAt(ended), dropped)), Window(OpenAt(ended), |Chunks(all)|, |evs|);
      Matches(cfg, sid, all, ended + [w], Effect(f.buffer, units + f.units))
  {
    hide Chunks, Samples, Join, InertContext, WindowUnits, WindowUnit, BufferInv, Datas, ContextAfter;
    var all, open := evs + [e], OpenAt(ended);
    var w := Window(open, |Chunks(all)|, |evs|);
    assert all[..|evs|] == evs;
    assert Chunks(all)[open..|Chunks(all)|] == Chunks(all)[open..];
    FlushOpen(cfg, sid, all, open, dropped, all, w);
    UnitsAppend(sid, all, ended, w);
    assert Chunks(all)[|Chunks(all)|..] == [];
  }

  lemma AppendMatches(cfg: Config, sid: nat, evs: seq<Event>, ended: seq<Window>, md: Metadata, data: bytes, now: real, c: Effect)
    requires Accepts(ContextAfter(evs), md, data) && OpenAt(ended) <= |Chunks(evs)|
    requires var all := evs + [Pushed(DataRecord(md, data), now)];
      InRange(all, ended) && c.units == WindowUnits(sid, all, ended)
    requires c.buffer == OpenBuffer(evs, OpenAt(ended), c.buffer.dropped) && BufferInv(c.buffer)
    requires c.buffer.chunks != [] ==> c.buffer.latched == Some(InterpretationOf(md))
    ensures var all := evs + [Pushed(DataRecord(md, data), now)];
      var a := Append(cfg, sid, c.buffer, md, data, now);
      && OpenAt(ended) < |Chunks(all)| == |Chunks(evs)| + 1
      && var next := Reaching(cfg, all, ended, |evs|);
      OpenAt(next) <= |Chunks(all)| && Matches(cfg, sid, all, next, Effect(a.buffer, c.units + a.units))
  {
    hide Chunks, Samples, Join, InertContext, WindowUnits, BufferInv, Datas, ContextAfter, Append, Flush;
    var e := Pushed(DataRecord(md, data), now);
    AppendIsLonger(cfg, sid, evs, OpenAt(ended), md, data, now, c.buffer);
    SizeReached(cfg, sid, evs, e, ended, c.buffer.dropped, c.units);
    assert c.units + [] == c.units;
  }

  lemma ReactMatches(cfg: Config, sid: nat, evs: seq<Event>, ws: seq<Window>, r: Effect, e: Event)
    requires IsSegmentation(cfg, evs, ws) && Matches(cfg, sid, evs, ws, r) && BufferInv(r.buffer)
    ensures var a, next := React(cfg, sid, r.buffer, e), NextWindows(cfg, evs, ws, e);
      && OpenAt(next) <= |Chunks(evs + [e])|
      && Matches(cfg, sid, evs + [e], next, Effect(a.buffer, r.units + a.units))
  {
    hide Chunks, Samples, NewChunks, IsSegmentation, Closing, CloseFirst, React, WindowUnits, NextWindows, OpenBuffer, BufferInv;
    CloseFirstMatches(cfg, sid, evs, ws, e, r);
    var ended, c := Closing(cfg, evs, ws, e), CloseFirst(cfg, sid, evs, ws, e, r.buffer);
    CloseFirstMeans(cfg, sid, evs, ws, e, r.buffer);
    FlushKeeps(sid, r.buffer);
    if NewChunks(evs, e) == [] {
      QuietMatches(cfg, sid, evs, ws, r, e);
    } else {
      NewChunkIsAccepted(evs, e);
      AcceptedMatches(cfg, sid, evs, ws, r, e.record.metadata, e.record.data, e.now);
    }
  }

  lemma QuietMatches(cfg: Config, sid: nat, evs: seq<Event>, ws: seq<Window>, r: Effect, e: Event)
    requires OpenAt(ws) <= |Chunks(evs)| && r.buffer == OpenBuffer(evs, OpenAt(ws), r.buffer.dropped)
    requires NewChunks(evs, e) == []
    requires var ended, c := Closing(cfg, evs, ws, e), CloseFirst(cfg, sid, evs, ws, e, r.buffer);
      && InRange(evs + [e], ended)
      && r.units + c.units == WindowUnits(sid, evs + [e], ended)
      && c.buffer == OpenBuffer(evs, OpenAt(ended), r.buffer.dropped)
      && c.buffer.context == r.buffer.context && c.buffer.dropped == r.buffer.dropped
    ensures var a, next := React(cfg, sid, r.buffer, e), NextWindows(cfg, evs, ws, e);
      && OpenAt(next) <= |Chunks(evs + [e])|
      && Matches(cfg, sid, evs + [e], next, Effect(a.buffer, r.units + a.units))
  {
    hide Chunks, Samples, NewChunks, Closing, CloseFirst, React, WindowUnits, Adopted, OpenBuffer;
    ChunksGrow(evs, e);
    var ended, c := Closing(cfg, evs, ws, e), CloseFirst(cfg, sid, evs, ws, e, r.buffer);
    QuietReaction(cfg, sid, evs, ws, e, r.buffer);
    AdoptOpen(cfg, sid, evs, ended, e, c.buffer, React(cfg, sid, r.buffer, e).buffer);
  }

  lemma AcceptedMatches(cfg: Config, sid: nat, evs: seq<Event>, ws: seq<Window>, r: Effect, md: Metadata, data: bytes, now: real)
    requires OpenAt(ws) <= |Chunks(evs)| && r.buffer == OpenBuffer(evs, OpenAt(ws), r.buffer.dropped)
    requires Accepts(ContextAfter(evs), md, data)
    requires var e := Pushed(DataRecord(md, data), now);
      var ended, c := Closing(cfg, evs, ws, e), CloseFirst(cfg, sid, evs, ws, e, r.buffer);
      && InRange(evs + [e], ended)
      && r.units + c.units == WindowUnits(sid, evs + [e], ended)
      && c.buffer == OpenBuffer(evs, OpenAt(ended), r.buffer.dropped)
      && c.buffer.dropped == r.buffer.dropped
      && BufferInv(c.buffer)
    ensures var e := Pushed(DataRecord(md, data), now);
      var a, next := React(cfg, sid, r.buffer, e), NextWindows(cfg, evs, ws, e);
      && OpenAt(next) <= |Chunks(evs + [e])|
      && Matches(cfg, sid, evs + [e], next, Effect(a.buffer, r.units + a.units))
  {
    hide Chunks, Samples, Closing, CloseFirst, React, WindowUnits, OpenBuffer, Append, UsableData, BufferInv, Matches;
    var e := Pushed(DataRecord(md, data), now);
    ChunksGrow(evs, e);
    var ended, c := Closing(cfg, evs, ws, e), CloseFirst(cfg, sid, evs, ws, e, r.buffer);
    AcceptedReaction(cfg, sid, evs, ws, md, data, now, r.buffer);
    var a := Append(cfg, sid, c.buffer, md, data, now);
    AppendMatches(cfg, sid, evs, ended, md, data, now, Effect(c.buffer, r.units + c.units));
    assert r.units + (c.units + a.units) == r.units + c.units + a.units;
  }

  lemma NewChunkIsAccepted(evs: seq<Event>, e: Event)
    requires NewChunks(evs, e) != []
    ensures e.Pushed? && e.record.DataRecord? && Accepts(ContextAfter(evs), e.record.metadata, e.record.data)
    ensures |NewChunks(evs, e)| == 1
  {
  }

  lemma AdoptOpen(cfg: Config, sid: nat, evs: seq<Event>, ended: seq<Window>, e: Event, c: Buffer, a: Buffer)
    requires OpenAt(ended) <= |Chunks(evs)| && NewChunks(evs, e) == []
    requires c == OpenBuffer(evs, OpenAt(ended), c.dropped)
    requires Adopted(c, a, if e.Pushed? && e.record.ContextRecord? then Some(e.record.context) else c.context)
    ensures OpenAt(ended) <= |Chunks(evs + [e])| && a == OpenBuffer(evs + [e], OpenAt(ended), a.dropped)
  {
    hide Chunks, Samples, NewChunks, InertContext, Datas;
    ChunksGrow(evs, e);
    assert Chunks(evs + [e]) == Chunks(evs);
  }

  lemma {:induction false} ReplaySound(cfg: Config, sid: nat, evs: seq<Event>)
    ensures BufferInv(Replay(cfg, sid, evs).buffer)
    ensures forall u :: u in Replay(cfg, sid, evs).units ==> Sound(u)
  {
    hide BufferInv, Sound, Push, Poll, Flush;
    if |evs| == 0 {
      FreshSane();
    } else {
      var front, e := evs[..|evs| - 1], evs[|evs| - 1];
      ReplaySound(cfg, sid, front);
      var s := Replay(cfg, sid, front).buffer;
      match e
      case Pushed(rec, now) => PushSound(cfg, sid, s, rec, now);
      case Polled(now) => PollSound(cfg, sid, s, now);
      case Drained => FlushSound(sid, s);
    }
  }

  lemma FreshSane()
    ensures BufferInv(FRESH)
  {
  }

  lemma {:induction false} ReplayMatches(cfg: Config, sid: nat, evs: seq<Event>)
    ensures Matches(cfg, sid, evs, Windows(cfg, evs), Replay(cfg, sid, evs))
  {
    hide Matches, React, NextWindows, Chunks;
    if |evs| == 0 {
      FreshMatches(cfg, sid);
    } else {
      var front, e := evs[..|evs| - 1], evs[|evs| - 1];
      assert evs == front + [e];
      ReplayMatches(cfg, sid, front);
      ReplaySound(cfg, sid, front);
      WindowsAreCorrect(cfg, front);
      ReactMatches(cfg, sid, front, Windows(cfg, front), Replay(cfg, sid, front), e);
    }
  }

  lemma FreshMatches(cfg: Config, sid: nat)
    ensures Matches(cfg, sid, [], [], Effect(FRESH, []))
  {
  }

  /** The buffer refines the segmentation: for every event list the units it emits are the
      windows, and it holds the rest. */
  lemma BufferRefinesSegmentation(cfg: Config, sid: nat, evs: seq<Event>)
    ensures var ws, r := Windows(cfg, evs), Replay(cfg, sid, evs);
      && InRange(evs, ws) && r.units == WindowUnits(sid, evs, ws)
      && r.buffer == OpenBuffer(evs, OpenAt(ws), r.buffer.dropped)
  {
    ReplayMatches(cfg, sid, evs);
  }
}
