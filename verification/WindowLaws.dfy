/** What the segmentation says about the emitted units: nothing lost or doubled, every
    label right for every chunk, no gap inside, sizes bounded. */
module WindowLaws {
  import opened Bytes
  import opened ContextWalk
  import opened Interpreter
  import opened Buffering
  import opened Segmentation

  function Raws(us: seq<Unit>): (rs: seq<bytes>)
    ensures |rs| == |us|
  {
    seq(|us|, i requires 0 <= i < |us| => us[i].raw)
  }

  lemma DatasConcat(a: seq<Chunk>, b: seq<Chunk>)
    ensures Datas(a + b) == Datas(a) + Datas(b)
  {
  }

  lemma RawsSnoc(us: seq<Unit>, n: nat)
    requires 0 < n <= |us|
    ensures Join(Raws(us[..n])) == Join(Raws(us[..n - 1])) + us[n - 1].raw
  {
    hide Join;
    assert Raws(us[..n]) == Raws(us[..n - 1]) + [us[n - 1].raw];
    JoinConcat(Raws(us[..n - 1]), [us[n - 1].raw]);
    JoinOne(us[n - 1].raw);
  }

  lemma DatasSplit(cs: seq<Chunk>, lo: nat, hi: nat)
    requires lo <= hi <= |cs|
    ensures Join(Datas(cs[..hi])) == Join(Datas(cs[..lo])) + Join(Datas(cs[lo..hi]))
  {
    hide Join;
    assert cs[..hi] == cs[..lo] + cs[lo..hi];
    DatasConcat(cs[..lo], cs[lo..hi]);
    JoinConcat(Datas(cs[..lo]), Datas(cs[lo..hi]));
  }

  /** The bytes of the first windows are the bytes of all chunks they span. */
  lemma {:induction false} WindowBytes(cfg: Config, sid: nat, evs: seq<Event>, ws: seq<Window>, n: nat)
    requires Tiled(ws) && InRange(evs, ws) && n <= |ws|
    ensures OpenAt(ws[..n]) <= |Chunks(evs)|
    ensures Join(Raws(WindowUnits(sid, evs, ws)[..n])) == Join(Datas(Chunks(evs)[..OpenAt(ws[..n])]))
  {
    hide Chunks, Samples, Join, Datas, Raws;
    var us, cs := WindowUnits(sid, evs, ws), Chunks(evs);
    if n == 0 {
      NoBytes(us, cs);
    } else {
      WindowBytes(cfg, sid, evs, ws, n - 1);
      var w := ws[n - 1];
      RawsSnoc(us, n);
      DatasSplit(cs, w.lo, w.hi);
    }
  }

  lemma NoBytes(us: seq<Unit>, cs: seq<Chunk>)
    ensures Join(Raws(us[..0])) == [] == Join(Datas(cs[..0]))
  {
  }

  lemma AllTiled(cfg: Config, evs: seq<Event>, ws: seq<Window>)
    requires IsSegmentation(cfg, evs, ws)
    ensures Tiled(ws)
  {
    hide Tiled, Cut, GoesOn;
  }

  /** Conservation: in every run the bytes of the emitted units, then those of the open
      window, are the accepted bodies in arrival order, each exactly once. */
  lemma BytesConserved(cfg: Config, sid: nat, evs: seq<Event>)
    ensures var r := Replay(cfg, sid, evs);
      Join(Raws(r.units)) + Join(r.buffer.chunks) == Join(Datas(Chunks(evs)))
  {
    hide Chunks, Replay, Windows, IsSegmentation, Samples;
    var ws, cs := Windows(cfg, evs), Chunks(evs);
    WindowsAreCorrect(cfg, evs);
    BufferRefinesSegmentation(cfg, sid, evs);
    AllTiled(cfg, evs, ws);
    WindowBytes(cfg, sid, evs, ws, |ws|);
    assert ws[..|ws|] == ws;
    var us := WindowUnits(sid, evs, ws);
    assert us[..|us|] == us;
    var open := OpenAt(ws);
    DatasSplit(cs, open, |cs|);
    assert cs[..|cs|] == cs && cs[open..|cs|] == cs[open..];
    if cs[open..] == [] {
      assert Datas(cs[open..]) == [];
    }
  }

  /** After a final flush nothing remains: the units alone hold every accepted byte. */
  lemma DrainedCompletely(cfg: Config, sid: nat, evs: seq<Event>)
    ensures var r := Replay(cfg, sid, evs + [Drained]);
      r.buffer.chunks == [] && Join(Raws(r.units)) == Join(Datas(Chunks(evs)))
  {
    hide Chunks, Replay;
    BytesConserved(cfg, sid, evs + [Drained]);
    ChunksGrow(evs, Drained);
    assert Chunks(evs + [Drained]) == Chunks(evs);
    ReplayStep(cfg, sid, evs, Drained);
    FlushKeeps(sid, Replay(cfg, sid, evs).buffer);
  }

  // ---------- Nothing happens inside a window ----------

  /** From its first chunk on, nothing ends a window until its last chunk. */
  lemma {:induction false} QuietInside(cfg: Config, evs: seq<Event>, w: Window, p: nat, k: nat)
    requires Cut(cfg, evs, w) && w.lo <= p < w.hi
    requires Chunks(evs)[w.lo].at < k <= Chunks(evs)[p].at
    ensures !Ends(cfg, evs, k, Chunks(evs)[w.lo])
  {
    hide Ends, Chunks, Samples;
    if p > w.lo {
      assert GoesOn(cfg, evs, w.lo, p - 1);
      if k <= Chunks(evs)[p - 1].at {
        QuietInside(cfg, evs, w, p - 1, k);
      }
    }
  }

  /** ... nor between its last chunk and the event that closes it. */
  lemma QuietUntilClosed(cfg: Config, evs: seq<Event>, w: Window, k: nat)
    requires Cut(cfg, evs, w) && Chunks(evs)[w.lo].at < k < w.at < |evs|
    ensures !Ends(cfg, evs, k, Chunks(evs)[w.lo])
  {
    hide Ends, Chunks, Samples, GoesOn;
    if k <= Chunks(evs)[w.hi - 1].at {
      QuietInside(cfg, evs, w, w.hi - 1, k);
    }
  }

  /** Contiguity: all the admitted data from a window's first chunk to its last, empty
      bodies included, was free of counter gaps and read the same way. */
  lemma NoGapInside(cfg: Config, evs: seq<Event>, w: Window, k: nat)
    requires Cut(cfg, evs, w)
    requires Chunks(evs)[w.lo].at < k <= Chunks(evs)[w.hi - 1].at
    requires evs[k].Pushed? && evs[k].record.DataRecord?
    requires Admits(ContextAfter(evs[..k]), evs[k].record.metadata, evs[k].record.data)
    ensures !evs[k].record.metadata.gapBefore
    ensures InterpretationOf(evs[k].record.metadata) == Chunks(evs)[w.lo].interpretation
  {
    hide Chunks, GoesOn, Quiet, Admits, Samples;
    QuietInside(cfg, evs, w, w.hi - 1, k);
  }

  // ---------- Labels ----------

  lemma {:induction false} ContextSteady(cfg: Config, evs: seq<Event>, opener: Chunk, a: nat, b: nat)
    requires a < b <= |evs|
    requires ContextAfter(evs[..a]).Some?
    requires evs[a].Pushed? && evs[a].record.DataRecord?
    requires forall k :: a < k < b ==> !Ends(cfg, evs, k, opener)
    ensures ContextAfter(evs[..b]).Some?
    ensures Agree(cfg.flushFields, ContextAfter(evs[..a]).value, ContextAfter(evs[..b]).value)
    decreases b - a
  {
    hide AgreeOn, Admits;
    var front := evs[..b - 1];
    assert evs[..b] == front + [evs[b - 1]];
    ChunksGrow(front, evs[b - 1]);
    AgreeSelf(cfg.flushFields, ContextAfter(evs[..a]).value);
    if a + 1 < b {
      assert !Ends(cfg, evs, b - 1, opener);
      ContextSteady(cfg, evs, opener, a, b - 1);
      AgreeTrans(cfg.flushFields, ContextAfter(evs[..a]).value, ContextAfter(front).value, ContextAfter(evs[..b]).value);
    }
  }

  lemma AgreeTrans(fields: set<FlushField>, a: Context, b: Context, c: Context)
    ensures Agree(fields, a, b) && Agree(fields, b, c) ==> Agree(fields, a, c)
  {
  }

  lemma {:induction false} ChunkContext(evs: seq<Event>, i: nat)
    requires i < |Chunks(evs)|
    ensures var at := Chunks(evs)[i].at;
      && evs[at].Pushed? && evs[at].record.DataRecord? && ContextAfter(evs[..at]).Some?
      && Accepts(ContextAfter(evs[..at]), evs[at].record.metadata, evs[at].record.data)
      && Chunks(evs)[i] == Chunk(at, InterpretationOf(evs[at].record.metadata), evs[at].record.metadata.timestamp, evs[at].now, evs[at].record.data)
  {
    hide UsableData, InertContext;
    var front, e := evs[..|evs| - 1], evs[|evs| - 1];
    assert evs == front + [e];
    ChunksGrow(front, e);
    if i < |Chunks(front)| {
      ChunkContext(front, i);
      assert front[..Chunks(front)[i].at] == evs[..Chunks(front)[i].at];
    }
  }

  /** Label correctness: the context a unit carries agrees, on every flush field, with the
      context in force when each of its chunks was accepted, even if heartbeats replaced
      the context meanwhile. */
  lemma LabelsCorrect(cfg: Config, sid: nat, evs: seq<Event>, i: nat, c: nat)
    ensures var ws, us := Windows(cfg, evs), Replay(cfg, sid, evs).units;
      i < |ws| && ws[i].lo <= c < ws[i].hi ==>
        && i < |us| && c < |Chunks(evs)|
        && var inForce := ContextAfter(evs[..Chunks(evs)[c].at]);
        us[i].context.Some? && inForce.Some? && SameIn(cfg.flushFields, inForce.value, us[i].context.value)
  {
    hide Chunks, Replay, Windows, Ends, Samples, Agree, SameIn, GoesOn, Quiet, Cut;
    var ws := Windows(cfg, evs);
    WindowsAreCorrect(cfg, evs);
    BufferRefinesSegmentation(cfg, sid, evs);
    if i < |ws| && ws[i].lo <= c < ws[i].hi {
      LabelAtClosing(cfg, evs, ws[i], c);
      AgreeMeans(cfg.flushFields, ContextAfter(evs[..Chunks(evs)[c].at]).value, ContextAfter(evs[..ws[i].at]).value);
    }
  }

  lemma QuietSpan(cfg: Config, evs: seq<Event>, w: Window, c: nat)
    requires Cut(cfg, evs, w) && w.lo <= c < w.hi && w.at < |evs|
    ensures forall k :: Chunks(evs)[c].at < k < w.at ==> !Ends(cfg, evs, k, Chunks(evs)[w.lo])
  {
    hide Chunks, Ends, Samples, GoesOn, Quiet, Cut;
    WindowClosing(cfg, evs, w);
    assert Chunks(evs)[w.lo].at <= Chunks(evs)[c].at;
    forall k | Chunks(evs)[c].at < k < w.at
      ensures !Ends(cfg, evs, k, Chunks(evs)[w.lo])
    {
      QuietUntilClosed(cfg, evs, w, k);
    }
  }

  lemma LabelAtClosing(cfg: Config, evs: seq<Event>, w: Window, c: nat)
    requires Cut(cfg, evs, w) && w.lo <= c < w.hi
    ensures w.at < |evs|
    ensures var inForce, carried := ContextAfter(evs[..Chunks(evs)[c].at]), ContextAfter(evs[..w.at]);
      inForce.Some? && carried.Some? && Agree(cfg.flushFields, inForce.value, carried.value)
  {
    hide Chunks, Ends, Samples, Agree, GoesOn, Quiet, Accepts, InterpretationOf, Cut, ContextAfter, SameIn;
    WindowClosing(cfg, evs, w);
    var at := Chunks(evs)[c].at;
    ChunkContext(evs, c);
    if at < w.at {
      LabelKept(cfg, evs, w, c);
    } else {
      assert at == w.at;
      AgreeSelf(cfg.flushFields, ContextAfter(evs[..at]).value);
    }
  }

  lemma LabelKept(cfg: Config, evs: seq<Event>, w: Window, c: nat)
    requires Cut(cfg, evs, w) && w.lo <= c < w.hi && Chunks(evs)[c].at < w.at
    ensures w.at < |evs|
    ensures var inForce, carried := ContextAfter(evs[..Chunks(evs)[c].at]), ContextAfter(evs[..w.at]);
      inForce.Some? && carried.Some? && Agree(cfg.flushFields, inForce.value, carried.value)
  {
    hide Chunks, Ends, Samples, Agree, GoesOn, Quiet, Accepts, InterpretationOf, Cut, ContextAfter;
    WindowClosing(cfg, evs, w);
    ChunkContext(evs, c);
    QuietSpan(cfg, evs, w, c);
    ContextSteady(cfg, evs, Chunks(evs)[w.lo], Chunks(evs)[c].at, w.at);
  }

  lemma AgreeSelf(fields: set<FlushField>, a: Context)
    ensures Agree(fields, a, a)
  {
  }

  lemma WindowClosing(cfg: Config, evs: seq<Event>, w: Window)
    requires Cut(cfg, evs, w)
    ensures w.lo < w.hi <= |Chunks(evs)| && Chunks(evs)[w.hi - 1].at <= w.at < |evs|
  {
    hide Chunks, Ends, Samples, GoesOn, Quiet;
  }

  // ---------- Sizes ----------

  function ChunkSamples(c: Chunk): nat
    requires 0 < c.interpretation.bytesPerSample
  {
    |c.data| / c.interpretation.bytesPerSample
  }

  /** An emitted window is below the size limit without its last chunk; the open one, if
      any, is below it altogether. */
  lemma WindowsBounded(cfg: Config, sid: nat, evs: seq<Event>, i: nat)
    ensures var r := Replay(cfg, sid, evs);
      i < |Windows(cfg, evs)| ==>
      && i < |r.units|
      && var w := Windows(cfg, evs)[i];
      && w.lo < w.hi <= |Chunks(evs)|
      && (w.lo + 1 < w.hi ==> r.units[i].numSamples - ChunkSamples(Chunks(evs)[w.hi - 1]) < cfg.maxSamples)
      && (w.lo + 1 == w.hi ==> r.units[i].numSamples == ChunkSamples(Chunks(evs)[w.hi - 1]))
  {
    hide Chunks, Replay, Windows, Ends, Quiet, Cut, Samples;
    var ws := Windows(cfg, evs);
    WindowsAreCorrect(cfg, evs);
    BufferRefinesSegmentation(cfg, sid, evs);
    if i < |ws| {
      CutBounded(cfg, evs, ws[i]);
    }
  }

  lemma CutBounded(cfg: Config, evs: seq<Event>, w: Window)
    requires Cut(cfg, evs, w)
    ensures w.lo < w.hi <= |Chunks(evs)|
    ensures var n, last := Samples(Chunks(evs)[w.lo..w.hi]), ChunkSamples(Chunks(evs)[w.hi - 1]);
      if w.lo + 1 < w.hi then n - last < cfg.maxSamples else n == last
  {
    hide Chunks, Ends, Quiet, Samples;
    var cs := Chunks(evs);
    assert cs[w.lo..w.hi] == cs[w.lo..w.hi - 1] + [cs[w.hi - 1]];
    SamplesAppend(cs[w.lo..w.hi - 1], cs[w.hi - 1]);
    if w.lo + 1 < w.hi {
      assert GoesOn(cfg, evs, w.lo, w.hi - 2);
    } else {
      NoSamples();
      assert cs[w.lo..w.hi - 1] == [];
    }
  }

  lemma OpenWindowBounded(cfg: Config, sid: nat, evs: seq<Event>)
    ensures Replay(cfg, sid, evs).buffer.chunks != [] ==> Replay(cfg, sid, evs).buffer.numSamples < cfg.maxSamples
  {
    hide Chunks, Replay, Windows, Ends, Quiet, Samples;
    var ws := Windows(cfg, evs);
    WindowsAreCorrect(cfg, evs);
    BufferRefinesSegmentation(cfg, sid, evs);
    var n, open := |Chunks(evs)|, OpenAt(ws);
    if open < n {
      assert GoesOn(cfg, evs, open, n - 1);
      assert Chunks(evs)[open..] == Chunks(evs)[open..n];
    }
  }

  // ---------- Drops ----------

  /** Data a buffer refuses: none of its business, or bytes it could not convert. */
  predicate Refuses(ctx: Option<Context>, md: Metadata, data: bytes) {
    !Admits(ctx, md, data) || (data != [] && !InterpretationOf(md).Convertible())
  }

  function Refused(evs: seq<Event>): nat {
    if |evs| == 0 then 0
    else
      var front := evs[..|evs| - 1];
      Refused(front) +
      (match evs[|evs| - 1]
       case Pushed(DataRecord(md, data), _) => if Refuses(ContextAfter(front), md, data) then 1 else 0
       case _ => 0)
  }

  lemma DropStep(cfg: Config, sid: nat, s: Buffer, ctx: Option<Context>, e: Event)
    requires BufferInv(s) && s.context == ctx
    ensures React(cfg, sid, s, e).buffer.dropped == s.dropped +
      (match e
       case Pushed(DataRecord(md, data), _) => if Refuses(ctx, md, data) then 1 else 0
       case _ => 0)
  {
    hide UnitOf, Join, AgreeOn;
  }

  /** A buffer counts exactly the data records it refuses; every other data record is in a
      window or is empty. */
  lemma {:induction false} DropsCounted(cfg: Config, sid: nat, evs: seq<Event>)
    ensures Replay(cfg, sid, evs).buffer.dropped == Refused(evs)
  {
    hide React, Refuses, Chunks, Windows, BufferInv, IsSegmentation;
    if |evs| != 0 {
      var front, e := evs[..|evs| - 1], evs[|evs| - 1];
      DropsCounted(cfg, sid, front);
      ReplaySound(cfg, sid, front);
      WindowsAreCorrect(cfg, front);
      BufferRefinesSegmentation(cfg, sid, front);
      DropStep(cfg, sid, Replay(cfg, sid, front).buffer, ContextAfter(front), e);
    }
  }
}
