/** The throughput meter: per-stream capture statistics and the worst-stream report. */
module Meter {
  import opened Bytes
  import opened Buffering
  import opened Routing
  import opened Ingest
  import opened Jitter
  import opened Capture
  import opened WindowLaws

  // ---------- One stream's statistics ----------

  datatype Stat = Stat(
    totalSamples: nat, pending: seq<Timed>, totals: Totals,
    rate: Option<real>, bandwidth: Option<real>, rateChanged: bool)

  const NO_STAT := Stat(0, [], START, None, None, false)

  /** Buffers a window; commits the oldest one if that is too many. */
  function AddWindow(s: Stat, w: Timed): Stat {
    var held := Insert(w, s.pending);
    if |held| > REORDER_WINDOW then s.(pending := held[1..], totals := Commit(s.totals, held[0]))
    else s.(pending := held)
  }

  /** Drains the jitter buffer. */
  function Finalized(s: Stat): Stat {
    s.(pending := [], totals := CommitOn(s.totals, s.pending))
  }

  function StatAfter(s: Stat, ws: seq<Timed>): Stat {
    if |ws| == 0 then s else AddWindow(StatAfter(s, ws[..|ws| - 1]), ws[|ws| - 1])
  }

  lemma {:induction false} StatIsFlow(s: Stat, ws: seq<Timed>)
    requires s.pending == [] && s.totals == START
    ensures StatAfter(s, ws) == s.(pending := AddAll(ws).pending, totals := CommitAll(AddAll(ws).committed))
  {
    hide Insert, Commit;
    if |ws| != 0 {
      var front := ws[..|ws| - 1];
      StatIsFlow(s, front);
      var f, g := AddAll(front), AddAll(ws);
      if g.committed != f.committed {
        assert g.committed[..|g.committed| - 1] == f.committed;
      }
    }
  }

  /** Drained, a history has been integrated in the order the jitter buffer gives. */
  lemma FinalTotals(s: Stat, ws: seq<Timed>)
    requires s.pending == [] && s.totals == START
    ensures Finalized(StatAfter(s, ws)).totals == CommitAll(CommitOrder(ws))
  {
    hide Commit, Insert;
    StatIsFlow(s, ws);
    CommitOnConcat(START, AddAll(ws).committed, AddAll(ws).pending);
  }

  lemma {:induction false} SumNConcat(a: seq<Timed>, b: seq<Timed>)
    ensures SumN(a + b) == SumN(a) + SumN(b)
  {
    if |b| == 0 {
      assert a + b == a;
    } else {
      assert (a + b)[..|a + b| - 1] == a + b[..|b| - 1];
      SumNConcat(a, b[..|b| - 1]);
    }
  }

  lemma SumNOne(w: Timed)
    ensures SumN([w]) == w.n
  {
    assert [w][..0] == [];
  }

  lemma {:induction false} SumNInsert(w: Timed, ws: seq<Timed>)
    ensures SumN(Insert(w, ws)) == SumN(ws) + w.n
  {
    SumNOne(w);
    if |ws| != 0 {
      SumNConcat([w], ws);
      if !Leq(w, ws[0]) {
        SumNInsert(w, ws[1..]);
        SumNConcat([ws[0]], ws[1..]);
        SumNConcat([ws[0]], Insert(w, ws[1..]));
        assert ws == [ws[0]] + ws[1..];
      }
    }
  }

  lemma {:induction false} SumNOrder(ws: seq<Timed>)
    ensures SumN(AddAll(ws).committed) + SumN(AddAll(ws).pending) == SumN(ws)
  {
    hide Insert;
    if |ws| != 0 {
      var f, w := AddAll(ws[..|ws| - 1]), ws[|ws| - 1];
      SumNOrder(ws[..|ws| - 1]);
      SumNInsert(w, f.pending);
      var held := Insert(w, f.pending);
      SumNOne(held[0]);
      SumNConcat(f.committed, [held[0]]);
      SumNConcat([held[0]], held[1..]);
      assert held == [held[0]] + held[1..];
    }
  }

  /** For any arrival order at all: after draining, delivered is every sample added, and
      expected is never below delivered. */
  lemma EfficiencySound(s: Stat, ws: seq<Timed>)
    requires s.pending == [] && s.totals == START
    ensures var t := Finalized(StatAfter(s, ws)).totals;
      && t.delivered == SumN(ws)
      && t.delivered as real <= t.expected
      && IsFrontier(t.frontier, CommitOrder(ws))
  {
    hide CommitAll, Insert, StatAfter, IsFrontier;
    FinalTotals(s, ws);
    TotalsMeaning(CommitOrder(ws));
    SumNOrder(ws);
    SumNConcat(AddAll(ws).committed, AddAll(ws).pending);
  }

  /** With reordering within the buffer's depth, delivered, expected and the frontier are
      those of sorting the whole history first, whatever the arrival order. */
  lemma JitterRefinesSorting(s: Stat, ws: seq<Timed>)
    requires s.pending == [] && s.totals == START && BoundedReordering(ws)
    ensures Finalized(StatAfter(s, ws)).totals == CommitAll(SortAll(ws))
    ensures InOrder(SortAll(ws))
    ensures forall i, j :: 0 <= i < j < |ws| && SortAll(ws)[i].ts == SortAll(ws)[j].ts ==>
      SortAll(ws)[i].rate <= SortAll(ws)[j].rate && (SortAll(ws)[i].rate == SortAll(ws)[j].rate ==> SortAll(ws)[i].n <= SortAll(ws)[j].n)
  {
    hide CommitAll, StatAfter, BoundedReordering;
    FinalTotals(s, ws);
    CommitOrderIsSorted(ws);
    SortAllSorts(ws);
  }

  /** The statistics object: a heap and an incremental integral, updated in place. */
  class StreamStat {
    var totalSamples: nat
    var delivered: nat
    var expected: real
    var lastEnd: Option<real>
    var curRate: Option<real>
    var pending: seq<Timed>
    var rate: Option<real>
    var bandwidth: Option<real>
    var rateChanged: bool

    function Reach(): Option<Frontier>
      reads this
    {
      if lastEnd.Some? && curRate.Some? then Some(Frontier(lastEnd.value, curRate.value)) else None
    }

    function View(): Stat
      reads this
    {
      Stat(totalSamples, pending, Totals(delivered, expected, Reach()), rate, bandwidth, rateChanged)
    }

    predicate Valid()
      reads this
    {
      lastEnd.Some? <==> curRate.Some?
    }

    constructor ()
      ensures Valid() && View() == NO_STAT
    {
      totalSamples := 0;
      delivered := 0;
      expected := 0.0;
      lastEnd := None;
      curRate := None;
      pending := [];
      rate := None;
      bandwidth := None;
      rateChanged := false;
    }

    method Add(ts: real, rate: real, n: nat)
      requires Valid() && 0.0 < rate && 0 < n
      modifies this
      ensures Valid() && View() == AddWindow(old(View()), AnyWindow(ts, rate, n))
    {
      hide Insert;
      pending := Insert(AnyWindow(ts, rate, n), pending);
      if |pending| > REORDER_WINDOW {
        var oldest := pending[0];
        pending := pending[1..];
        CommitWindow(oldest);
      }
    }

    method CommitWindow(w: Timed)
      requires Valid()
      modifies this
      ensures Valid() && View() == old(View()).(totals := Commit(old(View()).totals, w))
    {
      if lastEnd.Some? {
        var gap := w.ts - lastEnd.value;
        if gap > 0.0 {
          expected := expected + curRate.value * gap;
        }
      }
      expected := expected + w.n as real;
      delivered := delivered + w.n;
      var end := w.ts + w.n as real / w.rate;
      if lastEnd.None? || end > lastEnd.value {
        lastEnd := Some(end);
        curRate := Some(w.rate);
      }
    }

    method Finalize()
      requires Valid()
      modifies this
      ensures Valid() && View() == Finalized(old(View()))
    {
      hide Commit;
      ghost var start, all := View(), pending;
      ghost var done := 0;
      while pending != []
        invariant Valid() && done <= |all| && pending == all[done..]
        invariant View() == start.(pending := pending, totals := CommitOn(start.totals, all[..done]))
        decreases |pending|
      {
        var oldest := pending[0];
        pending := pending[1..];
        CommitWindow(oldest);
        assert all[..done + 1][..done] == all[..done];
        done := done + 1;
      }
      assert all[..done] == all;
    }
  }

  // ---------- The meter ----------

  const RADIX_FREQ_HZ := 1048576.0

  /** The declared sample rate a unit carries, in hertz. */
  function RateOf(u: Unit): Option<real> {
    if u.context.Some? && u.context.value.sampleRate.Some?
    then Some(u.context.value.sampleRate.value as real / RADIX_FREQ_HZ)
    else None
  }

  function BandwidthOf(u: Unit): Option<real> {
    if u.context.Some? && u.context.value.bandwidth.Some?
    then Some(u.context.value.bandwidth.value as real / RADIX_FREQ_HZ)
    else None
  }

  function BytesOf(u: Unit): nat {
    if u.interpretation.Some? then u.numSamples * u.interpretation.value.bytesPerSample else 0
  }

  /** Whether a unit can be placed in sample time. */
  predicate Rated(u: Unit) {
    RateOf(u).Some? && u.startTimestamp.Some? && RateOf(u).value > 0.0 && u.numSamples > 0
  }

  function TimedOf(u: Unit): Timed
    requires Rated(u)
  {
    AnyWindow(u.startTimestamp.value, RateOf(u).value, u.numSamples)
  }

  /** One unit in its stream's statistics. */
  function TallyStat(s: Stat, u: Unit): Stat {
    var counted := s.(totalSamples := s.totalSamples + u.numSamples);
    var rate := RateOf(u);
    if rate.None? then counted
    else
      var declared := counted.(
        rateChanged := s.rateChanged || (s.rate.Some? && rate != s.rate),
        rate := rate,
        bandwidth := if BandwidthOf(u).Some? then BandwidthOf(u) else s.bandwidth);
      if Rated(u) then AddWindow(declared, TimedOf(u)) else declared
  }

  /** The declared rate and bandwidth are the context's fields, in steps of 2^-20 hertz. */
  lemma DeclaredByContext(u: Unit)
    ensures RateOf(u).Some? <==> u.context.Some? && u.context.value.sampleRate.Some?
    ensures RateOf(u).Some? ==> RateOf(u).value * 1048576.0 == u.context.value.sampleRate.value as real
    ensures BandwidthOf(u).Some? <==> u.context.Some? && u.context.value.bandwidth.Some?
    ensures BandwidthOf(u).Some? ==> BandwidthOf(u).value * 1048576.0 == u.context.value.bandwidth.value as real
  {
  }

  /** A unit enters the integral exactly when it has a start time, samples and a positive
      declared rate, and then covers its own samples at that rate from that time on. */
  lemma RatedMeans(u: Unit)
    ensures Rated(u) <==>
      u.context.Some? && u.context.value.sampleRate.Some? && u.context.value.sampleRate.value > 0 && u.startTimestamp.Some? && u.numSamples > 0
    ensures Rated(u) ==>
      var w := TimedOf(u);
      && Some(w.ts) == u.startTimestamp && w.n == u.numSamples
      && (w.End() - w.ts) * u.context.value.sampleRate.value as real == 1048576.0 * u.numSamples as real
  {
    if Rated(u) {
      var w := TimedOf(u);
      var hz := u.context.value.sampleRate.value as real;
      assert w.rate * 1048576.0 == hz;
      assert (w.End() - w.ts) * w.rate == w.n as real;
      Rescale(w.End() - w.ts, w.rate, hz);
    }
  }

  lemma Rescale(span: real, rate: real, hz: real)
    requires rate * 1048576.0 == hz
    ensures span * hz == 1048576.0 * (span * rate)
  {
  }

  /** The tallied bytes are exactly those the units carry, if each is sound, or empty and
      without a sample size. */
  lemma {:induction false} BytesMetered(us: seq<Unit>)
    requires forall u :: u in us ==> Sound(u) || (u.interpretation.None? && u.raw == [])
    ensures SumBytes(us) == |Join(Raws(us))|
  {
    hide CanConvert;
    if |us| != 0 {
      var front, last := us[..|us| - 1], us[|us| - 1];
      BytesMetered(front);
      assert last in us;
      assert Raws(us)[..|us| - 1] == Raws(front);
    }
  }

  datatype Tally = Tally(totalSamples: nat, totalBytes: nat, unitCount: nat, order: seq<nat>, streams: map<nat, Stat>)

  const NO_TALLY := Tally(0, 0, 0, [], map[])

  function StatFor(m: map<nat, Stat>, sid: nat): Stat {
    if sid in m then m[sid] else NO_STAT
  }

  function TallyUnit(t: Tally, u: Unit): Tally {
    Tally(
      t.totalSamples + u.numSamples, t.totalBytes + BytesOf(u), t.unitCount + 1,
      if u.streamId in t.streams then t.order else t.order + [u.streamId],
      t.streams[u.streamId := TallyStat(StatFor(t.streams, u.streamId), u)])
  }

  function TallyAll(us: seq<Unit>): Tally {
    if |us| == 0 then NO_TALLY else TallyUnit(TallyAll(us[..|us| - 1]), us[|us| - 1])
  }

  /** The windows of a unit list that enter the integral. */
  function RatedWindows(us: seq<Unit>): seq<Timed> {
    if |us| == 0 then []
    else RatedWindows(us[..|us| - 1]) + (if Rated(us[|us| - 1]) then [TimedOf(us[|us| - 1])] else [])
  }

  function SumBytes(us: seq<Unit>): nat {
    if |us| == 0 then 0 else SumBytes(us[..|us| - 1]) + BytesOf(us[|us| - 1])
  }

  function SumSamples(us: seq<Unit>): nat {
    if |us| == 0 then 0 else SumSamples(us[..|us| - 1]) + us[|us| - 1].numSamples
  }

  /** The totals are those of all units; no stream's statistics depend on another's units. */
  lemma {:induction false} TallyMeaning(us: seq<Unit>, sid: nat)
    ensures var t, own := TallyAll(us), UnitsOf(us, sid);
      && t.totalSamples == SumSamples(us) && t.totalBytes == SumBytes(us) && t.unitCount == |us|
      && (sid in t.streams <==> own != [])
      && var s := StatFor(t.streams, sid);
      && s.totalSamples == SumSamples(own)
      && s.pending == AddAll(RatedWindows(own)).pending
      && s.totals == CommitAll(AddAll(RatedWindows(own)).committed)
  {
    hide TallyStat, Rated, Insert, Commit, AddAll, CommitAll, RatedWindows, BytesOf;
    if |us| == 0 {
      NothingTallied();
      assert UnitsOf(us, sid) == [];
    } else {
      var front, u := us[..|us| - 1], us[|us| - 1];
      TallyMeaning(front, sid);
      if u.streamId == sid {
        assert UnitsOf(us, sid) == UnitsOf(front, sid) + [u];
        OwnTally(StatFor(TallyAll(front).streams, sid), UnitsOf(front, sid), u);
      } else {
        assert UnitsOf(us, sid) == UnitsOf(front, sid);
      }
    }
  }

  lemma NothingTallied()
    ensures RatedWindows([]) == [] && AddAll([]) == Flow([], []) && CommitAll([]) == START
  {
  }

  lemma OwnTally(s: Stat, own: seq<Unit>, u: Unit)
    requires s.pending == AddAll(RatedWindows(own)).pending
    requires s.totals == CommitAll(AddAll(RatedWindows(own)).committed)
    requires s.totalSamples == SumSamples(own)
    ensures var s', own' := TallyStat(s, u), own + [u];
      && s'.totalSamples == SumSamples(own')
      && s'.pending == AddAll(RatedWindows(own')).pending
      && s'.totals == CommitAll(AddAll(RatedWindows(own')).committed)
  {
    hide Insert, Commit, Rated, AddAll, CommitAll;
    assert (own + [u])[..|own|] == own;
    var ws := RatedWindows(own);
    if Rated(u) {
      AddSnoc(ws, TimedOf(u));
      CommitAppend(AddAll(ws).committed, Insert(TimedOf(u), AddAll(ws).pending)[0]);
    } else {
      assert ws + [] == ws;
    }
    RatedDeclared(u);
  }

  lemma RatedDeclared(u: Unit)
    ensures Rated(u) ==> RateOf(u).Some?
  {
  }

  lemma AddSnoc(ws: seq<Timed>, w: Timed)
    ensures AddAll(ws + [w]) == AddOne(AddAll(ws), w)
  {
    hide AddOne;
    assert (ws + [w])[..|ws|] == ws;
  }

  lemma CommitAppend(ws: seq<Timed>, w: Timed)
    ensures CommitAll(ws + [w]) == Commit(CommitAll(ws), w)
  {
    hide Commit;
    assert (ws + [w])[..|ws|] == ws;
  }

  /** The streams are kept in order of appearance, each once. */
  lemma {:induction false} OrderOfAppearance(us: seq<Unit>)
    ensures var order := TallyAll(us).order;
      && (forall k :: k in TallyAll(us).streams <==> k in order)
      && (forall i, j :: 0 <= i < j < |order| ==> order[i] != order[j])
      && (forall j :: 0 <= j < |order| ==> Introduced(us, order, j))
  {
    hide TallyStat, BytesOf, Introduced, TallyUnit;
    SeenStreams(us);
    if |us| != 0 {
      var front, u := us[..|us| - 1], us[|us| - 1];
      OrderOfAppearance(front);
      var order, all := TallyAll(front).order, TallyAll(us).order;
      NextOrder(TallyAll(front), u);
      forall j | 0 <= j < |all|
        ensures Introduced(us, all, j)
      {
        if j < |order| {
          assert us == front + [u];
          StillIntroduced(front, u, order, all, j);
        } else {
          SeenStreams(front);
          NewlyIntroduced(us, order, all);
        }
      }
    }
  }

  lemma NextOrder(t: Tally, u: Unit)
    ensures TallyUnit(t, u).order == if u.streamId in t.streams then t.order else t.order + [u.streamId]
  {
    hide TallyStat, BytesOf;
  }

  /** Some unit is of stream `order[j]`, and all units before it of streams before that one. */
  predicate Introduced(us: seq<Unit>, order: seq<nat>, j: nat)
    requires j < |order|
  {
    exists p :: 0 <= p < |us| && Introduces(us, order, j, p)
  }

  predicate Introduces(us: seq<Unit>, order: seq<nat>, j: nat, p: nat)
    requires j < |order| && p < |us|
  {
    us[p].streamId == order[j] && forall q :: 0 <= q < p ==> us[q].streamId in order[..j]
  }

  lemma StillIntroduced(front: seq<Unit>, u: Unit, order: seq<nat>, all: seq<nat>, j: nat)
    requires j < |order| && order <= all && Introduced(front, order, j)
    ensures Introduced(front + [u], all, j)
  {
    var p :| 0 <= p < |front| && Introduces(front, order, j, p);
    assert all[..j] == order[..j];
    assert Introduces(front + [u], all, j, p);
  }

  lemma NewlyIntroduced(us: seq<Unit>, order: seq<nat>, all: seq<nat>)
    requires |us| > 0 && all == order + [us[|us| - 1].streamId]
    requires forall u :: u in us[..|us| - 1] ==> u.streamId in order
    ensures Introduced(us, all, |order|)
  {
    assert all[..|order|] == order;
    forall q | 0 <= q < |us| - 1
      ensures us[q].streamId in order
    {
      assert us[q] == us[..|us| - 1][q];
    }
    assert Introduces(us, all, |order|, |us| - 1);
  }

  lemma {:induction false} SeenStreams(us: seq<Unit>)
    ensures forall u :: u in us ==> u.streamId in TallyAll(us).order
    ensures forall k :: k in TallyAll(us).streams <==> k in TallyAll(us).order
  {
    hide TallyStat, BytesOf;
    if |us| != 0 {
      SeenStreams(us[..|us| - 1]);
    }
  }

  /** The rates a unit list declares, in order. */
  function DeclaredRates(us: seq<Unit>): seq<real> {
    if |us| == 0 then []
    else DeclaredRates(us[..|us| - 1]) + (if RateOf(us[|us| - 1]).Some? then [RateOf(us[|us| - 1]).value] else [])
  }

  /** The bandwidths declared along with a rate, in order. */
  function DeclaredBandwidths(us: seq<Unit>): seq<real> {
    if |us| == 0 then []
    else
      var u := us[|us| - 1];
      DeclaredBandwidths(us[..|us| - 1]) +
      (if RateOf(u).Some? && BandwidthOf(u).Some? then [BandwidthOf(u).value] else [])
  }

  function Latest(xs: seq<real>): Option<real> {
    if |xs| == 0 then None else Some(xs[|xs| - 1])
  }

  /** Whether a stream was retuned: two rates in a row differ. */
  predicate Retuned(rates: seq<real>) {
    exists i :: 0 < i < |rates| && rates[i - 1] != rates[i]
  }

  /** What a stream has declared: the latest rate, the latest bandwidth that came with a
      rate, and whether the rate ever changed. */
  predicate Declares(s: Stat, own: seq<Unit>) {
    && s.rate == Latest(DeclaredRates(own))
    && s.bandwidth == Latest(DeclaredBandwidths(own))
    && (s.rateChanged <==> Retuned(DeclaredRates(own)))
  }

  lemma RetunedAppend(rates: seq<real>, r: real)
    ensures Retuned(rates + [r]) <==> Retuned(rates) || (|rates| > 0 && rates[|rates| - 1] != r)
  {
    var all := rates + [r];
    if Retuned(rates) {
      var i :| 0 < i < |rates| && rates[i - 1] != rates[i];
      assert all[i - 1] != all[i];
    }
    if |rates| > 0 && rates[|rates| - 1] != r {
      assert all[|rates| - 1] != all[|rates|];
    }
  }

  lemma DeclareStep(s: Stat, own: seq<Unit>, u: Unit)
    requires Declares(s, own)
    ensures Declares(TallyStat(s, u), own + [u])
  {
    hide TallyStat, RateOf, BandwidthOf, Retuned;
    assert (own + [u])[..|own|] == own;
    if RateOf(u).Some? {
      RetunedAppend(DeclaredRates(own), RateOf(u).value);
    } else {
      assert DeclaredRates(own) + [] == DeclaredRates(own);
      assert DeclaredBandwidths(own) + [] == DeclaredBandwidths(own);
    }
    KeepsDeclared(s, u);
  }

  lemma KeepsDeclared(s: Stat, u: Unit)
    ensures var t := TallyStat(s, u);
      if RateOf(u).None? then t.rate == s.rate && t.bandwidth == s.bandwidth && t.rateChanged == s.rateChanged
      else
        && t.rate == RateOf(u)
        && t.bandwidth == (if BandwidthOf(u).Some? then BandwidthOf(u) else s.bandwidth)
        && t.rateChanged == (s.rateChanged || (s.rate.Some? && RateOf(u) != s.rate))
  {
    hide RateOf, BandwidthOf, Insert, Commit;
  }

  /** The declarations of each stream are its own. */
  lemma {:induction false} DeclarationsMeaning(us: seq<Unit>, sid: nat)
    ensures Declares(StatFor(TallyAll(us).streams, sid), UnitsOf(us, sid))
  {
    hide TallyStat, Declares, BytesOf;
    if |us| == 0 {
      NothingDeclared();
    } else {
      var front, u := us[..|us| - 1], us[|us| - 1];
      DeclarationsMeaning(front, sid);
      if u.streamId == sid {
        assert UnitsOf(us, sid) == UnitsOf(front, sid) + [u];
        DeclareStep(StatFor(TallyAll(front).streams, sid), UnitsOf(front, sid), u);
      } else {
        assert UnitsOf(us, sid) == UnitsOf(front, sid);
      }
    }
  }

  lemma NothingDeclared()
    ensures Declares(NO_STAT, [])
  {
  }

  /** A stream's final totals are the integral of its own rated windows, in the order the
      jitter buffer gives: sorted order, if they were reordered within its depth. */
  lemma MeterIntegrates(us: seq<Unit>, sid: nat)
    ensures var t, ws := Finalized(StatFor(TallyAll(us).streams, sid)).totals, RatedWindows(UnitsOf(us, sid));
      && t == CommitAll(CommitOrder(ws))
      && t.delivered == SumN(ws) && t.delivered as real <= t.expected
      && (BoundedReordering(ws) ==> t == CommitAll(SortAll(ws)))
  {
    hide CommitAll, Insert, TallyAll, BoundedReordering, UnitsOf, RatedWindows;
    var ws := RatedWindows(UnitsOf(us, sid));
    TallyMeaning(us, sid);
    StatIsFlow(NO_STAT, ws);
    FinalTotals(NO_STAT, ws);
    EfficiencySound(NO_STAT, ws);
    CommitOrderIsSorted(ws);
    DrainedTotals(StatFor(TallyAll(us).streams, sid), StatAfter(NO_STAT, ws));
  }

  lemma DrainedTotals(s: Stat, t: Stat)
    requires s.pending == t.pending && s.totals == t.totals
    ensures Finalized(s).totals == Finalized(t).totals
  {
  }

  // ---------- The report ----------

  datatype Report = NoSamples | RateUnknown | TooShort | Worst(stream: nat, delivered: nat, expected: real)

  predicate Measurable(s: Stat) {
    s.rate.Some? && s.totals.expected > 0.0
  }

  function Efficiency(s: Stat): real
    requires Measurable(s)
  {
    s.totals.delivered as real / s.totals.expected
  }

  /** What a report says of the drained statistics, streams in order of appearance: nothing
      to say, or the stream whose share of delivered samples is least, the first one of
      several. Shares are compared by cross multiplication. */
  ghost predicate Reports(totalSamples: nat, order: seq<nat>, stats: map<nat, Stat>, r: Report)
    requires forall k :: k in order ==> k in stats
  {
    match r
    case NoSamples => totalSamples == 0
    case RateUnknown => totalSamples > 0 && forall k :: k in order ==> stats[k].rate.None?
    case TooShort =>
      && totalSamples > 0
      && (exists k :: k in order && stats[k].rate.Some?)
      && forall k :: k in order ==> stats[k].rate.Some? ==> stats[k].totals.expected <= 0.0
    case Worst(sid, delivered, expected) =>
      && totalSamples > 0
      && sid in order && stats[sid].rate.Some?
      && delivered == stats[sid].totals.delivered && expected == stats[sid].totals.expected && expected > 0.0
      && (exists i: nat :: IsWorst(order, stats, i) && order[i] == sid)
  }

  /** The stream's share is at most that of every other measured one, and less than that of
      those before it. */
  ghost predicate IsWorst(order: seq<nat>, stats: map<nat, Stat>, i: nat)
    requires forall k :: k in order ==> k in stats
  {
    && i < |order|
    && var w := stats[order[i]].totals;
    && (forall j :: 0 <= j < |order| && stats[order[j]].rate.Some? && stats[order[j]].totals.expected > 0.0 ==>
          w.delivered as real * stats[order[j]].totals.expected <= stats[order[j]].totals.delivered as real * w.expected)
    && (forall j :: 0 <= j < i && stats[order[j]].rate.Some? && stats[order[j]].totals.expected > 0.0 ==>
          w.delivered as real * stats[order[j]].totals.expected < stats[order[j]].totals.delivered as real * w.expected)
  }

  /** Comparing two shares, and multiplying out. */
  lemma Shares(s: Stat, t: Stat)
    requires Measurable(s) && Measurable(t)
    ensures Efficiency(s) <= Efficiency(t) <==>
      s.totals.delivered as real * t.totals.expected <= t.totals.delivered as real * s.totals.expected
  {
    var a, b, c, d := s.totals.delivered as real, s.totals.expected, t.totals.delivered as real, t.totals.expected;
    var x, y := Efficiency(s), Efficiency(t);
    assert a == x * b && c == y * d;
    assert a * d == x * (b * d) && c * b == y * (b * d);
    ScaledOrder(x, y, b * d);
  }

  lemma ScaledOrder(x: real, y: real, m: real)
    requires m > 0.0
    ensures x <= y <==> x * m <= y * m
  {
    assert (y - x) * m == y * m - x * m;
  }

  /** Picks the report from drained statistics. */
  method Choose(totalSamples: nat, order: seq<nat>, stats: map<nat, Stat>) returns (r: Report)
    requires forall k :: k in order ==> k in stats
    ensures Reports(totalSamples, order, stats, r)
  {
    hide Efficiency;
    if totalSamples == 0 {
      return NoSamples;
    }
    var declared, worst := false, None;
    for i := 0 to |order|
      invariant declared <==> exists j :: 0 <= j < i && stats[order[j]].rate.Some?
      invariant worst.None? ==> forall j :: 0 <= j < i ==> !Measurable(stats[order[j]])
      invariant worst.Some? ==> declared && 0 <= worst.value < i && Measurable(stats[order[worst.value]])
      invariant worst.Some? ==> forall j :: 0 <= j < i && Measurable(stats[order[j]]) ==>
        && Efficiency(stats[order[worst.value]]) <= Efficiency(stats[order[j]])
        && (j < worst.value ==> Efficiency(stats[order[worst.value]]) < Efficiency(stats[order[j]]))
    {
      var s := stats[order[i]];
      if s.rate.Some? {
        declared := true;
        if s.totals.expected > 0.0 {
          if worst.None? || Efficiency(s) < Efficiency(stats[order[worst.value]]) {
            worst := Some(i);
          }
        }
      }
    }
    if !declared {
      r := RateUnknown;
    } else if worst.None? {
      r := TooShort;
    } else {
      var sid := order[worst.value];
      LeastIsWorst(order, stats, worst.value);
      r := Worst(sid, stats[sid].totals.delivered, stats[sid].totals.expected);
    }
  }

  lemma LeastIsWorst(order: seq<nat>, stats: map<nat, Stat>, i: nat)
    requires i < |order| && (forall k :: k in order ==> k in stats) && Measurable(stats[order[i]])
    requires forall j :: 0 <= j < |order| && Measurable(stats[order[j]]) ==>
      && Efficiency(stats[order[i]]) <= Efficiency(stats[order[j]])
      && (j < i ==> Efficiency(stats[order[i]]) < Efficiency(stats[order[j]]))
    ensures IsWorst(order, stats, i)
  {
    hide Efficiency;
    forall j | 0 <= j < |order| && Measurable(stats[order[j]])
      ensures var w, t := stats[order[i]].totals, stats[order[j]].totals;
        && w.delivered as real * t.expected <= t.delivered as real * w.expected
        && (j < i ==> w.delivered as real * t.expected < t.delivered as real * w.expected)
    {
      Shares(stats[order[i]], stats[order[j]]);
      Shares(stats[order[j]], stats[order[i]]);
    }
  }

  /** The statistics of every stream, drained. */
  function DrainedStats(t: Tally): map<nat, Stat> {
    map k | k in t.streams :: Finalized(t.streams[k])
  }

  /** Nothing is ever reported above one hundred percent: whatever was tallied, the reported
      stream delivered everything it is credited with and was expected to deliver no less. */
  lemma EfficiencyAtMostOne(us: seq<Unit>, r: Report)
    requires var t := TallyAll(us);
      (forall k :: k in t.order ==> k in DrainedStats(t)) && Reports(t.totalSamples, t.order, DrainedStats(t), r)
    ensures r.Worst? ==>
      && r.delivered as real <= r.expected && 0.0 < r.expected
      && r.delivered == SumN(RatedWindows(UnitsOf(us, r.stream)))
  {
    hide CommitAll, CommitOn, TallyAll, BoundedReordering, RatedWindows, UnitsOf, SumN, Finalized, IsWorst;
    if r.Worst? {
      MeterIntegrates(us, r.stream);
    }
  }

  /** The meter object: it wraps a consumer and tallies every unit on its way there. */
  class ThroughputMeter {
    const wrapped: Sink
    var totalSamples: nat
    var totalBytes: nat
    var unitCount: nat
    var streams: map<nat, StreamStat>
    var order: seq<nat>  // the dictionary's insertion order

    ghost predicate Valid()
      reads this, streams.Values
    {
      && (forall k :: k in streams <==> k in order)
      && (forall i, j :: 0 <= i < j < |order| ==> order[i] != order[j])
      && (forall k :: k in streams ==> streams[k].Valid())
      && (forall j, k :: j in streams && k in streams && j != k ==> streams[j] != streams[k])
    }

    ghost function Stats(): map<nat, Stat>
      reads this, streams.Values
    {
      map k | k in streams :: streams[k].View()
    }

    ghost function View(): Tally
      reads this, streams.Values
    {
      Tally(totalSamples, totalBytes, unitCount, order, Stats())
    }

    constructor (wrapped: Sink)
      ensures Valid() && View() == NO_TALLY && this.wrapped == wrapped && streams == map[]
    {
      this.wrapped := wrapped;
      totalSamples := 0;
      totalBytes := 0;
      unitCount := 0;
      streams := map[];
      order := [];
    }

    /** When one stream's statistics have changed and the others have not. */
    twostate lemma OneStat(sid: nat)
      requires old(Valid()) && streams == old(streams) && order == old(order)
      requires sid in streams && streams[sid].Valid()
      requires forall k :: k in streams && k != sid ==> unchanged(streams[k])
      ensures Valid()
      ensures sid in old(Stats()) && old(Stats())[sid] == old(streams[sid].View())
      ensures Stats() == old(Stats())[sid := streams[sid].View()]
    {
      hide StreamStat.View;
    }

    twostate lemma AddedStat(sid: nat, new created: StreamStat)
      requires old(Valid()) && sid !in old(streams) && !old(allocated(created))
      requires streams == old(streams)[sid := created] && order == old(order) + [sid]
      requires forall k :: k in old(streams) ==> unchanged(old(streams)[k])
      requires created.Valid()
      ensures Valid() && Stats() == old(Stats())[sid := created.View()]
    {
      hide StreamStat.View;
    }

    /** Gives a new stream its own statistics. */
    method Create(sid: nat)
      requires Valid() && sid !in streams
      modifies this
      ensures Valid() && fresh(streams.Values - old(streams.Values)) && sid in streams
      ensures order == old(order) + [sid] && Stats() == old(Stats())[sid := NO_STAT]
      ensures totalSamples == old(totalSamples) && totalBytes == old(totalBytes) && unitCount == old(unitCount)
    {
      hide StreamStat.View, Valid, Stats;
      var created := new StreamStat();
      streams := streams[sid := created];
      order := order + [sid];
      AddedStat(sid, created);
    }

    /** Tallies a unit, then hands it on. */
    method Call(u: Unit)
      requires Valid()
      modifies this, streams.Values, wrapped
      ensures Valid() && fresh(streams.Values - old(streams.Values))
      ensures View() == TallyUnit(old(View()), u)
      ensures wrapped.units == old(wrapped.units) + [u]
    {
      hide TallyStat, StreamStat.View, BytesOf, Valid, Stats;
      ghost var before := Stats();
      CountTotals(u);
      StatKeys();
      if u.streamId !in streams {
        Create(u.streamId);
      }
      StatKeys();
      assert Stats() == before[u.streamId := StatFor(before, u.streamId)];
      MeasureOne(u);
      wrapped.Emit(u);
    }

    method CountTotals(u: Unit)
      requires Valid()
      modifies this`totalSamples, this`totalBytes, this`unitCount
      ensures Valid() && Stats() == old(Stats())
      ensures totalSamples == old(totalSamples) + u.numSamples
      ensures totalBytes == old(totalBytes) + BytesOf(u) && unitCount == old(unitCount) + 1
    {
      hide BytesOf, StreamStat.View;
      totalSamples := totalSamples + u.numSamples;
      totalBytes := totalBytes + BytesOf(u);
      unitCount := unitCount + 1;
    }

    lemma StatKeys()
      requires Valid()
      ensures Stats().Keys == streams.Keys
    {
    }

    method MeasureOne(u: Unit)
      requires Valid() && u.streamId in streams
      modifies streams.Values
      ensures Valid()
      ensures u.streamId in old(Stats()) &&
        Stats() == old(Stats())[u.streamId := TallyStat(old(Stats())[u.streamId], u)]
    {
      hide TallyStat, StreamStat.View;
      Measure(streams[u.streamId], u);
      OneStat(u.streamId);
    }

    static method Measure(stat: StreamStat, u: Unit)
      requires stat.Valid()
      modifies stat
      ensures stat.Valid() && stat.View() == TallyStat(old(stat.View()), u)
    {
      hide AddWindow;
      stat.totalSamples := stat.totalSamples + u.numSamples;
      var rate := RateOf(u);
      if rate.Some? {
        if stat.rate.Some? && rate != stat.rate {
          stat.rateChanged := true;
        }
        stat.rate := rate;
        var bandwidth := BandwidthOf(u);
        if bandwidth.Some? {
          stat.bandwidth := bandwidth;
        }
        if u.startTimestamp.Some? && rate.value > 0.0 && u.numSamples > 0 {
          stat.Add(u.startTimestamp.value, rate.value, u.numSamples);
        }
      }
    }

    /** Drains every stream's jitter buffer, then reports. */
    method CaptureSummary() returns (r: Report)
      requires Valid()
      modifies streams.Values
      ensures Valid() && order == old(order)
      ensures totalSamples == 0 ==> r == NoSamples && Stats() == old(Stats())
      ensures totalSamples > 0 ==> Stats() == map k | k in old(Stats()) :: Finalized(old(Stats())[k])
      ensures (forall k :: k in order ==> k in Stats()) && Reports(totalSamples, order, Stats(), r)
    {
      hide StreamStat.View, Finalized, Reports, Valid, Stats;
      ghost var before := Stats();
      StatKeys();
      Ordered();
      if totalSamples == 0 {
        NoneReported();
        return NoSamples;
      }
      for i := 0 to |order|
        invariant Valid()
        invariant PartlyDrained(before, i)
      {
        DrainOne(i, before);
      }
      AllDrained(before);
      StatKeys();
      Ordered();
      var drained := Snapshot();
      r := Choose(totalSamples, order, drained);
    }

    lemma Ordered()
      requires Valid()
      ensures forall k :: k in streams <==> k in order
    {
    }

    lemma NoneReported()
      requires totalSamples == 0 && forall k :: k in order ==> k in Stats()
      ensures Reports(totalSamples, order, Stats(), NoSamples)
    {
    }

    /** The first `i` streams are drained and the others are as they were. */
    ghost predicate PartlyDrained(before: map<nat, Stat>, i: nat)
      reads this, streams.Values
    {
      && i <= |order| && Stats().Keys == before.Keys
      && forall k :: k in before ==> Stats()[k] == if k in order[..i] then Finalized(before[k]) else before[k]
    }

    lemma AllDrained(before: map<nat, Stat>)
      requires Valid() && PartlyDrained(before, |order|)
      ensures Stats() == map k | k in before :: Finalized(before[k])
    {
      hide Finalized, StreamStat.View;
      assert order[..|order|] == order;
    }

    method DrainOne(i: nat, ghost before: map<nat, Stat>)
      requires Valid() && i < |order| && PartlyDrained(before, i)
      modifies streams.Values
      ensures Valid() && PartlyDrained(before, i + 1)
    {
      hide Finalized, StreamStat.View;
      var sid := order[i];
      assert sid !in order[..i] && order[..i + 1] == order[..i] + [sid];
      streams[sid].Finalize();
      OneStat(sid);
    }

    /** The statistics as values, for the report. */
    method Snapshot() returns (stats: map<nat, Stat>)
      requires Valid()
      ensures stats == Stats()
    {
      stats := map k | k in streams :: streams[k].View();
    }
  }
}
