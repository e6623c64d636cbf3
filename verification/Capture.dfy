/** The capture-efficiency integral: delivered and expected samples over sample time. */
module Capture {
  import opened Bytes
  import opened Jitter

  /** How far committed windows reach, and the rate in effect there. */
  datatype Frontier = Frontier(end: real, rate: real)

  datatype Totals = Totals(delivered: nat, expected: real, frontier: Option<Frontier>)

  const START := Totals(0, 0.0, None)

  /** The samples lost in the sample time between the frontier and a window's start. */
  function LossBefore(f: Option<Frontier>, ts: real): real {
    if f.Some? && ts - f.value.end > 0.0 then f.value.rate * (ts - f.value.end) else 0.0
  }

  function Commit(t: Totals, w: Timed): Totals {
    Totals(
      t.delivered + w.n,
      t.expected + LossBefore(t.frontier, w.ts) + w.n as real,
      if t.frontier.None? || w.End() > t.frontier.value.end then Some(Frontier(w.End(), w.rate)) else t.frontier)
  }

  function CommitOn(t: Totals, ws: seq<Timed>): Totals {
    if |ws| == 0 then t else Commit(CommitOn(t, ws[..|ws| - 1]), ws[|ws| - 1])
  }

  function CommitAll(ws: seq<Timed>): Totals {
    CommitOn(START, ws)
  }

  lemma {:induction false} CommitOnConcat(t: Totals, a: seq<Timed>, b: seq<Timed>)
    ensures CommitOn(t, a + b) == CommitOn(CommitOn(t, a), b)
  {
    hide Commit;
    if |b| == 0 {
      assert a + b == a;
    } else {
      assert (a + b)[..|a + b| - 1] == a + b[..|b| - 1];
      CommitOnConcat(t, a, b[..|b| - 1]);
    }
  }

  function SumN(ws: seq<Timed>): nat {
    if |ws| == 0 then 0 else SumN(ws[..|ws| - 1]) + ws[|ws| - 1].n
  }

  // ---------- For any commit order ----------

  /** A stretch of sample time nothing was received for, charged at a rate. */
  datatype Gap = Gap(start: real, end: real, rate: real)

  function NewGaps(f: Option<Frontier>, ts: real): seq<Gap> {
    if f.Some? && ts - f.value.end > 0.0 then [Gap(f.value.end, ts, f.value.rate)] else []
  }

  function GapsOf(ws: seq<Timed>): seq<Gap> {
    if |ws| == 0 then []
    else GapsOf(ws[..|ws| - 1]) + NewGaps(CommitAll(ws[..|ws| - 1]).frontier, ws[|ws| - 1].ts)
  }

  function Lost(gs: seq<Gap>): real {
    if |gs| == 0 then 0.0 else Lost(gs[..|gs| - 1]) + gs[|gs| - 1].rate * (gs[|gs| - 1].end - gs[|gs| - 1].start)
  }

  lemma LostAppend(gs: seq<Gap>, g: Gap)
    ensures Lost(gs + [g]) == Lost(gs) + g.rate * (g.end - g.start)
  {
    assert (gs + [g])[..|gs|] == gs;
  }

  lemma PositiveProduct(a: real, b: real)
    requires 0.0 < a && 0.0 <= b
    ensures 0.0 <= a * b
  {
  }

  lemma PositiveSpan(w: Timed)
    ensures w.ts < w.End()
    ensures w.rate * (w.End() - w.ts) == w.n as real
  {
    var span := w.n as real / w.rate;
    assert w.rate * span == w.n as real;
    if span <= 0.0 {
      PositiveProduct(w.rate, -span);
    }
  }

  lemma LossNotNegative(f: Option<Frontier>, ts: real)
    requires f.Some? ==> 0.0 < f.value.rate
    ensures 0.0 <= LossBefore(f, ts)
  {
    if f.Some? && ts - f.value.end > 0.0 {
      PositiveProduct(f.value.rate, ts - f.value.end);
    }
  }

  /** The first window to reach the furthest end of all. */
  predicate Leads(ws: seq<Timed>, i: nat) {
    && i < |ws|
    && (forall j :: 0 <= j < |ws| ==> ws[j].End() <= ws[i].End())
    && (forall j :: 0 <= j < i ==> ws[j].End() < ws[i].End())
  }

  /** Where the frontier is: the furthest end, at the rate of the first window to reach it. */
  ghost predicate IsFrontier(f: Option<Frontier>, ws: seq<Timed>) {
    && (f.None? <==> ws == [])
    && (f.Some? ==> exists i: nat :: Leads(ws, i) && f.value == Frontier(ws[i].End(), ws[i].rate))
  }

  /** Whatever the commit order: delivered counts every sample once; expected is delivered
      plus the gap losses and so never below it; the frontier is the furthest end. */
  lemma {:induction false} TotalsMeaning(ws: seq<Timed>)
    ensures var t := CommitAll(ws);
      && t.delivered == SumN(ws)
      && t.expected == t.delivered as real + Lost(GapsOf(ws))
      && t.delivered as real <= t.expected
      && IsFrontier(t.frontier, ws)
      && (t.frontier.Some? ==> 0.0 < t.frontier.value.rate)
  {
    hide AnyWindow.End, LossBefore, NewGaps, Lost, IsFrontier;
    if |ws| == 0 {
      NothingCommitted();
    } else {
      var front, w := ws[..|ws| - 1], ws[|ws| - 1];
      assert ws == front + [w];
      TotalsMeaning(front);
      TotalsStep(front, w, CommitAll(front).frontier);
    }
  }

  lemma NothingCommitted()
    ensures Lost([]) == 0.0 && IsFrontier(None, [])
  {
  }

  lemma TotalsStep(front: seq<Timed>, w: Timed, f: Option<Frontier>)
    requires f == CommitAll(front).frontier && IsFrontier(f, front)
    requires f.Some? ==> 0.0 < f.value.rate
    ensures var ws := front + [w];
      && 0.0 <= LossBefore(f, w.ts)
      && Lost(GapsOf(front) + NewGaps(f, w.ts)) == Lost(GapsOf(front)) + LossBefore(f, w.ts)
      && IsFrontier(Commit(CommitAll(front), w).frontier, ws)
  {
    hide AnyWindow.End, CommitAll, GapsOf;
    LossNotNegative(f, w.ts);
    if NewGaps(f, w.ts) != [] {
      LostAppend(GapsOf(front), NewGaps(f, w.ts)[0]);
    } else {
      assert GapsOf(front) + [] == GapsOf(front);
    }
    LeaderStep(front, w, f);
  }

  lemma LeaderStep(front: seq<Timed>, w: Timed, f: Option<Frontier>)
    requires f == CommitAll(front).frontier && IsFrontier(f, front)
    ensures IsFrontier(Commit(CommitAll(front), w).frontier, front + [w])
  {
    hide AnyWindow.End, CommitAll;
    var ws := front + [w];
    if f.Some? {
      var i: nat :| Leads(front, i) && f.value == Frontier(front[i].End(), front[i].rate);
      assert forall j :: 0 <= j < |front| ==> ws[j] == front[j];
      if w.End() > f.value.end {
        assert Leads(ws, |front|);
      } else {
        assert Leads(ws, i);
      }
    } else {
      assert ws == [w] && Leads(ws, 0);
    }
  }

  // ---------- In sample-time order ----------

  predicate InOrder(ws: seq<Timed>) {
    forall i, j :: 0 <= i < j < |ws| ==> ws[i].ts <= ws[j].ts
  }

  predicate Covers(w: Timed, t: real) {
    w.ts <= t < w.End()
  }

  predicate Covered(ws: seq<Timed>, t: real) {
    exists w :: w in ws && Covers(w, t)
  }

  predicate InGap(gs: seq<Gap>, t: real) {
    exists g :: g in gs && g.start <= t < g.end
  }

  /** Gaps that follow one another without touching what lies between them. */
  predicate Ascending(gs: seq<Gap>, until: real) {
    && (forall g :: g in gs ==> g.start < g.end <= until)
    && (forall i, j :: 0 <= i < j < |gs| ==> gs[i].end <= gs[j].start)
  }

  /** The gaps of windows committed in time order are exactly the sample times between the
      first start and the furthest end that no window covers: overlapping, nested and
      duplicate windows included. */
  lemma {:induction false} GapsAreUncovered(ws: seq<Timed>)
    requires InOrder(ws) && |ws| > 0
    ensures var f := CommitAll(ws).frontier;
      && f.Some?
      && Ascending(GapsOf(ws), ws[|ws| - 1].ts)
      && ws[|ws| - 1].ts < f.value.end
      && forall t: real :: ws[0].ts <= t < f.value.end ==> (InGap(GapsOf(ws), t) <==> !Covered(ws, t))
  {
    hide InGap, Covered, Ascending, AnyWindow.End, CommitAll, GapsOf, NewGaps, Commit;
    var front, w := ws[..|ws| - 1], ws[|ws| - 1];
    TotalsMeaning(ws);
    if |ws| == 1 {
      OneWindow(ws);
    } else {
      TotalsMeaning(front);
      GapsAreUncovered(front);
      var f := CommitAll(front).frontier.value;
      FrontierStep(ws);
      assert ws == front + [w];
      forall t: real | ws[0].ts <= t < CommitAll(ws).frontier.value.end
        ensures InGap(GapsOf(ws), t) <==> !Covered(ws, t)
      {
        OneTime(front, w, t);
      }
      MoreGaps(GapsOf(front), front[|front| - 1].ts, f, w.ts);
    }
  }

  lemma OneWindow(ws: seq<Timed>)
    requires |ws| == 1
    ensures GapsOf(ws) == [] && Ascending([], ws[0].ts)
    ensures CommitAll(ws).frontier == Some(Frontier(ws[0].End(), ws[0].rate)) && ws[0].ts < ws[0].End()
    ensures forall t: real :: ws[0].ts <= t < ws[0].End() ==> (InGap([], t) <==> !Covered(ws, t))
  {
    assert ws[..0] == [];
    assert ws[0] in ws;
    PositiveSpan(ws[0]);
    hide AnyWindow.End;
  }

  lemma FrontierStep(ws: seq<Timed>)
    requires |ws| > 1
    ensures var f, g, w := CommitAll(ws[..|ws| - 1]).frontier, CommitAll(ws).frontier, ws[|ws| - 1];
      g.Some? && (f.Some? ==> w.End() <= g.value.end && f.value.end <= g.value.end && (g.value.end == f.value.end || g.value.end == w.End()))
    ensures GapsOf(ws) == GapsOf(ws[..|ws| - 1]) + NewGaps(CommitAll(ws[..|ws| - 1]).frontier, ws[|ws| - 1].ts)
    ensures ws[|ws| - 1].ts < ws[|ws| - 1].End()
  {
    PositiveSpan(ws[|ws| - 1]);
    hide AnyWindow.End;
  }

  lemma MoreGaps(gs: seq<Gap>, last: real, f: Frontier, ts: real)
    requires Ascending(gs, last) && last <= ts && last < f.end
    ensures Ascending(gs + NewGaps(Some(f), ts), ts)
  {
  }

  lemma OneTime(front: seq<Timed>, w: Timed, t: real)
    requires InOrder(front + [w]) && |front| > 0
    requires CommitAll(front).frontier.Some? && IsFrontier(CommitAll(front).frontier, front)
    requires var f := CommitAll(front).frontier.value;
      && Ascending(GapsOf(front), front[|front| - 1].ts) && front[|front| - 1].ts < f.end
      && (front[0].ts <= t < f.end ==> (InGap(GapsOf(front), t) <==> !Covered(front, t)))
      && front[0].ts <= t && (t < f.end || t < w.End())
    ensures InGap(GapsOf(front) + NewGaps(CommitAll(front).frontier, w.ts), t) <==> !Covered(front + [w], t)
  {
    hide AnyWindow.End, CommitAll, GapsOf;
    var f, gs := CommitAll(front).frontier, GapsOf(front);
    assert front[|front| - 1] in front;
    assert (front + [w])[|front| - 1].ts <= (front + [w])[|front|].ts;
    CoveredAppend(front, w, t);
    GapAppend(gs, f, w.ts, t);
  }

  lemma CoveredAppend(front: seq<Timed>, w: Timed, t: real)
    ensures Covered(front + [w], t) <==> Covered(front, t) || Covers(w, t)
  {
    hide AnyWindow.End;
  }

  lemma GapAppend(gs: seq<Gap>, f: Option<Frontier>, ts: real, t: real)
    ensures InGap(gs + NewGaps(f, ts), t) <==> InGap(gs, t) || (f.Some? && f.value.end <= t < ts)
  {
    if NewGaps(f, ts) != [] {
      assert NewGaps(f, ts)[0] in gs + NewGaps(f, ts);
    }
  }

  // ---------- One constant rate ----------

  function Length(gs: seq<Gap>): real {
    if |gs| == 0 then 0.0 else Length(gs[..|gs| - 1]) + (gs[|gs| - 1].end - gs[|gs| - 1].start)
  }

  predicate SteadyRate(ws: seq<Timed>, rate: real) {
    forall w :: w in ws ==> w.rate == rate
  }

  lemma {:induction false} SteadyGaps(ws: seq<Timed>, rate: real)
    requires SteadyRate(ws, rate)
    ensures forall g :: g in GapsOf(ws) ==> g.rate == rate
  {
    hide CommitAll;
    if |ws| != 0 {
      SteadyGaps(ws[..|ws| - 1], rate);
      TotalsMeaning(ws[..|ws| - 1]);
    }
  }

  lemma {:induction false} LostAtRate(gs: seq<Gap>, rate: real)
    requires forall g :: g in gs ==> g.rate == rate
    ensures Lost(gs) == rate * Length(gs)
  {
    if |gs| != 0 {
      LostAtRate(gs[..|gs| - 1], rate);
      Distribute(rate, Length(gs[..|gs| - 1]), gs[|gs| - 1].end - gs[|gs| - 1].start);
    }
  }

  lemma Distribute(a: real, b: real, c: real)
    ensures a * (b + c) == a * b + a * c
  {
  }

  /** Integral meaning: at one constant rate the loss is that rate times the length of the
      uncovered sample time. */
  lemma LossIsUncoveredTime(ws: seq<Timed>, rate: real)
    requires InOrder(ws) && |ws| > 0 && SteadyRate(ws, rate)
    ensures var t, gs := CommitAll(ws), GapsOf(ws);
      && t.expected - t.delivered as real == rate * Length(gs)
      && t.frontier.Some? && Ascending(gs, t.frontier.value.end)
      && forall x: real :: ws[0].ts <= x < t.frontier.value.end ==> (InGap(gs, x) <==> !Covered(ws, x))
  {
    hide CommitAll, GapsOf, InGap, Covered, SteadyRate, IsFrontier, Lost, Length, SumN, InOrder;
    TotalsMeaning(ws);
    GapsAreUncovered(ws);
    SteadyGaps(ws, rate);
    LostAtRate(GapsOf(ws), rate);
  }

  predicate Disjoint(ws: seq<Timed>) {
    forall i :: 0 < i < |ws| ==> ws[i - 1].End() <= ws[i].ts
  }

  /** For disjoint windows at one rate, expected is that rate times the whole span. */
  lemma {:induction false} DisjointExpected(ws: seq<Timed>, rate: real)
    requires |ws| > 0 && SteadyRate(ws, rate) && Disjoint(ws)
    ensures CommitAll(ws).frontier == Some(Frontier(ws[|ws| - 1].End(), rate))
    ensures CommitAll(ws).expected == rate * (ws[|ws| - 1].End() - ws[0].ts)
  {
    hide AnyWindow.End, CommitAll, Commit, SteadyRate, Disjoint;
    var w := ws[|ws| - 1];
    SteadyParts(ws, rate);
    CommitSnoc(ws);
    if |ws| == 1 {
      FirstSpan(w);
    } else {
      DisjointExpected(ws[..|ws| - 1], rate);
      NextSpan(CommitAll(ws[..|ws| - 1]), w, ws[0].ts);
    }
  }

  lemma SteadyParts(ws: seq<Timed>, rate: real)
    requires |ws| > 0 && SteadyRate(ws, rate) && Disjoint(ws)
    ensures ws[|ws| - 1].rate == rate && SteadyRate(ws[..|ws| - 1], rate) && Disjoint(ws[..|ws| - 1])
    ensures |ws| > 1 ==> ws[|ws| - 2].End() <= ws[|ws| - 1].ts
  {
    hide AnyWindow.End;
    assert ws[|ws| - 1] in ws;
  }

  lemma FirstSpan(w: Timed)
    ensures Commit(START, w).frontier == Some(Frontier(w.End(), w.rate))
    ensures Commit(START, w).expected == w.rate * (w.End() - w.ts)
  {
    hide AnyWindow.End;
    PositiveSpan(w);
  }

  /** A window that starts at or after the frontier adds its gap and its own span. */
  lemma NextSpan(t: Totals, w: Timed, first: real)
    requires t.frontier.Some? && t.frontier.value.rate == w.rate && t.frontier.value.end <= w.ts
    requires t.expected == w.rate * (t.frontier.value.end - first)
    ensures Commit(t, w).frontier == Some(Frontier(w.End(), w.rate))
    ensures Commit(t, w).expected == w.rate * (w.End() - first)
  {
    hide AnyWindow.End;
    var f := t.frontier.value.end;
    PositiveSpan(w);
    assert LossBefore(t.frontier, w.ts) == w.rate * (w.ts - f);
    Distribute(w.rate, f - first, w.ts - f);
    Distribute(w.rate, w.ts - first, w.End() - w.ts);
  }

  lemma CommitSnoc(ws: seq<Timed>)
    requires |ws| > 0
    ensures CommitAll(ws) == Commit(CommitAll(ws[..|ws| - 1]), ws[|ws| - 1])
    ensures |ws| == 1 ==> CommitAll(ws[..|ws| - 1]) == START
  {
    hide Commit;
  }
}
