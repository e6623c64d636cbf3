/** The bounded jitter buffer: windows leave it smallest first once it holds too many. */
module Jitter {
  const REORDER_WINDOW := 64

  datatype AnyWindow = AnyWindow(ts: real, rate: real, n: nat)
  {
    /** The sample time at which the window ends. */
    function End(): real
      requires rate != 0.0
    {
      ts + n as real / rate
    }
  }

  /** What the meter ever adds: a positive rate and at least one sample. */
  type Timed = w: AnyWindow | 0.0 < w.rate && 0 < w.n witness AnyWindow(0.0, 1.0, 1)

  /** The tuple order of the heap. */
  predicate Leq(a: Timed, b: Timed) {
    || a.ts < b.ts
    || (a.ts == b.ts && (a.rate < b.rate || (a.rate == b.rate && a.n <= b.n)))
  }

  predicate Sorted(ws: seq<Timed>) {
    forall i, j :: 0 <= i < j < |ws| ==> Leq(ws[i], ws[j])
  }

  /** The heap is kept as its pop order; a push puts the window where it will pop. */
  function Insert(w: Timed, ws: seq<Timed>): (r: seq<Timed>)
    ensures |r| == |ws| + 1
  {
    if |ws| == 0 then [w]
    else if Leq(w, ws[0]) then [w] + ws
    else [ws[0]] + Insert(w, ws[1..])
  }

  lemma {:induction false} InsertHolds(w: Timed, ws: seq<Timed>)
    ensures multiset(Insert(w, ws)) == multiset(ws) + multiset{w}
  {
    hide Leq;
    if |ws| != 0 {
      InsertHolds(w, ws[1..]);
      assert ws == [ws[0]] + ws[1..];
    }
  }

  lemma {:induction false} InsertKeeps(w: Timed, ws: seq<Timed>)
    requires Sorted(ws)
    ensures Sorted(Insert(w, ws)) && multiset(Insert(w, ws)) == multiset(ws) + multiset{w}
  {
    InsertHolds(w, ws);
    if |ws| != 0 && !Leq(w, ws[0]) {
      InsertKeeps(w, ws[1..]);
      InsertBounded(ws[0], w, ws[1..]);
    }
  }

  lemma {:induction false} InsertBounded(low: Timed, w: Timed, ws: seq<Timed>)
    requires Leq(low, w) && forall j :: 0 <= j < |ws| ==> Leq(low, ws[j])
    ensures forall j :: 0 <= j < |Insert(w, ws)| ==> Leq(low, Insert(w, ws)[j])
  {
    hide Leq;
    if |ws| != 0 {
      InsertBounded(low, w, ws[1..]);
    }
  }

  /** All windows in order: what sorting the whole history would give. */
  function SortAll(ws: seq<Timed>): (r: seq<Timed>)
    ensures |r| == |ws|
  {
    if |ws| == 0 then [] else Insert(ws[|ws| - 1], SortAll(ws[..|ws| - 1]))
  }

  lemma {:induction false} SortAllSorts(ws: seq<Timed>)
    ensures Sorted(SortAll(ws)) && multiset(SortAll(ws)) == multiset(ws)
  {
    hide Leq, Insert, Sorted;
    if |ws| == 0 {
      NothingSorted();
    } else {
      SortAllSorts(ws[..|ws| - 1]);
      InsertKeeps(ws[|ws| - 1], SortAll(ws[..|ws| - 1]));
      assert ws == ws[..|ws| - 1] + [ws[|ws| - 1]];
    }
  }

  lemma NothingSorted()
    ensures Sorted([])
  {
  }

  /** A sorted list is determined by what it holds. */
  lemma {:induction false} SortedUnique(a: seq<Timed>, b: seq<Timed>)
    requires Sorted(a) && Sorted(b) && multiset(a) == multiset(b)
    ensures a == b
  {
    if |a| == 0 {
      assert |multiset(b)| == 0;
    } else {
      assert |b| == |multiset(b)| == |a|;
      assert a[0] in multiset(b) && b[0] in multiset(a);
      SmallestFirst(a, b[0]);
      SmallestFirst(b, a[0]);
      SameFirst(a[0], b[0]);
      hide Leq;
      WithoutFirst(a);
      WithoutFirst(b);
      SortedUnique(a[1..], b[1..]);
    }
  }

  lemma WithoutFirst(ws: seq<Timed>)
    requires |ws| > 0
    ensures ws == [ws[0]] + ws[1..]
    ensures multiset(ws[1..]) == multiset(ws) - multiset{ws[0]}
    ensures Sorted(ws) ==> Sorted(ws[1..])
  {
    hide Leq;
    assert ws == [ws[0]] + ws[1..];
  }

  lemma SmallestFirst(ws: seq<Timed>, w: Timed)
    requires Sorted(ws) && w in multiset(ws)
    ensures |ws| > 0 && Leq(ws[0], w)
  {
    assert w in ws;
  }

  lemma SameFirst(a: Timed, b: Timed)
    requires Leq(a, b) && Leq(b, a)
    ensures a == b
  {
  }

  /** The jitter buffer and the windows it has let go, in order. */
  datatype Flow = Flow(pending: seq<Timed>, committed: seq<Timed>)

  function AddOne(f: Flow, w: Timed): Flow {
    var held := Insert(w, f.pending);
    if |held| > REORDER_WINDOW then Flow(held[1..], f.committed + [held[0]]) else Flow(held, f.committed)
  }

  function AddAll(ws: seq<Timed>): Flow {
    if |ws| == 0 then Flow([], []) else AddOne(AddAll(ws[..|ws| - 1]), ws[|ws| - 1])
  }

  /** The order in which a history is committed once the buffer is drained. */
  function CommitOrder(ws: seq<Timed>): seq<Timed> {
    AddAll(ws).committed + AddAll(ws).pending
  }

  function Excess(n: nat): nat {
    if n > 64 then n - 64 else 0
  }

  /** For any arrival order: the buffer never holds more than its depth after an add, and
      holds and has let go, together, exactly what was added. */
  lemma {:induction false} NothingLost(ws: seq<Timed>)
    ensures var f := AddAll(ws);
      && Sorted(f.pending)
      && |f.committed| == Excess(|ws|) && |f.pending| == |ws| - Excess(|ws|)
      && multiset(f.pending) + multiset(f.committed) == multiset(ws)
  {
    if |ws| != 0 {
      var front, w := ws[..|ws| - 1], ws[|ws| - 1];
      assert ws == front + [w];
      NothingLost(front);
      AddOneKeeps(AddAll(front), w);
    }
  }

  lemma AddOneKeeps(f: Flow, w: Timed)
    requires Sorted(f.pending) && |f.pending| <= REORDER_WINDOW
    ensures var g := AddOne(f, w);
      && Sorted(g.pending)
      && |g.committed| == |f.committed| + (if |f.pending| == REORDER_WINDOW then 1 else 0)
      && |g.pending| == (if |f.pending| == REORDER_WINDOW then REORDER_WINDOW else |f.pending| + 1)
      && multiset(g.pending) + multiset(g.committed) == multiset(f.pending) + multiset(f.committed) + multiset{w}
  {
    InsertKeeps(w, f.pending);
    var held := Insert(w, f.pending);
    assert held == [held[0]] + held[1..];
  }

  /** Reordering within the buffer's depth: the j + 1 smallest windows are all among the
      first j + 65 to arrive. */
  predicate BoundedReordering(ws: seq<Timed>) {
    forall j :: 0 <= j < |ws| ==> Timely(ws, j)
  }

  predicate Timely(ws: seq<Timed>, j: nat)
    requires j < |ws|
  {
    AllAmong(SortAll(ws)[..j + 1], ws[..Deadline(j, |ws|)])
  }

  /** Every window of one list, as often as it occurs there, is in the other. */
  predicate AllAmong(some: seq<Timed>, all: seq<Timed>) {
    multiset(some) <= multiset(all)
  }

  function Deadline(j: nat, n: nat): nat {
    if j + 65 <= n then j + 65 else n
  }

  lemma Cancel(a: multiset<Timed>, b: multiset<Timed>, g: multiset<Timed>)
    requires a + g <= b + g
    ensures a <= b
  {
    forall x | x in a
      ensures a[x] <= b[x]
    {
      assert (a + g)[x] <= (b + g)[x];
    }
  }

  lemma SplitAt(ws: seq<Timed>, c: nat)
    requires c <= |ws|
    ensures multiset(ws) == multiset(ws[..c]) + multiset(ws[c..])
  {
    assert ws == ws[..c] + ws[c..];
  }

  /** The smallest of what is held is the next in order, if that has arrived. */
  lemma NextInOrder(all: seq<Timed>, c: nat, held: seq<Timed>)
    requires Sorted(all) && c < |all| && Sorted(held) && |held| > 0
    requires multiset(held) + multiset(all[..c]) <= multiset(all)
    requires multiset(all[..c + 1]) <= multiset(held) + multiset(all[..c])
    ensures held[0] == all[c]
  {
    hide Leq, Sorted;
    SplitAt(all, c);
    Cancel(multiset(held), multiset(all[c..]), multiset(all[..c]));
    assert all[..c + 1] == all[..c] + [all[c]];
    Cancel(multiset{all[c]}, multiset(held), multiset(all[..c]));
    assert all[c] in multiset(held);
    SmallestFirst(held, all[c]);
    assert held[0] in multiset(held);
    assert held[0] in multiset(all[c..]);
    SuffixSorted(all, c);
    SmallestFirst(all[c..], held[0]);
    SameFirst(held[0], all[c]);
  }

  lemma SuffixSorted(ws: seq<Timed>, c: nat)
    requires Sorted(ws) && c <= |ws|
    ensures Sorted(ws[c..])
  {
    hide Leq;
  }

  lemma Snoc(ws: seq<Timed>, m: nat)
    requires 0 < m <= |ws|
    ensures ws[..m] == ws[..m - 1] + [ws[m - 1]] && ws[..m][..m - 1] == ws[..m - 1]
    ensures multiset(ws[..m]) == multiset(ws[..m - 1]) + multiset{ws[m - 1]}
  {
    assert ws[..m] == ws[..m - 1] + [ws[m - 1]];
  }

  lemma {:induction false} CommitsInOrder(ws: seq<Timed>, m: nat)
    requires BoundedReordering(ws) && m <= |ws|
    ensures AddAll(ws[..m]).committed == SortAll(ws)[..Excess(m)]
  {
    hide Insert, SortAll, Sorted, Leq, BoundedReordering;
    if m != 0 {
      CommitsInOrder(ws, m - 1);
      Snoc(ws, m);
      var f := AddAll(ws[..m - 1]);
      PendingOf(ws[..m - 1]);
      if m > REORDER_WINDOW {
        NextCommitted(ws, m, f);
        NextPrefix(SortAll(ws), m - 1 - REORDER_WINDOW);
      }
    }
  }

  lemma NextPrefix(all: seq<Timed>, c: nat)
    requires c < |all|
    ensures all[..c] + [all[c]] == all[..c + 1]
  {
  }

  lemma PendingOf(ws: seq<Timed>)
    ensures |AddAll(ws).pending| == |ws| - Excess(|ws|)
  {
    NothingLost(ws);
  }

  /** The add of window number `m` commits the next one in order. */
  lemma NextCommitted(ws: seq<Timed>, m: nat, f: Flow)
    requires BoundedReordering(ws)
    requires REORDER_WINDOW < m <= |ws|
    requires f == AddAll(ws[..m - 1]) && f.committed == SortAll(ws)[..m - 1 - REORDER_WINDOW]
    ensures Insert(ws[m - 1], f.pending)[0] == SortAll(ws)[m - 1 - REORDER_WINDOW]
  {
    hide Insert, SortAll, Sorted, Leq, AddAll, Timely;
    var c, held := m - 1 - REORDER_WINDOW, Insert(ws[m - 1], f.pending);
    HeldSoFar(ws, m);
    SortAllSorts(ws);
    PrefixWithin(ws, m);
    assert Timely(ws, c);
    ArrivedByNow(ws, c, m);
    NextInOrder(SortAll(ws), c, held);
  }

  lemma ArrivedByNow(ws: seq<Timed>, c: nat, m: nat)
    requires c < |ws| && Timely(ws, c) && c + REORDER_WINDOW + 1 == m <= |ws|
    ensures multiset(SortAll(ws)[..c + 1]) <= multiset(ws[..m])
  {
    hide SortAll;
  }

  lemma HeldSoFar(ws: seq<Timed>, m: nat)
    requires 0 < m <= |ws|
    ensures var f := AddAll(ws[..m - 1]);
      var held := Insert(ws[m - 1], f.pending);
      Sorted(held) && multiset(held) + multiset(f.committed) == multiset(ws[..m])
  {
    hide Insert, SortAll, Sorted, Leq, AddAll;
    var f := AddAll(ws[..m - 1]);
    NothingLost(ws[..m - 1]);
    InsertKeeps(ws[m - 1], f.pending);
    Snoc(ws, m);
    Shuffle(multiset(f.pending), multiset(f.committed), multiset{ws[m - 1]});
  }

  lemma Shuffle(a: multiset<Timed>, b: multiset<Timed>, c: multiset<Timed>)
    ensures a + c + b == a + b + c
  {
  }

  lemma PrefixWithin(ws: seq<Timed>, m: nat)
    requires m <= |ws|
    ensures multiset(ws[..m]) <= multiset(ws)
  {
    assert ws == ws[..m] + ws[m..];
  }

  /** Jitter buffer refines sorting: the history is committed in sorted order if and only if
      it was reordered within the buffer's depth. */
  lemma CommitOrderIsSorted(ws: seq<Timed>)
    ensures CommitOrder(ws) == SortAll(ws) <==> BoundedReordering(ws)
  {
    if BoundedReordering(ws) {
      BoundedCommits(ws);
    }
    if CommitOrder(ws) == SortAll(ws) {
      forall j | 0 <= j < |ws|
        ensures Timely(ws, j)
      {
        SortedImpliesTimely(ws, j);
      }
    }
  }

  lemma BoundedCommits(ws: seq<Timed>)
    requires BoundedReordering(ws)
    ensures CommitOrder(ws) == SortAll(ws)
  {
    hide Insert, SortAll, Sorted, Leq, AddAll, Timely;
    var all, c := SortAll(ws), Excess(|ws|);
    assert ws[..|ws|] == ws;
    CommitsInOrder(ws, |ws|);
    NothingLost(ws);
    SortAllSorts(ws);
    RestSorted(all, c, AddAll(ws).pending);
    assert all == all[..c] + all[c..];
  }

  /** What is left of a sorted list, in order, is its tail. */
  lemma RestSorted(all: seq<Timed>, c: nat, rest: seq<Timed>)
    requires Sorted(all) && Sorted(rest) && c <= |all|
    requires multiset(rest) + multiset(all[..c]) == multiset(all)
    ensures rest == all[c..]
  {
    SplitAt(all, c);
    Cancel(multiset(rest), multiset(all[c..]), multiset(all[..c]));
    Cancel(multiset(all[c..]), multiset(rest), multiset(all[..c]));
    SortedUnique(rest, all[c..]);
  }

  lemma SortedImpliesTimely(ws: seq<Timed>, j: nat)
    requires CommitOrder(ws) == SortAll(ws) && j < |ws|
    ensures Timely(ws, j)
  {
    hide CommitOrder, SortAll, Timely;
    if j < Excess(|ws|) {
      EarlyCommits(ws, j);
    } else {
      LateCommits(ws, j);
    }
  }

  /** The last windows in order are always among all that arrived. */
  lemma LateCommits(ws: seq<Timed>, j: nat)
    requires Excess(|ws|) <= j < |ws|
    ensures Timely(ws, j)
  {
    hide Insert, SortAll, Sorted, Leq;
    assert ws[..|ws|] == ws;
    SortAllSorts(ws);
    PrefixWithin(SortAll(ws), j + 1);
  }

  /** What was committed by a time had arrived by then. */
  lemma EarlyCommits(ws: seq<Timed>, j: nat)
    requires CommitOrder(ws) == SortAll(ws) && j < Excess(|ws|)
    ensures Timely(ws, j)
  {
    hide *;
    var d := Deadline(j, |ws|);
    AtDeadline(j, |ws|);
    CommittedArrived(ws[..d]);
    CommittedFirst(ws, d);
    TimelyFrom(ws, j, AddAll(ws[..d]).committed);
  }

  lemma TimelyFrom(ws: seq<Timed>, j: nat, first: seq<Timed>)
    requires j < |ws| && Deadline(j, |ws|) <= |ws|
    requires first <= SortAll(ws) && |first| == j + 1 && AllAmong(first, ws[..Deadline(j, |ws|)])
    ensures Timely(ws, j)
  {
    hide SortAll, Deadline;
    assert SortAll(ws)[..j + 1] == first;
  }

  /** By its deadline the buffer has let j + 1 windows go. */
  lemma AtDeadline(j: nat, n: nat)
    requires j < Excess(n)
    ensures j < n && Deadline(j, n) <= n && Excess(Deadline(j, n)) == j + 1
  {
  }

  lemma CommittedArrived(ws: seq<Timed>)
    ensures var f := AddAll(ws);
      |f.committed| == Excess(|ws|) && AllAmong(f.committed, ws)
  {
    hide AddAll, Sorted;
    NothingLost(ws);
  }

  lemma CommittedFirst(ws: seq<Timed>, d: nat)
    requires d <= |ws|
    ensures AddAll(ws[..d]).committed <= CommitOrder(ws)
  {
    hide AddAll;
    CommittedPrefix(ws, d);
  }

  lemma {:induction false} CommittedPrefix(ws: seq<Timed>, d: nat)
    requires d <= |ws|
    ensures AddAll(ws[..d]).committed <= AddAll(ws).committed
  {
    if d < |ws| {
      var front := ws[..|ws| - 1];
      CommittedPrefix(front, d);
      assert front[..d] == ws[..d];
    } else {
      assert ws[..d] == ws;
    }
  }
}
