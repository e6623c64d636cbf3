/** The bounded lossy queue between the two threads: drop-oldest, counted. */
module RawQueue {
  import opened Bytes

  /** A queue with its whole history: everything put, and which puts were gotten. */
  datatype Queue<T> = Queue(items: seq<T>, dropped: nat, puts: seq<T>, taken: seq<nat>)

  function Empty<T>(): Queue<T> {
    Queue([], 0, [], [])
  }

  /** Appends; when full, the oldest item goes. */
  function Enqueue<T>(q: Queue<T>, maxsize: nat, x: T): Queue<T>
    requires 1 <= maxsize
  {
    var full := |q.items| >= maxsize;
    Queue((if full then q.items[1..] else q.items) + [x], if full then q.dropped + 1 else q.dropped, q.puts + [x], q.taken)
  }

  /** Takes the oldest item; with none there is nothing but a timeout. */
  function Dequeue<T>(q: Queue<T>): (Queue<T>, Option<T>) {
    if |q.items| == 0 then (q, None)
    else (Queue(q.items[1..], q.dropped, q.puts, q.taken + [|q.taken| + q.dropped]), Some(q.items[0]))
  }

  /** The contents are the latest puts, nothing in between missing; every put was gotten,
      dropped or is still there; the size is bounded, and only puts beyond it can have dropped
      anything; gets come in put order. */
  predicate Lawful<T(==)>(q: Queue<T>, maxsize: nat) {
    && |q.items| <= maxsize
    && |q.puts| == |q.taken| + q.dropped + |q.items|
    && q.dropped <= Max(0, |q.puts| - maxsize)
    && q.items == q.puts[|q.puts| - |q.items|..]
    && (forall i :: 0 <= i < |q.taken| ==> q.taken[i] < |q.puts| - |q.items|)
    && (forall i, j :: 0 <= i < j < |q.taken| ==> q.taken[i] < q.taken[j])
  }

  predicate TakenInRange<T>(q: Queue<T>) {
    forall i :: 0 <= i < |q.taken| ==> q.taken[i] < |q.puts|
  }

  /** The items gotten, in the order they were gotten. */
  function Gotten<T>(q: Queue<T>): (r: seq<T>)
    requires TakenInRange(q)
    ensures |r| == |q.taken|
  {
    seq(|q.taken|, i requires 0 <= i < |q.taken| => q.puts[q.taken[i]])
  }

  lemma EmptyLawful<T>(maxsize: nat)
    ensures Lawful(Empty<T>(), maxsize)
  {
  }

  lemma PutLawful<T>(q: Queue<T>, maxsize: nat, x: T)
    requires 1 <= maxsize && Lawful(q, maxsize)
    ensures var p := Enqueue(q, maxsize, x);
      && Lawful(p, maxsize) && p.puts == q.puts + [x] && Gotten(p) == Gotten(q)
      && p.items[|p.items| - 1] == x
  {
    var p := Enqueue(q, maxsize, x);
    assert p.items == p.puts[|p.puts| - |p.items|..];
  }

  /** With room nothing is lost; without, the oldest item goes and the queue stays full. */
  lemma PutMeaning<T>(q: Queue<T>, maxsize: nat, x: T)
    requires 1 <= maxsize && |q.items| <= maxsize
    ensures var p := Enqueue(q, maxsize, x);
      && p.puts == q.puts + [x] && p.taken == q.taken
      && (if |q.items| < maxsize then p.items == q.items + [x] && p.dropped == q.dropped
          else q.items + [x] == [q.items[0]] + p.items && p.dropped == q.dropped + 1 && |p.items| == maxsize)
  {
  }

  lemma GetLawful<T>(q: Queue<T>, maxsize: nat)
    requires Lawful(q, maxsize) && |q.items| > 0
    ensures var (p, x) := Dequeue(q);
      && Lawful(p, maxsize) && p.puts == q.puts && p.dropped == q.dropped
      && x == Some(q.puts[|q.puts| - |q.items|])
      && Gotten(p) == Gotten(q) + [x.value]
  {
    var p := Dequeue(q).0;
    assert p.items == p.puts[|p.puts| - |p.items|..];
  }

  /** With nothing dropped and nothing left, every item was gotten, in order. */
  lemma {:induction false} AllGotten<T>(q: Queue<T>, maxsize: nat)
    requires Lawful(q, maxsize) && q.dropped == 0 && q.items == []
    ensures Gotten(q) == q.puts
  {
    forall i | 0 <= i < |q.taken|
      ensures q.taken[i] == i
    {
      AscendingIsIdentity(q.taken, |q.puts|, i);
    }
  }

  lemma {:induction false} AtLeast(s: seq<nat>, i: nat)
    requires forall j, k :: 0 <= j < k < |s| ==> s[j] < s[k]
    requires i < |s|
    ensures i <= s[i]
  {
    if i > 0 {
      AtLeast(s, i - 1);
    }
  }

  lemma {:induction false} AtMost(s: seq<nat>, n: nat, i: nat)
    requires forall j, k :: 0 <= j < k < |s| ==> s[j] < s[k]
    requires i < |s| && s[|s| - 1] < n
    ensures s[i] <= n - |s| + i
    decreases |s| - i
  {
    if i + 1 < |s| {
      AtMost(s, n, i + 1);
    }
  }

  lemma AscendingIsIdentity(s: seq<nat>, n: nat, i: nat)
    requires forall j, k :: 0 <= j < k < |s| ==> s[j] < s[k]
    requires |s| == n && i < n && s[n - 1] < n
    ensures s[i] == i
  {
    AtLeast(s, i);
    AtMost(s, n, i);
  }

  /** The queue object. The two history fields are for the specification only. */
  class BoundedRawQueue<T> {
    const maxsize: nat
    var items: seq<T>
    var dropped: nat
    ghost var puts: seq<T>
    ghost var taken: seq<nat>

    ghost function View(): Queue<T>
      reads this
    {
      Queue(items, dropped, puts, taken)
    }

    ghost predicate Valid()
      reads this
    {
      1 <= maxsize && Lawful(View(), maxsize)
    }

    constructor (maxsize: nat)
      requires 1 <= maxsize
      ensures Valid() && View() == Empty() && this.maxsize == maxsize
    {
      this.maxsize := maxsize;
      items := [];
      dropped := 0;
      puts := [];
      taken := [];
    }

    /** A size below one is refused. */
    static method Create(maxsize: int) returns (r: Result<BoundedRawQueue<T>>)
      ensures r.Ok? <==> 1 <= maxsize
      ensures r.Ok? ==> fresh(r.value) && r.value.Valid() && r.value.View() == Empty() && r.value.maxsize == maxsize
    {
      if maxsize < 1 {
        return Err;
      }
      var q := new BoundedRawQueue<T>(maxsize);
      r := Ok(q);
    }

    method Put(x: T)
      requires Valid()
      modifies this
      ensures Valid() && View() == Enqueue(old(View()), maxsize, x)
      ensures old(|items|) < maxsize ==> items == old(items) + [x] && dropped == old(dropped)
      ensures old(|items|) == maxsize ==> old(items) + [x] == [old(items[0])] + items && dropped == old(dropped) + 1
    {
      PutLawful(View(), maxsize, x);
      PutMeaning(View(), maxsize, x);
      if |items| >= maxsize {
        items := items[1..];
        dropped := dropped + 1;
      }
      items := items + [x];
      puts := puts + [x];
    }

    /** What `get` gives when it returns: an item, or nothing if none came in time. */
    method Get() returns (x: Option<T>)
      requires Valid()
      modifies this
      ensures Valid() && (View(), x) == Dequeue(old(View()))
    {
      if |items| == 0 {
        return None;
      }
      GetLawful(View(), maxsize);
      x := Some(items[0]);
      taken := taken + [|taken| + dropped];
      items := items[1..];
    }
  }
}
