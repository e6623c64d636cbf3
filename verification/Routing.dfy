/** One buffer per stream: creation on first use, and the sweeps over all of them. */
module Routing {
  import opened Bytes
  import opened Interpreter
  import opened Buffering
  import opened Segmentation

  /** The buffers in creation order, which is the order of every sweep. */
  datatype Router = Router(order: seq<nat>, buffers: map<nat, Buffer>, dropped: nat)

  const EMPTY_ROUTER := Router([], map[], 0)

  datatype RouterEffect = RouterEffect(router: Router, units: seq<Unit>)

  ghost predicate RouterInv(r: Router) {
    && (forall i, j :: 0 <= i < j < |r.order| ==> r.order[i] != r.order[j])
    && (forall k :: k in r.buffers <==> k in r.order)
    && (forall k :: k in r.buffers ==> BufferInv(r.buffers[k]))
  }

  /** Routes a record to its stream's buffer; a new stream gets one while there is room. */
  function Route(cfg: Config, maxStreams: int, r: Router, rec: Record, now: real): RouterEffect {
    var sid := rec.metadata.streamId;
    if sid !in r.buffers && |r.buffers| >= maxStreams then RouterEffect(r.(dropped := r.dropped + 1), [])
    else
      var known := WithBuffer(r, sid);
      var e := Push(cfg, sid, known.buffers[sid], rec, now);
      RouterEffect(known.(buffers := known.buffers[sid := e.buffer]), e.units)
  }

  function WithBuffer(r: Router, sid: nat): (known: Router)
    ensures sid in known.buffers
  {
    if sid in r.buffers then r else Router(r.order + [sid], r.buffers[sid := FRESH], r.dropped)
  }

  /** Lets the first `n` buffers react, each to its own event. */
  function Sweep(cfg: Config, r: Router, event: nat -> Event, n: nat): (e: RouterEffect)
    requires n <= |r.order| && forall k :: k in r.order ==> k in r.buffers
    ensures e.router.order == r.order && e.router.buffers.Keys == r.buffers.Keys && e.router.dropped == r.dropped
  {
    if n == 0 then RouterEffect(r, [])
    else
      var before, sid := Sweep(cfg, r, event, n - 1), r.order[n - 1];
      var e := React(cfg, sid, before.router.buffers[sid], event(sid));
      RouterEffect(before.router.(buffers := before.router.buffers[sid := e.buffer]), before.units + e.units)
  }

  /** Polls every buffer's age; `clock` is the reading each of them sees. */
  function PollAll(cfg: Config, r: Router, clock: nat -> real): RouterEffect
    requires forall k :: k in r.order ==> k in r.buffers
  {
    Sweep(cfg, r, (sid: nat) => Polled(clock(sid)), |r.order|)
  }

  function FlushAll(cfg: Config, r: Router): RouterEffect
    requires forall k :: k in r.order ==> k in r.buffers
  {
    Sweep(cfg, r, (sid: nat) => Drained, |r.order|)
  }

  // ---------- One stream at a time ----------

  /** The units of one stream, in order. */
  function UnitsOf(us: seq<Unit>, sid: nat): seq<Unit> {
    if |us| == 0 then []
    else UnitsOf(us[..|us| - 1], sid) + (if us[|us| - 1].streamId == sid then [us[|us| - 1]] else [])
  }

  lemma {:induction false} UnitsOfConcat(a: seq<Unit>, b: seq<Unit>, sid: nat)
    ensures UnitsOf(a + b, sid) == UnitsOf(a, sid) + UnitsOf(b, sid)
  {
    if |b| == 0 {
      assert a + b == a;
    } else {
      assert (a + b)[..|a + b| - 1] == a + b[..|b| - 1];
      UnitsOfConcat(a, b[..|b| - 1], sid);
    }
  }

  lemma {:induction false} UnitsOfTagged(us: seq<Unit>, tag: nat, sid: nat)
    requires forall u :: u in us ==> u.streamId == tag
    ensures UnitsOf(us, sid) == if tag == sid then us else []
  {
    if |us| != 0 {
      UnitsOfTagged(us[..|us| - 1], tag, sid);
      assert us == us[..|us| - 1] + [us[|us| - 1]];
      assert us[|us| - 1] in us;
    }
  }

  /** A buffer tags every unit with its own stream. */
  lemma UnitsTagged(cfg: Config, sid: nat, s: Buffer, e: Event)
    ensures forall u :: u in React(cfg, sid, s, e).units ==> u.streamId == sid
  {
    hide AgreeOn, Join, ArrayLength;
  }

  lemma ReactKeepsInv(cfg: Config, sid: nat, s: Buffer, e: Event)
    requires BufferInv(s)
    ensures BufferInv(React(cfg, sid, s, e).buffer)
  {
    hide BufferInv, Push, Poll, Flush, Sound;
    match e
    case Pushed(rec, now) => PushSound(cfg, sid, s, rec, now);
    case Polled(now) => PollSound(cfg, sid, s, now);
    case Drained => FlushSound(sid, s);
  }

  /** The buffer of a stream, a fresh one if it has none yet. */
  function BufferFor(r: Router, sid: nat): Buffer {
    if sid in r.buffers then r.buffers[sid] else FRESH
  }

  lemma RouteKeepsInv(cfg: Config, maxStreams: int, r: Router, rec: Record, now: real)
    requires RouterInv(r)
    ensures RouterInv(Route(cfg, maxStreams, r, rec, now).router)
  {
    hide BufferInv, Push;
    FreshSane();
    PushSound(cfg, rec.metadata.streamId, BufferFor(r, rec.metadata.streamId), rec, now);
  }

  /** Routing a record moves its own stream as a lone buffer would, and no other. */
  lemma RouteOneStream(cfg: Config, maxStreams: int, r: Router, rec: Record, now: real, sid: nat)
    requires rec.metadata.streamId in r.buffers || |r.buffers| < maxStreams
    ensures var e := Route(cfg, maxStreams, r, rec, now);
      if rec.metadata.streamId == sid
      then var p := Push(cfg, sid, BufferFor(r, sid), rec, now);
        BufferFor(e.router, sid) == p.buffer && UnitsOf(e.units, sid) == p.units
      else BufferFor(e.router, sid) == BufferFor(r, sid) && UnitsOf(e.units, sid) == []
  {
    hide Push, UnitsOf;
    var own := rec.metadata.streamId;
    UnitsTagged(cfg, own, BufferFor(r, own), Pushed(rec, now));
    UnitsOfTagged(Push(cfg, own, BufferFor(r, own), rec, now).units, own, sid);
  }

  /** Streams get buffers only while there is room, in order of their first record; a record
      of another stream is dropped and counted. */
  lemma RouteMeaning(cfg: Config, maxStreams: int, r: Router, rec: Record, now: real)
    requires RouterInv(r)
    ensures var sid, e := rec.metadata.streamId, Route(cfg, maxStreams, r, rec, now);
      if sid in r.buffers then e.router.order == r.order && e.router.dropped == r.dropped
      else if |r.order| < maxStreams then e.router.order == r.order + [sid] && e.router.dropped == r.dropped
      else e == RouterEffect(r.(dropped := r.dropped + 1), [])
  {
    hide Push, BufferInv;
    OrderSize(r.order, r.buffers);
  }

  lemma OrderSize(order: seq<nat>, buffers: map<nat, Buffer>)
    requires forall i, j :: 0 <= i < j < |order| ==> order[i] != order[j]
    requires forall k :: k in buffers <==> k in order
    ensures |order| == |buffers|
  {
    DistinctSize(order);
    assert buffers.Keys == Elements(order);
    assert |buffers.Keys| == |buffers|;
  }

  function Elements(s: seq<nat>): set<nat> {
    set k | k in s
  }

  lemma {:induction false} DistinctSize(s: seq<nat>)
    requires forall i, j :: 0 <= i < j < |s| ==> s[i] != s[j]
    ensures |Elements(s)| == |s|
  {
    if |s| == 0 {
      assert Elements(s) == {};
    } else {
      var front, last := s[..|s| - 1], s[|s| - 1];
      DistinctSize(front);
      assert s == front + [last];
      assert Elements(s) == Elements(front) + {last};
      assert last !in Elements(front);
    }
  }

  /** A sweep emits in creation order: stream by stream, each stream's units together. */
  lemma {:induction false} SweepInOrder(cfg: Config, r: Router, event: nat -> Event, n: nat)
    requires RouterInv(r) && n <= |r.order|
    ensures Sweep(cfg, r, event, n).units == InTurn(cfg, r, event, n)
  {
    hide React, BufferInv, RouterInv, Sweep;
    OrderedInRouter(r);
    if n == 0 {
      SweepNone(cfg, r, event);
    } else {
      SweepNext(cfg, r, event, n - 1);
      var own := r.order[n - 1];
      SweepInOrder(cfg, r, event, n - 1);
      SweepOneStream(cfg, r, event, n - 1, own);
      NotYet(r, n);
    }
  }

  lemma NotYet(r: Router, n: nat)
    requires RouterInv(r) && 0 < n <= |r.order|
    ensures r.order[n - 1] !in r.order[..n - 1]
  {
    hide BufferInv;
  }

  /** What the first `n` streams emit on their own, one after the other. */
  function InTurn(cfg: Config, r: Router, event: nat -> Event, n: nat): seq<Unit>
    requires n <= |r.order| && forall k :: k in r.order ==> k in r.buffers
  {
    if n == 0 then []
    else InTurn(cfg, r, event, n - 1) + React(cfg, r.order[n - 1], r.buffers[r.order[n - 1]], event(r.order[n - 1])).units
  }

  lemma SweepNone(cfg: Config, r: Router, event: nat -> Event)
    requires forall k :: k in r.order ==> k in r.buffers
    ensures Sweep(cfg, r, event, 0) == RouterEffect(r, [])
  {
  }

  /** One more buffer of a sweep reacts. */
  lemma SweepNext(cfg: Config, r: Router, event: nat -> Event, n: nat)
    requires n < |r.order| && forall k :: k in r.order ==> k in r.buffers
    ensures var before, sid := Sweep(cfg, r, event, n), r.order[n];
      && sid in before.router.buffers
      && var e := React(cfg, sid, before.router.buffers[sid], event(sid));
      Sweep(cfg, r, event, n + 1)
      == RouterEffect(before.router.(buffers := before.router.buffers[sid := e.buffer]), before.units + e.units)
  {
    hide React;
  }

  lemma {:induction false} SweepOneStream(cfg: Config, r: Router, event: nat -> Event, n: nat, sid: nat)
    requires RouterInv(r) && n <= |r.order|
    ensures var e := Sweep(cfg, r, event, n);
      if sid in r.order[..n]
      then var p := React(cfg, sid, r.buffers[sid], event(sid));
        BufferFor(e.router, sid) == p.buffer && UnitsOf(e.units, sid) == p.units
      else BufferFor(e.router, sid) == BufferFor(r, sid) && UnitsOf(e.units, sid) == []
  {
    hide React, UnitsOf, BufferInv, Sweep, RouterInv;
    OrderedInRouter(r);
    if n == 0 {
      NoUnits(sid);
      SweepNone(cfg, r, event);
    } else {
      var own := r.order[n - 1];
      SweepOneStream(cfg, r, event, n - 1, sid);
      SweepOneStream(cfg, r, event, n - 1, own);
      SweepStep(cfg, r, event, n, sid);
    }
  }

  /** One more buffer of a sweep reacts; it has not reacted before. */
  lemma SweepStep(cfg: Config, r: Router, event: nat -> Event, n: nat, sid: nat)
    requires RouterInv(r) && 0 < n <= |r.order|
    requires BufferFor(Sweep(cfg, r, event, n - 1).router, r.order[n - 1]) == BufferFor(r, r.order[n - 1]) || r.order[n - 1] in r.order[..n - 1]
    ensures sid in r.order[..n] <==> sid in r.order[..n - 1] || sid == r.order[n - 1]
    ensures r.order[n - 1] !in r.order[..n - 1]
    ensures var before, e, own := Sweep(cfg, r, event, n - 1), Sweep(cfg, r, event, n), r.order[n - 1];
      var p := React(cfg, own, r.buffers[own], event(own));
      && BufferFor(e.router, sid) == (if sid == own then p.buffer else BufferFor(before.router, sid))
      && UnitsOf(e.units, sid) == UnitsOf(before.units, sid) + (if sid == own then p.units else [])
  {
    hide React, UnitsOf, BufferInv, Sweep;
    SweepNext(cfg, r, event, n - 1);
    var before, own := Sweep(cfg, r, event, n - 1), r.order[n - 1];
    assert r.order[..n] == r.order[..n - 1] + [own];
    var e := React(cfg, own, before.router.buffers[own], event(own));
    UnitsTagged(cfg, own, before.router.buffers[own], event(own));
    UnitsOfTagged(e.units, own, sid);
    UnitsOfConcat(before.units, e.units, sid);
  }

  lemma NoUnits(sid: nat)
    ensures UnitsOf([], sid) == []
  {
  }

  /** Replacing one buffer by a sane one keeps the router sane. */
  lemma ReplaceKeepsInv(r: Router, sid: nat, b: Buffer)
    requires RouterInv(r) && sid in r.buffers && BufferInv(b)
    ensures RouterInv(r.(buffers := r.buffers[sid := b]))
  {
    hide BufferInv;
  }

  lemma InRouter(r: Router, i: nat)
    requires RouterInv(r) && i < |r.order|
    ensures r.order[i] in r.buffers && BufferInv(r.buffers[r.order[i]])
  {
    hide BufferInv;
  }

  lemma OrderedInRouter(r: Router)
    requires RouterInv(r)
    ensures forall k :: k in r.order ==> k in r.buffers
  {
    hide BufferInv;
  }

  lemma {:induction false} SweepKeepsInv(cfg: Config, r: Router, event: nat -> Event, n: nat)
    requires RouterInv(r) && n <= |r.order|
    ensures RouterInv(Sweep(cfg, r, event, n).router)
  {
    hide React, BufferInv, Sweep, RouterInv;
    OrderedInRouter(r);
    if n == 0 {
      SweepNone(cfg, r, event);
    } else {
      SweepKeepsInv(cfg, r, event, n - 1);
      SweepNext(cfg, r, event, n - 1);
      var before, own := Sweep(cfg, r, event, n - 1).router, r.order[n - 1];
      InRouter(before, n - 1);
      ReactKeepsInv(cfg, own, before.buffers[own], event(own));
      ReplaceKeepsInv(before, own, React(cfg, own, before.buffers[own], event(own)).buffer);
    }
  }

  /** A fresh buffer has nothing to react to but a record. */
  lemma FreshIdle(cfg: Config, sid: nat, e: Event)
    requires !e.Pushed?
    ensures React(cfg, sid, FRESH, e) == Effect(FRESH, [])
  {
  }

  /** A full sweep lets every stream react exactly once, streams without a buffer included. */
  lemma FullSweep(cfg: Config, r: Router, event: nat -> Event, sid: nat)
    requires RouterInv(r) && !event(sid).Pushed?
    ensures var e, p := Sweep(cfg, r, event, |r.order|), React(cfg, sid, BufferFor(r, sid), event(sid));
      BufferFor(e.router, sid) == p.buffer && UnitsOf(e.units, sid) == p.units
  {
    hide React, Sweep, UnitsOf, BufferInv;
    SweepOneStream(cfg, r, event, |r.order|, sid);
    assert r.order[..|r.order|] == r.order;
    if sid !in r.buffers {
      FreshIdle(cfg, sid, event(sid));
    }
  }
}
