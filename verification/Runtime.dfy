/** The two threads as an interleaving of atomic steps: the replay source feeding the queue,
    and the dequeue loop driving the interpreter and the buffers. */
module Runtime {
  import opened Bytes
  import opened Buffering
  import opened Segmentation
  import opened Routing
  import opened Stack
  import opened Streams
  import opened RawQueue
  import opened Contiguity
  import opened WindowLaws

  /** What travels through the queue. */
  datatype Item = Raw(raw: bytes) | Shutdown

  /** Where the source thread is: about to test the stop event, about to put a packet, in
      its `finally`, or done. */
  datatype SourceAt = AtLoop | AtPut | AtFinally | Ended

  /** Where the dequeue loop is: testing the stop event, in `get`, holding a datagram,
      about to poll, in the `finally` flush, or done. */
  datatype LoopAt = AtCheck | AtGet | Holding(raw: bytes) | AtPoll | AtFlush | Finished

  datatype Setup = Setup(cfg: Config, maxStreams: int, maxsize: nat, packets: seq<bytes>)

  /** `fed` counts the packets put; `inputs` is what the machine was driven with so far. */
  datatype Proc = Proc(
    queue: Queue<Item>, source: SourceAt, fed: nat, failed: bool, loop: LoopAt, stop: bool,
    sys: Sys, inputs: seq<Input>)

  /** Whether the dequeue loop has been left. */
  predicate Left(l: LoopAt) {
    l == AtFlush || l == Finished
  }

  /** Whether the source is past its last packet. */
  predicate Closing(a: SourceAt) {
    a == AtFinally || a == Ended
  }

  const LAUNCH := Proc(Empty(), AtLoop, 0, false, AtCheck, false, BOOT, [])

  /** One atomic step of anyone. Clock readings are whatever they turn out to be. A source
      step can be an exception or an interrupted pacing sleep; anyone can set the stop event. */
  datatype Action = Source | SourceFails | SourceWoken | Loop(now: real, clock: nat -> real) | Stop

  function PutItem(su: Setup, p: Proc, x: Item): Queue<Item>
    requires 1 <= su.maxsize
  {
    Enqueue(p.queue, su.maxsize, x)
  }

  function SourceStep(su: Setup, p: Proc): Proc
    requires 1 <= su.maxsize
  {
    match p.source
    case AtLoop => p.(source := if p.fed >= |su.packets| || p.stop then AtFinally else AtPut)
    case AtPut =>
      if p.fed < |su.packets| then p.(queue := PutItem(su, p, Raw(su.packets[p.fed])), fed := p.fed + 1, source := AtLoop)
      else p
    case AtFinally => p.(queue := PutItem(su, p, Shutdown), source := Ended)
    case Ended => p
  }

  ghost function Drive(su: Setup, p: Proc, e: Input): Proc
    requires RouterInv(p.sys.router)
  {
    p.(sys := Advance(su.cfg, su.maxStreams, p.sys, e), inputs := p.inputs + [e])
  }

  ghost function LoopStep(su: Setup, p: Proc, now: real, clock: nat -> real): Proc
    requires RouterInv(p.sys.router)
  {
    match p.loop
    case AtCheck => p.(loop := if p.stop then AtFlush else AtGet)
    case AtGet =>
      var queue: Queue<Item>, item: Option<Item> := Dequeue(p.queue).0, Dequeue(p.queue).1;
      (match item
       case None => p.(loop := AtPoll)
       case Some(Shutdown) => p.(queue := queue, loop := AtFlush)
       case Some(Raw(raw)) => p.(queue := queue, loop := Holding(raw)))
    case Holding(raw) => Drive(su, p, Datagram(raw, now)).(loop := AtPoll)
    case AtPoll => Drive(su, p, Tick(clock)).(loop := AtCheck)
    case AtFlush => Drive(su, p, Finish).(loop := Finished)
    case Finished => p
  }

  ghost function Act(su: Setup, p: Proc, a: Action): Proc
    requires 1 <= su.maxsize && RouterInv(p.sys.router)
  {
    match a
    case Source => SourceStep(su, p)
    case SourceFails => if !Closing(p.source) then p.(source := AtFinally, failed := true) else p
    case SourceWoken => if p.source == AtPut && p.stop then p.(source := AtFinally) else p
    case Loop(now, clock) => LoopStep(su, p, now, clock)
    case Stop => p.(stop := true)
  }

  // ---------- What every interleaving keeps ----------

  function RawItems(packets: seq<bytes>): (r: seq<Item>)
    ensures |r| == |packets|
  {
    seq(|packets|, i requires 0 <= i < |packets| => Raw(packets[i]))
  }

  function InHand(l: LoopAt): seq<Item> {
    if l.Holding? then [Raw(l.raw)] else []
  }

  /** Everything put is a prefix of the packets, in order, and then the end mark. */
  predicate SourceInv(su: Setup, p: Proc) {
    && p.fed <= |su.packets|
    && (p.source == AtPut ==> p.fed < |su.packets|)
    && p.queue.puts == RawItems(su.packets[..p.fed]) + (if p.source == Ended then [Shutdown] else [])
    && (Closing(p.source) && !p.stop && !p.failed ==> p.fed == |su.packets|)
  }

  /** Everything gotten was handed to the machine, or is in hand, or ended the loop. */
  predicate LoopInv(p: Proc) {
    && TakenInRange(p.queue)
    && (Gotten(p.queue) == RawItems(Datagrams(p.inputs)) + InHand(p.loop)
        || (Gotten(p.queue) == RawItems(Datagrams(p.inputs)) + [Shutdown] && Left(p.loop)))
    && (Left(p.loop) ==> p.stop || Gotten(p.queue) == RawItems(Datagrams(p.inputs)) + [Shutdown])
  }

  ghost predicate ProcInv(su: Setup, p: Proc) {
    && 1 <= su.maxsize
    && Lawful(p.queue, su.maxsize)
    && SourceInv(su, p)
    && LoopInv(p)
    && p.sys == Run(su.cfg, su.maxStreams, p.inputs)
    && (p.loop == Finished ==> |p.inputs| > 0 && p.inputs[|p.inputs| - 1] == Finish)
  }

  lemma RawItemsAppend(packets: seq<bytes>, n: nat)
    requires n < |packets|
    ensures RawItems(packets[..n + 1]) == RawItems(packets[..n]) + [Raw(packets[n])]
  {
  }

  lemma DatagramsAppend(inputs: seq<Input>, e: Input)
    ensures RawItems(Datagrams(inputs + [e])) == RawItems(Datagrams(inputs)) + (if e.Datagram? then [Raw(e.raw)] else [])
  {
    assert (inputs + [e])[..|inputs|] == inputs;
  }

  lemma SourceKeepsInv(su: Setup, p: Proc)
    requires ProcInv(su, p)
    ensures ProcInv(su, SourceStep(su, p))
  {
    hide Run, Advance, Datagrams, Lawful, RawItems, Gotten, Enqueue;
    match p.source
    case AtLoop =>
    case AtPut => PutKeepsInv(su, p, Raw(su.packets[p.fed]));
      RawItemsAppend(su.packets, p.fed);
      assert RawItems(su.packets[..p.fed]) + [] == RawItems(su.packets[..p.fed]);
    case AtFinally => PutKeepsInv(su, p, Shutdown);
    case Ended =>
  }

  lemma PutKeepsInv(su: Setup, p: Proc, x: Item)
    requires 1 <= su.maxsize && Lawful(p.queue, su.maxsize) && LoopInv(p)
    ensures var q := PutItem(su, p, x);
      && Lawful(q, su.maxsize) && q.puts == p.queue.puts + [x]
      && LoopInv(p.(queue := q))
  {
    hide Datagrams, Enqueue, RawItems, Lawful, InHand;
    PutLawful(p.queue, su.maxsize, x);
    StillBelow(p.queue, PutItem(su, p, x), su.maxsize);
  }

  lemma StillBelow(q: Queue<Item>, r: Queue<Item>, maxsize: nat)
    requires Lawful(r, maxsize)
    ensures TakenInRange(r)
  {
  }

  lemma LoopKeepsInv(su: Setup, p: Proc, now: real, clock: nat -> real)
    requires ProcInv(su, p) && RouterInv(p.sys.router)
    ensures ProcInv(su, LoopStep(su, p, now, clock))
  {
    hide Run, Advance, Datagrams, Lawful, RouterInv, Gotten, RawItems, Dequeue;
    match p.loop
    case AtCheck =>
    case AtGet => GetKeepsInv(su, p, now, clock);
    case Holding(raw) => DriveKeeps(su, p, Datagram(raw, now));
      NothingInHand(RawItems(Datagrams(p.inputs)));
    case AtPoll => DriveKeeps(su, p, Tick(clock));
      NothingInHand(RawItems(Datagrams(p.inputs)));
    case AtFlush => DriveKeeps(su, p, Finish);
      NothingInHand(RawItems(Datagrams(p.inputs)));
    case Finished =>
  }

  lemma NothingInHand(xs: seq<Item>)
    ensures xs + [] == xs
  {
  }

  lemma GetKeepsInv(su: Setup, p: Proc, now: real, clock: nat -> real)
    requires ProcInv(su, p) && RouterInv(p.sys.router) && p.loop == AtGet
    ensures ProcInv(su, LoopStep(su, p, now, clock))
  {
    hide Run, Advance, Datagrams, Lawful, RouterInv, Gotten, RawItems;
    if |p.queue.items| > 0 {
      GetLawful(p.queue, su.maxsize);
      FrontItem(p.queue, su.maxsize);
      StillBelow(p.queue, Dequeue(p.queue).0, su.maxsize);
      NothingInHand(RawItems(Datagrams(p.inputs)));
    }
  }

  lemma FrontItem(q: Queue<Item>, maxsize: nat)
    requires Lawful(q, maxsize) && |q.items| > 0
    ensures |q.puts| >= |q.items| && q.items[0] == q.puts[|q.puts| - |q.items|]
  {
  }

  lemma DriveKeeps(su: Setup, p: Proc, e: Input)
    requires p.sys == Run(su.cfg, su.maxStreams, p.inputs) && RouterInv(p.sys.router)
    ensures Drive(su, p, e).sys == Run(su.cfg, su.maxStreams, p.inputs + [e])
    ensures RawItems(Datagrams(p.inputs + [e])) == RawItems(Datagrams(p.inputs)) + (if e.Datagram? then [Raw(e.raw)] else [])
  {
    hide Advance, Run, Datagrams;
    RunStep(su.cfg, su.maxStreams, p.inputs, e);
    DatagramsAppend(p.inputs, e);
  }

  lemma ActKeepsInv(su: Setup, p: Proc, a: Action)
    requires ProcInv(su, p) && RouterInv(p.sys.router)
    ensures ProcInv(su, Act(su, p, a)) && RouterInv(Act(su, p, a).sys.router)
  {
    hide Run, SourceStep, LoopStep, RouterInv, Lawful, Datagrams, Gotten;
    match a
    case Source => SourceKeepsInv(su, p);
    case SourceFails =>
    case SourceWoken =>
    case Loop(now, clock) => LoopKeepsInv(su, p, now, clock);
    case Stop =>
  }

  /** The process after any interleaving of steps. */
  ghost function After(su: Setup, acts: seq<Action>): (p: Proc)
    requires 1 <= su.maxsize
    ensures ProcInv(su, p) && RouterInv(p.sys.router)
  {
    if |acts| == 0 then
      LaunchInv(su);
      LAUNCH
    else
      var before := After(su, acts[..|acts| - 1]);
      ActKeepsInv(su, before, acts[|acts| - 1]);
      Act(su, before, acts[|acts| - 1])
  }

  lemma LaunchInv(su: Setup)
    requires 1 <= su.maxsize
    ensures ProcInv(su, LAUNCH) && RouterInv(LAUNCH.sys.router)
  {
    EmptyLawful<Item>(su.maxsize);
    hide Lawful;
    assert RawItems(su.packets[..0]) == [] && RawItems(Datagrams([])) == [];
  }

  // ---------- Results over all interleavings ----------

  /** In every interleaving the queue holds the latest puts without a hole, gets come in put
      order, every put is accounted for, and the bound is kept. */
  lemma QueueLaws(su: Setup, acts: seq<Action>)
    requires 1 <= su.maxsize
    ensures var q := After(su, acts).queue;
      && |q.items| <= su.maxsize
      && |q.puts| == |q.taken| + q.dropped + |q.items|
      && q.dropped <= Max(0, |q.puts| - su.maxsize)
      && q.items == q.puts[|q.puts| - |q.items|..]
      && TakenInRange(q)
      && (forall i, j :: 0 <= i < j < |q.taken| ==> q.taken[i] < q.taken[j])
  {
    hide After, SourceInv, LoopInv, Run, RouterInv;
    var p := After(su, acts);
    assert ProcInv(su, p);
  }

  predicate ShutdownGotten(p: Proc)
    requires TakenInRange(p.queue)
  {
    Left(p.loop) && Gotten(p.queue) == RawItems(Datagrams(p.inputs)) + [Shutdown]
  }

  /** The end mark is the newest item in the queue, or it has ended the loop. */
  predicate EndSeen(p: Proc)
    requires TakenInRange(p.queue)
  {
    p.source == Ended ==>
      || (|p.queue.items| > 0 && p.queue.items[|p.queue.items| - 1] == Shutdown)
      || ShutdownGotten(p)
  }

  lemma ActKeepsEnd(su: Setup, p: Proc, a: Action)
    requires ProcInv(su, p) && RouterInv(p.sys.router) && EndSeen(p)
    ensures var q := Act(su, p, a);
      TakenInRange(q.queue) && EndSeen(q)
  {
    hide Run, Advance, RouterInv, Lawful, Gotten, RawItems, Datagrams, Enqueue, Dequeue;
    ActKeepsInv(su, p, a);
    match a
    case Source =>
      if p.source == AtFinally {
        PutLawful(p.queue, su.maxsize, Shutdown);
        EnqueueLast(p.queue, su.maxsize, Shutdown);
      }
    case Loop(now, clock) => LoopKeepsEnd(su, p, now, clock);
    case _ =>
  }

  lemma EnqueueLast(q: Queue<Item>, maxsize: nat, x: Item)
    requires 1 <= maxsize
    ensures var r := Enqueue(q, maxsize, x).items; |r| > 0 && r[|r| - 1] == x
  {
  }

  lemma LoopKeepsEnd(su: Setup, p: Proc, now: real, clock: nat -> real)
    requires ProcInv(su, p) && RouterInv(p.sys.router) && EndSeen(p)
    requires ProcInv(su, LoopStep(su, p, now, clock))
    ensures EndSeen(LoopStep(su, p, now, clock))
  {
    hide Run, Advance, RouterInv, Lawful, Gotten, RawItems, Datagrams;
    if p.loop == AtFlush {
      DriveKeeps(su, p, Finish);
      NothingInHand(RawItems(Datagrams(p.inputs)));
    } else if p.loop == AtGet && |p.queue.items| > 0 {
      GetLawful(p.queue, su.maxsize);
      FrontItem(p.queue, su.maxsize);
      NothingInHand(RawItems(Datagrams(p.inputs)));
    }
  }

  /** The end mark cannot be evicted: once the source has put it, it stays the newest item
      of the queue until it is the last item the loop ever gets. */
  lemma {:induction false} ShutdownNeverLost(su: Setup, acts: seq<Action>)
    requires 1 <= su.maxsize
    ensures var p := After(su, acts);
      TakenInRange(p.queue) && EndSeen(p)
  {
    hide Act, EndSeen, ProcInv, RouterInv;
    if |acts| == 0 {
      LaunchEnd();
    } else {
      ShutdownNeverLost(su, acts[..|acts| - 1]);
      ActKeepsEnd(su, After(su, acts[..|acts| - 1]), acts[|acts| - 1]);
    }
  }

  lemma LaunchEnd()
    ensures TakenInRange(LAUNCH.queue) && EndSeen(LAUNCH)
  {
  }

  /** An upper bound on the loop's remaining steps once the source has ended. */
  function Rank(p: Proc): nat {
    match p.loop
    case AtCheck => 4 * |p.queue.items| + 3
    case AtGet => 4 * |p.queue.items| + 2
    case Holding(_) => 4 * |p.queue.items| + 5
    case AtPoll => 4 * |p.queue.items| + 4
    case AtFlush => 1
    case Finished => 0
  }

  function LoopSteps(acts: seq<Action>): nat {
    if |acts| == 0 then 0 else LoopSteps(acts[..|acts| - 1]) + (if acts[|acts| - 1].Loop? then 1 else 0)
  }

  lemma EndedStep(su: Setup, p: Proc, a: Action)
    requires ProcInv(su, p) && RouterInv(p.sys.router) && EndSeen(p) && p.source == Ended
    ensures var q := Act(su, p, a);
      && q.source == Ended
      && |q.queue.taken| + |q.queue.items| == |p.queue.taken| + |p.queue.items|
      && |p.queue.taken| <= |q.queue.taken|
      && Rank(q) <= Rank(p) && (a.Loop? && p.loop != Finished ==> Rank(q) < Rank(p))
      && (p.loop == Finished ==> q.loop == Finished)
  {
    hide Run, Advance, RouterInv, Lawful, Gotten, RawItems, Datagrams, Enqueue;
  }

  lemma AfterStep(su: Setup, acts: seq<Action>, a: Action)
    requires 1 <= su.maxsize
    ensures After(su, acts + [a]) == Act(su, After(su, acts), a)
  {
    hide Act, ProcInv, RouterInv;
    assert (acts + [a])[..|acts|] == acts;
  }

  /** Once the end mark is in the queue, gets take only what was there, the loop never waits
      in vain, and every loop step brings its end nearer. */
  lemma {:induction false} EndedRun(su: Setup, acts: seq<Action>, more: seq<Action>)
    requires 1 <= su.maxsize
    ensures var p, q := After(su, acts), After(su, acts + more);
      p.source == Ended ==>
      && q.source == Ended
      && |q.queue.taken| + |q.queue.items| == |p.queue.taken| + |p.queue.items|
      && |p.queue.taken| <= |q.queue.taken|
      && (Rank(q) + LoopSteps(more) <= Rank(p) || q.loop == Finished)
  {
    hide Act, EndSeen, ProcInv, RouterInv, Rank, After;
    if |more| == 0 {
      assert acts + more == acts;
    } else {
      var front, a := more[..|more| - 1], more[|more| - 1];
      assert acts + more == (acts + front) + [a];
      EndedRun(su, acts, front);
      AfterStep(su, acts + front, a);
      ShutdownNeverLost(su, acts + front);
      var q := After(su, acts + front);
      if After(su, acts).source == Ended {
        EndedStep(su, q, a);
      }
    }
  }

  /** Termination, whatever the interleaving: after the source has ended, the loop finishes
      within four steps an item and a few more, and leaves no later than with the get of the
      last item that was in the queue. */
  lemma LoopFinishes(su: Setup, acts: seq<Action>, more: seq<Action>)
    requires 1 <= su.maxsize
    ensures var p, q := After(su, acts), After(su, acts + more);
      p.source == Ended ==>
      && (LoopSteps(more) >= 4 * |p.queue.items| + 5 ==> q.loop == Finished)
      && |q.queue.taken| - |p.queue.taken| <= |p.queue.items|
      && (|q.queue.taken| - |p.queue.taken| == |p.queue.items| ==> Left(q.loop))
  {
    hide After, ProcInv, RouterInv;
    EndedRun(su, acts, more);
    ShutdownNeverLost(su, acts + more);
    assert Rank(After(su, acts)) <= 4 * |After(su, acts).queue.items| + 5;
  }

  /** An upper bound on the source's remaining steps. */
  function SourceRank(su: Setup, p: Proc): int {
    match p.source
    case AtLoop => 2 * (|su.packets| - p.fed) + 2
    case AtPut => 2 * (|su.packets| - p.fed) + 1
    case AtFinally => 1
    case Ended => 0
  }

  function SourceSteps(acts: seq<Action>): nat {
    if |acts| == 0 then 0 else SourceSteps(acts[..|acts| - 1]) + (if acts[|acts| - 1].Source? then 1 else 0)
  }

  lemma SourceStepCounts(su: Setup, p: Proc, a: Action)
    requires ProcInv(su, p) && RouterInv(p.sys.router)
    ensures var q := Act(su, p, a);
      && SourceRank(su, q) <= SourceRank(su, p) && (a.Source? && p.source != Ended ==> SourceRank(su, q) < SourceRank(su, p))
      && (p.source == Ended ==> q.source == Ended)
      && (p.stop ==> q.stop)
  {
    hide Run, Advance, RouterInv, Lawful, LoopInv, Enqueue;
  }

  /** The source ends, whatever the interleaving: two steps a packet and two more suffice. */
  lemma {:induction false} SourceEnds(su: Setup, acts: seq<Action>)
    requires 1 <= su.maxsize
    ensures var p := After(su, acts);
      && (p.source == Ended || SourceRank(su, p) + SourceSteps(acts) <= 2 * |su.packets| + 2)
      && (SourceSteps(acts) >= 2 * |su.packets| + 2 ==> p.source == Ended)
  {
    hide Act, RouterInv, Run, Lawful, LoopInv;
    if |acts| != 0 {
      var front, a := acts[..|acts| - 1], acts[|acts| - 1];
      SourceEnds(su, front);
      SourceStepCounts(su, After(su, front), a);
    }
    assert ProcInv(su, After(su, acts));
  }

  /** What a stopped source still has to do, in steps. */
  function SourceLeft(a: SourceAt): nat {
    match a
    case AtPut => 3
    case AtLoop => 2
    case AtFinally => 1
    case Ended => 0
  }

  lemma StoppedSourceStep(su: Setup, p: Proc, a: Action)
    requires ProcInv(su, p) && RouterInv(p.sys.router) && p.stop
    ensures var q := Act(su, p, a);
      && q.stop
      && p.fed <= q.fed && q.fed - p.fed + (if q.source == AtPut then 1 else 0) <= (if p.source == AtPut then 1 else 0)
      && SourceLeft(q.source) <= SourceLeft(p.source)
      && (a.Source? && p.source != Ended ==> SourceLeft(q.source) < SourceLeft(p.source))
  {
    hide Run, Advance, RouterInv, Lawful, LoopInv, Enqueue;
  }

  /** A stopped source puts at most the packet it was about to put, and ends within three
      of its own steps, the end mark included. */
  lemma {:induction false} StoppedSourceEnds(su: Setup, acts: seq<Action>, more: seq<Action>)
    requires 1 <= su.maxsize
    ensures var p, q := After(su, acts), After(su, acts + more);
      p.stop ==>
      && q.stop
      && p.fed <= q.fed && q.fed - p.fed + (if q.source == AtPut then 1 else 0) <= (if p.source == AtPut then 1 else 0)
      && (q.source == Ended || SourceLeft(q.source) + SourceSteps(more) <= SourceLeft(p.source))
      && (SourceSteps(more) >= 3 ==> q.source == Ended)
  {
    hide Act, ProcInv, RouterInv, After;
    if |more| == 0 {
      assert acts + more == acts;
    } else {
      var front, a := more[..|more| - 1], more[|more| - 1];
      assert acts + more == (acts + front) + [a];
      StoppedSourceEnds(su, acts, front);
      AfterStep(su, acts + front, a);
      if After(su, acts).stop {
        StoppedSourceStep(su, After(su, acts + front), a);
      }
    }
  }

  /** So every interleaving that gives both threads enough steps of their own finishes, and
      then the end mark was put. */
  lemma EveryRunFinishes(su: Setup, acts: seq<Action>, more: seq<Action>)
    requires 1 <= su.maxsize
    requires SourceSteps(acts) >= 2 * |su.packets| + 2 && LoopSteps(more) >= 4 * su.maxsize + 5
    ensures var q := After(su, acts + more);
      q.loop == Finished && q.source == Ended
  {
    hide After, SourceInv, LoopInv, Run, RouterInv, EndSeen, Gotten;
    SourceEnds(su, acts);
    LoopFinishes(su, acts, more);
    EndedRun(su, acts, more);
    assert ProcInv(su, After(su, acts));
  }

  /** An upper bound on the loop's remaining steps once the stop event is set. */
  function StopRank(l: LoopAt): nat {
    match l
    case AtGet => 5
    case Holding(_) => 4
    case AtPoll => 3
    case AtCheck => 2
    case AtFlush => 1
    case Finished => 0
  }

  /** A stopped loop finishes within five of its own steps, whatever is still in the queue
      and whatever the source does. */
  lemma {:induction false} StoppedLoopFinishes(su: Setup, acts: seq<Action>, more: seq<Action>)
    requires 1 <= su.maxsize
    ensures var p, q := After(su, acts), After(su, acts + more);
      p.stop ==>
      && q.stop
      && (q.loop == Finished || StopRank(q.loop) + LoopSteps(more) <= StopRank(p.loop))
      && (LoopSteps(more) >= 5 ==> q.loop == Finished)
  {
    hide Act, ProcInv, RouterInv, After;
    if |more| == 0 {
      assert acts + more == acts;
    } else {
      var front, a := more[..|more| - 1], more[|more| - 1];
      assert acts + more == (acts + front) + [a];
      StoppedLoopFinishes(su, acts, front);
      AfterStep(su, acts + front, a);
      if After(su, acts).stop {
        StoppedStep(su, After(su, acts + front), a);
      }
    }
  }

  lemma StoppedStep(su: Setup, p: Proc, a: Action)
    requires 1 <= su.maxsize && RouterInv(p.sys.router) && p.stop
    ensures var q := Act(su, p, a);
      && q.stop
      && StopRank(q.loop) <= StopRank(p.loop) && (a.Loop? && p.loop != Finished ==> StopRank(q.loop) < StopRank(p.loop))
  {
    hide Advance, RouterInv, Enqueue;
  }

  /** Once the loop has finished, on every exit path, no stream has an open window and the
      stream's units hold exactly its accepted bodies, each byte once, in order. */
  lemma FinalFlush(su: Setup, acts: seq<Action>, sid: nat)
    requires 1 <= su.maxsize && CoversReading(su.cfg)
    ensures var p := After(su, acts);
      p.loop == Finished ==>
      && BufferFor(p.sys.router, sid).chunks == []
      && Join(Raws(UnitsOf(p.sys.units, sid))) == Bodies(StreamEvents(su.maxStreams, p.inputs, sid))
  {
    hide After, Run, RouterInv, StreamEvents, Replay, Lawful, SourceInv, LoopInv, Join, Raws, Bodies;
    var p := After(su, acts);
    assert ProcInv(su, p);
    if p.loop == Finished {
      var front := p.inputs[..|p.inputs| - 1];
      assert p.inputs == front + [Finish];
      FlushedRun(su.cfg, su.maxStreams, front, sid);
    }
  }

  lemma FlushedRun(cfg: Config, maxStreams: int, evs: seq<Input>, sid: nat)
    requires CoversReading(cfg)
    ensures var s := Run(cfg, maxStreams, evs + [Finish]);
      && BufferFor(s.router, sid).chunks == []
      && Join(Raws(UnitsOf(s.units, sid))) == Bodies(StreamEvents(maxStreams, evs + [Finish], sid))
  {
    hide Run, RouterInv, StreamEvents, Replay, Join, Raws, Chunks, Datas, InterpAfter, AllFlagged, UnitsOf;
    var own := StreamEvents(maxStreams, evs, sid);
    Demultiplexed(cfg, maxStreams, evs + [Finish], sid);
    StreamStep(maxStreams, evs, Finish, sid);
    DrainedCompletely(cfg, sid, own);
    StreamRemembered(maxStreams, evs, sid);
    RememberedFlags(InterpAfter(maxStreams, evs), sid, own);
    ChunksAreBodies(own);
    assert (own + [Drained])[..|own|] == own;
  }

  /** A replay that neither stopped, failed nor overflowed has handed every packet of the
      capture to the interpreter, exactly once and in order. */
  lemma CompleteReplay(su: Setup, acts: seq<Action>)
    requires 1 <= su.maxsize
    ensures var p := After(su, acts);
      p.loop == Finished && !p.stop && !p.failed && p.queue.dropped == 0 ==> Datagrams(p.inputs) == su.packets
  {
    hide After, Run, RouterInv, RawItems, Datagrams, Lawful, Gotten;
    var p := After(su, acts);
    assert ProcInv(su, p);
    if p.loop == Finished && !p.stop && !p.failed && p.queue.dropped == 0 {
      AllDelivered(su, p);
      assert su.packets[..|su.packets|] == su.packets;
      SameEnd(RawItems(su.packets), RawItems(Datagrams(p.inputs)));
      RawItemsInjective(su.packets, Datagrams(p.inputs));
    }
  }

  /** A queue with room for the whole capture and its end mark never drops anything. */
  lemma RoomForAll(su: Setup, acts: seq<Action>)
    requires 1 <= su.maxsize
    ensures |su.packets| + 1 <= su.maxsize ==> After(su, acts).queue.dropped == 0
  {
    hide After, Run, RouterInv, LoopInv, RawItems;
    QueueLaws(su, acts);
    assert ProcInv(su, After(su, acts));
  }

  /** So a replay through such a queue that was neither stopped nor failed hands over the
      whole capture, whatever the interleaving. */
  lemma RoomyReplay(su: Setup, acts: seq<Action>)
    requires 1 <= su.maxsize
    ensures var p := After(su, acts);
      |su.packets| + 1 <= su.maxsize && p.loop == Finished && !p.stop && !p.failed ==> Datagrams(p.inputs) == su.packets
  {
    hide After, Datagrams;
    RoomForAll(su, acts);
    CompleteReplay(su, acts);
  }

  /** Only a stop sets the stop event, and only a failure of the source is one. */
  lemma {:induction false} Undisturbed(su: Setup, acts: seq<Action>)
    requires 1 <= su.maxsize
    ensures Stop !in acts ==> !After(su, acts).stop
    ensures SourceFails !in acts ==> !After(su, acts).failed
  {
    hide RouterInv, ProcInv, Act;
    if |acts| != 0 {
      var front, a := acts[..|acts| - 1], acts[|acts| - 1];
      Undisturbed(su, front);
      assert acts == front + [a];
      Disturbs(su, After(su, front), a);
    }
  }

  lemma Disturbs(su: Setup, p: Proc, a: Action)
    requires 1 <= su.maxsize && RouterInv(p.sys.router)
    ensures a != Stop ==> Act(su, p, a).stop == p.stop
    ensures a != SourceFails ==> Act(su, p, a).failed == p.failed
  {
    hide RouterInv, Advance, Enqueue, Dequeue;
  }

  /** Through a queue with room, every undisturbed interleaving that lets both threads step
      often enough hands the whole capture to the interpreter, each packet once, in order. */
  lemma ReplayDelivers(su: Setup, acts: seq<Action>, more: seq<Action>)
    requires 1 <= su.maxsize && |su.packets| + 1 <= su.maxsize
    requires Stop !in acts + more && SourceFails !in acts + more
    requires SourceSteps(acts) >= 2 * |su.packets| + 2 && LoopSteps(more) >= 4 * su.maxsize + 5
    ensures var p := After(su, acts + more);
      p.loop == Finished && Datagrams(p.inputs) == su.packets
  {
    hide After, Datagrams;
    EveryRunFinishes(su, acts, more);
    Undisturbed(su, acts + more);
    RoomyReplay(su, acts + more);
  }

  lemma SameEnd(a: seq<Item>, b: seq<Item>)
    requires a + [Shutdown] == b + [Shutdown]
    ensures a == b
  {
    assert (a + [Shutdown])[..|a|] == a && (b + [Shutdown])[..|b|] == b;
  }

  lemma RawItemsInjective(a: seq<bytes>, b: seq<bytes>)
    requires RawItems(a) == RawItems(b)
    ensures a == b
  {
    assert |a| == |b|;
    forall i | 0 <= i < |a|
      ensures a[i] == b[i]
    {
      assert RawItems(a)[i] == Raw(a[i]) && RawItems(b)[i] == Raw(b[i]);
    }
  }

  /** The end mark was gotten, so it was put last and nothing is left behind it. */
  lemma AllDelivered(su: Setup, p: Proc)
    requires Lawful(p.queue, su.maxsize) && SourceInv(su, p) && LoopInv(p)
    requires p.loop == Finished && !p.stop && !p.failed && p.queue.dropped == 0
    ensures p.source == Ended && p.fed == |su.packets|
    ensures Gotten(p.queue) == p.queue.puts
    ensures Gotten(p.queue) == RawItems(Datagrams(p.inputs)) + [Shutdown]
  {
    hide RawItems, Datagrams;
    var q := p.queue;
    var n := |q.taken|;
    assert Gotten(q)[n - 1] == Shutdown == q.puts[q.taken[n - 1]];
    RawOnly(su.packets[..p.fed], q.puts, q.taken[n - 1]);
    assert q.taken[n - 1] == |q.puts| - 1;
    assert q.items == [];
    AllGotten(q, su.maxsize);
  }

  lemma RawOnly(packets: seq<bytes>, puts: seq<Item>, i: nat)
    requires i < |puts| && puts[i] == Shutdown
    requires RawItems(packets) <= puts && |puts| <= |packets| + 1
    ensures i == |packets| && |puts| == |packets| + 1
  {
    forall k | 0 <= k < |packets|
      ensures puts[k] != Shutdown
    {
      assert RawItems(packets)[k] == puts[k];
    }
  }

  /** After every turn of the loop, whether it took a datagram or timed out, no stream holds
      a window whose first chunk is as old as the limit. */
  lemma NoOldWindowAfterTurn(su: Setup, acts: seq<Action>, now: real, clock: nat -> real, sid: nat)
    requires 1 <= su.maxsize && CoversReading(su.cfg)
    ensures var p := After(su, acts + [Loop(now, clock)]);
      && (After(su, acts).loop == AtPoll ==> p.loop == AtCheck)
      && (p.loop == AtCheck ==>
            var b := BufferFor(p.sys.router, sid);
            b.chunks != [] ==> b.firstArrival.Some? && clock(sid) - b.firstArrival.value < su.cfg.maxAge)
  {
    hide After, Run, RouterInv, Lawful, SourceInv, LoopInv;
    var p := After(su, acts);
    assert ProcInv(su, p);
    AfterStep(su, acts, Loop(now, clock));
    assert ProcInv(su, After(su, acts + [Loop(now, clock)]));
    NoOldWindows(su.cfg, su.maxStreams, p.inputs, clock, sid);
  }
}
