/** The turns of the dequeue loop, and which turns an interleaving of both threads took. */
module Turns {
  import opened Bytes
  import opened Routing
  import opened Stack
  import opened RawQueue
  import opened Runtime

  /** One turn of the loop as the outside world supplies it: whether the stop event is set,
      what `get` returned (nothing on a timeout), and what the clock will say. */
  datatype Turn = Turn(stop: bool, item: Option<Item>, now: real, clock: nat -> real)

  /** What the turns of a loop drive the machine with, the final flush included. A list that
      runs out is a loop that is stopped there. */
  function InputsOf(turns: seq<Turn>): seq<Input> {
    if |turns| == 0 || turns[0].stop then [Finish]
    else
      match turns[0].item
      case None => [Tick(turns[0].clock)] + InputsOf(turns[1..])
      case Some(Shutdown) => [Finish]
      case Some(Raw(raw)) => [Datagram(raw, turns[0].now), Tick(turns[0].clock)] + InputsOf(turns[1..])
  }

  /** A turn after which the loop goes on. */
  predicate GoesRound(t: Turn) {
    !t.stop && t.item != Some(Shutdown)
  }

  predicate AllGoRound(turns: seq<Turn>) {
    forall i :: 0 <= i < |turns| ==> GoesRound(turns[i])
  }

  /** What the turns of a loop that is still running have driven the machine with. */
  function InputsSoFar(turns: seq<Turn>): seq<Input> {
    InputsOf(turns)[..|InputsOf(turns)| - 1]
  }

  lemma {:induction false} InputsAppend(turns: seq<Turn>, t: Turn)
    requires AllGoRound(turns)
    ensures InputsOf(turns + [t]) == InputsSoFar(turns) + InputsOf([t])
    ensures InputsOf(turns) == InputsSoFar(turns) + [Finish]
  {
    if |turns| == 0 {
      assert [] + [t] == [t];
    } else {
      assert GoesRound(turns[0]);
      assert (turns + [t])[1..] == turns[1..] + [t];
      InputsAppend(turns[1..], t);
    }
  }

  // ---------- The turns an interleaving took ----------

  /** The complete turns, and what the current one has got and when. */
  datatype Log = Log(turns: seq<Turn>, item: Option<Item>, now: real)

  /** What a loop step adds to the log; the other steps add nothing. */
  ghost function Logged(log: Log, p: Proc, a: Action): Log {
    if !a.Loop? then log
    else match p.loop
      case AtCheck => if p.stop then log.(turns := log.turns + [Turn(true, None, a.now, a.clock)]) else log
      case AtGet =>
        var item := Dequeue(p.queue).1;
        if item == Some(Shutdown) then log.(turns := log.turns + [Turn(false, item, a.now, a.clock)])
        else log.(item := item)
      case Holding(_) => log.(now := a.now)
      case AtPoll => log.(turns := log.turns + [Turn(false, log.item, log.now, a.clock)])
      case AtFlush => log
      case Finished => log
  }

  ghost function LogOf(su: Setup, acts: seq<Action>): Log
    requires 1 <= su.maxsize
  {
    if |acts| == 0 then Log([], None, 0.0)
    else
      var front := acts[..|acts| - 1];
      Logged(LogOf(su, front), After(su, front), acts[|acts| - 1])
  }

  /** The datagram a turn handles, if it got one. */
  function DatagramOf(item: Option<Item>, now: real): seq<Input> {
    match item
    case Some(Raw(raw)) => [Datagram(raw, now)]
    case _ => []
  }

  /** The inputs of the process are those of its turns. */
  ghost predicate Follows(log: Log, p: Proc) {
    match p.loop
    case AtCheck => AllGoRound(log.turns) && p.inputs == InputsSoFar(log.turns)
    case AtGet => AllGoRound(log.turns) && p.inputs == InputsSoFar(log.turns)
    case Holding(raw) => AllGoRound(log.turns) && p.inputs == InputsSoFar(log.turns) && log.item == Some(Raw(raw))
    case AtPoll => AllGoRound(log.turns) && p.inputs == InputsSoFar(log.turns) + DatagramOf(log.item, log.now) && log.item != Some(Shutdown)
    case AtFlush => p.inputs + [Finish] == InputsOf(log.turns)
    case Finished => p.inputs == InputsOf(log.turns)
  }

  lemma StepFollows(su: Setup, log: Log, p: Proc, a: Action)
    requires 1 <= su.maxsize && RouterInv(p.sys.router) && Follows(log, p)
    ensures Follows(Logged(log, p, a), Act(su, p, a))
  {
    hide InputsOf, InputsSoFar, Advance, RouterInv, Enqueue, Dequeue;
    if a.Loop? {
      LoopFollows(su, log, p, a);
    }
  }

  lemma LoopFollows(su: Setup, log: Log, p: Proc, a: Action)
    requires 1 <= su.maxsize && RouterInv(p.sys.router) && Follows(log, p) && a.Loop?
    ensures Follows(Logged(log, p, a), Act(su, p, a))
  {
    hide InputsOf, InputsSoFar, Advance, RouterInv, Dequeue;
    var turns, next := log.turns, Logged(log, p, a).turns;
    if |next| > |turns| {
      if p.loop == AtPoll {
        RoundTurn(turns, next[|turns|]);
      } else {
        LastTurn(turns, next[|turns|]);
      }
    }
  }

  lemma RoundTurn(turns: seq<Turn>, t: Turn)
    requires AllGoRound(turns) && GoesRound(t)
    ensures AllGoRound(turns + [t])
    ensures InputsSoFar(turns + [t]) == InputsSoFar(turns) + DatagramOf(t.item, t.now) + [Tick(t.clock)]
  {
    InputsAppend(turns, t);
    var d := DatagramOf(t.item, t.now);
    assert InputsOf([t]) == d + [Tick(t.clock)] + [Finish];
    assert InputsOf(turns + [t]) == (InputsSoFar(turns) + d + [Tick(t.clock)]) + [Finish];
  }

  lemma LastTurn(turns: seq<Turn>, t: Turn)
    requires AllGoRound(turns) && !GoesRound(t)
    ensures InputsOf(turns + [t]) == InputsSoFar(turns) + [Finish]
  {
    InputsAppend(turns, t);
  }

  lemma {:induction false} LogFollows(su: Setup, acts: seq<Action>)
    requires 1 <= su.maxsize
    ensures Follows(LogOf(su, acts), After(su, acts))
  {
    hide Act, Logged, Follows, ProcInv, RouterInv;
    if |acts| == 0 {
      NothingLogged();
    } else {
      var front := acts[..|acts| - 1];
      LogFollows(su, front);
      StepFollows(su, LogOf(su, front), After(su, front), acts[|acts| - 1]);
    }
  }

  lemma NothingLogged()
    ensures Follows(Log([], None, 0.0), LAUNCH)
  {
  }

  // ---------- What the turns got ----------

  function Got(t: Turn): seq<Item> {
    if t.item.Some? then [t.item.value] else []
  }

  /** What the turns took from the queue, in order. */
  function Items(turns: seq<Turn>): seq<Item> {
    if |turns| == 0 then [] else Items(turns[..|turns| - 1]) + Got(turns[|turns| - 1])
  }

  /** What the current turn took from the queue. */
  function InTurn(log: Log, l: LoopAt): seq<Item> {
    if (l.Holding? || l.AtPoll?) && log.item.Some? then [log.item.value] else []
  }

  /** The turns took exactly what the queue gave. */
  predicate Takes(log: Log, p: Proc) {
    TakenInRange(p.queue) && Gotten(p.queue) == Items(log.turns) + InTurn(log, p.loop)
  }

  lemma StepTakes(su: Setup, log: Log, p: Proc, a: Action)
    requires ProcInv(su, p) && RouterInv(p.sys.router) && Takes(log, p)
    ensures Takes(Logged(log, p, a), Act(su, p, a))
  {
    hide Run, Advance, RouterInv, Lawful, Gotten, Items, Enqueue, LoopInv, RawItems;
    ActKeepsInv(su, p, a);
    StillBelow(p.queue, Act(su, p, a).queue, su.maxsize);
    match a
    case Source =>
      if p.source == AtPut || p.source == AtFinally {
        PutLawful(p.queue, su.maxsize, if p.source == AtPut then Raw(su.packets[p.fed]) else Shutdown);
      }
    case Loop(_, _) => LoopTakes(su, log, p, a);
    case _ =>
  }

  lemma LoopTakes(su: Setup, log: Log, p: Proc, a: Action)
    requires ProcInv(su, p) && RouterInv(p.sys.router) && Takes(log, p) && a.Loop?
    requires TakenInRange(Act(su, p, a).queue)
    ensures Takes(Logged(log, p, a), Act(su, p, a))
  {
    hide Run, Advance, RouterInv, Lawful, Gotten, Items, SourceInv, LoopInv;
    var turns, next := log.turns, Logged(log, p, a).turns;
    if |next| > |turns| {
      ItemsAppend(turns, next[|turns|]);
    }
    if p.loop == AtGet && |p.queue.items| > 0 {
      GetLawful(p.queue, su.maxsize);
    }
  }

  lemma ItemsAppend(turns: seq<Turn>, t: Turn)
    ensures Items(turns + [t]) == Items(turns) + Got(t)
  {
    assert (turns + [t])[..|turns|] == turns;
  }

  lemma {:induction false} LogTakes(su: Setup, acts: seq<Action>)
    requires 1 <= su.maxsize
    ensures Takes(LogOf(su, acts), After(su, acts))
  {
    hide Act, Logged, Takes, ProcInv, RouterInv;
    if |acts| == 0 {
      NothingTaken();
    } else {
      var front := acts[..|acts| - 1];
      LogTakes(su, front);
      StepTakes(su, LogOf(su, front), After(su, front), acts[|acts| - 1]);
    }
  }

  lemma NothingTaken()
    ensures Takes(Log([], None, 0.0), LAUNCH)
  {
  }

  /** Every interleaving in which the loop has finished is a run of the loop by itself, on the
      turns it took: these got exactly what the queue gave, in order, and they drive the
      machine to the same state. */
  lemma InterleavingIsLoop(su: Setup, acts: seq<Action>)
    requires 1 <= su.maxsize
    ensures var p, turns := After(su, acts), LogOf(su, acts).turns;
      p.loop == Finished ==>
      && TakenInRange(p.queue) && Gotten(p.queue) == Items(turns)
      && p.inputs == InputsOf(turns)
      && p.sys == Run(su.cfg, su.maxStreams, InputsOf(turns))
  {
    hide LogOf, After, InputsOf, Run, RouterInv, Lawful, SourceInv, LoopInv, Gotten, Items;
    LogFollows(su, acts);
    LogTakes(su, acts);
    assert ProcInv(su, After(su, acts));
  }
}
