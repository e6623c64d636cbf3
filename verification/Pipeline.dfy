/** The dequeue loop over the real objects: interpreter, router and consumer. */
module Pipeline {
  import opened Bytes
  import opened Buffering
  import opened Routing
  import opened Stack
  import opened Streams
  import opened Runtime
  import opened Turns
  import I = Interpreter
  import Ingest

  class Pipeline {
    const interpreter: I.Interpreter
    const router: Ingest.BufferRouter
    ghost var history: seq<Input>

    ghost predicate Valid()
      reads this, interpreter, router, router.sink, router.buffers.Values
    {
      && router.Valid()
      && router.maxStreams == interpreter.maxStreams
      && Sys(interpreter.View(), router.View(), router.sink.units) == Run(router.cfg, router.maxStreams, history)
    }

    constructor (cfg: Config, maxStreams: int)
      ensures Valid() && history == [] && fresh(interpreter) && fresh(router) && fresh(router.sink)
      ensures router.cfg == cfg && router.maxStreams == maxStreams && router.buffers == map[]
    {
      var sink := new Ingest.Sink();
      interpreter := new I.Interpreter(maxStreams);
      router := new Ingest.BufferRouter(sink, cfg, maxStreams);
      history := [];
    }

    /** Handles one datagram: interpret it, and route the record if there is one. */
    method Handle(raw: bytes, now: real)
      requires Valid()
      modifies this, interpreter, router, router.sink, router.buffers.Values
      ensures Valid() && history == old(history) + [Datagram(raw, now)]
      ensures fresh(router.buffers.Values - old(router.buffers.Values))
    {
      hide I.Step, Route, Run, Ingest.BufferRouter.Valid, Ingest.BufferRouter.View, RouterInv;
      RunStep(router.cfg, router.maxStreams, history, Datagram(raw, now));
      var record := interpreter.Process(raw);
      router.Push(record, now);
      history := history + [Datagram(raw, now)];
    }

    method PollAges(clock: nat -> real)
      requires Valid()
      modifies this, router.sink, router.buffers.Values
      ensures Valid() && history == old(history) + [Tick(clock)]
    {
      hide Sweep, Run, Ingest.BufferRouter.Valid, Ingest.BufferRouter.View, RouterInv;
      RunStep(router.cfg, router.maxStreams, history, Tick(clock));
      router.MaybeFlushOnAge(clock);
      history := history + [Tick(clock)];
    }

    method DrainAll()
      requires Valid()
      modifies this, router.sink, router.buffers.Values
      ensures Valid() && history == old(history) + [Finish]
    {
      hide Sweep, Run, Ingest.BufferRouter.Valid, Ingest.BufferRouter.View, RouterInv;
      RunStep(router.cfg, router.maxStreams, history, Finish);
      router.FlushAll();
      history := history + [Finish];
    }

    /** The loop, with its final flush on every way out. */
    method Loop(turns: seq<Turn>)
      requires Valid()
      modifies this, interpreter, router, router.sink, router.buffers.Values
      ensures Valid() && history == old(history) + InputsOf(turns)
      ensures Sys(interpreter.View(), router.View(), router.sink.units)
           == Run(router.cfg, router.maxStreams, old(history) + InputsOf(turns))
    {
      hide Run, Ingest.BufferRouter.Valid, Ingest.BufferRouter.View, RouterInv;
      var i := 0;
      assert turns[0..] == turns;
      while i < |turns| && !turns[i].stop
        invariant i <= |turns| && Valid()
        invariant history + InputsOf(turns[i..]) == old(history) + InputsOf(turns)
        invariant fresh(router.buffers.Values - old(router.buffers.Values))
      {
        var turn := turns[i];
        assert turns[i..][1..] == turns[i + 1..];
        if turn.item == Some(Shutdown) {
          break;
        }
        if turn.item.Some? {
          Handle(turn.item.value.raw, turn.now);
        }
        PollAges(turn.clock);
        i := i + 1;
      }
      DrainAll();
    }
  }
}
