/**
  The server as a class whose fields are changed in place, with one client thread and one worker whose code
  runs when the client lets it, in `WorkerLoop` or in `WaitForWorker`. Each access to shared state is accompanied by the
  step of the server's step machine that it is.
*/
module ServerClass {
  import opened Sequences
  import opened Steps
  import opened ServerProtocol

  class SimpleMutexQueue {
    var items: seq<int>

    constructor ()
      ensures items == []
    {
      items := [];
    }

    method TryPush(event: int) returns (ok: bool)
      modifies this
      ensures ok && items == old(items) + [event]
    {
      items := items + [event];
      ok := true;
    }

    method TryPop() returns (ok: bool, event: int)
      modifies this
      ensures ok <==> old(items) != []
      ensures ok ==> event == old(items)[0] && items == old(items)[1..]
      ensures !ok ==> items == old(items)
    {
      if items == [] {
        return false, 0;
      }
      event := items[0];
      items := items[1..];
      ok := true;
    }
  }

  datatype SubmitStatus = Accepted | RejectedFull | RejectedStopped

  class Server {
    const config: Config
    const queue: SimpleMutexQueue
    var state: ServerState
    var mode: ShutdownMode
    var stop: bool
    var approx: nat
    var processed: seq<int>
    var joinable: bool            // the worker's thread has not ended
    var waiting: bool             // it sleeps on the condition variable

    ghost var s: State
    ghost var steps: seq<Action>

    ghost predicate Valid()
      reads this, queue
    {
      && s.m.state == state && s.m.mode == mode && s.m.stop == stop && s.m.approx == approx
      && s.m.queue == queue.items && s.g.processed == processed
      && |s.m.submitters| == 1 && |s.m.workers| == 1 && |queue.items| < RANGE
      && Run(config, Init(1, 1), steps) == Next(s)
    }

    /** Between calls. */
    ghost predicate Quiet()
      reads this
    {
      && s.m.submitters == [Away] && s.m.control.Ready?
      && s.m.workers == [if !joinable then Exited else if waiting then WaitDepth else TryPop]
    }

    ghost method Take(a: Action)
      requires Run(config, Init(1, 1), steps) == Next(s) && Step(config, s, a).Next?
      modifies this`s, this`steps
      ensures s == Step(config, old(s), a).s && steps == old(steps) + [a]
      ensures Run(config, Init(1, 1), steps) == Next(s)
    {
      Extend(config, Init(1, 1), steps, s, a, Step(config, s, a).s);
      s := Step(config, s, a).s;
      steps := steps + [a];
    }

    /** The server just after its first `start()`. */
    constructor (config: Config)
      ensures Valid() && Quiet() && this.config == config && fresh(queue)
      ensures state.Live? && !stop && queue.items == [] && approx == 0 && s.m.workers == [TryPop]
    {
      this.config := config;
      queue := new SimpleMutexQueue();
      state, mode, stop, approx, processed, joinable, waiting := Live, Graceful, false, 0, [], true, false;
      s, steps := Init(1, 1), [];
    }

    /** Alone, the counter is the queue's length. */
    lemma CounterIsLength()
      requires Valid() && s.m.submitters != [Increment] && !s.m.workers[0].Decrement?
      ensures approx == |queue.items|
    {
      InitSatisfiesCounts(config, 1, 1);
      RunKeepsDepth(config, Init(1, 1), steps);
      CountExtremes(s.m.submitters, Incrementing);
      CountExtremes(s.m.workers, Decrementing);
    }

    /** The accepting end of `trySubmit`. */
    method PushAndCount(event: int)
      requires Valid() && s.m.submitters == [Push(event)] && |queue.items| < config.limit < RANGE
      modifies queue, this`approx, this`s, this`steps
      ensures Valid() && queue.items == old(queue.items) + [event] && s.g.accepted == old(s.g.accepted) + [event]
      ensures s.m == old(s.m).(queue := queue.items, approx := approx, submitters := [Away])
    {
      var ok := queue.TryPush(event);
      Take(SubmitStep(0));
      approx := Up(approx);
      Take(SubmitStep(0));
    }

    /** Accept the event, or say why not. */
    method TrySubmit(event: int) returns (status: SubmitStatus)
      requires Valid() && Quiet() && |queue.items| < config.limit < RANGE
      modifies queue, this`approx, this`s, this`steps
      ensures Valid() && Quiet() && s.m.workers == old(s.m.workers)
      ensures status == if !state.Live? then RejectedStopped
                        else if config.backpressure && |old(queue.items)| >= config.capacity then RejectedFull
                        else Accepted
      ensures queue.items == if status.Accepted? then old(queue.items) + [event] else old(queue.items)
      ensures s.g.accepted == if status.Accepted? then old(s.g.accepted) + [event] else old(s.g.accepted)
    {
      CounterIsLength();
      var running := CheckRunning(event);
      if !running {
        return RejectedStopped;
      }
      if config.backpressure {
        var depth := approx;
        Take(SubmitStep(0));
        if depth >= config.capacity {
          return RejectedFull;
        }
      }
      PushAndCount(event);
      status := Accepted;
    }

    /** The call, and its check of the server's state. */
    method CheckRunning(event: int) returns (running: bool)
      requires Valid() && s.m.submitters == [Away]
      modifies this`s, this`steps
      ensures Valid() && s.g == old(s.g) && running == state.Live?
      ensures s.m == old(s.m).(submitters := [if !running then Away
                                              else if config.backpressure then CheckDepth(event) else Push(event)])
    {
      Take(Submit(0, event));
      running := state.Live?;
      Take(SubmitStep(0));
    }

    /** One event through the worker: wake up if need be, pop, count down, process. */
    method WorkerTurn()
      requires Valid() && Quiet() && joinable && queue.items != []
      modifies queue, this`approx, this`processed, this`waiting, this`s, this`steps
      ensures Valid() && Quiet() && !waiting
      ensures processed == old(processed) + [old(queue.items)[0]] && queue.items == old(queue.items)[1..]
      ensures s.g.accepted == old(s.g.accepted) && s.m.submitters == old(s.m.submitters)
    {
      if waiting {
        CounterIsLength();
        Take(WorkStep(0));
        waiting := false;
      }
      var ok, event := queue.TryPop();
      Take(WorkStep(0));
      approx := Down(approx);
      Take(WorkStep(0));
      processed := processed + [event];
      Take(WorkStep(0));
    }

    method Shutdown(mode: ShutdownMode)
      requires Valid() && Quiet()
      modifies this`mode, this`state, this`stop, this`s, this`steps
      ensures Valid() && Quiet() && this.mode == mode && s.g == old(s.g) && s.m.workers == old(s.m.workers)
      ensures if old(state) in {Stopped, Failed} then state == old(state) && stop == old(stop) else state == Stopping && stop
    {
      this.mode := mode;
      Take(Action.Shutdown(mode));
      var before := state;
      Take(ControlStep);
      if before == Stopped || before == Failed {
        return;
      }
      Stop();
    }

    /** The stores of `shutdown`: first nothing more is accepted, then the workers are told. */
    method Stop()
      requires Valid() && s.m.control.StoreState?
      modifies this`state, this`stop, this`s, this`steps
      ensures Valid() && state == Stopping && stop && s.g == old(s.g)
      ensures s.m == old(s.m).(state := Stopping, stop := true, control := Ready)
    {
      state := Stopping;
      Take(ControlStep);
      stop := true;
      Take(ControlStep);
    }

    /** A worker asleep on an empty queue wakes up because the server has been stopped. */
    method WakeToStop()
      requires Valid() && Quiet() && joinable && waiting && queue.items == [] && stop
      modifies this`waiting, this`s, this`steps
      ensures Valid() && Quiet() && !waiting && s.g == old(s.g)
    {
      CounterIsLength();
      Take(WorkStep(0));
      Take(WorkStep(0));
      waiting := false;
    }

    /** The worker leaves a stopped server once its queue is empty. */
    method LeaveWorkerLoop()
      requires Valid() && Quiet() && joinable && !waiting && queue.items == [] && stop
      modifies this`joinable, this`s, this`steps
      ensures Valid() && Quiet() && !joinable && s.g == old(s.g)
    {
      CounterIsLength();
      Take(WorkStep(0));
      Take(WorkStep(0));
      var forced := mode.Force?;
      Take(WorkStep(0));
      if !forced {
        assert approx == 0;
        Take(WorkStep(0));
      }
      joinable := false;
    }

    /** Nothing to do, and nobody has stopped the server: go to sleep. */
    method Sleep()
      requires Valid() && Quiet() && joinable && !waiting && queue.items == [] && !stop
      modifies this`waiting, this`s, this`steps
      ensures Valid() && Quiet() && waiting && s.g == old(s.g)
    {
      Take(WorkStep(0));
      Take(WorkStep(0));
      waiting := true;
    }

    /**
      `workerLoop` until it sleeps or ends: everything accepted is processed, in order, and then the worker leaves if
      and only if the server has been stopped.
    */
    method WorkerLoop()
      requires Valid() && Quiet() && joinable
      modifies queue, this`approx, this`processed, this`joinable, this`waiting, this`s, this`steps
      ensures Valid() && Quiet() && (joinable <==> !stop) && (joinable ==> waiting)
      ensures queue.items == [] && processed == old(processed) + old(queue.items)
      ensures s.g.accepted == old(s.g.accepted)
    {
      while queue.items != []
        invariant Valid() && Quiet() && joinable
        invariant processed + queue.items == old(processed) + old(queue.items)
        invariant s.g.accepted == old(s.g.accepted)
        decreases |queue.items|
      {
        WorkerTurn();
      }
      if stop {
        if waiting {
          WakeToStop();
        }
        LeaveWorkerLoop();
      } else if !waiting {
        Sleep();
      }
    }

    /**
      `wait`: join the worker and mark the server stopped. It returns if and only if the worker has ended or is going
      to, which it is once the server has been stopped; otherwise the caller still waits, with the worker asleep.
    */
    method WaitForWorker() returns (returned: bool)
      requires Valid() && Quiet()
      modifies queue, this`approx, this`processed, this`joinable, this`waiting, this`state, this`s, this`steps
      ensures Valid() && Quiet() && (returned <==> stop || !old(joinable))
      ensures if returned then !joinable && state == (if old(state).Failed? then Failed else Stopped)
              else joinable && waiting && state == old(state)
      ensures if old(joinable) then queue.items == [] && processed == old(processed) + old(queue.items)
              else queue.items == old(queue.items) && processed == old(processed)
    {
      if joinable {
        WorkerLoop();
        if joinable {
          return false;
        }
      }
      if state != Failed {
        state := Stopped;
      }
      Take(Action.Wait);
      returned := true;
    }
  }
}
