/**
  The restartable engine as a class whose fields are changed in place, driven by one client thread; the
  worker's code runs at the client's `WorkerTurn` and when `Shutdown` joins it. Each access to shared memory
  is accompanied by the step of the engine's step machine that it is, so every state of the object is a
  state of a run of that machine.
*/
module VerifiableEngineClass {
  import opened Sequences
  import opened Steps
  import opened IntrusiveStack
  import opened LogEngine
  import opened LogEngineInvariant
  import opened LogEngineTheorems
  import opened LogEngineResults
  import opened LogEngineShutdown

  lemma {:induction false} RunExtends(s: State, actions: seq<Action>, a: Action)
    requires Run(s, actions).Next? && Step(Run(s, actions).s, a).Next?
    ensures Run(s, actions + [a]) == Step(Run(s, actions).s, a)
    decreases |actions|
  {
    if actions == [] {
      assert ([] + [a])[1..] == [];
      assert Run(Step(s, a).s, []) == Step(s, a);
    } else {
      assert (actions + [a])[1..] == actions[1..] + [a];
      RunExtends(Step(s, actions[0]).s, actions[1..], a);
    }
  }

  /** The run of a single producer needs no assumption to keep the invariant. */
  lemma RunInv(pool: nat, actions: seq<Action>, s: State)
    requires Run(Init(pool, 1), actions) == Next(s)
    ensures Inv(s) && AbaFree(Init(pool, 1), actions)
  {
    SingleProducerIsSafe(pool, actions);
    InitSatisfiesInv(pool, 1);
    AbaFreeRunIsSafe(Init(pool, 1), actions);
  }

  class VerifiableEngine {
    const next: array<int>
    const freeNext: array<int>
    const slot: array<Option<Message>>
    var head: int
    var tail: int
    var freeHead: int
    var run: bool
    var enqueued: nat
    var written: nat
    var dropped: nat
    var pending: int              // the worker's local `pending_recycle`
    var output: seq<Message>      // what `submit_fn` has been called on, in order

    ghost var s: State
    ghost var steps: seq<Action>

    ghost predicate Tied()
      reads this, next, freeNext, slot
    {
      && s.m.next == next[..] && s.m.freeNext == freeNext[..] && s.m.slot == slot[..]
      && s.m.head == head && s.m.tail == tail && s.m.freeHead == freeHead && s.m.run == run
      && s.m.enqueued == enqueued && s.m.written == written && s.m.dropped == dropped
      && s.m.pending == pending && s.g.submitted == output && |s.m.producers| == 1
    }

    /** The object's fields are the memory of the step machine in a state that a run of it reaches. */
    ghost predicate Valid()
      reads this, next, freeNext, slot
    {
      && next != freeNext && next.Length == slot.Length + 1 && freeNext.Length == slot.Length
      && Tied() && Run(Init(slot.Length, 1), steps) == Next(s)
    }

    /** Between calls: no `enqueue` and no `shutdown` is under way, and the worker, if any, is at its loop's test. */
    ghost predicate Quiet()
      reads this
    {
      && s.m.producers == [Resting] && !s.m.control.Joining?
      && (s.m.worker.Off? || s.m.worker.TestRun?)
    }

    ghost method Take(a: Action)
      requires Run(Init(slot.Length, 1), steps) == Next(s) && Step(s, a).Next?
      modifies this`s, this`steps
      ensures s == Step(old(s), a).s && steps == old(steps) + [a]
      ensures Run(Init(slot.Length, 1), steps) == Next(s)
    {
      RunExtends(Init(slot.Length, 1), steps, a);
      s := Step(s, a).s;
      steps := steps + [a];
    }

    /** The constructor pushes every record of the pool onto the free list. */
    constructor (pool: nat)
      ensures Valid() && Quiet() && !run && slot.Length == pool
      ensures fresh(next) && fresh(freeNext) && fresh(slot)
      ensures s == Init(pool, 1)
    {
      next := new int[pool + 1](i => NULL);
      freeNext := new int[pool](i => NULL);
      slot := new Option<Message>[pool](i => None);
      head, tail, freeHead, pending := pool, pool, NULL, NULL;
      run, enqueued, written, dropped, output := false, 0, 0, 0, [];
      s, steps := Init(pool, 1), [];
      new;
      for i := 0 to pool
        invariant freeHead == i - 1
        invariant forall j :: 0 <= j < i ==> freeNext[j] == j - 1
        invariant head == pool && tail == pool && !run && enqueued == written == dropped == 0
        invariant s == Init(pool, 1) && steps == []
        modifies freeNext, this`freeHead
      {
        freeNext[i] := freeHead;
        freeHead := i;
      }
      assert next[..] == s.m.next && freeNext[..] == s.m.freeNext && slot[..] == s.m.slot;
    }

    // ----- Producer -----

    /**
      `try_pop`. The client being alone, the weak compare-and-swap fails only for no reason, `spurious` times.
    */
    method TryPop(ghost payload: int, spurious: nat) returns (h: int)
      requires Valid() && s.m.producers == [LoadFree(payload)]
      modifies this`freeHead, this`s, this`steps
      ensures Valid()
      ensures s.m == old(s.m).(freeHead := freeHead, producers := s.m.producers)
      ensures old(s.g.stack) == [] ==> h == NULL && s.g == old(s.g) && s.m.producers == [Drop(payload)]
      ensures old(s.g.stack) != [] ==>
                && h == old(s.g.stack)[0] && 0 <= h < slot.Length && s.m.producers == [Fill(payload, h)]
                && s.g == old(s.g).(stack := old(s.g.stack)[1..], place := Put(old(s.g.place), h, HeldBy(0)))
    {
      FreeHeadIsTop();
      h := LoadFreeHead(payload);
      var failures := spurious;
      while h != NULL
        invariant Valid() && h == freeHead && s.g == old(s.g)
        invariant h == NULL <==> old(s.g.stack) == []
        invariant h != NULL ==> h == old(s.g.stack)[0] && 0 <= h < slot.Length
        invariant s.m.producers == [AfterLoad(payload, h)]
        invariant s.m == old(s.m).(producers := s.m.producers)
        decreases failures
      {
        var link := ReadFreeLink(payload, h);
        var done := SwapFreeHead(payload, h, link, failures > 0);
        if done {
          return;
        }
        h := freeHead;
        failures := failures - 1;
      }
    }

    method LoadFreeHead(ghost payload: int) returns (h: int)
      requires Valid() && s.m.producers == [LoadFree(payload)]
      modifies this`s, this`steps
      ensures Valid() && s.g == old(s.g) && h == freeHead
      ensures s.m == old(s.m).(producers := [AfterLoad(payload, h)])
    {
      h := freeHead;
      Take(Produce(0, false));
    }

    method ReadFreeLink(ghost payload: int, h: int) returns (link: int)
      requires Valid() && s.m.producers == [ReadLink(payload, h)] && 0 <= h < slot.Length
      modifies this`s, this`steps
      ensures Valid() && s.g == old(s.g) && link == freeNext[h]
      ensures s.m == old(s.m).(producers := [CasFree(payload, h, link)])
    {
      link := freeNext[h];
      Take(Produce(0, false));
    }

    /** The swap of `try_pop`; `fails` lets it fail for no reason. */
    method SwapFreeHead(ghost payload: int, h: int, link: int, fails: bool) returns (done: bool)
      requires Valid() && s.m.producers == [CasFree(payload, h, link)] && h == freeHead
      modifies this`freeHead, this`s, this`steps
      ensures Valid() && done == !fails && freeHead == if done then link else h
      ensures s.m == old(s.m).(freeHead := freeHead, producers := [if done then Fill(payload, h) else AfterLoad(payload, h)])
      ensures s.g == if done then old(s.g).(stack := Rest(old(s.g.stack)), place := Put(old(s.g.place), h, HeldBy(0)))
                     else old(s.g)
    {
      done := freeHead == h && !fails;
      if done {
        freeHead := link;
      }
      Take(Produce(0, fails));
    }

    lemma FreeHeadIsTop()
      requires Valid()
      ensures freeHead == NULL <==> s.g.stack == []
      ensures freeHead != NULL ==> freeHead == s.g.stack[0] && 0 <= freeHead < slot.Length
    {
      RunInv(slot.Length, steps, s);
    }

    /** `push` of the queue. */
    method PushToQueue(rec: int)
      requires Valid() && 0 <= rec < slot.Length && s.m.producers == [ClearNext(rec)]
      requires Told(s.m, rec) != [] && !s.m.worker.ResetTail?
      modifies next, this`tail, this`s, this`steps
      ensures Valid() && s.m.producers == [CountUp]
      ensures s.m == old(s.m).(next := s.m.next, tail := tail, producers := s.m.producers)
      ensures s.g.sent == old(s.g.sent) + old(Told(s.m, rec))
      ensures s.g == old(s.g).(chain := s.g.chain, place := s.g.place, sent := s.g.sent)
    {
      ClearLink(rec);
      var prev := ExchangeTail(rec);
      StoreLink(rec, prev);
    }

    method StoreLink(rec: int, prev: int)
      requires Valid() && s.m.producers == [Link(rec, prev)] && 0 <= prev < next.Length
      modifies next, this`s, this`steps
      ensures Valid() && s.g == old(s.g)
      ensures s.m == old(s.m).(next := next[..], producers := [CountUp])
    {
      next[prev] := rec;
      Take(Produce(0, false));
    }

    method ClearLink(rec: int)
      requires Valid() && 0 <= rec < slot.Length && s.m.producers == [ClearNext(rec)]
      modifies next, this`s, this`steps
      ensures Valid() && s.g == old(s.g)
      ensures s.m == old(s.m).(next := next[..], producers := [Exchange(rec)])
    {
      next[rec] := NULL;
      Take(Produce(0, false));
    }

    method ExchangeTail(rec: int) returns (prev: int)
      requires Valid() && 0 <= rec < slot.Length && s.m.producers == [Exchange(rec)] && !s.m.worker.ResetTail?
      modifies this`tail, this`s, this`steps
      ensures Valid() && tail == rec && 0 <= prev < next.Length
      ensures s.m == old(s.m).(tail := rec, producers := [Link(rec, prev)])
      ensures s.g.sent == old(s.g.sent) + old(Told(s.m, rec))
      ensures s.g == old(s.g).(chain := s.g.chain, place := s.g.place, sent := s.g.sent)
    {
      TailIsNode();
      prev := tail;
      tail := rec;
      Take(Produce(0, false));
    }

    lemma TailIsNode()
      requires Valid() && !s.m.worker.ResetTail?
      ensures s.m.Node(tail)
    {
      RunInv(slot.Length, steps, s);
    }

    lemma SlotIsEmpty(rec: int, payload: int)
      requires Valid() && s.m.producers == [Fill(payload, rec)]
      ensures 0 <= rec < slot.Length && slot[rec] == None
    {
      RunInv(slot.Length, steps, s);
      assert ProducerOk(s.m, s.g, 0);
    }

    /** Construct the payload in its record, queue the record and count it. */
    method Publish(rec: int, payload: int)
      requires Valid() && s.m.producers == [Fill(payload, rec)] && !s.m.worker.ResetTail?
      modifies next, slot, this`tail, this`enqueued, this`s, this`steps
      ensures Valid() && s.m.producers == [Resting] && enqueued == Bump(old(enqueued))
      ensures s.m == old(s.m).(next := s.m.next, slot := s.m.slot, tail := tail, enqueued := enqueued,
                               producers := s.m.producers)
      ensures s.g.sent == old(s.g.sent) + [Message(0, payload)]
      ensures s.g.submitted == old(s.g.submitted)
    {
      Construct(rec, payload);
      PushToQueue(rec);
      enqueued := Bump(enqueued);
      Take(Produce(0, false));
    }

    /** Placement new. */
    method Construct(rec: int, payload: int)
      requires Valid() && s.m.producers == [Fill(payload, rec)]
      modifies slot, this`s, this`steps
      ensures Valid() && s.g == old(s.g) && 0 <= rec < slot.Length
      ensures s.m == old(s.m).(slot := slot[..], producers := [ClearNext(rec)])
      ensures Told(s.m, rec) == [Message(0, payload)]
    {
      SlotIsEmpty(rec, payload);
      slot[rec] := Some(Message(0, payload));
      Take(Produce(0, false));
    }

    /** Log one payload; false when no record is free. */
    method Enqueue(payload: int, spurious: nat) returns (ok: bool)
      requires Valid() && Quiet()
      modifies this`freeHead, this`tail, this`enqueued, this`dropped, this`s, this`steps, next, slot
      ensures Valid() && Quiet() && s.m.worker == old(s.m.worker) && s.m.control == old(s.m.control)
      ensures ok <==> old(s.g.stack) != []
      ensures ok ==> s.g.sent == old(s.g.sent) + [Message(0, payload)]
      ensures ok ==> enqueued == (old(enqueued) + 1) % 0x1_0000_0000_0000_0000 && dropped == old(dropped)
      ensures !ok ==>
                && s.g.sent == old(s.g.sent) && enqueued == old(enqueued)
                && dropped == (old(dropped) + 1) % 0x1_0000_0000_0000_0000
      ensures s.g.submitted == old(s.g.submitted)
    {
      Take(Action.Enqueue(0, payload));
      var rec := TryPop(payload, spurious);
      ok := rec != NULL;
      if ok {
        Publish(rec, payload);
      } else {
        dropped := Bump(dropped);
        Take(Produce(0, false));
      }
    }

    // ----- Worker -----

    /** With the client outside `enqueue` every link is stored. */
    lemma QueueIsLinked()
      requires Valid() && s.m.producers == [Resting] && !s.m.worker.ResetTail?
      ensures s.m.Node(head) && s.g.chain != []
      ensures next[head] != NULL <==> |s.g.chain| > 1
      ensures tail == head <==> |s.g.chain| == 1
    {
      RunInv(slot.Length, steps, s);
      EndsTell(s);
      if |s.g.chain| > 1 {
        assert LinkOk(s.m, s.g.chain[0], s.g.chain[1]);
      }
    }

    /** `empty` of the queue. */
    method Empty() returns (empty: bool)
      requires Valid() && s.m.producers == [Resting] && s.m.worker.EmptyNext?
      modifies this`s, this`steps
      ensures Valid() && s.g == old(s.g) && (empty <==> |s.g.chain| == 1)
      ensures s.m == old(s.m).(worker := PopHeadNext(if empty then Drain else Main))
    {
      QueueIsLinked();
      var link := next[head];
      Take(Work(false));
      if link != NULL {
        return false;
      }
      empty := tail == head;
      Take(Work(false));
    }

    /** `pop` of the queue. Its inner wait is not entered: nobody is between the exchange and the link store. */
    method Pop(ghost loop: Loop) returns (node: int)
      requires Valid() && s.m.producers == [Resting] && s.m.worker == PopHeadNext(loop)
      modifies this`head, this`s, this`steps
      ensures Valid()
      ensures node == NULL <==> |old(s.g.chain)| == 1
      ensures node == NULL ==> s.m == PoppedNothing(old(s.m), loop) && s.g == old(s.g)
      ensures node != NULL ==> s.m == LogEngine.Popped(old(s.m), loop, node) && s.g == PopTrail(old(s.g), old(s.m))
      ensures node != NULL ==> |s.g.chain| == |old(s.g.chain)| - 1
    {
      QueueIsLinked();
      var link := next[head];
      if link == NULL {
        Take(Work(false));
        if tail == head {
          Take(Work(false));
          return NULL;
        }
        assert false;
      }
      head := link;
      Take(Work(false));
      node := link;
    }

    lemma PendingIsRecord()
      requires Valid() && PushingBack(s.m.worker)
      ensures 0 <= pending < slot.Length
    {
      RunInv(slot.Length, steps, s);
    }

    method StorePendingLink(ghost after: After, h: int)
      requires Valid() && s.m.worker == RecycleStore(after, h) && 0 <= pending < slot.Length
      modifies freeNext, this`s, this`steps
      ensures Valid() && s.g == old(s.g)
      ensures s.m == old(s.m).(freeNext := freeNext[..], worker := RecycleCas(after, h))
    {
      freeNext[pending] := h;
      Take(Work(false));
    }

    /** One round of the loop of `push`: store the link and swing the head, unless the swap fails. */
    method TryPush(ghost after: After, h: int, fails: bool) returns (done: bool)
      requires Valid() && s.m.worker == RecycleStore(after, h) && h == freeHead && 0 <= pending < slot.Length
      modifies freeNext, this`freeHead, this`s, this`steps
      ensures Valid() && done == !fails
      ensures s.m == old(s.m).(freeNext := s.m.freeNext, freeHead := freeHead,
                               worker := if done then AfterRecycle(after) else RecycleStore(after, freeHead))
      ensures done ==> s.g == old(s.g).(stack := s.g.stack, place := s.g.place)
      ensures !done ==> s.g == old(s.g) && freeHead == old(freeHead)
    {
      StorePendingLink(after, h);
      done := freeHead == h && !fails;
      if done {
        freeHead := pending;
      }
      Take(Work(fails));
    }

    /** `push` of the free list. */
    method Recycle(ghost after: After, spurious: nat)
      requires Valid() && s.m.worker == RecycleLoad(after)
      modifies freeNext, this`freeHead, this`s, this`steps
      ensures Valid()
      ensures s.m == old(s.m).(freeNext := s.m.freeNext, freeHead := freeHead, worker := AfterRecycle(after))
      ensures s.g == old(s.g).(stack := s.g.stack, place := s.g.place)
    {
      PendingIsRecord();
      var h := freeHead;
      Take(Work(false));
      var failures := spurious;
      var done := false;
      while !done
        invariant Valid() && 0 <= pending < slot.Length
        invariant !done ==> s.m.worker == RecycleStore(after, h) && h == freeHead
        invariant done ==> s.m.worker == AfterRecycle(after)
        invariant s.m == old(s.m).(freeNext := s.m.freeNext, freeHead := freeHead, worker := s.m.worker)
        invariant s.g == old(s.g).(stack := s.g.stack, place := s.g.place)
        decreases !done, failures
      {
        done := TryPush(after, h, failures > 0);
        h := freeHead;
        failures := if failures > 0 then failures - 1 else 0;
      }
    }

    lemma PoppedRecordIsFull()
      requires Valid() && BeforeSubmit(s.m.worker)
      ensures 0 <= head < slot.Length && slot[head].Some?
      ensures s.m.worker.Submit? ==> s.m.worker.rec == head
    {
      RunInv(slot.Length, steps, s);
      HeadInHand(s);
    }

    /** The call of `submit_fn`. */
    method SubmitRecord(ghost loop: Loop, rec: int)
      requires Valid() && s.m.worker == Submit(loop, rec)
      modifies this`output, this`s, this`steps
      ensures Valid() && 0 <= rec < slot.Length && slot[rec].Some? && output == old(output) + [slot[rec].value]
      ensures s.m == old(s.m).(worker := Destroy(loop, rec))
      ensures s.g == old(s.g).(submitted := output)
    {
      PoppedRecordIsFull();
      output := output + [slot[rec].value];
      Take(Work(false));
    }

    /** The call of `destroy_fn`. */
    method DestroyRecord(ghost loop: Loop, rec: int)
      requires Valid() && s.m.worker == Destroy(loop, rec) && 0 <= rec < slot.Length && slot[rec].Some?
      modifies slot, this`s, this`steps
      ensures Valid() && s.m == old(s.m).(slot := s.m.slot, worker := Worker.CountWritten(loop, rec))
      ensures s.g == old(s.g).(destroyed := s.g.destroyed)
    {
      slot[rec] := None;
      Take(Work(false));
    }

    /** Submit the payload, destroy it, count it; the record is pending from now on. */
    method Consume(ghost loop: Loop, rec: int)
      requires Valid() && s.m.worker == Submit(loop, rec)
      modifies slot, this`output, this`written, this`pending, this`s, this`steps
      ensures Valid() && s.m.worker == if loop.Main? then TestRun else PopHeadNext(Drain)
      ensures s.m == old(s.m).(slot := s.m.slot, written := written, pending := pending, worker := s.m.worker)
      ensures s.g.chain == old(s.g.chain) && s.g.sent == old(s.g.sent) && |output| == |old(output)| + 1
    {
      SubmitRecord(loop, rec);
      DestroyRecord(loop, rec);
      CountWritten(loop, rec);
    }

    method CountWritten(ghost loop: Loop, rec: int)
      requires Valid() && s.m.worker == Worker.CountWritten(loop, rec)
      modifies this`written, this`pending, this`s, this`steps
      ensures Valid() && written == Bump(old(written)) && pending == rec
      ensures s.m == old(s.m).(written := written, pending := rec,
                               worker := if loop.Main? then TestRun else PopHeadNext(Drain))
      ensures s.g == old(s.g).(tallied := s.g.tallied)
    {
      written := Bump(written);
      pending := rec;
      Take(Work(false));
    }

    /** One popped record: recycle the one before, then consume this one. */
    method ProcessRecord(ghost loop: Loop, rec: int, spurious: nat)
      requires Valid()
      requires s.m.worker == if pending != NULL then RecycleLoad(Process(loop, rec)) else Submit(loop, rec)
      modifies freeNext, slot, this`freeHead, this`output, this`written, this`pending, this`s, this`steps
      ensures Valid() && s.m.worker == if loop.Main? then TestRun else PopHeadNext(Drain)
      ensures s.m.producers == old(s.m.producers) && s.m.control == old(s.m.control)
      ensures s.g.chain == old(s.g.chain) && s.g.sent == old(s.g.sent) && |output| == |old(output)| + 1
    {
      if pending != NULL {
        Recycle(Process(loop, rec), spurious);
      }
      Consume(loop, rec);
    }

    /** Pop a record, if there is one, and process it. */
    method PopAndProcess(ghost loop: Loop, spurious: nat) returns (found: bool)
      requires Valid() && s.m.producers == [Resting] && s.m.worker == PopHeadNext(loop)
      modifies freeNext, slot, this`head, this`freeHead, this`output, this`written, this`pending, this`s, this`steps
      ensures Valid() && s.m.producers == [Resting] && s.m.control == old(s.m.control)
      ensures found <==> |old(s.g.chain)| > 1
      ensures found ==> |s.g.chain| == |old(s.g.chain)| - 1
      ensures found ==> s.m.worker == if loop.Main? then TestRun else PopHeadNext(Drain)
      ensures !found ==> s.g == old(s.g) && s.m.worker == if loop.Main? then TestRun else ResetStub
      ensures s.g.sent == old(s.g.sent) && |output| == |old(output)| + if found then 1 else 0
    {
      QueueIsLinked();
      var node := Pop(loop);
      found := node != NULL;
      if found {
        ProcessRecord(loop, node, spurious);
      }
    }

    /** One round of the main loop while the engine runs. */
    method WorkerTurn(spurious: nat)
      requires Valid() && Quiet() && run && s.m.worker.TestRun?
      modifies freeNext, slot, this`head, this`freeHead, this`output, this`written, this`pending, this`s, this`steps
      ensures Valid() && Quiet() && run && s.m.worker.TestRun?
      ensures s.g.sent == old(s.g.sent)
      ensures |output| == |old(output)| + if |old(s.g.chain)| > 1 then 1 else 0
    {
      Take(Work(false));
      var found := PopAndProcess(Main, spurious);
    }

    /** What is left of `worker_loop` when `run_` is false: the main loop until the queue is empty. */
    method FinishMainLoop(spurious: nat)
      requires Valid() && s.m.producers == [Resting] && s.m.control.Joining? && !run && s.m.worker.TestRun?
      modifies freeNext, slot, this`head, this`freeHead, this`output, this`written, this`pending, this`s, this`steps
      ensures Valid() && s.m.producers == [Resting] && s.m.control.Joining? && s.m.worker == PopHeadNext(Drain)
      ensures s.g.sent == old(s.g.sent)
    {
      while true
        invariant Valid() && s.m.producers == [Resting] && s.m.control.Joining? && !run && s.m.worker.TestRun?
        invariant s.g.sent == old(s.g.sent)
        decreases |s.g.chain|
      {
        Take(Work(false));
        var empty := Empty();
        if empty {
          return;
        }
        QueueIsLinked();
        var found := PopAndProcess(Main, spurious);
      }
    }

    /** The second loop of `worker_loop`. */
    method DrainQueue(spurious: nat)
      requires Valid() && s.m.producers == [Resting] && s.m.control.Joining? && s.m.worker == PopHeadNext(Drain)
      modifies freeNext, slot, this`head, this`freeHead, this`output, this`written, this`pending, this`s, this`steps
      ensures Valid() && s.m.producers == [Resting] && s.m.control.Joining? && s.m.worker == ResetStub
      ensures s.g.sent == old(s.g.sent)
    {
      var found := true;
      while found
        invariant Valid() && s.m.producers == [Resting] && s.m.control.Joining? && s.g.sent == old(s.g.sent)
        invariant s.m.worker == if found then PopHeadNext(Drain) else ResetStub
        decreases found, |s.g.chain|
      {
        found := PopAndProcess(Drain, spurious);
      }
    }

    /** `reset` of the queue: back to the stub alone. */
    method Reset()
      requires Valid() && s.m.worker == ResetStub
      modifies next, this`head, this`tail, this`s, this`steps
      ensures Valid() && head == tail == slot.Length && s.m.control == old(s.m.control) && s.g.sent == old(s.g.sent)
      ensures s.m.worker == if pending != NULL then RecycleLoad(Exit) else Done
    {
      ClearStub();
      MoveHead();
      MoveTail();
    }

    method MoveTail()
      requires Valid() && s.m.worker == ResetTail
      modifies this`tail, this`s, this`steps
      ensures Valid() && tail == slot.Length && s.m.control == old(s.m.control) && s.g.sent == old(s.g.sent)
      ensures s.m.worker == if pending != NULL then RecycleLoad(Exit) else Done
    {
      tail := slot.Length;
      Take(Work(false));
    }

    method MoveHead()
      requires Valid() && s.m.worker == ResetHead
      modifies this`head, this`s, this`steps
      ensures Valid() && s.m == old(s.m).(head := slot.Length, worker := ResetTail) && s.g.sent == old(s.g.sent)
    {
      head := slot.Length;
      Take(Work(false));
    }

    method ClearStub()
      requires Valid() && s.m.worker == ResetStub
      modifies next, this`s, this`steps
      ensures Valid() && s.m == old(s.m).(next := next[..], worker := ResetHead) && s.g.sent == old(s.g.sent)
    {
      next[slot.Length] := NULL;
      Take(Work(false));
    }

    /** `reset` of the queue, and the last record's return to the pool. */
    method Leave(spurious: nat)
      requires Valid() && s.m.worker == ResetStub
      modifies next, freeNext, this`head, this`tail, this`freeHead, this`s, this`steps
      ensures Valid() && s.m.worker == Done && s.m.control == old(s.m.control) && s.g.sent == old(s.g.sent)
    {
      Reset();
      if pending != NULL {
        Recycle(Exit, spurious);
      }
    }

    method Start()
      requires Valid() && Quiet()
      modifies this`run, this`pending, this`s, this`steps
      ensures Valid() && Quiet() && run && s.m.worker.TestRun? && s.g == old(s.g)
    {
      RunTellsWorker();
      if !run {
        run := true;
        pending := NULL;
      }
      Take(Action.Start);
    }

    lemma RunTellsWorker()
      requires Valid() && Quiet()
      ensures run <==> s.m.worker.TestRun?
    {
      RunInv(slot.Length, steps, s);
    }

    /** `worker_loop` from its loop's test to the thread's end, once `run_` is false. */
    method FinishWorker(spurious: nat)
      requires Valid() && s.m.producers == [Resting] && s.m.control.Joining? && !run && s.m.worker.TestRun?
      modifies next, freeNext, slot
      modifies this`head, this`tail, this`freeHead, this`output, this`written, this`pending, this`s, this`steps
      ensures Valid() && s.m.control.Joining? && s.m.worker == Done && s.g.sent == old(s.g.sent)
    {
      FinishMainLoop(spurious);
      DrainQueue(spurious);
      Leave(spurious);
    }

    /**
      Clear `run_` and join the worker. Everything enqueued has been written, every message has been submitted
      once and in order, the queue is back on its stub, and the pool is complete; the engine can start again.
    */
    method Shutdown(spurious: nat)
      requires Valid() && Quiet()
      modifies this, next, freeNext, slot
      ensures Valid() && Quiet() && !run && s.g.sent == old(s.g.sent)
      ensures old(run) ==>
                && written == enqueued && output == s.g.sent && s.g.destroyed == s.g.sent
                && head == tail == slot.Length && next[slot.Length] == NULL
                && IsStack(freeHead, freeNext[..], s.g.stack)
                && (forall r :: 0 <= r < slot.Length ==> r in s.g.stack && slot[r] == None)
      ensures !old(run) ==> s.m == old(s.m) && output == old(output)
    {
      RunTellsWorker();
      if !run {
        Take(Action.Shutdown);
        return;
      }
      run := false;
      Take(Action.Shutdown);
      FinishWorker(spurious);
      EverythingIsBack();
      Take(Join);
    }

    lemma EverythingIsBack()
      requires Valid() && s.m.control.Joining? && s.m.worker == Done
      ensures written == enqueued && output == s.g.sent && s.g.destroyed == s.g.sent && !run
      ensures head == tail == slot.Length && next[slot.Length] == NULL
      ensures IsStack(freeHead, freeNext[..], s.g.stack)
      ensures forall r :: 0 <= r < slot.Length ==> r in s.g.stack && slot[r] == None
      ensures s.m.producers == [Resting]
    {
      RunInv(slot.Length, steps, s);
      ShutdownLosesNothing(s);
      assert s.m.slot == slot[..];
    }
  }
}
