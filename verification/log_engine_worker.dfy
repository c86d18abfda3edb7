/** The worker's and the controller's steps keep the engine's invariant. */
module LogEngineWorker {
  import opened Sequences
  import opened Steps
  import opened IntrusiveStack
  import opened LogEngine
  import opened LogEngineInvariant

  // ----- What does not depend on the worker -----

  lemma SameProducers(m: Memory, g: Trail, m': Memory, g': Trail)
    requires Shape(m, g) && Shape(m', g') && ProducersOk(m, g) && CallsOk(m, g)
    requires m'.producers == m.producers && m'.next == m.next && m'.slot == m.slot
    requires g'.chain == g.chain && g'.sent == g.sent && g'.calls == g.calls
    requires forall r :: 0 <= r < |m.slot| && g.place[r].HeldBy? ==> g'.place[r] == g.place[r]
    ensures ProducersOk(m', g') && CallsOk(m', g')
  {
    forall p | 0 <= p < |m.producers| ensures ProducerOk(m', g', p) && CallOk(m', g', p) {
      assert ProducerOk(m, g, p) && CallOk(m, g, p);
    }
  }

  lemma SameChain(m: Memory, g: Trail, m': Memory, g': Trail)
    requires ChainOk(m, g)
    requires m'.producers == m.producers && m'.next == m.next && |m'.slot| == |m.slot| && g'.chain == g.chain
    requires m'.head == m.head && m'.tail == m.tail && (m.worker.ResetTail? ==> m'.worker.ResetTail?)
    ensures ChainOk(m', g')
  {
    forall i | 0 <= i < |g.chain| - 1 ensures LinkOk(m', g.chain[i], g.chain[i + 1]) {
      assert LinkOk(m, g.chain[i], g.chain[i + 1]);
      if m.next[g.chain[i]] != g.chain[i + 1] {
        var q :| 0 <= q < |m.producers| && m.producers[q] == Link(g.chain[i + 1], g.chain[i]);
        assert m'.producers[q] == m.producers[q];
      }
    }
  }

  lemma SamePlaces(m: Memory, g: Trail, m': Memory, g': Trail)
    requires Shape(m, g) && Shape(m', g') && PlacesOk(m, g)
    requires m'.producers == m.producers && |m'.slot| == |m.slot|
    requires forall r :: 0 <= r < |m.slot| ==> (WorkerHolds(m, r) <==> WorkerHolds(m', r))
    requires g'.place == g.place && g'.stack == g.stack && g'.chain == g.chain
    ensures PlacesOk(m', g')
  {
    forall r | 0 <= r < |m'.slot| ensures PlaceOk(m', g', r) {
      assert PlaceOk(m, g, r);
      assert WorkerHolds(m, r) <==> WorkerHolds(m', r);
    }
  }

  lemma SameMessages(m: Memory, g: Trail, m': Memory, g': Trail)
    requires MessagesOk(m, g)
    requires m'.slot == m.slot && g'.chain == g.chain && g'.sent == g.sent
    requires g'.submitted == g.submitted && g'.destroyed == g.destroyed
    requires BeforeSubmit(m'.worker) == BeforeSubmit(m.worker) && BeforeDestroy(m'.worker) == BeforeDestroy(m.worker)
    requires BeforeCount(m'.worker) ==> BeforeCount(m.worker)
    ensures MessagesOk(m', g')
  {
  }

  // ----- Steps that only move the worker -----

  /** The worker moves between phases that own and owe the same. */
  lemma QuietStep(s: State, s': State)
    requires Inv(s) && s'.m == s.m.(worker := s'.m.worker) && s'.g == s.g
    requires s'.m.worker.ResetTail? == s.m.worker.ResetTail? && PushingBack(s'.m.worker) == PushingBack(s.m.worker)
    requires BeforeSubmit(s'.m.worker) == BeforeSubmit(s.m.worker)
    requires BeforeDestroy(s'.m.worker) == BeforeDestroy(s.m.worker)
    requires BeforeCount(s'.m.worker) == BeforeCount(s.m.worker)
    requires WorkerOk(s'.m, s'.g)
    ensures Inv(s')
  {
    SameProducers(s.m, s.g, s'.m, s'.g);
    SameChain(s.m, s.g, s'.m, s'.g);
    SamePlaces(s.m, s.g, s'.m, s'.g);
  }

  // ----- Pop -----

  lemma PopChain(m: Memory, g: Trail, m': Memory, g': Trail)
    requires ChainOk(m, g) && m.next[m.head] != NULL && !m.worker.ResetTail?
    requires m' == m.(head := m.next[m.head], worker := m'.worker) && g'.chain == Rest(g.chain)
    ensures |g.chain| > 1 && m.next[m.head] == g.chain[1] && m.Record(g.chain[1])
    ensures ChainOk(m', g')
  {
    assert LinkOk(m, g.chain[0], g.chain[1]);
    forall i | 0 <= i < |g'.chain| - 1 ensures LinkOk(m', g'.chain[i], g'.chain[i + 1]) {
      assert g'.chain[i] == g.chain[i + 1] && g'.chain[i + 1] == g.chain[i + 2];
      assert LinkOk(m, g.chain[i + 1], g.chain[i + 2]);
      if m.next[g.chain[i + 1]] != g.chain[i + 2] {
        var q :| 0 <= q < |m.producers| && m.producers[q] == Link(g.chain[i + 2], g.chain[i + 1]);
        assert m'.producers[q] == m.producers[q];
      }
    }
  }

  lemma PopPlaces(m: Memory, g: Trail, m': Memory, g': Trail)
    requires Shape(m, g) && PlacesOk(m, g) && AtDummy(m)
    requires !PushingBack(m.worker) && !m.worker.ResetTail?
    requires g.chain != [] && Distinct(g.chain) && g.chain[0] == m.head
    requires m'.producers == m.producers && |m'.slot| == |m.slot| && m'.pending == m.pending
    requires PushingBack(m'.worker) == (m.pending != NULL) && !m'.worker.ResetTail?
    requires g' == g.(chain := g.chain[1..], place := Put(g.place, m.pending, Recycling))
    ensures forall r :: 0 <= r < |m.slot| ==> PlaceOk(m', g', r)
  {
    forall r | 0 <= r < |m.slot| ensures PlaceOk(m', g', r) {
      assert PlaceOk(m, g, r);
      if r == m.head {
        assert r in g.chain && r !in g.chain[1..];
      } else {
        assert r in g.chain <==> r in g.chain[1..];
      }
    }
  }

  /** The dummy that leaves the chain has had its link stored: no producer owes it. */
  lemma PopProducers(m: Memory, g: Trail, m': Memory, g': Trail)
    requires Shape(m, g) && ProducersOk(m, g) && CallsOk(m, g) && PlacesOk(m, g)
    requires g.chain != [] && g.chain[0] == m.head && m.Node(m.head) && m.next[m.head] != NULL
    requires m.pending == NULL || m.pending == m.head
    requires m' == m.(head := m.next[m.head], worker := m'.worker)
    requires g' == g.(chain := g.chain[1..], place := Put(g.place, m.pending, Recycling))
    ensures ProducersOk(m', g') && CallsOk(m', g')
  {
    forall p | 0 <= p < |m.producers| ensures ProducerOk(m', g', p) && CallOk(m', g', p) {
      assert ProducerOk(m, g, p) && CallOk(m, g, p);
      var pc := m.producers[p];
      if pc.Link? {
        var i :| 0 <= i < |g.chain| - 1 && g.chain[i] == pc.prev && g.chain[i + 1] == pc.rec;
        assert i > 0;
        assert g'.chain[i - 1] == pc.prev && g'.chain[i] == pc.rec;
      } else if Holds(pc, m.pending) {
        assert PlaceOk(m, g, m.pending);
      }
    }
  }

  lemma PopMessages(m: Memory, g: Trail, m': Memory, g': Trail)
    requires MessagesOk(m, g) && |g.chain| > 1 && !BeforeCount(m.worker)
    requires BeforeSubmit(m'.worker) && m'.slot == m.slot
    requires g' == g.(chain := g.chain[1..], place := g'.place)
    ensures MessagesOk(m', g') && Taken(g') == Taken(g) + 1
  {
    forall i | 1 <= i < |g'.chain|
      ensures m'.Record(g'.chain[i]) && m'.slot[g'.chain[i]] == Some(g'.sent[Taken(g') + i - 1])
    {
      assert g'.chain[i] == g.chain[i + 1];
    }
    assert g'.chain[0] == g.chain[1];
  }

  lemma PopStep(s: State, s': State, loop: Loop)
    requires Inv(s) && AtDummy(s.m) && s.m.next[s.m.head] != NULL
    requires s.m.worker == PopHeadNext(loop) || s.m.worker == PopSpin(loop)
    requires s'.m == Popped(s.m, loop, s.m.next[s.m.head])
    requires s'.g == PopTrail(s.g, s.m)
    ensures Inv(s')
  {
    PopChain(s.m, s.g, s'.m, s'.g);
    PopPlaces(s.m, s.g, s'.m, s'.g);
    PopProducers(s.m, s.g, s'.m, s'.g);
    PopMessages(s.m, s.g, s'.m, s'.g);
    PopVacant(s.m, s.g, s'.m, s'.g);
  }

  lemma PopVacant(m: Memory, g: Trail, m': Memory, g': Trail)
    requires Shape(m, g) && VacantOk(m, g) && MessagesOk(m, g) && !BeforeDestroy(m.worker)
    requires g.chain[0] == m.head && AtDummy(m)
    requires m'.slot == m.slot && m'.next == m.next && m'.freeNext == m.freeNext && m'.producers == m.producers
    requires g' == g.(chain := g'.chain, place := Put(g.place, m.pending, Recycling))
    ensures Shape(m', g') && VacantOk(m', g')
  {
  }

  // ----- Recycling -----

  lemma StoreStep(s: State, s': State, after: After, h: int)
    requires Inv(s) && s.m.worker == RecycleStore(after, h) && s.m.Record(s.m.pending)
    requires s'.m == s.m.(freeNext := s.m.freeNext[s.m.pending := h], worker := RecycleCas(after, h))
    requires s'.g == s.g
    ensures Inv(s')
  {
    assert PlaceOk(s.m, s.g, s.m.pending);
    SameProducers(s.m, s.g, s'.m, s'.g);
    SameChain(s.m, s.g, s'.m, s'.g);
    SamePlaces(s.m, s.g, s'.m, s'.g);
    SameMessages(s.m, s.g, s'.m, s'.g);
    StorePhase(s.m, s.g, s'.m, after, h);
    StoreStack(s.m, s.g, s'.m);
  }

  lemma StorePhase(m: Memory, g: Trail, m': Memory, after: After, h: int)
    requires Shape(m, g) && Shape(m', g) && WorkerOk(m, g) && m.worker == RecycleStore(after, h) && m.Record(m.pending)
    requires m' == m.(freeNext := m.freeNext[m.pending := h], worker := RecycleCas(after, h))
    ensures WorkerOk(m', g)
  {
  }

  lemma StoreStack(m: Memory, g: Trail, m': Memory)
    requires IsStack(m.freeHead, m.freeNext, g.stack) && 0 <= m.pending < |m.freeNext| && m.pending !in g.stack
    requires m'.freeHead == m.freeHead && |m'.freeNext| == |m.freeNext|
    requires forall r :: 0 <= r < |m.freeNext| && r != m.pending ==> m'.freeNext[r] == m.freeNext[r]
    ensures IsStack(m'.freeHead, m'.freeNext, g.stack)
  {
  }

  lemma PushPlaces(m: Memory, g: Trail, m': Memory, g': Trail)
    requires Shape(m, g) && PlacesOk(m, g) && PushingBack(m.worker) && m.Record(m.pending)
    requires m'.producers == m.producers && |m'.slot| == |m.slot| && m'.pending == m.pending
    requires !PushingBack(m'.worker) && !m'.worker.ResetTail?
    requires g' == g.(stack := [m.pending] + g.stack, place := g.place[m.pending := Free])
    ensures forall r :: 0 <= r < |m.slot| ==> PlaceOk(m', g', r)
  {
    forall r | 0 <= r < |m.slot| ensures PlaceOk(m', g', r) {
      assert PlaceOk(m, g, r);
      assert r in g'.stack <==> r == m.pending || r in g.stack;
    }
  }

  lemma GiveBackPhase(m: Memory, g: Trail, m': Memory, after: After)
    requires Shape(m, g) && Shape(m', g) && WorkerOk(m, g) && m.worker == RecycleCas(after, m.freeHead)
    requires m' == m.(freeHead := m.pending, worker := AfterRecycle(after))
    ensures WorkerOk(m', g)
  {
  }

  lemma GiveBackStep(s: State, s': State, after: After)
    requires Inv(s) && s.m.worker == RecycleCas(after, s.m.freeHead) && s.m.Record(s.m.pending)
    requires s'.m == s.m.(freeHead := s.m.pending, worker := AfterRecycle(after))
    requires s'.g == s.g.(stack := [s.m.pending] + s.g.stack, place := s.g.place[s.m.pending := Free])
    ensures Inv(s')
  {
    assert PlaceOk(s.m, s.g, s.m.pending);
    PushKeepsStack(s.m.freeHead, s.m.freeNext, s.g.stack, s.m.pending);
    SameProducers(s.m, s.g, s'.m, s'.g);
    SameChain(s.m, s.g, s'.m, s'.g);
    PushPlaces(s.m, s.g, s'.m, s'.g);
    SameMessages(s.m, s.g, s'.m, s'.g);
    GiveBackPhase(s.m, s.g, s'.m, after);
  }

  // ----- Submitting and destroying -----

  lemma SubmitStep(s: State, s': State, loop: Loop, rec: int)
    requires Inv(s) && s.m.worker == Submit(loop, rec)
    requires s'.m == s.m.(worker := Destroy(loop, rec))
    requires s'.g == s.g.(submitted := s.g.submitted + Told(s.m, rec))
    ensures Inv(s')
  {
    SameProducers(s.m, s.g, s'.m, s'.g);
    SameChain(s.m, s.g, s'.m, s'.g);
    SamePlaces(s.m, s.g, s'.m, s'.g);
    SubmitMessages(s.m, s.g, s'.m, s'.g);
  }

  lemma SubmitMessages(m: Memory, g: Trail, m': Memory, g': Trail)
    requires MessagesOk(m, g) && m.worker.Submit? && m.Record(m.worker.rec) && m.worker.rec == g.chain[0]
    requires m' == m.(worker := Destroy(m.worker.loop, m.worker.rec))
    requires g' == g.(submitted := g.submitted + Told(m, m.worker.rec))
    ensures MessagesOk(m', g')
  {
    var k := Taken(g);
    assert g.sent[..k] == g.sent[..k - 1] + [g.sent[k - 1]];
  }

  lemma DestroyStep(s: State, s': State, loop: Loop, rec: int)
    requires Inv(s) && s.m.worker == Destroy(loop, rec) && s.m.Record(rec)
    requires s'.m == s.m.(slot := s.m.slot[rec := None], worker := CountWritten(loop, rec))
    requires s'.g == s.g.(destroyed := s.g.destroyed + Told(s.m, rec))
    ensures Inv(s')
  {
    assert PlaceOk(s.m, s.g, rec) && rec in s.g.chain;
    DestroyProducers(s.m, s.g, s'.m, s'.g, rec);
    SameChain(s.m, s.g, s'.m, s'.g);
    SamePlaces(s.m, s.g, s'.m, s'.g);
    DestroyMessages(s.m, s.g, s'.m, s'.g);
  }

  lemma DestroyProducers(m: Memory, g: Trail, m': Memory, g': Trail, rec: int)
    requires Shape(m, g) && Shape(m', g') && ProducersOk(m, g) && CallsOk(m, g)
    requires m.Record(rec) && g.place[rec] == Queued
    requires m'.slot == m.slot[rec := None] && m'.producers == m.producers && m'.next == m.next
    requires g'.place == g.place && g'.chain == g.chain && g'.sent == g.sent && g'.calls == g.calls
    ensures ProducersOk(m', g') && CallsOk(m', g')
  {
    forall p | 0 <= p < |m.producers| ensures ProducerOk(m', g', p) && CallOk(m', g', p) {
      assert ProducerOk(m, g, p) && CallOk(m, g, p);
    }
  }

  lemma DestroyMessages(m: Memory, g: Trail, m': Memory, g': Trail)
    requires MessagesOk(m, g) && Distinct(g.chain)
    requires m.worker.Destroy? && m.Record(m.worker.rec) && m.worker.rec == g.chain[0]
    requires m' == m.(slot := m.slot[m.worker.rec := None], worker := CountWritten(m.worker.loop, m.worker.rec))
    requires g' == g.(destroyed := g.destroyed + Told(m, m.worker.rec))
    ensures MessagesOk(m', g')
  {
    var k := Taken(g);
    assert g.sent[..k] == g.sent[..k - 1] + [g.sent[k - 1]];
  }

  lemma CountWrittenPhase(m: Memory, g: Trail, m': Memory, loop: Loop, rec: int)
    requires Shape(m, g) && Shape(m', g) && WorkerOk(m, g) && m.worker == CountWritten(loop, rec)
    requires m' == m.(written := m'.written, pending := rec, worker := if loop.Main? then TestRun else PopHeadNext(Drain))
    ensures WorkerOk(m', g)
  {
  }

  lemma CountWrittenCounts(m: Memory, g: Trail, m': Memory, g': Trail)
    requires CountsOk(m, g) && g.chain != [] && m.worker.CountWritten? && !BeforeCount(m'.worker)
    requires m'.producers == m.producers && m'.enqueued == m.enqueued && m'.dropped == m.dropped
    requires m'.written == Bump(m.written) && g' == g.(tallied := g.tallied + 1)
    ensures CountsOk(m', g')
  {
    CountersAdvance(g.tallied);
  }

  lemma CountWrittenStep(s: State, s': State, loop: Loop, rec: int)
    requires Inv(s) && s.m.worker == CountWritten(loop, rec)
    requires s'.m == s.m.(written := Bump(s.m.written), pending := rec,
                          worker := if loop.Main? then TestRun else PopHeadNext(Drain))
    requires s'.g == s.g.(tallied := s.g.tallied + 1)
    ensures Inv(s')
  {
    SameProducers(s.m, s.g, s'.m, s'.g);
    SameChain(s.m, s.g, s'.m, s'.g);
    SamePlaces(s.m, s.g, s'.m, s'.g);
    SameMessages(s.m, s.g, s'.m, s'.g);
    CountWrittenCounts(s.m, s.g, s'.m, s'.g);
    CountWrittenPhase(s.m, s.g, s'.m, loop, rec);
  }

  // ----- Leaving the worker -----

  lemma ResetStubStep(s: State, s': State)
    requires Inv(s) && s.m.worker == ResetStub
    requires s'.m == s.m.(next := s.m.next[s.m.Stub() := NULL], worker := ResetHead)
    requires s'.g == s.g
    ensures Inv(s')
  {
    forall p | 0 <= p < |s'.m.producers| ensures ProducerOk(s'.m, s'.g, p) && CallOk(s'.m, s'.g, p) {
      assert ProducerOk(s.m, s.g, p) && CallOk(s.m, s.g, p) && s.m.producers[p].Resting?;
    }
    SamePlaces(s.m, s.g, s'.m, s'.g);
  }

  lemma ResetHeadStep(s: State, s': State)
    requires Inv(s) && s.m.worker == ResetHead
    requires s'.m == s.m.(head := s.m.Stub(), worker := ResetTail)
    requires s'.g == s.g.(chain := [s.m.Stub()], place := Put(s.g.place, s.m.pending, Recycling))
    ensures Inv(s')
  {
    forall p | 0 <= p < |s'.m.producers| ensures ProducerOk(s'.m, s'.g, p) && CallOk(s'.m, s'.g, p) {
      assert ProducerOk(s.m, s.g, p) && CallOk(s.m, s.g, p) && s.m.producers[p].Resting?;
    }
    assert s.g.chain == [s.m.head];
    forall r | 0 <= r < |s.m.slot| ensures PlaceOk(s'.m, s'.g, r) {
      assert PlaceOk(s.m, s.g, r);
    }
  }

  lemma ResetTailStep(s: State, s': State)
    requires Inv(s) && s.m.worker == ResetTail
    requires s'.m == s.m.(tail := s.m.Stub(), worker := if s.m.pending != NULL then RecycleLoad(Exit) else Done)
    requires s'.g == s.g
    ensures Inv(s')
  {
    SameProducers(s.m, s.g, s'.m, s'.g);
    assert s.g.chain == [s.m.Stub()];
    SamePlaces(s.m, s.g, s'.m, s'.g);
  }

  // ----- Control -----

  lemma StartStep(s: State, s': State)
    requires Inv(s) && s.m.control.Stopped?
    requires s'.m == s.m.(run := true, worker := TestRun, pending := NULL, control := Running) && s'.g == s.g
    ensures Inv(s')
  {
    SameProducers(s.m, s.g, s'.m, s'.g);
    SameChain(s.m, s.g, s'.m, s'.g);
    forall r | 0 <= r < |s.m.slot| ensures PlaceOk(s'.m, s'.g, r) {
      assert PlaceOk(s.m, s.g, r);
    }
  }

  lemma ShutdownStep(s: State, s': State)
    requires Inv(s) && s.m.run && AllResting(s.m)
    requires s'.m == s.m.(run := false, control := Joining) && s'.g == s.g
    ensures Inv(s')
  {
    SameProducers(s.m, s.g, s'.m, s'.g);
    SameChain(s.m, s.g, s'.m, s'.g);
    SamePlaces(s.m, s.g, s'.m, s'.g);
    SameMessages(s.m, s.g, s'.m, s'.g);
  }

  lemma JoinStep(s: State, s': State)
    requires Inv(s) && s.m.worker.Done?
    requires s'.m == s.m.(worker := Off, control := Stopped) && s'.g == s.g
    ensures Inv(s')
  {
    SameProducers(s.m, s.g, s'.m, s'.g);
    SameChain(s.m, s.g, s'.m, s'.g);
    SamePlaces(s.m, s.g, s'.m, s'.g);
    SameMessages(s.m, s.g, s'.m, s'.g);
  }

  lemma ControlKeepsInv(s: State, a: Action)
    requires Inv(s) && (a.Start? || a.Shutdown? || a.Join?)
    ensures Step(s, a) != Fault && (Step(s, a).Next? ==> Inv(Step(s, a).s))
  {
    if Step(s, a).Next? && s.m != Step(s, a).s.m {
      if a.Start? {
        StartStep(s, Step(s, a).s);
      } else if a.Shutdown? {
        ShutdownStep(s, Step(s, a).s);
      } else {
        JoinStep(s, Step(s, a).s);
      }
    }
  }

  // ----- Every worker step -----

  /** Loads, and the swap of `push` when it fails. */
  predicate OnlyLooks(m: Memory, spurious: bool) {
    match m.worker
    case TestRun => true
    case EmptyNext => true
    case EmptyTail => true
    case PopHeadNext(_) => m.Node(m.head) && m.next[m.head] == NULL
    case PopTail(_) => true
    case PopSpin(_) => m.Node(m.head) && m.next[m.head] == NULL
    case RecycleLoad(_) => true
    case RecycleCas(_, _) => !PushSucceeds(m, spurious)
    case _ => false
  }

  lemma LookKeepsPhase(m: Memory, g: Trail, spurious: bool)
    requires Shape(m, g) && WorkerOk(m, g) && OnlyLooks(m, spurious)
    requires m.Node(m.head) && (m.tail == m.head <==> |g.chain| == 1) && |g.chain| > 0
    requires NULL <= m.freeHead < |m.slot|
    ensures var r := WorkerStep(m, spurious);
            r.Next? && r.s == m.(worker := r.s.worker) && WorkerOk(r.s, g)
  {
  }

  lemma LookKeepsOwnership(m: Memory, spurious: bool)
    requires m.Node(m.head) && OnlyLooks(m, spurious)
    ensures var r := WorkerStep(m, spurious);
            && r.Next? && r.s.worker.ResetTail? == m.worker.ResetTail? && PushingBack(r.s.worker) == PushingBack(m.worker)
            && BeforeSubmit(r.s.worker) == BeforeSubmit(m.worker) && BeforeDestroy(r.s.worker) == BeforeDestroy(m.worker)
            && BeforeCount(r.s.worker) == BeforeCount(m.worker)
    ensures forall g :: WorkerTrail(g, m, spurious) == g
  {
  }

  lemma LookStep(s: State, spurious: bool) returns (s': State)
    requires Shape(s.m, s.g) && ChainOk(s.m, s.g) && WorkerOk(s.m, s.g) && OnlyLooks(s.m, spurious)
    requires NULL <= s.m.freeHead < |s.m.slot|
    ensures Step(s, Work(spurious)) == Next(s') && s'.m == s.m.(worker := s'.m.worker) && s'.g == s.g
    ensures s'.m.worker.ResetTail? == s.m.worker.ResetTail? && PushingBack(s'.m.worker) == PushingBack(s.m.worker)
    ensures BeforeSubmit(s'.m.worker) == BeforeSubmit(s.m.worker)
    ensures BeforeDestroy(s'.m.worker) == BeforeDestroy(s.m.worker)
    ensures BeforeCount(s'.m.worker) == BeforeCount(s.m.worker)
    ensures WorkerOk(s'.m, s'.g)
  {
    var last := |s.g.chain| - 1;
    assert s.g.chain[0] == s.g.chain[last] <==> last == 0;
    LookKeepsPhase(s.m, s.g, spurious);
    LookKeepsOwnership(s.m, spurious);
    s' := Step(s, Work(spurious)).s;
  }

  lemma LookKeepsInv(s: State, spurious: bool)
    requires Inv(s) && OnlyLooks(s.m, spurious)
    ensures var r := Step(s, Work(spurious)); r.Next? && Inv(r.s)
  {
    assert s.g.stack != [] ==> s.m.Record(s.g.stack[0]);
    var s' := LookStep(s, spurious);
    QuietStep(s, s');
  }

  lemma RecycleKeepsInv(s: State, spurious: bool)
    requires Inv(s) && (s.m.worker.RecycleStore? || PushSucceeds(s.m, spurious))
    ensures var r := Step(s, Work(spurious)); r.Next? && Inv(r.s)
  {
    var s' := Step(s, Work(spurious)).s;
    if s.m.worker.RecycleStore? {
      StoreStep(s, s', s.m.worker.after, s.m.worker.h);
    } else {
      GiveBackStep(s, s', s.m.worker.after);
    }
  }

  lemma PopKeepsInv(s: State, spurious: bool)
    requires Inv(s) && (s.m.worker.PopHeadNext? || s.m.worker.PopSpin?)
    requires !OnlyLooks(s.m, spurious)
    ensures var r := Step(s, Work(spurious)); r.Next? && Inv(r.s)
  {
    PopStep(s, Step(s, Work(spurious)).s, s.m.worker.loop);
  }

  lemma ProcessKeepsInv(s: State, spurious: bool)
    requires Inv(s) && BeforeCount(s.m.worker) && !PushingBack(s.m.worker)
    ensures var r := Step(s, Work(spurious)); r.Next? && Inv(r.s)
  {
    var s', w := Step(s, Work(spurious)).s, s.m.worker;
    if w.Submit? {
      SubmitStep(s, s', w.loop, w.rec);
    } else if w.Destroy? {
      DestroyStep(s, s', w.loop, w.rec);
    } else {
      CountWrittenStep(s, s', w.loop, w.rec);
    }
  }

  lemma LeaveKeepsInv(s: State, spurious: bool)
    requires Inv(s) && (s.m.worker.ResetStub? || s.m.worker.ResetHead? || s.m.worker.ResetTail?)
    ensures var r := Step(s, Work(spurious)); r.Next? && Inv(r.s)
  {
    var s' := Step(s, Work(spurious)).s;
    if s.m.worker.ResetStub? {
      ResetStubStep(s, s');
    } else if s.m.worker.ResetHead? {
      ResetHeadStep(s, s');
    } else {
      ResetTailStep(s, s');
    }
  }

  lemma WorkKeepsInv(s: State, spurious: bool)
    requires Inv(s)
    ensures var r := Step(s, Work(spurious)); r != Fault && (r.Next? ==> Inv(r.s))
  {
    var w := s.m.worker;
    if OnlyLooks(s.m, spurious) {
      LookKeepsInv(s, spurious);
    } else if w.PopHeadNext? || w.PopSpin? {
      PopKeepsInv(s, spurious);
    } else if PushingBack(w) {
      RecycleKeepsInv(s, spurious);
    } else if BeforeCount(w) {
      ProcessKeepsInv(s, spurious);
    } else if !w.Off? && !w.Done? {
      LeaveKeepsInv(s, spurious);
    }
  }
}
