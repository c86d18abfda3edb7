/** What the engine promises, for every pool size, every number of producers and every interleaving. */
module LogEngineTheorems {
  import opened Sequences
  import opened Steps
  import opened IntrusiveStack
  import opened LogEngine
  import opened LogEngineInvariant
  import opened LogEngineProducers
  import opened LogEngineWorker

  // ----- Runs -----

  lemma StepKeepsInv(s: State, a: Action)
    requires Inv(s) && Benign(s.m, a)
    ensures Step(s, a) != Fault
    ensures Step(s, a).Next? ==> Inv(Step(s, a).s)
  {
    match a {
      case Enqueue(p, payload) => EnqueueKeepsInv(s, p, payload);
      case Produce(p, spurious) => ProduceKeepsInv(s, p, spurious);
      case Work(spurious) => WorkKeepsInv(s, spurious);
      case _ => ControlKeepsInv(s, a);
    }
  }

  /** No pop of the free list in this run succeeds on a link that has changed since it was read. */
  ghost predicate AbaFree(s: State, actions: seq<Action>)
    decreases |actions|
  {
    actions != [] ==>
      && Benign(s.m, actions[0])
      && (Step(s, actions[0]).Next? ==> AbaFree(Step(s, actions[0]).s, actions[1..]))
  }

  /** An ABA-free run follows no bad pointer, never fills a full slot and never uses an empty one. */
  lemma {:induction false} AbaFreeRunIsSafe(s: State, actions: seq<Action>)
    requires Inv(s) && AbaFree(s, actions)
    ensures Run(s, actions) != Fault
    ensures Run(s, actions).Next? ==> Inv(Run(s, actions).s)
    decreases |actions|
  {
    if actions == [] {
    } else {
      StepKeepsInv(s, actions[0]);
      if Step(s, actions[0]).Next? {
        AbaFreeRunIsSafe(Step(s, actions[0]).s, actions[1..]);
      }
    }
  }

  ghost predicate InvThroughout(s: State, actions: seq<Action>)
    decreases |actions|
  {
    && Inv(s)
    && (actions != [] ==> Step(s, actions[0]) != Fault)
    && (actions != [] && Step(s, actions[0]).Next? ==> InvThroughout(Step(s, actions[0]).s, actions[1..]))
  }

  lemma StalePopBreaksInv(s: State, a: Action)
    requires Inv(s) && !Benign(s.m, a) && Step(s, a).Next?
    ensures !Inv(Step(s, a).s)
  {
    assert ProducerOk(s.m, s.g, a.p);
    PopKeepsStack(s.m.freeHead, s.m.freeNext, s.g.stack, s.m.producers[a.p].next);
    var s' := Step(s, a).s;
    assert s'.m.freeHead == s.m.producers[a.p].next && s'.m.freeNext == s.m.freeNext && s'.g.stack == s.g.stack[1..];
  }

  lemma StalePopHappens(s: State, a: Action)
    requires !Benign(s.m, a)
    ensures Step(s, a).Next?
  {
  }

  /** Every state of a run is right if and only if the run is ABA-free: nothing else can go wrong. */
  lemma {:induction false} RightExactlyWhenAbaFree(s: State, actions: seq<Action>)
    requires Inv(s)
    ensures InvThroughout(s, actions) <==> AbaFree(s, actions)
    decreases |actions|
  {
    if actions == [] {
    } else {
      var a := actions[0];
      if Benign(s.m, a) {
        StepKeepsInv(s, a);
        if Step(s, a).Next? {
          RightExactlyWhenAbaFree(Step(s, a).s, actions[1..]);
        }
      } else {
        StalePopHappens(s, a);
        StalePopBreaksInv(s, a);
      }
    }
  }

  /** The states of all ABA-free runs from the freshly constructed engine. */
  ghost predicate Reachable(pool: nat, producers: nat, s: State) {
    exists actions: seq<Action> ::
      AbaFree(Init(pool, producers), actions) && Run(Init(pool, producers), actions) == Next(s)
  }

  lemma ReachableInv(pool: nat, producers: nat, s: State)
    requires Reachable(pool, producers, s)
    ensures Inv(s)
  {
    var actions :| AbaFree(Init(pool, producers), actions) && Run(Init(pool, producers), actions) == Next(s);
    InitSatisfiesInv(pool, producers);
    AbaFreeRunIsSafe(Init(pool, producers), actions);
  }

  // ----- When runs are ABA-free -----

  predicate Searching(pc: Producer) { pc.ReadLink? || pc.CasFree? }

  ghost predicate OnePopper(m: Memory) {
    forall p, q :: 0 <= p < q < |m.producers| ==> !(Searching(m.producers[p]) && Searching(m.producers[q]))
  }

  ghost predicate OnePopperThroughout(s: State, actions: seq<Action>)
    decreases |actions|
  {
    && OnePopper(s.m)
    && (actions != [] && Step(s, actions[0]).Next? ==> OnePopperThroughout(Step(s, actions[0]).s, actions[1..]))
  }

  ghost predicate CandidateSafe(m: Memory, g: Trail, pc: Producer) {
    && (Searching(pc) ==> pc.h in g.stack)
    && (pc.CasFree? && 0 <= pc.h < |m.freeNext| ==> pc.next == m.freeNext[pc.h])
  }

  ghost predicate PopperSafe(m: Memory, g: Trail) {
    forall p :: 0 <= p < |m.producers| ==> CandidateSafe(m, g, m.producers[p])
  }

  lemma OthersStaySafe(m: Memory, g: Trail, m': Memory, g': Trail, p: nat)
    requires PopperSafe(m, g) && p < |m.producers| == |m'.producers|
    requires forall q :: 0 <= q < |m.producers| && q != p ==> m'.producers[q] == m.producers[q]
    requires m'.freeNext == m.freeNext && CandidateSafe(m', g', m'.producers[p])
    requires g'.stack == g.stack || (OnePopper(m) && Searching(m.producers[p]))
    ensures PopperSafe(m', g')
  {
    forall q | 0 <= q < |m'.producers| ensures CandidateSafe(m', g', m'.producers[q]) {
      assert CandidateSafe(m, g, m.producers[q]);
      if q != p && g'.stack != g.stack {
        assert !(Searching(m.producers[p]) && Searching(m.producers[q]));
      }
    }
  }

  lemma OwnCandidateStaysSafe(m: Memory, g: Trail, p: nat, spurious: bool)
    requires p < |m.producers| && CandidateSafe(m, g, m.producers[p])
    requires m.freeHead == NULL || m.freeHead in g.stack
    requires ProducerStep(m, p, spurious).Next?
    ensures var m', g' := ProducerStep(m, p, spurious).s, ProducerTrail(g, m, p, spurious);
            && m'.freeNext == m.freeNext && |m'.producers| == |m.producers|
            && (forall q :: 0 <= q < |m.producers| && q != p ==> m'.producers[q] == m.producers[q])
            && CandidateSafe(m', g', m'.producers[p])
            && (g'.stack == g.stack || Searching(m.producers[p]))
  {
  }

  lemma ProduceKeepsPopperSafe(s: State, p: nat, spurious: bool)
    requires IsStack(s.m.freeHead, s.m.freeNext, s.g.stack) && PopperSafe(s.m, s.g) && OnePopper(s.m)
    requires Step(s, Produce(p, spurious)).Next?
    ensures PopperSafe(Step(s, Produce(p, spurious)).s.m, Step(s, Produce(p, spurious)).s.g)
  {
    var s' := Step(s, Produce(p, spurious)).s;
    assert CandidateSafe(s.m, s.g, s.m.producers[p]);
    assert s.g.stack != [] ==> s.m.freeHead == s.g.stack[0];
    OwnCandidateStaysSafe(s.m, s.g, p, spurious);
    OthersStaySafe(s.m, s.g, s'.m, s'.g, p);
  }

  lemma WorkKeepsPopperSafe(s: State, spurious: bool)
    requires Shape(s.m, s.g) && PlacesOk(s.m, s.g) && WorkerOk(s.m, s.g) && PopperSafe(s.m, s.g)
    requires Step(s, Work(spurious)).Next?
    ensures PopperSafe(Step(s, Work(spurious)).s.m, Step(s, Work(spurious)).s.g)
  {
    var s' := Step(s, Work(spurious)).s;
    assert s'.m.producers == s.m.producers;
    forall q | 0 <= q < |s'.m.producers| ensures CandidateSafe(s'.m, s'.g, s'.m.producers[q]) {
      assert CandidateSafe(s.m, s.g, s.m.producers[q]);
      if s.m.worker.RecycleStore? && s.m.Record(s.m.pending) {
        assert PlaceOk(s.m, s.g, s.m.pending);
      }
    }
  }

  lemma StepKeepsPopperSafe(s: State, a: Action)
    requires Inv(s) && PopperSafe(s.m, s.g) && OnePopper(s.m) && Step(s, a).Next?
    ensures PopperSafe(Step(s, a).s.m, Step(s, a).s.g)
  {
    if a.Produce? {
      ProduceKeepsPopperSafe(s, a.p, a.spurious);
    } else if a.Work? {
      WorkKeepsPopperSafe(s, a.spurious);
    } else if a.Enqueue? {
      OthersStaySafe(s.m, s.g, Step(s, a).s.m, Step(s, a).s.g, a.p);
    }
  }

  /** A producer whose link is still there pops benignly. */
  lemma PopperSafeIsBenign(s: State, a: Action)
    requires PopperSafe(s.m, s.g)
    ensures Benign(s.m, a)
  {
    assert a.Produce? && a.p < |s.m.producers| ==> CandidateSafe(s.m, s.g, s.m.producers[a.p]);
  }

  /** Runs in which one producer at a time is between the load and the swap of `try_pop` are ABA-free. */
  lemma {:induction false} OnePopperIsAbaFree(s: State, actions: seq<Action>)
    requires Inv(s) && PopperSafe(s.m, s.g) && OnePopperThroughout(s, actions)
    ensures AbaFree(s, actions)
    decreases |actions|
  {
    if actions == [] {
    } else {
      PopperSafeIsBenign(s, actions[0]);
      StepKeepsInv(s, actions[0]);
      if Step(s, actions[0]).Next? {
        StepKeepsPopperSafe(s, actions[0]);
        OnePopperIsAbaFree(Step(s, actions[0]).s, actions[1..]);
      }
    }
  }

  /** An engine with a single producer needs no further assumption. */
  lemma StepKeepsProducers(s: State, a: Action)
    requires Step(s, a).Next?
    ensures |Step(s, a).s.m.producers| == |s.m.producers|
  {
  }

  lemma {:induction false} SingleProducerHasOnePopper(s: State, actions: seq<Action>)
    requires |s.m.producers| <= 1
    ensures OnePopperThroughout(s, actions)
    decreases |actions|
  {
    if actions == [] {
    } else if Step(s, actions[0]).Next? {
      StepKeepsProducers(s, actions[0]);
      hide Step;
      SingleProducerHasOnePopper(Step(s, actions[0]).s, actions[1..]);
    }
  }

  lemma SingleProducerIsSafe(pool: nat, actions: seq<Action>)
    ensures AbaFree(Init(pool, 1), actions)
    ensures Run(Init(pool, 1), actions) != Fault
  {
    var s := Init(pool, 1);
    InitSatisfiesInv(pool, 1);
    SingleProducerHasOnePopper(s, actions);
    OnePopperIsAbaFree(s, actions);
    AbaFreeRunIsSafe(s, actions);
  }
}
