/** Counting, progress and shutdown of the log engine. */
module LogEngineShutdown {
  import opened Sequences
  import opened Steps
  import opened IntrusiveStack
  import opened LogEngine
  import opened LogEngineInvariant
  import opened LogEngineTheorems
  import opened LogEngineWorker
  import opened LogEngineResults

  // ----- Counters -----

  predicate InCall(pc: Producer) { !pc.Resting? }

  /** A call of `enqueue` is under way, or has ended by counting its message or by dropping it. */
  ghost predicate CallsAddUp(s: State) {
    s.g.started == s.g.counted + s.g.drops + Count(s.m.producers, InCall)
  }

  lemma CallGoesOn(s: State, p: nat, spurious: bool)
    requires p < |s.m.producers| && ProducerStep(s.m, p, spurious).Next?
    ensures var m', g' := ProducerStep(s.m, p, spurious).s, ProducerTrail(s.g, s.m, p, spurious);
            && p < |m'.producers| && m'.producers == s.m.producers[p := m'.producers[p]]
            && g'.started == s.g.started && InCall(s.m.producers[p])
            && g'.counted + g'.drops == s.g.counted + s.g.drops + if InCall(m'.producers[p]) then 0 else 1
  {
  }

  lemma ProducerKeepsCalls(s: State, p: nat, spurious: bool)
    requires CallsAddUp(s) && Step(s, Produce(p, spurious)).Next?
    ensures CallsAddUp(Step(s, Produce(p, spurious)).s)
  {
    CallGoesOn(s, p, spurious);
    CountUpdate(s.m.producers, p, ProducerStep(s.m, p, spurious).s.producers[p], InCall);
  }

  lemma StepKeepsCalls(s: State, a: Action)
    requires CallsAddUp(s) && Step(s, a).Next?
    ensures CallsAddUp(Step(s, a).s)
  {
    match a {
      case Enqueue(p, payload) => CountUpdate(s.m.producers, p, LoadFree(payload), InCall);
      case Produce(p, spurious) => ProducerKeepsCalls(s, p, spurious);
      case Work(spurious) =>
      case Start =>
      case Shutdown =>
      case Join =>
    }
  }

  lemma {:induction false} RunKeepsCalls(s: State, actions: seq<Action>)
    requires CallsAddUp(s) && Run(s, actions).Next?
    ensures CallsAddUp(Run(s, actions).s)
    decreases |actions|
  {
    if actions == [] {
    } else {
      StepKeepsCalls(s, actions[0]);
      RunKeepsCalls(Step(s, actions[0]).s, actions[1..]);
    }
  }

  lemma ReachableCallsAddUp(pool: nat, producers: nat, s: State)
    requires Reachable(pool, producers, s)
    ensures CallsAddUp(s)
  {
    var actions :| AbaFree(Init(pool, producers), actions) && Run(Init(pool, producers), actions) == Next(s);
    CountExtremes(Init(pool, producers).m.producers, InCall);
    RunKeepsCalls(Init(pool, producers), actions);
  }

  lemma ChainFitsPool(s: State)
    requires Inv(s)
    ensures |s.g.chain| - 1 + One(BeforeCount(s.m.worker)) <= |s.m.slot|
  {
    if s.m.head == s.m.Stub() {
      DistinctBound(s.g.chain[1..], |s.m.slot|);
    } else {
      DistinctBound(s.g.chain, |s.m.slot|);
    }
  }

  /**
    At every step: the calls begun, less those under way, were counted as enqueued or as dropped; tail exchanges are
    the enqueued plus the producers between exchange and count; and the worker is behind by at most the pool.
  */
  lemma CountersAddUp(s: State)
    requires Inv(s) && CallsAddUp(s)
    ensures Count(s.m.producers, InCall) <= s.g.started
    ensures (s.m.enqueued + s.m.dropped) % 0x1_0000_0000_0000_0000 ==
              (s.g.started - Count(s.m.producers, InCall)) % 0x1_0000_0000_0000_0000
    ensures Count(s.m.producers, Uncounted) <= |s.g.sent|
    ensures s.m.enqueued == (|s.g.sent| - Count(s.m.producers, Uncounted)) % 0x1_0000_0000_0000_0000
    ensures s.m.written == s.g.tallied % 0x1_0000_0000_0000_0000 && |s.g.destroyed| - 1 <= s.g.tallied <= |s.g.destroyed|
    ensures s.g.tallied <= |s.g.sent| <= s.g.tallied + |s.m.slot|
  {
    ChainFitsPool(s);
    WrapSum(s.g.counted, s.g.drops);
  }

  /** So in every reachable state. */
  lemma ReachableCountersAddUp(pool: nat, producers: nat, s: State)
    requires Reachable(pool, producers, s)
    ensures Inv(s) && CallsAddUp(s) && Count(s.m.producers, InCall) <= s.g.started
    ensures (s.m.enqueued + s.m.dropped) % 0x1_0000_0000_0000_0000 ==
              (s.g.started - Count(s.m.producers, InCall)) % 0x1_0000_0000_0000_0000
    ensures Count(s.m.producers, Uncounted) <= |s.g.sent|
    ensures s.m.enqueued == (|s.g.sent| - Count(s.m.producers, Uncounted)) % 0x1_0000_0000_0000_0000
    ensures s.m.written == s.g.tallied % 0x1_0000_0000_0000_0000 && |s.g.destroyed| - 1 <= s.g.tallied <= |s.g.destroyed|
    ensures s.g.tallied <= |s.g.sent| <= s.g.tallied + |s.m.slot|
  {
    ReachableInv(pool, producers, s);
    ReachableCallsAddUp(pool, producers, s);
    CountersAddUp(s);
  }

  lemma WrapSum(a: nat, b: nat)
    ensures Wrap(Wrap(a) + Wrap(b)) == Wrap(a + b)
  {
  }

  // ----- Progress of the waiting pop -----

  /** `pop` is in its inner loop and the link it waits for is not stored yet. */
  predicate SpinsInVain(m: Memory) { m.worker.PopSpin? && m.Node(m.head) && m.next[m.head] == NULL }

  ghost predicate OwesHead(m: Memory, p: nat) {
    p < |m.producers| && m.producers[p].Link? && m.producers[p].prev == m.head
  }

  /** Exactly one producer owes the link out of the head. */
  lemma OneProducerOwes(s: State) returns (p: nat)
    requires Inv(s) && SpinsInVain(s.m)
    ensures OwesHead(s.m, p) && s.m.producers[p].rec == s.g.chain[1]
    ensures forall q: nat :: OwesHead(s.m, q) ==> q == p
  {
    assert LinkOk(s.m, s.g.chain[0], s.g.chain[1]);
    p :| 0 <= p < |s.m.producers| && s.m.producers[p] == Link(s.g.chain[1], s.g.chain[0]);
    forall q: nat | OwesHead(s.m, q) ensures q == p {
      assert ProducerOk(s.m, s.g, q);
      var i :| 0 <= i < |s.g.chain| - 1 && s.g.chain[i] == s.m.head && s.g.chain[i + 1] == s.m.producers[q].rec;
      assert i == 0;
    }
  }

  /** The link that the worker waits for is stored. */
  predicate SpinCanEnd(m: Memory) { m.worker.PopSpin? && m.Node(m.head) && m.next[m.head] != NULL }

  /** Nobody but the debtor ends the wait. */
  lemma WaitGoesOn(s: State, a: Action, p: nat)
    requires Inv(s) && Benign(s.m, a) && SpinsInVain(s.m) && OwesHead(s.m, p) && Step(s, a).Next?
    requires !(a.Produce? && a.p == p)
    ensures SpinsInVain(Step(s, a).s.m) && OwesHead(Step(s, a).s.m, p)
  {
    if a.Produce? {
      OthersKeepWait(s, p, a.p, a.spurious);
    }
  }

  /** A producer that neither clears nor owes the link out of the head leaves it alone. */
  lemma OthersLeaveHead(m: Memory, q: nat, spurious: bool)
    requires q < |m.producers| && m.Node(m.head) && ProducerStep(m, q, spurious).Next?
    requires m.producers[q].ClearNext? ==> m.producers[q].rec != m.head
    requires m.producers[q].Link? ==> m.producers[q].prev != m.head
    ensures var m' := ProducerStep(m, q, spurious).s;
            && m'.worker == m.worker && m'.head == m.head && m'.Node(m'.head) && m'.next[m'.head] == m.next[m.head]
            && |m'.producers| == |m.producers|
            && (forall p :: 0 <= p < |m.producers| && p != q ==> m'.producers[p] == m.producers[p])
  {
  }

  lemma OthersKeepWait(s: State, p: nat, q: nat, spurious: bool)
    requires Inv(s) && SpinsInVain(s.m) && OwesHead(s.m, p) && p != q && Step(s, Produce(q, spurious)).Next?
    ensures var m := Step(s, Produce(q, spurious)).s.m; SpinsInVain(m) && OwesHead(m, p)
  {
    var only := OneProducerOwes(s);
    assert s.g.chain[0] in s.g.chain;
    PushedRecordIsOutside(s, q);
    assert !OwesHead(s.m, q);
    OthersLeaveHead(s.m, q, spurious);
  }

  /** The debtor's one step, whatever else has happened, lets the wait end. */
  lemma DebtorEndsWait(s: State, p: nat, spurious: bool)
    requires Inv(s) && SpinsInVain(s.m) && OwesHead(s.m, p)
    ensures Step(s, Produce(p, spurious)).Next? && SpinCanEnd(Step(s, Produce(p, spurious)).s.m)
  {
    assert ProducerOk(s.m, s.g, p);
  }

  /** Once the link is stored nobody takes it away, and the worker's next step leaves the wait. */
  lemma EndedWaitStays(s: State, a: Action)
    requires Inv(s) && Benign(s.m, a) && SpinCanEnd(s.m) && Step(s, a).Next?
    ensures if a.Work? then ReturnsRecord(s.m, Step(s, a).s.m) else SpinCanEnd(Step(s, a).s.m)
  {
    if a.Produce? {
      ProducersKeepLink(s, a.p, a.spurious);
    }
  }

  lemma ProducersKeepLink(s: State, q: nat, spurious: bool)
    requires Inv(s) && SpinCanEnd(s.m) && Step(s, Produce(q, spurious)).Next?
    ensures SpinCanEnd(Step(s, Produce(q, spurious)).s.m)
  {
    assert s.g.chain[0] in s.g.chain;
    PushedRecordIsOutside(s, q);
    assert ProducerOk(s.m, s.g, q);
    OthersLeaveHead(s.m, q, spurious);
  }

  /** Somewhere in the run the waiting `pop` returns a record. */
  ghost predicate PopReturns(s: State, actions: seq<Action>)
    decreases |actions|
  {
    && actions != [] && Step(s, actions[0]).Next?
    && (ReturnsRecord(s.m, Step(s, actions[0]).s.m) || PopReturns(Step(s, actions[0]).s, actions[1..]))
  }

  lemma {:induction false} EndedWaitReturns(s: State, actions: seq<Action>, j: nat)
    requires Inv(s) && AbaFree(s, actions) && SpinCanEnd(s.m) && Run(s, actions).Next?
    requires j < |actions| && actions[j].Work?
    ensures PopReturns(s, actions)
    decreases |actions|
  {
    StepKeepsInv(s, actions[0]);
    EndedWaitStays(s, actions[0]);
    if actions[0].Work? {
      assert ReturnsRecord(s.m, Step(s, actions[0]).s.m);
    } else {
      EndedWaitReturns(Step(s, actions[0]).s, actions[1..], j - 1);
    }
  }

  lemma StepOfWait(s: State, a: Action, p: nat) returns (s': State)
    requires Inv(s) && Benign(s.m, a) && SpinsInVain(s.m) && OwesHead(s.m, p) && Step(s, a).Next?
    ensures Step(s, a) == Next(s') && Inv(s')
    ensures if a.Produce? && a.p == p then SpinCanEnd(s'.m) else SpinsInVain(s'.m) && OwesHead(s'.m, p)
  {
    StepKeepsInv(s, a);
    s' := Step(s, a).s;
    if a.Produce? && a.p == p {
      DebtorEndsWait(s, p, a.spurious);
    } else {
      WaitGoesOn(s, a, p);
    }
  }

  lemma ReturnsLater(s: State, actions: seq<Action>, s': State, later: seq<Action>)
    requires actions != [] && later == actions[1..] && Step(s, actions[0]) == Next(s') && PopReturns(s', later)
    ensures PopReturns(s, actions)
  {
  }

  lemma RunLater(s: State, actions: seq<Action>, s': State)
    requires AbaFree(s, actions) && Run(s, actions).Next? && actions != [] && Step(s, actions[0]) == Next(s')
    ensures AbaFree(s', actions[1..]) && Run(s', actions[1..]).Next?
  {
  }

  /** A waiting `pop` returns once its debtor and then the worker have each taken a step, whatever others do. */
  lemma {:induction false} WaitingPopReturns(s: State, actions: seq<Action>, p: nat, i: nat, j: nat)
    requires Inv(s) && AbaFree(s, actions) && SpinsInVain(s.m) && OwesHead(s.m, p) && Run(s, actions).Next?
    requires i < j < |actions| && actions[i].Produce? && actions[i].p == p && actions[j].Work?
    ensures PopReturns(s, actions)
    decreases |actions|, 1
  {
    hide Step;
    var s' := StepOfWait(s, actions[0], p);
    RunLater(s, actions, s');
    var later := actions[1..];
    assert later[j - 1] == actions[j] && (i > 0 ==> later[i - 1] == actions[i]);
    WaitGoesThrough(s', later, p, i - 1, j - 1);
    ReturnsLater(s, actions, s', later);
  }

  /** The link may have been stored already, earlier than at `i`. */
  lemma {:induction false} WaitGoesThrough(s: State, actions: seq<Action>, p: nat, i: int, j: nat)
    requires Inv(s) && AbaFree(s, actions) && Run(s, actions).Next?
    requires if SpinCanEnd(s.m) then true else SpinsInVain(s.m) && OwesHead(s.m, p) && i >= 0
    requires -1 <= i < j < |actions| && (i >= 0 ==> actions[i].Produce? && actions[i].p == p) && actions[j].Work?
    ensures PopReturns(s, actions)
    decreases |actions|, 2
  {
    if SpinCanEnd(s.m) {
      EndedWaitReturns(s, actions, j);
    } else {
      WaitingPopReturns(s, actions, p, i, j);
    }
  }

  // ----- Shutdown -----

  /** How far the worker is from leaving, apart from the records still queued. */
  function Rank(w: Worker, queueEmpty: bool): nat {
    match w
    case Done => 0
    case RecycleCas(after, _) => if after.Exit? then 1 else if after.loop.Drain? then 13 else 22
    case RecycleStore(after, _) => if after.Exit? then 2 else if after.loop.Drain? then 14 else 23
    case RecycleLoad(after) => if after.Exit? then 3 else if after.loop.Drain? then 15 else 24
    case ResetTail => 4
    case ResetHead => 5
    case ResetStub => 6
    case PopSpin(loop) => if loop.Drain? then 7 else 13
    case PopTail(loop) => if loop.Drain? then 8 else if queueEmpty then 13 else 14
    case PopHeadNext(loop) => if loop.Drain? then 9 else if queueEmpty then 14 else 15
    case EmptyTail => if queueEmpty then 10 else 16
    case EmptyNext => if queueEmpty then 11 else 17
    case TestRun => if queueEmpty then 12 else 18
    case CountWritten(loop, _) => if loop.Drain? then 10 else 19
    case Destroy(loop, _) => if loop.Drain? then 11 else 20
    case Submit(loop, _) => if loop.Drain? then 12 else 21
    case Off => 0
  }

  /** The head that `push` loaded is out of date: its compare-and-swap is going to fail once. */
  predicate Stale(m: Memory) { (m.worker.RecycleStore? || m.worker.RecycleCas?) && m.worker.h != m.freeHead }

  /** A bound on the worker's remaining steps. */
  function Distance(m: Memory, chainLength: nat): nat {
    Rank(m.worker, chainLength == 1) + (if Stale(m) then 2 else 0) + 20 * chainLength
  }

  /** With all producers at rest every link of the chain is stored, and the ends tell its length. */
  lemma LinksAreStored(s: State)
    requires Inv(s) && s.m.control.Joining?
    ensures s.g.chain != [] && s.m.Node(s.m.head) && (s.m.next[s.m.head] != NULL <==> |s.g.chain| > 1)
    ensures s.m.worker.ResetTail? || (s.m.tail == s.m.head <==> |s.g.chain| == 1)
    ensures s.m.worker.PopSpin? ==> |s.g.chain| > 1
    ensures s.m.worker.ResetHead? ==> |s.g.chain| == 1
  {
    if |s.g.chain| > 1 {
      assert LinkOk(s.m, s.g.chain[0], s.g.chain[1]);
    }
    var last := |s.g.chain| - 1;
    assert s.g.chain[0] == s.g.chain[last] <==> last == 0;
  }

  /** The queue's shape during a shutdown. */
  predicate Settled(m: Memory, chainLength: nat) {
    && chainLength > 0 && !m.run
    && m.Node(m.head) && (m.next[m.head] != NULL <==> chainLength > 1)
    && (m.worker.ResetTail? || (m.tail == m.head <==> chainLength == 1))
    && (m.worker.PopSpin? ==> chainLength > 1)
    && (m.worker.ResetHead? ==> chainLength == 1)
  }

  predicate CasFails(m: Memory, spurious: bool) { m.worker.RecycleCas? && spurious }

  function NewLength(m: Memory, chainLength: nat): nat
    requires chainLength > 0
  {
    if InPop(m.worker) && !m.worker.PopTail? && m.Node(m.head) && m.next[m.head] != NULL then chainLength - 1
    else if m.worker.ResetHead? then 1
    else chainLength
  }

  lemma LookingGetsCloser(m: Memory, spurious: bool, n: nat)
    requires Settled(m, n) && WorkerStep(m, spurious).Next? && !PushingBack(m.worker)
    ensures Distance(WorkerStep(m, spurious).s, NewLength(m, n)) < Distance(m, n)
  {
  }

  lemma RecyclingGetsCloser(m: Memory, spurious: bool, n: nat)
    requires Settled(m, n) && WorkerStep(m, spurious).Next? && PushingBack(m.worker)
    ensures Distance(WorkerStep(m, spurious).s, n) < Distance(m, n) + if CasFails(m, spurious) then 2 else 0
  {
  }

  lemma LengthFollows(m: Memory, g: Trail, spurious: bool)
    requires g.chain != [] && WorkerStep(m, spurious).Next?
    ensures |WorkerTrail(g, m, spurious).chain| == NewLength(m, |g.chain|)
  {
  }

  /** During a shutdown the worker is never stuck, and each of its steps brings the end closer. */
  lemma WorkGetsCloser(s: State, spurious: bool)
    requires Inv(s) && s.m.control.Joining? && !s.m.worker.Done?
    ensures var r := Step(s, Work(spurious));
            && r.Next? && Inv(r.s) && r.s.m.control.Joining?
            && Distance(r.s.m, |r.s.g.chain|) < Distance(s.m, |s.g.chain|) + if CasFails(s.m, spurious) then 2 else 0
  {
    WorkerMoves(s, spurious);
    StepKeepsInv(s, Work(spurious));
    LinksAreStored(s);
    LengthFollows(s.m, s.g, spurious);
    if PushingBack(s.m.worker) {
      RecyclingGetsCloser(s.m, spurious, |s.g.chain|);
    } else {
      LookingGetsCloser(s.m, spurious, |s.g.chain|);
    }
  }

  lemma WorkerStepKeepsControl(m: Memory, spurious: bool)
    requires !m.worker.Off? && !m.worker.Done? && !WorkerStep(m, spurious).Fault?
    ensures WorkerStep(m, spurious).Next? && WorkerStep(m, spurious).s.control == m.control
  {
  }

  lemma WorkerMoves(s: State, spurious: bool)
    requires Inv(s) && s.m.control.Joining? && !s.m.worker.Done?
    ensures Step(s, Work(spurious)).Next? && Step(s, Work(spurious)).s.m.control == s.m.control && !s.m.run
  {
    WorkKeepsInv(s, spurious);
    WorkerStepKeepsControl(s.m, spurious);
  }

  /** Once shutdown has begun, only the worker moves until it is done. */
  lemma OnlyTheWorkerMoves(s: State, a: Action)
    requires Inv(s) && s.m.control.Joining? && !s.m.worker.Done? && Step(s, a).Next?
    ensures a.Work?
  {
  }

  /** How many actions of a run let a compare-and-swap fail for no reason. */
  function Spurious(actions: seq<Action>): nat {
    if actions == [] then 0
    else Spurious(actions[1..]) + if actions[0].Work? && actions[0].spurious then 1 else 0
  }

  /** No run of a shutdown is longer than the distance, but for two steps per spurious failure. */
  lemma {:induction false} ShutdownIsBounded(s: State, actions: seq<Action>)
    requires Inv(s) && s.m.control.Joining? && Run(s, actions).Next?
    requires forall i :: 0 <= i < |actions| ==> !actions[i].Join?
    ensures |actions| <= Distance(s.m, |s.g.chain|) + 2 * Spurious(actions)
    ensures Inv(Run(s, actions).s) && Run(s, actions).s.m.control.Joining?
    decreases |actions|
  {
    if actions == [] {
    } else {
      DoneIsTheEnd(s, actions[0]);
      OnlyTheWorkerMoves(s, actions[0]);
      WorkGetsCloser(s, actions[0].spurious);
      ShutdownIsBounded(Step(s, actions[0]).s, actions[1..]);
    }
  }

  lemma DoneIsTheEnd(s: State, a: Action)
    requires Inv(s) && s.m.control.Joining? && Step(s, a).Next? && !a.Join?
    ensures !s.m.worker.Done?
  {
  }

  lemma CloserByOne(s: State) returns (s': State)
    requires Inv(s) && s.m.control.Joining? && !s.m.worker.Done?
    ensures Step(s, Work(false)) == Next(s') && Inv(s') && s'.m.control.Joining?
    ensures Distance(s'.m, |s'.g.chain|) < Distance(s.m, |s.g.chain|)
  {
    WorkGetsCloser(s, false);
    s' := Step(s, Work(false)).s;
  }

  lemma RunFirst(s: State, a: Action, s': State, rest: seq<Action>)
    requires Step(s, a) == Next(s')
    ensures Run(s, [a] + rest) == Run(s', rest)
  {
    assert ([a] + rest)[1..] == rest;
  }

  /** The worker, left to itself, leaves: it reaches `Done` by its own steps. */
  lemma {:induction false} ShutdownTerminates(s: State) returns (actions: seq<Action>)
    requires Inv(s) && s.m.control.Joining?
    ensures forall i :: 0 <= i < |actions| ==> actions[i] == Work(false)
    ensures |actions| <= Distance(s.m, |s.g.chain|)
    ensures Run(s, actions).Next? && Run(s, actions).s.m.worker.Done?
    ensures Inv(Run(s, actions).s) && Run(s, actions).s.m.control.Joining?
    decreases Distance(s.m, |s.g.chain|)
  {
    if s.m.worker.Done? {
      actions := [];
    } else {
      var s' := CloserByOne(s);
      var rest := ShutdownTerminates(s');
      actions := [Work(false)] + rest;
      RunFirst(s, Work(false), s', rest);
    }
  }

  lemma EverythingIsWritten(s: State)
    requires Inv(s) && s.m.control.Joining? && s.m.worker.Done?
    ensures s.m.written == s.m.enqueued && s.g.submitted == s.g.sent && s.g.destroyed == s.g.sent
    ensures s.m.head == s.m.tail == s.m.Stub() && s.m.next[s.m.Stub()] == NULL
  {
    CountExtremes(s.m.producers, Uncounted);
    assert s.g.chain == [s.m.Stub()];
  }

  /**
    When the worker is done, whatever the interleaving and however many rounds came before: everything
    enqueued is written; every message was submitted and destroyed once, in order; the queue is back on its
    stub; and the free list holds every record of the pool exactly once, with an empty slot.
  */
  lemma ShutdownLosesNothing(s: State)
    requires Inv(s) && s.m.control.Joining? && s.m.worker.Done?
    ensures s.m.written == s.m.enqueued
    ensures s.g.submitted == s.g.sent && s.g.destroyed == s.g.sent
    ensures s.m.head == s.m.tail == s.m.Stub() && s.m.next[s.m.Stub()] == NULL
    ensures IsStack(s.m.freeHead, s.m.freeNext, s.g.stack)
    ensures forall r :: 0 <= r < |s.m.slot| ==> r in s.g.stack && s.m.slot[r].None?
    ensures |s.g.stack| == |s.m.slot|
  {
    EverythingIsWritten(s);
    forall r | 0 <= r < |s.m.slot| ensures r in s.g.stack && s.m.slot[r].None? {
      AtRestIsFree(s, r);
    }
    assert forall i :: 0 <= i < |s.g.stack| ==> 0 <= s.g.stack[i] < |s.m.freeNext|;
    EveryNumberOnce(s.g.stack, |s.m.slot|);
  }

  lemma AtRestIsFree(s: State, r: nat)
    requires Inv(s) && s.m.control.Joining? && s.m.worker.Done? && r < |s.m.slot|
    ensures r in s.g.stack && s.m.slot[r].None?
  {
    assert PlaceOk(s.m, s.g, r) && r !in s.g.chain;
  }

  lemma {:induction false} EveryNumberOnce(xs: seq<int>, n: nat)
    requires Distinct(xs) && forall i :: 0 <= i < |xs| ==> 0 <= xs[i] < n
    requires forall r :: 0 <= r < n ==> r in xs
    ensures |xs| == n
  {
    if n == 0 {
      DistinctBound(xs, n);
    } else {
      assert n - 1 in xs;
      var i :| 0 <= i < |xs| && xs[i] == n - 1;
      DistinctWithout(xs, i);
      var rest := xs[..i] + xs[i + 1..];
      assert forall k :: 0 <= k < |rest| ==> rest[k] in xs && rest[k] != n - 1;
      forall r | 0 <= r < n - 1 ensures r in rest {
        assert r in xs;
      }
      EveryNumberOnce(rest, n - 1);
    }
  }
}
