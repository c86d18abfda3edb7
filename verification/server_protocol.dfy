/**
  The server's submit, worker and shutdown protocol as a step machine, within one start: any number of
  submitters, workers and events. Every access to an atomic and every locked queue operation is one step.
*/
module ServerProtocol {
  import opened Sequences
  import opened Steps

  datatype ServerState = Created | Live | Stopping | Stopped | Failed

  datatype ShutdownMode = Graceful | Force

  /** `limit` is how many events the queue's vector can hold; the process does not survive asking for more. */
  datatype Config = Config(backpressure: bool, capacity: nat, limit: nat)

  /** Where a thread stands inside `trySubmit`. */
  datatype Submitter =
    | Away
    | CheckState(event: int)
    | CheckDepth(event: int)
    | Push(event: int)
    | Increment

  /** Where a thread stands inside `workerLoop`. */
  datatype Worker =
    | TryPop
    | Decrement(event: int)
    | Process(event: int)
    | LoadStop
    | LoadMode
    | LoadDepth
    | WaitDepth
    | WaitStop
    | Exited

  /** Where the controlling thread stands inside `shutdown`. */
  datatype Control = Ready | LoadState | StoreState | StoreStop

  datatype Memory = Memory(
    state: ServerState,
    mode: ShutdownMode,
    stop: bool,
    approx: nat,
    queue: seq<int>,
    submitters: seq<Submitter>,
    workers: seq<Worker>,
    control: Control)

  /** Events in the order in which they were pushed, popped and processed; no step reads them. */
  datatype Trail = Trail(accepted: seq<int>, popped: seq<int>, processed: seq<int>)

  datatype State = State(m: Memory, g: Trail)

  datatype Action =
    | Submit(k: nat, event: int)
    | SubmitStep(k: nat)
    | WorkStep(w: nat)
    | Shutdown(mode: ShutdownMode)
    | ControlStep
    | Wait

  /** `queuedApprox_` is 64 bits wide and wraps. */
  const RANGE: nat := 0x1_0000_0000_0000_0000

  function Up(n: nat): nat { (n + 1) % RANGE }

  function Down(n: nat): nat { (n + RANGE - 1) % RANGE }

  function MoveSubmitter(m: Memory, k: nat, pc: Submitter): Memory
    requires k < |m.submitters|
  {
    m.(submitters := m.submitters[k := pc])
  }

  function MoveWorker(m: Memory, w: nat, pc: Worker): Memory
    requires w < |m.workers|
  {
    m.(workers := m.workers[w := pc])
  }

  function SubmitterStep(c: Config, m: Memory, k: nat): Outcome<Memory>
    requires k < |m.submitters|
  {
    match m.submitters[k]
    case Away => Blocked
    case CheckState(event) =>
      Next(MoveSubmitter(m, k, if !m.state.Live? then Away
                               else if c.backpressure then CheckDepth(event) else Push(event)))
    case CheckDepth(event) => Next(MoveSubmitter(m, k, if m.approx >= c.capacity then Away else Push(event)))
    case Push(event) =>
      if |m.queue| >= c.limit then Blocked
      else Next(MoveSubmitter(m.(queue := m.queue + [event]), k, Increment))
    case Increment => Next(MoveSubmitter(m.(approx := Up(m.approx)), k, Away))
  }

  function WorkerStep(m: Memory, w: nat): Outcome<Memory>
    requires w < |m.workers|
  {
    match m.workers[w]
    case TryPop =>
      if m.queue == [] then Next(MoveWorker(m, w, LoadStop))
      else Next(MoveWorker(m.(queue := m.queue[1..]), w, Decrement(m.queue[0])))
    case Decrement(event) => Next(MoveWorker(m.(approx := Down(m.approx)), w, Process(event)))
    case Process(_) => Next(MoveWorker(m, w, TryPop))
    case LoadStop => Next(MoveWorker(m, w, if m.stop then LoadMode else WaitDepth))
    case LoadMode => Next(MoveWorker(m, w, if m.mode.Force? then Exited else LoadDepth))
    case LoadDepth => Next(MoveWorker(m, w, if m.approx == 0 then Exited else WaitDepth))
    case WaitDepth => Next(MoveWorker(m, w, if m.approx > 0 then TryPop else WaitStop))
    case WaitStop => Next(MoveWorker(m, w, if m.stop then TryPop else WaitDepth))
    case Exited => Blocked
  }

  /** A second `shutdown` on a stopped server only sets the mode. */
  function ControllerStep(m: Memory): Outcome<Memory> {
    match m.control
    case Ready => Blocked
    case LoadState => Next(m.(control := if m.state.Stopped? || m.state.Failed? then Ready else StoreState))
    case StoreState => Next(m.(state := Stopping, control := StoreStop))
    case StoreStop => Next(m.(stop := true, control := Ready))
  }

  predicate AllExited(m: Memory) { forall w :: 0 <= w < |m.workers| ==> m.workers[w] == Exited }

  function MemoryStep(c: Config, m: Memory, a: Action): Outcome<Memory> {
    match a
    case Submit(k, event) =>
      if k < |m.submitters| && m.submitters[k].Away? then Next(MoveSubmitter(m, k, CheckState(event))) else Blocked
    case SubmitStep(k) => if k < |m.submitters| then SubmitterStep(c, m, k) else Blocked
    case WorkStep(w) => if w < |m.workers| then WorkerStep(m, w) else Blocked
    case Shutdown(mode) => if m.control.Ready? then Next(m.(mode := mode, control := LoadState)) else Blocked
    case ControlStep => ControllerStep(m)
    case Wait =>
      if m.control.Ready? && AllExited(m) then Next(m.(state := if m.state.Failed? then Failed else Stopped)) else Blocked
  }

  function TrailStep(g: Trail, m: Memory, a: Action): Trail {
    if a.SubmitStep? && a.k < |m.submitters| && m.submitters[a.k].Push? then
      g.(accepted := g.accepted + [m.submitters[a.k].event])
    else if a.WorkStep? && a.w < |m.workers| && m.workers[a.w].TryPop? && m.queue != [] then
      g.(popped := g.popped + [m.queue[0]])
    else if a.WorkStep? && a.w < |m.workers| && m.workers[a.w].Process? then
      g.(processed := g.processed + [m.workers[a.w].event])
    else g
  }

  function Step(c: Config, s: State, a: Action): Outcome<State> {
    match MemoryStep(c, s.m, a)
    case Blocked => Blocked
    case Fault => Fault
    case Next(m) => Next(State(m, TrailStep(s.g, s.m, a)))
  }

  function Run(c: Config, s: State, actions: seq<Action>): Outcome<State>
    decreases |actions|
  {
    if actions == [] then Next(s)
    else
      match Step(c, s, actions[0])
      case Blocked => Blocked
      case Fault => Fault
      case Next(s') => Run(c, s', actions[1..])
  }

  /** Just after `start()`, with an empty queue and nobody inside `trySubmit`. */
  function Init(submitters: nat, workers: nat): State {
    State(Memory(Live, Graceful, false, 0, [], seq(submitters, k => Away), seq(workers, w => TryPop), Ready),
          Trail([], [], []))
  }

  // ----- The depth counter -----

  predicate Incrementing(pc: Submitter) { pc.Increment? }

  predicate Pushing(pc: Submitter) { pc.Push? }

  predicate Decrementing(pc: Worker) { pc.Decrement? }

  /** Events counted or about to be counted down, less those about to be counted up. */
  function TrueDepth(m: Memory): int {
    |m.queue| + Count(m.workers, Decrementing) - Count(m.submitters, Incrementing)
  }

  ghost predicate DepthOk(m: Memory) { m.approx == TrueDepth(m) % 0x1_0000_0000_0000_0000 }

  lemma WrapUp(n: int)
    ensures Up(n % RANGE) == (n + 1) % RANGE
  {
  }

  lemma WrapDown(n: int)
    ensures Down(n % RANGE) == (n - 1) % RANGE
  {
  }

  lemma SubmitterMovesDepth(c: Config, m: Memory, k: nat)
    requires k < |m.submitters| && SubmitterStep(c, m, k).Next?
    ensures var m' := SubmitterStep(c, m, k).s;
            && m'.workers == m.workers
            && TrueDepth(m') == TrueDepth(m) + (if m.submitters[k].Increment? then 1 else 0)
            && m'.approx == if m.submitters[k].Increment? then Up(m.approx) else m.approx
  {
    var pc := SubmitterStep(c, m, k).s.submitters[k];
    CountUpdate(m.submitters, k, pc, Incrementing);
  }

  lemma WorkerMovesDepth(m: Memory, w: nat)
    requires w < |m.workers| && WorkerStep(m, w).Next?
    ensures var m' := WorkerStep(m, w).s;
            && m'.submitters == m.submitters
            && TrueDepth(m') == TrueDepth(m) - (if m.workers[w].Decrement? then 1 else 0)
            && m'.approx == if m.workers[w].Decrement? then Down(m.approx) else m.approx
  {
    var pc := WorkerStep(m, w).s.workers[w];
    CountUpdate(m.workers, w, pc, Decrementing);
  }

  /** `queuedApprox_` is the true depth modulo 2^64 at every step. */
  lemma StepKeepsDepth(c: Config, s: State, a: Action)
    requires DepthOk(s.m) && Step(c, s, a).Next?
    ensures DepthOk(Step(c, s, a).s.m)
  {
    WrapUp(TrueDepth(s.m));
    WrapDown(TrueDepth(s.m));
    if a.SubmitStep? {
      SubmitterMovesDepth(c, s.m, a.k);
    } else if a.WorkStep? {
      WorkerMovesDepth(s.m, a.w);
    } else if a.Submit? {
      CountUpdate(s.m.submitters, a.k, CheckState(a.event), Incrementing);
    }
  }

  // ----- The backpressure bound -----

  /** Events in the queue, on their way out of the counter, or past the check on their way in. */
  function Load(m: Memory): nat {
    |m.queue| + Count(m.workers, Decrementing) + Count(m.submitters, Pushing)
  }

  ghost predicate BoundOk(c: Config, m: Memory) {
    |m.submitters| > 0 && Load(m) <= c.capacity + |m.submitters| - 1
  }

  /** A submitter that is still at the check is neither pushing nor incrementing. */
  lemma {:induction false} OthersAreFewer(ps: seq<Submitter>, k: nat)
    requires k < |ps| && !ps[k].Push? && !ps[k].Increment?
    ensures Count(ps, Pushing) + Count(ps, Incrementing) <= |ps| - 1
    decreases |ps|
  {
    var front, last := ps[..|ps| - 1], |ps| - 1;
    if k < last {
      OthersAreFewer(front, k);
    } else {
      AtMostAll(front);
    }
  }

  lemma {:induction false} AtMostAll(ps: seq<Submitter>)
    ensures Count(ps, Pushing) + Count(ps, Incrementing) <= |ps|
    decreases |ps|
  {
    if ps == [] {
    } else {
      AtMostAll(ps[..|ps| - 1]);
    }
  }

  lemma WrapsBelowZero(d: int)
    requires 0 <= d + RANGE && d < 0
    ensures d % RANGE == d + RANGE
  {
  }

  /**
    Passing the check bounds the true depth, even when increments are so late that the counter has wrapped
    below zero: then it reads as a huge number and the check fails.
  */
  lemma CheckBoundsDepth(c: Config, m: Memory, k: nat)
    requires DepthOk(m) && BoundOk(c, m) && c.capacity + |m.submitters| <= RANGE
    requires k < |m.submitters| && m.submitters[k].CheckDepth? && m.approx < c.capacity
    ensures Load(m) + 1 <= c.capacity + |m.submitters| - 1
  {
    OthersAreFewer(m.submitters, k);
    var d := TrueDepth(m);
    if d < 0 {
      WrapsBelowZero(d);
    } else {
      assert d % RANGE == d;
    }
  }

  lemma SubmitterMovesLoad(c: Config, m: Memory, k: nat)
    requires k < |m.submitters| && SubmitterStep(c, m, k).Next? && c.backpressure
    ensures var m' := SubmitterStep(c, m, k).s;
            && |m'.submitters| == |m.submitters|
            && Load(m') == Load(m) + if m.submitters[k].CheckDepth? && m.approx < c.capacity then 1 else 0
  {
    CountUpdate(m.submitters, k, SubmitterStep(c, m, k).s.submitters[k], Pushing);
  }

  lemma WorkerMovesLoad(m: Memory, w: nat)
    requires w < |m.workers| && WorkerStep(m, w).Next?
    ensures var m' := WorkerStep(m, w).s; m'.submitters == m.submitters && Load(m') <= Load(m)
  {
    CountUpdate(m.workers, w, WorkerStep(m, w).s.workers[w], Decrementing);
  }

  lemma StepKeepsBound(c: Config, s: State, a: Action)
    requires c.backpressure && c.capacity + |s.m.submitters| <= RANGE
    requires DepthOk(s.m) && BoundOk(c, s.m) && Step(c, s, a).Next?
    ensures BoundOk(c, Step(c, s, a).s.m) && |Step(c, s, a).s.m.submitters| == |s.m.submitters|
  {
    if a.SubmitStep? {
      SubmitterMovesLoad(c, s.m, a.k);
      if s.m.submitters[a.k].CheckDepth? && s.m.approx < c.capacity {
        CheckBoundsDepth(c, s.m, a.k);
      }
    } else if a.WorkStep? {
      WorkerMovesLoad(s.m, a.w);
    } else if a.Submit? {
      CountUpdate(s.m.submitters, a.k, CheckState(a.event), Pushing);
    }
  }

  lemma InitSatisfiesCounts(c: Config, submitters: nat, workers: nat)
    ensures DepthOk(Init(submitters, workers).m)
    ensures submitters > 0 ==> BoundOk(c, Init(submitters, workers).m)
  {
    var m := Init(submitters, workers).m;
    CountExtremes(m.submitters, Incrementing);
    CountExtremes(m.submitters, Pushing);
    CountExtremes(m.workers, Decrementing);
  }

  lemma {:induction false} RunKeepsDepth(c: Config, s: State, actions: seq<Action>)
    requires DepthOk(s.m) && Run(c, s, actions).Next?
    ensures DepthOk(Run(c, s, actions).s.m)
    decreases |actions|
  {
    if actions == [] {
    } else {
      StepKeepsDepth(c, s, actions[0]);
      RunKeepsDepth(c, Step(c, s, actions[0]).s, actions[1..]);
    }
  }

  /** With `k` submitters the queue never exceeds the capacity by `k` or more, whatever the interleaving. */
  lemma {:induction false} BackpressureBoundsQueue(c: Config, s: State, actions: seq<Action>)
    requires c.backpressure && c.capacity + |s.m.submitters| <= RANGE
    requires DepthOk(s.m) && BoundOk(c, s.m) && Run(c, s, actions).Next?
    ensures BoundOk(c, Run(c, s, actions).s.m)
    ensures |Run(c, s, actions).s.m.queue| <= c.capacity + |s.m.submitters| - 1
    decreases |actions|
  {
    if actions == [] {
    } else {
      StepKeepsDepth(c, s, actions[0]);
      StepKeepsBound(c, s, actions[0]);
      BackpressureBoundsQueue(c, Step(c, s, actions[0]).s, actions[1..]);
    }
  }

  /** One submitter keeps the queue within the capacity. */
  lemma OneSubmitterNeverOverfills(c: Config, workers: nat, actions: seq<Action>)
    requires c.backpressure && c.capacity < RANGE && Run(c, Init(1, workers), actions).Next?
    ensures |Run(c, Init(1, workers), actions).s.m.queue| <= c.capacity
  {
    InitSatisfiesCounts(c, 1, workers);
    BackpressureBoundsQueue(c, Init(1, workers), actions);
  }

  // ----- The bound is reached -----

  lemma {:induction false} RunAppend(c: Config, s: State, xs: seq<Action>, ys: seq<Action>)
    requires Run(c, s, xs).Next?
    ensures Run(c, s, xs + ys) == Run(c, Run(c, s, xs).s, ys)
    decreases |xs|
  {
    if xs == [] {
      assert xs + ys == ys;
    } else {
      assert (xs + ys)[1..] == xs[1..] + ys;
      RunAppend(c, Step(c, s, xs[0]).s, xs[1..], ys);
    }
  }

  /** Submitter `k` is about to push, after passing the check. */
  function PassCheck(k: nat): seq<Action> { [Submit(k, 0)] + [SubmitStep(k)] + [SubmitStep(k)] }

  lemma RunThree(c: Config, s: State, a: Action, b: Action, d: Action)
    requires Step(c, s, a).Next? && Step(c, Step(c, s, a).s, b).Next?
    ensures Run(c, s, [a] + [b] + [d]) == Step(c, Step(c, Step(c, s, a).s, b).s, d)
  {
    var s1 := Step(c, s, a).s;
    var s2 := Step(c, s1, b).s;
    assert ([a] + [b] + [d])[1..] == [b] + [d] && ([b] + [d])[1..] == [d] && [d][1..] == [];
    assert Run(c, s, [a] + [b] + [d]) == Run(c, s1, [b] + [d]) == Run(c, s2, [d]);
    assert Step(c, s2, d).Next? ==> Run(c, Step(c, s2, d).s, []) == Step(c, s2, d);
  }

  /** The first `k` submitters stand before the push, the others are away; nothing else has begun. */
  ghost predicate Poised(m: Memory, k: nat) {
    && m.state.Live? && k <= |m.submitters|
    && (forall i :: 0 <= i < |m.submitters| ==> m.submitters[i] == if i < k then Push(0) else Away)
  }

  lemma {:induction false} AllPassCheck(c: Config, s: State, k: nat) returns (actions: seq<Action>)
    requires c.backpressure && Poised(s.m, 0) && s.m.approx < c.capacity && k <= |s.m.submitters|
    ensures Run(c, s, actions).Next? && Poised(Run(c, s, actions).s.m, k)
    ensures Run(c, s, actions).s.m.queue == s.m.queue
    ensures Run(c, s, actions).s.m == s.m.(submitters := Run(c, s, actions).s.m.submitters)
    ensures |Run(c, s, actions).s.m.submitters| == |s.m.submitters| && Run(c, s, actions).s.g == s.g
  {
    if k == 0 {
      actions := [];
    } else {
      var before := AllPassCheck(c, s, k - 1);
      var s1 := Run(c, s, before).s;
      RunThree(c, s1, Submit(k - 1, 0), SubmitStep(k - 1), SubmitStep(k - 1));
      RunAppend(c, s, before, PassCheck(k - 1));
      actions := before + PassCheck(k - 1);
    }
  }

  /** The first `k` submitters have pushed, the others stand before the push. */
  ghost predicate Pushed(m: Memory, k: nat) {
    && k <= |m.submitters|
    && forall i :: 0 <= i < |m.submitters| ==> m.submitters[i] == if i < k then Increment else Push(0)
  }

  lemma {:induction false} AllPush(c: Config, s: State, k: nat) returns (actions: seq<Action>)
    requires Pushed(s.m, 0) && k <= |s.m.submitters| && |s.m.queue| + k <= c.limit
    ensures Run(c, s, actions).Next? && Pushed(Run(c, s, actions).s.m, k)
    ensures |Run(c, s, actions).s.m.queue| == |s.m.queue| + k
    ensures |Run(c, s, actions).s.m.submitters| == |s.m.submitters|
  {
    if k == 0 {
      actions := [];
    } else {
      var before := AllPush(c, s, k - 1);
      var s1 := Run(c, s, before).s;
      var last := SubmitStep(k - 1);
      assert [last][1..] == [] && Run(c, s1, [last]) == Step(c, s1, last);
      RunAppend(c, s, before, [last]);
      actions := before + [last];
    }
  }

  /** Submitter 0, undisturbed, submits `n` events one after the other. */
  lemma {:induction false} SubmitInTurn(c: Config, s: State, n: nat) returns (actions: seq<Action>)
    requires c.backpressure && Poised(s.m, 0) && |s.m.submitters| > 0 && s.m.queue == [] && s.m.approx == 0
    requires n <= c.capacity && n <= c.limit && n < RANGE
    ensures Run(c, s, actions).Next? && Poised(Run(c, s, actions).s.m, 0)
    ensures |Run(c, s, actions).s.m.queue| == n == Run(c, s, actions).s.m.approx
    ensures |Run(c, s, actions).s.m.submitters| == |s.m.submitters|
  {
    if n == 0 {
      actions := [];
    } else {
      var before := SubmitInTurn(c, s, n - 1);
      var s1 := Run(c, s, before).s;
      RunThree(c, s1, Submit(0, 0), SubmitStep(0), SubmitStep(0));
      var s2 := Run(c, s1, PassCheck(0)).s;
      var s3 := Step(c, s2, SubmitStep(0)).s;
      var finish := [SubmitStep(0)] + [SubmitStep(0)];
      assert finish[1..] == [SubmitStep(0)] && [SubmitStep(0)][1..] == [];
      assert Run(c, s2, finish) == Run(c, s3, [SubmitStep(0)]) == Step(c, s3, SubmitStep(0));
      RunAppend(c, s, before, PassCheck(0));
      RunAppend(c, s, before + PassCheck(0), finish);
      actions := before + PassCheck(0) + finish;
    }
  }

  /**
    The bound is exact: with a capacity of at least one, `k` submitters can fill the queue to
    capacity + k - 1. So the capacity itself is kept by every run if and only if there is one submitter.
  */
  lemma BackpressureBoundIsReached(c: Config, submitters: nat, workers: nat) returns (actions: seq<Action>)
    requires c.backpressure && 0 < c.capacity <= RANGE && submitters > 0 && c.capacity + submitters - 1 <= c.limit
    ensures Run(c, Init(submitters, workers), actions).Next?
    ensures |Run(c, Init(submitters, workers), actions).s.m.queue| == c.capacity + submitters - 1
  {
    var s := Init(submitters, workers);
    var fill := SubmitInTurn(c, s, c.capacity - 1);
    var s1 := Run(c, s, fill).s;
    var pass := AllPassCheck(c, s1, submitters);
    var s2 := Run(c, s1, pass).s;
    var push := AllPush(c, s2, submitters);
    RunAppend(c, s, fill, pass);
    RunAppend(c, s, fill + pass, push);
    actions := fill + pass + push;
  }

  ghost predicate NothingPushed(m: Memory) {
    m.queue == [] && forall k :: 0 <= k < |m.submitters| ==> !m.submitters[k].Push?
  }

  /** With a capacity of zero every check fails. */
  lemma {:induction false} ZeroCapacityAcceptsNothing(c: Config, s: State, actions: seq<Action>)
    requires c.backpressure && c.capacity == 0 && NothingPushed(s.m) && Run(c, s, actions).Next?
    ensures NothingPushed(Run(c, s, actions).s.m)
    decreases |actions|
  {
    if actions == [] {
    } else {
      ZeroCapacityStep(c, s, actions[0]);
      ZeroCapacityAcceptsNothing(c, Step(c, s, actions[0]).s, actions[1..]);
    }
  }

  lemma ZeroCapacityStep(c: Config, s: State, a: Action)
    requires c.backpressure && c.capacity == 0 && NothingPushed(s.m) && Step(c, s, a).Next?
    ensures NothingPushed(Step(c, s, a).s.m)
  {
  }

  lemma CapacityIsKept(c: Config, submitters: nat, workers: nat, actions: seq<Action>)
    requires c.backpressure && c.capacity < RANGE && (submitters == 1 || c.capacity == 0)
    requires Run(c, Init(submitters, workers), actions).Next?
    ensures |Run(c, Init(submitters, workers), actions).s.m.queue| <= c.capacity
  {
    if submitters == 1 {
      OneSubmitterNeverOverfills(c, workers, actions);
    } else {
      ZeroCapacityAcceptsNothing(c, Init(submitters, workers), actions);
    }
  }

  /** The configured capacity is kept by every run if and only if there is a single submitter, or nothing is accepted. */
  lemma CapacityKeptExactlyByOneSubmitter(c: Config, submitters: nat, workers: nat)
    requires c.backpressure && submitters > 0
    requires c.capacity + submitters <= RANGE && c.capacity + submitters - 1 <= c.limit
    ensures (forall actions :: Run(c, Init(submitters, workers), actions).Next? ==>
               |Run(c, Init(submitters, workers), actions).s.m.queue| <= c.capacity) <==>
            submitters == 1 || c.capacity == 0
  {
    if submitters == 1 || c.capacity == 0 {
      forall actions | Run(c, Init(submitters, workers), actions).Next?
        ensures |Run(c, Init(submitters, workers), actions).s.m.queue| <= c.capacity
      {
        CapacityIsKept(c, submitters, workers, actions);
      }
    } else {
      var actions := BackpressureBoundIsReached(c, submitters, workers);
    }
  }

  // ----- Every event goes through once, in order -----

  function Carried(pc: Worker): multiset<int> {
    if pc.Decrement? || pc.Process? then multiset{pc.event} else multiset{}
  }

  /** The events that workers have popped and not finished processing. */
  function InHand(workers: seq<Worker>): multiset<int> {
    if workers == [] then multiset{} else InHand(workers[..|workers| - 1]) + Carried(workers[|workers| - 1])
  }

  lemma Regroup(a: multiset<int>, b: multiset<int>, c: multiset<int>, d: multiset<int>, e: multiset<int>)
    requires a + c == d + e
    ensures a + b + c == d + b + e
  {
    assert a + b + c == (a + c) + b;
    assert d + b + e == (d + e) + b;
  }

  lemma {:induction false} InHandUpdate(workers: seq<Worker>, w: nat, pc: Worker)
    requires w < |workers|
    ensures InHand(workers[w := pc]) + Carried(workers[w]) == InHand(workers) + Carried(pc)
    decreases |workers|
  {
    var last := |workers| - 1;
    var front, after := workers[..last], workers[w := pc];
    assert InHand(workers) == InHand(front) + Carried(workers[last]);
    assert InHand(after) == InHand(after[..last]) + Carried(after[last]);
    if w == last {
      assert after[..last] == front;
    } else {
      assert after[..last] == front[w := pc] && front[w] == workers[w];
      InHandUpdate(front, w, pc);
      Regroup(InHand(front[w := pc]), Carried(workers[last]), Carried(workers[w]), InHand(front), Carried(pc));
    }
  }

  lemma {:induction false} NothingInHand(workers: seq<Worker>)
    requires forall w :: 0 <= w < |workers| ==> Carried(workers[w]) == multiset{}
    ensures InHand(workers) == multiset{}
    decreases |workers|
  {
    if workers == [] {
    } else {
      NothingInHand(workers[..|workers| - 1]);
    }
  }

  /** Popped events are the accepted ones in order, up to the queue; each is processed or in one worker's hands. */
  ghost predicate FlowOk(s: State) { Flow(s.g, s.m.queue, s.m.workers) }

  ghost predicate Flow(g: Trail, queue: seq<int>, workers: seq<Worker>) {
    && g.accepted == g.popped + queue
    && multiset(g.popped) == multiset(g.processed) + InHand(workers)
  }

  lemma SameInHand(workers: seq<Worker>, w: nat, pc: Worker)
    requires w < |workers| && Carried(workers[w]) == Carried(pc)
    ensures InHand(workers[w := pc]) == InHand(workers)
  {
    InHandUpdate(workers, w, pc);
    Cancel(InHand(workers[w := pc]), InHand(workers), Carried(pc));
  }

  lemma Cancel(a: multiset<int>, b: multiset<int>, c: multiset<int>)
    requires a + c == b + c
    ensures a == b
  {
    forall x ensures a[x] == b[x] {
      assert (a + c)[x] == (b + c)[x];
    }
  }

  lemma OneMore(p: multiset<int>, q: multiset<int>, h: multiset<int>, h': multiset<int>, e: multiset<int>)
    requires p == q + h && h' + multiset{} == h + e
    ensures p + e == q + h'
  {
    forall x ensures (p + e)[x] == (q + h')[x] {
      assert p[x] == (q + h)[x] && (h' + multiset{})[x] == (h + e)[x];
    }
  }

  lemma OneFewer(p: multiset<int>, q: multiset<int>, h: multiset<int>, h': multiset<int>, e: multiset<int>)
    requires p == q + h && h' + e == h + multiset{}
    ensures p == (q + e) + h'
  {
    forall x ensures p[x] == ((q + e) + h')[x] {
      assert p[x] == (q + h)[x] && (h' + e)[x] == (h + multiset{})[x];
    }
  }

  lemma PopKeepsFlow(g: Trail, queue: seq<int>, workers: seq<Worker>, w: nat)
    requires Flow(g, queue, workers) && w < |workers| && workers[w].TryPop? && queue != []
    ensures Flow(g.(popped := g.popped + [queue[0]]), queue[1..], workers[w := Decrement(queue[0])])
  {
    var event, rest, workers' := queue[0], queue[1..], workers[w := Decrement(queue[0])];
    InHandUpdate(workers, w, Decrement(event));
    OneMore(multiset(g.popped), multiset(g.processed), InHand(workers), InHand(workers'), multiset{event});
    assert (g.popped + [event]) + rest == g.popped + queue;
  }

  lemma ProcessKeepsFlow(g: Trail, queue: seq<int>, workers: seq<Worker>, w: nat)
    requires Flow(g, queue, workers) && w < |workers| && workers[w].Process?
    ensures Flow(g.(processed := g.processed + [workers[w].event]), queue, workers[w := TryPop])
  {
    var event, workers' := workers[w].event, workers[w := TryPop];
    InHandUpdate(workers, w, TryPop);
    OneFewer(multiset(g.popped), multiset(g.processed), InHand(workers), InHand(workers'), multiset{event});
  }

  /** The worker's other steps carry what it carried. */
  lemma OtherStepsCarry(c: Config, s: State, w: nat)
    requires w < |s.m.workers| && Step(c, s, WorkStep(w)).Next?
    requires !s.m.workers[w].Process? && !(s.m.workers[w].TryPop? && s.m.queue != [])
    ensures var s' := Step(c, s, WorkStep(w)).s;
            && s'.g == s.g && s'.m.queue == s.m.queue && |s'.m.workers| == |s.m.workers|
            && s'.m.workers == s.m.workers[w := s'.m.workers[w]] && Carried(s'.m.workers[w]) == Carried(s.m.workers[w])
  {
  }

  lemma WorkerKeepsFlow(c: Config, s: State, w: nat)
    requires FlowOk(s) && Step(c, s, WorkStep(w)).Next?
    ensures FlowOk(Step(c, s, WorkStep(w)).s)
  {
    if s.m.workers[w].TryPop? && s.m.queue != [] {
      PopKeepsFlow(s.g, s.m.queue, s.m.workers, w);
    } else if s.m.workers[w].Process? {
      ProcessKeepsFlow(s.g, s.m.queue, s.m.workers, w);
    } else {
      OtherStepsCarry(c, s, w);
      SameInHand(s.m.workers, w, Step(c, s, WorkStep(w)).s.m.workers[w]);
    }
  }

  lemma PushKeepsFlow(c: Config, s: State, k: nat)
    requires FlowOk(s) && Step(c, s, SubmitStep(k)).Next?
    ensures FlowOk(Step(c, s, SubmitStep(k)).s)
  {
    if s.m.submitters[k].Push? {
      var event := s.m.submitters[k].event;
      assert s.g.popped + (s.m.queue + [event]) == (s.g.popped + s.m.queue) + [event];
    }
  }

  lemma StepKeepsFlow(c: Config, s: State, a: Action)
    requires FlowOk(s) && Step(c, s, a).Next?
    ensures FlowOk(Step(c, s, a).s)
  {
    if a.WorkStep? {
      WorkerKeepsFlow(c, s, a.w);
    } else if a.SubmitStep? {
      PushKeepsFlow(c, s, a.k);
    }
  }

  // ----- Graceful drain -----

  /** The submitter has seen the server running and has not returned. */
  predicate PastCheck(pc: Submitter) { pc.CheckDepth? || pc.Push? || pc.Increment? }

  /**
    The setting of a graceful shutdown: nobody asks for a forced one, and when the server stops accepting no
    submitter is between its state check and its return.
  */
  ghost predicate GracefulAction(m: Memory, a: Action) {
    && (a.Shutdown? ==> a.mode.Graceful?)
    && (a.ControlStep? && m.control.StoreState? ==>
          forall k :: 0 <= k < |m.submitters| ==> !PastCheck(m.submitters[k]))
  }

  ghost predicate GracefulRun(c: Config, s: State, actions: seq<Action>)
    decreases |actions|
  {
    actions != [] ==>
      && GracefulAction(s.m, actions[0])
      && (Step(c, s, actions[0]).Next? ==> GracefulRun(c, Step(c, s, actions[0]).s, actions[1..]))
  }

  /** What holds on the way through a graceful shutdown. */
  ghost predicate DrainOk(c: Config, m: Memory) {
    && m.mode.Graceful? && m.workers != [] && |m.queue| <= c.limit
    && (!m.state.Live? ==> forall k :: 0 <= k < |m.submitters| ==> !PastCheck(m.submitters[k]))
    && (m.stop || m.control.StoreStop? ==> !m.state.Live?)
    && (forall w :: 0 <= w < |m.workers| ==> PhaseOk(m, m.workers[w]))
  }

  ghost predicate PhaseOk(m: Memory, pc: Worker) {
    && (pc.LoadMode? || pc.LoadDepth? || pc.Exited? ==> m.stop)
    && (pc.Exited? ==> m.queue == [] && forall w :: 0 <= w < |m.workers| ==> !m.workers[w].Decrement?)
  }

  lemma SubmitterKeepsDrain(c: Config, m: Memory, k: nat)
    requires DrainOk(c, m) && k < |m.submitters| && SubmitterStep(c, m, k).Next?
    ensures DrainOk(c, SubmitterStep(c, m, k).s)
  {
    var m' := SubmitterStep(c, m, k).s;
    assert PastCheck(m.submitters[k]) ==> m.state.Live?;
    forall w | 0 <= w < |m'.workers| ensures PhaseOk(m', m'.workers[w]) {
      assert PhaseOk(m, m.workers[w]);
    }
  }

  /** The counter's zero means an empty queue, once nobody can be between push and increment. */
  lemma ZeroMeansEmpty(c: Config, m: Memory)
    requires DrainOk(c, m) && DepthOk(m) && !m.state.Live? && c.limit + |m.workers| < RANGE && m.approx == 0
    ensures m.queue == [] && forall w :: 0 <= w < |m.workers| ==> !m.workers[w].Decrement?
  {
    CountExtremes(m.submitters, Incrementing);
    CountExtremes(m.workers, Decrementing);
    assert 0 <= TrueDepth(m) < RANGE;
  }

  lemma WorkerKeepsDrain(c: Config, m: Memory, w: nat)
    requires DrainOk(c, m) && DepthOk(m) && c.limit + |m.workers| < RANGE
    requires w < |m.workers| && WorkerStep(m, w).Next?
    ensures DrainOk(c, WorkerStep(m, w).s)
  {
    var m' := WorkerStep(m, w).s;
    assert PhaseOk(m, m.workers[w]);
    if m.workers[w].LoadDepth? && m.approx == 0 {
      ZeroMeansEmpty(c, m);
    }
    forall v | 0 <= v < |m'.workers| ensures PhaseOk(m', m'.workers[v]) {
      assert PhaseOk(m, m.workers[v]);
    }
  }

  lemma StepKeepsDrain(c: Config, s: State, a: Action)
    requires DrainOk(c, s.m) && DepthOk(s.m) && c.limit + |s.m.workers| < RANGE
    requires GracefulAction(s.m, a) && Step(c, s, a).Next?
    ensures DrainOk(c, Step(c, s, a).s.m) && |Step(c, s, a).s.m.workers| == |s.m.workers|
  {
    if a.SubmitStep? {
      SubmitterKeepsDrain(c, s.m, a.k);
    } else if a.WorkStep? {
      WorkerKeepsDrain(c, s.m, a.w);
    } else {
      var m' := Step(c, s, a).s.m;
      forall v | 0 <= v < |m'.workers| ensures PhaseOk(m', m'.workers[v]) {
        assert PhaseOk(s.m, s.m.workers[v]);
      }
      assert PhaseOk(s.m, s.m.workers[0]);
    }
  }

  ghost predicate ServerInv(c: Config, s: State) { DepthOk(s.m) && FlowOk(s) && DrainOk(c, s.m) }

  lemma InitSatisfiesInv(c: Config, submitters: nat, workers: nat)
    requires workers > 0
    ensures ServerInv(c, Init(submitters, workers))
  {
    InitSatisfiesCounts(c, submitters, workers);
    NothingInHand(Init(submitters, workers).m.workers);
  }

  lemma GracefulStepKeepsInv(c: Config, s: State, a: Action)
    requires ServerInv(c, s) && c.limit + |s.m.workers| < RANGE
    requires GracefulAction(s.m, a) && Step(c, s, a).Next?
    ensures ServerInv(c, Step(c, s, a).s) && |Step(c, s, a).s.m.workers| == |s.m.workers|
  {
    StepKeepsDepth(c, s, a);
    StepKeepsFlow(c, s, a);
    StepKeepsDrain(c, s, a);
  }

  lemma {:induction false} GracefulRunKeepsInv(c: Config, s: State, actions: seq<Action>)
    requires ServerInv(c, s) && c.limit + |s.m.workers| < RANGE
    requires GracefulRun(c, s, actions) && Run(c, s, actions).Next?
    ensures ServerInv(c, Run(c, s, actions).s)
    decreases |actions|
  {
    if actions == [] {
    } else {
      GracefulStepKeepsInv(c, s, actions[0]);
      GracefulRunKeepsInv(c, Step(c, s, actions[0]).s, actions[1..]);
    }
  }

  /**
    A worker that has left found the queue empty, and it stays empty: nobody can push any more. When all have
    left, every accepted event has been processed exactly once.
  */
  lemma GracefulShutdownDrains(c: Config, s: State, w: nat)
    requires ServerInv(c, s) && w < |s.m.workers| && s.m.workers[w] == Exited
    ensures s.m.queue == [] && forall k :: 0 <= k < |s.m.submitters| ==> !PastCheck(s.m.submitters[k])
    ensures s.g.popped == s.g.accepted && multiset(s.g.processed) <= multiset(s.g.accepted)
    ensures AllExited(s.m) ==> multiset(s.g.processed) == multiset(s.g.accepted)
  {
    assert PhaseOk(s.m, s.m.workers[w]);
    assert s.g.popped + [] == s.g.popped;
    if AllExited(s.m) {
      NothingInHand(s.m.workers);
    }
  }

  lemma NothingComesAfterExit(c: Config, s: State, a: Action, w: nat)
    requires ServerInv(c, s) && w < |s.m.workers| && s.m.workers[w] == Exited && Step(c, s, a).Next?
    ensures w < |Step(c, s, a).s.m.workers| && Step(c, s, a).s.m.workers[w] == Exited
    ensures Step(c, s, a).s.g.accepted == s.g.accepted
  {
    GracefulShutdownDrains(c, s, w);
  }

  /** From then on nothing is accepted and the queue stays empty. */
  lemma {:induction false} EmptyForGood(c: Config, s: State, actions: seq<Action>, w: nat)
    requires ServerInv(c, s) && c.limit + |s.m.workers| < RANGE
    requires w < |s.m.workers| && s.m.workers[w] == Exited
    requires GracefulRun(c, s, actions) && Run(c, s, actions).Next?
    ensures Run(c, s, actions).s.m.queue == [] && Run(c, s, actions).s.g.accepted == s.g.accepted
    decreases |actions|
  {
    GracefulShutdownDrains(c, s, w);
    if actions == [] {
    } else {
      GracefulStepKeepsInv(c, s, actions[0]);
      NothingComesAfterExit(c, s, actions[0], w);
      EmptyForGood(c, Step(c, s, actions[0]).s, actions[1..], w);
    }
  }

  // ----- Why nobody may be past the check -----

  /** The counter reads zero exactly when increments still to come match the events present. */
  lemma ZeroExactly(m: Memory)
    requires DepthOk(m)
    ensures m.approx == 0 <==>
              (|m.queue| + Count(m.workers, Decrementing)) % 0x1_0000_0000_0000_0000 ==
                Count(m.submitters, Incrementing) % 0x1_0000_0000_0000_0000
  {
    var n, i := |m.queue| + Count(m.workers, Decrementing), Count(m.submitters, Incrementing);
    assert (n - i) % RANGE == 0 <==> n % RANGE == i % RANGE by {
      CongruentExactly(n, i);
    }
  }

  lemma CongruentExactly(n: nat, i: nat)
    ensures (n - i) % RANGE == 0 <==> n % RANGE == i % RANGE
  {
    var q, r := n / RANGE, n % RANGE;
    var p, t := i / RANGE, i % RANGE;
    assert n - i == (q - p) * RANGE + (r - t);
    MultiplesVanish(q - p, r - t);
  }

  lemma MultiplesVanish(k: int, x: int)
    ensures (k * RANGE + x) % RANGE == x % RANGE
  {
  }

  lemma RunOne(c: Config, s: State, a: Action)
    ensures Run(c, s, [a]) == Step(c, s, a)
  {
    assert [a][1..] == [];
    assert Step(c, s, a).Next? ==> Run(c, Step(c, s, a).s, []) == Step(c, s, a);
  }

  lemma Extend(c: Config, s: State, xs: seq<Action>, s1: State, a: Action, s2: State)
    requires Run(c, s, xs) == Next(s1) && Step(c, s1, a) == Next(s2)
    ensures Run(c, s, xs + [a]) == Next(s2)
  {
    RunAppend(c, s, xs, [a]);
    RunOne(c, s1, a);
  }

  /** A single worker finds the queue empty after a graceful shutdown, and leaves. */
  lemma ShutdownWhileQueueEmpty(c: Config, s: State) returns (actions: seq<Action>)
    requires s.m.state.Live? && s.m.control.Ready? && s.m.queue == [] && s.m.approx == 0
    requires s.m.workers == [TryPop]
    ensures Run(c, s, actions) ==
              Next(State(s.m.(state := Stopping, mode := Graceful, stop := true, workers := [Exited]), s.g))
    ensures forall i :: 0 <= i < |actions| && actions[i].Shutdown? ==> actions[i].mode.Graceful?
  {
    var m1 := s.m.(mode := Graceful, control := LoadState);
    RunOne(c, s, Shutdown(Graceful));
    var a1 := [Shutdown(Graceful)];
    var s2 := State(m1.(control := StoreState), s.g);
    Extend(c, s, a1, State(m1, s.g), ControlStep, s2);
    var s3 := State(m1.(state := Stopping, control := StoreStop), s.g);
    Extend(c, s, a1 + [ControlStep], s2, ControlStep, s3);
    var s4 := State(m1.(state := Stopping, stop := true, control := Ready), s.g);
    Extend(c, s, a1 + [ControlStep] + [ControlStep], s3, ControlStep, s4);
    var before := a1 + [ControlStep] + [ControlStep] + [ControlStep];
    var leave := LeaveEmptyQueue(c, s4);
    RunAppend(c, s, before, leave);
    actions := before + leave;
  }

  lemma LeaveEmptyQueue(c: Config, s: State) returns (actions: seq<Action>)
    requires s.m.stop && s.m.mode.Graceful? && s.m.queue == [] && s.m.approx == 0 && s.m.workers == [TryPop]
    ensures Run(c, s, actions) == Next(State(s.m.(workers := [Exited]), s.g))
    ensures forall i :: 0 <= i < |actions| ==> actions[i] == WorkStep(0)
  {
    var step := WorkStep(0);
    var s1, s2 := State(s.m.(workers := [LoadStop]), s.g), State(s.m.(workers := [LoadMode]), s.g);
    var s3, s4 := State(s.m.(workers := [LoadDepth]), s.g), State(s.m.(workers := [Exited]), s.g);
    assert [TryPop][0 := LoadStop] == [LoadStop] && [LoadStop][0 := LoadMode] == [LoadMode];
    assert [LoadMode][0 := LoadDepth] == [LoadDepth] && [LoadDepth][0 := Exited] == [Exited];
    RunOne(c, s, step);
    Extend(c, s, [step], s1, step, s2);
    Extend(c, s, [step] + [step], s2, step, s3);
    Extend(c, s, [step] + [step] + [step], s3, step, s4);
    actions := [step] + [step] + [step] + [step];
  }

  /**
    With a submitter caught between its check and its push, a graceful shutdown can lose its event: it is
    accepted after every worker has left.
  */
  lemma CaughtSubmitterLosesEvent(c: Config, s: State, event: int) returns (actions: seq<Action>)
    requires s.m.state.Live? && s.m.control.Ready? && s.m.queue == [] && s.m.approx == 0
    requires s.m.workers == [TryPop] && s.m.submitters == [Push(event)] && c.limit > 0
    ensures Run(c, s, actions).Next? && AllExited(Run(c, s, actions).s.m)
    ensures Run(c, s, actions).s.g == s.g.(accepted := s.g.accepted + [event])
    ensures Run(c, s, actions).s.m.queue == [event] && Run(c, s, actions).s.m.submitters == [Away]
    ensures forall i :: 0 <= i < |actions| && actions[i].Shutdown? ==> actions[i].mode.Graceful?
  {
    var stop := ShutdownWhileQueueEmpty(c, s);
    var s1 := Run(c, s, stop).s;
    var s2 := Step(c, s1, SubmitStep(0)).s;
    Extend(c, s, stop, s1, SubmitStep(0), s2);
    Extend(c, s, stop + [SubmitStep(0)], s2, SubmitStep(0), Step(c, s2, SubmitStep(0)).s);
    actions := stop + [SubmitStep(0)] + [SubmitStep(0)];
  }

  /** Such a run exists from the start, whatever the positive capacity. */
  lemma GracefulShutdownCanLoseAnEvent(c: Config) returns (actions: seq<Action>)
    requires c.backpressure && c.capacity > 0 && c.limit > 0
    ensures Run(c, Init(1, 1), actions).Next?
    ensures var s := Run(c, Init(1, 1), actions).s;
            AllExited(s.m) && s.m.submitters == [Away] && s.g.accepted == [0] && s.g.processed == [] && s.m.queue == [0]
  {
    var s := Init(1, 1);
    var pass := AllPassCheck(c, s, 1);
    var s1 := Run(c, s, pass).s;
    assert s1.m.submitters == [Push(0)] && s1.m.workers == [TryPop];
    var lose := CaughtSubmitterLosesEvent(c, s1, 0);
    RunAppend(c, s, pass, lose);
    actions := pass + lose;
  }
}
