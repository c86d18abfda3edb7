/** When a worker leaves, what a forced shutdown does to it, and when exactly such a shutdown loses an event. */
module ServerForce {
  import opened Sequences
  import opened Steps
  import opened ServerProtocol
  import opened ServerDrain

  // ----- The exit test and the wait, by a worker that nobody interrupts -----

  function OwnSteps(w: nat, n: nat): seq<Action> { seq(n, i => WorkStep(w)) }

  lemma OneMoreOwnStep(c: Config, s: State, w: nat, n: nat, s1: State, s2: State)
    requires Run(c, s, OwnSteps(w, n)) == Next(s1) && Step(c, s1, WorkStep(w)) == Next(s2)
    ensures Run(c, s, OwnSteps(w, n + 1)) == Next(s2)
  {
    Extend(c, s, OwnSteps(w, n), s1, WorkStep(w), s2);
    assert OwnSteps(w, n) + [WorkStep(w)] == OwnSteps(w, n + 1);
  }

  /** The state with worker `w` elsewhere. */
  function With(s: State, w: nat, pc: Worker): State
    requires w < |s.m.workers|
  {
    State(MoveWorker(s.m, w, pc), s.g)
  }

  lemma WithTwice(s: State, w: nat, pc: Worker, pc': Worker)
    requires w < |s.m.workers|
    ensures With(With(s, w, pc), w, pc') == With(s, w, pc')
    ensures With(s, w, s.m.workers[w]) == s
  {
    assert s.m.workers[w := pc][w := pc'] == s.m.workers[w := pc'];
  }

  /**
    A worker that has found the queue empty leaves, at the last of at most three steps of its own, if and only if
    the server has been stopped and either the shutdown is a forced one or the counter reads zero. Otherwise it goes on
    to wait. It changes nothing else. The counter reads zero exactly when the increments still to come match the events.
  */
  lemma ExitTestIsExact(c: Config, s: State, w: nat) returns (n: nat)
    requires w < |s.m.workers| && s.m.workers[w] == LoadStop
    ensures 1 <= n <= 3
    ensures Run(c, s, OwnSteps(w, n)) ==
              Next(With(s, w, if s.m.stop && (s.m.mode == Force || s.m.approx == 0) then Exited else WaitDepth))
    ensures forall i :: 0 <= i < n ==>
              exists s' :: Run(c, s, OwnSteps(w, i)) == Next(s') && |s'.m.workers| == |s.m.workers| &&
                           Leaving(s'.m.workers[w])
    ensures DepthOk(s.m) ==>
              (s.m.approx == 0 <==>
                 (|s.m.queue| + Count(s.m.workers, Decrementing)) % 0x1_0000_0000_0000_0000 ==
                   Count(s.m.submitters, Incrementing) % 0x1_0000_0000_0000_0000)
  {
    if DepthOk(s.m) {
      ZeroExactly(s.m);
    }
    var s1, s2 := With(s, w, LoadMode), With(s, w, LoadDepth);
    assert Run(c, s, OwnSteps(w, 0)) == Next(s);
    if !s.m.stop {
      n := 1;
      OneMoreOwnStep(c, s, w, 0, s, With(s, w, WaitDepth));
      return;
    }
    OneMoreOwnStep(c, s, w, 0, s, s1);
    if s.m.mode == Force {
      n := 2;
      WithTwice(s, w, LoadMode, Exited);
      OneMoreOwnStep(c, s, w, 1, s1, With(s, w, Exited));
      return;
    }
    n := 3;
    var last := if s.m.approx == 0 then Exited else WaitDepth;
    WithTwice(s, w, LoadMode, LoadDepth);
    WithTwice(s, w, LoadDepth, last);
    OneMoreOwnStep(c, s, w, 1, s1, s2);
    OneMoreOwnStep(c, s, w, 2, s2, With(s, w, last));
  }

  /** A sleeping worker looks at the queue again if and only if the counter is positive or the server has been stopped. */
  lemma WakeTest(c: Config, s: State, w: nat) returns (n: nat)
    requires w < |s.m.workers| && s.m.workers[w] == WaitDepth
    ensures 1 <= n <= 2
    ensures Run(c, s, OwnSteps(w, n)) == Next(if s.m.approx > 0 || s.m.stop then With(s, w, TryPop) else s)
  {
    assert Run(c, s, OwnSteps(w, 0)) == Next(s);
    if s.m.approx > 0 {
      n := 1;
      OneMoreOwnStep(c, s, w, 0, s, With(s, w, TryPop));
      return;
    }
    n := 2;
    OneMoreOwnStep(c, s, w, 0, s, With(s, w, WaitStop));
    var last := if s.m.stop then TryPop else WaitDepth;
    WithTwice(s, w, WaitStop, last);
    OneMoreOwnStep(c, s, w, 1, With(s, w, WaitStop), With(s, w, last));
  }

  /** A worker begins the exit test only on finding the queue empty, and ends it before it looks there again. */
  lemma ExitTestFollowsEmptyQueue(c: Config, s: State, a: Action, w: nat)
    requires w < |s.m.workers| && Step(c, s, a).Next?
    ensures |Step(c, s, a).s.m.workers| == |s.m.workers|
    ensures Leaving(Step(c, s, a).s.m.workers[w]) && !Leaving(s.m.workers[w]) ==>
              a == WorkStep(w) && s.m.queue == [] && Step(c, s, a).s.m.workers[w] == LoadStop
    ensures Step(c, s, a).s.m.workers[w] == Exited && s.m.workers[w] != Exited ==>
              a == WorkStep(w) && Leaving(s.m.workers[w])
    ensures s.m.workers[w] == Exited ==> Step(c, s, a).s.m.workers[w] == Exited
  {
  }

  // ----- Whole runs after a forced shutdown -----

  /** The events that worker `w` takes in a run. */
  function TakenBy(c: Config, s: State, actions: seq<Action>, w: nat): seq<int>
    decreases |actions|
  {
    if actions == [] || !Step(c, s, actions[0]).Next? then []
    else
      var s' := Step(c, s, actions[0]).s;
      (if actions[0] == WorkStep(w) && |s'.g.popped| > |s.g.popped| then s'.g.popped[|s.g.popped|..] else []) +
      TakenBy(c, s', actions[1..], w)
  }

  predicate Own(a: Action, w: nat) { a == WorkStep(w) }

  function CountOwn(actions: seq<Action>, w: nat): nat { Count(actions, a => Own(a, w)) }

  /** Where a worker is that has left after a forced shutdown, by the number of steps it has taken since. */
  function ForcedOut(n: nat): Worker
    requires n <= 2
  {
    [LoadStop, LoadMode, Exited][n]
  }

  lemma ForcedStep(c: Config, s: State, a: Action, w: nat, n: nat)
    requires s.m.stop && s.m.mode == Force && w < |s.m.workers| && n <= 2 && s.m.workers[w] == ForcedOut(n)
    requires Step(c, s, a).Next? && a != Shutdown(Graceful)
    ensures var s' := Step(c, s, a).s;
            && s'.m.stop && s'.m.mode == Force && |s'.m.workers| == |s.m.workers|
            && (a == WorkStep(w) ==> n < 2 && s'.m.workers[w] == ForcedOut(n + 1) && s'.g == s.g)
            && (a != WorkStep(w) ==> s'.m.workers[w] == ForcedOut(n))
  {
  }

  lemma {:induction false} ForcedRunFrom(c: Config, s: State, actions: seq<Action>, w: nat, n: nat)
    requires s.m.stop && s.m.mode == Force && w < |s.m.workers| && n <= 2 && s.m.workers[w] == ForcedOut(n)
    requires Shutdown(Graceful) !in actions && Run(c, s, actions).Next?
    ensures n + CountOwn(actions, w) <= 2 && |Run(c, s, actions).s.m.workers| == |s.m.workers|
    ensures Run(c, s, actions).s.m.workers[w] == ForcedOut(n + CountOwn(actions, w))
    ensures TakenBy(c, s, actions, w) == []
    decreases |actions|
  {
    if actions == [] {
    } else {
      var a := actions[0];
      ForcedStep(c, s, a, w, n);
      CountFirst(actions, a => Own(a, w));
      ForcedRunFrom(c, Step(c, s, a).s, actions[1..], w, if a == WorkStep(w) then n + 1 else n);
    }
  }

  /**
    After a forced shutdown has stored the stop flag, a worker that has found the queue empty leaves at its second step
    and takes no event, in every run of any threads, whatever they put into the queue or the counter. Only another
    call of shutdown that asks for a graceful one can change this.
  */
  lemma ForcedRunLeaves(c: Config, s: State, actions: seq<Action>, w: nat)
    requires s.m.stop && s.m.mode == Force && w < |s.m.workers| && s.m.workers[w] == LoadStop
    requires Shutdown(Graceful) !in actions && Run(c, s, actions).Next?
    ensures CountOwn(actions, w) <= 2 && |Run(c, s, actions).s.m.workers| == |s.m.workers|
    ensures Run(c, s, actions).s.m.workers[w] == [LoadStop, LoadMode, Exited][CountOwn(actions, w)]
    ensures TakenBy(c, s, actions, w) == []
  {
    ForcedRunFrom(c, s, actions, w, 0);
  }

  /** Every run takes through its workers exactly the events popped in it, and the others leave that worker's alone. */
  lemma TakenIsPopped(c: Config, s: State, a: Action)
    requires Step(c, s, a).Next?
    ensures Step(c, s, a).s.g.popped == s.g.popped ||
            (exists w :: 0 <= w < |s.m.workers| && a == WorkStep(w) && s.m.queue != [] &&
               Step(c, s, a).s.g.popped == s.g.popped + [s.m.queue[0]] && Step(c, s, a).s.m.queue == s.m.queue[1..] &&
               TakenBy(c, s, [a], w) == [s.m.queue[0]])
  {
    if Step(c, s, a).s.g.popped != s.g.popped {
      assert [a][1..] == [];
      assert TakenBy(c, Step(c, s, a).s, [], a.w) == [];
    }
  }

  // ----- Stopped means joined -----

  /** `shutdown` and `wait` within one start: who has seen what. */
  ghost predicate PhasesOk(m: Memory) {
    && (m.stop || m.control.StoreStop? ==> !m.state.Live?)
    && (m.state.Stopped? ==> AllExited(m))
    && (forall w :: 0 <= w < |m.workers| && (m.workers[w].LoadMode? || m.workers[w].LoadDepth? || m.workers[w].Exited?) ==>
          m.stop)
  }

  lemma StepKeepsPhases(c: Config, s: State, a: Action)
    requires PhasesOk(s.m) && Step(c, s, a).Next? && s.m.workers != []
    ensures PhasesOk(Step(c, s, a).s.m) && Step(c, s, a).s.m.workers != []
  {
    assert a.Wait? ==> s.m.workers[0] == Exited;
  }

  /**
    In every run from the start: a worker leaves only after the stop flag has been stored, which happens only once
    nothing is accepted any more; and a server marked as stopped has no worker left.
  */
  lemma {:induction false} RunKeepsPhases(c: Config, s: State, actions: seq<Action>)
    requires PhasesOk(s.m) && s.m.workers != [] && Run(c, s, actions).Next?
    ensures PhasesOk(Run(c, s, actions).s.m) && Run(c, s, actions).s.m.workers != []
    decreases |actions|
  {
    if actions == [] {
    } else {
      StepKeepsPhases(c, s, actions[0]);
      RunKeepsPhases(c, Step(c, s, actions[0]).s, actions[1..]);
    }
  }

  lemma InitSatisfiesPhases(submitters: nat, workers: nat)
    requires workers > 0
    ensures PhasesOk(Init(submitters, workers).m)
  {
  }

  // ----- When a forced shutdown loses an event -----

  /** Every worker has found the queue empty, and there is something in it by now. */
  predicate LeftBehind(m: Memory) {
    m.queue != [] && forall w :: 0 <= w < |m.workers| ==> m.workers[w].LoadStop?
  }

  /** Some worker still looks at the queue before it can leave. */
  ghost predicate ForceSafe(c: Config, m: Memory) {
    && !m.state.Live? && m.workers != [] && !AnyCaught(c, m)
    && (m.queue == [] || exists w :: 0 <= w < |m.workers| && Looking(m.workers[w]))
  }

  lemma SubmitterKeepsForceSafe(c: Config, m: Memory, k: nat)
    requires ForceSafe(c, m) && k < |m.submitters| && SubmitterStep(c, m, k).Next?
    ensures ForceSafe(c, SubmitterStep(c, m, k).s)
  {
    var m' := SubmitterStep(c, m, k).s;
    assert !Caught(c, m.submitters[k]);
    forall j | 0 <= j < |m'.submitters| ensures !Caught(c, m'.submitters[j]) {
      assert !Caught(c, m.submitters[j]);
    }
  }

  lemma SubmitKeepsForceSafe(c: Config, m: Memory, k: nat, event: int)
    requires ForceSafe(c, m) && k < |m.submitters| && m.submitters[k].Away?
    ensures ForceSafe(c, MoveSubmitter(m, k, CheckState(event)))
  {
    var m' := MoveSubmitter(m, k, CheckState(event));
    forall j | 0 <= j < |m'.submitters| ensures !Caught(c, m'.submitters[j]) {
      assert !Caught(c, m.submitters[j]);
    }
  }

  lemma WorkerKeepsForceSafe(c: Config, m: Memory, w: nat)
    requires ForceSafe(c, m) && w < |m.workers| && WorkerStep(m, w).Next?
    ensures ForceSafe(c, WorkerStep(m, w).s)
  {
    var m' := WorkerStep(m, w).s;
    if m.queue != [] {
      var v :| 0 <= v < |m.workers| && Looking(m.workers[v]);
      assert m'.queue == [] || Looking(m'.workers[v]);
    }
    forall j | 0 <= j < |m'.submitters| ensures !Caught(c, m'.submitters[j]) {
      assert !Caught(c, m.submitters[j]);
    }
  }

  lemma StepKeepsForceSafe(c: Config, s: State, a: Action)
    requires ForceSafe(c, s.m) && Step(c, s, a).Next?
    ensures ForceSafe(c, Step(c, s, a).s.m)
  {
    if a.SubmitStep? {
      SubmitterKeepsForceSafe(c, s.m, a.k);
    } else if a.WorkStep? {
      WorkerKeepsForceSafe(c, s.m, a.w);
    } else if a.Submit? {
      SubmitKeepsForceSafe(c, s.m, a.k, a.event);
    }
  }

  /** From there no run loses an event, whatever mode is asked for. */
  lemma {:induction false} ForceSafeRunLosesNothing(c: Config, s: State, actions: seq<Action>)
    requires ForceSafe(c, s.m) && DepthOk(s.m) && FlowOk(s) && Run(c, s, actions).Next?
    ensures !Lost(Run(c, s, actions).s)
    decreases |actions|
  {
    if actions == [] {
      if AllExited(s.m) {
        assert s.m.workers[0] == Exited;
        NothingInHand(s.m.workers);
        assert s.g.popped + [] == s.g.popped;
      }
    } else {
      StepKeepsForceSafe(c, s, actions[0]);
      StepKeepsDepth(c, s, actions[0]);
      StepKeepsFlow(c, s, actions[0]);
      ForceSafeRunLosesNothing(c, Step(c, s, actions[0]).s, actions[1..]);
    }
  }

  /** How far a worker is from leaving a forced server, apart from the events still queued. */
  function ForcedRemaining(pc: Worker): nat {
    match pc
    case Exited => 0
    case LoadMode => 1
    case LoadStop => 2
    case TryPop => 3
    case WaitStop => 4
    case WaitDepth => 5
    case LoadDepth => 6
    case Process(_) => 7
    case Decrement(_) => 8
  }

  /** A worker, left alone, leaves; it empties the queue if it still looks there. */
  lemma {:induction false} ForcedWorkerLeaves(c: Config, s: State, w: nat) returns (s': State)
    requires s.m.stop && s.m.mode == Force && w < |s.m.workers|
    ensures Reaches(c, Force, s, s') && |s'.m.queue| <= |s.m.queue|
    ensures s.m.workers[w].LoadStop? || s.m.workers[w].LoadMode? || s.m.workers[w].Exited? ==> s'.m.queue == s.m.queue
    ensures s'.m == s.m.(workers := s.m.workers[w := Exited], queue := s'.m.queue, approx := s'.m.approx)
    decreases 10 * |s.m.queue| + ForcedRemaining(s.m.workers[w])
  {
    ReachesSelf(c, Force, s);
    if s.m.workers[w] == Exited {
      s' := s;
      assert s.m.workers[w := Exited] == s.m.workers;
    } else {
      var s1 := Step(c, s, WorkStep(w)).s;
      ReachesByStep(c, Force, s, s, WorkStep(w), s1);
      s' := ForcedWorkerLeaves(c, s1, w);
      ReachesOn(c, Force, s, s1, s');
      assert s1.m.workers[w := Exited] == s.m.workers[w := Exited];
    }
  }

  /** The first `n` workers leave, one after the other. */
  lemma {:induction false} ForcedWorkersLeave(c: Config, s: State, n: nat) returns (s': State)
    requires s.m.stop && s.m.mode == Force && n <= |s.m.workers|
    ensures Reaches(c, Force, s, s') && |s'.m.workers| == |s.m.workers| && |s'.m.queue| <= |s.m.queue|
    ensures forall v :: 0 <= v < |s.m.workers| ==> s'.m.workers[v] == if v < n then Exited else s.m.workers[v]
    ensures (forall v :: 0 <= v < |s.m.workers| ==> s.m.workers[v].LoadStop?) ==> s'.m.queue == s.m.queue
    ensures s'.m == s.m.(workers := s'.m.workers, queue := s'.m.queue, approx := s'.m.approx)
  {
    if n == 0 {
      ReachesSelf(c, Force, s);
      s' := s;
    } else {
      var s1 := ForcedWorkersLeave(c, s, n - 1);
      s' := ForcedWorkerLeaves(c, s1, n - 1);
      ReachesOn(c, Force, s, s1, s');
    }
  }

  /** A forced `shutdown` has stored the state, and is about to store the stop flag. */
  ghost predicate ForceStored(c: Config, s: State) {
    && !s.m.state.Live? && s.m.mode == Force && s.m.control.StoreStop? && s.m.workers != []
    && DepthOk(s.m) && FlowOk(s) && |s.m.queue| + |s.m.submitters| <= c.limit
  }

  lemma EmptyCountsZero(m: Memory)
    requires DepthOk(m) && AllExited(m) && m.queue == []
    requires forall k :: 0 <= k < |m.submitters| ==> !m.submitters[k].Increment?
    ensures m.approx == 0
  {
    CountExtremes(m.submitters, Incrementing);
    CountExtremes(m.workers, Decrementing);
  }

  /** All submitters but `k` return, and all workers leave. */
  lemma OthersAreGone(c: Config, s: State, k: nat) returns (s3: State)
    requires ForceStored(c, s) && k < |s.m.submitters| && !s.m.submitters[k].Increment?
    ensures Reaches(c, Force, s, s3) && DepthOk(s3.m) && AllExited(s3.m) && !s3.m.state.Live? && |s3.m.queue| < c.limit
    ensures |s3.m.submitters| == |s.m.submitters|
    ensures forall i :: 0 <= i < |s.m.submitters| ==> s3.m.submitters[i] == if i == k then s.m.submitters[k] else Away
  {
    var s1 := OthersReturn(c, Force, s, k, |s.m.submitters|);
    var s2 := StoresStop(c, Force, s, s1);
    s3 := ForcedWorkersLeave(c, s2, |s2.m.workers|);
    ReachesOn(c, Force, s, s2, s3);
    ReachedCounts(c, Force, s, s3);
  }

  /** The first way: everybody else finishes, all workers leave, and then the caught submitter pushes. */
  lemma ForcedCaughtLoses(c: Config, s: State, k: nat) returns (end: State)
    requires ForceStored(c, s) && k < |s.m.submitters| && Caught(c, s.m.submitters[k])
    ensures Reaches(c, Force, s, end) && Lost(end)
  {
    var s3 := OthersAreGone(c, s, k);
    if s3.m.queue == [] {
      EmptyCountsZero(s3.m);
    }
    end := SubmitterReturns(c, Force, s3, k);
    ReachesOn(c, Force, s, s3, end);
    ReachedCounts(c, Force, s, end);
    QueuedIsLost(end);
  }

  /** The second way: the workers leave without another look at the queue. */
  lemma LeftBehindLoses(c: Config, s: State) returns (end: State)
    requires ForceStored(c, s) && LeftBehind(s.m)
    ensures Reaches(c, Force, s, end) && Lost(end)
  {
    ReachesSelf(c, Force, s);
    var s1 := StoresStop(c, Force, s, s);
    var s2 := ForcedWorkersLeave(c, s1, |s1.m.workers|);
    ReachesOn(c, Force, s, s1, s2);
    var n := |s2.m.submitters|;
    end := OthersReturn(c, Force, s2, n, n);
    ReachesOn(c, Force, s, s2, end);
    ReachedCounts(c, Force, s, end);
    QueuedIsLost(end);
  }

  lemma NotLeftBehindIsSafe(c: Config, m: Memory)
    requires PhasesOk(m) && m.state.Live? && m.workers != [] && !AnyCaught(c, m) && !LeftBehind(m)
    ensures ForceSafe(c, m.(state := Stopping, control := StoreStop))
  {
    if m.queue != [] {
      var w :| 0 <= w < |m.workers| && !m.workers[w].LoadStop?;
      assert Looking(m.workers[w]);
    }
  }

  /**
    A forced shutdown that is about to stop the server from accepting, as the destructor's is, can lose an accepted
    event if and only if a submitter is caught before its push, or every worker has just found the queue empty and
    something has been pushed since. It does not throw away what the workers can still see.
  */
  lemma ForcedLossExactly(c: Config, s: State)
    requires DepthOk(s.m) && FlowOk(s) && PhasesOk(s.m) && s.m.workers != []
    requires s.m.state.Live? && s.m.mode == Force && s.m.control.StoreState? && |s.m.queue| + |s.m.submitters| <= c.limit
    ensures Step(c, s, ControlStep).Next?
    ensures (exists end :: Reaches(c, Force, Step(c, s, ControlStep).s, end) && Lost(end)) <==>
            AnyCaught(c, s.m) || LeftBehind(s.m)
  {
    var s' := Step(c, s, ControlStep).s;
    if AnyCaught(c, s.m) {
      var k :| 0 <= k < |s.m.submitters| && Caught(c, s.m.submitters[k]);
      var end := ForcedCaughtLoses(c, s', k);
    } else if LeftBehind(s.m) {
      var end := LeftBehindLoses(c, s');
    } else {
      NotLeftBehindIsSafe(c, s.m);
      forall end | Reaches(c, Force, s', end) ensures !Lost(end) {
        var actions: seq<Action> :| Asking(Force, actions) && Run(c, s', actions) == Next(end);
        ForceSafeRunLosesNothing(c, s', actions);
      }
    }
  }

  /** `shutdown` up to the store that stops the server from accepting. */
  function StateStore(mode: ShutdownMode): seq<Action> { [Shutdown(mode)] + [ControlStep] + [ControlStep] }

  function Closed(s: State, mode: ShutdownMode): State {
    State(s.m.(mode := mode, state := Stopping, control := StoreStop), s.g)
  }

  lemma StateStoreCloses(c: Config, s: State, mode: ShutdownMode)
    requires s.m.state.Live? && s.m.control.Ready?
    ensures Run(c, s, StateStore(mode)) == Next(Closed(s, mode))
  {
    RunThree(c, s, Shutdown(mode), ControlStep, ControlStep);
  }

  /** A pushed and counted event, with the worker just behind its look at the queue. */
  lemma CountedBehindWorker(c: Config) returns (s: State)
    requires c.backpressure && c.capacity > 0 && c.limit > 0
    ensures Reaches(c, Graceful, Init(1, 1), s) && ServerInv(c, s)
    ensures s == State(Memory(Live, Graceful, false, 1, [0], [Away], [LoadStop], Ready), Trail([0], [], []))
  {
    var s1 := PushedBehindWorkerIsReached(c);
    s := Step(c, s1, SubmitStep(0)).s;
    ReachesByStep(c, Graceful, Init(1, 1), s1, SubmitStep(0), s);
    InitSatisfiesInv(c, 1, 1);
    ReachedCounts(c, Graceful, Init(1, 1), s);
  }

  lemma DifferentEnds(c: Config, s: State)
    requires ServerInv(c, s) && 2 <= c.limit && c.limit + 1 < RANGE
    requires s.m == Memory(Live, Graceful, false, 1, [0], [Away], [LoadStop], Ready)
    ensures forall end :: Reaches(c, Graceful, Closed(s, Graceful), end) ==> !Lost(end)
    ensures exists end :: Reaches(c, Force, Closed(s, Force), end) && Lost(end)
  {
    hide Reaches, Lost;
    CountExtremes(s.m.submitters, Incrementing);
    LossExactly(c, s.(m := s.m.(control := StoreState)));
    ForcedLossExactly(c, s.(m := s.m.(mode := Force, control := StoreState)));
  }

  /**
    The mode makes the difference: a run from the start leads to an event in the queue, counted and its submitter told
    that it was accepted, which no run of a graceful shutdown loses, while some run of a forced one does.
  */
  lemma ForceMakesTheDifference(c: Config) returns (s: State)
    requires c.backpressure && c.capacity > 0 && 2 <= c.limit && c.limit + 1 < RANGE
    ensures Reaches(c, Graceful, Init(1, 1), s)
    ensures s.m.queue == [0] && s.m.approx == 1 && s.m.submitters == [Away] && s.g.accepted == [0]
    ensures forall mode :: Run(c, s, StateStore(mode)) == Next(Closed(s, mode))
    ensures forall end :: Reaches(c, Graceful, Closed(s, Graceful), end) ==> !Lost(end)
    ensures exists end :: Reaches(c, Force, Closed(s, Force), end) && Lost(end)
  {
    s := CountedBehindWorker(c);
    forall mode ensures Run(c, s, StateStore(mode)) == Next(Closed(s, mode)) {
      StateStoreCloses(c, s, mode);
    }
    DifferentEnds(c, s);
  }
}
