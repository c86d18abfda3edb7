/** When exactly a graceful shutdown of the server can lose an event that it has accepted. */
module ServerDrain {
  import opened Sequences
  import opened Steps
  import opened ServerProtocol

  /** Nobody asks for a shutdown in another mode. */
  predicate Asking(mode: ShutdownMode, actions: seq<Action>) {
    forall i :: 0 <= i < |actions| && actions[i].Shutdown? ==> actions[i].mode == mode
  }

  ghost predicate Reaches(c: Config, mode: ShutdownMode, s: State, s': State) {
    exists actions: seq<Action> :: Asking(mode, actions) && Run(c, s, actions) == Next(s')
  }

  predicate AllAway(m: Memory) { forall k :: 0 <= k < |m.submitters| ==> m.submitters[k].Away? }

  /** Everybody has left, and what was accepted is not what was processed. */
  predicate Lost(s: State) {
    AllExited(s.m) && AllAway(s.m) && multiset(s.g.processed) != multiset(s.g.accepted)
  }

  /** Nothing can keep the submitter from pushing, once the queue has been emptied. */
  predicate Caught(c: Config, pc: Submitter) { pc.Push? || (pc.CheckDepth? && c.capacity > 0) }

  predicate AnyCaught(c: Config, m: Memory) {
    exists k :: 0 <= k < |m.submitters| && Caught(c, m.submitters[k])
  }

  /** Every worker has just found the queue empty, and the counter may come to read zero before they look at it. */
  predicate Overlooked(m: Memory) {
    && (forall w :: 0 <= w < |m.workers| ==> m.workers[w].LoadStop?)
    && 0 < |m.queue| <= Count(m.submitters, Incrementing)
  }

  predicate Exposed(c: Config, m: Memory) { AnyCaught(c, m) || Overlooked(m) }

  // ----- A server that is not exposed loses nothing -----

  /** The worker cannot leave before it has found the queue empty. */
  predicate Looking(pc: Worker) {
    pc.TryPop? || pc.Decrement? || pc.Process? || pc.WaitDepth? || pc.WaitStop?
  }

  predicate Leaving(pc: Worker) { pc.LoadStop? || pc.LoadMode? || pc.LoadDepth? }

  /** What is in the queue will be popped. */
  predicate Attended(m: Memory) {
    || m.queue == []
    || (exists w :: 0 <= w < |m.workers| && Looking(m.workers[w]))
    || ((forall w :: 0 <= w < |m.workers| ==> Leaving(m.workers[w])) && |m.queue| > Count(m.submitters, Incrementing))
  }

  predicate Safe(c: Config, m: Memory) {
    !m.state.Live? && m.mode.Graceful? && m.workers != [] && |m.queue| < RANGE && !AnyCaught(c, m) && Attended(m)
  }

  lemma SubmitterKeepsSafe(c: Config, m: Memory, k: nat)
    requires Safe(c, m) && k < |m.submitters| && SubmitterStep(c, m, k).Next?
    ensures Safe(c, SubmitterStep(c, m, k).s)
  {
    var m' := SubmitterStep(c, m, k).s;
    assert !Caught(c, m.submitters[k]);
    CountUpdate(m.submitters, k, m'.submitters[k], Incrementing);
    forall j | 0 <= j < |m'.submitters| ensures !Caught(c, m'.submitters[j]) {
      assert !Caught(c, m.submitters[j]);
    }
  }

  /** The counter is not zero while all are leaving an attended queue. */
  lemma AttendedIsSeen(m: Memory)
    requires DepthOk(m) && |m.queue| < RANGE && |m.queue| > Count(m.submitters, Incrementing)
    requires forall w :: 0 <= w < |m.workers| ==> Leaving(m.workers[w])
    ensures m.approx != 0
  {
    CountExtremes(m.workers, Decrementing);
    assert 0 < TrueDepth(m) < RANGE;
  }

  lemma LeaverKeepsAttended(m: Memory, w: nat)
    requires DepthOk(m) && Attended(m) && |m.queue| < RANGE && m.mode.Graceful?
    requires w < |m.workers| && Leaving(m.workers[w]) && WorkerStep(m, w).Next?
    ensures Attended(WorkerStep(m, w).s)
  {
    var m' := WorkerStep(m, w).s;
    if m.queue != [] {
      if forall v :: 0 <= v < |m.workers| ==> Leaving(m.workers[v]) {
        AttendedIsSeen(m);
        assert Leaving(m'.workers[w]) || Looking(m'.workers[w]);
      } else {
        var v :| 0 <= v < |m.workers| && Looking(m.workers[v]);
        assert m'.workers[v] == m.workers[v];
      }
    }
  }

  lemma LookerKeepsAttended(m: Memory, w: nat)
    requires Attended(m) && w < |m.workers| && Looking(m.workers[w]) && WorkerStep(m, w).Next?
    ensures Attended(WorkerStep(m, w).s)
  {
    var m' := WorkerStep(m, w).s;
    assert m.queue != [] ==> Looking(m'.workers[w]);
  }

  lemma StepKeepsSafe(c: Config, s: State, a: Action)
    requires Safe(c, s.m) && DepthOk(s.m) && Step(c, s, a).Next? && (a.Shutdown? ==> a.mode.Graceful?)
    ensures Safe(c, Step(c, s, a).s.m)
  {
    var m, m' := s.m, Step(c, s, a).s.m;
    if a.SubmitStep? {
      SubmitterKeepsSafe(c, m, a.k);
    } else if a.WorkStep? {
      if Looking(m.workers[a.w]) {
        LookerKeepsAttended(m, a.w);
      } else {
        LeaverKeepsAttended(m, a.w);
      }
    } else if a.Submit? {
      SubmitKeepsSafe(c, m, a.k, a.event);
    }
  }

  lemma SubmitKeepsSafe(c: Config, m: Memory, k: nat, event: int)
    requires Safe(c, m) && k < |m.submitters| && m.submitters[k].Away?
    ensures Safe(c, MoveSubmitter(m, k, CheckState(event)))
  {
    var m' := MoveSubmitter(m, k, CheckState(event));
    CountUpdate(m.submitters, k, CheckState(event), Incrementing);
    forall j | 0 <= j < |m'.submitters| ensures !Caught(c, m'.submitters[j]) {
      assert !Caught(c, m.submitters[j]);
    }
  }

  lemma {:induction false} SafeRunLosesNothing(c: Config, s: State, actions: seq<Action>)
    requires Safe(c, s.m) && DepthOk(s.m) && FlowOk(s) && Asking(Graceful, actions) && Run(c, s, actions).Next?
    ensures !Lost(Run(c, s, actions).s)
    decreases |actions|
  {
    if actions == [] {
      if AllExited(s.m) {
        assert s.m.workers[0] == Exited;
        NothingInHand(s.m.workers);
        assert s.g.popped + [] == s.g.popped;
      }
    } else {
      assert actions[0].Shutdown? ==> actions[0].mode.Graceful?;
      StepKeepsSafe(c, s, actions[0]);
      StepKeepsDepth(c, s, actions[0]);
      StepKeepsFlow(c, s, actions[0]);
      forall i | 0 <= i < |actions[1..]| && actions[1..][i].Shutdown? ensures actions[1..][i].mode.Graceful? {
        assert actions[1..][i] == actions[i + 1];
      }
      SafeRunLosesNothing(c, Step(c, s, actions[0]).s, actions[1..]);
    }
  }

  // ----- An exposed server can lose an event -----

  lemma ReachesSelf(c: Config, mode: ShutdownMode, s: State)
    ensures Reaches(c, mode, s, s)
  {
    assert Asking(mode, []) && Run(c, s, []) == Next(s);
  }

  lemma ReachesByStep(c: Config, mode: ShutdownMode, s: State, s1: State, a: Action, s2: State)
    requires Reaches(c, mode, s, s1) && Step(c, s1, a) == Next(s2) && (a.Shutdown? ==> a.mode == mode)
    ensures Reaches(c, mode, s, s2)
  {
    var xs: seq<Action> :| Asking(mode, xs) && Run(c, s, xs) == Next(s1);
    Extend(c, s, xs, s1, a, s2);
    assert Asking(mode, xs + [a]);
  }

  lemma ReachesOn(c: Config, mode: ShutdownMode, s: State, s1: State, s2: State)
    requires Reaches(c, mode, s, s1) && Reaches(c, mode, s1, s2)
    ensures Reaches(c, mode, s, s2)
  {
    var xs: seq<Action> :| Asking(mode, xs) && Run(c, s, xs) == Next(s1);
    var ys: seq<Action> :| Asking(mode, ys) && Run(c, s1, ys) == Next(s2);
    RunAppend(c, s, xs, ys);
    assert Asking(mode, xs + ys);
  }

  /** The event that submitter `pc` goes on to push, left alone on a stopped server. */
  function Coming(c: Config, m: Memory, pc: Submitter): seq<int> {
    if pc.Push? || (pc.CheckDepth? && m.approx < c.capacity) then [pc.event] else []
  }

  function StepsToReturn(pc: Submitter): nat {
    match pc
    case Away => 0
    case Increment => 1
    case Push(_) => 2
    case CheckDepth(_) => 3
    case CheckState(_) => 4
  }

  /** A submitter, left alone on a stopped server, returns. */
  lemma {:induction false} SubmitterReturns(c: Config, mode: ShutdownMode, s: State, k: nat) returns (s': State)
    requires !s.m.state.Live? && k < |s.m.submitters| && |s.m.queue| < c.limit
    ensures Reaches(c, mode, s, s')
    ensures s'.m.submitters == s.m.submitters[k := Away] && s'.m.queue == s.m.queue + Coming(c, s.m, s.m.submitters[k])
    ensures s'.m == s.m.(submitters := s'.m.submitters, queue := s'.m.queue, approx := s'.m.approx)
    decreases StepsToReturn(s.m.submitters[k])
  {
    ReachesSelf(c, mode, s);
    if s.m.submitters[k].Away? {
      s' := s;
      assert s.m.submitters[k := Away] == s.m.submitters;
    } else if s.m.submitters[k].Push? {
      var s1 := Step(c, s, SubmitStep(k)).s;
      ReachesByStep(c, mode, s, s, SubmitStep(k), s1);
      s' := Step(c, s1, SubmitStep(k)).s;
      ReachesByStep(c, mode, s, s1, SubmitStep(k), s');
    } else {
      var s1 := Step(c, s, SubmitStep(k)).s;
      ReachesByStep(c, mode, s, s, SubmitStep(k), s1);
      s' := SubmitterReturns(c, mode, s1, k);
      ReachesOn(c, mode, s, s1, s');
    }
  }

  /** The first `n` submitters return, but for submitter `k`. */
  lemma {:induction false} OthersReturn(c: Config, mode: ShutdownMode, s: State, k: nat, n: nat) returns (s': State)
    requires !s.m.state.Live? && n <= |s.m.submitters| && |s.m.queue| + n <= c.limit
    ensures Reaches(c, mode, s, s') && |s'.m.submitters| == |s.m.submitters|
    ensures forall i :: 0 <= i < |s.m.submitters| ==>
              s'.m.submitters[i] == if i < n && i != k then Away else s.m.submitters[i]
    ensures s.m.queue <= s'.m.queue && |s'.m.queue| <= |s.m.queue| + if k < n then n - 1 else n
    ensures s'.m == s.m.(submitters := s'.m.submitters, queue := s'.m.queue, approx := s'.m.approx)
  {
    if n == 0 {
      ReachesSelf(c, mode, s);
      s' := s;
    } else {
      var s1 := OthersReturn(c, mode, s, k, n - 1);
      if n - 1 == k {
        s' := s1;
      } else {
        s' := SubmitterReturns(c, mode, s1, n - 1);
        ReachesOn(c, mode, s, s1, s');
      }
    }
  }

  /** The first `n` workers have counted down the events that they have popped. */
  lemma {:induction false} CountDowns(c: Config, s: State, n: nat) returns (s': State)
    requires n <= |s.m.workers|
    ensures Reaches(c, Graceful, s, s') && |s'.m.workers| == |s.m.workers|
    ensures forall w :: 0 <= w < n ==> !s'.m.workers[w].Decrement?
    ensures forall w :: 0 <= w < |s.m.workers| && !s.m.workers[w].Decrement? ==> s'.m.workers[w] == s.m.workers[w]
    ensures forall w :: 0 <= w < |s.m.workers| && s.m.workers[w].Decrement? ==> s'.m.workers[w] != Exited
    ensures s'.m == s.m.(workers := s'.m.workers, approx := s'.m.approx)
  {
    if n == 0 {
      ReachesSelf(c, Graceful, s);
      s' := s;
    } else {
      var s1 := CountDowns(c, s, n - 1);
      s' := s1;
      if s1.m.workers[n - 1].Decrement? {
        s' := Step(c, s1, WorkStep(n - 1)).s;
        ReachesByStep(c, Graceful, s, s1, WorkStep(n - 1), s');
      }
    }
  }

  /** Nobody but perhaps worker `w` is between two accesses to the counter, and shutdown is under way. */
  ghost predicate Alone(m: Memory, w: nat) {
    && m.stop && m.mode.Graceful? && DepthOk(m) && |m.queue| + 1 < RANGE
    && Count(m.submitters, Incrementing) == 0
    && forall v :: 0 <= v < |m.workers| && v != w ==> !m.workers[v].Decrement?
  }

  /** How far a worker is from leaving, apart from the events still queued. */
  function Remaining(pc: Worker, queueEmpty: bool): nat {
    match pc
    case Exited => 0
    case LoadDepth => if queueEmpty then 1 else 7
    case LoadMode => if queueEmpty then 2 else 8
    case LoadStop => if queueEmpty then 3 else 9
    case TryPop => 4
    case WaitStop => 5
    case WaitDepth => 6
    case Process(_) => 10
    case Decrement(_) => 11
  }

  lemma {:induction false} CountOnly(ws: seq<Worker>, w: nat)
    requires w < |ws| && forall v :: 0 <= v < |ws| && v != w ==> !ws[v].Decrement?
    ensures Count(ws, Decrementing) == if ws[w].Decrement? then 1 else 0
    decreases |ws|
  {
    var front, last := ws[..|ws| - 1], |ws| - 1;
    if w == last {
      CountExtremes(front, Decrementing);
    } else {
      CountOnly(front, w);
    }
  }

  /** Then the counter is the queue's length, but for worker `w`'s event. */
  lemma AloneCounts(m: Memory, w: nat)
    requires Alone(m, w) && w < |m.workers|
    ensures m.approx == |m.queue| + if m.workers[w].Decrement? then 1 else 0
  {
    CountOnly(m.workers, w);
  }

  lemma AloneStep(c: Config, s: State, w: nat) returns (s': State)
    requires Alone(s.m, w) && w < |s.m.workers| && s.m.workers[w] != Exited
    ensures Step(c, s, WorkStep(w)) == Next(s') && Alone(s'.m, w)
    ensures s'.m == s.m.(workers := s.m.workers[w := s'.m.workers[w]], queue := s'.m.queue, approx := s'.m.approx)
    ensures |s'.m.workers| == |s.m.workers|
    ensures 20 * |s'.m.queue| + Remaining(s'.m.workers[w], s'.m.queue == []) <
              20 * |s.m.queue| + Remaining(s.m.workers[w], s.m.queue == [])
    ensures s'.m.workers[w] == Exited ==> s'.m.queue == []
  {
    AloneCounts(s.m, w);
    s' := Step(c, s, WorkStep(w)).s;
    StepKeepsDepth(c, s, WorkStep(w));
  }

  /** A worker, left alone, empties the queue and leaves. */
  lemma {:induction false} WorkerLeaves(c: Config, s: State, w: nat) returns (s': State)
    requires Alone(s.m, w) && w < |s.m.workers| && (s.m.workers[w] == Exited ==> s.m.queue == [])
    ensures Reaches(c, Graceful, s, s') && Alone(s'.m, w) && s'.m.queue == []
    ensures s'.m == s.m.(workers := s.m.workers[w := Exited], queue := [], approx := s'.m.approx)
    decreases 20 * |s.m.queue| + Remaining(s.m.workers[w], s.m.queue == [])
  {
    ReachesSelf(c, Graceful, s);
    if s.m.workers[w] == Exited {
      s' := s;
      assert s.m.workers[w := Exited] == s.m.workers;
    } else {
      var s1 := AloneStep(c, s, w);
      ReachesByStep(c, Graceful, s, s, WorkStep(w), s1);
      s' := WorkerLeaves(c, s1, w);
      ReachesOn(c, Graceful, s, s1, s');
      assert s1.m.workers[w := Exited] == s.m.workers[w := Exited];
    }
  }

  /** The first `n` workers leave, one after the other. */
  lemma {:induction false} WorkersLeave(c: Config, s: State, n: nat) returns (s': State)
    requires 0 < n <= |s.m.workers| && Alone(s.m, 0) && forall v :: 0 <= v < |s.m.workers| ==> !Decrementing(s.m.workers[v])
    requires !AnyExited(s.m)
    ensures Reaches(c, Graceful, s, s') && Alone(s'.m, 0) && s'.m.queue == []
    ensures |s'.m.workers| == |s.m.workers|
    ensures forall v :: 0 <= v < |s.m.workers| ==> s'.m.workers[v] == if v < n then Exited else s.m.workers[v]
    ensures s'.m == s.m.(workers := s'.m.workers, queue := [], approx := s'.m.approx)
  {
    if n == 1 {
      s' := WorkerLeaves(c, s, 0);
    } else {
      var s1 := WorkersLeave(c, s, n - 1);
      s' := WorkerLeaves(c, s1, n - 1);
      ReachesOn(c, Graceful, s, s1, s');
    }
  }

  predicate AnyExited(m: Memory) { exists w :: 0 <= w < |m.workers| && m.workers[w] == Exited }

  // ----- Both ways of losing an event -----

  /** `shutdown` has stored the state, and is about to store the stop flag; nobody can have left. */
  ghost predicate StateStored(c: Config, m: Memory) {
    && m.state == Stopping && m.mode.Graceful? && m.control.StoreStop? && m.workers != []
    && !AnyExited(m) && DepthOk(m) && |m.queue| + |m.submitters| <= c.limit && c.limit + |m.workers| < RANGE
  }

  lemma StoresStop(c: Config, mode: ShutdownMode, s: State, s1: State) returns (s2: State)
    requires Reaches(c, mode, s, s1) && s1.m.control.StoreStop?
    ensures Reaches(c, mode, s, s2) && s2 == State(s1.m.(stop := true, control := Ready), s1.g)
  {
    s2 := Step(c, s1, ControlStep).s;
    ReachesByStep(c, mode, s, s1, ControlStep, s2);
  }

  /** What is reached satisfies what every step keeps. */
  lemma {:induction false} RunKeepsCounts(c: Config, s: State, actions: seq<Action>)
    requires DepthOk(s.m) && FlowOk(s) && Run(c, s, actions).Next?
    ensures DepthOk(Run(c, s, actions).s.m) && FlowOk(Run(c, s, actions).s)
    decreases |actions|
  {
    if actions == [] {
    } else {
      StepKeepsDepth(c, s, actions[0]);
      StepKeepsFlow(c, s, actions[0]);
      RunKeepsCounts(c, Step(c, s, actions[0]).s, actions[1..]);
    }
  }

  lemma ReachedCounts(c: Config, mode: ShutdownMode, s: State, s': State)
    requires DepthOk(s.m) && FlowOk(s) && Reaches(c, mode, s, s')
    ensures DepthOk(s'.m) && FlowOk(s')
  {
    var actions: seq<Action> :| Asking(mode, actions) && Run(c, s, actions) == Next(s');
    RunKeepsCounts(c, s, actions);
  }

  /** Everybody is gone, and there is an event in the queue. */
  lemma QueuedIsLost(s: State)
    requires FlowOk(s) && AllExited(s.m) && AllAway(s.m) && s.m.queue != []
    ensures Lost(s)
  {
    NothingInHand(s.m.workers);
    assert |multiset(s.g.accepted)| == |s.g.popped| + |s.m.queue|;
    assert |multiset(s.g.processed)| == |multiset(s.g.popped)| == |s.g.popped|;
  }

  /** All submitters but `k` return, `shutdown` finishes, and the events popped are counted down. */
  lemma OthersFinish(c: Config, s: State, k: nat) returns (s': State)
    requires StateStored(c, s.m) && FlowOk(s) && k < |s.m.submitters| && Caught(c, s.m.submitters[k])
    ensures Reaches(c, Graceful, s, s') && Alone(s'.m, 0) && !AnyExited(s'.m) && s'.m.workers != []
    ensures forall w :: 0 <= w < |s'.m.workers| ==> !Decrementing(s'.m.workers[w])
    ensures |s'.m.submitters| == |s.m.submitters| && !s'.m.state.Live?
    ensures forall i :: 0 <= i < |s.m.submitters| ==> s'.m.submitters[i] == if i == k then s.m.submitters[k] else Away
  {
    var s1 := OthersReturn(c, Graceful, s, k, |s.m.submitters|);
    var s2 := StoresStop(c, Graceful, s, s1);
    s' := CountDowns(c, s2, |s.m.workers|);
    ReachesOn(c, Graceful, s, s2, s');
    ReachedCounts(c, Graceful, s, s');
    CountExtremes(s'.m.submitters, Incrementing);
    forall w | 0 <= w < |s'.m.workers| ensures s'.m.workers[w] != Exited {
      assert s.m.workers[w] != Exited;
    }
  }

  /** The first way: everybody else finishes, all workers leave, and then the caught submitter pushes. */
  lemma CaughtLoses(c: Config, s: State, k: nat) returns (end: State)
    requires StateStored(c, s.m) && FlowOk(s) && k < |s.m.submitters| && Caught(c, s.m.submitters[k])
    ensures Reaches(c, Graceful, s, end) && Lost(end)
  {
    var s1 := OthersFinish(c, s, k);
    var s2 := WorkersLeave(c, s1, |s1.m.workers|);
    ReachesOn(c, Graceful, s, s1, s2);
    AloneCounts(s2.m, 0);
    end := SubmitterReturns(c, Graceful, s2, k);
    ReachesOn(c, Graceful, s, s2, end);
    ReachedCounts(c, Graceful, s, end);
    QueuedIsLost(end);
  }

  /** `n` of the increments still to come. */
  lemma {:induction false} Increments(c: Config, s: State, n: nat) returns (s': State)
    requires n <= Count(s.m.submitters, Incrementing)
    ensures Reaches(c, Graceful, s, s') && Count(s'.m.submitters, Incrementing) == Count(s.m.submitters, Incrementing) - n
    ensures |s'.m.submitters| == |s.m.submitters|
    ensures s'.m == s.m.(submitters := s'.m.submitters, approx := s'.m.approx)
  {
    if n == 0 {
      ReachesSelf(c, Graceful, s);
      s' := s;
    } else {
      var s1 := Increments(c, s, n - 1);
      CountExtremes(s1.m.submitters, Incrementing);
      var k :| 0 <= k < |s1.m.submitters| && Incrementing(s1.m.submitters[k]);
      CountUpdate(s1.m.submitters, k, Away, Incrementing);
      s' := Step(c, s1, SubmitStep(k)).s;
      ReachesByStep(c, Graceful, s, s1, SubmitStep(k), s');
    }
  }

  /** With the counter at zero, a worker that has found the queue empty leaves. */
  lemma LooksAndLeaves(c: Config, s: State, w: nat) returns (s': State)
    requires s.m.stop && s.m.mode.Graceful? && s.m.approx == 0 && w < |s.m.workers| && s.m.workers[w].LoadStop?
    ensures Reaches(c, Graceful, s, s') && s'.m == s.m.(workers := s.m.workers[w := Exited])
  {
    ReachesSelf(c, Graceful, s);
    var s1 := State(s.m.(workers := s.m.workers[w := LoadMode]), s.g);
    ReachesByStep(c, Graceful, s, s, WorkStep(w), s1);
    var s2 := State(s.m.(workers := s.m.workers[w := LoadDepth]), s.g);
    assert s1.m.workers[w := LoadDepth] == s2.m.workers;
    ReachesByStep(c, Graceful, s, s1, WorkStep(w), s2);
    s' := State(s.m.(workers := s.m.workers[w := Exited]), s.g);
    assert s2.m.workers[w := Exited] == s'.m.workers;
    ReachesByStep(c, Graceful, s, s2, WorkStep(w), s');
  }

  lemma {:induction false} AllLookAndLeave(c: Config, s: State, n: nat) returns (s': State)
    requires s.m.stop && s.m.mode.Graceful? && s.m.approx == 0 && n <= |s.m.workers|
    requires forall w :: 0 <= w < |s.m.workers| ==> s.m.workers[w].LoadStop?
    ensures Reaches(c, Graceful, s, s') && s'.m == s.m.(workers := s'.m.workers) && |s'.m.workers| == |s.m.workers|
    ensures forall w :: 0 <= w < |s.m.workers| ==> s'.m.workers[w] == if w < n then Exited else LoadStop
  {
    if n == 0 {
      ReachesSelf(c, Graceful, s);
      s' := s;
    } else {
      var s1 := AllLookAndLeave(c, s, n - 1);
      s' := LooksAndLeaves(c, s1, n - 1);
      ReachesOn(c, Graceful, s, s1, s');
    }
  }

  /** As many increments as bring the counter to zero. */
  lemma CounterReadsZero(c: Config, s: State) returns (s': State)
    requires StateStored(c, s.m) && FlowOk(s) && Overlooked(s.m)
    ensures Reaches(c, Graceful, s, s') && s'.m.approx == 0 && s'.m.queue == s.m.queue && s'.m.workers == s.m.workers
    ensures s'.m.stop && s'.m.mode.Graceful? && !s'.m.state.Live? && |s'.m.submitters| == |s.m.submitters|
  {
    var s1 := Increments(c, s, Count(s.m.submitters, Incrementing) - |s.m.queue|);
    s' := StoresStop(c, Graceful, s, s1);
    ReachedCounts(c, Graceful, s, s');
    CountExtremes(s'.m.workers, Decrementing);
  }

  /** The second way: then all workers look at the counter and leave. */
  lemma OverlookedLoses(c: Config, s: State) returns (end: State)
    requires StateStored(c, s.m) && FlowOk(s) && Overlooked(s.m)
    ensures Reaches(c, Graceful, s, end) && Lost(end)
  {
    var s1 := CounterReadsZero(c, s);
    var s2 := AllLookAndLeave(c, s1, |s1.m.workers|);
    ReachesOn(c, Graceful, s, s1, s2);
    var n := |s2.m.submitters|;
    end := OthersReturn(c, Graceful, s2, n, n);
    ReachesOn(c, Graceful, s, s2, end);
    ReachedCounts(c, Graceful, s, end);
    QueuedIsLost(end);
  }

  // ----- Exactly -----

  lemma NotExposedIsSafe(c: Config, m: Memory)
    requires DrainOk(c, m) && m.state.Live? && !Exposed(c, m) && c.limit < RANGE
    ensures Safe(c, m.(state := Stopping, control := StoreStop))
  {
    if m.queue != [] && !(forall w :: 0 <= w < |m.workers| ==> m.workers[w].LoadStop?) {
      var w :| 0 <= w < |m.workers| && !m.workers[w].LoadStop?;
      assert PhaseOk(m, m.workers[w]);
      assert Looking(m.workers[w]);
    }
  }

  lemma StoppedAfterStore(c: Config, s: State) returns (s': State)
    requires ServerInv(c, s) && s.m.state.Live? && s.m.control.StoreState?
    requires c.limit + |s.m.workers| < RANGE && |s.m.queue| + |s.m.submitters| <= c.limit
    ensures Step(c, s, ControlStep) == Next(s') && StateStored(c, s'.m) && FlowOk(s')
    ensures s' == State(s.m.(state := Stopping, control := StoreStop), s.g)
  {
    s' := Step(c, s, ControlStep).s;
    forall w | 0 <= w < |s.m.workers| ensures s.m.workers[w] != Exited {
      assert PhaseOk(s.m, s.m.workers[w]);
    }
  }

  /**
    A graceful shutdown that is about to stop the server from accepting can lose an accepted event if and only if
    a submitter is caught before its push, or every worker has just found the queue empty while events have been
    pushed that are not counted yet, as many of them as there are in the queue. Otherwise, whenever everybody has
    left, every accepted event has been processed exactly once.
  */
  lemma LossExactly(c: Config, s: State)
    requires ServerInv(c, s) && s.m.state.Live? && s.m.control.StoreState?
    requires c.limit + |s.m.workers| < RANGE && |s.m.queue| + |s.m.submitters| <= c.limit
    ensures Step(c, s, ControlStep).Next?
    ensures (exists end :: Reaches(c, Graceful, Step(c, s, ControlStep).s, end) && Lost(end)) <==> Exposed(c, s.m)
  {
    var s' := StoppedAfterStore(c, s);
    if AnyCaught(c, s.m) {
      var k :| 0 <= k < |s.m.submitters| && Caught(c, s.m.submitters[k]);
      var end := CaughtLoses(c, s', k);
    } else if Overlooked(s.m) {
      var end := OverlookedLoses(c, s');
    } else {
      NotExposedIsSafe(c, s.m);
      forall end | Reaches(c, Graceful, s', end) ensures !Lost(end) {
        var actions: seq<Action> :| Asking(Graceful, actions) && Run(c, s', actions) == Next(end);
        SafeRunLosesNothing(c, s', actions);
      }
    }
  }

  /** A server one event and three steps old: pushed, not counted, and the worker has just found the queue empty. */
  function PushedBehindWorker(): Memory {
    Memory(Live, Graceful, false, 0, [0], [Increment], [LoadStop], Ready)
  }

  lemma PushedBehindWorkerIsReached(c: Config) returns (s: State)
    requires c.backpressure && c.capacity > 0 && c.limit > 0
    ensures Reaches(c, Graceful, Init(1, 1), s) && s == State(PushedBehindWorker(), Trail([0], [], []))
  {
    var s0 := Init(1, 1);
    ReachesSelf(c, Graceful, s0);
    var s1 := Step(c, s0, Submit(0, 0)).s;
    ReachesByStep(c, Graceful, s0, s0, Submit(0, 0), s1);
    var s2 := Step(c, s1, SubmitStep(0)).s;
    ReachesByStep(c, Graceful, s0, s1, SubmitStep(0), s2);
    var s3 := Step(c, s2, SubmitStep(0)).s;
    ReachesByStep(c, Graceful, s0, s2, SubmitStep(0), s3);
    assert s3.m.submitters == [Push(0)] && s3.m.workers == [TryPop];
    var s4 := Step(c, s3, WorkStep(0)).s;
    ReachesByStep(c, Graceful, s0, s3, WorkStep(0), s4);
    s := Step(c, s4, SubmitStep(0)).s;
    ReachesByStep(c, Graceful, s0, s4, SubmitStep(0), s);
  }

  /** The second way is open to a server from its start, even with the push done before the shutdown began. */
  lemma OverlookedIsReachable(c: Config) returns (s: State)
    requires c.backpressure && c.capacity > 0 && c.limit > 0
    ensures Reaches(c, Graceful, Init(1, 1), s) && ServerInv(c, s) && s.m.state.Live? && s.m.control.StoreState?
    ensures Overlooked(s.m) && !AnyCaught(c, s.m)
  {
    var s1 := PushedBehindWorkerIsReached(c);
    var s2 := Step(c, s1, Action.Shutdown(Graceful)).s;
    ReachesByStep(c, Graceful, Init(1, 1), s1, Action.Shutdown(Graceful), s2);
    s := Step(c, s2, ControlStep).s;
    ReachesByStep(c, Graceful, Init(1, 1), s2, ControlStep, s);
    InitSatisfiesInv(c, 1, 1);
    ReachedCounts(c, Graceful, Init(1, 1), s);
  }
}
