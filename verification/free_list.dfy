/**
  The intrusive free list: a Treiber stack threaded through the pool records. Every load, store and
  compare-and-swap of `push` and `try_pop` is one step, and any number of threads interleave.
*/
module FreeList {
  import opened Sequences
  import opened Steps
  import opened IntrusiveStack

  /** Where a thread stands inside `push(n)` or `try_pop()`, with the values its local variables hold. */
  datatype Thread =
    | Idle
    | PushLoad(n: int)
    | PushStore(n: int, h: int)
    | PushCas(n: int, h: int)
    | PopLoad
    | PopNext(h: int)
    | PopCas(h: int, next: int)

  /** What the program's memory holds. */
  datatype Memory = Memory(head: int, link: seq<int>, threads: seq<Thread>)

  /** What an observer records: no step of the program reads any of it. */
  datatype Trail = Trail(stack: seq<int>, owner: seq<int>, version: nat, seen: seq<nat>, log: seq<Event>)

  datatype Event = Pushed(thread: nat, node: int) | Popped(thread: nat, node: int) | FoundEmpty(thread: nat)

  datatype State = State(m: Memory, g: Trail)

  /** `spurious` lets a weak compare-and-swap fail although the head has the expected value. */
  datatype Action = CallPush(t: nat, n: int) | CallPop(t: nat) | Advance(t: nat, spurious: bool)

  predicate Node(m: Memory, n: int) { 0 <= n < |m.link| }

  /** The thread's step would swing the head. */
  predicate CasSucceeds(m: Memory, t: nat, spurious: bool) {
    t < |m.threads| && !spurious &&
    ((m.threads[t].PushCas? && m.threads[t].h == m.head) || (m.threads[t].PopCas? && m.threads[t].h == m.head))
  }

  /** `while (h)`: leave with null, or go on to read the link of `h`. */
  function Loaded(h: int): Thread {
    if h == NULL then Idle else PopNext(h)
  }

  function ThreadStep(m: Memory, t: nat, spurious: bool): Outcome<Memory>
    requires t < |m.threads|
  {
    match m.threads[t]
    case Idle => Blocked
    case PushLoad(n) => Next(m.(threads := m.threads[t := PushStore(n, m.head)]))
    case PushStore(n, h) =>
      if !Node(m, n) then Fault
      else Next(m.(link := m.link[n := h], threads := m.threads[t := PushCas(n, h)]))
    case PushCas(n, h) =>
      if CasSucceeds(m, t, spurious) then Next(m.(head := n, threads := m.threads[t := Idle]))
      else Next(m.(threads := m.threads[t := PushStore(n, m.head)]))
    case PopLoad => Next(m.(threads := m.threads[t := Loaded(m.head)]))
    case PopNext(h) =>
      if !Node(m, h) then Fault
      else Next(m.(threads := m.threads[t := PopCas(h, m.link[h])]))
    case PopCas(h, next) =>
      if CasSucceeds(m, t, spurious) then Next(m.(head := next, threads := m.threads[t := Idle]))
      else Next(m.(threads := m.threads[t := Loaded(m.head)]))
  }

  function MemoryStep(m: Memory, a: Action): Outcome<Memory> {
    if a.t >= |m.threads| then Blocked
    else
      match a
      case CallPush(t, n) => if m.threads[t].Idle? then Next(m.(threads := m.threads[t := PushLoad(n)])) else Blocked
      case CallPop(t) => if m.threads[t].Idle? then Next(m.(threads := m.threads[t := PopLoad])) else Blocked
      case Advance(t, spurious) => ThreadStep(m, t, spurious)
  }

  /** The thread is about to see the value of the head, in its first load or in a failing pop. */
  predicate LoadsForPop(m: Memory, t: nat, spurious: bool) {
    t < |m.threads| &&
    (m.threads[t].PopLoad? || (m.threads[t].PopCas? && !CasSucceeds(m, t, spurious)))
  }

  function TrailStep(g: Trail, m: Memory, a: Action): Trail {
    if !a.Advance? || a.t >= |m.threads| || a.t >= |g.seen| then g
    else
      var t, pc := a.t, m.threads[a.t];
      if CasSucceeds(m, t, a.spurious) && pc.PushCas? then
        g.(stack := [pc.n] + g.stack,
           owner := if 0 <= pc.n < |g.owner| then g.owner[pc.n := NULL] else g.owner,
           version := g.version + 1, log := g.log + [Pushed(t, pc.n)])
      else if CasSucceeds(m, t, a.spurious) then
        g.(stack := if g.stack == [] then [] else g.stack[1..],
           owner := if 0 <= pc.h < |g.owner| then g.owner[pc.h := t] else g.owner,
           version := g.version + 1, log := g.log + [Popped(t, pc.h)])
      else if LoadsForPop(m, t, a.spurious) then
        g.(seen := g.seen[t := g.version], log := if m.head == NULL then g.log + [FoundEmpty(t)] else g.log)
      else g
  }

  /** A caller pushes only a node that it owns. */
  predicate CallerObeys(g: Trail, a: Action) {
    a.CallPush? ==> 0 <= a.n < |g.owner| && g.owner[a.n] == a.t
  }

  function Step(s: State, a: Action): Outcome<State> {
    if !CallerObeys(s.g, a) then Blocked
    else
      match MemoryStep(s.m, a)
      case Blocked => Blocked
      case Fault => Fault
      case Next(m) => Next(State(m, TrailStep(s.g, s.m, a)))
  }

  function Run(s: State, actions: seq<Action>): Outcome<State>
    decreases |actions|
  {
    if actions == [] then Next(s)
    else
      match Step(s, actions[0])
      case Blocked => Blocked
      case Fault => Fault
      case Next(s') => Run(s', actions[1..])
  }

  /** `holder[n]` is the thread that owns node `n` at first; the list starts empty. */
  function Init(holder: seq<int>, threads: nat): State {
    State(Memory(NULL, seq(|holder|, i => NULL), seq(threads, i => Idle)),
          Trail([], holder, 0, seq(threads, i => 0), []))
  }

  // ----- What every step keeps -----

  predicate Pushing(pc: Thread) { pc.PushLoad? || pc.PushStore? || pc.PushCas? }

  predicate Popping(pc: Thread) { pc.PopNext? || pc.PopCas? }

  /** Every node is in the list or owned by one thread, not both. */
  ghost predicate Partition(s: State) {
    && |s.g.owner| == |s.m.link| && |s.g.seen| == |s.m.threads|
    && (forall n :: 0 <= n < |s.m.link| ==> NULL <= s.m.link[n] < |s.m.link|)
    && (forall n :: 0 <= n < |s.g.owner| ==> (s.g.owner[n] == NULL <==> n in s.g.stack))
  }

  ghost predicate ThreadsOk(s: State)
    requires Partition(s)
  {
    forall t :: 0 <= t < |s.m.threads| ==> ThreadOk(s.m, s.g, t)
  }

  ghost predicate ThreadOk(m: Memory, g: Trail, t: nat)
    requires t < |m.threads| && |g.seen| == |m.threads| && |g.owner| == |m.link|
  {
    match m.threads[t]
    case PushLoad(n) => Node(m, n) && g.owner[n] == t
    case PushStore(n, h) => Node(m, n) && g.owner[n] == t && NULL <= h < |m.link|
    case PushCas(n, h) => Node(m, n) && g.owner[n] == t && m.link[n] == h
    case PopNext(h) => Node(m, h) && g.seen[t] <= g.version && (g.seen[t] == g.version ==> h == m.head)
    case PopCas(h, next) =>
      && Node(m, h) && NULL <= next < |m.link| && g.seen[t] <= g.version
      && (g.seen[t] == g.version ==> h == m.head && next == m.link[h])
    case _ => true
  }

  ghost predicate Inv(s: State) {
    && Partition(s)
    && IsStack(s.m.head, s.m.link, s.g.stack)
    && ThreadsOk(s)
  }

  /** A successful pop swings the head to what is still the popped node's link. */
  predicate Benign(m: Memory, a: Action) {
    (a.Advance? && CasSucceeds(m, a.t, a.spurious) && m.threads[a.t].PopCas? && Node(m, m.threads[a.t].h)) ==>
      m.threads[a.t].next == m.link[m.threads[a.t].h]
  }

  /** The head has not moved between a successful pop's load and its compare-and-swap. */
  predicate VersionMatches(s: State, a: Action) {
    (a.Advance? && CasSucceeds(s.m, a.t, a.spurious) && s.m.threads[a.t].PopCas? && a.t < |s.g.seen|) ==>
      s.g.seen[a.t] == s.g.version
  }

  ghost predicate OnePopper(m: Memory) {
    forall t, u :: 0 <= t < u < |m.threads| ==> !(Popping(m.threads[t]) && Popping(m.threads[u]))
  }

  predicate NoPush(m: Memory, a: Action) {
    !a.CallPush? && (a.Advance? && a.t < |m.threads| ==> !Pushing(m.threads[a.t]))
  }

  ghost predicate AbaFree(s: State, actions: seq<Action>)
    decreases |actions|
  {
    actions != [] ==>
      && Benign(s.m, actions[0])
      && (Step(s, actions[0]).Next? ==> AbaFree(Step(s, actions[0]).s, actions[1..]))
  }

  ghost predicate VersionChecked(s: State, actions: seq<Action>)
    decreases |actions|
  {
    actions != [] ==>
      && VersionMatches(s, actions[0])
      && (Step(s, actions[0]).Next? ==> VersionChecked(Step(s, actions[0]).s, actions[1..]))
  }

  ghost predicate OnePopperThroughout(s: State, actions: seq<Action>)
    decreases |actions|
  {
    && OnePopper(s.m)
    && (actions != [] && Step(s, actions[0]).Next? ==> OnePopperThroughout(Step(s, actions[0]).s, actions[1..]))
  }

  ghost predicate PopsOnly(s: State, actions: seq<Action>)
    decreases |actions|
  {
    actions != [] ==>
      && NoPush(s.m, actions[0])
      && (Step(s, actions[0]).Next? ==> PopsOnly(Step(s, actions[0]).s, actions[1..]))
  }

  // ----- Preservation -----

  /** Thread `t` alone has moved. */
  ghost predicate OnlyMoved(s: State, s': State, t: nat) {
    && |s'.m.threads| == |s.m.threads| && |s'.g.seen| == |s.g.seen|
    && forall u :: 0 <= u < |s.m.threads| && u != t ==>
         s'.m.threads[u] == s.m.threads[u] && (u < |s.g.seen| ==> s'.g.seen[u] == s.g.seen[u])
  }

  lemma LocalStep(s: State, s': State, t: nat)
    requires Inv(s) && t < |s.m.threads| && OnlyMoved(s, s', t)
    requires s'.m.head == s.m.head && s'.m.link == s.m.link
    requires s'.g.stack == s.g.stack && s'.g.owner == s.g.owner && s'.g.version == s.g.version
    requires ThreadOk(s'.m, s'.g, t)
    ensures Inv(s')
  {
    forall u | 0 <= u < |s'.m.threads| ensures ThreadOk(s'.m, s'.g, u) {
      assert ThreadOk(s.m, s.g, u);
    }
  }

  lemma StoreStep(s: State, s': State, t: nat, n: int, h: int)
    requires Inv(s) && t < |s.m.threads| && s.m.threads[t] == PushStore(n, h)
    requires 0 <= n < |s.m.link| && s'.m == s.m.(link := s.m.link[n := h], threads := s.m.threads[t := PushCas(n, h)])
    requires s'.g == s.g
    ensures Inv(s')
  {
    assert ThreadOk(s.m, s.g, t);
    forall u | 0 <= u < |s'.m.threads| ensures ThreadOk(s'.m, s'.g, u) {
      assert ThreadOk(s.m, s.g, u);
      assert s.m.head != NULL ==> s.m.head == s.g.stack[0] && s.m.head in s.g.stack;
    }
  }

  /** The head has moved, and `n` has changed owner. */
  lemma SwingStep(s: State, s': State, t: nat, n: int, owner: int)
    requires Inv(s) && t < |s.m.threads| && OnlyMoved(s, s', t)
    requires s'.m.link == s.m.link && s'.m.threads[t] == Idle
    requires IsStack(s'.m.head, s'.m.link, s'.g.stack)
    requires 0 <= n < |s.m.link| && s'.g.owner == s.g.owner[n := owner] && s'.g.version == s.g.version + 1
    requires s.g.owner[n] == NULL || s.g.owner[n] == t
    requires forall k :: 0 <= k < |s.m.link| ==> (s'.g.owner[k] == NULL <==> k in s'.g.stack)
    ensures Inv(s')
  {
    forall u | 0 <= u < |s'.m.threads| ensures ThreadOk(s'.m, s'.g, u) {
      assert ThreadOk(s.m, s.g, u);
    }
  }

  lemma PushSwing(s: State, t: nat, s': State)
    requires Inv(s) && t < |s.m.threads| && s.m.threads[t].PushCas?
    requires Step(s, Advance(t, false)) == Next(s') && CasSucceeds(s.m, t, false)
    ensures Inv(s')
  {
    var pc := s.m.threads[t];
    assert ThreadOk(s.m, s.g, t);
    PushKeepsStack(s.m.head, s.m.link, s.g.stack, pc.n);
    SwingStep(s, s', t, pc.n, NULL);
  }

  lemma PopSwing(s: State, t: nat, s': State)
    requires Inv(s) && t < |s.m.threads| && s.m.threads[t].PopCas? && Benign(s.m, Advance(t, false))
    requires Step(s, Advance(t, false)) == Next(s') && CasSucceeds(s.m, t, false)
    ensures Inv(s')
  {
    var pc := s.m.threads[t];
    assert ThreadOk(s.m, s.g, t);
    PopKeepsStack(s.m.head, s.m.link, s.g.stack, pc.next);
    SwingStep(s, s', t, pc.h, t);
  }

  /** Every other step leaves the list and the owners alone. */
  lemma QuietStep(s: State, a: Action, s': State)
    requires Inv(s) && a.t < |s.m.threads| && Step(s, a) == Next(s')
    requires !(a.Advance? && CasSucceeds(s.m, a.t, a.spurious))
    requires !(a.Advance? && s.m.threads[a.t].PushStore?)
    ensures Inv(s')
  {
    assert ThreadOk(s.m, s.g, a.t);
    assert s.g.stack != [] ==> 0 <= s.g.stack[0] < |s.m.link|;
    LocalStep(s, s', a.t);
  }

  lemma StepIsSafe(s: State, a: Action)
    requires Inv(s)
    ensures Step(s, a) != Fault
  {
    if a.t < |s.m.threads| {
      assert ThreadOk(s.m, s.g, a.t);
    }
  }

  lemma StepKeepsInv(s: State, a: Action)
    requires Inv(s) && Benign(s.m, a)
    ensures Step(s, a) != Fault
    ensures Step(s, a).Next? ==> Inv(Step(s, a).s)
  {
    StepIsSafe(s, a);
    if Step(s, a).Next? {
      var s' := Step(s, a).s;
      if a.Advance? && CasSucceeds(s.m, a.t, a.spurious) {
        assert a == Advance(a.t, false);
        if s.m.threads[a.t].PushCas? {
          PushSwing(s, a.t, s');
        } else {
          PopSwing(s, a.t, s');
        }
      } else if a.Advance? && s.m.threads[a.t].PushStore? {
        var pc := s.m.threads[a.t];
        StoreStep(s, s', a.t, pc.n, pc.h);
      } else {
        QuietStep(s, a, s');
      }
    }
  }

  // ----- Whole runs -----

  /** Every ABA-free run stays clear of bad pointers and keeps the list and the owners consistent. */
  lemma {:induction false} AbaFreeRunKeepsInv(s: State, actions: seq<Action>)
    requires Inv(s) && AbaFree(s, actions)
    ensures Run(s, actions) != Fault
    ensures Run(s, actions).Next? ==> Inv(Run(s, actions).s)
    decreases |actions|
  {
    if actions == [] {
    } else {
      StepKeepsInv(s, actions[0]);
      if Step(s, actions[0]).Next? {
        AbaFreeRunKeepsInv(Step(s, actions[0]).s, actions[1..]);
      }
    }
  }

  /** Matching the head's version at every successful pop is enough. */
  lemma {:induction false} VersionCheckedIsAbaFree(s: State, actions: seq<Action>)
    requires Inv(s) && VersionChecked(s, actions)
    ensures AbaFree(s, actions)
    decreases |actions|
  {
    if actions == [] {
    } else {
      var a := actions[0];
      assert a.t < |s.m.threads| ==> ThreadOk(s.m, s.g, a.t);
      StepKeepsInv(s, a);
      if Step(s, a).Next? {
        VersionCheckedIsAbaFree(Step(s, a).s, actions[1..]);
      }
    }
  }

  /** What a lone popper may rely on: its candidate is in the list, and the link it read is still there. */
  ghost predicate PopperSafe(s: State) {
    forall t :: 0 <= t < |s.m.threads| ==> CandidateSafe(s, s.m.threads[t])
  }

  ghost predicate CandidateSafe(s: State, pc: Thread) {
    && (Popping(pc) ==> pc.h in s.g.stack)
    && (pc.PopCas? && Node(s.m, pc.h) ==> pc.next == s.m.link[pc.h])
  }

  lemma StepKeepsPopperSafe(s: State, a: Action)
    requires Inv(s) && PopperSafe(s) && OnePopper(s.m)
    ensures Benign(s.m, a)
    ensures Step(s, a).Next? ==> PopperSafe(Step(s, a).s)
  {
    assert a.t < |s.m.threads| ==> ThreadOk(s.m, s.g, a.t) && CandidateSafe(s, s.m.threads[a.t]);
    if Step(s, a).Next? {
      var s' := Step(s, a).s;
      forall u | 0 <= u < |s'.m.threads| ensures CandidateSafe(s', s'.m.threads[u]) {
        assert CandidateSafe(s, s.m.threads[u]) && ThreadOk(s.m, s.g, u);
        assert s.g.stack != [] ==> s.m.head == s.g.stack[0];
        if a.t != u && Popping(s.m.threads[u]) {
          assert !Popping(s.m.threads[a.t]);
        }
      }
    }
  }

  /** One thread at a time between the load and the swap of `try_pop`, and any number of pushers. */
  lemma {:induction false} OnePopperIsAbaFree(s: State, actions: seq<Action>)
    requires Inv(s) && PopperSafe(s) && OnePopperThroughout(s, actions)
    ensures AbaFree(s, actions)
    decreases |actions|
  {
    if actions == [] {
    } else {
      StepKeepsPopperSafe(s, actions[0]);
      StepKeepsInv(s, actions[0]);
      if Step(s, actions[0]).Next? {
        OnePopperIsAbaFree(Step(s, actions[0]).s, actions[1..]);
      }
    }
  }

  ghost predicate NoPusher(s: State) {
    forall t :: 0 <= t < |s.m.threads| ==>
      && !Pushing(s.m.threads[t])
      && (s.m.threads[t].PopCas? && Node(s.m, s.m.threads[t].h) ==>
            s.m.threads[t].next == s.m.link[s.m.threads[t].h])
  }

  /** Any number of poppers, while nobody pushes. */
  lemma {:induction false} PopsOnlyIsAbaFree(s: State, actions: seq<Action>)
    requires Inv(s) && NoPusher(s) && PopsOnly(s, actions)
    ensures AbaFree(s, actions)
    decreases |actions|
  {
    if actions == [] {
    } else {
      StepKeepsInv(s, actions[0]);
      if Step(s, actions[0]).Next? {
        assert NoPusher(Step(s, actions[0]).s);
        PopsOnlyIsAbaFree(Step(s, actions[0]).s, actions[1..]);
      }
    }
  }

  /** With no thread inside an operation, both regimes start out satisfied. */
  lemma IdleStart(s: State)
    requires forall t :: 0 <= t < |s.m.threads| ==> s.m.threads[t] == Idle
    ensures PopperSafe(s) && NoPusher(s) && OnePopper(s.m)
  {
  }

  /** From any consistent list that no thread is using, each of the three regimes keeps every run right. */
  lemma RegimesKeepListRight(s: State, actions: seq<Action>)
    requires Inv(s) && forall t :: 0 <= t < |s.m.threads| ==> s.m.threads[t] == Idle
    requires OnePopperThroughout(s, actions) || PopsOnly(s, actions) || VersionChecked(s, actions)
    ensures AbaFree(s, actions) && InvThroughout(s, actions) && Run(s, actions) != Fault
  {
    IdleStart(s);
    if OnePopperThroughout(s, actions) {
      OnePopperIsAbaFree(s, actions);
    } else if PopsOnly(s, actions) {
      PopsOnlyIsAbaFree(s, actions);
    } else {
      VersionCheckedIsAbaFree(s, actions);
    }
    RightExactlyWhenAbaFree(s, actions);
    AbaFreeRunKeepsInv(s, actions);
  }

  lemma InitSatisfiesInv(holder: seq<int>, threads: nat)
    requires forall n :: 0 <= n < |holder| ==> 0 <= holder[n] < threads
    ensures Inv(Init(holder, threads)) && PopperSafe(Init(holder, threads))
  {
  }

  // ----- The atomic stack that the list stands for -----

  datatype Replayed = Illegal | Stack(s: seq<int>)

  /** An atomic stack of distinct nodes performing one operation. */
  function Perform(stack: seq<int>, e: Event): Replayed {
    match e
    case Pushed(_, n) => if n in stack then Illegal else Stack([n] + stack)
    case Popped(_, n) => if stack != [] && stack[0] == n then Stack(stack[1..]) else Illegal
    case FoundEmpty(_) => if stack == [] then Stack([]) else Illegal
  }

  function Replay(log: seq<Event>): Replayed {
    if log == [] then Stack([])
    else
      match Replay(log[..|log| - 1])
      case Illegal => Illegal
      case Stack(s) => Perform(s, log[|log| - 1])
  }

  // ----- A call returns when it has taken effect, and not before -----

  /** What a thread has called: `push` of a node, or `try_pop`. */
  datatype Call = PushOf(n: int) | PopOf

  /** The call that a thread is in. */
  function InProgress(pc: Thread): seq<Call> {
    match pc
    case Idle => []
    case PushLoad(n) => [PushOf(n)]
    case PushStore(n, _) => [PushOf(n)]
    case PushCas(n, _) => [PushOf(n)]
    case _ => [PopOf]
  }

  function CallOf(e: Event): Call {
    if e.Pushed? then PushOf(e.node) else PopOf
  }

  /** Thread `t` has entered a call, or left one with its one effect, or is in the call that it was in. */
  predicate TakesEffect(m: Memory, g: Trail, a: Action, m': Memory, g': Trail) {
    && a.t < |m.threads| == |m'.threads|
    && (forall u :: 0 <= u < |m.threads| && u != a.t ==> m'.threads[u] == m.threads[u])
    && match a
       case CallPush(t, n) => m.threads[t] == Idle && InProgress(m'.threads[t]) == [PushOf(n)] && g'.log == g.log
       case CallPop(t) => m.threads[t] == Idle && InProgress(m'.threads[t]) == [PopOf] && g'.log == g.log
       case Advance(t, _) =>
         if m'.threads[t] == Idle then
           && |g'.log| == |g.log| + 1 && g'.log[..|g.log|] == g.log
           && g'.log[|g.log|].thread == t && InProgress(m.threads[t]) == [CallOf(g'.log[|g.log|])]
         else m.threads[t] != Idle && InProgress(m'.threads[t]) == InProgress(m.threads[t]) && g'.log == g.log
  }

  lemma StepTakesEffect(s: State, a: Action)
    requires |s.g.seen| == |s.m.threads| && Step(s, a).Next?
    ensures TakesEffect(s.m, s.g, a, Step(s, a).s.m, Step(s, a).s.g)
    ensures |Step(s, a).s.g.seen| == |Step(s, a).s.m.threads|
  {
  }

  /** What thread `t` has called, in order. */
  function CallsOf(actions: seq<Action>, t: nat): seq<Call> {
    if actions == [] then []
    else
      (match actions[0]
       case CallPush(u, n) => if u == t then [PushOf(n)] else []
       case CallPop(u) => if u == t then [PopOf] else []
       case Advance(_, _) => []) + CallsOf(actions[1..], t)
  }

  /** The calls of thread `t` that have taken effect, in the order of the effects. */
  function EffectsOf(log: seq<Event>, t: nat): seq<Call> {
    if log == [] then []
    else EffectsOf(log[..|log| - 1], t) + if log[|log| - 1].thread == t then [CallOf(log[|log| - 1])] else []
  }

  /** The calls of thread `t` that have taken effect, and the one that it is in. */
  function Account(s: State, t: nat): seq<Call>
    requires t < |s.m.threads|
  {
    EffectsOf(s.g.log, t) + InProgress(s.m.threads[t])
  }

  lemma StepCompletesCalls(s: State, a: Action, t: nat)
    requires |s.g.seen| == |s.m.threads| && t < |s.m.threads| && Step(s, a).Next?
    ensures var s' := Step(s, a).s;
            t < |s'.m.threads| && Account(s', t) == Account(s, t) + CallsOf([a], t)
  {
    StepTakesEffect(s, a);
    assert [a][1..] == [];
    var s' := Step(s, a).s;
    if s'.g.log != s.g.log {
      assert s'.g.log[..|s'.g.log| - 1] == s.g.log;
    }
  }

  /**
    In every run, whatever the interleaving, each thread's calls take effect once each and in the order in which it
    made them, all but the one that it is still in.
  */
  lemma {:induction false} CallsTakeEffectOnce(s: State, actions: seq<Action>, t: nat)
    requires |s.g.seen| == |s.m.threads| && t < |s.m.threads| && Run(s, actions).Next?
    ensures var s' := Run(s, actions).s;
            t < |s'.m.threads| && Account(s', t) == Account(s, t) + CallsOf(actions, t)
    decreases |actions|
  {
    if actions == [] {
    } else {
      var a, rest := actions[0], actions[1..];
      var s1 := Step(s, a).s;
      StepCompletesCalls(s, a, t);
      StepTakesEffect(s, a);
      CallsTakeEffectOnce(s1, rest, t);
      FirstCall(actions, t);
      Associate(Account(s, t), CallsOf([a], t), CallsOf(rest, t));
    }
  }

  lemma Associate<T>(a: seq<T>, b: seq<T>, c: seq<T>)
    ensures a + b + c == a + (b + c)
  {
  }

  lemma FirstCall(actions: seq<Action>, t: nat)
    requires actions != []
    ensures CallsOf(actions, t) == CallsOf([actions[0]], t) + CallsOf(actions[1..], t)
  {
    assert [actions[0]][1..] == [];
  }

  lemma {:induction false} ThreadsStay(s: State, actions: seq<Action>)
    requires |s.g.seen| == |s.m.threads| && Run(s, actions).Next?
    ensures |Run(s, actions).s.m.threads| == |s.m.threads|
    decreases |actions|
  {
    if actions == [] {
    } else {
      StepTakesEffect(s, actions[0]);
      ThreadsStay(Step(s, actions[0]).s, actions[1..]);
    }
  }

  predicate Busy(pc: Thread) { pc != Idle }

  predicate Begins(a: Action) { !a.Advance? }

  lemma StepCountsCalls(s: State, a: Action)
    requires |s.g.seen| == |s.m.threads| && Step(s, a).Next?
    ensures |Step(s, a).s.g.log| + Count(Step(s, a).s.m.threads, Busy)
         == |s.g.log| + Count(s.m.threads, Busy) + if Begins(a) then 1 else 0
  {
    StepTakesEffect(s, a);
    var threads' := Step(s, a).s.m.threads;
    CountUpdate(s.m.threads, a.t, threads'[a.t], Busy);
    assert threads' == s.m.threads[a.t := threads'[a.t]];
  }

  /** The calls begun are those that have taken effect and those that threads are still in. */
  lemma {:induction false} CallsAddUp(s: State, actions: seq<Action>)
    requires |s.g.seen| == |s.m.threads| && Run(s, actions).Next?
    ensures |Run(s, actions).s.g.log| + Count(Run(s, actions).s.m.threads, Busy)
         == |s.g.log| + Count(s.m.threads, Busy) + Count(actions, Begins)
    decreases |actions|
  {
    if actions == [] {
    } else {
      StepCountsCalls(s, actions[0]);
      StepTakesEffect(s, actions[0]);
      CallsAddUp(Step(s, actions[0]).s, actions[1..]);
      CountFirst(actions, Begins);
    }
  }

  /** Each operation takes effect at one step of its thread, its last one, as one legal operation of the atomic stack. */
  lemma StepRefinesStack(s: State, a: Action)
    requires Inv(s) && Benign(s.m, a) && Replay(s.g.log) == Stack(s.g.stack)
    ensures Step(s, a).Next? ==> Replay(Step(s, a).s.g.log) == Stack(Step(s, a).s.g.stack)
    ensures Step(s, a).Next? ==> TakesEffect(s.m, s.g, a, Step(s, a).s.m, Step(s, a).s.g)
  {
    StepReplays(s, a);
    if Step(s, a).Next? {
      StepTakesEffect(s, a);
    }
  }

  lemma StepReplays(s: State, a: Action)
    requires Inv(s) && Benign(s.m, a) && Replay(s.g.log) == Stack(s.g.stack)
    ensures Step(s, a).Next? ==> Replay(Step(s, a).s.g.log) == Stack(Step(s, a).s.g.stack)
  {
    if Step(s, a).Next? {
      var log' := Step(s, a).s.g.log;
      assert ThreadOk(s.m, s.g, a.t);
      assert log' == s.g.log || (|log'| == |s.g.log| + 1 && log'[..|log'| - 1] == s.g.log);
    }
  }

  lemma {:induction false} AbaFreeRunReplays(s: State, actions: seq<Action>)
    requires Inv(s) && AbaFree(s, actions) && Replay(s.g.log) == Stack(s.g.stack)
    requires Run(s, actions).Next?
    ensures Replay(Run(s, actions).s.g.log) == Stack(Run(s, actions).s.g.stack)
    decreases |actions|
  {
    if actions == [] {
    } else {
      StepKeepsInv(s, actions[0]);
      StepRefinesStack(s, actions[0]);
      AbaFreeRunReplays(Step(s, actions[0]).s, actions[1..]);
    }
  }

  /**
    Linearizability: the effects of any ABA-free run, in order, are a run of an atomic stack ending in its contents;
    and they are the effects of the calls that were made, once each, in each thread's order.
  */
  lemma AbaFreeRunRefinesStack(s: State, actions: seq<Action>)
    requires Inv(s) && AbaFree(s, actions) && Replay(s.g.log) == Stack(s.g.stack)
    requires Run(s, actions).Next?
    ensures Replay(Run(s, actions).s.g.log) == Stack(Run(s, actions).s.g.stack)
    ensures |Run(s, actions).s.m.threads| == |s.m.threads|
    ensures forall t :: 0 <= t < |s.m.threads| ==>
              Account(Run(s, actions).s, t) == Account(s, t) + CallsOf(actions, t)
  {
    AbaFreeRunReplays(s, actions);
    ThreadsStay(s, actions);
    forall t | 0 <= t < |s.m.threads|
      ensures Account(Run(s, actions).s, t) == Account(s, t) + CallsOf(actions, t)
    {
      CallsTakeEffectOnce(s, actions, t);
    }
  }

  lemma {:induction false} ReplayPrefix(log: seq<Event>, i: nat)
    requires i <= |log| && Replay(log).Stack?
    ensures Replay(log[..i]).Stack?
    decreases |log|
  {
    if i == |log| {
      assert log[..i] == log;
    } else {
      ReplayPrefix(log[..|log| - 1], i);
      assert log[..|log| - 1][..i] == log[..i];
    }
  }

  /** The step from one prefix of a legal history to the next. */
  lemma ReplayStep(log: seq<Event>, i: nat)
    requires i < |log| && Replay(log).Stack?
    ensures Replay(log[..i]).Stack? && Replay(log[..i + 1]) == Perform(Replay(log[..i]).s, log[i])
    ensures Replay(log[..i + 1]).Stack?
  {
    ReplayPrefix(log, i);
    ReplayPrefix(log, i + 1);
    assert log[..i + 1][..i] == log[..i];
  }

  lemma {:induction false} ReplayDistinct(log: seq<Event>)
    requires Replay(log).Stack?
    ensures Distinct(Replay(log).s)
    decreases |log|
  {
    if log == [] {
    } else {
      ReplayDistinct(log[..|log| - 1]);
      PerformKeepsDistinct(Replay(log[..|log| - 1]).s, log[|log| - 1]);
    }
  }

  lemma PerformKeepsDistinct(stack: seq<int>, e: Event)
    requires Distinct(stack) && Perform(stack, e).Stack?
    ensures Distinct(Perform(stack, e).s)
  {
  }

  /** Between two hand-outs of the same node, in a legal history, somebody pushed it back. */
  lemma {:induction false} NoDoubleHandOut(log: seq<Event>, i: nat, j: nat)
    requires Replay(log).Stack?
    requires i < j < |log| && log[i].Popped? && log[j].Popped? && log[i].node == log[j].node
    ensures exists k :: i < k < j && log[k].Pushed? && log[k].node == log[i].node
  {
    var n, k := log[i].node, i + 1;
    ReplayStep(log, i);
    ReplayPrefix(log, i);
    ReplayDistinct(log[..i]);
    ReplayStep(log, j);
    while k < j
      invariant i < k <= j
      invariant Replay(log[..k]).Stack? && n !in Replay(log[..k]).s
    {
      ReplayStep(log, k);
      if log[k].Pushed? && log[k].node == n {
        return;
      }
      k := k + 1;
    }
    assert false;
  }

  // ----- When it goes wrong, exactly -----

  ghost predicate InvThroughout(s: State, actions: seq<Action>)
    decreases |actions|
  {
    && Inv(s)
    && (actions != [] ==> Step(s, actions[0]) != Fault)
    && (actions != [] && Step(s, actions[0]).Next? ==> InvThroughout(Step(s, actions[0]).s, actions[1..]))
  }

  /** The list is right at every state of a run if and only if the run is ABA-free. */
  lemma {:induction false} RightExactlyWhenAbaFree(s: State, actions: seq<Action>)
    requires Inv(s)
    ensures InvThroughout(s, actions) <==> AbaFree(s, actions)
    decreases |actions|
  {
    if actions == [] {
    } else {
      var a := actions[0];
      if Benign(s.m, a) {
        StepKeepsInv(s, a);
        if Step(s, a).Next? {
          RightExactlyWhenAbaFree(Step(s, a).s, actions[1..]);
        }
      } else {
        assert ThreadOk(s.m, s.g, a.t);
        PopKeepsStack(s.m.head, s.m.link, s.g.stack, s.m.threads[a.t].next);
        assert !Inv(Step(s, a).s);
      }
    }
  }

  lemma {:induction false} RunAppend(s: State, xs: seq<Action>, ys: seq<Action>)
    requires Run(s, xs).Next?
    ensures Run(s, xs + ys) == Run(Run(s, xs).s, ys)
    decreases |xs|
  {
    if xs == [] {
      assert xs + ys == ys;
    } else {
      assert (xs + ys)[1..] == xs[1..] + ys;
      RunAppend(Step(s, xs[0]).s, xs[1..], ys);
    }
  }

  lemma RunThree(s: State, a: Action, b: Action, c: Action)
    requires Step(s, a).Next? && Step(Step(s, a).s, b).Next?
    ensures Run(s, [a, b, c]) == Step(Step(Step(s, a).s, b).s, c)
  {
    var s1 := Step(s, a).s;
    var s2 := Step(s1, b).s;
    assert [a, b, c][1..] == [b, c] && [b, c][1..] == [c] && [c][1..] == [];
    assert Run(s, [a, b, c]) == Run(s1, [b, c]) == Run(s2, [c]);
    assert Step(s2, c).Next? ==> Run(Step(s2, c).s, []) == Step(s2, c);
  }

  function Go(t: nat): Action { Advance(t, false) }

  function PushCall(t: nat, n: int): seq<Action> { [CallPush(t, n)] + [Go(t), Go(t), Go(t)] }

  function PopCall(t: nat): seq<Action> { [CallPop(t)] + [Go(t), Go(t), Go(t)] }

  /** An undisturbed `push` is the atomic stack's push. */
  lemma UndisturbedPush(s: State, t: nat, n: nat)
    requires t < |s.m.threads| == |s.g.seen| && s.m.threads[t] == Idle && n < |s.m.link| == |s.g.owner| && s.g.owner[n] == t
    ensures Run(s, PushCall(t, n)) ==
              Next(State(s.m.(head := n, link := s.m.link[n := s.m.head]),
                         s.g.(stack := [n] + s.g.stack, owner := s.g.owner[n := NULL],
                              version := s.g.version + 1, log := s.g.log + [Pushed(t, n)])))
  {
    var h := s.m.head;
    var s1 := State(s.m.(threads := s.m.threads[t := PushLoad(n)]), s.g);
    var s2 := State(s.m.(threads := s.m.threads[t := PushStore(n, h)]), s.g);
    var s3 := State(s.m.(link := s.m.link[n := h], threads := s.m.threads[t := PushCas(n, h)]), s.g);
    assert Step(s, CallPush(t, n)) == Next(s1);
    assert Step(s1, Go(t)) == Next(s2) by {
      assert s1.m.threads[t := PushStore(n, h)] == s2.m.threads;
    }
    assert Step(s2, Go(t)) == Next(s3) by {
      assert s2.m.threads[t := PushCas(n, h)] == s3.m.threads;
    }
    var s4 := State(s.m.(head := n, link := s.m.link[n := h]),
                    s.g.(stack := [n] + s.g.stack, owner := s.g.owner[n := NULL],
                         version := s.g.version + 1, log := s.g.log + [Pushed(t, n)]));
    assert Step(s3, Go(t)) == Next(s4) by {
      assert s3.m.threads[t := Idle] == s.m.threads;
    }
    RunThree(s1, Go(t), Go(t), Go(t));
    assert PushCall(t, n)[0] == CallPush(t, n) && PushCall(t, n)[1..] == [Go(t), Go(t), Go(t)];
    assert Run(s, PushCall(t, n)) == Run(s1, PushCall(t, n)[1..]);
  }

  /** An undisturbed `try_pop` of a non-empty list is the atomic stack's pop. */
  lemma UndisturbedPop(s: State, t: nat)
    requires t < |s.m.threads| == |s.g.seen| && s.m.threads[t] == Idle
    requires 0 <= s.m.head < |s.m.link| == |s.g.owner|
    ensures Run(s, PopCall(t)) ==
              Next(State(s.m.(head := s.m.link[s.m.head]),
                         s.g.(stack := if s.g.stack == [] then [] else s.g.stack[1..],
                              owner := s.g.owner[s.m.head := t], version := s.g.version + 1,
                              seen := s.g.seen[t := s.g.version],
                              log := s.g.log + [Popped(t, s.m.head)])))
  {
    var h, next := s.m.head, s.m.link[s.m.head];
    var g := s.g.(seen := s.g.seen[t := s.g.version]);
    var s1 := State(s.m.(threads := s.m.threads[t := PopLoad]), s.g);
    var s2 := State(s.m.(threads := s.m.threads[t := PopNext(h)]), g);
    var s3 := State(s.m.(threads := s.m.threads[t := PopCas(h, next)]), g);
    var s4 := State(s.m.(head := next),
                    g.(stack := if g.stack == [] then [] else g.stack[1..], owner := g.owner[h := t],
                       version := g.version + 1, log := g.log + [Popped(t, h)]));
    assert Step(s, CallPop(t)) == Next(s1);
    assert Step(s1, Go(t)) == Next(s2) by {
      assert s1.m.threads[t := PopNext(h)] == s2.m.threads;
    }
    assert Step(s2, Go(t)) == Next(s3) by {
      assert s2.m.threads[t := PopCas(h, next)] == s3.m.threads;
    }
    assert Step(s3, Go(t)) == Next(s4) by {
      assert s3.m.threads[t := Idle] == s.m.threads;
    }
    RunThree(s1, Go(t), Go(t), Go(t));
    assert PopCall(t)[0] == CallPop(t) && PopCall(t)[1..] == [Go(t), Go(t), Go(t)];
    assert Run(s, PopCall(t)) == Run(s1, PopCall(t)[1..]);
  }

  /** Thread `u` pops `a` and `b` and gives `a` back while `t` stands before its compare-and-swap on `a`. */
  function AbaScript(t: nat, u: nat, a: nat): seq<Action> {
    [CallPop(t), Go(t), Go(t)] + PopCall(u) + PopCall(u) + PushCall(u, a) + [Go(t)] + PopCall(t)
  }

  lemma Compose(s: State, xs: seq<Action>, s1: State, ys: seq<Action>, s2: State)
    requires Run(s, xs) == Next(s1) && Run(s1, ys) == Next(s2)
    ensures Run(s, xs + ys) == Next(s2)
  {
    RunAppend(s, xs, ys);
  }

  lemma StalledPop(s: State, t: nat)
    requires t < |s.m.threads| == |s.g.seen| && s.m.threads[t] == Idle
    requires 0 <= s.m.head < |s.m.link|
    ensures Run(s, [CallPop(t), Go(t), Go(t)]) ==
              Next(State(s.m.(threads := s.m.threads[t := PopCas(s.m.head, s.m.link[s.m.head])]),
                         s.g.(seen := s.g.seen[t := s.g.version])))
  {
    var h := s.m.head;
    var s1 := State(s.m.(threads := s.m.threads[t := PopLoad]), s.g);
    var s2 := State(s.m.(threads := s.m.threads[t := PopNext(h)]), s.g.(seen := s.g.seen[t := s.g.version]));
    assert Step(s1, Go(t)) == Next(s2) by {
      assert s1.m.threads[t := PopNext(h)] == s2.m.threads;
    }
    assert s2.m.threads[t := PopCas(h, s.m.link[h])] == s.m.threads[t := PopCas(h, s.m.link[h])];
    RunThree(s, CallPop(t), Go(t), Go(t));
  }

  /** Thread `u` takes two nodes and returns the first. */
  lemma TakeTwoReturnOne(s: State, u: nat, a: nat, b: nat) returns (s': State)
    requires u < |s.m.threads| == |s.g.seen| && s.m.threads[u] == Idle
    requires s.m.head == a < |s.m.link| == |s.g.owner| && s.m.link[a] == b < |s.m.link| && a != b
    ensures Run(s, PopCall(u) + PopCall(u) + PushCall(u, a)) == Next(s')
    ensures s'.m == s.m.(head := a, link := s.m.link[a := s.m.link[b]])
    ensures |s'.g.seen| == |s.g.seen| && |s'.g.owner| == |s.g.owner|
    ensures s'.g.log == s.g.log + [Popped(u, a), Popped(u, b), Pushed(u, a)]
  {
    UndisturbedPop(s, u);
    var s1 := Run(s, PopCall(u)).s;
    UndisturbedPop(s1, u);
    var s2 := Run(s1, PopCall(u)).s;
    UndisturbedPush(s2, u, a);
    s' := Run(s2, PushCall(u, a)).s;
    Compose(s, PopCall(u), s1, PopCall(u), s2);
    Compose(s, PopCall(u) + PopCall(u), s2, PushCall(u, a), s');
  }

  /** The stalled thread's swap succeeds on a stale link, and its next pop takes the node behind that link. */
  lemma ResumeStale(s: State, t: nat, a: nat, b: nat) returns (s': State)
    requires t < |s.m.threads| == |s.g.seen| && s.m.threads[t] == PopCas(a, b)
    requires s.m.head == a < |s.m.link| == |s.g.owner| && b < |s.m.link|
    ensures Run(s, [Go(t)] + PopCall(t)) == Next(s')
    ensures s'.g.log == s.g.log + [Popped(t, a), Popped(t, b)]
  {
    var s1 := Step(s, Go(t)).s;
    assert Run(s, [Go(t)]) == Next(s1) by {
      assert [Go(t)][1..] == [];
    }
    UndisturbedPop(s1, t);
    s' := Run(s1, PopCall(t)).s;
    Compose(s, [Go(t)], s1, PopCall(t), s');
  }

  /** Two idle threads and a list of two nodes are enough for a run that hands one node out twice. */
  lemma AbaHandsOutTwice(s: State, t: nat, u: nat)
    requires Inv(s) && t < |s.m.threads| && u < |s.m.threads| && t != u
    requires s.m.threads[t] == Idle && s.m.threads[u] == Idle
    requires |s.g.stack| >= 2
    ensures var a, b := s.g.stack[0], s.g.stack[1];
            var end := Run(s, AbaScript(t, u, a));
            end.Next? && end.s.g.log ==
              s.g.log + [Popped(u, a), Popped(u, b), Pushed(u, a), Popped(t, a), Popped(t, b)]
  {
    var a, b := s.g.stack[0], s.g.stack[1];
    assert s.m.head == a && s.m.link[a] == b && a != b;
    StalledPop(s, t);
    var stalled := [CallPop(t), Go(t), Go(t)];
    var s1 := Run(s, stalled).s;
    var s2 := TakeTwoReturnOne(s1, u, a, b);
    var s3 := ResumeStale(s2, t, a, b);
    Chain(s, t, u, a, s1, s2, s3);
  }

  lemma Chain(s: State, t: nat, u: nat, a: nat, s1: State, s2: State, s3: State)
    requires Run(s, [CallPop(t), Go(t), Go(t)]) == Next(s1)
    requires Run(s1, PopCall(u) + PopCall(u) + PushCall(u, a)) == Next(s2)
    requires Run(s2, [Go(t)] + PopCall(t)) == Next(s3)
    ensures Run(s, AbaScript(t, u, a)) == Next(s3)
  {
    var first, second, third := [CallPop(t), Go(t), Go(t)], PopCall(u) + PopCall(u) + PushCall(u, a), [Go(t)] + PopCall(t);
    Compose(s, first, s1, second, s2);
    Compose(s, first + second, s2, third, s3);
    assert first + second + third == AbaScript(t, u, a);
  }

  /** What the interference produced is no history of an atomic stack: it hands one node to both threads. */
  lemma AbaBreaksTheStack(s: State, t: nat, u: nat)
    requires Inv(s) && t < |s.m.threads| && u < |s.m.threads| && t != u
    requires s.m.threads[t] == Idle && s.m.threads[u] == Idle
    requires |s.g.stack| >= 2
    ensures Run(s, AbaScript(t, u, s.g.stack[0])).Next?
    ensures Replay(Run(s, AbaScript(t, u, s.g.stack[0])).s.g.log) == Illegal
  {
    AbaHandsOutTwice(s, t, u);
    var log, n := Run(s, AbaScript(t, u, s.g.stack[0])).s.g.log, |s.g.log|;
    if Replay(log).Stack? {
      assert log[n + 1] == Popped(u, s.g.stack[1]) && log[n + 4] == Popped(t, s.g.stack[1]);
      NoDoubleHandOut(log, n + 1, n + 4);
    }
  }
}
