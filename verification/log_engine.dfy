/**
  The logger's engine as a step machine. Producers take a record from the free list, fill it and publish it
  by exchanging the queue's tail and storing a link; one worker pops, submits, destroys and recycles records;
  a controller starts the worker and shuts it down, any number of times. Every load, store, exchange and
  compare-and-swap on shared memory is one step.
*/
module LogEngine {
  import opened Steps
  import opened IntrusiveStack

  datatype Option<T> = None | Some(value: T)

  /** What a producer logs; the producer's number tells apart who wrote it. */
  datatype Message = Message(producer: nat, payload: int)

  /** Where a producer stands inside `enqueue`. */
  datatype Producer =
    | Resting
    | LoadFree(payload: int)
    | ReadLink(payload: int, h: int)
    | CasFree(payload: int, h: int, next: int)
    | Drop(payload: int)
    | Fill(payload: int, rec: int)
    | ClearNext(rec: int)
    | Exchange(rec: int)
    | Link(rec: int, prev: int)
    | CountUp

  /** `worker_loop` pops in its main loop and, after `run_` is cleared, in its draining loop. */
  datatype Loop = Main | Drain

  /** What the worker does after returning a record to the free list. */
  datatype After = Process(loop: Loop, rec: int) | Exit

  datatype Worker =
    | Off
    | TestRun
    | EmptyNext
    | EmptyTail
    | PopHeadNext(loop: Loop)
    | PopTail(loop: Loop)
    | PopSpin(loop: Loop)
    | RecycleLoad(after: After)
    | RecycleStore(after: After, h: int)
    | RecycleCas(after: After, h: int)
    | Submit(loop: Loop, rec: int)
    | Destroy(loop: Loop, rec: int)
    | CountWritten(loop: Loop, rec: int)
    | ResetStub
    | ResetHead
    | ResetTail
    | Done

  datatype Control = Stopped | Running | Joining

  /** The program's memory. Records are 0, 1, ..., the queue's `stub_` follows the last record. */
  datatype Memory = Memory(
    next: seq<int>,
    freeNext: seq<int>,
    slot: seq<Option<Message>>,
    head: int,
    tail: int,
    freeHead: int,
    run: bool,
    enqueued: nat,
    written: nat,
    dropped: nat,
    producers: seq<Producer>,
    worker: Worker,
    pending: int,
    control: Control)
  {
    function Stub(): nat { |slot| }
    predicate Record(n: int) { 0 <= n < |slot| }
    predicate Node(n: int) { 0 <= n < |next| }
  }

  /** The counters are 64 bits wide. */
  const COUNTER_RANGE: nat := 0x1_0000_0000_0000_0000

  function Wrap(n: nat): nat { n % COUNTER_RANGE }

  function Bump(counter: nat): nat { Wrap(counter + 1) }

  // ----- Producer: enqueue -----

  function Move(m: Memory, p: nat, pc: Producer): Memory
    requires p < |m.producers|
  {
    m.(producers := m.producers[p := pc])
  }

  /** The swap of `try_pop` takes the record off the free list. */
  predicate PopSucceeds(m: Memory, p: nat, spurious: bool) {
    p < |m.producers| && m.producers[p].CasFree? && !spurious && m.freeHead == m.producers[p].h
  }

  /** `while (h)` of `try_pop`, and the test for null in `enqueue`. */
  function AfterLoad(payload: int, h: int): Producer {
    if h == NULL then Drop(payload) else ReadLink(payload, h)
  }

  function ProducerStep(m: Memory, p: nat, spurious: bool): Outcome<Memory>
    requires p < |m.producers|
  {
    match m.producers[p]
    case Resting => Blocked
    case LoadFree(payload) => Next(Move(m, p, AfterLoad(payload, m.freeHead)))
    case ReadLink(payload, h) =>
      if 0 <= h < |m.freeNext| then Next(Move(m, p, CasFree(payload, h, m.freeNext[h]))) else Fault
    case CasFree(payload, h, next) =>
      if PopSucceeds(m, p, spurious) then Next(Move(m.(freeHead := next), p, Fill(payload, h)))
      else Next(Move(m, p, AfterLoad(payload, m.freeHead)))
    case Drop(payload) => Next(Move(m.(dropped := Bump(m.dropped)), p, Resting))
    case Fill(payload, rec) =>
      // Placement new: the slot must not hold a live object.
      if m.Record(rec) && m.slot[rec].None?
      then Next(Move(m.(slot := m.slot[rec := Some(Message(p, payload))]), p, ClearNext(rec)))
      else Fault
    case ClearNext(rec) =>
      if m.Node(rec) then Next(Move(m.(next := m.next[rec := NULL]), p, Exchange(rec))) else Fault
    case Exchange(rec) => Next(Move(m.(tail := rec), p, Link(rec, m.tail)))
    case Link(rec, prev) =>
      if m.Node(prev) then Next(Move(m.(next := m.next[prev := rec]), p, CountUp)) else Fault
    case CountUp => Next(Move(m.(enqueued := Bump(m.enqueued)), p, Resting))
  }

  // ----- Worker: worker_loop -----

  /** The end of a successful `pop`: advance `head_`, then recycle the record that was pending, if any. */
  function Popped(m: Memory, loop: Loop, node: int): Memory {
    m.(head := node,
       worker := if m.pending != NULL then RecycleLoad(Process(loop, node)) else Submit(loop, node))
  }

  /** `pop` has returned null. */
  function PoppedNothing(m: Memory, loop: Loop): Memory {
    m.(worker := if loop.Main? then TestRun else ResetStub)
  }

  function AfterRecycle(after: After): Worker {
    match after
    case Process(loop, rec) => Submit(loop, rec)
    case Exit => Done
  }

  predicate PushSucceeds(m: Memory, spurious: bool) {
    m.worker.RecycleCas? && !spurious && m.freeHead == m.worker.h
  }

  function WorkerStep(m: Memory, spurious: bool): Outcome<Memory> {
    match m.worker
    case Off => Blocked
    case Done => Blocked
    case TestRun => Next(m.(worker := if m.run then PopHeadNext(Main) else EmptyNext))
    case EmptyNext =>
      if !m.Node(m.head) then Fault
      else Next(m.(worker := if m.next[m.head] != NULL then PopHeadNext(Main) else EmptyTail))
    case EmptyTail => Next(m.(worker := PopHeadNext(if m.tail == m.head then Drain else Main)))
    case PopHeadNext(loop) =>
      if !m.Node(m.head) then Fault
      else if m.next[m.head] == NULL then Next(m.(worker := PopTail(loop)))
      else Next(Popped(m, loop, m.next[m.head]))
    case PopTail(loop) =>
      if m.tail == m.head then Next(PoppedNothing(m, loop)) else Next(m.(worker := PopSpin(loop)))
    case PopSpin(loop) =>
      if !m.Node(m.head) then Fault
      else if m.next[m.head] == NULL then Next(m)
      else Next(Popped(m, loop, m.next[m.head]))
    case RecycleLoad(after) => Next(m.(worker := RecycleStore(after, m.freeHead)))
    case RecycleStore(after, h) =>
      if 0 <= m.pending < |m.freeNext|
      then Next(m.(freeNext := m.freeNext[m.pending := h], worker := RecycleCas(after, h)))
      else Fault
    case RecycleCas(after, h) =>
      if PushSucceeds(m, spurious) then Next(m.(freeHead := m.pending, worker := AfterRecycle(after)))
      else Next(m.(worker := RecycleStore(after, m.freeHead)))
    case Submit(loop, rec) =>
      if m.Record(rec) && m.slot[rec].Some? then Next(m.(worker := Destroy(loop, rec))) else Fault
    case Destroy(loop, rec) =>
      if m.Record(rec) && m.slot[rec].Some?
      then Next(m.(slot := m.slot[rec := None], worker := CountWritten(loop, rec)))
      else Fault
    case CountWritten(loop, rec) =>
      Next(m.(written := Bump(m.written), pending := rec,
              worker := if loop.Main? then TestRun else PopHeadNext(Drain)))
    case ResetStub =>
      if m.Node(m.Stub()) then Next(m.(next := m.next[m.Stub() := NULL], worker := ResetHead)) else Fault
    case ResetHead => Next(m.(head := m.Stub(), worker := ResetTail))
    case ResetTail =>
      Next(m.(tail := m.Stub(), worker := if m.pending != NULL then RecycleLoad(Exit) else Done))
  }

  // ----- All actions -----

  datatype Action =
    | Enqueue(p: nat, payload: int)
    | Produce(p: nat, spurious: bool)
    | Work(spurious: bool)
    | Start
    | Shutdown
    | Join

  predicate AllResting(m: Memory) {
    forall p :: 0 <= p < |m.producers| ==> m.producers[p].Resting?
  }

  /**
    Callers start and stop the engine from one thread, and shut it down only between calls of `enqueue`;
    `shutdown` does not return before the worker is done.
  */
  function MemoryStep(m: Memory, a: Action): Outcome<Memory> {
    match a
    case Enqueue(p, payload) =>
      if p < |m.producers| && m.producers[p].Resting? && !m.control.Joining?
      then Next(Move(m, p, LoadFree(payload))) else Blocked
    case Produce(p, spurious) => if p < |m.producers| then ProducerStep(m, p, spurious) else Blocked
    case Work(spurious) => WorkerStep(m, spurious)
    case Start =>
      if m.control.Joining? then Blocked
      else if m.run then Next(m)
      else Next(m.(run := true, worker := TestRun, pending := NULL, control := Running))
    case Shutdown =>
      if m.control.Joining? || !AllResting(m) then Blocked
      else if !m.run then Next(m)
      else Next(m.(run := false, control := Joining))
    case Join =>
      if m.control.Joining? && m.worker.Done? then Next(m.(worker := Off, control := Stopped)) else Blocked
  }

  // ----- What an observer records -----

  /** Where a pool record is. */
  datatype Place = Free | HeldBy(producer: nat) | Queued | Recycling

  /**
    `chain` lists the queue's nodes from `head_` to `tail_` in exchange order, `stack` the free list; `sent`,
    `submitted` and `destroyed` are the messages in the order of those events; `calls[p]` are the payloads
    producer `p` asked to log and did not drop, in call order; `started` counts the calls of `enqueue`. No step of
    the program reads any of it.
  */
  datatype Trail = Trail(
    chain: seq<int>,
    stack: seq<int>,
    place: seq<Place>,
    sent: seq<Message>,
    submitted: seq<Message>,
    destroyed: seq<Message>,
    calls: seq<seq<int>>,
    started: nat,
    counted: nat,
    tallied: nat,
    drops: nat)

  datatype State = State(m: Memory, g: Trail)

  function Put(place: seq<Place>, n: int, where: Place): seq<Place> {
    if 0 <= n < |place| then place[n := where] else place
  }

  function Butlast<T>(s: seq<T>): seq<T> { if s == [] then [] else s[..|s| - 1] }

  function Rest<T>(s: seq<T>): seq<T> { if s == [] then [] else s[1..] }

  function Told(m: Memory, rec: int): seq<Message> {
    if m.Record(rec) && m.slot[rec].Some? then [m.slot[rec].value] else []
  }

  function ProducerTrail(g: Trail, m: Memory, p: nat, spurious: bool): Trail
    requires p < |m.producers|
  {
    match m.producers[p]
    case CasFree(payload, h, next) =>
      if PopSucceeds(m, p, spurious) then g.(stack := Rest(g.stack), place := Put(g.place, h, HeldBy(p))) else g
    case Drop(payload) =>
      g.(drops := g.drops + 1, calls := if p < |g.calls| then g.calls[p := Butlast(g.calls[p])] else g.calls)
    case Exchange(rec) =>
      g.(chain := g.chain + [rec], place := Put(g.place, rec, Queued), sent := g.sent + Told(m, rec))
    case CountUp => g.(counted := g.counted + 1)
    case _ => g
  }

  function WorkerTrail(g: Trail, m: Memory, spurious: bool): Trail {
    match m.worker
    case PopHeadNext(loop) => if m.Node(m.head) && m.next[m.head] != NULL then PopTrail(g, m) else g
    case PopSpin(loop) => if m.Node(m.head) && m.next[m.head] != NULL then PopTrail(g, m) else g
    case RecycleCas(after, h) =>
      if PushSucceeds(m, spurious) then g.(stack := [m.pending] + g.stack, place := Put(g.place, m.pending, Free))
      else g
    case Submit(loop, rec) => g.(submitted := g.submitted + Told(m, rec))
    case Destroy(loop, rec) => g.(destroyed := g.destroyed + Told(m, rec))
    case CountWritten(loop, rec) => g.(tallied := g.tallied + 1)
    case ResetHead => g.(chain := [m.Stub()], place := Put(g.place, m.pending, Recycling))
    case _ => g
  }

  function PopTrail(g: Trail, m: Memory): Trail {
    g.(chain := Rest(g.chain), place := Put(g.place, m.pending, Recycling))
  }

  function TrailStep(g: Trail, m: Memory, a: Action): Trail {
    match a
    case Enqueue(p, payload) =>
      g.(started := g.started + 1, calls := if p < |g.calls| then g.calls[p := g.calls[p] + [payload]] else g.calls)
    case Produce(p, spurious) => if p < |m.producers| then ProducerTrail(g, m, p, spurious) else g
    case Work(spurious) => WorkerTrail(g, m, spurious)
    case _ => g
  }

  function Step(s: State, a: Action): Outcome<State> {
    match MemoryStep(s.m, a)
    case Blocked => Blocked
    case Fault => Fault
    case Next(m) => Next(State(m, TrailStep(s.g, s.m, a)))
  }

  function Run(s: State, actions: seq<Action>): Outcome<State>
    decreases |actions|
  {
    if actions == [] then Next(s)
    else
      match Step(s, actions[0])
      case Blocked => Blocked
      case Fault => Fault
      case Next(s') => Run(s', actions[1..])
  }

  /** The constructor pushes record 0, then 1, and so on; the last record ends on top. */
  function Init(pool: nat, producers: nat): State {
    State(
      Memory(seq(pool + 1, i => NULL), seq(pool, i => i - 1), seq(pool, i => None), pool, pool, pool - 1,
             false, 0, 0, 0, seq(producers, i => Resting), Off, NULL, Stopped),
      Trail([pool], seq(pool, i => pool - 1 - i), seq(pool, i => Free), [], [], [],
            seq(producers, i => []), 0, 0, 0, 0))
  }
}
