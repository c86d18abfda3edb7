/** What every step of the engine keeps. */
module LogEngineInvariant {
  import opened Sequences
  import opened Steps
  import opened IntrusiveStack
  import opened LogEngine

  // ----- The free list and the place of every record -----

  /** The record that a producer owns between taking it from the free list and the tail exchange. */
  predicate Holds(pc: Producer, r: int) {
    (pc.Fill? || pc.ClearNext? || pc.Exchange?) && pc.rec == r
  }

  predicate PushingBack(w: Worker) { w.RecycleLoad? || w.RecycleStore? || w.RecycleCas? }

  /** The worker owns its pending record while it is on its way back to the free list. */
  predicate WorkerHolds(m: Memory, r: int) {
    (PushingBack(m.worker) || m.worker.ResetTail?) && m.pending == r
  }

  ghost predicate Shape(m: Memory, g: Trail) {
    && |m.next| == |m.slot| + 1 && |m.freeNext| == |m.slot| && |g.place| == |m.slot|
    && |g.calls| == |m.producers|
    && (forall i :: 0 <= i < |m.freeNext| ==> NULL <= m.freeNext[i] < |m.slot|)
  }

  ghost predicate PlacesOk(m: Memory, g: Trail)
    requires Shape(m, g)
  {
    forall r :: 0 <= r < |m.slot| ==> PlaceOk(m, g, r)
  }

  ghost predicate PlaceOk(m: Memory, g: Trail, r: nat)
    requires r < |g.place|
  {
    && (g.place[r] == Free <==> r in g.stack)
    && (g.place[r] == Queued <==> r in g.chain)
    && (g.place[r] == Recycling <==> WorkerHolds(m, r))
    && (g.place[r].HeldBy? ==>
          g.place[r].producer < |m.producers| && Holds(m.producers[g.place[r].producer], r))
  }

  // ----- The queue -----

  ghost predicate Owed(m: Memory, x: int, y: int) {
    exists p :: 0 <= p < |m.producers| && m.producers[p] == Link(y, x)
  }

  ghost predicate LinkOk(m: Memory, x: int, y: int) {
    m.Node(x) && (m.next[x] == y || (m.next[x] == NULL && Owed(m, x, y)))
  }

  ghost predicate ChainOk(m: Memory, g: Trail) {
    && g.chain != [] && Distinct(g.chain)
    && (forall i :: 0 <= i < |g.chain| ==> m.Node(g.chain[i]) && (i > 0 ==> m.Record(g.chain[i])))
    && g.chain[0] == m.head
    && (m.worker.ResetTail? || g.chain[|g.chain| - 1] == m.tail)
    && m.next[g.chain[|g.chain| - 1]] == NULL
    && (forall i :: 0 <= i < |g.chain| - 1 ==> LinkOk(m, g.chain[i], g.chain[i + 1]))
  }

  // ----- Producers -----

  ghost predicate Consecutive(chain: seq<int>, x: int, y: int) {
    exists i :: 0 <= i < |chain| - 1 && chain[i] == x && chain[i + 1] == y
  }

  ghost predicate ProducerOk(m: Memory, g: Trail, p: nat)
    requires Shape(m, g) && p < |m.producers|
  {
    match m.producers[p]
    case ReadLink(_, h) => m.Record(h)
    case CasFree(_, h, next) => m.Record(h) && NULL <= next < |m.slot|
    case Fill(_, rec) => m.Record(rec) && g.place[rec] == HeldBy(p) && m.slot[rec].None?
    case ClearNext(rec) => m.Record(rec) && g.place[rec] == HeldBy(p) && Filled(m, rec, p)
    case Exchange(rec) => m.Record(rec) && g.place[rec] == HeldBy(p) && Filled(m, rec, p) && m.next[rec] == NULL
    case Link(rec, prev) =>
      Consecutive(g.chain, prev, rec) && m.Node(prev) && m.Record(rec) && m.next[prev] == NULL
    case _ => true
  }

  predicate Filled(m: Memory, rec: int, p: nat) {
    m.Record(rec) && m.slot[rec].Some? && m.slot[rec].value.producer == p
  }

  ghost predicate ProducersOk(m: Memory, g: Trail)
    requires Shape(m, g)
  {
    && (forall p :: 0 <= p < |m.producers| ==> ProducerOk(m, g, p))
    && (forall p, q :: 0 <= p < q < |m.producers| && m.producers[p].Link? && m.producers[q].Link? ==>
          m.producers[p].rec != m.producers[q].rec)
  }

  // ----- The worker -----

  /** Between two pops the record popped last, not yet recycled, is the queue's dummy head. */
  predicate AtDummy(m: Memory) {
    if m.pending == NULL then m.head == m.Stub() else m.pending == m.head && m.Record(m.head)
  }

  predicate Draining(w: Worker) {
    match w
    case EmptyNext => true
    case EmptyTail => true
    case PopHeadNext(loop) => loop.Drain?
    case PopTail(loop) => loop.Drain?
    case PopSpin(loop) => loop.Drain?
    case RecycleLoad(after) => Late(after)
    case RecycleStore(after, _) => Late(after)
    case RecycleCas(after, _) => Late(after)
    case Submit(loop, _) => loop.Drain?
    case Destroy(loop, _) => loop.Drain?
    case CountWritten(loop, _) => loop.Drain?
    case ResetStub => true
    case ResetHead => true
    case ResetTail => true
    case Done => true
    case _ => false
  }

  predicate Late(after: After) { after.Exit? || after.loop.Drain? }

  ghost predicate WorkerOk(m: Memory, g: Trail)
    requires Shape(m, g)
  {
    && (m.run <==> m.control.Running?)
    && (m.control.Stopped? <==> m.worker.Off?)
    && (Draining(m.worker) ==> m.control.Joining?)
    && (m.control.Joining? ==> AllResting(m))
    && PhaseOk(m, g)
  }

  ghost predicate PhaseOk(m: Memory, g: Trail)
    requires Shape(m, g)
  {
    match m.worker
    case Off => m.head == m.Stub()
    case TestRun => AtDummy(m)
    case EmptyNext => AtDummy(m)
    case EmptyTail => AtDummy(m)
    case PopHeadNext(_) => AtDummy(m)
    case PopTail(_) => AtDummy(m)
    case PopSpin(_) => AtDummy(m) && |g.chain| > 1
    case RecycleLoad(after) => AfterOk(m, g, after)
    case RecycleStore(after, h) => AfterOk(m, g, after) && NULL <= h < |m.slot|
    case RecycleCas(after, h) => AfterOk(m, g, after) && m.freeNext[m.pending] == h
    case Submit(_, rec) => rec == m.head && m.Record(rec)
    case Destroy(_, rec) => rec == m.head && m.Record(rec)
    case CountWritten(_, rec) => rec == m.head && m.Record(rec)
    case ResetStub => AtDummy(m) && |g.chain| == 1
    case ResetHead => AtDummy(m) && |g.chain| == 1 && m.next[m.Stub()] == NULL
    case ResetTail => m.head == m.Stub() && |g.chain| == 1 && (m.pending == NULL || m.Record(m.pending))
    case Done => m.head == m.Stub() && |g.chain| == 1
  }

  ghost predicate AfterOk(m: Memory, g: Trail, after: After)
    requires Shape(m, g)
  {
    && m.Record(m.pending)
    && (if after.Exit? then m.head == m.Stub() && |g.chain| == 1 else after.rec == m.head && m.Record(m.head))
  }

  // ----- The messages -----

  predicate BeforeSubmit(w: Worker) {
    w.Submit? || (PushingBack(w) && w.after.Process?)
  }

  predicate BeforeDestroy(w: Worker) { BeforeSubmit(w) || w.Destroy? }

  predicate BeforeCount(w: Worker) { BeforeDestroy(w) || w.CountWritten? }

  function One(b: bool): nat { if b then 1 else 0 }

  /** How many messages the worker has popped. */
  function Taken(g: Trail): int { |g.sent| - |g.chain| + 1 }

  ghost predicate MessagesOk(m: Memory, g: Trail) {
    && g.chain != []
    && Taken(g) >= One(BeforeCount(m.worker))
    && g.submitted == g.sent[..Taken(g) - One(BeforeSubmit(m.worker))]
    && g.destroyed == g.sent[..Taken(g) - One(BeforeDestroy(m.worker))]
    && (forall i :: 1 <= i < |g.chain| ==>
          m.Record(g.chain[i]) && m.slot[g.chain[i]] == Some(g.sent[Taken(g) + i - 1]))
    && (m.Record(g.chain[0]) ==>
          m.slot[g.chain[0]] == if BeforeDestroy(m.worker) then Some(g.sent[Taken(g) - 1]) else None)
  }

  ghost predicate VacantOk(m: Memory, g: Trail)
    requires Shape(m, g)
  {
    forall r :: 0 <= r < |m.slot| && (g.place[r] == Free || g.place[r] == Recycling) ==> m.slot[r].None?
  }

  /** The payloads of producer `p`'s messages, in order. */
  function By(sent: seq<Message>, p: nat): seq<int> {
    if sent == [] then []
    else By(sent[..|sent| - 1], p) + if sent[|sent| - 1].producer == p then [sent[|sent| - 1].payload] else []
  }

  /** The payload of a call that has not reached the tail exchange. */
  function InFlight(m: Memory, p: nat): seq<int>
    requires p < |m.producers|
  {
    match m.producers[p]
    case LoadFree(payload) => [payload]
    case ReadLink(payload, _) => [payload]
    case CasFree(payload, _, _) => [payload]
    case Drop(payload) => [payload]
    case Fill(payload, _) => [payload]
    case ClearNext(rec) => if m.Record(rec) && m.slot[rec].Some? then [m.slot[rec].value.payload] else []
    case Exchange(rec) => if m.Record(rec) && m.slot[rec].Some? then [m.slot[rec].value.payload] else []
    case _ => []
  }

  ghost predicate CallsOk(m: Memory, g: Trail)
    requires Shape(m, g)
  {
    forall p :: 0 <= p < |m.producers| ==> CallOk(m, g, p)
  }

  ghost predicate CallOk(m: Memory, g: Trail, p: nat)
    requires p < |m.producers| == |g.calls|
  {
    g.calls[p] == By(g.sent, p) + InFlight(m, p)
  }

  // ----- The counters -----

  predicate Uncounted(pc: Producer) { pc.Link? || pc.CountUp? }

  ghost predicate CountsOk(m: Memory, g: Trail) {
    && |g.sent| == g.counted + Count(m.producers, Uncounted)
    && g.tallied == Taken(g) - One(BeforeCount(m.worker))
    && m.enqueued == Wrap(g.counted) && m.written == Wrap(g.tallied) && m.dropped == Wrap(g.drops)
  }

  ghost predicate Inv(s: State) {
    && Shape(s.m, s.g)
    && IsStack(s.m.freeHead, s.m.freeNext, s.g.stack)
    && PlacesOk(s.m, s.g)
    && ChainOk(s.m, s.g)
    && ProducersOk(s.m, s.g)
    && WorkerOk(s.m, s.g)
    && MessagesOk(s.m, s.g)
    && VacantOk(s.m, s.g)
    && CallsOk(s.m, s.g)
    && CountsOk(s.m, s.g)
  }

  lemma CountersAdvance(n: nat)
    ensures Bump(Wrap(n)) == Wrap(n + 1)
  {
  }

  /** A successful `try_pop` swings the head to what is still the popped record's link. */
  predicate Benign(m: Memory, a: Action) {
    (a.Produce? && PopSucceeds(m, a.p, a.spurious) && 0 <= m.freeHead < |m.freeNext|) ==>
      m.producers[a.p].next == m.freeNext[m.freeHead]
  }

  lemma InitSatisfiesInv(pool: nat, producers: nat)
    ensures Inv(Init(pool, producers))
  {
    var s := Init(pool, producers);
    CountExtremes(s.m.producers, Uncounted);
    forall r | 0 <= r < pool ensures PlaceOk(s.m, s.g, r) {
      assert s.g.stack[pool - 1 - r] == r;
    }
  }
}
