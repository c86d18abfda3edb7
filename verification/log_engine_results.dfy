/** The promises of the log engine, read off the invariant of its ABA-free runs. */
module LogEngineResults {
  import opened Sequences
  import opened Steps
  import opened IntrusiveStack
  import opened LogEngine
  import opened LogEngineInvariant
  import opened LogEngineTheorems

  // ----- A first-in first-out log -----

  /** The messages in the slots of `nodes`. */
  function Contents(m: Memory, nodes: seq<int>): seq<Message> {
    if nodes == [] then [] else Told(m, nodes[0]) + Contents(m, nodes[1..])
  }

  /** What memory still holds of messages that were exchanged in and not submitted. */
  function Waiting(s: State): seq<Message> {
    (if BeforeSubmit(s.m.worker) then Told(s.m, s.m.head) else []) + Contents(s.m, Rest(s.g.chain))
  }

  lemma {:induction false} ContentsAre(m: Memory, nodes: seq<int>, messages: seq<Message>)
    requires |nodes| == |messages|
    requires forall i :: 0 <= i < |nodes| ==> m.Record(nodes[i]) && m.slot[nodes[i]] == Some(messages[i])
    ensures Contents(m, nodes) == messages
  {
    if nodes == [] {
    } else {
      ContentsAre(m, nodes[1..], messages[1..]);
      assert messages == [messages[0]] + messages[1..];
    }
  }

  lemma WaitingIsTheRest(m: Memory, g: Trail)
    requires MessagesOk(m, g) && g.chain[0] == m.head && (BeforeSubmit(m.worker) ==> m.Record(m.head))
    ensures |g.submitted| <= |g.sent| && g.submitted == g.sent[..|g.submitted|]
    ensures Waiting(State(m, g)) == g.sent[|g.submitted|..]
  {
    var k, rest := Taken(g), Rest(g.chain);
    forall i | 0 <= i < |rest| ensures m.Record(rest[i]) && m.slot[rest[i]] == Some(g.sent[k..][i]) {
      assert rest[i] == g.chain[i + 1];
    }
    ContentsAre(m, rest, g.sent[k..]);
    if BeforeSubmit(m.worker) {
      assert g.sent[k - 1..] == [g.sent[k - 1]] + g.sent[k..];
    }
  }

  /** The submitted messages are the first of the sent ones, and memory holds the others. */
  lemma WaitingIsUnsubmitted(s: State)
    requires Inv(s)
    ensures |s.g.submitted| <= |s.g.sent| && s.g.submitted == s.g.sent[..|s.g.submitted|]
    ensures Waiting(s) == s.g.sent[|s.g.submitted|..]
  {
    WaitingIsTheRest(s.m, s.g);
  }

  lemma {:induction false} ByPrefix(xs: seq<Message>, ys: seq<Message>, p: nat)
    requires xs <= ys
    ensures By(xs, p) <= By(ys, p)
    decreases |ys|
  {
    if |xs| < |ys| {
      ByPrefix(xs, ys[..|ys| - 1], p);
    } else {
      assert xs == ys;
    }
  }

  lemma CallsInOrder(s: State, p: nat)
    requires Inv(s) && p < |s.m.producers|
    ensures p < |s.g.calls| && By(s.g.sent, p) <= s.g.calls[p]
  {
    assert CallOk(s.m, s.g, p);
  }

  lemma DestroyedAfterSubmitted(s: State)
    requires Inv(s)
    ensures s.g.destroyed <= s.g.submitted && |s.g.submitted| <= |s.g.destroyed| + 1
  {
  }

  /**
    In every reachable state the submitted messages are the first of the sent ones, in tail-exchange order;
    the rest are in memory untouched; each producer's messages come out in the order of its calls; and no
    payload is destroyed before it is submitted.
  */
  lemma SubmittedInExchangeOrder(pool: nat, producers: nat, s: State)
    requires Reachable(pool, producers, s)
    ensures s.g.submitted + Waiting(s) == s.g.sent
    ensures forall p :: 0 <= p < |s.m.producers| ==> p < |s.g.calls| && By(s.g.submitted, p) <= s.g.calls[p]
    ensures s.g.destroyed <= s.g.submitted && |s.g.submitted| <= |s.g.destroyed| + 1
  {
    ReachableInv(pool, producers, s);
    WaitingIsUnsubmitted(s);
    DestroyedAfterSubmitted(s);
    forall p | 0 <= p < |s.m.producers| ensures p < |s.g.calls| && By(s.g.submitted, p) <= s.g.calls[p] {
      CallsInOrder(s, p);
      ByPrefix(s.g.submitted, s.g.sent, p);
    }
  }

  /** The log that the engine stands for: messages accepted and not yet written, and messages written. */
  datatype Log = Log(waiting: seq<Message>, output: seq<Message>)

  /** What a step does to the log. */
  datatype Effect = Accept(message: Message) | Write | Nothing

  predicate LogStep(l: Log, e: Effect, l': Log) {
    match e
    case Accept(message) => l' == l.(waiting := l.waiting + [message])
    case Write => l.waiting != [] && l' == Log(l.waiting[1..], l.output + [l.waiting[0]])
    case Nothing => l' == l
  }

  function Abstract(s: State): Log { Log(Waiting(s), s.g.submitted) }

  /** The tail exchange accepts the message in the producer's record; calling `submit_fn` writes the oldest. */
  function EffectOf(m: Memory, a: Action): Effect {
    if a.Produce? && a.p < |m.producers| && m.producers[a.p].Exchange? && Told(m, m.producers[a.p].rec) != [] then
      Accept(Told(m, m.producers[a.p].rec)[0])
    else if a.Work? && m.worker.Submit? then Write
    else Nothing
  }

  lemma TrailFollowsEffect(s: State, a: Action)
    requires Step(s, a).Next?
    ensures var s' := Step(s, a).s;
            match EffectOf(s.m, a)
            case Accept(message) => s'.g.sent == s.g.sent + [message] && s'.g.submitted == s.g.submitted
            case Write => s'.g.sent == s.g.sent && |s'.g.submitted| == |s.g.submitted| + 1
            case Nothing => s'.g.sent == s.g.sent && s'.g.submitted == s.g.submitted
  {
  }

  /** Every step of the engine has exactly its effect on the log. */
  lemma StepRefinesLog(s: State, a: Action)
    requires Inv(s) && Benign(s.m, a) && Step(s, a).Next?
    ensures LogStep(Abstract(s), EffectOf(s.m, a), Abstract(Step(s, a).s))
  {
    StepKeepsInv(s, a);
    WaitingIsUnsubmitted(s);
    WaitingIsUnsubmitted(Step(s, a).s);
    TrailFollowsEffect(s, a);
    LogGrows(s.g.sent, s.g.submitted, EffectOf(s.m, a), Step(s, a).s.g.sent, Step(s, a).s.g.submitted);
  }

  lemma LogGrows(sent: seq<Message>, out: seq<Message>, e: Effect, sent': seq<Message>, out': seq<Message>)
    requires |out| <= |sent| && out == sent[..|out|] && |out'| <= |sent'| && out' == sent'[..|out'|]
    requires e.Accept? ==> sent' == sent + [e.message] && out' == out
    requires e.Write? ==> sent' == sent && |out'| == |out| + 1
    requires e.Nothing? ==> sent' == sent && out' == out
    ensures LogStep(Log(sent[|out|..], out), e, Log(sent'[|out'|..], out'))
  {
    if e.Accept? {
      assert sent'[|out|..] == sent[|out|..] + [e.message];
    } else if e.Write? {
      assert sent[|out|..][0] == sent[|out|] && sent[|out|..][1..] == sent[|out'|..];
      assert out' == out + [sent[|out|]];
    }
  }

  /** The effects of a run's steps, in order. */
  function Effects(s: State, actions: seq<Action>): seq<Effect>
    decreases |actions|
  {
    if actions == [] || !Step(s, actions[0]).Next? then []
    else [EffectOf(s.m, actions[0])] + Effects(Step(s, actions[0]).s, actions[1..])
  }

  ghost predicate LogRun(l: Log, effects: seq<Effect>, l': Log)
    decreases |effects|
  {
    if effects == [] then l' == l
    else exists mid :: LogStep(l, effects[0], mid) && LogRun(mid, effects[1..], l')
  }

  /** An ABA-free run is a run of the first-in first-out log. */
  lemma {:induction false} RunRefinesLog(s: State, actions: seq<Action>)
    requires Inv(s) && AbaFree(s, actions) && Run(s, actions).Next?
    ensures LogRun(Abstract(s), Effects(s, actions), Abstract(Run(s, actions).s))
    decreases |actions|
  {
    if actions == [] {
    } else {
      StepKeepsInv(s, actions[0]);
      StepRefinesLog(s, actions[0]);
      var s' := Step(s, actions[0]).s;
      RunRefinesLog(s', actions[1..]);
      LogRunFrom(Abstract(s), EffectOf(s.m, actions[0]), Abstract(s'), Effects(s', actions[1..]),
                 Abstract(Run(s, actions).s));
    }
  }

  lemma LogRunFrom(l: Log, e: Effect, mid: Log, effects: seq<Effect>, l': Log)
    requires LogStep(l, e, mid) && LogRun(mid, effects, l')
    ensures LogRun(l, [e] + effects, l')
  {
    assert ([e] + effects)[1..] == effects;
  }

  // ----- Pop and empty, seen by the worker -----

  /** The queue's messages, oldest first: exchanged in, not yet popped. */
  function Queue(s: State): seq<Message> { Contents(s.m, Rest(s.g.chain)) }

  lemma QueueIsUntaken(m: Memory, g: Trail)
    requires MessagesOk(m, g)
    ensures 0 <= Taken(g) <= |g.sent| && Contents(m, Rest(g.chain)) == g.sent[Taken(g)..]
    ensures |Contents(m, Rest(g.chain))| == |g.chain| - 1
  {
    var k, rest := Taken(g), Rest(g.chain);
    forall i | 0 <= i < |rest| ensures m.Record(rest[i]) && m.slot[rest[i]] == Some(g.sent[k..][i]) {
      assert rest[i] == g.chain[i + 1];
    }
    ContentsAre(m, rest, g.sent[k..]);
  }

  lemma QueueOf(s: State)
    requires Inv(s)
    ensures 0 <= Taken(s.g) <= |s.g.sent| && Queue(s) == s.g.sent[Taken(s.g)..]
    ensures |Queue(s)| == |s.g.chain| - 1
  {
    QueueIsUntaken(s.m, s.g);
  }

  predicate InPop(w: Worker) { w.PopHeadNext? || w.PopTail? || w.PopSpin? }

  predicate InEmpty(w: Worker) { w.EmptyNext? || w.EmptyTail? }

  /** `pop` has just returned a record, or null. */
  predicate ReturnsRecord(m: Memory, m': Memory) { InPop(m.worker) && BeforeSubmit(m'.worker) }

  predicate ReturnsNull(m: Memory, m': Memory) {
    InPop(m.worker) && (m'.worker.TestRun? || m'.worker.ResetStub?)
  }

  lemma PopCases(m: Memory, spurious: bool)
    requires InPop(m.worker) && WorkerStep(m, spurious).Next?
    ensures var m' := WorkerStep(m, spurious).s;
            && m'.slot == m.slot
            && (ReturnsRecord(m, m') <==> !m.worker.PopTail? && m.Node(m.head) && m.next[m.head] != NULL)
            && (ReturnsNull(m, m') <==> m.worker.PopTail? && m.tail == m.head)
            && (ReturnsRecord(m, m') ==> m'.head == m.next[m.head])
            && (!ReturnsRecord(m, m') ==> m'.head == m.head)
    ensures forall g :: var g' := WorkerTrail(g, m, spurious);
              g'.sent == g.sent && g'.chain == if ReturnsRecord(m, WorkerStep(m, spurious).s) then Rest(g.chain) else g.chain
  {
  }

  /** The chain's ends tell whether it is a single dummy. */
  lemma EndsTell(s: State)
    requires ChainOk(s.m, s.g) && !s.m.worker.ResetTail?
    ensures s.m.tail == s.m.head <==> |s.g.chain| == 1
    ensures s.m.Node(s.m.head) && (s.m.next[s.m.head] != NULL ==> |s.g.chain| > 1)
  {
    var last := |s.g.chain| - 1;
    assert s.g.chain[0] == s.g.chain[last] <==> last == 0;
  }

  lemma PopStepForm(s: State, spurious: bool)
    requires Inv(s) && InPop(s.m.worker)
    ensures var r := Step(s, Work(spurious));
            && r.Next? && Inv(r.s) && r.s.g.sent == s.g.sent
            && Taken(r.s.g) == Taken(s.g) + One(ReturnsRecord(s.m, r.s.m))
            && (ReturnsNull(s.m, r.s.m) ==> |s.g.chain| == 1)
            && (ReturnsRecord(s.m, r.s.m) ==> |s.g.chain| > 1)
  {
    StepKeepsInv(s, Work(spurious));
    EndsTell(s);
    PopCases(s.m, spurious);
  }

  /**
    `pop` is a first-in first-out dequeue: the step at which it returns a record takes the oldest message,
    which that record holds; it returns null only at a step where the queue is empty; its other steps
    leave the queue alone.
  */
  lemma PopIsDequeue(s: State, spurious: bool)
    requires Inv(s) && InPop(s.m.worker)
    ensures var r := Step(s, Work(spurious));
            && r.Next?
            && (ReturnsRecord(s.m, r.s.m) ==>
                  Queue(s) != [] && Told(r.s.m, r.s.m.head) == [Queue(s)[0]] && Queue(r.s) == Queue(s)[1..])
            && (ReturnsNull(s.m, r.s.m) ==> Queue(s) == [] && Queue(r.s) == [])
            && (!ReturnsRecord(s.m, r.s.m) ==> Queue(r.s) == Queue(s))
  {
    PopStepForm(s, spurious);
    var s' := Step(s, Work(spurious)).s;
    QueueOf(s);
    QueueOf(s');
    if ReturnsRecord(s.m, s'.m) {
      HeadInHand(s');
    }
  }

  lemma HeadInHand(s: State)
    requires Inv(s) && BeforeSubmit(s.m.worker)
    ensures Taken(s.g) > 0 && Told(s.m, s.m.head) == [s.g.sent[Taken(s.g) - 1]]
  {
  }

  /**
    `empty()` answers exactly, at its last load, also while any number of producers are between exchange and link
    store: all it needs of the state is the chain and the messages in it.
  */
  lemma EmptyIsExact(s: State, spurious: bool)
    requires ChainOk(s.m, s.g) && MessagesOk(s.m, s.g) && InEmpty(s.m.worker)
    ensures var r := Step(s, Work(spurious));
            && r.Next?
            && (r.s.m.worker == PopHeadNext(Drain) ==> Queue(s) == [])
            && (r.s.m.worker == PopHeadNext(Main) ==> Queue(s) != [])
            && r.s.m.worker in {EmptyTail, PopHeadNext(Drain), PopHeadNext(Main)}
  {
    EndsTell(s);
    QueueIsUntaken(s.m, s.g);
  }

  // ----- Delayed recycling -----

  /** While the worker uses the record it has popped, that record is the dummy head and nobody else's. */
  lemma PoppedRecordStaysDummy(s: State)
    requires Inv(s) && BeforeCount(s.m.worker)
    ensures s.m.Record(s.m.head) && s.m.head !in s.g.stack
    ensures s.m.worker.Submit? || s.m.worker.Destroy? || s.m.worker.CountWritten? ==> s.m.worker.rec == s.m.head
    ensures forall p :: 0 <= p < |s.m.producers| ==> !Holds(s.m.producers[p], s.m.head)
  {
    assert PlaceOk(s.m, s.g, s.m.head) && s.g.chain[0] in s.g.chain;
    forall p | 0 <= p < |s.m.producers| ensures !Holds(s.m.producers[p], s.m.head) {
      assert ProducerOk(s.m, s.g, p);
    }
  }

  /**
    Why it may not be recycled at once: while it is the only node of the chain, the tail is still that record, and
    the next producer to exchange the tail goes on to store the record's link.
  */
  lemma PoppedRecordMayStillBeWritten(s: State, p: nat, spurious: bool)
    requires Inv(s) && BeforeCount(s.m.worker) && |s.g.chain| == 1
    requires p < |s.m.producers| && s.m.producers[p].Exchange?
    ensures var r := Step(s, Produce(p, spurious));
            && r.Next? && r.s.m.producers[p] == Link(s.m.producers[p].rec, s.m.head)
            && r.s.m.worker == s.m.worker && r.s.m.head == s.m.head
  {
    EndsTell(s);
  }

  /**
    When a record is on its way back to the free list, it has left the queue, no producer owes a store to its
    link, and nobody else holds it.
  */
  lemma RecycledRecordIsQuiet(s: State)
    requires Inv(s) && PushingBack(s.m.worker)
    ensures s.m.Record(s.m.pending) && s.m.pending !in s.g.chain && s.m.pending !in s.g.stack
    ensures s.m.pending != s.m.head && s.m.pending != s.m.tail
    ensures forall p :: 0 <= p < |s.m.producers| ==>
              && !Holds(s.m.producers[p], s.m.pending)
              && (s.m.producers[p].Link? ==> s.m.producers[p].prev != s.m.pending && s.m.producers[p].rec != s.m.pending)
  {
    assert PlaceOk(s.m, s.g, s.m.pending);
    assert s.g.chain[0] in s.g.chain && s.g.chain[|s.g.chain| - 1] in s.g.chain;
    forall p | 0 <= p < |s.m.producers|
      ensures !Holds(s.m.producers[p], s.m.pending)
      ensures s.m.producers[p].Link? ==> s.m.producers[p].prev != s.m.pending && s.m.producers[p].rec != s.m.pending
    {
      assert ProducerOk(s.m, s.g, p);
    }
  }

  /** A producer never pushes a node that is in the queue, so no node is linked to itself. */
  lemma PushedRecordIsOutside(s: State, p: nat)
    requires Inv(s) && p < |s.m.producers|
    ensures s.m.producers[p].ClearNext? || s.m.producers[p].Exchange? ==>
              s.m.producers[p].rec !in s.g.chain && s.m.producers[p].rec !in s.g.stack
    ensures s.m.producers[p].Link? ==> s.m.producers[p].rec != s.m.producers[p].prev
  {
    assert ProducerOk(s.m, s.g, p);
    var pc := s.m.producers[p];
    if pc.ClearNext? || pc.Exchange? {
      assert PlaceOk(s.m, s.g, pc.rec);
    }
  }

  // ----- Conservation -----

  predicate HeldBySome(m: Memory, r: int) {
    exists p :: 0 <= p < |m.producers| && Holds(m.producers[p], r)
  }

  /** Every record is in exactly one place, and held by at most one producer. */
  lemma EveryRecordIsInOnePlace(s: State, r: nat)
    requires Inv(s) && r < |s.m.slot|
    ensures One(r in s.g.stack) + One(r in s.g.chain) + One(HeldBySome(s.m, r)) + One(WorkerHolds(s.m, r)) == 1
    ensures forall p, q :: 0 <= p < |s.m.producers| && 0 <= q < |s.m.producers| &&
                Holds(s.m.producers[p], r) && Holds(s.m.producers[q], r)
              ==> p == q
    ensures IsStack(s.m.freeHead, s.m.freeNext, s.g.stack)
  {
    assert PlaceOk(s.m, s.g, r);
    forall p | 0 <= p < |s.m.producers| && Holds(s.m.producers[p], r) ensures s.g.place[r] == HeldBy(p) {
      assert ProducerOk(s.m, s.g, p);
    }
  }

  /** `enqueue` gives a message up exactly when it loads the head of an empty free list. */
  lemma DropsOnlyWhenNothingIsFree(s: State, p: nat, spurious: bool)
    requires Inv(s) && p < |s.m.producers|
    requires s.m.producers[p].LoadFree? || (s.m.producers[p].CasFree? && !PopSucceeds(s.m, p, spurious))
    ensures var r := Step(s, Produce(p, spurious));
            r.Next? && (r.s.m.producers[p].Drop? <==> forall n :: 0 <= n < |s.m.slot| ==> n !in s.g.stack)
  {
    if s.g.stack != [] {
      assert s.g.stack[0] in s.g.stack && s.m.Record(s.g.stack[0]);
    }
  }
}
