/** What a stale pop of the free list can do to the whole engine. */
module LogEngineAba {
  import opened Sequences
  import opened Steps
  import opened IntrusiveStack
  import opened LogEngine

  function MemoryRun(m: Memory, actions: seq<Action>): Outcome<Memory>
    decreases |actions|
  {
    if actions == [] then Next(m)
    else
      match MemoryStep(m, actions[0])
      case Blocked => Blocked
      case Fault => Fault
      case Next(m') => MemoryRun(m', actions[1..])
  }

  lemma {:induction false} RunFollowsMemory(s: State, actions: seq<Action>)
    ensures MemoryRun(s.m, actions).Fault? ==> Run(s, actions).Fault?
    decreases |actions|
  {
    if actions == [] {
    } else if Step(s, actions[0]).Next? {
      RunFollowsMemory(Step(s, actions[0]).s, actions[1..]);
    }
  }

  ghost predicate Leads(m: Memory, m': Memory) {
    exists actions: seq<Action> :: MemoryRun(m, actions) == Next(m')
  }

  lemma {:induction false} MemoryRunAppend(m: Memory, xs: seq<Action>, ys: seq<Action>)
    requires MemoryRun(m, xs).Next?
    ensures MemoryRun(m, xs + ys) == MemoryRun(MemoryRun(m, xs).s, ys)
    decreases |xs|
  {
    if xs == [] {
      assert xs + ys == ys;
    } else {
      assert (xs + ys)[1..] == xs[1..] + ys;
      MemoryRunAppend(MemoryStep(m, xs[0]).s, xs[1..], ys);
    }
  }

  lemma RunOne(m: Memory, a: Action)
    ensures MemoryRun(m, [a]) == MemoryStep(m, a)
  {
    assert [a][1..] == [];
    assert MemoryStep(m, a).Next? ==> MemoryRun(MemoryStep(m, a).s, []) == MemoryStep(m, a);
  }

  lemma LeadsNowhere(m: Memory)
    ensures Leads(m, m)
  {
    assert MemoryRun(m, []) == Next(m);
  }

  lemma LeadsByStep(m: Memory, m1: Memory, a: Action, m2: Memory)
    requires Leads(m, m1) && MemoryStep(m1, a) == Next(m2)
    ensures Leads(m, m2)
  {
    var xs: seq<Action> :| MemoryRun(m, xs) == Next(m1);
    MemoryRunAppend(m, xs, [a]);
    RunOne(m1, a);
  }

  lemma LeadsOn(m: Memory, m1: Memory, m2: Memory)
    requires Leads(m, m1) && Leads(m1, m2)
    ensures Leads(m, m2)
  {
    var xs: seq<Action> :| MemoryRun(m, xs) == Next(m1);
    var ys: seq<Action> :| MemoryRun(m1, ys) == Next(m2);
    MemoryRunAppend(m, xs, ys);
  }

  // ----- What single threads do when left alone -----

  predicate Sized(m: Memory) { |m.next| == |m.slot| + 1 && |m.freeNext| == |m.slot| }

  predicate MayLog(m: Memory, p: nat) {
    Sized(m) && p < |m.producers| && m.producers[p].Resting? && !m.control.Joining? && m.Record(m.freeHead)
  }

  /** `enqueue` up to the swap of `try_pop`. */
  lemma Searches(m: Memory, p: nat, payload: int) returns (m': Memory)
    requires MayLog(m, p)
    ensures Leads(m, m') && m' == Move(m, p, CasFree(payload, m.freeHead, m.freeNext[m.freeHead]))
  {
    var h := m.freeHead;
    LeadsNowhere(m);
    var m1 := Move(m, p, LoadFree(payload));
    LeadsByStep(m, m, Enqueue(p, payload), m1);
    var m2 := Move(m, p, ReadLink(payload, h));
    assert m1.producers[p := ReadLink(payload, h)] == m2.producers;
    LeadsByStep(m, m1, Produce(p, false), m2);
    m' := Move(m, p, CasFree(payload, h, m.freeNext[h]));
    assert m2.producers[p := CasFree(payload, h, m.freeNext[h])] == m'.producers;
    LeadsByStep(m, m2, Produce(p, false), m');
  }

  /** The swap, and the rest of `enqueue`. */
  lemma Publishes(m: Memory, p: nat, payload: int, rec: int, link: int) returns (m': Memory)
    requires Sized(m) && p < |m.producers| && m.producers[p] == CasFree(payload, rec, link)
    requires m.freeHead == rec && m.Record(rec) && m.slot[rec].None? && m.Node(m.tail)
    ensures Leads(m, m')
    ensures m' == Move(m.(freeHead := link, slot := m.slot[rec := Some(Message(p, payload))],
                          next := m.next[rec := NULL][m.tail := rec], tail := rec, enqueued := Bump(m.enqueued)), p, Resting)
  {
    LeadsNowhere(m);
    var m1 := Move(m.(freeHead := link), p, Fill(payload, rec));
    LeadsByStep(m, m, Produce(p, false), m1);
    var m2 := Move(m1.(slot := m.slot[rec := Some(Message(p, payload))]), p, ClearNext(rec));
    LeadsByStep(m, m1, Produce(p, false), m2);
    var m3 := Move(m2.(next := m.next[rec := NULL]), p, Exchange(rec));
    LeadsByStep(m, m2, Produce(p, false), m3);
    var m4 := Move(m3.(tail := rec), p, Link(rec, m.tail));
    LeadsByStep(m, m3, Produce(p, false), m4);
    var m5 := Move(m4.(next := m3.next[m.tail := rec]), p, CountUp);
    LeadsByStep(m, m4, Produce(p, false), m5);
    m' := Move(m5.(enqueued := Bump(m.enqueued)), p, Resting);
    LeadsByStep(m, m5, Produce(p, false), m');
    assert m'.producers == m.producers[p := Resting];
  }

  /** A whole call of `enqueue`. */
  lemma Logs(m: Memory, p: nat, payload: int) returns (m': Memory)
    requires MayLog(m, p) && m.slot[m.freeHead].None? && m.Node(m.tail)
    ensures Leads(m, m')
    ensures var rec := m.freeHead;
            m' == m.(freeHead := m.freeNext[rec], slot := m.slot[rec := Some(Message(p, payload))],
                     next := m.next[rec := NULL][m.tail := rec], tail := rec, enqueued := Bump(m.enqueued))
  {
    var m1 := Searches(m, p, payload);
    m' := Publishes(m1, p, payload, m.freeHead, m.freeNext[m.freeHead]);
    LeadsOn(m, m1, m');
    assert m'.producers == m.producers;
  }

  predicate MayPop(m: Memory) {
    && Sized(m) && m.worker.TestRun? && m.run && m.Node(m.head)
    && m.Record(m.next[m.head]) && m.slot[m.next[m.head]].Some?
  }

  /** A successful `pop` in the main loop. */
  lemma Pops(m: Memory) returns (m': Memory)
    requires MayPop(m)
    ensures Leads(m, m') && m' == Popped(m, Main, m.next[m.head])
  {
    LeadsNowhere(m);
    var m1 := m.(worker := PopHeadNext(Main));
    LeadsByStep(m, m, Work(false), m1);
    m' := Popped(m1, Main, m.next[m.head]);
    LeadsByStep(m, m1, Work(false), m');
  }

  /** The worker's first round. */
  lemma Writes(m: Memory) returns (m': Memory)
    requires MayPop(m) && m.pending == NULL
    ensures Leads(m, m')
    ensures var rec := m.next[m.head];
            m' == m.(head := rec, slot := m.slot[rec := None], written := Bump(m.written), pending := rec)
  {
    var rec := m.next[m.head];
    var m1 := Pops(m);
    var m2 := m1.(worker := Destroy(Main, rec));
    LeadsByStep(m, m1, Work(false), m2);
    var m3 := m2.(slot := m.slot[rec := None], worker := CountWritten(Main, rec));
    LeadsByStep(m, m2, Work(false), m3);
    m' := m3.(written := Bump(m.written), pending := rec, worker := TestRun);
    LeadsByStep(m, m3, Work(false), m');
  }

  /** A later round, up to the call of `submit_fn`. */
  lemma Recycles(m: Memory) returns (m': Memory)
    requires MayPop(m) && m.Record(m.pending)
    ensures Leads(m, m')
    ensures m' == m.(head := m.next[m.head], freeNext := m.freeNext[m.pending := m.freeHead], freeHead := m.pending,
                     worker := Submit(Main, m.next[m.head]))
  {
    var after, h := Process(Main, m.next[m.head]), m.freeHead;
    var m1 := Pops(m);
    var m2 := m1.(worker := RecycleStore(after, h));
    LeadsByStep(m, m1, Work(false), m2);
    var m3 := m2.(freeNext := m.freeNext[m.pending := h], worker := RecycleCas(after, h));
    LeadsByStep(m, m2, Work(false), m3);
    m' := m3.(freeHead := m.pending, worker := Submit(Main, m.next[m.head]));
    LeadsByStep(m, m3, Work(false), m');
  }

  // ----- The run -----

  /** Producer 0 is about to swap on record `a` with the stale link `b`, whose slot is in use. */
  predicate AboutToGoWrong(m: Memory, a: int, b: int) {
    && Sized(m) && |m.producers| >= 2 && m.producers[0] == CasFree(0, a, b) && m.freeHead == a
    && m.producers[1].Resting? && !m.control.Joining? && m.Record(b) && m.slot[b].Some?
  }

  /** Producer 0 stalls; producer 1 logs both records; the worker writes one and recycles it, and pops the other. */
  lemma GoesWrong(pool: nat, producers: nat) returns (m: Memory)
    requires pool >= 2 && producers >= 2
    ensures Leads(Init(pool, producers).m, m) && AboutToGoWrong(m, pool - 1, pool - 2)
  {
    var m0 := Init(pool, producers).m;
    LeadsNowhere(m0);
    var m1 := MemoryStep(m0, Start).s;
    LeadsByStep(m0, m0, Start, m1);
    var m2 := Searches(m1, 0, 0);
    LeadsOn(m0, m1, m2);
    var m3 := Logs(m2, 1, 1);
    LeadsOn(m0, m2, m3);
    var m4 := Logs(m3, 1, 2);
    LeadsOn(m0, m3, m4);
    var m5 := Writes(m4);
    LeadsOn(m0, m4, m5);
    m := Recycles(m5);
    LeadsOn(m0, m5, m);
  }

  /** Then producer 1 takes the record in use, and constructs a payload on top of the one that is being written. */
  lemma WrongTurn(m: Memory, a: int, b: int) returns (m': Memory)
    requires AboutToGoWrong(m, a, b)
    ensures Leads(m, m') && MemoryStep(m', Produce(1, false)) == Fault
  {
    LeadsNowhere(m);
    var m1 := Move(m.(freeHead := b), 0, Fill(0, a));
    LeadsByStep(m, m, Produce(0, false), m1);
    var m2 := Searches(m1, 1, 3);
    LeadsOn(m, m1, m2);
    m' := MemoryStep(m2, Produce(1, false)).s;
    LeadsByStep(m, m2, Produce(1, false), m');
  }

  /** Any pool of two records or more and any two producers have a run in which a live payload is overwritten. */
  lemma StalePopCanFault(pool: nat, producers: nat) returns (actions: seq<Action>)
    requires pool >= 2 && producers >= 2
    ensures Run(Init(pool, producers), actions) == Fault
  {
    var m0 := Init(pool, producers).m;
    var m1 := GoesWrong(pool, producers);
    var m2 := WrongTurn(m1, pool - 1, pool - 2);
    LeadsOn(m0, m1, m2);
    var before: seq<Action> :| MemoryRun(m0, before) == Next(m2);
    MemoryRunAppend(m0, before, [Produce(1, false)]);
    RunOne(m2, Produce(1, false));
    actions := before + [Produce(1, false)];
    RunFollowsMemory(Init(pool, producers), actions);
  }
}
