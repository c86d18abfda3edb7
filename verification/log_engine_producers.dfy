/** The producers' steps keep the engine's invariant. */
module LogEngineProducers {
  import opened Sequences
  import opened Steps
  import opened IntrusiveStack
  import opened LogEngine
  import opened LogEngineInvariant

  // ----- Steps off the queue -----

  /** Producer `p` has moved, and besides it at most record `rec` and some counters have changed. */
  ghost predicate Touches(s: State, s': State, p: nat, rec: int) {
    && s'.m == s.m.(next := s'.m.next, slot := s'.m.slot, freeHead := s'.m.freeHead,
                    producers := s'.m.producers, enqueued := s'.m.enqueued, dropped := s'.m.dropped)
    && s'.g == s.g.(stack := s'.g.stack, place := s'.g.place, calls := s'.g.calls, started := s'.g.started,
                    counted := s'.g.counted, drops := s'.g.drops)
    && |s'.m.next| == |s.m.next| && |s'.m.slot| == |s.m.slot| && |s'.g.place| == |s.g.place|
    && |s'.m.producers| == |s.m.producers| && |s'.g.calls| == |s.g.calls|
    && (forall n :: 0 <= n < |s.m.next| && n != rec ==> s'.m.next[n] == s.m.next[n])
    && (forall n :: 0 <= n < |s.m.slot| && n != rec ==> s'.m.slot[n] == s.m.slot[n])
    && (forall n :: 0 <= n < |s.g.place| && n != rec ==> s'.g.place[n] == s.g.place[n])
    && (forall q :: 0 <= q < |s.m.producers| && q != p ==> s'.m.producers[q] == s.m.producers[q])
    && (forall q :: 0 <= q < |s.g.calls| && q != p ==> s'.g.calls[q] == s.g.calls[q])
  }

  /** The record is in nobody else's hands: free, or held by `p` already. */
  predicate Own(s: State, p: nat, rec: int) {
    rec == NULL || (s.m.Record(rec) && rec < |s.g.place| && (s.g.place[rec] == Free || s.g.place[rec] == HeldBy(p)))
  }

  lemma OffQueueChain(s: State, s': State, p: nat, rec: int)
    requires ChainOk(s.m, s.g) && Touches(s, s', p, rec) && rec !in s.g.chain
    requires p < |s.m.producers| && !s.m.producers[p].Link?
    ensures ChainOk(s'.m, s'.g)
  {
    forall i | 0 <= i < |s.g.chain| - 1 ensures LinkOk(s'.m, s.g.chain[i], s.g.chain[i + 1]) {
      assert LinkOk(s.m, s.g.chain[i], s.g.chain[i + 1]);
      if s.m.next[s.g.chain[i]] != s.g.chain[i + 1] {
        var q :| 0 <= q < |s.m.producers| && s.m.producers[q] == Link(s.g.chain[i + 1], s.g.chain[i]);
        assert s'.m.producers[q] == s.m.producers[q];
      }
    }
  }

  lemma OffQueueOther(s: State, s': State, p: nat, rec: int, q: nat)
    requires Shape(s.m, s.g) && Shape(s'.m, s'.g) && Touches(s, s', p, rec) && Own(s, p, rec)
    requires rec !in s.g.chain
    requires p < |s.m.producers| && q < |s.m.producers| && q != p
    requires ProducerOk(s.m, s.g, q) && CallOk(s.m, s.g, q)
    ensures ProducerOk(s'.m, s'.g, q) && CallOk(s'.m, s'.g, q)
  {
    assert s'.m.producers[q] == s.m.producers[q];
  }

  lemma OffQueueProducers(s: State, s': State, p: nat, rec: int)
    requires Shape(s.m, s.g) && Shape(s'.m, s'.g) && Touches(s, s', p, rec) && Own(s, p, rec) && rec !in s.g.chain
    requires ProducersOk(s.m, s.g) && CallsOk(s.m, s.g) && p < |s.m.producers|
    requires !s.m.producers[p].Link? && !s'.m.producers[p].Link?
    requires ProducerOk(s'.m, s'.g, p) && CallOk(s'.m, s'.g, p)
    ensures ProducersOk(s'.m, s'.g) && CallsOk(s'.m, s'.g)
  {
    forall q | 0 <= q < |s'.m.producers| ensures ProducerOk(s'.m, s'.g, q) && CallOk(s'.m, s'.g, q) {
      assert ProducerOk(s.m, s.g, q) && CallOk(s.m, s.g, q);
      if q != p {
        OffQueueOther(s, s', p, rec, q);
      }
    }
  }

  lemma OffQueueMessages(s: State, s': State, p: nat, rec: int)
    requires MessagesOk(s.m, s.g) && Touches(s, s', p, rec) && rec !in s.g.chain
    ensures MessagesOk(s'.m, s'.g)
  {
  }

  /** What is left to show for a step off the queue concerns the record and the producer alone. */
  lemma OffQueueStep(s: State, s': State, p: nat, rec: int)
    requires Inv(s) && !s.m.control.Joining? && p < |s.m.producers|
    requires Touches(s, s', p, rec) && Own(s, p, rec)
    requires !s.m.producers[p].Link? && !s'.m.producers[p].Link?
    requires IsStack(s'.m.freeHead, s'.m.freeNext, s'.g.stack)
    requires forall r :: 0 <= r < |s.m.slot| ==> PlaceOk(s'.m, s'.g, r)
    requires ProducerOk(s'.m, s'.g, p) && CallOk(s'.m, s'.g, p)
    requires VacantOk(s'.m, s'.g) && CountsOk(s'.m, s'.g)
    ensures Inv(s')
  {
    assert rec !in s.g.chain by {
      assert rec != NULL ==> PlaceOk(s.m, s.g, rec);
    }
    OffQueueChain(s, s', p, rec);
    OffQueueProducers(s, s', p, rec);
    OffQueueMessages(s, s', p, rec);
    SamePhase(s.m, s.g, s'.m, s'.g);
  }

  /** No record changes place. */
  lemma SamePlaces(m: Memory, g: Trail, m': Memory, g': Trail, p: nat)
    requires Shape(m, g) && Shape(m', g') && PlacesOk(m, g) && p < |m.producers| == |m'.producers|
    requires m'.producers == m.producers[p := m'.producers[p]] && |m'.slot| == |m.slot|
    requires forall r :: Holds(m.producers[p], r) <==> Holds(m'.producers[p], r)
    requires m'.worker == m.worker && m'.pending == m.pending
    requires g'.place == g.place && g'.stack == g.stack && g'.chain == g.chain
    ensures PlacesOk(m', g')
  {
    forall r | 0 <= r < |m'.slot| ensures PlaceOk(m', g', r) {
      assert PlaceOk(m, g, r);
      assert Holds(m.producers[p], r) <==> Holds(m'.producers[p], r);
    }
  }

  /** A step that only moves a detached producer and counts. */
  lemma DetachedStep(s: State, s': State, p: nat)
    requires Inv(s) && !s.m.control.Joining? && p < |s.m.producers| == |s'.m.producers|
    requires s'.m == s.m.(producers := s.m.producers[p := s'.m.producers[p]],
                          enqueued := s'.m.enqueued, dropped := s'.m.dropped)
    requires Detached(s.m.producers[p]) && Detached(s'.m.producers[p])
    requires |s'.g.calls| == |s.g.calls| && s'.g == s.g.(started := s'.g.started, calls := s.g.calls[p := s'.g.calls[p]],
                                                    counted := s'.g.counted, drops := s'.g.drops)
    requires ProducerOk(s'.m, s'.g, p) && CallOk(s'.m, s'.g, p)
    requires CountsOk(s'.m, s'.g)
    ensures Inv(s')
  {
    SamePlaces(s.m, s.g, s'.m, s'.g, p);
    OffQueueStep(s, s', p, NULL);
  }

  /** The producer neither owns a record nor owes a link. */
  predicate Detached(pc: Producer) {
    !pc.Fill? && !pc.ClearNext? && !pc.Exchange? && !pc.Link?
  }

  lemma TakePlaces(s: State, s': State, p: nat, payload: int, h: int)
    requires Shape(s.m, s.g) && PlacesOk(s.m, s.g) && p < |s.m.producers| && s.m.producers[p].CasFree?
    requires s.m.Record(h) && s.g.stack != [] && s.g.stack[0] == h && h !in s.g.stack[1..]
    requires s'.m == Move(s.m.(freeHead := s.m.freeNext[h]), p, Fill(payload, h))
    requires s'.g == s.g.(stack := Rest(s.g.stack), place := s.g.place[h := HeldBy(p)])
    ensures forall r :: 0 <= r < |s.m.slot| ==> PlaceOk(s'.m, s'.g, r)
  {
    forall r | 0 <= r < |s.m.slot| ensures PlaceOk(s'.m, s'.g, r) {
      assert PlaceOk(s.m, s.g, r);
      if r == h {
        assert s.g.place[r] == Free;
        assert h !in s'.g.stack;
      } else {
        assert r in s.g.stack <==> r in s'.g.stack;
      }
    }
  }

  /** `try_pop` takes the record `h`, whose link is still the one that was read. */
  lemma TakeStep(s: State, s': State, p: nat, payload: int, h: int)
    requires Inv(s) && !s.m.control.Joining? && p < |s.m.producers|
    requires s.m.Record(h) && s.m.producers[p] == CasFree(payload, h, s.m.freeNext[h]) && s.m.freeHead == h
    requires s'.m == Move(s.m.(freeHead := s.m.freeNext[h]), p, Fill(payload, h))
    requires s'.g == s.g.(stack := Rest(s.g.stack), place := s.g.place[h := HeldBy(p)])
    ensures Inv(s')
  {
    PopKeepsStack(s.m.freeHead, s.m.freeNext, s.g.stack, s.m.freeNext[h]);
    assert PlaceOk(s.m, s.g, h) && s.g.place[h] == Free;
    TakePlaces(s, s', p, payload, h);
    assert CallOk(s.m, s.g, p);
    CountUpdate(s.m.producers, p, Fill(payload, h), Uncounted);
    OffQueueStep(s, s', p, h);
  }

  lemma FillStep(s: State, s': State, p: nat, payload: int, rec: int)
    requires Inv(s) && !s.m.control.Joining? && p < |s.m.producers|
    requires s.m.producers[p] == Fill(payload, rec) && s.m.Record(rec)
    requires s'.m == Move(s.m.(slot := s.m.slot[rec := Some(Message(p, payload))]), p, ClearNext(rec))
    requires s'.g == s.g
    ensures Inv(s')
  {
    assert ProducerOk(s.m, s.g, p) && CallOk(s.m, s.g, p);
    SamePlaces(s.m, s.g, s'.m, s'.g, p);
    CountUpdate(s.m.producers, p, ClearNext(rec), Uncounted);
    OffQueueStep(s, s', p, rec);
  }

  lemma ClearStep(s: State, s': State, p: nat, rec: int)
    requires Inv(s) && !s.m.control.Joining? && p < |s.m.producers|
    requires s.m.producers[p] == ClearNext(rec) && s.m.Record(rec) && s.m.Node(rec)
    requires s'.m == Move(s.m.(next := s.m.next[rec := NULL]), p, Exchange(rec))
    requires s'.g == s.g
    ensures Inv(s')
  {
    assert ProducerOk(s.m, s.g, p) && CallOk(s.m, s.g, p);
    SamePlaces(s.m, s.g, s'.m, s'.g, p);
    CountUpdate(s.m.producers, p, Exchange(rec), Uncounted);
    OffQueueStep(s, s', p, rec);
  }

  // ----- The tail exchange -----

  lemma ExchangeChain(m: Memory, g: Trail, m': Memory, g': Trail, p: nat, rec: int)
    requires ChainOk(m, g) && p < |m.producers| && m.producers[p] == Exchange(rec) && !m.worker.ResetTail?
    requires m.Record(rec) && m.Node(rec) && rec !in g.chain && m.next[rec] == NULL
    requires m' == Move(m.(tail := rec), p, Link(rec, m.tail)) && g'.chain == g.chain + [rec]
    ensures ChainOk(m', g') && Consecutive(g'.chain, m.tail, rec)
  {
    var last := |g.chain| - 1;
    forall i | 0 <= i < |g'.chain| - 1 ensures LinkOk(m', g'.chain[i], g'.chain[i + 1]) {
      if i == last {
        assert m'.producers[p] == Link(rec, m.tail);
      } else {
        assert LinkOk(m, g.chain[i], g.chain[i + 1]);
        if m.next[g.chain[i]] != g.chain[i + 1] {
          var q :| 0 <= q < |m.producers| && m.producers[q] == Link(g.chain[i + 1], g.chain[i]);
          assert m'.producers[q] == m.producers[q];
        }
      }
    }
    assert g'.chain[last] == m.tail && g'.chain[last + 1] == rec;
  }

  lemma ExchangePlaces(m: Memory, g: Trail, m': Memory, g': Trail, p: nat, rec: int)
    requires Shape(m, g) && PlacesOk(m, g) && p < |m.producers| && m.producers[p] == Exchange(rec)
    requires m.Record(rec) && g.place[rec] == HeldBy(p)
    requires m' == Move(m.(tail := rec), p, Link(rec, m.tail))
    requires g'.chain == g.chain + [rec] && g'.place == g.place[rec := Queued] && g'.stack == g.stack
    ensures forall r :: 0 <= r < |m.slot| ==> PlaceOk(m', g', r)
  {
    forall r | 0 <= r < |m.slot| ensures PlaceOk(m', g', r) {
      assert PlaceOk(m, g, r);
      assert r in g'.chain <==> r in g.chain || r == rec;
    }
  }

  lemma ConsecutiveGrows(chain: seq<int>, rec: int, x: int, y: int)
    requires Consecutive(chain, x, y)
    ensures Consecutive(chain + [rec], x, y) && y in chain
  {
    var i :| 0 <= i < |chain| - 1 && chain[i] == x && chain[i + 1] == y;
    assert (chain + [rec])[i] == x && (chain + [rec])[i + 1] == y;
  }

  lemma ExchangeProducers(m: Memory, g: Trail, m': Memory, g': Trail, p: nat, rec: int)
    requires Shape(m, g) && ProducersOk(m, g) && p < |m.producers| && m.producers[p] == Exchange(rec)
    requires m.Record(rec) && g.place[rec] == HeldBy(p) && rec !in g.chain && m.Node(m.tail) && m.next[m.tail] == NULL
    requires m' == Move(m.(tail := rec), p, Link(rec, m.tail))
    requires g'.chain == g.chain + [rec] && g'.place == g.place[rec := Queued] && |g'.calls| == |g.calls|
    requires Consecutive(g'.chain, m.tail, rec)
    ensures Shape(m', g') && ProducersOk(m', g')
  {
    forall q | 0 <= q < |m'.producers|
      ensures ProducerOk(m', g', q) && (q != p && m'.producers[q].Link? ==> m'.producers[q].rec != rec)
    {
      assert ProducerOk(m, g, q);
      if q != p && m.producers[q].Link? {
        ConsecutiveGrows(g.chain, rec, m.producers[q].prev, m.producers[q].rec);
      }
    }
  }

  lemma PrefixStays<T>(s: seq<T>, x: T, k: nat)
    requires k <= |s|
    ensures (s + [x])[..k] == s[..k]
  {
  }

  lemma ExchangeSlots(m: Memory, g: Trail, rec: int)
    requires MessagesOk(m, g) && m.Record(rec) && m.slot[rec].Some?
    ensures var chain, sent := g.chain + [rec], g.sent + [m.slot[rec].value];
            forall i :: 1 <= i < |chain| ==> m.Record(chain[i]) && m.slot[chain[i]] == Some(sent[Taken(g) + i - 1])
  {
    var chain, sent, k := g.chain + [rec], g.sent + [m.slot[rec].value], Taken(g);
    forall i | 1 <= i < |chain| ensures m.Record(chain[i]) && m.slot[chain[i]] == Some(sent[k + i - 1]) {
      if i < |g.chain| {
        assert chain[i] == g.chain[i] && sent[k + i - 1] == g.sent[k + i - 1];
      }
    }
  }

  lemma ExchangeMessages(m: Memory, g: Trail, m': Memory, g': Trail, rec: int)
    requires MessagesOk(m, g) && m.Record(rec) && m.slot[rec].Some?
    requires m'.slot == m.slot && m'.worker == m.worker
    requires g' == g.(chain := g.chain + [rec], sent := g.sent + [m.slot[rec].value], place := g'.place)
    ensures MessagesOk(m', g')
  {
    var k, message := Taken(g), m.slot[rec].value;
    PrefixStays(g.sent, message, k - One(BeforeSubmit(m.worker)));
    PrefixStays(g.sent, message, k - One(BeforeDestroy(m.worker)));
    ExchangeSlots(m, g, rec);
    assert k > 0 ==> g'.sent[k - 1] == g.sent[k - 1];
  }

  /** The worker's phase does not depend on what producers do. */
  lemma SamePhase(m: Memory, g: Trail, m': Memory, g': Trail)
    requires Shape(m, g) && Shape(m', g') && WorkerOk(m, g) && !m.control.Joining?
    requires m' == m.(next := m'.next, slot := m'.slot, freeHead := m'.freeHead, tail := m'.tail,
                      producers := m'.producers, enqueued := m'.enqueued, dropped := m'.dropped)
    requires |m'.slot| == |m.slot| && |g'.chain| >= |g.chain|
    ensures WorkerOk(m', g')
  {
  }

  lemma ExchangeCalls(m: Memory, g: Trail, m': Memory, g': Trail, p: nat, rec: int)
    requires Shape(m, g) && CallsOk(m, g) && p < |m.producers| && m.producers[p] == Exchange(rec)
    requires Filled(m, rec, p)
    requires m' == Move(m.(tail := rec), p, Link(rec, m.tail))
    requires g'.calls == g.calls && g'.sent == g.sent + [m.slot[rec].value]
    ensures forall q :: 0 <= q < |m.producers| ==> CallOk(m', g', q)
  {
    forall q | 0 <= q < |m.producers| ensures CallOk(m', g', q) {
      assert CallOk(m, g, q);
      assert g'.sent[..|g'.sent| - 1] == g.sent;
    }
  }

  lemma ExchangeStep(s: State, s': State, p: nat, rec: int)
    requires Inv(s) && !s.m.control.Joining? && p < |s.m.producers|
    requires s.m.producers[p] == Exchange(rec)
    requires s'.m == Move(s.m.(tail := rec), p, Link(rec, s.m.tail))
    requires s.m.Record(rec)
    requires s'.g == s.g.(chain := s.g.chain + [rec], place := s.g.place[rec := Queued], sent := s.g.sent + Told(s.m, rec))
    ensures Inv(s')
  {
    assert ProducerOk(s.m, s.g, p) && PlaceOk(s.m, s.g, rec);
    ExchangeChain(s.m, s.g, s'.m, s'.g, p, rec);
    ExchangePlaces(s.m, s.g, s'.m, s'.g, p, rec);
    ExchangeProducers(s.m, s.g, s'.m, s'.g, p, rec);
    ExchangeMessages(s.m, s.g, s'.m, s'.g, rec);
    ExchangeCalls(s.m, s.g, s'.m, s'.g, p, rec);
    SamePhase(s.m, s.g, s'.m, s'.g);
    ExchangeCounts(s.m, s.g, s'.m, s'.g, p, rec);
  }

  lemma ExchangeCounts(m: Memory, g: Trail, m': Memory, g': Trail, p: nat, rec: int)
    requires Shape(m, g) && Shape(m', g') && VacantOk(m, g) && CountsOk(m, g) && g.chain != []
    requires p < |m.producers| && m.producers[p] == Exchange(rec) && m.Record(rec) && m.slot[rec].Some?
    requires m' == Move(m.(tail := rec), p, Link(rec, m.tail))
    requires g' == g.(chain := g.chain + [rec], place := g.place[rec := Queued], sent := g.sent + [m.slot[rec].value])
    ensures VacantOk(m', g') && CountsOk(m', g')
  {
    CountUpdate(m.producers, p, Link(rec, m.tail), Uncounted);
  }

  // ----- The link store -----

  lemma LinkChain(m: Memory, g: Trail, m': Memory, p: nat, rec: int, prev: int)
    requires ChainOk(m, g) && p < |m.producers| && m.producers[p] == Link(rec, prev) && m.Node(prev)
    requires Consecutive(g.chain, prev, rec)
    requires m' == Move(m.(next := m.next[prev := rec]), p, CountUp)
    ensures ChainOk(m', g)
  {
    var k :| 0 <= k < |g.chain| - 1 && g.chain[k] == prev && g.chain[k + 1] == rec;
    forall i | 0 <= i < |g.chain| - 1 ensures LinkOk(m', g.chain[i], g.chain[i + 1]) {
      assert LinkOk(m, g.chain[i], g.chain[i + 1]);
      if i != k && m.next[g.chain[i]] != g.chain[i + 1] {
        var q :| 0 <= q < |m.producers| && m.producers[q] == Link(g.chain[i + 1], g.chain[i]);
        assert m'.producers[q] == m.producers[q];
      }
    }
  }

  lemma OneDebtor(m: Memory, g: Trail, p: nat, q: nat)
    requires Shape(m, g) && ProducersOk(m, g) && PlacesOk(m, g) && Distinct(g.chain)
    requires p < |m.producers| && q < |m.producers| && m.producers[p].Link? && m.producers[q].Link?
    requires m.producers[p].prev == m.producers[q].prev
    ensures p == q
  {
    assert ProducerOk(m, g, p) && ProducerOk(m, g, q);
    var prev := m.producers[p].prev;
    var k :| 0 <= k < |g.chain| - 1 && g.chain[k] == prev && g.chain[k + 1] == m.producers[p].rec;
    var i :| 0 <= i < |g.chain| - 1 && g.chain[i] == prev && g.chain[i + 1] == m.producers[q].rec;
    assert i == k;
  }

  /** Distinct nodes have distinct predecessors, so nobody else owes the link that `p` stores. */
  lemma LinkProducers(m: Memory, g: Trail, m': Memory, p: nat, rec: int, prev: int)
    requires Shape(m, g) && ProducersOk(m, g) && PlacesOk(m, g) && Distinct(g.chain)
    requires p < |m.producers| && m.producers[p] == Link(rec, prev) && m.Node(prev)
    requires m' == Move(m.(next := m.next[prev := rec]), p, CountUp)
    ensures ProducersOk(m', g)
  {
    assert ProducerOk(m, g, p);
    assert prev in g.chain;
    forall q | 0 <= q < |m'.producers| ensures ProducerOk(m', g, q) {
      assert ProducerOk(m, g, q);
      if m.producers[q].Link? && m.producers[q].prev == prev {
        OneDebtor(m, g, p, q);
      } else if q != p && m.producers[q].Exchange? {
        assert m.producers[q].rec != prev by {
          assert PlaceOk(m, g, m.producers[q].rec);
        }
      }
    }
  }

  lemma SameCalls(m: Memory, m': Memory, g: Trail, p: nat)
    requires Shape(m, g) && Shape(m', g) && CallsOk(m, g) && p < |m.producers| && m.producers[p].Link?
    requires m'.producers == m.producers[p := CountUp] && m'.slot == m.slot
    ensures CallsOk(m', g)
  {
    forall q | 0 <= q < |m.producers| ensures CallOk(m', g, q) {
      assert CallOk(m, g, q);
    }
  }

  lemma LinkCounts(m: Memory, g: Trail, m': Memory, p: nat, rec: int, prev: int)
    requires Shape(m, g) && MessagesOk(m, g) && VacantOk(m, g) && CountsOk(m, g)
    requires p < |m.producers| && m.producers[p] == Link(rec, prev) && m.Node(prev)
    requires m' == Move(m.(next := m.next[prev := rec]), p, CountUp) && Shape(m', g)
    ensures MessagesOk(m', g) && VacantOk(m', g) && CountsOk(m', g)
  {
    CountUpdate(m.producers, p, CountUp, Uncounted);
  }

  lemma LinkStep(s: State, s': State, p: nat, rec: int, prev: int)
    requires Inv(s) && !s.m.control.Joining? && p < |s.m.producers|
    requires s.m.producers[p] == Link(rec, prev) && s.m.Node(prev)
    requires s'.m == Move(s.m.(next := s.m.next[prev := rec]), p, CountUp)
    requires s'.g == s.g
    ensures Inv(s')
  {
    assert ProducerOk(s.m, s.g, p);
    LinkChain(s.m, s.g, s'.m, p, rec, prev);
    LinkProducers(s.m, s.g, s'.m, p, rec, prev);
    SamePlaces(s.m, s.g, s'.m, s'.g, p);
    SameCalls(s.m, s'.m, s.g, p);
    SamePhase(s.m, s.g, s'.m, s'.g);
    LinkCounts(s.m, s.g, s'.m, p, rec, prev);
  }

  // ----- Every producer step -----

  lemma EnqueueKeepsInv(s: State, p: nat, payload: int)
    requires Inv(s)
    ensures var r := Step(s, Enqueue(p, payload)); r != Fault && (r.Next? ==> Inv(r.s))
  {
    if Step(s, Enqueue(p, payload)).Next? {
      assert ProducerOk(s.m, s.g, p) && CallOk(s.m, s.g, p);
      CountUpdate(s.m.producers, p, LoadFree(payload), Uncounted);
      DetachedStep(s, Step(s, Enqueue(p, payload)).s, p);
    }
  }

  /** The steps between the first load of `try_pop` and its outcome. */
  lemma SearchKeepsInv(s: State, p: nat, payload: int, pc: Producer)
    requires Inv(s) && p < |s.m.producers|
    requires s.m.producers[p].LoadFree? || s.m.producers[p].ReadLink? || s.m.producers[p].CasFree?
    requires s.m.producers[p].payload == payload
    requires pc == AfterLoad(payload, s.m.freeHead) ||
             (s.m.producers[p].ReadLink? && s.m.Record(s.m.producers[p].h) &&
              pc == CasFree(payload, s.m.producers[p].h, s.m.freeNext[s.m.producers[p].h]))
    ensures Inv(State(Move(s.m, p, pc), s.g))
  {
    assert ProducerOk(s.m, s.g, p) && CallOk(s.m, s.g, p);
    assert s.m.freeHead != NULL ==> s.g.stack != [] && s.m.Record(s.g.stack[0]);
    CountUpdate(s.m.producers, p, pc, Uncounted);
    DetachedStep(s, State(Move(s.m, p, pc), s.g), p);
  }

  lemma DropStep(s: State, s': State, p: nat, payload: int)
    requires Inv(s) && p < |s.m.producers| && s.m.producers[p] == Drop(payload)
    requires s'.m == Move(s.m.(dropped := Bump(s.m.dropped)), p, Resting)
    requires s'.g == s.g.(drops := s.g.drops + 1, calls := s.g.calls[p := Butlast(s.g.calls[p])])
    ensures Inv(s')
  {
    assert CallOk(s.m, s.g, p);
    CountUpdate(s.m.producers, p, Resting, Uncounted);
    CountersAdvance(s.g.drops);
    DetachedStep(s, s', p);
  }

  lemma CountUpStep(s: State, s': State, p: nat)
    requires Inv(s) && p < |s.m.producers| && s.m.producers[p] == CountUp
    requires s'.m == Move(s.m.(enqueued := Bump(s.m.enqueued)), p, Resting)
    requires s'.g == s.g.(counted := s.g.counted + 1)
    ensures Inv(s')
  {
    assert CallOk(s.m, s.g, p);
    CountUpdate(s.m.producers, p, Resting, Uncounted);
    CountersAdvance(s.g.counted);
    DetachedStep(s, s', p);
  }

  lemma OwnRecordKeepsInv(s: State, p: nat, spurious: bool)
    requires Inv(s) && p < |s.m.producers|
    requires s.m.producers[p].Fill? || s.m.producers[p].ClearNext? || s.m.producers[p].Exchange? || s.m.producers[p].Link?
    ensures var r := Step(s, Produce(p, spurious)); r.Next? && Inv(r.s)
  {
    assert ProducerOk(s.m, s.g, p);
    var s' := Step(s, Produce(p, spurious)).s;
    match s.m.producers[p] {
      case Fill(payload, rec) => FillStep(s, s', p, payload, rec);
      case ClearNext(rec) => ClearStep(s, s', p, rec);
      case Exchange(rec) => ExchangeStep(s, s', p, rec);
      case Link(rec, prev) => LinkStep(s, s', p, rec, prev);
    }
  }

  lemma SearchStepKeepsInv(s: State, p: nat, spurious: bool)
    requires Inv(s) && p < |s.m.producers| && Benign(s.m, Produce(p, spurious))
    requires s.m.producers[p].LoadFree? || s.m.producers[p].ReadLink? || s.m.producers[p].CasFree?
    ensures var r := Step(s, Produce(p, spurious)); r.Next? && Inv(r.s)
  {
    var pc := s.m.producers[p];
    assert ProducerOk(s.m, s.g, p);
    if PopSucceeds(s.m, p, spurious) {
      TakeStep(s, Step(s, Produce(p, spurious)).s, p, pc.payload, pc.h);
    } else {
      SearchKeepsInv(s, p, pc.payload, Step(s, Produce(p, spurious)).s.m.producers[p]);
    }
  }

  lemma EndStepKeepsInv(s: State, p: nat, spurious: bool)
    requires Inv(s) && p < |s.m.producers|
    requires s.m.producers[p].Drop? || s.m.producers[p].CountUp?
    ensures var r := Step(s, Produce(p, spurious)); r.Next? && Inv(r.s)
  {
    if s.m.producers[p].Drop? {
      DropStep(s, Step(s, Produce(p, spurious)).s, p, s.m.producers[p].payload);
    } else {
      CountUpStep(s, Step(s, Produce(p, spurious)).s, p);
    }
  }

  lemma ProduceKeepsInv(s: State, p: nat, spurious: bool)
    requires Inv(s) && Benign(s.m, Produce(p, spurious))
    ensures var r := Step(s, Produce(p, spurious)); r != Fault && (r.Next? ==> Inv(r.s))
  {
    if p < |s.m.producers| {
      var pc := s.m.producers[p];
      if pc.LoadFree? || pc.ReadLink? || pc.CasFree? {
        SearchStepKeepsInv(s, p, spurious);
      } else if pc.Drop? || pc.CountUp? {
        EndStepKeepsInv(s, p, spurious);
      } else if !pc.Resting? {
        OwnRecordKeepsInv(s, p, spurious);
      }
    }
  }
}
