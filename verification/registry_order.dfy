/** In which order tokens and channels are handed out: those given back last come first. */
module RegistryOrder {
  import opened Sequences
  import opened RegistrySpec

  function Owns(n: nat): seq<Operation> { seq(n, i => AcquireOwn) }

  /** `n` tokens have been handed out from a fresh registry, one channel each. */
  ghost predicate HandedOut(w: World, channels: nat, n: nat) {
    && Inv(w.r, w.l) && n <= channels && n <= w.r.MaxBindings()
    && w.r.nextToken == n && w.r.freeTokens == [] && w.r.freeChannels == Upto(channels - n)
    && forall k :: 0 <= k < n ==> w.r.IsLive(k) && Resolve(w.r, k) == channels - 1 - k
  }

  lemma OneMoreHandedOut(w: World, channels: nat, n: nat)
    requires HandedOut(w, channels, n) && n < channels && n < w.r.MaxBindings()
    ensures HandedOut(Perform(w, AcquireOwn), channels, n + 1) && Acquired(w.r, AcquireOwn) == Ok(n)
    ensures Perform(w, AcquireOwn).r.MaxBindings() == w.r.MaxBindings()
  {
    PerformKeepsInv(w, AcquireOwn);
    assert Last(w.r.freeChannels) == channels - n - 1;
    assert Pop(w.r.freeChannels) == Upto(channels - n - 1);
    forall k | 0 <= k < n
      ensures Perform(w, AcquireOwn).r.IsLive(k) && Resolve(Perform(w, AcquireOwn).r, k) == channels - 1 - k
    {
      PerformKeepsBinding(w, AcquireOwn, k);
    }
  }

  lemma OwnsUnfold(w: World, k: nat)
    requires Inv(w.r, w.l) && k > 0
    ensures var w' := Perform(w, AcquireOwn);
            && Inv(w'.r, w'.l) && AllCallable(w.r, Owns(k)) && AllCallable(w'.r, Owns(k - 1))
            && PerformAll(w, Owns(k)) == PerformAll(w', Owns(k - 1))
  {
    PerformKeepsInv(w, AcquireOwn);
    hide Inv, Perform;
    assert Owns(k)[0] == AcquireOwn && Owns(k)[1..] == Owns(k - 1);
  }

  lemma {:induction false} HandsOut(w: World, channels: nat, n: nat, k: nat)
    requires HandedOut(w, channels, n) && n + k <= channels && n + k <= w.r.MaxBindings()
    ensures AllCallable(w.r, Owns(k)) && HandedOut(PerformAll(w, Owns(k)), channels, n + k)
    ensures PerformAll(w, Owns(k)).r.MaxBindings() == w.r.MaxBindings()
    decreases k
  {
    hide Inv, Perform, Acquired, Resolve;
    if k > 0 {
      OneMoreHandedOut(w, channels, n);
      HandsOut(Perform(w, AcquireOwn), channels, n + 1, k - 1);
      OwnsUnfold(w, k);
    }
  }

  /** A new registry hands out tokens from the first on, with channels from the last on. */
  lemma FreshHandsOutInOrder(bindings: nat, channels: nat, groups: nat, n: nat)
    requires n <= bindings && n <= channels
    ensures Inv(Fresh(bindings, channels, groups).r, Fresh(bindings, channels, groups).l)
    ensures AllCallable(Fresh(bindings, channels, groups).r, Owns(n))
    ensures var r := PerformAll(Fresh(bindings, channels, groups), Owns(n)).r;
            && SizesOk(r) && (forall k :: 0 <= k < n ==> r.IsLive(k) && Resolve(r, k) == channels - 1 - k)
            && (forall t :: r.IsLive(t) ==> t < n)
  {
    FreshSatisfiesInv(bindings, channels, groups);
    HandsOut(Fresh(bindings, channels, groups), channels, 0, n);
  }

  /** What a release puts back on the two free stacks. */
  lemma FreePutsBack(w: World, t: nat)
    requires Inv(w.r, w.l) && w.r.IsLive(t)
    ensures w.r.tokenToChannel[t] < |w.r.refCount|
    ensures var c, w1 := w.r.tokenToChannel[t], Perform(w, Free(t));
            && Inv(w1.r, w1.l) && !w1.r.IsLive(t) && w.r.refCount[c] >= 1
            && w1.r.freeTokens == w.r.freeTokens + [t] && t < |w1.r.tokenToChannel| && t < w1.r.nextToken
            && w1.r.freeChannels == if w.r.refCount[c] == 1 then w.r.freeChannels + [c] else w.r.freeChannels
  {
    PerformKeepsInv(w, Free(t));
    ReleaseKeepsInv(w.r, w.l, t);
    LiveTokenCharges(w.r, w.l, t);
  }

  lemma AcquireTakesTop(w: World)
    requires Inv(w.r, w.l) && w.r.freeTokens != [] && w.r.freeChannels != []
    ensures var t, w2 := Last(w.r.freeTokens), Perform(w, AcquireOwn);
            && Acquired(w.r, AcquireOwn) == Ok(t)
            && w2.r.IsLive(t) && SizesOk(w2.r) && Resolve(w2.r, t) == Last(w.r.freeChannels)
  {
    PerformKeepsInv(w, AcquireOwn);
  }

  /**
    An exclusive acquire right behind a release fails only if the released token's channel keeps other users and no
    other channel is free. Otherwise it hands out the token just released: on the channel just freed, or, if that one
    is still in use, on the one freed before.
  */
  lemma ReacquireGetsTokenBack(w: World, t: nat)
    requires Inv(w.r, w.l) && w.r.IsLive(t)
    ensures w.r.tokenToChannel[t] < |w.r.refCount|
    ensures var c, w1 := w.r.tokenToChannel[t], Perform(w, Free(t));
            && Inv(w1.r, w1.l) && !w1.r.IsLive(t)
            && (Acquired(w1.r, AcquireOwn) ==
                  if w.r.refCount[c] > 1 && w.r.freeChannels == [] then Throws(NoFreeChannel) else Ok(t))
            && var w2 := Perform(w1, AcquireOwn);
               Acquired(w1.r, AcquireOwn).Ok? ==>
                 w2.r.IsLive(t) && SizesOk(w2.r) &&
                 Resolve(w2.r, t) == if w.r.refCount[c] == 1 then c else Last(w.r.freeChannels)
  {
    FreePutsBack(w, t);
    var w1 := Perform(w, Free(t));
    if w1.r.freeChannels != [] {
      AcquireTakesTop(w1);
    }
  }
}
