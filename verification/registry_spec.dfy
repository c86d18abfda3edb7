/**
  The registry of publish tokens: which channel a token writes to, which tokens and channels are free, and which
  channel each group shares. First as operations on values, with what every run of them keeps.
*/
module RegistrySpec {
  import opened Sequences

  const NO_CHANNEL: int := -1

  datatype Mode = Exclusive | Shared

  datatype Error = NoFreeChannel | CapacityExceeded | InvalidToken | AlreadyFree | FreePoolOverflow

  datatype Result<T> = Ok(value: T) | Throws(error: Error)

  /** The registry's fields; the two free stacks are the used parts of their arrays, top last. */
  datatype Registry = Registry(
    nextToken: nat,
    tokenToChannel: seq<nat>,
    tokenUsed: seq<bool>,
    freeTokens: seq<nat>,
    freeChannels: seq<nat>,
    refCount: seq<nat>,
    mode: seq<Mode>,
    groupToChannel: seq<int>)
  {
    function MaxBindings(): nat { |tokenToChannel| }
    predicate IsLive(t: int) { 0 <= t < nextToken && t < |tokenUsed| && tokenUsed[t] }
  }

  /** How a live token was acquired. */
  datatype Owner = Alone | Member(group: nat)

  /** What an observer records: the owners of the live tokens, and per channel the charges that no token pays for. */
  datatype Ledger = Ledger(owners: map<nat, Owner>, leaks: seq<nat>)

  function Last<T>(s: seq<T>): T
    requires s != []
  {
    s[|s| - 1]
  }

  function Pop<T>(s: seq<T>): seq<T>
    requires s != []
  {
    s[..|s| - 1]
  }

  // ----- What every operation keeps -----

  ghost predicate SizesOk(r: Registry) {
    && |r.tokenUsed| == |r.tokenToChannel| && |r.mode| == |r.refCount| && r.nextToken <= |r.tokenToChannel|
  }

  /** Tokens handed out so far are live or on the free stack, which has no duplicates. */
  ghost predicate TokensOk(r: Registry)
    requires SizesOk(r)
  {
    && Distinct(r.freeTokens)
    && (forall i :: 0 <= i < |r.freeTokens| ==> r.freeTokens[i] < r.nextToken && !r.tokenUsed[r.freeTokens[i]])
    && (forall t :: 0 <= t < r.nextToken && !r.tokenUsed[t] ==> t in r.freeTokens)
    && (forall t :: 0 <= t < r.nextToken && r.tokenUsed[t] ==> r.tokenToChannel[t] < |r.refCount|)
  }

  /** The free stack of channels holds exactly the channels that nobody is charged for, each once. */
  ghost predicate ChannelsOk(r: Registry) {
    && Distinct(r.freeChannels)
    && (forall i :: 0 <= i < |r.freeChannels| ==> r.freeChannels[i] < |r.refCount|)
    && (forall c :: 0 <= c < |r.refCount| ==> (r.refCount[c] == 0 <==> c in r.freeChannels))
  }

  /** Groups point at channels in use, two groups never at the same one. */
  ghost predicate GroupsOk(r: Registry) {
    && (forall g :: 0 <= g < |r.groupToChannel| && r.groupToChannel[g] != NO_CHANNEL ==>
          0 <= r.groupToChannel[g] < |r.refCount| && r.refCount[r.groupToChannel[g]] > 0)
    && (forall g, h :: 0 <= g < h < |r.groupToChannel| && r.groupToChannel[g] != NO_CHANNEL ==>
          r.groupToChannel[g] != r.groupToChannel[h])
  }

  function Users(r: Registry, c: int): set<nat> {
    set t | 0 <= t < r.nextToken && t < |r.tokenUsed| && t < |r.tokenToChannel| && r.tokenUsed[t] && r.tokenToChannel[t] == c
  }

  /** A channel's reference count is its live tokens plus the charges whose token allocation failed. */
  ghost predicate CountsOk(r: Registry, l: Ledger) {
    && |l.leaks| == |r.refCount|
    && forall c :: 0 <= c < |r.refCount| ==> r.refCount[c] == |Users(r, c)| + l.leaks[c]
  }

  /** A group's tokens are on the group's channel; a token of its own shares its channel with nobody. */
  ghost predicate OwnersOk(r: Registry, l: Ledger)
    requires SizesOk(r)
  {
    && (forall t :: t in l.owners <==> 0 <= t < r.nextToken && r.tokenUsed[t])
    && (forall t :: t in l.owners ==> t < |r.tokenToChannel| && OwnerOk(r, l, t))
  }

  ghost predicate OwnerOk(r: Registry, l: Ledger, t: nat)
    requires t in l.owners && t < |r.tokenToChannel|
  {
    var c := r.tokenToChannel[t];
    match l.owners[t]
    case Member(g) =>
      g < |r.groupToChannel| && r.groupToChannel[g] == c && c < |r.mode| && r.mode[c] == Shared
    case Alone =>
      && c < |r.mode| && r.mode[c] == Exclusive && c < |l.leaks| && l.leaks[c] == 0
      && (forall u :: u in l.owners && u != t && u < |r.tokenToChannel| ==> r.tokenToChannel[u] != c)
      && (forall g :: 0 <= g < |r.groupToChannel| ==> r.groupToChannel[g] != c)
  }

  ghost predicate Inv(r: Registry, l: Ledger) {
    && SizesOk(r) && TokensOk(r) && ChannelsOk(r) && GroupsOk(r) && CountsOk(r, l) && OwnersOk(r, l)
  }

  // ----- The operations -----

  /** `allocateToken`: reuse the token freed last, or take a new one, or fail. */
  function AllocateToken(r: Registry, c: nat): (Registry, Result<nat>)
    requires SizesOk(r) && TokensOk(r)
  {
    if r.freeTokens != [] then
      var t := Last(r.freeTokens);
      (r.(freeTokens := Pop(r.freeTokens), tokenToChannel := r.tokenToChannel[t := c], tokenUsed := r.tokenUsed[t := true]),
       Ok(t))
    else if r.nextToken >= r.MaxBindings() then (r, Throws(CapacityExceeded))
    else
      var t := r.nextToken;
      (r.(nextToken := t + 1, tokenToChannel := r.tokenToChannel[t := c], tokenUsed := r.tokenUsed[t := true]), Ok(t))
  }

  /** Take a channel off the free stack and charge it for one token. */
  function OpenChannel(r: Registry, mode: Mode): Registry
    requires SizesOk(r) && ChannelsOk(r) && r.freeChannels != []
  {
    var c := Last(r.freeChannels);
    r.(freeChannels := Pop(r.freeChannels), refCount := r.refCount[c := 1], mode := r.mode[c := mode])
  }

  function AcquireAlone(r: Registry): (Registry, Result<nat>)
    requires SizesOk(r) && TokensOk(r) && ChannelsOk(r)
  {
    if r.freeChannels == [] then (r, Throws(NoFreeChannel))
    else AllocateToken(OpenChannel(r, Exclusive), Last(r.freeChannels))
  }

  predicate GroupIsOpen(r: Registry, g: nat)
    requires g < |r.groupToChannel|
  {
    var c := r.groupToChannel[g];
    0 <= c < |r.refCount| && r.refCount[c] > 0
  }

  function Join(r: Registry, c: nat): Registry
    requires c < |r.refCount| == |r.mode|
  {
    r.(refCount := r.refCount[c := r.refCount[c] + 1], mode := r.mode[c := Shared])
  }

  function AcquireMember(r: Registry, g: nat): (Registry, Result<nat>)
    requires SizesOk(r) && TokensOk(r) && ChannelsOk(r) && g < |r.groupToChannel|
  {
    if GroupIsOpen(r, g) then AllocateToken(Join(r, r.groupToChannel[g]), r.groupToChannel[g])
    else if r.freeChannels == [] then (r, Throws(NoFreeChannel))
    else
      var c := Last(r.freeChannels);
      AllocateToken(OpenChannel(r, Shared).(groupToChannel := r.groupToChannel[g := c]), c)
  }

  /** The loop of `release`: forget the first group that points at `c`. */
  function ForgetFirst(groups: seq<int>, c: int): seq<int> {
    if groups == [] then []
    else if groups[0] == c then [NO_CHANNEL] + groups[1..]
    else [groups[0]] + ForgetFirst(groups[1..], c)
  }

  function Discharge(r: Registry, c: nat): Registry
    requires c < |r.refCount| && r.refCount[c] > 0
  {
    var r1 := r.(refCount := r.refCount[c := r.refCount[c] - 1]);
    if r1.refCount[c] == 0 then
      r1.(freeChannels := r.freeChannels + [c], groupToChannel := ForgetFirst(r.groupToChannel, c))
    else r1
  }

  function Release(r: Registry, t: int): (Registry, Result<()>)
    requires SizesOk(r) && TokensOk(r)
    requires r.IsLive(t) ==> r.refCount[r.tokenToChannel[t]] > 0
  {
    if !(0 <= t < r.nextToken) then (r, Throws(InvalidToken))
    else if !r.tokenUsed[t] then (r, Throws(AlreadyFree))
    else if |r.freeTokens| >= r.MaxBindings() then (r, Throws(FreePoolOverflow))
    else
      (Discharge(r, r.tokenToChannel[t]).(tokenUsed := r.tokenUsed[t := false], freeTokens := r.freeTokens + [t]), Ok(()))
  }

  // ----- What the operations do to the ledger -----

  function Charge(l: Ledger, c: nat): Ledger {
    if c < |l.leaks| then l.(leaks := l.leaks[c := l.leaks[c] + 1]) else l
  }

  function Settle(l: Ledger, c: nat, t: nat, owner: Owner): Ledger {
    Ledger(l.owners[t := owner], if c < |l.leaks| && l.leaks[c] > 0 then l.leaks[c := l.leaks[c] - 1] else l.leaks)
  }

  /** A successful acquire adds its token; one that fails after its channel was charged leaves a leak. */
  function AfterAcquire(l: Ledger, owner: Owner, c: nat, result: Result<nat>): Ledger {
    match result
    case Ok(t) => l.(owners := l.owners[t := owner])
    case Throws(e) => if e.CapacityExceeded? then Charge(l, c) else l
  }

  /** The channel that an acquire charges. */
  function ChargedAlone(r: Registry): nat { if r.freeChannels == [] then 0 else Last(r.freeChannels) }

  function ChargedMember(r: Registry, g: nat): nat
    requires g < |r.groupToChannel|
  {
    if GroupIsOpen(r, g) then r.groupToChannel[g] else ChargedAlone(r)
  }

  lemma NobodyUsesAFreeChannel(r: Registry, l: Ledger, c: nat)
    requires Inv(r, l) && c in r.freeChannels
    ensures c < |r.refCount| && r.refCount[c] == 0 && Users(r, c) == {} && l.leaks[c] == 0
    ensures forall g :: 0 <= g < |r.groupToChannel| ==> r.groupToChannel[g] != c
  {
    assert r.refCount[c] == |Users(r, c)| + l.leaks[c];
  }

  lemma OpenKeepsInv(r: Registry, l: Ledger, mode: Mode)
    requires Inv(r, l) && r.freeChannels != []
    ensures var c := Last(r.freeChannels);
            Inv(OpenChannel(r, mode), Charge(l, c)) && Users(OpenChannel(r, mode), c) == {}
  {
    var c, r' := Last(r.freeChannels), OpenChannel(r, mode);
    assert c in r.freeChannels;
    NobodyUsesAFreeChannel(r, l, c);
    forall k | 0 <= k < |r.refCount| ensures r'.refCount[k] == |Users(r', k)| + Charge(l, c).leaks[k] {
      assert Users(r', k) == Users(r, k);
    }
    forall t | t in l.owners ensures OwnerOk(r', Charge(l, c), t) {
      assert OwnerOk(r, l, t);
      assert r.tokenToChannel[t] == c ==> t in Users(r, c);
    }
  }

  lemma PointGroupKeepsOwners(r: Registry, l: Ledger, g: nat, c: nat)
    requires SizesOk(r) && OwnersOk(r, l) && g < |r.groupToChannel| && r.groupToChannel[g] == NO_CHANNEL
    requires Users(r, c) == {}
    ensures OwnersOk(r.(groupToChannel := r.groupToChannel[g := c]), l)
  {
    var r' := r.(groupToChannel := r.groupToChannel[g := c]);
    forall t | t in l.owners ensures OwnerOk(r', l, t) {
      assert OwnerOk(r, l, t);
      assert r.tokenToChannel[t] == c ==> t in Users(r, c);
    }
  }

  lemma PointGroupKeepsGroups(r: Registry, g: nat, c: nat)
    requires GroupsOk(r) && g < |r.groupToChannel| && c < |r.refCount| && r.refCount[c] > 0
    requires forall h :: 0 <= h < |r.groupToChannel| ==> r.groupToChannel[h] != c
    ensures GroupsOk(r.(groupToChannel := r.groupToChannel[g := c]))
  {
  }

  /** A group that is not open points nowhere; it may be pointed at a channel nobody uses yet. */
  lemma PointGroupKeepsInv(r: Registry, l: Ledger, g: nat, c: nat)
    requires Inv(r, l) && g < |r.groupToChannel| && r.groupToChannel[g] == NO_CHANNEL
    requires c < |r.refCount| && r.refCount[c] > 0 && Users(r, c) == {}
    requires forall h :: 0 <= h < |r.groupToChannel| ==> r.groupToChannel[h] != c
    ensures Inv(r.(groupToChannel := r.groupToChannel[g := c]), l)
  {
    var r' := r.(groupToChannel := r.groupToChannel[g := c]);
    PointGroupKeepsOwners(r, l, g, c);
    PointGroupKeepsGroups(r, g, c);
    forall k | 0 <= k < |r.refCount| ensures Users(r', k) == Users(r, k) {
    }
  }

  lemma JoinKeepsInv(r: Registry, l: Ledger, g: nat)
    requires Inv(r, l) && g < |r.groupToChannel| && GroupIsOpen(r, g)
    ensures Inv(Join(r, r.groupToChannel[g]), Charge(l, r.groupToChannel[g]))
  {
    var c := r.groupToChannel[g];
    var r' := Join(r, c);
    forall k | 0 <= k < |r.refCount| ensures r'.refCount[k] == |Users(r', k)| + Charge(l, c).leaks[k] {
      assert Users(r', k) == Users(r, k);
    }
    forall t | t in l.owners ensures OwnerOk(r', Charge(l, c), t) {
      assert OwnerOk(r, l, t);
    }
  }

  /** The owner's promise about channel `c` holds once a charge of `c` becomes its token. */
  ghost predicate MayOwn(r: Registry, l: Ledger, c: nat, owner: Owner) {
    && c < |r.refCount| == |r.mode| == |l.leaks| && l.leaks[c] > 0
    && match owner
       case Member(g) => g < |r.groupToChannel| && r.groupToChannel[g] == c && r.mode[c] == Shared
       case Alone =>
         && r.mode[c] == Exclusive && Users(r, c) == {} && l.leaks[c] == 1
         && (forall g :: 0 <= g < |r.groupToChannel| ==> r.groupToChannel[g] != c)
  }

  /** The token is not live before it is handed out, and it is the only thing that changes. */
  lemma AllocateIsFresh(r: Registry, c: nat)
    requires SizesOk(r) && TokensOk(r) && c < |r.refCount|
    ensures var (r', result) := AllocateToken(r, c);
            match result
            case Throws(e) => e == CapacityExceeded && r' == r && r.freeTokens == [] && r.nextToken == r.MaxBindings()
            case Ok(t) =>
              && !r.IsLive(t) && r'.IsLive(t) && r'.tokenToChannel[t] == c && SizesOk(r') && TokensOk(r')
              && (forall u :: u != t ==> (r'.IsLive(u) <==> r.IsLive(u)))
              && (forall u :: 0 <= u < |r.tokenToChannel| && u != t ==> r'.tokenToChannel[u] == r.tokenToChannel[u])
              && r' == r.(nextToken := r'.nextToken, freeTokens := r'.freeTokens,
                          tokenToChannel := r'.tokenToChannel, tokenUsed := r'.tokenUsed)
              && |r'.tokenToChannel| == |r.tokenToChannel|
  {
  }

  /** Token `t` alone has become live, on channel `c`. */
  ghost predicate TokenAdded(r: Registry, r': Registry, c: nat, t: nat) {
    && SizesOk(r) && SizesOk(r') && !r.IsLive(t) && r'.IsLive(t) && r'.tokenToChannel[t] == c
    && (forall u :: u != t ==> (r'.IsLive(u) <==> r.IsLive(u)))
    && |r'.tokenToChannel| == |r.tokenToChannel|
    && (forall u :: 0 <= u < |r.tokenToChannel| && u != t ==> r'.tokenToChannel[u] == r.tokenToChannel[u])
    && r' == r.(nextToken := r'.nextToken, freeTokens := r'.freeTokens,
                tokenToChannel := r'.tokenToChannel, tokenUsed := r'.tokenUsed)
  }

  lemma NewTokenCounts(r: Registry, l: Ledger, r': Registry, c: nat, t: nat, owner: Owner)
    requires TokenAdded(r, r', c, t) && CountsOk(r, l) && MayOwn(r, l, c, owner)
    ensures CountsOk(r', Settle(l, c, t, owner))
  {
    forall k | 0 <= k < |r.refCount| ensures r'.refCount[k] == |Users(r', k)| + Settle(l, c, t, owner).leaks[k] {
      UsersGain(r, r', k, c, t);
    }
  }

  lemma NewTokenOwner(r: Registry, l: Ledger, r': Registry, c: nat, t: nat, owner: Owner)
    requires TokenAdded(r, r', c, t) && OwnersOk(r, l) && MayOwn(r, l, c, owner)
    ensures OwnerOk(r', Settle(l, c, t, owner), t)
  {
    forall v | v in l.owners && v != t && owner.Alone? ensures r'.tokenToChannel[v] != c {
      assert r.tokenToChannel[v] == c ==> v in Users(r, c);
    }
  }

  lemma OldTokenOwner(r: Registry, l: Ledger, r': Registry, c: nat, t: nat, owner: Owner, u: nat)
    requires TokenAdded(r, r', c, t) && OwnersOk(r, l) && MayOwn(r, l, c, owner) && u in l.owners && u != t
    ensures OwnerOk(r', Settle(l, c, t, owner), u)
  {
    assert OwnerOk(r, l, u);
    assert r.tokenToChannel[u] == c ==> u in Users(r, c);
  }

  lemma NewTokenOwners(r: Registry, l: Ledger, r': Registry, c: nat, t: nat, owner: Owner)
    requires TokenAdded(r, r', c, t) && OwnersOk(r, l) && MayOwn(r, l, c, owner)
    ensures OwnersOk(r', Settle(l, c, t, owner))
  {
    var l' := Settle(l, c, t, owner);
    forall u ensures u in l'.owners <==> 0 <= u < r'.nextToken && r'.tokenUsed[u] {
      assert r'.IsLive(u) <==> (u == t || r.IsLive(u));
    }
    forall u | u in l'.owners ensures u < |r'.tokenToChannel| && OwnerOk(r', l', u) {
      if u == t {
        NewTokenOwner(r, l, r', c, t, owner);
      } else {
        OldTokenOwner(r, l, r', c, t, owner, u);
      }
    }
  }

  lemma NewTokenKeepsInv(r: Registry, l: Ledger, r': Registry, c: nat, t: nat, owner: Owner)
    requires Inv(r, l) && MayOwn(r, l, c, owner) && TokenAdded(r, r', c, t) && TokensOk(r')
    ensures Inv(r', Settle(l, c, t, owner))
  {
    NewTokenCounts(r, l, r', c, t, owner);
    NewTokenOwners(r, l, r', c, t, owner);
  }

  lemma UsersGain(r: Registry, r': Registry, k: int, c: nat, t: nat)
    requires SizesOk(r) && SizesOk(r') && |r'.tokenToChannel| == |r.tokenToChannel|
    requires !r.IsLive(t) && r'.IsLive(t) && r'.tokenToChannel[t] == c
    requires forall u :: u != t ==> (r'.IsLive(u) <==> r.IsLive(u))
    requires forall u :: 0 <= u < |r.tokenToChannel| && u != t ==> r'.tokenToChannel[u] == r.tokenToChannel[u]
    ensures |Users(r', k)| == |Users(r, k)| + if k == c then 1 else 0
  {
    forall u ensures u in Users(r', k) <==> (u in Users(r, k) || (k == c && u == t)) {
      assert u != t ==> (r'.IsLive(u) <==> r.IsLive(u));
    }
    if k == c {
      assert Users(r', k) == Users(r, k) + {t};
      assert t !in Users(r, k);
    } else {
      assert Users(r', k) == Users(r, k);
    }
  }

  /** Allocation turns the last charge of `c` into a token of `owner`, or leaves it unpaid. */
  lemma AllocateKeepsInv(r: Registry, l: Ledger, c: nat, owner: Owner)
    requires Inv(r, l) && MayOwn(r, l, c, owner)
    ensures var (r', result) := AllocateToken(r, c);
            match result
            case Ok(t) => t !in l.owners && Inv(r', Settle(l, c, t, owner)) && r'.tokenToChannel[t] == c
            case Throws(e) => e == CapacityExceeded && r' == r
  {
    AllocateIsFresh(r, c);
    var (r', result) := AllocateToken(r, c);
    if result.Ok? {
      NewTokenKeepsInv(r, l, r', c, result.value, owner);
    }
  }

  lemma SettleUndoesCharge(l: Ledger, c: nat, t: nat, owner: Owner)
    requires c < |l.leaks|
    ensures Settle(Charge(l, c), c, t, owner) == l.(owners := l.owners[t := owner])
  {
    assert Settle(Charge(l, c), c, t, owner).leaks == l.leaks;
  }

  lemma AcquireAloneKeepsInv(r: Registry, l: Ledger)
    requires Inv(r, l)
    ensures var (r', result) := AcquireAlone(r);
            Inv(r', AfterAcquire(l, Alone, ChargedAlone(r), result)) && (result.Ok? ==> result.value !in l.owners)
  {
    if r.freeChannels != [] {
      var c := Last(r.freeChannels);
      assert c in r.freeChannels;
      NobodyUsesAFreeChannel(r, l, c);
      OpenKeepsInv(r, l, Exclusive);
      AllocateKeepsInv(OpenChannel(r, Exclusive), Charge(l, c), c, Alone);
      if AcquireAlone(r).1.Ok? {
        SettleUndoesCharge(l, c, AcquireAlone(r).1.value, Alone);
      }
    }
  }

  lemma AcquireMemberKeepsInv(r: Registry, l: Ledger, g: nat)
    requires Inv(r, l) && g < |r.groupToChannel|
    ensures var (r', result) := AcquireMember(r, g);
            Inv(r', AfterAcquire(l, Member(g), ChargedMember(r, g), result)) && (result.Ok? ==> result.value !in l.owners)
  {
    var c, result := ChargedMember(r, g), AcquireMember(r, g).1;
    if GroupIsOpen(r, g) {
      JoinKeepsInv(r, l, g);
      AllocateKeepsInv(Join(r, c), Charge(l, c), c, Member(g));
    } else if r.freeChannels != [] {
      assert c in r.freeChannels;
      NobodyUsesAFreeChannel(r, l, c);
      OpenKeepsInv(r, l, Shared);
      PointGroupKeepsInv(OpenChannel(r, Shared), Charge(l, c), g, c);
      AllocateKeepsInv(OpenChannel(r, Shared).(groupToChannel := r.groupToChannel[g := c]), Charge(l, c), c, Member(g));
    }
    if result.Ok? {
      SettleUndoesCharge(l, c, result.value, Member(g));
    }
  }

  // ----- Release -----

  /** Because no two groups share a channel, forgetting the first group that points at it forgets all. */
  lemma {:induction false} BreakMissesNothing(groups: seq<int>, c: int)
    requires c != NO_CHANNEL
    requires forall g, h :: 0 <= g < h < |groups| && groups[g] != NO_CHANNEL ==> groups[g] != groups[h]
    ensures |ForgetFirst(groups, c)| == |groups|
    ensures forall g :: 0 <= g < |groups| ==> ForgetFirst(groups, c)[g] == if groups[g] == c then NO_CHANNEL else groups[g]
  {
    if groups == [] {
    } else {
      if groups[0] != c {
        BreakMissesNothing(groups[1..], c);
      }
    }
  }

  lemma LiveTokenCharges(r: Registry, l: Ledger, t: nat)
    requires Inv(r, l) && r.IsLive(t)
    ensures r.tokenToChannel[t] < |r.refCount| && t in Users(r, r.tokenToChannel[t])
    ensures r.refCount[r.tokenToChannel[t]] > 0 && |r.freeTokens| < r.MaxBindings()
  {
    var c := r.tokenToChannel[t];
    assert t in Users(r, c) && r.refCount[c] == |Users(r, c)| + l.leaks[c];
    var seen := r.freeTokens + [t];
    DistinctBound(seq(|seen|, i requires 0 <= i < |seen| => seen[i] as int), r.nextToken);
  }

  lemma UsersLose(r: Registry, r': Registry, k: int, t: nat)
    requires SizesOk(r) && SizesOk(r') && r.IsLive(t) && r'.nextToken == r.nextToken
    requires r'.tokenToChannel == r.tokenToChannel && r'.tokenUsed == r.tokenUsed[t := false]
    ensures |Users(r', k)| + (if k == r.tokenToChannel[t] then 1 else 0) == |Users(r, k)|
    ensures Users(r', k) == Users(r, k) - {t}
  {
    assert Users(r', k) == Users(r, k) - {t};
    assert k == r.tokenToChannel[t] <==> t in Users(r, k);
  }

  lemma DischargeKeepsChannels(r: Registry, c: nat)
    requires ChannelsOk(r) && c < |r.refCount| && r.refCount[c] > 0
    ensures ChannelsOk(Discharge(r, c))
  {
    assert forall k :: k in r.freeChannels + [c] <==> k in r.freeChannels || k == c;
  }

  lemma DischargeGroups(r: Registry, l: Ledger, c: nat)
    requires Inv(r, l) && c < |r.refCount| && r.refCount[c] > 0
    ensures var r' := Discharge(r, c);
            && |r'.groupToChannel| == |r.groupToChannel| && GroupsOk(r') && ChannelsOk(r')
            && (forall g :: 0 <= g < |r.groupToChannel| ==>
                  r'.groupToChannel[g] == if r.groupToChannel[g] == c && r.refCount[c] == 1 then NO_CHANNEL
                                          else r.groupToChannel[g])
  {
    BreakMissesNothing(r.groupToChannel, c);
    DischargeKeepsChannels(r, c);
  }

  lemma ReleaseKeepsOwner(r: Registry, l: Ledger, t: nat, r': Registry, l': Ledger, u: nat)
    requires SizesOk(r) && SizesOk(r') && r.IsLive(t) && r.tokenToChannel[t] < |r.refCount|
    requires u in l.owners && u != t && u < |r.tokenToChannel| && OwnerOk(r, l, u)
    requires r.tokenToChannel[u] == r.tokenToChannel[t] ==> r.refCount[r.tokenToChannel[t]] >= 2
    requires r'.tokenToChannel == r.tokenToChannel && r'.mode == r.mode && l' == l.(owners := l.owners - {t})
    requires |r'.groupToChannel| == |r.groupToChannel|
    requires forall g :: 0 <= g < |r.groupToChannel| ==>
               r'.groupToChannel[g] == if r.groupToChannel[g] == r.tokenToChannel[t] && r.refCount[r.tokenToChannel[t]] == 1
                                       then NO_CHANNEL else r.groupToChannel[g]
    ensures u in l'.owners && OwnerOk(r', l', u)
  {
  }

  lemma SubsetSize(a: set<nat>, b: set<nat>)
    requires a <= b
    ensures |a| <= |b|
  {
    assert b == a + (b - a);
  }

  lemma TwoUsersAreTwoCharges(r: Registry, l: Ledger, t: nat, u: nat)
    requires SizesOk(r) && TokensOk(r) && CountsOk(r, l)
    requires r.IsLive(t) && r.IsLive(u) && t != u && r.tokenToChannel[t] == r.tokenToChannel[u]
    ensures r.tokenToChannel[t] < |r.refCount| && r.refCount[r.tokenToChannel[t]] >= 2
  {
    var users := Users(r, r.tokenToChannel[t]);
    assert t in users && u in users;
    SubsetSize({t, u}, users);
    assert |{t, u}| == 2;
  }

  lemma ReleaseKeepsOwners(r: Registry, l: Ledger, t: nat, r': Registry, l': Ledger)
    requires Inv(r, l) && r.IsLive(t) && t in l.owners && SizesOk(r') && r'.nextToken == r.nextToken
    requires r'.tokenToChannel == r.tokenToChannel && r'.mode == r.mode && l' == l.(owners := l.owners - {t})
    requires |r'.groupToChannel| == |r.groupToChannel| && r'.tokenUsed == r.tokenUsed[t := false]
    requires forall g :: 0 <= g < |r.groupToChannel| ==>
               r'.groupToChannel[g] == if r.groupToChannel[g] == r.tokenToChannel[t] && r.refCount[r.tokenToChannel[t]] == 1
                                       then NO_CHANNEL else r.groupToChannel[g]
    ensures OwnersOk(r', l')
  {
    forall u | u in l'.owners ensures u < |r'.tokenToChannel| && OwnerOk(r', l', u) {
      assert r.IsLive(u) && OwnerOk(r, l, u);
      if r.tokenToChannel[u] == r.tokenToChannel[t] {
        TwoUsersAreTwoCharges(r, l, t, u);
      }
      ReleaseKeepsOwner(r, l, t, r', l', u);
    }
  }

  lemma ReleaseKeepsCounts(r: Registry, l: Ledger, t: nat, r': Registry, l': Ledger)
    requires SizesOk(r) && CountsOk(r, l) && r.IsLive(t) && SizesOk(r') && r'.nextToken == r.nextToken
    requires r'.tokenToChannel == r.tokenToChannel && r'.tokenUsed == r.tokenUsed[t := false]
    requires r.tokenToChannel[t] < |r.refCount| && r.refCount[r.tokenToChannel[t]] > 0
    requires r'.refCount == r.refCount[r.tokenToChannel[t] := r.refCount[r.tokenToChannel[t]] - 1]
    requires l'.leaks == l.leaks
    ensures CountsOk(r', l')
  {
    forall k | 0 <= k < |r.refCount| ensures r'.refCount[k] == |Users(r', k)| + l'.leaks[k] {
      UsersLose(r, r', k, t);
    }
  }

  lemma ReleaseKeepsInv(r: Registry, l: Ledger, t: nat)
    requires Inv(r, l) && r.IsLive(t)
    ensures r.tokenToChannel[t] < |r.refCount| && r.refCount[r.tokenToChannel[t]] > 0
    ensures Release(r, t).1 == Ok(()) && Inv(Release(r, t).0, l.(owners := l.owners - {t}))
  {
    LiveTokenCharges(r, l, t);
    var c := r.tokenToChannel[t];
    DischargeGroups(r, l, c);
    var r', l' := Release(r, t).0, l.(owners := l.owners - {t});
    ReleaseKeepsCounts(r, l, t, r', l');
    ReleaseKeepsOwners(r, l, t, r', l');
    ReleaseKeepsTokens(r, t, r');
  }

  lemma ReleaseKeepsTokens(r: Registry, t: nat, r': Registry)
    requires SizesOk(r) && TokensOk(r) && r.IsLive(t) && |r'.refCount| == |r.refCount| && SizesOk(r')
    requires r'.nextToken == r.nextToken && r'.tokenToChannel == r.tokenToChannel
    requires r'.tokenUsed == r.tokenUsed[t := false] && r'.freeTokens == r.freeTokens + [t]
    ensures TokensOk(r')
  {
    forall u | 0 <= u < r'.nextToken && !r'.tokenUsed[u] ensures u in r'.freeTokens {
      assert u == t || u in r.freeTokens;
    }
  }

  /** The free stack of channels never overflows. */
  lemma FreeStackHasRoom(r: Registry, c: nat)
    requires ChannelsOk(r) && c < |r.refCount| && c !in r.freeChannels
    ensures |r.freeChannels| < |r.refCount|
  {
    var grown := r.freeChannels + [c];
    DistinctBound(seq(|grown|, i requires 0 <= i < |grown| => grown[i] as int), |r.refCount|);
  }

  lemma LastUserFitsFreeStack(r: Registry, l: Ledger, t: nat)
    requires Inv(r, l) && r.IsLive(t)
    ensures r.tokenToChannel[t] < |r.refCount| && |r.freeChannels| < |r.refCount|
  {
    LiveTokenCharges(r, l, t);
    FreeStackHasRoom(r, r.tokenToChannel[t]);
  }

  /** `release` fails exactly on a token that is not live; the free pool never overflows. */
  lemma ReleaseFailsExactlyOnDeadTokens(r: Registry, l: Ledger, t: int)
    requires Inv(r, l)
    ensures r.IsLive(t) ==> r.refCount[r.tokenToChannel[t]] > 0
    ensures match Release(r, t).1
            case Ok(_) => r.IsLive(t)
            case Throws(e) =>
              && !r.IsLive(t) && Release(r, t).0 == r
              && e == if 0 <= t < r.nextToken then AlreadyFree else InvalidToken
  {
    if r.IsLive(t) {
      ReleaseKeepsInv(r, l, t);
    }
  }

  // ----- Runs -----

  datatype Operation = AcquireOwn | AcquireIn(group: nat) | Free(token: int)

  datatype World = World(r: Registry, l: Ledger)

  predicate Callable(r: Registry, op: Operation) { op.AcquireIn? ==> op.group < |r.groupToChannel| }

  /** One call of the public interface; a call that throws changes what it changed before throwing. */
  function Perform(w: World, op: Operation): World
    requires Inv(w.r, w.l) && Callable(w.r, op)
  {
    match op
    case AcquireOwn =>
      var (r', result) := AcquireAlone(w.r);
      World(r', AfterAcquire(w.l, Alone, ChargedAlone(w.r), result))
    case AcquireIn(g) =>
      var (r', result) := AcquireMember(w.r, g);
      World(r', AfterAcquire(w.l, Member(g), ChargedMember(w.r, g), result))
    case Free(t) =>
      ReleaseFailsExactlyOnDeadTokens(w.r, w.l, t);
      World(Release(w.r, t).0, if w.r.IsLive(t) then w.l.(owners := w.l.owners - {t}) else w.l)
  }

  lemma GroupsStay(r: Registry, l: Ledger, op: Operation)
    requires Inv(r, l) && Callable(r, op)
    ensures |Perform(World(r, l), op).r.groupToChannel| == |r.groupToChannel|
  {
    if op.Free? && r.IsLive(op.token) {
      LiveTokenCharges(r, l, op.token);
      DischargeGroups(r, l, r.tokenToChannel[op.token]);
    }
  }

  lemma PerformKeepsInv(w: World, op: Operation)
    requires Inv(w.r, w.l) && Callable(w.r, op)
    ensures Inv(Perform(w, op).r, Perform(w, op).l)
    ensures |Perform(w, op).r.groupToChannel| == |w.r.groupToChannel|
  {
    GroupsStay(w.r, w.l, op);
    match op {
      case AcquireOwn => AcquireAloneKeepsInv(w.r, w.l);
      case AcquireIn(g) => AcquireMemberKeepsInv(w.r, w.l, g);
      case Free(t) =>
        if w.r.IsLive(t) {
          ReleaseKeepsInv(w.r, w.l, t);
        }
    }
  }

  ghost predicate AllCallable(r: Registry, ops: seq<Operation>) {
    forall i :: 0 <= i < |ops| ==> Callable(r, ops[i])
  }

  lemma CallableStays(w: World, ops: seq<Operation>)
    requires Inv(w.r, w.l) && ops != [] && AllCallable(w.r, ops)
    ensures Inv(Perform(w, ops[0]).r, Perform(w, ops[0]).l) && AllCallable(Perform(w, ops[0]).r, ops[1..])
  {
    PerformKeepsInv(w, ops[0]);
    forall i | 0 <= i < |ops[1..]| ensures Callable(Perform(w, ops[0]).r, ops[1..][i]) {
      assert Callable(w.r, ops[i + 1]);
    }
  }

  /** A run of the public interface. */
  function PerformAll(w: World, ops: seq<Operation>): (w': World)
    requires Inv(w.r, w.l) && AllCallable(w.r, ops)
    ensures Inv(w'.r, w'.l)
    decreases |ops|
  {
    if ops == [] then w
    else
      CallableStays(w, ops);
      PerformAll(Perform(w, ops[0]), ops[1..])
  }

  function Repeat<T>(n: nat, x: T): seq<T> { seq(n, i => x) }

  function Upto(n: nat): seq<nat> { seq(n, i => i) }

  /** The freshly constructed registry. */
  function Fresh(bindings: nat, channels: nat, groups: nat): World {
    World(Registry(0, Repeat(bindings, 0), Repeat(bindings, false), [], Upto(channels),
                   Repeat(channels, 0), Repeat(channels, Exclusive), Repeat(groups, NO_CHANNEL)),
          Ledger(map[], Repeat(channels, 0)))
  }

  lemma FreshSatisfiesInv(bindings: nat, channels: nat, groups: nat)
    ensures Inv(Fresh(bindings, channels, groups).r, Fresh(bindings, channels, groups).l)
  {
    var w := Fresh(bindings, channels, groups);
    forall c | 0 <= c < channels ensures c in w.r.freeChannels && Users(w.r, c) == {} {
      assert w.r.freeChannels[c] == c;
    }
  }

  /** `resolve`. */
  function Resolve(r: Registry, t: nat): nat
    requires SizesOk(r) && r.IsLive(t)
  {
    r.tokenToChannel[t]
  }

  /**
    Two live tokens resolve to the same channel exactly when both were acquired for the same group; so a token
    acquired alone shares with nobody. Every live token's channel is charged and off the free stack.
  */
  lemma SameChannelExactlyWhenSameGroup(r: Registry, l: Ledger, t: nat, u: nat)
    requires Inv(r, l) && r.IsLive(t) && r.IsLive(u) && t != u
    ensures t in l.owners && u in l.owners
    ensures Resolve(r, t) == Resolve(r, u) <==> l.owners[t].Member? && l.owners[t] == l.owners[u]
    ensures Resolve(r, t) !in r.freeChannels
  {
    assert OwnerOk(r, l, t) && OwnerOk(r, l, u);
    LiveTokenCharges(r, l, t);
  }

  lemma AcquireKeepsBinding(r: Registry, op: Operation, t: nat)
    requires SizesOk(r) && TokensOk(r) && ChannelsOk(r) && r.IsLive(t) && Callable(r, op)
    ensures op.AcquireOwn? ==> AcquireAlone(r).0.IsLive(t) && SizesOk(AcquireAlone(r).0) &&
                               Resolve(AcquireAlone(r).0, t) == Resolve(r, t) && AcquireAlone(r).1 != Ok(t)
    ensures op.AcquireIn? ==> AcquireMember(r, op.group).0.IsLive(t) && SizesOk(AcquireMember(r, op.group).0) &&
                              Resolve(AcquireMember(r, op.group).0, t) == Resolve(r, t) &&
                              AcquireMember(r, op.group).1 != Ok(t)
  {
  }

  lemma PerformKeepsOwner(w: World, op: Operation, t: nat)
    requires Inv(w.r, w.l) && Callable(w.r, op) && w.r.IsLive(t) && op != Free(t)
    ensures t in w.l.owners && t in Perform(w, op).l.owners && Perform(w, op).l.owners[t] == w.l.owners[t]
  {
    AcquireKeepsBinding(w.r, op, t);
  }

  lemma PerformKeepsChannel(w: World, op: Operation, t: nat)
    requires Inv(w.r, w.l) && Callable(w.r, op) && w.r.IsLive(t) && op != Free(t)
    requires SizesOk(Perform(w, op).r)
    ensures Perform(w, op).r.IsLive(t) && Resolve(Perform(w, op).r, t) == Resolve(w.r, t)
  {
    AcquireKeepsBinding(w.r, op, t);
  }

  /** No operation moves a token that stays live to another channel, or changes what it was acquired for. */
  lemma PerformKeepsBinding(w: World, op: Operation, t: nat)
    requires Inv(w.r, w.l) && Callable(w.r, op) && w.r.IsLive(t) && op != Free(t)
    ensures var w' := Perform(w, op);
            && Inv(w'.r, w'.l) && w'.r.IsLive(t) && Resolve(w'.r, t) == Resolve(w.r, t)
            && t in w.l.owners && t in w'.l.owners && w'.l.owners[t] == w.l.owners[t]
  {
    PerformKeepsInv(w, op);
    PerformKeepsChannel(w, op, t);
    PerformKeepsOwner(w, op, t);
  }

  /** `resolve` of a token is the same from its acquire to its release, whatever happens in between. */
  lemma {:induction false} ResolveNeverChanges(w: World, ops: seq<Operation>, t: nat)
    requires Inv(w.r, w.l) && w.r.IsLive(t)
    requires AllCallable(w.r, ops) && Free(t) !in ops
    ensures PerformAll(w, ops).r.IsLive(t) && Resolve(PerformAll(w, ops).r, t) == Resolve(w.r, t)
    ensures t in w.l.owners && t in PerformAll(w, ops).l.owners && PerformAll(w, ops).l.owners[t] == w.l.owners[t]
    decreases |ops|
  {
    if ops == [] {
    } else {
      PerformKeepsBinding(w, ops[0], t);
      CallableStays(w, ops);
      ResolveNeverChanges(Perform(w, ops[0]), ops[1..], t);
    }
  }

  // ----- When acquiring fails, and what that costs -----

  /** Every token there can be is live. */
  ghost predicate TokensExhausted(r: Registry) { forall t :: 0 <= t < r.MaxBindings() ==> r.IsLive(t) }

  lemma ExhaustedExactly(r: Registry)
    requires SizesOk(r) && TokensOk(r)
    ensures TokensExhausted(r) <==> r.freeTokens == [] && r.nextToken == r.MaxBindings()
  {
    if r.freeTokens != [] {
      assert !r.IsLive(r.freeTokens[0]);
    } else if r.nextToken < r.MaxBindings() {
      assert !r.IsLive(r.nextToken);
    }
  }

  /** All channels are charged. */
  ghost predicate ChannelsExhausted(r: Registry) { forall c :: 0 <= c < |r.refCount| ==> r.refCount[c] > 0 }

  lemma NoFreeChannelExactly(r: Registry)
    requires ChannelsOk(r)
    ensures r.freeChannels == [] <==> ChannelsExhausted(r)
  {
    if r.freeChannels != [] {
      assert r.freeChannels[0] in r.freeChannels && r.refCount[r.freeChannels[0]] == 0;
    }
  }

  predicate NeedsChannel(r: Registry, op: Operation)
    requires Callable(r, op)
  {
    op.AcquireIn? ==> !GroupIsOpen(r, op.group)
  }

  function Acquired(r: Registry, op: Operation): Result<nat>
    requires SizesOk(r) && TokensOk(r) && ChannelsOk(r) && Callable(r, op) && !op.Free?
  {
    if op.AcquireOwn? then AcquireAlone(r).1 else AcquireMember(r, op.group).1
  }

  /** An acquire fails exactly when it needs a channel and all are charged, or else when all tokens are live. */
  lemma AcquireFailsExactly(r: Registry, l: Ledger, op: Operation)
    requires Inv(r, l) && Callable(r, op) && !op.Free?
    ensures Acquired(r, op) == Throws(NoFreeChannel) <==> NeedsChannel(r, op) && ChannelsExhausted(r)
    ensures Acquired(r, op) == Throws(CapacityExceeded) <==>
              !(NeedsChannel(r, op) && ChannelsExhausted(r)) && TokensExhausted(r)
    ensures Acquired(r, op).Throws? ==> Acquired(r, op).error == NoFreeChannel || Acquired(r, op).error == CapacityExceeded
  {
    NoFreeChannelExactly(r);
    ExhaustedExactly(r);
  }

  /** The first failure changes nothing; the second leaves a charge that no token pays for. */
  lemma FailedAcquireCosts(w: World, op: Operation)
    requires Inv(w.r, w.l) && Callable(w.r, op) && !op.Free?
    ensures Acquired(w.r, op) == Throws(NoFreeChannel) ==> Perform(w, op) == w
    ensures Acquired(w.r, op) == Throws(CapacityExceeded) ==>
              exists c :: 0 <= c < |w.l.leaks| && Perform(w, op).l == Charge(w.l, c) &&
                          Perform(w, op).l.leaks[c] == w.l.leaks[c] + 1
  {
    var c := if op.AcquireOwn? then ChargedAlone(w.r) else ChargedMember(w.r, op.group);
    if Acquired(w.r, op) == Throws(CapacityExceeded) {
      assert w.r.freeChannels != [] ==> Last(w.r.freeChannels) < |w.r.refCount|;
      assert Perform(w, op).l == Charge(w.l, c) && c < |w.l.leaks|;
    }
  }

  lemma LeaksGrow(w: World, op: Operation, c: nat)
    requires Inv(w.r, w.l) && Callable(w.r, op) && c < |w.l.leaks|
    ensures |Perform(w, op).l.leaks| == |w.l.leaks| && Perform(w, op).l.leaks[c] >= w.l.leaks[c]
  {
  }

  /** A channel with such a charge is never free again, whatever is released. */
  lemma {:induction false} LeakedChannelIsLost(w: World, ops: seq<Operation>, c: nat)
    requires Inv(w.r, w.l) && AllCallable(w.r, ops) && c < |w.l.leaks| && w.l.leaks[c] > 0
    ensures c !in PerformAll(w, ops).r.freeChannels && c < |PerformAll(w, ops).r.refCount|
    ensures PerformAll(w, ops).r.refCount[c] > 0
    decreases |ops|
  {
    if ops == [] {
      assert w.r.refCount[c] == |Users(w.r, c)| + w.l.leaks[c];
    } else {
      CallableStays(w, ops);
      LeaksGrow(w, ops[0], c);
      LeakedChannelIsLost(Perform(w, ops[0]), ops[1..], c);
    }
  }

  // ----- Such a charge can come about -----

  function Joins(n: nat): seq<Operation> { seq(n, i => AcquireIn(0)) }

  /** `n` tokens are live, all of them in group 0, and there are channels left. */
  ghost predicate Joined(w: World, n: nat) {
    && Inv(w.r, w.l) && |w.r.groupToChannel| > 0 && w.r.freeChannels != []
    && w.r.nextToken == n && w.r.freeTokens == []
    && if n == 0 then |w.r.freeChannels| > 1 else GroupIsOpen(w.r, 0)
  }

  lemma OneMoreJoins(w: World, n: nat)
    requires Joined(w, n) && n < w.r.MaxBindings()
    ensures Joined(Perform(w, AcquireIn(0)), n + 1)
    ensures Perform(w, AcquireIn(0)).r.MaxBindings() == w.r.MaxBindings()
  {
    PerformKeepsInv(w, AcquireIn(0));
    if !GroupIsOpen(w.r, 0) {
      assert Last(w.r.freeChannels) in w.r.freeChannels;
      assert Last(w.r.freeChannels) < |w.r.refCount|;
    }
  }

  lemma {:induction false} JoinsUseUpTokens(w: World, n: nat, k: nat)
    requires Joined(w, n) && n + k <= w.r.MaxBindings()
    ensures AllCallable(w.r, Joins(k)) && Joined(PerformAll(w, Joins(k)), n + k)
    ensures PerformAll(w, Joins(k)).r.MaxBindings() == w.r.MaxBindings()
    decreases k
  {
    if k == 0 {
    } else {
      OneMoreJoins(w, n);
      assert Joins(k)[0] == AcquireIn(0) && Joins(k)[1..] == Joins(k - 1);
      JoinsUseUpTokens(Perform(w, AcquireIn(0)), n + 1, k - 1);
    }
  }

  lemma ExhaustedAcquireLeaks(w: World)
    requires Joined(w, w.r.MaxBindings())
    ensures Acquired(w.r, AcquireOwn) == Throws(CapacityExceeded)
    ensures var w', c := Perform(w, AcquireOwn), Last(w.r.freeChannels);
            c < |w'.r.refCount| && w'.r.refCount[c] > 0 && Users(w'.r, c) == {} && c < |w'.l.leaks| && w'.l.leaks[c] > 0
  {
    var c := Last(w.r.freeChannels);
    assert c in w.r.freeChannels;
    NobodyUsesAFreeChannel(w.r, w.l, c);
    assert Users(Perform(w, AcquireOwn).r, c) == Users(w.r, c);
  }

  /**
    On every registry with a token, a group and two channels: when one group has all the tokens, an exclusive acquire
    fails for want of a token, and its channel is charged although no token uses it.
  */
  lemma LeakIsReachable(bindings: nat, channels: nat, groups: nat)
    requires bindings >= 1 && channels >= 2 && groups >= 1
    ensures var w := Fresh(bindings, channels, groups);
            && Inv(w.r, w.l) && AllCallable(w.r, Joins(bindings))
            && var full := PerformAll(w, Joins(bindings));
               && Acquired(full.r, AcquireOwn) == Throws(CapacityExceeded)
               && var end := Perform(full, AcquireOwn);
                  exists c :: 0 <= c < channels == |end.r.refCount| == |end.l.leaks| &&
                              end.r.refCount[c] > 0 && Users(end.r, c) == {} && end.l.leaks[c] > 0
  {
    var w := Fresh(bindings, channels, groups);
    FreshSatisfiesInv(bindings, channels, groups);
    JoinsUseUpTokens(w, 0, bindings);
    var full := PerformAll(w, Joins(bindings));
    ExhaustedAcquireLeaks(full);
    ChannelsStay(w, Joins(bindings));
    PerformKeepsInv(full, AcquireOwn);
    var end, c := Perform(full, AcquireOwn), Last(full.r.freeChannels);
    assert 0 <= c < channels && end.r.refCount[c] > 0;
  }

  lemma {:induction false} ChannelsStay(w: World, ops: seq<Operation>)
    requires Inv(w.r, w.l) && AllCallable(w.r, ops)
    ensures |PerformAll(w, ops).r.refCount| == |w.r.refCount|
    decreases |ops|
  {
    if ops == [] {
    } else {
      CallableStays(w, ops);
      ChannelsStay(Perform(w, ops[0]), ops[1..]);
    }
  }
}
