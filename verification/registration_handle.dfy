/** Move-only handles that own a token of the registry, as operations on values. */
module HandleSpec {
  import opened RegistrySpec

  /** `kInvalidToken`: the largest 32-bit number, which is never handed out. */
  const INVALID_TOKEN: int := 0xFFFF_FFFF

  /** A handle's fields: whether `registry_` is set, and `token_`. */
  datatype Handle = Handle(attached: bool, token: int)
  {
    predicate Valid() { attached && token != INVALID_TOKEN }
  }

  const DETACHED: Handle := Handle(false, INVALID_TOKEN)

  /** The registry with its ledger, and the handle objects that exist. */
  datatype Scene = Scene(w: World, handles: map<nat, Handle>)

  datatype HandleOp =
    | Default(id: nat)
    | Construct(id: nat)
    | ConstructIn(id: nat, group: nat)
    | MoveConstruct(id: nat, from: nat)
    | MoveAssign(id: nat, from: nat)
    | Reassign(id: nat)
    | ReassignTo(id: nat, group: nat)
    | Destruct(id: nat)

  /** Constructors make a new object; the other operations need theirs; only an attached handle may be reassigned. */
  predicate Allowed(s: Scene, op: HandleOp) {
    match op
    case Default(id) => id !in s.handles
    case Construct(id) => id !in s.handles
    case ConstructIn(id, g) => id !in s.handles && g < |s.w.r.groupToChannel|
    case MoveConstruct(id, from) => id !in s.handles && from in s.handles
    case MoveAssign(id, from) => id in s.handles && from in s.handles
    case Reassign(id) => id in s.handles && s.handles[id].attached
    case ReassignTo(id, g) => id in s.handles && s.handles[id].attached && g < |s.w.r.groupToChannel|
    case Destruct(id) => id in s.handles
  }

  /** `release` of a handle: an exception of the registry is swallowed, and the token is forgotten anyway. */
  function Drop(w: World, h: Handle): World
    requires Inv(w.r, w.l)
  {
    if h.Valid() then Perform(w, Free(h.token)) else w
  }

  /** A constructor that acquires; when the registry throws, the object does not come to exist. */
  function ConstructWith(s: Scene, id: nat, acquire: Operation): Scene
    requires Inv(s.w.r, s.w.l) && Callable(s.w.r, acquire) && !acquire.Free?
  {
    var w := Perform(s.w, acquire);
    match Acquired(s.w.r, acquire)
    case Ok(t) => Scene(w, s.handles[id := Handle(true, t)])
    case Throws(_) => Scene(w, s.handles)
  }

  /** `reassign`: give the old token up first; when the registry then throws, the handle is left without one. */
  function ReassignWith(s: Scene, id: nat, acquire: Operation): Scene
    requires Inv(s.w.r, s.w.l) && id in s.handles && Callable(s.w.r, acquire) && !acquire.Free?
  {
    var w := Drop(s.w, s.handles[id]);
    DropKeepsInv(s.w, s.handles[id]);
    var w' := Perform(w, acquire);
    match Acquired(w.r, acquire)
    case Ok(t) => Scene(w', s.handles[id := Handle(s.handles[id].attached, t)])
    case Throws(_) => Scene(w', s.handles[id := Handle(s.handles[id].attached, INVALID_TOKEN)])
  }

  lemma DropKeepsInv(w: World, h: Handle)
    requires Inv(w.r, w.l)
    ensures Inv(Drop(w, h).r, Drop(w, h).l)
    ensures |Drop(w, h).r.groupToChannel| == |w.r.groupToChannel|
    ensures |Drop(w, h).r.tokenToChannel| == |w.r.tokenToChannel|
  {
    if h.Valid() {
      PerformKeepsInv(w, Free(h.token));
    }
  }

  function Act(s: Scene, op: HandleOp): Scene
    requires Inv(s.w.r, s.w.l) && Allowed(s, op)
  {
    match op
    case Default(id) => s.(handles := s.handles[id := DETACHED])
    case Construct(id) => ConstructWith(s, id, AcquireOwn)
    case ConstructIn(id, g) => ConstructWith(s, id, AcquireIn(g))
    case MoveConstruct(id, from) => s.(handles := s.handles[id := s.handles[from]][from := DETACHED])
    case MoveAssign(id, from) =>
      if id == from then s
      else Scene(Drop(s.w, s.handles[id]), s.handles[id := s.handles[from]][from := DETACHED])
    case Reassign(id) => ReassignWith(s, id, AcquireOwn)
    case ReassignTo(id, g) => ReassignWith(s, id, AcquireIn(g))
    case Destruct(id) => Scene(Drop(s.w, s.handles[id]), s.handles - {id})
  }

  /** The operation is allowed there and has this outcome. */
  ghost predicate Does(s: Scene, op: HandleOp, s': Scene) {
    Inv(s.w.r, s.w.l) && Allowed(s, op) && Act(s, op) == s'
  }

  // ----- Ownership -----

  ghost predicate Held(s: Scene, t: nat) {
    exists id :: id in s.handles && s.handles[id] == Handle(true, t)
  }

  /** Valid handles and live tokens are in one-to-one correspondence. */
  ghost predicate Bijection(s: Scene) {
    && Inv(s.w.r, s.w.l) && s.w.r.MaxBindings() <= INVALID_TOKEN
    && (forall id :: id in s.handles && s.handles[id].Valid() ==> s.w.r.IsLive(s.handles[id].token))
    && (forall i, j :: i in s.handles && j in s.handles && i != j && s.handles[i].Valid() && s.handles[j].Valid() ==>
          s.handles[i].token != s.handles[j].token)
    && (forall t :: t in s.w.l.owners ==> Held(s, t))
  }

  /** Giving up a live token makes that token dead, and no other. */
  lemma DropFacts(w: World, t: nat)
    requires Inv(w.r, w.l) && w.r.IsLive(t)
    ensures var w' := Perform(w, Free(t));
            && (forall u :: w'.r.IsLive(u) <==> w.r.IsLive(u) && u != t)
            && w'.l.owners.Keys == w.l.owners.Keys - {t}
  {
    ReleaseKeepsInv(w.r, w.l, t);
  }

  lemma OthersAreHeld(s: Scene, w': World, id: nat, t: nat)
    requires Bijection(s) && id in s.handles && s.handles[id] == Handle(true, t)
    requires w'.l.owners.Keys == s.w.l.owners.Keys - {t}
    ensures forall u :: u in w'.l.owners ==> Held(Scene(w', s.handles[id := Handle(true, INVALID_TOKEN)]), u)
  {
    var s' := Scene(w', s.handles[id := Handle(true, INVALID_TOKEN)]);
    forall u | u in w'.l.owners ensures Held(s', u) {
      assert u in s.w.l.owners.Keys && u != t && Held(s, u);
      var k :| k in s.handles && s.handles[k] == Handle(true, u);
      assert k in s'.handles && s'.handles[k] == Handle(true, u);
    }
  }

  /** A token and the handle that held it go together. */
  lemma LossKeepsBijection(s: Scene, w': World, id: nat, t: nat)
    requires Bijection(s) && id in s.handles && s.handles[id] == Handle(true, t) && t != INVALID_TOKEN
    requires Inv(w'.r, w'.l) && |w'.r.tokenToChannel| == |s.w.r.tokenToChannel|
    requires forall u :: w'.r.IsLive(u) <==> s.w.r.IsLive(u) && u != t
    requires w'.l.owners.Keys == s.w.l.owners.Keys - {t}
    ensures Bijection(Scene(w', s.handles[id := Handle(true, INVALID_TOKEN)]))
  {
    OthersAreHeld(s, w', id, t);
  }

  /** Taking the handle out of the correspondence, with its token. */
  lemma DropKeepsOthers(s: Scene, id: nat)
    requires Bijection(s) && id in s.handles
    ensures Bijection(Scene(Drop(s.w, s.handles[id]), s.handles[id := s.handles[id].(token := INVALID_TOKEN)]))
  {
    var h := s.handles[id];
    if h.Valid() {
      assert s.w.r.IsLive(h.token);
      DropKeepsInv(s.w, h);
      DropFacts(s.w, h.token);
      LossKeepsBijection(s, Drop(s.w, h), id, h.token);
    } else {
      ForgetKeepsBijection(s, id, h.(token := INVALID_TOKEN));
      assert s.(handles := s.handles[id := h.(token := INVALID_TOKEN)])
          == Scene(Drop(s.w, h), s.handles[id := h.(token := INVALID_TOKEN)]);
    }
  }

  lemma AllocationFacts(w: World, acquire: Operation)
    requires Inv(w.r, w.l) && Callable(w.r, acquire) && !acquire.Free?
    ensures var r', result := Perform(w, acquire).r, Acquired(w.r, acquire);
            && |r'.tokenToChannel| == |w.r.tokenToChannel|
            && match result
               case Ok(t) =>
                 && !w.r.IsLive(t) && r'.IsLive(t) && (forall u :: u != t ==> (r'.IsLive(u) <==> w.r.IsLive(u)))
               case Throws(_) => forall u :: r'.IsLive(u) <==> w.r.IsLive(u)
  {
    var r := w.r;
    if acquire.AcquireIn? && GroupIsOpen(r, acquire.group) {
      JoinKeepsInv(r, w.l, acquire.group);
      AllocateIsFresh(Join(r, r.groupToChannel[acquire.group]), r.groupToChannel[acquire.group]);
    } else if r.freeChannels != [] {
      var mode := if acquire.AcquireOwn? then Exclusive else Shared;
      var c := Last(r.freeChannels);
      OpenKeepsInv(r, w.l, mode);
      assert c in r.freeChannels;
      AllocateIsFresh(OpenChannel(r, mode), c);
      if acquire.AcquireIn? {
        AllocateIsFresh(OpenChannel(r, mode).(groupToChannel := r.groupToChannel[acquire.group := c]), c);
      }
    }
  }

  lemma LedgerFacts(w: World, acquire: Operation)
    requires Inv(w.r, w.l) && Callable(w.r, acquire) && !acquire.Free?
    ensures match Acquired(w.r, acquire)
            case Ok(t) => Perform(w, acquire).l.owners.Keys == w.l.owners.Keys + {t}
            case Throws(_) => Perform(w, acquire).l.owners == w.l.owners
  {
  }

  lemma GainIsHeld(s: Scene, w': World, id: nat, t: nat)
    requires Bijection(s) && (id in s.handles ==> !s.handles[id].Valid())
    requires w'.l.owners.Keys == s.w.l.owners.Keys + {t}
    ensures forall u :: u in w'.l.owners ==> Held(Scene(w', s.handles[id := Handle(true, t)]), u)
  {
    var s' := Scene(w', s.handles[id := Handle(true, t)]);
    forall u | u in w'.l.owners ensures Held(s', u) {
      if u == t {
        assert id in s'.handles && s'.handles[id] == Handle(true, u);
      } else {
        assert u in s.w.l.owners.Keys;
        var k := ValidHolder(s, u);
        assert k in s'.handles && s'.handles[k] == Handle(true, u);
      }
    }
  }

  lemma GainKeepsBijection(s: Scene, w': World, id: nat, t: nat)
    requires Bijection(s) && (id in s.handles ==> !s.handles[id].Valid())
    requires Inv(w'.r, w'.l) && |w'.r.tokenToChannel| == |s.w.r.tokenToChannel|
    requires !s.w.r.IsLive(t) && w'.r.IsLive(t) && w'.l.owners.Keys == s.w.l.owners.Keys + {t}
    requires forall u :: u != t ==> (w'.r.IsLive(u) <==> s.w.r.IsLive(u))
    ensures Bijection(Scene(w', s.handles[id := Handle(true, t)]))
  {
    GainIsHeld(s, w', id, t);
    var s' := Scene(w', s.handles[id := Handle(true, t)]);
    forall i, j | i in s'.handles && j in s'.handles && i != j && s'.handles[i].Valid() && s'.handles[j].Valid()
      ensures s'.handles[i].token != s'.handles[j].token
    {
      assert i != id ==> s.w.r.IsLive(s.handles[i].token);
      assert j != id ==> s.w.r.IsLive(s.handles[j].token);
    }
    hide Inv;
  }

  lemma SameTokensKeepBijection(s: Scene, w': World)
    requires Bijection(s) && Inv(w'.r, w'.l) && |w'.r.tokenToChannel| == |s.w.r.tokenToChannel|
    requires w'.l.owners == s.w.l.owners && forall u :: w'.r.IsLive(u) <==> s.w.r.IsLive(u)
    ensures Bijection(Scene(w', s.handles))
  {
    forall u | u in w'.l.owners ensures Held(Scene(w', s.handles), u) {
      assert Held(s, u);
      var k :| k in s.handles && s.handles[k] == Handle(true, u);
    }
  }

  /** A fresh token goes to a handle that has none; a failed acquire changes no token. */
  lemma AcquireKeepsBijection(s: Scene, id: nat, acquire: Operation)
    requires Bijection(s) && Callable(s.w.r, acquire) && !acquire.Free?
    requires id in s.handles ==> !s.handles[id].Valid()
    ensures match Acquired(s.w.r, acquire)
            case Ok(t) => Bijection(Scene(Perform(s.w, acquire), s.handles[id := Handle(true, t)]))
            case Throws(_) => Bijection(Scene(Perform(s.w, acquire), s.handles))
  {
    PerformKeepsInv(s.w, acquire);
    AllocationFacts(s.w, acquire);
    LedgerFacts(s.w, acquire);
    match Acquired(s.w.r, acquire) {
      case Ok(t) => GainKeepsBijection(s, Perform(s.w, acquire), id, t);
      case Throws(_) => SameTokensKeepBijection(s, Perform(s.w, acquire));
    }
  }

  /** Handing a token from one handle to another that has none. */
  lemma MovedAreHeld(s: Scene, id: nat, from: nat)
    requires Bijection(s) && from in s.handles && id != from
    requires id in s.handles ==> !s.handles[id].Valid()
    ensures var s' := s.(handles := s.handles[id := s.handles[from]][from := DETACHED]);
            forall u :: u in s.w.l.owners ==> Held(s', u)
  {
    var s' := s.(handles := s.handles[id := s.handles[from]][from := DETACHED]);
    forall u | u in s.w.l.owners ensures Held(s', u) {
      var k := ValidHolder(s, u);
      var k' := if k == from then id else k;
      assert k' in s'.handles && s'.handles[k'] == Handle(true, u);
    }
  }

  /** The handle that holds a live token. */
  lemma ValidHolder(s: Scene, t: nat) returns (id: nat)
    requires Bijection(s) && t in s.w.l.owners
    ensures id in s.handles && s.handles[id] == Handle(true, t) && s.handles[id].Valid()
  {
    assert Held(s, t) && s.w.r.IsLive(t);
    id :| id in s.handles && s.handles[id] == Handle(true, t);
  }

  lemma MoveKeepsBijection(s: Scene, id: nat, from: nat)
    requires Bijection(s) && from in s.handles && id != from
    requires id in s.handles ==> !s.handles[id].Valid()
    ensures Bijection(s.(handles := s.handles[id := s.handles[from]][from := DETACHED]))
  {
    MovedAreHeld(s, id, from);
  }

  lemma ForgetKeepsBijection(s: Scene, id: nat, h: Handle)
    requires Bijection(s) && !h.Valid() && (id in s.handles ==> !s.handles[id].Valid())
    ensures Bijection(s.(handles := s.handles - {id})) && Bijection(s.(handles := s.handles[id := h]))
  {
    forall s' | s' == s.(handles := s.handles - {id}) || s' == s.(handles := s.handles[id := h]) ensures Bijection(s') {
      forall u | u in s.w.l.owners ensures Held(s', u) {
        var k := ValidHolder(s, u);
        assert k in s'.handles && s'.handles[k] == Handle(true, u);
      }
    }
  }

  ghost function Dropped(s: Scene, id: nat): Scene
    requires Inv(s.w.r, s.w.l) && id in s.handles
  {
    Scene(Drop(s.w, s.handles[id]), s.handles[id := s.handles[id].(token := INVALID_TOKEN)])
  }

  lemma ReassignIsDropThenAcquire(s: Scene, id: nat, acquire: Operation)
    requires Inv(s.w.r, s.w.l) && id in s.handles && s.handles[id].attached && Callable(s.w.r, acquire) && !acquire.Free?
    ensures var d := Dropped(s, id);
            Inv(d.w.r, d.w.l) && Callable(d.w.r, acquire) &&
            ReassignWith(s, id, acquire) ==
              match Acquired(d.w.r, acquire)
              case Ok(t) => Scene(Perform(d.w, acquire), d.handles[id := Handle(true, t)])
              case Throws(_) => Scene(Perform(d.w, acquire), d.handles)
  {
    DropKeepsInv(s.w, s.handles[id]);
    hide Perform, Acquired, Inv;
    var d := Dropped(s, id);
    if Acquired(d.w.r, acquire).Ok? {
      var t := Acquired(d.w.r, acquire).value;
      assert d.handles[id := Handle(true, t)] == s.handles[id := Handle(true, t)];
    }
  }

  lemma ReassignKeepsBijection(s: Scene, id: nat, acquire: Operation)
    requires Bijection(s) && id in s.handles && s.handles[id].attached && Callable(s.w.r, acquire) && !acquire.Free?
    ensures Bijection(ReassignWith(s, id, acquire))
  {
    DropKeepsOthers(s, id);
    DropKeepsInv(s.w, s.handles[id]);
    AcquireKeepsBijection(Dropped(s, id), id, acquire);
    ReassignIsDropThenAcquire(s, id, acquire);
  }

  lemma ConstructKeepsBijection(s: Scene, id: nat, acquire: Operation)
    requires Bijection(s) && id !in s.handles && Callable(s.w.r, acquire) && !acquire.Free?
    ensures Bijection(ConstructWith(s, id, acquire))
  {
    AcquireKeepsBijection(s, id, acquire);
  }

  lemma MoveAssignKeepsBijection(s: Scene, id: nat, from: nat)
    requires Bijection(s) && id in s.handles && from in s.handles && id != from
    ensures Bijection(Scene(Drop(s.w, s.handles[id]), s.handles[id := s.handles[from]][from := DETACHED]))
  {
    DropKeepsOthers(s, id);
    var h := s.handles[id].(token := INVALID_TOKEN);
    MoveKeepsBijection(Scene(Drop(s.w, s.handles[id]), s.handles[id := h]), id, from);
    assert s.handles[id := h][id := s.handles[from]][from := DETACHED] == s.handles[id := s.handles[from]][from := DETACHED];
  }

  lemma DestructKeepsBijection(s: Scene, id: nat)
    requires Bijection(s) && id in s.handles
    ensures Bijection(Scene(Drop(s.w, s.handles[id]), s.handles - {id}))
  {
    DropKeepsOthers(s, id);
    var h := s.handles[id].(token := INVALID_TOKEN);
    ForgetKeepsBijection(Scene(Drop(s.w, s.handles[id]), s.handles[id := h]), id, h);
    assert s.handles[id := h] - {id} == s.handles - {id};
  }

  // ----- Who holds what afterwards -----

  function Involved(op: HandleOp): set<nat> {
    match op
    case Default(id) => {id}
    case Construct(id) => {id}
    case ConstructIn(id, _) => {id}
    case MoveConstruct(id, from) => {id, from}
    case MoveAssign(id, from) => {id, from}
    case Reassign(id) => {id}
    case ReassignTo(id, _) => {id}
    case Destruct(id) => {id}
  }

  /** The token stays live, on its channel and with its owner. */
  ghost predicate Survives(w: World, w': World, t: int) {
    && Inv(w.r, w.l) && Inv(w'.r, w'.l) && w.r.IsLive(t) && w'.r.IsLive(t) && Resolve(w'.r, t) == Resolve(w.r, t)
    && t in w.l.owners && t in w'.l.owners && w'.l.owners[t] == w.l.owners[t]
  }

  /** Handles that the operation does not name stay as they are, with their tokens. */
  ghost predicate OthersKeep(s: Scene, involved: set<nat>, s': Scene) {
    forall k :: k !in involved ==>
      && (k in s'.handles <==> k in s.handles)
      && (k in s.handles ==> s'.handles[k] == s.handles[k])
      && (k in s.handles && s.handles[k].Valid() ==> Survives(s.w, s'.w, s.handles[k].token))
  }

  /** The handle is attached and holds a live token that was acquired as `owner` says. */
  ghost predicate HoldsAs(s: Scene, id: nat, owner: Owner) {
    && id in s.handles && s.handles[id].attached && s.handles[id].Valid() && s.w.r.IsLive(s.handles[id].token)
    && s.handles[id].token in s.w.l.owners && s.w.l.owners[s.handles[id].token] == owner
  }

  /** The object exists if and only if the registry did not throw, and then holds a token that was not live before. */
  ghost predicate Constructed(s: Scene, id: nat, acquire: Operation, owner: Owner, s': Scene)
    requires Inv(s.w.r, s.w.l) && Callable(s.w.r, acquire) && !acquire.Free?
  {
    && (id in s'.handles <==> Acquired(s.w.r, acquire).Ok?)
    && (id in s'.handles ==> HoldsAs(s', id, owner) && !s.w.r.IsLive(s'.handles[id].token))
  }

  /** The handle holds a token acquired anew, or none if the registry threw; it is still attached. */
  ghost predicate Reassigned(s: Scene, id: nat, acquire: Operation, owner: Owner, s': Scene)
    requires Inv(s.w.r, s.w.l) && id in s.handles && Callable(s.w.r, acquire) && !acquire.Free?
  {
    && id in s'.handles && s'.handles[id].attached
    && (s'.handles[id].Valid() ==> HoldsAs(s', id, owner))
    && if s.handles[id].Valid() then
         if s'.handles[id].Valid() then s'.handles[id].token == s.handles[id].token
         else !s'.w.r.IsLive(s.handles[id].token)
       else s'.handles[id].Valid() <==> Acquired(s.w.r, acquire).Ok?
  }

  ghost predicate Transferred(s: Scene, id: nat, from: nat, s': Scene) {
    && from in s.handles && from in s'.handles && id in s'.handles
    && s'.handles[id] == s.handles[from] && !s'.handles[from].Valid() && !s'.handles[from].attached
    && (s.handles[from].Valid() ==> Survives(s.w, s'.w, s.handles[from].token))
  }

  ghost predicate Effect(s: Scene, op: HandleOp, s': Scene)
    requires Inv(s.w.r, s.w.l) && Allowed(s, op)
  {
    && OthersKeep(s, Involved(op), s')
    && match op
       case Default(id) => s'.w == s.w && id in s'.handles && !s'.handles[id].attached && !s'.handles[id].Valid()
       case Construct(id) => Constructed(s, id, AcquireOwn, Alone, s')
       case ConstructIn(id, g) => Constructed(s, id, AcquireIn(g), Member(g), s')
       case MoveConstruct(id, from) => s'.w == s.w && Transferred(s, id, from, s')
       case MoveAssign(id, from) =>
         if id == from then s' == s
         else Transferred(s, id, from, s') && (s.handles[id].Valid() ==> !s'.w.r.IsLive(s.handles[id].token))
       case Reassign(id) => Reassigned(s, id, AcquireOwn, Alone, s')
       case ReassignTo(id, g) => Reassigned(s, id, AcquireIn(g), Member(g), s')
       case Destruct(id) =>
         id !in s'.handles && (s.handles[id].Valid() ==> !s'.w.r.IsLive(s.handles[id].token))
  }

  lemma AcquireSurvives(w: World, acquire: Operation, t: nat)
    requires Inv(w.r, w.l) && Callable(w.r, acquire) && !acquire.Free? && w.r.IsLive(t)
    ensures Survives(w, Perform(w, acquire), t)
  {
    PerformKeepsBinding(w, acquire, t);
  }

  /** Tokens of valid handles other than `id` outlive the loss of its token. */
  lemma DropSurvives(s: Scene, id: nat, k: nat)
    requires Bijection(s) && id in s.handles && k in s.handles && k != id && s.handles[k].Valid()
    ensures Survives(s.w, Drop(s.w, s.handles[id]), s.handles[k].token)
  {
    var h, t := s.handles[id], s.handles[k].token;
    assert s.w.r.IsLive(t);
    if h.Valid() {
      PerformKeepsBinding(s.w, Free(h.token), t);
    } else {
      assert t in s.w.l.owners;
    }
  }

  lemma DropKills(s: Scene, id: nat)
    requires Bijection(s) && id in s.handles && s.handles[id].Valid()
    ensures !Drop(s.w, s.handles[id]).r.IsLive(s.handles[id].token)
  {
    DropFacts(s.w, s.handles[id].token);
  }

  /** The token acquired has the owner that the operation names. */
  lemma AcquiredOwner(w: World, acquire: Operation)
    requires Inv(w.r, w.l) && Callable(w.r, acquire) && !acquire.Free? && Acquired(w.r, acquire).Ok?
    ensures var t, w' := Acquired(w.r, acquire).value, Perform(w, acquire);
            && !w.r.IsLive(t) && w'.r.IsLive(t) && t in w'.l.owners
            && w'.l.owners[t] == if acquire.AcquireOwn? then Alone else Member(acquire.group)
  {
    AllocationFacts(w, acquire);
  }

  lemma LiveIsValid(w: World, t: int)
    requires Inv(w.r, w.l) && w.r.MaxBindings() <= INVALID_TOKEN && w.r.IsLive(t)
    ensures Handle(true, t).Valid()
  {
  }

  lemma ConstructHasEffect(s: Scene, id: nat, acquire: Operation)
    requires Bijection(s) && id !in s.handles && Callable(s.w.r, acquire) && !acquire.Free?
    ensures var s' := ConstructWith(s, id, acquire);
            && OthersKeep(s, {id}, s')
            && Constructed(s, id, acquire, if acquire.AcquireOwn? then Alone else Member(acquire.group), s')
  {
    var s' := ConstructWith(s, id, acquire);
    AllocationFacts(s.w, acquire);
    PerformKeepsInv(s.w, acquire);
    if Acquired(s.w.r, acquire).Ok? {
      AcquiredOwner(s.w, acquire);
      LiveIsValid(s'.w, Acquired(s.w.r, acquire).value);
    }
    forall k | k in s.handles && s.handles[k].Valid() ensures Survives(s.w, s'.w, s.handles[k].token) {
      AcquireSurvives(s.w, acquire, s.handles[k].token);
    }
  }

  lemma TwiceSurvives(w: World, w1: World, w2: World, t: int)
    requires Survives(w, w1, t) && Survives(w1, w2, t)
    ensures Survives(w, w2, t)
  {
  }

  lemma ReassignKeepsOthers(s: Scene, id: nat, acquire: Operation)
    requires Bijection(s) && id in s.handles && s.handles[id].attached && Callable(s.w.r, acquire) && !acquire.Free?
    ensures OthersKeep(s, {id}, ReassignWith(s, id, acquire))
  {
    DropKeepsInv(s.w, s.handles[id]);
    var w := Drop(s.w, s.handles[id]);
    forall k | k != id && k in s.handles && s.handles[k].Valid()
      ensures Survives(s.w, Perform(w, acquire), s.handles[k].token)
    {
      DropSurvives(s, id, k);
      AcquireSurvives(w, acquire, s.handles[k].token);
      TwiceSurvives(s.w, w, Perform(w, acquire), s.handles[k].token);
    }
  }

  lemma ReassignHasEffect(s: Scene, id: nat, acquire: Operation)
    requires Bijection(s) && id in s.handles && s.handles[id].attached && Callable(s.w.r, acquire) && !acquire.Free?
    ensures Reassigned(s, id, acquire, if acquire.AcquireOwn? then Alone else Member(acquire.group),
                       ReassignWith(s, id, acquire))
  {
    DropKeepsInv(s.w, s.handles[id]);
    var w, s' := Drop(s.w, s.handles[id]), ReassignWith(s, id, acquire);
    PerformKeepsInv(w, acquire);
    AllocationFacts(w, acquire);
    if Acquired(w.r, acquire).Ok? {
      AcquiredOwner(w, acquire);
      LiveIsValid(s'.w, Acquired(w.r, acquire).value);
    }
    if s.handles[id].Valid() {
      ReassignFailsExactly(s, id, acquire);
      DropKills(s, id);
    }
  }

  lemma MoveAssignHasEffect(s: Scene, id: nat, from: nat)
    requires Bijection(s) && id in s.handles && from in s.handles && id != from
    ensures Effect(s, MoveAssign(id, from), Act(s, MoveAssign(id, from)))
  {
    DropKeepsInv(s.w, s.handles[id]);
    forall k | k != id && k in s.handles && s.handles[k].Valid()
      ensures Survives(s.w, Drop(s.w, s.handles[id]), s.handles[k].token)
    {
      DropSurvives(s, id, k);
    }
    if s.handles[id].Valid() {
      DropKills(s, id);
    }
  }

  lemma DestructHasEffect(s: Scene, id: nat)
    requires Bijection(s) && id in s.handles
    ensures Effect(s, Destruct(id), Act(s, Destruct(id)))
  {
    DropKeepsInv(s.w, s.handles[id]);
    forall k | k != id && k in s.handles && s.handles[k].Valid()
      ensures Survives(s.w, Drop(s.w, s.handles[id]), s.handles[k].token)
    {
      DropSurvives(s, id, k);
    }
    if s.handles[id].Valid() {
      DropKills(s, id);
    }
  }

  lemma StillSurvives(s: Scene, k: nat)
    requires Bijection(s) && k in s.handles && s.handles[k].Valid()
    ensures Survives(s.w, s.w, s.handles[k].token)
  {
    assert s.w.r.IsLive(s.handles[k].token);
  }

  lemma MoveConstructHasEffect(s: Scene, id: nat, from: nat)
    requires Bijection(s) && id !in s.handles && from in s.handles
    ensures Effect(s, MoveConstruct(id, from), Act(s, MoveConstruct(id, from)))
  {
    forall k | k in s.handles && s.handles[k].Valid() ensures Survives(s.w, s.w, s.handles[k].token) {
      StillSurvives(s, k);
    }
  }

  lemma DefaultHasEffect(s: Scene, id: nat)
    requires Bijection(s) && id !in s.handles
    ensures Effect(s, Default(id), Act(s, Default(id)))
  {
    forall k | k in s.handles && s.handles[k].Valid() ensures Survives(s.w, s.w, s.handles[k].token) {
      StillSurvives(s, k);
    }
  }

  /** Every operation leaves the tokens with the handles that it should, and touches no other handle. */
  lemma ActHasEffect(s: Scene, op: HandleOp)
    requires Bijection(s) && Allowed(s, op)
    ensures Effect(s, op, Act(s, op))
  {
    match op {
      case Default(id) => DefaultHasEffect(s, id);
      case Construct(id) => ConstructHasEffect(s, id, AcquireOwn);
      case ConstructIn(id, g) => ConstructHasEffect(s, id, AcquireIn(g));
      case MoveConstruct(id, from) => MoveConstructHasEffect(s, id, from);
      case MoveAssign(id, from) =>
        if id != from {
          MoveAssignHasEffect(s, id, from);
        } else {
          forall k | k in s.handles && s.handles[k].Valid() ensures Survives(s.w, s.w, s.handles[k].token) {
            StillSurvives(s, k);
          }
        }
      case Reassign(id) =>
        ReassignKeepsOthers(s, id, AcquireOwn);
        ReassignHasEffect(s, id, AcquireOwn);
      case ReassignTo(id, g) =>
        ReassignKeepsOthers(s, id, AcquireIn(g));
        ReassignHasEffect(s, id, AcquireIn(g));
      case Destruct(id) => DestructHasEffect(s, id);
    }
  }

  /** The part of the scene that an operation on these handles can see. */
  function Seen(s: Scene, ids: set<nat>): Scene { Scene(s.w, s.handles - (s.handles.Keys - ids)) }

  /** The scene after an operation on these handles alone, among all the others. */
  function Among(s: Scene, ids: set<nat>, local: Scene): Scene { Scene(local.w, s.handles - ids + local.handles) }

  lemma ConstructIsLocal(s: Scene, id: nat, acquire: Operation)
    requires Inv(s.w.r, s.w.l) && Callable(s.w.r, acquire) && !acquire.Free? && id !in s.handles
    ensures ConstructWith(s, id, acquire) == Among(s, {id}, ConstructWith(Seen(s, {id}), id, acquire))
  {
    hide Perform, Acquired, Inv;
    assert Seen(s, {id}).handles == map[];
    assert ConstructWith(s, id, acquire).handles == s.handles - {id} + ConstructWith(Seen(s, {id}), id, acquire).handles;
  }

  lemma ReassignIsLocal(s: Scene, id: nat, acquire: Operation)
    requires Inv(s.w.r, s.w.l) && Callable(s.w.r, acquire) && !acquire.Free? && id in s.handles
    ensures ReassignWith(s, id, acquire) == Among(s, {id}, ReassignWith(Seen(s, {id}), id, acquire))
  {
    DropKeepsInv(s.w, s.handles[id]);
    hide Perform, Acquired, Inv;
    assert Seen(s, {id}).handles == map[id := s.handles[id]];
    assert ReassignWith(s, id, acquire).handles == s.handles - {id} + ReassignWith(Seen(s, {id}), id, acquire).handles;
  }

  lemma MoveIsLocal(handles: map<nat, Handle>, id: nat, from: nat)
    requires from in handles && id != from
    ensures var seen := handles - (handles.Keys - {id, from});
            handles[id := handles[from]][from := DETACHED] ==
              handles - {id, from} + seen[id := seen[from]][from := DETACHED]
  {
  }

  /** An operation acts as it would if its own handles were the only ones. */
  lemma ActIsLocal(s: Scene, op: HandleOp)
    requires Inv(s.w.r, s.w.l) && Allowed(s, op)
    ensures Allowed(Seen(s, Involved(op)), op)
    ensures var local := Act(Seen(s, Involved(op)), op);
            Act(s, op) == Among(s, Involved(op), local)
  {
    hide Perform, Inv, ConstructWith, ReassignWith;
    match op {
      case Default(id) =>
        assert s.handles[id := DETACHED] == s.handles - {id} + map[id := DETACHED];
      case Construct(id) => ConstructIsLocal(s, id, AcquireOwn);
      case ConstructIn(id, g) => ConstructIsLocal(s, id, AcquireIn(g));
      case MoveConstruct(id, from) => MoveIsLocal(s.handles, id, from);
      case MoveAssign(id, from) =>
        if id != from {
          MoveIsLocal(s.handles, id, from);
        } else {
          assert s.handles == s.handles - {id, from} + Seen(s, {id, from}).handles;
        }
      case Reassign(id) => ReassignIsLocal(s, id, AcquireOwn);
      case ReassignTo(id, g) => ReassignIsLocal(s, id, AcquireIn(g));
      case Destruct(id) =>
        assert s.handles - {id} == s.handles - {id} + map[];
    }
  }

  lemma LoneDestruct(w: World, h: Handle)
    requires Inv(w.r, w.l)
    ensures Does(Scene(w, map[0 := h]), Destruct(0), Scene(Drop(w, h), map[]))
  {
    assert map[0 := h] - {0} == map[];
  }

  lemma LoneReassign(w: World, h: Handle, acquire: Operation)
    requires Inv(w.r, w.l) && h.attached && Callable(w.r, acquire) && !acquire.Free?
    ensures var d := Drop(w, h);
            && Inv(d.r, d.l) && Callable(d.r, acquire)
            && ReassignWith(Scene(w, map[0 := h]), 0, acquire) ==
                 Scene(Perform(d, acquire),
                       map[0 := Handle(true, if Acquired(d.r, acquire).Ok? then Acquired(d.r, acquire).value
                                             else INVALID_TOKEN)])
  {
    DropKeepsInv(w, h);
    hide Perform, Acquired, Inv;
    forall t: int ensures map[0 := h][0 := Handle(h.attached, t)] == map[0 := Handle(true, t)] {
    }
  }

  lemma LoneReassigned(w: World, h: Handle, acquire: Operation, w': World, h': Handle)
    requires Inv(w.r, w.l) && h.attached && Callable(w.r, acquire) && !acquire.Free?
    requires var d := Drop(w, h);
             && Inv(d.r, d.l) && Callable(d.r, acquire) && w' == Perform(d, acquire) && h'.attached
             && h'.token == if Acquired(d.r, acquire).Ok? then Acquired(d.r, acquire).value else INVALID_TOKEN
    ensures Does(Scene(w, map[0 := h]), if acquire.AcquireOwn? then Reassign(0) else ReassignTo(0, acquire.group),
                 Scene(w', map[0 := h']))
  {
    LoneReassign(w, h, acquire);
  }

  lemma LoneMoveAssign(w: World, h: Handle, other: Handle)
    requires Inv(w.r, w.l)
    ensures Does(Scene(w, map[0 := h, 1 := other]), MoveAssign(0, 1), Scene(Drop(w, h), map[0 := other, 1 := DETACHED]))
    ensures Does(Scene(w, map[0 := h]), MoveAssign(0, 0), Scene(w, map[0 := h]))
  {
    assert map[0 := h, 1 := other][0 := other][1 := DETACHED] == map[0 := other, 1 := DETACHED];
  }

  /**
    Every operation on handles leaves the tokens with the handles that it should, and keeps live tokens and valid
    handles in one-to-one correspondence.
  */
  lemma ActKeepsBijection(s: Scene, op: HandleOp)
    requires Bijection(s) && Allowed(s, op)
    ensures Bijection(Act(s, op)) && Effect(s, op, Act(s, op))
  {
    ActHasEffect(s, op);
    match op {
      case Default(id) => ForgetKeepsBijection(s, id, DETACHED);
      case Construct(id) => ConstructKeepsBijection(s, id, AcquireOwn);
      case ConstructIn(id, g) => ConstructKeepsBijection(s, id, AcquireIn(g));
      case MoveConstruct(id, from) => MoveKeepsBijection(s, id, from);
      case MoveAssign(id, from) =>
        if id != from {
          MoveAssignKeepsBijection(s, id, from);
        }
      case Reassign(id) => ReassignKeepsBijection(s, id, AcquireOwn);
      case ReassignTo(id, g) => ReassignKeepsBijection(s, id, AcquireIn(g));
      case Destruct(id) => DestructKeepsBijection(s, id);
    }
  }

  // ----- Runs -----

  /** Every operation of the run is allowed when its turn comes. */
  ghost predicate AllAllowed(s: Scene, ops: seq<HandleOp>)
    requires Bijection(s)
    decreases |ops|
  {
    ops != [] ==> Allowed(s, ops[0]) && (ActKeepsBijection(s, ops[0]); AllAllowed(Act(s, ops[0]), ops[1..]))
  }

  ghost function ActAll(s: Scene, ops: seq<HandleOp>): Scene
    requires Bijection(s) && AllAllowed(s, ops)
    decreases |ops|
  {
    if ops == [] then s
    else ActKeepsBijection(s, ops[0]); ActAll(Act(s, ops[0]), ops[1..])
  }

  /** Every operation of the run has its effect when its turn comes. */
  ghost predicate EffectsThroughout(s: Scene, ops: seq<HandleOp>)
    requires Bijection(s) && AllAllowed(s, ops)
    decreases |ops|
  {
    ops != [] ==>
      Effect(s, ops[0], Act(s, ops[0])) && (ActKeepsBijection(s, ops[0]); EffectsThroughout(Act(s, ops[0]), ops[1..]))
  }

  /**
    Tokens acquired only through handles are owned by exactly one valid handle each, after any run; and it is the
    handle that got the token by the run's operations.
  */
  lemma {:induction false} RunKeepsBijection(s: Scene, ops: seq<HandleOp>)
    requires Bijection(s) && AllAllowed(s, ops)
    ensures Bijection(ActAll(s, ops)) && EffectsThroughout(s, ops)
    decreases |ops|
  {
    if ops == [] {
    } else {
      ActKeepsBijection(s, ops[0]);
      RunKeepsBijection(Act(s, ops[0]), ops[1..]);
    }
  }

  /** A new registry without handles is where such runs begin. */
  lemma FreshSatisfiesBijection(bindings: nat, channels: nat, groups: nat)
    requires bindings <= 0xFFFF_FFFF
    ensures Bijection(Scene(Fresh(bindings, channels, groups), map[]))
  {
    FreshSatisfiesInv(bindings, channels, groups);
  }

  /** The exception that a handle's `release` would swallow does not occur. */
  lemma NothingIsSwallowed(s: Scene, id: nat)
    requires Bijection(s) && id in s.handles && s.handles[id].Valid()
    ensures s.w.r.IsLive(s.handles[id].token)
    ensures s.w.r.refCount[s.w.r.tokenToChannel[s.handles[id].token]] > 0
    ensures Release(s.w.r, s.handles[id].token).1.Ok?
  {
    ReleaseKeepsInv(s.w.r, s.w.l, s.handles[id].token);
  }

  /** After giving up a valid handle's token, that token is on top of the free stack. */
  lemma DroppedTokenIsOnTop(s: Scene, id: nat)
    requires Bijection(s) && id in s.handles && s.handles[id].Valid()
    ensures var r, r', t := s.w.r, Drop(s.w, s.handles[id]).r, s.handles[id].token;
            && r.IsLive(t) && r.tokenToChannel[t] < |r.refCount| && r.refCount[r.tokenToChannel[t]] > 0
            && r' == Release(r, t).0 && Release(r, t).1.Ok?
            && r'.freeTokens == r.freeTokens + [t]
            && Inv(r', Drop(s.w, s.handles[id]).l) && |r'.groupToChannel| == |r.groupToChannel|
  {
    DropKeepsInv(s.w, s.handles[id]);
    ReleaseKeepsInv(s.w.r, s.w.l, s.handles[id].token);
  }

  lemma AllocationReusesTop(r: Registry, l: Ledger, acquire: Operation, t: nat)
    requires Inv(r, l) && Callable(r, acquire) && !acquire.Free?
    requires r.freeTokens != [] && Last(r.freeTokens) == t
    ensures Acquired(r, acquire) in {Ok(t), Throws(NoFreeChannel)}
    ensures Acquired(r, acquire).Throws? <==>
              r.freeChannels == [] && (acquire.AcquireIn? ==> !GroupIsOpen(r, acquire.group))
  {
  }

  /** Which groups and channels are left once the token on channel `c` is released. */
  lemma ReleaseOpens(r: Registry, l: Ledger, t: nat, g: nat)
    requires Inv(r, l) && r.IsLive(t)
    ensures r.tokenToChannel[t] < |r.refCount| && r.refCount[r.tokenToChannel[t]] > 0
    ensures var c, r' := r.tokenToChannel[t], Release(r, t).0;
            && |r'.groupToChannel| == |r.groupToChannel|
            && (r'.freeChannels == [] <==> r.freeChannels == [] && r.refCount[c] > 1)
            && (r.refCount[c] > 1 && g < |r.groupToChannel| ==> (GroupIsOpen(r', g) <==> GroupIsOpen(r, g)))
  {
    ReleaseKeepsInv(r, l, t);
    DischargeGroups(r, l, r.tokenToChannel[t]);
  }

  /**
    Reassigning a valid handle never runs out of tokens: when it succeeds it gets its own token back. It fails
    exactly when no channel is free, its old channel has other users, and (for a group) the group has no channel.
  */
  lemma ReassignFailsExactly(s: Scene, id: nat, acquire: Operation)
    requires Bijection(s) && id in s.handles && s.handles[id].Valid()
    requires Callable(s.w.r, acquire) && !acquire.Free?
    ensures var w, t := Drop(s.w, s.handles[id]), s.handles[id].token;
            && Inv(w.r, w.l) && Callable(w.r, acquire) && s.w.r.IsLive(t) && s.w.r.tokenToChannel[t] < |s.w.r.refCount|
            && Acquired(w.r, acquire) in {Ok(t), Throws(NoFreeChannel)}
            && (Acquired(w.r, acquire).Throws? <==>
                  && s.w.r.freeChannels == [] && s.w.r.refCount[s.w.r.tokenToChannel[t]] > 1
                  && (acquire.AcquireIn? ==> !GroupIsOpen(s.w.r, acquire.group)))
  {
    DroppedTokenIsOnTop(s, id);
    var w := Drop(s.w, s.handles[id]);
    AllocationReusesTop(w.r, w.l, acquire, s.handles[id].token);
    ReleaseOpens(s.w.r, s.w.l, s.handles[id].token, if acquire.AcquireIn? then acquire.group else 0);
  }
}

/** The handle as the program has it: an object that points at the registry. */
module HandleClass {
  import opened RegistrySpec
  import opened RegistryClass
  import opened HandleSpec

  class RegistrationHandle {
    var registry: TokenRegistry?
    var token: int

    ghost function View(): Handle
      reads this
    {
      Handle(registry != null, token)
    }

    /** What the handle may change. */
    ghost function Reach(): set<object>
      reads this
    {
      {this} + if registry == null then {} else registry.Parts()
    }

    ghost predicate Sound()
      reads this, if registry == null then {} else registry.Parts()
    {
      registry != null ==> this !in registry.Parts() && registry.Valid()
    }

    constructor Default()
      ensures registry == null && View() == DETACHED
      ensures forall w: World :: Inv(w.r, w.l) ==> Does(Scene(w, map[]), HandleOp.Default(0), Scene(w, map[0 := View()]))
    {
      registry := null;
      token := INVALID_TOKEN;
    }

    constructor Adopt(registry: TokenRegistry?, token: int)
      ensures this.registry == registry && this.token == token
    {
      this.registry := registry;
      this.token := token;
    }

    /** The constructor that acquires a channel of its own; when the registry throws there is no object. */
    static method Create(registry: TokenRegistry) returns (result: Result<RegistrationHandle>)
      requires registry.Valid()
      modifies registry.Parts()
      ensures registry.Valid()
      ensures World(registry.View(), registry.ledger) == Perform(old(World(registry.View(), registry.ledger)), AcquireOwn)
      ensures Does(Scene(old(World(registry.View(), registry.ledger)), map[]), Construct(0),
                   Scene(World(registry.View(), registry.ledger),
                         if result.Ok? then map[0 := result.value.View()] else map[]))
      ensures match Acquired(old(registry.View()), AcquireOwn)
              case Ok(t) =>
                && result.Ok? && fresh(result.value)
                && result.value.registry == registry && result.value.View() == Handle(true, t)
              case Throws(e) => result == Throws(e)
    {
      var token := registry.Acquire();
      if token.Throws? {
        return Throws(token.error);
      }
      var handle := new RegistrationHandle.Adopt(registry, token.value);
      result := Ok(handle);
    }

    static method CreateIn(registry: TokenRegistry, group: nat) returns (result: Result<RegistrationHandle>)
      requires registry.Valid() && group < registry.groupToChannel.Length
      modifies registry.Parts()
      ensures registry.Valid()
      ensures World(registry.View(), registry.ledger) ==
                Perform(old(World(registry.View(), registry.ledger)), AcquireIn(group))
      ensures Does(Scene(old(World(registry.View(), registry.ledger)), map[]), ConstructIn(0, group),
                   Scene(World(registry.View(), registry.ledger),
                         if result.Ok? then map[0 := result.value.View()] else map[]))
      ensures match Acquired(old(registry.View()), AcquireIn(group))
              case Ok(t) =>
                && result.Ok? && fresh(result.value)
                && result.value.registry == registry && result.value.View() == Handle(true, t)
              case Throws(e) => result == Throws(e)
    {
      var token := registry.AcquireInGroup(group);
      if token.Throws? {
        return Throws(token.error);
      }
      var handle := new RegistrationHandle.Adopt(registry, token.value);
      result := Ok(handle);
    }

    /** Give the token back; whatever the registry throws is swallowed. */
    method Release()
      requires Sound()
      modifies Reach()
      ensures registry == old(registry) && token == INVALID_TOKEN && Sound()
      ensures registry != null ==>
                World(registry.View(), registry.ledger) == Drop(old(World(registry.View(), registry.ledger)), old(View()))
      ensures registry != null ==>
                Does(Scene(old(World(registry.View(), registry.ledger)), map[0 := old(View())]), Destruct(0),
                     Scene(World(registry.View(), registry.ledger), map[]))
    {
      if registry != null {
        LoneDestruct(World(registry.View(), registry.ledger), View());
      }
      hide Perform, Does;
      if registry != null && token != INVALID_TOKEN {
        var ignored := registry.Release(token);
      }
      token := INVALID_TOKEN;
    }

    /** Move construction empties the source. */
    constructor Move(other: RegistrationHandle)
      modifies other
      ensures registry == old(other.registry) && View() == old(other.View())
      ensures other.registry == null && other.View() == DETACHED
      ensures forall w: World :: Inv(w.r, w.l) ==>
                Does(Scene(w, map[1 := old(other.View())]), MoveConstruct(0, 1),
                     Scene(w, map[0 := View(), 1 := other.View()]))
    {
      registry := other.registry;
      token := other.token;
      new;
      other.registry := null;
      other.token := INVALID_TOKEN;
    }

    /** Move assignment gives the own token up, takes the other's, and leaves a self-assignment alone. */
    method MoveAssign(other: RegistrationHandle)
      requires Sound() && other !in (Reach() - {this})
      modifies Reach(), other
      ensures other == this ==> registry == old(registry) && View() == old(View())
      ensures other == this && registry != null ==>
                World(registry.View(), registry.ledger) == old(World(registry.View(), registry.ledger))
      ensures other != this ==>
                && registry == old(other.registry) && View() == old(other.View())
                && other.registry == null && other.View() == DETACHED
      ensures other != this && old(registry) != null ==>
                World(old(registry).View(), old(registry).ledger) ==
                  Drop(old(World(registry.View(), registry.ledger)), old(View()))
      ensures other != this && old(registry) != null ==>
                Does(Scene(old(World(registry.View(), registry.ledger)), map[0 := old(View()), 1 := old(other.View())]),
                     HandleOp.MoveAssign(0, 1),
                     Scene(World(old(registry).View(), old(registry).ledger), map[0 := View(), 1 := other.View()]))
      ensures other != this && old(registry) == null ==>
                forall w: World :: Inv(w.r, w.l) ==>
                  Does(Scene(w, map[0 := old(View()), 1 := old(other.View())]), HandleOp.MoveAssign(0, 1),
                       Scene(w, map[0 := View(), 1 := other.View()]))
      ensures other == this ==>
                forall w: World :: Inv(w.r, w.l) ==>
                  Does(Scene(w, map[0 := old(View())]), HandleOp.MoveAssign(0, 0), Scene(w, map[0 := View()]))
    {
      forall w: World | Inv(w.r, w.l) { LoneMoveAssign(w, View(), other.View()); }
      hide Does, Drop;
      if this != other {
        Release();
        registry := other.registry;
        token := other.token;
        other.registry := null;
        other.token := INVALID_TOKEN;
      }
    }

    /** Give the token up and acquire a channel of one's own; a throw leaves the handle without a token. */
    method Reassign() returns (result: Result<()>)
      requires Sound() && registry != null
      modifies Reach()
      ensures Sound() && registry == old(registry)
      ensures Does(Scene(old(World(registry.View(), registry.ledger)), map[0 := old(View())]), HandleOp.Reassign(0),
                   Scene(World(registry.View(), registry.ledger), map[0 := View()]))
      ensures var w := Drop(old(World(registry.View(), registry.ledger)), old(View()));
              && Inv(w.r, w.l)
              && World(registry.View(), registry.ledger) == Perform(w, AcquireOwn)
              && match Acquired(w.r, AcquireOwn)
                 case Ok(t) => result == Ok(()) && token == t
                 case Throws(e) => result == Throws(e) && token == INVALID_TOKEN
    {
      hide AcquireAlone, AfterAcquire, Inv, Does, Drop, Perform, Acquired;
      ghost var w, h := World(registry.View(), registry.ledger), View();
      Release();
      result := TakeOwn();
      LoneReassigned(w, h, AcquireOwn, World(registry.View(), registry.ledger), View());
    }

    /** The second half of a reassignment: to a channel of one's own, and to a group. */
    method TakeOwn() returns (result: Result<()>)
      requires Sound() && registry != null && token == INVALID_TOKEN
      modifies Reach()
      ensures Sound() && registry == old(registry)
      ensures var w := old(World(registry.View(), registry.ledger));
              && World(registry.View(), registry.ledger) == Perform(w, AcquireOwn)
              && match Acquired(w.r, AcquireOwn)
                 case Ok(t) => result == Ok(()) && token == t
                 case Throws(e) => result == Throws(e) && token == INVALID_TOKEN
    {
      hide AcquireAlone, AfterAcquire, RegistrySpec.Inv;
      var acquired := registry.Acquire();
      if acquired.Throws? {
        return Throws(acquired.error);
      }
      token := acquired.value;
      result := Ok(());
    }

    method TakeFrom(group: nat) returns (result: Result<()>)
      requires Sound() && registry != null && group < registry.groupToChannel.Length && token == INVALID_TOKEN
      modifies Reach()
      ensures Sound() && registry == old(registry)
      ensures var w := old(World(registry.View(), registry.ledger));
              && World(registry.View(), registry.ledger) == Perform(w, AcquireIn(group))
              && match Acquired(w.r, AcquireIn(group))
                 case Ok(t) => result == Ok(()) && token == t
                 case Throws(e) => result == Throws(e) && token == INVALID_TOKEN
    {
      hide AcquireMember, AfterAcquire, RegistrySpec.Inv;
      var acquired := registry.AcquireInGroup(group);
      if acquired.Throws? {
        return Throws(acquired.error);
      }
      token := acquired.value;
      result := Ok(());
    }

    method ReassignTo(group: nat) returns (result: Result<()>)
      requires Sound() && registry != null && group < registry.groupToChannel.Length
      modifies Reach()
      ensures Sound() && registry == old(registry)
      ensures Does(Scene(old(World(registry.View(), registry.ledger)), map[0 := old(View())]), HandleOp.ReassignTo(0, group),
                   Scene(World(registry.View(), registry.ledger), map[0 := View()]))
      ensures var w := Drop(old(World(registry.View(), registry.ledger)), old(View()));
              && Inv(w.r, w.l) && Callable(w.r, AcquireIn(group))
              && World(registry.View(), registry.ledger) == Perform(w, AcquireIn(group))
              && match Acquired(w.r, AcquireIn(group))
                 case Ok(t) => result == Ok(()) && token == t
                 case Throws(e) => result == Throws(e) && token == INVALID_TOKEN
    {
      hide AcquireMember, AfterAcquire, Inv, Does, Drop, Perform, Acquired;
      ghost var w, h := World(registry.View(), registry.ledger), View();
      Release();
      result := TakeFrom(group);
      LoneReassigned(w, h, AcquireIn(group), World(registry.View(), registry.ledger), View());
    }
  }
}
