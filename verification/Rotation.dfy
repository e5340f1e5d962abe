/** One-time refresh tokens under any interleaving of logins, refreshes, logouts, expiry and failures. */
module Rotation {
  import opened Wrappers

  /** Times are in nanoseconds; the exp claim is in whole seconds. */
  const SECOND: nat := 1_000_000_000
  const REFRESH_TTL: nat := 7 * 24 * 60 * 60 * SECOND

  type Jti = string

  /** A signed refresh token. `chain` is the login it descends from, `parent` the token it replaced. */
  datatype Token = Token(uid: int, exp: nat, issuedAt: nat, chain: nat, parent: Option<Jti>)

  datatype Record = Record(uid: int, expires: nat)

  /** Where one Login or Refresh call stands. */
  datatype Call =
    | Parsed(jti: Jti, at: nat)
    | Granted(uid: int, chain: nat, parent: Option<Jti>)
    | Minted(uid: int, chain: nat, jti: Jti)
    | Mismatched
    | Refused
    | Answered

  /** `tokens` are all refresh tokens ever signed, `store` the Redis records, `consumed` the successful Consumes. */
  datatype State = State(now: nat, tokens: map<Jti, Token>, store: map<Jti, Record>, calls: map<nat, Call>,
                         users: seq<int>, consumed: seq<Jti>, saves: nat, deletes: nat, expiries: nat)

  /** Lost: an error and nothing done. Unheard: done, but an error is reported. */
  datatype Reply = Ok | Lost | Unheard

  datatype Action =
    | Tick(d: nat)
    | Login(call: nat, uid: int)
    | Parse(call: nat, jti: Jti)
    | Consume(call: nat, reply: Reply)
    | Mint(call: nat, jti: Jti)
    | Save(call: nat, reply: Reply)
    | Delete(jti: Jti, reply: Reply)
    | Drop(call: nat)                // the process dies

  function Init(): State { State(0, map[], map[], map[], [], [], 0, 0, 0) }

  function Expiry(now: nat): nat { (now + REFRESH_TTL) / SECOND }

  predicate Enabled(s: State, a: Action) {
    match a
    case Tick(_) => true
    case Login(c, _) => c !in s.calls
    case Parse(c, j) => c !in s.calls && j in s.tokens && s.now < s.tokens[j].exp * SECOND
    case Consume(c, _) => c in s.calls && s.calls[c].Parsed? && s.calls[c].jti in s.tokens
    case Mint(c, j) => c in s.calls && s.calls[c].Granted? && j !in s.tokens
    case Save(c, _) => c in s.calls && s.calls[c].Minted?
    case Delete(j, _) => j in s.tokens
    case Drop(c) => c in s.calls
  }

  function Overdue(store: map<Jti, Record>, now: nat): set<Jti> {
    set j | j in store && store[j].expires <= now
  }

  /** What Refresh does with the record that Consume returned. */
  function Compare(t: Token, jti: Jti, stored: int): Call {
    if stored != t.uid then Mismatched else Granted(t.uid, t.chain, Some(jti))
  }

  function Next(s: State, a: Action): State
    requires Enabled(s, a)
  {
    match a
    case Tick(d) =>
      var gone := Overdue(s.store, s.now + d);
      s.(now := s.now + d, store := s.store - gone, expiries := s.expiries + |gone|)
    case Login(c, uid) => s.(calls := s.calls[c := Granted(uid, |s.users|, None)], users := s.users + [uid])
    case Parse(c, j) => s.(calls := s.calls[c := Parsed(j, s.now)])
    case Consume(c, reply) =>
      var j := s.calls[c].jti;
      if reply.Lost? || j !in s.store then s.(calls := s.calls[c := Refused])
      else s.(store := s.store - {j}, consumed := s.consumed + [j],
              calls := s.calls[c := if reply.Unheard? then Refused else Compare(s.tokens[j], j, s.store[j].uid)])
    case Mint(c, j) =>
      var g := s.calls[c];
      s.(tokens := s.tokens[j := Token(g.uid, Expiry(s.now), s.now, g.chain, g.parent)],
         calls := s.calls[c := Minted(g.uid, g.chain, j)])
    case Save(c, reply) =>
      var m := s.calls[c];
      if reply.Lost? then s.(calls := s.calls[c := Refused])
      else s.(store := s.store[m.jti := Record(m.uid, s.now + REFRESH_TTL)], saves := s.saves + 1,
              calls := s.calls[c := if reply.Ok? then Answered else Refused])
    case Delete(j, reply) =>
      if reply.Lost? || j !in s.store then s
      else s.(store := s.store - {j}, deletes := s.deletes + 1)
    case Drop(c) => s.(calls := s.calls - {c})
  }

  predicate Reaches(s: State, actions: seq<Action>, t: State)
    decreases |actions|
  {
    if actions == [] then s == t else Enabled(s, actions[0]) && Reaches(Next(s, actions[0]), actions[1..], t)
  }

  // ---- What every reachable state keeps ----

  /** A call that holds its chain's right to the next record. */
  predicate Holds(c: Call, chain: nat) {
    (c.Granted? || c.Minted?) && c.chain == chain
  }

  ghost predicate TokensOk(s: State) {
    && (forall j :: j in s.tokens ==>
          var t := s.tokens[j];
          && t.chain < |s.users| && t.uid == s.users[t.chain]
          && t.exp * SECOND <= t.issuedAt + REFRESH_TTL && t.issuedAt <= s.now
          && (t.parent.Some? ==> t.parent.value in s.consumed && t.parent.value in s.tokens && s.tokens[t.parent.value].chain == t.chain))
    && (forall j :: j in s.store ==>
          && j in s.tokens && s.store[j].uid == s.tokens[j].uid
          && s.tokens[j].exp * SECOND <= s.store[j].expires && s.now < s.store[j].expires)
    && (forall j :: j in s.consumed ==> j in s.tokens && j !in s.store)
  }

  ghost predicate CallOk(s: State, c: Call) {
    && !c.Mismatched?
    && (c.Parsed? ==> c.jti in s.tokens && c.at < s.tokens[c.jti].exp * SECOND)
    && (c.Granted? || c.Minted? ==> c.chain < |s.users| && c.uid == s.users[c.chain])
    && (c.Granted? && c.parent.Some? ==>
          && c.parent.value in s.consumed && c.parent.value in s.tokens && s.tokens[c.parent.value].chain == c.chain)
    && (c.Minted? ==> c.jti in s.tokens && s.tokens[c.jti].uid == c.uid && s.tokens[c.jti].chain == c.chain
                      && c.jti !in s.store && c.jti !in s.consumed)
  }

  ghost predicate CallsOk(s: State) {
    forall c :: c in s.calls ==> CallOk(s, s.calls[c])
  }

  /** A chain has one live record, or one call holding the right to it, or neither. */
  ghost predicate OnePerChain(s: State) {
    && (forall j :: j in s.store ==> j in s.tokens)
    && (forall i, j :: i in s.store && j in s.store && i != j ==> s.tokens[i].chain != s.tokens[j].chain)
    && (forall c, j :: c in s.calls && j in s.store ==> !Holds(s.calls[c], s.tokens[j].chain))
    && (forall c, d :: c in s.calls && d in s.calls && c != d && (s.calls[c].Granted? || s.calls[c].Minted?) ==>
          !Holds(s.calls[d], s.calls[c].chain))
  }

  predicate Distinct(s: seq<Jti>) {
    forall i, j :: 0 <= i < j < |s| ==> s[i] != s[j]
  }

  /** No token has two successors, made or in the making. */
  ghost predicate OneSuccessor(s: State) {
    && (forall i, j :: i in s.tokens && j in s.tokens && i != j && s.tokens[i].parent.Some? ==> s.tokens[i].parent != s.tokens[j].parent)
    && (forall c, j :: c in s.calls && s.calls[c].Granted? && s.calls[c].parent.Some? && j in s.tokens ==>
          s.tokens[j].parent != s.calls[c].parent)
    && (forall c, d :: c in s.calls && d in s.calls && c != d && s.calls[c].Granted? && s.calls[d].Granted? && s.calls[c].parent.Some? ==>
          s.calls[c].parent != s.calls[d].parent)
  }

  ghost predicate Conserved(s: State) {
    s.saves == |s.store| + |s.consumed| + s.deletes + s.expiries
  }

  ghost predicate Inv(s: State)
  {
    TokensOk(s) && CallsOk(s) && OnePerChain(s) && Distinct(s.consumed) && OneSuccessor(s) && Conserved(s)
  }

  lemma RemoveCount(store: map<Jti, Record>, gone: set<Jti>)
    requires gone <= store.Keys
    ensures |store - gone| + |gone| == |store|
  {
    assert (store - gone).Keys == store.Keys - gone;
    assert |store - gone| == |(store - gone).Keys|;
  }

  lemma TakeOne(store: map<Jti, Record>, j: Jti)
    requires j in store
    ensures |store - {j}| + 1 == |store|
  {
    RemoveCount(store, {j});
  }

  lemma AddOne(store: map<Jti, Record>, j: Jti, r: Record)
    requires j !in store
    ensures |store[j := r]| == |store| + 1
  {
    assert store[j := r].Keys == store.Keys + {j};
    assert |store[j := r]| == |store[j := r].Keys|;
  }

  lemma TickConserved(s: State, d: nat)
    requires Conserved(s)
    ensures Conserved(Next(s, Tick(d)))
  {
    RemoveCount(s.store, Overdue(s.store, s.now + d));
  }

  lemma ConsumeConserved(s: State, a: Action)
    requires Conserved(s) && Enabled(s, a) && a.Consume?
    ensures Conserved(Next(s, a))
  {
    if s.calls[a.call].jti in s.store { TakeOne(s.store, s.calls[a.call].jti); }
  }

  lemma DeleteConserved(s: State, a: Action)
    requires Conserved(s) && Enabled(s, a) && a.Delete?
    ensures Conserved(Next(s, a))
  {
    if a.jti in s.store { TakeOne(s.store, a.jti); }
  }

  lemma SaveConserved(s: State, a: Action)
    requires Conserved(s) && Enabled(s, a) && a.Save? && s.calls[a.call].jti !in s.store
    ensures Conserved(Next(s, a))
  {
    AddOne(s.store, s.calls[a.call].jti, Record(s.calls[a.call].uid, s.now + REFRESH_TTL));
  }

  lemma StepConserved(s: State, a: Action)
    requires Conserved(s) && Enabled(s, a) && (a.Save? ==> s.calls[a.call].jti !in s.store)
    ensures Conserved(Next(s, a))
  {
    if a.Tick? { TickConserved(s, a.d); }
    else if a.Consume? { ConsumeConserved(s, a); }
    else if a.Delete? { DeleteConserved(s, a); }
    else if a.Save? { SaveConserved(s, a); }
  }

  lemma ExpiryBound(now: nat)
    ensures Expiry(now) * SECOND <= now + REFRESH_TTL
  {
  }

  lemma MintTokens(s: State, a: Action)
    requires TokensOk(s) && Enabled(s, a) && a.Mint? && CallOk(s, s.calls[a.call])
    ensures TokensOk(Next(s, a))
  {
    ExpiryBound(s.now);
  }

  lemma SaveTokens(s: State, a: Action)
    requires TokensOk(s) && Enabled(s, a) && a.Save? && CallOk(s, s.calls[a.call])
    ensures TokensOk(Next(s, a))
  {
  }

  lemma OtherTokens(s: State, a: Action)
    requires TokensOk(s) && Enabled(s, a) && !a.Mint? && !a.Save?
    ensures TokensOk(Next(s, a))
  {
  }

  lemma StepTokens(s: State, a: Action)
    requires TokensOk(s) && CallsOk(s) && Enabled(s, a)
    ensures TokensOk(Next(s, a))
  {
    if a.Mint? { MintTokens(s, a); } else if a.Save? { SaveTokens(s, a); } else { OtherTokens(s, a); }
  }

  lemma OldCallOk(s: State, a: Action, c: nat)
    requires Enabled(s, a) && c in s.calls && CallOk(s, s.calls[c]) && (a.Tick? || a.Delete? || a.call != c)
    requires a.Save? ==> s.calls[a.call].Minted? && (s.calls[c].Minted? ==> s.calls[c].jti != s.calls[a.call].jti)
    requires a.Consume? ==> (s.calls[c].Minted? && s.calls[a.call].jti in s.store ==> s.calls[c].jti != s.calls[a.call].jti)
    ensures c in Next(s, a).calls && CallOk(Next(s, a), Next(s, a).calls[c])
  {
  }

  lemma OwnCallOk(s: State, a: Action)
    requires TokensOk(s) && Enabled(s, a) && !a.Tick? && !a.Delete? && !a.Drop?
    requires a.call in s.calls ==> CallOk(s, s.calls[a.call])
    ensures CallOk(Next(s, a), Next(s, a).calls[a.call])
  {
  }

  lemma StepCalls(s: State, a: Action)
    requires TokensOk(s) && CallsOk(s) && OnePerChain(s) && Enabled(s, a)
    ensures CallsOk(Next(s, a))
  {
    var t := Next(s, a);
    forall c | c in t.calls ensures CallOk(t, t.calls[c]) {
      if a.Tick? || a.Delete? || a.call != c {
        assert CallOk(s, s.calls[c]);
        assert a.Save? ==> CallOk(s, s.calls[a.call]);
        OldCallOk(s, a, c);
      } else {
        assert c in s.calls ==> CallOk(s, s.calls[c]);
        OwnCallOk(s, a);
      }
    }
  }

  lemma FewerChains(s: State, a: Action)
    requires OnePerChain(s) && Enabled(s, a) && (a.Tick? || a.Delete? || a.Drop? || a.Parse?)
    ensures OnePerChain(Next(s, a))
  {
  }

  lemma LoginChain(s: State, a: Action)
    requires TokensOk(s) && CallsOk(s) && OnePerChain(s) && Enabled(s, a) && a.Login?
    ensures OnePerChain(Next(s, a))
  {
    assert forall c :: c in s.calls ==> CallOk(s, s.calls[c]);
  }

  lemma ConsumeChain(s: State, a: Action)
    requires OnePerChain(s) && Enabled(s, a) && a.Consume?
    ensures OnePerChain(Next(s, a))
  {
  }

  lemma MintChain(s: State, a: Action)
    requires OnePerChain(s) && Enabled(s, a) && a.Mint?
    ensures OnePerChain(Next(s, a))
  {
  }

  lemma SaveChain(s: State, a: Action)
    requires OnePerChain(s) && Enabled(s, a) && a.Save? && CallOk(s, s.calls[a.call])
    ensures OnePerChain(Next(s, a))
  {
  }

  lemma StepChains(s: State, a: Action)
    requires TokensOk(s) && CallsOk(s) && OnePerChain(s) && Enabled(s, a)
    ensures OnePerChain(Next(s, a))
  {
    match a
    case Login(_, _) => LoginChain(s, a);
    case Consume(_, _) => ConsumeChain(s, a);
    case Mint(_, _) => MintChain(s, a);
    case Save(_, _) => SaveChain(s, a);
    case _ => FewerChains(s, a);
  }

  lemma StepDistinct(s: State, a: Action)
    requires TokensOk(s) && Distinct(s.consumed) && Enabled(s, a)
    ensures Distinct(Next(s, a).consumed)
  {
  }

  lemma ConsumeSuccessors(s: State, a: Action)
    requires TokensOk(s) && OneSuccessor(s) && Enabled(s, a) && a.Consume?
    requires forall c :: c in s.calls && s.calls[c].Granted? && s.calls[c].parent.Some? ==> s.calls[c].parent.value in s.consumed
    ensures OneSuccessor(Next(s, a))
  {
  }

  lemma MintSuccessors(s: State, a: Action)
    requires OneSuccessor(s) && Enabled(s, a) && a.Mint?
    ensures OneSuccessor(Next(s, a))
  {
  }

  lemma OtherSuccessors(s: State, a: Action)
    requires OneSuccessor(s) && Enabled(s, a) && !a.Mint? && !a.Consume?
    ensures OneSuccessor(Next(s, a))
  {
  }

  lemma StepSuccessors(s: State, a: Action)
    requires TokensOk(s) && CallsOk(s) && OneSuccessor(s) && Enabled(s, a)
    ensures OneSuccessor(Next(s, a))
  {
    if a.Consume? {
      forall c | c in s.calls && s.calls[c].Granted? && s.calls[c].parent.Some? ensures s.calls[c].parent.value in s.consumed {
        assert CallOk(s, s.calls[c]);
      }
      ConsumeSuccessors(s, a);
    } else if a.Mint? {
      MintSuccessors(s, a);
    } else {
      OtherSuccessors(s, a);
    }
  }

  lemma StepKeepsInv(s: State, a: Action)
    requires Inv(s) && Enabled(s, a)
    ensures Inv(Next(s, a))
  {
    assert a.Save? ==> CallOk(s, s.calls[a.call]);
    StepConserved(s, a);
    StepDistinct(s, a);
    StepTokens(s, a);
    StepCalls(s, a);
    StepChains(s, a);
    StepSuccessors(s, a);
  }

  lemma {:induction false} RunKeepsInv(s: State, actions: seq<Action>, t: State)
    requires Inv(s) && Reaches(s, actions, t)
    ensures Inv(t)
    decreases |actions|
  {
    if actions != [] {
      StepKeepsInv(s, actions[0]);
      RunKeepsInv(Next(s, actions[0]), actions[1..], t);
    }
  }

  lemma InitInv()
    ensures Inv(Init())
  {
  }

  /** Rotation, in every reachable state: no token is consumed twice or lives on after it was, a login's chain has at
      most one live record, no token has two successors, and every record ever saved is accounted for. */
  lemma RotationSafety(actions: seq<Action>, t: State)
    requires Reaches(Init(), actions, t)
    ensures Distinct(t.consumed) && forall j :: j in t.consumed ==> j !in t.store
    ensures forall i, j :: i in t.store && j in t.store ==>
      i in t.tokens && j in t.tokens && (t.tokens[i].chain == t.tokens[j].chain ==> i == j)
    ensures forall i, j :: i in t.tokens && j in t.tokens && t.tokens[i].parent.Some? && t.tokens[i].parent == t.tokens[j].parent ==> i == j
    ensures |t.store| == t.saves - |t.consumed| - t.deletes - t.expiries
  {
    InitInv();
    RunKeepsInv(Init(), actions, t);
  }

  /** Every token and record of a chain belongs to the user who logged in, so the comparison of the stored with the
      claimed user never fails; an accepted token is used strictly before its exp claim, which is no later than seven
      days after its issue; and its record outlives that claim. */
  lemma ChainIdentityAndLifetime(actions: seq<Action>, t: State)
    requires Reaches(Init(), actions, t)
    ensures forall j :: j in t.tokens ==> t.tokens[j].chain < |t.users| && t.tokens[j].uid == t.users[t.tokens[j].chain]
    ensures forall j :: j in t.tokens && t.tokens[j].parent.Some? ==>
      t.tokens[j].parent.value in t.tokens && t.tokens[t.tokens[j].parent.value].chain == t.tokens[j].chain
    ensures forall c :: c in t.calls ==> t.calls[c] != Mismatched
    ensures forall c :: c in t.calls && t.calls[c].Parsed? ==>
      t.calls[c].jti in t.tokens && t.calls[c].at < t.tokens[t.calls[c].jti].issuedAt + 604_800_000_000_000
    ensures forall j :: j in t.store ==> j in t.tokens && t.tokens[j].exp * SECOND <= t.store[j].expires
  {
    InitInv();
    RunKeepsInv(Init(), actions, t);
    forall c | c in t.calls ensures t.calls[c] != Mismatched && (t.calls[c].Parsed? ==>
      t.calls[c].jti in t.tokens && t.calls[c].at < t.tokens[t.calls[c].jti].issuedAt + REFRESH_TTL)
    {
      assert CallOk(t, t.calls[c]);
    }
  }

  /** `j` has no record and no call is about to save one. */
  ghost predicate Dead(s: State, j: Jti) {
    && j in s.tokens && j !in s.store
    && forall c :: c in s.calls && s.calls[c].Minted? ==> s.calls[c].jti != j
  }

  lemma {:induction false} DeadStaysDead(s: State, actions: seq<Action>, t: State, j: Jti)
    requires Dead(s, j) && Reaches(s, actions, t)
    ensures Dead(t, j)
    decreases |actions|
  {
    if actions != [] {
      DeadStaysDead(Next(s, actions[0]), actions[1..], t, j);
    }
  }

  lemma LeavesDead(s: State, a: Action, j: Jti)
    requires j in s.store && j in s.tokens && CallsOk(s) && Enabled(s, a) && j !in Next(s, a).store
    ensures Dead(Next(s, a), j)
  {
    forall c | c in s.calls && s.calls[c].Minted? ensures s.calls[c].jti != j { assert CallOk(s, s.calls[c]); }
  }

  lemma EndIsDeath(before: seq<Action>, s: State, end: Action, j: Jti)
    requires Reaches(Init(), before, s) && j in s.store && Enabled(s, end) && j !in Next(s, end).store
    ensures Dead(Next(s, end), j)
  {
    InitInv();
    RunKeepsInv(Init(), before, s);
    LeavesDead(s, end, j);
  }

  /** A token that was refreshed, logged out or let expire is of no use ever again: whatever happens in between, a
      Refresh that presents it is refused and changes no record. */
  lemma UsedTokensAreRefused(before: seq<Action>, s: State, end: Action, j: Jti, after: seq<Action>, t: State, c: nat, reply: Reply)
    requires Reaches(Init(), before, s) && j in s.store && Enabled(s, end) && j !in Next(s, end).store
    requires Reaches(Next(s, end), after, t) && c in t.calls && t.calls[c].Parsed? && t.calls[c].jti == j && j in t.tokens
    ensures Next(t, Consume(c, reply)).calls[c] == Refused && Next(t, Consume(c, reply)).store == t.store
  {
    EndIsDeath(before, s, end, j);
    DeadStaysDead(Next(s, end), after, t, j);
  }

  // ---- Whole chains ----

  ghost predicate HasRecord(s: State, chain: nat) {
    exists j :: j in s.store && j in s.tokens && s.tokens[j].chain == chain
  }

  ghost predicate InFlight(s: State, chain: nat) {
    exists c :: c in s.calls && Holds(s.calls[c], chain)
  }

  /** The session is over: no record of it is left, and no call is about to save one. */
  ghost predicate ChainDead(s: State, chain: nat) {
    chain < |s.users| && !HasRecord(s, chain) && !InFlight(s, chain)
  }

  lemma StepKeepsChainDead(s: State, a: Action, chain: nat)
    requires ChainDead(s, chain) && Enabled(s, a) && (a.Save? ==> CallOk(s, s.calls[a.call]))
    requires forall j :: j in s.store ==> j in s.tokens
    ensures ChainDead(Next(s, a), chain)
  {
    var t := Next(s, a);
    forall j | j in t.store && j in t.tokens ensures t.tokens[j].chain != chain {
      assert j in s.store && j in s.tokens ==> HasRecord(s, s.tokens[j].chain);
      assert a.Save? ==> InFlight(s, s.calls[a.call].chain) by {
        if a.Save? { assert Holds(s.calls[a.call], s.calls[a.call].chain); }
      }
    }
    forall c | c in t.calls ensures !Holds(t.calls[c], chain) {
      assert c in s.calls && Holds(s.calls[c], chain) ==> InFlight(s, chain);
      assert a.Consume? && s.calls[a.call].jti in s.store ==> HasRecord(s, s.tokens[s.calls[a.call].jti].chain);
      if a.Mint? && a.call == c { assert Holds(s.calls[c], s.calls[c].chain); }
    }
  }

  /** A chain that is dead stays dead. */
  lemma {:induction false} ChainStaysDead(s: State, actions: seq<Action>, t: State, chain: nat)
    requires Inv(s) && ChainDead(s, chain) && Reaches(s, actions, t)
    ensures ChainDead(t, chain)
    decreases |actions|
  {
    if actions != [] {
      StepKeepsInv(s, actions[0]);
      assert actions[0].Save? ==> CallOk(s, s.calls[actions[0].call]);
      StepKeepsChainDead(s, actions[0], chain);
      ChainStaysDead(Next(s, actions[0]), actions[1..], t, chain);
    }
  }

  lemma CallSaves(s: State, c: nat, chain: nat, unused: Jti) returns (actions: seq<Action>, t: State)
    requires c in s.calls && Holds(s.calls[c], chain) && CallOk(s, s.calls[c]) && unused !in s.tokens
    ensures Reaches(s, actions, t) && HasRecord(t, chain)
  {
    var u := if s.calls[c].Granted? then Next(s, Mint(c, unused)) else s;
    var j := u.calls[c].jti;
    t := Next(u, Save(c, Ok));
    assert Reaches(t, [], t) && [Save(c, Ok)][1..] == [];
    assert Reaches(u, [Save(c, Ok)], t);
    actions := if s.calls[c].Granted? then [Mint(c, unused)] + [Save(c, Ok)] else [Save(c, Ok)];
    assert ([Mint(c, unused)] + [Save(c, Ok)])[1..] == [Save(c, Ok)];
    assert j in t.store && j in t.tokens && t.tokens[j].chain == chain;
  }

  /** And one that is not has a run on which it gets a record, or still has one. */
  lemma LiveChainGoesOn(before: seq<Action>, s: State, chain: nat, unused: Jti) returns (actions: seq<Action>, t: State)
    requires Reaches(Init(), before, s) && chain < |s.users| && !ChainDead(s, chain) && unused !in s.tokens
    ensures Reaches(s, actions, t) && HasRecord(t, chain)
  {
    InitInv();
    RunKeepsInv(Init(), before, s);
    actions, t := [], s;
    if InFlight(s, chain) {
      var c :| c in s.calls && Holds(s.calls[c], chain);
      assert CallOk(s, s.calls[c]);
      actions, t := CallSaves(s, c, chain, unused);
    }
  }

  /** A Logout that reaches the store ends the session of its token exactly when no call of the session is in flight and the
      session's record, if there is one, is this token's: then no run brings it back. Otherwise a run goes on with it. */
  lemma LogoutEndsSession(before: seq<Action>, s: State, j: Jti, reply: Reply, after: seq<Action>, t: State)
    requires Reaches(Init(), before, s) && j in s.tokens && !reply.Lost?
    requires Reaches(Next(s, Delete(j, reply)), after, t)
    ensures var chain := s.tokens[j].chain;
            var ended := !InFlight(s, chain) && forall k :: k in s.store && k in s.tokens && s.tokens[k].chain == chain ==> k == j;
            && (ChainDead(Next(s, Delete(j, reply)), chain) <==> ended)
            && (j in s.store ==> ended)
            && (ended ==> !HasRecord(t, chain) && !InFlight(t, chain))
  {
    InitInv();
    RunKeepsInv(Init(), before, s);
    var u := Next(s, Delete(j, reply));
    StepKeepsInv(s, Delete(j, reply));
    var chain := s.tokens[j].chain;
    DeleteEnds(s, j, reply);
    if ChainDead(u, chain) { ChainStaysDead(u, after, t, chain); }
  }

  lemma DeleteEnds(s: State, j: Jti, reply: Reply)
    requires j in s.tokens && !reply.Lost? && s.tokens[j].chain < |s.users| && OnePerChain(s)
    ensures var chain := s.tokens[j].chain;
            var ended := !InFlight(s, chain) && forall k :: k in s.store && k in s.tokens && s.tokens[k].chain == chain ==> k == j;
            (ChainDead(Next(s, Delete(j, reply)), chain) <==> ended) && (j in s.store ==> ended)
  {
    var u := Next(s, Delete(j, reply));
    var chain := s.tokens[j].chain;
    assert u.store == s.store - {j} && u.tokens == s.tokens && u.calls == s.calls && u.users == s.users;
    assert forall k :: k in u.store <==> k in s.store && k != j;
    if !ChainDead(u, chain) && !InFlight(u, chain) {
      var k :| k in u.store && k in u.tokens && u.tokens[k].chain == chain;
      assert k in s.store && k != j;
    }
  }

  /** Once a session is over, a Refresh with any of its tokens is refused and changes no record. */
  lemma EndedSessionRefuses(s: State, c: nat, reply: Reply)
    requires Inv(s) && c in s.calls && s.calls[c].Parsed? && s.calls[c].jti in s.tokens
    requires ChainDead(s, s.tokens[s.calls[c].jti].chain)
    ensures Next(s, Consume(c, reply)).calls[c] == Refused && Next(s, Consume(c, reply)).store == s.store
  {
    assert forall k :: k in s.store && k in s.tokens ==> HasRecord(s, s.tokens[k].chain);
  }
}
