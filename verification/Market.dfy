/** The listings, boosts and outbox tables: what every interleaving of creates, updates, deletes, boosts and rollbacks
    keeps. Times are database times unless said otherwise. */
module Market {
  import opened Wrappers
  import opened Decimal
  import opened Events
  import Outbox = OutboxProtocol

  datatype Listing = Listing(userId: nat, title: string, description: string, price: real, category: string,
                             isBoosted: bool, createdAt: nat)

  datatype Boost = Boost(id: nat, listingId: nat, userId: nat, expiresAt: nat, createdAt: nat)

  function MessageOf(e: DomainEvent): Outbox.Message {
    Outbox.Message(e.Topic(), e.Key(), e.Payload())
  }

  /** Who wrote a listing, and the outbox row it announced itself in. */
  datatype Origin = Origin(row: nat, userId: nat)

  /** The same for a boost. */
  datatype BoostOrigin = BoostOrigin(row: nat, listingId: nat, userId: nat)

  /** The sequences give ids from 1 on, and rolled-back transactions leave gaps. An outbox row is the event it carries;
      its columns are MessageOf that event. `created` and `boosted` remember every listing and boost ever committed. */
  datatype Tables = Tables(now: nat, listings: map<nat, Listing>, boosts: seq<Boost>, outbox: map<nat, DomainEvent>,
                           lastListing: nat, lastBoost: nat, lastRow: nat,
                           created: map<nat, Origin>, boosted: map<nat, BoostOrigin>)

  datatype Error = NotFound | AlreadyBoosted | NotOwner | DbError

  /** What a statement or the commit of a transaction may do. AtCommit(true) commits and reports an error. */
  datatype Fault = Fine | BeforeInsert | AfterInsert | AtCommit(applied: bool)

  function NoTables(): Tables {
    Tables(0, map[], [], map[], 0, 0, 0, map[], map[])
  }

  function HasActive(boosts: seq<Boost>, listingId: nat, now: nat): bool {
    exists i :: 0 <= i < |boosts| && boosts[i].listingId == listingId && boosts[i].expiresAt > now
  }

  function Record(t: Tables, e: DomainEvent): Tables {
    t.(lastRow := t.lastRow + 1, outbox := t.outbox[t.lastRow + 1 := e])
  }

  // ---- The transactions ----

  /** The transaction of listing.Create when it commits. */
  function WithListing(t: Tables, l: Listing): Tables {
    var id := t.lastListing + 1;
    Record(t.(lastListing := id, created := t.created[id := Origin(t.lastRow + 1, l.userId)],
              listings := t.listings[id := l.(isBoosted := false, createdAt := t.now)]),
           ListingCreated(id, l.userId))
  }

  function WithBoost(t: Tables, listingId: nat, userId: nat, expiresAt: nat, at: nat): Tables
    requires listingId in t.listings
  {
    var id := t.lastBoost + 1;
    Record(t.(lastBoost := id, boosted := t.boosted[id := BoostOrigin(t.lastRow + 1, listingId, userId)],
              boosts := t.boosts + [Boost(id, listingId, userId, expiresAt, at)],
              listings := t.listings[listingId := t.listings[listingId].(isBoosted := true)]),
           BoostCreated(id, listingId, userId))
  }

  function CreateTx(t: Tables, l: Listing, fault: Fault): (Tables, Option<Error>) {
    match fault
    case Fine => (WithListing(t, l), None)
    case BeforeInsert => (t, Some(DbError))
    case AfterInsert => (t.(lastListing := t.lastListing + 1), Some(DbError))
    case AtCommit(applied) =>
      (if applied then WithListing(t, l) else t.(lastListing := t.lastListing + 1, lastRow := t.lastRow + 1), Some(DbError))
  }

  /** CreateActive when nothing comes between its statements. */
  function BoostTx(t: Tables, listingId: nat, userId: nat, expiresAt: nat, fault: Fault): (Tables, Option<Error>) {
    if fault == BeforeInsert then (t, Some(DbError))
    else if HasActive(t.boosts, listingId, t.now) then (t, Some(AlreadyBoosted))
    else InsertTx(t, listingId, userId, expiresAt, t.now, fault)
  }

  /** CreateActive after its check: insert, flag, enqueue, commit, on the tables as they are by then. NOW() still is the
      time `at` when the transaction began. A missing listing violates the foreign key. */
  function InsertTx(t: Tables, listingId: nat, userId: nat, expiresAt: nat, at: nat, fault: Fault): (Tables, Option<Error>) {
    if fault == BeforeInsert then (t, Some(DbError))
    else if listingId !in t.listings || fault == AfterInsert then (t.(lastBoost := t.lastBoost + 1), Some(DbError))
    else if fault == AtCommit(false) then (t.(lastBoost := t.lastBoost + 1, lastRow := t.lastRow + 1), Some(DbError))
    else (WithBoost(t, listingId, userId, expiresAt, at), if fault.Fine? then None else Some(DbError))
  }

  function UpdateTx(t: Tables, id: nat, l: Listing): (Tables, Option<Error>) {
    if id !in t.listings || t.listings[id].userId != l.userId then (t, Some(NotFound))
    else (t.(listings := t.listings[id := t.listings[id].(title := l.title, description := l.description,
                                                          price := l.price, category := l.category)]), None)
  }

  function Without(boosts: seq<Boost>, listingId: nat): (r: seq<Boost>)
    ensures forall b :: b in r <==> b in boosts && b.listingId != listingId
  {
    if boosts == [] then []
    else
      var n := |boosts| - 1;
      if boosts[n].listingId == listingId then Without(boosts[..n], listingId) else Without(boosts[..n], listingId) + [boosts[n]]
  }

  /** DELETE with its cascade to the listing's boosts. */
  function DeleteTx(t: Tables, id: nat, userId: nat): (Tables, Option<Error>) {
    if id !in t.listings || t.listings[id].userId != userId then (t, Some(NotFound))
    else (t.(listings := t.listings - {id}, boosts := Without(t.boosts, id)), None)
  }

  /** Whether a transaction took effect, whatever its caller heard. */
  predicate Applied(fault: Fault) { fault.Fine? || fault == AtCommit(true) }

  /** What a single statement leaves and reports, when `done` is what it does if nothing fails. */
  function Reported(before: Tables, done: (Tables, Option<Error>), fault: Fault): (Tables, Option<Error>) {
    if fault.Fine? then done else (if Applied(fault) then done.0 else before, Some(DbError))
  }

  // ---- Interleavings ----

  /** A CreateActive transaction that began at `at` and passed its check. */
  datatype Call = Call(listingId: nat, userId: nat, expiresAt: nat, at: nat)

  /** `approved` holds the listings and users for which the service has found the user to be the owner. */
  datatype System = System(tables: Tables, calls: map<nat, Call>, approved: set<(nat, nat)>)

  datatype Action =
    | Tick(d: nat)
    | Create(listing: Listing, fault: Fault)
    | Update(id: nat, listing: Listing)
    | Delete(id: nat, userId: nat)
    | CreateActive(listingId: nat, userId: nat, expiresAt: nat, fault: Fault)   // nothing comes in between
    | Approve(listingId: nat, userId: nat)                                      // the owner lookup of a boost
    | Check(call: nat, listingId: nat, userId: nat, expiresAt: nat)
    | Insert(call: nat, fault: Fault)

  function Empty(): System { System(NoTables(), map[], {}) }

  predicate Enabled(s: System, a: Action) {
    match a
    case Create(l, _) => l.userId > 0
    case CreateActive(_, userId, _, _) => userId > 0
    case Check(c, _, userId, _) => userId > 0 && c !in s.calls
    case Insert(c, _) => c in s.calls
    case Approve(listingId, userId) => listingId in s.tables.listings && s.tables.listings[listingId].userId == userId
    case _ => true
  }

  function NextTables(s: System, a: Action): Tables
    requires Enabled(s, a)
  {
    var t := s.tables;
    match a
    case Tick(d) => t.(now := t.now + d)
    case Create(l, fault) => CreateTx(t, l, fault).0
    case Update(id, l) => UpdateTx(t, id, l).0
    case Delete(id, userId) => DeleteTx(t, id, userId).0
    case CreateActive(listingId, userId, expiresAt, fault) => BoostTx(t, listingId, userId, expiresAt, fault).0
    case Approve(_, _) => t
    case Check(_, _, _, _) => t
    case Insert(c, fault) => InsertTx(t, s.calls[c].listingId, s.calls[c].userId, s.calls[c].expiresAt, s.calls[c].at, fault).0
  }

  function Next(s: System, a: Action): System
    requires Enabled(s, a)
  {
    System(NextTables(s, a),
           match a
           case Check(c, listingId, userId, expiresAt) =>
             if HasActive(s.tables.boosts, listingId, s.tables.now) then s.calls
             else s.calls[c := Call(listingId, userId, expiresAt, s.tables.now)]
           case Insert(c, _) => s.calls - {c}
           case _ => s.calls,
           if a.Approve? then s.approved + {(a.listingId, a.userId)} else s.approved)
  }

  predicate Reaches(s: System, actions: seq<Action>, u: System)
    decreases |actions|
  {
    if actions == [] then s == u else Enabled(s, actions[0]) && Reaches(Next(s, actions[0]), actions[1..], u)
  }

  predicate CallsOk(s: System) {
    forall c :: c in s.calls ==> s.calls[c].at <= s.tables.now && s.calls[c].userId > 0
  }

  /** The boost that a step inserts and commits, if it does. */
  function Inserted(s: System, a: Action): Option<Call>
    requires Enabled(s, a)
  {
    match a
    case CreateActive(listingId, userId, expiresAt, fault) =>
      if Applied(fault) && listingId in s.tables.listings && !HasActive(s.tables.boosts, listingId, s.tables.now)
        then Some(Call(listingId, userId, expiresAt, s.tables.now)) else None
    case Insert(c, fault) => if Applied(fault) && s.calls[c].listingId in s.tables.listings then Some(s.calls[c]) else None
    case _ => None
  }

  lemma InsertShape(s: System, a: Action)
    requires Enabled(s, a) && Inserted(s, a).Some?
    ensures var c := Inserted(s, a).value;
            && c.listingId in s.tables.listings && Next(s, a).tables == WithBoost(s.tables, c.listingId, c.userId, c.expiresAt, c.at)
            && (CallsOk(s) ==> c.at <= s.tables.now && c.userId > 0)
  {
  }

  lemma StepCalls(s: System, a: Action)
    requires CallsOk(s) && Enabled(s, a)
    ensures CallsOk(Next(s, a))
  {
  }

  // ---- The flag ----

  /** Every boost belongs to a listing that has the flag set. */
  ghost predicate Flagged(t: Tables) {
    && (forall id :: id in t.listings ==> id <= t.lastListing)
    && forall b :: b in t.boosts ==> b.listingId in t.listings && t.listings[b.listingId].isBoosted && b.createdAt <= t.now
  }

  lemma NewBoostFlagged(t: Tables, c: Call)
    requires Flagged(t) && c.listingId in t.listings && c.at <= t.now
    ensures Flagged(WithBoost(t, c.listingId, c.userId, c.expiresAt, c.at))
  {
  }

  lemma DeleteFlagged(t: Tables, id: nat, userId: nat)
    requires Flagged(t)
    ensures Flagged(DeleteTx(t, id, userId).0)
  {
  }

  lemma OtherFlagged(s: System, a: Action)
    requires Flagged(s.tables) && Enabled(s, a) && Inserted(s, a).None? && !a.Delete?
    ensures Flagged(Next(s, a).tables)
  {
    if a.Create? {
      CreateFlagged(s.tables, a.listing, a.fault);
    } else if a.Update? {
      UpdateFlagged(s.tables, a.id, a.listing);
    } else {
      OtherBoosts(s, a);
      OtherListings(s, a);
    }
  }

  lemma CreateFlagged(t: Tables, l: Listing, fault: Fault)
    requires Flagged(t)
    ensures Flagged(CreateTx(t, l, fault).0)
  {
    assert forall b :: b in t.boosts ==> b.listingId in t.listings && b.listingId <= t.lastListing;
  }

  lemma UpdateFlagged(t: Tables, id: nat, l: Listing)
    requires Flagged(t)
    ensures Flagged(UpdateTx(t, id, l).0)
  {
  }

  lemma OtherBoosts(s: System, a: Action)
    requires Enabled(s, a) && Inserted(s, a).None? && !a.Delete?
    ensures Next(s, a).tables.boosts == s.tables.boosts
  {
  }

  lemma OtherListings(s: System, a: Action)
    requires Enabled(s, a) && Inserted(s, a).None? && !a.Delete? && !a.Create? && !a.Update?
    ensures Next(s, a).tables.listings == s.tables.listings
    ensures Next(s, a).tables.lastListing == s.tables.lastListing && Next(s, a).tables.now >= s.tables.now
    ensures Next(s, a).tables.created == s.tables.created && Next(s, a).tables.boosted == s.tables.boosted
  {
  }

  lemma StepFlagged(s: System, a: Action)
    requires Flagged(s.tables) && CallsOk(s) && Enabled(s, a)
    ensures Flagged(Next(s, a).tables)
  {
    if Inserted(s, a).Some? {
      InsertShape(s, a);
      NewBoostFlagged(s.tables, Inserted(s, a).value);
    } else if a.Delete? {
      DeleteFlagged(s.tables, a.id, a.userId);
    } else {
      OtherFlagged(s, a);
    }
  }

  lemma {:induction false} RunFlagged(s: System, actions: seq<Action>, u: System)
    requires Flagged(s.tables) && CallsOk(s) && Reaches(s, actions, u)
    ensures Flagged(u.tables) && CallsOk(u)
    decreases |actions|
  {
    if actions != [] {
      StepFlagged(s, actions[0]);
      StepCalls(s, actions[0]);
      RunFlagged(Next(s, actions[0]), actions[1..], u);
    }
  }

  // ---- Disjoint boosts ----

  ghost predicate Disjoint(boosts: seq<Boost>) {
    forall i, j :: 0 <= i < j < |boosts| && boosts[i].listingId == boosts[j].listingId ==> boosts[i].expiresAt <= boosts[j].createdAt
  }

  lemma {:induction false} WithoutKeepsDisjoint(boosts: seq<Boost>, listingId: nat)
    requires Disjoint(boosts)
    ensures Disjoint(Without(boosts, listingId))
  {
    if boosts != [] {
      var n := |boosts| - 1;
      WithoutKeepsDisjoint(boosts[..n], listingId);
      var r := Without(boosts[..n], listingId);
      forall i | 0 <= i < |r| && r[i].listingId == boosts[n].listingId ensures r[i].expiresAt <= boosts[n].createdAt {
        assert r[i] in r;
        var k :| 0 <= k < n && boosts[k] == r[i];
      }
    }
  }

  /** Appending a boost keeps the intervals disjoint exactly when the check of CreateActive passes at its time. */
  lemma AppendExact(boosts: seq<Boost>, b: Boost)
    requires Disjoint(boosts)
    ensures Disjoint(boosts + [b]) <==> !HasActive(boosts, b.listingId, b.createdAt)
  {
    var all := boosts + [b];
    if HasActive(boosts, b.listingId, b.createdAt) {
      var i :| 0 <= i < |boosts| && boosts[i].listingId == b.listingId && boosts[i].expiresAt > b.createdAt;
      assert all[i] == boosts[i] && all[|boosts|] == b;
    }
  }

  /** The step commits a boost while another boost of its listing is active, at the time of the step's transaction. */
  predicate InsertsOverActive(s: System, a: Action)
    requires Enabled(s, a)
  {
    match Inserted(s, a)
    case None => false
    case Some(c) => HasActive(s.tables.boosts, c.listingId, c.at)
  }

  lemma StepDisjointExactly(s: System, a: Action)
    requires Disjoint(s.tables.boosts) && Enabled(s, a)
    ensures Disjoint(Next(s, a).tables.boosts) <==> !InsertsOverActive(s, a)
  {
    if Inserted(s, a).Some? {
      InsertShape(s, a);
      var c := Inserted(s, a).value;
      AppendExact(s.tables.boosts, Boost(s.tables.lastBoost + 1, c.listingId, c.userId, c.expiresAt, c.at));
    } else if a.Delete? {
      WithoutKeepsDisjoint(s.tables.boosts, a.id);
    } else {
      OtherBoosts(s, a);
    }
  }

  ghost predicate DisjointThroughout(s: System, actions: seq<Action>)
    decreases |actions|
  {
    Disjoint(s.tables.boosts) && (actions != [] ==> Enabled(s, actions[0]) && DisjointThroughout(Next(s, actions[0]), actions[1..]))
  }

  predicate NeverInsertsOverActive(s: System, actions: seq<Action>)
    decreases |actions|
  {
    actions != [] ==>
      Enabled(s, actions[0]) && !InsertsOverActive(s, actions[0]) && NeverInsertsOverActive(Next(s, actions[0]), actions[1..])
  }

  lemma {:induction false} RunDisjointExactly(s: System, actions: seq<Action>)
    requires Disjoint(s.tables.boosts)
    ensures DisjointThroughout(s, actions) <==> NeverInsertsOverActive(s, actions)
    decreases |actions|
  {
    if actions != [] && Enabled(s, actions[0]) {
      StepDisjointExactly(s, actions[0]);
      if !InsertsOverActive(s, actions[0]) { RunDisjointExactly(Next(s, actions[0]), actions[1..]); }
    }
  }

  lemma {:induction false} DisjointAtEnd(s: System, actions: seq<Action>, u: System)
    requires DisjointThroughout(s, actions) && Reaches(s, actions, u)
    ensures Disjoint(u.tables.boosts)
    decreases |actions|
  {
    if actions != [] { DisjointAtEnd(Next(s, actions[0]), actions[1..], u); }
  }

  /** For every interleaving: the boosts are disjoint all along if and only if no boost is ever committed while another one
      of its listing is active at its transaction's time. */
  lemma BoostsDisjointExactly(actions: seq<Action>, u: System)
    requires Reaches(Empty(), actions, u)
    ensures DisjointThroughout(Empty(), actions) <==> NeverInsertsOverActive(Empty(), actions)
    ensures NeverInsertsOverActive(Empty(), actions) ==> Disjoint(u.tables.boosts)
  {
    RunDisjointExactly(Empty(), actions);
    if NeverInsertsOverActive(Empty(), actions) { DisjointAtEnd(Empty(), actions, u); }
  }

  predicate ActiveAt(b: Boost, time: nat) {
    b.createdAt <= time < b.expiresAt
  }

  predicate Serial(actions: seq<Action>) {
    forall i :: 0 <= i < |actions| ==> !actions[i].Insert?
  }

  lemma {:induction false} SerialNeverOverlaps(s: System, actions: seq<Action>, u: System)
    requires Serial(actions) && Reaches(s, actions, u)
    ensures NeverInsertsOverActive(s, actions)
    decreases |actions|
  {
    if actions != [] {
      assert forall i :: 0 <= i < |actions[1..]| ==> actions[1..][i] == actions[i + 1];
      SerialNeverOverlaps(Next(s, actions[0]), actions[1..], u);
    }
  }

  /** In particular when CreateActive transactions run one after another, whatever expiry the application clock and the
      configured duration gave: a listing's boosts do not overlap, so at most one is active at any instant. */
  lemma BoostsAreDisjoint(actions: seq<Action>, u: System, i: nat, j: nat, time: nat)
    requires Reaches(Empty(), actions, u) && Serial(actions)
    requires i < j < |u.tables.boosts| && u.tables.boosts[i].listingId == u.tables.boosts[j].listingId
    ensures u.tables.boosts[i].expiresAt <= u.tables.boosts[j].createdAt
    ensures !(ActiveAt(u.tables.boosts[i], time) && ActiveAt(u.tables.boosts[j], time))
  {
    SerialNeverOverlaps(Empty(), actions, u);
    BoostsDisjointExactly(actions, u);
  }

  // ---- One call of a listing at a time ----

  /** A boost is committed only while no other call of its listing is in flight, as a lock per listing would have it. */
  predicate CommitsAlone(s: System, a: Action)
    requires Enabled(s, a)
  {
    match Inserted(s, a)
    case None => true
    case Some(b) => forall c :: c in s.calls && s.calls[c].listingId == b.listingId ==> a.Insert? && a.call == c
  }

  predicate OneAtATime(s: System, actions: seq<Action>)
    decreases |actions|
  {
    actions != [] ==> Enabled(s, actions[0]) && CommitsAlone(s, actions[0]) && OneAtATime(Next(s, actions[0]), actions[1..])
  }

  /** What the calls in flight have seen still holds. */
  ghost predicate ChecksHold(s: System) {
    forall c :: c in s.calls ==> !HasActive(s.tables.boosts, s.calls[c].listingId, s.calls[c].at)
  }

  lemma FewerActive(boosts: seq<Boost>, boosts': seq<Boost>, listingId: nat, at: nat)
    requires forall b :: b in boosts' && b.listingId == listingId ==> b in boosts
    ensures HasActive(boosts', listingId, at) ==> HasActive(boosts, listingId, at)
  {
    if HasActive(boosts', listingId, at) {
      var i :| 0 <= i < |boosts'| && boosts'[i].listingId == listingId && boosts'[i].expiresAt > at;
      assert boosts'[i] in boosts;
      var j :| 0 <= j < |boosts| && boosts[j] == boosts'[i];
    }
  }

  /** A step gives the listing of a call that stays in flight no new boost. */
  lemma StepBoostsOf(s: System, a: Action, c: nat)
    requires Enabled(s, a) && CommitsAlone(s, a) && c in s.calls && c in Next(s, a).calls
    ensures forall b :: b in Next(s, a).tables.boosts && b.listingId == s.calls[c].listingId ==> b in s.tables.boosts
  {
    if Inserted(s, a).Some? {
      InsertShape(s, a);
    } else if !a.Delete? {
      OtherBoosts(s, a);
    }
  }

  lemma StepChecksHold(s: System, a: Action)
    requires ChecksHold(s) && Enabled(s, a) && CommitsAlone(s, a)
    ensures ChecksHold(Next(s, a)) && !InsertsOverActive(s, a)
  {
    var t := Next(s, a);
    forall c | c in t.calls ensures !HasActive(t.tables.boosts, t.calls[c].listingId, t.calls[c].at) {
      if c in s.calls {
        StepBoostsOf(s, a, c);
        FewerActive(s.tables.boosts, t.tables.boosts, s.calls[c].listingId, s.calls[c].at);
      }
    }
  }

  lemma {:induction false} OneAtATimeNeverOverlaps(s: System, actions: seq<Action>)
    requires ChecksHold(s) && OneAtATime(s, actions)
    ensures NeverInsertsOverActive(s, actions)
    decreases |actions|
  {
    if actions != [] {
      StepChecksHold(s, actions[0]);
      OneAtATimeNeverOverlaps(Next(s, actions[0]), actions[1..]);
    }
  }

  /** Overlapping transactions on different listings do no harm: it is enough that no boost is committed while another call of
      its listing is in flight. */
  lemma LockedBoostsAreDisjoint(actions: seq<Action>, u: System)
    requires Reaches(Empty(), actions, u) && OneAtATime(Empty(), actions)
    ensures DisjointThroughout(Empty(), actions) && Disjoint(u.tables.boosts)
  {
    OneAtATimeNeverOverlaps(Empty(), actions);
    BoostsDisjointExactly(actions, u);
  }

  /** Running alone is a check with its insert right behind it. */
  lemma AloneIsCheckThenInsert(s: System, c: nat, listingId: nat, userId: nat, expiresAt: nat, fault: Fault)
    requires c !in s.calls && userId > 0
    ensures var checked := Next(s, Check(c, listingId, userId, expiresAt));
            NextTables(s, CreateActive(listingId, userId, expiresAt, fault))
            == if c in checked.calls then Next(checked, Insert(c, fault)).tables else checked.tables
  {
  }

  /** Two transactions that both check before either inserts: both succeed, and both boosts are active at once. */
  lemma ConcurrentBoostsOverlap(s: System, listingId: nat, userId: nat, expiresAt: nat) returns (u: System)
    requires listingId in s.tables.listings && !HasActive(s.tables.boosts, listingId, s.tables.now) && expiresAt > s.tables.now
    requires userId > 0 && 1 !in s.calls && 2 !in s.calls
    ensures var a, b := Check(1, listingId, userId, expiresAt), Check(2, listingId, userId, expiresAt);
            Reaches(s, [a, b, Insert(1, Fine), Insert(2, Fine)], u)
    ensures var n := |s.tables.boosts|;
            var boosts := u.tables.boosts;
            |boosts| == n + 2 && ActiveAt(boosts[n], s.tables.now) && ActiveAt(boosts[n + 1], s.tables.now)
            && boosts[n].listingId == boosts[n + 1].listingId == listingId && !Disjoint(boosts)
  {
    var a, b := Check(1, listingId, userId, expiresAt), Check(2, listingId, userId, expiresAt);
    var c := Call(listingId, userId, expiresAt, s.tables.now);
    var s2 := s.(calls := s.calls[1 := c][2 := c]);
    assert Next(s, a) == s.(calls := s.calls[1 := c]) && Next(Next(s, a), b) == s2;
    var s3 := Next(s2, Insert(1, Fine));
    assert s3.tables == WithBoost(s.tables, listingId, userId, expiresAt, s.tables.now);
    u := Next(s3, Insert(2, Fine));
    assert u.tables == WithBoost(s3.tables, listingId, userId, expiresAt, s.tables.now);
    var all := [a, b, Insert(1, Fine), Insert(2, Fine)];
    assert all[1..] == [b, Insert(1, Fine), Insert(2, Fine)] && all[1..][1..] == [Insert(1, Fine), Insert(2, Fine)];
    assert all[1..][1..][1..] == [Insert(2, Fine)] && all[1..][1..][1..][1..] == [];
    assert Reaches(u, [], u) && Reaches(s3, [Insert(2, Fine)], u) && Reaches(s2, [Insert(1, Fine), Insert(2, Fine)], u);
    var n := |s.tables.boosts|;
    assert u.tables.boosts[n].expiresAt > u.tables.boosts[n + 1].createdAt;
  }

  // ---- Events ----

  ghost predicate RowKnown(t: Tables, k: nat)
    requires k in t.outbox
  {
    var e := t.outbox[k];
    && 1 <= k <= t.lastRow && e.id >= 1 && e.userId >= 1
    && (e.ListingCreated? ==> e.id in t.created && t.created[e.id].row == k)
    && (e.BoostCreated? ==> e.id in t.boosted && t.boosted[e.id].row == k)
  }

  ghost predicate RowsMatch(t: Tables) {
    forall k :: k in t.outbox ==> RowKnown(t, k)
  }

  /** The row of listing `id` says who wrote it. */
  ghost predicate ListingWritten(t: Tables, id: nat) {
    id in t.created && 1 <= id <= t.lastListing && t.created[id].row in t.outbox
    && t.outbox[t.created[id].row] == ListingCreated(id, t.created[id].userId)
  }

  ghost predicate BoostWritten(t: Tables, id: nat) {
    id in t.boosted && 1 <= id <= t.lastBoost && t.boosted[id].row in t.outbox
    && t.outbox[t.boosted[id].row] == BoostCreated(id, t.boosted[id].listingId, t.boosted[id].userId)
  }

  ghost predicate WritesMatch(t: Tables) {
    && (forall id :: id in t.created ==> ListingWritten(t, id))
    && (forall id :: id in t.boosted ==> BoostWritten(t, id))
  }

  /** What the tables hold now is what was once committed. */
  ghost predicate LiveKnown(t: Tables) {
    && (forall id :: id in t.listings ==> id in t.created && t.created[id].userId == t.listings[id].userId)
    && (forall b :: b in t.boosts ==>
          b.id in t.boosted && t.boosted[b.id].listingId == b.listingId && t.boosted[b.id].userId == b.userId)
  }

  /** The transaction of the step commits a listing. */
  predicate Creates(a: Action) { a.Create? && Applied(a.fault) }

  /** No event is written, and the sequences only move on. */
  ghost predicate SameEvents(t: Tables, u: Tables) {
    && t.lastListing <= u.lastListing && t.lastBoost <= u.lastBoost && t.lastRow <= u.lastRow
    && u.outbox == t.outbox && u.created == t.created && u.boosted == t.boosted
  }

  lemma FailedCreate(t: Tables, l: Listing, fault: Fault)
    requires !Applied(fault)
    ensures SameEvents(t, CreateTx(t, l, fault).0)
  {
  }

  lemma FailedInsert(t: Tables, listingId: nat, userId: nat, expiresAt: nat, at: nat, fault: Fault)
    requires !Applied(fault) || listingId !in t.listings
    ensures SameEvents(t, InsertTx(t, listingId, userId, expiresAt, at, fault).0)
  {
  }

  lemma OtherShape(s: System, a: Action)
    requires Enabled(s, a) && !Creates(a) && Inserted(s, a).None?
    ensures SameEvents(s.tables, Next(s, a).tables)
  {
    match a
    case Create(l, fault) => FailedCreate(s.tables, l, fault);
    case CreateActive(listingId, userId, expiresAt, fault) =>
      if fault != BeforeInsert && !HasActive(s.tables.boosts, listingId, s.tables.now) {
        FailedInsert(s.tables, listingId, userId, expiresAt, s.tables.now, fault);
      }
    case Insert(c, fault) =>
      FailedInsert(s.tables, s.calls[c].listingId, s.calls[c].userId, s.calls[c].expiresAt, s.calls[c].at, fault);
    case Tick(_) =>
    case Update(_, _) =>
    case Delete(_, _) =>
    case Approve(_, _) =>
    case Check(_, _, _, _) =>
  }

  lemma FreshIds(t: Tables)
    requires RowsMatch(t) && WritesMatch(t)
    ensures t.lastRow + 1 !in t.outbox && t.lastListing + 1 !in t.created && t.lastBoost + 1 !in t.boosted
  {
    assert forall k :: k in t.outbox ==> RowKnown(t, k);
    assert forall id :: id in t.created ==> ListingWritten(t, id);
    assert forall id :: id in t.boosted ==> BoostWritten(t, id);
  }

  ghost predicate EventsOk(t: Tables) {
    RowsMatch(t) && WritesMatch(t) && LiveKnown(t)
  }

  lemma ListingEvents(t: Tables, l: Listing)
    requires RowsMatch(t) && WritesMatch(t) && l.userId > 0
    ensures RowsMatch(WithListing(t, l)) && WritesMatch(WithListing(t, l))
  {
    var u := WithListing(t, l);
    FreshIds(t);
    forall k | k in u.outbox ensures RowKnown(u, k) {
      if k in t.outbox { assert RowKnown(t, k); }
    }
    forall id | id in u.created ensures ListingWritten(u, id) {
      if id in t.created { assert ListingWritten(t, id); }
    }
    forall id | id in u.boosted ensures BoostWritten(u, id) { assert BoostWritten(t, id); }
  }

  lemma BoostEvents(t: Tables, c: Call)
    requires RowsMatch(t) && WritesMatch(t) && c.listingId in t.listings && c.userId > 0
    ensures var u := WithBoost(t, c.listingId, c.userId, c.expiresAt, c.at); RowsMatch(u) && WritesMatch(u)
  {
    var u := WithBoost(t, c.listingId, c.userId, c.expiresAt, c.at);
    FreshIds(t);
    forall k | k in u.outbox ensures RowKnown(u, k) {
      if k in t.outbox { assert RowKnown(t, k); }
    }
    forall id | id in u.created ensures ListingWritten(u, id) { assert ListingWritten(t, id); }
    forall id | id in u.boosted ensures BoostWritten(u, id) {
      if id in t.boosted { assert BoostWritten(t, id); }
    }
  }

  lemma OtherEvents(t: Tables, u: Tables)
    requires RowsMatch(t) && WritesMatch(t) && SameEvents(t, u)
    ensures RowsMatch(u) && WritesMatch(u)
  {
    forall k | k in u.outbox ensures RowKnown(u, k) { assert RowKnown(t, k); }
    forall id | id in u.created ensures ListingWritten(u, id) { assert ListingWritten(t, id); }
    forall id | id in u.boosted ensures BoostWritten(u, id) { assert BoostWritten(t, id); }
  }

  lemma InsertLive(t: Tables, c: Call)
    requires LiveKnown(t) && t.lastBoost + 1 !in t.boosted && c.listingId in t.listings
    ensures LiveKnown(WithBoost(t, c.listingId, c.userId, c.expiresAt, c.at))
  {
  }

  lemma OtherLive(s: System, a: Action)
    requires LiveKnown(s.tables) && Enabled(s, a) && Inserted(s, a).None?
    ensures LiveKnown(Next(s, a).tables)
  {
    match a
    case Create(l, fault) => CreateLive(s.tables, l, fault);
    case Update(id, l) => UpdateLive(s.tables, id, l);
    case Delete(id, userId) => DeleteLive(s.tables, id, userId);
    case _ =>
      OtherBoosts(s, a);
      OtherListings(s, a);
  }

  lemma CreateLive(t: Tables, l: Listing, fault: Fault)
    requires LiveKnown(t)
    ensures LiveKnown(CreateTx(t, l, fault).0)
  {
  }

  lemma UpdateLive(t: Tables, id: nat, l: Listing)
    requires LiveKnown(t)
    ensures LiveKnown(UpdateTx(t, id, l).0)
  {
  }

  lemma DeleteLive(t: Tables, id: nat, userId: nat)
    requires LiveKnown(t)
    ensures LiveKnown(DeleteTx(t, id, userId).0)
  {
  }

  lemma StepEvents(s: System, a: Action)
    requires EventsOk(s.tables) && CallsOk(s) && Enabled(s, a)
    ensures EventsOk(Next(s, a).tables)
  {
    var t := s.tables;
    if Inserted(s, a).Some? {
      InsertShape(s, a);
      FreshIds(t);
      BoostEvents(t, Inserted(s, a).value);
      InsertLive(t, Inserted(s, a).value);
    } else {
      OtherLive(s, a);
      if Creates(a) {
        ListingEvents(t, a.listing);
      } else {
        OtherShape(s, a);
        OtherEvents(t, Next(s, a).tables);
      }
    }
  }

  lemma {:induction false} RunEvents(s: System, actions: seq<Action>, u: System)
    requires EventsOk(s.tables) && CallsOk(s) && Reaches(s, actions, u)
    ensures EventsOk(u.tables) && CallsOk(u)
    decreases |actions|
  {
    if actions != [] {
      StepEvents(s, actions[0]);
      StepCalls(s, actions[0]);
      RunEvents(Next(s, actions[0]), actions[1..], u);
    }
  }

  /** Through any interleaving of rollbacks, unheard commits and later deletes, listings and boosts ever committed are in
      bijection with outbox rows: each has its one row, which names it and who wrote it, and each row is that of one write. */
  lemma EventConservation(actions: seq<Action>, u: System)
    requires Reaches(Empty(), actions, u)
    ensures var t := u.tables;
            && (forall id :: id in t.created ==> ListingWritten(t, id))
            && (forall id :: id in t.boosted ==> BoostWritten(t, id))
            && (forall k :: k in t.outbox ==> RowKnown(t, k))
            && (forall id :: id in t.listings ==>
                  id in t.created && t.created[id].row in t.outbox
                  && t.outbox[t.created[id].row] == ListingCreated(id, t.listings[id].userId))
            && (forall b :: b in t.boosts ==>
                  b.id in t.boosted && t.boosted[b.id].row in t.outbox
                  && t.outbox[t.boosted[b.id].row] == BoostCreated(b.id, b.listingId, b.userId))
  {
    RunEvents(Empty(), actions, u);
    var t := u.tables;
    forall id | id in t.listings
      ensures id in t.created && t.created[id].row in t.outbox && t.outbox[t.created[id].row] == ListingCreated(id, t.listings[id].userId)
    {
      assert ListingWritten(t, id);
    }
    forall b | b in t.boosts
      ensures b.id in t.boosted && t.boosted[b.id].row in t.outbox
           && t.outbox[t.boosted[b.id].row] == BoostCreated(b.id, b.listingId, b.userId)
    {
      assert BoostWritten(t, b.id);
    }
  }

  lemma RowsAlike(t: Tables, k: nat, m: nat)
    requires RowsMatch(t) && k in t.outbox && m in t.outbox
    requires MessageOf(t.outbox[k]).topic == MessageOf(t.outbox[m]).topic && MessageOf(t.outbox[k]).key == MessageOf(t.outbox[m]).key
    ensures k == m
  {
    var e, f := t.outbox[k], t.outbox[m];
    assert RowKnown(t, k) && RowKnown(t, m);
    assert e.Topic() == f.Topic();
    assert "listing.created"[0] != "boost.created"[0];
    DigitsInjective(e.id, f.id);
  }

  lemma RowReadable(t: Tables, k: nat, text: string)
    requires RowsMatch(t) && k in t.outbox && JsonbText(t.outbox[k].Contents(), text)
    ensures ReadsAs(text, t.outbox[k]) && Judge(text) == Countable
  {
    assert RowKnown(t, k);
    EventReadable(t.outbox[k], text);
  }

  /** No two rows announce the same thing; and whatever text JSONB gives back for the payload that was written, the worker
      counts it. */
  lemma EventsDistinctAndReadable(actions: seq<Action>, u: System, k: nat, m: nat, text: string)
    requires Reaches(Empty(), actions, u) && k in u.tables.outbox && m in u.tables.outbox
    ensures var a, b := MessageOf(u.tables.outbox[k]), MessageOf(u.tables.outbox[m]); a.topic == b.topic && a.key == b.key ==> k == m
    ensures JsonbText(u.tables.outbox[k].Contents(), text) ==> Judge(text) == Countable
    ensures JsonbText(u.tables.outbox[k].Contents(), MessageOf(u.tables.outbox[k]).payload)
  {
    var t := u.tables;
    RunEvents(Empty(), actions, u);
    PayloadIsLayout(t.outbox[k]);
    if MessageOf(t.outbox[k]).topic == MessageOf(t.outbox[m]).topic && MessageOf(t.outbox[k]).key == MessageOf(t.outbox[m]).key {
      RowsAlike(t, k, m);
    }
    if JsonbText(t.outbox[k].Contents(), text) { RowReadable(t, k, text); }
  }

  /** The event of every listing ever committed, deleted since or not, reads back as that listing's id and its user. */
  lemma ListingReadsBack(actions: seq<Action>, u: System, id: nat, text: string)
    requires Reaches(Empty(), actions, u) && id in u.tables.created && u.tables.created[id].row in u.tables.outbox
    requires JsonbText(u.tables.outbox[u.tables.created[id].row].Contents(), text)
    ensures Decode(text).Some? && Lookup(Decode(text).value, "id") == id
    ensures Lookup(Decode(text).value, "user_id") == u.tables.created[id].userId
    ensures id in u.tables.listings ==> Lookup(Decode(text).value, "user_id") == u.tables.listings[id].userId
  {
    RunEvents(Empty(), actions, u);
    assert ListingWritten(u.tables, id);
    RowReadable(u.tables, u.tables.created[id].row, text);
  }

  /** The event of every boost ever committed reads back as that boost's id, its listing and its user. */
  lemma BoostReadsBack(actions: seq<Action>, u: System, id: nat, text: string)
    requires Reaches(Empty(), actions, u) && id in u.tables.boosted && u.tables.boosted[id].row in u.tables.outbox
    requires JsonbText(u.tables.outbox[u.tables.boosted[id].row].Contents(), text)
    ensures Decode(text).Some? && Lookup(Decode(text).value, "id") == id
    ensures Lookup(Decode(text).value, "listing_id") == u.tables.boosted[id].listingId
    ensures Lookup(Decode(text).value, "user_id") == u.tables.boosted[id].userId
    ensures forall b :: b in u.tables.boosts && b.id == id ==>
      Lookup(Decode(text).value, "listing_id") == b.listingId && Lookup(Decode(text).value, "user_id") == b.userId
  {
    RunEvents(Empty(), actions, u);
    assert BoostWritten(u.tables, id);
    RowReadable(u.tables, u.tables.boosted[id].row, text);
  }

  // ---- Whose listings are boosted ----

  /** CreateActive is called as boost.Service calls it: after a lookup, at any earlier time, that found the user to own the
      listing. */
  predicate ThroughService(s: System, actions: seq<Action>)
    decreases |actions|
  {
    actions != [] ==>
      && Enabled(s, actions[0])
      && (actions[0].CreateActive? || actions[0].Check? ==> (actions[0].listingId, actions[0].userId) in s.approved)
      && ThroughService(Next(s, actions[0]), actions[1..])
  }

  /** The listing was, and if it still exists is, that user's. */
  predicate Wrote(t: Tables, listingId: nat, userId: nat) {
    listingId in t.created && t.created[listingId].userId == userId
  }

  ghost predicate ByOwners(s: System) {
    && (forall p :: p in s.approved ==> Wrote(s.tables, p.0, p.1))
    && (forall c :: c in s.calls ==> Wrote(s.tables, s.calls[c].listingId, s.calls[c].userId))
    && (forall b :: b in s.tables.boosts ==> Wrote(s.tables, b.listingId, b.userId))
  }

  /** Who wrote a listing never changes. */
  lemma WroteStays(s: System, a: Action)
    requires EventsOk(s.tables) && Enabled(s, a)
    ensures forall id, userId :: Wrote(s.tables, id, userId) ==> Wrote(Next(s, a).tables, id, userId)
  {
    FreshIds(s.tables);
    if Inserted(s, a).Some? {
      InsertShape(s, a);
    } else if !Creates(a) {
      OtherShape(s, a);
    }
  }

  /** The boosts after a step are those before, and the one it commits. */
  lemma StepBoosts(s: System, a: Action, b: Boost)
    requires Enabled(s, a) && b in Next(s, a).tables.boosts && b !in s.tables.boosts
    ensures Inserted(s, a).Some? && Inserted(s, a).value.listingId == b.listingId && Inserted(s, a).value.userId == b.userId
  {
    if Inserted(s, a).Some? {
      InsertShape(s, a);
    } else if !a.Delete? {
      OtherBoosts(s, a);
    }
  }

  lemma StepByOwners(s: System, a: Action)
    requires ByOwners(s) && EventsOk(s.tables) && Enabled(s, a)
    requires a.CreateActive? || a.Check? ==> (a.listingId, a.userId) in s.approved
    ensures ByOwners(Next(s, a))
  {
    var t := Next(s, a);
    WroteStays(s, a);
    assert a.Approve? ==> Wrote(s.tables, a.listingId, a.userId);
    assert a.CreateActive? || a.Check? ==> Wrote(s.tables, a.listingId, a.userId);
    forall b | b in t.tables.boosts ensures Wrote(t.tables, b.listingId, b.userId) {
      if b !in s.tables.boosts { StepBoosts(s, a, b); }
    }
  }

  lemma {:induction false} RunByOwners(s: System, actions: seq<Action>, u: System)
    requires ByOwners(s) && EventsOk(s.tables) && CallsOk(s) && Reaches(s, actions, u) && ThroughService(s, actions)
    ensures ByOwners(u) && EventsOk(u.tables)
    decreases |actions|
  {
    if actions != [] {
      StepByOwners(s, actions[0]);
      StepEvents(s, actions[0]);
      StepCalls(s, actions[0]);
      RunByOwners(Next(s, actions[0]), actions[1..], u);
    }
  }

  /** A boost that went through the service's owner check is its listing's owner's, however lookups, checks and inserts
      interleave with each other and with deletes. */
  lemma OwnersBoost(actions: seq<Action>, u: System, b: Boost)
    requires Reaches(Empty(), actions, u) && ThroughService(Empty(), actions) && b in u.tables.boosts
    ensures b.listingId in u.tables.listings && u.tables.listings[b.listingId].userId == b.userId
  {
    RunByOwners(Empty(), actions, u);
    RunFlagged(Empty(), actions, u);
  }
}
