/** The transactional outbox seen by any number of relays at once: every claim, publish, commit,
    crash and server-side rollback is one atomic step on the shared state. */
module OutboxProtocol {
  import opened Ids

  datatype Message = Message(topic: string, key: string, payload: string)

  /** One outbox row; `published` says whether published_at is set. */
  datatype Row = Row(msg: Message, published: bool)

  /** Where the relay process stands in one ProcessPending call. */
  datatype Phase = Publishing | Committing | Gone

  /** What became of the claim's database transaction. Locks are held exactly while it is Live. */
  datatype Verdict = Live | RolledBack | Committed

  /** One claim: the rows it locked, how many of them the broker acknowledged so far. */
  datatype Claim = Claim(ids: seq<nat>, acked: nat, phase: Phase, verdict: Verdict) {
    function Acked(): seq<nat> {
      if acked <= |ids| then ids[..acked] else ids
    }
  }

  /** `acks` lists acknowledged publishes, `appended` lists the copies the broker stored, both in order. */
  datatype State = State(rows: map<nat, Row>, claims: seq<Claim>, acks: seq<nat>, appended: seq<nat>)

  datatype Action =
    | Enqueue(id: nat, msg: Message)                  // a domain transaction commits with its event
    | Take(ids: seq<nat>)                             // SELECT ... FOR UPDATE SKIP LOCKED
    | Publish(c: nat, copies: nat, ok: bool)          // one publish call; !ok with copies > 0 is ambiguous
    | Commit(c: nat)                                  // the server commits, whatever the relay hears of it
    | Rollback(c: nat)                                // the server rolls back, even while the relay publishes
    | Crash(c: nat)                                   // the relay dies; the server may not know yet

  function Init(): State { State(map[], [], [], []) }

  ghost predicate Locked(s: State, k: nat) {
    exists c :: 0 <= c < |s.claims| && s.claims[c].verdict == Live && k in s.claims[c].ids
  }

  ghost predicate Pending(s: State, k: nat) {
    k in s.rows && !s.rows[k].published
  }

  ghost predicate Enabled(s: State, a: Action) {
    match a
    case Enqueue(id, _) => id !in s.rows
    case Take(ids) => ids != [] && Ascending(ids) && forall k :: k in ids ==> Pending(s, k) && !Locked(s, k)
    case Publish(c, copies, ok) =>
      c < |s.claims| && s.claims[c].phase == Publishing && s.claims[c].acked < |s.claims[c].ids| && (ok ==> copies >= 1)
    case Commit(c) => c < |s.claims| && s.claims[c].verdict == Live && s.claims[c].phase == Committing
    case Rollback(c) => c < |s.claims| && s.claims[c].verdict == Live
    case Crash(c) => c < |s.claims|
  }

  function Copies(k: nat, n: nat): seq<nat> {
    seq(n, _ => k)
  }

  /** The loop of ProcessPending after one publish call: go on, or leave it with what was acknowledged. */
  function AfterPublish(c: Claim, ok: bool): Claim {
    if !ok then c.(phase := Committing)
    else c.(acked := c.acked + 1, phase := if c.acked + 1 >= |c.ids| then Committing else Publishing)
  }

  function Mark(rows: map<nat, Row>, ids: seq<nat>): map<nat, Row> {
    map k | k in rows :: if k in ids then rows[k].(published := true) else rows[k]
  }

  function Next(s: State, a: Action): State
    requires Enabled(s, a)
  {
    match a
    case Enqueue(id, msg) => s.(rows := s.rows[id := Row(msg, false)])
    case Take(ids) => s.(claims := s.claims + [Claim(ids, 0, Publishing, Live)])
    case Publish(c, copies, ok) =>
      var k := s.claims[c].ids[s.claims[c].acked];
      s.(claims := s.claims[c := AfterPublish(s.claims[c], ok)],
         acks := if ok then s.acks + [k] else s.acks,
         appended := s.appended + Copies(k, copies))
    case Commit(c) =>
      s.(rows := Mark(s.rows, s.claims[c].Acked()), claims := s.claims[c := s.claims[c].(phase := Gone, verdict := Committed)])
    case Rollback(c) =>
      var cl := s.claims[c];
      s.(claims := s.claims[c := cl.(phase := if cl.phase == Publishing then Publishing else Gone, verdict := RolledBack)])
    case Crash(c) => s.(claims := s.claims[c := s.claims[c].(phase := Gone)])
  }

  /** `t` is what `actions` make of `s`, each of them enabled when it happens. */
  ghost predicate Reaches(s: State, actions: seq<Action>, t: State)
    decreases |actions|
  {
    if actions == [] then s == t
    else Enabled(s, actions[0]) && Reaches(Next(s, actions[0]), actions[1..], t)
  }

  // ---- Accounting ----

  function Weight(c: Claim, k: nat, v: Verdict): nat {
    if c.verdict == v && k in c.Acked() then 1 else 0
  }

  /** How many claims with verdict `v` had row `k` acknowledged. */
  function Tally(claims: seq<Claim>, k: nat, v: Verdict): nat {
    if claims == [] then 0
    else Tally(claims[..|claims| - 1], k, v) + Weight(claims[|claims| - 1], k, v)
  }

  lemma {:induction false} TallyUpdate(claims: seq<Claim>, i: nat, c: Claim, k: nat, v: Verdict)
    requires i < |claims|
    ensures Tally(claims[i := c], k, v) == Tally(claims, k, v) - Weight(claims[i], k, v) + Weight(c, k, v)
  {
    var n := |claims| - 1;
    if i == n {
      assert claims[i := c][..n] == claims[..n];
    } else {
      assert claims[i := c][..n] == claims[..n][i := c];
      TallyUpdate(claims[..n], i, c, k, v);
    }
  }

  lemma TallyAppend(claims: seq<Claim>, c: Claim, k: nat, v: Verdict)
    ensures Tally(claims + [c], k, v) == Tally(claims, k, v) + Weight(c, k, v)
  {
    assert (claims + [c])[..|claims|] == claims;
  }

  lemma {:induction false} TallyZero(claims: seq<Claim>, k: nat, v: Verdict)
    requires forall i :: 0 <= i < |claims| ==> Weight(claims[i], k, v) == 0
    ensures Tally(claims, k, v) == 0
  {
    if claims != [] { TallyZero(claims[..|claims| - 1], k, v); }
  }

  /** If no two claims both count, the tally is at most one. */
  lemma {:induction false} TallyAtMostOne(claims: seq<Claim>, k: nat, v: Verdict)
    requires forall i, j :: 0 <= i < j < |claims| ==> Weight(claims[i], k, v) == 0 || Weight(claims[j], k, v) == 0
    ensures Tally(claims, k, v) <= 1
  {
    if claims != [] {
      var n := |claims| - 1;
      TallyAtMostOne(claims[..n], k, v);
      if Weight(claims[n], k, v) == 1 { TallyZero(claims[..n], k, v); }
    }
  }

  ghost predicate ClaimOk(s: State, c: Claim) {
    && Ascending(c.ids)
    && c.acked <= |c.ids|
    && (c.phase == Publishing ==> c.acked < |c.ids| && c.verdict != Committed)
    && (forall k :: k in c.ids ==> k in s.rows)
    && (c.verdict == Live ==> forall k :: k in c.ids ==> !s.rows[k].published)
  }

  /** Live claims hold disjoint locks. */
  ghost predicate LocksDisjoint(s: State) {
    forall i, j, k :: 0 <= i < j < |s.claims| && s.claims[i].verdict == Live && s.claims[j].verdict == Live ==>
      !(k in s.claims[i].ids && k in s.claims[j].ids)
  }

  ghost predicate Accounted(s: State, k: nat) {
    && Tally(s.claims, k, Committed) == (if k in s.rows && s.rows[k].published then 1 else 0)
    && multiset(s.acks)[k] == Tally(s.claims, k, Committed) + Tally(s.claims, k, RolledBack) + Tally(s.claims, k, Live)
    && multiset(s.acks)[k] <= multiset(s.appended)[k]
    && (k in s.appended ==> k in s.rows)
  }

  ghost predicate Inv(s: State) {
    && (forall i :: 0 <= i < |s.claims| ==> ClaimOk(s, s.claims[i]))
    && LocksDisjoint(s)
    && (forall k :: Accounted(s, k))
  }

  lemma CopiesCount(k: nat, n: nat, x: nat)
    ensures multiset(Copies(k, n))[x] == if x == k then n else 0
    ensures forall y :: y in Copies(k, n) ==> y == k
  {
    if n > 0 {
      assert Copies(k, n) == Copies(k, n - 1) + [k];
      CopiesCount(k, n - 1, x);
    }
  }

  lemma OneLiveClaim(s: State, k: nat)
    requires Inv(s)
    ensures Tally(s.claims, k, Live) <= 1
  {
    forall i, j | 0 <= i < j < |s.claims| ensures Weight(s.claims[i], k, Live) == 0 || Weight(s.claims[j], k, Live) == 0 {
      assert forall c: Claim :: k in c.Acked() ==> k in c.ids;
    }
    TallyAtMostOne(s.claims, k, Live);
  }

  lemma AckedIsRow(s: State, k: nat)
    requires Inv(s) && k in s.acks
    ensures k in s.rows
  {
    assert Accounted(s, k);
    assert k in multiset(s.acks);
    assert k in multiset(s.appended);
  }

  lemma EnqueueKeepsInv(s: State, a: Action)
    requires Inv(s) && Enabled(s, a) && a.Enqueue?
    ensures Inv(Next(s, a))
  {
    var t := Next(s, a);
    forall i | 0 <= i < |t.claims| ensures ClaimOk(t, t.claims[i]) {
      assert ClaimOk(s, s.claims[i]);
    }
    forall k ensures Accounted(t, k) { assert Accounted(s, k); }
  }

  lemma TakeAccounted(s: State, ids: seq<nat>, k: nat)
    requires Accounted(s, k) && Enabled(s, Take(ids))
    ensures Accounted(Next(s, Take(ids)), k)
  {
    var c := Claim(ids, 0, Publishing, Live);
    assert c.Acked() == [];
    TallyAppend(s.claims, c, k, Live);
    TallyAppend(s.claims, c, k, RolledBack);
    TallyAppend(s.claims, c, k, Committed);
  }

  lemma TakeKeepsInv(s: State, a: Action)
    requires Inv(s) && Enabled(s, a) && a.Take?
    ensures Inv(Next(s, a))
  {
    var t := Next(s, a);
    forall i | 0 <= i < |t.claims| ensures ClaimOk(t, t.claims[i]) {
      if i < |s.claims| { assert ClaimOk(s, s.claims[i]); }
    }
    forall k ensures Accounted(t, k) { TakeAccounted(s, a.ids, k); }
  }

  /** Swapping claim `i` for one with the new acknowledgements moves the three tallies accordingly. */
  lemma TalliesUpdate(claims: seq<Claim>, i: nat, c: Claim, k: nat)
    requires i < |claims|
    ensures forall v :: Tally(claims[i := c], k, v) == Tally(claims, k, v) - Weight(claims[i], k, v) + Weight(c, k, v)
  {
    forall v { TallyUpdate(claims, i, c, k, v); }
  }

  /** What one publish call does to a claim's share in the tallies of row `k`. */
  lemma PublishWeights(c: Claim, ok: bool, k: nat)
    requires Ascending(c.ids) && c.acked < |c.ids|
    ensures forall v :: Weight(AfterPublish(c, ok), k, v) == Weight(c, k, v) + if ok && v == c.verdict && k == c.ids[c.acked] then 1 else 0
  {
    var after := AfterPublish(c, ok);
    assert after.Acked() == if ok then c.Acked() + [c.ids[c.acked]] else c.Acked();
    assert c.ids[c.acked] !in c.Acked();
  }

  lemma PublishAccounted(s: State, a: Action, k: nat)
    requires Enabled(s, a) && a.Publish? && ClaimOk(s, s.claims[a.c]) && Accounted(s, k)
    ensures Accounted(Next(s, a), k)
  {
    var c := s.claims[a.c];
    PublishWeights(c, a.ok, k);
    TalliesUpdate(s.claims, a.c, AfterPublish(c, a.ok), k);
    CopiesCount(c.ids[c.acked], a.copies, k);
    assert c.ids[c.acked] in c.ids;
  }

  lemma PublishKeepsInv(s: State, a: Action)
    requires Inv(s) && Enabled(s, a) && a.Publish?
    ensures Inv(Next(s, a))
  {
    var t := Next(s, a);
    forall i | 0 <= i < |t.claims| ensures ClaimOk(t, t.claims[i]) {
      assert ClaimOk(s, s.claims[i]);
    }
    assert forall i :: 0 <= i < |t.claims| ==> t.claims[i].ids == s.claims[i].ids && t.claims[i].verdict == s.claims[i].verdict;
    assert LocksDisjoint(t);
    assert ClaimOk(s, s.claims[a.c]);
    forall k { PublishAccounted(s, a, k); }
  }

  lemma CommitKeepsInv(s: State, a: Action)
    requires Inv(s) && Enabled(s, a) && a.Commit?
    ensures Inv(Next(s, a))
  {
    var t := Next(s, a);
    var before, after := s.claims[a.c], t.claims[a.c];
    assert ClaimOk(s, before);
    forall i | 0 <= i < |t.claims| ensures ClaimOk(t, t.claims[i]) {
      assert ClaimOk(s, s.claims[i]);
      if i != a.c && s.claims[i].verdict == Live {
        forall k | k in s.claims[i].ids ensures !t.rows[k].published {
          assert k !in before.ids;
        }
      }
    }
    forall k ensures Accounted(t, k) {
      assert Accounted(s, k);
      TalliesUpdate(s.claims, a.c, after, k);
      if k in before.Acked() { assert k in before.ids; }
    }
  }

  lemma EndAccounted(s: State, a: Action, k: nat)
    requires Accounted(s, k) && Enabled(s, a) && (a.Rollback? || a.Crash?)
    ensures Accounted(Next(s, a), k)
  {
    TalliesUpdate(s.claims, a.c, Next(s, a).claims[a.c], k);
  }

  lemma EndKeepsInv(s: State, a: Action)
    requires Inv(s) && Enabled(s, a) && (a.Rollback? || a.Crash?)
    ensures Inv(Next(s, a))
  {
    var t := Next(s, a);
    forall i | 0 <= i < |t.claims| ensures ClaimOk(t, t.claims[i]) {
      assert ClaimOk(s, s.claims[i]);
    }
    forall k ensures Accounted(t, k) { EndAccounted(s, a, k); }
  }

  lemma StepKeepsInv(s: State, a: Action)
    requires Inv(s) && Enabled(s, a)
    ensures Inv(Next(s, a))
  {
    match a
    case Enqueue(_, _) => EnqueueKeepsInv(s, a);
    case Take(_) => TakeKeepsInv(s, a);
    case Publish(_, _, _) => PublishKeepsInv(s, a);
    case Commit(_) => CommitKeepsInv(s, a);
    case Rollback(_) => EndKeepsInv(s, a);
    case Crash(_) => EndKeepsInv(s, a);
  }

  lemma {:induction false} RunKeepsInv(s: State, actions: seq<Action>, t: State)
    requires Inv(s) && Reaches(s, actions, t)
    ensures Inv(t)
    decreases |actions|
  {
    if actions != [] {
      StepKeepsInv(s, actions[0]);
      RunKeepsInv(Next(s, actions[0]), actions[1..], t);
    }
  }

  /** Row `k`'s acknowledged publishes, in every reachable state, whatever the relays and the server did:
      one for its mark, one for each rolled-back claim that got it acknowledged, one for the live claim
      that did; and it has at most one live claim. */
  lemma DuplicateAccounting(actions: seq<Action>, t: State, k: nat)
    requires Reaches(Init(), actions, t)
    ensures multiset(t.acks)[k] ==
            (if k in t.rows && t.rows[k].published then 1 else 0) + Tally(t.claims, k, RolledBack) + Tally(t.claims, k, Live)
    ensures Tally(t.claims, k, Live) <= 1
    ensures forall i, j :: 0 <= i < j < |t.claims| && k in t.claims[i].ids && k in t.claims[j].ids ==>
      t.claims[i].verdict != Live || t.claims[j].verdict != Live
    ensures k in t.rows && t.rows[k].published ==> k in t.acks
    ensures multiset(t.acks)[k] <= multiset(t.appended)[k]
    ensures k in t.appended ==> k in t.rows
  {
    RunKeepsInv(Init(), actions, t);
    assert Accounted(t, k);
    OneLiveClaim(t, k);
  }

  /** A row that no transaction holding it ever rolled back is delivered at most once. */
  lemma ExactlyOnceWithoutRollback(actions: seq<Action>, t: State, k: nat)
    requires Reaches(Init(), actions, t)
    requires forall i :: 0 <= i < |t.claims| && k in t.claims[i].ids ==> t.claims[i].verdict != RolledBack
    ensures multiset(t.acks)[k] <= 1
    ensures k in t.rows && t.rows[k].published ==> multiset(t.acks)[k] == 1
  {
    RunKeepsInv(Init(), actions, t);
    assert Accounted(t, k);
    DuplicateAccounting(actions, t, k);
    TallyZero(t.claims, k, RolledBack);
    if k in t.rows && t.rows[k].published {
      forall i | 0 <= i < |t.claims| ensures Weight(t.claims[i], k, Live) == 0 { assert ClaimOk(t, t.claims[i]); }
      TallyZero(t.claims, k, Live);
    }
  }
}
