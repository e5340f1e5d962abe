/** In which order the outbox reaches the broker. */
module OutboxOrder {
  import opened Ids
  import opened OutboxProtocol

  /** Every acknowledged publish comes after one of every visible row with a smaller id. */
  ghost predicate PrefixOrdered(s: State) {
    forall j, k :: 0 <= j < |s.acks| && k in s.rows && k < s.acks[j] ==> k in s.acks[..j]
  }

  /** What SKIP LOCKED does to ORDER BY id LIMIT n: only locked rows are passed over. */
  ghost predicate PassesOnlyLocked(s: State, ids: seq<nat>) {
    forall k, i :: 0 <= i < |ids| && Pending(s, k) && !Locked(s, k) && k < ids[i] ==> k in ids
  }

  ghost predicate NothingLive(s: State) {
    forall i :: 0 <= i < |s.claims| ==> s.claims[i].verdict != Live
  }

  /** Another transaction still holds the lock on a row that was never acknowledged, below the last row claimed. */
  ghost predicate Overtakes(s: State, ids: seq<nat>) {
    ids != [] && exists k :: Locked(s, k) && k !in s.acks && k < ids[|ids| - 1]
  }

  /** The claim passes over a row that was never acknowledged, to take a later one. */
  ghost predicate SkipsUnacked(s: State, ids: seq<nat>) {
    exists k, i :: 0 <= i < |ids| && k in s.rows && k < ids[i] && k !in ids && k !in s.acks
  }

  /** A new row's id is above whatever was acknowledged and whatever is claimed for publishing. */
  ghost predicate VisibleInTime(s: State, a: Action) {
    a.Enqueue? ==>
      && (forall k :: k in s.acks ==> k < a.id)
      && (forall i, k :: 0 <= i < |s.claims| && s.claims[i].phase == Publishing && k in s.claims[i].ids ==> k < a.id)
  }

  ghost predicate Orderly(s: State, a: Action) {
    VisibleInTime(s, a) && (a.Take? ==> PassesOnlyLocked(s, a.ids) && !Overtakes(s, a.ids))
  }

  /** What a relay on its own does: it claims once no transaction is open at the server. */
  ghost predicate Alone(s: State, a: Action) {
    VisibleInTime(s, a) && (a.Take? ==> PassesOnlyLocked(s, a.ids) && NothingLive(s))
  }

  ghost predicate OrderlyRun(s: State, actions: seq<Action>)
    decreases |actions|
  {
    actions != [] ==> Enabled(s, actions[0]) && Orderly(s, actions[0]) && OrderlyRun(Next(s, actions[0]), actions[1..])
  }

  ghost predicate LoneRun(s: State, actions: seq<Action>)
    decreases |actions|
  {
    actions != [] ==> Enabled(s, actions[0]) && Alone(s, actions[0]) && LoneRun(Next(s, actions[0]), actions[1..])
  }

  /** A claim skips an unacknowledged row exactly when another transaction's lock hides one from it. */
  lemma SkipsExactlyByLocks(s: State, ids: seq<nat>)
    requires Inv(s) && Enabled(s, Take(ids)) && PassesOnlyLocked(s, ids)
    ensures SkipsUnacked(s, ids) <==> Overtakes(s, ids)
  {
    var last := |ids| - 1;
    if SkipsUnacked(s, ids) {
      var k, i :| 0 <= i < |ids| && k in s.rows && k < ids[i] && k !in ids && k !in s.acks;
      assert ids[i] <= ids[last];
      UnackedIsPending(s, k);
      assert Locked(s, k);
    }
    if Overtakes(s, ids) {
      var k :| Locked(s, k) && k !in s.acks && k < ids[last];
      LockedIsRow(s, k);
    }
  }

  lemma UnackedIsPending(s: State, k: nat)
    requires Inv(s) && k in s.rows && k !in s.acks
    ensures Pending(s, k)
  {
    assert Accounted(s, k);
  }

  lemma LockedIsRow(s: State, k: nat)
    requires Inv(s) && Locked(s, k)
    ensures k in s.rows
  {
    var c :| 0 <= c < |s.claims| && s.claims[c].verdict == Live && k in s.claims[c].ids;
    assert ClaimOk(s, s.claims[c]);
  }

  /** What a claim still publishing may rely on. */
  ghost predicate InTurn(s: State, c: Claim) {
    && (forall i :: 0 <= i < c.acked && i < |c.ids| ==> c.ids[i] in s.acks)
    && (forall k, i :: 0 <= i < |c.ids| && k in s.rows && k < c.ids[i] ==> k in s.acks || k in c.ids)
  }

  ghost predicate OrderInv(s: State) {
    && Inv(s)
    && PrefixOrdered(s)
    && (forall i :: 0 <= i < |s.claims| && s.claims[i].phase == Publishing ==> InTurn(s, s.claims[i]))
  }

  lemma PublishInTurn(s: State, a: Action)
    requires OrderInv(s) && Enabled(s, a) && a.Publish?
    ensures PrefixOrdered(Next(s, a))
  {
    var t := Next(s, a);
    var c := s.claims[a.c];
    assert InTurn(s, c) && ClaimOk(s, c);
    forall j, k | 0 <= j < |t.acks| && k in t.rows && k < t.acks[j] ensures k in t.acks[..j] {
      if j < |s.acks| {
        assert t.acks[..j] == s.acks[..j];
      } else {
        assert t.acks[..j] == s.acks && t.acks[j] == c.ids[c.acked];
        assert k in c.ids ==> k in c.ids[..c.acked] by {
          if k in c.ids {
            var i :| 0 <= i < |c.ids| && c.ids[i] == k;
            assert c.ids[..c.acked][i] == k;
          }
        }
      }
    }
  }

  lemma OtherKeepsPrefix(s: State, a: Action)
    requires OrderInv(s) && Enabled(s, a) && Orderly(s, a) && !a.Publish?
    ensures PrefixOrdered(Next(s, a))
  {
    var t := Next(s, a);
    assert t.acks == s.acks;
    forall j, k | 0 <= j < |t.acks| && k in t.rows && k < t.acks[j] ensures k in t.acks[..j] {
      assert s.acks[j] in s.acks;
      AckedIsRow(s, s.acks[j]);
    }
  }

  lemma OldClaimInTurn(s: State, a: Action, i: nat)
    requires Enabled(s, a) && VisibleInTime(s, a) && i < |s.claims| && ClaimOk(s, s.claims[i])
    requires s.claims[i].phase == Publishing ==> InTurn(s, s.claims[i])
    ensures Next(s, a).claims[i].phase == Publishing ==> InTurn(Next(s, a), Next(s, a).claims[i])
  {
    var c := s.claims[i];
    assert forall n :: 0 <= n < |c.ids| ==> c.ids[n] in c.ids;
  }

  lemma NewClaimInTurn(s: State, ids: seq<nat>)
    requires Enabled(s, Take(ids)) && !SkipsUnacked(s, ids)
    ensures InTurn(Next(s, Take(ids)), Next(s, Take(ids)).claims[|s.claims|])
  {
  }

  lemma StepKeepsOrder(s: State, a: Action)
    requires OrderInv(s) && Enabled(s, a) && Orderly(s, a)
    ensures OrderInv(Next(s, a))
  {
    StepKeepsInv(s, a);
    if a.Take? { SkipsExactlyByLocks(s, a.ids); }
    if a.Publish? { PublishInTurn(s, a); } else { OtherKeepsPrefix(s, a); }
    forall i | 0 <= i < |Next(s, a).claims| && Next(s, a).claims[i].phase == Publishing
      ensures InTurn(Next(s, a), Next(s, a).claims[i])
    {
      if i < |s.claims| { OldClaimInTurn(s, a, i); } else { NewClaimInTurn(s, a.ids); }
    }
  }

  lemma {:induction false} RunKeepsOrder(s: State, actions: seq<Action>, t: State)
    requires OrderInv(s) && OrderlyRun(s, actions) && Reaches(s, actions, t)
    ensures OrderInv(t)
    decreases |actions|
  {
    if actions != [] {
      StepKeepsOrder(s, actions[0]);
      RunKeepsOrder(Next(s, actions[0]), actions[1..], t);
    }
  }

  /** Prefix order over whole runs, with crashes, failed publishes, lost locks and any number of relays, as long as
      rows become visible in time and no claim overtakes an unacknowledged row that another one still locks. */
  lemma PrefixOrder(actions: seq<Action>, t: State)
    requires OrderlyRun(Init(), actions) && Reaches(Init(), actions, t)
    ensures PrefixOrdered(t)
  {
    RunKeepsOrder(Init(), actions, t);
  }

  /** Hence rows are first delivered in ascending id order. */
  lemma FirstDeliveriesAscend(actions: seq<Action>, t: State, i: nat, j: nat)
    requires OrderlyRun(Init(), actions) && Reaches(Init(), actions, t)
    requires i < j < |t.acks| && t.acks[i] !in t.acks[..i] && t.acks[j] !in t.acks[..j]
    ensures t.acks[i] < t.acks[j]
  {
    RunKeepsOrder(Init(), actions, t);
    assert t.acks[i] in t.acks && t.acks[j] in t.acks;
    AckedIsRow(t, t.acks[j]);
    assert t.acks[..j][i] == t.acks[i];
    assert t.acks[..i] == t.acks[..j][..i];
    assert forall k :: k in t.acks[..i] ==> k in t.acks[..j];
    assert t.acks[i] in t.acks[..j];
  }

  lemma {:induction false} LoneRunIsOrderly(s: State, actions: seq<Action>)
    requires LoneRun(s, actions)
    ensures OrderlyRun(s, actions)
    decreases |actions|
  {
    if actions != [] { LoneRunIsOrderly(Next(s, actions[0]), actions[1..]); }
  }

  /** One relay that claims only once its previous transaction is over at the server, over all its runs, with crashes,
      failed and unheard commits, ambiguous publishes and restarts: prefix order, and first deliveries in id order. */
  lemma SingleRelayOrder(actions: seq<Action>, t: State)
    requires LoneRun(Init(), actions) && Reaches(Init(), actions, t)
    ensures PrefixOrdered(t)
    ensures forall i, j :: 0 <= i < j < |t.acks| && t.acks[i] !in t.acks[..i] && t.acks[j] !in t.acks[..j] ==> t.acks[i] < t.acks[j]
  {
    LoneRunIsOrderly(Init(), actions);
    PrefixOrder(actions, t);
    forall i, j | 0 <= i < j < |t.acks| && t.acks[i] !in t.acks[..i] && t.acks[j] !in t.acks[..j] ensures t.acks[i] < t.acks[j] {
      FirstDeliveriesAscend(actions, t, i, j);
    }
  }

  /** The claim publishes all its remaining rows and the broker acknowledges each of them. */
  ghost function AckRest(s: State, c: nat): State
    requires c < |s.claims|
    requires s.claims[c].phase == Publishing ==> s.claims[c].acked < |s.claims[c].ids|
    decreases if s.claims[c].phase == Publishing then |s.claims[c].ids| - s.claims[c].acked else 0
  {
    if s.claims[c].phase != Publishing then s else AckRest(Next(s, Publish(c, 1, true)), c)
  }

  lemma AckOne(s: State, c: nat)
    requires c < |s.claims| && s.claims[c].phase == Publishing && s.claims[c].acked < |s.claims[c].ids|
    ensures var t := Next(s, Publish(c, 1, true));
            && t.acks == s.acks + [s.claims[c].ids[s.claims[c].acked]] && t.rows == s.rows
            && c < |t.claims| && t.claims[c] == AfterPublish(s.claims[c], true)
            && AckRest(s, c) == AckRest(t, c)
            && (t.claims[c].phase != Publishing ==> AckRest(t, c) == t)
  {
  }

  lemma TailStep(acks: seq<nat>, ids: seq<nat>, n: nat)
    requires n < |ids|
    ensures (acks + [ids[n]]) + ids[n + 1..] == acks + ids[n..]
    ensures n + 1 == |ids| ==> acks + [ids[n]] == acks + ids[n..]
  {
  }

  lemma {:induction false} AckRestAcks(s: State, c: nat)
    requires c < |s.claims| && s.claims[c].phase == Publishing && s.claims[c].acked < |s.claims[c].ids|
    ensures AckRest(s, c).acks == s.acks + s.claims[c].ids[s.claims[c].acked..]
    ensures AckRest(s, c).rows == s.rows
    decreases |s.claims[c].ids| - s.claims[c].acked
  {
    var ids, n := s.claims[c].ids, s.claims[c].acked;
    var t := Next(s, Publish(c, 1, true));
    AckOne(s, c);
    TailStep(s.acks, ids, n);
    if n + 1 < |ids| { AckRestAcks(t, c); }
  }

  lemma {:induction false} AckRestKeepsOrder(s: State, c: nat)
    requires OrderInv(s) && c < |s.claims|
    requires s.claims[c].phase == Publishing ==> s.claims[c].acked < |s.claims[c].ids|
    ensures PrefixOrdered(AckRest(s, c))
    decreases if s.claims[c].phase == Publishing then |s.claims[c].ids| - s.claims[c].acked else 0
  {
    if s.claims[c].phase == Publishing {
      StepKeepsOrder(s, Publish(c, 1, true));
      AckRestKeepsOrder(Next(s, Publish(c, 1, true)), c);
    }
  }

  /** The condition is exact, and about the locks that others hold when the claim is made: its rows can all be published
      in order if and only if it overtakes no unacknowledged row. */
  lemma ClaimOrderExact(s: State, ids: seq<nat>)
    requires OrderInv(s) && Enabled(s, Take(ids)) && PassesOnlyLocked(s, ids)
    ensures PrefixOrdered(AckRest(Next(s, Take(ids)), |s.claims|)) <==> !Overtakes(s, ids)
  {
    SkipsExactlyByLocks(s, ids);
    var c := |s.claims|;
    var t := Next(s, Take(ids));
    if !SkipsUnacked(s, ids) {
      StepKeepsOrder(s, Take(ids));
      AckRestKeepsOrder(t, c);
    } else {
      var k, i :| 0 <= i < |ids| && k in s.rows && k < ids[i] && k !in ids && k !in s.acks;
      AckRestAcks(t, c);
      var u := AckRest(t, c);
      assert u.acks == s.acks + ids;
      assert u.acks[|s.acks| + i] == ids[i];
      assert u.acks[..|s.acks| + i] == s.acks + ids[..i];
      assert k !in u.acks[..|s.acks| + i];
    }
  }

  /** Row 1 stays locked by a relay that died, row 2 is pending. */
  function Orphaned(m: Message): State {
    State(map[1 := Row(m, false), 2 := Row(m, false)], [Claim([1], 0, Gone, Live)], [], [])
  }

  lemma OrphanedIsReachable(m: Message)
    ensures Reaches(Init(), [Enqueue(1, m), Take([1]), Crash(0), Enqueue(2, m)], Orphaned(m))
  {
    var s1 := State(map[1 := Row(m, false)], [], [], []);
    var s2 := s1.(claims := [Claim([1], 0, Publishing, Live)]);
    var s3 := s1.(claims := [Claim([1], 0, Gone, Live)]);
    var a := [Enqueue(1, m), Take([1]), Crash(0), Enqueue(2, m)];
    assert Next(Init(), a[0]) == s1 && Next(s1, a[1]) == s2 && Next(s2, a[2]) == s3 && Next(s3, a[3]) == Orphaned(m);
    assert a[3..][1..] == [] && a[2..][1..] == a[3..] && a[1..][1..] == a[2..];
    assert Reaches(s3, a[3..], Orphaned(m));
    assert Reaches(s2, a[2..], Orphaned(m));
    assert Reaches(s1, a[1..], Orphaned(m));
  }

  /** One relay is not enough for order. It claims row 1 and dies; the server still holds the lock, so the
      restarted relay's claim passes over row 1 as SKIP LOCKED says, and publishes row 2 first. */
  lemma OrphanedLockReorders(m: Message) returns (t: State)
    ensures Reaches(Init(), [Enqueue(1, m), Take([1]), Crash(0), Enqueue(2, m)], Orphaned(m))
    ensures PassesOnlyLocked(Orphaned(m), [2])
    ensures Reaches(Orphaned(m), [Take([2]), Publish(1, 1, true)], t)
    ensures !PrefixOrdered(t)
  {
    OrphanedIsReachable(m);
    var s := Orphaned(m);
    assert Locked(s, 1) by { assert 1 in s.claims[0].ids; }
    assert !Locked(s, 2);
    var u := Next(s, Take([2]));
    t := Next(u, Publish(1, 1, true));
    var a := [Take([2]), Publish(1, 1, true)];
    assert a[1..][1..] == [] && a[1..][0] == Publish(1, 1, true);
    assert Reaches(u, a[1..], t);
    assert t.acks == [2] && 1 in t.rows && 1 !in t.acks[..0];
  }
}
