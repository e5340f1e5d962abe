/** The relay's code is one of the behaviours of the interleaved protocol: what ProcessPending, drain and Run do to the
    table and the broker is a run of protocol steps, so the protocol's guarantees are the code's. */
module OutboxRefinement {
  import opened Wrappers
  import opened Sequences
  import opened Ids
  import opened OutboxProtocol
  import opened OutboxOrder
  import opened OutboxRelay

  function Messages(rows: map<nat, Row>, ids: seq<nat>): seq<Message>
    requires forall k :: k in ids ==> k in rows
  {
    seq(|ids|, i requires 0 <= i < |ids| => rows[ids[i]].msg)
  }

  /** `actions` lead from `s` to `t`, and keep order if `orderly`. */
  ghost predicate Leads(s: State, actions: seq<Action>, t: State, orderly: bool) {
    Reaches(s, actions, t) && (orderly ==> OrderlyRun(s, actions))
  }

  lemma {:induction false} LeadsOn(s: State, a: seq<Action>, t: State, b: seq<Action>, u: State, orderly: bool)
    requires Leads(s, a, t, orderly) && Leads(t, b, u, orderly)
    ensures Leads(s, a + b, u, orderly)
    decreases |a|
  {
    if a == [] {
      assert a + b == b;
    } else {
      LeadsOn(Next(s, a[0]), a[1..], t, b, u, orderly);
      assert (a + b)[1..] == a[1..] + b;
    }
  }

  lemma StepLeads(s: State, a: Action)
    requires Enabled(s, a)
    ensures Leads(s, [a], Next(s, a), Orderly(s, a))
  {
    assert Reaches(Next(s, a), [], Next(s, a)) && OrderlyRun(Next(s, a), []);
    assert [a][1..] == [];
  }

  // ---- One publish loop ----

  function Settle(c: Claim, w: Walked): Claim {
    c.(acked := c.acked + |w.acked|, phase := if w.failed || c.acked + |w.acked| >= |c.ids| then Committing else Publishing)
  }

  function PublishAction(c: nat, r: Reply): Action {
    Publish(c, Stored(r), r.Acked?)
  }

  /** Claim `c` may publish, and the broker holds copies of rows only. */
  ghost predicate Ready(s: State, c: nat) {
    && c < |s.claims| && s.claims[c].phase == Publishing && s.claims[c].acked < |s.claims[c].ids|
    && (forall k :: k in s.claims[c].ids ==> k in s.rows)
    && (forall k :: k in s.appended ==> k in s.rows)
  }

  lemma OnePublish(s: State, c: nat, r: Reply)
    requires Ready(s, c)
    ensures var a := PublishAction(c, r);
            var u := Next(s, a);
            var k := s.claims[c].ids[s.claims[c].acked];
            && Enabled(s, a)
            && u.rows == s.rows && (forall x :: x in u.appended ==> x in u.rows)
            && Messages(u.rows, u.appended) == Messages(s.rows, s.appended) + Repeat(s.rows[k].msg, Stored(r))
            && u.acks == (if r.Acked? then s.acks + [k] else s.acks)
            && u.claims == s.claims[c := AfterPublish(s.claims[c], r.Acked?)]
  {
    var k := s.claims[c].ids[s.claims[c].acked];
    var a := PublishAction(c, r);
    assert k in s.claims[c].ids;
    var u := Next(s, a);
    assert u.appended == s.appended + Copies(k, Stored(r));
  }

  /** `t` is `s` once claim `c` has gone through its loop as the walk `w` says. */
  ghost predicate Looped(s: State, c: nat, w: Walked, t: State)
    requires Ready(s, c)
  {
    && (forall k :: k in t.appended ==> k in t.rows)
    && t.rows == s.rows && t.acks == s.acks + w.acked
    && Messages(t.rows, t.appended) == Messages(s.rows, s.appended) + w.log
    && t.claims == s.claims[c := Settle(s.claims[c], w)]
  }

  /** What the loop does over the claim's rows before `upto` that are not acknowledged yet. */
  ghost function RestOfWalk(s: State, c: nat, upto: nat, replies: seq<Reply>): Walked
    requires Ready(s, c) && s.claims[c].acked <= upto <= |s.claims[c].ids|
  {
    Walk(s.rows, s.claims[c].ids[s.claims[c].acked..upto], replies)
  }

  lemma LastWalkStep(rows: map<nat, Row>, ids: seq<nat>, replies: seq<Reply>)
    requires ids != [] && ids[0] in rows && (forall k :: k in ids ==> k in rows)
    requires NextReply(replies).Failed? || |ids| == 1
    ensures var r := NextReply(replies);
            Walk(rows, ids, replies) == Walked(if r.Failed? then [] else [ids[0]], Repeat(rows[ids[0]].msg, Stored(r)), r.Failed?,
                                               LaterReplies(replies))
  {
    var sent := Repeat(rows[ids[0]].msg, Stored(NextReply(replies)));
    assert sent + [] == sent && [ids[0]] + [] == [ids[0]];
    if |ids| == 1 { assert ids[1..] == []; }
  }

  lemma LastPublish(s: State, c: nat, upto: nat, replies: seq<Reply>)
    requires Ready(s, c) && s.claims[c].acked < upto <= |s.claims[c].ids|
    requires NextReply(replies).Failed? || s.claims[c].acked + 1 == upto
    ensures Looped(s, c, RestOfWalk(s, c, upto, replies), Next(s, PublishAction(c, NextReply(replies))))
  {
    var ids, n := s.claims[c].ids, s.claims[c].acked;
    OnePublish(s, c, NextReply(replies));
    assert ids[n..upto][0] == ids[n];
    assert forall k :: k in ids[n..upto] ==> k in ids;
    LastWalkStep(s.rows, ids[n..upto], replies);
  }

  lemma WalkHead(rows: map<nat, Row>, ids: seq<nat>, replies: seq<Reply>)
    requires ids != [] && (forall k :: k in ids ==> k in rows) && NextReply(replies).Acked?
    ensures var w := Walk(rows, ids[1..], LaterReplies(replies));
            Walk(rows, ids, replies)
            == Walked([ids[0]] + w.acked, Repeat(rows[ids[0]].msg, Stored(NextReply(replies))) + w.log, w.failed, w.rest)
  {
  }

  /** A claim that acknowledged one row and then went through its loop went through its loop. */
  lemma LoopedOn(s: State, c: nat, r: Reply, w: Walked, t: State)
    requires Ready(s, c) && r.Acked? && s.claims[c].acked + 1 < |s.claims[c].ids|
    requires var u := Next(s, PublishAction(c, r)); Ready(u, c) && Looped(u, c, w, t)
    ensures var k := s.claims[c].ids[s.claims[c].acked];
            Looped(s, c, Walked([k] + w.acked, Repeat(s.rows[k].msg, Stored(r)) + w.log, w.failed, w.rest), t)
  {
    OnePublish(s, c, r);
    var k := s.claims[c].ids[s.claims[c].acked];
    Assoc(s.acks, [k], w.acked);
    Assoc(Messages(s.rows, s.appended), Repeat(s.rows[k].msg, Stored(r)), w.log);
  }

  lemma MorePublishes(s: State, c: nat, upto: nat, replies: seq<Reply>, t: State)
    requires Ready(s, c) && NextReply(replies).Acked? && s.claims[c].acked + 1 < upto <= |s.claims[c].ids|
    ensures var u := Next(s, PublishAction(c, NextReply(replies)));
            && Ready(u, c) && u.claims[c].acked == s.claims[c].acked + 1 && u.claims[c].ids == s.claims[c].ids
            && (Looped(u, c, RestOfWalk(u, c, upto, LaterReplies(replies)), t) ==> Looped(s, c, RestOfWalk(s, c, upto, replies), t))
  {
    var ids, n := s.claims[c].ids, s.claims[c].acked;
    var u := Next(s, PublishAction(c, NextReply(replies)));
    OnePublish(s, c, NextReply(replies));
    assert ids[n..upto][1..] == ids[n + 1..upto] && ids[n..upto][0] == ids[n];
    assert forall k :: k in ids[n..upto] ==> k in ids;
    WalkHead(s.rows, ids[n..upto], replies);
    var w := RestOfWalk(u, c, upto, LaterReplies(replies));
    if Looped(u, c, w, t) { LoopedOn(s, c, NextReply(replies), w, t); }
  }

  lemma NoPublish(s: State, c: nat, replies: seq<Reply>)
    requires Ready(s, c)
    ensures Looped(s, c, RestOfWalk(s, c, s.claims[c].acked, replies), s)
  {
    var w := RestOfWalk(s, c, s.claims[c].acked, replies);
    assert w == Walked([], [], false, replies);
    assert s.acks + [] == s.acks && Messages(s.rows, s.appended) + [] == Messages(s.rows, s.appended);
  }

  /** The publish loop over a claim's rows before `upto`, as protocol steps. */
  lemma {:induction false} LoopIsRun(s: State, c: nat, upto: nat, replies: seq<Reply>) returns (actions: seq<Action>, t: State)
    requires Ready(s, c) && s.claims[c].acked <= upto <= |s.claims[c].ids|
    ensures Leads(s, actions, t, true) && Looped(s, c, RestOfWalk(s, c, upto, replies), t)
    decreases upto - s.claims[c].acked
  {
    if s.claims[c].acked == upto {
      NoPublish(s, c, replies);
      actions, t := [], s;
    } else {
      var r := NextReply(replies);
      var a := PublishAction(c, r);
      StepLeads(s, a);
      var u := Next(s, a);
      if r.Failed? || s.claims[c].acked + 1 == upto {
        LastPublish(s, c, upto, replies);
        actions, t := [a], u;
      } else {
        MorePublishes(s, c, upto, replies, u);
        var more, v := LoopIsRun(u, c, upto, LaterReplies(replies));
        LeadsOn(s, [a], u, more, v, true);
        MorePublishes(s, c, upto, replies, v);
        actions, t := [a] + more, v;
      }
    }
  }

  // ---- The protocol state behind the relay's world ----

  /** Claim `c` is the open transaction `o`. */
  ghost predicate Owns(s: State, c: nat, o: Open) {
    c < |s.claims| && s.claims[c].verdict == Live && s.claims[c].ids == o.ids && s.claims[c].Acked() == o.acked
    && (o.asked ==> s.claims[c].phase == Committing)
  }

  /** The live claims are the open transactions, and none of them is publishing: `owners` says which is which. */
  ghost predicate OwnersOk(s: State, open: seq<Open>, owners: seq<nat>) {
    && |owners| == |open|
    && (forall i :: 0 <= i < |open| ==> Owns(s, owners[i], open[i]))
    && (forall i, j :: 0 <= i < j < |owners| ==> owners[i] != owners[j])
    && (forall c :: 0 <= c < |s.claims| && s.claims[c].verdict == Live ==> c in owners)
    && (forall c :: 0 <= c < |s.claims| ==> s.claims[c].phase != Publishing)
  }

  /** Same table, same acknowledgements, same messages at the broker, same open transactions. */
  ghost predicate Behind(s: State, w: World, owners: seq<nat>) {
    && Inv(s) && OwnersOk(s, w.open, owners)
    && s.rows == w.rows && s.acks == w.acked
    && (forall k :: k in s.rows ==> k < w.nextId)
    && (forall k :: k in s.appended ==> k in s.rows) && Messages(s.rows, s.appended) == w.log
  }

  lemma LocksAgree(s: State, open: seq<Open>, owners: seq<nat>, k: nat)
    requires OwnersOk(s, open, owners)
    ensures Locked(s, k) <==> LockedIn(open, k)
  {
    if Locked(s, k) {
      var c :| 0 <= c < |s.claims| && s.claims[c].verdict == Live && k in s.claims[c].ids;
      var i :| 0 <= i < |owners| && owners[i] == c;
      assert Owns(s, owners[i], open[i]);
    }
    if LockedIn(open, k) {
      var i :| 0 <= i < |open| && k in open[i].ids;
      assert Owns(s, owners[i], open[i]);
    }
  }

  // ---- What happens between the calls ----

  lemma WriteIsRun(s: State, w: World, owners: seq<nat>, m: Message) returns (t: State)
    requires Behind(s, w, owners)
    ensures Leads(s, [Enqueue(w.nextId, m)], t, true) && Behind(t, Happen(w, Written(m)), owners)
  {
    var a := Enqueue(w.nextId, m);
    forall k | k in s.acks ensures k < w.nextId { AckedIsRow(s, k); }
    StepLeads(s, a);
    StepKeepsInv(s, a);
    t := Next(s, a);
    assert Messages(t.rows, t.appended) == Messages(s.rows, s.appended);
    forall i | 0 <= i < |w.open| ensures Owns(t, owners[i], w.open[i]) { assert Owns(s, owners[i], w.open[i]); }
  }

  function Dropped<T>(s: seq<T>, i: nat): seq<T>
    requires i < |s|
  {
    s[..i] + s[i + 1..]
  }

  lemma DroppedAt<T>(s: seq<T>, i: nat, j: nat)
    requires i < |s| && j + 1 < |s|
    ensures |Dropped(s, i)| == |s| - 1 && Dropped(s, i)[j] == s[if j < i then j else j + 1]
  {
  }

  lemma DroppedOwners(s: State, open: seq<Open>, owners: seq<nat>, i: nat, t: State)
    requires OwnersOk(s, open, owners) && i < |open|
    requires |t.claims| == |s.claims| && forall c :: 0 <= c < |s.claims| && c != owners[i] ==> t.claims[c] == s.claims[c]
    requires t.claims[owners[i]].verdict != Live && t.claims[owners[i]].phase != Publishing
    ensures OwnersOk(t, Dropped(open, i), Dropped(owners, i))
  {
    var open', owners' := Dropped(open, i), Dropped(owners, i);
    forall j | 0 <= j < |open'| ensures Owns(t, owners'[j], open'[j]) {
      DroppedAt(open, i, j);
      DroppedAt(owners, i, j);
      var j' := if j < i then j else j + 1;
      assert Owns(s, owners[j'], open[j']) && owners[j'] != owners[i];
    }
    forall j, k | 0 <= j < k < |owners'| ensures owners'[j] != owners'[k] {
      DroppedAt(owners, i, j);
      DroppedAt(owners, i, k);
    }
    forall c | 0 <= c < |t.claims| && t.claims[c].verdict == Live ensures c in owners' {
      LiveStaysOwned(s, open, owners, i, c);
    }
  }

  lemma LiveStaysOwned(s: State, open: seq<Open>, owners: seq<nat>, i: nat, c: nat)
    requires OwnersOk(s, open, owners) && i < |owners| && c < |s.claims| && s.claims[c].verdict == Live && c != owners[i]
    ensures c in Dropped(owners, i)
  {
    var j :| 0 <= j < |owners| && owners[j] == c;
    var j' := if j < i then j else j - 1;
    DroppedAt(owners, i, j');
    assert Dropped(owners, i)[j'] == c;
  }

  /** The server ends an open transaction either way. */
  lemma SettleIsRun(s: State, w: World, owners: seq<nat>, i: nat, commit: bool) returns (a: Action, t: State)
    requires Behind(s, w, owners) && i < |w.open|
    ensures Leads(s, [a], t, true) && Behind(t, Happen(w, Settled(i, commit)), Dropped(owners, i))
  {
    var c, o := owners[i], w.open[i];
    assert Owns(s, c, o);
    a := if commit && o.asked then Action.Commit(c) else Action.Rollback(c);
    StepLeads(s, a);
    StepKeepsInv(s, a);
    t := Next(s, a);
    DroppedOwners(s, w.open, owners, i, t);
    assert Messages(t.rows, t.appended) == Messages(s.rows, s.appended);
  }

  lemma HappenIsRun(s: State, w: World, owners: seq<nat>, h: Happening) returns (actions: seq<Action>, t: State, owners': seq<nat>)
    requires Behind(s, w, owners)
    ensures Leads(s, actions, t, true) && Behind(t, Happen(w, h), owners')
  {
    match h
    case Written(m) =>
      t := WriteIsRun(s, w, owners, m);
      actions, owners' := [Enqueue(w.nextId, m)], owners;
    case Settled(i, commit) =>
      if i < |w.open| {
        var a: Action;
        a, t := SettleIsRun(s, w, owners, i, commit);
        actions, owners' := [a], Dropped(owners, i);
      } else {
        actions, t, owners' := [], s, owners;
      }
  }

  lemma {:induction false} HappenAllIsRun(s: State, w: World, owners: seq<nat>, hs: seq<Happening>)
    returns (actions: seq<Action>, t: State, owners': seq<nat>)
    requires Behind(s, w, owners)
    ensures Leads(s, actions, t, true) && Behind(t, HappenAll(w, hs), owners')
    decreases |hs|
  {
    if hs == [] {
      actions, t, owners' := [], s, owners;
    } else {
      var u;
      actions, u, owners' := HappenIsRun(s, w, owners, hs[0]);
      var more;
      more, t, owners' := HappenAllIsRun(u, Happen(w, hs[0]), owners', hs[1..]);
      LeadsOn(s, actions, u, more, t, true);
      actions := actions + more;
    }
  }

  // ---- One call ----

  /** The claim overtakes a row that was never acknowledged and that an open transaction locks. */
  ghost predicate Overtaking(open: seq<Open>, acked: seq<nat>, ids: seq<nat>) {
    ids != [] && exists k :: LockedIn(open, k) && k !in acked && k < ids[|ids| - 1]
  }

  /** The rows a call has locked, if the server keeps its SELECT. */
  function Claimed(v: World, limit: int, fault: DbFault): seq<nat> {
    if fault.BeginFails? || limit < 0 || (fault.SelectFails? && !fault.stays) then [] else FirstN(ClaimableIn(v), limit)
  }

  /** The claim of the next call overtakes nothing. */
  ghost predicate CallInTurn(w: World, limit: int) {
    !Overtaking(Prepared(w).open, Prepared(w).acked, Claimed(Prepared(w), limit, FaultOf(w)))
  }

  /** The first ids of an ascending sequence hold all its smaller ones. */
  lemma PrefixHoldsSmaller(all: seq<nat>, limit: nat, k: nat, i: nat)
    requires Ascending(all) && k in all && i < |FirstN(all, limit)| && k < FirstN(all, limit)[i]
    ensures k in FirstN(all, limit)
  {
    FirstNIsPrefix(all, limit);
    var ids := FirstN(all, limit);
    var j :| 0 <= j < |all| && all[j] == k;
    assert j < i;
    assert ids[j] == k;
  }

  lemma PrefixAscends(all: seq<nat>, limit: nat)
    requires Ascending(all)
    ensures Ascending(FirstN(all, limit))
  {
    FirstNIsPrefix(all, limit);
  }

  lemma ClaimTake(s: State, v: World, owners: seq<nat>, limit: nat)
    requires Behind(s, v, owners) && FirstN(ClaimableIn(v), limit) != []
    ensures var ids := FirstN(ClaimableIn(v), limit);
            && Enabled(s, Action.Take(ids)) && PassesOnlyLocked(s, ids)
            && (Orderly(s, Action.Take(ids)) <==> !Overtaking(v.open, v.acked, ids))
  {
    var all := ClaimableIn(v);
    var ids := FirstN(all, limit);
    PrefixAscends(all, limit);
    forall k: nat ensures Locked(s, k) <==> LockedIn(v.open, k) { LocksAgree(s, v.open, owners, k); }
    forall k, i | 0 <= i < |ids| && Pending(s, k) && !Locked(s, k) && k < ids[i] ensures k in ids {
      assert k in all;
      PrefixHoldsSmaller(all, limit, k, i);
    }
  }

  /** The claim that the call adds, as it is when the call is over. */
  ghost predicate NewClaim(s: State, t: State, left: seq<Open>) {
    var c := |s.claims|;
    && |t.claims| == c + 1 && t.claims[..c] == s.claims && t.claims[c].phase != Publishing
    && (if left == [] then t.claims[c].verdict != Live else |left| == 1 && Owns(t, c, left[0]))
  }

  lemma NewOwners(s: State, open: seq<Open>, owners: seq<nat>, left: seq<Open>, t: State)
    requires OwnersOk(s, open, owners) && NewClaim(s, t, left)
    ensures OwnersOk(t, open + left, owners + if left == [] then [] else [|s.claims|])
  {
    var c := |s.claims|;
    assert forall d :: 0 <= d < c ==> t.claims[d] == s.claims[d] by {
      forall d | 0 <= d < c ensures t.claims[d] == s.claims[d] { assert t.claims[..c][d] == t.claims[d]; }
    }
    var owners' := owners + if left == [] then [] else [c];
    forall i | 0 <= i < |open + left| ensures Owns(t, owners'[i], (open + left)[i]) {
      if i < |open| { assert Owns(s, owners[i], open[i]); }
    }
    forall d | 0 <= d < |t.claims| && t.claims[d].verdict == Live ensures d in owners' {
      if d < c {
        assert d in owners;
      } else {
        assert owners'[|owners|] == c;
      }
    }
  }

  /** How the claim ends, when it has left its loop as `w` says. */
  function Ending(c: nat, w: Walked, fault: DbFault): seq<Action> {
    if fault.Dies? then [Action.Crash(c)]
    else if (fault.MarkFails? && w.acked != []) || fault.CommitFails? then (if fault.stays then [] else [Action.Rollback(c)])
    else [Action.Commit(c)]
  }

  /** The end of a claim that acknowledged what the walk says. */
  lemma EndClaim(s: State, ids: seq<nat>, w: Walked, fault: DbFault) returns (t: State)
    requires s.claims != [] && !fault.BeginFails? && !fault.SelectFails? && w.acked <= ids
    requires var c := s.claims[|s.claims| - 1];
             c.verdict == Live && c.ids == ids && c.Acked() == w.acked && (!fault.Dies? ==> c.phase == Committing)
    ensures Leads(s, Ending(|s.claims| - 1, w, fault), t, true)
    ensures var b := Finish(s.rows, ids, fault, w);
            var n := |s.claims| - 1;
            && t.rows == b.rows && t.acks == s.acks && t.appended == s.appended
            && |t.claims| == n + 1 && t.claims[..n] == s.claims[..n] && t.claims[n].phase != Publishing
            && (if b.left == [] then t.claims[n].verdict != Live else |b.left| == 1 && Owns(t, n, b.left[0]))
  {
    var n := |s.claims| - 1;
    var e := Ending(n, w, fault);
    if e == [] {
      t := s;
    } else {
      StepLeads(s, e[0]);
      assert e == [e[0]];
      t := Next(s, e[0]);
    }
  }

  lemma MarkKeepsMessages(rows: map<nat, Row>, rows': map<nat, Row>, appended: seq<nat>)
    requires (forall k :: k in appended ==> k in rows) && rows'.Keys == rows.Keys && forall k :: k in rows ==> rows'[k].msg == rows[k].msg
    ensures (forall k :: k in appended ==> k in rows') && Messages(rows', appended) == Messages(rows, appended)
  {
  }

  /** The claim and its publish loop. */
  lemma ClaimAndLoop(s: State, v: World, owners: seq<nat>, limit: nat, fault: DbFault, orderly: bool)
    returns (actions: seq<Action>, t: State)
    requires orderly ==> !Overtaking(v.open, v.acked, FirstN(ClaimableIn(v), limit))
    requires Behind(s, v, owners) && FirstN(ClaimableIn(v), limit) != [] && !fault.BeginFails? && !fault.SelectFails?
    ensures var ids := FirstN(ClaimableIn(v), limit);
            var w := Walk(v.rows, Reached(ids, fault), v.replies);
            && Leads(s, actions, t, orderly)
            && t.rows == s.rows && t.acks == s.acks + w.acked && (forall k :: k in t.appended ==> k in t.rows)
            && Messages(t.rows, t.appended) == Messages(s.rows, s.appended) + w.log
            && |t.claims| == |s.claims| + 1 && t.claims[..|s.claims|] == s.claims
            && var c := t.claims[|s.claims|];
               c.verdict == Live && c.ids == ids && w.acked <= ids && c.Acked() == w.acked && (!fault.Dies? ==> c.phase == Committing)
  {
    var ids := FirstN(ClaimableIn(v), limit);
    var c, take := |s.claims|, Action.Take(ids);
    ClaimTake(s, v, owners, limit);
    StepLeads(s, take);
    var s1 := Next(s, take);
    var upto := ReachedIsPrefix(ids, fault);
    var loop;
    loop, t := LoopIsRun(s1, c, upto, v.replies);
    LeadsOn(s, [take], s1, loop, t, orderly);
    actions := [take] + loop;
    ClaimSettles(v.rows, ids, upto, v.replies);
    assert ids[0..upto] == ids[..upto];
  }

  lemma ReachedIsPrefix(ids: seq<nat>, fault: DbFault) returns (upto: nat)
    ensures upto <= |ids| && Reached(ids, fault) == ids[..upto] && (!fault.Dies? ==> upto == |ids|)
  {
    upto := if fault.Dies? && fault.publishes < |ids| then fault.publishes else |ids|;
    if fault.Dies? { FirstNIsPrefix(ids, fault.publishes); }
    assert ids[..|ids|] == ids;
  }

  /** A fresh claim once it has walked to `upto`. */
  lemma ClaimSettles(rows: map<nat, Row>, ids: seq<nat>, upto: nat, replies: seq<Reply>)
    requires upto <= |ids| && forall k :: k in ids ==> k in rows
    ensures var w := Walk(rows, ids[..upto], replies);
            var c := Settle(Claim(ids, 0, Publishing, Live), w);
            c.Acked() == w.acked && w.acked <= ids && (upto == |ids| ==> c.phase == Committing)
  {
    WalkPrefix(rows, ids[..upto], replies);
    var w := Walk(rows, ids[..upto], replies);
    assert ids[..upto][..|w.acked|] == ids[..|w.acked|];
  }

  lemma AppliedBehind(v: World, b: Batch, t: State, owners: seq<nat>)
    requires Inv(t) && OwnersOk(t, v.open + b.left, owners)
    requires t.rows == b.rows && t.acks == v.acked + b.acked && forall k :: k in t.rows ==> k < v.nextId
    requires (forall k :: k in t.appended ==> k in t.rows) && Messages(t.rows, t.appended) == v.log + b.log
    ensures Behind(t, Applied(v, b), owners)
  {
  }

  lemma ProcessFinishes(v: World, limit: nat, fault: DbFault)
    requires FirstN(ClaimableIn(v), limit) != [] && !fault.BeginFails? && !fault.SelectFails?
    ensures var ids := FirstN(ClaimableIn(v), limit);
            Process(v.rows, v.open, v.nextId, limit, fault, v.replies)
            == Finish(v.rows, ids, fault, Walk(v.rows, Reached(ids, fault), v.replies))
  {
  }

  lemma FinishKeepsKeys(rows: map<nat, Row>, ids: seq<nat>, fault: DbFault, w: Walked)
    ensures var b := Finish(rows, ids, fault, w);
            && b.acked == w.acked && b.log == w.log
            && b.rows.Keys == rows.Keys && forall k :: k in rows ==> b.rows[k].msg == rows[k].msg
  {
  }

  /** A call from the moment it begins. */
  lemma BatchIsRun(s: State, v: World, owners: seq<nat>, limit: nat, fault: DbFault, orderly: bool)
    returns (actions: seq<Action>, t: State, owners': seq<nat>)
    requires orderly ==> !Overtaking(v.open, v.acked, FirstN(ClaimableIn(v), limit))
    requires Behind(s, v, owners) && FirstN(ClaimableIn(v), limit) != [] && !fault.BeginFails? && !fault.SelectFails?
    ensures var b := Process(v.rows, v.open, v.nextId, limit, fault, v.replies);
            && Leads(s, actions, t, orderly)
            && Behind(t, Applied(v, b), owners')
  {
    var ids := FirstN(ClaimableIn(v), limit);
    var w := Walk(v.rows, Reached(ids, fault), v.replies);
    var s1;
    actions, s1 := ClaimAndLoop(s, v, owners, limit, fault, orderly);
    t := EndClaim(s1, ids, w, fault);
    LeadsOn(s, actions, s1, Ending(|s.claims|, w, fault), t, orderly);
    actions := actions + Ending(|s.claims|, w, fault);
    RunKeepsInv(s, actions, t);
    var b := Finish(v.rows, ids, fault, w);
    ProcessFinishes(v, limit, fault);
    FinishKeepsKeys(v.rows, ids, fault, w);
    NewOwners(s, v.open, owners, b.left, t);
    owners' := owners + if b.left == [] then [] else [|s.claims|];
    MarkKeepsMessages(s1.rows, t.rows, s1.appended);
    AppliedBehind(v, b, t, owners');
  }

  /** A SELECT whose answer is lost while the server keeps its locks. */
  lemma LostSelectIsRun(s: State, v: World, owners: seq<nat>, limit: nat, orderly: bool)
    returns (actions: seq<Action>, t: State, owners': seq<nat>)
    requires Behind(s, v, owners) && FirstN(ClaimableIn(v), limit) != []
    requires orderly ==> !Overtaking(v.open, v.acked, FirstN(ClaimableIn(v), limit))
    ensures var ids := FirstN(ClaimableIn(v), limit);
            && Leads(s, actions, t, orderly)
            && Behind(t, v.(open := v.open + [Open(ids, [], false)]), owners')
  {
    var ids := FirstN(ClaimableIn(v), limit);
    var c := |s.claims|;
    ClaimTake(s, v, owners, limit);
    StepLeads(s, Action.Take(ids));
    var s1 := Next(s, Action.Take(ids));
    StepLeads(s1, Action.Crash(c));
    t := Next(s1, Action.Crash(c));
    LeadsOn(s, [Action.Take(ids)], s1, [Action.Crash(c)], t, orderly);
    actions := [Action.Take(ids)] + [Action.Crash(c)];
    RunKeepsInv(s, actions, t);
    NewOwners(s, v.open, owners, [Open(ids, [], false)], t);
    owners' := owners + [c];
    MarkKeepsMessages(s.rows, t.rows, s.appended);
  }

  lemma NothingApplied(v: World, b: Batch)
    requires b.rows == v.rows && b.left == [] && b.acked == [] && b.log == [] && b.rest == v.replies
    ensures Applied(v, b) == v
  {
  }

  /** A ProcessPending call, with what happened before it, is a protocol run with the same table, the same messages at the
      broker, the same acknowledgements and the same open transactions, whatever fails; and an orderly one if its claim
      overtakes nothing. */
  lemma ProcessIsRun(s: State, w: World, owners: seq<nat>, limit: int, orderly: bool)
    returns (actions: seq<Action>, t: State, owners': seq<nat>)
    requires Behind(s, w, owners) && (orderly ==> CallInTurn(w, limit))
    ensures Leads(s, actions, t, orderly) && Behind(t, AfterCall(w, limit), owners')
  {
    var s1;
    actions, s1, owners' := HappenAllIsRun(s, w.(coming := LaterRounds(w.coming)), owners, FirstRound(w.coming).meanwhile);
    var more;
    more, t, owners' := AttemptIsRun(s1, Prepared(w), owners', limit, FaultOf(w), orderly);
    LeadsOn(s, actions, s1, more, t, orderly);
    actions := actions + more;
  }

  lemma AttemptIsRun(s: State, v: World, owners: seq<nat>, limit: int, fault: DbFault, orderly: bool)
    returns (actions: seq<Action>, t: State, owners': seq<nat>)
    requires Behind(s, v, owners) && (orderly ==> !Overtaking(v.open, v.acked, Claimed(v, limit, fault)))
    ensures Leads(s, actions, t, orderly)
    ensures Behind(t, Applied(v, Process(v.rows, v.open, v.nextId, limit, fault, v.replies)), owners')
  {
    var b := Process(v.rows, v.open, v.nextId, limit, fault, v.replies);
    if fault.BeginFails? || limit < 0 || FirstN(ClaimableIn(v), limit) == [] || (fault.SelectFails? && !fault.stays) {
      actions, t, owners' := [], s, owners;
      NothingApplied(v, b);
    } else if fault.SelectFails? {
      actions, t, owners' := LostSelectIsRun(s, v, owners, limit, orderly);
      assert Applied(v, b) == v.(open := v.open + b.left);
    } else {
      actions, t, owners' := BatchIsRun(s, v, owners, limit, fault, orderly);
    }
  }

  // ---- Whole runs ----

  /** No claim of the drain overtakes a row that was never acknowledged and that an open transaction locks. */
  ghost predicate DrainInTurn(w: World, batchSize: int, life: nat)
    decreases life
  {
    life == 0 ||
    (CallInTurn(w, batchSize) &&
     (EndOf(BatchOf(w, batchSize), batchSize) == StillRunning ==> DrainInTurn(AfterCall(w, batchSize), batchSize, life - 1)))
  }

  /** A drain as its first call, which leaves `u`, and what follows if it goes on. */
  lemma FirstCall(w: World, d: World, batchSize: int, life: nat, orderly: bool) returns (u: World, goesOn: bool)
    requires life > 0 && d == Drain(w, batchSize, life).w && (orderly ==> DrainInTurn(w, batchSize, life))
    ensures u == AfterCall(w, batchSize) && d == if goesOn then Drain(u, batchSize, life - 1).w else u
    ensures orderly ==> CallInTurn(w, batchSize) && (goesOn ==> DrainInTurn(u, batchSize, life - 1))
  {
    var e := EndOf(BatchOf(w, batchSize), batchSize);
    u, goesOn := AfterCall(w, batchSize), e == StillRunning;
    DrainOnce(w, batchSize, life, u, e);
  }

  lemma NoCall(s: State, w: World, d: World, owners: seq<nat>, batchSize: int, orderly: bool)
    requires Behind(s, w, owners) && d == Drain(w, batchSize, 0).w
    ensures Leads(s, [], s, orderly) && Behind(s, d, owners)
  {
  }

  lemma {:induction false} CallThenRest(s: State, w: World, u: World, d: World, goesOn: bool, owners: seq<nat>,
                                        batchSize: int, life: nat, orderly: bool)
    returns (actions: seq<Action>, t: State, owners': seq<nat>)
    requires Behind(s, w, owners) && u == AfterCall(w, batchSize) && d == if goesOn then Drain(u, batchSize, life).w else u
    requires orderly ==> CallInTurn(w, batchSize) && (goesOn ==> DrainInTurn(u, batchSize, life))
    ensures Leads(s, actions, t, orderly) && Behind(t, d, owners')
    decreases life, 2
  {
    actions, t, owners' := ProcessIsRun(s, w, owners, batchSize, orderly);
    if goesOn {
      var more, t', owners'' := DrainIsRun(t, u, d, owners', batchSize, life, orderly);
      LeadsOn(s, actions, t, more, t', orderly);
      actions, t, owners' := actions + more, t', owners'';
    }
  }

  lemma {:induction false} CallsAreRun(s: State, w: World, d: World, owners: seq<nat>, batchSize: int, life: nat, orderly: bool)
    returns (actions: seq<Action>, t: State, owners': seq<nat>)
    requires Behind(s, w, owners) && life > 0
    requires d == Drain(w, batchSize, life).w && (orderly ==> DrainInTurn(w, batchSize, life))
    ensures Leads(s, actions, t, orderly) && Behind(t, d, owners')
    decreases life, 0
  {
    var u, goesOn := FirstCall(w, d, batchSize, life, orderly);
    actions, t, owners' := CallThenRest(s, w, u, d, goesOn, owners, batchSize, life - 1, orderly);
  }

  /** A whole drain, which leaves `d`, however long the process lives, whatever fails and whatever happens between its calls. */
  lemma {:induction false} DrainIsRun(s: State, w: World, d: World, owners: seq<nat>, batchSize: int, life: nat, orderly: bool)
    returns (actions: seq<Action>, t: State, owners': seq<nat>)
    requires Behind(s, w, owners) && d == Drain(w, batchSize, life).w && (orderly ==> DrainInTurn(w, batchSize, life))
    ensures Leads(s, actions, t, orderly) && Behind(t, d, owners')
    decreases life, 1
  {
    if life == 0 {
      NoCall(s, w, d, owners, batchSize, orderly);
      actions, t, owners' := [], s, owners;
    } else {
      actions, t, owners' := CallsAreRun(s, w, d, owners, batchSize, life, orderly);
    }
  }

  ghost predicate DriveInTurn(w: World, batchSize: int, events: seq<Event>)
    decreases |events|
  {
    if events == [] then true
    else
      match events[0]
      case Cancel => true
      case Happens(h) => DriveInTurn(Happen(w, h), batchSize, events[1..])
      case Tick(life) =>
        var d := Drain(w, batchSize, life);
        DrainInTurn(w, batchSize, life) && (d.end.Returned? ==> DriveInTurn(d.w, batchSize, events[1..]))
  }

  /** Relay.Run with everything that happens to its store meanwhile, from any state the protocol reached. */
  lemma {:induction false} DriveIsRun(s: State, w: World, owners: seq<nat>, batchSize: int, events: seq<Event>, orderly: bool)
    returns (actions: seq<Action>, t: State, owners': seq<nat>)
    requires Behind(s, w, owners) && (orderly ==> DriveInTurn(w, batchSize, events))
    ensures Leads(s, actions, t, orderly) && Behind(t, Drive(w, batchSize, events), owners')
    decreases |events|
  {
    if events == [] || events[0].Cancel? {
      actions, t, owners' := [], s, owners;
    } else if events[0].Happens? {
      actions, t, owners' := HappenIsRun(s, w, owners, events[0].h);
      var more, t', owners'' := DriveIsRun(t, Happen(w, events[0].h), owners', batchSize, events[1..], orderly);
      LeadsOn(s, actions, t, more, t', orderly);
      actions, t, owners' := actions + more, t', owners'';
    } else {
      var d := Drain(w, batchSize, events[0].life);
      actions, t, owners' := DrainIsRun(s, w, d.w, owners, batchSize, events[0].life, orderly);
      if d.end.Returned? {
        var more, t', owners'' := DriveIsRun(t, d.w, owners', batchSize, events[1..], orderly);
        LeadsOn(s, actions, t, more, t', orderly);
        actions, t, owners' := actions + more, t', owners'';
      }
    }
  }

  /** One relay process after another, each started on what the last one left. */
  function Restarts(w: World, batchSize: int, runs: seq<seq<Event>>): World
    decreases |runs|
  {
    if runs == [] then w else Restarts(Drive(w, batchSize, runs[0]), batchSize, runs[1..])
  }

  ghost predicate RestartsInTurn(w: World, batchSize: int, runs: seq<seq<Event>>)
    decreases |runs|
  {
    runs != [] ==> DriveInTurn(w, batchSize, runs[0]) && RestartsInTurn(Drive(w, batchSize, runs[0]), batchSize, runs[1..])
  }

  lemma {:induction false} RestartsAreRun(s: State, w: World, owners: seq<nat>, batchSize: int, runs: seq<seq<Event>>, orderly: bool)
    returns (actions: seq<Action>, t: State, owners': seq<nat>)
    requires Behind(s, w, owners) && (orderly ==> RestartsInTurn(w, batchSize, runs))
    ensures Leads(s, actions, t, orderly) && Behind(t, Restarts(w, batchSize, runs), owners')
    decreases |runs|
  {
    if runs == [] {
      actions, t, owners' := [], s, owners;
    } else {
      actions, t, owners' := DriveIsRun(s, w, owners, batchSize, runs[0], orderly);
      var more, t', owners'' := RestartsAreRun(t, Drive(w, batchSize, runs[0]), owners', batchSize, runs[1..], orderly);
      LeadsOn(s, actions, t, more, t', orderly);
      actions, t, owners' := actions + more, t', owners'';
    }
  }

  // ---- Order ----

  /** Every acknowledged publish comes after one of every row with a smaller id. */
  ghost predicate InPrefixOrder(w: World) {
    forall j, k :: 0 <= j < |w.acked| && k in w.rows && k < w.acked[j] ==> k in w.acked[..j]
  }

  function Fresh(first: nat, coming: seq<Round>, replies: seq<Reply>): World {
    World(map[], first, [], coming, [], [], replies)
  }

  /** What any succession of relay processes gets acknowledged from an empty table on is in prefix order, with any batch size,
      any failures of broker and database, transactions left open and ended later, events written between any two calls, and
      any lifetimes, as long as no claim overtakes an unacknowledged row that an open transaction locks. */
  lemma RelayPublishesInOrder(first: nat, coming: seq<Round>, replies: seq<Reply>, batchSize: int, runs: seq<seq<Event>>)
    requires RestartsInTurn(Fresh(first, coming, replies), batchSize, runs)
    ensures InPrefixOrder(Restarts(Fresh(first, coming, replies), batchSize, runs))
  {
    var w := Fresh(first, coming, replies);
    assert Messages(Init().rows, Init().appended) == [];
    assert Behind(Init(), w, []);
    var actions, t, _ := RestartsAreRun(Init(), w, [], batchSize, runs, true);
    PrefixOrder(actions, t);
  }

  /** The server has ended every call's transaction by the time the call returns, and no process dies in a call. */
  predicate NothingStays(coming: seq<Round>) {
    forall i :: 0 <= i < |coming| ==>
      var f := coming[i].fault;
      !f.Dies? && (f.SelectFails? || f.MarkFails? || f.CommitFails? ==> !f.stays)
  }

  ghost predicate Tidy(w: World) { w.open == [] && NothingStays(w.coming) }

  lemma HappenTidy(w: World, h: Happening)
    requires Tidy(w)
    ensures Tidy(Happen(w, h))
  {
  }

  lemma {:induction false} HappenAllTidy(w: World, hs: seq<Happening>)
    requires Tidy(w)
    ensures Tidy(HappenAll(w, hs))
    decreases |hs|
  {
    if hs != [] {
      HappenTidy(w, hs[0]);
      HappenAllTidy(Happen(w, hs[0]), hs[1..]);
    }
  }

  lemma CallTidy(w: World, limit: int)
    requires Tidy(w)
    ensures CallInTurn(w, limit) && Tidy(AfterCall(w, limit))
  {
    var f := FaultOf(w);
    assert !f.Dies? && (f.SelectFails? || f.MarkFails? || f.CommitFails? ==> !f.stays);
    HappenAllTidy(w.(coming := LaterRounds(w.coming)), FirstRound(w.coming).meanwhile);
    assert BatchOf(w, limit).left == [];
  }

  lemma {:induction false} DrainTidy(w: World, batchSize: int, life: nat)
    requires Tidy(w)
    ensures DrainInTurn(w, batchSize, life) && Tidy(Drain(w, batchSize, life).w)
    decreases life
  {
    if life > 0 {
      CallTidy(w, batchSize);
      DrainOnce(w, batchSize, life, AfterCall(w, batchSize), EndOf(BatchOf(w, batchSize), batchSize));
      if EndOf(BatchOf(w, batchSize), batchSize) == StillRunning { DrainTidy(AfterCall(w, batchSize), batchSize, life - 1); }
    }
  }

  lemma {:induction false} DriveTidy(w: World, batchSize: int, events: seq<Event>)
    requires Tidy(w)
    ensures DriveInTurn(w, batchSize, events) && Tidy(Drive(w, batchSize, events))
    decreases |events|
  {
    if events != [] {
      match events[0]
      case Cancel =>
      case Happens(h) =>
        HappenTidy(w, h);
        DriveTidy(Happen(w, h), batchSize, events[1..]);
      case Tick(life) =>
        DrainTidy(w, batchSize, life);
        if Drain(w, batchSize, life).end.Returned? { DriveTidy(Drain(w, batchSize, life).w, batchSize, events[1..]); }
    }
  }

  lemma {:induction false} RestartsTidy(w: World, batchSize: int, runs: seq<seq<Event>>)
    requires Tidy(w)
    ensures RestartsInTurn(w, batchSize, runs)
    decreases |runs|
  {
    if runs != [] {
      DriveTidy(w, batchSize, runs[0]);
      RestartsTidy(Drive(w, batchSize, runs[0]), batchSize, runs[1..]);
    }
  }

  /** In particular when no transaction outlives its call: any other failures, writes and lifetimes keep the order. */
  lemma TidyRelayPublishesInOrder(first: nat, coming: seq<Round>, replies: seq<Reply>, batchSize: int, runs: seq<seq<Event>>)
    requires NothingStays(coming)
    ensures InPrefixOrder(Restarts(Fresh(first, coming, replies), batchSize, runs))
  {
    RestartsTidy(Fresh(first, coming, replies), batchSize, runs);
    RelayPublishesInOrder(first, coming, replies, batchSize, runs);
  }

  lemma OneTick(w: World, batchSize: int, u: World)
    requires AfterCall(w, batchSize) == u && EndOf(BatchOf(w, batchSize), batchSize) == Returned
    ensures Drain(w, batchSize, 1) == Drained(u, 1, Returned)
  {
  }

  lemma FirstRowFails(m: Message, limit: nat)
    requires limit >= 1
    ensures var rows := map[1 := Row(m, false)];
            Process(rows, [], 2, limit, CommitFails(true), [Failed(0)])
            == Batch(rows, [Open([1], [], true)], [], [], [], 0, Some(CommitError))
  {
    var rows := map[1 := Row(m, false)];
    FirstNIsPrefix([1], limit);
    assert Claimable(rows, [], 1) == [];
    assert Claimable(rows, [], 2) == [1];
    assert Walk(rows, [1], [Failed(0)]) == Walked([], [], true, []);
  }

  /** Row 1 is written, its publish fails, and the COMMIT of its transaction is lost with the connection. */
  lemma LostCommit(m: Message, batchSize: nat, w: World) returns (u: World)
    requires batchSize >= 1
    requires w == Fresh(1, [Round([Written(m)], CommitFails(true)), Round([Written(m)], Fine)], [Failed(0)])
    ensures u == World(map[1 := Row(m, false)], 2, [Open([1], [], true)], [Round([Written(m)], Fine)], [], [], [])
    ensures Drain(w, batchSize, 1) == Drained(u, 1, Returned)
  {
    u := World(map[1 := Row(m, false)], 2, [Open([1], [], true)], [Round([Written(m)], Fine)], [], [], []);
    var v := World(map[1 := Row(m, false)], 2, [], w.coming[1..], [], [], [Failed(0)]);
    assert HappenAll(v, []) == v && [Written(m)][1..] == [];
    assert Prepared(w) == v;
    FirstRowFails(m, batchSize);
    assert AfterCall(w, batchSize) == u;
    OneTick(w, batchSize, u);
  }

  lemma SecondRowClaimed(m: Message, limit: nat)
    requires limit >= 1
    ensures FirstN(Claimable(map[1 := Row(m, false), 2 := Row(m, false)], [Open([1], [], true)], 3), limit) == [2]
  {
    var rows := map[1 := Row(m, false), 2 := Row(m, false)];
    var open := [Open([1], [], true)];
    assert 1 in open[0].ids;
    assert Claimable(rows, open, 1) == [] && Claimable(rows, open, 2) == [];
    assert Claimable(rows, open, 3) == [2];
    FirstNIsPrefix([2], limit);
  }

  lemma WalkOne(rows: map<nat, Row>, k: nat)
    requires k in rows
    ensures Walk(rows, [k], []).acked == [k]
  {
    assert [k][1..] == [];
    assert Walk(rows, [k][1..], []) == Walked([], [], false, []);
  }

  lemma SecondRowOnly(m: Message, batchSize: nat)
    requires batchSize >= 1
    ensures var b := Process(map[1 := Row(m, false), 2 := Row(m, false)], [Open([1], [], true)], 3, batchSize, Fine, []);
            b.acked == [2] && 1 in b.rows
  {
    SecondRowClaimed(m, batchSize);
    WalkOne(map[1 := Row(m, false), 2 := Row(m, false)], 2);
  }

  /** Row 2 is written; the next claim passes over row 1, which is still locked, and row 2 is published. */
  lemma TickAfterLostCommit(m: Message, batchSize: nat, w: World) returns (u: World)
    requires batchSize >= 1
    requires w == World(map[1 := Row(m, false)], 2, [Open([1], [], true)], [Round([Written(m)], Fine)], [], [], [])
    ensures u.acked == [2] && 1 in u.rows
    ensures Drain(w, batchSize, 1).w == u
  {
    var rows := map[1 := Row(m, false), 2 := Row(m, false)];
    var v := World(rows, 3, w.open, [], [], [], []);
    assert HappenAll(v, []) == v && [Written(m)][1..] == [] && LaterRounds(w.coming) == [];
    assert Happen(w.(coming := []), Written(m)) == v;
    assert Prepared(w) == v;
    SecondRowOnly(m, batchSize);
    u := AfterCall(w, batchSize);
    DrainOnce(w, batchSize, 1, u, EndOf(BatchOf(w, batchSize), batchSize));
  }

  /** One COMMIT that is lost with its connection is enough to lose the order, with one relay, no crash, and any batch size. */
  lemma LostCommitReorders(m: Message, batchSize: nat)
    requires batchSize >= 1
    ensures var w := Fresh(1, [Round([Written(m)], CommitFails(true)), Round([Written(m)], Fine)], [Failed(0)]);
            var v := Drive(w, batchSize, [Tick(1), Tick(1)]);
            v.acked == [2] && 1 in v.rows && !InPrefixOrder(v)
  {
    var w := Fresh(1, [Round([Written(m)], CommitFails(true)), Round([Written(m)], Fine)], [Failed(0)]);
    var w1 := LostCommit(m, batchSize, w);
    var w2 := TickAfterLostCommit(m, batchSize, w1);
    var events := [Tick(1), Tick(1)];
    assert events[1..] == [Tick(1)] && events[1..][1..] == [];
    assert Drive(w1, batchSize, [Tick(1)]) == w2;
    assert w2.acked[0] == 2 && 1 !in w2.acked[..0];
  }
}
