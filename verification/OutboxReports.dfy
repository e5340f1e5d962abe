/** What ProcessPending reports to drain, what it has done by then, and what becomes of everything that is written. */
module OutboxReports {
  import opened Wrappers
  import opened Ids
  import opened OutboxProtocol
  import opened OutboxRelay
  import opened OutboxRefinement

  // ---- One call ----

  /** The broker's answer to the publish call number `i`. */
  function ReplyAt(replies: seq<Reply>, i: nat): Reply {
    if i < |replies| then replies[i] else Acked(0)
  }

  lemma {:induction false} WalkStopsAtFailure(rows: map<nat, Row>, ids: seq<nat>, replies: seq<Reply>)
    requires forall k :: k in ids ==> k in rows
    ensures var w := Walk(rows, ids, replies);
            && (forall i :: 0 <= i < |w.acked| ==> ReplyAt(replies, i).Acked?)
            && (if w.failed then |w.acked| < |ids| && ReplyAt(replies, |w.acked|).Failed? else |w.acked| == |ids|)
  {
    if ids != [] && NextReply(replies).Acked? {
      var later := LaterReplies(replies);
      WalkStopsAtFailure(rows, ids[1..], later);
      var w, v := Walk(rows, ids, replies), Walk(rows, ids[1..], later);
      assert |w.acked| == |v.acked| + 1;
      forall i | 0 <= i < |w.acked| ensures ReplyAt(replies, i).Acked? {
        if i > 0 { assert ReplyAt(replies, i) == ReplyAt(later, i - 1); }
      }
      assert ReplyAt(replies, |w.acked|) == ReplyAt(later, |v.acked|);
    }
  }

  /** How many rows the call may take. */
  function Take(v: World, limit: nat): nat {
    if limit < |ClaimableIn(v)| then limit else |ClaimableIn(v)|
  }

  lemma FinishReports(rows: map<nat, Row>, ids: seq<nat>, replies: seq<Reply>)
    requires forall k :: k in ids ==> k in rows
    ensures var b := Finish(rows, ids, Fine, Walk(rows, ids, replies));
            && b.published <= |ids|
            && (forall i :: 0 <= i < b.published ==> ReplyAt(replies, i).Acked?)
            && (b.err.None? <==> b.published == |ids|)
            && (b.published < |ids| ==> ReplyAt(replies, b.published).Failed? && b.err == Some(PublishError(ids[b.published])))
            && b.rows == Mark(rows, ids[..b.published]) && b.acked == ids[..b.published]
  {
    WalkStopsAtFailure(rows, ids, replies);
    WalkPrefix(rows, ids, replies);
  }

  /** If the database does not fail, a call takes the first claimable rows up to its limit, publishes them up to the first
      failed reply, and marks exactly those; it reports how many they are, and the failure exactly when there was one. */
  lemma CallReports(w: World, limit: nat)
    requires FaultOf(w) == Fine
    ensures var v := Prepared(w);
            var ids := ClaimableIn(v);
            var n := Take(v, limit);
            var b := BatchOf(w, limit);
            && b.published <= n <= |ids|
            && (b.err.None? <==> forall i :: 0 <= i < n ==> ReplyAt(v.replies, i).Acked?)
            && (b.err.None? ==> b.published == n)
            && (b.err.Some? ==>
                  && b.published < n && b.err == Some(PublishError(ids[b.published]))
                  && ReplyAt(v.replies, b.published).Failed? && forall i :: 0 <= i < b.published ==> ReplyAt(v.replies, i).Acked?)
            && AfterCall(w, limit).rows == Mark(v.rows, ids[..b.published])
            && AfterCall(w, limit).acked == v.acked + ids[..b.published]
  {
    var v := Prepared(w);
    var ids := ClaimableIn(v);
    var n := Take(v, limit);
    FirstNIsPrefix(ids, limit);
    assert FirstN(ids, limit) == ids[..n];
    if n == 0 {
      MarkNothing(v.rows);
    } else {
      FinishReports(v.rows, ids[..n], v.replies);
      var b := BatchOf(w, limit);
      assert ids[..n][..b.published] == ids[..b.published];
    }
  }

  /** A call reports success only if no begin, select, mark or commit failed, heard or unheard, and each failure by its name. */
  lemma CallAdmitsFaults(w: World, limit: int)
    ensures var b := BatchOf(w, limit);
            var f := FaultOf(w);
            var ids := if limit < 0 then [] else FirstN(ClaimableIn(Prepared(w)), limit);
            && (b.err.None? ==> limit >= 0 && (f.Fine? || (f.MarkFails? && ids == [])))
            && (!f.Fine? && !f.MarkFails? ==> b.published == 0)
            && (b.err == Some(BeginError) <==> f.BeginFails?)
            && (b.err == Some(SelectError) <==> !f.BeginFails? && (f.SelectFails? || limit < 0))
            && (b.err == Some(Died) <==> f.Dies? && limit >= 0)
            && (b.err == Some(CommitError) <==> (f.CommitFails? || f.CommitUnheard?) && limit >= 0)
            && (b.err == Some(MarkError) <==> f.MarkFails? && b.acked != [] && limit >= 0)
            && (b.err == Some(MarkError) ==> b.published == 0)
  {
    var v := Prepared(w);
    if limit >= 0 && FirstN(ClaimableIn(v), limit) != [] {
      var ids := FirstN(ClaimableIn(v), limit);
      WalkPrefix(v.rows, Reached(ids, FaultOf(w)), v.replies);
    }
  }

  // ---- Whole runs ----

  /** Nothing that comes after the cancellation has any effect. */
  lemma {:induction false} CancelStops(w: World, batchSize: int, before: seq<Event>, after: seq<Event>)
    ensures Drive(w, batchSize, before + ([Cancel] + after)) == Drive(w, batchSize, before)
    decreases |before|
  {
    var all := before + ([Cancel] + after);
    if before == [] {
      assert all == [Cancel] + after;
    } else {
      assert all[0] == before[0] && all[1..] == before[1..] + ([Cancel] + after);
      match before[0]
      case Cancel =>
      case Happens(h) => CancelStops(Happen(w, h), batchSize, before[1..], after);
      case Tick(life) =>
        var d := Drain(w, batchSize, life);
        if d.end.Returned? { CancelStops(d.w, batchSize, before[1..], after); }
    }
  }

  /** The rows of `w` are still there, with their messages. */
  ghost predicate KeepsRows(w: World, v: World) {
    v.rows.Keys == w.rows.Keys && v.nextId == w.nextId && forall k :: k in w.rows ==> v.rows[k].msg == w.rows[k].msg
  }

  lemma QuietCallKeepsRows(w: World, batchSize: nat)
    requires Calm(w) && batchSize >= 1
    ensures KeepsRows(w, AfterCall(w, batchSize)) && AfterCall(w, batchSize).open == w.open && Calm(AfterCall(w, batchSize))
  {
    CalmCall(w, batchSize);
    QuietCall(w, batchSize);
    CalmBatch(w.rows, w.open, w.nextId, batchSize, w.replies);
    assert w.open + [] == w.open;
  }

  lemma {:induction false} DrainKeepsRows(w: World, batchSize: nat, life: nat)
    requires Calm(w) && batchSize >= 1
    ensures var v := Drain(w, batchSize, life).w; KeepsRows(w, v) && v.open == w.open && Calm(v)
    decreases life
  {
    if life > 0 {
      var u := AfterCall(w, batchSize);
      QuietCallKeepsRows(w, batchSize);
      DrainOnce(w, batchSize, life, u, EndOf(BatchOf(w, batchSize), batchSize));
      if EndOf(BatchOf(w, batchSize), batchSize) == StillRunning { DrainKeepsRows(u, batchSize, life - 1); }
    }
  }

  /** The events written between the ticks, in order. */
  function WrittenIn(events: seq<Event>): seq<Message> {
    if events == [] then []
    else (if events[0].Happens? && events[0].h.Written? then [events[0].h.m] else []) + WrittenIn(events[1..])
  }

  predicate IsRow(v: World, k: nat, m: Message) {
    k in v.rows && v.rows[k].msg == m
  }

  /** `v` holds the rows of `w` and after them the events `ms`, in order. */
  ghost predicate HoldsAll(w: World, v: World, ms: seq<Message>) {
    && v.nextId == w.nextId + |ms|
    && (forall k :: k in w.rows ==> k in v.rows && v.rows[k].msg == w.rows[k].msg)
    && (forall i :: 0 <= i < |ms| ==> IsRow(v, w.nextId + i, ms[i]))
    && (forall k :: k in v.rows ==> k < v.nextId)
  }

  lemma HoldsAllOn(w: World, u: World, v: World, ms: seq<Message>, more: seq<Message>)
    requires HoldsAll(w, u, ms) && HoldsAll(u, v, more)
    ensures HoldsAll(w, v, ms + more)
  {
    forall i | 0 <= i < |ms + more| ensures IsRow(v, w.nextId + i, (ms + more)[i]) {
      if i < |ms| {
        assert IsRow(u, w.nextId + i, ms[i]);
      } else {
        assert IsRow(v, u.nextId + (i - |ms|), more[i - |ms|]);
      }
    }
  }

  lemma HappenHolds(w: World, h: Happening)
    requires w.open == [] && forall k :: k in w.rows ==> k < w.nextId
    ensures HoldsAll(w, Happen(w, h), if h.Written? then [h.m] else []) && Happen(w, h).open == []
  {
  }

  lemma {:induction false} DriveHolds(w: World, batchSize: nat, events: seq<Event>)
    requires Calm(w) && batchSize >= 1 && w.open == [] && (forall k :: k in w.rows ==> k < w.nextId) && Survives(w, batchSize, events)
    ensures var v := Drive(w, batchSize, events); HoldsAll(w, v, WrittenIn(events)) && v.open == []
    decreases |events|
  {
    if events != [] {
      match events[0]
      case Happens(h) =>
        HappenHolds(w, h);
        HappenWork(w, h);
        DriveHolds(Happen(w, h), batchSize, events[1..]);
        HoldsAllOn(w, Happen(w, h), Drive(w, batchSize, events), if h.Written? then [h.m] else [], WrittenIn(events[1..]));
      case Tick(life) =>
        DrainKeepsRows(w, batchSize, life);
        var u := Drain(w, batchSize, life).w;
        DriveHolds(u, batchSize, events[1..]);
        HoldsAllOn(w, u, Drive(w, batchSize, events), [], WrittenIn(events[1..]));
        assert [] + WrittenIn(events[1..]) == WrittenIn(events);
      case Cancel =>
    }
  }

  lemma WrittenBeforeTick(events: seq<Event>, life: nat)
    ensures WrittenIn(events + [Tick(life)]) == WrittenIn(events)
  {
    var all := events + [Tick(life)];
    if events == [] {
      assert all[1..] == [];
    } else {
      assert all[1..] == events[1..] + [Tick(life)];
      WrittenBeforeTick(events[1..], life);
    }
  }

  /** If nothing fails and no transaction is open, everything written while the relay ran is in the table under its id in the
      order of writing, and marked as published after a last tick. */
  lemma EveryWriteIsPublished(w: World, batchSize: nat, events: seq<Event>, life: nat)
    requires Calm(w) && batchSize >= 1 && w.open == [] && (forall k :: k in w.rows ==> k < w.nextId)
    requires Survives(w, batchSize, events + [Tick(life)])
    ensures var v := Drive(w, batchSize, events + [Tick(life)]);
            var ms := WrittenIn(events);
            && v.nextId == w.nextId + |ms|
            && (forall i :: 0 <= i < |ms| ==> IsRow(v, w.nextId + i, ms[i]))
            && (forall k :: k in w.rows ==> IsRow(v, k, w.rows[k].msg))
            && (forall k :: k in v.rows ==> v.rows[k].published)
  {
    var all := events + [Tick(life)];
    var v := Drive(w, batchSize, all);
    LastTickEmpties(w, batchSize, events, life);
    DriveHolds(w, batchSize, all);
    WrittenBeforeTick(events, life);
    forall k | k in v.rows ensures v.rows[k].published {
      assert k in ClaimableIn(v) <==> IsFree(v.rows, v.open, k) && k < v.nextId;
    }
  }

  /** In every state behind a relay's world, a marked row was acknowledged and its message is at the broker. */
  lemma MarkedIsAtBroker(s: State, w: World, owners: seq<nat>, k: nat)
    requires Behind(s, w, owners) && k in w.rows && w.rows[k].published
    ensures k in w.acked && w.rows[k].msg in w.log
  {
    assert Accounted(s, k);
    assert k in multiset(s.acks);
    assert k in multiset(s.appended);
    var i :| 0 <= i < |s.appended| && s.appended[i] == k;
    assert Messages(s.rows, s.appended)[i] == s.rows[k].msg;
  }
}
