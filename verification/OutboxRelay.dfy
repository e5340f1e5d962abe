/** One relay working through the outbox table: ProcessPending, drain and Run as they execute. */
module OutboxRelay {
  import opened Wrappers
  import opened Sequences
  import opened Ids
  import opened OutboxProtocol

  /** What one publish call does: acknowledged with 1 + extra copies stored, or an error with any number stored. */
  datatype Reply = Acked(extra: nat) | Failed(copies: nat)

  /** How one ProcessPending call fares. When an error `stays`, the server has not yet ended the transaction, for instance
      because the connection broke. CommitUnheard commits but reports an error. Dies ends the relay's process after at most
      that many publish calls. */
  datatype DbFault =
    | Fine
    | BeginFails
    | SelectFails(stays: bool)
    | MarkFails(stays: bool)
    | CommitFails(stays: bool)
    | CommitUnheard
    | Dies(publishes: nat)

  /** Died is what a process hears that is no more. */
  datatype Error = BeginError | SelectError | MarkError | CommitError | PublishError(id: nat) | Died

  /** A transaction left open at the server: the rows it locks, what was acknowledged of them, and whether the server was
      asked to commit it. */
  datatype Open = Open(ids: seq<nat>, acked: seq<nat>, asked: bool)

  // ---- What one walk over claimed rows does ----

  datatype Walked = Walked(acked: seq<nat>, log: seq<Message>, failed: bool, rest: seq<Reply>)

  function NextReply(replies: seq<Reply>): Reply {
    if replies == [] then Acked(0) else replies[0]
  }

  function LaterReplies(replies: seq<Reply>): seq<Reply> {
    if replies == [] then [] else replies[1..]
  }

  predicate AllAcked(replies: seq<Reply>) {
    forall i :: 0 <= i < |replies| ==> replies[i].Acked?
  }

  function Stored(r: Reply): nat {
    match r case Acked(extra) => 1 + extra case Failed(copies) => copies
  }

  function Repeat(m: Message, n: nat): seq<Message> {
    seq(n, _ => m)
  }

  /** Publish the rows in order until the first failure. */
  function Walk(rows: map<nat, Row>, ids: seq<nat>, replies: seq<Reply>): (w: Walked)
    requires forall k :: k in ids ==> k in rows
    ensures |w.acked| <= |ids|
  {
    if ids == [] then Walked([], [], false, replies) else
      var r := NextReply(replies);
      var sent := Repeat(rows[ids[0]].msg, Stored(r));
      if r.Failed? then Walked([], sent, true, LaterReplies(replies)) else
        var w := Walk(rows, ids[1..], LaterReplies(replies));
        Walked([ids[0]] + w.acked, sent + w.log, w.failed, w.rest)
  }

  lemma {:induction false} WalkPrefix(rows: map<nat, Row>, ids: seq<nat>, replies: seq<Reply>)
    requires forall k :: k in ids ==> k in rows
    ensures var w := Walk(rows, ids, replies);
            |w.acked| <= |ids| && w.acked == ids[..|w.acked|] && (w.failed <==> |w.acked| < |ids|)
  {
    if ids != [] && NextReply(replies).Acked? {
      WalkPrefix(rows, ids[1..], LaterReplies(replies));
    }
  }

  /** A walk `w` that continues one which had already acknowledged `acked` and left `log`. */
  function After(acked: seq<nat>, log: seq<Message>, w: Walked): Walked {
    Walked(acked + w.acked, log + w.log, w.failed, w.rest)
  }

  lemma WalkStep(rows: map<nat, Row>, ids: seq<nat>, replies: seq<Reply>, acked: seq<nat>, log: seq<Message>)
    requires ids != [] && forall k :: k in ids ==> k in rows
    ensures var r := NextReply(replies);
            var sent := log + Repeat(rows[ids[0]].msg, Stored(r));
            After(acked, log, Walk(rows, ids, replies)) ==
            if r.Failed? then Walked(acked, sent, true, LaterReplies(replies))
            else After(acked + [ids[0]], sent, Walk(rows, ids[1..], LaterReplies(replies)))
  {
    var sent := Repeat(rows[ids[0]].msg, Stored(NextReply(replies)));
    var w := Walk(rows, ids[1..], LaterReplies(replies));
    assert (acked + [ids[0]]) + w.acked == acked + ([ids[0]] + w.acked);
    assert (log + sent) + w.log == log + (sent + w.log);
  }

  lemma AfterAfter(acked: seq<nat>, log: seq<Message>, w: Walked, v: Walked)
    ensures After(acked, log, After(w.acked, w.log, v)) == After(acked + w.acked, log + w.log, v)
  {
    assert acked + (w.acked + v.acked) == (acked + w.acked) + v.acked;
    assert log + (w.log + v.log) == (log + w.log) + v.log;
  }

  lemma {:induction false} WalkSplit(rows: map<nat, Row>, a: seq<nat>, b: seq<nat>, replies: seq<Reply>)
    requires forall k :: k in a + b ==> k in rows
    requires (forall k :: k in a ==> k in rows) && (forall k :: k in b ==> k in rows)
    ensures var w := Walk(rows, a, replies);
            Walk(rows, a + b, replies) == if w.failed then w else After(w.acked, w.log, Walk(rows, b, w.rest))
  {
    if a == [] {
      assert a + b == b;
      assert After([], [], Walk(rows, b, replies)) == Walk(rows, b, replies);
    } else if NextReply(replies).Acked? {
      var later := LaterReplies(replies);
      assert (a + b)[1..] == a[1..] + b;
      WalkSplit(rows, a[1..], b, later);
      var w := Walk(rows, a[1..], later);
      if !w.failed {
        AfterAfter([a[0]], Repeat(rows[a[0]].msg, Stored(NextReply(replies))), w, Walk(rows, b, w.rest));
      }
    }
  }

  lemma {:induction false} WalkIgnoresMarks(rows: map<nat, Row>, marked: seq<nat>, ids: seq<nat>, replies: seq<Reply>)
    requires forall k :: k in ids ==> k in rows
    ensures Walk(Mark(rows, marked), ids, replies) == Walk(rows, ids, replies)
  {
    if ids != [] { WalkIgnoresMarks(rows, marked, ids[1..], LaterReplies(replies)); }
  }

  lemma {:induction false} WalkAllAcked(rows: map<nat, Row>, ids: seq<nat>, replies: seq<Reply>)
    requires forall k :: k in ids ==> k in rows
    requires AllAcked(replies)
    ensures var w := Walk(rows, ids, replies);
            w.acked == ids && !w.failed && AllAcked(w.rest)
  {
    if ids != [] { WalkAllAcked(rows, ids[1..], LaterReplies(replies)); }
  }

  // ---- The rows a claim may take ----

  predicate LockedIn(open: seq<Open>, k: nat) {
    exists i :: 0 <= i < |open| && k in open[i].ids
  }

  predicate IsFree(rows: map<nat, Row>, open: seq<Open>, k: nat) {
    k in rows && !rows[k].published && !LockedIn(open, k)
  }

  /** WHERE published_at IS NULL ORDER BY id FOR UPDATE SKIP LOCKED: an index scan up to `bound`. */
  function Claimable(rows: map<nat, Row>, open: seq<Open>, bound: nat): (ids: seq<nat>)
    ensures Ascending(ids) && forall k: nat :: k in ids <==> IsFree(rows, open, k) && k < bound
  {
    if bound == 0 then [] else
      var rest := Claimable(rows, open, bound - 1);
      AscendingAppend(rest, bound - 1);
      if IsFree(rows, open, bound - 1) then rest + [bound - 1] else rest
  }

  /** LIMIT. */
  function FirstN(ids: seq<nat>, limit: nat): (r: seq<nat>)
    ensures forall k :: k in r ==> k in ids
  {
    if ids == [] || limit == 0 then [] else [ids[0]] + FirstN(ids[1..], limit - 1)
  }

  lemma {:induction false} FirstNIsPrefix(ids: seq<nat>, limit: nat)
    ensures FirstN(ids, limit) == if |ids| <= limit then ids else ids[..limit]
  {
    if ids != [] && limit > 0 {
      FirstNIsPrefix(ids[1..], limit - 1);
      assert |ids| <= limit ==> [ids[0]] + ids[1..] == ids;
      assert |ids| > limit ==> [ids[0]] + ids[1..][..limit - 1] == ids[..limit];
    }
  }

  /** Marking the first claimable rows leaves the others claimable, in order. */
  lemma PendingAfterMark(rows: map<nat, Row>, open: seq<Open>, bound: nat, n: nat)
    requires n <= |Claimable(rows, open, bound)|
    ensures Claimable(Mark(rows, Claimable(rows, open, bound)[..n]), open, bound) == Claimable(rows, open, bound)[n..]
  {
    var ids := Claimable(rows, open, bound);
    var left := Claimable(Mark(rows, ids[..n]), open, bound);
    forall k ensures k in left <==> k in ids[n..] { DropMember(ids, n, k); }
    AscendingUnique(left, ids[n..]);
  }

  lemma MarkTwice(rows: map<nat, Row>, a: seq<nat>, b: seq<nat>)
    ensures Mark(Mark(rows, a), b) == Mark(rows, a + b)
  {
  }

  // ---- One ProcessPending call ----

  /** `left` is the transaction left open, if one is, `acked` the rows the broker acknowledged, `published` how many the call
      reports. */
  datatype Batch = Batch(rows: map<nat, Row>, left: seq<Open>, acked: seq<nat>, log: seq<Message>, rest: seq<Reply>,
                         published: nat, err: Option<Error>)

  function Left(stays: bool, o: Open): seq<Open> {
    if stays then [o] else []
  }

  function Process(rows: map<nat, Row>, open: seq<Open>, bound: nat, limit: int, fault: DbFault, replies: seq<Reply>): Batch {
    if fault.BeginFails? then Batch(rows, [], [], [], replies, 0, Some(BeginError))
    else if limit < 0 then Batch(rows, [], [], [], replies, 0, Some(SelectError))
    else
      var ids := FirstN(Claimable(rows, open, bound), limit);
      if fault.SelectFails? then Batch(rows, Left(fault.stays && ids != [], Open(ids, [], false)), [], [], replies, 0, Some(SelectError))
      else if ids == [] then
        Batch(rows, [], [], [], replies, 0,
              if fault.Dies? then Some(Died) else if fault.CommitFails? || fault.CommitUnheard? then Some(CommitError) else None)
      else Finish(rows, ids, fault, Walk(rows, Reached(ids, fault), replies))
  }

  /** The rows that the publish loop gets to if no publish fails. */
  function Reached(ids: seq<nat>, fault: DbFault): (r: seq<nat>)
    ensures forall k :: k in r ==> k in ids
  {
    if fault.Dies? then FirstN(ids, fault.publishes) else ids
  }

  /** ProcessPending after its publish loop went as `w` says. */
  function Finish(rows: map<nat, Row>, ids: seq<nat>, fault: DbFault, w: Walked): Batch {
    if fault.Dies? then Batch(rows, [Open(ids, w.acked, false)], w.acked, w.log, w.rest, 0, Some(Died))
    else if fault.MarkFails? && w.acked != [] then
      Batch(rows, Left(fault.stays, Open(ids, w.acked, false)), w.acked, w.log, w.rest, 0, Some(MarkError))
    else if fault.CommitFails? then
      Batch(rows, Left(fault.stays, Open(ids, w.acked, true)), w.acked, w.log, w.rest, 0, Some(CommitError))
    else if fault.CommitUnheard? then Batch(Mark(rows, w.acked), [], w.acked, w.log, w.rest, 0, Some(CommitError))
    else Batch(Mark(rows, w.acked), [], w.acked, w.log, w.rest, |w.acked|,
               if w.failed && |w.acked| < |ids| then Some(PublishError(ids[|w.acked|])) else None)
  }

  lemma FullBatchMarks(rows: map<nat, Row>, open: seq<Open>, bound: nat, batchSize: int, fault: DbFault, replies: seq<Reply>)
    requires batchSize != 0
    requires var b := Process(rows, open, bound, batchSize, fault, replies); b.err.None? && b.published >= batchSize
    ensures 0 < batchSize <= |Claimable(rows, open, bound)|
    ensures Process(rows, open, bound, batchSize, fault, replies).rows == Mark(rows, Claimable(rows, open, bound)[..batchSize])
  {
    FirstNIsPrefix(Claimable(rows, open, bound), batchSize);
    var ids := FirstN(Claimable(rows, open, bound), batchSize);
    WalkPrefix(rows, ids, replies);
    var acked := Walk(rows, ids, replies).acked;
    assert |acked| == |ids| == batchSize && acked == ids == Claimable(rows, open, bound)[..batchSize];
  }

  /** A call that lets drain go on marked a full batch: exactly the first `batchSize` claimable rows. */
  lemma FullBatchShrinks(rows: map<nat, Row>, open: seq<Open>, bound: nat, batchSize: int, fault: DbFault, replies: seq<Reply>)
    requires batchSize != 0
    requires var b := Process(rows, open, bound, batchSize, fault, replies); b.err.None? && b.published >= batchSize
    ensures var b := Process(rows, open, bound, batchSize, fault, replies);
            && 0 < batchSize <= |Claimable(rows, open, bound)|
            && b.rows == Mark(rows, Claimable(rows, open, bound)[..batchSize])
            && b.left == [] && Claimable(b.rows, open, bound) == Claimable(rows, open, bound)[batchSize..]
  {
    FullBatchMarks(rows, open, bound, batchSize, fault, replies);
    PendingAfterMark(rows, open, bound, batchSize);
  }

  /** A full batch acknowledged everything it claimed. */
  lemma FullBatchWalk(rows: map<nat, Row>, open: seq<Open>, bound: nat, batchSize: nat, replies: seq<Reply>)
    requires batchSize >= 1
    requires var b := Process(rows, open, bound, batchSize, Fine, replies); b.err.None? && b.published >= batchSize
    ensures var b := Process(rows, open, bound, batchSize, Fine, replies);
            var batch := FirstN(Claimable(rows, open, bound), batchSize);
            var w := Walk(rows, batch, replies);
            && w.acked == batch && !w.failed && b.acked == batch
            && b.log == w.log && b.rest == w.rest && b.rows == Mark(rows, batch) && b.left == []
  {
    FirstNIsPrefix(Claimable(rows, open, bound), batchSize);
    WalkPrefix(rows, FirstN(Claimable(rows, open, bound), batchSize), replies);
  }

  lemma WalkInTwo(rows: map<nat, Row>, ids: seq<nat>, n: nat, replies: seq<Reply>)
    requires n <= |ids| && forall k :: k in ids ==> k in rows
    requires var w := Walk(rows, ids[..n], replies); w.acked == ids[..n] && !w.failed
    ensures var w := Walk(rows, ids[..n], replies);
            var v := Walk(Mark(rows, ids[..n]), ids[n..], w.rest);
            var all := Walk(rows, ids, replies);
            && all.acked == ids[..n] + v.acked && all.log == w.log + v.log && all.rest == v.rest
            && Mark(rows, all.acked) == Mark(Mark(rows, ids[..n]), v.acked)
  {
    var a, b := ids[..n], ids[n..];
    assert a + b == ids;
    WalkSplit(rows, a, b, replies);
    WalkIgnoresMarks(rows, a, b, Walk(rows, a, replies).rest);
    MarkTwice(rows, a, Walk(rows, b, Walk(rows, a, replies).rest).acked);
  }

  lemma FullBatchThenWalk(rows: map<nat, Row>, open: seq<Open>, bound: nat, batchSize: nat, replies: seq<Reply>)
    requires batchSize >= 1
    requires var b := Process(rows, open, bound, batchSize, Fine, replies); b.err.None? && b.published >= batchSize
    ensures var b := Process(rows, open, bound, batchSize, Fine, replies);
            var w := Walk(b.rows, Claimable(b.rows, open, bound), b.rest);
            var all := Walk(rows, Claimable(rows, open, bound), replies);
            && all.acked == b.acked + w.acked && all.log == b.log + w.log && all.rest == w.rest
            && Mark(rows, all.acked) == Mark(b.rows, w.acked)
  {
    FirstNIsPrefix(Claimable(rows, open, bound), batchSize);
    FullBatchShrinks(rows, open, bound, batchSize, Fine, replies);
    FullBatchWalk(rows, open, bound, batchSize, replies);
    var ids := Claimable(rows, open, bound);
    assert FirstN(ids, batchSize) == ids[..batchSize];
    WalkInTwo(rows, ids, batchSize, replies);
  }

  lemma FailureEndsWalk(rows: map<nat, Row>, ids: seq<nat>, n: nat, replies: seq<Reply>)
    requires n <= |ids| && (forall k :: k in ids ==> k in rows) && Walk(rows, ids[..n], replies).failed
    ensures Walk(rows, ids, replies) == Walk(rows, ids[..n], replies)
  {
    assert ids[..n] + ids[n..] == ids;
    WalkSplit(rows, ids[..n], ids[n..], replies);
  }

  lemma MarkNothing(rows: map<nat, Row>)
    ensures Mark(rows, []) == rows
  {
  }

  lemma LastBatchIsWalk(rows: map<nat, Row>, open: seq<Open>, bound: nat, batchSize: nat, replies: seq<Reply>)
    requires batchSize >= 1
    requires var b := Process(rows, open, bound, batchSize, Fine, replies); b.err.Some? || b.published < batchSize
    ensures var b := Process(rows, open, bound, batchSize, Fine, replies);
            var all := Walk(rows, Claimable(rows, open, bound), replies);
            && b.rows == Mark(rows, all.acked) && b.left == []
            && b.acked == all.acked && b.log == all.log && b.rest == all.rest
  {
    FirstNIsPrefix(Claimable(rows, open, bound), batchSize);
    var ids := Claimable(rows, open, bound);
    var batch := FirstN(ids, batchSize);
    WalkPrefix(rows, batch, replies);
    MarkNothing(rows);
    if batch != ids {
      assert batch == ids[..batchSize];
      FailureEndsWalk(rows, ids, batchSize, replies);
    }
  }

  lemma CalmBatch(rows: map<nat, Row>, open: seq<Open>, bound: nat, batchSize: nat, replies: seq<Reply>)
    requires batchSize >= 1 && AllAcked(replies)
    ensures var b := Process(rows, open, bound, batchSize, Fine, replies);
            var ids := FirstN(Claimable(rows, open, bound), batchSize);
            && b.err.None? && b.published == |ids| && b.rows == Mark(rows, ids) && b.left == []
            && AllAcked(b.rest)
  {
    FirstNIsPrefix(Claimable(rows, open, bound), batchSize);
    WalkAllAcked(rows, FirstN(Claimable(rows, open, bound), batchSize), replies);
    MarkNothing(rows);
  }

  // ---- The relay, its store and what happens to them ----

  /** What others do to the table: a domain transaction commits an event, the server ends an open transaction. */
  datatype Happening = Written(m: Message) | Settled(i: nat, commit: bool)

  /** What happens before a ProcessPending call, and how the call fares. */
  datatype Round = Round(meanwhile: seq<Happening>, fault: DbFault)

  /** `coming` are the rounds to come; once they run out, nothing happens and nothing fails. `acked` and `log` are all
      acknowledged publishes and all copies at the broker so far. */
  datatype World = World(rows: map<nat, Row>, nextId: nat, open: seq<Open>, coming: seq<Round>, acked: seq<nat>, log: seq<Message>,
                         replies: seq<Reply>)

  function FirstRound(coming: seq<Round>): Round {
    if coming == [] then Round([], Fine) else coming[0]
  }

  function LaterRounds(coming: seq<Round>): seq<Round> {
    if coming == [] then [] else coming[1..]
  }

  /** The server commits only what it was asked to commit. */
  function Happen(w: World, h: Happening): World {
    match h
    case Written(m) => w.(rows := w.rows[w.nextId := Row(m, false)], nextId := w.nextId + 1)
    case Settled(i, commit) =>
      if i >= |w.open| then w
      else w.(rows := if commit && w.open[i].asked then Mark(w.rows, w.open[i].acked) else w.rows,
              open := w.open[..i] + w.open[i + 1..])
  }

  function HappenAll(w: World, hs: seq<Happening>): World
    decreases |hs|
  {
    if hs == [] then w else HappenAll(Happen(w, hs[0]), hs[1..])
  }

  /** The world as the next call finds it. */
  function Prepared(w: World): World {
    HappenAll(w.(coming := LaterRounds(w.coming)), FirstRound(w.coming).meanwhile)
  }

  function FaultOf(w: World): DbFault { FirstRound(w.coming).fault }

  function BatchOf(w: World, limit: int): Batch {
    var v := Prepared(w);
    Process(v.rows, v.open, v.nextId, limit, FaultOf(w), v.replies)
  }

  function Applied(v: World, b: Batch): World {
    v.(rows := b.rows, open := v.open + b.left, acked := v.acked + b.acked, log := v.log + b.log, replies := b.rest)
  }

  function AfterCall(w: World, limit: int): World {
    Applied(Prepared(w), BatchOf(w, limit))
  }

  class Broker {
    var log: seq<Message>
    var replies: seq<Reply>

    method Publish(m: Message) returns (failed: bool)
      modifies this
      ensures log == old(log) + Repeat(m, Stored(NextReply(old(replies))))
      ensures replies == LaterReplies(old(replies))
      ensures failed == NextReply(old(replies)).Failed?
    {
      var r := NextReply(replies);
      log := log + Repeat(m, Stored(r));
      replies := LaterReplies(replies);
      failed := r.Failed?;
    }
  }

  class PgStore {
    var rows: map<nat, Row>
    var nextId: nat               // the BIGSERIAL sequence
    var open: seq<Open>           // transactions of earlier calls that the server has not ended
    var coming: seq<Round>
    ghost var acked: seq<nat>     // every acknowledged publish so far

    ghost predicate Valid()
      reads this
    {
      forall k :: k in rows ==> k < nextId
    }

    /** The INSERT of Enqueue, in a domain transaction that commits. */
    method Enqueue(topic: string, key: string, payload: string)
      requires Valid()
      modifies this`rows, this`nextId
      ensures Valid() && nextId == old(nextId) + 1
      ensures rows == old(rows)[old(nextId) := Row(Message(topic, key, payload), false)]
    {
      rows := rows[nextId := Row(Message(topic, key, payload), false)];
      nextId := nextId + 1;
    }

    /** The server ends an open transaction. */
    method Settle(i: nat, commit: bool)
      requires Valid()
      modifies this`rows, this`open
      ensures Valid()
      ensures i >= |old(open)| ==> rows == old(rows) && open == old(open)
      ensures i < |old(open)| ==> open == old(open)[..i] + old(open)[i + 1..]
      ensures i < |old(open)| ==> rows == if commit && old(open)[i].asked then Mark(old(rows), old(open)[i].acked) else old(rows)
    {
      if i < |open| {
        if commit && open[i].asked { rows := Mark(rows, open[i].acked); }
        open := open[..i] + open[i + 1..];
      }
    }

    method Suffer(h: Happening, ghost broker: Broker)
      requires Valid()
      modifies this`rows, this`nextId, this`open
      ensures Valid() && WorldOf(this, broker) == Happen(old(WorldOf(this, broker)), h)
    {
      match h
      case Written(m) => Enqueue(m.topic, m.key, m.payload);
      case Settled(i, commit) => Settle(i, commit);
    }

    /** What happens up to the next call. */
    method Await(ghost broker: Broker) returns (fault: DbFault)
      requires Valid()
      modifies this`rows, this`nextId, this`open, this`coming
      ensures Valid() && WorldOf(this, broker) == Prepared(old(WorldOf(this, broker))) && fault == FaultOf(old(WorldOf(this, broker)))
    {
      var round := FirstRound(coming);
      coming := LaterRounds(coming);
      ghost var target := HappenAll(WorldOf(this, broker), round.meanwhile);
      var i := 0;
      while i < |round.meanwhile|
        invariant 0 <= i <= |round.meanwhile| && Valid()
        invariant HappenAll(WorldOf(this, broker), round.meanwhile[i..]) == target
      {
        assert round.meanwhile[i..][1..] == round.meanwhile[i + 1..];
        Suffer(round.meanwhile[i], broker);
        i := i + 1;
      }
      return round.fault;
    }

    /** The publish loop: stop at the first failure, keeping what was acknowledged. */
    method PublishLoop(msgs: seq<nat>, broker: Broker) returns (ids: seq<nat>, publishErr: Option<Error>)
      requires forall k :: k in msgs ==> k in rows
      modifies broker
      ensures var w := Walk(rows, msgs, old(broker.replies));
              && ids == w.acked && broker.log == old(broker.log) + w.log && broker.replies == w.rest
              && |ids| <= |msgs|
              && publishErr == if w.failed && |ids| < |msgs| then Some(PublishError(msgs[|ids|])) else None
    {
      ghost var target := After([], broker.log, Walk(rows, msgs, broker.replies));
      WalkPrefix(rows, msgs, broker.replies);
      publishErr, ids := None, [];
      var i := 0;
      while i < |msgs|
        invariant 0 <= i <= |msgs| && ids == msgs[..i] && publishErr == None
        invariant After(ids, broker.log, Walk(rows, msgs[i..], broker.replies)) == target
      {
        WalkStep(rows, msgs[i..], broker.replies, ids, broker.log);
        assert msgs[i..][1..] == msgs[i + 1..];
        var failed := broker.Publish(rows[msgs[i]].msg);
        if failed {
          publishErr := Some(PublishError(msgs[i]));
          break;
        }
        ids := ids + [msgs[i]];
        i := i + 1;
      }
    }

    method ProcessPending(limit: int, broker: Broker) returns (published: nat, err: Option<Error>)
      requires Valid()
      modifies this, broker
      ensures Valid() && WorldOf(this, broker) == AfterCall(old(WorldOf(this, broker)), limit)
      ensures var b := BatchOf(old(WorldOf(this, broker)), limit); published == b.published && err == b.err
    {
      var fault := Await(broker);
      published, err := Attempt(limit, fault, broker);
    }

    /** The body of ProcessPending. */
    method Attempt(limit: int, fault: DbFault, broker: Broker) returns (published: nat, err: Option<Error>)
      requires Valid()
      modifies this`rows, this`open, this`acked, broker
      ensures Valid()
      ensures var b := Process(old(rows), old(open), nextId, limit, fault, old(broker.replies));
              && rows == b.rows && open == old(open) + b.left && acked == old(acked) + b.acked
              && broker.replies == b.rest && broker.log == old(broker.log) + b.log && published == b.published && err == b.err
    {
      if fault.BeginFails? { return 0, Some(BeginError); }
      if limit < 0 { return 0, Some(SelectError); }
      var msgs := FirstN(Claimable(rows, open, nextId), limit);
      if fault.SelectFails? {
        if msgs != [] && fault.stays { open := open + [Open(msgs, [], false)]; }
        return 0, Some(SelectError);
      }
      if |msgs| == 0 {
        if fault.Dies? { return 0, Some(Died); }
        return 0, if fault.CommitFails? || fault.CommitUnheard? then Some(CommitError) else None;
      }
      var ids, publishErr := PublishLoop(Reached(msgs, fault), broker);
      acked := acked + ids;
      if fault.Dies? {
        open := open + [Open(msgs, ids, false)];
        return 0, Some(Died);
      }
      if |ids| > 0 && fault.MarkFails? {
        if fault.stays { open := open + [Open(msgs, ids, false)]; }
        return 0, Some(MarkError);
      }
      if fault.CommitFails? {
        if fault.stays { open := open + [Open(msgs, ids, true)]; }
        return 0, Some(CommitError);
      }
      rows := Mark(rows, ids);
      if fault.CommitUnheard? { return 0, Some(CommitError); }
      return |ids|, publishErr;
    }
  }

  ghost function WorldOf(store: PgStore, broker: Broker): World
    reads store, broker
  {
    World(store.rows, store.nextId, store.open, store.coming, store.acked, broker.log, broker.replies)
  }

  // ---- drain: whole batches one after another ----

  /** How drain came to an end, if it did. */
  datatype End = Returned | Killed | StillRunning

  datatype Drained = Drained(w: World, calls: nat, end: End)

  function EndOf(b: Batch, batchSize: int): End {
    if b.err == Some(Died) then Killed else if b.err.Some? || b.published < batchSize then Returned else StillRunning
  }

  /** drain for at most `life` ProcessPending calls. */
  function Drain(w: World, batchSize: int, life: nat): Drained
    decreases life
  {
    if life == 0 then Drained(w, 0, StillRunning)
    else
      var e := EndOf(BatchOf(w, batchSize), batchSize);
      if e != StillRunning then Drained(AfterCall(w, batchSize), 1, e)
      else OneCallMore(Drain(AfterCall(w, batchSize), batchSize, life - 1))
  }

  function OneCallMore(d: Drained): Drained { d.(calls := d.calls + 1) }

  lemma DrainOnce(w: World, batchSize: int, life: nat, u: World, e: End)
    requires life > 0 && u == AfterCall(w, batchSize) && e == EndOf(BatchOf(w, batchSize), batchSize)
    ensures var d := Drain(w, batchSize, life);
            && (e != StillRunning ==> d.w == u && d.calls == 1 && d.end == e)
            && (e == StillRunning ==>
                  var r := Drain(u, batchSize, life - 1);
                  d.w == r.w && d.calls == r.calls + 1 && d.end == r.end)
  {
  }

  // ---- When drain comes to an end ----

  function Unpublished(rows: map<nat, Row>): set<nat> {
    set k | k in rows && !rows[k].published
  }

  function Writes(hs: seq<Happening>): nat {
    if hs == [] then 0 else (if hs[0].Written? then 1 else 0) + Writes(hs[1..])
  }

  /** How many events are still going to be written. */
  function WritesToCome(coming: seq<Round>): nat {
    if coming == [] then 0 else Writes(coming[0].meanwhile) + WritesToCome(coming[1..])
  }

  function Work(w: World): nat {
    |Unpublished(w.rows)| + WritesToCome(w.coming)
  }

  lemma SubsetSmaller(a: set<nat>, b: set<nat>)
    requires a <= b
    ensures |a| <= |b|
  {
    assert b == a + (b - a);
  }

  lemma HappenWork(w: World, h: Happening)
    ensures |Unpublished(Happen(w, h).rows)| <= |Unpublished(w.rows)| + if h.Written? then 1 else 0
    ensures Happen(w, h).coming == w.coming
  {
    match h
    case Written(_) => SubsetSmaller(Unpublished(Happen(w, h).rows), Unpublished(w.rows) + {w.nextId});
    case Settled(_, _) => SubsetSmaller(Unpublished(Happen(w, h).rows), Unpublished(w.rows));
  }

  lemma {:induction false} HappenAllWork(w: World, hs: seq<Happening>)
    ensures |Unpublished(HappenAll(w, hs).rows)| <= |Unpublished(w.rows)| + Writes(hs)
    ensures HappenAll(w, hs).coming == w.coming
    decreases |hs|
  {
    if hs != [] {
      HappenWork(w, hs[0]);
      HappenAllWork(Happen(w, hs[0]), hs[1..]);
    }
  }

  lemma MarkOneLess(rows: map<nat, Row>, ids: seq<nat>)
    requires ids != [] && ids[0] in rows && !rows[ids[0]].published
    ensures |Unpublished(Mark(rows, ids))| < |Unpublished(rows)|
  {
    SubsetSmaller(Unpublished(Mark(rows, ids)), Unpublished(rows) - {ids[0]});
  }

  lemma FullBatchLess(rows: map<nat, Row>, open: seq<Open>, bound: nat, batchSize: int, fault: DbFault, replies: seq<Reply>)
    requires batchSize != 0
    requires var b := Process(rows, open, bound, batchSize, fault, replies); b.err.None? && b.published >= batchSize
    ensures |Unpublished(Process(rows, open, bound, batchSize, fault, replies).rows)| < |Unpublished(rows)|
  {
    FullBatchMarks(rows, open, bound, batchSize, fault, replies);
    var ids := Claimable(rows, open, bound);
    assert ids[0] in ids;
    MarkOneLess(rows, ids[..batchSize]);
  }

  /** A call after which drain goes on leaves less to do. */
  lemma CallLeavesLess(w: World, batchSize: int)
    requires batchSize != 0 && EndOf(BatchOf(w, batchSize), batchSize) == StillRunning
    ensures Work(AfterCall(w, batchSize)) < Work(w)
  {
    var v := Prepared(w);
    HappenAllWork(w.(coming := LaterRounds(w.coming)), FirstRound(w.coming).meanwhile);
    FullBatchLess(v.rows, v.open, v.nextId, batchSize, FaultOf(w), v.replies);
  }

  /** With any batch size but zero, whatever fails and whatever is written meanwhile, drain comes to an end: its measure is the
      number of unpublished rows, written or still to be written. */
  lemma {:induction false} DrainStops(w: World, batchSize: int, life: nat)
    requires batchSize != 0 && life > Work(w)
    ensures Drain(w, batchSize, life).end != StillRunning
    decreases life
  {
    if EndOf(BatchOf(w, batchSize), batchSize) == StillRunning {
      CallLeavesLess(w, batchSize);
      DrainStops(AfterCall(w, batchSize), batchSize, life - 1);
    }
  }

  /** A call on which the database fails only where an empty batch does not go. */
  predicate SparesEmptyBatch(f: DbFault) { f.Fine? || f.MarkFails? }

  lemma EmptyBatch(w: World)
    ensures EndOf(BatchOf(w, 0), 0) == StillRunning <==> SparesEmptyBatch(FaultOf(w))
    ensures AfterCall(w, 0).coming == LaterRounds(w.coming)
  {
    HappenAllWork(w.(coming := LaterRounds(w.coming)), FirstRound(w.coming).meanwhile);
  }

  lemma {:induction false} EmptyBatches(w: World, life: nat)
    requires forall i :: 0 <= i < |w.coming| ==> SparesEmptyBatch(w.coming[i].fault)
    ensures Drain(w, 0, life).end == StillRunning
    decreases life
  {
    if life > 0 {
      EmptyBatch(w);
      EmptyBatches(AfterCall(w, 0), life - 1);
    }
  }

  lemma {:induction false} FaultEndsEmptyBatches(w: World, i: nat)
    requires i < |w.coming| && !SparesEmptyBatch(w.coming[i].fault)
    ensures Drain(w, 0, i + 1).end != StillRunning
    decreases i
  {
    EmptyBatch(w);
    if SparesEmptyBatch(w.coming[0].fault) {
      assert w.coming[1..][i - 1] == w.coming[i];
      FaultEndsEmptyBatches(AfterCall(w, 0), i - 1);
    }
  }

  /** drain goes on for ever exactly when the batch size is zero, no begin, select or commit ever fails and the process never
      dies in a call. */
  lemma ZeroBatchNeverStops(w: World, batchSize: int)
    ensures (forall life: nat :: Drain(w, batchSize, life).end == StillRunning) <==>
            batchSize == 0 && forall i :: 0 <= i < |w.coming| ==> SparesEmptyBatch(w.coming[i].fault)
  {
    if batchSize != 0 {
      DrainStops(w, batchSize, Work(w) + 1);
    } else if i :| 0 <= i < |w.coming| && !SparesEmptyBatch(w.coming[i].fault) {
      FaultEndsEmptyBatches(w, i);
      assert Drain(w, batchSize, i + 1).end != StillRunning;
    } else {
      forall life: nat { EmptyBatches(w, life); }
    }
  }

  // ---- Batches against one walk ----

  function ClaimableIn(w: World): seq<nat> { Claimable(w.rows, w.open, w.nextId) }

  /** One walk over all claimable rows up to the first publish failure, with what it acknowledged marked. */
  function WalkedThrough(w: World): World {
    var v := Walk(w.rows, ClaimableIn(w), w.replies);
    w.(rows := Mark(w.rows, v.acked), acked := w.acked + v.acked, log := w.log + v.log, replies := v.rest)
  }

  lemma QuietCall(w: World, batchSize: nat)
    requires w.coming == []
    ensures BatchOf(w, batchSize) == Process(w.rows, w.open, w.nextId, batchSize, Fine, w.replies)
    ensures AfterCall(w, batchSize) == Applied(w, BatchOf(w, batchSize)) && AfterCall(w, batchSize).coming == []
  {
    assert w.(coming := LaterRounds(w.coming)) == w;
    assert HappenAll(w, []) == w;
  }

  /** A walk after a batch that opened nothing, if the two walks join. */
  lemma JoinWalks(w: World, b: Batch)
    requires b.left == []
    requires var v := Walk(b.rows, Claimable(b.rows, w.open, w.nextId), b.rest);
             var all := Walk(w.rows, ClaimableIn(w), w.replies);
             && all.acked == b.acked + v.acked && all.log == b.log + v.log && all.rest == v.rest
             && Mark(w.rows, all.acked) == Mark(b.rows, v.acked)
    ensures WalkedThrough(Applied(w, b)) == WalkedThrough(w)
  {
    var v := Walk(b.rows, Claimable(b.rows, w.open, w.nextId), b.rest);
    assert w.open + [] == w.open;
    Assoc(w.acked, b.acked, v.acked);
    Assoc(w.log, b.log, v.log);
  }

  lemma FullCallWalks(w: World, batchSize: nat)
    requires w.coming == [] && batchSize >= 1 && EndOf(BatchOf(w, batchSize), batchSize) == StillRunning
    ensures WalkedThrough(AfterCall(w, batchSize)) == WalkedThrough(w)
  {
    QuietCall(w, batchSize);
    FullBatchThenWalk(w.rows, w.open, w.nextId, batchSize, w.replies);
    FullBatchShrinks(w.rows, w.open, w.nextId, batchSize, Fine, w.replies);
    JoinWalks(w, BatchOf(w, batchSize));
  }

  lemma FullCallClaims(w: World, batchSize: nat)
    requires w.coming == [] && batchSize >= 1 && EndOf(BatchOf(w, batchSize), batchSize) == StillRunning
    ensures |ClaimableIn(AfterCall(w, batchSize))| < |ClaimableIn(w)|
  {
    QuietCall(w, batchSize);
    FullBatchShrinks(w.rows, w.open, w.nextId, batchSize, Fine, w.replies);
    assert w.open + [] == w.open;
  }

  lemma LastCallWalks(w: World, batchSize: nat)
    requires w.coming == [] && batchSize >= 1 && EndOf(BatchOf(w, batchSize), batchSize) != StillRunning
    ensures AfterCall(w, batchSize) == WalkedThrough(w) && EndOf(BatchOf(w, batchSize), batchSize) == Returned
  {
    QuietCall(w, batchSize);
    LastBatchIsWalk(w.rows, w.open, w.nextId, batchSize, w.replies);
    assert w.open + [] == w.open;
  }

  lemma {:induction false} DrainWalks(w: World, batchSize: nat, life: nat)
    requires w.coming == [] && batchSize >= 1 && life > |ClaimableIn(w)|
    ensures Drain(w, batchSize, life).end == Returned && Drain(w, batchSize, life).w == WalkedThrough(w)
    decreases life
  {
    if EndOf(BatchOf(w, batchSize), batchSize) == StillRunning {
      FullCallWalks(w, batchSize);
      FullCallClaims(w, batchSize);
      QuietCall(w, batchSize);
      DrainWalks(AfterCall(w, batchSize), batchSize, life - 1);
    } else {
      LastCallWalks(w, batchSize);
    }
  }

  /** With no database failures and nothing written meanwhile, draining in batches of any size leaves exactly the world that one
      walk over all claimable rows leaves, and the rows that walk did not get acknowledged stay claimable in order. */
  lemma DrainRefinesWalk(w: World, batchSize: nat, life: nat)
    requires w.coming == [] && batchSize >= 1 && life > |ClaimableIn(w)|
    ensures var d := Drain(w, batchSize, life);
            && d.end == Returned && d.w == WalkedThrough(w)
            && ClaimableIn(d.w) == ClaimableIn(w)[|Walk(w.rows, ClaimableIn(w), w.replies).acked|..]
  {
    DrainWalks(w, batchSize, life);
    WalkPrefix(w.rows, ClaimableIn(w), w.replies);
    PendingAfterMark(w.rows, w.open, w.nextId, |Walk(w.rows, ClaimableIn(w), w.replies).acked|);
  }

  /** How many full batches there are in `n` rows. */
  function FullBatches(n: nat, batchSize: nat): nat
    requires batchSize >= 1
  {
    if n < batchSize then 0 else FullBatches(n - batchSize, batchSize) + 1
  }

  lemma {:induction false} FullBatchesIsQuotient(n: nat, batchSize: nat)
    requires batchSize >= 1
    ensures FullBatches(n, batchSize) == n / batchSize
  {
    if n >= batchSize {
      FullBatchesIsQuotient(n - batchSize, batchSize);
      var q := FullBatches(n - batchSize, batchSize);
      assert n == batchSize * (q + 1) + (n - batchSize) % batchSize;
      DivUnique(n, batchSize, q + 1, (n - batchSize) % batchSize);
    }
  }

  lemma DivUnique(n: nat, d: nat, q: nat, r: nat)
    requires d >= 1 && r < d && n == d * q + r
    ensures n / d == q
  {
    var x := n / d - q;
    assert d * x == r - n % d;
    assert x >= 1 ==> d * x >= d;
    assert x <= -1 ==> d * x <= 0 - d;
  }

  predicate Calm(w: World) {
    w.coming == [] && AllAcked(w.replies)
  }

  /** A calm call over at least a batch of claimable rows is a full one, over fewer it is the last one. */
  lemma CalmCall(w: World, batchSize: nat)
    requires Calm(w) && batchSize >= 1
    ensures var n := |ClaimableIn(w)|;
            var u := AfterCall(w, batchSize);
            && Calm(u)
            && (EndOf(BatchOf(w, batchSize), batchSize) == if n >= batchSize then StillRunning else Returned)
            && |ClaimableIn(u)| == if n >= batchSize then n - batchSize else 0
  {
    var ids := ClaimableIn(w);
    QuietCall(w, batchSize);
    CalmBatch(w.rows, w.open, w.nextId, batchSize, w.replies);
    FirstNIsPrefix(ids, batchSize);
    assert w.open + [] == w.open;
    if |ids| <= batchSize { assert ids[..|ids|] == ids; }
    PendingAfterMark(w.rows, w.open, w.nextId, if |ids| >= batchSize then batchSize else |ids|);
  }

  /** Whether drain is over within `life` calls, after how many of them, and with how many rows left to claim. */
  lemma {:induction false} CalmDrain(w: World, batchSize: nat, life: nat, n: nat)
    requires Calm(w) && batchSize >= 1 && n == |ClaimableIn(w)|
    ensures var d := Drain(w, batchSize, life);
            && (d.end == if life > FullBatches(n, batchSize) then Returned else StillRunning)
            && (d.end.Returned? ==> d.calls == FullBatches(n, batchSize) + 1 && |ClaimableIn(d.w)| == 0)
    decreases life
  {
    if life > 0 {
      CalmCall(w, batchSize);
      DrainOnce(w, batchSize, life, AfterCall(w, batchSize), EndOf(BatchOf(w, batchSize), batchSize));
      if n >= batchSize { CalmDrain(AfterCall(w, batchSize), batchSize, life - 1, n - batchSize); }
    }
  }

  /** With no failures at all, drain is over exactly when the process lives for more than P / batchSize calls, P being the
      number of claimable rows; it then made exactly P / batchSize + 1 of them and left no row to claim. */
  lemma DrainCalls(w: World, batchSize: nat, life: nat)
    requires Calm(w) && batchSize >= 1
    ensures var d := Drain(w, batchSize, life);
            && (d.end.Returned? <==> life > |ClaimableIn(w)| / batchSize)
            && (d.end.Returned? ==> d.calls == |ClaimableIn(w)| / batchSize + 1 && ClaimableIn(d.w) == [])
  {
    CalmDrain(w, batchSize, life, |ClaimableIn(w)|);
    FullBatchesIsQuotient(|ClaimableIn(w)|, batchSize);
  }

  class Relay {
    const store: PgStore
    const broker: Broker
    const batchSize: int

    constructor (store: PgStore, broker: Broker, batchSize: int)
      ensures this.store == store && this.broker == broker && this.batchSize == batchSize
    {
      this.store, this.broker, this.batchSize := store, broker, batchSize;
    }

    /** The loop of drain, in a process that lives for at most `life` rounds. */
    method DrainStore(life: nat) returns (calls: nat, end: End)
      requires store.Valid()
      modifies store, broker
      ensures store.Valid()
      ensures Drained(WorldOf(store, broker), calls, end) == Drain(old(WorldOf(store, broker)), batchSize, life)
    {
      calls := 0;
      ghost var target := Drain(WorldOf(store, broker), batchSize, life);
      while calls < life
        invariant store.Valid() && calls <= life
        invariant var d := Drain(WorldOf(store, broker), batchSize, life - calls);
                  target.w == d.w && target.end == d.end && target.calls == calls + d.calls
      {
        ghost var before := WorldOf(store, broker);
        ghost var how := EndOf(BatchOf(before, batchSize), batchSize);
        var n, err := store.ProcessPending(batchSize, broker);
        DrainOnce(before, batchSize, life - calls, WorldOf(store, broker), how);
        assert how == if err == Some(Died) then Killed else if err.Some? || n < batchSize then Returned else StillRunning;
        calls := calls + 1;
        if err == Some(Died) { return calls, Killed; }
        if err.Some? { return calls, Returned; }
        if n < batchSize { return calls, Returned; }
      }
      return calls, StillRunning;
    }
  }

  // ---- Run: a drain on every tick, until the context is cancelled ----

  /** What reaches the relay's loop and its store, in order: ticks, with what is left of the process's life, what happens
      between the drains, the end. */
  datatype Event = Tick(life: nat) | Happens(h: Happening) | Cancel

  function Drive(w: World, batchSize: int, events: seq<Event>): World
    decreases |events|
  {
    if events == [] then w
    else
      match events[0]
      case Cancel => w
      case Happens(h) => Drive(Happen(w, h), batchSize, events[1..])
      case Tick(life) =>
        var d := Drain(w, batchSize, life);
        if d.end.Returned? then Drive(d.w, batchSize, events[1..]) else d.w
  }

  method Run(relay: Relay, events: seq<Event>)
    requires relay.store.Valid()
    modifies relay.store, relay.broker
    ensures relay.store.Valid()
    ensures WorldOf(relay.store, relay.broker) == Drive(old(WorldOf(relay.store, relay.broker)), relay.batchSize, events)
  {
    ghost var target := Drive(WorldOf(relay.store, relay.broker), relay.batchSize, events);
    var i := 0;
    while i < |events|
      invariant 0 <= i <= |events| && relay.store.Valid()
      invariant Drive(WorldOf(relay.store, relay.broker), relay.batchSize, events[i..]) == target
    {
      assert events[i..][1..] == events[i + 1..];
      match events[i] {
        case Cancel => return;
        case Happens(h) => relay.store.Suffer(h, relay.broker);
        case Tick(life) =>
          var _, end := relay.DrainStore(life);
          if !end.Returned? { return; }
      }
      i := i + 1;
    }
  }

  /** The process outlives every drain of the run. */
  predicate Survives(w: World, batchSize: int, events: seq<Event>)
    decreases |events|
  {
    if events == [] then true
    else
      match events[0]
      case Cancel => false
      case Happens(h) => Survives(Happen(w, h), batchSize, events[1..])
      case Tick(life) => Drain(w, batchSize, life).end.Returned? && Survives(Drain(w, batchSize, life).w, batchSize, events[1..])
  }

  lemma {:induction false} DrainStaysCalm(w: World, batchSize: nat, life: nat)
    requires batchSize >= 1 && Calm(w)
    ensures Calm(Drain(w, batchSize, life).w)
    decreases life
  {
    if life > 0 {
      CalmCall(w, batchSize);
      DrainStaysCalm(AfterCall(w, batchSize), batchSize, life - 1);
    }
  }

  /** Whatever was written between the ticks, a last tick that the process survives publishes and marks every row that no open
      transaction locks, if nothing fails. */
  lemma {:induction false} LastTickEmpties(w: World, batchSize: nat, events: seq<Event>, life: nat)
    requires batchSize >= 1 && Calm(w) && Survives(w, batchSize, events + [Tick(life)])
    ensures ClaimableIn(Drive(w, batchSize, events + [Tick(life)])) == []
    decreases |events|
  {
    var all := events + [Tick(life)];
    if events == [] {
      assert all[1..] == [];
      DrainCalls(w, batchSize, life);
    } else {
      assert all[1..] == events[1..] + [Tick(life)];
      match events[0]
      case Happens(h) =>
        HappenWork(w, h);
        LastTickEmpties(Happen(w, h), batchSize, events[1..], life);
      case Tick(n) =>
        DrainStaysCalm(w, batchSize, n);
        LastTickEmpties(Drain(w, batchSize, n).w, batchSize, events[1..], life);
      case Cancel =>
    }
  }
}
