/** What the worker does get done: which payloads count and under which key, and how far a run of the loop comes. */
module WorkerProgress {
  import opened Wrappers
  import opened Sequences
  import opened Counters
  import opened Decimal
  import opened Events
  import opened Consumption
  import opened Analytics

  // ---- One handler call ----

  /** A well-formed event counts exactly if both ids are nonzero, however JSONB lays it out, and is invalid otherwise. */
  lemma ListingJudged(id: int, userId: int, text: string)
    requires JsonbText(ListingFields(id, userId), text)
    ensures Judge(text) == if id != 0 && userId != 0 then Countable else Invalid
  {
    var fs := ListingFields(id, userId);
    var read := StoredTextDecodes(fs, text);
    ListingFieldsUnique(id, userId);
    LookupReordered(read, fs, "id", id);
    LookupReordered(read, fs, "user_id", userId);
  }

  lemma BoostJudged(id: int, listingId: int, userId: int, text: string)
    requires JsonbText(BoostFields(id, listingId, userId), text)
    ensures Judge(text) == if id != 0 && userId != 0 then Countable else Invalid
  {
    var fs := BoostFields(id, listingId, userId);
    var read := StoredTextDecodes(fs, text);
    BoostFieldsUnique(id, listingId, userId);
    LookupReordered(read, fs, "id", id);
    LookupReordered(read, fs, "user_id", userId);
  }

  /** What does not start like an object is undecodable. */
  lemma NoObjectUndecodable(text: string)
    requires SkipSpace(text) == "" || SkipSpace(text)[0] != '{'
    ensures Judge(text) == Undecodable
  {
  }

  /** Of a field given twice the last one counts, and one that is missing is zero. */
  lemma LastFieldCounts(fs: seq<Field>, name: string, v: int)
    ensures Lookup(fs + [(name, v)], name) == v
    ensures (forall u :: (name, u) !in fs) ==> Lookup(fs, name) == 0
  {
    assert (fs + [(name, v)])[|fs|] == (name, v);
    if forall u :: (name, u) !in fs { MissingFieldIsZero(fs, name); }
  }

  lemma {:induction false} MissingFieldIsZero(fs: seq<Field>, name: string)
    requires forall u :: (name, u) !in fs
    ensures Lookup(fs, name) == 0
  {
    if fs != [] {
      var n := |fs| - 1;
      assert fs[n] in fs;
      assert (fs[n].0, fs[n].1) == fs[n];
      assert forall u :: (name, u) in fs[..n] ==> (name, u) in fs;
      MissingFieldIsZero(fs[..n], name);
    }
  }

  /** A handler call counts exactly the countable events whose increment Redis confirmed, rejects exactly the others, and
      loses an increment exactly when Redis did. */
  lemma OutcomeExactly(payload: string, fault: Fault)
    ensures OutcomeOf(payload, fault) == Counts <==> Judge(payload) == Countable && fault.Fine?
    ensures OutcomeOf(payload, fault) == Rejects <==> Judge(payload) != Countable
    ensures OutcomeOf(payload, fault) == IncFails(true) <==> Judge(payload) == Countable && fault.Unheard?
  {
  }

  /** The key's counter as `now` sees it, zero if there is none. */
  function ValueAt(db: Db, key: string, now: nat): nat {
    match Seen(db, key, now)
    case None => 0
    case Some(c) => c.value
  }

  /** An increment adds one to the day's counter of its topic, which keeps its expiry, or lives for ninety days if it is new;
      every other counter stays, and without an increment all of them. */
  lemma CountedExactly(db: Db, topic: string, clock: Clock, o: Consumption.Outcome)
    ensures var key := StatsKey(topic, clock.day);
            var u := Counted(db, topic, clock, o);
            && (!Increments(o) ==> u == db)
            && (Increments(o) ==>
                  && key in u && u[key].value == ValueAt(db, key, clock.now) + 1
                  && u[key].expires == (match Seen(db, key, clock.now)
                                        case None => clock.now + 7776000
                                        case Some(c) => c.expires)
                  && forall k :: k != key ==> (k in u <==> k in db) && (k in db ==> k in u && u[k] == db[k]))
  {
  }

  /** Different topics and different days have different counters; a day, written as a date, has no colon. */
  lemma KeysDiffer(topic: string, day: string, topic': string, day': string)
    requires NoColon(day) && NoColon(day')
    ensures StatsKey(topic, day) == StatsKey(topic', day') <==> topic == topic' && day == day'
  {
    var k, k' := StatsKey(topic, day), StatsKey(topic', day');
    if k == k' {
      var i, i' := 6 + |topic|, 6 + |topic'|;
      assert k[i] == ':' && k'[i'] == ':';
      assert forall j :: i < j < |k| ==> k[j] == day[j - i - 1] != ':';
      assert forall j :: i' < j < |k'| ==> k'[j] == day'[j - i' - 1] != ':';
      assert i == i';
      assert k[6..i] == topic && k'[6..i] == topic';
      assert k[i + 1..] == day && k'[i + 1..] == day';
    }
  }

  /** The key as the product's metrics read it. */
  lemma KeyExample()
    ensures StatsKey("listing.created", "2024-01-02") == "stats:listing.created:2024-01-02"
    ensures forall day :: StatsKey("listing.created", day) != StatsKey("boost.created", day)
  {
    forall day ensures StatsKey("listing.created", day) != StatsKey("boost.created", day) {
      assert StatsKey("listing.created", day)[6] == 'l' && StatsKey("boost.created", day)[6] == 'b';
    }
  }

  // ---- Runs of the loop ----

  /** How many of the rounds are about partition `p`. */
  function On(turns: seq<Turn>, p: nat): nat {
    if turns == [] then 0 else (if turns[0].fetch == Fetched(p) then 1 else 0) + On(turns[1..], p)
  }

  /** Every round delivers a message and commits it; what the handler makes of it does not matter. */
  predicate Steady(t: Topic, turns: seq<Turn>) {
    && (forall i :: 0 <= i < |turns| ==>
          turns[i].fetch.Fetched? && turns[i].fetch.p < |t.parts| && !turns[i].killed && turns[i].commit.CommitOk?)
    && (forall p :: 0 <= p < |t.parts| ==> t.parts[p].cursor + On(turns, p) <= |t.parts[p].log|)
  }

  function AfterTurn(t: Topic, payload: nat -> string, turn: Turn): Topic
    requires Delivers(t, turn)
  {
    Next(AfterHandler(t, payload, turn), Commit(turn.fetch.p))
  }

  lemma FirstIsSteady(t: Topic, payload: nat -> string, turns: seq<Turn>)
    requires Waiting(t) && turns != [] && Steady(t, turns)
    ensures Delivers(t, turns[0])
    ensures var u := AfterTurn(t, payload, turns[0]);
            var p := turns[0].fetch.p;
            && Waiting(u) && Steady(u, turns[1..]) && |u.parts| == |t.parts|
            && u.parts[p] == Partition(t.parts[p].log, t.parts[p].cursor + 1, t.parts[p].cursor + 1, Fetching)
            && (forall q :: 0 <= q < |t.parts| && q != p ==> u.parts[q] == t.parts[q])
            && u.handled == t.handled + [(p, t.parts[p].cursor)]
  {
    var p := turns[0].fetch.p;
    assert On(turns, p) >= 1;
    var u := AfterTurn(t, payload, turns[0]);
    assert forall i :: 0 <= i < |turns[1..]| ==> turns[1..][i] == turns[i + 1];
    forall q | 0 <= q < |u.parts| ensures u.parts[q].cursor + On(turns[1..], q) <= |u.parts[q].log| {
      assert On(turns, q) == (if q == p then 1 else 0) + On(turns[1..], q);
    }
  }

  /** Steady rounds lead on to whatever comes after them. */
  lemma {:induction false} SteadyThen(t: Topic, payload: nat -> string, name: string, db: Db, turns: seq<Turn>, more: seq<Turn>)
    requires Waiting(t) && Steady(t, turns)
    ensures var r := RunSpec(t, payload, name, db, turns);
            Waiting(r.topic) && RunSpec(t, payload, name, db, turns + more) == RunSpec(r.topic, payload, name, r.db, more)
    decreases |turns|
  {
    if turns == [] {
      assert turns + more == more;
    } else {
      FirstIsSteady(t, payload, turns);
      assert (turns + more)[0] == turns[0] && (turns + more)[1..] == turns[1..] + more;
      SteadyThen(AfterTurn(t, payload, turns[0]), payload, name,
                 Counted(db, name, turns[0].clock, OutcomeAt(t, payload, turns[0])), turns[1..], more);
    }
  }

  /** Progress: whatever the payloads are and whatever Redis does, steady rounds get past their messages. Each partition's
      committed offset moves by as many messages as it delivered, each of them was given to the handler, in order, and the
      loop returns no error. */
  lemma {:induction false} SteadyProgress(t: Topic, payload: nat -> string, name: string, db: Db, turns: seq<Turn>)
    requires Waiting(t) && Steady(t, turns)
    requires forall p :: 0 <= p < |t.parts| ==> t.parts[p].committed == t.parts[p].cursor
    ensures var r := RunSpec(t, payload, name, db, turns);
            var u := r.topic;
            && r.err == None && |u.parts| == |t.parts|
            && (forall p :: 0 <= p < |t.parts| ==>
                  && u.parts[p].committed == u.parts[p].cursor == t.parts[p].committed + On(turns, p)
                  && u.parts[p].log == t.parts[p].log)
            && t.handled <= u.handled && |u.handled| == |t.handled| + |turns|
            && (forall p, o :: 0 <= p < |t.parts| && t.parts[p].committed <= o < u.parts[p].committed ==> (p, o) in u.handled)
    decreases |turns|
  {
    if turns != [] {
      FirstIsSteady(t, payload, turns);
      var v := AfterTurn(t, payload, turns[0]);
      var db1 := Counted(db, name, turns[0].clock, OutcomeAt(t, payload, turns[0]));
      SteadyProgress(v, payload, name, db1, turns[1..]);
      var u := RunSpec(v, payload, name, db1, turns[1..]).topic;
      assert v.handled[|t.handled|] == (turns[0].fetch.p, t.parts[turns[0].fetch.p].cursor);
      assert u.handled[|t.handled|] == v.handled[|t.handled|];
      forall p, o | 0 <= p < |t.parts| && t.parts[p].committed <= o < u.parts[p].committed ensures (p, o) in u.handled {
        if !(p == turns[0].fetch.p && o == t.parts[p].cursor) { assert v.parts[p].committed <= o; }
      }
    }
  }

  /** If moreover every payload is countable and Redis answers, each message is counted once and nothing fails. */
  lemma {:induction false} SteadyCounts(t: Topic, payload: nat -> string, name: string, db: Db, turns: seq<Turn>)
    requires Waiting(t) && Steady(t, turns)
    requires (forall k :: Judge(payload(k)) == Countable) && forall i :: 0 <= i < |turns| ==> turns[i].fault.Fine?
    ensures var u := RunSpec(t, payload, name, db, turns).topic;
            u.counted == t.counted + |turns| && u.failed == t.failed && u.unsure == t.unsure
    decreases |turns|
  {
    if turns != [] {
      FirstIsSteady(t, payload, turns);
      assert forall i :: 0 <= i < |turns[1..]| ==> turns[1..][i] == turns[i + 1];
      SteadyCounts(AfterTurn(t, payload, turns[0]), payload, name,
                   Counted(db, name, turns[0].clock, OutcomeAt(t, payload, turns[0])), turns[1..]);
    }
  }

  /** How the loop ends: after steady rounds, a fetch that fails or a commit that fails ends it with that error, a cancelled one
      with none, and nothing after that matters. A commit that was kept counts. */
  lemma RunEnds(t: Topic, payload: nat -> string, name: string, db: Db, turns: seq<Turn>, last: Turn, more: seq<Turn>)
    requires Waiting(t) && Steady(t, turns)
    ensures var before := RunSpec(t, payload, name, db, turns);
            var r := RunSpec(t, payload, name, db, turns + ([last] + more));
            && (last.fetch.FetchFails? ==> r == Ran(before.topic, before.db, Some(FetchError)))
            && (last.fetch.FetchCanceled? ==> r == Ran(before.topic, before.db, None))
            && (Delivers(before.topic, last) && !last.killed && !last.commit.CommitOk? ==>
                  var p := last.fetch.p;
                  && r.err == (if last.commit.CommitFails? then Some(CommitError) else None)
                  && |r.topic.parts| == |before.topic.parts|
                  && r.topic.parts[p].committed
                     == if last.commit.kept then before.topic.parts[p].cursor + 1 else before.topic.parts[p].committed)
            && (Delivers(before.topic, last) && last.killed ==> r.err == None)
  {
    SteadyThen(t, payload, name, db, turns, [last] + more);
    assert ([last] + more)[0] == last;
  }
}
