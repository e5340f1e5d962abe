/** The analytics worker: daily counters, the event processor and the consumer loop, as they execute. */
module Analytics {
  import opened Wrappers
  import opened Counters
  import opened Events
  import opened Consumption

  const COUNTER_TTL: nat := 90 * 24 * 60 * 60

  datatype HandleError = DecodeError | InvalidEvent | IncrementError

  class RedisCounter {
    const client: Redis

    constructor (client: Redis)
      ensures this.client == client
    {
      this.client := client;
    }

    method Inc(key: string, now: nat, fault: Fault) returns (failed: bool)
      modifies client
      ensures client.db == if fault.Lost? then old(client.db) else Incr(old(client.db), key, now, COUNTER_TTL)
      ensures failed == !fault.Fine?
    {
      var r := client.TxIncr(key, now, COUNTER_TTL, fault);
      failed := r.Failure?;
    }
  }

  function StatsKey(topic: string, day: string): string {
    "stats:" + topic + ":" + day
  }

  /** The clock as the handler sees it: seconds for the TTL, the UTC date for the key. */
  datatype Clock = Clock(now: nat, day: string)

  /** What one handler call does to the counters, in terms of what the payload means. */
  function OutcomeOf(payload: string, fault: Fault): Consumption.Outcome {
    if Judge(payload) != Countable then Rejects
    else if fault.Fine? then Counts
    else IncFails(fault.Unheard?)
  }

  function Counted(db: Db, topic: string, clock: Clock, o: Consumption.Outcome): Db {
    if o == Rejects || o == IncFails(false) then db else Incr(db, StatsKey(topic, clock.day), clock.now, COUNTER_TTL)
  }

  class Processor {
    const counter: RedisCounter

    constructor (counter: RedisCounter)
      ensures this.counter == counter
    {
      this.counter := counter;
    }

    method Handle(topic: string, payload: string, clock: Clock, fault: Fault) returns (err: Option<HandleError>)
      modifies counter.client
      ensures counter.client.db == Counted(old(counter.client.db), topic, clock, OutcomeOf(payload, fault))
      ensures err.None? <==> OutcomeOf(payload, fault) == Counts
      ensures err == Some(IncrementError) <==> OutcomeOf(payload, fault).IncFails?
      ensures err == Some(DecodeError) <==> Judge(payload) == Undecodable
      ensures err == Some(InvalidEvent) <==> Judge(payload) == Invalid
    {
      var fields := Decode(payload);
      if fields.None? { return Some(DecodeError); }
      if Lookup(fields.value, "id") == 0 || Lookup(fields.value, "user_id") == 0 { return Some(InvalidEvent); }
      var failed := counter.Inc(StatsKey(topic, clock.day), clock.now, fault);
      return if failed then Some(IncrementError) else None;
    }
  }

  /** What the environment does in one round of the consumer loop: which partition delivers, how the calls fare, and
      whether the process dies inside the handler call. Commits that fail may have been stored. */
  datatype FetchReply = Fetched(p: nat) | FetchCanceled | FetchFails
  datatype CommitReply = CommitOk | CommitCanceled(kept: bool) | CommitFails(kept: bool)
  datatype Turn = Turn(fetch: FetchReply, clock: Clock, fault: Fault, killed: bool, commit: CommitReply)

  datatype RunError = FetchError | CommitError

  /** The worker's view of its topic after a run: the protocol state, the counters, what Run returned. */
  datatype Ran = Ran(topic: Topic, db: Db, err: Option<RunError>)

  /** The reader waits for a message on any of its partitions. */
  predicate Waiting(t: Topic) {
    forall p :: 0 <= p < |t.parts| ==> t.parts[p].stage == Fetching
  }

  predicate Delivers(t: Topic, turn: Turn) {
    turn.fetch.Fetched? && Enabled(t, Fetch(turn.fetch.p))
  }

  /** The increment got through. */
  predicate Increments(o: Consumption.Outcome) {
    o == Counts || o == IncFails(true)
  }

  function OutcomeAt(t: Topic, payload: nat -> string, turn: Turn): Consumption.Outcome
    requires Delivers(t, turn)
  {
    var q := t.parts[turn.fetch.p];
    OutcomeOf(payload(q.log[q.cursor]), turn.fault)
  }

  /** The topic after the fetch and the handler call of a round. */
  function AfterHandler(t: Topic, payload: nat -> string, turn: Turn): Topic
    requires Delivers(t, turn)
  {
    var p := turn.fetch.p;
    Next(Next(t, Fetch(p)), Handle(p, OutcomeAt(t, payload, turn)))
  }

  /** The loop over the rounds the environment allows, given each event's payload. */
  function RunSpec(t: Topic, payload: nat -> string, name: string, db: Db, turns: seq<Turn>): Ran
    requires Waiting(t)
    decreases |turns|
  {
    if turns == [] || (!turns[0].fetch.FetchFails? && !Delivers(t, turns[0])) then Ran(t, db, None)
    else if turns[0].fetch.FetchFails? then Ran(t, db, Some(FetchError))
    else
      var turn := turns[0];
      var p := turn.fetch.p;
      var o := OutcomeAt(t, payload, turn);
      var db1 := Counted(db, name, turn.clock, o);
      if turn.killed then Ran(Next(Next(t, Fetch(p)), Restart(p, Increments(o), false)), db1, None)
      else
        var t1 := AfterHandler(t, payload, turn);
        match turn.commit
        case CommitOk => RunSpec(Next(t1, Commit(p)), payload, name, db1, turns[1..])
        case CommitCanceled(kept) => Ran(Next(t1, Restart(p, false, kept)), db1, None)
        case CommitFails(kept) => Ran(Next(t1, Restart(p, false, kept)), db1, Some(CommitError))
  }

  /** A Kafka topic as the worker's reader sees it. */
  class Consumer {
    const name: string
    const payload: nat -> string
    var topic: Topic

    constructor (name: string, payload: nat -> string, topic: Topic)
      ensures this.name == name && this.payload == payload && this.topic == topic
    {
      this.name, this.payload, this.topic := name, payload, topic;
    }

    method FetchMessage(reply: FetchReply) returns (m: Option<nat>)
      requires Waiting(topic)
      modifies this
      ensures m.Some? <==> reply.Fetched? && Enabled(old(topic), Fetch(reply.p))
      ensures m.Some? ==> topic == Next(old(topic), Fetch(reply.p)) && m.value == topic.parts[reply.p].log[topic.parts[reply.p].cursor]
      ensures m.None? ==> topic == old(topic)
    {
      if reply.Fetched? && reply.p < |topic.parts| {
        var q := topic.parts[reply.p];
        if q.cursor < |q.log| {
          topic := Next(topic, Fetch(reply.p));
          return Some(q.log[q.cursor]);
        }
      }
      return None;
    }

    /** Fetch, handle, commit; a handler error is logged and its message committed all the same. */
    method Run(handler: Processor, turns: seq<Turn>) returns (err: Option<RunError>)
      requires Waiting(topic)
      modifies this, handler.counter.client
      ensures var r := RunSpec(old(topic), payload, name, old(handler.counter.client.db), turns);
              topic == r.topic && handler.counter.client.db == r.db && err == r.err
    {
      var i := 0;
      ghost var target := RunSpec(topic, payload, name, handler.counter.client.db, turns);
      while i < |turns|
        invariant 0 <= i <= |turns| && Waiting(topic)
        invariant RunSpec(topic, payload, name, handler.counter.client.db, turns[i..]) == target
      {
        var turn := turns[i];
        assert turns[i..][1..] == turns[i + 1..];
        var m := FetchMessage(turn.fetch);
        if m.None? {
          return if turn.fetch.FetchFails? then Some(FetchError) else None;
        }
        var p := turn.fetch.p;
        var text := payload(m.value);
        var failed := handler.Handle(name, text, turn.clock, turn.fault);
        var o := OutcomeOf(text, turn.fault);
        if turn.killed {
          topic := Next(topic, Restart(p, Increments(o), false));
          return None;
        }
        topic := Next(topic, Handle(p, o));
        match turn.commit {
          case CommitOk =>
            topic := Next(topic, Commit(p));
          case CommitCanceled(kept) =>
            topic := Next(topic, Restart(p, false, kept));
            return None;
          case CommitFails(kept) =>
            topic := Next(topic, Restart(p, false, kept));
            return Some(CommitError);
        }
        i := i + 1;
      }
      return None;
    }
  }

  /** So whatever the environment does, a run of the loop keeps every guarantee of the protocol, and leaves the topic as the
      next run may find it. */
  lemma {:induction false} RunKeepsInv(t: Topic, payload: nat -> string, name: string, db: Db, turns: seq<Turn>)
    requires Waiting(t) && Inv(t)
    ensures var u := RunSpec(t, payload, name, db, turns).topic; Waiting(u) && Inv(u)
    decreases |turns|
  {
    if turns != [] && Delivers(t, turns[0]) {
      var turn := turns[0];
      var p := turn.fetch.p;
      var o := OutcomeAt(t, payload, turn);
      StepKeepsInv(t, Fetch(p));
      var t1 := Next(t, Fetch(p));
      if turn.killed {
        StepKeepsInv(t1, Restart(p, Increments(o), false));
      } else {
        StepKeepsInv(t1, Handle(p, o));
        var t2 := Next(t1, Handle(p, o));
        match turn.commit
        case CommitOk =>
          StepKeepsInv(t2, Commit(p));
          RunKeepsInv(Next(t2, Commit(p)), payload, name, Counted(db, name, turn.clock, o), turns[1..]);
        case CommitCanceled(kept) => StepKeepsInv(t2, Restart(p, false, kept));
        case CommitFails(kept) => StepKeepsInv(t2, Restart(p, false, kept));
      }
    }
  }

  /** The day's counter stands at `n` and, once it exists, lasts beyond `lo` for a full TTL. */
  predicate Tallies(db: Db, key: string, n: nat, lo: nat) {
    if key in db then db[key].value == n && lo + COUNTER_TTL <= db[key].expires else n == 0
  }

  lemma CountedTallies(db: Db, name: string, clock: Clock, o: Consumption.Outcome, n: nat, lo: nat)
    requires Tallies(db, StatsKey(name, clock.day), n, lo) && lo <= clock.now < lo + COUNTER_TTL
    ensures Tallies(Counted(db, name, clock, o), StatsKey(name, clock.day), n + (if Increments(o) then 1 else 0), lo)
  {
  }

  /** Redis holds what the protocol counts: after any run of the loop within one day, faults, deaths and restarts included,
      the day's counter for the topic is the number of increments that got through. */
  lemma {:induction false} DayCounterIsCounted(t: Topic, payload: nat -> string, name: string, db: Db, turns: seq<Turn>,
                                                day: string, lo: nat)
    requires Waiting(t)
    requires forall i :: 0 <= i < |turns| ==> turns[i].clock.day == day && lo <= turns[i].clock.now < lo + COUNTER_TTL
    requires Tallies(db, StatsKey(name, day), t.counted, lo)
    ensures var r := RunSpec(t, payload, name, db, turns); Tallies(r.db, StatsKey(name, day), r.topic.counted, lo)
    decreases |turns|
  {
    if turns != [] && Delivers(t, turns[0]) {
      var turn := turns[0];
      var o := OutcomeAt(t, payload, turn);
      CountedTallies(db, name, turn.clock, o, t.counted, lo);
      if !turn.killed && turn.commit.CommitOk? {
        DayCounterIsCounted(Next(AfterHandler(t, payload, turn), Commit(turn.fetch.p)), payload, name,
                            Counted(db, name, turn.clock, o), turns[1..], day, lo);
      }
    }
  }
}
