/** From a committed domain write to the analytics counters: the outbox, the broker's partitions and the worker
    as one system, any number of relays and restarts interleaved. */
module Pipeline {
  import opened Events
  import Outbox = OutboxProtocol
  import Worker = Consumption

  /** Kafka topics by name, and the outbox that feeds them. */
  datatype State = State(outbox: Outbox.State, topics: map<string, Worker.Topic>)

  datatype Action =
    | Write(row: nat, event: DomainEvent, text: string)     // a listing or boost commits with its outbox row
    | Relay(move: Outbox.Action)                            // a claim, commit, rollback or crash
    | Send(claim: nat, placed: seq<nat>, ok: bool)          // one publish call; a partition for each copy stored
    | Work(topic: string, step: Worker.Action)

  function Init(listingPartitions: nat, boostPartitions: nat): State {
    State(Outbox.Init(), map["listing.created" := Worker.Empty(listingPartitions), "boost.created" := Worker.Empty(boostPartitions)])
  }

  function Row(e: DomainEvent, text: string): Outbox.Message {
    Outbox.Message(e.Topic(), e.Key(), text)
  }

  /** The outbox step an action makes, if any. */
  function OutboxStep(a: Action): Outbox.Action
    requires !a.Work?
  {
    match a
    case Write(row, e, text) => Outbox.Enqueue(row, Row(e, text))
    case Relay(step) => step
    case Send(c, placed, ok) => Outbox.Publish(c, |placed|, ok)
  }

  /** The row a publish call is about. */
  function Sent(s: State, c: nat): nat
    requires c < |s.outbox.claims| && s.outbox.claims[c].acked < |s.outbox.claims[c].ids|
  {
    s.outbox.claims[c].ids[s.outbox.claims[c].acked]
  }

  /** What the worker's handler may answer: the verdict on the payload is the processor's, the rest Redis's. */
  ghost predicate Answers(s: State, topic: string, step: Worker.Action)
    requires topic in s.topics
  {
    step.Handle? && Worker.Enabled(s.topics[topic], step) ==>
      var q := s.topics[topic].parts[step.p];
      q.cursor < |q.log| && q.log[q.cursor] in s.outbox.rows &&
      (step.outcome.Rejects? <==> Judge(s.outbox.rows[q.log[q.cursor]].msg.payload) != Countable)
  }

  ghost predicate Enabled(s: State, a: Action) {
    match a
    case Write(_, e, text) => Outbox.Enabled(s.outbox, OutboxStep(a)) && e.Valid() && JsonbText(e.Contents(), text)
    case Relay(step) => Outbox.Enabled(s.outbox, step) && !step.Publish? && !step.Enqueue?
    case Send(c, placed, _) =>
      && Outbox.Enabled(s.outbox, OutboxStep(a))
      && Sent(s, c) in s.outbox.rows && s.outbox.rows[Sent(s, c)].msg.topic in s.topics
      && forall i :: 0 <= i < |placed| ==> placed[i] < |s.topics[s.outbox.rows[Sent(s, c)].msg.topic].parts|
    case Work(topic, step) => topic in s.topics && Worker.Enabled(s.topics[topic], step) && Answers(s, topic, step)
  }

  function AppendAll(t: Worker.Topic, placed: seq<nat>, k: nat): (u: Worker.Topic)
    requires forall i :: 0 <= i < |placed| ==> placed[i] < |t.parts|
    ensures |u.parts| == |t.parts| && u.failed == t.failed
    decreases |placed|
  {
    if placed == [] then t else AppendAll(Worker.Append(t, placed[0], k), placed[1..], k)
  }

  function Next(s: State, a: Action): State
    requires Enabled(s, a)
  {
    match a
    case Work(topic, step) => s.(topics := s.topics[topic := Worker.Next(s.topics[topic], step)])
    case Send(c, placed, _) =>
      var k := Sent(s, c);
      var topic := s.outbox.rows[k].msg.topic;
      State(Outbox.Next(s.outbox, OutboxStep(a)), s.topics[topic := AppendAll(s.topics[topic], placed, k)])
    case _ => s.(outbox := Outbox.Next(s.outbox, OutboxStep(a)))
  }

  ghost predicate Reaches(s: State, actions: seq<Action>, t: State)
    decreases |actions|
  {
    if actions == [] then s == t else Enabled(s, actions[0]) && Reaches(Next(s, actions[0]), actions[1..], t)
  }

  lemma ReachesFrom(s: State, first: Action, more: seq<Action>, t: State)
    requires Enabled(s, first) && Reaches(Next(s, first), more, t)
    ensures Reaches(s, [first] + more, t)
  {
    assert ([first] + more)[1..] == more;
  }

  // ---- What every reachable state keeps ----

  ghost predicate InLog(t: Worker.Topic, k: nat) {
    exists p, o :: 0 <= p < |t.parts| && 0 <= o < |t.parts[p].log| && t.parts[p].log[o] == k
  }

  ghost predicate RowOk(s: State, k: nat)
    requires k in s.outbox.rows
  {
    && s.outbox.rows[k].msg.topic in s.topics
    && Judge(s.outbox.rows[k].msg.payload) == Countable
    && (k in s.outbox.acks ==> InLog(s.topics[s.outbox.rows[k].msg.topic], k))
  }

  ghost predicate TopicsOk(s: State) {
    && s.topics.Keys == {"listing.created", "boost.created"}
    && forall n :: n in s.topics ==> Worker.Inv(s.topics[n])
  }

  ghost predicate RowsOk(s: State) {
    forall k :: k in s.outbox.rows ==> RowOk(s, k)
  }

  ghost predicate LogOk(s: State, n: string, k: nat) {
    n in s.topics && InLog(s.topics[n], k) ==> k in s.outbox.rows && s.outbox.rows[k].msg.topic == n
  }

  /** A topic holds copies of its own rows only. */
  ghost predicate LogsOk(s: State) {
    forall n, k :: LogOk(s, n, k)
  }

  ghost predicate Inv(s: State) {
    Outbox.Inv(s.outbox) && TopicsOk(s) && RowsOk(s) && LogsOk(s)
  }

  lemma InLogAppend(t: Worker.Topic, p: nat, k: nat, x: nat)
    requires p < |t.parts|
    ensures InLog(Worker.Append(t, p, k), x) <==> InLog(t, x) || x == k
  {
    var u := Worker.Append(t, p, k);
    assert u.parts[p].log[|t.parts[p].log|] == k;
    if InLog(t, x) {
      var q, o :| 0 <= q < |t.parts| && 0 <= o < |t.parts[q].log| && t.parts[q].log[o] == x;
      assert u.parts[q].log[o] == x;
    }
    if InLog(u, x) && x != k {
      var q, o :| 0 <= q < |u.parts| && 0 <= o < |u.parts[q].log| && u.parts[q].log[o] == x;
      assert t.parts[q].log[o] == x;
    }
  }

  lemma {:induction false} AppendAllLogs(t: Worker.Topic, placed: seq<nat>, k: nat, x: nat)
    requires forall i :: 0 <= i < |placed| ==> placed[i] < |t.parts|
    ensures InLog(AppendAll(t, placed, k), x) <==> InLog(t, x) || (x == k && placed != [])
    decreases |placed|
  {
    if placed != [] {
      InLogAppend(t, placed[0], k, x);
      AppendAllLogs(Worker.Append(t, placed[0], k), placed[1..], k, x);
    }
  }

  lemma {:induction false} AppendAllKeepsInv(t: Worker.Topic, placed: seq<nat>, k: nat)
    requires forall i :: 0 <= i < |placed| ==> placed[i] < |t.parts|
    requires Worker.Inv(t)
    ensures Worker.Inv(AppendAll(t, placed, k))
    decreases |placed|
  {
    if placed != [] {
      Worker.AppendKeepsInv(t, placed[0], k);
      AppendAllKeepsInv(Worker.Append(t, placed[0], k), placed[1..], k);
    }
  }

  lemma WorkKeepsLog(t: Worker.Topic, step: Worker.Action, x: nat)
    requires Worker.Enabled(t, step)
    ensures InLog(Worker.Next(t, step), x) <==> InLog(t, x)
  {
    var u := Worker.Next(t, step);
    assert |u.parts| == |t.parts| && forall p :: 0 <= p < |t.parts| ==> u.parts[p].log == t.parts[p].log;
    if InLog(t, x) {
      var q, o :| 0 <= q < |t.parts| && 0 <= o < |t.parts[q].log| && t.parts[q].log[o] == x;
      assert u.parts[q].log[o] == x;
    }
    if InLog(u, x) {
      var q, o :| 0 <= q < |u.parts| && 0 <= o < |u.parts[q].log| && u.parts[q].log[o] == x;
      assert t.parts[q].log[o] == x;
    }
  }

  /** An outbox step never changes what a row says, and only a publish acknowledges. */
  lemma RowsKeepMessages(s: Outbox.State, a: Outbox.Action)
    requires Outbox.Enabled(s, a)
    ensures var t := Outbox.Next(s, a);
            && (forall k :: k in s.rows ==> k in t.rows && t.rows[k].msg == s.rows[k].msg)
            && (forall k :: k in t.rows ==> k in s.rows || (a.Enqueue? && k == a.id && t.rows[k].msg == a.msg))
            && t.acks == if a.Publish? && a.ok then s.acks + [s.claims[a.c].ids[s.claims[a.c].acked]] else s.acks
  {
  }

  lemma StepKeepsTopics(s: State, a: Action)
    requires TopicsOk(s) && Enabled(s, a)
    ensures TopicsOk(Next(s, a))
  {
    match a
    case Work(topic, step) => Worker.StepKeepsInv(s.topics[topic], step);
    case Send(c, placed, _) =>
      var k := Sent(s, c);
      AppendAllKeepsInv(s.topics[s.outbox.rows[k].msg.topic], placed, k);
    case Write(_, _, _) =>
    case Relay(_) =>
  }

  /** Which events a topic's log gains by a step: only the row that is being sent. */
  lemma StepLogs(s: State, a: Action, n: string, x: nat)
    requires Enabled(s, a) && n in s.topics
    ensures InLog(s.topics[n], x) ==> InLog(Next(s, a).topics[n], x)
    ensures InLog(Next(s, a).topics[n], x) ==>
              InLog(s.topics[n], x) || (a.Send? && x == Sent(s, a.claim) && s.outbox.rows[x].msg.topic == n)
    ensures a.Send? && a.ok && x == Sent(s, a.claim) && s.outbox.rows[x].msg.topic == n ==> InLog(Next(s, a).topics[n], x)
  {
    match a
    case Work(topic, step) => if n == topic { WorkKeepsLog(s.topics[topic], step, x); }
    case Send(c, placed, _) =>
      var k := Sent(s, c);
      if n == s.outbox.rows[k].msg.topic { AppendAllLogs(s.topics[n], placed, k, x); }
    case Write(_, _, _) =>
    case Relay(_) =>
  }

  lemma StepKeepsTopicNames(s: State, a: Action)
    requires Enabled(s, a)
    ensures Next(s, a).topics.Keys == s.topics.Keys
  {
  }

  lemma StepKeepsLog(s: State, a: Action, n: string, k: nat)
    requires Enabled(s, a) && LogOk(s, n, k)
    ensures LogOk(Next(s, a), n, k)
  {
    StepKeepsTopicNames(s, a);
    if n in s.topics.Keys {
      StepLogs(s, a, n, k);
      if !a.Work? { RowsKeepMessages(s.outbox, OutboxStep(a)); }
    }
  }

  lemma StepKeepsLogs(s: State, a: Action)
    requires LogsOk(s) && Enabled(s, a)
    ensures LogsOk(Next(s, a))
  {
    forall n, k ensures LogOk(Next(s, a), n, k) {
      assert LogOk(s, n, k);
      StepKeepsLog(s, a, n, k);
    }
  }

  lemma NewRowOk(s: State, a: Action)
    requires Enabled(s, a) && a.Write? && a.row !in s.outbox.acks && a.event.Topic() in s.topics
    ensures RowOk(Next(s, a), a.row)
  {
    EventReadable(a.event, a.text);
  }

  lemma OldRowOk(s: State, a: Action, k: nat)
    requires Enabled(s, a) && k in s.outbox.rows && RowOk(s, k)
    ensures k in Next(s, a).outbox.rows && RowOk(Next(s, a), k)
  {
    if !a.Work? { RowsKeepMessages(s.outbox, OutboxStep(a)); }
    StepLogs(s, a, s.outbox.rows[k].msg.topic, k);
  }

  lemma StepKeepsRows(s: State, a: Action)
    requires Inv(s) && Enabled(s, a)
    ensures RowsOk(Next(s, a))
  {
    var t := Next(s, a);
    if !a.Work? { RowsKeepMessages(s.outbox, OutboxStep(a)); }
    forall k | k in t.outbox.rows ensures RowOk(t, k) {
      if k in s.outbox.rows {
        OldRowOk(s, a, k);
      } else {
        if k in s.outbox.acks { Outbox.AckedIsRow(s.outbox, k); }
        NewRowOk(s, a);
      }
    }
  }

  lemma StepKeepsInv(s: State, a: Action)
    requires Inv(s) && Enabled(s, a)
    ensures Inv(Next(s, a))
  {
    if !a.Work? { Outbox.StepKeepsInv(s.outbox, OutboxStep(a)); }
    StepKeepsTopics(s, a);
    StepKeepsLogs(s, a);
    StepKeepsRows(s, a);
  }

  lemma {:induction false} RunKeepsInv(s: State, actions: seq<Action>, t: State)
    requires Inv(s) && Reaches(s, actions, t)
    ensures Inv(t)
    decreases |actions|
  {
    if actions != [] {
      StepKeepsInv(s, actions[0]);
      RunKeepsInv(Next(s, actions[0]), actions[1..], t);
    }
  }

  lemma InitInv(n: nat, m: nat)
    ensures Inv(Init(n, m))
  {
    Worker.EmptyInv(n);
    Worker.EmptyInv(m);
  }

  // ---- End to end ----

  /** The marked rows of a topic. */
  ghost function Delivered(s: State, topic: string): set<nat> {
    set k | k in s.outbox.rows && s.outbox.rows[k].msg.topic == topic && s.outbox.rows[k].published
  }

  /** The group has committed everything the topic holds. */
  ghost predicate CaughtUp(t: Worker.Topic) {
    forall p :: 0 <= p < |t.parts| ==> t.parts[p].committed == |t.parts[p].log|
  }

  /** No event is lost between the outbox and the counters: whatever crashed, was redelivered or rolled back, each
      distinct event below a committed offset was counted or reported as failed, increments that no call reported set apart,
      and no committed offset passed a message whose handler was not called. Once the group has caught up this covers every
      row the relays marked. */
  lemma EndToEnd(n: nat, m: nat, actions: seq<Action>, s: State, topic: string)
    requires Reaches(Init(n, m), actions, s) && topic in s.topics
    ensures var t := s.topics[topic];
            && |t.handled| + t.unsure == t.counted + t.failed
            && |Worker.EventsBelow(t)| + t.unsure <= t.counted + t.failed
            && (forall p, o :: 0 <= p < |t.parts| && 0 <= o < t.parts[p].committed ==> (p, o) in t.handled)
            && (CaughtUp(t) ==> |Delivered(s, topic)| + t.unsure <= t.counted + t.failed)
  {
    InitInv(n, m);
    RunKeepsInv(Init(n, m), actions, s);
    var t := s.topics[topic];
    Worker.EventsAreHandled(t);
    forall p | 0 <= p < |t.parts| ensures forall o :: 0 <= o < t.parts[p].committed ==> (p, o) in t.handled {
      assert Worker.PartitionOk(t, p);
    }
    if CaughtUp(t) {
      forall k | k in Delivered(s, topic) ensures k in Worker.EventsBelow(t) {
        assert Outbox.Accounted(s.outbox, k) && RowOk(s, k);
        assert k in multiset(s.outbox.acks);
      }
      Worker.SubsetSmaller(Delivered(s, topic), Worker.EventsBelow(t));
    }
  }

  ghost predicate CountersNeverFail(actions: seq<Action>) {
    forall i :: 0 <= i < |actions| && actions[i].Work? && actions[i].step.Handle? ==> !actions[i].step.outcome.IncFails?
  }

  lemma NothingRejectedStep(s: State, a: Action, topic: string)
    requires RowsOk(s) && Enabled(s, a) && (a.Work? && a.step.Handle? ==> !a.step.outcome.IncFails?)
    requires topic in s.topics && s.topics[topic].failed == 0
    ensures topic in Next(s, a).topics && Next(s, a).topics[topic].failed == 0
  {
    if a.Work? && a.topic == topic && a.step.Handle? {
      var q := s.topics[topic].parts[a.step.p];
      assert RowOk(s, q.log[q.cursor]);
    }
  }

  lemma {:induction false} NothingRejected(s: State, actions: seq<Action>, t: State, topic: string)
    requires Inv(s) && Reaches(s, actions, t) && CountersNeverFail(actions)
    requires topic in s.topics && s.topics[topic].failed == 0
    ensures topic in t.topics && t.topics[topic].failed == 0
    decreases |actions|
  {
    if actions != [] {
      var a := actions[0];
      StepKeepsInv(s, a);
      NothingRejectedStep(s, a, topic);
      assert forall i :: 0 <= i < |actions[1..]| ==> actions[1..][i] == actions[i + 1];
      NothingRejected(Next(s, a), actions[1..], t, topic);
    }
  }

  /** Every event the repositories write is readable, so while Redis answers, no message is ever rejected: a worker
      that has caught up has counted every delivered event at least once. */
  lemma EveryEventIsCounted(n: nat, m: nat, actions: seq<Action>, s: State, topic: string)
    requires Reaches(Init(n, m), actions, s) && topic in Init(n, m).topics && CountersNeverFail(actions)
    ensures topic in s.topics && s.topics[topic].failed == 0
    ensures CaughtUp(s.topics[topic]) ==> |Delivered(s, topic)| + s.topics[topic].unsure <= s.topics[topic].counted
  {
    InitInv(n, m);
    NothingRejected(Init(n, m), actions, s, topic);
    EndToEnd(n, m, actions, s, topic);
  }
}
