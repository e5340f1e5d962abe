/** From the tables to the counters: the domain transactions of Market drive the outbox of Pipeline, interleaved with any
    number of relays and with the worker. */
module Marketplace {
  import opened Wrappers
  import opened Events
  import Market
  import Pipeline
  import Outbox = OutboxProtocol

  datatype State = State(market: Market.System, pipe: Pipeline.State)

  datatype Action =
    | Domain(step: Market.Action, event: Option<DomainEvent>, text: string)   // the event it commits, and what JSONB keeps of it
    | Move(move: Pipeline.Action)                                                          // a relay, the broker or the worker

  function Init(listingPartitions: nat, boostPartitions: nat): State {
    State(Market.Empty(), Pipeline.Init(listingPartitions, boostPartitions))
  }

  /** The event that a domain step commits. */
  function Announced(s: Market.System, a: Market.Action): Option<DomainEvent>
    requires Market.Enabled(s, a)
  {
    if Market.Creates(a) then Some(ListingCreated(s.tables.lastListing + 1, a.listing.userId))
    else
      match Market.Inserted(s, a)
      case None => None
      case Some(c) => Some(BoostCreated(s.tables.lastBoost + 1, c.listingId, c.userId))
  }

  ghost predicate Enabled(s: State, a: Action) {
    match a
    case Domain(step, event, _) => Market.Enabled(s.market, step) && event == Announced(s.market, step)
    case Move(step) => !step.Write? && Pipeline.Enabled(s.pipe, step)
  }

  function WithRow(p: Pipeline.State, k: nat, e: DomainEvent, text: string): Pipeline.State {
    p.(outbox := p.outbox.(rows := p.outbox.rows[k := Outbox.Row(Pipeline.Row(e, text), false)]))
  }

  /** The outbox with the row of an event, if there is one: as events, and in the pipeline. */
  function WithEvent(events: map<nat, DomainEvent>, k: nat, e: Option<DomainEvent>): map<nat, DomainEvent> {
    match e case None => events case Some(v) => events[k := v]
  }

  function WithEventRow(p: Pipeline.State, k: nat, e: Option<DomainEvent>, text: string): Pipeline.State {
    match e case None => p case Some(v) => WithRow(p, k, v, text)
  }

  function Next(s: State, a: Action): State
    requires Enabled(s, a)
  {
    match a
    case Domain(step, event, text) =>
      State(Market.Next(s.market, step), WithEventRow(s.pipe, s.market.tables.lastRow + 1, event, text))
    case Move(step) => s.(pipe := Pipeline.Next(s.pipe, step))
  }

  ghost predicate Reaches(s: State, actions: seq<Action>, t: State)
    decreases |actions|
  {
    if actions == [] then s == t else Enabled(s, actions[0]) && Reaches(Next(s, actions[0]), actions[1..], t)
  }

  /** The text of a new row is what JSONB may keep of its event's payload. */
  ghost predicate Legible(a: Action) {
    a.Domain? && a.event.Some? ==> JsonbText(a.event.value.Contents(), a.text)
  }

  ghost predicate AllLegible(actions: seq<Action>) {
    forall i :: 0 <= i < |actions| ==> Legible(actions[i])
  }

  // ---- Both sides keep the same outbox ----

  ghost predicate RowAgrees(e: DomainEvent, m: Outbox.Message) {
    m.topic == e.Topic() && m.key == e.Key()
  }

  /** The events of the tables and the rows of the outbox. */
  ghost predicate Agree(events: map<nat, DomainEvent>, rows: map<nat, Outbox.Row>) {
    && (forall k :: k in events <==> k in rows)
    && (forall k :: k in events && k in rows ==> RowAgrees(events[k], rows[k].msg))
  }

  ghost predicate Inv(s: State) {
    Agree(s.market.tables.outbox, s.pipe.outbox.rows) && Market.EventsOk(s.market.tables) && Market.CallsOk(s.market)
  }

  lemma AnnouncedShape(s: Market.System, a: Market.Action)
    requires Market.Enabled(s, a) && Market.CallsOk(s)
    ensures Market.Next(s, a).tables.outbox == WithEvent(s.tables.outbox, s.tables.lastRow + 1, Announced(s, a))
    ensures Announced(s, a).Some? ==> Announced(s, a).value.Valid()
  {
    if Market.Creates(a) {
    } else if Market.Inserted(s, a).Some? {
      Market.InsertShape(s, a);
    } else {
      Market.OtherShape(s, a);
    }
  }

  /** A new row is a Write of the pipeline. */
  lemma NewRowIsWrite(p: Pipeline.State, k: nat, e: DomainEvent, text: string)
    requires k !in p.outbox.rows && e.Valid() && JsonbText(e.Contents(), text)
    ensures Pipeline.Enabled(p, Pipeline.Write(k, e, text)) && Pipeline.Next(p, Pipeline.Write(k, e, text)) == WithRow(p, k, e, text)
  {
  }

  lemma AgreeWithRow(events: map<nat, DomainEvent>, p: Pipeline.State, k: nat, e: DomainEvent, text: string)
    requires Agree(events, p.outbox.rows)
    ensures Agree(events[k := e], WithRow(p, k, e, text).outbox.rows)
  {
    var rows := WithRow(p, k, e, text).outbox.rows;
    forall i | i in events[k := e] && i in rows ensures RowAgrees(events[k := e][i], rows[i].msg) {
      if i != k { assert RowAgrees(events[i], p.outbox.rows[i].msg); }
    }
  }

  lemma AgreeAfterMove(events: map<nat, DomainEvent>, p: Pipeline.State, step: Pipeline.Action)
    requires Agree(events, p.outbox.rows) && Pipeline.Enabled(p, step) && !step.Write?
    ensures Agree(events, Pipeline.Next(p, step).outbox.rows)
  {
    var rows, rows' := p.outbox.rows, Pipeline.Next(p, step).outbox.rows;
    MoveKeepsRows(p, step);
    forall k | k in events && k in rows' ensures RowAgrees(events[k], rows'[k].msg) {
      assert RowAgrees(events[k], rows[k].msg);
    }
  }

  lemma MoveKeepsRows(p: Pipeline.State, step: Pipeline.Action)
    requires Pipeline.Enabled(p, step) && !step.Write?
    ensures var rows, rows' := p.outbox.rows, Pipeline.Next(p, step).outbox.rows;
            forall k :: (k in rows <==> k in rows') && (k in rows ==> rows'[k].msg == rows[k].msg)
  {
    if !step.Work? { Pipeline.RowsKeepMessages(p.outbox, Pipeline.OutboxStep(step)); }
  }

  lemma AgreeNext(events: map<nat, DomainEvent>, p: Pipeline.State, k: nat, e: Option<DomainEvent>, text: string)
    requires Agree(events, p.outbox.rows)
    ensures Agree(WithEvent(events, k, e), WithEventRow(p, k, e, text).outbox.rows)
  {
    if e.Some? { AgreeWithRow(events, p, k, e.value, text); }
  }

  lemma DomainKeepsAgreement(s: State, step: Market.Action, event: Option<DomainEvent>, text: string)
    requires Agree(s.market.tables.outbox, s.pipe.outbox.rows) && Market.CallsOk(s.market)
    requires Market.Enabled(s.market, step) && event == Announced(s.market, step)
    ensures Agree(Market.Next(s.market, step).tables.outbox, WithEventRow(s.pipe, s.market.tables.lastRow + 1, event, text).outbox.rows)
  {
    AnnouncedShape(s.market, step);
    AgreeNext(s.market.tables.outbox, s.pipe, s.market.tables.lastRow + 1, event, text);
  }

  lemma NewRowIsFresh(s: State, step: Market.Action, e: DomainEvent)
    requires Inv(s) && Market.Enabled(s.market, step) && Announced(s.market, step) == Some(e)
    ensures s.market.tables.lastRow + 1 !in s.pipe.outbox.rows && e.Valid()
  {
    AnnouncedShape(s.market, step);
    Market.FreshIds(s.market.tables);
  }

  lemma DomainNext(s: State, a: Action)
    requires Enabled(s, a) && a.Domain?
    ensures Next(s, a).market == Market.Next(s.market, a.step)
    ensures Next(s, a).pipe == WithEventRow(s.pipe, s.market.tables.lastRow + 1, a.event, a.text)
  {
  }

  lemma DomainKeepsInv(s: State, step: Market.Action, event: Option<DomainEvent>, text: string)
    requires Inv(s) && Market.Enabled(s.market, step) && event == Announced(s.market, step)
    ensures Inv(State(Market.Next(s.market, step), WithEventRow(s.pipe, s.market.tables.lastRow + 1, event, text)))
  {
    DomainKeepsAgreement(s, step, event, text);
    Market.StepEvents(s.market, step);
    Market.StepCalls(s.market, step);
  }

  lemma StepKeepsInv(s: State, a: Action)
    requires Inv(s) && Enabled(s, a)
    ensures Inv(Next(s, a))
  {
    match a
    case Domain(step, event, text) =>
      DomainNext(s, a);
      DomainKeepsInv(s, step, event, text);
    case Move(step) => AgreeAfterMove(s.market.tables.outbox, s.pipe, step);
  }

  /** The increments that Redis answers never fail. */
  ghost predicate CountersNeverFail(actions: seq<Action>) {
    forall i :: 0 <= i < |actions| && actions[i].Move? && actions[i].move.Work? && actions[i].move.step.Handle? ==>
      !actions[i].move.step.outcome.IncFails?
  }

  /** A domain step that commits an event makes a Write of the pipeline. */
  lemma DomainIsWrite(s: State, a: Action)
    requires Inv(s) && Enabled(s, a) && Legible(a) && a.Domain? && a.event.Some?
    ensures var w := Pipeline.Write(s.market.tables.lastRow + 1, a.event.value, a.text);
            Pipeline.Enabled(s.pipe, w) && Pipeline.Next(s.pipe, w) == WithRow(s.pipe, w.row, a.event.value, a.text)
  {
    NewRowIsFresh(s, a.step, a.event.value);
    NewRowIsWrite(s.pipe, s.market.tables.lastRow + 1, a.event.value, a.text);
  }

  /** What the pipeline sees of a step. */
  lemma PipelineStep(s: State, a: Action) returns (seen: Option<Pipeline.Action>)
    requires Inv(s) && Enabled(s, a) && Legible(a)
    ensures seen.None? ==> Next(s, a).pipe == s.pipe
    ensures seen.Some? ==> Pipeline.Enabled(s.pipe, seen.value) && Next(s, a).pipe == Pipeline.Next(s.pipe, seen.value)
    ensures seen.Some? ==> seen.value.Write? || (a.Move? && seen.value == a.move)
  {
    match a
    case Move(step) => seen := Some(step);
    case Domain(_, event, text) =>
      DomainNext(s, a);
      if event.None? {
        seen := None;
      } else {
        DomainIsWrite(s, a);
        seen := Some(Pipeline.Write(s.market.tables.lastRow + 1, event.value, text));
      }
  }

  /** What the pipeline sees of a run. */
  lemma {:induction false} PipelineOf(s: State, actions: seq<Action>, t: State) returns (seen: seq<Pipeline.Action>)
    requires Inv(s) && Reaches(s, actions, t) && AllLegible(actions)
    ensures Inv(t) && Pipeline.Reaches(s.pipe, seen, t.pipe)
    ensures CountersNeverFail(actions) ==> Pipeline.CountersNeverFail(seen)
    decreases |actions|
  {
    if actions == [] {
      seen := [];
    } else {
      StepKeepsInv(s, actions[0]);
      assert forall i :: 0 <= i < |actions[1..]| ==> actions[1..][i] == actions[i + 1];
      var first := PipelineStep(s, actions[0]);
      var more := PipelineOf(Next(s, actions[0]), actions[1..], t);
      if first.None? {
        seen := more;
      } else {
        Pipeline.ReachesFrom(s.pipe, first.value, more, t.pipe);
        seen := [first.value] + more;
      }
    }
  }

  // ---- Every listing and boost arrives ----

  lemma {:induction false} InjectiveSize(m: map<nat, nat>, rows: set<nat>)
    requires forall i :: i in m ==> m[i] in rows
    requires forall i, j :: i in m && j in m && i != j ==> m[i] != m[j]
    ensures |m| <= |rows|
    decreases |m|
  {
    if m != map[] {
      var i :| i in m;
      var rest := m - {i};
      assert rest.Keys == m.Keys - {i};
      assert |m| == |m.Keys| && |rest| == |rest.Keys|;
      InjectiveSize(rest, rows - {m[i]});
    }
  }

  /** The rows of a topic, and those among them not yet marked as published. */
  ghost function RowsOf(s: State, topic: string): set<nat> {
    set k | k in s.pipe.outbox.rows && s.pipe.outbox.rows[k].msg.topic == topic
  }

  ghost function Unpublished(s: State, topic: string): set<nat> {
    set k | k in s.pipe.outbox.rows && s.pipe.outbox.rows[k].msg.topic == topic && !s.pipe.outbox.rows[k].published
  }

  lemma ListingsHaveRows(s: State)
    requires Inv(s)
    ensures |s.market.tables.created| <= |RowsOf(s, "listing.created")|
  {
    var t := s.market.tables;
    var m := map id | id in t.created :: t.created[id].row;
    assert m.Keys == t.created.Keys;
    assert |m| == |m.Keys| && |t.created| == |t.created.Keys|;
    forall id | id in m ensures m[id] in RowsOf(s, "listing.created") {
      assert Market.ListingWritten(t, id);
      assert RowAgrees(t.outbox[m[id]], s.pipe.outbox.rows[m[id]].msg);
    }
    forall i, j | i in m && j in m && i != j ensures m[i] != m[j] {
      assert Market.ListingWritten(t, i) && Market.ListingWritten(t, j);
    }
    InjectiveSize(m, RowsOf(s, "listing.created"));
  }

  lemma BoostsHaveRows(s: State)
    requires Inv(s)
    ensures |s.market.tables.boosted| <= |RowsOf(s, "boost.created")|
  {
    var t := s.market.tables;
    var m := map id | id in t.boosted :: t.boosted[id].row;
    assert m.Keys == t.boosted.Keys;
    assert |m| == |m.Keys| && |t.boosted| == |t.boosted.Keys|;
    forall id | id in m ensures m[id] in RowsOf(s, "boost.created") {
      assert Market.BoostWritten(t, id);
      assert RowAgrees(t.outbox[m[id]], s.pipe.outbox.rows[m[id]].msg);
    }
    forall i, j | i in m && j in m && i != j ensures m[i] != m[j] {
      assert Market.BoostWritten(t, i) && Market.BoostWritten(t, j);
    }
    InjectiveSize(m, RowsOf(s, "boost.created"));
  }

  lemma RowsSplit(s: State, topic: string)
    ensures |RowsOf(s, topic)| <= |Unpublished(s, topic)| + |Pipeline.Delivered(s.pipe, topic)|
  {
    assert RowsOf(s, topic) == Unpublished(s, topic) + Pipeline.Delivered(s.pipe, topic);
  }

  lemma InitInv(n: nat, m: nat)
    ensures Inv(Init(n, m))
  {
  }

  /** Whatever interleaves, rolls back, crashes, is redelivered or deleted: once the worker has caught up with a topic, the
      listings (and boosts) ever committed number at most the rows not yet published, the increments and the failures. */
  lemma WritesArrive(n: nat, m: nat, actions: seq<Action>, t: State)
    requires Reaches(Init(n, m), actions, t) && AllLegible(actions)
    ensures "listing.created" in t.pipe.topics && "boost.created" in t.pipe.topics
    ensures var w := t.pipe.topics["listing.created"];
            Pipeline.CaughtUp(w) ==> |t.market.tables.created| + w.unsure <= |Unpublished(t, "listing.created")| + w.counted + w.failed
    ensures var w := t.pipe.topics["boost.created"];
            Pipeline.CaughtUp(w) ==> |t.market.tables.boosted| + w.unsure <= |Unpublished(t, "boost.created")| + w.counted + w.failed
  {
    InitInv(n, m);
    var seen := PipelineOf(Init(n, m), actions, t);
    Pipeline.InitInv(n, m);
    Pipeline.RunKeepsInv(Pipeline.Init(n, m), seen, t.pipe);
    ListingsHaveRows(t);
    BoostsHaveRows(t);
    RowsSplit(t, "listing.created");
    RowsSplit(t, "boost.created");
    Pipeline.EndToEnd(n, m, seen, t.pipe, "listing.created");
    Pipeline.EndToEnd(n, m, seen, t.pipe, "boost.created");
  }

  /** And while Redis answers, with all rows published and the worker caught up, every listing and boost ever committed has
      been counted. */
  lemma EveryWriteIsCounted(n: nat, m: nat, actions: seq<Action>, t: State)
    requires Reaches(Init(n, m), actions, t) && AllLegible(actions) && CountersNeverFail(actions)
    requires forall k :: k in t.pipe.outbox.rows ==> t.pipe.outbox.rows[k].published
    requires forall name :: name in t.pipe.topics ==> Pipeline.CaughtUp(t.pipe.topics[name])
    ensures "listing.created" in t.pipe.topics && "boost.created" in t.pipe.topics
    ensures var w := t.pipe.topics["listing.created"]; |t.market.tables.created| + w.unsure <= w.counted
    ensures var w := t.pipe.topics["boost.created"]; |t.market.tables.boosted| + w.unsure <= w.counted
  {
    InitInv(n, m);
    var seen := PipelineOf(Init(n, m), actions, t);
    WritesArrive(n, m, actions, t);
    assert Unpublished(t, "listing.created") == {} && Unpublished(t, "boost.created") == {};
    Pipeline.EveryEventIsCounted(n, m, seen, t.pipe, "listing.created");
    Pipeline.EveryEventIsCounted(n, m, seen, t.pipe, "boost.created");
  }
}
