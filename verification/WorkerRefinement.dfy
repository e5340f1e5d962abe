/** The worker's code is one of the behaviours of the pipeline: what Consumer.Run does to its topic is a run of the pipeline's
    worker steps, so what holds end to end holds of the code. */
module WorkerRefinement {
  import opened Counters
  import opened Events
  import opened Analytics
  import Pipeline
  import Worker = Consumption

  /** The worker reads what the outbox rows say. */
  ghost predicate Reads(s: Pipeline.State, payload: nat -> string) {
    forall k :: k in s.outbox.rows ==> payload(k) == s.outbox.rows[k].msg.payload
  }

  // ---- The loop as steps on its topic ----

  /** A handler's answer is the processor's verdict on the payload. */
  ghost predicate Honest(t: Worker.Topic, step: Worker.Action, payload: nat -> string)
    requires Worker.Enabled(t, step)
  {
    step.Handle? ==>
      var q := t.parts[step.p];
      q.cursor < |q.log| && (step.outcome.Rejects? <==> Judge(payload(q.log[q.cursor])) != Countable)
  }

  ghost predicate TopicRun(t: Worker.Topic, steps: seq<Worker.Action>, payload: nat -> string, u: Worker.Topic)
    decreases |steps|
  {
    if steps == [] then t == u
    else Worker.Enabled(t, steps[0]) && Honest(t, steps[0], payload) && TopicRun(Worker.Next(t, steps[0]), steps[1..], payload, u)
  }

  lemma TopicRunFrom(t: Worker.Topic, step: Worker.Action, more: seq<Worker.Action>, payload: nat -> string, u: Worker.Topic)
    requires Worker.Enabled(t, step) && Honest(t, step, payload) && TopicRun(Worker.Next(t, step), more, payload, u)
    ensures TopicRun(t, [step] + more, payload, u)
  {
    assert ([step] + more)[1..] == more;
  }

  /** A fetch, a handler call and a last step, before `more`. */
  lemma RoundRun(t: Worker.Topic, payload: nat -> string, turn: Turn, last: Worker.Action, more: seq<Worker.Action>, u: Worker.Topic)
    returns (steps: seq<Worker.Action>)
    requires Delivers(t, turn) && Worker.Enabled(AfterHandler(t, payload, turn), last) && !last.Handle?
    requires TopicRun(Worker.Next(AfterHandler(t, payload, turn), last), more, payload, u)
    ensures TopicRun(t, steps, payload, u)
  {
    var p := turn.fetch.p;
    var fetch, handle := Worker.Fetch(p), Worker.Handle(p, OutcomeAt(t, payload, turn));
    TopicRunFrom(AfterHandler(t, payload, turn), last, more, payload, u);
    TopicRunFrom(Worker.Next(t, fetch), handle, [last] + more, payload, u);
    TopicRunFrom(t, fetch, [handle] + ([last] + more), payload, u);
    steps := [fetch] + ([handle] + ([last] + more));
  }

  /** A fetch, and the death of the process in the handler. */
  lemma KilledRun(t: Worker.Topic, payload: nat -> string, p: nat, counted: bool) returns (steps: seq<Worker.Action>)
    requires Worker.Enabled(t, Worker.Fetch(p))
    ensures TopicRun(t, steps, payload, Worker.Next(Worker.Next(t, Worker.Fetch(p)), Worker.Restart(p, counted, false)))
  {
    var u := Worker.Next(t, Worker.Fetch(p));
    var end := Worker.Restart(p, counted, false);
    TopicRunFrom(u, end, [], payload, Worker.Next(u, end));
    TopicRunFrom(t, Worker.Fetch(p), [end] + [], payload, Worker.Next(u, end));
    steps := [Worker.Fetch(p)] + ([end] + []);
  }

  lemma {:induction false} LoopIsTopicRun(t: Worker.Topic, payload: nat -> string, name: string, db: Db, turns: seq<Turn>)
    returns (steps: seq<Worker.Action>)
    requires Waiting(t)
    ensures TopicRun(t, steps, payload, RunSpec(t, payload, name, db, turns).topic)
    decreases |turns|
  {
    if turns == [] || !Delivers(t, turns[0]) {
      steps := [];
    } else if turns[0].killed {
      steps := KilledRun(t, payload, turns[0].fetch.p, Increments(OutcomeAt(t, payload, turns[0])));
    } else {
      var turn := turns[0];
      var p := turn.fetch.p;
      match turn.commit
      case CommitOk =>
        var v := Worker.Next(AfterHandler(t, payload, turn), Worker.Commit(p));
        var db1 := Counted(db, name, turn.clock, OutcomeAt(t, payload, turn));
        var more := LoopIsTopicRun(v, payload, name, db1, turns[1..]);
        steps := RoundRun(t, payload, turn, Worker.Commit(p), more, RunSpec(v, payload, name, db1, turns[1..]).topic);
      case CommitCanceled(kept) =>
        var last := Worker.Restart(p, false, kept);
        steps := RoundRun(t, payload, turn, last, [], Worker.Next(AfterHandler(t, payload, turn), last));
      case CommitFails(kept) =>
        var last := Worker.Restart(p, false, kept);
        steps := RoundRun(t, payload, turn, last, [], Worker.Next(AfterHandler(t, payload, turn), last));
    }
  }

  // ---- Steps on a topic as steps of the pipeline ----

  /** The message under the cursor is a row of the outbox, so an honest answer is one the pipeline allows. */
  lemma HonestAnswers(s: Pipeline.State, name: string, step: Worker.Action, payload: nat -> string)
    requires Pipeline.LogsOk(s) && name in s.topics && Worker.Enabled(s.topics[name], step) && Honest(s.topics[name], step, payload)
    requires Reads(s, payload)
    ensures Pipeline.Answers(s, name, step)
  {
    if step.Handle? {
      var q := s.topics[name].parts[step.p];
      assert Pipeline.InLog(s.topics[name], q.log[q.cursor]);
      assert Pipeline.LogOk(s, name, q.log[q.cursor]);
    }
  }

  lemma WorkStep(s: Pipeline.State, name: string, step: Worker.Action, payload: nat -> string) returns (u: Pipeline.State)
    requires Pipeline.Inv(s) && name in s.topics && Worker.Enabled(s.topics[name], step) && Honest(s.topics[name], step, payload)
    requires Reads(s, payload)
    ensures Pipeline.Enabled(s, Pipeline.Work(name, step)) && u == Pipeline.Next(s, Pipeline.Work(name, step))
    ensures Pipeline.Inv(u) && u.outbox == s.outbox && u.topics == s.topics[name := Worker.Next(s.topics[name], step)]
  {
    HonestAnswers(s, name, step, payload);
    u := Pipeline.Next(s, Pipeline.Work(name, step));
    Pipeline.StepKeepsInv(s, Pipeline.Work(name, step));
  }

  lemma {:induction false} TopicRunIsRun(s: Pipeline.State, name: string, payload: nat -> string, steps: seq<Worker.Action>,
                                         v: Worker.Topic)
    returns (actions: seq<Pipeline.Action>, t: Pipeline.State)
    requires Pipeline.Inv(s) && name in s.topics && Reads(s, payload) && TopicRun(s.topics[name], steps, payload, v)
    ensures Pipeline.Reaches(s, actions, t) && t.outbox == s.outbox && t.topics == s.topics[name := v]
    decreases |steps|
  {
    if steps == [] {
      actions, t := [], s;
      assert s.topics[name := v] == s.topics;
    } else {
      var u := WorkStep(s, name, steps[0], payload);
      var more;
      more, t := TopicRunIsRun(u, name, payload, steps[1..], v);
      Pipeline.ReachesFrom(s, Pipeline.Work(name, steps[0]), more, t);
      actions := [Pipeline.Work(name, steps[0])] + more;
    }
  }

  /** Every run of the consumer loop, on a topic of the pipeline, is a run of the pipeline that leaves the topic as the loop
      does and touches nothing else. */
  lemma RunIsWork(s: Pipeline.State, payload: nat -> string, name: string, db: Db, turns: seq<Turn>)
    returns (actions: seq<Pipeline.Action>, t: Pipeline.State)
    requires Pipeline.Inv(s) && name in s.topics && Waiting(s.topics[name]) && Reads(s, payload)
    ensures Pipeline.Reaches(s, actions, t) && t.outbox == s.outbox
    ensures t.topics == s.topics[name := RunSpec(s.topics[name], payload, name, db, turns).topic]
  {
    var steps := LoopIsTopicRun(s.topics[name], payload, name, db, turns);
    actions, t := TopicRunIsRun(s, name, payload, steps, RunSpec(s.topics[name], payload, name, db, turns).topic);
  }
}
