/** One topic's partitions and the worker that fetches, handles and commits, step by step, with restarts. */
module Consumption {
  datatype Stage = Fetching | Handling | Committing

  /** `committed` is the consumer group's offset at the broker, `cursor` the offset the running session is at. */
  datatype Partition = Partition(log: seq<nat>, committed: nat, cursor: nat, stage: Stage)

  /** How one handler call ended; IncFails(true) is an increment that was applied but reported as failed. */
  datatype Outcome = Counts | Rejects | IncFails(applied: bool)

  /** `handled` lists the (partition, offset) of every handler call that returned, `counted` counts the increments that got
      through, `failed` the failures that handler calls reported, `unsure` the increments that got through with no call to
      report it: its error said otherwise, or it never returned. */
  datatype Topic = Topic(parts: seq<Partition>, handled: seq<(nat, nat)>, counted: nat, failed: nat, unsure: nat)

  datatype Action =
    | Fetch(p: nat)
    | Handle(p: nat, outcome: Outcome)
    | Commit(p: nat)
    | Restart(p: nat, counted: bool, offsetStored: bool)  // the session dies; its increment or commit may have got through

  function Empty(n: nat): Topic {
    Topic(seq(n, _ => Partition([], 0, 0, Fetching)), [], 0, 0, 0)
  }

  predicate Enabled(t: Topic, a: Action) {
    a.p < |t.parts| &&
    var q := t.parts[a.p];
    match a
    case Fetch(_) => q.stage == Fetching && q.cursor < |q.log|
    case Handle(_, _) => q.stage == Handling
    case Commit(_) => q.stage == Committing
    case Restart(_, counted, offsetStored) => (counted ==> q.stage == Handling) && (offsetStored ==> q.stage == Committing)
  }

  function Next(t: Topic, a: Action): Topic
    requires Enabled(t, a)
  {
    var q := t.parts[a.p];
    match a
    case Fetch(p) => t.(parts := t.parts[p := q.(stage := Handling)])
    case Handle(p, outcome) =>
      t.(parts := t.parts[p := q.(stage := Committing)],
         handled := t.handled + [(p, q.cursor)],
         counted := t.counted + (if outcome == Counts || outcome == IncFails(true) then 1 else 0),
         failed := t.failed + (if outcome == Counts then 0 else 1),
         unsure := t.unsure + (if outcome == IncFails(true) then 1 else 0))
    case Commit(p) =>
      t.(parts := t.parts[p := Partition(q.log, q.cursor + 1, q.cursor + 1, Fetching)])
    case Restart(p, counted, offsetStored) =>
      var offset := if offsetStored then q.cursor + 1 else q.committed;
      t.(parts := t.parts[p := Partition(q.log, offset, offset, Fetching)],
         counted := t.counted + (if counted then 1 else 0),
         unsure := t.unsure + (if counted then 1 else 0))
  }

  /** The broker appends a copy of event `k` to partition `p`. */
  function Append(t: Topic, p: nat, k: nat): Topic
    requires p < |t.parts|
  {
    t.(parts := t.parts[p := t.parts[p].(log := t.parts[p].log + [k])])
  }

  ghost predicate PartitionOk(t: Topic, p: nat)
    requires p < |t.parts|
  {
    var q := t.parts[p];
    && q.committed == q.cursor <= |q.log|
    && (q.stage != Fetching ==> q.cursor < |q.log|)
    && (q.stage == Committing ==> (p, q.cursor) in t.handled)
    && (forall o :: 0 <= o < q.committed ==> (p, o) in t.handled)
  }

  ghost predicate Inv(t: Topic) {
    && (forall p :: 0 <= p < |t.parts| ==> PartitionOk(t, p))
    && (forall e :: e in t.handled ==> e.0 < |t.parts| && e.1 < |t.parts[e.0].log|)
    && |t.handled| + t.unsure == t.counted + t.failed
  }

  lemma EmptyInv(n: nat)
    ensures Inv(Empty(n))
  {
  }

  lemma StepKeepsInv(t: Topic, a: Action)
    requires Inv(t) && Enabled(t, a)
    ensures Inv(Next(t, a))
  {
    var u := Next(t, a);
    forall p | 0 <= p < |u.parts| ensures PartitionOk(u, p) {
      assert PartitionOk(t, p);
      if a.Commit? && p == a.p {
        forall o | 0 <= o < u.parts[p].committed ensures (p, o) in u.handled {
          if o == t.parts[p].cursor { }
        }
      }
    }
    assert PartitionOk(t, a.p);
  }

  lemma AppendKeepsInv(t: Topic, p: nat, k: nat)
    requires Inv(t) && p < |t.parts|
    ensures Inv(Append(t, p, k))
  {
    var u := Append(t, p, k);
    forall q | 0 <= q < |u.parts| ensures PartitionOk(u, q) {
      assert PartitionOk(t, q);
    }
  }

  /** The distinct events with a copy below a committed offset. */
  ghost function EventsBelow(t: Topic): set<nat> {
    set p, o | 0 <= p < |t.parts| && 0 <= o < t.parts[p].committed && o < |t.parts[p].log| :: t.parts[p].log[o]
  }

  ghost function EventsOf(t: Topic, es: seq<(nat, nat)>): set<nat> {
    set i | 0 <= i < |es| && es[i].0 < |t.parts| && es[i].1 < |t.parts[es[i].0].log| :: t.parts[es[i].0].log[es[i].1]
  }

  ghost function EventAt(t: Topic, e: (nat, nat)): (r: set<nat>)
    ensures |r| <= 1
  {
    if e.0 < |t.parts| && e.1 < |t.parts[e.0].log| then {t.parts[e.0].log[e.1]} else {}
  }

  lemma LastEvent(t: Topic, es: seq<(nat, nat)>)
    requires es != []
    ensures EventsOf(t, es) <= EventsOf(t, es[..|es| - 1]) + EventAt(t, es[|es| - 1])
  {
    var n := |es| - 1;
    forall k | k in EventsOf(t, es) ensures k in EventsOf(t, es[..n]) || k in EventAt(t, es[n]) {
      var i :| 0 <= i < |es| && es[i].0 < |t.parts| && es[i].1 < |t.parts[es[i].0].log| && t.parts[es[i].0].log[es[i].1] == k;
      if i < n { assert es[..n][i] == es[i]; }
    }
  }

  lemma {:induction false} EventsOfBound(t: Topic, es: seq<(nat, nat)>)
    ensures |EventsOf(t, es)| <= |es|
  {
    if es != [] {
      var n := |es| - 1;
      EventsOfBound(t, es[..n]);
      LastEvent(t, es);
      SubsetSmaller(EventsOf(t, es), EventsOf(t, es[..n]) + EventAt(t, es[n]));
    }
  }

  /** At least once: every distinct event below a committed offset has been counted, in a call that said so, or reported as
      failed. */
  lemma EventsAreHandled(t: Topic)
    requires Inv(t)
    ensures |EventsBelow(t)| + t.unsure <= t.counted + t.failed
  {
    forall k | k in EventsBelow(t) ensures k in EventsOf(t, t.handled) {
      var p, o :| 0 <= p < |t.parts| && 0 <= o < t.parts[p].committed && o < |t.parts[p].log| && t.parts[p].log[o] == k;
      assert PartitionOk(t, p);
      var i :| 0 <= i < |t.handled| && t.handled[i] == (p, o);
    }
    EventsOfBound(t, t.handled);
    SubsetSmaller(EventsBelow(t), EventsOf(t, t.handled));
  }

  lemma {:induction false} SubsetSmaller<T>(a: set<T>, b: set<T>)
    requires a <= b
    ensures |a| <= |b|
  {
    if a != {} {
      var x :| x in a;
      SubsetSmaller(a - {x}, b - {x});
    }
  }
}
