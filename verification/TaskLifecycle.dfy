/**
 What every run of store operations keeps: the lifecycle of a record, and that
 a record which is still there is still the record it was.
 */
module TaskLifecycle {
  import opened Text
  import opened Tasks

  // ---------------------------------------------------------------------
  // Runs
  // ---------------------------------------------------------------------

  /** `finish` is only ever given a terminal status; the workers see to that. */
  predicate Proper(step: Step) {
    step.op.Finish? ==> IsTerminal(step.op.status)
  }

  ghost predicate AllProper(steps: seq<Step>) {
    forall step :: step in steps ==> Proper(step)
  }

  ghost function Run(config: Config, t: Table, steps: seq<Step>): Table {
    if steps == [] then t
    else Apply(config, Run(config, t, steps[..|steps| - 1]), steps[|steps| - 1])
  }

  /** No step of the run is given this task id for a new task. */
  ghost predicate NeverReused(steps: seq<Step>, id: string) {
    forall step :: step in steps ==> !(step.op.Create? && step.op.id == id)
  }

  // ---------------------------------------------------------------------
  // The lifecycle
  // ---------------------------------------------------------------------

  predicate RecordSound(id: string, record: Record) {
    && record.task.id == id
    && (record.outcome.Some? <==> IsTerminal(record.task.status))
    && (record.cancelled ==> record.task.status.Cancelled?)
    && record.task.ttl.Some?
  }

  ghost predicate Sound(t: Table) {
    forall id :: id in t ==> RecordSound(id, t[id])
  }

  /** What no operation changes about a record, and what it never changes once terminal. */
  predicate Continues(before: Record, after: Record) {
    && after.owner == before.owner
    && after.created == before.created
    && after.task.id == before.task.id
    && after.task.ttl == before.task.ttl
    && after.task.createdAt == before.task.createdAt
    && (IsTerminal(before.task.status) ==> after == before)
  }

  lemma {:induction false} MakeRoomOnlyRemoves(t: Table, ceiling: nat)
    ensures forall id :: id in MakeRoom(t, ceiling).0 ==> id in t && MakeRoom(t, ceiling).0[id] == t[id]
    ensures forall id :: id in t && Running(t[id]) ==> id in MakeRoom(t, ceiling).0
    ensures |MakeRoom(t, ceiling).0| <= |t|
    ensures MakeRoom(t, ceiling).1 ==> |MakeRoom(t, ceiling).0| < ceiling
    decreases |t|
  {
    if |t| >= ceiling && AnyEvictable(t) {
      var less := t - {Oldest(t)};
      assert t.Keys == less.Keys + {Oldest(t)};
      MakeRoomOnlyRemoves(less, ceiling);
    }
  }

  lemma StepContinues(config: Config, t: Table, step: Step, id: string)
    requires id in t && id in Apply(config, t, step)
    requires !(step.op.Create? && step.op.id == id)
    ensures Continues(t[id], Apply(config, t, step)[id])
  {
    if step.op.Create? {
      MakeRoomOnlyRemoves(Sweep(t, step.now), Ceiling(config));
    }
  }

  /** Nothing appears in the table but by `create`. */
  lemma StepAddsOnlyByCreate(config: Config, t: Table, step: Step, id: string)
    requires id !in t && !(step.op.Create? && step.op.id == id)
    ensures id !in Apply(config, t, step)
  {
    if step.op.Create? {
      MakeRoomOnlyRemoves(Sweep(t, step.now), Ceiling(config));
    }
  }

  lemma StepKeepsSound(config: Config, t: Table, step: Step)
    requires Sound(t) && Proper(step)
    ensures Sound(Apply(config, t, step))
  {
    if step.op.Create? {
      MakeRoomOnlyRemoves(Sweep(t, step.now), Ceiling(config));
    }
    var after := Apply(config, t, step);
    forall id | id in after ensures RecordSound(id, after[id]) {
      assert id in t ==> RecordSound(id, t[id]);
    }
  }

  /** In every run, a record has an outcome exactly when it is terminal. */
  lemma {:induction false} RunKeepsSound(config: Config, t: Table, steps: seq<Step>)
    requires Sound(t) && AllProper(steps)
    ensures Sound(Run(config, t, steps))
  {
    if steps != [] {
      assert steps[|steps| - 1] in steps;
      RunKeepsSound(config, t, steps[..|steps| - 1]);
      StepKeepsSound(config, Run(config, t, steps[..|steps| - 1]), steps[|steps| - 1]);
    }
  }

  /** A record that is still there is the record it was; a terminal one, in every field. */
  lemma {:induction false} RunContinues(config: Config, t: Table, steps: seq<Step>, id: string)
    requires id in t && NeverReused(steps, id) && id in Run(config, t, steps)
    ensures Continues(t[id], Run(config, t, steps)[id])
  {
    if steps != [] {
      var before, last := steps[..|steps| - 1], steps[|steps| - 1];
      assert last in steps && NeverReused(before, id);
      var middle := Run(config, t, before);
      if id !in middle {
        StepAddsOnlyByCreate(config, middle, last, id);
      } else {
        RunContinues(config, t, before, id);
        StepContinues(config, middle, last, id);
      }
    }
  }

  /** The branch for a terminal task without a result is never taken. */
  lemma AlwaysAResult(config: Config, steps: seq<Step>, now: int, stamp: string, id: string, who: Requestor)
    requires AllProper(steps)
    ensures ReplyTo(config, Run(config, map[], steps), Step(now, stamp, TryResult(id, who))) !=
            Refused(NoResult)
  {
    RunKeepsSound(config, map[], steps);
    var t := Run(config, map[], steps);
    if id in t {
      assert RecordSound(id, t[id]);
    }
  }

  /** Asking again gives the same result, for as long as it gives one. */
  lemma ResultsAgree(config: Config, t: Table, steps: seq<Step>, first: Step, again: Step, id: string)
    requires Sound(t) && AllProper(steps) && NeverReused(steps, id)
    requires first.op.TryResult? && again.op.TryResult? && first.op.id == again.op.id == id
    requires first.op.who == again.op.who
    requires ReplyTo(config, t, first).TheResult? && ReplyTo(config, t, first).result.Some?
    ensures var later := ReplyTo(config, Run(config, Apply(config, t, first), steps), again);
            later == ReplyTo(config, t, first) || later == Refused(NotFound)
  {
    var t1 := Apply(config, t, first);
    var t2 := Run(config, t1, steps);
    if id in t2 {
      RunContinues(config, t1, steps, id);
    }
  }

  /** A raised cancel flag means the task is, and stays, cancelled. */
  lemma CancellationSticks(config: Config, t: Table, steps: seq<Step>, id: string)
    requires Sound(t) && id in t && t[id].cancelled && NeverReused(steps, id)
    ensures t[id].task.status.Cancelled?
    ensures var later := Run(config, t, steps);
            id in later ==> later[id].cancelled && later[id].task.status.Cancelled?
  {
    assert RecordSound(id, t[id]);
    if id in Run(config, t, steps) {
      RunContinues(config, t, steps, id);
    }
  }
}
