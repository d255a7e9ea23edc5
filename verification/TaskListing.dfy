/**
 `tasks/list` is newest first: the order the store sorts by, on timestamps that
 are strings, is the order of the instants the tasks were created at.
 */
module TaskListing {
  import opened Text
  import opened Timestamps
  import opened Tasks
  import opened TaskLifecycle

  /** Every record's timestamp is its creation instant, printed by `iso`. */
  ghost predicate Stamped(t: Table, iso: int -> string) {
    forall id :: id in t ==> t[id].task.createdAt == iso(t[id].created)
  }

  /** A run whose operations print the clock they read. */
  ghost predicate PrintsClock(steps: seq<Step>, iso: int -> string) {
    forall step :: step in steps && step.op.Create? ==> step.stamp == iso(step.now)
  }

  lemma StepKeepsStamped(config: Config, t: Table, step: Step, iso: int -> string)
    requires Stamped(t, iso) && (step.op.Create? ==> step.stamp == iso(step.now))
    ensures Stamped(Apply(config, t, step), iso)
  {
    var after := Apply(config, t, step);
    if step.op.Create? {
      MakeRoomOnlyRemoves(Sweep(t, step.now), Ceiling(config));
    }
    forall id | id in after ensures after[id].task.createdAt == iso(after[id].created) {
      if !(step.op.Create? && step.op.id == id) {
        if id !in t {
          StepAddsOnlyByCreate(config, t, step, id);
        }
        StepContinues(config, t, step, id);
      }
    }
  }

  lemma {:induction false} RunKeepsStamped(config: Config, t: Table, steps: seq<Step>, iso: int -> string)
    requires Stamped(t, iso) && PrintsClock(steps, iso)
    ensures Stamped(Run(config, t, steps), iso)
  {
    if steps != [] {
      assert steps[|steps| - 1] in steps;
      RunKeepsStamped(config, t, steps[..|steps| - 1], iso);
      StepKeepsStamped(config, Run(config, t, steps[..|steps| - 1]), steps[|steps| - 1], iso);
    }
  }

  /** Newest second first, ties by id. */
  predicate NewerOrTied(a: Record, b: Record) {
    || WholeSeconds(a.created) > WholeSeconds(b.created)
    || (WholeSeconds(a.created) == WholeSeconds(b.created) && Less(a.task.id, b.task.id))
  }

  lemma SortedByStampIsSortedByTime(a: Record, b: Record)
    requires a.task.createdAt == Iso8601(a.created) && b.task.createdAt == Iso8601(b.created)
    requires WholeSeconds(a.created) < YEAR_10000 && WholeSeconds(b.created) < YEAR_10000
    requires Precedes(a.task, b.task)
    ensures NewerOrTied(a, b)
  {
    StampOrder(WholeSeconds(a.created), WholeSeconds(b.created));
    StampOrder(WholeSeconds(b.created), WholeSeconds(a.created));
  }

  lemma ListedInOrder(t: Table, now: int, who: Requestor, i: nat, j: nat)
    requires Sound(t) && Stamped(t, Iso8601)
    requires forall id :: id in t ==> WholeSeconds(t[id].created) < YEAR_10000
    requires i < j < |Listing(Mine(Sweep(t, now), who))|
    ensures var tasks := Listing(Mine(Sweep(t, now), who));
            && tasks[i].id in t && t[tasks[i].id].task == tasks[i]
            && tasks[j].id in t && t[tasks[j].id].task == tasks[j]
            && NewerOrTied(t[tasks[i].id], t[tasks[j].id])
  {
    var mine := Mine(Sweep(t, now), who);
    forall id | id in mine ensures mine[id].task.id == id {
      assert RecordSound(id, t[id]);
    }
    var tasks := Listing(mine);
    assert tasks[i] in tasks && tasks[j] in tasks;
    SortedByStampIsSortedByTime(t[tasks[i].id], t[tasks[j].id]);
  }

  /** What `tasks/list` answers, in every run before the year 10000. */
  lemma ListIsNewestFirst(
    config: Config, steps: seq<Step>, now: int, stamp: string, who: Requestor, i: nat, j: nat)
    requires AllProper(steps) && PrintsClock(steps, Iso8601)
    requires var t := Run(config, map[], steps);
             && (forall id :: id in t ==> WholeSeconds(t[id].created) < YEAR_10000)
             && i < j < |ReplyTo(config, t, Step(now, stamp, List(who))).tasks|
    ensures var t := Run(config, map[], steps);
            var tasks := ReplyTo(config, t, Step(now, stamp, List(who))).tasks;
            && tasks[i].id in t && t[tasks[i].id].task == tasks[i]
            && tasks[j].id in t && t[tasks[j].id].task == tasks[j]
            && NewerOrTied(t[tasks[i].id], t[tasks[j].id])
  {
    RunKeepsSound(config, map[], steps);
    RunKeepsStamped(config, map[], steps, Iso8601);
    ListedInOrder(Run(config, map[], steps), now, who, i, j);
  }
}
