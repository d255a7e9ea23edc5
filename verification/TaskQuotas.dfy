/**
 The store's limits: running tasks per requestor, records overall, and which
 record gives way when there is no room.
 */
module TaskQuotas {
  import opened Text
  import opened Tasks
  import opened TaskLifecycle

  ghost predicate WithinLimits(config: Config, t: Table) {
    && |t| <= Ceiling(config)
    && forall who :: |RunningOf(t, who)| <= config.maxConcurrent
  }

  lemma {:induction false} SubsetIsNoLarger(a: set<string>, b: set<string>)
    requires a <= b
    ensures |a| <= |b|
    decreases a
  {
    if a != {} {
      var x :| x in a;
      SubsetIsNoLarger(a - {x}, b - {x});
    }
  }

  lemma SweepShrinks(t: Table, now: int)
    ensures Sweep(t, now).Keys <= t.Keys && |Sweep(t, now)| <= |t|
  {
    SubsetIsNoLarger(Sweep(t, now).Keys, t.Keys);
  }

  /** A table with no record that was not running before stays within the quotas. */
  lemma NoNewRunning(config: Config, t: Table, after: Table)
    requires WithinLimits(config, t) && after.Keys <= t.Keys
    requires forall id :: id in after && Running(after[id]) ==>
               Running(t[id]) && after[id].owner == t[id].owner
    ensures WithinLimits(config, after)
  {
    SubsetIsNoLarger(after.Keys, t.Keys);
    forall who ensures |RunningOf(after, who)| <= config.maxConcurrent {
      SubsetIsNoLarger(RunningOf(after, who), RunningOf(t, who));
    }
  }

  /** With room for one at most to make, `make_room` takes the oldest terminal record or nothing. */
  lemma MakeRoomTakesOne(t: Table, ceiling: nat)
    requires 1 <= ceiling && |t| <= ceiling
    ensures MakeRoom(t, ceiling) ==
            if |t| < ceiling then (t, true)
            else if AnyEvictable(t) then (t - {Oldest(t)}, true)
            else (t, false)
  {
    if |t| == ceiling && AnyEvictable(t) {
      assert t.Keys == (t - {Oldest(t)}).Keys + {Oldest(t)};
    }
  }

  /**
   `create` in full: refused, it removes nothing but what had expired; granted,
   it also removes at most the terminal record least by (created, id), only when
   the store is full, and never a running one.
   */
  lemma CreateEvictsAtMostTheOldest(config: Config, t: Table, step: Step)
    requires |t| <= Ceiling(config) && step.op.Create?
    ensures var swept := Sweep(t, step.now);
            var after := Apply(config, t, step);
            var reply := ReplyTo(config, t, step);
            && (reply.TheTask? <==>
                  && |RunningOf(swept, step.op.owner)| < config.maxConcurrent
                  && (|swept| < Ceiling(config) || AnyEvictable(swept)))
            && (!reply.TheTask? ==> after == swept)
            && (reply.TheTask? && |swept| < Ceiling(config) ==>
                  after == swept[step.op.id := NewRecord(config, step)])
            && (reply.TheTask? && |swept| == Ceiling(config) ==>
                  after == (swept - {Oldest(swept)})[step.op.id := NewRecord(config, step)])
  {
    SweepShrinks(t, step.now);
    MakeRoomTakesOne(Sweep(t, step.now), Ceiling(config));
  }

  lemma OneMoreRunning(config: Config, room: Table, step: Step, who: Requestor)
    requires step.op.Create?
    ensures RunningOf(room[step.op.id := NewRecord(config, step)], who) <=
            RunningOf(room, who) + if who == step.op.owner then {step.op.id} else {}
  {
  }

  lemma GrantedCreateKeepsLimits(config: Config, room: Table, step: Step)
    requires step.op.Create? && WithinLimits(config, room) && |room| < Ceiling(config)
    requires |RunningOf(room, step.op.owner)| < config.maxConcurrent
    ensures WithinLimits(config, room[step.op.id := NewRecord(config, step)])
  {
    var after := room[step.op.id := NewRecord(config, step)];
    assert after.Keys == room.Keys + {step.op.id};
    forall who ensures |RunningOf(after, who)| <= config.maxConcurrent {
      OneMoreRunning(config, room, step, who);
      SubsetIsNoLarger(RunningOf(after, who),
                       RunningOf(room, who) + if who == step.op.owner then {step.op.id} else {});
    }
  }

  lemma CreateKeepsLimits(config: Config, t: Table, step: Step)
    requires WithinLimits(config, t) && step.op.Create?
    ensures WithinLimits(config, Apply(config, t, step))
  {
    var swept := Sweep(t, step.now);
    NoNewRunning(config, t, swept);
    var (room, ok) := MakeRoom(swept, Ceiling(config));
    MakeRoomOnlyRemoves(swept, Ceiling(config));
    NoNewRunning(config, swept, room);
    if ok && |RunningOf(swept, step.op.owner)| < config.maxConcurrent {
      SubsetIsNoLarger(RunningOf(room, step.op.owner), RunningOf(swept, step.op.owner));
      GrantedCreateKeepsLimits(config, room, step);
    }
  }

  lemma StepKeepsLimits(config: Config, t: Table, step: Step)
    requires WithinLimits(config, t) && Proper(step)
    ensures WithinLimits(config, Apply(config, t, step))
  {
    if step.op.Create? {
      CreateKeepsLimits(config, t, step);
    } else {
      NoNewRunning(config, t, Apply(config, t, step));
    }
  }

  lemma {:induction false} RunStaysWithin(config: Config, t: Table, steps: seq<Step>)
    requires WithinLimits(config, t) && AllProper(steps)
    ensures WithinLimits(config, Run(config, t, steps))
  {
    if steps != [] {
      assert steps[|steps| - 1] in steps;
      RunStaysWithin(config, t, steps[..|steps| - 1]);
      StepKeepsLimits(config, Run(config, t, steps[..|steps| - 1]), steps[|steps| - 1]);
    }
  }

  /**
   In every reachable store, each owner has at most `max_concurrent` tasks working
   or waiting for input, and there are at most `max_records` records, or one.
   */
  lemma RunKeepsLimits(config: Config, steps: seq<Step>, who: Requestor)
    requires AllProper(steps)
    ensures var t := Run(config, map[], steps);
            && |set id | id in t && t[id].owner == who &&
                         t[id].task.status in {Working, InputRequired}| <= config.maxConcurrent
            && (|t| <= config.maxRecords || |t| <= 1)
  {
    var t := Run(config, map[], steps);
    RunStaysWithin(config, map[], steps);
    assert (set id | id in t && t[id].owner == who && t[id].task.status in {Working, InputRequired}) ==
           RunningOf(t, who);
  }

  /**
   What a `create` throws away beyond what had expired: at most one record, of a
   task that is over, created before any other such task's - or at the same
   instant, under a lesser id - and only to make room for a task it grants.
   */
  lemma EvictedIsTheOldest(config: Config, t: Table, step: Step, gone: string, other: string)
    requires |t| <= Ceiling(config) && step.op.Create? && step.op.id !in t
    requires gone in t && !Expired(t[gone], step.now) && gone !in Apply(config, t, step)
    ensures ReplyTo(config, t, step).TheTask? && |Sweep(t, step.now)| >= config.maxRecords
    ensures t[gone].task.status in {Completed, Failed, Cancelled}
    ensures other in t && !Expired(t[other], step.now) && other != gone ==>
              && other in Apply(config, t, step)
              && (t[other].task.status in {Completed, Failed, Cancelled} ==>
                    || t[gone].created < t[other].created
                    || (t[gone].created == t[other].created && Less(gone, other)))
  {
    CreateEvictsAtMostTheOldest(config, t, step);
    var swept := Sweep(t, step.now);
    SweepShrinks(t, step.now);
    assert gone in swept && gone == Oldest(swept);
    assert other in swept && Evictable(swept, other) && other != gone ==>
             Older(swept[gone].created, gone, swept[other].created, other);
  }
}
