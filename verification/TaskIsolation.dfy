/**
 Task isolation: one requestor's view of the store is a function of that
 requestor's own records, step by step and over whole runs.
 */
module TaskIsolation {
  import opened Text
  import opened Tasks
  import opened TaskLifecycle
  import opened TaskQuotas

  // ---------------------------------------------------------------------
  // One step
  // ---------------------------------------------------------------------

  /** A request by `who` that looks at or cancels tasks. */
  predicate IsQueryBy(step: Step, who: Requestor) {
    (step.op.Get? || step.op.List? || step.op.Cancel? || step.op.TryResult?) && step.op.who == who
  }

  predicate IsWorkerStep(step: Step) {
    step.op.Finish? || step.op.SetStatus? || step.op.SetMessage?
  }

  lemma SweepOfMine(t: Table, who: Requestor, now: int)
    ensures Mine(Sweep(t, now), who) == Sweep(Mine(t, who), now)
    ensures Mine(Mine(t, who), who) == Mine(t, who)
  {
  }

  lemma ReplySeesOnlyMine(config: Config, t: Table, step: Step, who: Requestor)
    requires IsQueryBy(step, who)
    ensures ReplyTo(config, t, step) == ReplyTo(config, Mine(t, who), step)
  {
    SweepOfMine(t, who, step.now);
    assert Mine(Sweep(t, step.now), who) == Mine(Sweep(Mine(t, who), step.now), who);
  }

  /** A query is answered from the requestor's own records alone, and changes only those. */
  lemma QuerySeesOnlyMine(config: Config, t: Table, step: Step, who: Requestor)
    requires IsQueryBy(step, who)
    ensures ReplyTo(config, t, step) == ReplyTo(config, Mine(t, who), step)
    ensures Mine(Apply(config, t, step), who) == Apply(config, Mine(t, who), step)
  {
    ReplySeesOnlyMine(config, t, step, who);
    SweepOfMine(t, who, step.now);
  }

  /**
   Two stores that agree on one requestor's records give that requestor the same
   answers at the same clock, and still agree afterwards, whatever else they hold.
   */
  lemma QueriesAreIsolated(config: Config, t: Table, u: Table, step: Step, who: Requestor)
    requires IsQueryBy(step, who) && Mine(t, who) == Mine(u, who)
    ensures ReplyTo(config, t, step) == ReplyTo(config, u, step)
    ensures Mine(Apply(config, t, step), who) == Mine(Apply(config, u, step), who)
  {
    QuerySeesOnlyMine(config, t, step, who);
    QuerySeesOnlyMine(config, u, step, who);
  }

  // ---------------------------------------------------------------------
  // Whole runs
  // ---------------------------------------------------------------------

  /** A request `who` makes and is answered for. */
  predicate AsksAs(step: Step, who: Requestor) {
    IsQueryBy(step, who) || (step.op.Create? && step.op.owner == who)
  }

  /** Steps on `who`'s behalf: requests, and what the workers of `who`'s tasks do. */
  predicate ActsFor(t: Table, step: Step, who: Requestor) {
    AsksAs(step, who) || (IsWorkerStep(step) && step.op.id in t && t[step.op.id].owner == who)
  }

  /** The answers `who` gets in a run. */
  ghost function Answers(config: Config, t: Table, steps: seq<Step>, who: Requestor): seq<Reply>
    decreases |steps|
  {
    if steps == [] then []
    else
      (if AsksAs(steps[0], who) then [ReplyTo(config, t, steps[0])] else []) +
      Answers(config, Apply(config, t, steps[0]), steps[1..], who)
  }

  /** The same run with everybody else's steps left out. */
  ghost function Purge(config: Config, t: Table, steps: seq<Step>, who: Requestor): seq<Step>
    decreases |steps|
  {
    if steps == [] then []
    else
      (if ActsFor(t, steps[0], who) then [steps[0]] else []) +
      Purge(config, Apply(config, t, steps[0]), steps[1..], who)
  }

  // ---------------------------------------------------------------------
  // When somebody else shows, exactly
  // ---------------------------------------------------------------------

  /** Another's `create` takes a record of ours: granted in a full store whose oldest finished task is ours. */
  ghost predicate OtherCreateShows(config: Config, t: Table, step: Step, who: Requestor)
    requires step.op.Create?
  {
    var swept := Sweep(t, step.now);
    && |RunningOf(swept, step.op.owner)| < config.maxConcurrent
    && |swept| == Ceiling(config)
    && AnyEvictable(swept) && swept[Oldest(swept)].owner == who
  }

  /**
   Our own `create` finds the room it would have had taken up by others: it is
   refused for it, or takes a record of ours to make up for it.
   */
  ghost predicate OwnCreateShows(config: Config, t: Table, step: Step, who: Requestor)
    requires step.op.Create?
  {
    var swept := Sweep(t, step.now);
    && |RunningOf(swept, who)| < config.maxConcurrent
    && |swept| == Ceiling(config) && |Mine(swept, who)| < Ceiling(config)
    && (!AnyEvictable(swept) || swept[Oldest(swept)].owner == who)
  }

  lemma NewcomerHides(t: Table, id: string, record: Record, who: Requestor)
    requires id !in t && record.owner != who
    ensures Mine(t[id := record], who) == Mine(t, who)
  {
  }

  lemma EvictionShows(t: Table, id: string, who: Requestor)
    requires id in t
    ensures Mine(t - {id}, who) == Mine(t, who) <==> t[id].owner != who
  {
    if t[id].owner == who {
      assert id in Mine(t, who) && id !in Mine(t - {id}, who);
    } else {
      assert Mine(t - {id}, who) == Mine(t, who);
    }
  }

  /** Another requestor's `create` shows when, and only when, `OtherCreateShows` says so. */
  lemma CreateShowsExactly(config: Config, t: Table, step: Step, who: Requestor)
    requires |t| <= Ceiling(config) && step.op.Create? && step.op.id !in t && step.op.owner != who
    ensures Mine(Apply(config, t, step), who) != Mine(Sweep(t, step.now), who) <==>
            OtherCreateShows(config, t, step, who)
  {
    CreateEvictsAtMostTheOldest(config, t, step);
    var swept := Sweep(t, step.now);
    SweepShrinks(t, step.now);
    if |swept| == Ceiling(config) && AnyEvictable(swept) {
      NewcomerHides(swept - {Oldest(swept)}, step.op.id, NewRecord(config, step), who);
      EvictionShows(swept, Oldest(swept), who);
    } else {
      NewcomerHides(swept, step.op.id, NewRecord(config, step), who);
    }
  }

  /** A table no larger than one's part of it is all one's own. */
  lemma AllMine(t: Table, who: Requestor)
    requires |Mine(t, who)| >= |t|
    ensures Mine(t, who) == t
  {
    var mine := Mine(t, who);
    assert mine.Keys <= t.Keys && |mine.Keys| == |mine| && |t.Keys| == |t|;
    forall id | id in t ensures id in mine {
      if id !in mine {
        SubsetIsNoLarger(mine.Keys, t.Keys - {id});
      }
    }
  }

  lemma OwnRecordShows(full: Table, id: string, record: Record, who: Requestor)
    requires record.owner == who
    ensures Mine(full[id := record], who) == Mine(full, who)[id := record]
  {
  }

  /** What one's own part of the store is like before a `create` of one's own. */
  lemma OwnPart(config: Config, t: Table, step: Step, who: Requestor)
    requires |t| <= Ceiling(config) && step.op.Create? && step.op.owner == who
    ensures Sweep(Mine(t, who), step.now) == Mine(Sweep(t, step.now), who)
    ensures RunningOf(Mine(Sweep(t, step.now), who), who) == RunningOf(Sweep(t, step.now), who)
    ensures |Mine(t, who)| <= Ceiling(config)
    ensures |Mine(Sweep(t, step.now), who)| <= |Sweep(t, step.now)| <= Ceiling(config)
  {
    SubsetIsNoLarger(Mine(t, who).Keys, t.Keys);
    SweepOfMine(t, who, step.now);
    SweepShrinks(t, step.now);
    SubsetIsNoLarger(Mine(Sweep(t, step.now), who).Keys, Sweep(t, step.now).Keys);
  }

  /** The answer to one's own `create` shows others exactly if it is refused for the room they take. */
  lemma OwnCreateAnswersExactly(config: Config, t: Table, step: Step, who: Requestor)
    requires |t| <= Ceiling(config) && step.op.Create? && step.op.owner == who
    ensures ReplyTo(config, t, step) != ReplyTo(config, Mine(t, who), step) <==>
            OwnCreateShows(config, t, step, who) && !AnyEvictable(Sweep(t, step.now))
  {
    OwnPart(config, t, step, who);
    CreateEvictsAtMostTheOldest(config, t, step);
    CreateEvictsAtMostTheOldest(config, Mine(t, who), step);
    var swept := Sweep(t, step.now);
    if |Mine(swept, who)| == Ceiling(config) {
      AllMine(swept, who);
    }
  }

  lemma OwnCreateInFullStore(config: Config, t: Table, step: Step, who: Requestor)
    requires |t| <= Ceiling(config) && step.op.Create? && step.op.id !in t && step.op.owner == who
    requires var swept := Sweep(t, step.now);
             && |swept| == Ceiling(config) && |Mine(swept, who)| < Ceiling(config)
             && |RunningOf(swept, who)| < config.maxConcurrent
    ensures Mine(Apply(config, t, step), who) != Apply(config, Mine(t, who), step) <==>
            OwnCreateShows(config, t, step, who)
  {
    OwnPart(config, t, step, who);
    CreateEvictsAtMostTheOldest(config, t, step);
    CreateEvictsAtMostTheOldest(config, Mine(t, who), step);
    var swept, record := Sweep(t, step.now), NewRecord(config, step);
    if AnyEvictable(swept) {
      var oldest := Oldest(swept);
      OwnRecordShows(swept - {oldest}, step.op.id, record, who);
      EvictionShows(swept, oldest, who);
      if swept[oldest].owner == who {
        assert oldest in Mine(swept, who)[step.op.id := record];
        assert oldest !in Mine(swept - {oldest}, who)[step.op.id := record];
      }
    } else {
      assert step.op.id !in Mine(swept, who);
    }
  }

  /**
   One's own `create` leaves one's records otherwise than in a store of one's own
   when, and only when, `OwnCreateShows` says so.
   */
  lemma OwnCreateShowsExactly(config: Config, t: Table, step: Step, who: Requestor)
    requires |t| <= Ceiling(config) && step.op.Create? && step.op.id !in t && step.op.owner == who
    ensures Mine(Apply(config, t, step), who) != Apply(config, Mine(t, who), step) <==>
            OwnCreateShows(config, t, step, who)
  {
    OwnPart(config, t, step, who);
    var swept := Sweep(t, step.now);
    if |RunningOf(swept, who)| < config.maxConcurrent && |swept| == Ceiling(config) &&
       |Mine(swept, who)| < Ceiling(config)
    {
      OwnCreateInFullStore(config, t, step, who);
    } else if |Mine(swept, who)| == Ceiling(config) {
      AllMine(swept, who);
      OwnCreateInOwnStore(config, t, step, who);
    } else {
      CreateEvictsAtMostTheOldest(config, t, step);
      CreateEvictsAtMostTheOldest(config, Mine(t, who), step);
      OwnRecordShows(swept, step.op.id, NewRecord(config, step), who);
    }
  }

  /** In a store that is all one's own once swept, there is nobody to show. */
  lemma OwnCreateInOwnStore(config: Config, t: Table, step: Step, who: Requestor)
    requires step.op.Create? && step.op.owner == who
    requires Sweep(Mine(t, who), step.now) == Mine(Sweep(t, step.now), who) == Sweep(t, step.now)
    ensures Mine(Apply(config, t, step), who) == Apply(config, Mine(t, who), step)
  {
    var after := Apply(config, t, step);
    MakeRoomOnlyRemoves(Sweep(t, step.now), Ceiling(config));
    forall id | id in after ensures after[id].owner == who {
      assert id in Mine(Sweep(t, step.now), who) || after[id] == NewRecord(config, step);
    }
    assert Mine(after, who) == after;
  }

  lemma OtherStepSweeps(config: Config, t: Table, step: Step, who: Requestor)
    requires |t| <= Ceiling(config) && !IsWorkerStep(step)
    requires step.op.Cancel? ==> step.op.who != who
    requires step.op.Create? ==>
               step.op.id !in t && step.op.owner != who && !OtherCreateShows(config, t, step, who)
    ensures Mine(Apply(config, t, step), who) == Mine(Sweep(t, step.now), who)
  {
    if step.op.Create? {
      CreateShowsExactly(config, t, step, who);
    }
  }

  /**
   What any other request shows on a clock that may have gone back since: exactly
   the records of ours it found expired and we would not yet have.
   */
  lemma SweepShowsExactly(config: Config, t: Table, step: Step, who: Requestor, now: int)
    requires |t| <= Ceiling(config) && !IsWorkerStep(step)
    requires step.op.Cancel? ==> step.op.who != who
    requires step.op.Create? ==>
               step.op.id !in t && step.op.owner != who && !OtherCreateShows(config, t, step, who)
    ensures Sweep(Mine(Apply(config, t, step), who), now) != Sweep(Mine(t, who), now) <==>
            exists id :: id in t && t[id].owner == who && Expired(t[id], step.now) && !Expired(t[id], now)
  {
    OtherStepSweeps(config, t, step, who);
    var before, after := Sweep(Mine(t, who), now), Sweep(Mine(Sweep(t, step.now), who), now);
    if id :| id in t && t[id].owner == who && Expired(t[id], step.now) && !Expired(t[id], now) {
      assert id in before && id !in after;
    } else {
      assert after == before;
    }
  }

  // ---------------------------------------------------------------------
  // Noninterference over whole runs
  // ---------------------------------------------------------------------

  /** Nothing of ours expired at `now` is unexpired at a later question of ours. */
  ghost predicate SweepHides(t: Table, now: int, rest: seq<Step>, who: Requestor) {
    forall id, later ::
      id in t && t[id].owner == who && Expired(t[id], now) && later in rest && AsksAs(later, who) ==>
        Expired(t[id], later.now)
  }

  /** New ids are new, and no step shows. */
  ghost predicate Unseen(config: Config, t: Table, steps: seq<Step>, who: Requestor)
    decreases |steps|
  {
    steps == [] ||
    (var step, rest := steps[0], steps[1..];
     && (step.op.Create? ==> step.op.id !in t)
     && (step.op.Create? && step.op.owner == who ==> !OwnCreateShows(config, t, step, who))
     && (step.op.Create? && step.op.owner != who ==> !OtherCreateShows(config, t, step, who))
     && (!ActsFor(t, step, who) && !IsWorkerStep(step) ==> SweepHides(t, step.now, rest, who))
     && Unseen(config, Apply(config, t, step), rest, who))
  }

  /**
   `u` holds what is `who`'s in `t`, and beside it only what every question still
   to come will find expired.
   */
  ghost predicate ViewOf(t: Table, u: Table, who: Requestor, steps: seq<Step>) {
    && Mine(u, who) == u
    && (forall id :: id in t && t[id].owner == who ==> id in u && u[id] == t[id])
    && (forall id, step ::
          id in u && !(id in t && t[id].owner == who) && step in steps && AsksAs(step, who) ==>
            Expired(u[id], step.now))
  }

  lemma ViewSwept(t: Table, u: Table, who: Requestor, steps: seq<Step>, step: Step)
    requires ViewOf(t, u, who, steps) && step in steps && AsksAs(step, who)
    ensures Sweep(Mine(t, who), step.now) == Sweep(u, step.now)
  {
  }

  lemma ViewOfOwn(t: Table, who: Requestor, steps: seq<Step>)
    ensures ViewOf(t, Mine(t, who), who, steps)
  {
    SweepOfMine(t, who, 0);
  }

  /** A question is answered alike in two tables that are alike once swept. */
  lemma SweptAlike(config: Config, t: Table, u: Table, step: Step, who: Requestor)
    requires AsksAs(step, who) && Sweep(t, step.now) == Sweep(u, step.now)
    ensures ReplyTo(config, t, step) == ReplyTo(config, u, step)
    ensures Apply(config, t, step) == Apply(config, u, step)
  {
  }

  lemma OwnQuestionKeepsView(
    config: Config, t: Table, u: Table, step: Step, rest: seq<Step>, who: Requestor)
    requires AsksAs(step, who) && ViewOf(t, u, who, [step] + rest) && |t| <= Ceiling(config)
    requires step.op.Create? ==> step.op.id !in t && !OwnCreateShows(config, t, step, who)
    ensures ReplyTo(config, t, step) == ReplyTo(config, u, step)
    ensures ViewOf(Apply(config, t, step), Apply(config, u, step), who, rest)
  {
    if step.op.Create? {
      OwnCreateAnswersExactly(config, t, step, who);
      OwnCreateShowsExactly(config, t, step, who);
    } else {
      QuerySeesOnlyMine(config, t, step, who);
    }
    ViewSwept(t, u, who, [step] + rest, step);
    SweptAlike(config, Mine(t, who), u, step, who);
    ViewOfOwn(Apply(config, t, step), who, rest);
  }

  /** What a worker's step does to its record. */
  function WorkerUpdate(record: Record, step: Step): Record
    requires IsWorkerStep(step)
  {
    match step.op
    case Finish(_, status, outcome) =>
      if Running(record) then FinishRecord(record, status, outcome, step.stamp) else record
    case SetStatus(_, status) =>
      if !IsTerminal(status) && CanTransition(record.task.status, status)
      then record.(task := record.task.(status := status, lastUpdatedAt := step.stamp))
      else record
    case _ =>
      if step.op.SetMessage? && Running(record)
      then record.(task := record.task.(statusMessage := Some(step.op.message),
                                        lastUpdatedAt := step.stamp))
      else record
  }

  lemma WorkerStepUpdatesOne(config: Config, t: Table, step: Step)
    requires IsWorkerStep(step)
    ensures var id := step.op.id;
            Apply(config, t, step) == if id in t then t[id := WorkerUpdate(t[id], step)] else t
  {
    var id := step.op.id;
    if id in t {
      assert t[id := t[id]] == t;
    }
  }

  lemma WorkerUpdateKeepsPlace(record: Record, step: Step)
    requires IsWorkerStep(step)
    ensures WorkerUpdate(record, step).owner == record.owner
  {
  }

  lemma OwnWorkerKeepsView(
    config: Config, t: Table, u: Table, step: Step, rest: seq<Step>, who: Requestor)
    requires IsWorkerStep(step) && step.op.id in t && t[step.op.id].owner == who
    requires ViewOf(t, u, who, [step] + rest)
    ensures ViewOf(Apply(config, t, step), Apply(config, u, step), who, rest)
  {
    WorkerStepUpdatesOne(config, t, step);
    WorkerStepUpdatesOne(config, u, step);
    var id := step.op.id;
    WorkerUpdateKeepsPlace(t[id], step);
    OwnRecordShows(u, id, WorkerUpdate(t[id], step), who);
    assert forall later :: later in rest ==> later in [step] + rest;
  }

  lemma OtherWorkerLeavesMine(config: Config, t: Table, step: Step, who: Requestor, id: string)
    requires IsWorkerStep(step) && !ActsFor(t, step, who)
    ensures var after := Apply(config, t, step);
            && (id in after && after[id].owner == who <==> id in t && t[id].owner == who)
            && (id in t && t[id].owner == who ==> after[id] == t[id])
  {
    WorkerStepUpdatesOne(config, t, step);
    if step.op.id in t {
      WorkerUpdateKeepsPlace(t[step.op.id], step);
    }
  }

  lemma OtherWorkerKeepsView(
    config: Config, t: Table, u: Table, step: Step, rest: seq<Step>, who: Requestor)
    requires IsWorkerStep(step) && !ActsFor(t, step, who) && ViewOf(t, u, who, [step] + rest)
    ensures ViewOf(Apply(config, t, step), u, who, rest)
  {
    forall id ensures var after := Apply(config, t, step);
                      && (id in after && after[id].owner == who <==> id in t && t[id].owner == who)
                      && (id in t && t[id].owner == who ==> after[id] == t[id])
    {
      OtherWorkerLeavesMine(config, t, step, who, id);
    }
    assert forall later :: later in rest ==> later in [step] + rest;
  }

  /** Nobody else's request shows, unless it is one that does. */
  lemma OtherRequestKeepsView(
    config: Config, t: Table, u: Table, step: Step, rest: seq<Step>, who: Requestor)
    requires !IsWorkerStep(step) && !ActsFor(t, step, who) && ViewOf(t, u, who, [step] + rest)
    requires |t| <= Ceiling(config) && SweepHides(t, step.now, rest, who)
    requires step.op.Create? ==> step.op.id !in t && !OtherCreateShows(config, t, step, who)
    ensures ViewOf(Apply(config, t, step), u, who, rest)
  {
    OtherStepSweeps(config, t, step, who);
    SweptKeepsView(t, u, step, rest, who, Apply(config, t, step));
  }

  lemma SweptKeepsView(t: Table, u: Table, step: Step, rest: seq<Step>, who: Requestor, after: Table)
    requires ViewOf(t, u, who, [step] + rest) && SweepHides(t, step.now, rest, who)
    requires Mine(after, who) == Mine(Sweep(t, step.now), who)
    ensures ViewOf(after, u, who, rest)
  {
    assert forall later :: later in rest ==> later in [step] + rest;
    forall id ensures id in after && after[id].owner == who <==>
                      id in t && t[id].owner == who && !Expired(t[id], step.now)
    {
      assert id in Mine(after, who) <==> id in Mine(Sweep(t, step.now), who);
    }
    forall id | id in after && after[id].owner == who ensures id in u && u[id] == after[id] {
      assert Mine(after, who)[id] == Mine(Sweep(t, step.now), who)[id];
    }
  }

  lemma StepKeepsCeiling(config: Config, t: Table, step: Step)
    requires |t| <= Ceiling(config)
    ensures |Apply(config, t, step)| <= Ceiling(config)
  {
    SweepShrinks(t, step.now);
    if step.op.Create? {
      CreateEvictsAtMostTheOldest(config, t, step);
      var swept, record := Sweep(t, step.now), NewRecord(config, step);
      GrowsByOne(swept, step.op.id, record);
      if AnyEvictable(swept) {
        var room := swept - {Oldest(swept)};
        assert swept.Keys == room.Keys + {Oldest(swept)};
        GrowsByOne(room, step.op.id, record);
      }
    } else {
      SubsetIsNoLarger(Apply(config, t, step).Keys, t.Keys);
    }
  }

  lemma GrowsByOne(t: Table, id: string, record: Record)
    ensures |t[id := record]| <= |t| + 1
  {
    assert t[id := record].Keys == t.Keys + {id};
  }

  lemma StepKeepsView(
    config: Config, t: Table, u: Table, step: Step, rest: seq<Step>, who: Requestor)
    requires ViewOf(t, u, who, [step] + rest) && |t| <= Ceiling(config)
    requires Unseen(config, t, [step] + rest, who)
    ensures AsksAs(step, who) ==> ReplyTo(config, t, step) == ReplyTo(config, u, step)
    ensures var u' := if ActsFor(t, step, who) then Apply(config, u, step) else u;
            ViewOf(Apply(config, t, step), u', who, rest)
  {
    assert ([step] + rest)[1..] == rest;
    if AsksAs(step, who) {
      OwnQuestionKeepsView(config, t, u, step, rest, who);
    } else if ActsFor(t, step, who) {
      OwnWorkerKeepsView(config, t, u, step, rest, who);
    } else if IsWorkerStep(step) {
      OtherWorkerKeepsView(config, t, u, step, rest, who);
    } else {
      OtherRequestKeepsView(config, t, u, step, rest, who);
    }
  }

  lemma {:induction false} ViewIsAnsweredAlike(
    config: Config, t: Table, u: Table, steps: seq<Step>, who: Requestor)
    requires ViewOf(t, u, who, steps) && |t| <= Ceiling(config) && Unseen(config, t, steps, who)
    ensures Answers(config, t, steps, who) ==
            Answers(config, u, Purge(config, t, steps, who), who)
    decreases |steps|
  {
    if steps != [] {
      var step, rest := steps[0], steps[1..];
      assert steps == [step] + rest;
      StepKeepsView(config, t, u, step, rest, who);
      StepKeepsCeiling(config, t, step);
      var after := Apply(config, t, step);
      var left := Purge(config, after, rest, who);
      if ActsFor(t, step, who) {
        ViewIsAnsweredAlike(config, after, Apply(config, u, step), rest, who);
        assert Purge(config, t, steps, who) == [step] + left;
        assert ([step] + left)[1..] == left;
      } else {
        ViewIsAnsweredAlike(config, after, u, rest, who);
        assert Purge(config, t, steps, who) == left;
      }
    }
  }

  /**
   Noninterference: in every run, on any clocks, none of whose steps shows in the
   exact sense above, a requestor is told what the same run would have said with
   everybody else's records, requests and workers taken out.
   */
  lemma OthersDoNotShow(config: Config, t: Table, steps: seq<Step>, who: Requestor)
    requires |t| <= Ceiling(config) && Unseen(config, t, steps, who)
    ensures Answers(config, t, steps, who) ==
            Answers(config, Mine(t, who), Purge(config, t, steps, who), who)
  {
    ViewOfOwn(t, who, steps);
    ViewIsAnsweredAlike(config, t, Mine(t, who), steps, who);
  }

  // ---------------------------------------------------------------------
  // The ordinary case
  // ---------------------------------------------------------------------

  predicate ClockForward(steps: seq<Step>) {
    forall i, j :: 0 <= i < j < |steps| ==> steps[i].now <= steps[j].now
  }

  /** New ids are new, and no `create` finds the store full. */
  ghost predicate Roomy(config: Config, t: Table, steps: seq<Step>)
    decreases |steps|
  {
    steps == [] ||
    (&& (steps[0].op.Create? ==>
           steps[0].op.id !in t && |Sweep(t, steps[0].now)| < Ceiling(config))
     && Roomy(config, Apply(config, t, steps[0]), steps[1..]))
  }

  /** On a forward clock, with room for every `create`, no step shows. */
  lemma {:induction false} RoomyIsUnseen(config: Config, t: Table, steps: seq<Step>, who: Requestor)
    requires ClockForward(steps) && Roomy(config, t, steps)
    ensures Unseen(config, t, steps, who)
    decreases |steps|
  {
    if steps != [] {
      var step, rest := steps[0], steps[1..];
      assert forall i :: 0 <= i < |rest| ==> step.now <= steps[i + 1].now == rest[i].now;
      RoomyIsUnseen(config, Apply(config, t, step), rest, who);
    }
  }
}
