/**
 What each operation on the store does, told by what the store says afterwards:
 right away, and after any further operations by anybody.
 */
module TaskEffects {
  import opened Text
  import opened Messages
  import opened Tasks
  import opened TaskLifecycle

  // ---------------------------------------------------------------------
  // What can be found
  // ---------------------------------------------------------------------

  /** The lifetime is not over: fewer milliseconds than its `ttl` have passed since `created`. */
  predicate Alive(record: Record, now: int) {
    record.task.ttl.Some? ==> now - record.created < record.task.ttl.value * 1_000_000
  }

  /** There, alive, and asked for by its owner. */
  ghost predicate Found(t: Table, id: string, who: Requestor, now: int) {
    id in t && t[id].owner == who && (now < t[id].created || Alive(t[id], now))
  }

  /** `get` and `try_result` of any table, told without sweeping it. */
  lemma QueriesTell(config: Config, t: Table, now: int, stamp: string, id: string, who: Requestor)
    ensures ReplyTo(config, t, Step(now, stamp, Get(id, who))) ==
            if Found(t, id, who, now) then TheTask(t[id].task) else Refused(NotFound)
    ensures Sound(t) ==>
              ReplyTo(config, t, Step(now, stamp, TryResult(id, who))) ==
                if !Found(t, id, who, now) then Refused(NotFound)
                else if t[id].task.status in {Working, InputRequired} then TheResult(None)
                else TheResult(t[id].outcome)
  {
    if Sound(t) && id in t {
      assert RecordSound(id, t[id]);
    }
  }

  /** The states of a task, as a diagram: any move between two of them, from those that are not final. */
  lemma TransitionsFollowTheDiagram(a: Status, b: Status)
    ensures CanTransition(a, b) <==> a in {Working, InputRequired} && a != b
    ensures IsTerminal(a) <==> a !in {Working, InputRequired}
  {
  }

  /** `list` gives its requestor every task `get` would find, and no other. */
  lemma ListTells(config: Config, t: Table, now: int, stamp: string, who: Requestor, task: Task)
    requires Sound(t)
    ensures var reply := ReplyTo(config, t, Step(now, stamp, List(who)));
            && reply.TheTasks?
            && (task in reply.tasks <==> Found(t, task.id, who, now) && t[task.id].task == task)
  {
    var mine := Mine(Sweep(t, now), who);
    forall id | id in mine ensures mine[id].task.id == id {
      assert RecordSound(id, t[id]);
    }
    assert IsListing(Listing(mine), mine);
  }

  lemma OnlyTheNewcomerChanges(config: Config, t: Table, step: Step, id: string)
    requires step.op.Create? && step.op.id != id
    ensures id in Apply(config, t, step) ==> id in t && Apply(config, t, step)[id] == t[id]
    ensures id in t && id !in Apply(config, t, step) ==> Expired(t[id], step.now) || !Running(t[id])
  {
    MakeRoomOnlyRemoves(Sweep(t, step.now), Ceiling(config));
  }

  /** An operation changes no record but the one it names, and takes none away but by sweeping or eviction. */
  lemma OnlyTheNamedChanges(config: Config, t: Table, step: Step, id: string)
    requires step.op.Look? || step.op.List? || step.op.id != id
    ensures id in Apply(config, t, step) ==> id in t && Apply(config, t, step)[id] == t[id]
    ensures id in t && id !in Apply(config, t, step) ==>
              Expired(t[id], step.now) || (step.op.Create? && !Running(t[id]))
  {
    if step.op.Create? {
      OnlyTheNewcomerChanges(config, t, step, id);
    }
  }

  // ---------------------------------------------------------------------
  // Creating
  // ---------------------------------------------------------------------

  /** How long a new task is kept, in milliseconds: what was asked for, within what is allowed. */
  function Lifetime(config: Config, asked: Option<nat>): nat {
    match asked
    case Some(ttl) => if ttl > config.maxTtl then config.maxTtl else ttl
    case None => if config.defaultTtl > config.maxTtl then config.maxTtl else config.defaultTtl
  }

  /**
   A granted `create` answers with a working task under its id and timestamps, which
   `get` shows its owner from then on - to nobody else, and exactly until its
   lifetime is over.
   */
  lemma CreateTakesEffect(config: Config, t: Table, step: Step, now: int, stamp: string, who: Requestor)
    requires step.op.Create? && ReplyTo(config, t, step).TheTask?
    ensures var task := ReplyTo(config, t, step).task;
            var ttl := Lifetime(config, step.op.ttl);
            && task == Task(step.op.id, Working, None, step.stamp, step.stamp,
                            Some(ttl), Some(config.pollInterval))
            && ReplyTo(config, Apply(config, t, step), Step(now, stamp, Get(step.op.id, who))) ==
               if who == step.op.owner && (now < step.now || now - step.now < ttl * 1_000_000)
               then TheTask(task) else Refused(NotFound)
  {
    QueriesTell(config, Apply(config, t, step), now, stamp, step.op.id, who);
  }

  // ---------------------------------------------------------------------
  // Finishing
  // ---------------------------------------------------------------------

  /**
   A running task that is finished shows that status and that outcome ever after,
   for as long as it is found; one that is not running is not touched.
   */
  lemma FinishTakesEffect(
    config: Config, t: Table, finish: Step, steps: seq<Step>, now: int, stamp: string, who: Requestor)
    requires Sound(t) && finish.op.Finish? && Proper(finish) && AllProper(steps)
    requires NeverReused(steps, finish.op.id)
    ensures var id := finish.op.id;
            var later := Run(config, Apply(config, t, finish), steps);
            && (!(id in t && Running(t[id])) ==> Apply(config, t, finish) == t)
            && (id in t && Running(t[id]) && Found(later, id, who, now) ==>
                  var shown := ReplyTo(config, later, Step(now, stamp, Get(id, who)));
                  && shown.TheTask?
                  && shown.task.status == finish.op.status
                  && shown.task.lastUpdatedAt == finish.stamp
                  && shown.task.createdAt == t[id].task.createdAt
                  && shown.task.statusMessage == (match finish.op.outcome
                                                  case Error(e) => Some(e.message)
                                                  case Value(_) => t[id].task.statusMessage)
                  && ReplyTo(config, later, Step(now, stamp, TryResult(id, who))) ==
                     TheResult(Some(finish.op.outcome)))
  {
    var id := finish.op.id;
    var after := Apply(config, t, finish);
    StepKeepsSound(config, t, finish);
    RunKeepsSound(config, after, steps);
    var later := Run(config, after, steps);
    QueriesTell(config, later, now, stamp, id, who);
    if id in t && Running(t[id]) && id in later {
      RunContinues(config, after, steps, id);
    }
  }

  // ---------------------------------------------------------------------
  // Cancelling
  // ---------------------------------------------------------------------

  /** The owner cancels a task that is there and running. */
  ghost predicate CancelsRunning(t: Table, cancel: Step) {
    && cancel.op.Cancel? && Found(t, cancel.op.id, cancel.op.who, cancel.now)
    && t[cancel.op.id].task.status in {Working, InputRequired}
  }

  /** `cancel` answers with what `get` would then say, and its answer is the cancelled task. */
  lemma CancelAnswers(config: Config, t: Table, cancel: Step)
    requires Sound(t) && CancelsRunning(t, cancel)
    ensures var id := cancel.op.id;
            var after, reply := Apply(config, t, cancel), ReplyTo(config, t, cancel);
            && reply == ReplyTo(config, after, cancel.(op := Get(id, cancel.op.who)))
            && reply.TheTask? && reply.task.status == Cancelled
            && reply.task.id == id && reply.task.createdAt == t[id].task.createdAt
            && reply.task.lastUpdatedAt == cancel.stamp && reply.task.statusMessage.Some?
            && id in after && after[id].cancelled
  {
    var id, after := cancel.op.id, Apply(config, t, cancel);
    assert RecordSound(id, t[id]);
    QueriesTell(config, after, cancel.now, cancel.stamp, id, cancel.op.who);
  }

  /**
   Whatever happens next - the worker finishing, for one - a cancelled task is
   shown as cancelled and its result is an internal error, for as long as it is found.
   */
  lemma CancelTakesEffect(
    config: Config, t: Table, cancel: Step, steps: seq<Step>, now: int, stamp: string, who: Requestor)
    requires Sound(t) && CancelsRunning(t, cancel) && AllProper(steps)
    requires NeverReused(steps, cancel.op.id)
    ensures var id := cancel.op.id;
            var later := Run(config, Apply(config, t, cancel), steps);
            var shown := ReplyTo(config, later, Step(now, stamp, Get(id, who)));
            var result := ReplyTo(config, later, Step(now, stamp, TryResult(id, who)));
            && (id in later ==> later[id].cancelled)
            && (if Found(later, id, who, now)
                then && shown.TheTask? && shown.task.status == Cancelled
                     && result.TheResult? && result.result.Some?
                     && result.result.value.Error? && result.result.value.error.code == -32603
                else shown == Refused(NotFound) && result == Refused(NotFound))
  {
    var id := cancel.op.id;
    var after := Apply(config, t, cancel);
    StepKeepsSound(config, t, cancel);
    RunKeepsSound(config, after, steps);
    CancelAnswers(config, t, cancel);
    var later := Run(config, after, steps);
    QueriesTell(config, later, now, stamp, id, who);
    if id in later {
      RunContinues(config, after, steps, id);
    }
  }

  /** Any other `cancel` is refused and changes nothing but what it sweeps. */
  lemma CancelRefusesTheRest(config: Config, t: Table, cancel: Step)
    requires Sound(t) && cancel.op.Cancel? && !CancelsRunning(t, cancel)
    ensures Apply(config, t, cancel) == Sweep(t, cancel.now)
    ensures ReplyTo(config, t, cancel) ==
            Refused(if Found(t, cancel.op.id, cancel.op.who, cancel.now) then AlreadyTerminal else NotFound)
  {
    if cancel.op.id in t {
      assert RecordSound(cancel.op.id, t[cancel.op.id]);
    }
  }

  // ---------------------------------------------------------------------
  // Status and message
  // ---------------------------------------------------------------------

  /** A worker's status shows, if it is a move the diagram has and not a final one; else nothing changes. */
  lemma SetStatusTakesEffect(config: Config, t: Table, step: Step, now: int, stamp: string, who: Requestor)
    requires step.op.SetStatus?
    ensures var id, status := step.op.id, step.op.status;
            var after, reply := Apply(config, t, step), ReplyTo(config, t, step);
            var moves := && status in {Working, InputRequired} && id in t
                         && t[id].task.status in {Working, InputRequired} && t[id].task.status != status;
            && (reply == Moved(true) <==> moves)
            && (reply.Refused? <==> status !in {Working, InputRequired})
            && (!moves ==> after == t)
            && (moves && Found(t, id, who, now) ==>
                  ReplyTo(config, after, Step(now, stamp, Get(id, who))) ==
                    TheTask(t[id].task.(status := status, lastUpdatedAt := step.stamp)))
  {
    QueriesTell(config, Apply(config, t, step), now, stamp, step.op.id, who);
  }

  /** A worker's message shows while its task runs, and is ignored after. */
  lemma SetMessageTakesEffect(config: Config, t: Table, step: Step, now: int, stamp: string, who: Requestor)
    requires step.op.SetMessage?
    ensures var id := step.op.id;
            var after := Apply(config, t, step);
            var runs := id in t && t[id].task.status in {Working, InputRequired};
            && (!runs ==> after == t)
            && (runs && Found(t, id, who, now) ==>
                  ReplyTo(config, after, Step(now, stamp, Get(id, who))) ==
                    TheTask(t[id].task.(statusMessage := Some(step.op.message),
                                        lastUpdatedAt := step.stamp)))
  {
    QueriesTell(config, Apply(config, t, step), now, stamp, step.op.id, who);
  }
}
