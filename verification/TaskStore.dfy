/**
 The store as an object: one table behind one lock, changed in place by each
 operation, and a wait that other threads' operations happen during.
 */
module TaskStores {
  import opened Text
  import opened Messages
  import opened Tasks
  import opened TaskLifecycle

  datatype Awaited = Got(outcome: Outcome) | Gone | RanOut | Impossible

  lemma CreateWithinQuota(config: Config, t: Table, step: Step, swept: Table, room: Table, ok: bool)
    requires step.op.Create? && swept == Sweep(t, step.now)
    requires |RunningOf(swept, step.op.owner)| < config.maxConcurrent
    requires (room, ok) == MakeRoom(swept, Ceiling(config))
    ensures Apply(config, t, step) == if ok then room[step.op.id := NewRecord(config, step)] else room
    ensures ReplyTo(config, t, step) ==
            if ok then TheTask(NewRecord(config, step).task) else Refused(StoreFull)
  {
  }

  class TaskStore {
    var tasks: Table
    const config: Config
    /** The clock, in nanoseconds; only a wait moves it. */
    var clock: int
    /** What other threads have done to the store while somebody waited here. */
    ghost var rivals: seq<Step>
    /** How an instant prints, `iso8601`. */
    const iso: int -> string

    constructor (config: Config, iso: int -> string, clock: int)
      ensures tasks == map[] && this.config == config && this.iso == iso && this.clock == clock
    {
      tasks := map[];
      this.config, this.iso, this.clock := config, iso, clock;
      rivals := [];
    }

    function At(op: Op): Step
      reads this
    {
      Step(clock, iso(clock), op)
    }

    method SweepExpired()
      modifies this`tasks
      ensures tasks == Sweep(old(tasks), clock)
      ensures tasks == Apply(config, old(tasks), At(Look))
    {
      tasks := map id | id in tasks && !Expired(tasks[id], clock) :: tasks[id];
    }

    /** The scan `min_by_key` makes, in whatever order the map is iterated. */
    method FindOldest() returns (oldest: Option<string>)
      ensures oldest.None? <==> !AnyEvictable(tasks)
      ensures oldest.Some? ==> AnyEvictable(tasks) && oldest.value == Oldest(tasks)
    {
      oldest := None;
      var left := tasks.Keys;
      while left != {}
        invariant left <= tasks.Keys
        invariant oldest.None? ==> forall id :: id in tasks.Keys - left ==> !Evictable(tasks, id)
        invariant oldest.Some? ==> oldest.value !in left && Evictable(tasks, oldest.value)
        invariant oldest.Some? ==>
                    forall id :: id in tasks.Keys - left && Evictable(tasks, id) && id != oldest.value ==>
                      Older(tasks[oldest.value].created, oldest.value, tasks[id].created, id)
        decreases left
      {
        var id :| id in left;
        left := left - {id};
        if IsTerminal(tasks[id].task.status) {
          if oldest.None? {
            oldest := Some(id);
          } else {
            var best := oldest.value;
            OlderIsTotal(tasks[id].created, id, tasks[best].created, best);
            if Older(tasks[id].created, id, tasks[best].created, best) {
              forall x | x in tasks.Keys - left && Evictable(tasks, x) && x != id
                ensures Older(tasks[id].created, id, tasks[x].created, x)
              {
                if x != best {
                  OlderIsTransitive(tasks[id].created, id, tasks[best].created, best,
                                    tasks[x].created, x);
                }
              }
              oldest := Some(id);
            }
          }
        }
      }
      if oldest.Some? {
        assert IsOldest(tasks, oldest.value);
        OldestIsUnique(tasks, oldest.value, Oldest(tasks));
      }
    }

    /** Evict finished tasks, oldest first, until there is room for one more. */
    method MakeRoomForOne() returns (ok: bool)
      modifies this`tasks
      ensures (tasks, ok) == MakeRoom(old(tasks), Ceiling(config))
    {
      while |tasks| >= Ceiling(config)
        invariant MakeRoom(tasks, Ceiling(config)) == MakeRoom(old(tasks), Ceiling(config))
        decreases |tasks|
      {
        var oldest := FindOldest();
        if oldest.None? {
          return false;
        }
        assert tasks.Keys == (tasks - {oldest.value}).Keys + {oldest.value};
        tasks := tasks - {oldest.value};
      }
      ok := true;
    }

    /** `id` is the new random id. */
    method Create(id: string, ttl: Option<nat>, owner: Requestor) returns (reply: Reply)
      modifies this`tasks
      ensures tasks == Apply(config, old(tasks), At(Op.Create(id, ttl, owner)))
      ensures reply == ReplyTo(config, old(tasks), At(Op.Create(id, ttl, owner)))
    {
      var step := At(Op.Create(id, ttl, owner));
      SweepExpired();
      ghost var swept := tasks;
      if |RunningOf(tasks, owner)| >= config.maxConcurrent {
        return Refused(TooManyRunning);
      }
      var ok := MakeRoomForOne();
      CreateWithinQuota(config, old(tasks), step, swept, tasks, ok);
      if !ok {
        return Refused(StoreFull);
      }
      var record := NewRecord(config, step);
      tasks := tasks[id := record];
      reply := TheTask(record.task);
    }

    method Get(id: string, who: Requestor) returns (reply: Reply)
      modifies this`tasks
      ensures tasks == Apply(config, old(tasks), At(Op.Get(id, who)))
      ensures reply == ReplyTo(config, old(tasks), At(Op.Get(id, who)))
    {
      SweepExpired();
      if id in tasks && tasks[id].owner == who {
        return TheTask(tasks[id].task);
      }
      reply := Refused(NotFound);
    }

    /** Gathered in whatever order the map is iterated, and sorted. */
    method List(who: Requestor) returns (reply: Reply)
      requires Keyed(tasks)
      modifies this`tasks
      ensures tasks == Apply(config, old(tasks), At(Op.List(who)))
      ensures reply == ReplyTo(config, old(tasks), At(Op.List(who)))
    {
      SweepExpired();
      var mine := Mine(tasks, who);
      var all: seq<Task> := [];
      var left := mine.Keys;
      while left != {}
        invariant tasks == Sweep(old(tasks), clock)
        invariant left <= mine.Keys && Ordered(all)
        invariant forall task :: task in all <==> task.id in mine.Keys - left && mine[task.id].task == task
        decreases left
      {
        var id :| id in left;
        left := left - {id};
        InsertKeepsOrder(mine[id].task, all);
        all := Insert(mine[id].task, all);
      }
      ListingIsUnique(all, Listing(mine));
      reply := TheTasks(all);
    }

    method Finish(id: string, status: Status, outcome: Outcome)
      requires IsTerminal(status)
      modifies this`tasks
      ensures tasks == Apply(config, old(tasks), At(Op.Finish(id, status, outcome)))
    {
      if id !in tasks || IsTerminal(tasks[id].task.status) {
        return;
      }
      tasks := tasks[id := FinishRecord(tasks[id], status, outcome, iso(clock))];
    }

    method SetStatus(id: string, status: Status) returns (reply: Reply)
      modifies this`tasks
      ensures tasks == Apply(config, old(tasks), At(Op.SetStatus(id, status)))
      ensures reply == ReplyTo(config, old(tasks), At(Op.SetStatus(id, status)))
    {
      if IsTerminal(status) {
        return Refused(UseFinish);
      }
      if id !in tasks || !CanTransition(tasks[id].task.status, status) {
        return Moved(false);
      }
      var task := tasks[id].task.(status := status, lastUpdatedAt := iso(clock));
      tasks := tasks[id := tasks[id].(task := task)];
      reply := Moved(true);
    }

    method SetMessage(id: string, message: string)
      modifies this`tasks
      ensures tasks == Apply(config, old(tasks), At(Op.SetMessage(id, message)))
    {
      if id in tasks && Running(tasks[id]) {
        var task := tasks[id].task.(statusMessage := Some(message), lastUpdatedAt := iso(clock));
        tasks := tasks[id := tasks[id].(task := task)];
      }
    }

    method Cancel(id: string, who: Requestor) returns (reply: Reply)
      modifies this`tasks
      ensures tasks == Apply(config, old(tasks), At(Op.Cancel(id, who)))
      ensures reply == ReplyTo(config, old(tasks), At(Op.Cancel(id, who)))
    {
      SweepExpired();
      if !(id in tasks && tasks[id].owner == who) {
        return Refused(NotFound);
      }
      if IsTerminal(tasks[id].task.status) {
        return Refused(AlreadyTerminal);
      }
      tasks := tasks[id := CancelRecord(tasks[id], iso(clock))];
      reply := TheTask(tasks[id].task);
    }

    method TryResult(id: string, who: Requestor) returns (reply: Reply)
      modifies this`tasks
      ensures tasks == Apply(config, old(tasks), At(Op.TryResult(id, who)))
      ensures reply == ReplyTo(config, old(tasks), At(Op.TryResult(id, who)))
    {
      SweepExpired();
      if !(id in tasks && tasks[id].owner == who) {
        return Refused(NotFound);
      }
      if Running(tasks[id]) {
        return TheResult(None);
      }
      if tasks[id].outcome.None? {
        return Refused(NoResult);
      }
      reply := TheResult(tasks[id].outcome);
    }

    /** Waiting on the condition variable: time passes, and other threads use the store. */
    method WaitTimeout(id: string) returns (ghost others: seq<Step>)
      modifies this
      ensures clock > old(clock)
      ensures AllProper(others) && NeverReused(others, id)
      ensures tasks == Run(config, old(tasks), others) && rivals == old(rivals) + others
    {
      clock := clock + 1;
      others := [];
    }

    /** The first instant at which the task is expired. */
    static function Deadline(record: Record): int {
      record.created + if record.task.ttl.Some? then record.task.ttl.value * NANOS_PER_MILLI else 0
    }

    /** The recorded outcome, the task gone, or patience run out with the task still running. */
    twostate predicate EndsProperly(id: string, who: Requestor, patience: Option<nat>, end: Awaited)
      reads this
    {
      match end
      case Got(outcome) =>
        && id in tasks && tasks[id].owner == who
        && IsTerminal(tasks[id].task.status) && tasks[id].outcome == Some(outcome)
      case Gone => !(id in tasks && tasks[id].owner == who)
      case RanOut =>
        && patience.Some? && clock >= old(clock) + patience.value
        && id in tasks && id in old(tasks) && tasks[id].owner == who && Running(tasks[id])
        && Continues(old(tasks)[id], tasks[id])
      case Impossible => false
    }

    /** Within the patience, and within what is left of the task's lifetime. */
    twostate predicate EndsInTime(id: string, who: Requestor, patience: Option<nat>, waits: nat)
      reads this
    {
      && (patience.Some? ==> waits <= patience.value)
      && if id in old(tasks) && old(tasks)[id].owner == who && !Expired(old(tasks)[id], old(clock))
         then waits <= Deadline(old(tasks)[id]) - old(clock) else waits == 0
    }

    /**
     `await_result`. It looks once before each wait and once at the end, so it ends
     within the shorter of the patience and what is left of the task's lifetime,
     counted in waits; and it ends with the recorded outcome, with the task gone, or
     out of patience with the task still there and still running. `steps` is
     everything that happened to the store meanwhile: what other threads did, and
     sweeps of its own - which change no record that is left.
     */
    method AwaitResult(id: string, who: Requestor, patience: Option<nat>)
      returns (end: Awaited, waits: nat, ghost steps: seq<Step>, ghost others: seq<Step>)
      requires Sound(tasks)
      modifies this
      ensures Sound(tasks) && EndsProperly(id, who, patience, end) && EndsInTime(id, who, patience, waits)
      ensures waits == 0 ==> others == [] && tasks == Sweep(old(tasks), old(clock))
      ensures rivals == old(rivals) + others
      ensures tasks == Run(config, old(tasks), steps) && Interleaves(steps, others)
      ensures others == [] && id in tasks ==> id in old(tasks) && tasks[id] == old(tasks)[id]
    {
      end, waits, steps, others := KeepLooking(id, who, patience);
      SweepsAlone(config, old(tasks), steps, others, id);
    }

    /** The loop of `await_result`. */
    method KeepLooking(id: string, who: Requestor, patience: Option<nat>)
      returns (end: Awaited, waits: nat, ghost steps: seq<Step>, ghost others: seq<Step>)
      requires Sound(tasks)
      modifies this
      ensures Sound(tasks) && EndsProperly(id, who, patience, end) && EndsInTime(id, who, patience, waits)
      ensures waits == 0 ==> others == [] && tasks == Sweep(old(tasks), old(clock))
      ensures rivals == old(rivals) + others
      ensures tasks == Run(config, old(tasks), steps) && Interleaves(steps, others)
    {
      waits := 0;
      var start := clock;
      ghost var was := old(tasks);
      steps, others := [], [];
      while true
        invariant Sound(tasks) && clock >= start + waits
        invariant waits == 0 ==> clock == start && others == []
        invariant waits > 0 ==> id in was && was[id].owner == who
        invariant waits > 0 ==> !Expired(was[id], start) && waits <= Deadline(was[id]) - start
        invariant waits == 0 ==> tasks == was
        invariant patience.Some? ==> waits <= patience.value
        invariant id in tasks ==> id in was && Continues(was[id], tasks[id])
        invariant tasks == Run(config, was, steps) && Interleaves(steps, others)
        invariant rivals == old(rivals) + others
        decreases if id in was then Deadline(was[id]) - clock else 0
      {
        steps := LookAgain(steps, others, was);
        if !(id in tasks && tasks[id].owner == who) {
          return Gone, waits, steps, others;
        }
        assert RecordSound(id, tasks[id]) && !Expired(tasks[id], clock);
        if IsTerminal(tasks[id].task.status) {
          if tasks[id].outcome.None? {
            return Impossible, waits, steps, others;
          }
          return Got(tasks[id].outcome.value), waits, steps, others;
        }
        if patience.Some? && clock >= start + patience.value {
          return RanOut, waits, steps, others;
        }
        steps, others := WaitOnce(id, steps, others, was);
        waits := waits + 1;
      }
    }

    /** One wait, and all that others do meanwhile. */
    method WaitOnce(id: string, ghost steps: seq<Step>, ghost others: seq<Step>, ghost was: Table)
      returns (ghost more: seq<Step>, ghost all: seq<Step>)
      requires Sound(tasks) && tasks == Run(config, was, steps) && Interleaves(steps, others)
      requires id in tasks && id in was && Continues(was[id], tasks[id])
      modifies this
      ensures Sound(tasks) && clock > old(clock)
      ensures tasks == Run(config, was, more) && Interleaves(more, all)
      ensures others <= all && rivals == old(rivals) + all[|others|..]
      ensures id in tasks ==> Continues(was[id], tasks[id])
    {
      ghost var seen := tasks;
      ghost var theirs := WaitTimeout(id);
      RunKeepsSound(config, seen, theirs);
      if id in tasks {
        RunContinues(config, seen, theirs, id);
      }
      RunInTwo(config, was, steps, theirs);
      InterleavesMore(steps, others, theirs);
      more, all := steps + theirs, others + theirs;
    }

    /** One look at the store: what has expired goes. */
    method LookAgain(ghost steps: seq<Step>, ghost others: seq<Step>, ghost was: Table)
      returns (ghost more: seq<Step>)
      requires Sound(tasks) && tasks == Run(config, was, steps) && Interleaves(steps, others)
      modifies this`tasks
      ensures Sound(tasks) && tasks == Sweep(old(tasks), clock)
      ensures tasks == Run(config, was, more) && Interleaves(more, others)
    {
      StepKeepsSound(config, tasks, At(Look));
      SweepExpired();
      more := steps + [At(Look)];
      assert more[..|steps|] == steps;
    }
  }

  /** `steps` is `others` with looks at the store put in between. */
  ghost predicate Interleaves(steps: seq<Step>, others: seq<Step>) {
    if steps == [] then others == []
    else
      var last := steps[|steps| - 1];
      || (last.op.Look? && Interleaves(steps[..|steps| - 1], others))
      || (others != [] && others[|others| - 1] == last &&
          Interleaves(steps[..|steps| - 1], others[..|others| - 1]))
  }

  lemma {:induction false} InterleavesMore(steps: seq<Step>, others: seq<Step>, theirs: seq<Step>)
    requires Interleaves(steps, others)
    ensures Interleaves(steps + theirs, others + theirs)
  {
    if theirs == [] {
      assert steps + theirs == steps && others + theirs == others;
    } else {
      var n := |theirs| - 1;
      InterleavesMore(steps, others, theirs[..n]);
      assert (steps + theirs)[..|steps| + n] == steps + theirs[..n];
      assert (others + theirs)[..|others| + n] == others + theirs[..n];
    }
  }

  lemma RunOneMore(config: Config, t: Table, steps: seq<Step>, last: Step)
    ensures Run(config, t, steps + [last]) == Apply(config, Run(config, t, steps), last)
  {
    assert (steps + [last])[..|steps|] == steps;
  }

  lemma {:induction false} RunInTwo(config: Config, t: Table, first: seq<Step>, second: seq<Step>)
    ensures Run(config, t, first + second) == Run(config, Run(config, t, first), second)
  {
    var middle := Run(config, t, first);
    if second == [] {
      assert first + second == first;
    } else {
      var some, last := second[..|second| - 1], second[|second| - 1];
      assert first + second == (first + some) + [last] && second == some + [last];
      calc {
        Run(config, t, first + second);
        { RunOneMore(config, t, first + some, last); }
        Apply(config, Run(config, t, first + some), last);
        { RunInTwo(config, t, first, some); }
        Apply(config, Run(config, middle, some), last);
        { RunOneMore(config, middle, some, last); }
        Run(config, middle, second);
      }
    }
  }

  /** With nobody else about, whatever is left is as it was. */
  lemma {:induction false} SweepsAlone(config: Config, t: Table, steps: seq<Step>, others: seq<Step>, id: string)
    requires Interleaves(steps, others)
    ensures others == [] && id in Run(config, t, steps) ==>
              id in t && Run(config, t, steps)[id] == t[id]
  {
    if steps != [] && others == [] {
      SweepsAlone(config, t, steps[..|steps| - 1], others, id);
    }
  }
}
