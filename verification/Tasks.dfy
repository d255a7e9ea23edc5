/**
 The task store: a keyed table of task records with a lifecycle, a lifetime, a
 quota per requestor and a ceiling on records.

 Every operation is a function of the table, the clock and the timestamp the
 clock prints as; the object that carries them out is in `TaskStore`.
 */
module Tasks {
  import opened Text
  import opened Messages

  const NANOS_PER_MILLI: nat := 1_000_000

  // ---------------------------------------------------------------------
  // Records
  // ---------------------------------------------------------------------

  datatype Status = Working | InputRequired | Completed | Failed | Cancelled

  predicate IsTerminal(status: Status) {
    status.Completed? || status.Failed? || status.Cancelled?
  }

  predicate CanTransition(from: Status, to: Status) {
    match from
    case Working => !to.Working?
    case InputRequired => !to.InputRequired?
    case _ => false
  }

  datatype Outcome = Value(value: Json) | Error(error: RpcError)

  /** The wire form of a task. */
  datatype Task = Task(
    id: string,
    status: Status,
    statusMessage: Option<string>,
    createdAt: string,
    lastUpdatedAt: string,
    ttl: Option<nat>,
    pollInterval: Option<nat>)

  /** Who is asking: nobody in particular, or an authorization identity. */
  type Requestor = Option<string>

  /** `created` is an instant in nanoseconds since the epoch. */
  datatype Record = Record(
    task: Task,
    outcome: Option<Outcome>,
    created: int,
    cancelled: bool,
    owner: Requestor)

  type Table = map<string, Record>

  datatype Config = Config(
    defaultTtl: nat,
    maxTtl: nat,
    pollInterval: nat,
    maxConcurrent: nat,
    maxRecords: nat)

  predicate Running(record: Record) {
    !IsTerminal(record.task.status)
  }

  /** A clock that reads earlier than the creation has not run the lifetime out. */
  predicate Expired(record: Record, now: int) {
    && record.task.ttl.Some?
    && now >= record.created
    && now - record.created >= record.task.ttl.value * NANOS_PER_MILLI
  }

  function Sweep(t: Table, now: int): Table {
    map id | id in t && !Expired(t[id], now) :: t[id]
  }

  // ---------------------------------------------------------------------
  // Making room
  // ---------------------------------------------------------------------

  function Ceiling(config: Config): nat {
    if config.maxRecords < 1 then 1 else config.maxRecords
  }

  /** `(created, id)` order. */
  predicate Older(a: int, x: string, b: int, y: string) {
    a < b || (a == b && Less(x, y))
  }

  predicate Evictable(t: Table, id: string) {
    id in t && IsTerminal(t[id].task.status)
  }

  ghost predicate IsOldest(t: Table, id: string) {
    && Evictable(t, id)
    && forall other :: Evictable(t, other) && other != id ==>
         Older(t[id].created, id, t[other].created, other)
  }

  ghost predicate AnyEvictable(t: Table) {
    exists id :: Evictable(t, id)
  }

  lemma OlderIsTotal(a: int, x: string, b: int, y: string)
    ensures Older(a, x, b, y) || Older(b, y, a, x) || (a == b && x == y)
  {
    LessIsTotal(x, y);
  }

  lemma OlderIsTransitive(a: int, x: string, b: int, y: string, c: int, z: string)
    requires Older(a, x, b, y) && Older(b, y, c, z)
    ensures Older(a, x, c, z)
  {
    if a == b == c {
      LessIsTransitive(x, y, z);
    }
  }

  lemma OldestIsUnique(t: Table, id: string, other: string)
    requires IsOldest(t, id) && IsOldest(t, other)
    ensures id == other
  {
    if id != other && t[id].created == t[other].created {
      LessIsAsymmetric(id, other);
    }
  }

  /** Among finitely many candidates there is an oldest. */
  lemma {:induction false} OldestAmong(t: Table, ids: set<string>) returns (oldest: string)
    requires ids != {} && forall id :: id in ids ==> id in t
    ensures oldest in ids
    ensures forall other :: other in ids && other != oldest ==>
              Older(t[oldest].created, oldest, t[other].created, other)
    decreases ids
  {
    var some :| some in ids;
    var rest := ids - {some};
    if rest == {} {
      assert ids == {some};
      return some;
    }
    var best := OldestAmong(t, rest);
    OlderIsTotal(t[some].created, some, t[best].created, best);
    if Older(t[best].created, best, t[some].created, some) {
      return best;
    }
    forall other | other in ids && other != some
      ensures Older(t[some].created, some, t[other].created, other)
    {
      if other != best {
        OlderIsTransitive(t[some].created, some, t[best].created, best, t[other].created, other);
      }
    }
    return some;
  }

  lemma OldestExists(t: Table)
    requires AnyEvictable(t)
    ensures exists id :: IsOldest(t, id)
  {
    var candidates := set id | id in t && Evictable(t, id);
    var some :| Evictable(t, some);
    assert some in candidates;
    var oldest := OldestAmong(t, candidates);
    assert IsOldest(t, oldest);
  }

  ghost function Oldest(t: Table): (id: string)
    requires AnyEvictable(t)
    ensures IsOldest(t, id)
  {
    OldestExists(t);
    var id :| IsOldest(t, id);
    id
  }

  /** The table with room for one more record, and whether there is. */
  ghost function MakeRoom(t: Table, ceiling: nat): (Table, bool)
    decreases |t|
  {
    if |t| < ceiling then (t, true)
    else if !AnyEvictable(t) then (t, false)
    else
      assert t.Keys == (t - {Oldest(t)}).Keys + {Oldest(t)};
      MakeRoom(t - {Oldest(t)}, ceiling)
  }

  // ---------------------------------------------------------------------
  // Listing
  // ---------------------------------------------------------------------

  /** The records one requestor may see. */
  function Mine(t: Table, who: Requestor): Table {
    map id | id in t && t[id].owner == who :: t[id]
  }

  /** Newest timestamp first, ties by id. */
  predicate Precedes(a: Task, b: Task) {
    Less(b.createdAt, a.createdAt) || (a.createdAt == b.createdAt && Less(a.id, b.id))
  }

  ghost predicate Ordered(tasks: seq<Task>) {
    forall i, j :: 0 <= i < j < |tasks| ==> Precedes(tasks[i], tasks[j])
  }

  /** In order, and holding each of the table's tasks and nothing else. */
  ghost predicate IsListing(tasks: seq<Task>, t: Table) {
    && Ordered(tasks)
    && (forall task :: task in tasks <==> task.id in t && t[task.id].task == task)
  }

  lemma PrecedesIsTotal(a: Task, b: Task)
    requires a.id != b.id
    ensures Precedes(a, b) || Precedes(b, a)
  {
    LessIsTotal(a.createdAt, b.createdAt);
    LessIsTotal(a.id, b.id);
  }

  lemma PrecedesIsTransitive(a: Task, b: Task, c: Task)
    requires Precedes(a, b) && Precedes(b, c)
    ensures Precedes(a, c)
  {
    if Less(b.createdAt, a.createdAt) && Less(c.createdAt, b.createdAt) {
      LessIsTransitive(c.createdAt, b.createdAt, a.createdAt);
    } else if a.createdAt == b.createdAt == c.createdAt {
      LessIsTransitive(a.id, b.id, c.id);
    }
  }

  lemma PrecedesIsAsymmetric(a: Task, b: Task)
    requires Precedes(a, b)
    ensures !Precedes(b, a) && a != b
  {
    if Less(b.createdAt, a.createdAt) {
      LessIsAsymmetric(b.createdAt, a.createdAt);
    } else {
      LessIsAsymmetric(a.id, b.id);
    }
  }

  function Insert(task: Task, tasks: seq<Task>): seq<Task> {
    if tasks == [] || Precedes(task, tasks[0]) then [task] + tasks
    else [tasks[0]] + Insert(task, tasks[1..])
  }

  lemma {:induction false} InsertKeepsOrder(task: Task, tasks: seq<Task>)
    requires Ordered(tasks) && forall other :: other in tasks ==> other.id != task.id
    ensures Ordered(Insert(task, tasks))
    ensures forall other :: other in Insert(task, tasks) <==> other == task || other in tasks
  {
    if tasks != [] && !Precedes(task, tasks[0]) {
      assert tasks[0] in tasks;
      PrecedesIsTotal(task, tasks[0]);
      assert tasks == [tasks[0]] + tasks[1..];
      InsertKeepsOrder(task, tasks[1..]);
      var rest := Insert(task, tasks[1..]);
      forall j | 0 <= j < |rest| ensures Precedes(tasks[0], rest[j]) {
        assert rest[j] in rest;
      }
    } else if tasks != [] {
      forall j | 0 < j < |tasks| ensures Precedes(task, tasks[j]) {
        PrecedesIsTransitive(task, tasks[0], tasks[j]);
      }
    }
  }

  /** There is one listing of a table, whatever order it is gathered in. */
  lemma {:induction false} ListingIsUnique(a: seq<Task>, b: seq<Task>)
    requires Ordered(a) && Ordered(b) && forall task :: task in a <==> task in b
    ensures a == b
  {
    assert b != [] ==> b[0] in a;
    if a != [] {
      assert a[0] in b;
      FirstIsLeast(a, b[0]);
      FirstIsLeast(b, a[0]);
      if a[0] != b[0] {
        PrecedesIsAsymmetric(a[0], b[0]);
      }
      forall task ensures task in a[1..] <==> task in b[1..] {
        RestOf(a, task);
        RestOf(b, task);
      }
      ListingIsUnique(a[1..], b[1..]);
    }
  }

  lemma FirstIsLeast(tasks: seq<Task>, task: Task)
    requires Ordered(tasks) && tasks != [] && task in tasks
    ensures task == tasks[0] || Precedes(tasks[0], task)
  {
  }

  lemma RestOf(tasks: seq<Task>, task: Task)
    requires Ordered(tasks) && tasks != []
    ensures task in tasks[1..] <==> task in tasks && task != tasks[0]
  {
    if task in tasks[1..] {
      var j :| 0 < j < |tasks| && tasks[j] == task;
      PrecedesIsAsymmetric(tasks[0], task);
    }
  }

  /** A table filed under its tasks' own ids. */
  ghost predicate Keyed(t: Table) {
    forall id :: id in t ==> t[id].task.id == id
  }

  lemma {:induction false} ListingExists(t: Table) returns (tasks: seq<Task>)
    requires Keyed(t)
    ensures IsListing(tasks, t)
    decreases |t|
  {
    if t == map[] {
      return [];
    }
    var id :| id in t;
    assert t.Keys == (t - {id}).Keys + {id};
    var rest := ListingExists(t - {id});
    InsertKeepsOrder(t[id].task, rest);
    tasks := Insert(t[id].task, rest);
  }

  ghost function Listing(t: Table): (tasks: seq<Task>)
    ensures Keyed(t) ==> IsListing(tasks, t)
  {
    if Keyed(t) then
      assert exists tasks :: IsListing(tasks, t) by { var tasks := ListingExists(t); }
      var tasks :| IsListing(tasks, t);
      tasks
    else []
  }

  // ---------------------------------------------------------------------
  // Operations
  // ---------------------------------------------------------------------

  datatype Fault = NotFound | AlreadyTerminal | TooManyRunning | StoreFull | NoResult | UseFinish

  datatype Op =
    | Create(id: string, ttl: Option<nat>, owner: Requestor)
    | Get(id: string, who: Requestor)
    | List(who: Requestor)
    | Cancel(id: string, who: Requestor)
    | TryResult(id: string, who: Requestor)
    | Finish(id: string, status: Status, outcome: Outcome)
    | SetStatus(id: string, status: Status)
    | SetMessage(id: string, message: string)
    | Look

  /** An operation, the clock it reads, and that clock as a timestamp. */
  datatype Step = Step(now: int, stamp: string, op: Op)

  datatype Reply =
    | Done
    | TheTask(task: Task)
    | TheTasks(tasks: seq<Task>)
    | TheResult(result: Option<Outcome>)
    | Moved(moved: bool)
    | Refused(fault: Fault)

  function NewRecord(config: Config, step: Step): Record
    requires step.op.Create?
  {
    var asked := if step.op.ttl.Some? then step.op.ttl.value else config.defaultTtl;
    var ttl := if asked < config.maxTtl then asked else config.maxTtl;
    Record(
      Task(step.op.id, Working, None, step.stamp, step.stamp, Some(ttl), Some(config.pollInterval)),
      None, step.now, false, step.op.owner)
  }

  function RunningOf(t: Table, who: Requestor): set<string> {
    set id | id in t && Running(t[id]) && t[id].owner == who
  }

  const CANCELLED_MESSAGE := "The task was cancelled by request."

  function CancelRecord(record: Record, stamp: string): Record {
    record.(cancelled := true,
            outcome := Some(Error(RpcError(-32603, "Task was cancelled", None))),
            task := record.task.(status := Cancelled,
                                 statusMessage := Some(CANCELLED_MESSAGE),
                                 lastUpdatedAt := stamp))
  }

  function FinishRecord(record: Record, status: Status, outcome: Outcome, stamp: string): Record {
    record.(outcome := Some(outcome),
            task := record.task.(status := status,
                                 lastUpdatedAt := stamp,
                                 statusMessage := if outcome.Error? then Some(outcome.error.message)
                                                  else record.task.statusMessage))
  }

  /** The table after an operation. */
  ghost function Apply(config: Config, t: Table, step: Step): Table {
    var swept := Sweep(t, step.now);
    match step.op
    case Create(id, _, owner) =>
      if |RunningOf(swept, owner)| >= config.maxConcurrent then swept
      else
        var (room, ok) := MakeRoom(swept, Ceiling(config));
        if ok then room[id := NewRecord(config, step)] else room
    case Get(_, _) => swept
    case List(_) => swept
    case TryResult(_, _) => swept
    case Look => swept
    case Cancel(id, who) =>
      if id in swept && swept[id].owner == who && Running(swept[id])
      then swept[id := CancelRecord(swept[id], step.stamp)] else swept
    case Finish(id, status, outcome) =>
      if id in t && Running(t[id])
      then t[id := FinishRecord(t[id], status, outcome, step.stamp)] else t
    case SetStatus(id, status) =>
      if !IsTerminal(status) && id in t && CanTransition(t[id].task.status, status)
      then t[id := t[id].(task := t[id].task.(status := status, lastUpdatedAt := step.stamp))]
      else t
    case SetMessage(id, message) =>
      if id in t && Running(t[id])
      then t[id := t[id].(task := t[id].task.(statusMessage := Some(message),
                                             lastUpdatedAt := step.stamp))]
      else t
  }

  /** What an operation answers. */
  ghost function ReplyTo(config: Config, t: Table, step: Step): Reply {
    var swept := Sweep(t, step.now);
    match step.op
    case Create(_, _, owner) =>
      if |RunningOf(swept, owner)| >= config.maxConcurrent then Refused(TooManyRunning)
      else if MakeRoom(swept, Ceiling(config)).1 then TheTask(NewRecord(config, step).task)
      else Refused(StoreFull)
    case Get(id, who) =>
      if id in swept && swept[id].owner == who then TheTask(swept[id].task) else Refused(NotFound)
    case List(who) => TheTasks(Listing(Mine(swept, who)))
    case TryResult(id, who) =>
      if !(id in swept && swept[id].owner == who) then Refused(NotFound)
      else if Running(swept[id]) then TheResult(None)
      else if swept[id].outcome.Some? then TheResult(swept[id].outcome)
      else Refused(NoResult)
    case Look => Done
    case Cancel(id, who) =>
      if !(id in swept && swept[id].owner == who) then Refused(NotFound)
      else if Running(swept[id]) then TheTask(CancelRecord(swept[id], step.stamp).task)
      else Refused(AlreadyTerminal)
    case Finish(_, _, _) => Done
    case SetStatus(id, status) =>
      if IsTerminal(status) then Refused(UseFinish)
      else Moved(id in t && CanTransition(t[id].task.status, status))
    case SetMessage(_, _) => Done
  }
}
