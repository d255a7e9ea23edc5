/**
 The gate that keeps a task's worker quiet until the client has been told of the
 task. Workers write on threads of their own; the main thread opens every
 pending gate after every write it makes, whatever it wrote.
 */
module TaskGate {

  /** What goes over the wire: the response announcing a task, a worker's message, or neither. */
  datatype Line = Announcement(task: string) | Spoken(task: string) | OtherLine

  /** The main thread: free, with an answer to write, or opening gates after a write. */
  datatype Main = Ready | Owing(answer: Line) | Opening

  datatype Worker = AtGate | LetThrough

  datatype State = State(
    main: Main,
    pending: seq<string>,
    open: set<string>,
    workers: map<string, Worker>,
    wire: seq<Line>)

  datatype Event =
    | StartTask(task: string, spawned: bool)  // gate pushed, worker spawned or not
    | Respond(line: Line, ok: bool)           // `write_message` of the answer owed
    | WriteOther(ok: bool)                    // `write_message` of anything else
    | ToolWrites                              // a tool's own write, which opens nothing
    | OpenGate                                // one turn of `release_task_workers`
    | Resume                                  // no gate is left to open
    | Pass(task: string)                      // a worker finds its gate open
    | WaitTimesOut(task: string)              // a worker stops waiting for it
    | Speak(task: string)                     // a worker writes

  function Start(): State {
    State(Ready, [], {}, map[], [])
  }

  /** Task ids are fresh. */
  predicate Enabled(s: State, e: Event) {
    match e
    case StartTask(task, _) =>
      s.main.Ready? && task !in s.workers && task !in s.open && task !in s.pending
    case Respond(line, _) => s.main == Owing(line)
    case WriteOther(_) => s.main.Ready?
    case ToolWrites => s.main.Ready?
    case OpenGate => s.main.Opening? && s.pending != []
    case Resume => s.main.Opening? && s.pending == []
    case Pass(task) => task in s.workers && s.workers[task].AtGate? && task in s.open
    case WaitTimesOut(task) => task in s.workers && s.workers[task].AtGate? && task !in s.open
    case Speak(task) => task in s.workers && s.workers[task].LetThrough?
  }

  function Next(s: State, e: Event): State
    requires Enabled(s, e)
  {
    match e
    case StartTask(task, spawned) =>
      s.(main := Owing(if spawned then Announcement(task) else OtherLine),
         pending := s.pending + [task],
         workers := if spawned then s.workers[task := AtGate] else s.workers)
    case Respond(line, ok) => s.(main := Opening, wire := if ok then s.wire + [line] else s.wire)
    case WriteOther(ok) => s.(main := Opening, wire := if ok then s.wire + [OtherLine] else s.wire)
    case ToolWrites => s.(wire := s.wire + [OtherLine])
    case OpenGate => s.(open := s.open + {s.pending[0]}, pending := s.pending[1..])
    case Resume => s.(main := Ready)
    case Pass(task) => s.(workers := s.workers[task := LetThrough])
    case WaitTimesOut(task) => s.(workers := s.workers[task := LetThrough])
    case Speak(task) => s.(wire := s.wire + [Spoken(task)])
  }

  ghost predicate IsRun(events: seq<Event>)
    decreases |events|, 0
  {
    events == [] ||
    (IsRun(events[..|events| - 1]) && Enabled(Run(events[..|events| - 1]), events[|events| - 1]))
  }

  ghost function Run(events: seq<Event>): State
    requires IsRun(events)
    decreases |events|, 1
  {
    if events == [] then Start()
    else Next(Run(events[..|events| - 1]), events[|events| - 1])
  }

  // ---------------------------------------------------------------------
  // Announced first
  // ---------------------------------------------------------------------

  /** The write of the task's announcement failed; gates are opened all the same. */
  ghost predicate AnnouncementLost(events: seq<Event>, task: string) {
    Respond(Announcement(task), false) in events
  }

  /** The task's worker stopped waiting at the gate while its announcement was not out. */
  ghost predicate TimedOutEarly(events: seq<Event>, task: string)
    requires IsRun(events)
  {
    events != [] &&
    (|| TimedOutEarly(events[..|events| - 1], task)
     || (&& events[|events| - 1] == WaitTimesOut(task)
         && Announcement(task) !in Run(events[..|events| - 1]).wire))
  }

  ghost predicate Excused(events: seq<Event>, task: string)
    requires IsRun(events)
  {
    TimedOutEarly(events, task) || AnnouncementLost(events, task)
  }

  /** The task's announcement is out, or never will be. */
  ghost predicate Settled(events: seq<Event>, s: State, task: string) {
    Announcement(task) in s.wire || AnnouncementLost(events, task)
  }

  /** The gates still pending are those of the answer being written. */
  ghost predicate PendingIsCurrent(events: seq<Event>, s: State) {
    match s.main
    case Ready => s.pending == []
    case Owing(Announcement(task)) => s.pending == [task]
    case Owing(_) => forall task :: task in s.pending ==> task !in s.workers
    case Opening => forall task :: task in s.pending && task in s.workers ==> Settled(events, s, task)
  }

  ghost predicate WorkersBehave(events: seq<Event>, s: State)
    requires IsRun(events)
  {
    && (forall task :: task in s.open && task in s.workers ==> Settled(events, s, task))
    && (forall task :: task in s.workers && s.workers[task].AtGate? ==>
          task in s.open || task in s.pending)
    && (forall task :: task in s.workers && s.workers[task].LetThrough? ==>
          Settled(events, s, task) || TimedOutEarly(events, task))
  }

  /** A task is announced at most once, and only if it has a worker. */
  ghost predicate AnsweredOnce(events: seq<Event>, s: State) {
    && (forall task :: Settled(events, s, task) ==>
          task in s.workers && s.main != Owing(Announcement(task)))
    && (forall task :: AnnouncementLost(events, task) ==> Announcement(task) !in s.wire)
    && (forall task :: s.main == Owing(Announcement(task)) ==> task in s.workers)
    && (s.main.Owing? ==> !s.main.answer.Spoken?)
  }

  ghost predicate WireInOrder(events: seq<Event>, wire: seq<Line>)
    requires IsRun(events)
  {
    forall k, task :: 0 <= k < |wire| && wire[k] == Spoken(task) ==>
      Announcement(task) in wire[..k] || Excused(events, task)
  }

  lemma MoreEvents(before: seq<Event>, e: Event)
    requires IsRun(before) && Enabled(Run(before), e)
    ensures IsRun(before + [e]) && Run(before + [e]) == Next(Run(before), e)
    ensures forall f :: f in before + [e] <==> f in before || f == e
    ensures forall task :: TimedOutEarly(before + [e], task) <==>
              || TimedOutEarly(before, task)
              || (e == WaitTimesOut(task) && Announcement(task) !in Run(before).wire)
  {
    assert (before + [e])[..|before|] == before;
  }

  lemma {:induction false} RunKeepsGates(events: seq<Event>)
    requires IsRun(events)
    ensures PendingIsCurrent(events, Run(events)) && WorkersBehave(events, Run(events))
    ensures AnsweredOnce(events, Run(events))
  {
    if events != [] {
      var before, e := events[..|events| - 1], events[|events| - 1];
      RunKeepsGates(before);
      assert events == before + [e];
      StepKeepsGates(before, e);
      StepAnswersOnce(before, e);
    }
  }

  lemma StepKeepsGates(before: seq<Event>, e: Event)
    requires IsRun(before) && Enabled(Run(before), e)
    requires PendingIsCurrent(before, Run(before)) && WorkersBehave(before, Run(before))
    ensures IsRun(before + [e])
    ensures PendingIsCurrent(before + [e], Next(Run(before), e))
    ensures WorkersBehave(before + [e], Next(Run(before), e))
  {
    MoreEvents(before, e);
    var s := Run(before);
    var t := Next(s, e);
    forall task | Settled(before, s, task) ensures Settled(before + [e], t, task) {
    }
    if e.Respond? && e.ok {
      assert e.line in t.wire;
    }
  }

  lemma StepAnswersOnce(before: seq<Event>, e: Event)
    requires IsRun(before) && Enabled(Run(before), e) && AnsweredOnce(before, Run(before))
    ensures AnsweredOnce(before + [e], Next(Run(before), e))
  {
    MoreEvents(before, e);
    var s, t := Run(before), Next(Run(before), e);
    forall line | line in t.wire ensures line in s.wire || e.Speak? || !line.Announcement? || e == Respond(line, true) {
    }
  }

  lemma {:induction false} RunKeepsOrder(events: seq<Event>)
    requires IsRun(events)
    ensures WireInOrder(events, Run(events).wire)
  {
    if events != [] {
      var before, e := events[..|events| - 1], events[|events| - 1];
      RunKeepsOrder(before);
      RunKeepsGates(before);
      assert events == before + [e];
      MoreEvents(before, e);
      OnlyWorkersSpeak(before, e);
      OneMoreLine(events, Run(before).wire, Run(events).wire);
    }
  }

  lemma OnlyWorkersSpeak(before: seq<Event>, e: Event)
    requires IsRun(before) && Enabled(Run(before), e)
    requires WorkersBehave(before, Run(before)) && AnsweredOnce(before, Run(before))
    ensures IsRun(before + [e])
    ensures var was, now := Run(before).wire, Next(Run(before), e).wire;
            || now == was
            || (&& |now| == |was| + 1 && now[..|was|] == was
                && (now[|was|].Spoken? ==>
                      Announcement(now[|was|].task) in was || Excused(before + [e], now[|was|].task)))
  {
    MoreEvents(before, e);
  }

  lemma OneMoreLine(events: seq<Event>, before: seq<Line>, after: seq<Line>)
    requires IsRun(events)
    requires forall k, task :: 0 <= k < |before| && before[k] == Spoken(task) ==>
               Announcement(task) in before[..k] || Excused(events, task)
    requires after == before || (|after| == |before| + 1 && after[..|before|] == before)
    requires |after| > |before| && after[|before|].Spoken? ==>
               Announcement(after[|before|].task) in before || Excused(events, after[|before|].task)
    ensures WireInOrder(events, after)
  {
    forall k, task | 0 <= k < |after| && after[k] == Spoken(task)
      ensures Announcement(task) in after[..k] || Excused(events, task)
    {
      assert k <= |before|;
      assert after[..k] == before[..k];
      if k < |before| {
        assert before[k] == Spoken(task);
      } else {
        assert before[..k] == before;
      }
    }
  }

  /**
   In every run, a message of a task's worker comes after the response announcing
   the task if and only if that response could be written - unless the worker had
   stopped waiting at the gate before the response was out.
   */
  lemma AnnouncedFirst(events: seq<Event>, k: nat, task: string)
    requires IsRun(events) && k < |Run(events).wire| && Run(events).wire[k] == Spoken(task)
    requires !TimedOutEarly(events, task)
    ensures (exists j :: 0 <= j < k && Run(events).wire[j] == Announcement(task)) <==>
            !AnnouncementLost(events, task)
  {
    RunKeepsOrder(events);
    RunKeepsGates(events);
    InPrefix(Run(events).wire, k, Announcement(task));
  }

  lemma InPrefix(wire: seq<Line>, k: nat, line: Line)
    requires k <= |wire|
    ensures line in wire[..k] <==> exists j :: 0 <= j < k && wire[j] == line
    ensures line in wire[..k] ==> line in wire
  {
    if line in wire[..k] {
      var j :| 0 <= j < k && wire[..k][j] == line;
      assert wire[j] == line;
    }
    if j :| 0 <= j < k && wire[j] == line {
      assert wire[..k][j] == line;
    }
  }

  /** No gate is forgotten: whenever the main thread is free, every waiting worker may pass. */
  lemma NobodyIsStranded(events: seq<Event>, task: string)
    requires IsRun(events) && Run(events).main.Ready?
    requires task in Run(events).workers && Run(events).workers[task].AtGate?
    ensures Enabled(Run(events), Pass(task))
  {
    RunKeepsGates(events);
  }

  // ---------------------------------------------------------------------
  // Both exceptions happen
  // ---------------------------------------------------------------------

  lemma Do(events: seq<Event>, e: Event) returns (after: seq<Event>)
    requires IsRun(events) && Enabled(Run(events), e)
    ensures after == events + [e] && IsRun(after) && Run(after) == Next(Run(events), e)
  {
    after := events + [e];
    assert after[..|events|] == events;
  }

  /** A worker that stopped waiting speaks before its task is announced. */
  lemma TimedOutWorkerSpeaksFirst(task: string) returns (events: seq<Event>)
    ensures IsRun(events) && !AnnouncementLost(events, task)
    ensures Run(events).wire == [Spoken(task), Announcement(task)]
  {
    events := Do([], StartTask(task, true));
    events := Do(events, WaitTimesOut(task));
    events := Do(events, Speak(task));
    events := Do(events, Respond(Announcement(task), true));
  }

  /** A failed announcement opens the gate, and the worker speaks of a task nobody knows. */
  lemma LostAnnouncementOpensTheGate(task: string) returns (events: seq<Event>)
    ensures IsRun(events) && WaitTimesOut(task) !in events
    ensures Run(events).wire == [Spoken(task)]
  {
    events := Do([], StartTask(task, true));
    events := Do(events, Respond(Announcement(task), false));
    events := Do(events, OpenGate);
    events := Do(events, Pass(task));
    events := Do(events, Speak(task));
  }
}
