/**
 The reader's own code: the main loop of `Server::start`, a tool's
 `await_response`, and the `tasks/result` pump of `await_task`, as loops over a
 shared broker with task workers running in between.

 Each method extends a ghost history of `Protocol` events that accounts for
 everything it did, so what is proved of every run is proved of this code.
 */
module ServerLoop {
  import opened Text
  import opened Messages
  import opened BrokerSections
  import B = Broker
  import opened RequestBrokers
  import opened Protocol
  import opened ProtocolFifo
  import opened ProtocolBounds
  import T = Tasks

  /** What one read of the transport gives back. */
  datatype ReadResult = Got(message: Message) | TimedOut | Closed | Malformed | Broken

  /** One turn of a reading loop: the clock, what the store says of an awaited task, and the read. */
  datatype Turn = Turn(now: nat, looked: T.Reply, read: ReadResult)

  /** What every turn after the end of the stream is like. */
  const STREAM_END := Turn(0, T.TheResult(None), Closed)

  /** One request a tool makes of the client: whether the write works, and its deadline. */
  datatype Ask = Ask(sent: bool, deadline: Option<nat>)

  datatype WaitEnd = GotAnswer(response: Response) | RanOut | Errored

  // ---------------------------------------------------------------------
  // Histories
  // ---------------------------------------------------------------------

  /** How many requests of a tool's own a run has begun. */
  function AskStarts(events: seq<Event>): nat {
    if events == [] then 0
    else AskStarts(events[..|events| - 1]) + if events[|events| - 1].AskStart? then 1 else 0
  }

  /** How many times a run has gone into the `tasks/result` pump. */
  function PumpStarts(events: seq<Event>): nat {
    if events == [] then 0
    else PumpStarts(events[..|events| - 1]) + if events[|events| - 1].PumpStart? then 1 else 0
  }

  /** What a run has brought and begun so far. */
  datatype Tally = Tally(arrived: seq<Message>, asks: nat, pumps: nat)

  function Count(tally: Tally, e: Event): Tally {
    Tally(tally.arrived + Arriving(e),
          tally.asks + if e.AskStart? then 1 else 0,
          tally.pumps + if e.PumpStart? then 1 else 0)
  }

  /** The events of a run, with the states they led through and the tally kept on the way. */
  datatype History = History(events: seq<Event>, states: seq<System>, tallies: seq<Tally>)

  predicate Steps(h: History, k: nat)
    requires k < |h.events| && |h.states| == |h.tallies| == |h.events| + 1
  {
    && Enabled(h.states[k], h.events[k]) && h.states[k + 1] == Next(h.states[k], h.events[k])
    && h.tallies[k + 1] == Count(h.tallies[k], h.events[k])
  }

  ghost predicate Genuine(h: History) {
    && |h.states| == |h.tallies| == |h.events| + 1
    && h.states[0] == Start() && h.tallies[0] == Tally([], 0, 0)
    && forall k :: 0 <= k < |h.events| ==> Steps(h, k)
  }

  function Now(h: History): System {
    if h.states == [] then Start() else h.states[|h.states| - 1]
  }

  function SoFar(h: History): Tally {
    if h.tallies == [] then Tally([], 0, 0) else h.tallies[|h.tallies| - 1]
  }

  function Then(h: History, e: Event): History
    requires Enabled(Now(h), e)
  {
    History(h.events + [e], h.states + [Next(Now(h), e)], h.tallies + [Count(SoFar(h), e)])
  }

  /** Between two histories these messages arrived, and so many requests and pumps began. */
  predicate Adds(h: History, after: History, arrived: seq<Message>, asks: nat, pumps: nat) {
    SoFar(after) == Tally(SoFar(h).arrived + arrived, SoFar(h).asks + asks, SoFar(h).pumps + pumps)
  }

  lemma Extend(h: History, e: Event)
    requires Genuine(h) && Enabled(Now(h), e)
    ensures Genuine(Then(h, e)) && Now(Then(h, e)) == Next(Now(h), e)
    ensures Adds(h, Then(h, e), Arriving(e), if e.AskStart? then 1 else 0, if e.PumpStart? then 1 else 0)
  {
    var longer := Then(h, e);
    forall k | 0 <= k < |longer.events| ensures Steps(longer, k) {
      if k < |h.events| {
        assert Steps(h, k);
      }
    }
  }

  /** One more event, whatever the history looks like afterwards. */
  lemma Do(h: History, e: Event) returns (after: History)
    requires Genuine(h) && Enabled(Now(h), e)
    ensures Genuine(after) && Now(after) == Next(Now(h), e)
    ensures Adds(h, after, Arriving(e), if e.AskStart? then 1 else 0, if e.PumpStart? then 1 else 0)
  {
    Extend(h, e);
    after := Then(h, e);
  }

  /** A genuine history is a run, and its tally is that run's. */
  lemma {:induction false} GenuineIsRun(h: History)
    requires Genuine(h)
    ensures IsRun(h.events) && Run(h.events) == Now(h)
    ensures SoFar(h) == Tally(Arrivals(h.events), AskStarts(h.events), PumpStarts(h.events))
    decreases |h.events|
  {
    if h.events != [] {
      var n := |h.events| - 1;
      var before := History(h.events[..n], h.states[..n + 1], h.tallies[..n + 1]);
      forall k | 0 <= k < n ensures Steps(before, k) {
        assert Steps(h, k);
      }
      GenuineIsRun(before);
      assert Steps(h, n);
    }
  }

  /** What is proved of every run, of a history. */
  lemma HistoryIsFifo(h: History)
    requires Genuine(h)
    ensures Fifo(Now(h)) && Logged(Now(h).log) == SoFar(h).arrived
  {
    GenuineIsRun(h);
    RunIsFifo(h.events);
  }

  // ---------------------------------------------------------------------
  // Task workers in between
  // ---------------------------------------------------------------------

  predicate IsWorker(e: Event) {
    || e.CallStart? || e.CallRegister? || e.CallWrite? || e.CallReceive?
    || e.CallGiveUp? || e.CallClosed? || e.CallAbandon?
  }

  /** The reader's side of the system, which task workers cannot touch. */
  ghost predicate SameReader(s: System, t: System) {
    && t.mode == s.mode && t.log == s.log && t.handled == s.handled
    && t.deferred == s.deferred && t.early == s.early
    && |s.calls| <= |t.calls|
    && forall k :: 0 <= k < |s.calls| && !s.calls[k].delegated ==> t.calls[k] == s.calls[k]
  }

  ghost predicate WorkersRan(before: seq<Event>, after: seq<Event>) {
    before <= after && forall i :: |before| <= i < |after| ==> IsWorker(after[i])
  }

  lemma WorkerLeavesReader(s: System, e: Event)
    requires IsWorker(e) && Enabled(s, e)
    ensures SameReader(s, Next(s, e)) && Next(s, e).job == s.job
  {
  }

  lemma {:induction false} WorkersLeaveReader(before: seq<Event>, after: seq<Event>)
    requires IsRun(before) && IsRun(after) && WorkersRan(before, after)
    ensures SameReader(Run(before), Run(after)) && Run(after).job == Run(before).job
    ensures Arrivals(after) == Arrivals(before)
    decreases |after|
  {
    if |before| < |after| {
      var middle := after[..|after| - 1];
      WorkersLeaveReader(before, middle);
      WorkerLeavesReader(Run(middle), after[|after| - 1]);
    } else {
      assert before == after;
    }
  }

  lemma WorkersLeaveHistory(before: History, after: History)
    requires Genuine(before) && Genuine(after) && WorkersRan(before.events, after.events)
    ensures SameReader(Now(before), Now(after)) && Now(after).job == Now(before).job
  {
    GenuineIsRun(before);
    GenuineIsRun(after);
    WorkersLeaveReader(before.events, after.events);
  }

  /** Senders in the waiter map, or in the reader's hand, are task workers'. */
  ghost predicate WaitersAreWorkers(s: System) {
    && (forall id :: id in s.waiters ==> Delegated(s, s.waiters[id]))
    && (s.job.Handing? ==> Delegated(s, s.job.call))
  }

  lemma {:induction false} RunKeepsWorkers(events: seq<Event>)
    requires IsRun(events)
    ensures WaitersAreWorkers(Run(events))
  {
    if events != [] {
      RunKeepsWorkers(events[..|events| - 1]);
      NextKeepsWorkers(Run(events[..|events| - 1]), events[|events| - 1]);
    }
  }

  lemma WorkersStayWorkers(s: System, e: Event)
    requires Enabled(s, e)
    ensures |s.calls| <= |Next(s, e).calls|
    ensures forall k :: 0 <= k < |s.calls| ==> Next(s, e).calls[k].delegated == s.calls[k].delegated
  {
  }

  lemma WaitersComeFrom(s: System, e: Event)
    requires Enabled(s, e)
    ensures forall id :: id in Next(s, e).waiters ==>
              || (id in s.waiters && Next(s, e).waiters[id] == s.waiters[id])
              || (e.CallRegister? && Next(s, e).waiters[id] == e.k)
    ensures Next(s, e).job.Handing? ==>
              || Next(s, e).job == s.job
              || Next(s, e).job.call in s.waiters.Values
  {
  }

  lemma NextKeepsWorkers(s: System, e: Event)
    requires WaitersAreWorkers(s) && Enabled(s, e)
    ensures WaitersAreWorkers(Next(s, e))
  {
    WorkersStayWorkers(s, e);
    WaitersComeFrom(s, e);
  }

  // ---------------------------------------------------------------------
  // Whole broker methods as runs of lock sections
  // ---------------------------------------------------------------------

  /** The calls, once the waiter registered for a response has been given it. */
  function GivenAnswer(s: System, response: Response): seq<Call> {
    if response.id !in s.waiters then s.calls
    else
      var k := s.waiters[response.id];
      if k < |s.calls| && Listening(s.calls[k]) && s.calls[k].slot.None?
      then s.calls[k := s.calls[k].(slot := Some(response))] else s.calls
  }

  /** `deliver`, from the lookup to the end. */
  function Delivered(s: System, response: Response): System {
    var held := response.id in s.waiters || !WasIssuedHere(NextId(s), response.id);
    s.(job := Idle,
       calls := GivenAnswer(s, response),
       waiters := s.waiters - {response.id},
       abandoned := if !held && response.id in s.abandoned
                    then Forget(s.abandoned, response.id) else s.abandoned,
       parked := if !held && response.id !in s.abandoned
                 then PushParked(s.parked, response) else s.parked)
  }

  /** One more lock section. */
  lemma TakeLock(h: History) returns (after: History)
    requires Genuine(h) && !Now(h).job.Idle?
    ensures Genuine(after) && Now(after) == Advance(Now(h))
    ensures Adds(h, after, [], 0, 0)
  {
    after := Do(h, ReaderStep);
  }

  /** `deliver`, one lock after another and nobody in between, is the whole method. */
  lemma FinishDelivery(h: History) returns (after: History)
    requires Genuine(h) && Now(h).job.Routing?
    ensures Genuine(after) && Adds(h, after, [], 0, 0)
    ensures Now(after) == Delivered(Now(h), Now(h).job.response)
  {
    var s := Now(h);
    after := TakeLock(h);
    if s.job.response.id in s.waiters {
      after := TakeLock(after);
    } else {
      assert s.waiters - {s.job.response.id} == s.waiters;
      after := TakeLock(after);
      if Now(after).job.Recalling? {
        after := FinishRecall(after);
      }
    }
  }

  /** The end of `park`: discarded if abandoned, else parked. */
  function Recalled(s: System): System
    requires s.job.Recalling?
  {
    var r := s.job.response;
    if r.id in s.abandoned then s.(job := Idle, abandoned := Forget(s.abandoned, r.id))
    else s.(job := Idle, parked := PushParked(s.parked, r))
  }

  lemma FinishRecall(h: History) returns (after: History)
    requires Genuine(h) && Now(h).job.Recalling?
    ensures Genuine(after) && Adds(h, after, [], 0, 0)
    ensures Now(after) == Recalled(Now(h))
  {
    after := TakeLock(h);
    if Now(h).job.response.id !in Now(h).abandoned {
      after := TakeLock(after);
    }
  }

  /** A delivery changes no direct call, and no call's id or kind. */
  lemma DeliveryLeavesReader(h: History, response: Response)
    requires Genuine(h)
    ensures SameReader(Now(h), Delivered(Now(h), response))
    ensures |Delivered(Now(h), response).calls| == |Now(h).calls|
  {
    GenuineIsRun(h);
    RunKeepsWorkers(h.events);
  }

  /** `abandon`, all three locks of it. */
  function Abandoned(s: System): System
    requires s.job.Dropping? && (s.job.endsWait ==> s.mode.Asking? && s.mode.call < |s.calls|)
  {
    (if s.job.endsWait then EndWait(s, Failed) else s).(
      parked := Without(s.parked, s.job.id),
      waiters := s.waiters - {s.job.id},
      abandoned := PushAbandoned(s.abandoned, s.job.id),
      job := Idle)
  }

  lemma FinishAbandon(h: History) returns (after: History)
    requires Genuine(h) && Now(h).job.Dropping? && Now(h).job.section == 1
    requires var s := Now(h); s.job.endsWait ==> s.mode.Asking? && s.mode.call < |s.calls|
    ensures Genuine(after) && Adds(h, after, [], 0, 0)
    ensures Now(after) == Abandoned(Now(h))
  {
    after := TakeLock(h);
    after := TakeLock(after);
    after := TakeLock(after);
  }

  // ---------------------------------------------------------------------
  // The loops
  // ---------------------------------------------------------------------

  /** The client request or notification a read brings, if any. */
  function Brought(read: ReadResult): seq<Message> {
    if read.Got? && !read.message.Answer? then [read.message] else []
  }

  /** The client requests and notifications among what was read. */
  function ClientMessages(turns: seq<Turn>): seq<Message> {
    if turns == [] then []
    else ClientMessages(turns[..|turns| - 1]) + Brought(turns[|turns| - 1].read)
  }

  /** What had been heard after each read: a running `ClientMessages`. */
  ghost predicate HeardRight(turns: seq<Turn>, heard: seq<seq<Message>>) {
    && |heard| == |turns| + 1 && heard[0] == []
    && forall k :: 0 <= k < |turns| ==> HearsAt(turns, heard, k)
  }

  predicate HearsAt(turns: seq<Turn>, heard: seq<seq<Message>>, k: nat)
    requires k < |turns| && |heard| == |turns| + 1
  {
    heard[k + 1] == heard[k] + Brought(turns[k].read)
  }

  lemma HearsMore(turns: seq<Turn>, heard: seq<seq<Message>>, turn: Turn)
    requires HeardRight(turns, heard)
    ensures HeardRight(turns + [turn], heard + [Heard(heard) + Brought(turn.read)])
  {
    var turns', heard' := turns + [turn], heard + [Heard(heard) + Brought(turn.read)];
    forall k | 0 <= k < |turns'| ensures HearsAt(turns', heard', k) {
      if k < |turns| {
        assert HearsAt(turns, heard, k);
      }
    }
  }

  function Heard(heard: seq<seq<Message>>): seq<Message> {
    if heard == [] then [] else heard[|heard| - 1]
  }

  lemma {:induction false} HeardIsAll(turns: seq<Turn>, heard: seq<seq<Message>>)
    requires HeardRight(turns, heard)
    ensures Heard(heard) == ClientMessages(turns)
    decreases |turns|
  {
    if turns != [] {
      var n := |turns| - 1;
      var fewer, before := turns[..n], heard[..n + 1];
      forall k | 0 <= k < n ensures HearsAt(fewer, before, k) {
        assert HearsAt(turns, heard, k);
      }
      HeardIsAll(fewer, before);
      assert HearsAt(turns, heard, n);
    }
  }

  /** The requests among some messages, by id. */
  function RequestIds(messages: seq<Message>): seq<RequestId> {
    if messages == [] then []
    else
      var last := messages[|messages| - 1];
      RequestIds(messages[..|messages| - 1]) + if last.Request? then [last.id] else []
  }

  /** The request being handled, whose reply is still to come. */
  function Unreplied(mode: Mode): seq<RequestId> {
    if mode.Top? || !mode.request.Request? then [] else [mode.request.id]
  }

  /** How many requests of its own a message's handling makes. */
  function PlannedAsks(asks: Message -> seq<Ask>, message: Message): nat {
    if message.Request? && message.name == "tools/call" then |asks(message)| else 0
  }

  /** And how often it pumps. */
  function PlannedPumps(message: Message): nat {
    if message.Request? && message.name == "tasks/result" then 1 else 0
  }

  function AllAsks(asks: Message -> seq<Ask>, messages: seq<Message>): nat {
    if messages == [] then 0
    else AllAsks(asks, messages[..|messages| - 1]) + PlannedAsks(asks, messages[|messages| - 1])
  }

  function AllPumps(messages: seq<Message>): nat {
    if messages == [] then 0
    else AllPumps(messages[..|messages| - 1]) + PlannedPumps(messages[|messages| - 1])
  }

  /** What messages handed over call for: replies to the requests, requests to the client, pumps. */
  datatype Duties = Duties(replies: seq<RequestId>, asks: nat, pumps: nat)

  function AddDuties(duties: Duties, asks: Message -> seq<Ask>, message: Message): Duties {
    Duties(duties.replies + (if message.Request? then [message.id] else []),
           duties.asks + PlannedAsks(asks, message),
           duties.pumps + PlannedPumps(message))
  }

  /** What was called for after each message. */
  ghost predicate DutiesRight(asks: Message -> seq<Ask>, handed: seq<Message>, duties: seq<Duties>) {
    && |duties| == |handed| + 1 && duties[0] == Duties([], 0, 0)
    && forall k :: 0 <= k < |handed| ==> CallsForAt(asks, handed, duties, k)
  }

  predicate CallsForAt(asks: Message -> seq<Ask>, handed: seq<Message>, duties: seq<Duties>, k: nat)
    requires k < |handed| && |duties| == |handed| + 1
  {
    duties[k + 1] == AddDuties(duties[k], asks, handed[k])
  }

  function CalledFor(duties: seq<Duties>): Duties {
    if duties == [] then Duties([], 0, 0) else duties[|duties| - 1]
  }

  lemma CallsForMore(
    asks: Message -> seq<Ask>, handed: seq<Message>, duties: seq<Duties>, message: Message)
    requires DutiesRight(asks, handed, duties)
    ensures DutiesRight(asks, handed + [message], duties + [AddDuties(CalledFor(duties), asks, message)])
  {
    var handed' := handed + [message];
    var duties' := duties + [AddDuties(CalledFor(duties), asks, message)];
    forall k | 0 <= k < |handed'| ensures CallsForAt(asks, handed', duties', k) {
      if k < |handed| {
        assert CallsForAt(asks, handed, duties, k);
      }
    }
  }

  lemma {:induction false} CalledForIsAll(
    asks: Message -> seq<Ask>, handed: seq<Message>, duties: seq<Duties>)
    requires DutiesRight(asks, handed, duties)
    ensures CalledFor(duties) == Duties(RequestIds(handed), AllAsks(asks, handed), AllPumps(handed))
    decreases |handed|
  {
    if handed != [] {
      var n := |handed| - 1;
      var fewer, before := handed[..n], duties[..n + 1];
      forall k | 0 <= k < n ensures CallsForAt(asks, fewer, before, k) {
        assert CallsForAt(asks, handed, duties, k);
      }
      CalledForIsAll(asks, fewer, before);
      assert CallsForAt(asks, handed, duties, n);
    }
  }

  /** The queues are the broker's, but for what was just `taken` off the deferred one. */
  predicate Mirrors(s: System, b: B.State, taken: seq<Message>) {
    && s.parked == b.parked
    && s.deferred == (if taken == [] then b.deferred else taken + b.deferred)
    && s.abandoned == b.abandoned
    && s.waiters.Keys == b.waiters.Keys
    && NextId(s) == b.nextId
  }

  /** The history is a run, and each message in it met the fate its moment called for. */
  ghost predicate IsDeserving(h: History) {
    IsRun(h.events) && Run(h.events) == Now(h) && FatesDeserved(h.events)
  }

  /** What was read, and what was done about it. */
  datatype Doings = Done(
    asks: Message -> seq<Ask>,
    behind: seq<Turn>, heard: seq<seq<Message>>,
    handed: seq<Message>, duties: seq<Duties>,
    answered: seq<RequestId>, replied: seq<RequestId>, asked: nat, pumped: nat)

  /** What was done is what the history says. */
  ghost predicate Told(h: History, d: Doings) {
    && HeardRight(d.behind, d.heard) && DutiesRight(d.asks, d.handed, d.duties)
    && d.handed == Now(h).handled && d.answered == Now(h).early
    && d.replied + Unreplied(Now(h).mode) == CalledFor(d.duties).replies
    && d.asked == SoFar(h).asks && d.pumped == SoFar(h).pumps
  }

  ghost predicate Accounts(h: History, b: B.State, d: Doings, owed: seq<Message>, taken: seq<Message>) {
    && Genuine(h)
    && Mirrors(Now(h), b, taken)
    && SoFar(h).arrived + owed == Heard(d.heard)
    && Told(h, d)
  }

  /** With nothing in hand and nothing queued, what was done is all there was to do. */
  lemma SettlesAccounts(h: History, b: B.State, d: Doings)
    requires Accounts(h, b, d, [], []) && Now(h).mode.Top? && b.deferred == []
    ensures IsDeserving(h) && Logged(Now(h).log) == ClientMessages(d.behind)
    ensures d.handed == Kept(Now(h).log)
    ensures d.replied == RequestIds(d.handed)
    ensures d.answered == EarlyIds(Now(h).log)
    ensures CalledFor(d.duties) == Duties(RequestIds(d.handed), AllAsks(d.asks, d.handed), AllPumps(d.handed))
  {
    GenuineIsRun(h);
    DeferredQueueIsFifo(h.events);
    HeardIsAll(d.behind, d.heard);
    CalledForIsAll(d.asks, d.handed, d.duties);
  }

  /** What a read comes to for a tool waiting for `id`: the end of its wait, or not yet. */
  function EndOfRead(read: ReadResult, id: RequestId): Option<WaitEnd> {
    match read
    case Got(Answer(response)) => if response.id == id then Some(GotAnswer(response)) else None
    case Got(message) => if CancelledId(message) == Some(id) then Some(Errored) else None
    case TimedOut => Some(RanOut)
    case _ => Some(Errored)
  }

  /** How a pump ended: with the task's outcome, with a refusal, or with nobody left to read from. */
  datatype PumpEnding = Collected(outcome: T.Outcome) | Refusal(fault: T.Fault) | Disconnected

  /** What `try_result` says comes to: the end of the pump, or not yet. */
  function EndOfLook(reply: T.Reply): Option<PumpEnding> {
    match reply
    case TheResult(Some(outcome)) => Some(Collected(outcome))
    case Refused(fault) => Some(Refusal(fault))
    case _ => None
  }

  class ReaderThread {
    const broker: RequestBroker
    /** What each tool call will ask the client, in order. */
    const asks: Message -> seq<Ask>
    /** What the transport will give, turn by turn; end of stream after that. */
    var ahead: seq<Turn>
    var behind: seq<Turn>
    /** The client's requests and notifications given to `handle_message`. */
    var handed: seq<Message>
    /** The requests answered without it: inline by the pump, or refused at a full queue. */
    var answered: seq<RequestId>
    /** The requests whose reply from `handle_message` has been written. */
    var replied: seq<RequestId>
    /** How many requests the tools have made of the client. */
    var asked: nat
    /** How many times `tasks/result` has pumped the transport. */
    var pumped: nat
    ghost var past: History
    ghost var heard: seq<seq<Message>>
    ghost var duties: seq<Duties>

    ghost function Doing(): Doings
      reads this
    {
      Done(asks, behind, heard, handed, duties, answered, replied, asked, pumped)
    }

    /**
     The history accounts for the broker's queues but for what was just `taken` off
     the deferred one, for all that was read but `owed`, and for what was done about it.
     */
    ghost predicate Owing(owed: seq<Message>, taken: seq<Message>)
      reads this, broker
    {
      Accounts(past, broker.Model(), Doing(), owed, taken)
    }

    ghost predicate Accounted()
      reads this, broker
    {
      Owing([], [])
    }

    constructor (turns: seq<Turn>, asks: Message -> seq<Ask>)
      ensures Accounted() && Now(past) == Start() && fresh(broker)
      ensures ahead == turns && behind == []
      ensures handed == [] && answered == [] && replied == [] && asked == 0 && pumped == 0
    {
      broker := new RequestBroker();
      this.asks := asks;
      ahead, behind := turns, [];
      handed, answered, replied, asked, pumped := [], [], [], 0, 0;
      past := History([], [Start()], [Tally([], 0, 0)]);
      heard, duties := [[]], [Duties([], 0, 0)];
    }

    /** Task workers run for a while. Nothing is done here; callers learn only that they may have. */
    method Interfere()
      requires Accounted()
      modifies this`past, broker
      ensures Accounted()
      ensures WorkersRan(old(past).events, past.events)
    {
    }

    method Read() returns (turn: Turn)
      requires Accounted()
      modifies this`ahead, this`behind, this`heard
      ensures ReadOnce() && turn == old(NextTurn())
      ensures Owing(Brought(turn.read), [])
    {
      turn := NextTurn();
      HearsMore(behind, heard, turn);
      heard := heard + [Heard(heard) + Brought(turn.read)];
      ahead, behind := if ahead == [] then [] else ahead[1..], behind + [turn];
    }

    function NextTurn(): Turn
      reads this
    {
      if ahead == [] then STREAM_END else ahead[0]
    }

    /** One turn has been taken off the transport. */
    twostate predicate ReadOnce()
      reads this
    {
      && ahead == (if old(ahead) == [] then [] else old(ahead)[1..])
      && behind == old(behind) + [old(NextTurn())]
    }

    /** `broker.deliver`, for a response just read. */
    method RouteAnswer(response: Response)
      requires Accounted() && Now(past).job == Routing(response)
      modifies this`past, broker
      ensures Accounted() && Now(past).job.Idle?
      ensures SameReader(Now(old(past)), Now(past)) && |Now(past).calls| == |Now(old(past)).calls|
      ensures broker.deferred == old(broker.deferred)
    {
      DeliveryLeavesReader(past, response);
      ghost var routed := FinishDelivery(past);
      past := routed;
      broker.Deliver(response);
    }

    /** `broker.abandon`, of an id just given up. */
    method AbandonNow(id: RequestId)
      requires Accounted() && Now(past).job.Dropping?
      requires Now(past).job.id == id && Now(past).job.section == 1
      requires var s := Now(past); s.job.endsWait ==> s.mode.Asking? && s.mode.call < |s.calls|
      modifies this`past, broker
      ensures Accounted() && Now(past) == Abandoned(Now(old(past)))
      ensures broker.deferred == old(broker.deferred)
    {
      ghost var dropped := FinishAbandon(past);
      past := dropped;
      broker.Abandon(id);
    }

    /** `shed_or_defer`, of a message whose arrival leads to `placed`: queued, answered or shed. */
    method ShedOrDefer(message: Message, ghost placed: History)
      requires Owing([message], []) && !message.Answer?
      requires Genuine(placed) && Now(placed) == Offer(Now(past), message)
      requires Adds(past, placed, [message], 0, 0)
      modifies this`past, this`answered, broker
      ensures Accounted() && past == placed
      ensures broker.deferred == old(broker.deferred) +
              if |old(broker.deferred)| < MAX_DEFERRED then [message] else []
      ensures answered == old(answered) +
              if |old(broker.deferred)| >= MAX_DEFERRED && message.Request? then [message.id] else []
    {
      past := placed;
      var refused := broker.Defer(message);
      if refused.Some? && refused.value.Request? {
        answered := answered + [refused.value.id];
      }
    }

    /** The reader is waiting directly for `id`, on behalf of `request`. */
    ghost predicate WaitingFor(id: RequestId, request: Message)
      reads this, broker
    {
      Accounted() && Awaits(Now(past), id, request)
    }

    ghost predicate BackTo(request: Message)
      reads this, broker
    {
      Accounted() && Now(past).job.Idle? && Now(past).mode == Handling(request)
    }

    /** A message read while waiting for `id`, with the history brought up. */
    method AnswerWhileWaiting(response: Response, id: RequestId, ghost request: Message)
      returns (end: Option<WaitEnd>)
      requires WaitingFor(id, request) && !IsParked(Now(past), id)
      modifies this`past, broker
      ensures end == EndOfRead(Got(Answer(response)), id)
      ensures if end.None? then WaitingFor(id, request) else BackTo(request)
    {
      ghost var read := WaitIsAnswered(past, response, id, request);
      past := read;
      if response.id == id {
        return Some(GotAnswer(response));
      }
      RouteAnswer(response);
      end := None;
    }

    method ClientWhileWaiting(message: Message, id: RequestId, ghost request: Message)
      returns (end: Option<WaitEnd>)
      requires !message.Answer? && Owing([message], []) && Awaits(Now(past), id, request)
      requires !IsParked(Now(past), id)
      modifies this`past, this`answered, broker
      ensures end == EndOfRead(Got(message), id)
      ensures if end.None? then WaitingFor(id, request) else BackTo(request)
    {
      ghost var read := WaitTakes(past, message, id, request);
      if CancelledId(message) == Some(id) {
        past := read;
        AbandonNow(id);
        end := Some(Errored);
      } else {
        ShedOrDefer(message, read);
        end := None;
      }
    }

    /** A read that fails ends the wait without abandoning the id. */
    method FailWhileWaiting(id: RequestId, ghost request: Message)
      requires WaitingFor(id, request) && !IsParked(Now(past), id)
      modifies this`past
      ensures BackTo(request)
    {
      ghost var failed := FailRead(past, id, request);
      past := failed;
    }

    /** The state of the wait once something has come to `end`. */
    ghost predicate WaitAfter(end: Option<WaitEnd>, id: RequestId, request: Message)
      reads this, broker
    {
      if end.None? then WaitingFor(id, request)
      else if end.value.RanOut? then WaitingFor(id, request) && !IsParked(Now(past), id)
      else BackTo(request)
    }

    /** What was read while waiting for `id`, put where it belongs. */
    method PlaceWhileWaiting(read: ReadResult, id: RequestId, ghost request: Message)
      returns (end: Option<WaitEnd>)
      requires Owing(Brought(read), [])
      requires Awaits(Now(past), id, request) && !IsParked(Now(past), id)
      modifies this`past, this`answered, broker
      ensures end == EndOfRead(read, id) && WaitAfter(end, id, request)
      ensures read.Closed? ==> broker.deferred == old(broker.deferred)
    {
      match read
      case TimedOut => end := Some(RanOut);
      case Got(message) => end := PlaceMessage(message, id, request);
      case _ =>
        FailWhileWaiting(id, request);
        end := Some(Errored);
    }

    method PlaceMessage(message: Message, id: RequestId, ghost request: Message)
      returns (end: Option<WaitEnd>)
      requires Owing(Brought(Got(message)), [])
      requires Awaits(Now(past), id, request) && !IsParked(Now(past), id)
      modifies this`past, this`answered, broker
      ensures end == EndOfRead(Got(message), id) && (end.Some? ==> !end.value.RanOut?)
      ensures if end.None? then WaitingFor(id, request) else BackTo(request)
    {
      if message.Answer? {
        end := AnswerWhileWaiting(message.response, id, request);
      } else {
        end := ClientWhileWaiting(message, id, request);
      }
    }

    /** One message or failure, read while waiting for `id`, and what it comes to. */
    method ReadWhileWaiting(id: RequestId, ghost request: Message) returns (end: Option<WaitEnd>)
      requires WaitingFor(id, request) && !IsParked(Now(past), id)
      modifies this`ahead, this`behind, this`heard, this`past, this`answered, broker
      ensures ReadOnce() && QueuesOnlyReads()
      ensures end == EndOfRead(old(NextTurn()).read, id) && WaitAfter(end, id, request)
      ensures end.None? ==> |ahead| < |old(ahead)|
      ensures end.Some? ==> EndedByRead(end.value, id)
      ensures var read := old(NextTurn()).read;
              && (end.Some? && end.value.GotAnswer? <==>
                    read.Got? && read.message.Answer? && read.message.response.id == id)
              && (end.Some? && end.value.GotAnswer? ==> read == Got(Answer(end.value.response)))
              && (read.TimedOut? <==> end == Some(RanOut))
              && (end == Some(Errored) <==>
                    || read.Malformed? || read.Broken? || read.Closed?
                    || (read.Got? && CancelledId(read.message) == Some(id)))
    {
      var turn := Read();
      end := PlaceWhileWaiting(turn.read, id, request);
    }

    /** Task workers run while a tool waits. */
    method PauseWaiting(id: RequestId, ghost request: Message)
      requires WaitingFor(id, request)
      modifies this`past, broker
      ensures WaitingFor(id, request) && broker.deferred == old(broker.deferred)
    {
      ghost var before := past;
      Interfere();
      WorkersLeaveHistory(before, past);
    }

    /** Nothing is queued without something having been read for it. */
    twostate predicate QueuesOnlyReads()
      reads this, broker
    {
      && |ahead| <= |old(ahead)|
      && (|ahead| == |old(ahead)| ==> broker.deferred == old(broker.deferred))
    }

    /** The last thing read ended the wait in this way. */
    predicate EndedByRead(end: WaitEnd, id: RequestId)
      reads this
    {
      behind != [] && EndOfRead(behind[|behind| - 1].read, id) == Some(end)
    }

    /** Why a wait ended: the last thing read, the deadline, or - once ids have wrapped - a parked answer. */
    ghost predicate EndExplained(end: WaitEnd, id: RequestId, deadline: Option<nat>)
      reads this
    {
      || EndedByRead(end, id)
      || (end.RanOut? && deadline.Some? && ahead != [] && ahead[0].now >= deadline.value)
      || (end.GotAnswer? && end.response.id == id && |Now(past).calls| >= U64)
    }

    /** What `await_response` looks at before it reads: a parked answer, and the deadline. */
    method LookFirst(id: RequestId, deadline: Option<nat>, ghost request: Message)
      returns (end: Option<WaitEnd>)
      requires WaitingFor(id, request)
      modifies this`past, broker
      ensures WaitAfter(end, id, request) && broker.deferred == old(broker.deferred)
      ensures end.None? ==> !IsParked(Now(past), id)
      ensures end.Some? ==> EndExplained(end.value, id, deadline)
    {
      PauseWaiting(id, request);
      var parked := TakeOwn(id, request);
      if parked.Some? {
        end := Some(GotAnswer(parked.value));
      } else if deadline.Some? && ahead != [] && ahead[0].now >= deadline.value {
        end := Some(RanOut);
      } else {
        end := None;
      }
    }

    /** One turn of `await_response`. */
    method WaitTurn(id: RequestId, deadline: Option<nat>, ghost request: Message)
      returns (end: Option<WaitEnd>)
      requires WaitingFor(id, request)
      modifies this`ahead, this`behind, this`heard, this`past, this`answered, broker
      ensures QueuesOnlyReads() && WaitAfter(end, id, request)
      ensures end.None? ==> |ahead| < |old(ahead)|
      ensures end.Some? ==> EndExplained(end.value, id, deadline)
    {
      end := LookFirst(id, deadline, request);
      if end.None? {
        end := ReadWhileWaiting(id, request);
      }
    }

    /**
     `await_response`: read until the answer turns up, placing everything else. It
     ends as the last thing read calls for, or at the deadline; before 2^64 calls,
     never by finding the answer parked.
     */
    method AwaitResponse(id: RequestId, deadline: Option<nat>, ghost request: Message)
      returns (end: WaitEnd)
      requires WaitingFor(id, request)
      modifies this`ahead, this`behind, this`heard, this`past, this`answered, broker
      ensures QueuesOnlyReads() && WaitAfter(Some(end), id, request)
      ensures EndExplained(end, id, deadline)
      ensures end.GotAnswer? ==> end.response.id == id
    {
      var ended: Option<WaitEnd> := None;
      while ended.None?
        invariant QueuesOnlyReads() && WaitAfter(ended, id, request)
        invariant ended.Some? ==> EndExplained(ended.value, id, deadline)
        decreases ended.None?, |ahead|
      {
        ended := WaitTurn(id, deadline, request);
      }
      end := ended.value;
    }

    /** `take_parked`, at the top of the wait: something only once ids have wrapped. */
    method TakeOwn(id: RequestId, ghost request: Message) returns (response: Option<Response>)
      requires WaitingFor(id, request)
      modifies this`past, broker
      ensures broker.deferred == old(broker.deferred)
      ensures response.Some? ==>
                BackTo(request) && response.value.id == id && |Now(past).calls| >= U64
      ensures response.None? ==> WaitingFor(id, request) && !IsParked(Now(past), id)
    {
      if Position(broker.parked, id) < |broker.parked| {
        ghost var taken := TakesParked(past, id, request);
        past := taken;
      }
      response := broker.TakeParked(id);
    }

    /** A call of the tool's own, with a fresh id, ready to be written. */
    ghost predicate Wrote(id: RequestId, request: Message)
      reads this, broker
    {
      && Accounted() && Now(past).job.Idle? && Now(past).mode.Asking?
      && Now(past).mode.request == request
      && var s := Now(past);
      && s.mode.call < |s.calls| && s.calls[s.mode.call] == Call(id, false, Writing, None)
    }

    method AllocateCall(ghost request: Message) returns (id: RequestId)
      requires BackTo(request) && request.Request? && request.name == "tools/call"
      modifies this`past, this`asked, broker
      ensures Wrote(id, request) && asked == old(asked) + 1
      ensures id == IdOf(old(broker.nextId)) && broker.deferred == old(broker.deferred)
    {
      ghost var begun := BeginAsk(past, request);
      NextIdSteps(Now(past), Now(begun));
      id := broker.NextRequestId();
      past := begun;
      asked := asked + 1;
    }

    /** The write; a request that never went out is abandoned at once. */
    method WriteRequest(sent: bool, id: RequestId, ghost request: Message)
      requires Wrote(id, request)
      modifies this`past, broker
      ensures broker.deferred == old(broker.deferred)
      ensures if sent then WaitingFor(id, request) else BackTo(request)
    {
      ghost var wrote := WriteAsk(past, sent);
      past := wrote;
      if !sent {
        AbandonNow(id);
      }
    }

    /** `give_up` after a timeout. */
    method GiveUp(id: RequestId, ghost request: Message)
      requires WaitingFor(id, request) && !IsParked(Now(past), id)
      modifies this`past, broker
      ensures BackTo(request) && broker.deferred == old(broker.deferred)
      ensures |Now(past).calls| == |Now(old(past)).calls|
    {
      ghost var late := TimeOut(past, id, request);
      past := late;
      AbandonNow(id);
    }

    /** `send_request_with_timeout` on the loop's own thread. */
    method SendRequest(ask: Ask, ghost request: Message) returns (end: WaitEnd)
      requires BackTo(request) && request.Request? && request.name == "tools/call"
      modifies this`ahead, this`behind, this`heard, this`past, this`answered, this`asked, broker
      ensures BackTo(request) && QueuesOnlyReads() && asked == old(asked) + 1
      ensures if ask.sent then EndExplained(end, IdOf(old(broker.nextId)), ask.deadline) else end.Errored?
      ensures end.GotAnswer? ==> end.response.id == IdOf(old(broker.nextId))
    {
      var id := AllocateCall(request);
      WriteRequest(ask.sent, id, request);
      if !ask.sent {
        return Errored;
      }
      end := AwaitOrGiveUp(id, ask.deadline, request);
    }

    /** `await_response`, and `give_up` if it ran out of time. */
    method AwaitOrGiveUp(id: RequestId, deadline: Option<nat>, ghost request: Message)
      returns (end: WaitEnd)
      requires WaitingFor(id, request)
      modifies this`ahead, this`behind, this`heard, this`past, this`answered, broker
      ensures BackTo(request) && QueuesOnlyReads() && EndExplained(end, id, deadline)
      ensures end.GotAnswer? ==> end.response.id == id
    {
      end := AwaitResponse(id, deadline, request);
      if end.RanOut? {
        GiveUp(id, request);
      }
    }

    ghost predicate InPump(request: Message, owed: seq<Message>)
      reads this, broker
    {
      Owing(owed, []) && Now(past).job.Idle? && Now(past).mode == Pumping(request)
    }

    /** A message read by the pump: routed, answered on the spot, or queued. */
    method PlaceInPump(message: Message, ghost request: Message)
      requires InPump(request, Brought(Got(message)))
      modifies this`past, this`answered, broker
      ensures InPump(request, [])
      ensures var inline := message.Request? &&
                (|| message.name == "ping" || message.name == "tasks/get"
                 || message.name == "tasks/list" || message.name == "tasks/cancel");
              var full := |old(broker.deferred)| >= MAX_DEFERRED;
              && answered == old(answered) +
                 (if message.Request? && (inline || full) then [message.id] else [])
              && broker.deferred == old(broker.deferred) +
                 (if message.Answer? || inline || full then [] else [message])
    {
      ghost var read := PumpTakes(past, message);
      if message.Answer? {
        past := read;
        RouteAnswer(message.response);
      } else if IsInline(message) {
        past := read;
        answered := answered + [message.id];
      } else {
        ShedOrDefer(message, read);
      }
    }

    /** What was read by the pump, put where it belongs. */
    method PlaceReadInPump(read: ReadResult, ghost request: Message)
      requires InPump(request, Brought(read))
      modifies this`past, this`answered, broker
      ensures InPump(request, [])
      ensures !read.Got? ==> broker.deferred == old(broker.deferred)
    {
      if read.Got? {
        PlaceInPump(read.message, request);
      }
    }

    /** One message or failure, read by the pump. */
    method ReadInPump(ghost request: Message) returns (goOn: bool)
      requires InPump(request, [])
      modifies this`ahead, this`behind, this`heard, this`past, this`answered, broker
      ensures InPump(request, []) && QueuesOnlyReads()
      ensures if goOn then |ahead| < |old(ahead)| else LostClient()
    {
      var turn := Read();
      PlaceReadInPump(turn.read, request);
      goOn := !turn.read.Closed? && !turn.read.Broken?;
    }

    /** Task workers run while the pump does. */
    method PauseInPump(ghost request: Message)
      requires InPump(request, [])
      modifies this`past, broker
      ensures InPump(request, []) && broker.deferred == old(broker.deferred)
    {
      ghost var before := past;
      Interfere();
      WorkersLeaveHistory(before, past);
    }

    /** The last read found the client gone, or the transport failing. */
    predicate LostClient()
      reads this
    {
      behind != [] && (behind[|behind| - 1].read.Closed? || behind[|behind| - 1].read.Broken?)
    }

    /** One turn of the pump: the task is looked at, and if it is not done something is read. */
    method PumpTurn(ghost request: Message) returns (end: Option<PumpEnding>)
      requires InPump(request, [])
      modifies this`ahead, this`behind, this`heard, this`past, this`answered, broker
      ensures InPump(request, []) && QueuesOnlyReads()
      ensures end.None? ==> |ahead| < |old(ahead)|
      ensures end.Some? ==> PumpEndExplained(end.value)
      ensures var looked := old(NextTurn()).looked;
              && (forall fault :: looked == T.Refused(fault) ==> end == Some(Refusal(fault)))
              && (forall outcome :: looked == T.TheResult(Some(outcome)) ==> end == Some(Collected(outcome)))
    {
      PauseInPump(request);
      end := EndOfLook(NextTurn().looked);
      if end.None? {
        var goOn := ReadInPump(request);
        end := if goOn then None else Some(Disconnected);
      }
    }

    /** A pump ends as the store's last word calls for, or because the client is gone. */
    predicate PumpEndExplained(end: PumpEnding)
      reads this
    {
      match end
      case Collected(outcome) => NextTurn().looked == T.TheResult(Some(outcome))
      case Refusal(fault) => NextTurn().looked == T.Refused(fault)
      case Disconnected => LostClient()
    }

    /** `await_task`: pump the transport until the task is done or the client is gone. */
    method AwaitTask(ghost request: Message) returns (end: PumpEnding)
      requires BackTo(request) && request.Request? && request.name == "tasks/result"
      modifies this`ahead, this`behind, this`heard, this`past, this`answered, this`pumped, broker
      ensures BackTo(request) && QueuesOnlyReads() && PumpEndExplained(end) && pumped == old(pumped) + 1
    {
      ghost var entered := EnterPump(past, request);
      past := entered;
      pumped := pumped + 1;
      var ended: Option<PumpEnding> := None;
      while ended.None?
        invariant InPump(request, []) && QueuesOnlyReads() && pumped == old(pumped) + 1
        invariant ended.Some? ==> PumpEndExplained(ended.value)
        decreases ended.None?, |ahead|
      {
        ended := PumpTurn(request);
      }
      ghost var left := LeavePump(past, request);
      past := left;
      end := ended.value;
    }

    /** All that was to be done for what was handed over has been, but for this much. */
    ghost predicate Carried(toAsk: nat, toPump: nat)
      reads this
    {
      asked + toAsk == CalledFor(duties).asks && pumped + toPump == CalledFor(duties).pumps
    }

    /** A tool call: whatever the tool asks of the client, one after the other. */
    method CallTool(request: Message)
      requires BackTo(request) && request.Request? && request.name == "tools/call"
      requires Carried(|asks(request)|, 0)
      modifies this`ahead, this`behind, this`heard, this`past, this`answered, this`asked, broker
      ensures BackTo(request) && QueuesOnlyReads() && Carried(0, 0)
    {
      var plan := asks(request);
      for i := 0 to |plan|
        invariant BackTo(request) && QueuesOnlyReads() && Carried(|plan| - i, 0)
      {
        var end := SendRequest(plan[i], request);
      }
    }

    /** What a request calls for before its reply: a tool's run, or the wait of `tasks/result`. */
    method Dispatch(request: Message)
      requires BackTo(request) && request.Request?
      requires Carried(PlannedAsks(asks, request), PlannedPumps(request))
      modifies this`ahead, this`behind, this`heard, this`past, this`answered, this`asked, this`pumped, broker
      ensures BackTo(request) && QueuesOnlyReads() && Carried(0, 0)
    {
      if request.name == "tools/call" {
        CallTool(request);
      } else if request.name == "tasks/result" {
        var end := AwaitTask(request);
      }
    }

    /** A request in `handle_message`, and the writing of its reply. */
    method HandleRequest(request: Message)
      requires BackTo(request) && request.Request?
      requires Carried(PlannedAsks(asks, request), PlannedPumps(request))
      modifies this`ahead, this`behind, this`heard, this`past, this`answered, this`replied,
               this`asked, this`pumped, broker
      ensures AtTop() && QueuesOnlyReads()
    {
      Dispatch(request);
      ghost var ended := EndRequest(past, request);
      past := ended;
      replied := replied + [request.id];
    }

    ghost predicate AtTop()
      reads this, broker
    {
      Accounted() && Now(past).job.Idle? && Now(past).mode.Top? && Carried(0, 0)
    }

    /** Task workers run between two messages. */
    method PauseAtTop()
      requires AtTop()
      modifies this`past, broker
      ensures AtTop() && broker.deferred == old(broker.deferred)
      ensures broker.deferred != [] ==> !broker.deferred[0].Answer?
    {
      ghost var before := past;
      Interfere();
      WorkersLeaveHistory(before, past);
      HistoryIsFifo(past);
    }

    /** A message in the loop's hand: just read, or replayed from the deferred queue. */
    ghost predicate InHand(message: Message, replayed: bool)
      reads this, broker
    {
      && Owing(if replayed then [] else Brought(Got(message)), if replayed then [message] else [])
      && Now(past).job.Idle? && Now(past).mode.Top? && Carried(0, 0)
      && (if replayed then !message.Answer? else Now(past).deferred == [])
    }

    /** `handle_message` takes the message up, which leads to `begun`. */
    method TakeUp(message: Message, ghost replayed: bool, ghost begun: History)
      requires InHand(message, replayed)
      requires Genuine(begun) && TakenUp(Now(past), Now(begun), message, replayed)
      requires Adds(past, begun, if replayed then [] else Brought(Got(message)), 0, 0)
      modifies this`past, this`handed, this`duties
      ensures Accounted() && past == begun
      ensures handed == old(handed) + if message.Answer? then [] else [message]
      ensures Carried(PlannedAsks(asks, message), PlannedPumps(message))
    {
      TakingUpIsTold(past, begun, broker.Model(), Doing(), message, replayed);
      past := begun;
      if !message.Answer? {
        handed, duties := handed + [message], duties + [AddDuties(CalledFor(duties), asks, message)];
      }
    }

    /** `handle_message`, and the writing of its reply. */
    method HandleMessage(message: Message, ghost replayed: bool)
      requires InHand(message, replayed)
      modifies this`ahead, this`behind, this`heard, this`past, this`handed, this`duties, this`answered, this`replied,
               this`asked, this`pumped, broker
      ensures AtTop() && QueuesOnlyReads()
    {
      match message
      case Request(_, _, _) => AnswerRequest(message, replayed);
      case Answer(response) => HandleAnswer(response);
      case Notification(_, _) => HandleNotification(message, replayed);
    }

    method AnswerRequest(message: Message, ghost replayed: bool)
      requires InHand(message, replayed) && message.Request?
      modifies this`ahead, this`behind, this`heard, this`past, this`handed, this`duties, this`answered, this`replied,
               this`asked, this`pumped, broker
      ensures AtTop() && QueuesOnlyReads()
    {
      TakeUpRequest(message, replayed);
      HandleRequest(message);
    }

    method TakeUpRequest(message: Message, ghost replayed: bool)
      requires InHand(message, replayed) && message.Request?
      modifies this`past, this`handed, this`duties
      ensures BackTo(message) && handed == old(handed) + [message]
      ensures Carried(PlannedAsks(asks, message), PlannedPumps(message))
    {
      ReadyToHandle(Now(past), broker.Model(), message, replayed);
      ghost var begun := BeginHandling(past, message, replayed);
      TakeUp(message, replayed, begun);
    }

    /** A response that reached the main loop. */
    method HandleAnswer(response: Response)
      requires InHand(Answer(response), false)
      modifies this`past, this`handed, this`duties, broker
      ensures AtTop() && broker.deferred == old(broker.deferred) && handed == old(handed)
    {
      ghost var begun := BeginHandling(past, Answer(response), false);
      TakeUp(Answer(response), false, begun);
      RouteAnswer(response);
    }

    /** `handle_notification`: a cancellation of a request of ours is acted on. */
    method HandleNotification(message: Message, ghost replayed: bool)
      requires InHand(message, replayed) && message.Notification?
      modifies this`past, this`handed, this`duties, broker
      ensures AtTop() && broker.deferred == old(broker.deferred)
      ensures handed == old(handed) + [message]
    {
      var id := CancelledOfOurs(broker.nextId, message);
      TakeUpNotification(message, id, replayed);
      AbandonIfOurs(id);
    }

    /** `broker.cancel`, once the id has been recognised. */
    method AbandonIfOurs(id: Option<RequestId>)
      requires Accounted() && Now(past).mode.Top? && Carried(0, 0)
      requires Now(past).job == if id.Some? then Dropping(id.value, 1, false) else Idle
      modifies this`past, broker
      ensures AtTop() && broker.deferred == old(broker.deferred)
    {
      if id.Some? {
        AbandonNow(id.value);
      }
    }

    method TakeUpNotification(message: Message, id: Option<RequestId>, ghost replayed: bool)
      requires InHand(message, replayed) && message.Notification?
      requires id == CancelledOfOurs(broker.nextId, message)
      modifies this`past, this`handed, this`duties
      ensures Accounted() && Now(past).mode.Top? && Carried(0, 0) && handed == old(handed) + [message]
      ensures Now(past).job == if id.Some? then Dropping(id.value, 1, false) else Idle
    {
      ReadyToHandle(Now(past), broker.Model(), message, replayed);
      ghost var begun := BeginNotification(past, message, replayed, id);
      TakeUp(message, replayed, begun);
    }

    /** A message the loop owes itself. */
    method ReplayOne()
      requires AtTop() && broker.deferred != [] && !broker.deferred[0].Answer?
      modifies this`ahead, this`behind, this`heard, this`past, this`handed, this`duties, this`answered, this`replied,
               this`asked, this`pumped, broker
      ensures AtTop() && |ahead| <= |old(ahead)|
      ensures |ahead| == |old(ahead)| ==> broker.deferred == old(broker.deferred)[1..]
    {
      var next := broker.NextDeferred();
      HandleMessage(next.value, true);
    }

    method ReadOne() returns (goOn: bool)
      requires AtTop() && broker.deferred == []
      modifies this`ahead, this`behind, this`heard, this`past, this`handed, this`duties, this`answered, this`replied,
               this`asked, this`pumped, broker
      ensures AtTop() && |ahead| <= |old(ahead)|
      ensures if goOn then |ahead| < |old(ahead)| else broker.deferred == [] && LostClient()
    {
      var turn := Read();
      goOn := !turn.read.Closed? && !turn.read.Broken?;
      if turn.read.Got? {
        HandleMessage(turn.read.message, false);
      }
    }

    /**
     `Server::start`. When it ends the client is gone, nothing is queued, and of
     the client's messages that were read `handle_message` was given exactly those
     that met no exception, in arrival order. Every request among these was
     replied to, once and in order; every excepted one was answered, once and in
     order; and a message met an exception exactly if the state it was read in
     called for it. Every request the tools had to make was made, and every
     `tasks/result` pumped.
     */
    method Serve()
      requires Accounted() && Now(past) == Start() && asked == 0 && pumped == 0
      modifies this`ahead, this`behind, this`heard, this`past, this`handed, this`duties, this`answered, this`replied,
               this`asked, this`pumped, broker
      ensures LostClient() && broker.deferred == []
      ensures Logged(Now(past).log) == ClientMessages(behind)
      ensures handed == Kept(Now(past).log)
      ensures replied == RequestIds(handed)
      ensures answered == EarlyIds(Now(past).log)
      ensures asked == AllAsks(asks, handed) && pumped == AllPumps(handed)
      ensures IsDeserving(past)
    {
      var goOn := true;
      while goOn
        invariant AtTop()
        invariant goOn || (LostClient() && broker.deferred == [])
        decreases goOn, |ahead|, |broker.deferred|
      {
        PauseAtTop();
        if broker.deferred != [] {
          ReplayOne();
        } else {
          goOn := ReadOne();
        }
      }
      SettlesAccounts(past, broker.Model(), Doing());
    }
  }

  /** The reader is waiting directly for `id`, on behalf of `request`. */
  ghost predicate Awaits(s: System, id: RequestId, request: Message) {
    && AtWait(s) && s.mode.request == request
    && s.calls[s.mode.call].id == id && !s.calls[s.mode.call].delegated
  }

  lemma TakesParked(h: History, id: RequestId, request: Message) returns (after: History)
    requires Genuine(h) && Awaits(Now(h), id, request) && IsParked(Now(h), id)
    ensures Genuine(after) && Adds(h, after, [], 0, 0)
    ensures |Now(h).calls| >= U64
    ensures var s := Now(h);
            var at := Position(s.parked, id);
            Now(after) == EndWait(s.(parked := RemoveAt(s.parked, at)), Answered(s.parked[at]))
  {
    GenuineIsRun(h);
    if |Now(h).calls| < U64 {
      NothingParkedIsCollected(h.events);
    }
    after := Do(h, AskTake);
  }

  /** The main loop takes a message up, from the wire or from the queue. */
  lemma BeginHandling(h: History, message: Message, replayed: bool) returns (after: History)
    requires Genuine(h) && Now(h).mode.Top? && Now(h).job.Idle? && !message.Notification?
    requires if replayed then Now(h).deferred != [] && Now(h).deferred[0] == message && !message.Answer?
             else Now(h).deferred == []
    ensures Genuine(after) && TakenUp(Now(h), Now(after), message, replayed)
    ensures Adds(h, after, if replayed then [] else Brought(Got(message)), 0, 0)
    ensures Now(after).job == if message.Request? then Idle else Routing(message.response)
  {
    after := Do(h, if replayed then Replay else ReadTop(message));
  }

  /** The request of ours a notification cancels, if it does. */
  function CancelledOfOurs(nextId: nat, message: Message): Option<RequestId> {
    var id := CancelledId(message);
    if id.Some? && WasIssuedHere(nextId, id.value) then id else None
  }

  lemma BeginNotification(h: History, message: Message, replayed: bool, id: Option<RequestId>)
    returns (after: History)
    requires Genuine(h) && Now(h).mode.Top? && Now(h).job.Idle? && message.Notification?
    requires if replayed then Now(h).deferred != [] && Now(h).deferred[0] == message
             else Now(h).deferred == []
    requires id == CancelledOfOurs(NextId(Now(h)), message)
    ensures Genuine(after) && TakenUp(Now(h), Now(after), message, replayed)
    ensures Adds(h, after, if replayed then [] else Brought(Got(message)), 0, 0)
    ensures Now(after).job == if id.Some? then Dropping(id.value, 1, false) else Idle
  {
    after := Do(h, if replayed then Replay else ReadTop(message));
  }

  /** A message has been taken up by `handle_message`. */
  predicate TakenUp(s: System, t: System, message: Message, replayed: bool) {
    && t.handled == s.handled + (if message.Answer? then [] else [message])
    && t.mode == (if message.Request? then Handling(message) else s.mode)
    && (if replayed then s.deferred != [] && t.deferred == s.deferred[1..] else t.deferred == s.deferred)
    && t.parked == s.parked && t.abandoned == s.abandoned && t.waiters == s.waiters
    && t.calls == s.calls && t.early == s.early
  }

  lemma ReadyToHandle(s: System, b: B.State, message: Message, replayed: bool)
    requires Mirrors(s, b, if replayed then [message] else [])
    ensures if replayed
            then s.deferred != [] && s.deferred[0] == message && s.deferred[1..] == b.deferred
            else s.deferred == b.deferred
  {
  }

  lemma StillMirrors(s: System, t: System, b: B.State, message: Message, replayed: bool)
    requires Mirrors(s, b, if replayed then [message] else []) && TakenUp(s, t, message, replayed)
    ensures Mirrors(t, b, [])
  {
    ReadyToHandle(s, b, message, replayed);
  }

  /** The doings with one more message handed over, if it is one that is. */
  function Handed(d: Doings, message: Message): Doings {
    if message.Answer? then d
    else d.(handed := d.handed + [message],
            duties := d.duties + [AddDuties(CalledFor(d.duties), d.asks, message)])
  }

  lemma TakingUpIsTold(
    h: History, begun: History, b: B.State, d: Doings, message: Message, replayed: bool)
    requires Genuine(begun) && Now(h).mode.Top? && TakenUp(Now(h), Now(begun), message, replayed)
    requires Accounts(h, b, d, if replayed then [] else Brought(Got(message)),
                      if replayed then [message] else [])
    requires Adds(h, begun, if replayed then [] else Brought(Got(message)), 0, 0)
    ensures Accounts(begun, b, Handed(d, message), [], [])
  {
    StillMirrors(Now(h), Now(begun), b, message, replayed);
    CallsForMore(d.asks, d.handed, d.duties, message);
  }

  lemma EnterPump(h: History, request: Message) returns (after: History)
    requires Genuine(h) && Now(h).job.Idle? && Now(h).mode == Handling(request)
    requires request.Request? && request.name == "tasks/result"
    ensures Genuine(after) && Adds(h, after, [], 0, 1)
    ensures Now(after) == Now(h).(mode := Pumping(request))
  {
    after := Do(h, PumpStart);
  }

  lemma LeavePump(h: History, request: Message) returns (after: History)
    requires Genuine(h) && Now(h).job.Idle? && Now(h).mode == Pumping(request)
    ensures Genuine(after) && Adds(h, after, [], 0, 0)
    ensures Now(after) == Now(h).(mode := Handling(request))
  {
    after := Do(h, PumpEnd);
  }

  lemma PumpTakes(h: History, message: Message) returns (after: History)
    requires Genuine(h) && Now(h).mode.Pumping? && Now(h).job.Idle?
    ensures Genuine(after) && Adds(h, after, Brought(Got(message)), 0, 0)
    ensures Now(after) == ReadInPump(Now(h), message)
  {
    after := Do(h, PumpRead(message));
  }

  lemma WaitIsAnswered(h: History, response: Response, id: RequestId, request: Message)
    returns (after: History)
    requires Genuine(h) && Awaits(Now(h), id, request) && !IsParked(Now(h), id)
    ensures Genuine(after) && Adds(h, after, [], 0, 0)
    ensures Now(after) == if response.id == id then EndWait(Now(h), Answered(response))
                          else Now(h).(job := Routing(response))
  {
    after := Do(h, AskRead(Answer(response)));
  }

  lemma WaitTakes(h: History, message: Message, id: RequestId, request: Message) returns (after: History)
    requires Genuine(h) && Awaits(Now(h), id, request) && !IsParked(Now(h), id) && !message.Answer?
    ensures Genuine(after) && Adds(h, after, [message], 0, 0)
    ensures Now(after) == if CancelledId(message) == Some(id)
                          then Record(Now(h), message, EndedWait).(job := Dropping(id, 1, true))
                          else Offer(Now(h), message)
  {
    after := Do(h, AskRead(message));
  }

  lemma EndRequest(h: History, request: Message) returns (after: History)
    requires Genuine(h) && Now(h).job.Idle? && Now(h).mode == Handling(request)
    ensures Genuine(after) && Adds(h, after, [], 0, 0)
    ensures Now(after) == Now(h).(mode := Top)
  {
    after := Do(h, Reply);
  }

  lemma WrapsAlike(n: nat)
    ensures (n % U64 + 1) % U64 == (n + 1) % U64
  {
    var q := n / U64;
    if n % U64 + 1 < U64 {
      assert (n + 1) / U64 == q;
    } else {
      assert n + 1 == (q + 1) * U64;
    }
  }

  lemma NextIdSteps(s: System, t: System)
    requires |t.calls| == |s.calls| + 1
    ensures NextId(t) == (NextId(s) + 1) % U64
  {
    WrapsAlike(|s.calls|);
  }

  lemma BeginAsk(h: History, request: Message) returns (after: History)
    requires Genuine(h) && Now(h).job.Idle? && Now(h).mode == Handling(request)
    requires request.Request? && request.name == "tools/call"
    ensures Genuine(after) && Adds(h, after, [], 1, 0)
    ensures var s := Now(h);
            Now(after) == s.(calls := s.calls + [NewCall(s, false, Writing)],
                             mode := Asking(request, |s.calls|))
  {
    after := Do(h, AskStart);
  }

  /** The write of a direct call; a failed one leaves the reader with an id to abandon. */
  lemma WriteAsk(h: History, sent: bool) returns (after: History)
    requires Genuine(h) && Enabled(Now(h), AskWrite(sent))
    ensures Genuine(after) && Adds(h, after, [], 0, 0)
    ensures var s := Now(h);
            Now(after) == if sent then SetPc(s, s.mode.call, Waiting)
                          else s.(job := Dropping(s.calls[s.mode.call].id, 1, true))
  {
    after := Do(h, AskWrite(sent));
  }

  lemma TimeOut(h: History, id: RequestId, request: Message) returns (after: History)
    requires Genuine(h) && Awaits(Now(h), id, request) && !IsParked(Now(h), id)
    ensures Genuine(after) && Adds(h, after, [], 0, 0)
    ensures Now(after) == Now(h).(job := Dropping(id, 1, true))
  {
    after := Do(h, AskTimeout);
  }

  lemma FailRead(h: History, id: RequestId, request: Message) returns (after: History)
    requires Genuine(h) && Awaits(Now(h), id, request) && !IsParked(Now(h), id)
    ensures Genuine(after) && Adds(h, after, [], 0, 0)
    ensures Now(after) == EndWait(Now(h), Failed)
  {
    after := Do(h, AskReadError);
  }
}
