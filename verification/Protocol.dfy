/**
 The single-reader protocol, interleaved at the granularity of one lock.

 One thread reads the wire at a time: the main loop, a tool waiting directly
 for an answer, or the `tasks/result` pump. Any number of task workers make
 requests of their own and wait for the reader to hand the answer over. An
 event is one atomic action of one of them - a read, a write, or whatever
 happens under one broker lock - so a run is any interleaving of them.
 */
module Protocol {
  import opened Text
  import opened Messages
  import opened BrokerSections

  // ---------------------------------------------------------------------
  // State
  // ---------------------------------------------------------------------

  /** How a server-initiated call ended: with this answer, or with an error of our own. */
  datatype Outcome = Answered(response: Response) | Failed

  datatype CallPc =
    | Registering
    | Writing
    | Waiting
    | Abandoning(section: nat)
    | Finished(outcome: Outcome)

  /** A call to the client; `slot` is the one place in a delegated call's channel. */
  datatype Call = Call(id: RequestId, delegated: bool, pc: CallPc, slot: Option<Response>)

  /** What the reader still has to do with the last thing it read, one lock at a time. */
  datatype Job =
    | Idle
    | Routing(response: Response)
    | Handing(response: Response, call: nat)
    | Checking(response: Response)
    | Recalling(response: Response)
    | Parking(response: Response)
    | Dropping(id: RequestId, section: nat, endsWait: bool)

  /** Who is reading: the loop itself, a waiting tool, or the pump. */
  datatype Mode =
    | Top
    | Handling(request: Message)
    | Asking(request: Message, call: nat)
    | Pumping(request: Message)

  /** What became of a client request or notification when it was read. */
  datatype Fate = Accepted | AnsweredInline | RefusedFull | ShedFull | EndedWait

  datatype Arrival = Arrival(message: Message, fate: Fate)

  /**
   `log`, `handled` and `early` are history: what was read and what became of
   it, what `handle_message` was given, and which requests were answered before
   that could happen.
   */
  datatype System = System(
    calls: seq<Call>,
    parked: seq<Response>,
    deferred: seq<Message>,
    abandoned: seq<RequestId>,
    waiters: map<RequestId, nat>,
    mode: Mode,
    job: Job,
    log: seq<Arrival>,
    handled: seq<Message>,
    early: seq<RequestId>)

  function Start(): System {
    System([], [], [], [], map[], Top, Idle, [], [], [])
  }

  /** The id counter has been bumped once per call, and wraps. */
  function NextId(s: System): nat {
    |s.calls| % U64
  }

  /** A call as `next_request_id` leaves it, before anything else has happened. */
  function NewCall(s: System, delegated: bool, pc: CallPc): Call {
    Call(IdOf(NextId(s)), delegated, pc, None)
  }

  function SetPc(s: System, k: nat, pc: CallPc): System
    requires k < |s.calls|
  {
    s.(calls := s.calls[k := s.calls[k].(pc := pc)])
  }

  // ---------------------------------------------------------------------
  // The reader
  // ---------------------------------------------------------------------

  /** `handle_message` */
  function Begin(s: System, message: Message): System {
    match message
    case Request(_, _, _) => s.(handled := s.handled + [message], mode := Handling(message))
    case Notification(_, _) =>
      s.(handled := s.handled + [message],
         job := if CancelledId(message).Some? && WasIssuedHere(NextId(s), CancelledId(message).value)
                then Dropping(CancelledId(message).value, 1, false) else Idle)
    case Answer(response) => s.(job := Routing(response))
  }

  function Record(s: System, message: Message, fate: Fate): System {
    s.(log := s.log + [Arrival(message, fate)])
  }

  function ReadAtTop(s: System, message: Message): System {
    if message.Answer? then Begin(s, message) else Begin(Record(s, message, Accepted), message)
  }

  /** `shed_or_defer` */
  function Offer(s: System, message: Message): System {
    if |s.deferred| < MAX_DEFERRED then
      Record(s, message, Accepted).(deferred := s.deferred + [message])
    else if message.Request? then
      Record(s, message, RefusedFull).(early := s.early + [message.id])
    else
      Record(s, message, ShedFull)
  }

  predicate IsInline(message: Message) {
    && message.Request?
    && message.name in {"ping", "tasks/get", "tasks/list", "tasks/cancel"}
  }

  function ReadInPump(s: System, message: Message): System {
    if message.Answer? then s.(job := Routing(message.response))
    else if IsInline(message) then
      Record(s, message, AnsweredInline).(early := s.early + [message.id])
    else Offer(s, message)
  }

  function EndWait(s: System, outcome: Outcome): System
    requires s.mode.Asking? && s.mode.call < |s.calls|
  {
    SetPc(s, s.mode.call, Finished(outcome)).(mode := Handling(s.mode.request))
  }

  function ReadInWait(s: System, message: Message): System
    requires s.mode.Asking? && s.mode.call < |s.calls|
  {
    var id := s.calls[s.mode.call].id;
    if message.Answer? then
      if message.response.id == id then EndWait(s, Answered(message.response))
      else s.(job := Routing(message.response))
    else if CancelledId(message) == Some(id) then
      Record(s, message, EndedWait).(job := Dropping(id, 1, true))
    else Offer(s, message)
  }

  /** May a response still reach the call through its channel? */
  predicate Listening(call: Call) {
    call.pc.Writing? || call.pc.Waiting?
  }

  /** The next lock section of `deliver`, `park` or `abandon`. */
  function Advance(s: System): System {
    match s.job
    case Idle => s
    case Routing(response) =>
      if response.id in s.waiters
      then s.(waiters := s.waiters - {response.id}, job := Handing(response, s.waiters[response.id]))
      else s.(job := Checking(response))
    case Handing(response, k) =>
      if k < |s.calls| && Listening(s.calls[k]) && s.calls[k].slot.None?
      then s.(calls := s.calls[k := s.calls[k].(slot := Some(response))], job := Idle)
      else s.(job := Idle)
    case Checking(response) =>
      s.(job := if WasIssuedHere(NextId(s), response.id) then Recalling(response) else Idle)
    case Recalling(response) =>
      if response.id in s.abandoned
      then s.(abandoned := Forget(s.abandoned, response.id), job := Idle)
      else s.(job := Parking(response))
    case Parking(response) => s.(parked := PushParked(s.parked, response), job := Idle)
    case Dropping(id, section, endsWait) =>
      if section == 1 then s.(parked := Without(s.parked, id), job := Dropping(id, 2, endsWait))
      else if section == 2 then s.(waiters := s.waiters - {id}, job := Dropping(id, 3, endsWait))
      else
        var t := s.(abandoned := PushAbandoned(s.abandoned, id), job := Idle);
        if endsWait && s.mode.Asking? && s.mode.call < |s.calls| then EndWait(t, Failed) else t
  }

  // ---------------------------------------------------------------------
  // Events
  // ---------------------------------------------------------------------

  datatype Event =
    // the main loop
    | ReadTop(message: Message)
    | Replay
    | Reply
    // a tool on the loop's thread, waiting directly
    | AskStart
    | AskWrite(ok: bool)
    | AskTake
    | AskTimeout
    | AskRead(message: Message)
    | AskReadError
    // `tasks/result`
    | PumpStart
    | PumpRead(message: Message)
    | PumpEnd
    // the reader, part way through routing something
    | ReaderStep
    // a task worker
    | CallStart
    | CallRegister(k: nat)
    | CallWrite(k: nat, ok: bool)
    | CallReceive(k: nat, taskCancelled: bool)
    | CallGiveUp(k: nat)
    | CallClosed(k: nat, taskCancelled: bool)
    | CallAbandon(k: nat)

  predicate AtWait(s: System) {
    && s.job.Idle? && s.mode.Asking? && s.mode.call < |s.calls|
    && s.calls[s.mode.call].pc.Waiting?
  }

  predicate IsParked(s: System, id: RequestId) {
    Position(s.parked, id) < |s.parked|
  }

  predicate Delegated(s: System, k: nat) {
    k < |s.calls| && s.calls[k].delegated
  }

  /** A response that `into_result` turns into an error. */
  predicate IsFailure(response: Response) {
    response.error.Some? || response.result.None?
  }

  predicate Enabled(s: System, e: Event) {
    match e
    case ReadTop(_) => s.mode.Top? && s.job.Idle? && s.deferred == []
    case Replay => s.mode.Top? && s.job.Idle? && s.deferred != []
    case Reply => s.mode.Handling? && s.job.Idle?
    case AskStart =>
      && s.mode.Handling? && s.job.Idle?
      && s.mode.request.Request? && s.mode.request.name == "tools/call"
    case AskWrite(_) =>
      && s.mode.Asking? && s.job.Idle? && s.mode.call < |s.calls|
      && s.calls[s.mode.call].pc.Writing?
    case AskTake => AtWait(s) && IsParked(s, s.calls[s.mode.call].id)
    case AskTimeout => AtWait(s) && !IsParked(s, s.calls[s.mode.call].id)
    case AskRead(_) => AtWait(s) && !IsParked(s, s.calls[s.mode.call].id)
    case AskReadError => AtWait(s) && !IsParked(s, s.calls[s.mode.call].id)
    case PumpStart =>
      && s.mode.Handling? && s.job.Idle?
      && s.mode.request.Request? && s.mode.request.name == "tasks/result"
    case PumpRead(_) => s.mode.Pumping? && s.job.Idle?
    case PumpEnd => s.mode.Pumping? && s.job.Idle?
    case ReaderStep => !s.job.Idle?
    case CallStart => true
    case CallRegister(k) => Delegated(s, k) && s.calls[k].pc.Registering?
    case CallWrite(k, _) => Delegated(s, k) && s.calls[k].pc.Writing?
    case CallReceive(k, _) => Delegated(s, k) && s.calls[k].pc.Waiting? && s.calls[k].slot.Some?
    case CallGiveUp(k) => Delegated(s, k) && s.calls[k].pc.Waiting?
    case CallClosed(k, _) =>
      && Delegated(s, k) && s.calls[k].pc.Waiting? && s.calls[k].slot.None?
      && s.calls[k].id !in s.waiters && !(s.job.Handing? && s.job.call == k)
    case CallAbandon(k) => Delegated(s, k) && s.calls[k].pc.Abandoning?
  }

  function Next(s: System, e: Event): System
    requires Enabled(s, e)
  {
    match e
    case ReadTop(message) => ReadAtTop(s, message)
    case Replay => Begin(s.(deferred := s.deferred[1..]), s.deferred[0])
    case Reply => s.(mode := Top)
    case AskStart =>
      s.(calls := s.calls + [NewCall(s, false, Writing)], mode := Asking(s.mode.request, |s.calls|))
    case AskWrite(ok) =>
      if ok then SetPc(s, s.mode.call, Waiting)
      else s.(job := Dropping(s.calls[s.mode.call].id, 1, true))
    case AskTake =>
      var at := Position(s.parked, s.calls[s.mode.call].id);
      EndWait(s.(parked := RemoveAt(s.parked, at)), Answered(s.parked[at]))
    case AskTimeout => s.(job := Dropping(s.calls[s.mode.call].id, 1, true))
    case AskRead(message) => ReadInWait(s, message)
    case AskReadError => EndWait(s, Failed)
    case PumpStart => s.(mode := Pumping(s.mode.request))
    case PumpRead(message) => ReadInPump(s, message)
    case PumpEnd => s.(mode := Handling(s.mode.request))
    case ReaderStep => Advance(s)
    case CallStart => s.(calls := s.calls + [NewCall(s, true, Registering)])
    case CallRegister(k) => SetPc(s, k, Writing).(waiters := s.waiters[s.calls[k].id := k])
    case CallWrite(k, ok) => SetPc(s, k, if ok then Waiting else Abandoning(1))
    case CallReceive(k, taskCancelled) => Receive(s, k, taskCancelled)
    case CallGiveUp(k) => SetPc(s, k, Abandoning(1))
    case CallClosed(k, taskCancelled) =>
      SetPc(s, k, if taskCancelled then Abandoning(1) else Finished(Failed))
    case CallAbandon(k) => AbandonSection(s, k)
  }

  function Receive(s: System, k: nat, taskCancelled: bool): System
    requires k < |s.calls| && s.calls[k].slot.Some?
  {
    var response := s.calls[k].slot.value;
    var pc := if taskCancelled && IsFailure(response) then Abandoning(1)
              else Finished(Answered(response));
    s.(calls := s.calls[k := s.calls[k].(pc := pc, slot := None)])
  }

  /** The next of the three locks `abandon` takes, on the worker's own thread. */
  function AbandonSection(s: System, k: nat): System
    requires k < |s.calls| && s.calls[k].pc.Abandoning?
  {
    var section := s.calls[k].pc.section;
    if section == 1 then
      SetPc(s, k, Abandoning(2)).(parked := Without(s.parked, s.calls[k].id))
    else if section == 2 then
      SetPc(s, k, Abandoning(3)).(waiters := s.waiters - {s.calls[k].id})
    else
      SetPc(s, k, Finished(Failed)).(abandoned := PushAbandoned(s.abandoned, s.calls[k].id))
  }

  // ---------------------------------------------------------------------
  // Runs
  // ---------------------------------------------------------------------

  ghost predicate IsRun(events: seq<Event>)
    decreases |events|, 0
  {
    events == [] ||
    (IsRun(events[..|events| - 1]) &&
     Enabled(Run(events[..|events| - 1]), events[|events| - 1]))
  }

  ghost function Run(events: seq<Event>): System
    requires IsRun(events)
    decreases |events|, 1
  {
    if events == [] then Start()
    else Next(Run(events[..|events| - 1]), events[|events| - 1])
  }

  lemma RunExtends(events: seq<Event>, e: Event)
    requires IsRun(events) && Enabled(Run(events), e)
    ensures IsRun(events + [e]) && Run(events + [e]) == Next(Run(events), e)
  {
    assert (events + [e])[..|events|] == events;
  }
  lemma {:induction false} PrefixIsRun(events: seq<Event>, k: nat)
    requires IsRun(events) && k <= |events|
    ensures IsRun(events[..k])
  {
    if k == |events| {
      assert events[..k] == events;
    } else {
      PrefixIsRun(events[..|events| - 1], k);
      assert events[..|events| - 1][..k] == events[..k];
    }
  }

  /** The system after the first `k` events of a run. */
  ghost function RunAt(events: seq<Event>, k: nat): System
    requires IsRun(events) && k <= |events|
  {
    PrefixIsRun(events, k);
    Run(events[..k])
  }
  /** One step of the machine, from state to state. */
  predicate StepsTo(s: System, e: Event, t: System) {
    Enabled(s, e) && t == Next(s, e)
  }

  lemma PrefixSteps(events: seq<Event>, k: nat)
    requires k < |events| && IsRun(events[..k + 1])
    ensures IsRun(events[..k]) && StepsTo(Run(events[..k]), events[k], Run(events[..k + 1]))
  {
    assert events[..k + 1] == events[..k] + [events[k]];
    LastStep(events[..k + 1], events[..k], events[k]);
  }

  lemma RunAtSteps(events: seq<Event>, k: nat)
    requires IsRun(events) && k < |events|
    ensures StepsTo(RunAt(events, k), events[k], RunAt(events, k + 1))
  {
    PrefixIsRun(events, k + 1);
    PrefixSteps(events, k);
  }

  lemma LastStep(events: seq<Event>, before: seq<Event>, e: Event)
    requires IsRun(events) && events == before + [e]
    ensures IsRun(before) && Enabled(Run(before), e) && Run(events) == Next(Run(before), e)
  {
    assert events[..|events| - 1] == before;
  }
}
