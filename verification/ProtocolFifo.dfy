/**
 In every interleaving of `Protocol`, the deferred queue is a FIFO: nothing the
 client sent is lost, repeated or reordered, but for four stated exceptions.
 */
module ProtocolFifo {
  import opened Text
  import opened Messages
  import opened BrokerSections
  import opened Protocol

  /** The client request or notification an event takes off the wire, if any. */
  function Arriving(e: Event): seq<Message> {
    if (e.ReadTop? || e.AskRead? || e.PumpRead?) && !e.message.Answer? then [e.message] else []
  }

  /** Everything read in a run that the main loop might be owed, in arrival order. */
  function Arrivals(events: seq<Event>): seq<Message> {
    if events == [] then []
    else Arrivals(events[..|events| - 1]) + Arriving(events[|events| - 1])
  }

  function Logged(log: seq<Arrival>): seq<Message> {
    if log == [] then [] else Logged(log[..|log| - 1]) + [log[|log| - 1].message]
  }

  /** The arrivals that none of the four exceptions took. */
  function Kept(log: seq<Arrival>): seq<Message> {
    if log == [] then []
    else
      Kept(log[..|log| - 1]) +
      if log[|log| - 1].fate.Accepted? then [log[|log| - 1].message] else []
  }

  /** Ids of the requests answered before the main loop saw them. */
  function EarlyIds(log: seq<Arrival>): seq<RequestId> {
    if log == [] then []
    else
      EarlyIds(log[..|log| - 1]) +
      if log[|log| - 1].message.Request? && !log[|log| - 1].fate.Accepted?
      then [log[|log| - 1].message.id] else []
  }

  /** What was handed over, then what is queued, is what arrived less the exceptions. */
  ghost predicate InOrder(s: System) {
    Kept(s.log) == s.handled + s.deferred && EarlyIds(s.log) == s.early
  }

  ghost predicate QueueSound(deferred: seq<Message>) {
    |deferred| <= MAX_DEFERRED && forall i :: 0 <= i < |deferred| ==> !deferred[i].Answer?
  }

  ghost predicate Fifo(s: System) {
    InOrder(s) && QueueSound(s.deferred)
  }

  lemma LogGrows(log: seq<Arrival>, arrival: Arrival)
    ensures Logged(log + [arrival]) == Logged(log) + [arrival.message]
    ensures Kept(log + [arrival]) ==
            Kept(log) + if arrival.fate.Accepted? then [arrival.message] else []
    ensures EarlyIds(log + [arrival]) ==
            EarlyIds(log) +
            if arrival.message.Request? && !arrival.fate.Accepted? then [arrival.message.id] else []
  {
    assert (log + [arrival])[..|log|] == log;
  }

  /** The fate an event gives the message it reads, for the events that read one. */
  function FateOf(s: System, e: Event): Fate
    requires Enabled(s, e) && Arriving(e) != []
  {
    if e.ReadTop? then Accepted
    else if e.AskRead? && CancelledId(e.message) == Some(s.calls[s.mode.call].id) then EndedWait
    else if e.PumpRead? && IsInline(e.message) then AnsweredInline
    else if |s.deferred| < MAX_DEFERRED then Accepted
    else if e.message.Request? then RefusedFull
    else ShedFull
  }

  /** The message an event hands to `handle_message`, if any. */
  function HandedOver(s: System, e: Event): seq<Message>
    requires Enabled(s, e)
  {
    if e.Replay? then if s.deferred[0].Answer? then [] else [s.deferred[0]]
    else if e.ReadTop? then Arriving(e)
    else []
  }

  function Queued(s: System, e: Event): seq<Message>
    requires Enabled(s, e)
  {
    if Arriving(e) != [] && !e.ReadTop? && FateOf(s, e).Accepted? then [e.message] else []
  }

  /** What an event logs. */
  function LoggedBy(s: System, e: Event): (arrived: seq<Arrival>)
    requires Enabled(s, e)
    ensures |arrived| <= 1
  {
    if Arriving(e) == [] then [] else [Arrival(e.message, FateOf(s, e))]
  }

  function EarlyBy(s: System, e: Event): seq<RequestId>
    requires Enabled(s, e)
  {
    if Arriving(e) != [] && e.message.Request? && !FateOf(s, e).Accepted? then [e.message.id] else []
  }

  /** What an event does to the queue and to the history. */
  lemma EffectOnQueue(s: System, e: Event)
    requires Enabled(s, e)
    ensures Next(s, e).log == s.log + LoggedBy(s, e)
    ensures Next(s, e).handled == s.handled + HandedOver(s, e)
    ensures Next(s, e).deferred ==
            (if e.Replay? then s.deferred[1..] else s.deferred) + Queued(s, e)
    ensures Next(s, e).early == s.early + EarlyBy(s, e)
  {
    match e
    case ReaderStep => match s.job { case _ => }
    case _ =>
  }

  lemma HandoverKeepsOrder(handled: seq<Message>, deferred: seq<Message>)
    requires deferred != []
    ensures handled + [deferred[0]] + deferred[1..] == handled + deferred
  {
  }

  /** A step that logs at most one arrival, and adds it to the queue's end if accepted. */
  lemma OrderGrows(s: System, t: System, arrived: seq<Arrival>)
    requires InOrder(s) && |arrived| <= 1 && t.log == s.log + arrived
    requires t.handled + t.deferred == s.handled + s.deferred + Kept(arrived)
    requires t.early == s.early + EarlyIds(arrived)
    ensures InOrder(t)
    ensures Logged(t.log) == Logged(s.log) + Logged(arrived)
  {
    if |arrived| == 1 {
      assert arrived == [] + [arrived[0]];
      LogGrows([], arrived[0]);
      LogGrows(s.log, arrived[0]);
    } else {
      assert t.log == s.log;
    }
  }

  lemma OneLogged(arrival: Arrival)
    ensures Logged([arrival]) == [arrival.message]
    ensures Kept([arrival]) == if arrival.fate.Accepted? then [arrival.message] else []
    ensures EarlyIds([arrival]) ==
            if arrival.message.Request? && !arrival.fate.Accepted? then [arrival.message.id] else []
  {
    assert [arrival] == [] + [arrival];
    LogGrows([], arrival);
  }

  lemma LoggedByOne(s: System, e: Event)
    requires Enabled(s, e)
    ensures Logged(LoggedBy(s, e)) == Arriving(e)
    ensures Kept(LoggedBy(s, e)) ==
            if Arriving(e) != [] && FateOf(s, e).Accepted? then [e.message] else []
    ensures EarlyIds(LoggedBy(s, e)) == EarlyBy(s, e)
  {
    if Arriving(e) != [] {
      OneLogged(Arrival(e.message, FateOf(s, e)));
    }
  }

  lemma StepMovesQueue(s: System, e: Event, t: System)
    requires QueueSound(s.deferred) && Enabled(s, e)
    requires t.log == s.log + LoggedBy(s, e)
    requires t.handled == s.handled + HandedOver(s, e)
    requires t.deferred == (if e.Replay? then s.deferred[1..] else s.deferred) + Queued(s, e)
    requires t.early == s.early + EarlyBy(s, e)
    ensures t.handled + t.deferred == s.handled + s.deferred + Kept(LoggedBy(s, e))
    ensures t.early == s.early + EarlyIds(LoggedBy(s, e))
    ensures Logged(LoggedBy(s, e)) == Arriving(e)
  {
    LoggedByOne(s, e);
    if e.Replay? {
      HandoverKeepsOrder(s.handled, s.deferred);
    }
  }

  lemma QueueStaysSound(s: System, e: Event)
    requires QueueSound(s.deferred) && Enabled(s, e)
    ensures QueueSound((if e.Replay? then s.deferred[1..] else s.deferred) + Queued(s, e))
  {
  }

  lemma NextKeepsFifo(s: System, e: Event)
    requires Fifo(s) && Enabled(s, e)
    ensures Fifo(Next(s, e))
    ensures Logged(Next(s, e).log) == Logged(s.log) + Arriving(e)
  {
    EffectOnQueue(s, e);
    var t, arrived := Next(s, e), LoggedBy(s, e);
    StepMovesQueue(s, e, t);
    QueueStaysSound(s, e);
    OrderGrows(s, t, arrived);
  }

  // ---------------------------------------------------------------------
  // When each exception applies
  // ---------------------------------------------------------------------

  /** The message withdraws the very call the reader is waiting for. */
  predicate EndsTheWait(s: System, message: Message) {
    s.mode.Asking? && s.mode.call < |s.calls| && CancelledId(message) == Some(s.calls[s.mode.call].id)
  }

  /** One of the four requests that may be answered while `tasks/result` blocks the loop. */
  predicate AnsweredByThePump(s: System, message: Message) {
    && s.mode.Pumping? && message.Request?
    && (|| message.name == "ping" || message.name == "tasks/get"
        || message.name == "tasks/list" || message.name == "tasks/cancel")
  }

  /** Each fate, and the state in which a message meets it: no other message does, and every such one. */
  predicate Deserved(s: System, message: Message, fate: Fate) {
    && (fate.EndedWait? <==> EndsTheWait(s, message))
    && (fate.AnsweredInline? <==> AnsweredByThePump(s, message))
    && (fate.RefusedFull? <==>
          |s.deferred| == 256 && message.Request? && !AnsweredByThePump(s, message))
    && (fate.ShedFull? <==>
          |s.deferred| == 256 && message.Notification? && !EndsTheWait(s, message))
  }

  lemma FateIsDeserved(s: System, e: Event)
    requires Enabled(s, e) && Arriving(e) != [] && |s.deferred| <= MAX_DEFERRED
    ensures Deserved(s, e.message, FateOf(s, e))
  {
  }

  /** The log has, in this place, this message with the fate that state calls for. */
  predicate EntryFits(s: System, message: Message, log: seq<Arrival>, at: nat) {
    at < |log| && log[at].message == message && Deserved(s, message, log[at].fate)
  }

  lemma EntryStays(s: System, message: Message, log: seq<Arrival>, longer: seq<Arrival>, at: nat)
    requires EntryFits(s, message, log, at) && log <= longer
    ensures EntryFits(s, message, longer, at)
  {
  }

  /** The log's entry for the i-th event is its message, with the fate the state before it called for. */
  ghost predicate LoggedAsDeserved(events: seq<Event>, log: seq<Arrival>, i: nat)
    requires IsRun(events) && i < |events|
  {
    Arriving(events[i]) != [] ==>
      EntryFits(RunAt(events, i), events[i].message, log, |Arrivals(events[..i])|)
  }

  ghost predicate FatesDeserved(events: seq<Event>)
    requires IsRun(events)
  {
    forall i :: 0 <= i < |events| ==> LoggedAsDeserved(events, Run(events).log, i)
  }

  lemma {:induction false} LoggedLength(log: seq<Arrival>)
    ensures |Logged(log)| == |log|
  {
    if log != [] {
      LoggedLength(log[..|log| - 1]);
    }
  }

  /** What a step that reads a client message logs. */
  lemma EntryIsDeserved(s: System, e: Event, t: System)
    requires StepsTo(s, e, t) && Arriving(e) != [] && |s.deferred| <= MAX_DEFERRED
    ensures EntryFits(s, e.message, t.log, |s.log|)
  {
    EffectOnQueue(s, e);
    FateIsDeserved(s, e);
  }

  lemma LogOnlyGrows(s: System, e: Event, t: System)
    requires StepsTo(s, e, t)
    ensures s.log <= t.log
  {
    EffectOnQueue(s, e);
  }

  lemma {:induction false} LogGrowsAlong(events: seq<Event>, k: nat)
    requires IsRun(events) && k <= |events|
    ensures RunAt(events, k).log <= Run(events).log
    decreases |events| - k
  {
    if k < |events| {
      LogGrowsAlong(events, k + 1);
      RunAtSteps(events, k);
      LogOnlyGrows(RunAt(events, k), events[k], RunAt(events, k + 1));
    } else {
      assert events[..k] == events;
    }
  }

  lemma {:induction false} RunIsFifo(events: seq<Event>)
    requires IsRun(events)
    ensures Fifo(Run(events)) && Logged(Run(events).log) == Arrivals(events)
  {
    if events != [] {
      var before := events[..|events| - 1];
      RunIsFifo(before);
      NextKeepsFifo(Run(before), events[|events| - 1]);
    }
  }

  lemma FateAt(events: seq<Event>, i: nat)
    requires IsRun(events) && i < |events|
    ensures LoggedAsDeserved(events, Run(events).log, i)
  {
    LogGrowsAlong(events, i + 1);
    FateStays(events, i, RunAt(events, i + 1).log, Run(events).log);
  }

  lemma FateStays(events: seq<Event>, i: nat, log: seq<Arrival>, longer: seq<Arrival>)
    requires IsRun(events) && i < |events| && log == RunAt(events, i + 1).log && log <= longer
    ensures LoggedAsDeserved(events, longer, i)
  {
    if Arriving(events[i]) != [] {
      EntryAt(events, i);
      EntryStays(RunAt(events, i), events[i].message, log, longer, |Arrivals(events[..i])|);
    }
  }

  lemma LogAt(events: seq<Event>, i: nat)
    requires IsRun(events) && i <= |events|
    ensures |RunAt(events, i).log| == |Arrivals(events[..i])|
    ensures |RunAt(events, i).deferred| <= MAX_DEFERRED
  {
    PrefixIsRun(events, i);
    RunIsFifo(events[..i]);
    LoggedLength(RunAt(events, i).log);
  }

  lemma EntryAt(events: seq<Event>, i: nat)
    requires IsRun(events) && i < |events| && Arriving(events[i]) != []
    ensures EntryFits(RunAt(events, i), events[i].message, RunAt(events, i + 1).log,
                      |Arrivals(events[..i])|)
  {
    LogAt(events, i);
    RunAtSteps(events, i);
    EntryIsDeserved(RunAt(events, i), events[i], RunAt(events, i + 1));
  }

  // ---------------------------------------------------------------------
  // Main result
  // ---------------------------------------------------------------------

  /**
   In every run: the messages handed to `handle_message`, followed by the
   deferred queue, are exactly the client requests and notifications read so
   far, in arrival order, less those whose recorded fate is one of the four
   exceptions; the requests answered early are exactly the excepted ones; and
   each message met an exception exactly if the state it was read in called
   for it - a full queue, the pump reading, or a wait for the call it names.
   */
  lemma DeferredQueueIsFifo(events: seq<Event>)
    requires IsRun(events)
    ensures Fifo(Run(events))
    ensures Logged(Run(events).log) == Arrivals(events)
    ensures FatesDeserved(events)
  {
    RunIsFifo(events);
    forall i | 0 <= i < |events| ensures LoggedAsDeserved(events, Run(events).log, i) {
      FateAt(events, i);
    }
  }

  // ---------------------------------------------------------------------
  // What the pump leaves to the loop
  // ---------------------------------------------------------------------

  lemma {:induction false} KeptHas(log: seq<Arrival>, at: nat)
    requires at < |log| && log[at].fate.Accepted?
    ensures log[at].message in Kept(log)
  {
    var n := |log| - 1;
    if at < n {
      KeptHas(log[..n], at);
    }
  }

  /**
   A request the pump reads that is not one of the four - a tool call, a second
   `tasks/result` - is handed over or still queued, unless it was refused with 256
   messages queued before it. One that is, is answered on the spot.
   */
  lemma PumpLeavesTheRest(events: seq<Event>, i: nat)
    requires IsRun(events) && i < |events| && events[i].PumpRead? && events[i].message.Request?
    ensures var m, s := events[i].message, Run(events);
            if m.name in {"ping", "tasks/get", "tasks/list", "tasks/cancel"} then m.id in s.early
            else m in s.handled + s.deferred ||
                 (|RunAt(events, i).deferred| == 256 && m.id in s.early)
  {
    DeferredQueueIsFifo(events);
    var log, at := Run(events).log, |Arrivals(events[..i])|;
    assert LoggedAsDeserved(events, log, i);
    PumpIsReading(events, i);
    if log[at].fate.Accepted? {
      KeptHas(log, at);
    } else {
      EarlyHas(log, at);
    }
  }

  lemma PumpIsReading(events: seq<Event>, i: nat)
    requires IsRun(events) && i < |events| && events[i].PumpRead?
    ensures RunAt(events, i).mode.Pumping?
  {
    RunAtSteps(events, i);
    PumpReadsInPump(RunAt(events, i), events[i]);
  }

  lemma PumpReadsInPump(s: System, e: Event)
    requires Enabled(s, e) && e.PumpRead?
    ensures s.mode.Pumping?
  {
  }

  lemma {:induction false} EarlyHas(log: seq<Arrival>, at: nat)
    requires at < |log| && !log[at].fate.Accepted? && log[at].message.Request?
    ensures log[at].message.id in EarlyIds(log)
  {
    var n := |log| - 1;
    if at < n {
      EarlyHas(log[..n], at);
    }
  }
}
