/**
 How a server-initiated call ends, step by step: what each way of ending looks
 like on the wire and leaves behind in the broker, and that the client's own
 cancellation is one of them.
 */
module ProtocolEnds {
  import opened Text
  import opened Messages
  import opened BrokerSections
  import opened Protocol
  import opened ProtocolCalls
  import opened ProtocolBounds

  // ---------------------------------------------------------------------
  // Endings
  // ---------------------------------------------------------------------

  predicate Ends(s: System, t: System, k: nat)
    requires k < |s.calls| <= |t.calls|
  {
    !s.calls[k].pc.Finished? && t.calls[k].pc.Finished?
  }

  /** The client's answer to call `k` is an error, or no answer at all. */
  predicate IsNoAnswer(response: Response) {
    response.error.Some? || response.result.None?
  }

  /** A direct wait ends when its own answer is read or collected, or a read fails. */
  predicate DirectEnds(s: System, e: Event, k: nat, outcome: Outcome)
    requires k < |s.calls|
  {
    match outcome
    case Answered(response) =>
      response.id == s.calls[k].id && (e == AskRead(Answer(response)) || e.AskTake?)
    case Failed =>
      e.AskReadError? || (e.ReaderStep? && s.job == Dropping(s.calls[k].id, 3, true))
  }

  /** A worker's wait ends when it takes its answer, finds its channel closed, or has given up. */
  predicate DelegatedEnds(s: System, e: Event, k: nat, outcome: Outcome)
    requires k < |s.calls|
  {
    match outcome
    case Answered(response) =>
      && e.CallReceive? && e.k == k && s.calls[k].slot == Some(response)
      && !(e.taskCancelled && IsNoAnswer(response))
    case Failed =>
      || e == CallClosed(k, false)
      || (e == CallAbandon(k) && s.calls[k].pc == Abandoning(3))
  }

  lemma WorkerStepEnds(s: System, e: Event, k: nat)
    requires CallsSound(s) && Enabled(s, e) && k < |s.calls|
    requires e.CallReceive? || e.CallClosed? || e.CallAbandon? || e.CallWrite? || e.CallGiveUp?
    requires Ends(s, Next(s, e), k)
    ensures s.calls[k].delegated && DelegatedEnds(s, e, k, Next(s, e).calls[k].pc.outcome)
  {
    assert CallSound(s.calls[k], s.waiters);
  }

  lemma AskStepEnds(s: System, e: Event, k: nat)
    requires CallsSound(s) && Enabled(s, e) && k < |s.calls|
    requires e.AskRead? || e.AskReadError? || e.AskTake? || e.AskWrite? || e.AskTimeout?
    requires Ends(s, Next(s, e), k)
    ensures !s.calls[k].delegated && DirectEnds(s, e, k, Next(s, e).calls[k].pc.outcome)
  {
  }

  lemma ReaderStepEnds(s: System, k: nat)
    requires CallsSound(s) && !s.job.Idle? && k < |s.calls| && |Advance(s).calls| == |s.calls|
    requires Ends(s, Advance(s), k)
    ensures !s.calls[k].delegated && DirectEnds(s, ReaderStep, k, Advance(s).calls[k].pc.outcome)
  {
  }

  lemma OtherStepsEndNothing(s: System, e: Event, k: nat)
    requires Enabled(s, e) && k < |s.calls|
    requires || e.ReadTop? || e.Replay? || e.Reply? || e.PumpStart? || e.PumpRead? || e.PumpEnd?
             || e.AskStart? || e.CallStart? || e.CallRegister?
    ensures |s.calls| <= |Next(s, e).calls| && !Ends(s, Next(s, e), k)
  {
  }

  /**
   In every run, a call ends for one of these reasons and no other. It succeeds
   with the answer read, collected or received, which is its own. It fails because
   a read failed, because its channel was closed, or - its id being marked from
   then on - because it was given up.
   */
  lemma CallsEndForAReason(events: seq<Event>, e: Event, k: nat)
    requires IsRun(events) && |Run(events).calls| <= U64 && Enabled(Run(events), e)
    requires k < |Run(events).calls|
    ensures |Run(events).calls| <= |Next(Run(events), e).calls|
    ensures Ends(Run(events), Next(Run(events), e), k) ==>
              var s := Run(events);
              var outcome := Next(s, e).calls[k].pc.outcome;
              if s.calls[k].delegated then DelegatedEnds(s, e, k, outcome) else DirectEnds(s, e, k, outcome)
  {
    RunKeepsCalls(events);
    EndsForAReason(Run(events), e, k);
  }

  lemma EndsForAReason(s: System, e: Event, k: nat)
    requires CallsSound(s) && Enabled(s, e) && k < |s.calls|
    ensures |s.calls| <= |Next(s, e).calls|
    ensures Ends(s, Next(s, e), k) ==>
              var outcome := Next(s, e).calls[k].pc.outcome;
              if s.calls[k].delegated then DelegatedEnds(s, e, k, outcome) else DirectEnds(s, e, k, outcome)
  {
    CallsOnlyGrow(s, e);
    if Ends(s, Next(s, e), k) {
      match e
      case ReaderStep => ReaderStepEnds(s, k);
      case AskWrite(_) => AskStepEnds(s, e, k);
      case AskTake => AskStepEnds(s, e, k);
      case AskTimeout => AskStepEnds(s, e, k);
      case AskRead(_) => AskStepEnds(s, e, k);
      case AskReadError => AskStepEnds(s, e, k);
      case CallWrite(_, _) => WorkerStepEnds(s, e, k);
      case CallReceive(_, _) => WorkerStepEnds(s, e, k);
      case CallGiveUp(_) => WorkerStepEnds(s, e, k);
      case CallClosed(_, _) => WorkerStepEnds(s, e, k);
      case CallAbandon(_) => WorkerStepEnds(s, e, k);
      case _ => OtherStepsEndNothing(s, e, k);
    }
  }

  /** Giving up leaves the id marked, whether the reader or a worker does it. */
  lemma GivingUpMarks(s: System, e: Event)
    requires Enabled(s, e)
    requires (e.ReaderStep? && s.job.Dropping? && s.job.section == 3) ||
             (e.CallAbandon? && s.calls[e.k].pc == Abandoning(3))
    ensures var id := if e.ReaderStep? then s.job.id else s.calls[e.k].id;
            id in Next(s, e).abandoned && Next(s, e).abandoned[|Next(s, e).abandoned| - 1] == id
  {
  }

  /** A failed read ends a direct wait without marking its id, whatever else the broker holds. */
  lemma FailedReadMarksNothing(s: System)
    requires Enabled(s, AskReadError)
    ensures Next(s, AskReadError).abandoned == s.abandoned
    ensures Next(s, AskReadError).calls[s.mode.call].pc == Finished(Failed)
  {
  }

  /**
   A worker starts giving its call up for one of four reasons: its request could
   not be written, its patience ran out or its task was cancelled, or - the task
   being cancelled - its channel was closed or its answer is an error.
   */
  lemma WorkersGiveUpForAReason(s: System, e: Event, k: nat)
    requires Enabled(s, e) && k < |s.calls| && !s.calls[k].pc.Abandoning?
    ensures |s.calls| <= |Next(s, e).calls|
    ensures Next(s, e).calls[k].pc.Abandoning? <==>
            || e == CallWrite(k, false) || e == CallGiveUp(k) || e == CallClosed(k, true)
            || (e == CallReceive(k, true) && IsNoAnswer(s.calls[k].slot.value))
  {
    CallsOnlyGrow(s, e);
  }

  // ---------------------------------------------------------------------
  // The client cancels
  // ---------------------------------------------------------------------

  lemma Do(events: seq<Event>, e: Event) returns (after: seq<Event>)
    requires IsRun(events) && Enabled(Run(events), e)
    ensures IsRun(after) && Run(after) == Next(Run(events), e) && after == events + [e]
  {
    RunExtends(events, e);
    after := events + [e];
  }

  /** The reader goes through the three locks of `abandon`. */
  lemma DropsThrough(events: seq<Event>) returns (after: seq<Event>)
    requires IsRun(events) && Run(events).job.Dropping?
    requires Run(events).job.section == 1 && !Run(events).job.endsWait
    ensures IsRun(after) && after == events + [ReaderStep, ReaderStep, ReaderStep]
    ensures var s := Run(events);
            Run(after) == s.(parked := Without(s.parked, s.job.id),
                             waiters := s.waiters - {s.job.id},
                             abandoned := PushAbandoned(s.abandoned, s.job.id),
                             job := Idle)
  {
    after := Do(events, ReaderStep);
    after := Do(after, ReaderStep);
    after := Do(after, ReaderStep);
  }

  /** Taking up a cancellation, for the broker: an id to drop, or nothing. */
  lemma TakesUpCancellation(s: System, message: Message, id: RequestId)
    requires Enabled(s, ReadTop(message)) && CancelledId(message) == Some(id)
    ensures var t := Next(s, ReadTop(message));
            && t.calls == s.calls && t.waiters == s.waiters
            && t.parked == s.parked && t.abandoned == s.abandoned
            && t.job == if WasIssuedHere(NextId(s), id) then Dropping(id, 1, false) else Idle
  {
  }

  /** A worker still waiting for its answer to `id`, with nothing in its channel. */
  predicate WaitsInVain(s: System, k: nat, id: RequestId) {
    && Delegated(s, k) && s.calls[k].id == id
    && s.calls[k].pc.Waiting? && s.calls[k].slot.None?
  }

  lemma DroppedIsClosed(s: System, k: nat, id: RequestId)
    requires WaitsInVain(s, k, id) && id !in s.waiters && s.job.Idle?
    ensures Enabled(s, CallClosed(k, false))
  {
  }

  lemma DroppedIsGone(parked: seq<Response>, abandoned: seq<RequestId>, id: RequestId)
    ensures Position(Without(parked, id), id) == |Without(parked, id)|
    ensures id in PushAbandoned(abandoned, id)
  {
    WithoutIsFilter(parked, id);
    IsParkedExactly(Without(parked, id), id);
    var marks := PushAbandoned(abandoned, id);
    assert marks[|marks| - 1] == id;
  }

  /**
   A cancellation the main loop reads is acted on if and only if it names a request
   of ours: nobody waits for that id any more, its answer is neither kept nor will
   be, and a worker that was waiting finds its channel closed. A cancellation of
   anything else changes nothing.
   */
  lemma CancellationIsActedOn(events: seq<Event>, message: Message, id: RequestId, k: nat)
    returns (after: seq<Event>)
    requires IsRun(events) && Enabled(Run(events), ReadTop(message)) && CancelledId(message) == Some(id)
    ensures IsRun(after) && Run(after).job.Idle? && Run(after).calls == Run(events).calls
    ensures var s, t := Run(events), Run(after);
            if WasIssuedHere(NextId(s), id)
            then && after == events + [ReadTop(message)] + [ReaderStep, ReaderStep, ReaderStep]
                 && id !in t.waiters && !IsParked(t, id) && id in t.abandoned
                 && (WaitsInVain(s, k, id) ==> Enabled(t, CallClosed(k, false)))
            else && after == events + [ReadTop(message)]
                 && t.waiters == s.waiters && t.parked == s.parked && t.abandoned == s.abandoned
  {
    var s := Run(events);
    TakesUpCancellation(s, message, id);
    after := Do(events, ReadTop(message));
    if WasIssuedHere(NextId(s), id) {
      after := DropsThrough(after);
      DroppedIsGone(s.parked, s.abandoned, id);
      if WaitsInVain(s, k, id) {
        DroppedIsClosed(Run(after), k, id);
      }
    }
  }

  // ---------------------------------------------------------------------
  // Nobody waits in vain
  // ---------------------------------------------------------------------

  /** The request may be out, and its worker is not done with it. */
  predicate IsOut(s: System, k: nat) {
    Delegated(s, k) && (s.calls[k].pc.Writing? || s.calls[k].pc.Waiting?)
  }

  /** An answer finds the call, or is on its way to it, or there. */
  predicate CanBeReached(s: System, k: nat)
    requires k < |s.calls|
  {
    || (s.calls[k].id in s.waiters && s.waiters[s.calls[k].id] == k)
    || (s.job.Handing? && s.job.call == k)
    || s.calls[k].slot.Some?
  }

  /** The reader taking the waiter of `id` off the map, the client having cancelled it. */
  predicate DropsWaiter(s: System, e: Event, id: RequestId) {
    e.ReaderStep? && s.job.Dropping? && s.job.section == 2 && s.job.id == id
  }

  lemma ReaderLeavesReachable(s: System, k: nat)
    requires CallsSound(s) && DistinctCalls(s) && !s.job.Idle? && IsOut(s, k) && CanBeReached(s, k)
    requires !DropsWaiter(s, ReaderStep, s.calls[k].id)
    ensures k < |Advance(s).calls| && (IsOut(Advance(s), k) ==> CanBeReached(Advance(s), k))
  {
    assert CallSound(s.calls[k], s.waiters);
    if s.calls[k].id in s.waiters {
      assert WaiterSound(s, s.calls[k].id);
    }
  }

  lemma AbandoningLeavesReachable(s: System, j: nat, k: nat)
    requires CallsSound(s) && DistinctCalls(s) && Enabled(s, CallAbandon(j))
    requires IsOut(s, k) && CanBeReached(s, k)
    ensures k < |AbandonSection(s, j).calls|
    ensures IsOut(AbandonSection(s, j), k) ==> CanBeReached(AbandonSection(s, j), k)
  {
  }

  lemma AnotherRegisters(s: System, j: nat, k: nat)
    requires DistinctCalls(s) && Enabled(s, CallRegister(j)) && IsOut(s, k) && CanBeReached(s, k)
    ensures k < |Next(s, CallRegister(j)).calls| && CanBeReached(Next(s, CallRegister(j)), k)
  {
  }

  /** All other steps leave the map alone, the reader's hand, and any channel but one being received from. */
  lemma RestLeavesReachable(s: System, e: Event, k: nat)
    requires Enabled(s, e) && !e.ReaderStep? && !e.CallRegister? && !e.CallAbandon?
    requires IsOut(s, k) && CanBeReached(s, k)
    ensures k < |Next(s, e).calls| && (IsOut(Next(s, e), k) ==> CanBeReached(Next(s, e), k))
  {
  }

  lemma OthersLeaveReachable(s: System, e: Event, k: nat)
    requires CallsSound(s) && DistinctCalls(s) && Enabled(s, e) && !e.ReaderStep?
    requires IsOut(s, k) && CanBeReached(s, k)
    ensures k < |Next(s, e).calls| && (IsOut(Next(s, e), k) ==> CanBeReached(Next(s, e), k))
  {
    match e
    case CallRegister(j) => AnotherRegisters(s, j, k);
    case CallAbandon(j) => AbandoningLeavesReachable(s, j, k);
    case _ => RestLeavesReachable(s, e, k);
  }

  lemma RegisteringReaches(s: System, e: Event, k: nat)
    requires Enabled(s, e) && k < |Next(s, e).calls| && !IsOut(s, k) && IsOut(Next(s, e), k)
    ensures CanBeReached(Next(s, e), k)
  {
  }

  /** The waiter of the k-th call has been dropped at some point of the run. */
  ghost predicate WasDropped(events: seq<Event>, k: nat)
    requires IsRun(events)
  {
    events != [] &&
    var before := events[..|events| - 1];
    || WasDropped(before, k)
    || (k < |Run(before).calls| && DropsWaiter(Run(before), events[|events| - 1], Run(before).calls[k].id))
  }

  lemma StepLeavesReachable(s: System, e: Event, k: nat)
    requires CallsSound(s) && DistinctCalls(s) && Enabled(s, e)
    requires IsOut(s, k) ==> CanBeReached(s, k)
    requires k < |s.calls| ==> !DropsWaiter(s, e, s.calls[k].id)
    ensures IsOut(Next(s, e), k) ==> CanBeReached(Next(s, e), k)
  {
    if IsOut(s, k) {
      if e.ReaderStep? {
        ReaderLeavesReachable(s, k);
      } else {
        OthersLeaveReachable(s, e, k);
      }
    } else if IsOut(Next(s, e), k) {
      RegisteringReaches(s, e, k);
    }
  }

  /**
   In every run, from before a worker's request is written until the worker stops
   waiting, its answer can reach it - the call is registered, or the answer is
   already on its way - unless the client's own cancellation took it off the map.
   */
  lemma {:induction false} AnswersFindTheirCall(events: seq<Event>, k: nat)
    requires IsRun(events) && |Run(events).calls| <= U64
    requires IsOut(Run(events), k) && !WasDropped(events, k)
    ensures CanBeReached(Run(events), k)
  {
    var before, last := events[..|events| - 1], events[|events| - 1];
    CallsOnlyGrow(Run(before), last);
    RunKeepsCalls(before);
    if IsOut(Run(before), k) {
      AnswersFindTheirCall(before, k);
    }
    StepLeavesReachable(Run(before), last, k);
  }

  // ---------------------------------------------------------------------
  // Only our own ids are marked
  // ---------------------------------------------------------------------

  /** The reader gives up only what was issued here, and so is all that is marked. */
  ghost predicate MarksAreOurs(s: System) {
    && (s.job.Dropping? ==> WasIssuedHere(NextId(s), s.job.id))
    && (forall id :: id in s.abandoned ==> WasIssuedHere(NextId(s), id))
  }

  lemma CallsAreOurs(s: System, k: nat)
    requires IdsSound(s) && |s.calls| < U64 && k < |s.calls|
    ensures WasIssuedHere(NextId(s), s.calls[k].id)
  {
    IssuedExactly(NextId(s), k);
  }

  /** Where a mark, or something to be marked, comes from. */
  lemma MarksComeFrom(s: System, e: Event)
    requires Enabled(s, e) && ReaderSound(s)
    ensures forall id :: id in Next(s, e).abandoned ==>
              || id in s.abandoned || (s.job.Dropping? && id == s.job.id)
              || exists k :: 0 <= k < |s.calls| && s.calls[k].id == id
  {
    if e.ReaderStep? && s.job.Recalling? && s.job.response.id in s.abandoned {
      ForgetDropsOne(s.abandoned, s.job.response.id);
    }
  }

  lemma DroppingsComeFrom(s: System, e: Event)
    requires Enabled(s, e) && ReaderSound(s) && Next(s, e).job.Dropping?
    ensures var id := Next(s, e).job.id;
            || (s.job.Dropping? && id == s.job.id) || WasIssuedHere(NextId(s), id)
            || exists k :: 0 <= k < |s.calls| && s.calls[k].id == id
  {
  }

  /** An id issued here, or a call's own, is still one of ours when more have been issued. */
  lemma OursStaysOurs(s: System, later: nat, id: RequestId)
    requires IdsSound(s) && |s.calls| < U64 && NextId(s) <= later
    requires WasIssuedHere(NextId(s), id) || exists k :: 0 <= k < |s.calls| && s.calls[k].id == id
    ensures WasIssuedHere(later, id)
  {
    if k :| 0 <= k < |s.calls| && s.calls[k].id == id {
      CallsAreOurs(s, k);
    }
    IssuedStaysIssued(NextId(s), later, id);
  }

  lemma MarkedAreOurs(s: System, e: Event)
    requires MarksAreOurs(s) && IdsSound(s) && ReaderSound(s) && Enabled(s, e)
    requires |s.calls| < U64 && NextId(s) <= NextId(Next(s, e))
    ensures forall id :: id in Next(s, e).abandoned ==> WasIssuedHere(NextId(Next(s, e)), id)
  {
    MarksComeFrom(s, e);
    var later, marked := NextId(Next(s, e)), Next(s, e).abandoned;
    forall id | id in marked ensures WasIssuedHere(later, id) {
      OursStaysOurs(s, later, id);
    }
  }

  lemma StepMarksOurs(s: System, e: Event)
    requires MarksAreOurs(s) && IdsSound(s) && ReaderSound(s) && Enabled(s, e)
    requires |Next(s, e).calls| < U64
    ensures MarksAreOurs(Next(s, e))
  {
    CallsOnlyGrow(s, e);
    MarkedAreOurs(s, e);
    if Next(s, e).job.Dropping? {
      DroppingsComeFrom(s, e);
      OursStaysOurs(s, NextId(Next(s, e)), Next(s, e).job.id);
    }
  }

  /** In every run while ids last, no id is given up that was not issued here. */
  lemma {:induction false} RunMarksOurs(events: seq<Event>)
    requires IsRun(events) && |Run(events).calls| < U64
    ensures MarksAreOurs(Run(events))
  {
    if events != [] {
      var before, last := events[..|events| - 1], events[|events| - 1];
      CallsOnlyGrow(Run(before), last);
      RunMarksOurs(before);
      RunKeepsCalls(before);
      StepMarksOurs(Run(before), last);
    }
  }
}
