/**
 In every interleaving of `Protocol`, the broker's queues stay bounded and no wait
 finds its answer parked.
 */
module ProtocolBounds {
  import opened Text
  import opened Messages
  import opened BrokerSections
  import opened Protocol
  import opened ProtocolCalls

  /** The reader has found this response to be to a request of ours. */
  predicate Vetted(job: Job) {
    job.Recalling? || job.Parking?
  }

  ghost predicate QueuesBounded(s: System) {
    && |s.parked| <= MAX_PARKED && DistinctIds(s.parked)
    && |s.abandoned| <= MAX_ABANDONED
    && (forall r :: r in s.parked ==> WasIssuedHere(NextId(s), r.id))
    && (Vetted(s.job) ==> WasIssuedHere(NextId(s), s.job.response.id))
  }

  /** A step as far as the parked and abandoned queues can see. */
  ghost predicate QueuesMove(s: System, t: System) {
    && |t.parked| <= MAX_PARKED && DistinctIds(t.parked)
    && |t.abandoned| <= MAX_ABANDONED
    && (forall r :: r in t.parked ==> r in s.parked || (Vetted(s.job) && r == s.job.response))
    && (Vetted(t.job) ==>
          || (Vetted(s.job) && t.job.response == s.job.response)
          || WasIssuedHere(NextId(s), t.job.response.id))
  }

  lemma DroppingMovesQueues(s: System)
    requires QueuesBounded(s) && s.job.Dropping?
    ensures QueuesMove(s, Advance(s))
  {
    WithoutIsFilter(s.parked, s.job.id);
  }

  lemma AdvanceMovesQueues(s: System)
    requires QueuesBounded(s) && !s.job.Idle?
    ensures QueuesMove(s, Advance(s))
  {
    match s.job
    case Recalling(response) =>
      if response.id in s.abandoned {
        ForgetDropsOne(s.abandoned, response.id);
      }
    case Parking(response) => PushParkedContents(s.parked, response);
    case Dropping(_, _, _) => DroppingMovesQueues(s);
    case _ =>
  }

  lemma AbandonMovesQueues(s: System, k: nat)
    requires QueuesBounded(s) && Enabled(s, CallAbandon(k))
    ensures QueuesMove(s, AbandonSection(s, k))
  {
    WithoutIsFilter(s.parked, s.calls[k].id);
  }

  lemma TakeMovesQueues(s: System)
    requires QueuesBounded(s) && Enabled(s, AskTake)
    ensures QueuesMove(s, Next(s, AskTake))
  {
  }

  /** Nothing else touches either queue, and only a read starts a job. */
  lemma OthersLeaveQueues(s: System, e: Event)
    requires Enabled(s, e) && !e.ReaderStep? && !e.CallAbandon? && !e.AskTake?
    ensures Next(s, e).parked == s.parked && Next(s, e).abandoned == s.abandoned
    ensures Vetted(Next(s, e).job) ==> Next(s, e).job == s.job
  {
  }

  lemma NextMovesQueues(s: System, e: Event)
    requires QueuesBounded(s) && Enabled(s, e)
    ensures QueuesMove(s, Next(s, e))
  {
    match e
    case ReaderStep => AdvanceMovesQueues(s);
    case CallAbandon(k) => AbandonMovesQueues(s, k);
    case AskTake => TakeMovesQueues(s);
    case _ => OthersLeaveQueues(s, e);
  }

  lemma IssuedStaysIssued(nextId: nat, later: nat, id: RequestId)
    requires WasIssuedHere(nextId, id) && nextId <= later
    ensures WasIssuedHere(later, id)
  {
  }

  lemma MoveKeepsBounds(s: System, t: System)
    requires QueuesBounded(s) && QueuesMove(s, t) && NextId(s) <= NextId(t)
    ensures QueuesBounded(t)
  {
    forall r | r in t.parked ensures WasIssuedHere(NextId(t), r.id) {
      IssuedStaysIssued(NextId(s), NextId(t), r.id);
    }
    if Vetted(t.job) {
      IssuedStaysIssued(NextId(s), NextId(t), t.job.response.id);
    }
  }

  lemma NextKeepsBounds(s: System, e: Event)
    requires QueuesBounded(s) && Enabled(s, e) && |Next(s, e).calls| < U64
    ensures QueuesBounded(Next(s, e))
  {
    CallsOnlyGrow(s, e);
    NextMovesQueues(s, e);
    MoveKeepsBounds(s, Next(s, e));
  }

  /** In every interleaving, lock by lock, while ids last. */
  lemma {:induction false} RunKeepsBounds(events: seq<Event>)
    requires IsRun(events) && |Run(events).calls| < U64
    ensures QueuesBounded(Run(events))
    ensures |Run(events).parked| <= 16 && |Run(events).abandoned| <= 64
  {
    if events != [] {
      var before, last := events[..|events| - 1], events[|events| - 1];
      CallsOnlyGrow(Run(before), last);
      RunKeepsBounds(before);
      NextKeepsBounds(Run(before), last);
    }
  }

  // ---------------------------------------------------------------------
  // Parked answers are never collected
  // ---------------------------------------------------------------------

  lemma IsParkedExactly(parked: seq<Response>, id: RequestId)
    ensures Position(parked, id) < |parked| <==> exists r :: r in parked && r.id == id
  {
    if r :| r in parked && r.id == id {
      var i :| 0 <= i < |parked| && parked[i] == r;
    }
  }

  /** The response the reader is part way through routing. */
  predicate Carries(job: Job, id: RequestId) {
    !job.Idle? && !job.Dropping? && job.response.id == id
  }

  /** The answer a tool is waiting for directly is nowhere in the broker. */
  predicate AwaitedIsElsewhere(s: System) {
    s.mode.Asking? && s.mode.call < |s.calls| ==>
      var id := s.calls[s.mode.call].id;
      !IsParked(s, id) && !Carries(s.job, id)
  }

  lemma AllocationIsUnheardOf(s: System)
    requires QueuesBounded(s) && Enabled(s, AskStart)
    ensures AwaitedIsElsewhere(Next(s, AskStart))
  {
    IssuedExactly(NextId(s), NextId(s));
    IsParkedExactly(s.parked, IdOf(NextId(s)));
  }

  /** While a tool goes on waiting, it waits for the same call. */
  lemma WaitGoesOn(s: System, e: Event)
    requires Enabled(s, e) && !e.AskStart? && Next(s, e).mode.Asking?
    requires s.mode.Asking? ==> s.mode.call < |s.calls|
    ensures s.mode == Next(s, e).mode && |s.calls| <= |Next(s, e).calls|
    ensures Next(s, e).calls[s.mode.call].id == s.calls[s.mode.call].id
  {
  }

  /** And only other answers are taken in hand. */
  lemma HandStaysOff(s: System, e: Event)
    requires Enabled(s, e) && !e.AskStart? && s.mode.Asking? && s.mode.call < |s.calls|
    requires Next(s, e).mode.Asking?
    ensures Carries(Next(s, e).job, s.calls[s.mode.call].id) ==> Carries(s.job, s.calls[s.mode.call].id)
  {
    if e.ReaderStep? {
      AdvanceCarriesOn(s, s.calls[s.mode.call].id);
    }
  }

  lemma AdvanceCarriesOn(s: System, id: RequestId)
    requires !s.job.Idle?
    ensures Carries(Advance(s).job, id) ==> Carries(s.job, id)
  {
  }

  lemma NextKeepsAwaited(s: System, e: Event)
    requires QueuesBounded(s) && ReaderSound(s) && AwaitedIsElsewhere(s) && Enabled(s, e)
    ensures AwaitedIsElsewhere(Next(s, e))
  {
    var t := Next(s, e);
    if e.AskStart? {
      AllocationIsUnheardOf(s);
    } else if t.mode.Asking? {
      WaitGoesOn(s, e);
      HandStaysOff(s, e);
      NextMovesQueues(s, e);
      var id := s.calls[s.mode.call].id;
      IsParkedExactly(s.parked, id);
      IsParkedExactly(t.parked, id);
    }
  }

  lemma {:induction false} RunKeepsAwaited(events: seq<Event>)
    requires IsRun(events) && |Run(events).calls| < U64
    ensures AwaitedIsElsewhere(Run(events))
  {
    if events != [] {
      var before, last := events[..|events| - 1], events[|events| - 1];
      CallsOnlyGrow(Run(before), last);
      RunKeepsAwaited(before);
      RunKeepsBounds(before);
      RunKeepsCalls(before);
      NextKeepsAwaited(Run(before), last);
    }
  }

  /** While ids last, no wait ever finds its answer parked: that branch of `await_response` is dead. */
  lemma NothingParkedIsCollected(events: seq<Event>)
    requires IsRun(events) && |Run(events).calls| < U64
    ensures !Enabled(Run(events), AskTake)
  {
    RunKeepsAwaited(events);
  }
}
