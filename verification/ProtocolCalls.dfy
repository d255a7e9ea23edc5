/**
 In every interleaving of `Protocol`, a server-initiated call gets its own answer
 or none, and leaves nothing behind in the waiter map.
 */
module ProtocolCalls {
  import opened Text
  import opened Messages
  import opened BrokerSections
  import opened Protocol

  /** Calls are numbered in the order they were made. */
  predicate IdsSound(s: System) {
    forall k :: 0 <= k < |s.calls| ==> s.calls[k].id == IdOf(k % U64)
  }

  /** No two calls share an id. */
  predicate DistinctCalls(s: System) {
    forall j, k ::
      (0 <= j < |s.calls| && 0 <= k < |s.calls| && s.calls[j].id == s.calls[k].id) ==> j == k
  }

  lemma IdsAreDistinct(s: System)
    requires IdsSound(s) && |s.calls| <= U64
    ensures DistinctCalls(s)
  {
    forall j, k | 0 <= j < |s.calls| && 0 <= k < |s.calls| && s.calls[j].id == s.calls[k].id
      ensures j == k
    {
      IdIsInjective(j % U64, k % U64);
    }
  }

  /** May the call's sender still be in the waiter map? */
  predicate MayBeRegistered(pc: CallPc) {
    pc.Writing? || pc.Waiting? || (pc.Abandoning? && pc.section <= 2)
  }

  predicate WaiterSound(s: System, id: RequestId)
    requires id in s.waiters
  {
    var k := s.waiters[id];
    Delegated(s, k) && id == s.calls[k].id && MayBeRegistered(s.calls[k].pc)
  }

  predicate CallSound(call: Call, waiters: map<RequestId, nat>) {
    && (call.slot.Some? ==>
          && call.slot.value.id == call.id
          && call.id !in waiters
          && !call.pc.Registering?)
    && (call.pc.Finished? && call.pc.outcome.Answered? ==> call.pc.outcome.response.id == call.id)
    && (call.pc.Abandoning? ==> 1 <= call.pc.section <= 3)
  }

  /** The sender in the reader's hand is the answered call's own, and its channel is empty. */
  predicate HandSound(s: System) {
    s.job.Handing? ==>
      && Delegated(s, s.job.call)
      && var call := s.calls[s.job.call];
      && s.job.response.id == call.id
      && call.id !in s.waiters
      && call.slot.None?
      && !call.pc.Registering?
  }

  predicate ReaderSound(s: System) {
    && (s.mode.Asking? ==>
          s.mode.call < |s.calls| && !s.calls[s.mode.call].delegated &&
          Listening(s.calls[s.mode.call]))
    && (s.job.Dropping? ==>
          && 1 <= s.job.section <= 3
          && (s.job.endsWait ==> s.mode.Asking? && s.job.id == s.calls[s.mode.call].id))
  }

  ghost predicate CallsSound(s: System) {
    && (forall id :: id in s.waiters ==> WaiterSound(s, id))
    && (forall k :: 0 <= k < |s.calls| ==> CallSound(s.calls[k], s.waiters))
    && HandSound(s)
    && ReaderSound(s)
  }

  /** A step that moves at most one call and takes senders out of the map, if it changes it. */
  lemma OneCallMoves(s: System, t: System, k: nat)
    requires CallsSound(s) && DistinctCalls(s) && k < |s.calls| == |t.calls|
    requires t.calls[k].id == s.calls[k].id && t.calls[k].delegated == s.calls[k].delegated
    requires forall j :: 0 <= j < |s.calls| && j != k ==> t.calls[j] == s.calls[j]
    requires forall id :: id in t.waiters ==> id in s.waiters && t.waiters[id] == s.waiters[id]
    requires t.calls[k].id in t.waiters ==> MayBeRegistered(t.calls[k].pc)
    requires CallSound(t.calls[k], t.waiters) && HandSound(t) && ReaderSound(t)
    ensures CallsSound(t)
  {
    forall id | id in t.waiters ensures WaiterSound(t, id) {
      assert WaiterSound(s, id);
    }
    forall j | 0 <= j < |t.calls| ensures CallSound(t.calls[j], t.waiters) {
      assert j != k ==> CallSound(s.calls[j], s.waiters);
    }
  }

  /** A step that leaves the calls alone. */
  lemma NoCallMoves(s: System, t: System)
    requires CallsSound(s) && t.calls == s.calls
    requires forall id :: id in t.waiters ==> id in s.waiters && t.waiters[id] == s.waiters[id]
    requires HandSound(t) && ReaderSound(t)
    ensures CallsSound(t)
  {
    forall id | id in t.waiters ensures WaiterSound(t, id) {
      assert WaiterSound(s, id);
    }
    forall j | 0 <= j < |t.calls| ensures CallSound(t.calls[j], t.waiters) {
      assert CallSound(s.calls[j], s.waiters);
    }
  }

  lemma ReadKeepsCalls(s: System, e: Event)
    requires CallsSound(s) && Enabled(s, e)
    requires e.ReadTop? || e.Replay? || e.Reply? || e.PumpStart? || e.PumpRead? || e.PumpEnd?
    ensures CallsSound(Next(s, e))
  {
    NoCallMoves(s, Next(s, e));
  }

  /** What a direct call's own steps rely on. */
  lemma AskedIsSound(s: System)
    requires CallsSound(s) && s.mode.Asking?
    ensures CallSound(s.calls[s.mode.call], s.waiters)
    ensures s.calls[s.mode.call].id in s.waiters ==> WaiterSound(s, s.calls[s.mode.call].id)
  {
  }

  lemma AskWriteKeepsCalls(s: System, ok: bool)
    requires CallsSound(s) && DistinctCalls(s) && Enabled(s, AskWrite(ok))
    ensures CallsSound(Next(s, AskWrite(ok)))
  {
    AskedIsSound(s);
    OneCallMoves(s, Next(s, AskWrite(ok)), s.mode.call);
  }

  lemma AskTakeKeepsCalls(s: System)
    requires CallsSound(s) && DistinctCalls(s) && Enabled(s, AskTake)
    ensures CallsSound(Next(s, AskTake))
  {
    AskedIsSound(s);
    OneCallMoves(s, Next(s, AskTake), s.mode.call);
  }

  lemma AskReadKeepsCalls(s: System, message: Message)
    requires CallsSound(s) && DistinctCalls(s) && Enabled(s, AskRead(message))
    ensures CallsSound(Next(s, AskRead(message)))
  {
    AskedIsSound(s);
    OneCallMoves(s, Next(s, AskRead(message)), s.mode.call);
  }

  lemma AskEndKeepsCalls(s: System, e: Event)
    requires CallsSound(s) && DistinctCalls(s) && Enabled(s, e) && (e.AskTimeout? || e.AskReadError?)
    ensures CallsSound(Next(s, e))
  {
    AskedIsSound(s);
    OneCallMoves(s, Next(s, e), s.mode.call);
  }

  lemma EndedWaitKeepsCalls(s: System)
    requires CallsSound(s) && DistinctCalls(s) && s.job.Dropping? && s.job.endsWait
    ensures CallsSound(Advance(s))
  {
    assert CallSound(s.calls[s.mode.call], s.waiters);
    var id := s.calls[s.mode.call].id;
    assert id in s.waiters ==> WaiterSound(s, id);
    OneCallMoves(s, Advance(s), s.mode.call);
  }

  lemma AdvanceKeepsCalls(s: System)
    requires CallsSound(s) && DistinctCalls(s) && !s.job.Idle?
    ensures CallsSound(Advance(s))
  {
    var t := Advance(s);
    if s.job.Routing? && s.job.response.id in s.waiters {
      assert WaiterSound(s, s.job.response.id);
      assert CallSound(s.calls[s.waiters[s.job.response.id]], s.waiters);
      NoCallMoves(s, t);
    } else if s.job.Handing? {
      assert CallSound(s.calls[s.job.call], s.waiters);
      OneCallMoves(s, t, s.job.call);
    } else if s.job.Dropping? && s.job.endsWait {
      EndedWaitKeepsCalls(s);
    } else {
      NoCallMoves(s, t);
    }
  }

  lemma AbandonKeepsCalls(s: System, k: nat)
    requires CallsSound(s) && DistinctCalls(s) && Enabled(s, CallAbandon(k))
    ensures CallsSound(AbandonSection(s, k))
  {
    assert CallSound(s.calls[k], s.waiters);
    var id := s.calls[k].id;
    assert id in s.waiters ==> WaiterSound(s, id);
    OneCallMoves(s, AbandonSection(s, k), k);
  }

  lemma WorkerKeepsCalls(s: System, e: Event)
    requires CallsSound(s) && DistinctCalls(s) && Enabled(s, e)
    requires e.CallWrite? || e.CallReceive? || e.CallGiveUp? || e.CallClosed?
    ensures CallsSound(Next(s, e))
  {
    assert CallSound(s.calls[e.k], s.waiters);
    if s.calls[e.k].id in s.waiters {
      assert WaiterSound(s, s.calls[e.k].id);
    }
    OneCallMoves(s, Next(s, e), e.k);
  }

  lemma NewCallKeepsCalls(s: System, e: Event)
    requires CallsSound(s) && Enabled(s, e) && (e.AskStart? || e.CallStart?)
    ensures CallsSound(Next(s, e))
  {
    var t := Next(s, e);
    forall id | id in t.waiters ensures WaiterSound(t, id) {
      assert WaiterSound(s, id);
    }
    forall j | 0 <= j < |t.calls| ensures CallSound(t.calls[j], t.waiters) {
      assert j < |s.calls| ==> CallSound(s.calls[j], s.waiters);
    }
  }

  lemma RegisterKeepsCalls(s: System, e: Event)
    requires CallsSound(s) && DistinctCalls(s) && Enabled(s, e) && e.CallRegister?
    ensures CallsSound(Next(s, e))
  {
    var t := Next(s, e);
    forall id | id in t.waiters ensures WaiterSound(t, id) {
      assert id in s.waiters ==> WaiterSound(s, id);
    }
    forall j | 0 <= j < |t.calls| ensures CallSound(t.calls[j], t.waiters) {
      assert CallSound(s.calls[j], s.waiters);
    }
  }

  lemma CallsOnlyGrow(s: System, e: Event)
    requires Enabled(s, e)
    ensures |s.calls| <= |Next(s, e).calls| <= |s.calls| + 1
    ensures forall k :: 0 <= k < |s.calls| ==> Next(s, e).calls[k].id == s.calls[k].id
    ensures |Next(s, e).calls| > |s.calls| ==> Next(s, e).calls[|s.calls|].id == IdOf(NextId(s))
  {
  }

  lemma NextKeepsCalls(s: System, e: Event)
    requires CallsSound(s) && DistinctCalls(s) && Enabled(s, e)
    ensures CallsSound(Next(s, e))
  {
    match e
    case ReadTop(_) => ReadKeepsCalls(s, e);
    case Replay => ReadKeepsCalls(s, e);
    case Reply => ReadKeepsCalls(s, e);
    case PumpStart => ReadKeepsCalls(s, e);
    case PumpRead(_) => ReadKeepsCalls(s, e);
    case PumpEnd => ReadKeepsCalls(s, e);
    case AskStart => NewCallKeepsCalls(s, e);
    case CallStart => NewCallKeepsCalls(s, e);
    case AskWrite(ok) => AskWriteKeepsCalls(s, ok);
    case AskTake => AskTakeKeepsCalls(s);
    case AskTimeout => AskEndKeepsCalls(s, e);
    case AskRead(message) => AskReadKeepsCalls(s, message);
    case AskReadError => AskEndKeepsCalls(s, e);
    case ReaderStep => AdvanceKeepsCalls(s);
    case CallRegister(_) => RegisterKeepsCalls(s, e);
    case CallAbandon(k) => AbandonKeepsCalls(s, k);
    case _ => WorkerKeepsCalls(s, e);
  }

  /** The whole of it, in every run that has not used up the ids. */
  lemma {:induction false} RunKeepsCalls(events: seq<Event>)
    requires IsRun(events) && |Run(events).calls| <= U64
    ensures CallsSound(Run(events)) && IdsSound(Run(events)) && DistinctCalls(Run(events))
  {
    if events != [] {
      var before := events[..|events| - 1];
      RunKeepsIds(before);
      CallsOnlyGrow(Run(before), events[|events| - 1]);
      RunKeepsCalls(before);
      NextKeepsCalls(Run(before), events[|events| - 1]);
    }
    RunKeepsIds(events);
    IdsAreDistinct(Run(events));
  }

  lemma {:induction false} RunKeepsIds(events: seq<Event>)
    requires IsRun(events)
    ensures IdsSound(Run(events))
  {
    if events != [] {
      var before := events[..|events| - 1];
      RunKeepsIds(before);
      CallsOnlyGrow(Run(before), events[|events| - 1]);
    }
  }

  /**
   Whatever the order of answers, duplicates, cancellations, timeouts and
   registrations: a call that succeeds returns a response carrying its own id,
   no two calls share an id, so no response reaches two calls; and a call that
   is over, however it ended, has no sender left in the waiter map.
   */
  lemma CallsEndCleanly(events: seq<Event>, j: nat, k: nat)
    requires IsRun(events) && |Run(events).calls| <= U64
    requires j < |Run(events).calls| && k < |Run(events).calls| && j != k
    ensures var s := Run(events);
            && s.calls[j].id != s.calls[k].id
            && (s.calls[k].pc.Finished? ==> s.calls[k].id !in s.waiters)
            && (s.calls[k].pc.Finished? && s.calls[k].pc.outcome.Answered? ==>
                  s.calls[k].pc.outcome.response.id == s.calls[k].id)
            && (s.calls[j].pc.Finished? && s.calls[k].pc.Finished? &&
                s.calls[j].pc.outcome.Answered? ==>
                  s.calls[j].pc.outcome != s.calls[k].pc.outcome)
  {
    RunKeepsCalls(events);
    var s := Run(events);
    assert CallSound(s.calls[j], s.waiters) && CallSound(s.calls[k], s.waiters);
    assert s.calls[k].id in s.waiters ==> WaiterSound(s, s.calls[k].id);
  }

  /** Without the bound on runs: two calls share an id exactly when the counter has wrapped. */
  lemma IdsRepeatExactly(events: seq<Event>, j: nat, k: nat)
    requires IsRun(events) && j < |Run(events).calls| && k < |Run(events).calls|
    ensures Run(events).calls[j].id == Run(events).calls[k].id <==> j % U64 == k % U64
  {
    RunKeepsIds(events);
    if Run(events).calls[j].id == Run(events).calls[k].id {
      IdIsInjective(j % U64, k % U64);
    }
  }

  /** An answer in the reader's hand reaches the call it is for, if that is still listening. */
  lemma HandoverReaches(events: seq<Event>)
    requires IsRun(events) && |Run(events).calls| <= U64
    requires Run(events).job.Handing?
    ensures var s := Run(events);
            && s.job.call < |s.calls|
            && (s.calls[s.job.call].pc.Writing? || s.calls[s.job.call].pc.Waiting? ==>
                  Next(s, ReaderStep).calls[s.job.call].slot == Some(s.job.response))
  {
    RunKeepsCalls(events);
  }
}
