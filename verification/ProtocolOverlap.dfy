/**
 The one thing that holds only between whole broker methods: that no id is both
 parked and abandoned. Lock by lock it fails, and here is exactly when: which
 step starts such an overlap, which steps end one, and a run that has one.
 */
module ProtocolOverlap {
  import opened Text
  import opened Messages
  import opened BrokerSections
  import opened Protocol
  import opened ProtocolCalls
  import opened ProtocolBounds

  // ---------------------------------------------------------------------
  // What starts an overlap
  // ---------------------------------------------------------------------

  /** Parked, or about to be with the check for abandonment already behind it. */
  predicate AsGoodAsParked(s: System, id: RequestId) {
    IsParked(s, id) || (s.job.Parking? && s.job.response.id == id)
  }

  /** At once abandoned and parked, or as good as. */
  predicate Overlaps(s: System, id: RequestId) {
    id in s.abandoned && AsGoodAsParked(s, id)
  }

  /** The reader part way through `abandon` has already dropped the parked answer. */
  predicate DroppingCleared(s: System) {
    s.job.Dropping? && s.job.section >= 2 ==> !IsParked(s, s.job.id)
  }

  /** The last lock of a task worker's own `abandon`, with the answer already parked. */
  predicate BeginsOverlap(s: System, e: Event, id: RequestId) {
    && e.CallAbandon? && e.k < |s.calls|
    && s.calls[e.k].pc == Abandoning(3) && s.calls[e.k].id == id
    && AsGoodAsParked(s, id)
  }

  lemma ParkingOnlyAdds(parked: seq<Response>, response: Response, id: RequestId)
    requires DistinctIds(parked) && |parked| <= MAX_PARKED
    requires Position(PushParked(parked, response), id) < |PushParked(parked, response)|
    ensures id == response.id || Position(parked, id) < |parked|
  {
    PushParkedContents(parked, response);
    IsParkedExactly(PushParked(parked, response), id);
    IsParkedExactly(parked, id);
  }

  lemma RetainingDrops(parked: seq<Response>, dropped: RequestId, id: RequestId)
    requires Position(Without(parked, dropped), id) < |Without(parked, dropped)|
    ensures id != dropped && Position(parked, id) < |parked|
  {
    WithoutIsFilter(parked, dropped);
    IsParkedExactly(Without(parked, dropped), id);
    IsParkedExactly(parked, id);
  }

  lemma DroppingOverlap(s: System, id: RequestId)
    requires DroppingCleared(s) && ReaderSound(s) && s.job.Dropping?
    requires id in Advance(s).abandoned && AsGoodAsParked(Advance(s), id)
    ensures id in s.abandoned && AsGoodAsParked(s, id)
  {
    if s.job.section == 1 {
      RetainingDrops(s.parked, s.job.id, id);
    }
  }

  lemma ReaderOverlap(s: System, id: RequestId)
    requires QueuesBounded(s) && DroppingCleared(s) && ReaderSound(s) && !s.job.Idle?
    requires id in Advance(s).abandoned && AsGoodAsParked(Advance(s), id)
    ensures id in s.abandoned && AsGoodAsParked(s, id)
  {
    match s.job
    case Recalling(response) =>
      if response.id in s.abandoned {
        ForgetDropsOne(s.abandoned, response.id);
      }
    case Parking(response) => ParkingOnlyAdds(s.parked, response, id);
    case Dropping(_, _, _) => DroppingOverlap(s, id);
    case _ =>
  }

  lemma WorkerOverlap(s: System, k: nat, id: RequestId)
    requires Enabled(s, CallAbandon(k)) && CallSound(s.calls[k], s.waiters)
    requires Overlaps(AbandonSection(s, k), id)
    ensures Overlaps(s, id) || BeginsOverlap(s, CallAbandon(k), id)
  {
    if s.calls[k].pc.section == 1 && IsParked(AbandonSection(s, k), id) {
      RetainingDrops(s.parked, s.calls[k].id, id);
    }
  }

  lemma TakeOverlap(s: System, id: RequestId)
    requires Enabled(s, AskTake) && AsGoodAsParked(Next(s, AskTake), id)
    ensures AsGoodAsParked(s, id)
  {
    IsParkedExactly(s.parked, id);
    IsParkedExactly(Next(s, AskTake).parked, id);
  }

  lemma OverlapComesFrom(s: System, e: Event, id: RequestId)
    requires QueuesBounded(s) && DroppingCleared(s) && CallsSound(s) && Enabled(s, e)
    requires Overlaps(Next(s, e), id)
    ensures Overlaps(s, id) || BeginsOverlap(s, e, id)
  {
    match e
    case ReaderStep => ReaderOverlap(s, id);
    case CallAbandon(k) => WorkerOverlap(s, k, id);
    case AskTake => TakeOverlap(s, id);
    case _ => OthersLeaveQueues(s, e);
  }

  lemma LastLockOverlaps(s: System, k: nat, id: RequestId)
    requires Enabled(s, CallAbandon(k)) && BeginsOverlap(s, CallAbandon(k), id)
    ensures Overlaps(AbandonSection(s, k), id)
  {
    var after := PushAbandoned(s.abandoned, id);
    assert after[|after| - 1] == id;
  }

  /** A step makes an id overlap exactly if it is the last lock of a worker's own `abandon`. */
  lemma OverlapBeginsExactly(s: System, e: Event, id: RequestId)
    requires QueuesBounded(s) && DroppingCleared(s) && CallsSound(s) && Enabled(s, e)
    requires !Overlaps(s, id)
    ensures Overlaps(Next(s, e), id) <==> BeginsOverlap(s, e, id)
  {
    if Overlaps(Next(s, e), id) {
      OverlapComesFrom(s, e, id);
    }
    if BeginsOverlap(s, e, id) {
      LastLockOverlaps(s, e.k, id);
    }
  }

  // ---------------------------------------------------------------------
  // What ends one
  // ---------------------------------------------------------------------

  /** Marking `added` makes the mark against `id` the one too many. */
  predicate Evicts(abandoned: seq<RequestId>, added: RequestId, id: RequestId) {
    |abandoned| == MAX_ABANDONED && id != added && id !in abandoned[1..]
  }

  /**
   The reader recalls the last mark against `id`, parks another answer in a full
   queue `id` is the oldest of, drops the answer to `id`, or marks another id when
   there are 64.
   */
  predicate ReaderEnds(s: System, id: RequestId) {
    match s.job
    case Recalling(response) => response.id == id && multiset(s.abandoned)[id] == 1
    case Parking(response) =>
      && response.id != id && !IsParked(s, response.id)
      && |s.parked| == MAX_PARKED && s.parked[0].id == id
    case Dropping(dropped, section, _) =>
      if section == 1 then dropped == id else section == 3 && Evicts(s.abandoned, dropped, id)
    case _ => false
  }

  /** A worker's `abandon` drops the answer to `id`, or marks another id when there are 64. */
  predicate WorkerEnds(s: System, k: nat, id: RequestId)
    requires k < |s.calls|
  {
    var call := s.calls[k];
    call.pc.Abandoning? &&
    if call.pc.section == 1 then call.id == id && !(s.job.Parking? && s.job.response.id == id)
    else call.pc.section == 3 && Evicts(s.abandoned, call.id, id)
  }

  /** Or the tool waiting for it directly collects the answer, which no run gets to see. */
  predicate EndsOverlap(s: System, e: Event, id: RequestId) {
    || (e.ReaderStep? && ReaderEnds(s, id))
    || (e.CallAbandon? && e.k < |s.calls| && WorkerEnds(s, e.k, id))
    || (e.AskTake? && s.mode.Asking? && s.mode.call < |s.calls| && s.calls[s.mode.call].id == id)
  }

  lemma MarkingEvicts(abandoned: seq<RequestId>, added: RequestId, id: RequestId)
    requires |abandoned| <= MAX_ABANDONED && id in abandoned
    ensures id in PushAbandoned(abandoned, added) <==> !Evicts(abandoned, added, id)
  {
    if |abandoned| == MAX_ABANDONED {
      assert (abandoned + [added])[1..] == abandoned[1..] + [added];
    }
  }

  lemma ForgettingEnds(abandoned: seq<RequestId>, forgotten: RequestId, id: RequestId)
    requires forgotten in abandoned && id in abandoned
    ensures id in Forget(abandoned, forgotten) <==>
            !(forgotten == id && multiset(abandoned)[id] == 1)
  {
    ForgetDropsOne(abandoned, forgotten);
    assert id in Forget(abandoned, forgotten) <==> multiset(Forget(abandoned, forgotten))[id] > 0;
    assert multiset(abandoned)[id] > 0;
  }

  lemma PushedIsParked(parked: seq<Response>, response: Response, id: RequestId)
    requires DistinctIds(parked) && |parked| <= MAX_PARKED
    requires Position(parked, id) < |parked| || response.id == id
    ensures var pushed := PushParked(parked, response);
            Position(pushed, id) < |pushed| <==>
            !(&& response.id != id && Position(parked, response.id) == |parked|
              && |parked| == MAX_PARKED && parked[0].id == id)
  {
    var pushed := PushParked(parked, response);
    var at := Position(parked, response.id);
    IsParkedExactly(pushed, id);
    if response.id == id {
      PushParkedContents(parked, response);
    } else if at < |parked| {
      var i := Position(parked, id);
      assert pushed[i] == parked[i] && pushed[i] in pushed;
    } else {
      PushedAtTheEnd(parked, response, id);
    }
  }

  lemma PushedAtTheEnd(parked: seq<Response>, response: Response, id: RequestId)
    requires DistinctIds(parked) && |parked| <= MAX_PARKED
    requires Position(parked, id) < |parked| && response.id != id
    requires Position(parked, response.id) == |parked|
    ensures var pushed := PushParked(parked, response);
            Position(pushed, id) < |pushed| <==> !(|parked| == MAX_PARKED && parked[0].id == id)
  {
    var pushed, i := PushParked(parked, response), Position(parked, id);
    IsParkedExactly(pushed, id);
    if |parked| < MAX_PARKED {
      assert pushed[i] == parked[i] && pushed[i] in pushed;
    } else {
      assert pushed == parked[1..] + [response];
      if i > 0 {
        assert pushed[i - 1] == parked[i] && pushed[i - 1] in pushed;
      }
    }
  }

  lemma RetainedUnlessDropped(parked: seq<Response>, dropped: RequestId, id: RequestId)
    requires Position(parked, id) < |parked|
    ensures Position(Without(parked, dropped), id) < |Without(parked, dropped)| <==> id != dropped
  {
    WithoutIsFilter(parked, dropped);
    IsParkedExactly(Without(parked, dropped), id);
    IsParkedExactly(parked, id);
  }

  lemma DroppingEnds(s: System, id: RequestId)
    requires QueuesBounded(s) && ReaderSound(s) && s.job.Dropping? && Overlaps(s, id)
    ensures !Overlaps(Advance(s), id) <==> ReaderEnds(s, id)
  {
    if s.job.section == 1 {
      RetainedUnlessDropped(s.parked, s.job.id, id);
    } else if s.job.section == 3 {
      MarkingEvicts(s.abandoned, s.job.id, id);
    }
  }

  lemma ReaderEndsExactly(s: System, id: RequestId)
    requires QueuesBounded(s) && ReaderSound(s) && !s.job.Idle? && Overlaps(s, id)
    ensures !Overlaps(Advance(s), id) <==> ReaderEnds(s, id)
  {
    match s.job
    case Recalling(_) => RecallingEnds(s, id);
    case Parking(_) => ParkingEnds(s, id);
    case Dropping(_, _, _) => DroppingEnds(s, id);
    case _ =>
  }

  lemma RecallingEnds(s: System, id: RequestId)
    requires s.job.Recalling? && Overlaps(s, id)
    ensures !Overlaps(Advance(s), id) <==> ReaderEnds(s, id)
  {
    if s.job.response.id in s.abandoned {
      ForgettingEnds(s.abandoned, s.job.response.id, id);
    }
  }

  lemma ParkingEnds(s: System, id: RequestId)
    requires QueuesBounded(s) && s.job.Parking? && Overlaps(s, id)
    ensures !Overlaps(Advance(s), id) <==> ReaderEnds(s, id)
  {
    PushedIsParked(s.parked, s.job.response, id);
  }

  lemma WorkerEndsExactly(s: System, k: nat, id: RequestId)
    requires QueuesBounded(s) && Enabled(s, CallAbandon(k)) && CallSound(s.calls[k], s.waiters)
    requires Overlaps(s, id)
    ensures !Overlaps(AbandonSection(s, k), id) <==> WorkerEnds(s, k, id)
  {
    if s.calls[k].pc.section == 1 {
      if IsParked(s, id) {
        RetainedUnlessDropped(s.parked, s.calls[k].id, id);
      }
    } else if s.calls[k].pc.section == 3 {
      MarkingEvicts(s.abandoned, s.calls[k].id, id);
    }
  }

  lemma TakeEndsExactly(s: System, id: RequestId)
    requires QueuesBounded(s) && Enabled(s, AskTake) && Overlaps(s, id)
    ensures !Overlaps(Next(s, AskTake), id) <==> s.calls[s.mode.call].id == id
  {
    var taken := s.calls[s.mode.call].id;
    var at := Position(s.parked, taken);
    TakenIsGone(s.parked, at, id);
  }

  lemma TakenIsGone(parked: seq<Response>, at: nat, id: RequestId)
    requires DistinctIds(parked) && at < |parked| && Position(parked, id) < |parked|
    ensures var left := RemoveAt(parked, at);
            Position(left, id) < |left| <==> parked[at].id != id
  {
    var left, i := RemoveAt(parked, at), Position(parked, id);
    IsParkedExactly(left, id);
    if i < at {
      assert left[i] == parked[i] && left[i] in left;
    } else if i > at {
      assert left[i - 1] == parked[i] && left[i - 1] in left;
    } else {
      forall r | r in left ensures r.id != id {
        var j :| 0 <= j < |left| && left[j] == r;
        assert r == parked[if j < at then j else j + 1];
      }
    }
  }

  lemma OverlapEndsExactly(s: System, e: Event, id: RequestId)
    requires QueuesBounded(s) && CallsSound(s) && Enabled(s, e) && Overlaps(s, id)
    ensures !Overlaps(Next(s, e), id) <==> EndsOverlap(s, e, id)
  {
    match e
    case ReaderStep => ReaderEndsExactly(s, id);
    case CallAbandon(k) => WorkerEndsExactly(s, k, id);
    case AskTake => TakeEndsExactly(s, id);
    case _ => OthersLeaveOverlap(s, e, id);
  }

  lemma OthersLeaveOverlap(s: System, e: Event, id: RequestId)
    requires Enabled(s, e) && !e.ReaderStep? && !e.CallAbandon? && !e.AskTake? && Overlaps(s, id)
    ensures Overlaps(Next(s, e), id)
  {
    OthersLeaveQueues(s, e);
    if s.job.Parking? {
      OthersLeaveParking(s, e);
    }
  }

  lemma OthersLeaveParking(s: System, e: Event)
    requires Enabled(s, e) && !e.ReaderStep? && s.job.Parking?
    ensures Next(s, e).job == s.job
  {
  }

  /** A step, in full: an id overlaps after it exactly if it begins to, or did and does not end to. */
  lemma OverlapSteps(s: System, e: Event, id: RequestId)
    requires QueuesBounded(s) && DroppingCleared(s) && CallsSound(s) && Enabled(s, e)
    ensures Overlaps(Next(s, e), id) <==>
            BeginsOverlap(s, e, id) || (Overlaps(s, id) && !EndsOverlap(s, e, id))
  {
    if Overlaps(s, id) {
      OverlapEndsExactly(s, e, id);
      if BeginsOverlap(s, e, id) {
        LastLockOverlaps(s, e.k, id);
      }
    } else {
      OverlapBeginsExactly(s, e, id);
    }
  }

  // ---------------------------------------------------------------------
  // Over whole runs
  // ---------------------------------------------------------------------

  lemma ReaderDroppingClears(s: System)
    requires DroppingCleared(s) && s.job.Dropping?
    requires Advance(s).job.Dropping? && Advance(s).job.section >= 2
    ensures !IsParked(Advance(s), Advance(s).job.id)
  {
    if s.job.section == 1 {
      WithoutIsFilter(s.parked, s.job.id);
      IsParkedExactly(Without(s.parked, s.job.id), s.job.id);
    }
  }

  lemma WorkerLeavesCleared(s: System, k: nat)
    requires Enabled(s, CallAbandon(k)) && s.job.Dropping? && !IsParked(s, s.job.id)
    ensures !IsParked(AbandonSection(s, k), s.job.id)
  {
    if s.calls[k].pc.section == 1 && IsParked(AbandonSection(s, k), s.job.id) {
      RetainingDrops(s.parked, s.calls[k].id, s.job.id);
    }
  }

  lemma OnlyLocksMoveADropping(s: System, e: Event)
    requires Enabled(s, e) && !e.ReaderStep?
    requires Next(s, e).job.Dropping? && Next(s, e).job.section >= 2
    ensures Next(s, e).job == s.job && !e.AskTake?
  {
  }

  lemma OnlyDroppingsDrop(s: System)
    requires !s.job.Idle? && Advance(s).job.Dropping?
    ensures s.job.Dropping?
  {
  }

  lemma DroppingClears(s: System, e: Event)
    requires DroppingCleared(s) && Enabled(s, e)
    requires Next(s, e).job.Dropping? && Next(s, e).job.section >= 2
    ensures !IsParked(Next(s, e), Next(s, e).job.id)
  {
    if e.ReaderStep? {
      OnlyDroppingsDrop(s);
      ReaderDroppingClears(s);
    } else {
      OnlyLocksMoveADropping(s, e);
      if e.CallAbandon? {
        WorkerLeavesCleared(s, e.k);
      } else {
        OthersLeaveQueues(s, e);
      }
    }
  }

  lemma {:induction false} RunKeepsDroppingCleared(events: seq<Event>)
    requires IsRun(events)
    ensures DroppingCleared(Run(events))
  {
    if events != [] {
      var before, last := events[..|events| - 1], events[|events| - 1];
      RunKeepsDroppingCleared(before);
      if Run(events).job.Dropping? && Run(events).job.section >= 2 {
        DroppingClears(Run(before), last);
      }
    }
  }

  lemma {:induction false} CallsGrowAlong(events: seq<Event>, k: nat)
    requires IsRun(events) && k <= |events|
    ensures |RunAt(events, k).calls| <= |Run(events).calls|
    decreases |events| - k
  {
    if k < |events| {
      CallsGrowAlong(events, k + 1);
      RunAtSteps(events, k);
      CallsOnlyGrow(RunAt(events, k), events[k]);
    } else {
      assert events[..k] == events;
    }
  }

  /** In every run, the conditions are exact at every step. */
  lemma RunOverlapsExactly(events: seq<Event>, k: nat, id: RequestId)
    requires IsRun(events) && |Run(events).calls| < U64 && k < |events|
    ensures Overlaps(RunAt(events, k + 1), id) <==>
            || BeginsOverlap(RunAt(events, k), events[k], id)
            || (Overlaps(RunAt(events, k), id) && !EndsOverlap(RunAt(events, k), events[k], id))
  {
    CallsGrowAlong(events, k);
    PrefixIsRun(events, k);
    RunAtSteps(events, k);
    RunKeepsBounds(events[..k]);
    RunKeepsCalls(events[..k]);
    RunKeepsDroppingCleared(events[..k]);
    OverlapSteps(RunAt(events, k), events[k], id);
  }

  /** It began at `i` and has not ended since. */
  predicate Since(begins: seq<bool>, ends: seq<bool>, i: nat)
    requires i < |begins| == |ends|
  {
    begins[i] && forall j :: i < j < |begins| ==> !ends[j]
  }

  /** Something that begins and ends stepwise is so at the end if it began and has not ended since. */
  lemma {:induction false} BegunAndNotEnded(begins: seq<bool>, ends: seq<bool>, holds: seq<bool>)
    requires |begins| == |ends| == |holds| - 1 && !holds[0]
    requires forall k :: 0 <= k < |begins| ==>
               (holds[k + 1] <==> begins[k] || (holds[k] && !ends[k]))
    ensures holds[|begins|] <==> exists i :: 0 <= i < |begins| && Since(begins, ends, i)
  {
    var n := |begins| - 1;
    if n >= 0 {
      BegunAndNotEnded(begins[..n], ends[..n], holds[..n + 1]);
      forall i | 0 <= i < n
        ensures Since(begins, ends, i) <==> Since(begins[..n], ends[..n], i) && !ends[n]
      {
        SinceOneMore(begins, ends, i);
      }
      assert Since(begins, ends, n) <==> begins[n];
    }
  }

  lemma SinceOneMore(begins: seq<bool>, ends: seq<bool>, i: nat)
    requires |begins| == |ends| && i < |begins| - 1
    ensures var n := |begins| - 1;
            Since(begins, ends, i) <==> Since(begins[..n], ends[..n], i) && !ends[n]
  {
    var n := |begins| - 1;
    assert forall j :: i < j < n ==> ends[..n][j] == ends[j];
  }

  /** The i-th event began an overlap that no later event ended. */
  ghost predicate OverlapsSince(events: seq<Event>, i: nat, id: RequestId)
    requires IsRun(events) && i < |events|
  {
    && BeginsOverlap(RunAt(events, i), events[i], id)
    && forall j :: i < j < |events| ==> !EndsOverlap(RunAt(events, j), events[j], id)
  }

  /**
   Lock by lock, an id is both abandoned and parked - or past the check and about
   to be parked - if and only if the last lock of a task worker's own `abandon`
   found the answer parked, and since then no mark was recalled or evicted, and no
   answer dropped or evicted, that would have ended it. The reader's `abandon`, for
   a direct wait or a cancellation the client sends, never starts one.
   */
  lemma OverlapsExactly(events: seq<Event>, id: RequestId)
    requires IsRun(events) && |Run(events).calls| < U64
    ensures Overlaps(Run(events), id) <==>
            exists i :: 0 <= i < |events| && OverlapsSince(events, i, id)
  {
    var n := |events|;
    var begins := seq(n, k requires 0 <= k < n => BeginsOverlap(RunAt(events, k), events[k], id));
    var ends := seq(n, k requires 0 <= k < n => EndsOverlap(RunAt(events, k), events[k], id));
    var holds := seq(n + 1, k requires 0 <= k <= n => Overlaps(RunAt(events, k), id));
    forall k | 0 <= k < n ensures holds[k + 1] <==> begins[k] || (holds[k] && !ends[k]) {
      RunOverlapsExactly(events, k, id);
    }
    assert events[..n] == events;
    BegunAndNotEnded(begins, ends, holds);
    SinceIsThat(events, id, begins, ends);
  }

  lemma SinceIsThat(events: seq<Event>, id: RequestId, begins: seq<bool>, ends: seq<bool>)
    requires IsRun(events) && |begins| == |ends| == |events|
    requires forall k :: 0 <= k < |events| ==>
               && (begins[k] <==> BeginsOverlap(RunAt(events, k), events[k], id))
               && (ends[k] <==> EndsOverlap(RunAt(events, k), events[k], id))
    ensures (exists i :: 0 <= i < |events| && OverlapsSince(events, i, id)) <==>
            exists i :: 0 <= i < |begins| && Since(begins, ends, i)
  {
    forall i | 0 <= i < |events| ensures OverlapsSince(events, i, id) <==> Since(begins, ends, i) {
    }
  }

  // ---------------------------------------------------------------------
  // An overlap
  // ---------------------------------------------------------------------

  /** The only call is a worker's, and it has got this far. */
  function Lone(pc: CallPc): System {
    Start().(calls := [Call(IdOf(0), true, pc, None)])
  }

  lemma WorkerWaits() returns (events: seq<Event>)
    ensures IsRun(events) && Run(events) == Lone(Waiting).(waiters := map[IdOf(0) := 0])
  {
    RunExtends([], CallStart);
    RunExtends([CallStart], CallRegister(0));
    events := [CallStart] + [CallRegister(0)];
    RunExtends(events, CallWrite(0, true));
    events := events + [CallWrite(0, true)];
  }

  /** It gives up, and has taken two of the three locks. */
  lemma WorkerLetsGo(events: seq<Event>) returns (raced: seq<Event>)
    requires IsRun(events) && Run(events) == Lone(Waiting).(waiters := map[IdOf(0) := 0])
    ensures IsRun(raced) && Run(raced) == Lone(Abandoning(3))
  {
    raced := WorkerGivesUp(events);
    RunExtends(raced, CallAbandon(0));
    raced := raced + [CallAbandon(0)];
    RunExtends(raced, CallAbandon(0));
    raced := raced + [CallAbandon(0)];
  }

  lemma WorkerGivesUp(events: seq<Event>) returns (raced: seq<Event>)
    requires IsRun(events) && Run(events) == Lone(Waiting).(waiters := map[IdOf(0) := 0])
    ensures IsRun(raced) && Run(raced) == Lone(Abandoning(1)).(waiters := map[IdOf(0) := 0])
  {
    RunExtends(events, CallGiveUp(0));
    raced := events + [CallGiveUp(0)];
  }

  /** The answer arrives in between, and finds neither a waiter nor a mark against it. */
  lemma ReaderRoutes(events: seq<Event>, late: Response) returns (raced: seq<Event>)
    requires IsRun(events) && late.id == IdOf(0) && Run(events) == Lone(Abandoning(3))
    ensures IsRun(raced) && Run(raced) == Lone(Abandoning(3)).(job := Recalling(late))
  {
    IssuedExactly(1, 0);
    RunExtends(events, ReadTop(Answer(late)));
    raced := events + [ReadTop(Answer(late))];
    RunExtends(raced, ReaderStep);
    raced := raced + [ReaderStep];
    RunExtends(raced, ReaderStep);
    raced := raced + [ReaderStep];
  }

  lemma ReaderParks(events: seq<Event>, late: Response) returns (raced: seq<Event>)
    requires IsRun(events) && Run(events) == Lone(Abandoning(3)).(job := Recalling(late))
    ensures IsRun(raced) && Run(raced) == Lone(Abandoning(3)).(parked := [late])
  {
    RunExtends(events, ReaderStep);
    raced := events + [ReaderStep];
    RunExtends(raced, ReaderStep);
    raced := raced + [ReaderStep];
  }

  /** The overlap is real: a run in which one id ends up parked and abandoned. */
  lemma OverlapHappens(late: Response) returns (events: seq<Event>)
    requires late.id == IdOf(0)
    ensures IsRun(events)
    ensures IsParked(Run(events), late.id) && late.id in Run(events).abandoned
  {
    events := WorkerWaits();
    events := WorkerLetsGo(events);
    events := ReaderRoutes(events, late);
    events := ReaderParks(events, late);
    RunExtends(events, CallAbandon(0));
    events := events + [CallAbandon(0)];
    assert Run(events).parked[0].id == late.id;
    assert Run(events).abandoned == [late.id];
  }
}
