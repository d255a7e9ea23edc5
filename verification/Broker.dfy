/**
 `RequestBroker`: routing of server-initiated requests and their answers, as
 whole methods on the four collections and the id counter.
 */
module Broker {
  import opened Text
  import opened Messages
  import opened BrokerSections

  // ---------------------------------------------------------------------
  // Whole methods
  // ---------------------------------------------------------------------

  /** A `sync_channel(1)`: its one slot, and which of its two ends still exist. */
  datatype Channel = Channel(slot: Option<Response>, sender: bool, receiver: bool)

  datatype State = State(
    nextId: nat,
    parked: seq<Response>,
    deferred: seq<Message>,
    abandoned: seq<RequestId>,
    waiters: map<RequestId, nat>,
    channels: seq<Channel>)

  function Initial(): State {
    State(0, [], [], [], map[], [])
  }

  function NextRequestId(s: State): (State, RequestId) {
    (s.(nextId := (s.nextId + 1) % U64), IdOf(s.nextId))
  }

  function TakeParked(s: State, id: RequestId): (State, Option<Response>) {
    var at := Position(s.parked, id);
    if at < |s.parked| then (s.(parked := RemoveAt(s.parked, at)), Some(s.parked[at])) else (s, None)
  }

  /** Dropping a sender: the receiver will see the channel closed. */
  function Hangup(channels: seq<Channel>, waiters: map<RequestId, nat>, id: RequestId): seq<Channel> {
    if id in waiters && waiters[id] < |channels|
    then channels[waiters[id] := channels[waiters[id]].(sender := false)]
    else channels
  }

  function RegisterWaiter(s: State, id: RequestId): (State, nat) {
    (s.(channels := Hangup(s.channels, s.waiters, id) + [Channel(None, true, true)],
        waiters := s.waiters[id := |s.channels|]),
     |s.channels|)
  }

  /** `try_send`, after which the sender is dropped. */
  function TrySend(channel: Channel, response: Response): Channel {
    if channel.receiver && channel.slot.None?
    then Channel(Some(response), false, true)
    else channel.(sender := false)
  }

  function Park(s: State, response: Response): State {
    if !WasIssuedHere(s.nextId, response.id) then s
    else if response.id in s.abandoned then s.(abandoned := Forget(s.abandoned, response.id))
    else s.(parked := PushParked(s.parked, response))
  }

  function Deliver(s: State, response: Response): State {
    if response.id in s.waiters then
      var at := s.waiters[response.id];
      var rest := s.(waiters := s.waiters - {response.id});
      if at < |s.channels|
      then rest.(channels := s.channels[at := TrySend(s.channels[at], response)])
      else rest
    else Park(s, response)
  }

  function Abandon(s: State, id: RequestId): State {
    s.(parked := Without(s.parked, id),
       channels := Hangup(s.channels, s.waiters, id),
       waiters := s.waiters - {id},
       abandoned := PushAbandoned(s.abandoned, id))
  }

  function Cancel(s: State, id: RequestId): (State, bool) {
    if WasIssuedHere(s.nextId, id) then (Abandon(s, id), true) else (s, false)
  }

  /** A full queue hands the message back. */
  function Defer(s: State, message: Message): (State, Option<Message>) {
    if |s.deferred| >= MAX_DEFERRED then (s, Some(message))
    else (s.(deferred := s.deferred + [message]), None)
  }

  function NextDeferred(s: State): (State, Option<Message>) {
    if s.deferred == [] then (s, None)
    else (s.(deferred := s.deferred[1..]), Some(s.deferred[0]))
  }

  /** What the worker holding a receiver does with it. */
  function Receive(s: State, at: nat): (State, Option<Response>) {
    if at < |s.channels|
    then (s.(channels := s.channels[at := s.channels[at].(slot := None)]), s.channels[at].slot)
    else (s, None)
  }

  function DropReceiver(s: State, at: nat): State {
    if at < |s.channels|
    then s.(channels := s.channels[at := s.channels[at].(receiver := false)])
    else s
  }

  // ---------------------------------------------------------------------
  // Runs of whole methods
  // ---------------------------------------------------------------------

  datatype Step =
    | AllocateId
    | Register(id: RequestId)
    | DeliverStep(response: Response)
    | Take(id: RequestId)
    | AbandonStep(id: RequestId)
    | CancelStep(id: RequestId)
    | DeferStep(message: Message)
    | Replay
    | ReceiveStep(at: nat)
    | DropStep(at: nat)

  function Next(s: State, step: Step): State {
    match step
    case AllocateId => NextRequestId(s).0
    case Register(id) => RegisterWaiter(s, id).0
    case DeliverStep(response) => Deliver(s, response)
    case Take(id) => TakeParked(s, id).0
    case AbandonStep(id) => Abandon(s, id)
    case CancelStep(id) => Cancel(s, id).0
    case DeferStep(message) => Defer(s, message).0
    case Replay => NextDeferred(s).0
    case ReceiveStep(at) => Receive(s, at).0
    case DropStep(at) => DropReceiver(s, at)
  }

  function Run(s: State, steps: seq<Step>): State {
    if steps == [] then s else Next(Run(s, steps[..|steps| - 1]), steps[|steps| - 1])
  }

  function Allocations(steps: seq<Step>): nat {
    if steps == [] then 0
    else Allocations(steps[..|steps| - 1]) + if steps[|steps| - 1].AllocateId? then 1 else 0
  }

  /** The bounded queues, and a parked answer that somebody could still collect. */
  ghost predicate Bounded(s: State) {
    && |s.parked| <= 16
    && |s.abandoned| <= 64
    && |s.deferred| <= 256
  }

  ghost predicate ParkedOnce(s: State) {
    && DistinctIds(s.parked)
    && (forall i :: 0 <= i < |s.parked| ==> WasIssuedHere(s.nextId, s.parked[i].id))
    && (forall i :: 0 <= i < |s.parked| ==> s.parked[i].id !in s.abandoned)
  }

  /** Each waiter has a channel of its own, connected and empty: handing over never blocks. */
  ghost predicate WaitersReady(s: State) {
    && (forall id :: id in s.waiters ==>
          && s.waiters[id] < |s.channels|
          && s.channels[s.waiters[id]].sender
          && s.channels[s.waiters[id]].slot.None?)
    && (forall id, id' :: id in s.waiters && id' in s.waiters && s.waiters[id] == s.waiters[id']
          ==> id == id')
  }

  ghost predicate Valid(s: State) {
    Bounded(s) && ParkedOnce(s) && WaitersReady(s)
  }

  lemma PushParkedKeepsOnce(s: State, response: Response)
    requires Bounded(s) && ParkedOnce(s)
    requires WasIssuedHere(s.nextId, response.id) && response.id !in s.abandoned
    ensures var t := s.(parked := PushParked(s.parked, response)); Bounded(t) && ParkedOnce(t)
  {
    PushParkedContents(s.parked, response);
    var pushed := PushParked(s.parked, response);
    forall i | 0 <= i < |pushed|
      ensures WasIssuedHere(s.nextId, pushed[i].id) && pushed[i].id !in s.abandoned
    {
      assert pushed[i] in pushed;
    }
  }

  lemma DeliverKeepsValid(s: State, response: Response)
    requires Valid(s)
    ensures Valid(Deliver(s, response))
  {
    if response.id !in s.waiters && WasIssuedHere(s.nextId, response.id) {
      if response.id in s.abandoned {
        ForgetDropsOne(s.abandoned, response.id);
      } else {
        PushParkedKeepsOnce(s, response);
      }
    }
  }

  lemma AbandonKeepsValid(s: State, id: RequestId)
    requires Valid(s)
    ensures Valid(Abandon(s, id))
  {
    WithoutIsFilter(s.parked, id);
    var t := Abandon(s, id);
    forall i | 0 <= i < |t.parked|
      ensures WasIssuedHere(t.nextId, t.parked[i].id) && t.parked[i].id !in t.abandoned
    {
      assert t.parked[i] in s.parked;
    }
  }

  lemma TakeKeepsValid(s: State, id: RequestId)
    requires Valid(s)
    ensures Valid(TakeParked(s, id).0)
  {
  }

  lemma AllocateKeepsValid(s: State)
    requires Valid(s) && s.nextId + 1 < U64
    ensures Valid(NextRequestId(s).0)
  {
    var t := NextRequestId(s).0;
    forall i | 0 <= i < |t.parked| ensures WasIssuedHere(t.nextId, t.parked[i].id) {
      assert WasIssuedHere(s.nextId, s.parked[i].id);
    }
  }

  lemma RegisterKeepsValid(s: State, id: RequestId)
    requires Valid(s)
    ensures Valid(RegisterWaiter(s, id).0)
  {
  }

  lemma NextKeepsValid(s: State, step: Step)
    requires Valid(s)
    requires step.AllocateId? ==> s.nextId + 1 < U64
    ensures Valid(Next(s, step))
  {
    match step
    case AllocateId => AllocateKeepsValid(s);
    case Register(id) => RegisterKeepsValid(s, id);
    case DeliverStep(response) => DeliverKeepsValid(s, response);
    case AbandonStep(id) => AbandonKeepsValid(s, id);
    case CancelStep(id) => AbandonKeepsValid(s, id);
    case Take(id) => TakeKeepsValid(s, id);
    case _ =>
  }

  /** In every run of whole methods, while ids last. */
  lemma {:induction false} RunKeepsValid(s: State, steps: seq<Step>)
    requires Valid(s) && s.nextId + Allocations(steps) < U64
    ensures Valid(Run(s, steps))
    ensures Run(s, steps).nextId == s.nextId + Allocations(steps)
  {
    if steps != [] {
      RunKeepsValid(s, steps[..|steps| - 1]);
      NextKeepsValid(Run(s, steps[..|steps| - 1]), steps[|steps| - 1]);
    }
  }

  // ---------------------------------------------------------------------
  // Late answers
  // ---------------------------------------------------------------------

  /** Does this step add an id to the abandoned queue? */
  predicate Abandons(s: State, step: Step) {
    step.AbandonStep? || (step.CancelStep? && WasIssuedHere(s.nextId, step.id))
  }

  function Abandonments(s: State, steps: seq<Step>): nat {
    if steps == [] then 0
    else
      var before := steps[..|steps| - 1];
      Abandonments(s, before) + if Abandons(Run(s, before), steps[|steps| - 1]) then 1 else 0
  }

  /** Neither an answer to `id` nor a new waiter for it. */
  predicate LeavesAlone(step: Step, id: RequestId) {
    && (step.DeliverStep? ==> step.response.id != id)
    && (step.Register? ==> step.id != id)
  }

  /** `id` is remembered with at most `after` ids abandoned behind it. */
  ghost predicate Remembers(abandoned: seq<RequestId>, id: RequestId, after: nat) {
    exists i :: 0 <= i < |abandoned| && abandoned[i] == id && |abandoned| - 1 - i <= after
  }

  lemma {:induction false} ForgettingAnotherRemembers(
    abandoned: seq<RequestId>, other: RequestId, id: RequestId, after: nat)
    requires other in abandoned && other != id && Remembers(abandoned, id, after)
    ensures Remembers(Forget(abandoned, other), id, after)
  {
    var i :| 0 <= i < |abandoned| && abandoned[i] == id && |abandoned| - 1 - i <= after;
    ForgetDropsOne(abandoned, other);
    if abandoned[0] == other {
      assert abandoned[1..][i - 1] == id;
    } else {
      var rest := Forget(abandoned[1..], other);
      ForgetDropsOne(abandoned[1..], other);
      if i == 0 {
        assert ([abandoned[0]] + rest)[0] == id;
      } else {
        assert abandoned[1..][i - 1] == id;
        ForgettingAnotherRemembers(abandoned[1..], other, id, after);
        var j :| 0 <= j < |rest| && rest[j] == id && |rest| - 1 - j <= after;
        assert ([abandoned[0]] + rest)[j + 1] == id;
      }
    }
  }

  lemma AbandoningRemembers(abandoned: seq<RequestId>, other: RequestId, id: RequestId, after: nat)
    requires Remembers(abandoned, id, after) && after + 1 < MAX_ABANDONED
    ensures Remembers(PushAbandoned(abandoned, other), id, after + 1)
  {
    var i :| 0 <= i < |abandoned| && abandoned[i] == id && |abandoned| - 1 - i <= after;
    var longer := abandoned + [other];
    var kept := PushAbandoned(abandoned, other);
    assert kept[i - (|longer| - |kept|)] == id;
  }

  lemma {:induction false} AbandonedIsRemembered(s: State, id: RequestId, steps: seq<Step>)
    requires forall step :: step in steps ==> LeavesAlone(step, id)
    requires Abandonments(Abandon(s, id), steps) < MAX_ABANDONED
    ensures Remembers(Run(Abandon(s, id), steps).abandoned, id, Abandonments(Abandon(s, id), steps))
    ensures id !in Run(Abandon(s, id), steps).waiters
  {
    var s0 := Abandon(s, id);
    if steps == [] {
      assert s0.abandoned[|s0.abandoned| - 1] == id;
    } else {
      var before, last := steps[..|steps| - 1], steps[|steps| - 1];
      assert last in steps && forall step :: step in before ==> step in steps;
      AbandonedIsRemembered(s, id, before);
      var t, n := Run(s0, before), Abandonments(s0, before);
      if Abandons(t, last) {
        AbandoningRemembers(t.abandoned, last.id, id, n);
      } else if last.DeliverStep? && last.response.id in t.abandoned {
        ForgettingAnotherRemembers(t.abandoned, last.response.id, id, n);
      }
    }
  }

  /** The first late answer to an abandoned request reaches nobody and is not kept. */
  lemma LateAnswerIsDiscarded(s: State, id: RequestId, steps: seq<Step>, late: Response)
    requires late.id == id
    requires forall step :: step in steps ==> LeavesAlone(step, id)
    requires Abandonments(Abandon(s, id), steps) < 64
    ensures var t := Run(Abandon(s, id), steps);
            var u := Deliver(t, late);
            u.parked == t.parked && u.channels == t.channels && u.waiters == t.waiters
  {
    AbandonedIsRemembered(s, id, steps);
  }
}
