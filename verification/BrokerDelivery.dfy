/**
 What becomes of an answer, over whole broker methods: handed to the waiter that
 registered for it, or parked for whoever comes to collect it, and in either case
 exactly once; and what a waiter is told when nobody is going to answer.
 */
module BrokerDelivery {
  import opened Text
  import opened Messages
  import opened BrokerSections
  import opened Broker

  // ---------------------------------------------------------------------
  // Waiters
  // ---------------------------------------------------------------------

  /** Channel `at` belongs to the waiter registered for `id`, and has nothing in it yet. */
  ghost predicate Listens(s: State, id: RequestId, at: nat) {
    && id in s.waiters && s.waiters[id] == at
    && at < |s.channels| && s.channels[at] == Channel(None, true, true)
    && (forall other :: other in s.waiters ==> s.waiters[other] < |s.channels|)
    && (forall other :: other in s.waiters && s.waiters[other] == at ==> other == id)
  }

  /** No answer to `id`, nobody giving it up, no second waiter, and the receiver left where it is. */
  predicate LeavesWaiting(step: Step, id: RequestId, at: nat) {
    && (step.DeliverStep? ==> step.response.id != id)
    && (step.Register? || step.AbandonStep? || step.CancelStep? ==> step.id != id)
    && step != DropStep(at)
  }

  lemma StepKeepsListening(s: State, step: Step, id: RequestId, at: nat)
    requires Listens(s, id, at) && LeavesWaiting(step, id, at)
    ensures Listens(Next(s, step), id, at)
  {
  }

  lemma {:induction false} RunKeepsListening(s: State, steps: seq<Step>, id: RequestId, at: nat)
    requires Listens(s, id, at) && forall step :: step in steps ==> LeavesWaiting(step, id, at)
    ensures Listens(Run(s, steps), id, at)
  {
    if steps != [] {
      RunKeepsListening(s, steps[..|steps| - 1], id, at);
      StepKeepsListening(Run(s, steps[..|steps| - 1]), steps[|steps| - 1], id, at);
    }
  }

  /** The receiver of `at` does not look into it. */
  predicate LeavesSlot(step: Step, at: nat) {
    step != ReceiveStep(at)
  }

  ghost predicate OutOfTheMap(s: State, at: nat) {
    at < |s.channels| && forall id :: id in s.waiters ==> s.waiters[id] != at
  }

  lemma StepKeepsSlot(s: State, step: Step, at: nat)
    requires OutOfTheMap(s, at) && LeavesSlot(step, at)
    ensures OutOfTheMap(Next(s, step), at)
    ensures Next(s, step).channels[at].slot == s.channels[at].slot
    ensures Next(s, step).channels[at].sender == s.channels[at].sender
  {
  }

  /** A channel out of the waiter map: nothing but its own receiver touches what is in it. */
  lemma {:induction false} SlotStays(s: State, steps: seq<Step>, at: nat)
    requires OutOfTheMap(s, at) && forall step :: step in steps ==> LeavesSlot(step, at)
    ensures OutOfTheMap(Run(s, steps), at)
    ensures Run(s, steps).channels[at].slot == s.channels[at].slot
    ensures Run(s, steps).channels[at].sender == s.channels[at].sender
  {
    if steps != [] {
      SlotStays(s, steps[..|steps| - 1], at);
      StepKeepsSlot(Run(s, steps[..|steps| - 1]), steps[|steps| - 1], at);
    }
  }

  /**
   A waiter that registered for `id` receives the first answer to it - whatever else
   happens before that answer and between it and the receiving - and no other: the
   second try finds nothing. Nobody else's channel and no queue sees the answer.
   */
  lemma AnswerReachesItsWaiter(
    s: State, id: RequestId, before: seq<Step>, response: Response, after: seq<Step>)
    requires Valid(s) && response.id == id
    requires forall step :: step in before ==> LeavesWaiting(step, id, RegisterWaiter(s, id).1)
    requires forall step :: step in after ==> LeavesSlot(step, RegisterWaiter(s, id).1)
    ensures var (registered, at) := RegisterWaiter(s, id);
            var waiting := Run(registered, before);
            var delivered := Deliver(waiting, response);
            var received := Receive(Run(delivered, after), at);
            && received.1 == Some(response)
            && Receive(received.0, at).1 == None
            && delivered.parked == waiting.parked && delivered.abandoned == waiting.abandoned
            && delivered.waiters == waiting.waiters - {id}
            && |delivered.channels| == |waiting.channels|
            && (forall k :: 0 <= k < |waiting.channels| && k != at ==>
                  delivered.channels[k] == waiting.channels[k])
  {
    var (registered, at) := RegisterWaiter(s, id);
    assert Listens(registered, id, at);
    RunKeepsListening(registered, before, id, at);
    var delivered := Deliver(Run(registered, before), response);
    SlotStays(delivered, after, at);
  }

  /**
   A waiter whose request is given up before the answer came finds its channel
   closed, and stays empty-handed whatever arrives.
   */
  lemma GivenUpWaiterIsHungUp(s: State, id: RequestId, before: seq<Step>, after: seq<Step>)
    requires Valid(s)
    requires forall step :: step in before ==> LeavesWaiting(step, id, RegisterWaiter(s, id).1)
    requires forall step :: step in after ==> LeavesSlot(step, RegisterWaiter(s, id).1)
    ensures var (registered, at) := RegisterWaiter(s, id);
            var later := Run(Abandon(Run(registered, before), id), after);
            && at < |later.channels| && !later.channels[at].sender
            && Receive(later, at).1 == None
            && id !in Abandon(Run(registered, before), id).waiters
  {
    var (registered, at) := RegisterWaiter(s, id);
    assert Listens(registered, id, at);
    RunKeepsListening(registered, before, id, at);
    SlotStays(Abandon(Run(registered, before), id), after, at);
  }

  /** A second waiter for an id takes the first one's place, which finds its channel closed. */
  lemma ReplacedWaiterIsHungUp(s: State, id: RequestId)
    requires Valid(s) && id in s.waiters
    ensures var (t, at) := RegisterWaiter(s, id);
            && at != s.waiters[id] && t.waiters == s.waiters[id := at]
            && s.waiters[id] < |t.channels| && !t.channels[s.waiters[id]].sender
            && Receive(t, s.waiters[id]).1 == None
  {
  }

  /** A client's cancellation does that to a request of ours, and nothing to any other. */
  lemma CancelGivesUpOurs(s: State, id: RequestId)
    ensures var (t, ours) := Cancel(s, id);
            && (ours <==> WasIssuedHere(s.nextId, id))
            && (ours ==> t == Abandon(s, id))
            && (!ours ==> t == s)
  {
  }

  // ---------------------------------------------------------------------
  // Parked answers
  // ---------------------------------------------------------------------

  /** The answer is parked, with at most `after` parked behind it. */
  ghost predicate KeptWith(parked: seq<Response>, response: Response, after: nat) {
    exists i :: 0 <= i < |parked| && parked[i] == response && |parked| - 1 - i <= after
  }

  function Deliveries(steps: seq<Step>): nat {
    if steps == [] then 0
    else Deliveries(steps[..|steps| - 1]) + if steps[|steps| - 1].DeliverStep? then 1 else 0
  }

  /** No second answer to `id`, and nobody collecting or giving it up. */
  predicate LeavesParked(step: Step, id: RequestId) {
    && (step.DeliverStep? ==> step.response.id != id)
    && (step.Take? || step.AbandonStep? || step.CancelStep? ==> step.id != id)
  }

  lemma ParkingKeeps(parked: seq<Response>, other: Response, response: Response, after: nat)
    requires KeptWith(parked, response, after) && other.id != response.id && after + 1 < MAX_PARKED
    ensures KeptWith(PushParked(parked, other), response, after + 1)
  {
    var i :| 0 <= i < |parked| && parked[i] == response && |parked| - 1 - i <= after;
    var pushed := PushParked(parked, other);
    if Position(parked, other.id) < |parked| {
      assert pushed[i] == response;
    } else {
      assert pushed[i - (|parked| + 1 - |pushed|)] == response;
    }
  }

  lemma TakingKeeps(parked: seq<Response>, at: nat, response: Response, after: nat)
    requires KeptWith(parked, response, after) && at < |parked| && parked[at] != response
    ensures KeptWith(RemoveAt(parked, at), response, after)
  {
    var i :| 0 <= i < |parked| && parked[i] == response && |parked| - 1 - i <= after;
    assert RemoveAt(parked, at)[if i < at then i else i - 1] == response;
  }

  lemma {:induction false} DroppingKeeps(
    parked: seq<Response>, id: RequestId, response: Response, i: nat) returns (j: nat)
    requires i < |parked| && parked[i] == response && response.id != id
    ensures j < |Without(parked, id)| && Without(parked, id)[j] == response
    ensures |Without(parked, id)| - j <= |parked| - i
  {
    if i == 0 {
      j := 0;
      WithoutIsFilter(parked[1..], id);
    } else {
      var k := DroppingKeeps(parked[1..], id, response, i - 1);
      j := if parked[0].id == id then k else k + 1;
    }
  }

  lemma StepKeepsParked(s: State, step: Step, response: Response, after: nat)
    requires KeptWith(s.parked, response, after) && LeavesParked(step, response.id)
    requires step.DeliverStep? ==> after + 1 < MAX_PARKED
    ensures KeptWith(Next(s, step).parked, response, if step.DeliverStep? then after + 1 else after)
  {
    match step
    case DeliverStep(other) => ParkingKeeps(s.parked, other, response, after);
    case Take(id) =>
      if Position(s.parked, id) < |s.parked| {
        TakingKeeps(s.parked, Position(s.parked, id), response, after);
      }
    case AbandonStep(id) => AbandoningKeepsParked(s, id, response, after);
    case CancelStep(id) => AbandoningKeepsParked(s, id, response, after);
    case _ =>
  }

  lemma AbandoningKeepsParked(s: State, id: RequestId, response: Response, after: nat)
    requires KeptWith(s.parked, response, after) && id != response.id
    ensures KeptWith(Abandon(s, id).parked, response, after)
  {
    var i :| 0 <= i < |s.parked| && s.parked[i] == response && |s.parked| - 1 - i <= after;
    var j := DroppingKeeps(s.parked, id, response, i);
  }

  lemma {:induction false} RunKeepsParked(s: State, steps: seq<Step>, response: Response)
    requires KeptWith(s.parked, response, 0) && Deliveries(steps) < MAX_PARKED
    requires forall step :: step in steps ==> LeavesParked(step, response.id)
    ensures KeptWith(Run(s, steps).parked, response, Deliveries(steps))
  {
    if steps != [] {
      var before := steps[..|steps| - 1];
      RunKeepsParked(s, before, response);
      StepKeepsParked(Run(s, before), steps[|steps| - 1], response, Deliveries(before));
    }
  }

  /**
   An answer to a request of ours that nobody was registered for, and nobody had
   given up, is there for whoever collects it, once - if fewer than 16 answers
   were delivered since.
   */
  lemma ParkedAnswerIsCollectedOnce(s: State, response: Response, steps: seq<Step>)
    requires Valid(s) && s.nextId + Allocations(steps) < U64
    requires WasIssuedHere(s.nextId, response.id)
    requires response.id !in s.waiters && response.id !in s.abandoned
    requires Position(s.parked, response.id) == |s.parked|
    requires Deliveries(steps) < 16
    requires forall step :: step in steps ==> LeavesParked(step, response.id)
    ensures var later := Run(Deliver(s, response), steps);
            var (left, taken) := TakeParked(later, response.id);
            taken == Some(response) && TakeParked(left, response.id).1 == None
  {
    var parked := Deliver(s, response);
    DeliverKeepsValid(s, response);
    assert parked.parked[|parked.parked| - 1] == response;
    RunKeepsParked(parked, steps, response);
    RunKeepsValid(parked, steps);
    TakenOnce(Run(parked, steps).parked, response);
  }

  lemma TakenOnce(parked: seq<Response>, response: Response)
    requires DistinctIds(parked) && response in parked
    ensures var at := Position(parked, response.id);
            && at < |parked| && parked[at] == response
            && Position(RemoveAt(parked, at), response.id) == |parked| - 1
  {
    var i :| 0 <= i < |parked| && parked[i] == response;
    assert Position(parked, response.id) == i;
    OthersAreOther(parked, i);
  }

  lemma OthersAreOther(parked: seq<Response>, i: nat)
    requires DistinctIds(parked) && i < |parked|
    ensures Position(RemoveAt(parked, i), parked[i].id) == |parked| - 1
  {
    var left := RemoveAt(parked, i);
    assert forall k :: 0 <= k < |left| ==> left[k] == if k < i then parked[k] else parked[k + 1];
  }
}
