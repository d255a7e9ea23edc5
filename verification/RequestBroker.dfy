/**
 The broker as an object: each method changes the fields in place, and its
 contract says which whole-method operation of `Broker` that is.
 */
module RequestBrokers {
  import opened Text
  import opened Messages
  import S = BrokerSections
  import B = Broker

  class RequestBroker {
    var nextId: nat
    var parked: seq<Response>
    var deferred: seq<Message>
    var abandoned: seq<RequestId>
    var waiters: map<RequestId, nat>
    var channels: seq<B.Channel>

    ghost function Model(): B.State
      reads this
    {
      B.State(nextId, parked, deferred, abandoned, waiters, channels)
    }

    constructor ()
      ensures Model() == B.Initial()
      ensures B.Valid(Model())
    {
      nextId, parked, deferred, abandoned, waiters, channels := 0, [], [], [], map[], [];
    }

    method NextRequestId() returns (id: RequestId)
      modifies this
      ensures (Model(), id) == B.NextRequestId(old(Model()))
      ensures old(B.Valid(Model())) && old(nextId) + 1 < U64 ==> B.Valid(Model())
    {
      if B.Valid(Model()) && nextId + 1 < U64 {
        B.AllocateKeepsValid(Model());
      }
      id := S.IdOf(nextId);
      nextId := (nextId + 1) % U64;
    }

    method TakeParked(id: RequestId) returns (response: Option<Response>)
      modifies this
      ensures (Model(), response) == B.TakeParked(old(Model()), id)
      ensures old(B.Valid(Model())) ==> B.Valid(Model())
    {
      if B.Valid(Model()) {
        B.TakeKeepsValid(Model(), id);
      }
      var at := S.Position(parked, id);
      if at == |parked| {
        return None;
      }
      response := Some(parked[at]);
      parked := parked[..at] + parked[at + 1..];
    }

    /** The returned channel's receiver belongs to the caller. */
    method RegisterWaiter(id: RequestId) returns (at: nat)
      modifies this
      ensures (Model(), at) == B.RegisterWaiter(old(Model()), id)
      ensures old(B.Valid(Model())) ==> B.Valid(Model())
    {
      if B.Valid(Model()) {
        B.RegisterKeepsValid(Model(), id);
      }
      at := |channels|;
      channels := B.Hangup(channels, waiters, id) + [B.Channel(None, true, true)];
      waiters := waiters[id := at];
    }

    method Deliver(response: Response)
      modifies this
      ensures Model() == B.Deliver(old(Model()), response)
      ensures old(B.Valid(Model())) ==> B.Valid(Model())
    {
      if B.Valid(Model()) {
        B.DeliverKeepsValid(Model(), response);
      }
      if response.id in waiters {
        var at := waiters[response.id];
        waiters := waiters - {response.id};
        if at < |channels| {
          channels := channels[at := B.TrySend(channels[at], response)];
        }
      } else {
        Park(response);
      }
    }

    method Park(response: Response)
      modifies this
      ensures Model() == B.Park(old(Model()), response)
    {
      if !S.WasIssuedHere(nextId, response.id) {
        return;
      }
      var dropped := ForgetAbandoned(response.id);
      if dropped {
        return;
      }
      var at := S.Position(parked, response.id);
      if at < |parked| {
        parked := parked[at := response];
        return;
      }
      parked := parked + [response];
      ghost var all := parked;
      while |parked| > S.MAX_PARKED
        invariant |parked| <= |all| && parked == all[|all| - |parked|..]
        invariant |parked| < |all| ==> |parked| >= S.MAX_PARKED
        invariant Model() == old(Model()).(parked := parked)
      {
        parked := parked[1..];
      }
    }

    method ForgetAbandoned(id: RequestId) returns (found: bool)
      modifies this
      ensures found == (id in old(abandoned))
      ensures Model() ==
              if found then old(Model()).(abandoned := S.Forget(old(abandoned), id))
              else old(Model())
    {
      found := id in abandoned;
      if found {
        abandoned := S.Forget(abandoned, id);
      }
    }

    method Abandon(id: RequestId)
      modifies this
      ensures Model() == B.Abandon(old(Model()), id)
      ensures old(B.Valid(Model())) ==> B.Valid(Model())
    {
      if B.Valid(Model()) {
        B.AbandonKeepsValid(Model(), id);
      }
      parked := S.Without(parked, id);
      channels := B.Hangup(channels, waiters, id);
      waiters := waiters - {id};
      abandoned := abandoned + [id];
      ghost var all := abandoned;
      ghost var before := Model();
      while |abandoned| > S.MAX_ABANDONED
        invariant |abandoned| <= |all| && abandoned == all[|all| - |abandoned|..]
        invariant |abandoned| < |all| ==> |abandoned| >= S.MAX_ABANDONED
        invariant Model() == before.(abandoned := abandoned)
      {
        abandoned := abandoned[1..];
      }
    }

    method Cancel(id: RequestId) returns (cancelled: bool)
      modifies this
      ensures (Model(), cancelled) == B.Cancel(old(Model()), id)
      ensures old(B.Valid(Model())) ==> B.Valid(Model())
    {
      cancelled := S.WasIssuedHere(nextId, id);
      if cancelled {
        Abandon(id);
      }
    }

    /** `refused` is the message handed back when there is no room for it. */
    method Defer(message: Message) returns (refused: Option<Message>)
      modifies this
      ensures (Model(), refused) == B.Defer(old(Model()), message)
      ensures old(B.Valid(Model())) ==> B.Valid(Model())
    {
      if |deferred| >= S.MAX_DEFERRED {
        return Some(message);
      }
      deferred := deferred + [message];
      refused := None;
    }

    method NextDeferred() returns (message: Option<Message>)
      modifies this
      ensures (Model(), message) == B.NextDeferred(old(Model()))
      ensures old(B.Valid(Model())) ==> B.Valid(Model())
    {
      if deferred == [] {
        return None;
      }
      message := Some(deferred[0]);
      deferred := deferred[1..];
    }
  }
}
