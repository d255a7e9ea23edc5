/**
 What happens under one lock of `RequestBroker`: the queues it keeps and the ids
 it hands out. Whole methods are composed from these sections in `Broker`, and
 interleaved one section at a time in `Protocol`.
 */
module BrokerSections {
  import opened Text
  import opened Messages

  const MAX_ABANDONED: nat := 64
  const MAX_PARKED: nat := 16
  const MAX_DEFERRED: nat := 256

  // ---------------------------------------------------------------------
  // Ids
  // ---------------------------------------------------------------------

  const ID_PREFIX := "sml-"

  function IdOf(n: nat): RequestId {
    TextId(ID_PREFIX + Format(n))
  }

  predicate WasIssuedHere(nextId: nat, id: RequestId) {
    && id.TextId?
    && ID_PREFIX <= id.text
    && var n := ParseU64(id.text[|ID_PREFIX|..]);
    && n.Some?
    && n.value < nextId
  }

  lemma IdIsInjective(a: nat, b: nat)
    requires IdOf(a) == IdOf(b)
    ensures a == b
  {
    assert (ID_PREFIX + Format(a))[|ID_PREFIX|..] == Format(a);
    assert (ID_PREFIX + Format(b))[|ID_PREFIX|..] == Format(b);
    FormatIsInjective(a, b);
  }

  /** An id is recognised exactly once the counter has passed it. */
  lemma IssuedExactly(nextId: nat, n: nat)
    requires n < U64
    ensures WasIssuedHere(nextId, IdOf(n)) <==> n < nextId
  {
    assert (ID_PREFIX + Format(n))[|ID_PREFIX|..] == Format(n);
    ParseOfFormat(n);
  }

  lemma SpelledAs(nextId: nat, spelling: string)
    ensures WasIssuedHere(nextId, TextId(ID_PREFIX + spelling)) <==>
            ParseU64(spelling).Some? && ParseU64(spelling).value < nextId
  {
    assert (ID_PREFIX + spelling)[|ID_PREFIX|..] == spelling;
  }

  /** So are other spellings of the same number, which the server never printed. */
  lemma OtherSpellingsPass(nextId: nat, n: nat)
    requires n < U64
    ensures WasIssuedHere(nextId, TextId(ID_PREFIX + ("0" + Format(n)))) <==> n < nextId
    ensures WasIssuedHere(nextId, TextId(ID_PREFIX + ("+" + Format(n)))) <==> n < nextId
  {
    ParseOfSpellings(n);
    SpelledAs(nextId, "0" + Format(n));
    SpelledAs(nextId, "+" + Format(n));
  }

  // ---------------------------------------------------------------------
  // Lock sections
  // ---------------------------------------------------------------------

  /** Index of the first response to `id`, or the length of the queue. */
  function Position(parked: seq<Response>, id: RequestId): (at: nat)
    ensures at <= |parked|
    ensures at < |parked| ==> parked[at].id == id
    ensures forall i :: 0 <= i < at ==> parked[i].id != id
  {
    if parked == [] || parked[0].id == id then 0 else 1 + Position(parked[1..], id)
  }

  /** `parked.retain(|response| response.id != id)` */
  function Without(parked: seq<Response>, id: RequestId): seq<Response> {
    if parked == [] then []
    else (if parked[0].id == id then [] else [parked[0]]) + Without(parked[1..], id)
  }

  function KeepLast<T>(queue: seq<T>, most: nat): seq<T> {
    if |queue| > most then queue[|queue| - most..] else queue
  }

  /** The newest answer replaces an older one in place; otherwise it queues, oldest evicted. */
  function PushParked(parked: seq<Response>, response: Response): seq<Response> {
    var at := Position(parked, response.id);
    if at < |parked| then parked[at := response]
    else KeepLast(parked + [response], MAX_PARKED)
  }

  function PushAbandoned(abandoned: seq<RequestId>, id: RequestId): seq<RequestId> {
    KeepLast(abandoned + [id], MAX_ABANDONED)
  }

  /** The queue without the first occurrence of `id`, which it has. */
  function Forget(abandoned: seq<RequestId>, id: RequestId): seq<RequestId>
    requires id in abandoned
  {
    if abandoned[0] == id then abandoned[1..] else [abandoned[0]] + Forget(abandoned[1..], id)
  }

  function RemoveAt<T>(queue: seq<T>, at: nat): seq<T>
    requires at < |queue|
  {
    queue[..at] + queue[at + 1..]
  }

  // ---------------------------------------------------------------------
  // What the sections keep
  // ---------------------------------------------------------------------

  predicate DistinctIds(parked: seq<Response>) {
    forall i, j :: 0 <= i < j < |parked| ==> parked[i].id != parked[j].id
  }

  lemma {:induction false} WithoutIsFilter(parked: seq<Response>, id: RequestId)
    ensures |Without(parked, id)| <= |parked|
    ensures forall r :: r in Without(parked, id) <==> r in parked && r.id != id
    ensures DistinctIds(parked) ==> DistinctIds(Without(parked, id))
  {
    if parked != [] {
      WithoutIsFilter(parked[1..], id);
      assert parked == [parked[0]] + parked[1..];
    }
  }

  lemma {:induction false} ForgetDropsOne(abandoned: seq<RequestId>, id: RequestId)
    requires id in abandoned
    ensures |Forget(abandoned, id)| == |abandoned| - 1
    ensures forall x :: x in Forget(abandoned, id) ==> x in abandoned
    ensures multiset(Forget(abandoned, id)) == multiset(abandoned) - multiset{id}
  {
    assert abandoned == [abandoned[0]] + abandoned[1..];
    if abandoned[0] != id {
      ForgetDropsOne(abandoned[1..], id);
    }
  }

  /** Parking keeps what it had but for one entry: the older answer, or the oldest. */
  lemma PushParkedContents(parked: seq<Response>, response: Response)
    requires DistinctIds(parked) && |parked| <= MAX_PARKED
    ensures DistinctIds(PushParked(parked, response))
    ensures |PushParked(parked, response)| <= MAX_PARKED
    ensures response in PushParked(parked, response)
    ensures forall r :: r in PushParked(parked, response) ==> r == response || r in parked
  {
    var at := Position(parked, response.id);
    var pushed := PushParked(parked, response);
    if at < |parked| {
      assert pushed[at] == response;
    } else {
      assert pushed[|pushed| - 1] == response;
    }
  }
}
