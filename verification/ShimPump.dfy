/**
 The shim's pump: read what the client sends, rewrite it, pass it on; answer what
 cannot be read or rewritten. The loop must come to a filter and a map of its input.
 */
module ShimPump {
  import opened Text
  import opened Messages
  import opened Errors

  // ---------------------------------------------------------------------
  // One message
  // ---------------------------------------------------------------------

  /** How a run of the transform ended. */
  datatype Ending = Finished | Refused(error: McpError) | Panicked

  /** A transform rewrites in place: it leaves a message behind however it ends. */
  datatype Rewrite = Rewrite(message: Message, ending: Ending)

  /** The transform's answer to its n-th message; it may keep state of its own. */
  type Transform = (nat, Message) -> Rewrite

  datatype Verdict = Forward | Reply(answer: Message) | Drop

  function ErrorMessage(id: RequestId, e: McpError): Message {
    Answer(Response(id, None, Some(ToRpcError(e))))
  }

  const PANIC_TEXT := "the shim's message transform panicked"

  /** `apply`: the id is taken before the transform has a chance to rewrite it. */
  method Apply(transform: Transform, n: nat, message: Message) returns (verdict: Verdict, after: Message)
    ensures after == transform(n, message).message
    ensures verdict.Forward? <==> transform(n, message).ending.Finished?
    ensures verdict.Reply? <==> Fails(Some(transform), n, message) && message.Request?
    ensures verdict.Reply? ==>
              verdict.answer == ErrorMessage(message.id, Complaint(transform(n, message).ending))
  {
    var id := if message.Request? then Some(message.id) else None;
    var rewrite := transform(n, message);
    after := rewrite.message;
    var outcome: Option<McpError> :=
      match rewrite.ending
      case Finished => None
      case Refused(e) => Some(e)
      case Panicked => Some(Internal(PANIC_TEXT));
    match (outcome, id) {
      case (None, _) => verdict := Forward;
      case (Some(e), Some(id)) => verdict := Reply(ErrorMessage(id, e));
      case (Some(_), None) => verdict := Drop;
    }
  }

  // ---------------------------------------------------------------------
  // What the client's input should come to
  // ---------------------------------------------------------------------

  /** One read: a message, or an error in place of one. */
  datatype Read = Got(message: Message) | Fault(error: McpError)

  predicate Fails(transform: Option<Transform>, n: nat, message: Message) {
    transform.Some? && !transform.value(n, message).ending.Finished?
  }

  function Complaint(ending: Ending): McpError
    requires !ending.Finished?
  {
    if ending.Refused? then ending.error else Internal(PANIC_TEXT)
  }

  function Rewritten(transform: Option<Transform>, n: nat, message: Message): Message {
    if transform.Some? then transform.value(n, message).message else message
  }

  /** What is to be passed on for the n-th read, if anything. */
  function ForwardOf(transform: Option<Transform>, n: nat, read: Read): Option<Message> {
    if read.Got? && !Fails(transform, n, read.message)
    then Some(Rewritten(transform, n, read.message)) else None
  }

  /** The error owed for the n-th read, if one is. */
  function AnswerOf(transform: Option<Transform>, n: nat, read: Read): Option<Message> {
    if read.Fault? then
      if IsMalformed(read.error) then Some(ErrorMessage(ErrorId(read.error), read.error)) else None
    else if Fails(transform, n, read.message) && read.message.Request?
    then Some(ErrorMessage(read.message.id, Complaint(transform.value(n, read.message).ending)))
    else None
  }

  type Choice = (nat, Read) -> Option<Message>

  function Forwarding(transform: Option<Transform>): Choice {
    (n: nat, read: Read) => ForwardOf(transform, n, read)
  }

  function Answering(transform: Option<Transform>): Choice {
    (n: nat, read: Read) => AnswerOf(transform, n, read)
  }

  function Listed(message: Option<Message>): seq<Message> {
    if message.Some? then [message.value] else []
  }

  /** Map and filter. */
  function Collect(choice: Choice, input: seq<Read>): seq<Message> {
    if input == [] then []
    else
      var n := |input| - 1;
      Collect(choice, input[..n]) + Listed(choice(n, input[n]))
  }

  /** Where each collected message comes from. */
  function Sources(choice: Choice, input: seq<Read>): seq<nat> {
    if input == [] then []
    else
      var n := |input| - 1;
      Sources(choice, input[..n]) + if choice(n, input[n]).Some? then [n] else []
  }

  lemma {:induction false} SourcesAreExact(choice: Choice, input: seq<Read>)
    ensures forall n: nat :: n in Sources(choice, input) <==> n < |input| && choice(n, input[n]).Some?
    ensures forall i, j :: 0 <= i < j < |Sources(choice, input)| ==>
              Sources(choice, input)[i] < Sources(choice, input)[j]
  {
    if input != [] {
      var n := |input| - 1;
      SourcesAreExact(choice, input[..n]);
      var before := Sources(choice, input[..n]);
      forall i | 0 <= i < |before| ensures before[i] < n {
        assert before[i] in before;
      }
    }
  }

  lemma {:induction false} CollectedAre(choice: Choice, input: seq<Read>)
    ensures |Collect(choice, input)| == |Sources(choice, input)|
    ensures forall i :: 0 <= i < |Sources(choice, input)| ==>
              && Sources(choice, input)[i] < |input|
              && choice(Sources(choice, input)[i], input[Sources(choice, input)[i]]) ==
                 Some(Collect(choice, input)[i])
  {
    if input != [] {
      CollectedAre(choice, input[..|input| - 1]);
    }
  }

  /** One message for each read that is to have one, and no others, in the order of the reads. */
  lemma CollectIsExact(choice: Choice, input: seq<Read>)
    ensures var from := Sources(choice, input);
            && |Collect(choice, input)| == |from|
            && (forall i, j :: 0 <= i < j < |from| ==> from[i] < from[j])
            && (forall n: nat :: n in from <==> n < |input| && choice(n, input[n]).Some?)
            && (forall i :: 0 <= i < |from| ==>
                  from[i] < |input| && choice(from[i], input[from[i]]) == Some(Collect(choice, input)[i]))
  {
    SourcesAreExact(choice, input);
    CollectedAre(choice, input);
  }

  /** A line that could not be read as a message, as against a stream that could not be read. */
  predicate IsBadLine(read: Read) {
    read.Fault? && (read.error.JsonFault? || read.error.InvalidMessage? || read.error.InvalidRequest?)
  }

  /**
   Every message is passed on as the transform left it, answered with the id the
   client gave it and the transform's own error, or - having failed, and being no
   request - dropped; every bad line is answered, with its id if that could be read;
   and never two of these.
   */
  lemma EveryReadIsPlacedOnce(transform: Option<Transform>, n: nat, read: Read)
    ensures ForwardOf(transform, n, read) ==
            if read.Fault? then None
            else if transform.None? then Some(read.message)
            else if transform.value(n, read.message).ending.Finished?
            then Some(transform.value(n, read.message).message) else None
    ensures AnswerOf(transform, n, read).Some? <==>
            || IsBadLine(read)
            || (&& read.Got? && read.message.Request? && transform.Some?
                && !transform.value(n, read.message).ending.Finished?)
    ensures AnswerOf(transform, n, read).Some? ==>
              var answer := AnswerOf(transform, n, read).value;
              && answer.Answer? && answer.response.result.None? && answer.response.error.Some?
              && var error := answer.response.error.value;
              && (read.Got? ==> answer.response.id == read.message.id)
              && (read.Got? && transform.value(n, read.message).ending.Panicked? ==> error.code == -32603)
              && (read.Got? && transform.value(n, read.message).ending.Refused? ==>
                    error == ToRpcError(transform.value(n, read.message).ending.error))
              && (read.Fault? ==>
                    && error.code == (if read.error.JsonFault? then -32700 else -32600)
                    && answer.response.id ==
                       if read.error.InvalidRequest? then read.error.id else NullId)
    ensures ForwardOf(transform, n, read).Some? ==> AnswerOf(transform, n, read).None?
  {
  }

  /** What was read, as it was read. */
  function Sent(input: seq<Read>): seq<Message> {
    if input == [] then []
    else
      var last := input[|input| - 1];
      Sent(input[..|input| - 1]) + if last.Got? then [last.message] else []
  }

  /** With no transform, every message goes through unchanged. */
  lemma {:induction false} NoTransformForwardsAll(input: seq<Read>)
    ensures Collect(Forwarding(None), input) == Sent(input)
  {
    if input != [] {
      NoTransformForwardsAll(input[..|input| - 1]);
    }
  }

  // ---------------------------------------------------------------------
  // The loop
  // ---------------------------------------------------------------------

  /** A way out that may fail; a failed write leaves nothing behind. */
  class Outlet {
    const works: nat -> bool
    var attempts: nat
    var written: seq<Message>

    constructor (works: nat -> bool)
      ensures this.works == works && attempts == 0 && written == []
    {
      this.works, attempts, written := works, 0, [];
    }

    method Write(message: Message) returns (ok: bool)
      modifies this
      ensures ok == works(old(attempts)) && attempts == old(attempts) + 1
      ensures written == old(written) + if ok then [message] else []
    {
      ok := works(attempts);
      attempts := attempts + 1;
      if ok {
        written := written + [message];
      }
    }
  }

  lemma CollectGrows(transform: Option<Transform>, input: seq<Read>, n: nat)
    requires n < |input|
    ensures Collect(Forwarding(transform), input[..n + 1]) ==
            Collect(Forwarding(transform), input[..n]) + Listed(ForwardOf(transform, n, input[n]))
    ensures Collect(Answering(transform), input[..n + 1]) ==
            Collect(Answering(transform), input[..n]) + Listed(AnswerOf(transform, n, input[n]))
  {
    assert input[..n + 1][..n] == input[..n];
  }

  /** How the pump ended: quietly, on a read error, or because the writer failed. */
  datatype PumpEnd = Quiet | ReadFailed(error: McpError) | WriteFailed

  /** A read that ends the pump. */
  predicate Stops(read: Read) {
    read.Fault? && !IsMalformed(read.error)
  }

  /** How the pump should end, every write working. */
  function EndOf(read: Read): PumpEnd {
    if read.Fault? && !read.error.TransportClosed? then ReadFailed(read.error) else Quiet
  }

  /** The reads up to the first that ends the pump. */
  function Consumed(input: seq<Read>): (n: nat)
    ensures n <= |input|
    ensures forall i :: 0 <= i < n ==> !Stops(input[i])
    ensures n < |input| ==> Stops(input[n])
  {
    if input == [] || Stops(input[0]) then 0 else 1 + Consumed(input[1..])
  }

  /** Why the pump stopped at a read that did not end it. */
  ghost predicate Failed(
    writer: Outlet, back: Outlet, transform: Option<Transform>, n: nat, read: Read, end: PumpEnd)
    reads writer, back
  {
    || (&& ForwardOf(transform, n, read).Some? && end.WriteFailed?
        && writer.attempts > 0 && !writer.works(writer.attempts - 1))
    || (&& AnswerOf(transform, n, read).Some? && end.Quiet?
        && back.attempts > 0 && !back.works(back.attempts - 1))
  }

  /** One turn of the loop: `None` to go on. */
  method PumpOne(n: nat, read: Read, writer: Outlet, back: Outlet, transform: Option<Transform>)
    returns (end: Option<PumpEnd>)
    requires writer != back
    modifies writer, back
    ensures writer.written == old(writer.written) +
              if end.None? then Listed(ForwardOf(transform, n, read)) else []
    ensures back.written == old(back.written) +
              if end.None? then Listed(AnswerOf(transform, n, read)) else []
    ensures Stops(read) ==> end == Some(EndOf(read))
    ensures !Stops(read) && end.Some? ==> Failed(writer, back, transform, n, read, end.value)
  {
    match read {
      case Got(message) =>
        var msg, pass := message, true;
        if transform.Some? {
          var verdict;
          verdict, msg := Apply(transform.value, n, message);
          if verdict.Reply? {
            var sent := back.Write(verdict.answer);
            return if sent then None else Some(Quiet);
          }
          pass := verdict.Forward?;
        }
        if pass {
          var ok := writer.Write(msg);
          return if ok then None else Some(WriteFailed);
        }
      case Fault(e) =>
        if e.TransportClosed? {
          return Some(Quiet);
        } else if IsMalformed(e) {
          var sent := back.Write(ErrorMessage(ErrorId(e), e));
          return if sent then None else Some(Quiet);
        } else {
          return Some(ReadFailed(e));
        }
    }
    return None;
  }

  /**
   `pump`: what has gone out either way is the map and filter of the first `n`
   reads; the pump stopped there because the stream ended, a read failed, or the
   write of what that read came to failed. End of input is end of stream.
   */
  method Pump(input: seq<Read>, writer: Outlet, back: Outlet, transform: Option<Transform>)
    returns (end: PumpEnd, n: nat)
    requires writer != back
    modifies writer, back
    ensures n <= Consumed(input)
    ensures writer.written == old(writer.written) + Collect(Forwarding(transform), input[..n])
    ensures back.written == old(back.written) + Collect(Answering(transform), input[..n])
    ensures n < Consumed(input) ==> Failed(writer, back, transform, n, input[n], end)
    ensures n == Consumed(input) ==> end == if n < |input| then EndOf(input[n]) else Quiet
  {
    n := 0;
    ghost var out, home: seq<Message> := [], [];
    while n < |input|
      invariant n <= Consumed(input)
      invariant out == Collect(Forwarding(transform), input[..n])
      invariant home == Collect(Answering(transform), input[..n])
      invariant writer.written == old(writer.written) + out
      invariant back.written == old(back.written) + home
    {
      CollectGrows(transform, input, n);
      out := out + Listed(ForwardOf(transform, n, input[n]));
      home := home + Listed(AnswerOf(transform, n, input[n]));
      var ended := PumpOne(n, input[n], writer, back, transform);
      if ended.Some? {
        return ended.value, n;
      }
      n := n + 1;
    }
    end := Quiet;
  }

  /** While every write works, the pump comes to the map and filter of everything up to the end. */
  method PumpWhileWritesWork(input: seq<Read>, transform: Option<Transform>)
    returns (end: PumpEnd, forwarded: seq<Message>, answered: seq<Message>)
    ensures forwarded == Collect(Forwarding(transform), input[..Consumed(input)])
    ensures answered == Collect(Answering(transform), input[..Consumed(input)])
    ensures forall i :: 0 <= i < Consumed(input) ==> input[i].Got? || IsBadLine(input[i])
    ensures if Consumed(input) == |input| then end == Quiet
            else var last := input[Consumed(input)];
                 && last.Fault? && !IsBadLine(last)
                 && end == if last.error.TransportClosed? then Quiet else ReadFailed(last.error)
  {
    var writer := new Outlet(_ => true);
    var back := new Outlet(_ => true);
    var n;
    end, n := Pump(input, writer, back, transform);
    forwarded, answered := writer.written, back.written;
  }
}
