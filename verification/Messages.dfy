/**
 JSON-RPC messages, as far as the server looks inside them.
 */
module Messages {
  import opened Text

  datatype Json =
    | Null
    | Bool(b: bool)
    | Int(n: int)
    | Real(r: real)
    | Str(text: string)
    | Arr(items: seq<Json>)
    | Obj(fields: map<string, Json>)

  datatype RequestId = NumberId(n: int) | TextId(text: string) | NullId

  datatype RpcError = RpcError(code: int, message: string, data: Option<Json>)

  datatype Response = Response(id: RequestId, result: Option<Json>, error: Option<RpcError>)

  datatype Message =
    | Request(id: RequestId, name: string, params: Option<Json>)
    | Notification(name: string, params: Option<Json>)
    | Answer(response: Response)

  const CANCELLED_NOTIFICATION := "notifications/cancelled"

  /** A JSON value read as a request id: an `i64`, a string, or null. */
  function ReadId(value: Json): Option<RequestId> {
    match value
    case Int(n) =>
      if -0x8000_0000_0000_0000 <= n < 0x8000_0000_0000_0000 then Some(NumberId(n)) else None
    case Str(text) => Some(TextId(text))
    case Null => Some(NullId)
    case _ => None
  }

  /** The request a message withdraws, if it is a readable cancellation. */
  function CancelledId(message: Message): Option<RequestId> {
    if message.Notification? && message.name == CANCELLED_NOTIFICATION &&
       message.params.Some? && message.params.value.Obj? &&
       "requestId" in message.params.value.fields
    then ReadId(message.params.value.fields["requestId"])
    else None
  }

  /** A request id as JSON. */
  function WriteId(id: RequestId): Json {
    match id
    case NumberId(n) => Int(n)
    case TextId(text) => Str(text)
    case NullId => Null
  }

  /** The notification either side withdraws a request of its own with. */
  function Withdrawal(id: RequestId, reason: string): Message {
    Notification("notifications/cancelled",
                 Some(Obj(map["requestId" := WriteId(id), "reason" := Str(reason)])))
  }

  /** A message withdraws `id` exactly if it is that notification and names `id`, which fits 64 bits. */
  lemma CancelsExactly(message: Message, id: RequestId)
    ensures CancelledId(message) == Some(id) <==>
            && message.Notification? && message.name == "notifications/cancelled"
            && message.params.Some? && message.params.value.Obj?
            && "requestId" in message.params.value.fields
            && message.params.value.fields["requestId"] == WriteId(id)
            && (id.NumberId? ==> -0x8000_0000_0000_0000 <= id.n < 0x8000_0000_0000_0000)
  {
  }
}
