/**
 The server's own errors, and what each says on the wire.
 */
module Errors {
  import opened Text
  import opened Messages

  datatype McpError =
    | JsonFault(text: string)
    | InvalidMessage(text: string)
    | InvalidRequest(id: RequestId, text: string)
    | MethodNotFound(text: string)
    | InvalidParams(text: string)
    | Internal(text: string)
    | ToolError(text: string)
    | ResourceNotFound(text: string)
    | PromptNotFound(text: string)
    | Passthrough(error: RpcError)
    | IoFault(text: string)
    | TransportClosed
    | TimedOut(text: string)
    | AuthFault(text: string)

  function ToRpcError(e: McpError): RpcError {
    match e
    case JsonFault(text) => RpcError(-32700, text, None)
    case InvalidMessage(text) => RpcError(-32600, text, None)
    case InvalidRequest(_, text) => RpcError(-32600, text, None)
    case MethodNotFound(text) => RpcError(-32601, "Method not found: " + text, None)
    case InvalidParams(text) => RpcError(-32602, text, None)
    case Internal(text) => RpcError(-32603, text, None)
    case ToolError(text) => RpcError(-32000, text, None)
    case ResourceNotFound(text) =>
      RpcError(-32002, "Resource not found: " + text, Some(Obj(map["uri" := Str(text)])))
    case PromptNotFound(text) =>
      RpcError(-32602, "Prompt not found: " + text, Some(Obj(map["name" := Str(text)])))
    case Passthrough(error) => error
    case IoFault(text) => RpcError(-32603, text, None)
    case TransportClosed => RpcError(-32603, "Transport closed", None)
    case TimedOut(text) =>
      RpcError(-32603, "Timed out: " + text, Some(Obj(map["reason" := Str("timeout")])))
    case AuthFault(text) => RpcError(-32003, "Auth error: " + text, None)
  }

  /** An error about the line just read, which is answered; any other ends the reading. */
  predicate IsMalformed(e: McpError) {
    e.JsonFault? || e.InvalidMessage? || e.InvalidRequest?
  }

  /** The id an unreadable line carried, as far as it could be read. */
  function ErrorId(e: McpError): RequestId {
    if e.InvalidRequest? then e.id else NullId
  }

  /** The code each kind of error has on the wire: the five of JSON-RPC 2.0, and three of this server's own. */
  lemma CodesOnTheWire(e: McpError)
    ensures ToRpcError(e).code == -32700 <==> e.JsonFault? || (e.Passthrough? && e.error.code == -32700)
    ensures e.InvalidMessage? || e.InvalidRequest? ==> ToRpcError(e).code == -32600
    ensures e.MethodNotFound? ==> ToRpcError(e).code == -32601
    ensures e.InvalidParams? || e.PromptNotFound? ==> ToRpcError(e).code == -32602
    ensures e.Internal? || e.IoFault? || e.TransportClosed? || e.TimedOut? ==>
              ToRpcError(e).code == -32603
    ensures e.ToolError? ==> ToRpcError(e).code == -32000
    ensures e.ResourceNotFound? ==> ToRpcError(e).code == -32002
    ensures e.AuthFault? ==> ToRpcError(e).code == -32003
    ensures e.Passthrough? ==> ToRpcError(e) == e.error
  {
  }
}
