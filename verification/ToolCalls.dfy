/**
 A tool call made two ways: answered at once by `handle_call_tool`, or run as a
 task and collected with `tasks/result`. The second must return what the first
 would have, plus the key that says which task it belongs to.
 */
module ToolCalls {
  import opened Text
  import opened Messages
  import opened Errors
  import T = Tasks
  import L = TaskLifecycle
  import E = TaskEffects

  const RELATED_TASK := "io.modelcontextprotocol/related-task"

  // ---------------------------------------------------------------------
  // Results
  // ---------------------------------------------------------------------

  datatype ToolResult = ToolResult(
    content: seq<Json>,
    isError: bool,
    structured: Option<Json>,
    meta: Option<map<string, Json>>)

  function ErrorResult(text: string): ToolResult {
    ToolResult([Obj(map["type" := Str("text"), "text" := Str(text)])], true, None, None)
  }

  /** The JSON a result serializes to: absent fields are left out, and so is a false `isError`. */
  function Serialize(r: ToolResult): Json {
    Obj(map["content" := Arr(r.content)] +
        (if r.isError then map["isError" := Bool(true)] else map[]) +
        (if r.structured.Some? then map["structuredContent" := r.structured.value] else map[]) +
        (if r.meta.Some? then map["_meta" := Obj(r.meta.value)] else map[]))
  }

  /** What running the tool came to. */
  datatype Executed = Returned(result: ToolResult) | Raised(error: McpError) | Panicked(text: string)

  /** A tool's output schema: what is wrong with some structured content, if anything. */
  type OutputCheck = Option<Json> -> Option<string>

  function CheckOutput(name: string, output: OutputCheck, r: ToolResult): Option<McpError> {
    if r.isError then None
    else
      match output(r.structured)
      case None => None
      case Some(problem) =>
        Some(Internal("Tool `" + name + "` declares an outputSchema but returned " + problem))
  }

  datatype Reply = Success(value: Json) | Failure(error: RpcError)

  // ---------------------------------------------------------------------
  // The two ways
  // ---------------------------------------------------------------------

  /** `handle_call_tool`, from the moment the tool has run. */
  function Direct(name: string, output: OutputCheck, ran: Executed): Reply {
    match ran
    case Panicked(text) => Failure(ToRpcError(Internal("tool `" + name + "` panicked: " + text)))
    case Raised(e) =>
      if e.ToolError? then Checked(name, output, ErrorResult(e.text))
      else if e.InvalidParams? then Checked(name, output, ErrorResult("Invalid arguments: " + e.text))
      else Failure(ToRpcError(e))
    case Returned(r) => Checked(name, output, r)
  }

  function Checked(name: string, output: OutputCheck, r: ToolResult): Reply {
    match CheckOutput(name, output, r)
    case Some(e) => Failure(ToRpcError(e))
    case None => Success(Serialize(r))
  }

  /** What a task worker records. */
  function Recorded(name: string, output: OutputCheck, ran: Executed): (T.Status, T.Outcome) {
    match ran
    case Panicked(text) =>
      (T.Failed, T.Error(RpcError(-32603, "task worker panicked: " + text, None)))
    case Raised(e) =>
      if e.ToolError? || e.InvalidParams? then (T.Failed, T.Value(Serialize(ErrorResult(e.text))))
      else (T.Failed, T.Error(ToRpcError(e)))
    case Returned(r) =>
      if r.isError then (T.Failed, T.Value(Serialize(r)))
      else
        match CheckOutput(name, output, r)
        case Some(e) => (T.Failed, T.Error(ToRpcError(e)))
        case None => (T.Completed, T.Value(Serialize(r)))
  }

  function TaskMark(taskId: string): Json {
    Obj(map["taskId" := Str(taskId)])
  }

  /** `handle_task_result`, from the moment the outcome is known. */
  function Collected(outcome: T.Outcome, taskId: string): Reply {
    match outcome
    case Value(v) =>
      if v.Obj? then
        var meta := if "_meta" in v.fields && v.fields["_meta"].Obj?
                    then v.fields["_meta"].fields else map[];
        Success(Obj(v.fields["_meta" := Obj(meta[RELATED_TASK := TaskMark(taskId)])]))
      else Success(v)
    case Error(e) => Failure(ToRpcError(Passthrough(WithTaskData(e, taskId))))
  }

  function WithTaskData(e: RpcError, taskId: string): RpcError {
    var data := if e.data.Some? then e.data.value else Obj(map[]);
    e.(data := Some(if data.Obj? then Obj(data.fields[RELATED_TASK := TaskMark(taskId)]) else data))
  }

  // ---------------------------------------------------------------------
  // Sameness
  // ---------------------------------------------------------------------

  /** The keys of an object's `_meta`, but for the task's own. */
  function OtherMeta(v: Json): map<string, Json>
    requires v.Obj?
  {
    if "_meta" in v.fields && v.fields["_meta"].Obj?
    then v.fields["_meta"].fields - {RELATED_TASK} else map[]
  }

  /** `marked` is `plain` with the task's key added and nothing else touched. */
  ghost predicate Marks(plain: Json, marked: Json, taskId: string) {
    && plain.Obj? && marked.Obj?
    && marked.fields - {"_meta"} == plain.fields - {"_meta"}
    && OtherMeta(marked) == OtherMeta(plain)
    && "_meta" in marked.fields && marked.fields["_meta"].Obj?
    && RELATED_TASK in marked.fields["_meta"].fields
    && marked.fields["_meta"].fields[RELATED_TASK] == TaskMark(taskId)
  }

  /** The same error but for the task's key, which structured diagnostics of another shape keep out. */
  ghost predicate MarksError(plain: RpcError, marked: RpcError, taskId: string) {
    && marked.code == plain.code && marked.message == plain.message && marked.data.Some?
    && match plain.data {
         case None => marked.data.value == Obj(map[RELATED_TASK := TaskMark(taskId)])
         case Some(Obj(fields)) =>
           marked.data.value == Obj(fields[RELATED_TASK := TaskMark(taskId)])
         case Some(other) => marked.data.value == other
       }
  }

  /** Where the two ways word things differently. */
  predicate WordedDifferently(ran: Executed) {
    ran.Panicked? || (ran.Raised? && ran.error.InvalidParams?)
  }

  lemma SerializedMeta(r: ToolResult, taskId: string)
    ensures Collected(T.Value(Serialize(r)), taskId).Success?
    ensures Marks(Serialize(r), Collected(T.Value(Serialize(r)), taskId).value, taskId)
  {
    var plain := Serialize(r).fields;
    var marked := Collected(T.Value(Serialize(r)), taskId).value.fields;
    assert marked - {"_meta"} == plain - {"_meta"};
  }

  /**
   For every tool outcome: the same kind of answer with the same code, and word
   for word the same answer apart from the two wordings and the task's key.
   */
  lemma TaskAnswersLikeTheCall(name: string, output: OutputCheck, ran: Executed, taskId: string)
    ensures var direct := Direct(name, output, ran);
            var (status, outcome) := Recorded(name, output, ran);
            var collected := Collected(outcome, taskId);
            && T.IsTerminal(status)
            && (direct.Success? <==> collected.Success?)
            && (direct.Failure? ==> collected.error.code == direct.error.code)
            && (direct.Success? && !WordedDifferently(ran) ==>
                  Marks(direct.value, collected.value, taskId))
            && (direct.Failure? && !WordedDifferently(ran) ==>
                  MarksError(direct.error, collected.error, taskId))
            && (ran.Raised? && ran.error.InvalidParams? ==>
                  && direct == Success(Serialize(ErrorResult("Invalid arguments: " + ran.error.text)))
                  && Marks(Serialize(ErrorResult(ran.error.text)), collected.value, taskId))
            && (ran.Panicked? ==>
                  && direct == Failure(RpcError(
                       -32603, "tool `" + name + "` panicked: " + ran.text, None))
                  && collected == Failure(RpcError(
                       -32603, "task worker panicked: " + ran.text,
                       Some(Obj(map[RELATED_TASK := TaskMark(taskId)])))))
  {
    match ran
    case Returned(r) => SerializedMeta(r, taskId);
    case Raised(e) =>
      if e.ToolError? || e.InvalidParams? {
        SerializedMeta(ErrorResult(e.text), taskId);
      }
    case Panicked(_) =>
  }

  /**
   Through the store: a task still running when its worker finished gives the
   answer above whatever happened between - unless it has been thrown away, its
   lifetime is over or somebody else is asking, and then it is not found.
   */
  lemma TaskResultSurvivesTheStore(
    config: T.Config, t: T.Table, finish: T.Step, steps: seq<T.Step>, ask: T.Step,
    name: string, output: OutputCheck, ran: Executed)
    requires ask.op.TryResult?
    requires finish.op == T.Finish(ask.op.id, Recorded(name, output, ran).0, Recorded(name, output, ran).1)
    requires ask.op.id in t && T.Running(t[ask.op.id])
    requires L.NeverReused(steps, ask.op.id)
    ensures var id := ask.op.id;
            var later := L.Run(config, T.Apply(config, t, finish), steps);
            T.ReplyTo(config, later, ask) ==
              if id in later && !T.Expired(t[id], ask.now) && t[id].owner == ask.op.who
              then T.TheResult(Some(Recorded(name, output, ran).1))
              else T.Refused(T.NotFound)
  {
    TaskAnswersLikeTheCall(name, output, ran, ask.op.id);
    var finished := T.Apply(config, t, finish);
    var id := ask.op.id;
    assert T.IsTerminal(finished[id].task.status);
    if id in L.Run(config, finished, steps) {
      L.RunContinues(config, finished, steps, id);
    }
  }

  // ---------------------------------------------------------------------
  // What a tool's outcome comes to, said outright
  // ---------------------------------------------------------------------

  /** The tool did its job, and what it returned is what it declares. */
  predicate Succeeds(output: OutputCheck, ran: Executed) {
    ran.Returned? && !ran.result.isError && output(ran.result.structured).None?
  }

  /** A direct call is a protocol error for a panic, a protocol-level error, or an output that breaks its schema. */
  lemma DirectFailsExactly(name: string, output: OutputCheck, ran: Executed)
    ensures Direct(name, output, ran).Failure? <==>
            match ran
            case Panicked(_) => true
            case Raised(e) => !e.ToolError? && !e.InvalidParams?
            case Returned(r) => !r.isError && output(r.structured).Some?
    ensures ran.Returned? && Direct(name, output, ran).Failure? ==>
              Direct(name, output, ran).error.code == -32603
    ensures Succeeds(output, ran) ==> Direct(name, output, ran) == Success(Serialize(ran.result))
  {
  }

  /**
   `tasks/get` shows a finished task as completed exactly if its tool succeeded, and
   as failed otherwise, for as long as the task is found.
   */
  lemma TaskStatusTells(
    config: T.Config, t: T.Table, finish: T.Step, steps: seq<T.Step>, ask: T.Step,
    name: string, output: OutputCheck, ran: Executed)
    requires L.Sound(t) && L.AllProper(steps) && ask.op.Get?
    requires finish.op == T.Finish(ask.op.id, Recorded(name, output, ran).0, Recorded(name, output, ran).1)
    requires ask.op.id in t && T.Running(t[ask.op.id]) && L.NeverReused(steps, ask.op.id)
    ensures var later := L.Run(config, T.Apply(config, t, finish), steps);
            E.Found(later, ask.op.id, ask.op.who, ask.now) ==>
              var shown := T.ReplyTo(config, later, ask);
              && shown.TheTask?
              && shown.task.status == if Succeeds(output, ran) then T.Completed else T.Failed
  {
    E.FinishTakesEffect(config, t, finish, steps, ask.now, ask.stamp, ask.op.who);
  }

  /** A tool's own error, or a complaint about its arguments, is a result the model gets to read. */
  lemma ToolErrorsAreResults(name: string, output: OutputCheck, text: string)
    ensures var shown := (words: string) =>
              Success(Obj(map["content" := Arr([Obj(map["type" := Str("text"), "text" := Str(words)])]),
                              "isError" := Bool(true)]));
            && Direct(name, output, Raised(ToolError(text))) == shown(text)
            && Direct(name, output, Raised(InvalidParams(text))) == shown("Invalid arguments: " + text)
  {
    assert Serialize(ErrorResult(text)).fields ==
           map["content" := Arr([Obj(map["type" := Str("text"), "text" := Str(text)])]),
               "isError" := Bool(true)];
    var words := "Invalid arguments: " + text;
    assert Serialize(ErrorResult(words)).fields ==
           map["content" := Arr([Obj(map["type" := Str("text"), "text" := Str(words)])]),
               "isError" := Bool(true)];
  }

  /** A result read back from the JSON it serializes to. */
  function ReadResult(json: Json): Option<ToolResult> {
    if !json.Obj? || "content" !in json.fields || !json.fields["content"].Arr? then None
    else
      var fields := json.fields;
      Some(ToolResult(
        fields["content"].items,
        "isError" in fields && fields["isError"] == Bool(true),
        if "structuredContent" in fields then Some(fields["structuredContent"]) else None,
        if "_meta" in fields && fields["_meta"].Obj? then Some(fields["_meta"].fields) else None))
  }

  /** Nothing of a result is lost in serializing it, and a result that is no error does not say so. */
  lemma ResultReadsBack(r: ToolResult)
    ensures ReadResult(Serialize(r)) == Some(r)
    ensures "isError" in Serialize(r).fields <==> r.isError
  {
  }
}
