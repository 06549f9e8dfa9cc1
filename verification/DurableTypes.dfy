/** The data of the durable run engine: the `agent_runs` row, the transcript table,
    the job rows that advance a run, and an abstract view of rig's `AgentRun`. */
module DurableTypes {
  import opened Wrappers

  type RunId = nat
  type JobId = nat
  /** `me`: one fresh UUID per attempt. It is both the run-lease token and, because a
      worker handles one job at a time, the key under which the attempt owns its job row. */
  type Token = nat
  /** Microseconds on the database clock. */
  type Time = nat

  datatype Status = Queued | Running | Waiting | Succeeded | Failed | Cancelled {
    predicate Terminal() {
      Succeeded? || Failed? || Cancelled?
    }
  }

  datatype FailReason =
    TurnBudget | TokenBudget | UnknownKind | CorruptState | Gateway | Protocol | UnstorableContent

  datatype Role = SystemRole | UserRole | AssistantRole

  datatype ToolResult = ToolResult(call: string, text: string)

  /** A committed rig message; a user message may carry tool results. */
  datatype Message =
    | System(text: string)
    | User(text: string, results: seq<ToolResult>)
    | Assistant(text: string)

  function MessageRole(m: Message): Role {
    match m
    case System(_) => SystemRole
    case User(_, _) => UserRole
    case Assistant(_) => AssistantRole
  }

  /** One open call of the current tool batch; `question` is the parsed `ask` argument, if it parses. */
  datatype ToolCall =
    | Execute(id: string, name: string, question: Option<string>)
    | Malformed(id: string)

  const ASK := "ask"

  predicate IsAsk(call: ToolCall) {
    call.Execute? && call.name == ASK
  }

  /** rig's sans-I/O run, as far as the engine can tell: the committed messages, the
      open calls of the batch in call order, the results collected so far, the tokens used. */
  datatype AgentRun = AgentRun(
    messages: seq<Message>, open: seq<ToolCall>, results: seq<ToolResult>, tokens: nat)

  /** rig only ever appends committed messages. */
  predicate Grows(before: AgentRun, after: AgentRun) {
    before.messages <= after.messages
  }

  /** `AgentRun::answer`: close open call `k`; the last answer of a batch commits the tool-result message. */
  function CloseCall(run: AgentRun, k: nat, text: string): (r: AgentRun)
    requires k < |run.open|
    ensures Grows(run, r)
  {
    var open := run.open[..k] + run.open[k + 1..];
    var results := run.results + [ToolResult(run.open[k].id, text)];
    if open == [] then
      AgentRun(run.messages + [User("", results)], [], [], run.tokens)
    else
      AgentRun(run.messages, open, results, run.tokens)
  }

  datatype Row = Row(
    status: Status,
    run: AgentRun,
    pendingCall: Option<string>,
    pendingQuestion: Option<string>,
    cancelRequested: bool,
    lockedBy: Option<Token>,
    lockedAt: Option<Time>,
    startedAt: Option<Time>,
    finishedAt: Option<Time>,
    failReason: Option<FailReason>,
    output: Option<string>)

  datatype TranscriptRow = TranscriptRow(seqNo: nat, role: Role, message: Message)

  datatype Job = Job(owner: Option<Token>, lockedAt: Time, errorCount: nat)

  /** Everything the database holds about one run. */
  datatype RunDb = RunDb(
    row: Row,
    transcript: seq<TranscriptRow>,
    jobs: map<JobId, Job>,
    nextJob: JobId,
    now: Time)

  datatype Config = Config(takeover: nat, reclaimWindow: nat, maxRetries: nat, tokenLimit: nat)
}
