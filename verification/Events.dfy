/** The neutral event log, and the frames and graph events that it is projected from. Only
    the payload fields that drive calls, approvals, turns and the open-node list are kept. */
module Events {
  import opened Wrappers

  const MAIN: string := "main"

  datatype Approval = Granted | Denied | Preset(policy: string)
  datatype Outcome = Completed | Error | DeniedOutcome | Indeterminate

  datatype Body =
    | TaskCreated
    | SpineUpdated(updatedAtSeq: nat, openNodes: seq<string>)
    | TaskStatus(reason: string)
    | Subagent(parent: string, started: bool)
    | UserMessage(text: string)
    | AssistantMessage(reasoning: string, text: string)
    | UsageRecorded
    | ToolCall(callId: string, tool: string, approval: Option<Approval>)
    | ToolResult(callId: string, ok: bool, outcome: Outcome)
    | Graph(kind: GraphKind)
    | HandoffCheckpointed(logSeq: nat)
    | HandoffOther(name: string)

  datatype Event = Event(number: nat, ts: string, session: string, body: Body)

  predicate IsHandoff(e: Event) { e.body.HandoffCheckpointed? || e.body.HandoffOther? }

  /** Every event's number is its line number. */
  predicate Numbered(log: seq<Event>)
  {
    forall k | 0 <= k < |log| :: log[k].number == k + 1
  }

  // ---- Input frames ----

  /** A frame's receive time: absent, not a time, or a time with its instant. */
  datatype FrameTs = NoTs | BadTs(raw: string) | At(raw: string, instant: nat)

  datatype Chunk = ReasoningDelta(text: string) | TextDelta(text: string) | Usage | OtherChunk
  datatype Record = TextChunks(texts: seq<string>) | ReasoningChunks(texts: seq<string>) | Nested(chunk: Chunk)
  datatype ResultBlock = ResultBlock(callId: string, isError: bool)

  datatype SessionEvent =
    | TurnStart
    | UserText(text: string)
    | AssistantChunk(chunk: Chunk)
    | AssistantAttempt(records: seq<Record>)
    | AssistantContent(reasoning: string, text: string)
    | CallFrame(name: string, callId: string)
    | TurnEnd(kind: string)
    | ApprovalAsked(id: string, toolName: string, callId: string)
    | ApprovalDecided(id: string, outcome: string)
    | PermissionPreset(preset: string)
    | ResultFrame(blocks: seq<ResultBlock>)
    | OtherSessionEvent

  datatype Content =
    | Unreadable
    | SessionStatus(session: string, idle: bool)
    | RuntimeExit(data: string)
    | SubagentFrame(parent: string, child: string, started: bool)
    | InSession(session: string, event: SessionEvent)
    | StreamChunk(session: string, chunk: Chunk)
    | OtherFrame

  datatype Frame = Frame(ts: FrameTs, content: Content)

  // ---- Graph events ----

  datatype GraphKind =
    | NodeDeclared(node: string)
    | NodeStarted(node: string, session: string)
    | NodeResult(node: string, outcome: string)
    | NodeReopened(node: string)
    | NodeAudit(node: string)
    | GraphNotice
    | UnknownKind

  /** instant 0 stands for a missing or unreadable time, which sorts first. */
  datatype GraphEvent = GraphEvent(kind: GraphKind, instant: nat, time: string)
}
