/** The projection as a function: what each frame does to the state, and what every run keeps. */
module Projection {
  import opened Wrappers
  import opened Decimals
  import opened Events

  // ---- State ----

  /** A call that was read but not yet emitted: its approval may still be decided. */
  datatype Pending = Pending(callId: string, tool: string, approval: Option<Approval>, ts: string)

  datatype Session = Session(
    turnOpen: bool, turnNo: nat, text: string, reasoning: string, callSeq: nat,
    openCalls: seq<string>, denied: set<string>, preset: string, pending: seq<Pending>)

  datatype Ask = Ask(toolName: string, callId: string)

  /** A call as it arrived, with the time its event must carry. */
  datatype Arrival = Arrival(session: string, callId: string, tool: string, ts: string)

  /** From event number since on, results for this call id are denied. */
  datatype Denial = Denial(session: string, callId: string, since: nat)

  /** The projector's fields; and, for the proofs, the calls in order of arrival, which results
      took a call off the open list, and the denials. */
  datatype State = State(
    events: seq<Event>, sessions: map<string, Session>, asks: map<string, Ask>, curTs: string, now: string,
    graphQ: seq<GraphEvent>, graphIdx: nat, graphOpen: seq<string>,
    arrived: seq<Arrival>, closing: seq<bool>, denials: seq<Denial>)

  const NEW_SESSION: Session := Session(false, 0, "", "", 0, [], {}, "", [])

  function Get(s: State, sid: string): Session
  {
    if sid in s.sessions then s.sessions[sid] else NEW_SESSION
  }

  function Put(s: State, sid: string, st: Session): State { s.(sessions := s.sessions[sid := st]) }

  /** The time an event gets: the current frame's, or the time of the projection. */
  function Resolve(now: string, ts: string): string { if ts != "" then ts else now }

  // ---- Emitting ----

  function EmitAs(s: State, session: string, body: Body, closes: bool): State
  {
    s.(events := s.events + [Event(|s.events| + 1, Resolve(s.now, s.curTs), if session == "" then MAIN else session, body)],
       closing := s.closing + [closes])
  }

  function Emit(s: State, session: string, body: Body): State { EmitAs(s, session, body, false) }

  function EmitSpine(s: State): State { Emit(s, "", SpineUpdated(|s.events|, s.graphOpen)) }

  // ---- Calls, approvals, results ----

  function CallIdOf(sid: string, st: Session, callId: string): string
  {
    if callId != "" then callId else sid + "-t" + Decimal(st.turnNo) + "-c" + Decimal(st.callSeq + 1)
  }

  function OnCall(s: State, sid: string, name: string, callId: string): State
  {
    var st := Get(s, sid);
    var id := CallIdOf(sid, st, callId);
    var approval := if st.preset != "" then Some(Preset(st.preset)) else None;
    Put(s, sid, st.(callSeq := st.callSeq + 1, openCalls := st.openCalls + [id],
                    pending := st.pending + [Pending(id, name, approval, s.curTs)]))
    .(arrived := s.arrived + [Arrival(sid, id, name, Resolve(s.now, s.curTs))])
  }

  predicate AskMatches(ask: Ask, p: Pending)
  {
    if ask.callId != "" then p.callId == ask.callId else p.tool == ask.toolName
  }

  /** The last buffered call that the ask is about. */
  function LastMatch(ask: Ask, pending: seq<Pending>): Option<nat>
  {
    if pending == [] then None
    else if AskMatches(ask, pending[|pending| - 1]) then Some(|pending| - 1)
    else LastMatch(ask, pending[..|pending| - 1])
  }

  lemma {:induction false} LastMatchIsLast(ask: Ask, pending: seq<Pending>)
    ensures var m := LastMatch(ask, pending);
            && (m.None? <==> forall k | 0 <= k < |pending| :: !AskMatches(ask, pending[k]))
            && (m.Some? ==> m.value < |pending| && AskMatches(ask, pending[m.value]))
            && (m.Some? ==> forall k | m.value < k < |pending| :: !AskMatches(ask, pending[k]))
    decreases |pending|
  {
    if pending != [] && !AskMatches(ask, pending[|pending| - 1]) {
      LastMatchIsLast(ask, pending[..|pending| - 1]);
    }
  }

  function OnDecided(s: State, sid: string, id: string, outcome: string): State
  {
    if id !in s.asks then s
    else
      var ask := s.asks[id];
      var s1 := s.(asks := s.asks - {id});
      var st := Get(s, sid);
      LastMatchIsLast(ask, st.pending);
      var m := LastMatch(ask, st.pending);
      if m.None? then Put(s1, sid, st)
      else
        var p := st.pending[m.value];
        var granted := outcome == "allowed-once";
        var st1 := st.(pending := st.pending[m.value := p.(approval := Some(if granted then Granted else Denied))]);
        if granted then Put(s1, sid, st1)
        else Put(s1, sid, st1.(denied := st1.denied + {p.callId}))
             .(denials := s.denials + [Denial(sid, p.callId, |s.events|)])
  }

  /** Emits buffered calls, each with the time at which it arrived. */
  function EmitCalls(s: State, sid: string, calls: seq<Pending>): State
    decreases |calls|
  {
    if calls == [] then s
    else
      var p := calls[0];
      var s1 := Emit(s.(curTs := p.ts), sid, ToolCall(p.callId, p.tool, p.approval));
      EmitCalls(s1.(curTs := s.curTs), sid, calls[1..])
  }

  function FirstCall(pending: seq<Pending>, callId: string): (r: Option<nat>)
    ensures r.Some? ==> r.value < |pending| && pending[r.value].callId == callId
    ensures r.Some? ==> forall k | 0 <= k < r.value :: pending[k].callId != callId
    ensures r.None? ==> forall k | 0 <= k < |pending| :: pending[k].callId != callId
  {
    if pending == [] then None
    else if pending[0].callId == callId then Some(0)
    else
      var r := FirstCall(pending[1..], callId);
      if r.Some? then Some(r.value + 1) else None
  }

  /** Emits the first cut buffered calls of a session. */
  function FlushFirst(s: State, sid: string, cut: nat): State
    requires cut <= |Get(s, sid).pending|
  {
    var st := Get(s, sid);
    Put(EmitCalls(s, sid, st.pending[..cut]), sid, st.(pending := st.pending[cut..]))
  }

  /** Everything up to the call that the result is for; nothing if that call is not buffered. */
  function FlushTo(s: State, sid: string, callId: string): State
  {
    var found := FirstCall(Get(s, sid).pending, callId);
    if found.None? then s else FlushFirst(s, sid, found.value + 1)
  }

  function RemoveFirst(ids: seq<string>, id: string): seq<string>
  {
    if ids == [] then [] else if ids[0] == id then ids[1..] else [ids[0]] + RemoveFirst(ids[1..], id)
  }

  function OnResultBlock(s: State, sid: string, b: ResultBlock): State
  {
    if b.callId == "" then s
    else
      var s1 := FlushTo(s, sid, b.callId);
      var st := Get(s1, sid);
      var denied := b.callId in st.denied;
      var outcome := if denied then DeniedOutcome else if b.isError then Error else Completed;
      EmitAs(Put(s1, sid, st.(openCalls := RemoveFirst(st.openCalls, b.callId))),
             sid, ToolResult(b.callId, !denied && !b.isError, outcome), b.callId in st.openCalls)
  }

  function OnResults(s: State, sid: string, blocks: seq<ResultBlock>): State
    decreases |blocks|
  {
    if blocks == [] then s else OnResults(OnResultBlock(s, sid, blocks[0]), sid, blocks[1..])
  }

  // ---- Text ----

  function OnChunk(s: State, sid: string, c: Chunk): State
  {
    var st := Get(s, sid);
    match c
    case ReasoningDelta(t) => Put(s, sid, st.(reasoning := st.reasoning + t))
    case TextDelta(t) => Put(s, sid, st.(text := st.text + t))
    case Usage => Emit(Put(s, sid, st), "", UsageRecorded)
    case OtherChunk => Put(s, sid, st)
  }

  function Concat(texts: seq<string>): string
  {
    if texts == [] then "" else texts[0] + Concat(texts[1..])
  }

  function OnRecords(s: State, sid: string, records: seq<Record>): State
    decreases |records|
  {
    if records == [] then s
    else
      var st := Get(s, sid);
      var s1 := match records[0]
        case TextChunks(ts) => Put(s, sid, st.(text := st.text + Concat(ts)))
        case ReasoningChunks(ts) => Put(s, sid, st.(reasoning := st.reasoning + Concat(ts)))
        case Nested(c) => OnChunk(s, sid, c);
      OnRecords(s1, sid, records[1..])
  }

  /** The message's own content wins over what was buffered for it. */
  function OnContent(s: State, sid: string, reasoning: string, text: string): State
  {
    var st := Get(s, sid);
    if reasoning == "" && text == "" then Put(s, sid, st)
    else Emit(Put(s, sid, st.(text := "", reasoning := "")), sid, AssistantMessage(reasoning, text))
  }

  function FlushText(s: State, sid: string): State
  {
    var st := Get(s, sid);
    var s1 := Put(s, sid, st.(text := "", reasoning := ""));
    if st.text == "" && st.reasoning == "" then s1
    else Emit(s1, sid, AssistantMessage(st.reasoning, st.text))
  }

  // ---- Turns ----

  function CleanOutcome(kind: string): Outcome
  {
    if kind in {"stop", "completed", "tool-calls"} then Completed else Indeterminate
  }

  /** A result for every call still open, in order of arrival. */
  function CloseCalls(s: State, sid: string, ids: seq<string>, outcome: Outcome): State
    decreases |ids|
  {
    if ids == [] then s
    else
      var oc := if ids[0] in Get(s, sid).denied then DeniedOutcome else outcome;
      CloseCalls(EmitAs(s, sid, ToolResult(ids[0], oc == Completed, oc), true), sid, ids[1..], outcome)
  }

  predicate NothingToClose(st: Session) { !st.turnOpen && st.openCalls == [] && st.pending == [] }

  function CloseTurn(s: State, sid: string, kind: string): State
  {
    var st := Get(s, sid);
    if NothingToClose(st) then Put(s, sid, st)
    else
      var s1 := FlushText(FlushFirst(s, sid, |st.pending|), sid);
      var s2 := CloseCalls(s1, sid, Get(s1, sid).openCalls, CleanOutcome(kind));
      Put(s2, sid, Get(s2, sid).(openCalls := [], turnOpen := false))
  }

  predicate Unfinished(st: Session) { st.turnOpen || st.openCalls != [] || st.text != "" || st.reasoning != "" }

  function CloseSessions(s: State, sids: seq<string>): State
    decreases |sids|
  {
    if sids == [] then s
    else CloseSessions(if Unfinished(Get(s, sids[0])) then CloseTurn(s, sids[0], "aborted") else s, sids[1..])
  }

  // ---- Frames ----

  function OnSessionEvent(s: State, sid: string, ev: SessionEvent): State
  {
    var st := Get(s, sid);
    match ev
    case TurnStart => Put(s, sid, st.(turnOpen := true, turnNo := if sid == MAIN then st.turnNo + 1 else st.turnNo))
    case UserText(t) => if t != "" then Emit(s, sid, UserMessage(t)) else s
    case AssistantChunk(c) => OnChunk(s, sid, c)
    case AssistantAttempt(rs) => OnRecords(Put(s, sid, st), sid, rs)
    case AssistantContent(r, t) => OnContent(s, sid, r, t)
    case CallFrame(name, id) => OnCall(s, sid, name, id)
    case TurnEnd(kind) => CloseTurn(s, sid, if kind == "" then "stop" else kind)
    case ApprovalAsked(id, tool, call) => if id != "" then s.(asks := s.asks[id := Ask(tool, call)]) else s
    case ApprovalDecided(id, outcome) => OnDecided(s, sid, id, outcome)
    case PermissionPreset(p) => Put(s, sid, st.(preset := p))
    case ResultFrame(bs) => OnResults(Put(s, sid, st), sid, bs)
    case OtherSessionEvent => s
  }

  function SidOf(session: string): string { if session == "" then MAIN else session }

  function OnContentOf(s: State, c: Content): State
  {
    match c
    case SessionStatus(sid, idle) => if idle && sid == MAIN then CloseTurn(s, MAIN, "stop") else s
    case RuntimeExit(data) => Emit(s, "", TaskStatus(data))
    case SubagentFrame(parent, child, started) => Emit(s, child, Subagent(parent, started))
    case InSession(session, ev) => OnSessionEvent(s, SidOf(session), ev)
    case StreamChunk(session, c) => if session == MAIN then OnChunk(s, MAIN, c) else s
    case Unreadable => s
    case OtherFrame => s
  }
}
