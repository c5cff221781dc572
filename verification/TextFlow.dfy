/** Where streamed text goes over a whole run: into one message, in order; replaced by a
    message's own content; still buffered; or lost at the end of input. */
module TextFlow {
  import opened Wrappers
  import opened Events
  import opened Projection
  import opened Protocol
  import opened Graph
  import opened Run

  datatype Text = Text(reasoning: string, text: string)

  const NO_TEXT: Text := Text("", "")

  function Plus(x: Text, y: Text): Text { Text(x.reasoning + y.reasoning, x.text + y.text) }

  // ---- What the frames bring ----

  function ChunkText(c: Chunk): Text
  {
    match c
    case ReasoningDelta(t) => Text(t, "")
    case TextDelta(t) => Text("", t)
    case _ => NO_TEXT
  }

  function RecordText(r: Record): Text
  {
    match r
    case TextChunks(ts) => Text("", Concat(ts))
    case ReasoningChunks(ts) => Text(Concat(ts), "")
    case Nested(c) => ChunkText(c)
  }

  function RecordsText(records: seq<Record>): Text
  {
    if records == [] then NO_TEXT else Plus(RecordText(records[0]), RecordsText(records[1..]))
  }

  /** The text that a frame streams to a session. */
  function Delta(c: Content, sid: string): Text
  {
    match c
    case InSession(session, AssistantChunk(chunk)) => if SidOf(session) == sid then ChunkText(chunk) else NO_TEXT
    case InSession(session, AssistantAttempt(records)) => if SidOf(session) == sid then RecordsText(records) else NO_TEXT
    case StreamChunk(session, chunk) => if session == MAIN == sid then ChunkText(chunk) else NO_TEXT
    case _ => NO_TEXT
  }

  /** A frame's message with content of its own. */
  function OwnContent(c: Content, sid: string): seq<Text>
  {
    match c
    case InSession(session, AssistantContent(reasoning, text)) =>
      if SidOf(session) == sid && (reasoning != "" || text != "") then [Text(reasoning, text)] else []
    case _ => []
  }

  function Deltas(frames: seq<Frame>, sid: string): Text
  {
    if frames == [] then NO_TEXT
    else Plus(Deltas(frames[..|frames| - 1], sid), Delta(frames[|frames| - 1].content, sid))
  }

  function OwnContents(frames: seq<Frame>, sid: string): seq<Text>
  {
    if frames == [] then [] else OwnContents(frames[..|frames| - 1], sid) + OwnContent(frames[|frames| - 1].content, sid)
  }

  // ---- What becomes of it ----

  /** A stretch of streamed text: it is a message, or a message's own content took its place. */
  datatype Segment = Flushed(own: Text) | Replaced(own: Text, content: Text)

  function Streamed(segments: seq<Segment>): Text
  {
    if segments == [] then NO_TEXT
    else Plus(Streamed(segments[..|segments| - 1]), segments[|segments| - 1].own)
  }

  function Shown(segments: seq<Segment>): seq<Text>
  {
    if segments == [] then []
    else
      var last := segments[|segments| - 1];
      Shown(segments[..|segments| - 1]) + [if last.Flushed? then last.own else last.content]
  }

  function Taken(segments: seq<Segment>): seq<Text>
  {
    if segments == [] then []
    else
      var last := segments[|segments| - 1];
      Taken(segments[..|segments| - 1]) + if last.Flushed? then [] else [last.content]
  }

  predicate IsMessage(e: Event, sid: string) { e.session == sid && e.body.AssistantMessage? }

  /** The assistant messages in the log of a session, in order. */
  function MessagesIn(log: seq<Event>, sid: string): seq<Text>
  {
    if log == [] then []
    else
      var e := log[|log| - 1];
      MessagesIn(log[..|log| - 1], sid) + if IsMessage(e, sid) then [Text(e.body.reasoning, e.body.text)] else []
  }

  function Buffer(s: State, sid: string): Text { Text(Get(s, sid).reasoning, Get(s, sid).text) }

  /** The segments and then the buffer are all that was streamed, in order; the messages in the
      log are one for each segment; and the contents that replaced text are all that came. */
  ghost predicate Accounts(segments: seq<Segment>, messages: seq<Text>, buffer: Text, deltas: Text, contents: seq<Text>)
  {
    && Plus(Streamed(segments), buffer) == deltas
    && Shown(segments) == messages && Taken(segments) == contents
    && forall k | 0 <= k < |segments| :: segments[k] != Flushed(NO_TEXT)
  }

  ghost predicate Accounted(messages: seq<Text>, buffer: Text, deltas: Text, contents: seq<Text>)
  {
    exists segments :: Accounts(segments, messages, buffer, deltas, contents)
  }

  lemma AccountsSnoc(segments: seq<Segment>, last: Segment, messages: seq<Text>, buffer: Text, deltas: Text, contents: seq<Text>)
    requires Accounts(segments, messages, buffer, deltas, contents) && last.own == buffer && last != Flushed(NO_TEXT)
    ensures Accounted(messages + [if last.Flushed? then last.own else last.content], NO_TEXT, deltas,
                      contents + if last.Flushed? then [] else [last.content])
  {
    var more := segments + [last];
    assert more[..|segments|] == segments;
    assert Plus(Streamed(more), NO_TEXT) == Plus(Streamed(segments), buffer);
    assert Accounts(more, messages + [if last.Flushed? then last.own else last.content], NO_TEXT, deltas,
                    contents + if last.Flushed? then [] else [last.content]);
  }

  // ---- What a step does to the text of a session ----

  /** Text is added to the buffer; or the buffer becomes a message; or content replaces it. */
  ghost predicate Flows(messages: seq<Text>, buffer: Text, messages': seq<Text>, buffer': Text, delta: Text, content: seq<Text>)
  {
    || (messages' == messages && buffer' == Plus(buffer, delta) && content == [])
    || (messages' == messages + [buffer] && buffer != NO_TEXT && buffer' == NO_TEXT && delta == NO_TEXT && content == [])
    || (content != [] && content == content[..1] && messages' == messages + content && buffer' == NO_TEXT && delta == NO_TEXT)
  }

  lemma FlowsAccounted(messages: seq<Text>, buffer: Text, deltas: Text, contents: seq<Text>,
                       messages': seq<Text>, buffer': Text, delta: Text, content: seq<Text>)
    requires Accounted(messages, buffer, deltas, contents) && Flows(messages, buffer, messages', buffer', delta, content)
    ensures Accounted(messages', buffer', Plus(deltas, delta), contents + content)
  {
    var segments :| Accounts(segments, messages, buffer, deltas, contents);
    assert contents + [] == contents && Plus(deltas, NO_TEXT) == deltas;
    if messages' == messages && buffer' == Plus(buffer, delta) && content == [] {
      assert Plus(Streamed(segments), buffer') == Plus(Plus(Streamed(segments), buffer), delta);
      assert Accounts(segments, messages', buffer', Plus(deltas, delta), contents);
    } else if content == [] {
      AccountsSnoc(segments, Flushed(buffer), messages, buffer, deltas, contents);
    } else {
      assert content == [content[0]];
      AccountsSnoc(segments, Replaced(buffer, content[0]), messages, buffer, deltas, contents);
    }
  }

  ghost predicate FlowsAt(s: State, s': State, sid: string, delta: Text, content: seq<Text>)
  {
    Flows(MessagesIn(s.events, sid), Buffer(s, sid), MessagesIn(s'.events, sid), Buffer(s', sid), delta, content)
  }

  ghost predicate CalmAt(s: State, s': State, sid: string)
  {
    MessagesIn(s'.events, sid) == MessagesIn(s.events, sid) && Buffer(s', sid) == Buffer(s, sid)
  }

  /** No text moves. */
  ghost predicate Calm(s: State, s': State) { forall sid :: CalmAt(s, s', sid) }

  lemma CalmTrans(s: State, t: State, u: State)
    requires Calm(s, t) && Calm(t, u)
    ensures Calm(s, u)
  {
    hide Buffer;
    forall sid ensures CalmAt(s, u, sid) {
      assert CalmAt(s, t, sid) && CalmAt(t, u, sid);
    }
  }

  lemma CalmFlows(s: State, s': State, sid: string)
    requires Calm(s, s')
    ensures FlowsAt(s, s', sid, NO_TEXT, [])
  {
    assert CalmAt(s, s', sid);
    hide MessagesIn;
  }

  /** A step, with calm before and behind it. */
  lemma FlowsBetween(s: State, t: State, u: State, v: State, sid: string, delta: Text, content: seq<Text>)
    requires Calm(s, t) && FlowsAt(t, u, sid, delta, content) && Calm(u, v)
    ensures FlowsAt(s, v, sid, delta, content)
  {
    assert CalmAt(s, t, sid) && CalmAt(u, v, sid);
    hide Buffer, MessagesIn;
  }

  lemma MessageSnoc(log: seq<Event>, e: Event, sid: string)
    ensures MessagesIn(log + [e], sid) ==
            MessagesIn(log, sid) + if IsMessage(e, sid) then [Text(e.body.reasoning, e.body.text)] else []
  {
    assert (log + [e])[..|log|] == log;
  }

  lemma EmitCalm(s: State, session: string, body: Body, closes: bool)
    requires !body.AssistantMessage?
    ensures Calm(s, EmitAs(s, session, body, closes))
  {
    var s' := EmitAs(s, session, body, closes);
    forall sid ensures CalmAt(s, s', sid) {
      MessageSnoc(s.events, s'.events[|s.events|], sid);
    }
  }

  lemma PutCalm(s: State, sid: string, st: Session)
    requires st.text == Get(s, sid).text && st.reasoning == Get(s, sid).reasoning
    ensures Calm(s, Put(s, sid, st))
  {
    forall other ensures CalmAt(s, Put(s, sid, st), other) {
    }
  }

  lemma SideCalm(s: State, s': State)
    requires s'.events == s.events && s'.sessions == s.sessions
    ensures Calm(s, s')
  {
    forall sid ensures CalmAt(s, s', sid) {
    }
  }

  lemma {:induction false} EmitCallsCalm(s: State, sid: string, calls: seq<Pending>)
    ensures Calm(s, EmitCalls(s, sid, calls))
    decreases |calls|
  {
    SideCalm(s, s);
    if calls != [] {
      var p := calls[0];
      var s1 := s.(curTs := p.ts);
      var s2 := Emit(s1, sid, ToolCall(p.callId, p.tool, p.approval));
      var s3 := s2.(curTs := s.curTs);
      SideCalm(s, s1);
      EmitCalm(s1, sid, ToolCall(p.callId, p.tool, p.approval), false);
      SideCalm(s2, s3);
      hide Calm, EmitAs;
      EmitCallsCalm(s3, sid, calls[1..]);
      CalmTrans(s, s1, s2);
      CalmTrans(s, s2, s3);
      CalmTrans(s, s3, EmitCalls(s, sid, calls));
    }
  }

  lemma FlushFirstCalm(s: State, sid: string, cut: nat)
    requires cut <= |Get(s, sid).pending|
    ensures Calm(s, FlushFirst(s, sid, cut))
  {
    var st := Get(s, sid);
    var s1 := EmitCalls(s, sid, st.pending[..cut]);
    EmitCallsCalm(s, sid, st.pending[..cut]);
    EmitCallsPut(s, sid, st.pending[..cut], sid, st);
    hide Calm, EmitCalls;
    PutCalm(s1, sid, st.(pending := st.pending[cut..]));
    CalmTrans(s, s1, FlushFirst(s, sid, cut));
  }

  lemma OnResultBlockCalm(s: State, sid: string, b: ResultBlock)
    ensures Calm(s, OnResultBlock(s, sid, b))
  {
    var found := FirstCall(Get(s, sid).pending, b.callId);
    if found.Some? {
      FlushFirstCalm(s, sid, found.value + 1);
    }
    SideCalm(s, s);
    hide FlushFirst, Calm;
    var s1 := FlushTo(s, sid, b.callId);
    if b.callId != "" {
      var st := Get(s1, sid);
      var s2 := Put(s1, sid, st.(openCalls := RemoveFirst(st.openCalls, b.callId)));
      PutCalm(s1, sid, st.(openCalls := RemoveFirst(st.openCalls, b.callId)));
      var denied := b.callId in st.denied;
      var outcome := if denied then DeniedOutcome else if b.isError then Error else Completed;
      EmitCalm(s2, sid, ToolResult(b.callId, !denied && !b.isError, outcome), b.callId in st.openCalls);
      CalmTrans(s, s1, s2);
      CalmTrans(s, s2, OnResultBlock(s, sid, b));
    }
  }

  lemma {:induction false} OnResultsCalm(s: State, sid: string, blocks: seq<ResultBlock>)
    ensures Calm(s, OnResults(s, sid, blocks))
    decreases |blocks|
  {
    SideCalm(s, s);
    if blocks != [] {
      hide Calm, OnResultBlock;
      var s1 := OnResultBlock(s, sid, blocks[0]);
      OnResultBlockCalm(s, sid, blocks[0]);
      OnResultsCalm(s1, sid, blocks[1..]);
      CalmTrans(s, s1, OnResults(s1, sid, blocks[1..]));
    }
  }

  lemma {:induction false} CloseCallsCalm(s: State, sid: string, ids: seq<string>, outcome: Outcome)
    ensures Calm(s, CloseCalls(s, sid, ids, outcome))
    decreases |ids|
  {
    SideCalm(s, s);
    if ids != [] {
      hide Calm, EmitAs;
      var oc := if ids[0] in Get(s, sid).denied then DeniedOutcome else outcome;
      var s1 := EmitAs(s, sid, ToolResult(ids[0], oc == Completed, oc), true);
      EmitCalm(s, sid, ToolResult(ids[0], oc == Completed, oc), true);
      CloseCallsCalm(s1, sid, ids[1..], outcome);
      CalmTrans(s, s1, CloseCalls(s1, sid, ids[1..], outcome));
    }
  }

  // ---- Text that moves ----

  /** A message of a session is emitted, and its buffer emptied. */
  lemma MessageEmitted(s: State, sid: string, reasoning: string, text: string, other: string)
    requires sid != ""
    ensures var s' := Emit(Put(s, sid, Get(s, sid).(text := "", reasoning := "")), sid, AssistantMessage(reasoning, text));
            && MessagesIn(s'.events, other) ==
               MessagesIn(s.events, other) + (if other == sid then [Text(reasoning, text)] else [])
            && Buffer(s', other) == if other == sid then NO_TEXT else Buffer(s, other)
  {
    var s' := Emit(Put(s, sid, Get(s, sid).(text := "", reasoning := "")), sid, AssistantMessage(reasoning, text));
    MessageSnoc(s.events, s'.events[|s.events|], other);
    hide MessagesIn;
  }

  lemma FlowsOf(s: State, s': State, sid: string, other: string, content: seq<Text>)
    requires MessagesIn(s'.events, other) ==
             MessagesIn(s.events, other) + (if other != sid then [] else if content == [] then [Buffer(s, sid)] else content)
    requires Buffer(s', other) == if other == sid then NO_TEXT else Buffer(s, other)
    requires |content| <= 1 && (content == [] ==> Buffer(s, sid) != NO_TEXT)
    ensures FlowsAt(s, s', other, NO_TEXT, if other == sid then content else [])
  {
    hide MessagesIn, Buffer;
    assert Plus(Buffer(s, other), NO_TEXT) == Buffer(s, other);
  }

  lemma PlainBuffer(s: State, sid: string)
    ensures Buffer(s, sid) == NO_TEXT <==> Get(s, sid).text == "" && Get(s, sid).reasoning == ""
  {
  }

  lemma FlushTextFlows(s: State, sid: string, other: string)
    requires sid != ""
    ensures FlowsAt(s, FlushText(s, sid), other, NO_TEXT, [])
  {
    var st, s' := Get(s, sid), FlushText(s, sid);
    PlainBuffer(s, sid);
    MessageEmitted(s, sid, st.reasoning, st.text, other);
    hide FlowsAt, Calm, MessagesIn;
    if Buffer(s, sid) == NO_TEXT {
      PutCalm(s, sid, st.(text := "", reasoning := ""));
      CalmFlows(s, s', other);
    } else {
      FlowsOf(s, s', sid, other, []);
    }
  }

  lemma CloseTurnFlows(s: State, sid: string, kind: string, other: string)
    requires sid != ""
    ensures FlowsAt(s, CloseTurn(s, sid, kind), other, NO_TEXT, [])
  {
    var st := Get(s, sid);
    hide Calm, FlowsAt, FlushFirst, FlushText, CloseCalls;
    if NothingToClose(st) {
      PutCalm(s, sid, st);
      CalmFlows(s, Put(s, sid, st), other);
    } else {
      var s0 := FlushFirst(s, sid, |st.pending|);
      var s1 := FlushText(s0, sid);
      var s2 := CloseCalls(s1, sid, Get(s1, sid).openCalls, CleanOutcome(kind));
      var s3 := Put(s2, sid, Get(s2, sid).(openCalls := [], turnOpen := false));
      FlushFirstCalm(s, sid, |st.pending|);
      FlushTextFlows(s0, sid, other);
      CloseCallsCalm(s1, sid, Get(s1, sid).openCalls, CleanOutcome(kind));
      PutCalm(s2, sid, Get(s2, sid).(openCalls := [], turnOpen := false));
      CalmTrans(s1, s2, s3);
      FlowsBetween(s, s0, s1, s3, other, NO_TEXT, []);
    }
  }

  /** Deltas go to the buffer of their session. */
  ghost predicate Adds(s: State, s': State, sid: string, delta: Text)
  {
    forall other :: AddsAt(s, s', sid, delta, other)
  }

  ghost predicate AddsAt(s: State, s': State, sid: string, delta: Text, other: string)
  {
    && MessagesIn(s'.events, other) == MessagesIn(s.events, other)
    && Buffer(s', other) == (if other == sid then Plus(Buffer(s, sid), delta) else Buffer(s, other))
  }

  lemma AddsTrans(s: State, t: State, u: State, sid: string, x: Text, y: Text)
    requires Adds(s, t, sid, x) && Adds(t, u, sid, y)
    ensures Adds(s, u, sid, Plus(x, y))
  {
    hide Buffer, MessagesIn;
    forall other ensures AddsAt(s, u, sid, Plus(x, y), other) {
      assert AddsAt(s, t, sid, x, other) && AddsAt(t, u, sid, y, other);
      assert AddsAt(s, t, sid, x, sid);
      assert Plus(Plus(Buffer(s, sid), x), y) == Plus(Buffer(s, sid), Plus(x, y));
    }
  }

  lemma CalmAdds(s: State, s': State, sid: string)
    requires Calm(s, s')
    ensures Adds(s, s', sid, NO_TEXT)
  {
    hide Buffer, MessagesIn;
    forall other ensures AddsAt(s, s', sid, NO_TEXT, other) {
      assert CalmAt(s, s', other);
    }
  }

  lemma AddsFlows(s: State, s': State, sid: string, delta: Text, other: string)
    requires Adds(s, s', sid, delta)
    ensures FlowsAt(s, s', other, if other == sid then delta else NO_TEXT, [])
  {
    hide Buffer, MessagesIn;
    assert AddsAt(s, s', sid, delta, other);
  }

  lemma PutAdds(s: State, sid: string, st: Session, delta: Text)
    requires Text(st.reasoning, st.text) == Plus(Buffer(s, sid), delta)
    ensures Adds(s, Put(s, sid, st), sid, delta)
  {
    hide MessagesIn;
    forall other ensures AddsAt(s, Put(s, sid, st), sid, delta, other) {
    }
  }

  lemma OnChunkAdds(s: State, sid: string, c: Chunk)
    ensures Adds(s, OnChunk(s, sid, c), sid, ChunkText(c))
  {
    var st := Get(s, sid);
    hide Adds, Calm;
    match c {
      case ReasoningDelta(t) => PutAdds(s, sid, st.(reasoning := st.reasoning + t), ChunkText(c));
      case TextDelta(t) => PutAdds(s, sid, st.(text := st.text + t), ChunkText(c));
      case Usage =>
        PutCalm(s, sid, st);
        EmitCalm(Put(s, sid, st), "", UsageRecorded, false);
        CalmTrans(s, Put(s, sid, st), OnChunk(s, sid, c));
        CalmAdds(s, OnChunk(s, sid, c), sid);
      case OtherChunk =>
        PutCalm(s, sid, st);
        CalmAdds(s, Put(s, sid, st), sid);
    }
  }

  lemma {:induction false} OnRecordsAdds(s: State, sid: string, records: seq<Record>)
    ensures Adds(s, OnRecords(s, sid, records), sid, RecordsText(records))
    decreases |records|
  {
    hide Adds, Calm, OnChunk;
    if records == [] {
      SideCalm(s, s);
      CalmAdds(s, s, sid);
    } else {
      var st := Get(s, sid);
      var s1 := match records[0]
        case TextChunks(ts) => Put(s, sid, st.(text := st.text + Concat(ts)))
        case ReasoningChunks(ts) => Put(s, sid, st.(reasoning := st.reasoning + Concat(ts)))
        case Nested(c) => OnChunk(s, sid, c);
      match records[0] {
        case TextChunks(ts) => PutAdds(s, sid, st.(text := st.text + Concat(ts)), RecordText(records[0]));
        case ReasoningChunks(ts) => PutAdds(s, sid, st.(reasoning := st.reasoning + Concat(ts)), RecordText(records[0]));
        case Nested(c) => OnChunkAdds(s, sid, c);
      }
      OnRecordsAdds(s1, sid, records[1..]);
      AddsTrans(s, s1, OnRecords(s1, sid, records[1..]), sid, RecordText(records[0]), RecordsText(records[1..]));
    }
  }

  lemma OnContentFlows(s: State, sid: string, reasoning: string, text: string, other: string)
    requires sid != ""
    ensures var own := if sid == other && (reasoning != "" || text != "") then [Text(reasoning, text)] else [];
            FlowsAt(s, OnContent(s, sid, reasoning, text), other, NO_TEXT, own)
  {
    var s' := OnContent(s, sid, reasoning, text);
    MessageEmitted(s, sid, reasoning, text, other);
    hide FlowsAt, Calm, MessagesIn;
    if reasoning == "" && text == "" {
      PutCalm(s, sid, Get(s, sid));
      CalmFlows(s, s', other);
    } else {
      FlowsOf(s, s', sid, other, [Text(reasoning, text)]);
    }
  }

  // ---- Frames ----

  lemma OnSessionEventFlows(s: State, c: Content, sid: string)
    requires c.InSession?
    ensures FlowsAt(s, OnSessionEvent(s, SidOf(c.session), c.event), sid, Delta(c, sid), OwnContent(c, sid))
  {
    hide Calm, Adds, FlowsAt, OnChunk, OnRecords, OnContent, CloseTurn, OnResults, OnCall, OnDecided, RecordsText;
    var at, ev := SidOf(c.session), c.event;
    var st, s' := Get(s, at), OnSessionEvent(s, at, ev);
    match ev {
      case AssistantChunk(chunk) =>
        OnChunkAdds(s, at, chunk);
        AddsFlows(s, s', at, ChunkText(chunk), sid);
      case AssistantAttempt(rs) =>
        PutCalm(s, at, st);
        OnRecordsAdds(Put(s, at, st), at, rs);
        AddsFlows(Put(s, at, st), s', at, RecordsText(rs), sid);
        SideCalm(s', s');
        FlowsBetween(s, Put(s, at, st), s', s', sid, Delta(c, sid), []);
      case AssistantContent(r, t) => OnContentFlows(s, at, r, t, sid);
      case TurnEnd(kind) => CloseTurnFlows(s, at, if kind == "" then "stop" else kind, sid);
      case _ =>
        CalmEvent(s, at, ev);
        CalmFlows(s, s', sid);
    }
  }

  lemma CalmEvent(s: State, sid: string, ev: SessionEvent)
    requires !ev.AssistantChunk? && !ev.AssistantAttempt? && !ev.AssistantContent? && !ev.TurnEnd?
    ensures Calm(s, OnSessionEvent(s, sid, ev))
  {
    hide Calm, OnResults, OnCall, OnDecided;
    var st := Get(s, sid);
    SideCalm(s, s);
    PutCalm(s, sid, st);
    match ev {
      case TurnStart => PutCalm(s, sid, st.(turnOpen := true, turnNo := if sid == MAIN then st.turnNo + 1 else st.turnNo));
      case UserText(t) => EmitCalm(s, sid, UserMessage(t), false);
      case CallFrame(name, id) => OnCallCalm(s, sid, name, id);
      case ApprovalAsked(id, tool, call) => SideCalm(s, OnSessionEvent(s, sid, ev));
      case ApprovalDecided(id, outcome) => OnDecidedCalm(s, sid, id, outcome);
      case PermissionPreset(p) => PutCalm(s, sid, st.(preset := p));
      case ResultFrame(bs) =>
        OnResultsCalm(Put(s, sid, st), sid, bs);
        CalmTrans(s, Put(s, sid, st), OnSessionEvent(s, sid, ev));
      case OtherSessionEvent =>
    }
  }

  lemma OnCallCalm(s: State, sid: string, name: string, callId: string)
    ensures Calm(s, OnCall(s, sid, name, callId))
  {
    var s' := OnCall(s, sid, name, callId);
    hide MessagesIn;
    forall other ensures CalmAt(s, s', other) {
    }
  }

  lemma OnDecidedCalm(s: State, sid: string, id: string, outcome: string)
    ensures Calm(s, OnDecided(s, sid, id, outcome))
  {
    var s' := OnDecided(s, sid, id, outcome);
    hide MessagesIn;
    if id in s.asks {
      LastMatchIsLast(s.asks[id], Get(s, sid).pending);
    }
    forall other ensures CalmAt(s, s', other) {
    }
  }

  lemma OnContentOfFlows(s: State, c: Content, sid: string)
    ensures FlowsAt(s, OnContentOf(s, c), sid, Delta(c, sid), OwnContent(c, sid))
  {
    hide Calm, Adds, FlowsAt, OnChunk, OnSessionEvent, CloseTurn;
    var s' := OnContentOf(s, c);
    SideCalm(s, s);
    CalmFlows(s, s, sid);
    match c {
      case SessionStatus(session, idle) => CloseTurnFlows(s, MAIN, "stop", sid);
      case RuntimeExit(data) =>
        EmitCalm(s, "", TaskStatus(data), false);
        CalmFlows(s, s', sid);
      case SubagentFrame(parent, child, started) =>
        EmitCalm(s, child, Subagent(parent, started), false);
        CalmFlows(s, s', sid);
      case InSession(session, ev) => OnSessionEventFlows(s, c, sid);
      case StreamChunk(session, chunk) =>
        OnChunkAdds(s, MAIN, chunk);
        AddsFlows(s, OnChunk(s, MAIN, chunk), MAIN, ChunkText(chunk), sid);
      case Unreadable =>
      case OtherFrame =>
    }
  }

  // ---- Graph events ----

  lemma EnteredCalm(s: State)
    requires s.graphIdx < |s.graphQ|
    ensures Calm(s, Entered(s))
  {
    EnteredEvent(s);
    hide Entered;
    forall sid ensures CalmAt(s, Entered(s), sid) {
      MessageSnoc(s.events, Entered(s).events[|s.events|], sid);
    }
  }

  lemma ApplyNextCalm(s: State)
    requires s.graphIdx < |s.graphQ|
    ensures Calm(s, ApplyNext(s))
  {
    var g := s.graphQ[s.graphIdx];
    hide Calm;
    if g.kind.UnknownKind? {
      SideCalm(s, ApplyNext(s));
    } else {
      ApplyNextIs(s);
      var e := Entered(s);
      var shown := if ShowsSpine(g.kind) then EmitSpine(e) else e;
      EnteredCalm(s);
      SideCalm(e, e);
      EmitCalm(e, "", SpineUpdated(|e.events|, e.graphOpen), false);
      SideCalm(shown, ApplyNext(s));
      hide Entered, EmitAs, ApplyNext;
      CalmTrans(s, e, shown);
      CalmTrans(s, shown, ApplyNext(s));
    }
  }

  lemma {:induction false} FlushBeforeCalm(s: State, edge: nat)
    ensures Calm(s, FlushBefore(s, edge))
    decreases |s.graphQ| - s.graphIdx
  {
    SideCalm(s, s);
    if Due(s, edge) {
      hide Calm, ApplyNext;
      ApplyNextCalm(s);
      ApplyKeepsQueue(s);
      FlushBeforeCalm(ApplyNext(s), edge);
      CalmTrans(s, ApplyNext(s), FlushBefore(s, edge));
    }
  }

  lemma {:induction false} FlushRemainingCalm(s: State)
    ensures Calm(s, FlushRemaining(s))
    decreases |s.graphQ| - s.graphIdx
  {
    SideCalm(s, s);
    if s.graphIdx < |s.graphQ| {
      hide Calm, ApplyNext;
      ApplyNextCalm(s);
      ApplyKeepsQueue(s);
      FlushRemainingCalm(ApplyNext(s));
      CalmTrans(s, ApplyNext(s), FlushRemaining(s));
    }
  }

  lemma MergedCalm(s: State, fr: Frame)
    ensures Calm(s, Merged(s, fr))
  {
    hide Calm, FlushBefore;
    if fr.ts.At? {
      FlushBeforeCalm(s, fr.ts.instant);
      SideCalm(FlushBefore(s, fr.ts.instant), Merged(s, fr));
      CalmTrans(s, FlushBefore(s, fr.ts.instant), Merged(s, fr));
    } else {
      SideCalm(s, Merged(s, fr));
    }
  }

  // ---- Over a whole run ----

  ghost predicate TextKept(s: State, frames: seq<Frame>, sid: string)
  {
    Accounted(MessagesIn(s.events, sid), Buffer(s, sid), Deltas(frames, sid), OwnContents(frames, sid))
  }

  lemma TextKeptStep(s: State, s': State, init: seq<Frame>, frames: seq<Frame>, sid: string)
    requires frames != [] && init == frames[..|frames| - 1] && TextKept(s, init, sid)
    requires FlowsAt(s, s', sid, Delta(frames[|frames| - 1].content, sid), OwnContent(frames[|frames| - 1].content, sid))
    ensures TextKept(s', frames, sid)
  {
    var c := frames[|frames| - 1].content;
    hide Flows, Accounted, Delta, OwnContent, MessagesIn;
    FlowsAccounted(MessagesIn(s.events, sid), Buffer(s, sid), Deltas(init, sid), OwnContents(init, sid),
                   MessagesIn(s'.events, sid), Buffer(s', sid), Delta(c, sid), OwnContent(c, sid));
  }

  lemma NoTextAtStart(now: string, q: seq<GraphEvent>, sid: string)
    ensures MessagesIn(Start(now, q).events, sid) == [] && Buffer(Start(now, q), sid) == NO_TEXT
  {
    var s0 := State([], map[], map[], "", now, q, 0, [], [], [], []);
    var s1 := Emit(s0, "", TaskCreated);
    assert MessagesIn(s0.events, sid) == [] && Buffer(s0, sid) == NO_TEXT;
    EmitCalm(s0, "", TaskCreated, false);
    EmitCalm(s1, "", SpineUpdated(|s1.events|, s1.graphOpen), false);
    hide MessagesIn, Buffer;
    assert CalmAt(s0, s1, sid) && CalmAt(s1, Start(now, q), sid);
  }

  lemma KeptFromNothing(s: State, sid: string)
    requires MessagesIn(s.events, sid) == [] && Buffer(s, sid) == NO_TEXT
    ensures TextKept(s, [], sid)
  {
    hide MessagesIn, Buffer;
    assert Accounts([], [], NO_TEXT, NO_TEXT, []);
  }

  /** Over every run, in every session: the streamed text falls into consecutive stretches and
      what is still buffered; the assistant messages of the log are one for each stretch, in
      order, each the stretch itself or the content that replaced it; and the contents that did
      are exactly those that came, in order. */
  lemma {:induction false} TextIsKept(now: string, q: seq<GraphEvent>, frames: seq<Frame>, sid: string)
    ensures TextKept(RunFrames(Start(now, q), frames), frames, sid)
    decreases |frames|
  {
    hide *;
    if frames == [] {
      NoTextAtStart(now, q, sid);
      RunOfNone(Start(now, q));
      KeptFromNothing(Start(now, q), sid);
    } else {
      var s0, init, last := Start(now, q), frames[..|frames| - 1], frames[|frames| - 1];
      TextIsKept(now, q, init, sid);
      UnfoldRun(s0, frames);
      var s, m := RunFrames(s0, init), Merged(RunFrames(s0, init), last);
      var s' := OnContentOf(m, last.content);
      MergedCalm(s, last);
      OnContentOfFlows(m, last.content, sid);
      SideCalm(s', s');
      FlowsBetween(s, m, s', s', sid, Delta(last.content, sid), OwnContent(last.content, sid));
      TextKeptStep(s, s', init, frames, sid);
    }
  }

  lemma KeptFlows(s: State, s': State, frames: seq<Frame>, sid: string)
    requires TextKept(s, frames, sid) && FlowsAt(s, s', sid, NO_TEXT, [])
    ensures TextKept(s', frames, sid)
  {
    hide Flows, Accounted, MessagesIn;
    FlowsAccounted(MessagesIn(s.events, sid), Buffer(s, sid), Deltas(frames, sid), OwnContents(frames, sid),
                   MessagesIn(s'.events, sid), Buffer(s', sid), NO_TEXT, []);
    assert OwnContents(frames, sid) + [] == OwnContents(frames, sid);
    assert Plus(Deltas(frames, sid), NO_TEXT) == Deltas(frames, sid);
  }

  lemma {:induction false} CloseSessionsKept(s: State, sids: seq<string>, frames: seq<Frame>, sid: string)
    requires TextKept(s, frames, sid) && "" !in sids
    ensures TextKept(CloseSessions(s, sids), frames, sid)
    decreases |sids|
  {
    if sids != [] {
      hide TextKept, FlowsAt, CloseTurn;
      CloseTurnFlows(s, sids[0], "aborted", sid);
      KeptFlows(s, CloseTurn(s, sids[0], "aborted"), frames, sid);
      CloseSessionsKept(CloseOne(s, sids[0]), sids[1..], frames, sid);
      CloseSessionsStep(s, sids);
    }
  }

  /** The same at the end of input; what is then still buffered is lost, and that is exactly
      the text of a session which had nothing else to close. */
  lemma TextAtEnd(now: string, q: seq<GraphEvent>, frames: seq<Frame>, sids: seq<string>, sid: string)
    requires SortedIds(sids, RunFrames(Start(now, q), frames).sessions)
    ensures var s, e := RunFrames(Start(now, q), frames), Finish(RunFrames(Start(now, q), frames), sids);
            && TextKept(e, frames, sid)
            && (Buffer(e, sid) != NO_TEXT <==> TextLost(Get(s, sid)))
  {
    hide *;
    var s := RunFrames(Start(now, q), frames);
    TextIsKept(now, q, frames, sid);
    RunEndsClosed(now, q, frames, sids);
    RunIsNamed(now, q, frames);
    FinishKept(s, sids, frames, sid);
    if sid !in sids {
      RunKeeps(now, q, frames);
      FinishElsewhere(s, sids, sid);
    }
    OutsideSids(s, sids, sid);
  }

  lemma FinishKept(s: State, sids: seq<string>, frames: seq<Frame>, sid: string)
    requires TextKept(s, frames, sid) && SortedIds(sids, s.sessions) && NamedSessions(s)
    ensures TextKept(Finish(s, sids), frames, sid)
  {
    NamedIds(sids, s.sessions);
    hide Calm, FlushRemaining, CloseSessions, TextKept, FlowsAt;
    var r := FlushRemaining(s).(curTs := "");
    FlushRemainingCalm(s);
    SideCalm(FlushRemaining(s), r);
    CalmTrans(s, FlushRemaining(s), r);
    CalmFlows(s, r, sid);
    KeptFlows(s, r, frames, sid);
    CloseSessionsKept(r, sids, frames, sid);
  }

  lemma FinishElsewhere(s: State, sids: seq<string>, sid: string)
    requires RunOk(s) && SortedIds(sids, s.sessions) && NamedSessions(s) && sid !in sids
    ensures Get(Finish(s, sids), sid) == Get(s, sid)
  {
    NamedIds(sids, s.sessions);
    hide RunOk, CloseSessions, FlushRemaining;
    FlushRemainingRunOk(s);
    FlushRemainingOnlyGraph(s);
    SideRunOk(FlushRemaining(s), "");
    CloseSessionsOk(FlushRemaining(s).(curTs := ""), sids);
  }

  lemma FlushRemainingOnlyGraph(s: State)
    requires RunOk(s)
    ensures FlushRemaining(s).sessions == s.sessions
  {
    hide Ok, NoHandoff, FlushRemaining;
    FlushRemainingOk(s);
  }

  /** A session that was never made has no text. */
  lemma OutsideSids(s: State, sids: seq<string>, sid: string)
    requires SortedIds(sids, s.sessions)
    requires forall x | x in sids :: HasText(Get(Finish(s, sids), x)) <==> TextLost(Get(s, x))
    requires sid !in sids ==> Get(Finish(s, sids), sid) == Get(s, sid)
    ensures Buffer(Finish(s, sids), sid) != NO_TEXT <==> TextLost(Get(s, sid))
  {
    if sid !in sids {
      assert sid !in (set x | x in sids);
      assert sid !in s.sessions;
    }
    hide Finish;
  }

  /** One delta outside any turn: nothing enters the log for it. */
  lemma TextCanBeLost(now: string)
    ensures var s := RunFrames(Start(now, []), [Frame(NoTs, StreamChunk(MAIN, TextDelta("x")))]);
            && TextLost(Get(s, MAIN)) && SortedIds([MAIN], s.sessions)
            && Buffer(Finish(s, [MAIN]), MAIN) == Text("", "x")
            && Finish(s, [MAIN]).events == Start(now, []).events
  {
    var frames := [Frame(NoTs, StreamChunk(MAIN, TextDelta("x")))];
    var s0 := Start(now, []);
    var s := RunFrames(s0, frames);
    StartOk(now, []);
    UnfoldRun(s0, frames);
    RunOfNone(s0);
    assert frames[..0] == [];
    assert s == OnChunk(s0.(curTs := ""), MAIN, TextDelta("x"));
    hide RunFrames, Start, FlushRemaining, CloseSessions;
    assert Get(s, MAIN) == NEW_SESSION.(text := "x");
    FinishOne(s);
  }

  lemma FinishOne(s: State)
    requires s.graphIdx == |s.graphQ| && Unfinished(Get(s, MAIN)) && NothingToClose(Get(s, MAIN))
    ensures Finish(s, [MAIN]).events == s.events && Get(Finish(s, [MAIN]), MAIN) == Get(s, MAIN)
  {
    var r := s.(curTs := "");
    assert [MAIN][1..] == [];
    assert CloseSessions(r, [MAIN]) == CloseSessions(CloseTurn(r, MAIN, "aborted"), []);
  }
}
