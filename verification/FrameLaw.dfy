/** What each frame adds to the log and does to its session, said apart from the steps that do it. */
module FrameLaw {
  import opened Wrappers
  import opened Decimals
  import opened Events
  import opened Projection
  import opened Protocol
  import opened Graph
  import opened Run
  import opened TextFlow

  // ---- Reading the log ----

  /** An event without its number, which is its line. */
  datatype Note = Note(session: string, ts: string, body: Body)

  function Notes(log: seq<Event>): (r: seq<Note>)
    ensures |r| == |log| && forall k | 0 <= k < |r| :: r[k] == Note(log[k].session, log[k].ts, log[k].body)
  {
    seq(|log|, k requires 0 <= k < |log| => Note(log[k].session, log[k].ts, log[k].body))
  }

  lemma NotesSnoc(log: seq<Event>, e: Event)
    ensures Notes(log + [e]) == Notes(log) + [Note(e.session, e.ts, e.body)]
  {
  }

  // ---- What a frame says ----

  /** The time of the projection stands in for a missing one. */
  function TimeOr(now: string, ts: string): string { if ts == "" then now else ts }

  /** Buffered calls, each at the time at which it arrived. */
  function CallNotes(now: string, sid: string, calls: seq<Pending>): (r: seq<Note>)
    ensures |r| == |calls|
  {
    seq(|calls|, k requires 0 <= k < |calls| =>
      Note(sid, TimeOr(now, calls[k].ts), ToolCall(calls[k].callId, calls[k].tool, calls[k].approval)))
  }

  /** How many buffered calls there are up to the first one with this id; none if there is none. */
  function Reach(pending: seq<Pending>, id: string): (n: nat)
    ensures n <= |pending|
    ensures n > 0 ==> pending[n - 1].callId == id && forall k | 0 <= k < n - 1 :: pending[k].callId != id
    ensures n == 0 ==> forall k | 0 <= k < |pending| :: pending[k].callId != id
  {
    if pending == [] then 0
    else if pending[0].callId == id then 1
    else
      var n := Reach(pending[1..], id);
      if n == 0 then 0 else n + 1
  }

  function PlaceIn(ids: seq<string>, id: string): (n: nat)
    ensures n <= |ids| && (n < |ids| ==> ids[n] == id) && (n == |ids| ==> id !in ids)
    ensures forall k | 0 <= k < n :: ids[k] != id
  {
    if ids == [] || ids[0] == id then 0 else PlaceIn(ids[1..], id) + 1
  }

  /** The list without the first of these ids, if it has any. */
  function LessOne(ids: seq<string>, id: string): seq<string>
  {
    var n := PlaceIn(ids, id);
    if n == |ids| then ids else ids[..n] + ids[n + 1..]
  }

  /** The result of a block: denied if its call was; an error if it says so. */
  function Answer(b: ResultBlock, denied: set<string>): Body
  {
    if b.callId in denied then ToolResult(b.callId, false, DeniedOutcome)
    else if b.isError then ToolResult(b.callId, false, Error)
    else ToolResult(b.callId, true, Completed)
  }

  /** The result of a call that the end of its turn closes. */
  function Closing(id: string, kind: string, denied: set<string>): Body
  {
    if id in denied then ToolResult(id, false, DeniedOutcome)
    else if kind == "stop" || kind == "completed" || kind == "tool-calls" then ToolResult(id, true, Completed)
    else ToolResult(id, false, Indeterminate)
  }

  function AfterBlock(st: Session, b: ResultBlock): Session
  {
    if b.callId == "" then st
    else st.(pending := st.pending[Reach(st.pending, b.callId)..], openCalls := LessOne(st.openCalls, b.callId))
  }

  function AfterBlocks(st: Session, blocks: seq<ResultBlock>): Session
    decreases |blocks|
  {
    if blocks == [] then st else AfterBlocks(AfterBlock(st, blocks[0]), blocks[1..])
  }

  /** Block by block: the buffered calls up to its own, and then its result. */
  function BlockNotes(now: string, ts: string, sid: string, st: Session, blocks: seq<ResultBlock>): seq<Note>
    decreases |blocks|
  {
    if blocks == [] then []
    else
      var b := blocks[0];
      (if b.callId == "" then []
       else CallNotes(now, sid, st.pending[..Reach(st.pending, b.callId)]) + [Note(sid, TimeOr(now, ts), Answer(b, st.denied))])
      + BlockNotes(now, ts, sid, AfterBlock(st, b), blocks[1..])
  }

  function ClosingNotes(now: string, ts: string, sid: string, ids: seq<string>, kind: string, denied: set<string>): (r: seq<Note>)
    ensures |r| == |ids|
  {
    seq(|ids|, k requires 0 <= k < |ids| => Note(sid, TimeOr(now, ts), Closing(ids[k], kind, denied)))
  }

  /** The buffered calls, then the buffered text, then a result for every open call. */
  function TurnNotes(now: string, ts: string, sid: string, st: Session, kind: string): seq<Note>
  {
    CallNotes(now, sid, st.pending) +
    (if st.text == "" && st.reasoning == "" then [] else [Note(sid, TimeOr(now, ts), AssistantMessage(st.reasoning, st.text))]) +
    ClosingNotes(now, ts, sid, st.openCalls, kind, st.denied)
  }

  /** The id of a call that came without one: its session, its turn, and its number in the session. */
  function NewId(sid: string, turn: nat, call: nat): string
  {
    sid + "-t" + Decimal(turn) + "-c" + Decimal(call)
  }

  predicate Idle(st: Session) { !st.turnOpen && |st.openCalls| == 0 && |st.pending| == 0 }

  function UsageOf(records: seq<Record>): nat
  {
    if records == [] then 0
    else (if records[0] == Nested(Usage) then 1 else 0) + UsageOf(records[1..])
  }

  function Times(n: nat, note: Note): (r: seq<Note>)
    ensures |r| == n
  {
    seq(n, k => note)
  }

  /** What happens in a session, if anything: an idle main session ends its turn. */
  function EventFor(c: Content): Option<(string, SessionEvent)>
  {
    match c
    case InSession(session, ev) => Some((if session == "" then "main" else session, ev))
    case StreamChunk(session, chunk) => if session == "main" then Some((session, AssistantChunk(chunk))) else None
    case SessionStatus(session, idle) => if session == "main" && idle then Some((session, TurnEnd("stop"))) else None
    case _ => None
  }

  function EventNotes(now: string, ts: string, sid: string, st: Session, ev: SessionEvent): seq<Note>
  {
    match ev
    case UserText(t) => if t == "" then [] else [Note(sid, TimeOr(now, ts), UserMessage(t))]
    case AssistantChunk(chunk) => if chunk == Usage then [Note("main", TimeOr(now, ts), UsageRecorded)] else []
    case AssistantAttempt(records) => Times(UsageOf(records), Note("main", TimeOr(now, ts), UsageRecorded))
    case AssistantContent(r, t) => if r == "" && t == "" then [] else [Note(sid, TimeOr(now, ts), AssistantMessage(r, t))]
    case TurnEnd(kind) => if Idle(st) then [] else TurnNotes(now, ts, sid, st, if kind == "" then "stop" else kind)
    case ResultFrame(blocks) => BlockNotes(now, ts, sid, st, blocks)
    case _ => []
  }

  function SaysEvent(s: State, e: Option<(string, SessionEvent)>): seq<Note>
  {
    if e.None? then [] else EventNotes(s.now, s.curTs, e.value.0, Get(s, e.value.0), e.value.1)
  }

  /** All that a frame adds to the log. */
  function Says(s: State, c: Content): seq<Note>
  {
    match c
    case RuntimeExit(data) => [Note("main", TimeOr(s.now, s.curTs), TaskStatus(data))]
    case SubagentFrame(parent, child, started) =>
      [Note(if child == "" then "main" else child, TimeOr(s.now, s.curTs), Subagent(parent, started))]
    case _ => SaysEvent(s, EventFor(c))
  }

  /** The session afterwards, unless the event decides an approval. */
  function SessionAfter(sid: string, st: Session, ev: SessionEvent, ts: string): Session
  {
    match ev
    case TurnStart => st.(turnOpen := true, turnNo := st.turnNo + if sid == "main" then 1 else 0)
    case AssistantChunk(chunk) =>
      st.(reasoning := st.reasoning + ChunkText(chunk).reasoning, text := st.text + ChunkText(chunk).text)
    case AssistantAttempt(records) =>
      st.(reasoning := st.reasoning + RecordsText(records).reasoning, text := st.text + RecordsText(records).text)
    case AssistantContent(r, t) => if r == "" && t == "" then st else st.(text := "", reasoning := "")
    case CallFrame(name, callId) =>
      var id := if callId != "" then callId else NewId(sid, st.turnNo, st.callSeq + 1);
      st.(callSeq := st.callSeq + 1, openCalls := st.openCalls + [id],
          pending := st.pending + [Pending(id, name, if st.preset == "" then None else Some(Preset(st.preset)), ts)])
    case TurnEnd(kind) => if Idle(st) then st else st.(pending := [], openCalls := [], turnOpen := false, text := "", reasoning := "")
    case PermissionPreset(p) => st.(preset := p)
    case ResultFrame(blocks) => AfterBlocks(st, blocks)
    case _ => st
  }

  function AsksAfter(asks: map<string, Ask>, c: Content): map<string, Ask>
  {
    if c.InSession? && c.event.ApprovalAsked? && c.event.id != "" then
      asks[c.event.id := Ask(c.event.toolName, c.event.callId)]
    else if c.InSession? && c.event.ApprovalDecided? then asks - {c.event.id}
    else asks
  }

  /** A decision changes at most the approval of one buffered call, and the denied ids. */
  ghost predicate OnlyDecided(st: Session, st': Session)
  {
    && |st'.pending| == |st.pending|
    && (forall k | 0 <= k < |st.pending| ::
          st'.pending[k] == st.pending[k].(approval := st'.pending[k].approval))
    && st' == st.(pending := st'.pending, denied := st'.denied)
  }

  ghost predicate SessionLaw(s: State, c: Content, s': State, sid: string)
  {
    var e := EventFor(c);
    if e.None? || e.value.0 != sid then Get(s', sid) == Get(s, sid)
    else if e.value.1.ApprovalDecided? then OnlyDecided(Get(s, sid), Get(s', sid))
    else Get(s', sid) == SessionAfter(sid, Get(s, sid), e.value.1, s.curTs)
  }

  /** The law of one frame. */
  ghost predicate Law(s: State, c: Content, s': State)
  {
    && Notes(s'.events) == Notes(s.events) + Says(s, c) && s'.asks == AsksAfter(s.asks, c)
    && s'.now == s.now && s'.curTs == s.curTs
    && forall sid :: SessionLaw(s, c, s', sid)
  }

  // ---- The steps ----

  /** s' is s with these notes added to the log, and otherwise the same but for what the proofs keep. */
  ghost predicate Adds(s: State, s': State, notes: seq<Note>)
  {
    && Notes(s'.events) == Notes(s.events) + notes && s'.sessions == s.sessions
    && s'.asks == s.asks && s'.now == s.now && s'.curTs == s.curTs
  }

  /** The same, with one session put. */
  ghost predicate AddsWith(s: State, s': State, notes: seq<Note>, sid: string, st: Session)
  {
    && Notes(s'.events) == Notes(s.events) + notes && (forall x :: Get(s', x) == if x == sid then st else Get(s, x))
    && s'.asks == s.asks && s'.now == s.now && s'.curTs == s.curTs
  }

  lemma EmitAdds(s: State, session: string, body: Body, closes: bool)
    ensures Adds(s, EmitAs(s, session, body, closes),
                 [Note(if session == "" then "main" else session, TimeOr(s.now, s.curTs), body)])
  {
    NotesSnoc(s.events, EmitAs(s, session, body, closes).events[|s.events|]);
  }

  lemma {:induction false} EmitCallsAdds(s: State, sid: string, calls: seq<Pending>)
    requires sid != ""
    ensures Adds(s, EmitCalls(s, sid, calls), CallNotes(s.now, sid, calls))
    decreases |calls|
  {
    if calls != [] {
      var p := calls[0];
      var s1 := s.(curTs := p.ts);
      var s2 := Emit(s1, sid, ToolCall(p.callId, p.tool, p.approval));
      EmitAdds(s1, sid, ToolCall(p.callId, p.tool, p.approval), false);
      EmitCallsAdds(s2.(curTs := s.curTs), sid, calls[1..]);
      CallNotesCons(s.now, sid, calls);
      hide EmitAs, CallNotes, Notes;
      Assoc(Notes(s.events), [Note(sid, TimeOr(s.now, p.ts), ToolCall(p.callId, p.tool, p.approval))], CallNotes(s.now, sid, calls[1..]));
    }
  }

  lemma Assoc<T>(x: seq<T>, y: seq<T>, z: seq<T>)
    ensures (x + y) + z == x + (y + z)
  {
  }

  lemma CallNotesCons(now: string, sid: string, calls: seq<Pending>)
    requires calls != []
    ensures CallNotes(now, sid, calls) ==
            [Note(sid, TimeOr(now, calls[0].ts), ToolCall(calls[0].callId, calls[0].tool, calls[0].approval))] +
            CallNotes(now, sid, calls[1..])
  {
  }

  lemma PutAdds(s: State, sid: string, st: Session)
    ensures AddsWith(s, Put(s, sid, st), [], sid, st)
  {
  }

  /** What is put in turn is what was put last. */
  lemma ThenPut(s: State, t: State, notes: seq<Note>, sid: string, st: Session)
    requires Adds(s, t, notes)
    ensures AddsWith(s, Put(t, sid, st), notes, sid, st)
  {
    hide Notes;
  }

  lemma PutThen(s: State, t: State, u: State, notes: seq<Note>, more: seq<Note>, sid: string, st: Session)
    requires AddsWith(s, t, notes, sid, st) && Adds(t, u, more)
    ensures AddsWith(s, u, notes + more, sid, st)
  {
    hide Notes;
    forall x ensures Get(u, x) == if x == sid then st else Get(s, x) {
      assert Get(u, x) == Get(t, x);
    }
    Assoc(Notes(s.events), notes, more);
  }

  lemma PutAgain(s: State, t: State, u: State, notes: seq<Note>, more: seq<Note>, sid: string, st: Session, st': Session)
    requires AddsWith(s, t, notes, sid, st) && AddsWith(t, u, more, sid, st')
    ensures AddsWith(s, u, notes + more, sid, st')
  {
    hide Notes;
    Assoc(Notes(s.events), notes, more);
  }

  lemma FlushFirstAdds(s: State, sid: string, cut: nat)
    requires sid != "" && cut <= |Get(s, sid).pending|
    ensures var st := Get(s, sid);
            AddsWith(s, FlushFirst(s, sid, cut), CallNotes(s.now, sid, st.pending[..cut]), sid, st.(pending := st.pending[cut..]))
  {
    var st := Get(s, sid);
    EmitCallsAdds(s, sid, st.pending[..cut]);
    hide Adds, AddsWith, EmitCalls, CallNotes;
    ThenPut(s, EmitCalls(s, sid, st.pending[..cut]), CallNotes(s.now, sid, st.pending[..cut]), sid, st.(pending := st.pending[cut..]));
  }

  lemma ReachIs(pending: seq<Pending>, id: string)
    ensures var f := FirstCall(pending, id); Reach(pending, id) == if f.Some? then f.value + 1 else 0
  {
  }

  lemma LessCons(ids: seq<string>, id: string)
    requires ids != [] && ids[0] != id
    ensures LessOne(ids, id) == [ids[0]] + LessOne(ids[1..], id)
  {
    var rest := ids[1..];
    var n := PlaceIn(rest, id);
    assert PlaceIn(ids, id) == n + 1 && ids == [ids[0]] + rest;
    hide PlaceIn;
    if n < |rest| {
      assert ids[..n + 1] == [ids[0]] + rest[..n] && ids[n + 2..] == rest[n + 1..];
      Assoc([ids[0]], rest[..n], rest[n + 1..]);
    }
  }

  lemma LessHead(ids: seq<string>, id: string)
    requires ids == [] || ids[0] == id
    ensures LessOne(ids, id) == RemoveFirst(ids, id)
  {
    if ids != [] {
      assert ids[..0] + ids[1..] == ids[1..];
    }
  }

  lemma RemoveCons(ids: seq<string>, id: string)
    requires ids != [] && ids[0] != id
    ensures RemoveFirst(ids, id) == [ids[0]] + RemoveFirst(ids[1..], id)
  {
  }

  lemma {:induction false} LessOneIs(ids: seq<string>, id: string)
    ensures RemoveFirst(ids, id) == LessOne(ids, id)
    decreases |ids|
  {
    hide *;
    if ids == [] || ids[0] == id {
      LessHead(ids, id);
    } else {
      LessOneIs(ids[1..], id);
      LessCons(ids, id);
      RemoveCons(ids, id);
    }
  }

  lemma FlushToAdds(s: State, sid: string, id: string)
    requires sid != ""
    ensures var st := Get(s, sid);
            var n := Reach(st.pending, id);
            AddsWith(s, FlushTo(s, sid, id), CallNotes(s.now, sid, st.pending[..n]), sid, st.(pending := st.pending[n..]))
  {
    var st := Get(s, sid);
    ReachIs(st.pending, id);
    var f := FirstCall(st.pending, id);
    if f.Some? {
      FlushFirstAdds(s, sid, f.value + 1);
    } else {
      assert st.pending[0..] == st.pending && st.pending[..0] == [];
      assert CallNotes(s.now, sid, []) == [];
    }
    hide FlushFirst, CallNotes, Reach;
  }

  lemma OnResultBlockAdds(s: State, sid: string, b: ResultBlock)
    requires sid != "" && b.callId != ""
    ensures var st := Get(s, sid);
            AddsWith(s, OnResultBlock(s, sid, b),
                     CallNotes(s.now, sid, st.pending[..Reach(st.pending, b.callId)]) + [Note(sid, TimeOr(s.now, s.curTs), Answer(b, st.denied))],
                     sid, AfterBlock(st, b))
  {
    var st := Get(s, sid);
    var n := Reach(st.pending, b.callId);
    var notes := CallNotes(s.now, sid, st.pending[..n]);
    FlushToAdds(s, sid, b.callId);
    hide FlushTo, CallNotes, Reach, Notes;
    var s1 := FlushTo(s, sid, b.callId);
    var st1 := Get(s1, sid);
    LessOneIs(st.openCalls, b.callId);
    var st2 := st1.(openCalls := RemoveFirst(st1.openCalls, b.callId));
    var s2 := Put(s1, sid, st2);
    PutAdds(s1, sid, st2);
    PutAgain(s, s1, s2, notes, [], sid, st1, st2);
    assert notes + [] == notes;
    var denied := b.callId in st1.denied;
    var outcome := if denied then DeniedOutcome else if b.isError then Error else Completed;
    EmitAdds(s2, sid, ToolResult(b.callId, !denied && !b.isError, outcome), b.callId in st1.openCalls);
    PutThen(s, s2, OnResultBlock(s, sid, b), notes, [Note(sid, TimeOr(s.now, s.curTs), Answer(b, st.denied))], sid, st2);
  }

  lemma {:induction false} OnResultsAdds(s: State, sid: string, blocks: seq<ResultBlock>)
    requires sid != ""
    ensures AddsWith(s, OnResults(s, sid, blocks), BlockNotes(s.now, s.curTs, sid, Get(s, sid), blocks), sid,
                     AfterBlocks(Get(s, sid), blocks))
    decreases |blocks|
  {
    if blocks != [] {
      var b, st := blocks[0], Get(s, sid);
      var s1 := OnResultBlock(s, sid, b);
      OnResultsAdds(s1, sid, blocks[1..]);
      if b.callId != "" {
        OnResultBlockAdds(s, sid, b);
        hide OnResultBlock, AfterBlock, CallNotes, Reach, Answer, Notes;
        var notes := CallNotes(s.now, sid, st.pending[..Reach(st.pending, b.callId)]) + [Note(sid, TimeOr(s.now, s.curTs), Answer(b, st.denied))];
        PutAgain(s, s1, OnResults(s, sid, blocks), notes, BlockNotes(s.now, s.curTs, sid, AfterBlock(st, b), blocks[1..]), sid,
                 AfterBlock(st, b), AfterBlocks(st, blocks));
      } else {
        var rest := BlockNotes(s.now, s.curTs, sid, st, blocks[1..]);
        assert [] + rest == rest;
      }
    }
  }

  lemma {:induction false} CloseCallsAdds(s: State, sid: string, ids: seq<string>, kind: string)
    requires sid != ""
    ensures Adds(s, CloseCalls(s, sid, ids, CleanOutcome(kind)),
                 ClosingNotes(s.now, s.curTs, sid, ids, kind, Get(s, sid).denied))
    decreases |ids|
  {
    if ids != [] {
      var denied, outcome := Get(s, sid).denied, CleanOutcome(kind);
      var oc := if ids[0] in denied then DeniedOutcome else outcome;
      var s1 := EmitAs(s, sid, ToolResult(ids[0], oc == Completed, oc), true);
      EmitAdds(s, sid, ToolResult(ids[0], oc == Completed, oc), true);
      CloseCallsAdds(s1, sid, ids[1..], kind);
      assert ToolResult(ids[0], oc == Completed, oc) == Closing(ids[0], kind, denied);
      assert ClosingNotes(s.now, s.curTs, sid, ids, kind, denied) ==
             [Note(sid, TimeOr(s.now, s.curTs), Closing(ids[0], kind, denied))] +
             ClosingNotes(s.now, s.curTs, sid, ids[1..], kind, denied);
      hide EmitAs, Notes, ClosingNotes, Closing, CleanOutcome;
      Assoc(Notes(s.events), [Note(sid, TimeOr(s.now, s.curTs), ToolResult(ids[0], oc == Completed, oc))],
            ClosingNotes(s.now, s.curTs, sid, ids[1..], kind, denied));
    }
  }

  lemma FlushTextAdds(s: State, sid: string)
    requires sid != ""
    ensures var st := Get(s, sid);
            AddsWith(s, FlushText(s, sid),
                     if st.text == "" && st.reasoning == "" then []
                     else [Note(sid, TimeOr(s.now, s.curTs), AssistantMessage(st.reasoning, st.text))],
                     sid, st.(text := "", reasoning := ""))
  {
    var st := Get(s, sid);
    var empty := st.(text := "", reasoning := "");
    var s1 := Put(s, sid, empty);
    PutAdds(s, sid, empty);
    if st.text != "" || st.reasoning != "" {
      EmitAdds(s1, sid, AssistantMessage(st.reasoning, st.text), false);
      hide Notes, Adds, AddsWith, EmitAs;
      PutThen(s, s1, FlushText(s, sid), [], [Note(sid, TimeOr(s.now, s.curTs), AssistantMessage(st.reasoning, st.text))], sid, empty);
    }
  }

  lemma CloseTurnAdds(s: State, sid: string, kind: string)
    requires sid != ""
    ensures var st := Get(s, sid);
            AddsWith(s, CloseTurn(s, sid, kind), if Idle(st) then [] else TurnNotes(s.now, s.curTs, sid, st, kind), sid,
                     if Idle(st) then st else st.(pending := [], openCalls := [], turnOpen := false, text := "", reasoning := ""))
  {
    var st := Get(s, sid);
    if Idle(st) {
      PutAdds(s, sid, st);
    } else {
      assert st.pending[..|st.pending|] == st.pending && st.pending[|st.pending|..] == [];
      var s0 := FlushFirst(s, sid, |st.pending|);
      var st0 := st.(pending := []);
      var s1 := FlushText(s0, sid);
      var st1 := st0.(text := "", reasoning := "");
      var s2 := CloseCalls(s1, sid, st1.openCalls, CleanOutcome(kind));
      var st3 := st1.(openCalls := [], turnOpen := false);
      FlushFirstAdds(s, sid, |st.pending|);
      FlushTextAdds(s0, sid);
      CloseCallsAdds(s1, sid, st1.openCalls, kind);
      hide FlushFirst, FlushText, CloseCalls, CallNotes, ClosingNotes, Notes;
      var calls := CallNotes(s.now, sid, st.pending);
      var text := if st.text == "" && st.reasoning == "" then [] else [Note(sid, TimeOr(s.now, s.curTs), AssistantMessage(st.reasoning, st.text))];
      var closing := ClosingNotes(s.now, s.curTs, sid, st.openCalls, kind, st.denied);
      PutAgain(s, s0, s1, calls, text, sid, st0, st1);
      PutThen(s, s1, s2, calls + text, closing, sid, st1);
      PutAdds(s2, sid, st3);
      PutAgain(s, s2, Put(s2, sid, st3), calls + text + closing, [], sid, st1, st3);
      assert calls + text + closing + [] == calls + text + closing;
    }
  }

  lemma OnChunkAdds(s: State, sid: string, c: Chunk)
    ensures var st := Get(s, sid);
            AddsWith(s, OnChunk(s, sid, c), if c == Usage then [Note("main", TimeOr(s.now, s.curTs), UsageRecorded)] else [], sid,
                     st.(reasoning := st.reasoning + ChunkText(c).reasoning, text := st.text + ChunkText(c).text))
  {
    var st := Get(s, sid);
    var st' := st.(reasoning := st.reasoning + ChunkText(c).reasoning, text := st.text + ChunkText(c).text);
    PutAdds(s, sid, st');
    assert st.reasoning + "" == st.reasoning && st.text + "" == st.text;
    if c == Usage {
      EmitAdds(Put(s, sid, st), "", UsageRecorded, false);
      hide Notes, Adds, AddsWith, EmitAs;
      PutThen(s, Put(s, sid, st), OnChunk(s, sid, c), [], [Note("main", TimeOr(s.now, s.curTs), UsageRecorded)], sid, st);
    }
  }

  lemma TimesMore(n: nat, m: nat, note: Note)
    ensures Times(n, note) + Times(m, note) == Times(n + m, note)
  {
  }

  function Fed(st: Session, t: Text): Session
  {
    st.(reasoning := st.reasoning + t.reasoning, text := st.text + t.text)
  }

  lemma FedTwice(st: Session, x: Text, y: Text)
    ensures Fed(Fed(st, x), y) == Fed(st, Plus(x, y)) && Fed(st, NO_TEXT) == st
  {
    assert st.reasoning + x.reasoning + y.reasoning == st.reasoning + (x.reasoning + y.reasoning);
    assert st.text + x.text + y.text == st.text + (x.text + y.text);
  }

  lemma RecordAdds(s: State, sid: string, r: Record)
    ensures var st := Get(s, sid);
            var s1 := match r
              case TextChunks(ts) => Put(s, sid, st.(text := st.text + Concat(ts)))
              case ReasoningChunks(ts) => Put(s, sid, st.(reasoning := st.reasoning + Concat(ts)))
              case Nested(c) => OnChunk(s, sid, c);
            AddsWith(s, s1, Times(if r == Nested(Usage) then 1 else 0, Note("main", TimeOr(s.now, s.curTs), UsageRecorded)), sid,
                     Fed(st, RecordText(r)))
  {
    var st := Get(s, sid);
    assert st.reasoning + "" == st.reasoning && st.text + "" == st.text;
    match r
    case TextChunks(ts) => PutAdds(s, sid, st.(text := st.text + Concat(ts)));
    case ReasoningChunks(ts) => PutAdds(s, sid, st.(reasoning := st.reasoning + Concat(ts)));
    case Nested(c) =>
      OnChunkAdds(s, sid, c);
      assert Times(1, Note("main", TimeOr(s.now, s.curTs), UsageRecorded)) == [Note("main", TimeOr(s.now, s.curTs), UsageRecorded)];
  }

  lemma {:induction false} OnRecordsAdds(s: State, sid: string, records: seq<Record>)
    ensures AddsWith(s, OnRecords(s, sid, records), Times(UsageOf(records), Note("main", TimeOr(s.now, s.curTs), UsageRecorded)), sid,
                     Fed(Get(s, sid), RecordsText(records)))
    decreases |records|
  {
    var st, usage := Get(s, sid), Note("main", TimeOr(s.now, s.curTs), UsageRecorded);
    if records == [] {
      FedTwice(st, NO_TEXT, NO_TEXT);
      assert Times(0, usage) == [];
    } else {
      var r := records[0];
      var s1 := match r
        case TextChunks(ts) => Put(s, sid, st.(text := st.text + Concat(ts)))
        case ReasoningChunks(ts) => Put(s, sid, st.(reasoning := st.reasoning + Concat(ts)))
        case Nested(c) => OnChunk(s, sid, c);
      var n := if r == Nested(Usage) then 1 else 0;
      RecordAdds(s, sid, r);
      hide OnChunk, Notes, Times, Fed, RecordText, TimeOr;
      OnRecordsAdds(s1, sid, records[1..]);
      PutAgain(s, s1, OnRecords(s1, sid, records[1..]), Times(n, usage), Times(UsageOf(records[1..]), usage), sid,
               Fed(st, RecordText(r)), Fed(Fed(st, RecordText(r)), RecordsText(records[1..])));
      TimesMore(n, UsageOf(records[1..]), usage);
      FedTwice(st, RecordText(r), RecordsText(records[1..]));
    }
  }

  lemma OnContentAdds(s: State, sid: string, reasoning: string, text: string)
    requires sid != ""
    ensures var st := Get(s, sid);
            AddsWith(s, OnContent(s, sid, reasoning, text),
                     if reasoning == "" && text == "" then [] else [Note(sid, TimeOr(s.now, s.curTs), AssistantMessage(reasoning, text))],
                     sid, if reasoning == "" && text == "" then st else st.(text := "", reasoning := ""))
  {
    var st := Get(s, sid);
    PutAdds(s, sid, st);
    var empty := st.(text := "", reasoning := "");
    PutAdds(s, sid, empty);
    if reasoning != "" || text != "" {
      EmitAdds(Put(s, sid, empty), sid, AssistantMessage(reasoning, text), false);
      hide Notes, Adds, AddsWith, EmitAs;
      PutThen(s, Put(s, sid, empty), OnContent(s, sid, reasoning, text), [],
              [Note(sid, TimeOr(s.now, s.curTs), AssistantMessage(reasoning, text))], sid, empty);
    }
  }

  // ---- The law ----

  lemma LawOf(s: State, c: Content, s': State, sid: string, ev: SessionEvent)
    requires EventFor(c) == Some((sid, ev)) && !ev.ApprovalDecided? && !ev.ApprovalAsked?
    requires AddsWith(s, s', EventNotes(s.now, s.curTs, sid, Get(s, sid), ev), sid, SessionAfter(sid, Get(s, sid), ev, s.curTs))
    ensures Law(s, c, s')
  {
    hide Notes, EventNotes, SessionAfter;
    forall x ensures SessionLaw(s, c, s', x) {
    }
  }

  lemma AsNone<T>(x: seq<T>)
    ensures [] + x == x && x + [] == x
  {
  }

  lemma OnSessionEventLaw(s: State, c: Content)
    requires c.InSession? && !c.event.ApprovalDecided? && !c.event.ApprovalAsked?
    ensures Law(s, c, OnSessionEvent(s, SidOf(c.session), c.event))
  {
    var sid, ev := SidOf(c.session), c.event;
    var st, s' := Get(s, sid), OnSessionEvent(s, sid, ev);
    EventIs(c);
    PutAdds(s, sid, st);
    hide Law, Notes, AddsWith, OnChunk, OnRecords, OnContent, CloseTurn, OnResults, TurnNotes, BlockNotes, AfterBlocks, Times, TimeOr,
         ChunkText, RecordsText, EventFor;
    match ev {
      case TurnStart => PutAdds(s, sid, st.(turnOpen := true, turnNo := if sid == MAIN then st.turnNo + 1 else st.turnNo));
      case UserText(t) => UserTextAdds(s, sid, t);
      case AssistantChunk(chunk) => OnChunkAdds(s, sid, chunk);
      case AssistantAttempt(rs) =>
        OnRecordsAdds(Put(s, sid, st), sid, rs);
        RecordsFrom(s, sid, rs);
      case AssistantContent(r, t) => OnContentAdds(s, sid, r, t);
      case CallFrame(name, id) => OnCallAdds(s, sid, name, id);
      case TurnEnd(kind) => CloseTurnAdds(s, sid, if kind == "" then "stop" else kind);
      case PermissionPreset(p) => PutAdds(s, sid, st.(preset := p));
      case ResultFrame(bs) => ResultsFrom(s, sid, bs);
      case OtherSessionEvent => SameAdds(s, sid);
    }
    LawOf(s, c, s', sid, ev);
  }

  lemma EventIs(c: Content)
    requires c.InSession?
    ensures EventFor(c) == Some((SidOf(c.session), c.event)) && SidOf(c.session) != ""
  {
  }

  lemma SameAdds(s: State, sid: string)
    ensures AddsWith(s, s, [], sid, Get(s, sid))
  {
  }

  lemma UserTextAdds(s: State, sid: string, t: string)
    requires sid != ""
    ensures AddsWith(s, if t != "" then Emit(s, sid, UserMessage(t)) else s,
                     if t == "" then [] else [Note(sid, TimeOr(s.now, s.curTs), UserMessage(t))], sid, Get(s, sid))
  {
    SameAdds(s, sid);
    if t != "" {
      EmitAdds(s, sid, UserMessage(t), false);
    }
  }

  lemma OnCallAdds(s: State, sid: string, name: string, callId: string)
    ensures AddsWith(s, OnCall(s, sid, name, callId), [], sid, SessionAfter(sid, Get(s, sid), CallFrame(name, callId), s.curTs))
  {
  }

  lemma RecordsFrom(s: State, sid: string, records: seq<Record>)
    ensures var st := Get(s, sid);
            AddsWith(s, OnRecords(Put(s, sid, st), sid, records),
                     Times(UsageOf(records), Note("main", TimeOr(s.now, s.curTs), UsageRecorded)), sid, Fed(st, RecordsText(records)))
  {
    var st, s1 := Get(s, sid), Put(s, sid, Get(s, sid));
    PutAdds(s, sid, st);
    OnRecordsAdds(s1, sid, records);
    hide Notes, OnRecords, Times, Fed, RecordsText, TimeOr, AddsWith;
    var notes := Times(UsageOf(records), Note("main", TimeOr(s.now, s.curTs), UsageRecorded));
    PutAgain(s, s1, OnRecords(s1, sid, records), [], notes, sid, st, Fed(st, RecordsText(records)));
    AsNone(notes);
  }

  lemma ResultsFrom(s: State, sid: string, blocks: seq<ResultBlock>)
    requires sid != ""
    ensures var st := Get(s, sid);
            AddsWith(s, OnResults(Put(s, sid, st), sid, blocks), BlockNotes(s.now, s.curTs, sid, st, blocks), sid, AfterBlocks(st, blocks))
  {
    var st, s1 := Get(s, sid), Put(s, sid, Get(s, sid));
    PutAdds(s, sid, st);
    OnResultsAdds(s1, sid, blocks);
    hide Notes, OnResults, BlockNotes, AfterBlocks, TimeOr, AddsWith;
    var notes := BlockNotes(s.now, s.curTs, sid, st, blocks);
    PutAgain(s, s1, OnResults(s1, sid, blocks), [], notes, sid, st, AfterBlocks(st, blocks));
    AsNone(notes);
  }

  lemma DecidedSession(s: State, sid: string, id: string, outcome: string)
    ensures OnlyDecided(Get(s, sid), Get(OnDecided(s, sid, id, outcome), sid))
    ensures forall x | x != sid :: Get(OnDecided(s, sid, id, outcome), x) == Get(s, x)
  {
    if id in s.asks {
      LastMatchIsLast(s.asks[id], Get(s, sid).pending);
    }
    hide LastMatch;
  }

  lemma DecidedElse(s: State, sid: string, id: string, outcome: string)
    ensures var s' := OnDecided(s, sid, id, outcome);
            s'.events == s.events && s'.asks == s.asks - {id} && s'.now == s.now && s'.curTs == s.curTs
  {
    if id !in s.asks {
      assert s.asks - {id} == s.asks;
    }
    hide LastMatch;
  }

  lemma OnDecidedLaw(s: State, c: Content)
    requires c.InSession? && c.event.ApprovalDecided?
    ensures Law(s, c, OnDecided(s, SidOf(c.session), c.event.id, c.event.outcome))
  {
    var id, sid := c.event.id, SidOf(c.session);
    var s' := OnDecided(s, sid, id, c.event.outcome);
    DecidedSession(s, sid, id, c.event.outcome);
    DecidedElse(s, sid, id, c.event.outcome);
    AsNone(Notes(s.events));
    hide OnDecided, Notes, OnlyDecided;
    forall x ensures SessionLaw(s, c, s', x) {
    }
  }

  lemma OnAskedLaw(s: State, c: Content)
    requires c.InSession? && c.event.ApprovalAsked?
    ensures Law(s, c, OnSessionEvent(s, SidOf(c.session), c.event))
  {
    var s' := OnSessionEvent(s, SidOf(c.session), c.event);
    hide Notes;
    AsNone(Notes(s.events));
    forall x ensures SessionLaw(s, c, s', x) {
    }
  }

  lemma PlainLaw(s: State, c: Content, s': State)
    requires !c.InSession? && EventFor(c).None? && Adds(s, s', Says(s, c))
    ensures Law(s, c, s')
  {
    hide Notes, Says;
    forall x ensures SessionLaw(s, c, s', x) {
    }
  }

  /** Every frame obeys the law: what it adds to the log, in what order and at what time, and what
      becomes of its session and of every other one. */
  lemma FrameObeys(s: State, c: Content)
    ensures Law(s, c, OnContentOf(s, c))
  {
    hide Law, Notes, OnChunk, CloseTurn, OnSessionEvent, OnDecided, AddsWith, TurnNotes;
    match c {
      case InSession(session, ev) =>
        if ev.ApprovalDecided? {
          OnDecidedLaw(s, c);
          DecidedIs(s, c);
        } else if ev.ApprovalAsked? {
          OnAskedLaw(s, c);
        } else {
          OnSessionEventLaw(s, c);
        }
      case SessionStatus(sid, idle) =>
        if idle && sid == MAIN {
          CloseTurnAdds(s, MAIN, "stop");
          LawOf(s, c, OnContentOf(s, c), MAIN, TurnEnd("stop"));
        } else {
          NothingSaid(s, c);
        }
      case StreamChunk(session, chunk) =>
        if session == MAIN {
          OnChunkAdds(s, MAIN, chunk);
          LawOf(s, c, OnContentOf(s, c), MAIN, AssistantChunk(chunk));
        } else {
          NothingSaid(s, c);
        }
      case RuntimeExit(data) =>
        EmitAdds(s, "", TaskStatus(data), false);
        PlainLaw(s, c, OnContentOf(s, c));
      case SubagentFrame(parent, child, started) =>
        EmitAdds(s, child, Subagent(parent, started), false);
        PlainLaw(s, c, OnContentOf(s, c));
      case Unreadable => NothingSaid(s, c);
      case OtherFrame => NothingSaid(s, c);
    }
  }

  lemma DecidedIs(s: State, c: Content)
    requires c.InSession? && c.event.ApprovalDecided?
    ensures OnSessionEvent(s, SidOf(c.session), c.event) == OnDecided(s, SidOf(c.session), c.event.id, c.event.outcome)
  {
    hide OnDecided;
  }

  lemma NothingSaid(s: State, c: Content)
    requires !c.InSession? && EventFor(c).None? && !c.RuntimeExit? && !c.SubagentFrame?
    ensures Law(s, c, s)
  {
    AsNone(Notes(s.events));
    hide Notes;
    PlainLaw(s, c, s);
  }

  // ---- Graph events ----

  /** The session of a graph event: that of a started node, a node's own for its result, else the main one. */
  function GraphSession(kind: GraphKind): string
  {
    match kind
    case NodeStarted(_, session) => if session == "" then "main" else session
    case NodeResult(node, _) => "g-" + node
    case _ => "main"
  }

  /** A declaration, a reopening of a named node, and a final outcome change the list of open nodes. */
  predicate Folds(kind: GraphKind)
  {
    match kind
    case NodeDeclared(_) => true
    case NodeReopened(node) => node != ""
    case NodeResult(_, outcome) => outcome == "completed" || outcome == "failed" || outcome == "rejected"
    case _ => false
  }

  function GraphTime(s: State, g: GraphEvent): string
  {
    if g.instant != 0 then TimeOr(s.now, g.time) else TimeOr(s.now, s.curTs)
  }

  /** The event, at its own time, and then, if it is one that folds, the open nodes and the number
      of the event before. */
  function GraphSays(s: State, g: GraphEvent): seq<Note>
  {
    if g.kind.UnknownKind? then []
    else
      [Note(GraphSession(g.kind), GraphTime(s, g), Graph(g.kind))] +
      if Folds(g.kind) then [Note("main", GraphTime(s, g), SpineUpdated(|s.events| + 1, OpenStep(s.graphOpen, g.kind)))] else []
  }

  lemma EnteredNotes(s: State)
    requires s.graphIdx < |s.graphQ| && !s.graphQ[s.graphIdx].kind.UnknownKind?
    ensures var g, e := s.graphQ[s.graphIdx], Entered(s);
            && Notes(e.events) == Notes(s.events) + [Note(GraphSession(g.kind), GraphTime(s, g), Graph(g.kind))]
            && |e.events| == |s.events| + 1
            && e.sessions == s.sessions && e.asks == s.asks && e.now == s.now && TimeOr(e.now, e.curTs) == GraphTime(s, g)
            && e.graphOpen == OpenStep(s.graphOpen, g.kind)
  {
    var g := s.graphQ[s.graphIdx];
    var s1 := if g.instant != 0 then s.(curTs := g.time) else s;
    EmitAdds(s1, SessionOf(g.kind), Graph(g.kind), false);
    hide OpenStep, Notes;
  }

  lemma SpineAdds(e: State)
    ensures Adds(e, EmitSpine(e), [Note("main", TimeOr(e.now, e.curTs), SpineUpdated(|e.events|, e.graphOpen))])
  {
    EmitAdds(e, "", SpineUpdated(|e.events|, e.graphOpen), false);
  }

  lemma FoldsIs(kind: GraphKind)
    ensures ShowsSpine(kind) <==> Folds(kind)
  {
  }

  lemma AppliedNotes(s: State)
    requires s.graphIdx < |s.graphQ| && !s.graphQ[s.graphIdx].kind.UnknownKind?
    ensures var g, s', e := s.graphQ[s.graphIdx], ApplyNext(s), Entered(s);
            && Notes(s'.events) == Notes(e.events) +
                 (if Folds(g.kind) then [Note("main", TimeOr(e.now, e.curTs), SpineUpdated(|e.events|, e.graphOpen))] else [])
            && s'.sessions == e.sessions && s'.asks == e.asks && s'.now == e.now
  {
    ApplyNextIs(s);
    FoldsIs(s.graphQ[s.graphIdx].kind);
    SpineAdds(Entered(s));
    AsNone(Notes(Entered(s).events));
    hide Entered, ApplyNext, EmitSpine, Notes, ShowsSpine, Folds;
  }

  lemma NextInQueue(s: State)
    requires s.graphIdx < |s.graphQ|
    ensures var g, s' := s.graphQ[s.graphIdx], ApplyNext(s);
            && s'.graphQ == s.graphQ && s'.graphIdx == s.graphIdx + 1
            && (g.kind.UnknownKind? ==>
                  s'.events == s.events && s'.sessions == s.sessions && s'.asks == s.asks && s'.now == s.now)
  {
    hide OpenStep, ShowsSpine, SessionOf;
  }

  /** What merging one graph event does. */
  lemma GraphObeys(s: State)
    requires s.graphIdx < |s.graphQ|
    ensures var g, s' := s.graphQ[s.graphIdx], ApplyNext(s);
            && Notes(s'.events) == Notes(s.events) + GraphSays(s, g)
            && s'.sessions == s.sessions && s'.asks == s.asks && s'.now == s.now && s'.graphQ == s.graphQ
            && s'.graphIdx == s.graphIdx + 1
  {
    var g := s.graphQ[s.graphIdx];
    NextInQueue(s);
    AsNone(Notes(s.events));
    hide ApplyNext, Entered, Notes, OpenStep, Folds, GraphTime, GraphSession;
    if !g.kind.UnknownKind? {
      EnteredNotes(s);
      AppliedNotes(s);
      var first := [Note(GraphSession(g.kind), GraphTime(s, g), Graph(g.kind))];
      var spine := if Folds(g.kind) then [Note("main", GraphTime(s, g), SpineUpdated(|s.events| + 1, OpenStep(s.graphOpen, g.kind)))] else [];
      Assoc(Notes(s.events), first, spine);
    }
  }

  /** Whenever the list of open nodes changes, a snapshot of it follows. */
  lemma ChangeIsShown(openNodes: seq<string>, kind: GraphKind)
    requires OpenStep(openNodes, kind) != openNodes
    ensures Folds(kind)
  {
  }

  // ---- Ids that are made up ----

  lemma {:induction false} NoDash(n: nat)
    ensures Decimal(n) != "" && '-' !in Decimal(n)
  {
    if n >= 10 {
      NoDash(n / 10);
    }
  }

  /** Calls of a session that came without an id get different ones. */
  lemma NewIdsAreOwn(sid: string, turn: nat, call: nat, turn': nat, call': nat)
    requires NewId(sid, turn, call) == NewId(sid, turn', call')
    ensures call == call'
  {
    NoDash(turn);
    NoDash(turn');
    DecimalValue(call);
    DecimalValue(call');
    hide Decimal, ValueOf;
    var head := sid + "-t";
    var x, y := Decimal(turn) + ("-c" + Decimal(call)), Decimal(turn') + ("-c" + Decimal(call'));
    assert NewId(sid, turn, call) == head + x && NewId(sid, turn', call') == head + y;
    assert x == (head + x)[|head|..] && y == (head + y)[|head|..];
    FirstDash(Decimal(turn), "-c" + Decimal(call), Decimal(turn'), "-c" + Decimal(call'));
    assert Decimal(call) == ("-c" + Decimal(call))[2..] && Decimal(call') == ("-c" + Decimal(call'))[2..];
  }

  predicate DashFirstAt(s: string, n: nat) { n < |s| && s[n] == '-' && forall k | 0 <= k < n :: s[k] != '-' }

  lemma FirstDash(a: string, x: string, b: string, y: string)
    requires '-' !in a && '-' !in b && x != "" && y != "" && x[0] == '-' && y[0] == '-' && a + x == b + y
    ensures x == y
  {
    var s := a + x;
    assert DashFirstAt(s, |a|);
    assert s == b + y && DashFirstAt(s, |b|);
    assert |a| == |b|;
    assert x == s[|a|..] && y == s[|b|..];
  }
}
