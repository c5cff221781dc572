/** What the log of a whole run holds, and what its sessions are, read off the frames. */
module RunLaw {
  import opened Wrappers
  import opened Events
  import opened Projection
  import opened Protocol
  import opened Graph
  import opened Run
  import opened FrameLaw

  // ---- Parts of the log ----

  predicate IsDirect(body: Body) { body.UserMessage? || body.TaskStatus? || body.Subagent? || body.UsageRecorded? }

  /** The notes that are what a frame says, as it says it. */
  function DirectIn(notes: seq<Note>): seq<Note>
  {
    if notes == [] then []
    else DirectIn(notes[..|notes| - 1]) + if IsDirect(notes[|notes| - 1].body) then [notes[|notes| - 1]] else []
  }

  /** The results of a session, in order. */
  function AnswersIn(notes: seq<Note>, sid: string): seq<Body>
  {
    if notes == [] then []
    else
      var n := notes[|notes| - 1];
      AnswersIn(notes[..|notes| - 1], sid) + if n.session == sid && n.body.ToolResult? then [n.body] else []
  }

  lemma {:induction false} PartsConcat(x: seq<Note>, y: seq<Note>, sid: string)
    ensures DirectIn(x + y) == DirectIn(x) + DirectIn(y) && AnswersIn(x + y, sid) == AnswersIn(x, sid) + AnswersIn(y, sid)
    decreases |y|
  {
    if y == [] {
      assert x + y == x;
    } else {
      PartsConcat(x, y[..|y| - 1], sid);
      assert (x + y)[..|x + y| - 1] == x + y[..|y| - 1];
    }
  }

  /** Notes that are neither. */
  ghost predicate Neither(notes: seq<Note>, sid: string)
  {
    forall k | 0 <= k < |notes| :: !IsDirect(notes[k].body) && !(notes[k].session == sid && notes[k].body.ToolResult?)
  }

  lemma {:induction false} NeitherHasNone(notes: seq<Note>, sid: string)
    requires Neither(notes, sid)
    ensures DirectIn(notes) == [] && AnswersIn(notes, sid) == []
    decreases |notes|
  {
    if notes != [] {
      NeitherHasNone(notes[..|notes| - 1], sid);
    }
  }

  lemma {:induction false} AllAnswers(notes: seq<Note>, sid: string)
    requires forall k | 0 <= k < |notes| :: notes[k].session == sid && notes[k].body.ToolResult?
    ensures DirectIn(notes) == [] && |AnswersIn(notes, sid)| == |notes|
    ensures forall k | 0 <= k < |notes| :: AnswersIn(notes, sid)[k] == notes[k].body
    decreases |notes|
  {
    if notes != [] {
      AllAnswers(notes[..|notes| - 1], sid);
    }
  }

  lemma {:induction false} AllDirect(notes: seq<Note>, sid: string)
    requires forall k | 0 <= k < |notes| :: IsDirect(notes[k].body)
    ensures DirectIn(notes) == notes && AnswersIn(notes, sid) == []
    decreases |notes|
  {
    if notes != [] {
      AllDirect(notes[..|notes| - 1], sid);
    }
  }

  // ---- What a frame brings to them ----

  /** The answers of a frame's blocks, in order; a block without a call id has none. */
  function BlockAnswers(blocks: seq<ResultBlock>, denied: set<string>): seq<Body>
  {
    if blocks == [] then []
    else (if blocks[0].callId == "" then [] else [Answer(blocks[0], denied)]) + BlockAnswers(blocks[1..], denied)
  }

  function ClosingAnswers(ids: seq<string>, kind: string, denied: set<string>): (r: seq<Body>)
    ensures |r| == |ids| && forall k | 0 <= k < |r| :: r[k] == Closing(ids[k], kind, denied)
  {
    seq(|ids|, k requires 0 <= k < |ids| => Closing(ids[k], kind, denied))
  }

  /** The results that a frame brings to a session: those of its blocks, or those of the calls that
      the end of a turn finds open. */
  function AnswersOf(c: Content, sid: string, st: Session, denied: set<string>): seq<Body>
  {
    var e := EventFor(c);
    if e.None? || e.value.0 != sid then []
    else
      match e.value.1
      case ResultFrame(blocks) => BlockAnswers(blocks, denied)
      case TurnEnd(kind) => if Idle(st) then [] else ClosingAnswers(st.openCalls, if kind == "" then "stop" else kind, denied)
      case _ => []
  }

  /** What a frame says for itself. */
  function DirectsOf(now: string, ts: string, c: Content): seq<Note>
  {
    match c
    case RuntimeExit(data) => [Note("main", TimeOr(now, ts), TaskStatus(data))]
    case SubagentFrame(parent, child, started) =>
      [Note(if child == "" then "main" else child, TimeOr(now, ts), Subagent(parent, started))]
    case InSession(session, UserText(t)) =>
      if t == "" then [] else [Note(if session == "" then "main" else session, TimeOr(now, ts), UserMessage(t))]
    case InSession(_, AssistantChunk(Usage)) => [Note("main", TimeOr(now, ts), UsageRecorded)]
    case InSession(_, AssistantAttempt(records)) => Times(UsageOf(records), Note("main", TimeOr(now, ts), UsageRecorded))
    case StreamChunk(session, Usage) => if session == "main" then [Note("main", TimeOr(now, ts), UsageRecorded)] else []
    case _ => []
  }

  lemma CallsNeither(now: string, from: string, calls: seq<Pending>, sid: string)
    ensures Neither(CallNotes(now, from, calls), sid)
  {
  }

  lemma OneNote(n: Note, sid: string)
    ensures DirectIn([n]) == (if IsDirect(n.body) then [n] else [])
    ensures AnswersIn([n], sid) == if n.session == sid && n.body.ToolResult? then [n.body] else []
  {
    assert [n][..0] == [];
  }

  /** The parts of one block's notes. */
  lemma BlockParts(now: string, ts: string, from: string, st: Session, b: ResultBlock, calls: seq<Pending>, sid: string)
    ensures var notes := CallNotes(now, from, calls) + [Note(from, TimeOr(now, ts), Answer(b, st.denied))];
            DirectIn(notes) == [] && AnswersIn(notes, sid) == if sid == from then [Answer(b, st.denied)] else []
  {
    var calls', answer := CallNotes(now, from, calls), Note(from, TimeOr(now, ts), Answer(b, st.denied));
    CallsNeither(now, from, calls, sid);
    NeitherHasNone(calls', sid);
    PartsConcat(calls', [answer], sid);
    OneNote(answer, sid);
    hide CallNotes, DirectIn, AnswersIn;
  }

  lemma {:induction false} BlockNotesParts(now: string, ts: string, from: string, st: Session, blocks: seq<ResultBlock>, sid: string)
    ensures DirectIn(BlockNotes(now, ts, from, st, blocks)) == []
    ensures AnswersIn(BlockNotes(now, ts, from, st, blocks), sid) == if sid == from then BlockAnswers(blocks, st.denied) else []
    decreases |blocks|
  {
    if blocks != [] {
      var b := blocks[0];
      var rest := BlockNotes(now, ts, from, AfterBlock(st, b), blocks[1..]);
      BlockNotesParts(now, ts, from, AfterBlock(st, b), blocks[1..], sid);
      assert AfterBlock(st, b).denied == st.denied;
      hide DirectIn, AnswersIn, CallNotes, Reach, AfterBlock, Answer, TimeOr;
      AsNone(rest);
      if b.callId != "" {
        var calls := st.pending[..Reach(st.pending, b.callId)];
        BlockParts(now, ts, from, st, b, calls, sid);
        PartsConcat(CallNotes(now, from, calls) + [Note(from, TimeOr(now, ts), Answer(b, st.denied))], rest, sid);
      }
    }
  }

  lemma ClosingParts(now: string, ts: string, from: string, ids: seq<string>, kind: string, denied: set<string>, sid: string)
    ensures var notes := ClosingNotes(now, ts, from, ids, kind, denied);
            DirectIn(notes) == [] && AnswersIn(notes, sid) == if sid == from then ClosingAnswers(ids, kind, denied) else []
  {
    var notes := ClosingNotes(now, ts, from, ids, kind, denied);
    AllAnswers(notes, from);
    if sid == from {
      assert AnswersIn(notes, sid) == ClosingAnswers(ids, kind, denied);
    } else {
      NeitherHasNone(notes, sid);
    }
  }

  lemma TurnParts(now: string, ts: string, from: string, st: Session, kind: string, sid: string)
    ensures var notes := TurnNotes(now, ts, from, st, kind);
            DirectIn(notes) == [] && AnswersIn(notes, sid) == if sid == from then ClosingAnswers(st.openCalls, kind, st.denied) else []
  {
    var calls, closing := CallNotes(now, from, st.pending), ClosingNotes(now, ts, from, st.openCalls, kind, st.denied);
    var text := if st.text == "" && st.reasoning == "" then [] else [Note(from, TimeOr(now, ts), AssistantMessage(st.reasoning, st.text))];
    CallsNeither(now, from, st.pending, sid);
    NeitherHasNone(calls, sid);
    NeitherHasNone(text, sid);
    ClosingParts(now, ts, from, st.openCalls, kind, st.denied, sid);
    PartsConcat(calls + text, closing, sid);
    PartsConcat(calls, text, sid);
    hide DirectIn, AnswersIn, CallNotes, ClosingNotes, ClosingAnswers;
  }

  lemma EventParts(now: string, ts: string, from: string, st: Session, c: Content, ev: SessionEvent, sid: string)
    requires EventFor(c) == Some((from, ev))
    ensures var notes := EventNotes(now, ts, from, st, ev);
            DirectIn(notes) == DirectsOf(now, ts, c) && AnswersIn(notes, sid) == AnswersOf(c, sid, if sid == from then st else NEW_SESSION, st.denied)
  {
    hide TurnNotes, BlockNotes, BlockAnswers, ClosingAnswers, TimeOr;
    var notes := EventNotes(now, ts, from, st, ev);
    match ev {
      case UserText(t) => AllDirect(notes, sid);
      case AssistantChunk(chunk) => AllDirect(notes, sid);
      case AssistantAttempt(records) => AllDirect(notes, sid);
      case AssistantContent(r, t) => NeitherHasNone(notes, sid);
      case TurnEnd(kind) => TurnParts(now, ts, from, st, if kind == "" then "stop" else kind, sid);
      case ResultFrame(blocks) => BlockNotesParts(now, ts, from, st, blocks, sid);
      case _ => NeitherHasNone(notes, sid);
    }
  }

  lemma NoneParts(now: string, ts: string, c: Content, sid: string, st: Session, denied: set<string>)
    requires EventFor(c).None? || EventFor(c).value.0 != sid
    ensures AnswersOf(c, sid, st, denied) == []
    ensures EventFor(c).None? && !c.RuntimeExit? && !c.SubagentFrame? ==> DirectsOf(now, ts, c) == []
  {
    hide TimeOr;
  }

  lemma PlainParts(s: State, c: Content, sid: string)
    requires c.RuntimeExit? || c.SubagentFrame?
    ensures EventFor(c).None? && DirectIn(Says(s, c)) == DirectsOf(s.now, s.curTs, c) && AnswersIn(Says(s, c), sid) == []
  {
    hide TimeOr;
    AllDirect(Says(s, c), sid);
  }

  lemma SaidEvent(s: State, c: Content)
    requires !c.RuntimeExit? && !c.SubagentFrame?
    ensures Says(s, c) == if EventFor(c).None? then []
                          else EventNotes(s.now, s.curTs, EventFor(c).value.0, Get(s, EventFor(c).value.0), EventFor(c).value.1)
  {
    hide EventNotes, EventFor;
  }

  /** The parts of what a frame says. */
  lemma SaysParts(s: State, c: Content, sid: string)
    ensures DirectIn(Says(s, c)) == DirectsOf(s.now, s.curTs, c)
    ensures AnswersIn(Says(s, c), sid) == AnswersOf(c, sid, Get(s, sid), Get(s, sid).denied)
  {
    hide *;
    NoneNeither(sid);
    NeitherHasNone([], sid);
    if c.RuntimeExit? || c.SubagentFrame? {
      PlainParts(s, c, sid);
      NoneParts(s.now, s.curTs, c, sid, Get(s, sid), Get(s, sid).denied);
    } else {
      SaidEvent(s, c);
      var e := EventFor(c);
      if e.None? {
        NoneParts(s.now, s.curTs, c, sid, Get(s, sid), Get(s, sid).denied);
      } else {
        var from := e.value.0;
        EventParts(s.now, s.curTs, from, Get(s, from), c, e.value.1, sid);
        if from != sid {
          NoneParts(s.now, s.curTs, c, sid, Get(s, sid), Get(s, sid).denied);
          NoneParts(s.now, s.curTs, c, sid, NEW_SESSION, Get(s, from).denied);
        }
      }
    }
  }

  lemma NoneNeither(sid: string)
    ensures Neither([], sid)
  {
  }

  lemma GraphParts(s: State, g: GraphEvent, sid: string)
    ensures DirectIn(GraphSays(s, g)) == [] && AnswersIn(GraphSays(s, g), sid) == []
  {
    NeitherHasNone(GraphSays(s, g), sid);
  }

  // ---- Sessions read off the frames ----

  /** The session but for decisions: what waits carries no approval, and nothing is denied. */
  function Blank(st: Session): Session
  {
    st.(pending := Bare(st.pending), denied := {})
  }

  function Bare(pending: seq<Pending>): (r: seq<Pending>)
    ensures |r| == |pending| && forall k | 0 <= k < |r| :: r[k] == pending[k].(approval := None)
  {
    seq(|pending|, k requires 0 <= k < |pending| => pending[k].(approval := None))
  }

  function TimeOf(fr: Frame): string { if fr.ts.At? then fr.ts.raw else "" }

  /** The session as the frames make it: turns, calls, preset, text, what is open and what waits. */
  function ReadSession(frames: seq<Frame>, sid: string): Session
  {
    if frames == [] then Session(false, 0, "", "", 0, [], {}, "", [])
    else
      var st, last := ReadSession(frames[..|frames| - 1], sid), frames[|frames| - 1];
      var e := EventFor(last.content);
      if e.Some? && e.value.0 == sid && !e.value.1.ApprovalDecided? then Blank(SessionAfter(sid, st, e.value.1, TimeOf(last))) else st
  }

  /** The questions that are open. */
  function ReadAsks(frames: seq<Frame>): map<string, Ask>
  {
    if frames == [] then map[] else AsksAfter(ReadAsks(frames[..|frames| - 1]), frames[|frames| - 1].content)
  }

  /** What the frames say for themselves, each at its time. */
  function ReadDirects(now: string, frames: seq<Frame>): seq<Note>
  {
    if frames == [] then []
    else
      var last := frames[|frames| - 1];
      ReadDirects(now, frames[..|frames| - 1]) + DirectsOf(now, TimeOf(last), last.content)
  }

  /** The results that the frames bring to a session, each denied if its id was by then. */
  function ReadAnswers(s: State, frames: seq<Frame>, sid: string): seq<Body>
  {
    if frames == [] then []
    else
      var init, last := frames[..|frames| - 1], frames[|frames| - 1];
      ReadAnswers(s, init, sid) + AnswersOf(last.content, sid, ReadSession(init, sid), Get(RunFrames(s, init), sid).denied)
  }

  lemma {:induction false} ReachBare(pending: seq<Pending>, id: string)
    ensures Reach(Bare(pending), id) == Reach(pending, id)
  {
    if pending != [] && pending[0].callId != id {
      ReachBare(pending[1..], id);
      assert Bare(pending)[1..] == Bare(pending[1..]);
    }
  }

  lemma BareFrom(pending: seq<Pending>, n: nat)
    requires n <= |pending|
    ensures Bare(pending[n..]) == Bare(pending)[n..] && Bare(Bare(pending)) == Bare(pending)
  {
  }

  lemma BlankBlock(st: Session, b: ResultBlock)
    ensures Blank(AfterBlock(st, b)) == Blank(AfterBlock(Blank(st), b)) == AfterBlock(Blank(st), b)
  {
    ReachBare(st.pending, b.callId);
    BareFrom(st.pending, Reach(st.pending, b.callId));
    hide Reach, Bare, LessOne;
    BareFrom(st.pending[Reach(st.pending, b.callId)..], 0);
  }

  lemma {:induction false} BlankBlocks(st: Session, blocks: seq<ResultBlock>)
    ensures Blank(AfterBlocks(st, blocks)) == AfterBlocks(Blank(st), blocks)
    decreases |blocks|
  {
    if blocks != [] {
      BlankBlock(st, blocks[0]);
      hide AfterBlock, Blank;
      BlankBlocks(AfterBlock(st, blocks[0]), blocks[1..]);
    }
  }

  lemma BlankTwice(st: Session)
    ensures Blank(Blank(st)) == Blank(st)
  {
    BareFrom(st.pending, 0);
  }

  lemma BareSnoc(pending: seq<Pending>, p: Pending)
    ensures Bare(pending + [p]) == Bare(pending) + [p.(approval := None)] && Bare([]) == []
  {
  }

  /** Decisions make no difference to what an event does to the rest of the session. */
  lemma BlankAfter(sid: string, st: Session, ev: SessionEvent, ts: string)
    ensures Blank(SessionAfter(sid, st, ev, ts)) == Blank(SessionAfter(sid, Blank(st), ev, ts))
  {
    BlankTwice(st);
    match ev {
      case ResultFrame(blocks) =>
        BlankBlocks(st, blocks);
        BlankBlocks(Blank(st), blocks);
      case CallFrame(name, callId) =>
        var id := if callId != "" then callId else NewId(sid, st.turnNo, st.callSeq + 1);
        var p := Pending(id, name, if st.preset == "" then None else Some(Preset(st.preset)), ts);
        BareSnoc(st.pending, p);
        BareSnoc(Bare(st.pending), p);
        hide NewId, Bare;
      case TurnEnd(kind) => BareSnoc([], Pending("", "", None, ""));
      case _ => hide Bare;
    }
  }

  lemma DecidedBlank(st: Session, st': Session)
    requires OnlyDecided(st, st')
    ensures Blank(st') == Blank(st)
  {
    assert Bare(st'.pending) == Bare(st.pending);
  }

  // ---- Over a run ----

  /** What is true of a state after these frames. */
  ghost predicate AsRead(s0: State, s: State, frames: seq<Frame>, sid: string)
  {
    && Blank(Get(s, sid)) == ReadSession(frames, sid) && s.asks == ReadAsks(frames)
    && DirectIn(Notes(s.events)) == ReadDirects(s0.now, frames)
    && AnswersIn(Notes(s.events), sid) == ReadAnswers(s0, frames, sid)
    && s.now == s0.now
  }

  /** Merging graph events changes none of that. */
  ghost predicate SameParts(s: State, s': State, sid: string)
  {
    && s'.sessions == s.sessions && s'.asks == s.asks && s'.now == s.now
    && DirectIn(Notes(s'.events)) == DirectIn(Notes(s.events)) && AnswersIn(Notes(s'.events), sid) == AnswersIn(Notes(s.events), sid)
  }

  lemma ApplyNextParts(s: State, sid: string)
    requires s.graphIdx < |s.graphQ|
    ensures SameParts(s, ApplyNext(s), sid)
  {
    GraphObeys(s);
    var g := s.graphQ[s.graphIdx];
    GraphParts(s, g, sid);
    PartsConcat(Notes(s.events), GraphSays(s, g), sid);
    hide ApplyNext, Notes, GraphSays, DirectIn, AnswersIn;
  }

  lemma {:induction false} FlushBeforeParts(s: State, edge: nat, sid: string)
    ensures SameParts(s, FlushBefore(s, edge), sid)
    decreases |s.graphQ| - s.graphIdx
  {
    if Due(s, edge) {
      ApplyNextParts(s, sid);
      ApplyKeepsQueue(s);
      FlushBeforeParts(ApplyNext(s), edge, sid);
      hide ApplyNext, Notes, DirectIn, AnswersIn;
    }
  }

  lemma {:induction false} FlushRemainingParts(s: State, sid: string)
    ensures SameParts(s, FlushRemaining(s), sid)
    decreases |s.graphQ| - s.graphIdx
  {
    if s.graphIdx < |s.graphQ| {
      ApplyNextParts(s, sid);
      ApplyKeepsQueue(s);
      FlushRemainingParts(ApplyNext(s), sid);
      hide ApplyNext, Notes, DirectIn, AnswersIn;
    }
  }

  lemma MergedParts(s: State, fr: Frame, sid: string)
    ensures SameParts(s, Merged(s, fr), sid) && Merged(s, fr).curTs == TimeOf(fr)
  {
    if fr.ts.At? {
      FlushBeforeParts(s, fr.ts.instant, sid);
    }
    hide FlushBefore, Notes, DirectIn, AnswersIn;
  }

  lemma NothingRead(now: string, q: seq<GraphEvent>, sid: string)
    ensures var s := Start(now, q);
            && Blank(Get(s, sid)) == ReadSession([], sid) && s.asks == map[] && s.now == now
            && DirectIn(Notes(s.events)) == [] && AnswersIn(Notes(s.events), sid) == []
  {
    var s := Start(now, q);
    NeitherHasNone(Notes(s.events), sid);
    BareSnoc([], Pending("", "", None, ""));
  }

  lemma ReadStep(s0: State, s: State, m: State, s': State, init: seq<Frame>, frames: seq<Frame>, sid: string)
    requires frames != [] && init == frames[..|frames| - 1] && s == RunFrames(s0, init)
    requires AsRead(s0, s, init, sid) && SameParts(s, m, sid) && m.curTs == TimeOf(frames[|frames| - 1])
    requires Law(m, frames[|frames| - 1].content, s')
    ensures AsRead(s0, s', frames, sid)
  {
    var last := frames[|frames| - 1];
    var c := last.content;
    SaysParts(m, c, sid);
    PartsConcat(Notes(m.events), Says(m, c), sid);
    assert Get(m, sid) == Get(s, sid);
    SessionStep(m, c, s', init, frames, sid);
    AnswersStep(c, sid, Get(s, sid), ReadSession(init, sid));
    hide Says, DirectIn, AnswersIn, Notes, DirectsOf, AnswersOf, ReadSession, Blank, SessionLaw, AsksAfter, RunFrames;
  }

  /** The approvals of what waits make no difference to the results. */
  lemma AnswersStep(c: Content, sid: string, st: Session, read: Session)
    requires Blank(st) == read
    ensures AnswersOf(c, sid, st, st.denied) == AnswersOf(c, sid, read, st.denied)
  {
    assert |Bare(st.pending)| == |st.pending|;
    hide BlockAnswers, ClosingAnswers, Bare;
  }

  lemma SessionStep(m: State, c: Content, s': State, init: seq<Frame>, frames: seq<Frame>, sid: string)
    requires frames != [] && init == frames[..|frames| - 1] && c == frames[|frames| - 1].content
    requires Blank(Get(m, sid)) == ReadSession(init, sid) && m.curTs == TimeOf(frames[|frames| - 1]) && Law(m, c, s')
    ensures Blank(Get(s', sid)) == ReadSession(frames, sid)
  {
    assert SessionLaw(m, c, s', sid);
    var e := EventFor(c);
    if e.Some? && e.value.0 == sid {
      if e.value.1.ApprovalDecided? {
        DecidedBlank(Get(m, sid), Get(s', sid));
      } else {
        BlankAfter(sid, Get(m, sid), e.value.1, m.curTs);
      }
    }
    hide Blank, SessionAfter, EventFor, Notes, OnlyDecided;
  }

  /** Over every run, for every session: its turns, calls, preset, text, open and waiting calls and
      the open questions are what the frames say; the log holds every user message, status, subagent
      and usage at its time, in order; and the results of the session are those of the blocks that
      came, each with its own id, and those of the calls that the end of a turn found open. */
  lemma {:induction false} RunIsRead(now: string, q: seq<GraphEvent>, frames: seq<Frame>, sid: string)
    ensures AsRead(Start(now, q), RunFrames(Start(now, q), frames), frames, sid)
    decreases |frames|
  {
    hide *;
    var s0 := Start(now, q);
    if frames == [] {
      RunOfNone(s0);
      NothingRead(now, q, sid);
      ReadNothing(s0, sid);
    } else {
      var init, last := frames[..|frames| - 1], frames[|frames| - 1];
      RunIsRead(now, q, init, sid);
      UnfoldRun(s0, frames);
      var s, m := RunFrames(s0, init), Merged(RunFrames(s0, init), last);
      MergedParts(s, last, sid);
      FrameObeys(m, last.content);
      ReadStep(s0, s, m, OnContentOf(m, last.content), init, frames, sid);
    }
  }

  lemma ReadNothing(s: State, sid: string)
    requires Blank(Get(s, sid)) == ReadSession([], sid) && s.asks == map[]
    requires DirectIn(Notes(s.events)) == [] && AnswersIn(Notes(s.events), sid) == []
    ensures AsRead(s, s, [], sid)
  {
    hide Notes, DirectIn, AnswersIn, Blank, ReadSession;
  }

  // ---- At the end of input ----

  /** The results that closing the unfinished sessions brings. */
  lemma CloseOneParts(s: State, closed: string, sid: string)
    requires closed != ""
    ensures var s', st := CloseOne(s, closed), Get(s, sid);
            && DirectIn(Notes(s'.events)) == DirectIn(Notes(s.events)) && s'.now == s.now && s'.curTs == s.curTs
            && (closed != sid ==> Get(s', sid) == st && AnswersIn(Notes(s'.events), sid) == AnswersIn(Notes(s.events), sid))
            && (closed == sid ==>
                  AnswersIn(Notes(s'.events), sid) ==
                  AnswersIn(Notes(s.events), sid) + ClosingAnswers(st.openCalls, "aborted", st.denied))
  {
    var st, from := Get(s, sid), Get(s, closed);
    CloseTurnAdds(s, closed, "aborted");
    TurnParts(s.now, s.curTs, closed, from, "aborted", sid);
    NoneNeither(sid);
    NeitherHasNone([], sid);
    var notes := if Idle(from) then [] else TurnNotes(s.now, s.curTs, closed, from, "aborted");
    PartsConcat(Notes(s.events), notes, sid);
    hide CloseTurn, Notes, DirectIn, AnswersIn, TurnNotes;
    assert ClosingAnswers([], "aborted", from.denied) == [];
  }

  ghost predicate ClosedAs(s: State, s': State, sid: string, more: seq<Body>)
  {
    DirectIn(Notes(s'.events)) == DirectIn(Notes(s.events)) && AnswersIn(Notes(s'.events), sid) == AnswersIn(Notes(s.events), sid) + more
  }

  lemma {:induction false} CloseSessionsParts(s: State, sids: seq<string>, sid: string)
    requires "" !in sids && Ascends(sids)
    ensures ClosedAs(s, CloseSessions(s, sids), sid,
                     if sid in sids then ClosingAnswers(Get(s, sid).openCalls, "aborted", Get(s, sid).denied) else [])
    decreases |sids|
  {
    if sids != [] {
      var head, rest := sids[0], sids[1..];
      var s1 := CloseOne(s, head);
      CloseOneParts(s, head, sid);
      HeadNotInTail(sids);
      InTail(sids, sid);
      CloseSessionsParts(s1, rest, sid);
      CloseSessionsStep(s, sids);
      hide CloseOne, CloseSessions, Notes, DirectIn, AnswersIn, ClosingAnswers;
    }
  }

  /** At the end of input the log holds all that, and, for every session, then a result for each of
      its calls that is still open, denied or indeterminate. */
  lemma LogIsRead(now: string, q: seq<GraphEvent>, frames: seq<Frame>, sids: seq<string>, sid: string)
    requires SortedIds(sids, RunFrames(Start(now, q), frames).sessions)
    ensures var s0, s, e := Start(now, q), RunFrames(Start(now, q), frames), Finish(RunFrames(Start(now, q), frames), sids);
            && DirectIn(Notes(e.events)) == ReadDirects(s0.now, frames)
            && AnswersIn(Notes(e.events), sid) ==
               ReadAnswers(s0, frames, sid) + ClosingAnswers(ReadSession(frames, sid).openCalls, "aborted", Get(s, sid).denied)
  {
    hide *;
    var s0, s := Start(now, q), RunFrames(Start(now, q), frames);
    RunIsRead(now, q, frames, sid);
    RunIsNamed(now, q, frames);
    FinishParts(s0, s, sids, frames, sid);
  }

  lemma FinishParts(s0: State, s: State, sids: seq<string>, frames: seq<Frame>, sid: string)
    requires AsRead(s0, s, frames, sid) && SortedIds(sids, s.sessions) && NamedSessions(s)
    ensures var e := Finish(s, sids);
            && DirectIn(Notes(e.events)) == ReadDirects(s0.now, frames)
            && AnswersIn(Notes(e.events), sid) ==
               ReadAnswers(s0, frames, sid) + ClosingAnswers(ReadSession(frames, sid).openCalls, "aborted", Get(s, sid).denied)
  {
    NamedIds(sids, s.sessions);
    FlushRemainingParts(s, sid);
    var r := FlushRemaining(s).(curTs := "");
    CloseSessionsParts(r, sids, sid);
    OutsideHasNone(s, sids, sid);
    assert Get(r, sid) == Get(s, sid);
    hide FlushRemaining, CloseSessions, Notes, DirectIn, AnswersIn, ReadDirects, ReadAnswers, ReadSession, ClosingAnswers;
  }

  lemma OutsideHasNone(s: State, sids: seq<string>, sid: string)
    requires SortedIds(sids, s.sessions)
    ensures sid !in sids ==> Get(s, sid) == NEW_SESSION
    ensures ClosingAnswers(NEW_SESSION.openCalls, "aborted", NEW_SESSION.denied) == []
    ensures Blank(Get(s, sid)).openCalls == Get(s, sid).openCalls
  {
    if sid !in sids {
      assert sid !in (set x | x in sids);
    }
  }
}
