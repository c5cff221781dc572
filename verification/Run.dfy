/** A whole projection: frames and graph events from start to end of input. */
module Run {
  import opened Wrappers
  import opened Decimals
  import opened Events
  import opened Projection
  import opened Protocol
  import opened Graph

  // ---- The run ----

  function Start(now: string, q: seq<GraphEvent>): State
  {
    EmitSpine(Emit(State([], map[], map[], "", now, q, 0, [], [], [], []), "", TaskCreated))
  }

  /** The state in which a frame's content is handled: graph events due by its time come
      first, and its own time, if it has one, is current. */
  function Merged(s: State, fr: Frame): State
  {
    (if fr.ts.At? then FlushBefore(s, fr.ts.instant) else s).(curTs := if fr.ts.At? then fr.ts.raw else "")
  }

  function OnFrame(s: State, fr: Frame): State { OnContentOf(Merged(s, fr), fr.content) }

  function RunFrames(s: State, frames: seq<Frame>): State
  {
    if frames == [] then s else OnFrame(RunFrames(s, frames[..|frames| - 1]), frames[|frames| - 1])
  }

  /** End of input: the remaining graph events, then every unfinished session is closed. */
  function Finish(s: State, sids: seq<string>): State
  {
    CloseSessions(FlushRemaining(s).(curTs := ""), sids)
  }

  // ---- What a frame adds to the log ----

  predicate Plain(e: Event) { !e.body.Graph? && !e.body.SpineUpdated? && !IsHandoff(e) }

  /** s' has more events than s, all plain, and the same graph state. */
  ghost predicate Extends(s: State, s': State)
  {
    && s.events <= s'.events && (forall k | |s.events| <= k < |s'.events| :: Plain(s'.events[k]))
    && s'.graphQ == s.graphQ && s'.graphIdx == s.graphIdx && s'.graphOpen == s.graphOpen
  }

  lemma ExtendsTrans(s: State, t: State, u: State)
    requires Extends(s, t) && Extends(t, u)
    ensures Extends(s, u)
  {
    forall k | |s.events| <= k < |u.events| ensures Plain(u.events[k]) {
      if k < |t.events| {
        assert u.events[k] == t.events[k];
      }
    }
  }

  lemma PlainEmit(s: State, session: string, body: Body, closes: bool)
    requires !body.Graph? && !body.SpineUpdated? && !body.HandoffCheckpointed? && !body.HandoffOther?
    ensures Extends(s, EmitAs(s, session, body, closes))
  {
  }

  lemma {:induction false} EmitCallsExtends(s: State, sid: string, calls: seq<Pending>)
    ensures Extends(s, EmitCalls(s, sid, calls))
    decreases |calls|
  {
    if calls != [] {
      var p := calls[0];
      var s1 := Emit(s.(curTs := p.ts), sid, ToolCall(p.callId, p.tool, p.approval)).(curTs := s.curTs);
      EmitCallsExtends(s1, sid, calls[1..]);
      assert Extends(s, s1);
      ExtendsTrans(s, s1, EmitCalls(s, sid, calls));
    }
  }

  lemma FlushFirstExtends(s: State, sid: string, cut: nat)
    requires cut <= |Get(s, sid).pending|
    ensures Extends(s, FlushFirst(s, sid, cut))
  {
    EmitCallsExtends(s, sid, Get(s, sid).pending[..cut]);
  }

  lemma OnResultBlockExtends(s: State, sid: string, b: ResultBlock)
    ensures Extends(s, OnResultBlock(s, sid, b))
  {
    var found := FirstCall(Get(s, sid).pending, b.callId);
    if found.Some? {
      FlushFirstExtends(s, sid, found.value + 1);
    }
    hide FlushFirst;
    var s1 := FlushTo(s, sid, b.callId);
    assert Extends(s, s1);
    if b.callId != "" {
      assert Extends(s1, OnResultBlock(s, sid, b));
      ExtendsTrans(s, s1, OnResultBlock(s, sid, b));
    }
  }

  lemma {:induction false} OnResultsExtends(s: State, sid: string, blocks: seq<ResultBlock>)
    ensures Extends(s, OnResults(s, sid, blocks))
    decreases |blocks|
  {
    if blocks != [] {
      hide Extends, OnResultBlock;
      var s1 := OnResultBlock(s, sid, blocks[0]);
      OnResultBlockExtends(s, sid, blocks[0]);
      OnResultsExtends(s1, sid, blocks[1..]);
      ExtendsTrans(s, s1, OnResults(s1, sid, blocks[1..]));
    } else {
      assert Extends(s, s);
    }
  }

  lemma {:induction false} OnRecordsExtends(s: State, sid: string, records: seq<Record>)
    ensures Extends(s, OnRecords(s, sid, records))
    decreases |records|
  {
    if records != [] {
      var st := Get(s, sid);
      var s1 := match records[0]
        case TextChunks(ts) => Put(s, sid, st.(text := st.text + Concat(ts)))
        case ReasoningChunks(ts) => Put(s, sid, st.(reasoning := st.reasoning + Concat(ts)))
        case Nested(c) => OnChunk(s, sid, c);
      assert Extends(s, s1);
      OnRecordsExtends(s1, sid, records[1..]);
      hide Extends, OnChunk;
      ExtendsTrans(s, s1, OnRecords(s1, sid, records[1..]));
    }
  }

  lemma {:induction false} CloseCallsExtends(s: State, sid: string, ids: seq<string>, outcome: Outcome)
    ensures Extends(s, CloseCalls(s, sid, ids, outcome))
    decreases |ids|
  {
    if ids != [] {
      var oc := if ids[0] in Get(s, sid).denied then DeniedOutcome else outcome;
      var s1 := EmitAs(s, sid, ToolResult(ids[0], oc == Completed, oc), true);
      PlainEmit(s, sid, ToolResult(ids[0], oc == Completed, oc), true);
      CloseCallsExtends(s1, sid, ids[1..], outcome);
      hide Extends;
      ExtendsTrans(s, s1, CloseCalls(s1, sid, ids[1..], outcome));
    }
  }

  lemma CloseTurnExtends(s: State, sid: string, kind: string)
    ensures Extends(s, CloseTurn(s, sid, kind))
  {
    var st := Get(s, sid);
    if !NothingToClose(st) {
      hide FlushFirst, CloseCalls, EmitCalls;
      var s0 := FlushFirst(s, sid, |st.pending|);
      FlushFirstExtends(s, sid, |st.pending|);
      var s1 := FlushText(s0, sid);
      assert Extends(s0, s1);
      CloseCallsExtends(s1, sid, Get(s1, sid).openCalls, CleanOutcome(kind));
      var s2 := CloseCalls(s1, sid, Get(s1, sid).openCalls, CleanOutcome(kind));
      var s3 := CloseTurn(s, sid, kind);
      assert s3 == Put(s2, sid, Get(s2, sid).(openCalls := [], turnOpen := false));
      assert Extends(s2, s3);
      hide Extends, FlushText, CloseTurn;
      ExtendsTrans(s, s0, s1);
      ExtendsTrans(s, s1, s2);
      ExtendsTrans(s, s2, s3);
    }
  }

  lemma OnDecidedExtends(s: State, sid: string, id: string, outcome: string)
    ensures Extends(s, OnDecided(s, sid, id, outcome))
  {
    if id in s.asks {
      LastMatchIsLast(s.asks[id], Get(s, sid).pending);
    }
    hide LastMatch;
  }

  lemma OnSessionEventExtends(s: State, sid: string, ev: SessionEvent)
    ensures Extends(s, OnSessionEvent(s, sid, ev))
  {
    var st := Get(s, sid);
    hide OnRecords, CloseTurn, OnResults, OnDecided;
    match ev
    case AssistantAttempt(rs) =>
      OnRecordsExtends(Put(s, sid, st), sid, rs);
    case TurnEnd(kind) => CloseTurnExtends(s, sid, if kind == "" then "stop" else kind);
    case ResultFrame(bs) =>
      OnResultsExtends(Put(s, sid, st), sid, bs);
    case ApprovalDecided(id, outcome) => OnDecidedExtends(s, sid, id, outcome);
    case _ =>
  }

  /** Whatever a frame holds, it adds only plain events and leaves the merge alone. */
  lemma OnContentOfExtends(s: State, c: Content)
    ensures Extends(s, OnContentOf(s, c))
  {
    hide OnSessionEvent, CloseTurn;
    match c
    case SessionStatus(sid, idle) => CloseTurnExtends(s, MAIN, "stop");
    case InSession(session, ev) => OnSessionEventExtends(s, SidOf(session), ev);
    case _ =>
  }

  lemma {:induction false} ExtendsKeepsGraph(s: State, s': State)
    requires Extends(s, s') && GraphOk(s)
    ensures GraphOk(s')
    decreases |s'.events|
  {
    if |s'.events| == |s.events| {
      assert s'.events == s.events;
    } else {
      var n := |s'.events| - 1;
      var t := s'.(events := s'.events[..n]);
      assert s'.events == t.events + [s'.events[n]];
      assert Plain(s'.events[n]);
      assert Extends(s, t);
      ExtendsKeepsGraph(s, t);
      hide GraphOk;
      OtherEventKeepsGraph(t, s', s'.events[n]);
    }
  }

  // ---- No projected event is a handoff event ----

  ghost predicate NoHandoff(log: seq<Event>) { forall k | 0 <= k < |log| :: !IsHandoff(log[k]) }

  lemma ExtendsNoHandoff(s: State, s': State)
    requires Extends(s, s') && NoHandoff(s.events)
    ensures NoHandoff(s'.events)
  {
    forall k | 0 <= k < |s'.events| ensures !IsHandoff(s'.events[k]) {
      if k < |s.events| {
        assert s'.events[k] == s.events[k];
      } else {
        assert Plain(s'.events[k]);
      }
    }
  }

  /** Everything that holds of a state throughout a run. */
  ghost predicate RunOk(s: State) { Ok(s) && GraphOk(s) && NoHandoff(s.events) }

  lemma ApplyNextRunOk(s: State)
    requires RunOk(s) && s.graphIdx < |s.graphQ|
    ensures RunOk(ApplyNext(s))
  {
    hide Ok, GraphOk;
    ApplyNextOk(s);
    var g := s.graphQ[s.graphIdx];
    if g.kind.UnknownKind? {
      SideOk(s, ApplyNext(s));
    } else {
      ApplyNextIs(s);
      EnteredEvent(s);
      EmitOk(s, SessionOf(g.kind), Graph(g.kind));
      var e := Entered(s);
      OtherEventOk(s, e, e.events[|s.events|], false);
      EmitSpineOk(e);
      var shown := if ShowsSpine(g.kind) then EmitSpine(e) else e;
      SideOk(shown, ApplyNext(s));
    }
  }

  lemma EnteredEvent(s: State)
    requires s.graphIdx < |s.graphQ|
    ensures |Entered(s).events| == |s.events| + 1
    ensures OneMore(s, Entered(s), Entered(s).events[|s.events|], false)
    ensures Entered(s).events[|s.events|].body == Graph(s.graphQ[s.graphIdx].kind)
  {
    hide OpenStep, SessionOf, Resolve;
  }

  lemma EmitSpineOk(s: State)
    requires Ok(s)
    ensures Ok(EmitSpine(s))
  {
    hide Ok;
    EmitOk(s, "", SpineUpdated(|s.events|, s.graphOpen));
  }

  lemma SideOk(s: State, s': State)
    requires Ok(s) && s'.events == s.events && s'.closing == s.closing && s'.arrived == s.arrived
    requires s'.denials == s.denials && s'.now == s.now && s'.sessions == s.sessions
    ensures Ok(s')
  {
    hide Ok;
    forall sid ensures SameCalls(s, s', sid) {
    }
    SideFieldsOk(s, s');
  }

  lemma {:induction false} FlushBeforeRunOk(s: State, edge: nat)
    requires RunOk(s)
    ensures RunOk(FlushBefore(s, edge))
    decreases |s.graphQ| - s.graphIdx
  {
    hide RunOk, ApplyNext;
    if Due(s, edge) {
      ApplyNextRunOk(s);
      ApplyKeepsQueue(s);
      FlushBeforeRunOk(ApplyNext(s), edge);
    }
  }

  lemma {:induction false} FlushRemainingRunOk(s: State)
    requires RunOk(s)
    ensures RunOk(FlushRemaining(s))
    decreases |s.graphQ| - s.graphIdx
  {
    hide RunOk, ApplyNext;
    if s.graphIdx < |s.graphQ| {
      ApplyNextRunOk(s);
      ApplyKeepsQueue(s);
      FlushRemainingRunOk(ApplyNext(s));
    }
  }

  lemma SideRunOk(s: State, ts: string)
    requires RunOk(s)
    ensures RunOk(s.(curTs := ts))
  {
    hide Ok, GraphOk;
    SideOk(s, s.(curTs := ts));
    TimeKeepsGraph(s, ts);
  }

  lemma OnFrameOk(s: State, fr: Frame)
    requires RunOk(s)
    ensures RunOk(Merged(s, fr)) && RunOk(OnFrame(s, fr))
  {
    hide Ok, GraphOk, NoHandoff, FlushBefore, OnContentOf;
    if fr.ts.At? {
      FlushBeforeRunOk(s, fr.ts.instant);
      SideRunOk(FlushBefore(s, fr.ts.instant), fr.ts.raw);
    } else {
      SideRunOk(s, "");
    }
    var m := Merged(s, fr);
    OnContentOfOk(m, fr.content);
    OnContentOfExtends(m, fr.content);
    ExtendsKeepsGraph(m, OnContentOf(m, fr.content));
    ExtendsNoHandoff(m, OnContentOf(m, fr.content));
  }

  lemma StartOk(now: string, q: seq<GraphEvent>)
    ensures RunOk(Start(now, q))
    ensures Start(now, q).graphIdx == 0 && Start(now, q).graphQ == q && Start(now, q).sessions == map[]
  {
    var s0 := State([], map[], map[], "", now, q, 0, [], [], [], []);
    forall sid ensures SessionOk(s0, sid) {
      assert Buffered(now, []) == [] && PendingIds([]) == [] && Ids([]) == [];
      assert s0.events[..0] == [] && s0.closing[..0] == [];
      assert CallBalance(s0.events, s0.closing, sid, 0);
    }
    assert Ok(s0) && GraphOk(s0);
    var s1 := Emit(s0, "", TaskCreated);
    hide Ok, GraphOk;
    EmitOk(s0, "", TaskCreated);
    OtherEventKeepsGraph(s0, s1, s1.events[0]);
    EmitSpineOk(s1);
    EmitSpineKeepsGraph(s1);
  }

  /** Every state of every run is fine, whatever the frames and graph events are. */
  lemma {:induction false} RunKeeps(now: string, q: seq<GraphEvent>, frames: seq<Frame>)
    ensures RunOk(RunFrames(Start(now, q), frames))
    decreases |frames|
  {
    hide RunOk, OnFrame, Start;
    if frames == [] {
      StartOk(now, q);
    } else {
      RunKeeps(now, q, frames[..|frames| - 1]);
      OnFrameOk(RunFrames(Start(now, q), frames[..|frames| - 1]), frames[|frames| - 1]);
    }
  }

  // ---- End of input ----

  predicate Ascends(sids: seq<string>)
  {
    forall i, j | 0 <= i < j < |sids| :: Less(sids[i], sids[j])
  }

  /** The session ids in ascending order, each once. */
  predicate SortedIds(sids: seq<string>, sessions: map<string, Session>)
  {
    Ascends(sids) && (set x | x in sids) == sessions.Keys
  }

  lemma HeadNotInTail(x: seq<string>)
    requires Ascends(x) && x != []
    ensures x[0] !in x[1..]
  {
    LessIsTotal(x[0], x[0]);
  }

  lemma InTail(x: seq<string>, s: string)
    requires x != []
    ensures s in x <==> s == x[0] || s in x[1..]
  {
    assert x == [x[0]] + x[1..];
  }

  lemma HeadIsIn(y: seq<string>)
    ensures y == [] || y[0] in y
  {
  }

  lemma {:induction false} OneSorting(x: seq<string>, y: seq<string>)
    requires Ascends(x) && Ascends(y) && (forall s :: s in x <==> s in y)
    ensures x == y
    decreases |x|
  {
    if x == [] {
      HeadIsIn(y);
    } else {
      assert x[0] in x && x[0] in y;
      var i :| 0 <= i < |y| && y[i] == x[0];
      assert y[0] in x;
      var j :| 0 <= j < |x| && x[j] == y[0];
      LessIsTotal(x[0], y[0]);
      assert i == 0 && j == 0;
      HeadNotInTail(x);
      HeadNotInTail(y);
      forall s ensures s in x[1..] <==> s in y[1..] {
        InTail(x, s);
        InTail(y, s);
      }
      OneSorting(x[1..], y[1..]);
      assert x == [x[0]] + x[1..] && y == [y[0]] + y[1..];
    }
  }

  /** The end of input does not depend on how the session map is iterated. */
  lemma FinishIsDeterministic(s: State, x: seq<string>, y: seq<string>)
    requires SortedIds(x, FlushRemaining(s).sessions) && SortedIds(y, FlushRemaining(s).sessions)
    ensures Finish(s, x) == Finish(s, y)
  {
    forall sid ensures sid in x <==> sid in y {
      assert sid in (set k | k in x) <==> sid in FlushRemaining(s).sessions.Keys;
      assert sid in (set k | k in y) <==> sid in FlushRemaining(s).sessions.Keys;
    }
    OneSorting(x, y);
  }

  predicate Closed(st: Session) { st.openCalls == [] && st.pending == [] && !st.turnOpen }

  /** A session with nothing open has nothing buffered either. */
  lemma NothingBuffered(s: State, sid: string)
    requires Ok(s) && Get(s, sid).openCalls == []
    ensures Get(s, sid).pending == []
  {
    assert SessionOk(s, sid);
    var pending := Get(s, sid).pending;
    if pending != [] {
      PendingInIds(pending);
    }
  }

  lemma PendingInIds(pending: seq<Pending>)
    requires pending != []
    ensures pending[0].callId in multiset(PendingIds(pending))
  {
    assert PendingIds(pending)[0] == pending[0].callId;
  }

  lemma CloseTurnElsewhere(s: State, sid: string, kind: string, other: string)
    requires other != sid
    ensures Get(CloseTurn(s, sid, kind), other) == Get(s, other)
  {
    var st := Get(s, sid);
    if !NothingToClose(st) {
      EmitCallsPut(s, sid, st.pending[..|st.pending|], sid, st);
      hide EmitCalls, CloseCalls;
      var s1 := FlushText(FlushFirst(s, sid, |st.pending|), sid);
      CloseCallsPut(s1, sid, Get(s1, sid).openCalls, CleanOutcome(kind), Get(s1, sid));
    }
  }

  /** Text that arrived outside any turn stays behind when its session has nothing to close. */
  predicate TextLost(st: Session) { NothingToClose(st) && (st.text != "" || st.reasoning != "") }

  predicate HasText(st: Session) { st.text != "" || st.reasoning != "" }

  function CloseOne(s: State, sid: string): State { if Unfinished(Get(s, sid)) then CloseTurn(s, sid, "aborted") else s }

  lemma CloseOneOk(s: State, sid: string)
    requires Ok(s) && sid != ""
    ensures Ok(CloseOne(s, sid)) && Closed(Get(CloseOne(s, sid), sid))
    ensures HasText(Get(CloseOne(s, sid), sid)) <==> TextLost(Get(s, sid))
    ensures forall other | other != sid :: Get(CloseOne(s, sid), other) == Get(s, other)
    ensures Extends(s, CloseOne(s, sid))
  {
    hide Ok, Extends, CloseTurn;
    if Unfinished(Get(s, sid)) {
      CloseTurnOk(s, sid, "aborted");
      CloseTurnExtends(s, sid, "aborted");
      forall other | other != sid ensures Get(CloseOne(s, sid), other) == Get(s, other) {
        CloseTurnElsewhere(s, sid, "aborted", other);
      }
      ClosedSessionText(s, sid);
    } else {
      NothingBuffered(s, sid);
      ExtendsRefl(s);
    }
  }

  lemma ExtendsRefl(s: State)
    ensures Extends(s, s)
  {
  }

  lemma ClosedSessionText(s: State, sid: string)
    ensures NothingToClose(Get(s, sid)) ==> Get(CloseTurn(s, sid, "aborted"), sid) == Get(s, sid)
  {
    hide EmitCalls, CloseCalls;
  }

  lemma {:induction false} CloseSessionsOk(s: State, sids: seq<string>)
    requires RunOk(s) && "" !in sids
    ensures RunOk(CloseSessions(s, sids))
    ensures forall sid | sid in sids :: Closed(Get(CloseSessions(s, sids), sid))
    ensures forall sid | sid !in sids :: Get(CloseSessions(s, sids), sid) == Get(s, sid)
    ensures Ascends(sids) ==>
              forall sid | sid in sids :: HasText(Get(CloseSessions(s, sids), sid)) <==> TextLost(Get(s, sid))
    decreases |sids|
  {
    if sids != [] {
      var sid, rest := sids[0], sids[1..];
      var s1 := CloseOne(s, sid);
      assert sids == [sid] + rest;
      hide RunOk, Closed, TextLost, HasText, CloseOne, Extends, NothingToClose;
      CloseOneRunOk(s, sid);
      CloseSessionsOk(s1, rest);
      CloseSessionsStep(s, sids);
      if Ascends(sids) {
        LessIsTotal(sid, sid);
        assert sid !in rest;
      }
      forall other | other in sids ensures Closed(Get(CloseSessions(s, sids), other)) {
        if other !in rest {
          assert other == sid;
        }
      }
    }
  }

  lemma CloseSessionsStep(s: State, sids: seq<string>)
    requires sids != []
    ensures CloseSessions(s, sids) == CloseSessions(CloseOne(s, sids[0]), sids[1..])
  {
    hide CloseTurn, Unfinished;
  }

  lemma CloseOneRunOk(s: State, sid: string)
    requires RunOk(s) && sid != ""
    ensures RunOk(CloseOne(s, sid)) && Closed(Get(CloseOne(s, sid), sid))
    ensures HasText(Get(CloseOne(s, sid), sid)) <==> TextLost(Get(s, sid))
    ensures forall other | other != sid :: Get(CloseOne(s, sid), other) == Get(s, other)
  {
    hide Ok, GraphOk, NoHandoff, CloseOne, Extends, Closed, TextLost, HasText;
    CloseOneOk(s, sid);
    ExtendsKeepsGraph(s, CloseOne(s, sid));
    ExtendsNoHandoff(s, CloseOne(s, sid));
  }

  // ---- The main results ----

  /** Sessions are only ever made for real ids. */
  ghost predicate NamedSessions(s: State) { "" !in s.sessions }

  /** At most the session sid is new. */
  ghost predicate OnlyNew(s: State, s': State, sid: string)
  {
    forall other | other != sid :: other in s'.sessions <==> other in s.sessions
  }

  lemma OnResultBlockOnlyNew(s: State, sid: string, b: ResultBlock)
    ensures OnlyNew(s, OnResultBlock(s, sid, b), sid)
  {
    var found := FirstCall(Get(s, sid).pending, b.callId);
    if found.Some? {
      EmitCallsPut(s, sid, Get(s, sid).pending[..found.value + 1], sid, NEW_SESSION);
    }
    hide EmitCalls;
  }

  lemma {:induction false} OnResultsOnlyNew(s: State, sid: string, blocks: seq<ResultBlock>)
    ensures OnlyNew(s, OnResults(s, sid, blocks), sid)
    decreases |blocks|
  {
    if blocks != [] {
      OnResultBlockOnlyNew(s, sid, blocks[0]);
      OnResultsOnlyNew(OnResultBlock(s, sid, blocks[0]), sid, blocks[1..]);
      hide OnResultBlock;
    }
  }

  lemma {:induction false} OnRecordsOnlyNew(s: State, sid: string, records: seq<Record>)
    ensures OnlyNew(s, OnRecords(s, sid, records), sid)
    decreases |records|
  {
    if records != [] {
      var st := Get(s, sid);
      var s1 := match records[0]
        case TextChunks(ts) => Put(s, sid, st.(text := st.text + Concat(ts)))
        case ReasoningChunks(ts) => Put(s, sid, st.(reasoning := st.reasoning + Concat(ts)))
        case Nested(c) => OnChunk(s, sid, c);
      OnRecordsOnlyNew(s1, sid, records[1..]);
    }
  }

  lemma CloseTurnOnlyNew(s: State, sid: string, kind: string)
    ensures OnlyNew(s, CloseTurn(s, sid, kind), sid)
  {
    var st := Get(s, sid);
    if !NothingToClose(st) {
      EmitCallsPut(s, sid, st.pending[..|st.pending|], sid, st);
      hide EmitCalls, CloseCalls;
      var s1 := FlushText(FlushFirst(s, sid, |st.pending|), sid);
      CloseCallsPut(s1, sid, Get(s1, sid).openCalls, CleanOutcome(kind), Get(s1, sid));
    }
  }

  lemma OnSessionEventOnlyNew(s: State, sid: string, ev: SessionEvent)
    ensures OnlyNew(s, OnSessionEvent(s, sid, ev), sid)
  {
    var st := Get(s, sid);
    hide OnRecords, CloseTurn, OnResults;
    match ev
    case AssistantAttempt(rs) => OnRecordsOnlyNew(Put(s, sid, st), sid, rs);
    case TurnEnd(kind) => CloseTurnOnlyNew(s, sid, if kind == "" then "stop" else kind);
    case ResultFrame(bs) => OnResultsOnlyNew(Put(s, sid, st), sid, bs);
    case ApprovalDecided(id, outcome) => LastMatchIsLast(if id in s.asks then s.asks[id] else Ask("", ""), st.pending);
    case _ =>
  }

  lemma OnContentOfNamed(s: State, c: Content)
    requires NamedSessions(s)
    ensures NamedSessions(OnContentOf(s, c))
  {
    hide OnSessionEvent, CloseTurn;
    match c
    case SessionStatus(sid, idle) => CloseTurnOnlyNew(s, MAIN, "stop");
    case InSession(session, ev) => OnSessionEventOnlyNew(s, SidOf(session), ev);
    case _ =>
  }

  lemma {:induction false} FlushBeforeSessions(s: State, edge: nat)
    ensures FlushBefore(s, edge).sessions == s.sessions
    decreases |s.graphQ| - s.graphIdx
  {
    if Due(s, edge) {
      ApplyKeepsQueue(s);
      hide ApplyNext;
      FlushBeforeSessions(ApplyNext(s), edge);
    }
  }

  lemma {:induction false} RunIsNamed(now: string, q: seq<GraphEvent>, frames: seq<Frame>)
    ensures NamedSessions(RunFrames(Start(now, q), frames))
    decreases |frames|
  {
    if frames == [] {
      StartOk(now, q);
    } else {
      var init, last := frames[..|frames| - 1], frames[|frames| - 1];
      RunIsNamed(now, q, init);
      var s := RunFrames(Start(now, q), init);
      if last.ts.At? {
        FlushBeforeSessions(s, last.ts.instant);
      }
      assert NamedSessions(Merged(s, last));
      hide OnContentOf, Merged;
      OnContentOfNamed(Merged(s, last), last.content);
    }
  }

  lemma {:induction false} ClosedAreResults(log: seq<Event>, closing: seq<bool>, sid: string)
    requires |closing| == |log|
    ensures ClosedIn(log, closing, sid) <= ResultsIn(log, sid)
  {
    if log != [] {
      ClosedAreResults(log[..|log| - 1], closing[..|log| - 1], sid);
    }
  }

  /** When a session has nothing open or buffered, its log holds every call that arrived, in
      order and with its time, and for every call id at least as many results as calls. */
  lemma ClosedSessionIsComplete(s: State, sid: string)
    requires Ok(s) && Closed(Get(s, sid))
    ensures CallsIn(s.events, sid) == ArrivedIn(s.arrived, sid)
    ensures multiset(Ids(CallsIn(s.events, sid))) <= ResultsIn(s.events, sid)
  {
    assert SessionOk(s, sid);
    assert Buffered(s.now, []) == [];
    ClosedAreResults(s.events, s.closing, sid);
    assert CallsIn(s.events, sid) + [] == CallsIn(s.events, sid);
    assert multiset([]) + ClosedIn(s.events, s.closing, sid) == ClosedIn(s.events, s.closing, sid);
  }

  /** At the end of input, whatever the input was: nothing is open or buffered, every call
      that arrived is in the log in order, each has its result, every graph event was merged,
      and buffered text is lost exactly in sessions that had nothing else to close. */
  lemma RunEndsClosed(now: string, q: seq<GraphEvent>, frames: seq<Frame>, sids: seq<string>)
    requires SortedIds(sids, RunFrames(Start(now, q), frames).sessions)
    ensures var s, e := RunFrames(Start(now, q), frames), Finish(RunFrames(Start(now, q), frames), sids);
            && RunOk(e)
            && (forall sid :: Closed(Get(e, sid)))
            && (forall sid :: CallsIn(e.events, sid) == ArrivedIn(e.arrived, sid))
            && (forall sid :: multiset(Ids(CallsIn(e.events, sid))) <= ResultsIn(e.events, sid))
            && KindsIn(e.events) == KnownKinds(e.graphQ, |e.graphQ|)
            && (forall sid | sid in sids :: HasText(Get(e, sid)) <==> TextLost(Get(s, sid)))
  {
    var s := RunFrames(Start(now, q), frames);
    RunKeeps(now, q, frames);
    RunIsNamed(now, q, frames);
    FlushRemainingRunOk(s);
    FlushRemainingOk(s);
    var r := FlushRemaining(s).(curTs := "");
    SideRunOk(FlushRemaining(s), "");
    NamedIds(sids, s.sessions);
    CloseSessionsOk(r, sids);
    var e := CloseSessions(r, sids);
    CloseSessionsExtends(r, sids);
    forall sid ensures Closed(Get(e, sid)) {
      if sid !in sids {
        assert sid !in s.sessions by { assert sid !in (set x | x in sids); }
      }
    }
    forall sid ensures CallsIn(e.events, sid) == ArrivedIn(e.arrived, sid) &&
                       multiset(Ids(CallsIn(e.events, sid))) <= ResultsIn(e.events, sid)
    {
      ClosedSessionIsComplete(e, sid);
    }
  }

  lemma NamedIds(sids: seq<string>, sessions: map<string, Session>)
    requires SortedIds(sids, sessions) && "" !in sessions
    ensures "" !in sids && Ascends(sids)
  {
    assert "" !in (set x | x in sids);
  }

  lemma {:induction false} CloseSessionsExtends(s: State, sids: seq<string>)
    requires RunOk(s) && "" !in sids
    ensures Extends(s, CloseSessions(s, sids))
    decreases |sids|
  {
    if sids == [] {
      ExtendsRefl(s);
    } else {
      var s1 := CloseOne(s, sids[0]);
      hide RunOk, Extends, CloseOne;
      CloseOneRunOk(s, sids[0]);
      CloseOneExtends(s, sids[0]);
      CloseSessionsExtends(s1, sids[1..]);
      CloseSessionsStep(s, sids);
      ExtendsTrans(s, s1, CloseSessions(s1, sids[1..]));
    }
  }

  lemma CloseOneExtends(s: State, sid: string)
    ensures Extends(s, CloseOne(s, sid))
  {
    hide Extends, CloseTurn;
    ExtendsRefl(s);
    CloseTurnExtends(s, sid, "aborted");
  }

  // ---- Merging by time ----

  predicate SortedInstants(q: seq<GraphEvent>)
  {
    forall i, j | 0 <= i < j < |q| :: q[i].instant <= q[j].instant
  }

  /** Graph event k is due at one of the frames. */
  predicate DueBy(q: seq<GraphEvent>, frames: seq<Frame>, k: nat)
    requires k < |q|
  {
    exists f :: 0 <= f < |frames| && frames[f].ts.At? && q[k].instant <= frames[f].ts.instant
  }

  /** Exactly the events due by the frames so far have been merged. */
  ghost predicate CutAt(s: State, frames: seq<Frame>)
  {
    forall k | 0 <= k < |s.graphQ| :: k < s.graphIdx <==> DueBy(s.graphQ, frames, k)
  }

  lemma {:induction false} FlushBeforeKeepsQueue(s: State, edge: nat)
    ensures FlushBefore(s, edge).graphQ == s.graphQ
    decreases |s.graphQ| - s.graphIdx
  {
    if Due(s, edge) {
      ApplyKeepsQueue(s);
      hide ApplyNext;
      FlushBeforeKeepsQueue(ApplyNext(s), edge);
    }
  }

  lemma DueBySnoc(q: seq<GraphEvent>, frames: seq<Frame>, fr: Frame, k: nat)
    requires k < |q|
    ensures DueBy(q, frames + [fr], k) <==> DueBy(q, frames, k) || (fr.ts.At? && q[k].instant <= fr.ts.instant)
  {
    var all := frames + [fr];
    if DueBy(q, frames, k) {
      var f :| 0 <= f < |frames| && frames[f].ts.At? && q[k].instant <= frames[f].ts.instant;
      assert all[f] == frames[f];
    }
    if fr.ts.At? && q[k].instant <= fr.ts.instant {
      assert all[|frames|] == fr;
    }
  }

  lemma MergedIndex(s: State, fr: Frame)
    requires GraphOk(s) && SortedInstants(s.graphQ)
    ensures Merged(s, fr).graphQ == s.graphQ && s.graphIdx <= Merged(s, fr).graphIdx <= |s.graphQ|
    ensures fr.ts.At? ==> forall k | s.graphIdx <= k < |s.graphQ| ::
                            k < Merged(s, fr).graphIdx <==> s.graphQ[k].instant <= fr.ts.instant
    ensures !fr.ts.At? ==> Merged(s, fr).graphIdx == s.graphIdx
  {
    if fr.ts.At? {
      FlushBeforeOk(s, fr.ts.instant);
    }
    hide FlushBefore;
  }

  lemma MergedCut(s: State, frames: seq<Frame>, fr: Frame)
    requires GraphOk(s) && SortedInstants(s.graphQ) && CutAt(s, frames)
    ensures CutAt(Merged(s, fr), frames + [fr]) && Merged(s, fr).graphQ == s.graphQ
  {
    var q, m := s.graphQ, Merged(s, fr);
    MergedIndex(s, fr);
    hide GraphOk, Merged, DueBy;
    forall k | 0 <= k < |q| ensures k < m.graphIdx <==> DueBy(q, frames + [fr], k) {
      DueBySnoc(q, frames, fr, k);
      assert k < s.graphIdx <==> DueBy(q, frames, k);
    }
  }

  ghost predicate CutHere(m: State, q: seq<GraphEvent>, frames: seq<Frame>)
  {
    m.graphQ == q && m.graphIdx <= |q| && CutAt(m, frames) && KindsIn(m.events) == KnownKinds(q, m.graphIdx)
  }

  lemma CutAfterContent(m: State, q: seq<GraphEvent>, frames: seq<Frame>, c: Content)
    requires CutHere(m, q, frames)
    ensures OnContentOf(m, c).graphQ == q && CutAt(OnContentOf(m, c), frames)
  {
    hide OnContentOf;
    OnContentOfExtends(m, c);
  }

  lemma CutAtStart(now: string, q: seq<GraphEvent>)
    ensures CutAt(Start(now, q), []) && Start(now, q).graphQ == q
  {
    StartOk(now, q);
  }

  lemma CutBeforeContent(s: State, q: seq<GraphEvent>, frames: seq<Frame>, fr: Frame)
    requires RunOk(s) && s.graphQ == q && SortedInstants(q) && CutAt(s, frames)
    ensures CutHere(Merged(s, fr), q, frames + [fr])
  {
    hide Merged, CutAt, Ok, NoHandoff, KindsIn, KnownKinds, SnapshotsTrue, SortedInstants, OpenAfter;
    OnFrameOk(s, fr);
    MergedCut(s, frames, fr);
  }

  lemma UnfoldRun(s: State, frames: seq<Frame>)
    requires frames != []
    ensures var init, last := frames[..|frames| - 1], frames[|frames| - 1];
            frames == init + [last] && RunFrames(s, frames) == OnContentOf(Merged(RunFrames(s, init), last), last.content)
  {
    hide OnContentOf, Merged;
  }

  /** With graph events in time order, and frames in any order: when a frame's content is
      handled, the log holds exactly the graph events at or before the time of that frame or
      of one before it. */
  lemma {:induction false} MergeIsByTime(now: string, q: seq<GraphEvent>, frames: seq<Frame>, fr: Frame)
    requires SortedInstants(q)
    ensures CutHere(Merged(RunFrames(Start(now, q), frames), fr), q, frames + [fr])
    decreases |frames|
  {
    hide *;
    RunKeeps(now, q, frames);
    if frames == [] {
      CutAtStart(now, q);
      RunOfNone(Start(now, q));
    } else {
      var init, last := frames[..|frames| - 1], frames[|frames| - 1];
      UnfoldRun(Start(now, q), frames);
      MergeIsByTime(now, q, init, last);
      CutAfterContent(Merged(RunFrames(Start(now, q), init), last), q, frames, last.content);
    }
    CutBeforeContent(RunFrames(Start(now, q), frames), q, frames, fr);
  }

  lemma RunOfNone(s: State)
    ensures RunFrames(s, []) == s
  {
  }
}
