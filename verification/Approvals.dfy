/** Which approval a call carries over a whole run, and when that agrees with its results. */
module Approvals {
  import opened Wrappers
  import opened Events
  import opened Projection
  import opened Protocol
  import opened Graph
  import opened Run

  // ---- The call that a decision goes to ----

  /** No decision has been taken for the call: it has at most its preset. */
  predicate Undecided(p: Pending) { NoDecision(p.approval) }

  predicate NoDecision(approval: Option<Approval>) { approval.None? || approval.value.Preset? }

  /** The nearest undecided call that the ask is about, as the documentation has it. */
  function LastUndecided(ask: Ask, pending: seq<Pending>): Option<nat>
  {
    if pending == [] then None
    else
      var p := pending[|pending| - 1];
      if AskMatches(ask, p) && Undecided(p) then Some(|pending| - 1)
      else LastUndecided(ask, pending[..|pending| - 1])
  }

  lemma {:induction false} LastUndecidedIsLast(ask: Ask, pending: seq<Pending>)
    ensures var m := LastUndecided(ask, pending);
            && (m.None? <==> forall k | 0 <= k < |pending| :: !(AskMatches(ask, pending[k]) && Undecided(pending[k])))
            && (m.Some? ==> m.value < |pending| && AskMatches(ask, pending[m.value]) && Undecided(pending[m.value]))
            && (m.Some? ==> forall k | m.value < k < |pending| :: !(AskMatches(ask, pending[k]) && Undecided(pending[k])))
    decreases |pending|
  {
    if pending != [] {
      LastUndecidedIsLast(ask, pending[..|pending| - 1]);
    }
  }

  /** The decision goes where the documentation sends it exactly when the last call that it
      could be about is undecided, or there is no such call. */
  lemma {:induction false} NearestUndecidedIff(ask: Ask, pending: seq<Pending>)
    ensures var m := LastMatch(ask, pending);
            && (m.Some? ==> m.value < |pending|)
            && (m == LastUndecided(ask, pending) <==> m.None? || Undecided(pending[m.value]))
  {
    LastMatchIsLast(ask, pending);
    LastUndecidedIsLast(ask, pending);
  }

  function OnMain(event: SessionEvent): Frame { Frame(NoTs, InSession(MAIN, event)) }

  /** Two calls of one tool, an ask for each without a call id, and one decision of each kind. */
  const TWO_DECISIONS: seq<Frame> := [
    OnMain(CallFrame("t", "a")), OnMain(CallFrame("t", "b")),
    OnMain(ApprovalAsked("1", "t", "")), OnMain(ApprovalAsked("2", "t", "")),
    OnMain(ApprovalDecided("1", "rejected")), OnMain(ApprovalDecided("2", "allowed-once"))]

  lemma RunOf(s: State, init: seq<Frame>, ev: SessionEvent)
    ensures RunFrames(s, init + [OnMain(ev)]) == OnSessionEvent(RunFrames(s, init).(curTs := ""), MAIN, ev)
  {
    var frames := init + [OnMain(ev)];
    assert frames[..|frames| - 1] == init;
    hide OnSessionEvent;
  }

  function TwoCalls(approval: Option<Approval>): seq<Pending>
  {
    [Pending("a", "t", None, ""), Pending("b", "t", approval, "")]
  }

  lemma MatchesTheSecond(approval: Option<Approval>)
    ensures LastMatch(Ask("t", ""), TwoCalls(approval)) == Some(1)
    ensures LastUndecided(Ask("t", ""), TwoCalls(Some(Denied))) == Some(0)
  {
    assert TwoCalls(approval)[1].tool == "t";
    assert TwoCalls(Some(Denied))[..1] == [Pending("a", "t", None, "")];
  }

  /** Two calls wait, and two asks are about either. */
  ghost predicate TwoAsked(s: State)
  {
    && Get(s, MAIN).pending == TwoCalls(None) && Get(s, MAIN).denied == {}
    && "1" in s.asks && s.asks["1"] == Ask("t", "") && "2" in s.asks && s.asks["2"] == Ask("t", "")
  }

  lemma TwoArrive(s: State)
    requires Get(s, MAIN) == NEW_SESSION
    ensures var s1 := OnCall(s.(curTs := ""), MAIN, "t", "a");
            var s2 := OnCall(s1.(curTs := ""), MAIN, "t", "b");
            Get(s2, MAIN).pending == TwoCalls(None) && Get(s2, MAIN).denied == {}
  {
  }

  lemma TwoAreAsked(now: string)
    ensures TwoAsked(RunFrames(Start(now, []), TWO_DECISIONS[..4]))
  {
    var f, s := TWO_DECISIONS, Start(now, []);
    StartOk(now, []);
    RunOfNone(s);
    assert f[..1] == [] + [f[0]];
    assert f[..2] == f[..1] + [f[1]];
    assert f[..3] == f[..2] + [f[2]];
    assert f[..4] == f[..3] + [f[3]];
    RunOf(s, [], CallFrame("t", "a"));
    RunOf(s, f[..1], CallFrame("t", "b"));
    RunOf(s, f[..2], ApprovalAsked("1", "t", ""));
    RunOf(s, f[..3], ApprovalAsked("2", "t", ""));
    TwoArrive(s);
    hide RunFrames, Start, OnCall;
  }

  lemma DecideSecond(s: State, id: string, outcome: string, was: Option<Approval>)
    requires Get(s, MAIN).pending == TwoCalls(was) && id in s.asks && s.asks[id] == Ask("t", "")
    ensures var s' := OnDecided(s, MAIN, id, outcome);
            && Get(s', MAIN).pending == TwoCalls(Some(if outcome == "allowed-once" then Granted else Denied))
            && Get(s', MAIN).denied == Get(s, MAIN).denied + (if outcome == "allowed-once" then {} else {"b"})
            && s'.asks == s.asks - {id}
  {
    MatchesTheSecond(was);
    hide LastMatch;
  }

  /** Both decisions go to the second call: it is carried as granted while its results are
      denied, and the first call stays undecided. */
  lemma DecidedTwice(now: string)
    ensures var st := Get(RunFrames(Start(now, []), TWO_DECISIONS), MAIN);
            && st.pending == TwoCalls(Some(Granted)) && st.denied == {"b"}
            && Undecided(st.pending[0])
  {
    var f, s := TWO_DECISIONS, Start(now, []);
    TwoAreAsked(now);
    assert f[..5] == f[..4] + [f[4]];
    assert f == f[..5] + [f[5]];
    RunOf(s, f[..4], ApprovalDecided("1", "rejected"));
    RunOf(s, f[..5], ApprovalDecided("2", "allowed-once"));
    var s4, s5 := RunFrames(s, f[..4]).(curTs := ""), RunFrames(s, f[..5]).(curTs := "");
    hide RunFrames, Start, OnDecided, LastMatch;
    DecideSecond(s4, "1", "rejected", None);
    DecideSecond(s5, "2", "allowed-once", Some(Denied));
  }

  /** So the log can have a granted call whose result says that it was denied. */
  lemma GrantedButDenied(s: State)
    requires Get(s, MAIN).pending == TwoCalls(Some(Granted)) && Get(s, MAIN).denied == {"b"}
    ensures var log := OnFrame(s, OnMain(ResultFrame([ResultBlock("b", false)]))).events;
            && |log| == |s.events| + 3
            && log[|s.events| + 1].body == ToolCall("b", "t", Some(Granted))
            && log[|s.events| + 2].body == ToolResult("b", false, DeniedOutcome)
  {
    var t := s.(curTs := "");
    var u := Put(t, MAIN, Get(t, MAIN));
    var b := ResultBlock("b", false);
    assert [b][1..] == [];
    assert OnResults(OnResultBlock(u, MAIN, b), MAIN, []) == OnResultBlock(u, MAIN, b);
    var calls := TwoCalls(Some(Granted));
    assert calls[1..][0].callId == "b" && calls[..2] == calls;
    assert FirstCall(calls[1..], "b") == Some(0);
    assert FirstCall(calls, "b") == Some(1);
    assert calls[1..][1..] == [];
    var u1 := Emit(u.(curTs := ""), MAIN, ToolCall("a", "t", None)).(curTs := "");
    var u2 := Emit(u1.(curTs := ""), MAIN, ToolCall("b", "t", Some(Granted))).(curTs := "");
    assert EmitCalls(u1, MAIN, calls[1..]) == EmitCalls(u2, MAIN, []) == u2;
    assert EmitCalls(u, MAIN, calls) == u2;
  }

  // ---- The calls of a session with their approvals ----

  datatype Given = Given(callId: string, approval: Option<Approval>)

  /** The calls in the log of a session, in order. */
  function GivenIn(log: seq<Event>, sid: string): seq<Given>
  {
    if log == [] then []
    else
      var e := log[|log| - 1];
      GivenIn(log[..|log| - 1], sid) + if IsCall(e, sid) then [Given(e.body.callId, e.body.approval)] else []
  }

  function Waiting(pending: seq<Pending>): seq<Given>
  {
    seq(|pending|, k requires 0 <= k < |pending| => Given(pending[k].callId, pending[k].approval))
  }

  /** All calls of a session in order of arrival, emitted or still buffered. */
  function Calls(s: State, sid: string): seq<Given> { GivenIn(s.events, sid) + Waiting(Get(s, sid).pending) }

  ghost predicate SameAt(s: State, s': State, sid: string)
  {
    Calls(s', sid) == Calls(s, sid) && Get(s', sid).preset == Get(s, sid).preset && Get(s', sid).denied == Get(s, sid).denied
  }

  /** No call came or went, and none was decided. */
  ghost predicate Same(s: State, s': State) { forall sid :: SameAt(s, s', sid) }

  lemma SameTrans(s: State, t: State, u: State)
    requires Same(s, t) && Same(t, u)
    ensures Same(s, u)
  {
    hide Calls;
    forall sid ensures SameAt(s, u, sid) {
      assert SameAt(s, t, sid) && SameAt(t, u, sid);
    }
  }

  lemma GivenSnoc(log: seq<Event>, e: Event, sid: string)
    ensures GivenIn(log + [e], sid) ==
            GivenIn(log, sid) + if IsCall(e, sid) then [Given(e.body.callId, e.body.approval)] else []
  {
    assert (log + [e])[..|log|] == log;
  }

  lemma EmitSame(s: State, session: string, body: Body, closes: bool)
    requires !body.ToolCall?
    ensures Same(s, EmitAs(s, session, body, closes))
  {
    var s' := EmitAs(s, session, body, closes);
    forall sid ensures SameAt(s, s', sid) {
      GivenSnoc(s.events, s'.events[|s.events|], sid);
    }
  }

  lemma PutSame(s: State, sid: string, st: Session)
    requires st.pending == Get(s, sid).pending && st.preset == Get(s, sid).preset && st.denied == Get(s, sid).denied
    ensures Same(s, Put(s, sid, st))
  {
    forall other ensures SameAt(s, Put(s, sid, st), other) {
    }
  }

  lemma SideSame(s: State, s': State)
    requires s'.events == s.events && s'.sessions == s.sessions
    ensures Same(s, s')
  {
    forall sid ensures SameAt(s, s', sid) {
    }
  }

  lemma WaitingHead(log: seq<Given>, pending: seq<Pending>)
    requires pending != []
    ensures log + Waiting(pending) == (log + [Given(pending[0].callId, pending[0].approval)]) + Waiting(pending[1..])
  {
    assert Waiting(pending) == [Given(pending[0].callId, pending[0].approval)] + Waiting(pending[1..]);
  }

  lemma FlushOneSame(s: State, sid: string)
    requires Get(s, sid).pending != [] && sid != ""
    ensures Same(s, FlushOne(s, sid))
  {
    var st := Get(s, sid);
    var e := CallEvent(s, sid, st.pending[0]);
    FlushOneIs(s, sid);
    WaitingHead(GivenIn(s.events, sid), st.pending);
    hide FlushOne, GivenIn, Waiting;
    forall other ensures SameAt(s, FlushOne(s, sid), other) {
      GivenSnoc(s.events, e, other);
    }
  }

  lemma {:induction false} FlushFirstSame(s: State, sid: string, cut: nat)
    requires cut <= |Get(s, sid).pending| && sid != ""
    ensures Same(s, FlushFirst(s, sid, cut))
    decreases cut
  {
    var st := Get(s, sid);
    if cut == 0 {
      assert st.pending[..0] == [] && st.pending[0..] == st.pending;
      assert FlushFirst(s, sid, 0) == Put(s, sid, st);
      hide Same;
      PutSame(s, sid, st);
    } else {
      FlushStep(s, sid, cut);
      FlushOneSame(s, sid);
      hide FlushFirst, FlushOne, Same;
      FlushFirstSame(FlushOne(s, sid), sid, cut - 1);
      SameTrans(s, FlushOne(s, sid), FlushFirst(s, sid, cut));
    }
  }

  lemma OnResultBlockSame(s: State, sid: string, b: ResultBlock)
    requires sid != ""
    ensures Same(s, OnResultBlock(s, sid, b))
  {
    var found := FirstCall(Get(s, sid).pending, b.callId);
    if found.Some? {
      FlushFirstSame(s, sid, found.value + 1);
    }
    SideSame(s, s);
    hide FlushFirst, Same;
    var s1 := FlushTo(s, sid, b.callId);
    if b.callId != "" {
      var st := Get(s1, sid);
      var s2 := Put(s1, sid, st.(openCalls := RemoveFirst(st.openCalls, b.callId)));
      PutSame(s1, sid, st.(openCalls := RemoveFirst(st.openCalls, b.callId)));
      var denied := b.callId in st.denied;
      var outcome := if denied then DeniedOutcome else if b.isError then Error else Completed;
      EmitSame(s2, sid, ToolResult(b.callId, !denied && !b.isError, outcome), b.callId in st.openCalls);
      SameTrans(s, s1, s2);
      SameTrans(s, s2, OnResultBlock(s, sid, b));
    }
  }

  lemma {:induction false} OnResultsSame(s: State, sid: string, blocks: seq<ResultBlock>)
    requires sid != ""
    ensures Same(s, OnResults(s, sid, blocks))
    decreases |blocks|
  {
    SideSame(s, s);
    if blocks != [] {
      hide Same, OnResultBlock;
      var s1 := OnResultBlock(s, sid, blocks[0]);
      OnResultBlockSame(s, sid, blocks[0]);
      OnResultsSame(s1, sid, blocks[1..]);
      SameTrans(s, s1, OnResults(s1, sid, blocks[1..]));
    }
  }

  lemma {:induction false} CloseCallsSame(s: State, sid: string, ids: seq<string>, outcome: Outcome)
    ensures Same(s, CloseCalls(s, sid, ids, outcome))
    decreases |ids|
  {
    SideSame(s, s);
    if ids != [] {
      hide Same, EmitAs;
      var oc := if ids[0] in Get(s, sid).denied then DeniedOutcome else outcome;
      var s1 := EmitAs(s, sid, ToolResult(ids[0], oc == Completed, oc), true);
      EmitSame(s, sid, ToolResult(ids[0], oc == Completed, oc), true);
      CloseCallsSame(s1, sid, ids[1..], outcome);
      SameTrans(s, s1, CloseCalls(s1, sid, ids[1..], outcome));
    }
  }

  lemma FlushTextSame(s: State, sid: string)
    ensures Same(s, FlushText(s, sid))
  {
    var st := Get(s, sid);
    var s1 := Put(s, sid, st.(text := "", reasoning := ""));
    hide Same;
    PutSame(s, sid, st.(text := "", reasoning := ""));
    if st.text != "" || st.reasoning != "" {
      EmitSame(s1, sid, AssistantMessage(st.reasoning, st.text), false);
      SameTrans(s, s1, FlushText(s, sid));
    }
  }

  lemma CloseTurnSame(s: State, sid: string, kind: string)
    requires sid != ""
    ensures Same(s, CloseTurn(s, sid, kind))
  {
    var st := Get(s, sid);
    hide Same, FlushFirst, FlushText, CloseCalls;
    PutSame(s, sid, st);
    if !NothingToClose(st) {
      var s0 := FlushFirst(s, sid, |st.pending|);
      var s1 := FlushText(s0, sid);
      var s2 := CloseCalls(s1, sid, Get(s1, sid).openCalls, CleanOutcome(kind));
      FlushFirstSame(s, sid, |st.pending|);
      FlushTextSame(s0, sid);
      CloseCallsSame(s1, sid, Get(s1, sid).openCalls, CleanOutcome(kind));
      PutSame(s2, sid, Get(s2, sid).(openCalls := [], turnOpen := false));
      SameTrans(s, s0, s1);
      SameTrans(s, s1, s2);
      SameTrans(s, s2, CloseTurn(s, sid, kind));
    }
  }

  lemma OnChunkSame(s: State, sid: string, c: Chunk)
    ensures Same(s, OnChunk(s, sid, c))
  {
    hide Same;
    var st := Get(s, sid);
    PutSame(s, sid, st);
    match c
    case ReasoningDelta(t) => PutSame(s, sid, st.(reasoning := st.reasoning + t));
    case TextDelta(t) => PutSame(s, sid, st.(text := st.text + t));
    case Usage =>
      EmitSame(Put(s, sid, st), "", UsageRecorded, false);
      SameTrans(s, Put(s, sid, st), OnChunk(s, sid, c));
    case OtherChunk =>
  }

  lemma {:induction false} OnRecordsSame(s: State, sid: string, records: seq<Record>)
    ensures Same(s, OnRecords(s, sid, records))
    decreases |records|
  {
    SideSame(s, s);
    if records != [] {
      hide Same, OnChunk;
      var st := Get(s, sid);
      var s1 := match records[0]
        case TextChunks(ts) => Put(s, sid, st.(text := st.text + Concat(ts)))
        case ReasoningChunks(ts) => Put(s, sid, st.(reasoning := st.reasoning + Concat(ts)))
        case Nested(c) => OnChunk(s, sid, c);
      match records[0] {
        case TextChunks(ts) => PutSame(s, sid, st.(text := st.text + Concat(ts)));
        case ReasoningChunks(ts) => PutSame(s, sid, st.(reasoning := st.reasoning + Concat(ts)));
        case Nested(c) => OnChunkSame(s, sid, c);
      }
      OnRecordsSame(s1, sid, records[1..]);
      SameTrans(s, s1, OnRecords(s1, sid, records[1..]));
    }
  }

  // ---- What a frame does to them ----

  /** The call that a frame brings to the session, with the preset of that moment. */
  function Brings(s: State, c: Content, sid: string): Option<Given>
  {
    if c.InSession? && SidOf(c.session) == sid && c.event.CallFrame? then
      var st := Get(s, sid);
      Some(Given(CallIdOf(sid, st, c.event.callId), if st.preset != "" then Some(Preset(st.preset)) else None))
    else None
  }

  /** The call, counted in order of arrival, that a frame decides. */
  function Decides(s: State, c: Content, sid: string): Option<nat>
  {
    if c.InSession? && SidOf(c.session) == sid && c.event.ApprovalDecided? && c.event.id in s.asks then
      var m := LastMatch(s.asks[c.event.id], Get(s, sid).pending);
      if m.None? then None else Some(|GivenIn(s.events, sid)| + m.value)
    else None
  }

  function Verdict(c: Content): Approval
  {
    if c.InSession? && c.event.ApprovalDecided? && c.event.outcome == "allowed-once" then Granted else Denied
  }

  /** What the frame does to the calls of a session and to its denied ids. */
  ghost predicate Moves(s: State, c: Content, sid: string, s': State)
  {
    var d, all, all' := Decides(s, c, sid), Calls(s, sid), Calls(s', sid);
    && (d.Some? ==> |GivenIn(s.events, sid)| <= d.value < |all|)
    && all' == (if Brings(s, c, sid).Some? then all + [Brings(s, c, sid).value]
                else if d.Some? then all[d.value := Given(all[d.value].callId, Some(Verdict(c)))] else all)
    && Get(s', sid).denied == Get(s, sid).denied +
         (if d.Some? && Verdict(c).Denied? then {all[d.value].callId} else {})
  }

  lemma SameMoves(s: State, c: Content, sid: string, s': State)
    requires Same(s, s') && Brings(s, c, sid).None? && Decides(s, c, sid).None?
    ensures Moves(s, c, sid, s')
  {
    assert SameAt(s, s', sid);
    hide Calls, GivenIn;
  }

  lemma OnCallMoves(s: State, c: Content, sid: string)
    requires c.InSession? && c.event.CallFrame?
    ensures Moves(s, c, sid, OnCall(s, SidOf(c.session), c.event.name, c.event.callId))
  {
    var s' := OnCall(s, SidOf(c.session), c.event.name, c.event.callId);
    if SidOf(c.session) == sid {
      var st, st' := Get(s, sid), Get(s', sid);
      assert Waiting(st'.pending) == Waiting(st.pending) + [Brings(s, c, sid).value];
    }
  }

  lemma WaitingUpdate(log: seq<Given>, pending: seq<Pending>, m: nat, approval: Option<Approval>)
    requires m < |pending|
    ensures var all := log + Waiting(pending);
            log + Waiting(pending[m := pending[m].(approval := approval)]) ==
            all[|log| + m := Given(all[|log| + m].callId, approval)]
  {
    var p := pending[m].(approval := approval);
    assert Waiting(pending[m := p]) == Waiting(pending)[m := Given(p.callId, approval)];
  }

  lemma OnDecidedMoves(s: State, c: Content, sid: string)
    requires c.InSession? && c.event.ApprovalDecided?
    ensures Moves(s, c, sid, OnDecided(s, SidOf(c.session), c.event.id, c.event.outcome))
  {
    var id, st := c.event.id, Get(s, sid);
    if SidOf(c.session) == sid && id in s.asks {
      LastMatchIsLast(s.asks[id], st.pending);
      var m := LastMatch(s.asks[id], st.pending);
      if m.Some? {
        WaitingUpdate(GivenIn(s.events, sid), st.pending, m.value, Some(Verdict(c)));
      }
    }
    hide LastMatch, GivenIn, Waiting;
  }

  lemma OnSessionEventMoves(s: State, c: Content, sid: string)
    requires c.InSession?
    ensures Moves(s, c, sid, OnSessionEvent(s, SidOf(c.session), c.event))
  {
    hide Same, Moves, OnChunk, OnRecords, OnContent, OnCall, CloseTurn, OnDecided, OnResults, LastMatch, Brings, Decides;
    var at, ev := SidOf(c.session), c.event;
    var st, s' := Get(s, at), OnSessionEvent(s, at, ev);
    SideSame(s, s);
    match ev {
      case CallFrame(name, id) => OnCallMoves(s, c, sid);
      case ApprovalDecided(id, outcome) => OnDecidedMoves(s, c, sid);
      case PermissionPreset(p) => PresetMoves(s, c, sid);
      case _ =>
        QuietEvent(s, at, ev);
        QuietFrame(s, c, sid);
        SameMoves(s, c, sid, s');
    }
  }

  lemma PresetMoves(s: State, c: Content, sid: string)
    requires c.InSession? && c.event.PermissionPreset?
    ensures Moves(s, c, sid, OnSessionEvent(s, SidOf(c.session), c.event))
  {
    hide GivenIn;
  }

  lemma QuietFrame(s: State, c: Content, sid: string)
    requires c.InSession? ==> !c.event.CallFrame? && !c.event.ApprovalDecided?
    ensures Brings(s, c, sid).None? && Decides(s, c, sid).None?
  {
  }

  lemma QuietEvent(s: State, sid: string, ev: SessionEvent)
    requires !ev.CallFrame? && !ev.ApprovalDecided? && !ev.PermissionPreset? && sid != ""
    ensures Same(s, OnSessionEvent(s, sid, ev))
  {
    hide Same, OnChunk, OnRecords, CloseTurn, OnResults;
    var st := Get(s, sid);
    SideSame(s, s);
    PutSame(s, sid, st);
    match ev {
      case TurnStart => PutSame(s, sid, st.(turnOpen := true, turnNo := if sid == MAIN then st.turnNo + 1 else st.turnNo));
      case UserText(t) => EmitSame(s, sid, UserMessage(t), false);
      case AssistantChunk(c) => OnChunkSame(s, sid, c);
      case AssistantAttempt(rs) =>
        OnRecordsSame(Put(s, sid, st), sid, rs);
        SameTrans(s, Put(s, sid, st), OnSessionEvent(s, sid, ev));
      case AssistantContent(r, t) =>
        var s1 := Put(s, sid, st.(text := "", reasoning := ""));
        PutSame(s, sid, st.(text := "", reasoning := ""));
        EmitSame(s1, sid, AssistantMessage(r, t), false);
        SameTrans(s, s1, Emit(s1, sid, AssistantMessage(r, t)));
      case TurnEnd(kind) => CloseTurnSame(s, sid, if kind == "" then "stop" else kind);
      case ApprovalAsked(id, tool, call) => SideSame(s, OnSessionEvent(s, sid, ev));
      case ResultFrame(bs) =>
        OnResultsSame(Put(s, sid, st), sid, bs);
        SameTrans(s, Put(s, sid, st), OnSessionEvent(s, sid, ev));
      case OtherSessionEvent =>
    }
  }

  /** A frame brings at most one call and decides at most one, and leaves all others alone. */
  lemma OnContentOfMoves(s: State, c: Content, sid: string)
    ensures Moves(s, c, sid, OnContentOf(s, c))
  {
    hide Same, Moves, OnChunk, OnSessionEvent, CloseTurn, Brings, Decides;
    SideSame(s, s);
    match c {
      case InSession(session, ev) => OnSessionEventMoves(s, c, sid);
      case _ =>
        QuietFrame(s, c, sid);
        match c {
          case SessionStatus(session, idle) => CloseTurnSame(s, MAIN, "stop");
          case RuntimeExit(data) => EmitSame(s, "", TaskStatus(data), false);
          case SubagentFrame(parent, child, started) => EmitSame(s, child, Subagent(parent, started), false);
          case StreamChunk(session, chunk) => OnChunkSame(s, MAIN, chunk);
          case _ =>
        }
        SameMoves(s, c, sid, OnContentOf(s, c));
    }
  }

  // ---- Graph events and the end of input ----

  lemma ApplyNextSame(s: State)
    requires s.graphIdx < |s.graphQ|
    ensures Same(s, ApplyNext(s))
  {
    var g := s.graphQ[s.graphIdx];
    hide Same;
    SideSame(s, s);
    if g.kind.UnknownKind? {
      SideSame(s, ApplyNext(s));
    } else {
      ApplyNextIs(s);
      var e := Entered(s);
      var shown := if ShowsSpine(g.kind) then EmitSpine(e) else e;
      EnteredSame(s);
      SideSame(e, e);
      EmitSame(e, "", SpineUpdated(|e.events|, e.graphOpen), false);
      SideSame(shown, ApplyNext(s));
      hide Entered, EmitAs, ApplyNext;
      SameTrans(s, e, shown);
      SameTrans(s, shown, ApplyNext(s));
    }
  }

  lemma EnteredSame(s: State)
    requires s.graphIdx < |s.graphQ|
    ensures Same(s, Entered(s))
  {
    EnteredEvent(s);
    hide Entered;
    forall sid ensures SameAt(s, Entered(s), sid) {
      GivenSnoc(s.events, Entered(s).events[|s.events|], sid);
    }
  }

  lemma {:induction false} FlushBeforeSame(s: State, edge: nat)
    ensures Same(s, FlushBefore(s, edge))
    decreases |s.graphQ| - s.graphIdx
  {
    SideSame(s, s);
    if Due(s, edge) {
      hide Same, ApplyNext;
      ApplyNextSame(s);
      ApplyKeepsQueue(s);
      FlushBeforeSame(ApplyNext(s), edge);
      SameTrans(s, ApplyNext(s), FlushBefore(s, edge));
    }
  }

  lemma {:induction false} FlushRemainingSame(s: State)
    ensures Same(s, FlushRemaining(s))
    decreases |s.graphQ| - s.graphIdx
  {
    SideSame(s, s);
    if s.graphIdx < |s.graphQ| {
      hide Same, ApplyNext;
      ApplyNextSame(s);
      ApplyKeepsQueue(s);
      FlushRemainingSame(ApplyNext(s));
      SameTrans(s, ApplyNext(s), FlushRemaining(s));
    }
  }

  lemma MergedSame(s: State, fr: Frame)
    ensures Same(s, Merged(s, fr))
  {
    hide Same, FlushBefore;
    SideSame(s, s);
    if fr.ts.At? {
      FlushBeforeSame(s, fr.ts.instant);
      SideSame(FlushBefore(s, fr.ts.instant), Merged(s, fr));
      SameTrans(s, FlushBefore(s, fr.ts.instant), Merged(s, fr));
    } else {
      SideSame(s, Merged(s, fr));
    }
  }

  lemma {:induction false} CloseSessionsSame(s: State, sids: seq<string>)
    requires "" !in sids
    ensures Same(s, CloseSessions(s, sids))
    decreases |sids|
  {
    SideSame(s, s);
    if sids != [] {
      hide Same, CloseTurn;
      CloseTurnSame(s, sids[0], "aborted");
      CloseSessionsSame(CloseOne(s, sids[0]), sids[1..]);
      CloseSessionsStep(s, sids);
      SameTrans(s, CloseOne(s, sids[0]), CloseSessions(s, sids));
    }
  }

  // ---- Over a whole run ----

  /** The state in which the last frame's content is handled. */
  function Before(s: State, frames: seq<Frame>): State
    requires frames != []
  {
    Merged(RunFrames(s, frames[..|frames| - 1]), frames[|frames| - 1])
  }

  /** The calls that the frames bring to a session, each with the preset of its moment. */
  function Brought(s: State, frames: seq<Frame>, sid: string): seq<Given>
  {
    if frames == [] then []
    else
      var b := Brings(Before(s, frames), frames[|frames| - 1].content, sid);
      Brought(s, frames[..|frames| - 1], sid) + if b.Some? then [b.value] else []
  }

  /** The last decision that the frames take for call n of a session. */
  function LastDecision(s: State, frames: seq<Frame>, sid: string, n: nat): (r: Option<Approval>)
    ensures r.Some? ==> r.value.Granted? || r.value.Denied?
  {
    if frames == [] then None
    else
      var c := frames[|frames| - 1].content;
      if Decides(Before(s, frames), c, sid) == Some(n) then Some(Verdict(c))
      else LastDecision(s, frames[..|frames| - 1], sid, n)
  }

  /** Some frame denies call n of a session. */
  predicate WasDenied(s: State, frames: seq<Frame>, sid: string, n: nat)
  {
    frames != [] &&
    var c := frames[|frames| - 1].content;
    (Decides(Before(s, frames), c, sid) == Some(n) && Verdict(c).Denied?) || WasDenied(s, frames[..|frames| - 1], sid, n)
  }

  function Carried(s: State, frames: seq<Frame>, sid: string, n: nat): Option<Approval>
    requires n < |Brought(s, frames, sid)|
  {
    var d := LastDecision(s, frames, sid, n);
    if d.Some? then d else Brought(s, frames, sid)[n].approval
  }

  ghost predicate CarriesDecision(s: State, frames: seq<Frame>, sid: string, calls: seq<Given>, n: nat)
    requires n < |calls| == |Brought(s, frames, sid)|
  {
    calls[n] == Given(Brought(s, frames, sid)[n].callId, Carried(s, frames, sid, n))
  }

  /** Some call with this id was denied. */
  ghost predicate DeniedId(s: State, frames: seq<Frame>, sid: string, id: string)
  {
    exists n: nat :: n < |Brought(s, frames, sid)| && Brought(s, frames, sid)[n].callId == id && WasDenied(s, frames, sid, n)
  }

  /** Decisions are only taken for calls that have arrived. */
  ghost predicate NotYet(s: State, frames: seq<Frame>, sid: string, n: nat)
  {
    LastDecision(s, frames, sid, n).None? && !WasDenied(s, frames, sid, n)
  }

  ghost predicate AsDecided(s: State, frames: seq<Frame>, sid: string, calls: seq<Given>, denied: set<string>)
  {
    && |calls| == |Brought(s, frames, sid)|
    && (forall n | 0 <= n < |calls| :: CarriesDecision(s, frames, sid, calls, n))
    && (forall n: nat | |calls| <= n :: NotYet(s, frames, sid, n))
    && (forall id :: id in denied <==> DeniedId(s, frames, sid, id))
  }

  ghost predicate Moved(b: Option<Given>, d: Option<nat>, v: Approval, calls: seq<Given>, denied: set<string>,
                        calls': seq<Given>, denied': set<string>)
  {
    && (d.Some? ==> d.value < |calls| && b.None?)
    && calls' == (if b.Some? then calls + [b.value]
                  else if d.Some? then calls[d.value := Given(calls[d.value].callId, Some(v))] else calls)
    && denied' == denied + (if d.Some? && v.Denied? then {calls[d.value].callId} else {})
  }

  /** The functions above, one frame further. */
  ghost predicate Further(s: State, init: seq<Frame>, frames: seq<Frame>, sid: string, b: Option<Given>, d: Option<nat>, v: Approval)
  {
    && Brought(s, frames, sid) == Brought(s, init, sid) + (if b.Some? then [b.value] else [])
    && (forall n: nat :: StepOf(s, init, frames, sid, d, v, n))
  }

  ghost predicate StepOf(s: State, init: seq<Frame>, frames: seq<Frame>, sid: string, d: Option<nat>, v: Approval, n: nat)
  {
    && LastDecision(s, frames, sid, n) == (if d == Some(n) then Some(v) else LastDecision(s, init, sid, n))
    && (WasDenied(s, frames, sid, n) <==> (d == Some(n) && v.Denied?) || WasDenied(s, init, sid, n))
  }

  lemma FurtherIs(s: State, frames: seq<Frame>, sid: string)
    requires frames != []
    ensures var c, m := frames[|frames| - 1].content, Before(s, frames);
            Further(s, frames[..|frames| - 1], frames, sid, Brings(m, c, sid), Decides(m, c, sid), Verdict(c))
  {
    hide Before, Brings, Decides, Verdict;
    var c, m := frames[|frames| - 1].content, Before(s, frames);
    var init, d, v := frames[..|frames| - 1], Decides(m, c, sid), Verdict(c);
    forall n: nat ensures StepOf(s, init, frames, sid, d, v, n) {
    }
  }

  lemma DeniedStep(s: State, init: seq<Frame>, frames: seq<Frame>, sid: string, b: Option<Given>, d: Option<nat>, v: Approval, id: string)
    requires Further(s, init, frames, sid, b, d, v) && (d.Some? ==> d.value < |Brought(s, init, sid)|)
    requires forall n: nat | |Brought(s, init, sid)| <= n :: NotYet(s, init, sid, n)
    ensures DeniedId(s, frames, sid, id) <==>
            DeniedId(s, init, sid, id) || (d.Some? && v.Denied? && Brought(s, init, sid)[d.value].callId == id)
  {
    hide Brought, WasDenied, LastDecision;
    var had, has := Brought(s, init, sid), Brought(s, frames, sid);
    if DeniedId(s, init, sid, id) {
      var n: nat :| n < |had| && had[n].callId == id && WasDenied(s, init, sid, n);
      assert StepOf(s, init, frames, sid, d, v, n) && has[n] == had[n];
    }
    if d.Some? && v.Denied? && had[d.value].callId == id {
      assert StepOf(s, init, frames, sid, d, v, d.value) && has[d.value] == had[d.value];
    }
    if DeniedId(s, frames, sid, id) {
      var n: nat :| n < |has| && has[n].callId == id && WasDenied(s, frames, sid, n);
      assert StepOf(s, init, frames, sid, d, v, n);
      if |had| <= n {
        assert NotYet(s, init, sid, n);
      }
    }
  }

  lemma CallStep(s: State, init: seq<Frame>, frames: seq<Frame>, sid: string, b: Option<Given>, d: Option<nat>, v: Approval,
                 calls: seq<Given>, denied: set<string>, calls': seq<Given>, denied': set<string>)
    requires AsDecided(s, init, sid, calls, denied) && Further(s, init, frames, sid, b, d, v)
    requires Moved(b, d, v, calls, denied, calls', denied')
    ensures |calls'| == |Brought(s, frames, sid)|
    ensures forall n | 0 <= n < |calls'| :: CarriesDecision(s, frames, sid, calls', n)
    ensures forall n: nat | |calls'| <= n :: NotYet(s, frames, sid, n)
  {
    hide Brought, WasDenied, LastDecision, DeniedId;
    forall n | 0 <= n < |calls'| ensures CarriesDecision(s, frames, sid, calls', n) {
      assert StepOf(s, init, frames, sid, d, v, n);
      if n < |calls| {
        assert CarriesDecision(s, init, sid, calls, n);
      } else {
        assert NotYet(s, init, sid, n);
      }
    }
    forall n: nat | |calls'| <= n ensures NotYet(s, frames, sid, n) {
      assert StepOf(s, init, frames, sid, d, v, n) && NotYet(s, init, sid, n);
    }
  }

  lemma AsDecidedStep(s: State, init: seq<Frame>, frames: seq<Frame>, sid: string, b: Option<Given>, d: Option<nat>, v: Approval,
                      calls: seq<Given>, denied: set<string>, calls': seq<Given>, denied': set<string>)
    requires AsDecided(s, init, sid, calls, denied) && Further(s, init, frames, sid, b, d, v)
    requires Moved(b, d, v, calls, denied, calls', denied')
    ensures AsDecided(s, frames, sid, calls', denied')
  {
    CallStep(s, init, frames, sid, b, d, v, calls, denied, calls', denied');
    hide Brought, WasDenied, LastDecision, DeniedId, NotYet, Further;
    forall id ensures id in denied' <==> DeniedId(s, frames, sid, id) {
      DeniedStep(s, init, frames, sid, b, d, v, id);
      if d.Some? {
        assert CarriesDecision(s, init, sid, calls, d.value);
      }
    }
  }

  lemma MovedFrom(s: State, m: State, c: Content, sid: string, s': State)
    requires Same(s, m) && Moves(m, c, sid, s')
    ensures Moved(Brings(m, c, sid), Decides(m, c, sid), Verdict(c), Calls(s, sid), Get(s, sid).denied, Calls(s', sid), Get(s', sid).denied)
  {
    assert SameAt(s, m, sid);
    hide Calls, GivenIn;
  }

  lemma NothingAtStart(now: string, q: seq<GraphEvent>, sid: string)
    ensures Calls(Start(now, q), sid) == [] && Get(Start(now, q), sid).denied == {}
  {
    var s0 := State([], map[], map[], "", now, q, 0, [], [], [], []);
    var s1 := Emit(s0, "", TaskCreated);
    assert Calls(s0, sid) == [];
    EmitSame(s0, "", TaskCreated, false);
    EmitSame(s1, "", SpineUpdated(|s1.events|, s1.graphOpen), false);
    hide Calls;
    assert SameAt(s0, s1, sid) && SameAt(s1, Start(now, q), sid);
  }

  lemma NothingDecided(s: State, sid: string)
    ensures AsDecided(s, [], sid, [], {})
  {
  }

  /** Over every run: every call that arrived, emitted or buffered, carries the last decision
      that was taken for it while it was buffered, or else the preset of the moment in which it
      arrived; and an id is denied if and only if a decision denied a call with that id. */
  lemma {:induction false} CallsCarryDecisions(now: string, q: seq<GraphEvent>, frames: seq<Frame>, sid: string)
    ensures var s := RunFrames(Start(now, q), frames);
            AsDecided(Start(now, q), frames, sid, Calls(s, sid), Get(s, sid).denied)
    decreases |frames|
  {
    hide *;
    if frames == [] {
      NothingAtStart(now, q, sid);
      RunOfNone(Start(now, q));
      NothingDecided(Start(now, q), sid);
    } else {
      var s0, init, last := Start(now, q), frames[..|frames| - 1], frames[|frames| - 1];
      CallsCarryDecisions(now, q, init, sid);
      UnfoldRun(s0, frames);
      var s, m := RunFrames(s0, init), Merged(RunFrames(s0, init), last);
      BeforeIs(s0, frames);
      MergedSame(s, last);
      OnContentOfMoves(m, last.content, sid);
      var s' := OnContentOf(m, last.content);
      MovedFrom(s, m, last.content, sid, s');
      FurtherIs(s0, frames, sid);
      AsDecidedStep(s0, init, frames, sid, Brings(m, last.content, sid), Decides(m, last.content, sid), Verdict(last.content),
                    Calls(s, sid), Get(s, sid).denied, Calls(s', sid), Get(s', sid).denied);
    }
  }

  lemma BeforeIs(s: State, frames: seq<Frame>)
    requires frames != []
    ensures Before(s, frames) == Merged(RunFrames(s, frames[..|frames| - 1]), frames[|frames| - 1])
  {
    hide Merged, RunFrames;
  }

  /** At the end of input that is what the log says. */
  lemma LogCarriesDecisions(now: string, q: seq<GraphEvent>, frames: seq<Frame>, sids: seq<string>, sid: string)
    requires SortedIds(sids, RunFrames(Start(now, q), frames).sessions)
    ensures var e := Finish(RunFrames(Start(now, q), frames), sids);
            AsDecided(Start(now, q), frames, sid, GivenIn(e.events, sid), Get(e, sid).denied)
  {
    hide *;
    var s := RunFrames(Start(now, q), frames);
    CallsCarryDecisions(now, q, frames, sid);
    RunEndsClosed(now, q, frames, sids);
    RunIsNamed(now, q, frames);
    FinishSame(s, sids);
    NoneWaits(s, Finish(s, sids), sid);
  }

  lemma FinishSame(s: State, sids: seq<string>)
    requires SortedIds(sids, s.sessions) && NamedSessions(s)
    ensures Same(s, Finish(s, sids))
  {
    NamedIds(sids, s.sessions);
    hide Same, FlushRemaining, CloseSessions;
    var r := FlushRemaining(s).(curTs := "");
    FlushRemainingSame(s);
    SideSame(FlushRemaining(s), r);
    CloseSessionsSame(r, sids);
    SameTrans(s, FlushRemaining(s), r);
    SameTrans(s, r, Finish(s, sids));
  }

  lemma NoneWaits(s: State, e: State, sid: string)
    requires Same(s, e) && Closed(Get(e, sid))
    ensures GivenIn(e.events, sid) == Calls(s, sid) && Get(e, sid).denied == Get(s, sid).denied
  {
    assert SameAt(s, e, sid);
    hide GivenIn;
  }

  // ---- When approvals and results agree ----

  /** A call carries a denial exactly when its id is denied, unless its id was denied once and
      the last decision for the call itself is no denial. */
  lemma AgreesIff(now: string, q: seq<GraphEvent>, frames: seq<Frame>, sid: string, n: nat)
    requires n < |Brought(Start(now, q), frames, sid)|
    ensures var s0, s := Start(now, q), RunFrames(Start(now, q), frames);
            && |Calls(s, sid)| == |Brought(s0, frames, sid)|
            && var c := Calls(s, sid)[n];
               (c.approval == Some(Denied) <==> c.callId in Get(s, sid).denied) <==>
               (DeniedId(s0, frames, sid, c.callId) ==> LastDecision(s0, frames, sid, n) == Some(Denied))
  {
    CallsCarryDecisions(now, q, frames, sid);
    DecisionDenies(Start(now, q), frames, sid, n);
    var s0, s := Start(now, q), RunFrames(Start(now, q), frames);
    BroughtPlain(s0, frames, sid, n);
    assert CarriesDecision(s0, frames, sid, Calls(s, sid), n);
    hide Calls, Brought, LastDecision, WasDenied, RunFrames, Start, NotYet;
  }

  /** What a call arrives with is no decision. */
  lemma {:induction false} BroughtPlain(s: State, frames: seq<Frame>, sid: string, n: nat)
    requires n < |Brought(s, frames, sid)|
    ensures NoDecision(Brought(s, frames, sid)[n].approval)
    decreases |frames|
  {
    var init := frames[..|frames| - 1];
    hide Before;
    if n < |Brought(s, init, sid)| {
      BroughtPlain(s, init, sid, n);
    }
  }

  lemma {:induction false} DecisionDenies(s: State, frames: seq<Frame>, sid: string, n: nat)
    ensures LastDecision(s, frames, sid, n) == Some(Denied) ==> WasDenied(s, frames, sid, n)
    ensures WasDenied(s, frames, sid, n) ==> LastDecision(s, frames, sid, n).Some?
    decreases |frames|
  {
    if frames != [] {
      hide Before, Decides, Verdict;
      DecisionDenies(s, frames[..|frames| - 1], sid, n);
    }
  }

  /** Whether a call is decided can be read off what it carries. */
  lemma UndecidedIff(now: string, q: seq<GraphEvent>, frames: seq<Frame>, sid: string, n: nat)
    requires n < |Brought(Start(now, q), frames, sid)|
    ensures var calls := Calls(RunFrames(Start(now, q), frames), sid);
            n < |calls| && (NoDecision(calls[n].approval) <==> LastDecision(Start(now, q), frames, sid, n).None?)
  {
    CallsCarryDecisions(now, q, frames, sid);
    BroughtPlain(Start(now, q), frames, sid, n);
    assert CarriesDecision(Start(now, q), frames, sid, Calls(RunFrames(Start(now, q), frames), sid), n);
    hide Calls, Brought, WasDenied, RunFrames, Start, NotYet;
  }

  /** Every decision goes to a call for which none has been taken, as the documentation has it. */
  ghost predicate OncePerCall(s: State, frames: seq<Frame>, sid: string)
  {
    frames != [] ==>
      var d := Decides(Before(s, frames), frames[|frames| - 1].content, sid);
      && (d.Some? ==> LastDecision(s, frames[..|frames| - 1], sid, d.value).None?)
      && OncePerCall(s, frames[..|frames| - 1], sid)
  }

  /** Then a call carries a denial exactly when it was denied. */
  lemma {:induction false} OnceIsEnough(s: State, frames: seq<Frame>, sid: string, n: nat)
    requires OncePerCall(s, frames, sid)
    ensures WasDenied(s, frames, sid, n) <==> LastDecision(s, frames, sid, n) == Some(Denied)
    decreases |frames|
  {
    if frames != [] {
      hide Before, Decides, Verdict;
      OnceIsEnough(s, frames[..|frames| - 1], sid, n);
      DecisionDenies(s, frames, sid, n);
    }
  }
}
