/** The projector as it runs: session objects, a growing log and an open list that frames and
    graph events update in place. Every method is proved against the function of the same step. */
module Projector {
  import opened Wrappers
  import opened Decimals
  import opened Events
  import opened Projection
  import opened Graph
  import opened Run
  import opened OpenList

  lemma PutPut(s: State, sid: string, a: Session, b: Session)
    ensures Put(Put(s, sid, a), sid, b) == Put(s, sid, b) && Get(Put(s, sid, a), sid) == a
  {
    assert s.sessions[sid := a][sid := b] == s.sessions[sid := b];
  }

  /** The session with one more call, open and buffered. */
  ghost function Buffered(st: Session, id: string, name: string, ts: string): Session
  {
    var approval := if st.preset != "" then Some(Preset(st.preset)) else None;
    st.(callSeq := st.callSeq + 1, openCalls := st.openCalls + [id],
        pending := st.pending + [Pending(id, name, approval, ts)])
  }

  lemma OnCallIs(s: State, sid: string, name: string, callId: string)
    ensures var st := Get(s, sid);
            var id := CallIdOf(sid, st, callId);
            var t := Put(Put(s, sid, st), sid, Buffered(st, id, name, s.curTs));
            && Get(Put(s, sid, st), sid) == st
            && OnCall(s, sid, name, callId) == t.(arrived := t.arrived + [Arrival(sid, id, name, Resolve(s.now, s.curTs))])
  {
    var st := Get(s, sid);
    hide Get, CallIdOf, Resolve;
    PutPut(s, sid, st, st);
    PutPut(s, sid, st, Buffered(st, CallIdOf(sid, st, callId), name, s.curTs));
  }

  /** The decision written into the session's buffered call k. */
  ghost function Decided(s: State, sid: string, k: nat, granted: bool): State
    requires k < |Get(s, sid).pending|
  {
    var st := Get(s, sid);
    var p := st.pending[k];
    var st1 := st.(pending := st.pending[k := p.(approval := Some(if granted then Granted else Denied))]);
    if granted then Put(s, sid, st1)
    else Put(s, sid, st1.(denied := st1.denied + {p.callId})).(denials := s.denials + [Denial(sid, p.callId, |s.events|)])
  }

  lemma OnDecidedIs(s: State, sid: string, id: string, outcome: string)
    ensures id !in s.asks ==> OnDecided(s, sid, id, outcome) == s
    ensures id in s.asks ==>
              var st := Get(s, sid);
              var t := Put(s.(asks := s.asks - {id}), sid, st);
              var m := LastMatch(s.asks[id], st.pending);
              && Get(s.(asks := s.asks - {id}), sid) == Get(t, sid) == st
              && (m.None? ==> OnDecided(s, sid, id, outcome) == t)
              && (m.Some? ==> m.value < |st.pending| && OnDecided(s, sid, id, outcome) == Decided(t, sid, m.value, outcome == "allowed-once"))
  {
    if id in s.asks {
      var s1, st := s.(asks := s.asks - {id}), Get(s, sid);
      LastMatchIsLast(s.asks[id], st.pending);
      var m := LastMatch(s.asks[id], st.pending);
      if m.Some? {
        var p := st.pending[m.value];
        var st1 := st.(pending := st.pending[m.value := p.(approval := Some(Granted))]);
        PutPut(s1, sid, st, st1);
        var st2 := st.(pending := st.pending[m.value := p.(approval := Some(Denied))]);
        PutPut(s1, sid, st, st2.(denied := st2.denied + {p.callId}));
      }
    }
  }

  lemma EmitCallsStep(s: State, sid: string, calls: seq<Pending>)
    requires calls != []
    ensures Projection.EmitCalls(s, sid, calls) ==
            var p := calls[0];
            Projection.EmitCalls(Projection.EmitAs(s.(curTs := p.ts), sid, Events.ToolCall(p.callId, p.tool, p.approval), false)
                                 .(curTs := s.curTs), sid, calls[1..])
  {
  }

  lemma FlushToIs(s: State, sid: string, callId: string)
    ensures var found := FirstCall(Get(s, sid).pending, callId);
            FlushTo(s, sid, callId) == if found.None? then s else FlushFirst(s, sid, found.value + 1)
  {
    hide FlushFirst, FirstCall;
  }

  lemma {:induction false} RemoveFirstAfter(a: seq<string>, id: string, c: seq<string>)
    requires id !in a
    ensures RemoveFirst(a + ([id] + c), id) == a + c && RemoveFirst(a, id) == a
    decreases |a|
  {
    if a == [] {
      assert a + ([id] + c) == [id] + c && a + c == c;
    } else {
      RemoveFirstAfter(a[1..], id, c);
      assert a + ([id] + c) == [a[0]] + (a[1..] + ([id] + c)) && a + c == [a[0]] + (a[1..] + c);
    }
  }

  ghost predicate OneRecordDone(s: State, s': State, sid: string, r: Record)
  {
    var st := Get(s, sid);
    s' == match r
      case TextChunks(ts) => Put(s, sid, st.(text := st.text + Concat(ts)))
      case ReasoningChunks(ts) => Put(s, sid, st.(reasoning := st.reasoning + Concat(ts)))
      case Nested(c) => OnChunk(s, sid, c)
  }

  lemma OnRecordsStep(s: State, s': State, sid: string, records: seq<Record>)
    requires records != [] && OneRecordDone(s, s', sid, records[0])
    ensures OnRecords(s, sid, records) == OnRecords(s', sid, records[1..])
  {
    hide Put, Get, OnChunk, Concat;
  }

  lemma CleanOutcomeIs(kind: string)
    ensures CleanOutcome(kind) ==
            if kind == "stop" || kind == "completed" || kind == "tool-calls" then Completed else Indeterminate
  {
  }

  lemma CloseTurnIs(s: State, sid: string, kind: string)
    ensures var st, s0 := Get(s, sid), Put(s, sid, Get(s, sid));
            && Get(s0, sid) == st
            && (NothingToClose(st) ==> Projection.CloseTurn(s, sid, kind) == s0)
            && (!NothingToClose(st) ==>
                  var s1 := FlushText(FlushFirst(s0, sid, |st.pending|), sid);
                  var s2 := Projection.CloseCalls(s1, sid, Get(s1, sid).openCalls, CleanOutcome(kind));
                  Projection.CloseTurn(s, sid, kind) == Put(s2, sid, Get(s2, sid).(openCalls := [], turnOpen := false)))
  {
    var st, s0 := Get(s, sid), Put(s, sid, Get(s, sid));
    PutPut(s, sid, st, st);
    FlushFirstOfPut(s, sid, |st.pending|);
    hide Get, Put, FlushFirst, FlushText, Projection.CloseCalls, CleanOutcome, NothingToClose;
  }

  /** Making the session first does not show in what is flushed. */
  lemma FlushFirstOfPut(s: State, sid: string, cut: nat)
    requires cut <= |Get(s, sid).pending|
    ensures var s0 := Put(s, sid, Get(s, sid));
            cut <= |Get(s0, sid).pending| && FlushFirst(s0, sid, cut) == FlushFirst(s, sid, cut)
  {
    var st := Get(s, sid);
    EmitCallsAfterPut(s, sid, st.pending[..cut], st);
    PutPut(Projection.EmitCalls(s, sid, st.pending[..cut]), sid, st, st.(pending := st.pending[cut..]));
    hide Projection.EmitCalls;
  }

  lemma {:induction false} EmitCallsAfterPut(s: State, sid: string, calls: seq<Pending>, st: Session)
    ensures Projection.EmitCalls(Put(s, sid, st), sid, calls) == Put(Projection.EmitCalls(s, sid, calls), sid, st)
    decreases |calls|
  {
    if calls != [] {
      var p := calls[0];
      EmitCallsAfterPut(Emit(s.(curTs := p.ts), sid, Events.ToolCall(p.callId, p.tool, p.approval)).(curTs := s.curTs), sid, calls[1..], st);
    }
  }

  /** A known graph event in the log, with its snapshot. */
  ghost function Shown(s: State, kind: GraphKind): State
  {
    var s1 := Emit(s, SessionOf(kind), Events.Graph(kind)).(graphOpen := OpenStep(s.graphOpen, kind));
    if ShowsSpine(kind) then Projection.EmitSpine(s1) else s1
  }

  lemma ApplyGraphIs(s: State, g: GraphEvent)
    ensures var s1 := if g.instant != 0 then s.(curTs := g.time) else s;
            var s2 := if g.kind.UnknownKind? then s1 else Shown(s1, g.kind);
            ApplyGraph(s, g) == if g.instant != 0 then s2.(curTs := "") else s2
  {
    hide OpenStep, ShowsSpine, SessionOf, Resolve;
  }

  class SessionState {
    ghost const owner: string
    var turnOpen: bool
    var turnNo: nat
    var textBuf: string
    var reasonBuf: string
    var callSeq: nat
    var openCalls: seq<string>
    var denied: set<string>
    var preset: string
    var pending: seq<Pending>

    ghost function Value(): Session
      reads this
    {
      Session(turnOpen, turnNo, textBuf, reasonBuf, callSeq, openCalls, denied, preset, pending)
    }

    constructor (ghost owner: string)
      ensures Value() == NEW_SESSION && this.owner == owner
    {
      this.owner := owner;
      turnOpen, turnNo, textBuf, reasonBuf, callSeq := false, 0, "", "", 0;
      openCalls, denied, preset, pending := [], {}, "", [];
    }
  }

  class Projector {
    const now: string
    const graphQ: seq<GraphEvent>
    const graphOpen: OpenNodes
    var events: seq<Event>
    var sessions: map<string, SessionState>
    var asks: map<string, Ask>
    var curTs: string
    var graphIdx: nat
    ghost var states: set<SessionState>
    ghost var arrived: seq<Arrival>
    ghost var closing: seq<bool>
    ghost var denials: seq<Denial>

    /** Every session object belongs to its own id, so no two ids share one. */
    ghost predicate Valid()
      reads this, graphOpen
    {
      && graphOpen.Valid()
      && forall sid | sid in sessions :: sessions[sid] in states && sessions[sid].owner == sid
    }

    ghost function Sessions(): map<string, Session>
      requires Valid()
      reads this, graphOpen, states
    {
      map sid | sid in sessions :: sessions[sid].Value()
    }

    ghost function View(): State
      requires Valid()
      reads this, graphOpen, graphOpen.nodes, states
    {
      State(events, Sessions(), asks, curTs, now, graphQ, graphIdx, graphOpen.Contents(), arrived, closing, denials)
    }

    /** What every step leaves true: an id keeps its session object, and objects are only added. */
    twostate predicate Kept()
      reads this, graphOpen
    {
      && Valid()
      && fresh(states - old(states))
      && (graphOpen.nodes == old(graphOpen.nodes) || fresh(graphOpen.nodes))
      && forall sid | sid in old(sessions) :: sid in sessions && sessions[sid] == old(sessions[sid])
    }

    constructor (now: string, graphQ: seq<GraphEvent>)
      ensures Valid() && fresh(graphOpen) && fresh(graphOpen.nodes) && states == {}
      ensures View() == State([], map[], map[], "", now, graphQ, 0, [], [], [], [])
    {
      this.now, this.graphQ := now, graphQ;
      graphOpen := new OpenNodes();
      events, sessions, asks, curTs, graphIdx := [], map[], map[], "", 0;
      states, arrived, closing, denials := {}, [], [], [];
    }

    lemma ViewFields()
      requires Valid()
      ensures View().now == now && View().curTs == curTs && View().events == events && View().asks == asks
      ensures View().graphQ == graphQ && View().graphIdx == graphIdx
    {
    }

    lemma StateOf(sid: string)
      requires Valid() && sid in sessions
      ensures Get(View(), sid) == sessions[sid].Value() && Put(View(), sid, sessions[sid].Value()) == View()
    {
      assert Sessions() == Sessions()[sid := sessions[sid].Value()];
    }

    /** Only one session object changed. */
    twostate lemma Stored(sid: string)
      requires old(Valid()) && sid in sessions && unchanged(this, graphOpen)
      requires unchanged(graphOpen.nodes)
      requires forall other | other in sessions && other != sid :: unchanged(sessions[other])
      ensures Valid() && View() == Put(old(View()), sid, sessions[sid].Value())
    {
      assert Sessions() == old(Sessions())[sid := sessions[sid].Value()];
    }

    method MakeSession(sid: string) returns (st: SessionState)
      requires Valid() && sid !in sessions
      modifies this`sessions, this`states
      ensures Kept() && sid in sessions && sessions[sid] == st && fresh(st)
      ensures st.Value() == NEW_SESSION && View() == Put(old(View()), sid, NEW_SESSION)
    {
      st := new SessionState(sid);
      sessions, states := sessions[sid := st], states + {st};
      assert Sessions() == old(Sessions())[sid := st.Value()];
    }

    /** The session object of sid, made on first use. */
    method Sess(sid: string) returns (st: SessionState)
      requires Valid()
      modifies this`sessions, this`states
      ensures Kept() && sid in sessions && sessions[sid] == st
      ensures sid in old(sessions) ==> sessions == old(sessions)
      ensures st.Value() == Get(old(View()), sid) == Get(View(), sid)
      ensures View() == Put(old(View()), sid, Get(old(View()), sid))
    {
      NotYet(sid);
      if sid in sessions {
        StateOf(sid);
        hide View, Sessions, Put, Get;
        st := sessions[sid];
      } else {
        hide View, Sessions, Put, Get;
        st := MakeSession(sid);
        StateOf(sid);
      }
    }

    lemma NotYet(sid: string)
      requires Valid()
      ensures sid !in sessions ==> Get(View(), sid) == NEW_SESSION
    {
    }

    method EmitAs(session: string, body: Body, ghost closes: bool)
      requires Valid()
      modifies this`events, this`closing
      ensures Kept() && View() == Projection.EmitAs(old(View()), session, body, closes)
    {
      var ts := if curTs != "" then curTs else now;
      events := events + [Event(|events| + 1, ts, if session == "" then MAIN else session, body)];
      closing := closing + [closes];
      assert Sessions() == old(Sessions());
    }

    method EmitSpine()
      requires Valid()
      modifies this`events, this`closing
      ensures Kept() && View() == Projection.EmitSpine(old(View()))
    {
      var open := graphOpen.Snapshot();
      EmitAs("", SpineUpdated(|events|, open[..]), false);
    }

    // ---- Calls, approvals, results ----

    ghost method Arrive(a: Arrival)
      requires Valid()
      modifies this`arrived
      ensures View() == old(View()).(arrived := old(View()).arrived + [a])
    {
      arrived := arrived + [a];
      assert Sessions() == old(Sessions());
    }

    method ToolCall(sid: string, name: string, callId: string)
      requires Valid()
      modifies this, states
      ensures Kept() && View() == OnCall(old(View()), sid, name, callId)
    {
      hide View, Sessions, OnCall, Put, Get, CallIdOf;
      ghost var s := View();
      ViewFields();
      OnCallIs(s, sid, name, callId);
      var st := Sess(sid);
      ViewFields();
      var id := Buffer(sid, st, name, callId);
      ViewFields();
      Arrive(Arrival(sid, id, name, Resolve(now, curTs)));
    }

    method Buffer(sid: string, st: SessionState, name: string, callId: string) returns (id: string)
      requires Valid() && sid in sessions && sessions[sid] == st
      modifies st
      ensures id == CallIdOf(sid, Get(old(View()), sid), callId)
      ensures Kept() && View() == Put(old(View()), sid, Buffered(Get(old(View()), sid), id, name, curTs))
    {
      StateOf(sid);
      hide View, Sessions, Put, Get, Decimal;
      st.callSeq := st.callSeq + 1;
      id := if callId != "" then callId else sid + "-t" + Decimal(st.turnNo) + "-c" + Decimal(st.callSeq);
      var approval := if st.preset != "" then Some(Preset(st.preset)) else None;
      st.openCalls := st.openCalls + [id];
      st.pending := st.pending + [Pending(id, name, approval, curTs)];
      Stored(sid);
    }

    /** Finds the last buffered call that the ask is about. */
    static method FindTarget(ask: Ask, pending: seq<Pending>) returns (target: Option<nat>)
      ensures target == LastMatch(ask, pending)
    {
      target := None;
      for i := 0 to |pending|
        invariant target == LastMatch(ask, pending[..i])
      {
        assert pending[..i + 1][..i] == pending[..i];
        if (ask.callId != "" && pending[i].callId == ask.callId) || (ask.callId == "" && pending[i].tool == ask.toolName) {
          target := Some(i);
        }
      }
      assert pending[..|pending|] == pending;
    }

    method SetAsks(asks: map<string, Ask>)
      requires Valid()
      modifies this`asks
      ensures View() == old(View()).(asks := asks)
    {
      this.asks := asks;
      assert Sessions() == old(Sessions());
    }

    method ApprovalAsked(id: string, toolName: string, callId: string)
      requires Valid()
      modifies this`asks
      ensures Kept() && View() == OnSessionEvent(old(View()), MAIN, Events.ApprovalAsked(id, toolName, callId))
    {
      ViewFields();
      hide View, Sessions;
      if id != "" {
        SetAsks(asks[id := Ask(toolName, callId)]);
      }
    }

    ghost method Deny(d: Denial)
      requires Valid()
      modifies this`denials
      ensures View() == old(View()).(denials := old(View()).denials + [d])
    {
      denials := denials + [d];
      assert Sessions() == old(Sessions());
    }

    method DecideApproval(sid: string, id: string, outcome: string)
      requires Valid()
      modifies this, states
      ensures Kept() && View() == OnDecided(old(View()), sid, id, outcome)
    {
      hide View, Sessions, Put, Get, NEW_SESSION, OnDecided, LastMatch, Decided;
      ViewFields();
      ghost var s := View();
      OnDecidedIs(s, sid, id, outcome);
      if id !in asks {
        return;
      }
      var ask := asks[id];
      SetAsks(asks - {id});
      ViewFields();
      var st := Sess(sid);
      var target := FindTarget(ask, st.pending);
      if target.None? {
        return;
      }
      SetDecision(sid, st, target.value, outcome == "allowed-once");
    }

    method SetDecision(sid: string, st: SessionState, target: nat, granted: bool)
      requires Valid() && sid in sessions && sessions[sid] == st && target < |Get(View(), sid).pending|
      modifies this`denials, st
      ensures Kept() && View() == Decided(old(View()), sid, target, granted)
    {
      StateOf(sid);
      ViewFields();
      hide View, Sessions, Put, Get, NEW_SESSION;
      var p := st.pending[target];
      st.pending := st.pending[target := p.(approval := Some(if granted then Granted else Denied))];
      if !granted {
        st.denied := st.denied + {p.callId};
      }
      Stored(sid);
      ViewFields();
      if !granted {
        Deny(Denial(sid, p.callId, |events|));
      }
    }

    // ---- Emitting buffered calls ----

    method SetTime(ts: string)
      requires Valid()
      modifies this`curTs
      ensures View() == old(View()).(curTs := ts)
    {
      curTs := ts;
      assert Sessions() == old(Sessions());
    }

    method EmitCalls(sid: string, calls: seq<Pending>)
      requires Valid()
      modifies this`events, this`closing, this`curTs
      ensures Kept() && View() == Projection.EmitCalls(old(View()), sid, calls)
    {
      hide View, Sessions, Projection.EmitAs;
      ViewFields();
      ghost var s := View();
      var saved := curTs;
      for i := 0 to |calls|
        invariant Kept()
        invariant Projection.EmitCalls(s, sid, calls) == Projection.EmitCalls(View().(curTs := saved), sid, calls[i..])
      {
        ghost var t := View();
        SetTime(calls[i].ts);
        EmitAs(sid, Events.ToolCall(calls[i].callId, calls[i].tool, calls[i].approval), false);
        EmitCallsStep(t.(curTs := saved), sid, calls[i..]);
        assert calls[i..][1..] == calls[i + 1..];
      }
      assert calls[|calls|..] == [];
      SetTime(saved);
    }

    /** The call itself and everything buffered before it; everything when callId is empty. */
    method FlushPendingTo(sid: string, callId: string)
      requires Valid() && sid in sessions
      modifies this`events, this`closing, this`curTs, sessions[sid]
      ensures Kept() && sessions == old(sessions)
      ensures View() == if callId == "" then FlushFirst(old(View()), sid, |Get(old(View()), sid).pending|)
                        else FlushTo(old(View()), sid, callId)
    {
      StateOf(sid);
      hide View, Sessions, Put, Get, Projection.EmitCalls, FlushTo;
      FlushToIs(View(), sid, callId);
      var st := sessions[sid];
      var cut := |st.pending|;
      if callId != "" {
        var found := FindCall(st.pending, callId);
        if found.None? {
          return;
        }
        cut := found.value + 1;
      }
      FlushCut(sid, st, cut);
    }

    method FlushCut(sid: string, st: SessionState, cut: nat)
      requires Valid() && sid in sessions && sessions[sid] == st && cut <= |Get(View(), sid).pending|
      modifies this`events, this`closing, this`curTs, st
      ensures Kept() && View() == FlushFirst(old(View()), sid, cut)
    {
      StateOf(sid);
      hide View, Sessions, Put, Get, Projection.EmitCalls;
      EmitCalls(sid, st.pending[..cut]);
      label emitted:
      st.pending := st.pending[cut..];
      Stored@emitted(sid);
    }

    static method FindCall(pending: seq<Pending>, callId: string) returns (found: Option<nat>)
      ensures found == FirstCall(pending, callId)
    {
      var i := 0;
      while i < |pending|
        invariant 0 <= i <= |pending|
        invariant forall k | 0 <= k < i :: pending[k].callId != callId
      {
        if pending[i].callId == callId {
          return Some(i);
        }
        i := i + 1;
      }
      return None;
    }

    // ---- Results ----

    static method WithoutFirst(ids: seq<string>, id: string) returns (rest: seq<string>)
      ensures rest == RemoveFirst(ids, id)
    {
      var i := 0;
      while i < |ids|
        invariant 0 <= i <= |ids|
        invariant id !in ids[..i]
      {
        if ids[i] == id {
          RemoveFirstAfter(ids[..i], id, ids[i + 1..]);
          assert ids == ids[..i] + ([id] + ids[i + 1..]);
          return ids[..i] + ids[i + 1..];
        }
        i := i + 1;
      }
      assert ids[..|ids|] == ids;
      RemoveFirstAfter(ids, id, []);
      return ids;
    }

    method OneResult(sid: string, st: SessionState, b: ResultBlock)
      requires Valid() && sid in sessions && sessions[sid] == st
      modifies this`events, this`closing, this`curTs, st
      ensures Kept() && sessions == old(sessions) && View() == OnResultBlock(old(View()), sid, b)
    {
      hide View, Sessions, Put, Get, FlushTo, Projection.EmitAs;
      if b.callId == "" {
        return;
      }
      FlushPendingTo(sid, b.callId);
      StateOf(sid);
      label flushed:
      var denied := b.callId in st.denied;
      var outcome := if denied then DeniedOutcome else if b.isError then Error else Completed;
      ghost var closes := b.callId in st.openCalls;
      st.openCalls := WithoutFirst(st.openCalls, b.callId);
      Stored@flushed(sid);
      EmitAs(sid, Events.ToolResult(b.callId, !denied && !b.isError, outcome), closes);
    }

    method ToolResult(sid: string, blocks: seq<ResultBlock>)
      requires Valid()
      modifies this, states
      ensures Kept() && View() == OnSessionEvent(old(View()), sid, ResultFrame(blocks))
    {
      hide View, Sessions, Put, Get, OnResultBlock;
      var st := Sess(sid);
      ghost var s := View();
      for i := 0 to |blocks|
        invariant Kept() && sid in sessions && sessions[sid] == st
        invariant OnResults(s, sid, blocks) == OnResults(View(), sid, blocks[i..])
      {
        OneResult(sid, st, blocks[i]);
        assert blocks[i..][1..] == blocks[i + 1..];
      }
      assert blocks[|blocks|..] == [];
    }

    // ---- Text ----

    method AssistantChunk(sid: string, c: Chunk)
      requires Valid()
      modifies this, states
      ensures Kept() && View() == OnChunk(old(View()), sid, c)
    {
      hide View, Sessions, Put, Get, Projection.EmitAs;
      ghost var s := View();
      var st := Sess(sid);
      label found:
      match c
      case ReasoningDelta(t) =>
        st.reasonBuf := st.reasonBuf + t;
        Stored@found(sid);
        PutPut(s, sid, Get(s, sid), st.Value());
      case TextDelta(t) =>
        st.textBuf := st.textBuf + t;
        Stored@found(sid);
        PutPut(s, sid, Get(s, sid), st.Value());
      case Usage =>
        EmitAs("", UsageRecorded, false);
      case OtherChunk =>
    }

    static method Append(buf: string, texts: seq<string>) returns (r: string)
      ensures r == buf + Concat(texts)
    {
      r := buf;
      for i := 0 to |texts|
        invariant r + Concat(texts[i..]) == buf + Concat(texts)
      {
        assert texts[i..][1..] == texts[i + 1..];
        assert r + (texts[i] + Concat(texts[i + 1..])) == r + texts[i] + Concat(texts[i + 1..]);
        r := r + texts[i];
      }
      assert texts[|texts|..] == [];
    }

    method OneRecord(sid: string, st: SessionState, r: Record)
      requires Valid() && sid in sessions && sessions[sid] == st
      modifies this, states
      ensures Kept() && OneRecordDone(old(View()), View(), sid, r)
    {
      StateOf(sid);
      ghost var s := View();
      assert st in states;
      hide View, Sessions, Put, Get, OnChunk, Concat;
      match r
      case TextChunks(ts) =>
        st.textBuf := Append(st.textBuf, ts);
        Stored(sid);
      case ReasoningChunks(ts) =>
        st.reasonBuf := Append(st.reasonBuf, ts);
        Stored(sid);
      case Nested(c) =>
        AssistantChunk(sid, c);
    }

    method AssistantAttempt(sid: string, records: seq<Record>)
      requires Valid()
      modifies this, states
      ensures Kept() && View() == OnSessionEvent(old(View()), sid, Events.AssistantAttempt(records))
    {
      hide View, Sessions, Put, Get, OneRecordDone;
      var st := Sess(sid);
      ghost var s := View();
      for i := 0 to |records|
        invariant Kept() && sid in sessions && sessions[sid] == st
        invariant OnRecords(s, sid, records) == OnRecords(View(), sid, records[i..])
      {
        ghost var t := View();
        OneRecord(sid, st, records[i]);
        OnRecordsStep(t, View(), sid, records[i..]);
        assert records[i..][1..] == records[i + 1..];
      }
      assert records[|records|..] == [];
    }

    method AssistantMessage(sid: string, reasoning: string, text: string)
      requires Valid()
      modifies this, states
      ensures Kept() && View() == OnContent(old(View()), sid, reasoning, text)
    {
      hide View, Sessions, Put, Get, Projection.EmitAs;
      ghost var s := View();
      var st := Sess(sid);
      if reasoning == "" && text == "" {
        return;
      }
      ResetText(sid, st);
      PutPut(s, sid, Get(s, sid), Get(s, sid).(text := "", reasoning := ""));
      EmitAs(sid, Events.AssistantMessage(reasoning, text), false);
    }

    method FlushAssistant(sid: string)
      requires Valid() && sid in sessions
      modifies this`events, this`closing, sessions[sid]
      ensures Kept() && sessions == old(sessions) && View() == FlushText(old(View()), sid)
    {
      StateOf(sid);
      hide View, Sessions, Put, Get, Projection.EmitAs;
      var st := sessions[sid];
      var reasoning, text := st.reasonBuf, st.textBuf;
      ResetText(sid, st);
      if reasoning != "" || text != "" {
        EmitAs(sid, Events.AssistantMessage(reasoning, text), false);
      }
    }

    method ResetText(sid: string, st: SessionState)
      requires Valid() && sid in sessions && sessions[sid] == st
      modifies st
      ensures Kept() && View() == Put(old(View()), sid, Get(old(View()), sid).(text := "", reasoning := ""))
    {
      StateOf(sid);
      hide View, Sessions, Put, Get;
      st.textBuf, st.reasonBuf := "", "";
      Stored(sid);
    }

    // ---- Turns ----

    method CloseCalls(sid: string, st: SessionState, outcome: Outcome)
      requires Valid() && sid in sessions && sessions[sid] == st
      modifies this`events, this`closing
      ensures Kept() && View() == Projection.CloseCalls(old(View()), sid, st.openCalls, outcome)
    {
      ghost var s := View();
      StateOf(sid);
      var ids := st.openCalls;
      hide View, Sessions, Get, Projection.EmitAs;
      for i := 0 to |ids|
        invariant Kept() && Get(View(), sid) == st.Value()
        invariant Projection.CloseCalls(s, sid, ids, outcome) == Projection.CloseCalls(View(), sid, ids[i..], outcome)
      {
        var oc := if ids[i] in st.denied then DeniedOutcome else outcome;
        assert ids[i..][1..] == ids[i + 1..];
        EmitAs(sid, Events.ToolResult(ids[i], oc == Completed, oc), true);
        StateOf(sid);
      }
      assert ids[|ids|..] == [];
    }

    method CloseTurn(sid: string, kind: string)
      requires Valid()
      modifies this, states
      ensures Kept() && View() == Projection.CloseTurn(old(View()), sid, kind)
    {
      hide View, Sessions, Put, Get, FlushText, Projection.CloseCalls, CleanOutcome, FlushFirst;
      ghost var s := View();
      var st := Sess(sid);
      CloseTurnIs(s, sid, kind);
      if !st.turnOpen && st.openCalls == [] && st.pending == [] {
        return;
      }
      FlushPendingTo(sid, "");
      FlushAssistant(sid);
      StateOf(sid);
      var outcome := if kind == "stop" || kind == "completed" || kind == "tool-calls" then Completed else Indeterminate;
      assert outcome == CleanOutcome(kind) by {
        CleanOutcomeIs(kind);
      }
      CloseCalls(sid, st, outcome);
      EndTurn(sid, st);
    }

    method EndTurn(sid: string, st: SessionState)
      requires Valid() && sid in sessions && sessions[sid] == st
      modifies st
      ensures Kept() && View() == Put(old(View()), sid, Get(old(View()), sid).(openCalls := [], turnOpen := false))
    {
      StateOf(sid);
      hide View, Sessions, Put, Get;
      st.openCalls, st.turnOpen := [], false;
      Stored(sid);
    }

    method TurnStart(sid: string)
      requires Valid()
      modifies this, states
      ensures Kept() && View() == OnSessionEvent(old(View()), sid, Events.TurnStart)
    {
      hide View, Sessions, Put, Get;
      ghost var s := View();
      var st := Sess(sid);
      label found:
      st.turnOpen := true;
      if sid == MAIN {
        st.turnNo := st.turnNo + 1;
      }
      Stored@found(sid);
      PutPut(s, sid, Get(s, sid), st.Value());
    }

    method SetPreset(sid: string, preset: string)
      requires Valid()
      modifies this, states
      ensures Kept() && View() == OnSessionEvent(old(View()), sid, PermissionPreset(preset))
    {
      hide View, Sessions, Put, Get;
      ghost var s := View();
      var st := Sess(sid);
      label found:
      st.preset := preset;
      Stored@found(sid);
      PutPut(s, sid, Get(s, sid), st.Value());
    }

    // ---- Frames ----

    method SessionEvent(sid: string, ev: SessionEvent)
      requires Valid()
      modifies this, states
      ensures Kept() && View() == OnSessionEvent(old(View()), sid, ev)
    {
      hide View, Sessions, Put, Get, Projection.EmitAs, Projection.CloseTurn, OnDecided, OnCall, OnContent, OnChunk, OnRecords, OnResults;
      match ev
      case TurnStart => TurnStart(sid);
      case UserText(t) =>
        if t != "" {
          EmitAs(sid, UserMessage(t), false);
        }
      case AssistantChunk(c) => AssistantChunk(sid, c);
      case AssistantAttempt(rs) => AssistantAttempt(sid, rs);
      case AssistantContent(r, t) => AssistantMessage(sid, r, t);
      case CallFrame(name, id) => ToolCall(sid, name, id);
      case TurnEnd(kind) => CloseTurn(sid, if kind == "" then "stop" else kind);
      case ApprovalAsked(id, tool, call) => ApprovalAsked(id, tool, call);
      case ApprovalDecided(id, outcome) => DecideApproval(sid, id, outcome);
      case PermissionPreset(p) => SetPreset(sid, p);
      case ResultFrame(bs) => ToolResult(sid, bs);
      case OtherSessionEvent =>
    }

    method Handle(c: Content)
      requires Valid()
      modifies this, states
      ensures Kept() && View() == OnContentOf(old(View()), c)
    {
      hide View, Sessions, Put, Get, Projection.EmitAs, Projection.CloseTurn, OnSessionEvent, OnChunk;
      match c
      case SessionStatus(sid, idle) =>
        if idle && sid == MAIN {
          CloseTurn(MAIN, "stop");
        }
      case RuntimeExit(data) => EmitAs("", TaskStatus(data), false);
      case SubagentFrame(parent, child, started) => EmitAs(child, Subagent(parent, started), false);
      case InSession(session, ev) => SessionEvent(if session == "" then MAIN else session, ev);
      case StreamChunk(session, chunk) =>
        if session == MAIN {
          AssistantChunk(MAIN, chunk);
        }
      case Unreadable =>
      case OtherFrame =>
    }

    /** Graph events due by the frame's time come first; then the frame itself. */
    method Frame(fr: Frame)
      requires Valid()
      modifies this, graphOpen, graphOpen.nodes, states
      ensures Kept() && View() == OnFrame(old(View()), fr)
    {
      hide View, Sessions, OnContentOf, Graph.FlushBefore;
      if fr.ts.At? {
        FlushGraphBefore(fr.ts.instant);
      }
      SetTime(if fr.ts.At? then fr.ts.raw else "");
      Handle(fr.content);
    }

    // ---- Graph events ----

    method GraphOpenAdd(node: string)
      requires Valid()
      modifies graphOpen, graphOpen.nodes
      ensures Kept() && View() == old(View()).(graphOpen := OpenAdd(old(View()).graphOpen, node))
    {
      graphOpen.Add(node);
      assert Sessions() == old(Sessions());
    }

    method GraphOpenRemove(node: string)
      requires Valid()
      modifies graphOpen, graphOpen.nodes
      ensures Kept() && View() == old(View()).(graphOpen := OpenRemove(old(View()).graphOpen, node))
    {
      graphOpen.Remove(node);
      assert Sessions() == old(Sessions());
    }

    method ApplyKind(kind: GraphKind)
      requires Valid() && !kind.UnknownKind?
      modifies this`events, this`closing, graphOpen, graphOpen.nodes
      ensures Kept() && View() == Shown(old(View()), kind)
    {
      hide View, Sessions, Resolve, OpenRemove;
      match kind
      case NodeDeclared(node) =>
        GraphOpenAdd(node);
        EmitAs("", Events.Graph(kind), false);
        EmitSpine();
      case NodeStarted(node, session) =>
        EmitAs(session, Events.Graph(kind), false);
      case NodeResult(node, outcome) =>
        EmitAs("g-" + node, Events.Graph(kind), false);
        if Ends(outcome) {
          GraphOpenRemove(node);
          EmitSpine();
        }
      case NodeReopened(node) =>
        if node != "" {
          GraphOpenAdd(node);
        }
        EmitAs("", Events.Graph(kind), false);
        if node != "" {
          EmitSpine();
        }
      case NodeAudit(node) =>
        EmitAs("", Events.Graph(kind), false);
      case GraphNotice =>
        EmitAs("", Events.Graph(kind), false);
    }

    method ApplyGraphEnv(g: GraphEvent)
      requires Valid()
      modifies this`events, this`closing, this`curTs, graphOpen, graphOpen.nodes
      ensures Kept() && View() == ApplyGraph(old(View()), g)
    {
      hide View, Sessions, Shown;
      ApplyGraphIs(View(), g);
      ViewFields();
      if g.instant != 0 {
        SetTime(g.time);
      }
      if !g.kind.UnknownKind? {
        ApplyKind(g.kind);
      }
      if g.instant != 0 {
        SetTime("");
      }
    }

    method FlushGraphBefore(edge: nat)
      requires Valid()
      modifies this, graphOpen, graphOpen.nodes
      ensures Kept() && View() == Graph.FlushBefore(old(View()), edge)
    {
      hide View, Sessions, ApplyGraph;
      ViewFields();
      ghost var s := View();
      while graphIdx < |graphQ| && graphQ[graphIdx].instant <= edge
        invariant Kept() && View().graphIdx == graphIdx && View().graphQ == graphQ && sessions == old(sessions) && states == old(states)
        invariant Graph.FlushBefore(s, edge) == Graph.FlushBefore(View(), edge)
        decreases |graphQ| - graphIdx
      {
        ApplyGraphEnv(graphQ[graphIdx]);
        Advance();
        ViewFields();
      }
    }

    method FlushGraphRemaining()
      requires Valid()
      modifies this, graphOpen, graphOpen.nodes
      ensures Kept() && View() == Graph.FlushRemaining(old(View()))
    {
      hide View, Sessions, ApplyGraph;
      ViewFields();
      ghost var s := View();
      while graphIdx < |graphQ|
        invariant Kept() && View().graphIdx == graphIdx && View().graphQ == graphQ && sessions == old(sessions) && states == old(states)
        invariant Graph.FlushRemaining(s) == Graph.FlushRemaining(View())
        decreases |graphQ| - graphIdx
      {
        ApplyGraphEnv(graphQ[graphIdx]);
        Advance();
        ViewFields();
      }
    }

    method Advance()
      requires Valid()
      modifies this`graphIdx
      ensures View() == old(View()).(graphIdx := old(graphIdx) + 1) && graphIdx == old(graphIdx) + 1
    {
      graphIdx := graphIdx + 1;
      assert Sessions() == old(Sessions());
    }

    // ---- End of input ----

    /** The session ids in ascending order, however the map is iterated. */
    method SessionIds() returns (sids: seq<string>)
      requires Valid()
      ensures SortedIds(sids, View().sessions)
    {
      sids := [];
      var rest := sessions.Keys;
      while rest != {}
        invariant Ascends(sids) && rest <= sessions.Keys
        invariant forall sid :: sid in sids <==> sid in sessions.Keys - rest
        decreases |rest|
      {
        var sid :| sid in rest;
        sids := Inserted(sids, sid);
        rest := rest - {sid};
      }
      assert (set x | x in sids) == sessions.Keys == Sessions().Keys;
    }

    static method Inserted(sids: seq<string>, sid: string) returns (more: seq<string>)
      requires Ascends(sids) && sid !in sids
      ensures Ascends(more) && forall x :: x in more <==> x in sids || x == sid
    {
      var i := 0;
      while i < |sids| && Less(sids[i], sid)
        invariant 0 <= i <= |sids|
        invariant forall k | 0 <= k < i :: Less(sids[k], sid)
      {
        i := i + 1;
      }
      InsertAscends(sids, sid, i);
      more := sids[..i] + [sid] + sids[i..];
      InsertHolds(sids, sid, i);
    }

    /** Every session still unfinished is closed as aborted, in order of id. */
    method CloseAll() returns (ghost sids: seq<string>)
      requires Valid()
      modifies this, states
      ensures Kept() && SortedIds(sids, old(View()).sessions)
      ensures View() == CloseSessions(old(View()), sids)
    {
      hide View, Sessions, CloseSessions, SortedIds;
      var ids := SessionIds();
      sids := ids;
      IdsAre(ids);
      CloseEach(ids);
    }

    method CloseEach(ids: seq<string>)
      requires Valid() && forall k | 0 <= k < |ids| :: ids[k] in sessions
      modifies this, states
      ensures Kept() && View() == CloseSessions(old(View()), ids)
    {
      hide View, Sessions, Projection.CloseTurn, Get, Put;
      ghost var s := View();
      for i := 0 to |ids|
        invariant Kept() && forall k | 0 <= k < |ids| :: ids[k] in sessions
        invariant CloseSessions(s, ids) == CloseSessions(View(), ids[i..])
      {
        var st := sessions[ids[i]];
        StateOf(ids[i]);
        assert ids[i..][1..] == ids[i + 1..];
        if st.turnOpen || st.openCalls != [] || st.textBuf != "" || st.reasonBuf != "" {
          CloseTurn(ids[i], "aborted");
        }
      }
      assert ids[|ids|..] == [];
    }

    /** The rest of the graph events, and the end of every session. */
    method Finish() returns (ghost sids: seq<string>)
      requires Valid()
      modifies this, graphOpen, graphOpen.nodes, states
      ensures Kept() && SortedIds(sids, old(View()).sessions)
      ensures View() == Run.Finish(old(View()), sids) && events == View().events
    {
      hide View, Sessions, CloseSessions, FlushRemaining, SortedIds;
      FlushRemainingSessions(View());
      FlushGraphRemaining();
      SetTime("");
      sids := CloseAll();
      ViewFields();
    }

    lemma IdsAre(sids: seq<string>)
      requires Valid() && SortedIds(sids, View().sessions)
      ensures forall k | 0 <= k < |sids| :: sids[k] in sessions
    {
      forall k | 0 <= k < |sids| ensures sids[k] in sessions {
        assert sids[k] in (set x | x in sids);
        assert sids[k] in Sessions().Keys;
      }
    }
  }

  lemma InsertAscends(sids: seq<string>, sid: string, i: nat)
    requires Ascends(sids) && i <= |sids| && sid !in sids
    requires (forall k | 0 <= k < i :: Less(sids[k], sid)) && (i < |sids| ==> !Less(sids[i], sid))
    ensures Ascends(sids[..i] + [sid] + sids[i..])
  {
    if i < |sids| {
      LessIsTotal(sids[i], sid);
      forall k | i <= k < |sids| ensures Less(sid, sids[k]) {
        if k > i {
          LessTrans(sid, sids[i], sids[k]);
        }
      }
    }
    hide Less;
    var more := sids[..i] + [sid] + sids[i..];
    forall a, b | 0 <= a < b < |more| ensures Less(more[a], more[b]) {
      assert more[a] == if a < i then sids[a] else if a == i then sid else sids[a - 1];
      assert more[b] == if b < i then sids[b] else if b == i then sid else sids[b - 1];
    }
  }

  lemma InsertHolds(sids: seq<string>, sid: string, i: nat)
    requires i <= |sids|
    ensures forall x :: x in sids[..i] + [sid] + sids[i..] <==> x in sids || x == sid
  {
    assert sids == sids[..i] + sids[i..];
  }

  /** A whole projection. The log it returns is that of the run function; what every run keeps
      and how it ends is proved of that function. */
  method Project(now: string, graphQ: seq<GraphEvent>, frames: seq<Frame>) returns (log: seq<Event>)
    ensures exists sids :: Projects(now, graphQ, frames, sids, log)
  {
    var p := new Projector(now, graphQ);
    p.EmitAs("", TaskCreated, false);
    p.EmitSpine();
    StartIs(now, graphQ);
    hide *;
    RunNone(Start(now, graphQ), frames);
    for i := 0 to |frames|
      invariant fresh(p) && fresh(p.graphOpen) && fresh(p.graphOpen.nodes) && fresh(p.states) && p.Valid()
      invariant p.View() == RunFrames(Start(now, graphQ), frames[..i])
    {
      RunNext(Start(now, graphQ), frames, i);
      p.Frame(frames[i]);
    }
    assert frames[..|frames|] == frames;
    ghost var sids := p.Finish();
    log := p.events;
    ProjectsIs(now, graphQ, frames, sids, log);
  }

  /** The log of the whole run, its unfinished sessions closed in this order of ids. */
  ghost predicate Projects(now: string, q: seq<GraphEvent>, frames: seq<Frame>, sids: seq<string>, log: seq<Event>)
  {
    && SortedIds(sids, RunFrames(Start(now, q), frames).sessions)
    && log == Finish(RunFrames(Start(now, q), frames), sids).events
  }

  lemma ProjectsIs(now: string, q: seq<GraphEvent>, frames: seq<Frame>, sids: seq<string>, log: seq<Event>)
    ensures Projects(now, q, frames, sids, log) <==>
            SortedIds(sids, RunFrames(Start(now, q), frames).sessions) &&
            log == Finish(RunFrames(Start(now, q), frames), sids).events
  {
  }

  lemma StartIs(now: string, q: seq<GraphEvent>)
    ensures Start(now, q) ==
            Projection.EmitSpine(Projection.EmitAs(State([], map[], map[], "", now, q, 0, [], [], [], []), "", TaskCreated, false))
  {
  }

  lemma RunNone(s: State, frames: seq<Frame>)
    ensures RunFrames(s, frames[..0]) == s
  {
  }

  lemma RunNext(s: State, frames: seq<Frame>, i: nat)
    requires i < |frames|
    ensures RunFrames(s, frames[..i + 1]) == OnFrame(RunFrames(s, frames[..i]), frames[i])
  {
    hide OnFrame;
    assert frames[..i + 1][..i] == frames[..i];
  }

  lemma {:induction false} FlushRemainingSessions(s: State)
    ensures FlushRemaining(s).sessions == s.sessions
    decreases |s.graphQ| - s.graphIdx
  {
    if s.graphIdx < |s.graphQ| {
      ApplyKeepsQueue(s);
      hide ApplyNext;
      FlushRemainingSessions(ApplyNext(s));
    }
  }
}
