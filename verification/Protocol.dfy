/** The call and result protocol: what every frame keeps, whatever the frames are. */
module Protocol {
  import opened Wrappers
  import opened Events
  import opened Projection

  // ---- Reading the log per session ----

  datatype CallRecord = CallRecord(callId: string, tool: string, ts: string)

  predicate IsCall(e: Event, sid: string) { e.session == sid && e.body.ToolCall? }
  predicate IsResult(e: Event, sid: string) { e.session == sid && e.body.ToolResult? }

  /** The calls of a session in the order in which the log has them. */
  function CallsIn(log: seq<Event>, sid: string): seq<CallRecord>
  {
    if log == [] then []
    else
      var e := log[|log| - 1];
      CallsIn(log[..|log| - 1], sid) + if IsCall(e, sid) then [CallRecord(e.body.callId, e.body.tool, e.ts)] else []
  }

  function ArrivedIn(arrived: seq<Arrival>, sid: string): seq<CallRecord>
  {
    if arrived == [] then []
    else
      var a := arrived[|arrived| - 1];
      ArrivedIn(arrived[..|arrived| - 1], sid) + if a.session == sid then [CallRecord(a.callId, a.tool, a.ts)] else []
  }

  function Buffered(now: string, pending: seq<Pending>): seq<CallRecord>
  {
    seq(|pending|, k requires 0 <= k < |pending| =>
      CallRecord(pending[k].callId, pending[k].tool, Resolve(now, pending[k].ts)))
  }

  function Ids(calls: seq<CallRecord>): seq<string>
  {
    seq(|calls|, k requires 0 <= k < |calls| => calls[k].callId)
  }

  /** Ids of the calls that results of this session took off the open list. */
  function ClosedIn(log: seq<Event>, closing: seq<bool>, sid: string): multiset<string>
    requires |closing| == |log|
  {
    if log == [] then multiset{}
    else
      var n := |log| - 1;
      ClosedIn(log[..n], closing[..n], sid) +
      if IsResult(log[n], sid) && closing[n] then multiset{log[n].body.callId} else multiset{}
  }

  function ResultsIn(log: seq<Event>, sid: string): multiset<string>
  {
    if log == [] then multiset{}
    else
      var n := |log| - 1;
      ResultsIn(log[..n], sid) + if IsResult(log[n], sid) then multiset{log[n].body.callId} else multiset{}
  }

  /** In no prefix of the log have more results closed a call than there are calls. */
  ghost predicate CallsComeFirst(log: seq<Event>, closing: seq<bool>, sid: string)
    requires |closing| == |log|
  {
    forall n | 0 <= n <= |log| :: CallBalance(log, closing, sid, n)
  }

  ghost predicate CallBalance(log: seq<Event>, closing: seq<bool>, sid: string, n: nat)
    requires n <= |log| == |closing|
  {
    ClosedIn(log[..n], closing[..n], sid) <= multiset(Ids(CallsIn(log[..n], sid)))
  }

  // ---- The invariant ----

  function PendingIds(pending: seq<Pending>): seq<string>
  {
    seq(|pending|, k requires 0 <= k < |pending| => pending[k].callId)
  }

  /** Emitted and buffered calls are the calls that arrived, in order and with their times;
      every buffered call is open; and every call that arrived is either open or closed. */
  ghost predicate Counts(
    now: string, calls: seq<CallRecord>, closed: multiset<string>, arrived: seq<CallRecord>,
    pending: seq<Pending>, openCalls: seq<string>)
  {
    && calls + Buffered(now, pending) == arrived
    && multiset(PendingIds(pending)) <= multiset(openCalls)
    && multiset(Ids(arrived)) == multiset(openCalls) + closed
  }

  ghost predicate SessionOk(s: State, sid: string)
    requires |s.closing| == |s.events|
  {
    && Counts(s.now, CallsIn(s.events, sid), ClosedIn(s.events, s.closing, sid), ArrivedIn(s.arrived, sid),
              Get(s, sid).pending, Get(s, sid).openCalls)
    && CallsComeFirst(s.events, s.closing, sid)
  }

  /** A result for a denied call id, from the denial on, says so. */
  ghost predicate Respected(log: seq<Event>, d: Denial, k: nat)
    requires k < |log|
  {
    d.since <= k && IsResult(log[k], d.session) && log[k].body.callId == d.callId ==>
      log[k].body.outcome == DeniedOutcome && !log[k].body.ok
  }

  ghost predicate DenialOk(s: State, d: Denial)
  {
    && d.callId in Get(s, d.session).denied && d.since <= |s.events|
    && forall k | 0 <= k < |s.events| :: Respected(s.events, d, k)
  }

  ghost predicate Ok(s: State)
  {
    && |s.closing| == |s.events| && Numbered(s.events)
    && (forall sid :: SessionOk(s, sid))
    && (forall d | d in s.denials :: DenialOk(s, d))
  }

  // ---- Emitting ----

  /** s' has one more event, and otherwise the same sessions and bookkeeping. */
  ghost predicate OneMore(s: State, s': State, e: Event, closes: bool)
  {
    s'.events == s.events + [e] && s'.closing == s.closing + [closes] && s'.sessions == s.sessions &&
    s'.arrived == s.arrived && s'.denials == s.denials && s'.now == s.now && e.number == |s.events| + 1
  }

  lemma LogSnoc(log: seq<Event>, closing: seq<bool>, e: Event, c: bool, sid: string)
    requires |closing| == |log|
    ensures CallsIn(log + [e], sid) ==
            CallsIn(log, sid) + if IsCall(e, sid) then [CallRecord(e.body.callId, e.body.tool, e.ts)] else []
    ensures ClosedIn(log + [e], closing + [c], sid) ==
            ClosedIn(log, closing, sid) + if IsResult(e, sid) && c then multiset{e.body.callId} else multiset{}
    ensures ResultsIn(log + [e], sid) ==
            ResultsIn(log, sid) + if IsResult(e, sid) then multiset{e.body.callId} else multiset{}
  {
    assert (log + [e])[..|log|] == log && (closing + [c])[..|log|] == closing;
  }

  lemma IdsConcat(x: seq<CallRecord>, y: seq<CallRecord>)
    ensures Ids(x + y) == Ids(x) + Ids(y)
  {
  }

  lemma BufferedIds(now: string, pending: seq<Pending>)
    ensures Ids(Buffered(now, pending)) == PendingIds(pending)
  {
  }

  /** The counts alone say that no more calls are closed than emitted. */
  lemma CountsBalance(
    now: string, calls: seq<CallRecord>, closed: multiset<string>, arrived: seq<CallRecord>,
    pending: seq<Pending>, openCalls: seq<string>)
    requires Counts(now, calls, closed, arrived, pending, openCalls)
    ensures closed <= multiset(Ids(calls))
    ensures multiset(Ids(calls)) + multiset(PendingIds(pending)) == multiset(openCalls) + closed
  {
    IdsConcat(calls, Buffered(now, pending));
    BufferedIds(now, pending);
    hide Ids, Buffered, PendingIds;
    var c, p, o := multiset(Ids(calls)), multiset(PendingIds(pending)), multiset(openCalls);
    assert c + p == o + closed;
    forall id ensures closed[id] <= c[id] {
      assert (c + p)[id] == (o + closed)[id];
      assert p[id] <= o[id];
    }
  }

  lemma BalanceSnoc(log: seq<Event>, closing: seq<bool>, e: Event, c: bool, sid: string)
    requires |closing| == |log| && CallsComeFirst(log, closing, sid)
    requires ClosedIn(log + [e], closing + [c], sid) <= multiset(Ids(CallsIn(log + [e], sid)))
    ensures CallsComeFirst(log + [e], closing + [c], sid)
  {
    hide ClosedIn, CallsIn, Ids;
    forall n | 0 <= n <= |log| + 1 ensures CallBalance(log + [e], closing + [c], sid, n) {
      if n <= |log| {
        assert CallBalance(log, closing, sid, n);
        assert (log + [e])[..n] == log[..n] && (closing + [c])[..n] == closing[..n];
      } else {
        assert (log + [e])[..n] == log + [e] && (closing + [c])[..n] == closing + [c];
      }
    }
  }

  /** One more event keeps a session fine if the counts come out right. */
  lemma SessionSnoc(s: State, s': State, e: Event, closes: bool, sid: string)
    requires |s.closing| == |s.events| && s'.events == s.events + [e] && s'.closing == s.closing + [closes]
    requires CallsComeFirst(s.events, s.closing, sid)
    requires Counts(s'.now, CallsIn(s'.events, sid), ClosedIn(s'.events, s'.closing, sid), ArrivedIn(s'.arrived, sid),
                    Get(s', sid).pending, Get(s', sid).openCalls)
    ensures SessionOk(s', sid)
  {
    hide Counts, CallsComeFirst, ClosedIn, CallsIn;
    CountsBalance(s'.now, CallsIn(s'.events, sid), ClosedIn(s'.events, s'.closing, sid), ArrivedIn(s'.arrived, sid),
                  Get(s', sid).pending, Get(s', sid).openCalls);
    BalanceSnoc(s.events, s.closing, e, closes, sid);
  }

  lemma DenialsSnoc(s: State, s': State, e: Event, closes: bool, d: Denial)
    requires OneMore(s, s', e, closes) && DenialOk(s, d)
    requires Respected(s'.events, d, |s.events|)
    ensures DenialOk(s', d)
  {
    forall k | 0 <= k < |s'.events| ensures Respected(s'.events, d, k) {
      if k < |s.events| {
        assert Respected(s.events, d, k);
      }
    }
  }

  /** An event that is neither call nor closing result of this session leaves it fine. */
  lemma ElsewhereOk(s: State, s': State, e: Event, closes: bool, sid: string)
    requires Ok(s) && s'.events == s.events + [e] && s'.closing == s.closing + [closes]
    requires s'.now == s.now && ArrivedIn(s'.arrived, sid) == ArrivedIn(s.arrived, sid)
    requires Get(s', sid).pending == Get(s, sid).pending && Get(s', sid).openCalls == Get(s, sid).openCalls
    requires !IsCall(e, sid) && !(IsResult(e, sid) && closes)
    ensures SessionOk(s', sid)
  {
    assert SessionOk(s, sid);
    LogSnoc(s.events, s.closing, e, closes, sid);
    hide Counts, CallsComeFirst, ClosedIn, CallsIn;
    assert CallsIn(s.events, sid) + [] == CallsIn(s.events, sid);
    SessionSnoc(s, s', e, closes, sid);
  }

  lemma OtherEventOk(s: State, s': State, e: Event, closes: bool)
    requires Ok(s) && OneMore(s, s', e, closes) && !e.body.ToolCall? && !e.body.ToolResult?
    ensures Ok(s')
  {
    hide SessionOk, DenialOk;
    forall sid ensures SessionOk(s', sid) {
      ElsewhereOk(s, s', e, closes, sid);
    }
    forall d | d in s'.denials ensures DenialOk(s', d) {
      DenialsSnoc(s, s', e, closes, d);
    }
  }

  lemma EmitOk(s: State, session: string, body: Body)
    requires Ok(s) && !body.ToolCall? && !body.ToolResult?
    ensures Ok(Emit(s, session, body))
  {
    hide Ok;
    var s' := Emit(s, session, body);
    OtherEventOk(s, s', s'.events[|s.events|], false);
  }

  /** Changing fields that the protocol does not speak of. */
  lemma SideFieldsOk(s: State, s': State)
    requires Ok(s) && s'.events == s.events && s'.closing == s.closing && s'.arrived == s.arrived
    requires s'.denials == s.denials && s'.now == s.now
    requires forall sid :: SameCalls(s, s', sid)
    ensures Ok(s')
  {
    forall sid ensures SessionOk(s', sid) {
      assert SessionOk(s, sid) && SameCalls(s, s', sid);
    }
    forall d | d in s'.denials ensures DenialOk(s', d) {
      assert DenialOk(s, d) && SameCalls(s, s', d.session);
    }
  }

  /** The call lists of a session agree, and denials only grow. */
  ghost predicate SameCalls(s: State, s': State, sid: string)
  {
    && Get(s', sid).openCalls == Get(s, sid).openCalls && Get(s, sid).denied <= Get(s', sid).denied
    && Buffered(s'.now, Get(s', sid).pending) == Buffered(s.now, Get(s, sid).pending)
    && PendingIds(Get(s', sid).pending) == PendingIds(Get(s, sid).pending)
  }

  lemma PutOk(s: State, sid: string, st: Session)
    requires Ok(s) && st.openCalls == Get(s, sid).openCalls && st.pending == Get(s, sid).pending
    requires Get(s, sid).denied <= st.denied
    ensures Ok(Put(s, sid, st))
  {
    hide Ok;
    forall other ensures SameCalls(s, Put(s, sid, st), other) {
    }
    SideFieldsOk(s, Put(s, sid, st));
  }

  // ---- The five steps ----

  lemma ArrivedSnoc(arrived: seq<Arrival>, a: Arrival, sid: string)
    ensures ArrivedIn(arrived + [a], sid) ==
            ArrivedIn(arrived, sid) + if a.session == sid then [CallRecord(a.callId, a.tool, a.ts)] else []
  {
    assert (arrived + [a])[..|arrived|] == arrived;
  }

  lemma CountsOnArrival(
    now: string, calls: seq<CallRecord>, closed: multiset<string>, arrived: seq<CallRecord>,
    pending: seq<Pending>, openCalls: seq<string>, p: Pending)
    requires Counts(now, calls, closed, arrived, pending, openCalls)
    ensures Counts(now, calls, closed, arrived + [CallRecord(p.callId, p.tool, Resolve(now, p.ts))],
                   pending + [p], openCalls + [p.callId])
  {
    var rec := CallRecord(p.callId, p.tool, Resolve(now, p.ts));
    assert Buffered(now, pending + [p]) == Buffered(now, pending) + [rec];
    assert calls + (Buffered(now, pending) + [rec]) == (calls + Buffered(now, pending)) + [rec];
    assert PendingIds(pending + [p]) == PendingIds(pending) + [p.callId];
    IdsConcat(arrived, [rec]);
    assert Ids([rec]) == [p.callId];
  }

  /** A call arrives: it is buffered and open. */
  lemma OnCallOk(s: State, sid: string, name: string, callId: string)
    requires Ok(s)
    ensures Ok(OnCall(s, sid, name, callId))
  {
    var s' := OnCall(s, sid, name, callId);
    var st := Get(s, sid);
    var p := Get(s', sid).pending[|st.pending|];
    var a := s'.arrived[|s.arrived|];
    assert Get(s', sid).pending == st.pending + [p] && Get(s', sid).openCalls == st.openCalls + [p.callId];
    forall other ensures SessionOk(s', other) {
      assert SessionOk(s, other);
      ArrivedSnoc(s.arrived, a, other);
      hide Counts, CallsComeFirst, ClosedIn, CallsIn, ArrivedIn;
      if other == sid {
        CountsOnArrival(s.now, CallsIn(s.events, sid), ClosedIn(s.events, s.closing, sid), ArrivedIn(s.arrived, sid),
                        st.pending, st.openCalls, p);
      } else {
        assert ArrivedIn(s.arrived, other) + [] == ArrivedIn(s.arrived, other);
      }
    }
    forall d | d in s'.denials ensures DenialOk(s', d) {
      assert DenialOk(s, d);
    }
  }

  lemma CountsOnEmit(
    now: string, calls: seq<CallRecord>, closed: multiset<string>, arrived: seq<CallRecord>,
    pending: seq<Pending>, openCalls: seq<string>)
    requires Counts(now, calls, closed, arrived, pending, openCalls) && pending != []
    ensures Counts(now, calls + [CallRecord(pending[0].callId, pending[0].tool, Resolve(now, pending[0].ts))], closed, arrived,
                   pending[1..], openCalls)
  {
    var p := pending[0];
    var rec := CallRecord(p.callId, p.tool, Resolve(now, p.ts));
    assert Buffered(now, pending) == [rec] + Buffered(now, pending[1..]);
    assert calls + ([rec] + Buffered(now, pending[1..])) == (calls + [rec]) + Buffered(now, pending[1..]);
    assert PendingIds(pending) == [p.callId] + PendingIds(pending[1..]);
  }

  /** The oldest buffered call is emitted, with the time at which it arrived. */
  function FlushOne(s: State, sid: string): State
    requires Get(s, sid).pending != []
  {
    FlushFirst(s, sid, 1)
  }

  function CallEvent(s: State, sid: string, p: Pending): Event
  {
    Event(|s.events| + 1, Resolve(s.now, p.ts), sid, ToolCall(p.callId, p.tool, p.approval))
  }

  lemma FlushOneIs(s: State, sid: string)
    requires Get(s, sid).pending != [] && sid != ""
    ensures var st := Get(s, sid);
            FlushOne(s, sid) ==
            Put(s, sid, st.(pending := st.pending[1..]))
            .(events := s.events + [CallEvent(s, sid, st.pending[0])], closing := s.closing + [false])
  {
    var calls := Get(s, sid).pending[..1];
    var s1 := Emit(s.(curTs := calls[0].ts), sid, ToolCall(calls[0].callId, calls[0].tool, calls[0].approval));
    assert calls[1..] == [];
    assert EmitCalls(s, sid, calls) == EmitCalls(s1.(curTs := s.curTs), sid, []) == s1.(curTs := s.curTs);
  }

  lemma FlushOneOk(s: State, sid: string)
    requires Ok(s) && Get(s, sid).pending != [] && sid != ""
    ensures Ok(FlushOne(s, sid))
  {
    var st := Get(s, sid);
    var p := st.pending[0];
    var s' := FlushOne(s, sid);
    FlushOneIs(s, sid);
    var e := CallEvent(s, sid, p);
    assert s'.events == s.events + [e] && s'.closing == s.closing + [false];
    forall other ensures SessionOk(s', other) {
      if other == sid {
        assert SessionOk(s, sid);
        LogSnoc(s.events, s.closing, e, false, sid);
        hide Counts, CallsComeFirst, ClosedIn, CallsIn, ArrivedIn;
        CountsOnEmit(s.now, CallsIn(s.events, sid), ClosedIn(s.events, s.closing, sid), ArrivedIn(s.arrived, sid),
                     st.pending, st.openCalls);
        SessionSnoc(s, s', e, false, sid);
      } else {
        hide SessionOk;
        ElsewhereOk(s, s', e, false, other);
      }
    }
    DenialsKept(s, s', e);
  }

  /** Denials are respected after one more event that is not an undenied result for them. */
  lemma DenialsKept(s: State, s': State, e: Event)
    requires Ok(s) && s'.events == s.events + [e] && s'.denials == s.denials
    requires forall sid :: Get(s, sid).denied <= Get(s', sid).denied
    requires forall d | d in s.denials ::
               IsResult(e, d.session) && e.body.callId == d.callId ==> e.body.outcome == DeniedOutcome && !e.body.ok
    ensures forall d | d in s'.denials :: DenialOk(s', d)
  {
    forall d | d in s'.denials ensures DenialOk(s', d) {
      assert DenialOk(s, d);
      forall k | 0 <= k < |s'.events| ensures Respected(s'.events, d, k) {
        if k < |s.events| {
          assert Respected(s.events, d, k);
        }
      }
    }
  }

  lemma CountsOnClose(
    now: string, calls: seq<CallRecord>, closed: multiset<string>, arrived: seq<CallRecord>,
    pending: seq<Pending>, openCalls: seq<string>, openCalls': seq<string>, id: string)
    requires Counts(now, calls, closed, arrived, pending, openCalls)
    requires multiset(openCalls) == multiset(openCalls') + multiset{id}
    requires multiset(PendingIds(pending)) <= multiset(openCalls')
    ensures Counts(now, calls, closed + multiset{id}, arrived, pending, openCalls')
  {
  }

  /** A result takes one open call that is not waiting in the buffer off the open list. */
  lemma CloseOk(s: State, sid: string, openCalls': seq<string>, id: string, ok: bool, outcome: Outcome)
    requires Ok(s) && sid != ""
    requires multiset(Get(s, sid).openCalls) == multiset(openCalls') + multiset{id}
    requires multiset(PendingIds(Get(s, sid).pending)) <= multiset(openCalls')
    requires id in Get(s, sid).denied ==> outcome == DeniedOutcome && !ok
    ensures Ok(EmitAs(Put(s, sid, Get(s, sid).(openCalls := openCalls')), sid, ToolResult(id, ok, outcome), true))
  {
    var st := Get(s, sid);
    var s' := EmitAs(Put(s, sid, st.(openCalls := openCalls')), sid, ToolResult(id, ok, outcome), true);
    var e := s'.events[|s.events|];
    forall other ensures SessionOk(s', other) {
      if other == sid {
        assert SessionOk(s, sid);
        LogSnoc(s.events, s.closing, e, true, sid);
        hide Counts, CallsComeFirst, ClosedIn, CallsIn, ArrivedIn;
        assert CallsIn(s.events, sid) + [] == CallsIn(s.events, sid);
        CountsOnClose(s.now, CallsIn(s.events, sid), ClosedIn(s.events, s.closing, sid), ArrivedIn(s.arrived, sid),
                      st.pending, st.openCalls, openCalls', id);
        SessionSnoc(s, s', e, true, sid);
      } else {
        hide SessionOk;
        ElsewhereOk(s, s', e, true, other);
      }
    }
    hide SessionOk;
    DenialIds(s);
    DenialsKept(s, s', e);
  }

  lemma DenialIds(s: State)
    requires Ok(s)
    ensures forall d | d in s.denials :: d.callId in Get(s, d.session).denied
  {
    forall d | d in s.denials ensures d.callId in Get(s, d.session).denied {
      assert DenialOk(s, d);
    }
  }

  /** A result for a call that is not open changes nothing but the log. */
  lemma StrayResultOk(s: State, sid: string, id: string, ok: bool, outcome: Outcome)
    requires Ok(s) && sid != ""
    requires id in Get(s, sid).denied ==> outcome == DeniedOutcome && !ok
    ensures Ok(EmitAs(s, sid, ToolResult(id, ok, outcome), false))
  {
    var s' := EmitAs(s, sid, ToolResult(id, ok, outcome), false);
    var e := s'.events[|s.events|];
    hide SessionOk;
    forall other ensures SessionOk(s', other) {
      ElsewhereOk(s, s', e, false, other);
    }
    DenialIds(s);
    DenialsKept(s, s', e);
  }

  /** A buffered call is denied: from here on its results say so. */
  lemma DenyOk(s: State, sid: string, id: string)
    requires Ok(s)
    ensures var st := Get(s, sid);
            Ok(Put(s, sid, st.(denied := st.denied + {id})).(denials := s.denials + [Denial(sid, id, |s.events|)]))
  {
    var st := Get(s, sid);
    var s1 := Put(s, sid, st.(denied := st.denied + {id}));
    PutOk(s, sid, st.(denied := st.denied + {id}));
    var d := Denial(sid, id, |s.events|);
    var s' := s1.(denials := s.denials + [d]);
    forall other ensures SessionOk(s', other) {
      assert SessionOk(s1, other);
    }
    forall c | c in s'.denials ensures DenialOk(s', c) {
      if c in s.denials {
        assert DenialOk(s1, c);
        forall k | 0 <= k < |s'.events| ensures Respected(s'.events, c, k) {
          assert Respected(s1.events, c, k);
        }
      }
    }
  }

  // ---- Flushing ----

  lemma PutTwice(s: State, sid: string, a: Session, b: Session)
    ensures Put(Put(s, sid, a), sid, b) == Put(s, sid, b)
    ensures Get(Put(s, sid, a), sid) == a
    ensures forall other | other != sid :: Get(Put(s, sid, a), other) == Get(s, other)
  {
  }

  /** Emission does not look at the sessions. */
  lemma {:induction false} EmitCallsPut(s: State, sid: string, calls: seq<Pending>, other: string, st: Session)
    ensures EmitCalls(Put(s, other, st), sid, calls) == Put(EmitCalls(s, sid, calls), other, st)
    ensures EmitCalls(s, sid, calls).sessions == s.sessions
    decreases |calls|
  {
    if calls != [] {
      var p := calls[0];
      var s1 := Emit(s.(curTs := p.ts), sid, ToolCall(p.callId, p.tool, p.approval)).(curTs := s.curTs);
      EmitCallsPut(s1, sid, calls[1..], other, st);
    }
  }

  lemma FlushStep(s: State, sid: string, cut: nat)
    requires 0 < cut <= |Get(s, sid).pending|
    ensures |Get(FlushOne(s, sid), sid).pending| == |Get(s, sid).pending| - 1
    ensures FlushFirst(s, sid, cut) == FlushFirst(FlushOne(s, sid), sid, cut - 1)
  {
    var st := Get(s, sid);
    var calls := st.pending[..cut];
    var p := calls[0];
    var s1 := Emit(s.(curTs := p.ts), sid, ToolCall(p.callId, p.tool, p.approval)).(curTs := s.curTs);
    var st1 := st.(pending := st.pending[1..]);
    assert st.pending[..1] == [p] && [p][1..] == [];
    assert EmitCalls(s1, sid, []) == s1;
    assert FlushOne(s, sid) == Put(s1, sid, st1);
    assert calls[1..] == st1.pending[..cut - 1] && st1.pending[cut - 1..] == st.pending[cut..];
    EmitCallsPut(s1, sid, calls[1..], sid, st1);
    PutTwice(EmitCalls(s1, sid, calls[1..]), sid, st1, st1.(pending := st1.pending[cut - 1..]));
    PutTwice(s1, sid, st1, st1);
  }

  lemma {:induction false} FlushFirstOk(s: State, sid: string, cut: nat)
    requires Ok(s) && sid != "" && cut <= |Get(s, sid).pending|
    ensures Ok(FlushFirst(s, sid, cut))
    ensures Get(FlushFirst(s, sid, cut), sid) == Get(s, sid).(pending := Get(s, sid).pending[cut..])
    decreases cut
  {
    EmitCallsPut(s, sid, Get(s, sid).pending[..cut], sid, NEW_SESSION);
    if cut == 0 {
      var st := Get(s, sid);
      assert st.pending[..0] == [] && st.pending[0..] == st.pending;
      assert FlushFirst(s, sid, 0) == Put(s, sid, st);
      hide Ok;
      PutOk(s, sid, st);
    } else {
      hide Ok, FlushFirst;
      FlushOneOk(s, sid);
      FlushStep(s, sid, cut);
      FlushFirstOk(FlushOne(s, sid), sid, cut - 1);
    }
  }

  /** After a flush up to a call, one of its openings is no longer waiting in the buffer. */
  lemma FlushToOk(s: State, sid: string, callId: string)
    requires Ok(s) && sid != ""
    ensures Ok(FlushTo(s, sid, callId))
    ensures var st := Get(FlushTo(s, sid, callId), sid);
            && st.openCalls == Get(s, sid).openCalls && st.denied == Get(s, sid).denied
            && (callId in st.openCalls ==> multiset(PendingIds(st.pending)) <= multiset(st.openCalls) - multiset{callId})
  {
    var st := Get(s, sid);
    var found := FirstCall(st.pending, callId);
    assert SessionOk(s, sid);
    if found.None? {
      AbsentNotPending(st.pending, callId);
      WithoutOne(multiset(PendingIds(st.pending)), multiset(st.openCalls), callId);
    } else {
      var cut := found.value + 1;
      PendingCut(st.pending, cut);
      hide Ok, SessionOk, FlushFirst;
      FlushFirstOk(s, sid, cut);
    }
  }

  lemma AbsentNotPending(pending: seq<Pending>, callId: string)
    requires forall k | 0 <= k < |pending| :: pending[k].callId != callId
    ensures callId !in multiset(PendingIds(pending))
  {
    assert callId !in PendingIds(pending);
  }

  lemma WithoutOne(small: multiset<string>, large: multiset<string>, id: string)
    requires small <= large && id !in small
    ensures small <= large - multiset{id}
  {
  }

  lemma PendingCut(pending: seq<Pending>, cut: nat)
    requires 0 < cut <= |pending|
    ensures multiset(PendingIds(pending[cut..])) + multiset{pending[cut - 1].callId} <= multiset(PendingIds(pending))
  {
    var ids := PendingIds(pending);
    assert ids == ids[..cut - 1] + [ids[cut - 1]] + ids[cut..];
    assert PendingIds(pending[cut..]) == ids[cut..];
  }

  // ---- Results ----

  lemma {:induction false} RemoveFirstIs(ids: seq<string>, id: string)
    ensures id in ids ==> multiset(ids) == multiset(RemoveFirst(ids, id)) + multiset{id}
    ensures id !in ids ==> RemoveFirst(ids, id) == ids
  {
    if ids != [] {
      RemoveFirstIs(ids[1..], id);
      assert ids == [ids[0]] + ids[1..];
    }
  }

  lemma OnResultBlockOk(s: State, sid: string, b: ResultBlock)
    requires Ok(s) && sid != ""
    ensures Ok(OnResultBlock(s, sid, b))
  {
    if b.callId != "" {
      hide Ok, FlushTo;
      FlushToOk(s, sid, b.callId);
      var s1 := FlushTo(s, sid, b.callId);
      var st := Get(s1, sid);
      RemoveFirstIs(st.openCalls, b.callId);
      var rest := RemoveFirst(st.openCalls, b.callId);
      var denied := b.callId in st.denied;
      var outcome := if denied then DeniedOutcome else if b.isError then Error else Completed;
      if b.callId in st.openCalls {
        CloseOk(s1, sid, rest, b.callId, !denied && !b.isError, outcome);
      } else {
        PutOk(s1, sid, st);
        PutTwice(s1, sid, st, st);
        StrayResultOk(Put(s1, sid, st), sid, b.callId, !denied && !b.isError, outcome);
      }
    }
  }

  lemma {:induction false} OnResultsOk(s: State, sid: string, blocks: seq<ResultBlock>)
    requires Ok(s) && sid != ""
    ensures Ok(OnResults(s, sid, blocks))
    decreases |blocks|
  {
    if blocks != [] {
      hide Ok, OnResultBlock;
      OnResultBlockOk(s, sid, blocks[0]);
      OnResultsOk(OnResultBlock(s, sid, blocks[0]), sid, blocks[1..]);
    }
  }

  // ---- Approvals ----

  lemma ApprovalKeepsCalls(s: State, sid: string, k: nat, approval: Option<Approval>)
    requires Ok(s) && k < |Get(s, sid).pending|
    ensures var st := Get(s, sid);
            Ok(Put(s, sid, st.(pending := st.pending[k := st.pending[k].(approval := approval)])))
  {
    var st := Get(s, sid);
    var st' := st.(pending := st.pending[k := st.pending[k].(approval := approval)]);
    assert Buffered(s.now, st'.pending) == Buffered(s.now, st.pending);
    assert PendingIds(st'.pending) == PendingIds(st.pending);
    hide Ok, Buffered, PendingIds;
    forall other ensures SameCalls(s, Put(s, sid, st'), other) {
    }
    SideFieldsOk(s, Put(s, sid, st'));
  }

  lemma AsksOk(s: State, asks: map<string, Ask>)
    requires Ok(s)
    ensures Ok(s.(asks := asks))
  {
    hide Ok;
    forall other ensures SameCalls(s, s.(asks := asks), other) {
    }
    SideFieldsOk(s, s.(asks := asks));
  }

  lemma OnDecidedOk(s: State, sid: string, id: string, outcome: string)
    requires Ok(s)
    ensures Ok(OnDecided(s, sid, id, outcome))
  {
    if id in s.asks {
      hide Ok;
      var s1 := s.(asks := s.asks - {id});
      AsksOk(s, s.asks - {id});
      var st := Get(s, sid);
      LastMatchIsLast(s.asks[id], st.pending);
      var m := LastMatch(s.asks[id], st.pending);
      PutOk(s1, sid, st);
      if m.Some? {
        var approval := Some(if outcome == "allowed-once" then Granted else Denied);
        ApprovalKeepsCalls(s1, sid, m.value, approval);
        var st1 := st.(pending := st.pending[m.value := st.pending[m.value].(approval := approval)]);
        DenyOk(Put(s1, sid, st1), sid, st.pending[m.value].callId);
        PutTwice(s1, sid, st1, st1.(denied := st1.denied + {st.pending[m.value].callId}));
      }
    }
  }

  // ---- Text and turns ----

  lemma OnChunkOk(s: State, sid: string, c: Chunk)
    requires Ok(s)
    ensures Ok(OnChunk(s, sid, c))
  {
    hide Ok;
    var st := Get(s, sid);
    match c
    case ReasoningDelta(t) => PutOk(s, sid, st.(reasoning := st.reasoning + t));
    case TextDelta(t) => PutOk(s, sid, st.(text := st.text + t));
    case Usage =>
      PutOk(s, sid, st);
      EmitOk(Put(s, sid, st), "", UsageRecorded);
    case OtherChunk => PutOk(s, sid, st);
  }

  lemma {:induction false} OnRecordsOk(s: State, sid: string, records: seq<Record>)
    requires Ok(s)
    ensures Ok(OnRecords(s, sid, records))
    decreases |records|
  {
    if records != [] {
      hide Ok, OnChunk;
      var st := Get(s, sid);
      match records[0]
      case TextChunks(ts) =>
        PutOk(s, sid, st.(text := st.text + Concat(ts)));
        OnRecordsOk(Put(s, sid, st.(text := st.text + Concat(ts))), sid, records[1..]);
      case ReasoningChunks(ts) =>
        PutOk(s, sid, st.(reasoning := st.reasoning + Concat(ts)));
        OnRecordsOk(Put(s, sid, st.(reasoning := st.reasoning + Concat(ts))), sid, records[1..]);
      case Nested(c) =>
        OnChunkOk(s, sid, c);
        OnRecordsOk(OnChunk(s, sid, c), sid, records[1..]);
    }
  }

  lemma FlushTextOk(s: State, sid: string)
    requires Ok(s)
    ensures Ok(FlushText(s, sid))
    ensures Get(FlushText(s, sid), sid) == Get(s, sid).(text := "", reasoning := "")
  {
    hide Ok;
    var st := Get(s, sid);
    var s1 := Put(s, sid, st.(text := "", reasoning := ""));
    PutOk(s, sid, st.(text := "", reasoning := ""));
    if st.text != "" || st.reasoning != "" {
      EmitOk(s1, sid, AssistantMessage(st.reasoning, st.text));
    }
  }

  lemma {:induction false} CloseCallsPut(s: State, sid: string, ids: seq<string>, outcome: Outcome, st: Session)
    requires st.denied == Get(s, sid).denied
    ensures CloseCalls(Put(s, sid, st), sid, ids, outcome) == Put(CloseCalls(s, sid, ids, outcome), sid, st)
    ensures CloseCalls(s, sid, ids, outcome).sessions == s.sessions
    decreases |ids|
  {
    if ids != [] {
      var oc := if ids[0] in Get(s, sid).denied then DeniedOutcome else outcome;
      CloseCallsPut(EmitAs(s, sid, ToolResult(ids[0], oc == Completed, oc), true), sid, ids[1..], outcome, st);
    }
  }

  lemma {:induction false} CloseCallsOk(s: State, sid: string, ids: seq<string>, outcome: Outcome)
    requires Ok(s) && sid != "" && Get(s, sid).pending == [] && Get(s, sid).openCalls == ids
    ensures Ok(Put(CloseCalls(s, sid, ids, outcome), sid, Get(s, sid).(openCalls := [])))
    decreases |ids|
  {
    var st := Get(s, sid);
    var done := st.(openCalls := []);
    if ids == [] {
      hide Ok;
      PutOk(s, sid, done);
    } else {
      var id, rest := ids[0], ids[1..];
      var oc := if id in st.denied then DeniedOutcome else outcome;
      var st1 := st.(openCalls := rest);
      var e1 := EmitAs(s, sid, ToolResult(id, oc == Completed, oc), true);
      var s1 := EmitAs(Put(s, sid, st1), sid, ToolResult(id, oc == Completed, oc), true);
      assert s1 == Put(e1, sid, st1);
      assert ids == [id] + rest;
      assert multiset(PendingIds([])) == multiset{};
      CloseCallsPut(e1, sid, rest, outcome, st1);
      PutTwice(CloseCalls(e1, sid, rest, outcome), sid, st1, done);
      PutTwice(e1, sid, st1, st1);
      hide Ok;
      CloseOk(s, sid, rest, id, oc == Completed, oc);
      CloseCallsOk(s1, sid, rest, outcome);
    }
  }

  /** A closed turn leaves nothing open, nothing buffered and no text behind. */
  lemma CloseTurnOk(s: State, sid: string, kind: string)
    requires Ok(s) && sid != ""
    ensures Ok(CloseTurn(s, sid, kind))
    ensures NothingToClose(Get(CloseTurn(s, sid, kind), sid))
    ensures !NothingToClose(Get(s, sid)) ==>
              Get(CloseTurn(s, sid, kind), sid) ==
              Get(s, sid).(openCalls := [], pending := [], turnOpen := false, text := "", reasoning := "")
  {
    var st := Get(s, sid);
    hide Ok, FlushFirst, FlushText, CloseCalls;
    if NothingToClose(st) {
      PutOk(s, sid, st);
    } else {
      FlushFirstOk(s, sid, |st.pending|);
      var s0 := FlushFirst(s, sid, |st.pending|);
      FlushTextOk(s0, sid);
      var s1 := FlushText(s0, sid);
      var st1 := Get(s1, sid);
      assert st1.pending == [];
      CloseCallsOk(s1, sid, st1.openCalls, CleanOutcome(kind));
      var s2 := CloseCalls(s1, sid, st1.openCalls, CleanOutcome(kind));
      CloseCallsPut(s1, sid, st1.openCalls, CleanOutcome(kind), st1);
      var st2 := st1.(openCalls := []);
      PutTwice(s2, sid, st2, st2.(turnOpen := false));
      PutOk(Put(s2, sid, st2), sid, st2.(turnOpen := false));
    }
  }

  // ---- Frames ----

  lemma OnSessionEventOk(s: State, sid: string, ev: SessionEvent)
    requires Ok(s) && sid != ""
    ensures Ok(OnSessionEvent(s, sid, ev))
  {
    hide Ok, OnChunk, OnRecords, OnCall, CloseTurn, OnDecided, OnResults;
    var st := Get(s, sid);
    PutOk(s, sid, st);
    match ev
    case TurnStart => PutOk(s, sid, st.(turnOpen := true, turnNo := if sid == MAIN then st.turnNo + 1 else st.turnNo));
    case UserText(t) => EmitOk(s, sid, UserMessage(t));
    case AssistantChunk(c) => OnChunkOk(s, sid, c);
    case AssistantAttempt(rs) => OnRecordsOk(Put(s, sid, st), sid, rs);
    case AssistantContent(r, t) =>
      PutOk(s, sid, st.(text := "", reasoning := ""));
      EmitOk(Put(s, sid, st.(text := "", reasoning := "")), sid, AssistantMessage(r, t));
    case CallFrame(name, id) => OnCallOk(s, sid, name, id);
    case TurnEnd(kind) => CloseTurnOk(s, sid, if kind == "" then "stop" else kind);
    case ApprovalAsked(id, tool, call) => AsksOk(s, s.asks[id := Ask(tool, call)]);
    case ApprovalDecided(id, outcome) => OnDecidedOk(s, sid, id, outcome);
    case PermissionPreset(p) => PutOk(s, sid, st.(preset := p));
    case ResultFrame(bs) => OnResultsOk(Put(s, sid, st), sid, bs);
    case OtherSessionEvent =>
  }

  lemma OnContentOfOk(s: State, c: Content)
    requires Ok(s)
    ensures Ok(OnContentOf(s, c))
  {
    hide Ok, OnChunk, OnSessionEvent, CloseTurn;
    match c
    case SessionStatus(sid, idle) => CloseTurnOk(s, MAIN, "stop");
    case RuntimeExit(data) => EmitOk(s, "", TaskStatus(data));
    case SubagentFrame(parent, child, started) => EmitOk(s, child, Subagent(parent, started));
    case InSession(session, ev) => OnSessionEventOk(s, SidOf(session), ev);
    case StreamChunk(session, c) => OnChunkOk(s, MAIN, c);
    case Unreadable =>
    case OtherFrame =>
  }
}
