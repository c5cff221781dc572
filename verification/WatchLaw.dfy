/** What a watch tells and does, event by event, said apart from the callbacks; and what it tells
    over a whole run, read off the events alone. */
module WatchLaw {
  import opened Wrappers
  import opened Watcher

  // ---- One event ----

  /** A snapshot that comes, with what its two listeners do. */
  datatype Coming = Coming(snap: Snap, onSnapshot: Listener, onTerminal: Listener)

  function SnapOf(e: Event): Option<Coming>
  {
    match e
    case Message(_, Some(snap), l, m) => Some(Coming(snap, l, m))
    case PollReturns(Fresh(snap, l, m)) => Some(Coming(snap, l, m))
    case _ => None
  }

  /** The task is gone: the socket or the poll said so. */
  predicate SaysGone(e: Event) { (e.Dropped? && e.notFound) || e == PollReturns(NotFound) }

  /** The event ends an open watch. */
  predicate Ending(e: Event)
  {
    || e == CloseCall || SaysGone(e)
    || (SnapOf(e).Some? &&
        var c := SnapOf(e).value;
        c.onSnapshot == Closes || (c.snap.terminal && c.onSnapshot != Throws && c.onTerminal != Throws))
  }

  /** What an open watch tells of the task: every snapshot that comes, then its end if it is
      terminal and its listener did not throw; and that the task is gone. */
  function TellsOf(e: Event): seq<Output>
  {
    if SnapOf(e).Some? then
      var c := SnapOf(e).value;
      if c.snap.terminal && c.onSnapshot != Throws then [Snapshot(c.snap.id), Terminal(c.snap.id)] else [Snapshot(c.snap.id)]
    else if SaysGone(e) then [Gone]
    else []
  }

  predicate Reconnects(s: State, e: Event)
  {
    e.TimerFires? && e.timer in s.due && s.due[e.timer] == Reconnect
  }

  predicate Polls(s: State, e: Event)
  {
    e.TimerFires? && e.timer in s.due && s.due[e.timer] == Poll
  }

  predicate Drops(e: Event) { e.Errored? || (e.Dropped? && !e.notFound) }

  /** Whether the socket is live: when one opens, whatever the watch; and when one is lost while no
      reconnect is pending, cannot be made, or says that the task is gone. */
  function LiveOf(s: State, e: Event): seq<Output>
  {
    if e.Opened? then [Live(true)]
    else if !s.closed && ((Drops(e) && !s.reconnectPending) || (Reconnects(s, e) && !e.ok) || (e.Dropped? && e.notFound))
    then [Live(false)]
    else []
  }

  /** The law of one event. */
  ghost predicate Law(s: State, e: Event, s': State)
  {
    && s'.out == s.out + LiveOf(s, e) + (if s.closed then [] else TellsOf(e))
    && (s'.closed <==> s.closed || Ending(e))
    && (s'.reconnectPending <==> !Reconnects(s, e) && (s.reconnectPending || (!s.closed && Drops(e))))
    && s'.made == s.made + (if Reconnects(s, e) && !s.closed && e.ok then 1 else 0)
    && s'.inFlight == s.inFlight - (if e.PollReturns? then 1 else 0) + (if Polls(s, e) && !s.closed && !e.limited then 1 else 0)
  }

  lemma CloseKeeps(s: State)
    ensures var c := CloseAll(s);
            c.closed && c.out == s.out && c.reconnectPending == s.reconnectPending && c.made == s.made && c.inFlight == s.inFlight
  {
  }

  lemma SettledLaw(s: State, snap: Snap, l: Listener, m: Listener)
    requires !s.closed
    ensures var t := Settled(s, snap, l, m);
            && t.out == s.out + (if snap.terminal && l != Throws then [Snapshot(snap.id), Terminal(snap.id)] else [Snapshot(snap.id)])
            && (t.closed <==> l == Closes || (snap.terminal && l != Throws && m != Throws))
            && t.reconnectPending == s.reconnectPending && t.made == s.made && t.inFlight == s.inFlight
  {
    assert s.out + [Snapshot(snap.id)] + [Terminal(snap.id)] == s.out + [Snapshot(snap.id), Terminal(snap.id)];
  }

  lemma TimerObeys(s: State, e: Event)
    requires Enabled(s, e) && e.TimerFires?
    ensures Law(s, e, Step(s, e))
  {
    assert s.out + [] == s.out;
  }

  lemma SnapObeys(s: State, e: Event)
    requires Enabled(s, e) && SnapOf(e).Some?
    ensures Law(s, e, Step(s, e))
  {
    var c := SnapOf(e).value;
    assert s.out + [] == s.out;
    var s1 := if e.PollReturns? then s.(inFlight := s.inFlight - 1) else s;
    if !s.closed {
      SettledLaw(s1, c.snap, c.onSnapshot, c.onTerminal);
    }
    hide Settled;
  }

  lemma GoneObeys(s: State, e: Event)
    requires Enabled(s, e) && SaysGone(e)
    ensures Law(s, e, Step(s, e))
  {
    var s1 := if e.PollReturns? then s.(inFlight := s.inFlight - 1) else s;
    CloseKeeps(s1);
    hide CloseAll;
    assert s.out + [] == s.out;
    assert s.out + [Live(false)] + [Gone] == (s.out + [Live(false)]) + [Gone];
  }

  lemma OtherObeys(s: State, e: Event)
    requires Enabled(s, e) && !e.TimerFires? && SnapOf(e).None? && !SaysGone(e)
    ensures Law(s, e, Step(s, e))
  {
    CloseKeeps(s);
    hide CloseAll;
    assert s.out + [] == s.out;
  }

  /** Every event obeys the law. */
  lemma StepObeys(s: State, e: Event)
    requires Enabled(s, e)
    ensures Law(s, e, Step(s, e))
  {
    hide Law, Step, Enabled;
    if e.TimerFires? {
      TimerObeys(s, e);
    } else if SnapOf(e).Some? {
      SnapObeys(s, e);
    } else if SaysGone(e) {
      GoneObeys(s, e);
    } else {
      OtherObeys(s, e);
    }
  }

  /** A watch starts with a socket, if one can be made, and with a request, unless it is inside a
      rate limit. */
  lemma StartObeys(ok: bool, limited: bool)
    ensures var s := Started(ok, limited);
            && !s.closed && !s.reconnectPending && s.made == (if ok then 1 else 0) && s.inFlight == (if limited then 0 else 1)
            && s.out == if ok then [] else [Live(false)]
  {
  }

  // ---- A whole run ----

  /** What was told of the task, without the state of the socket. */
  function Spoken(out: seq<Output>): seq<Output>
  {
    if out == [] then []
    else Spoken(out[..|out| - 1]) + if out[|out| - 1].Live? then [] else [out[|out| - 1]]
  }

  lemma {:induction false} SpokenConcat(x: seq<Output>, y: seq<Output>)
    ensures Spoken(x + y) == Spoken(x) + Spoken(y)
    decreases |y|
  {
    if y == [] {
      assert x + y == x;
    } else {
      SpokenConcat(x, y[..|y| - 1]);
      assert (x + y)[..|x + y| - 1] == x + y[..|y| - 1];
    }
  }

  lemma SpokenOne(o: Output)
    ensures Spoken([o]) == (if o.Live? then [] else [o]) && Spoken([]) == []
  {
    assert [o][..0] == [];
  }

  lemma SpokenTells(e: Event)
    ensures Spoken(TellsOf(e)) == TellsOf(e)
  {
    SpokenOne(Gone);
    if SnapOf(e).Some? {
      var c := SnapOf(e).value;
      SpokenOne(Snapshot(c.snap.id));
      SpokenOne(Terminal(c.snap.id));
      SpokenConcat([Snapshot(c.snap.id)], [Terminal(c.snap.id)]);
      assert [Snapshot(c.snap.id)] + [Terminal(c.snap.id)] == [Snapshot(c.snap.id), Terminal(c.snap.id)];
    }
  }

  /** What the events tell, as long as none of them has ended the watch. */
  function TellsAll(open: bool, es: seq<Event>): seq<Output>
  {
    if es == [] || !open then [] else TellsOf(es[0]) + TellsAll(!Ending(es[0]), es[1..])
  }

  predicate EndsIn(es: seq<Event>) { exists k :: 0 <= k < |es| && Ending(es[k]) }

  lemma EndsTail(es: seq<Event>)
    requires es != []
    ensures EndsIn(es) <==> Ending(es[0]) || EndsIn(es[1..])
  {
    if EndsIn(es) {
      var k :| 0 <= k < |es| && Ending(es[k]);
      assert k > 0 ==> Ending(es[1..][k - 1]);
    }
    if EndsIn(es[1..]) {
      var k :| 0 <= k < |es[1..]| && Ending(es[1..][k]);
      assert Ending(es[k + 1]);
    }
  }

  lemma AfterCons(s: State, es: seq<Event>)
    requires Possible(s, es) && es != []
    ensures Enabled(s, es[0]) && Possible(Step(s, es[0]), es[1..]) && After(s, es) == After(Step(s, es[0]), es[1..])
  {
    hide Step, Enabled;
  }

  lemma ClosedBy(s: State, e: Event, s': State)
    requires Law(s, e, s')
    ensures s'.closed <==> s.closed || Ending(e)
  {
    hide Ending, TellsOf, LiveOf;
  }

  lemma TellsCons(told: seq<Output>, open: bool, es: seq<Event>)
    requires es != []
    ensures told + TellsAll(open, es) == told + (if open then TellsOf(es[0]) else []) + TellsAll(open && !Ending(es[0]), es[1..])
  {
    hide TellsOf, Ending;
    if open {
      assert told + (TellsOf(es[0]) + TellsAll(!Ending(es[0]), es[1..])) == told + TellsOf(es[0]) + TellsAll(!Ending(es[0]), es[1..]);
    } else {
      assert told + [] + [] == told + [];
    }
  }

  lemma AfterNone(s: State)
    requires Possible(s, [])
    ensures After(s, []) == s && Spoken(s.out) + TellsAll(!s.closed, []) == Spoken(s.out) && !EndsIn([])
  {
    assert Spoken(s.out) + [] == Spoken(s.out);
  }

  lemma {:induction false} RunTellsFrom(s: State, es: seq<Event>)
    requires Possible(s, es) && Ok(s)
    ensures Spoken(After(s, es).out) == Spoken(s.out) + TellsAll(!s.closed, es)
    ensures After(s, es).closed <==> s.closed || EndsIn(es)
    decreases |es|
  {
    hide *;
    if es == [] {
      AfterNone(s);
    } else {
      AfterCons(s, es);
      var e, s' := es[0], Step(s, es[0]);
      StepOk(s, e);
      StepObeys(s, e);
      RunTellsFrom(s', es[1..]);
      EndsTail(es);
      SpokenStep(s, e, s');
      ClosedBy(s, e, s');
      TellsCons(Spoken(s.out), !s.closed, es);
    }
  }

  lemma SpokenStep(s: State, e: Event, s': State)
    requires Law(s, e, s')
    ensures Spoken(s'.out) == Spoken(s.out) + if s.closed then [] else TellsOf(e)
  {
    var live, tells := LiveOf(s, e), if s.closed then [] else TellsOf(e);
    SpokenConcat(s.out + live, tells);
    SpokenConcat(s.out, live);
    SpokenTells(e);
    SpokenOne(Live(true));
    SpokenOne(Live(false));
    hide Spoken, TellsOf;
  }

  /** Over every run: what is told of the task is, in order, every snapshot that came while the
      watch was open, each followed by its end exactly if it is terminal and its listener did not
      throw, and that the task is gone; and the watch is over exactly if some event ended it. */
  lemma RunTells(ok: bool, limited: bool, es: seq<Event>)
    requires Possible(Started(ok, limited), es)
    ensures var s := After(Started(ok, limited), es);
            Spoken(s.out) == TellsAll(true, es) && (s.closed <==> EndsIn(es))
  {
    var s := Started(ok, limited);
    StartedOk(ok, limited);
    StartObeys(ok, limited);
    RunTellsFrom(s, es);
    SpokenOne(Live(false));
    hide Started, After;
  }
}
