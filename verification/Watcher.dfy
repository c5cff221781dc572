/** Watching a task over a socket and by polling: each callback is one step, and callbacks come
    in any order. */
module Watcher {
  import opened Wrappers

  datatype TimerKind = Reconnect | Poll

  datatype Snap = Snap(id: nat, terminal: bool)

  /** What a listener does before it returns to the watcher. */
  datatype Listener = Returns | Closes | Throws

  datatype Reply = Fresh(snap: Snap, onSnapshot: Listener, onTerminal: Listener) | NotFound | Failed

  datatype Output = Snapshot(id: nat) | Terminal(id: nat) | Gone | Live(live: bool)

  /** The watcher's fields; and the world they act on: timers not yet fired or cleared, sockets
      made and closed, poll requests in flight, and what the watcher told its listeners. throws
      counts how often a terminal listener threw; heard is how much was out at the first close. */
  datatype State = State(
    closed: bool, timers: set<nat>, socket: Option<nat>, reconnectPending: bool,
    due: map<nat, TimerKind>, nextTimer: nat, made: nat, shut: set<nat>, inFlight: nat,
    out: seq<Output>, throws: nat, heard: nat)

  const FRESH: State := State(false, {}, None, false, map[], 0, 0, {}, 0, [], 0, 0)

  // ---- The pieces of a step ----

  function Later(s: State, kind: TimerKind): State
  {
    s.(timers := s.timers + {s.nextTimer}, due := s.due[s.nextTimer := kind], nextTimer := s.nextTimer + 1)
  }

  function ShutSocket(s: State): State { if s.socket.Some? then s.(shut := s.shut + {s.socket.value}) else s }

  /** Clears every timer and closes the socket. */
  function CloseAll(s: State): State
  {
    ShutSocket(s.(closed := true, due := s.due - s.timers, timers := {}, heard := if s.closed then s.heard else |s.out|))
  }

  function Tell(s: State, o: Output): State { s.(out := s.out + [o]) }

  function Hear(s: State, l: Listener): State { if l == Closes then CloseAll(s) else s }

  /** A snapshot for the listeners; a terminal one ends the watch. A listener that throws ends
      the step early. */
  function Settled(s: State, snap: Snap, onSnapshot: Listener, onTerminal: Listener): State
  {
    if s.closed then s
    else
      var s1 := Hear(Tell(s, Snapshot(snap.id)), onSnapshot);
      if onSnapshot == Throws || !snap.terminal then s1
      else
        var s2 := Hear(Tell(s1, Terminal(snap.id)), onTerminal);
        if onTerminal == Throws then s2.(throws := s2.throws + 1) else CloseAll(s2)
  }

  /** ok is whether a socket could be made. */
  function Connected(s: State, ok: bool): State
  {
    if s.closed || s.reconnectPending then s
    else
      var s1 := ShutSocket(s);
      if ok then s1.(socket := Some(s1.made), made := s1.made + 1) else Tell(s1, Live(false))
  }

  function Down(s: State): State
  {
    if s.closed || s.reconnectPending then s
    else Later(Tell(s, Live(false)).(reconnectPending := true), Reconnect)
  }

  /** limited is whether the client is inside a rate limit window. */
  function Polled(s: State, limited: bool): State
  {
    if s.closed then s else if limited then Later(s, Poll) else s.(inFlight := s.inFlight + 1)
  }

  function PollAgain(s: State): State { if s.closed then s else Later(s, Poll) }

  function GoneNow(s: State): State { if s.closed then s else Tell(CloseAll(s), Gone) }

  function Replied(s: State, r: Reply): State
  {
    match r
    case Fresh(snap, l, m) => if s.closed then s else PollAgain(Settled(s, snap, l, m))
    case NotFound => GoneNow(s)
    case Failed => PollAgain(s)
  }

  // ---- Steps ----

  datatype Event =
    | TimerFires(timer: nat, ok: bool, limited: bool)
    | Message(from: nat, snap: Option<Snap>, onSnapshot: Listener, onTerminal: Listener)
    | Opened(from: nat)
    | Dropped(from: nat, notFound: bool)
    | Errored(from: nat)
    | PollReturns(reply: Reply)
    | CloseCall

  /** What can happen: a timer that is due, a callback of a socket that was made, whether or not
      it was closed or replaced since, the reply to a request in flight, a call of close. */
  predicate Enabled(s: State, e: Event)
  {
    match e
    case TimerFires(t, _, _) => t in s.due
    case Message(from, _, _, _) => from < s.made
    case Opened(from) => from < s.made
    case Dropped(from, _) => from < s.made
    case Errored(from) => from < s.made
    case PollReturns(_) => s.inFlight > 0
    case CloseCall => true
  }

  function Started(ok: bool, limited: bool): State { Polled(Connected(FRESH, ok), limited) }

  function Step(s: State, e: Event): State
    requires Enabled(s, e)
  {
    match e
    case TimerFires(t, ok, limited) =>
      var s1 := s.(due := s.due - {t});
      if s.due[t] == Reconnect then Connected(s1.(reconnectPending := false), ok) else Polled(s1, limited)
    case Message(_, snap, l, m) => if snap.Some? then Settled(s, snap.value, l, m) else s
    case Opened(_) => Tell(s, Live(true))
    case Dropped(_, notFound) =>
      if notFound then (if s.closed then s else Tell(Tell(CloseAll(s), Live(false)), Gone)) else Down(s)
    case Errored(_) => Down(s)
    case PollReturns(r) => Replied(s.(inFlight := s.inFlight - 1), r)
    case CloseCall => CloseAll(s)
  }

  ghost predicate Possible(s: State, es: seq<Event>)
    decreases |es|
  {
    es == [] || (Enabled(s, es[0]) && Possible(Step(s, es[0]), es[1..]))
  }

  function After(s: State, es: seq<Event>): State
    requires Possible(s, es)
    decreases |es|
  {
    if es == [] then s else After(Step(s, es[0]), es[1..])
  }

  // ---- What every run keeps ----

  /** Timers of this kind that are due. */
  function DueOf(s: State, kind: TimerKind): set<nat> { set t | t in s.due && s.due[t] == kind }

  predicate IsEnd(o: Output) { o.Terminal? || o.Gone? }

  /** How many times the end was told. */
  function Ends(out: seq<Output>): nat
  {
    if out == [] then 0 else Ends(out[..|out| - 1]) + if IsEnd(out[|out| - 1]) then 1 else 0
  }

  ghost predicate NoSnapshotFrom(out: seq<Output>, n: nat) { forall k | n <= k < |out| :: !out[k].Snapshot? }

  /** Until it is closed: one poll is in flight or scheduled, and a reconnect timer is due just
      when one is pending. */
  ghost predicate Busy(s: State)
  {
    && s.inFlight + |DueOf(s, Poll)| == 1
    && |DueOf(s, Reconnect)| == (if s.reconnectPending then 1 else 0)
  }

  ghost predicate SocketsOk(s: State)
  {
    && (s.socket.Some? ==> s.socket.value < s.made)
    && (forall x: nat | x < s.made && s.socket != Some(x) :: x in s.shut)
    && (s.closed && s.socket.Some? ==> s.socket.value in s.shut)
  }

  ghost predicate TimersOk(s: State)
  {
    && s.due.Keys <= s.timers
    && (forall t | t in s.timers :: t < s.nextTimer)
    && (s.closed ==> s.due == map[])
  }

  /** The end was told once for every terminal listener that threw, and at most once more, and
      then the watch is over; unless one threw, nothing is snapped after. */
  ghost predicate OutputOk(s: State)
  {
    && (s.closed ==> s.heard <= |s.out| && NoSnapshotFrom(s.out, s.heard))
    && s.throws <= Ends(s.out) <= s.throws + (if s.closed then 1 else 0)
    && (s.throws == 0 ==> forall k | 0 <= k < |s.out| && IsEnd(s.out[k]) :: s.closed && NoSnapshotFrom(s.out, k))
  }

  ghost predicate Ok(s: State)
  {
    TimersOk(s) && SocketsOk(s) && OutputOk(s) && (!s.closed ==> Busy(s))
  }

  lemma EndsSnoc(out: seq<Output>, o: Output)
    ensures Ends(out + [o]) == Ends(out) + if IsEnd(o) then 1 else 0
  {
    assert (out + [o])[..|out|] == out;
  }

  lemma TellOk(s: State, o: Output)
    requires OutputOk(s) && !IsEnd(o) && (o.Snapshot? ==> !s.closed)
    ensures OutputOk(Tell(s, o))
  {
    EndsSnoc(s.out, o);
    hide Ends;
    var s' := Tell(s, o);
    if s.throws == 0 {
      forall k | 0 <= k < |s'.out| && IsEnd(s'.out[k]) ensures s'.closed && NoSnapshotFrom(s'.out, k) {
        assert k < |s.out| && s.out[k] == s'.out[k];
      }
    }
  }

  /** Telling the end when it was told only to listeners that threw. */
  lemma TellEndOk(s: State, o: Output)
    requires OutputOk(s) && IsEnd(o) && s.closed && Ends(s.out) == s.throws
    ensures OutputOk(Tell(s, o))
  {
    EndsSnoc(s.out, o);
    var s' := Tell(s, o);
    if s.throws == 0 {
      forall k | 0 <= k < |s'.out| && IsEnd(s'.out[k]) ensures s'.closed && NoSnapshotFrom(s'.out, k) {
        if k < |s.out| {
          NoEnds(s.out, k);
        }
      }
    }
  }

  lemma {:induction false} NoEnds(out: seq<Output>, k: nat)
    requires Ends(out) == 0 && k < |out|
    ensures !IsEnd(out[k])
  {
    if k < |out| - 1 {
      NoEnds(out[..|out| - 1], k);
    }
  }

  lemma CloseAllOk(s: State)
    requires Ok(s)
    ensures Ok(CloseAll(s)) && CloseAll(s).out == s.out && CloseAll(s).closed && CloseAll(s).throws == s.throws
  {
    hide Ends;
    var s' := CloseAll(s);
    assert s'.due == map[];
  }

  /** One more timer of a kind. */
  lemma LaterDue(s: State, kind: TimerKind)
    requires TimersOk(s)
    ensures DueOf(Later(s, kind), kind) == DueOf(s, kind) + {s.nextTimer} && s.nextTimer !in DueOf(s, kind)
    ensures forall other | other != kind :: DueOf(Later(s, kind), other) == DueOf(s, other)
  {
    assert s.nextTimer !in s.due.Keys;
  }

  /** A step between polls: nothing in flight or scheduled. */
  ghost predicate Idle(s: State)
  {
    && TimersOk(s) && SocketsOk(s) && OutputOk(s)
    && (!s.closed ==> s.inFlight + |DueOf(s, Poll)| == 0 && |DueOf(s, Reconnect)| == (if s.reconnectPending then 1 else 0))
  }

  lemma PollAgainOk(s: State)
    requires Idle(s)
    ensures Ok(PollAgain(s))
  {
    hide OutputOk, SocketsOk, DueOf;
    LaterDue(s, Poll);
    if !s.closed {
      SameElsewhere(s, Later(s, Poll));
    }
  }

  lemma SameElsewhere(s: State, s': State)
    requires s'.out == s.out && s'.closed == s.closed && s'.heard == s.heard && s'.throws == s.throws
    requires s'.socket == s.socket && s'.made == s.made && s'.shut == s.shut
    ensures OutputOk(s) <==> OutputOk(s')
    ensures SocketsOk(s) <==> SocketsOk(s')
  {
  }

  lemma PolledOk(s: State, limited: bool)
    requires Idle(s)
    ensures Ok(Polled(s, limited))
  {
    hide OutputOk, SocketsOk, DueOf;
    PollAgainOk(s);
    if !s.closed && !limited {
      SameElsewhere(s, Polled(s, limited));
      SameDue(s, Polled(s, limited));
    }
  }

  lemma SameDue(s: State, s': State)
    requires s'.due == s.due
    ensures DueOf(s', Poll) == DueOf(s, Poll) && DueOf(s', Reconnect) == DueOf(s, Reconnect)
  {
  }

  lemma DownOk(s: State)
    requires Ok(s)
    ensures Ok(Down(s))
  {
    hide OutputOk, SocketsOk, DueOf;
    if !s.closed && !s.reconnectPending {
      var s1 := Tell(s, Live(false)).(reconnectPending := true);
      TellOk(s, Live(false));
      SameElsewhere(Tell(s, Live(false)), Down(s));
      SameSockets(s, Down(s));
      SameDue(s, s1);
      LaterDue(s1, Reconnect);
    }
  }

  lemma SameSockets(s: State, s': State)
    requires s'.socket == s.socket && s'.made == s.made && s'.shut == s.shut && s'.closed == s.closed
    ensures SocketsOk(s) <==> SocketsOk(s')
  {
  }

  /** Connecting leaves the timers alone, and closes the socket that it replaces. */
  lemma ConnectedOk(s: State, ok: bool)
    requires TimersOk(s) && SocketsOk(s) && OutputOk(s)
    ensures var s' := Connected(s, ok);
            && TimersOk(s') && SocketsOk(s') && OutputOk(s') && s'.due == s.due && s'.inFlight == s.inFlight
            && s'.reconnectPending == s.reconnectPending && s'.closed == s.closed
  {
    hide OutputOk;
    if !s.closed && !s.reconnectPending {
      var s1 := ShutSocket(s);
      assert OutputOk(s1) by {
        OutputSame(s, s1);
      }
      if ok {
        OutputSame(s1, Connected(s, ok));
      } else {
        TellOk(s1, Live(false));
      }
    }
  }

  lemma OutputSame(s: State, s': State)
    requires s'.out == s.out && s'.closed == s.closed && s'.heard == s.heard && s'.throws == s.throws
    ensures OutputOk(s) <==> OutputOk(s')
  {
  }

  /** The same as Ok, but for polls: what holds while one is being handled, too. */
  ghost predicate Base(s: State)
  {
    TimersOk(s) && SocketsOk(s) && OutputOk(s)
  }

  lemma BaseClose(s: State)
    requires Base(s)
    ensures Base(CloseAll(s)) && CloseAll(s).out == s.out && CloseAll(s).closed && CloseAll(s).throws == s.throws
  {
    hide Ends;
    var s' := CloseAll(s);
    assert s'.due == map[];
  }

  lemma BaseTell(s: State, o: Output)
    requires Base(s) && !IsEnd(o) && (o.Snapshot? ==> !s.closed)
    ensures Base(Tell(s, o))
  {
    hide OutputOk;
    TellOk(s, o);
    SameSockets(s, Tell(s, o));
  }

  /** Settling keeps polls and timers as they are, unless it closes the watch. */
  lemma SettledOk(s: State, snap: Snap, l: Listener, m: Listener)
    requires Base(s)
    ensures var s' := Settled(s, snap, l, m);
            && Base(s')
            && (!s'.closed ==> s'.due == s.due && s'.inFlight == s.inFlight && s'.reconnectPending == s.reconnectPending)
  {
    if !s.closed {
      hide Base, Ends, OutputOk;
      EndsOpen(s);
      BaseTell(s, Snapshot(snap.id));
      var s0 := Tell(s, Snapshot(snap.id));
      EndsSnoc(s.out, Snapshot(snap.id));
      BaseClose(s0);
      var s1 := Hear(s0, l);
      if l != Throws && snap.terminal {
        TerminalOk(s1, snap.id, m);
      }
    }
  }

  lemma EndsOpen(s: State)
    requires Base(s) && !s.closed
    ensures Ends(s.out) == s.throws
  {
  }

  /** The end of a watch, told while it may already have been closed by the listener before. */
  lemma TerminalOk(s1: State, id: nat, m: Listener)
    requires Base(s1) && Ends(s1.out) == s1.throws
    ensures var s2 := Hear(Tell(s1, Terminal(id)), m);
            Base(if m == Throws then s2.(throws := s2.throws + 1) else CloseAll(s2))
    ensures var s2 := Hear(Tell(s1, Terminal(id)), m);
            m == Throws ==> s2.due == s1.due && s2.inFlight == s1.inFlight && s2.reconnectPending == s1.reconnectPending
  {
    var t := Tell(s1, Terminal(id));
    if m == Throws {
      ThrewOk(s1, id);
    } else {
      ClosedEnd(s1, id);
      if m == Closes {
        CloseTwice(t);
      }
    }
  }

  lemma CloseTwice(t: State)
    ensures CloseAll(CloseAll(t)) == CloseAll(t)
  {
    var c := CloseAll(t);
    assert c.due - {} == c.due;
    if t.socket.Some? {
      assert c.shut + {t.socket.value} == c.shut;
    }
  }

  lemma ThrewOk(s1: State, id: nat)
    requires Base(s1)
    ensures Base(Tell(s1, Terminal(id)).(throws := s1.throws + 1))
  {
    EndsSnoc(s1.out, Terminal(id));
    hide Ends;
  }

  lemma ClosedEnd(s1: State, id: nat)
    requires Base(s1) && Ends(s1.out) == s1.throws
    ensures Base(CloseAll(Tell(s1, Terminal(id))))
  {
    var t := Tell(s1, Terminal(id));
    var c := CloseAll(t);
    assert c.due == map[];
    EndsSnoc(s1.out, Terminal(id));
    if s1.throws == 0 {
      forall k | 0 <= k < |c.out| && IsEnd(c.out[k]) ensures NoSnapshotFrom(c.out, k) {
        if k < |s1.out| {
          NoEnds(s1.out, k);
        }
      }
    }
    hide Ends;
  }

  lemma StartedOk(ok: bool, limited: bool)
    ensures Ok(Started(ok, limited))
  {
    assert DueOf(FRESH, Poll) == {} && DueOf(FRESH, Reconnect) == {};
    ConnectedOk(FRESH, ok);
    SameDue(FRESH, Connected(FRESH, ok));
    PolledOk(Connected(FRESH, ok), limited);
  }

  lemma FiredDue(s: State, t: nat)
    requires t in s.due
    ensures var s1 := s.(due := s.due - {t});
            && DueOf(s, s.due[t]) == DueOf(s1, s.due[t]) + {t} && t !in DueOf(s1, s.due[t])
            && forall other | other != s.due[t] :: DueOf(s1, other) == DueOf(s, other)
  {
  }

  lemma TimerOk(s: State, t: nat, ok: bool, limited: bool)
    requires Ok(s) && t in s.due
    ensures Ok(Step(s, TimerFires(t, ok, limited)))
  {
    var s1 := s.(due := s.due - {t});
    FiredDue(s, t);
    SameElsewhere(s, s1);
    hide DueOf, OutputOk, SocketsOk;
    assert !s.closed;
    if s.due[t] == Reconnect {
      var s2 := s1.(reconnectPending := false);
      SameElsewhere(s, s2);
      SameDue(s1, s2);
      ConnectedOk(s2, ok);
      SameDue(s2, Connected(s2, ok));
    } else {
      PolledOk(s1, limited);
    }
  }

  lemma GoneOk(s: State, live: bool)
    requires Ok(s) && !s.closed
    ensures Ok(Tell(if live then Tell(CloseAll(s), Live(false)) else CloseAll(s), Gone))
  {
    CloseAllOk(s);
    EndsOpen(s);
    var c := CloseAll(s);
    EndsSnoc(c.out, Live(false));
    TellOk(c, Live(false));
    hide OutputOk, Ends;
    SameSockets(c, Tell(c, Live(false)));
    var d := if live then Tell(c, Live(false)) else c;
    SameSockets(d, Tell(d, Gone));
    TellEndOk(d, Gone);
  }

  lemma ReplyOk(s: State, r: Reply)
    requires Ok(s) && s.inFlight > 0
    ensures Ok(Step(s, PollReturns(r)))
  {
    var s1 := s.(inFlight := s.inFlight - 1);
    ReplyTaken(s);
    hide Ok, Idle, Settled, GoneNow, PollAgain;
    match r
    case Fresh(snap, l, m) => FreshOk(s1, snap, l, m);
    case NotFound => NotFoundOk(s);
    case Failed => PollAgainOk(s1);
  }

  lemma NotFoundOk(s: State)
    requires Ok(s) && s.inFlight > 0
    ensures Ok(GoneNow(s.(inFlight := s.inFlight - 1)))
  {
    var s1 := s.(inFlight := s.inFlight - 1);
    hide Ok, CloseAll, Tell;
    if s.closed {
      OkSame(s, s1);
    } else {
      CloseSame(s, s1);
      GoneOk(s, false);
      TellKeepsClosed(s);
      OkSame(Tell(CloseAll(s), Gone), Tell(CloseAll(s1), Gone));
    }
  }

  lemma TellKeepsClosed(s: State)
    ensures Tell(CloseAll(s), Gone).closed
  {
  }

  /** The reply that was in flight is in: nothing is in flight or scheduled. */
  lemma ReplyTaken(s: State)
    requires Ok(s) && s.inFlight > 0
    ensures Idle(s.(inFlight := s.inFlight - 1))
  {
    var s1 := s.(inFlight := s.inFlight - 1);
    SameElsewhere(s, s1);
    SameDue(s, s1);
    hide OutputOk, SocketsOk, DueOf;
  }

  lemma FreshOk(s1: State, snap: Snap, l: Listener, m: Listener)
    requires Idle(s1)
    ensures Ok(if s1.closed then s1 else PollAgain(Settled(s1, snap, l, m)))
  {
    hide OutputOk, SocketsOk, TimersOk, DueOf, Settled;
    if !s1.closed {
      SettledOk(s1, snap, l, m);
      var s2 := Settled(s1, snap, l, m);
      if !s2.closed {
        SameDue(s1, s2);
      }
      PollAgainOk(s2);
    }
  }

  lemma CloseSame(s: State, s1: State)
    requires s1 == s.(inFlight := s1.inFlight)
    ensures Tell(CloseAll(s1), Gone) == Tell(CloseAll(s), Gone).(inFlight := s1.inFlight)
  {
  }

  lemma OkSame(s: State, s': State)
    requires Ok(s) && s.closed && s' == s.(inFlight := s'.inFlight)
    ensures Ok(s')
  {
  }

  lemma StepOk(s: State, e: Event)
    requires Ok(s) && Enabled(s, e)
    ensures Ok(Step(s, e))
  {
    hide Ok, OutputOk, SocketsOk, TimersOk, Settled, Down, CloseAll;
    match e
    case TimerFires(t, ok, limited) => TimerOk(s, t, ok, limited);
    case Message(_, snap, l, m) =>
      if snap.Some? {
        MessageOk(s, snap.value, l, m);
      }
    case Opened(_) => LiveOk(s);
    case Dropped(_, notFound) =>
      if notFound {
        if !s.closed {
          GoneOk(s, true);
        }
      } else {
        DownOk(s);
      }
    case Errored(_) => DownOk(s);
    case PollReturns(r) => ReplyOk(s, r);
    case CloseCall => CloseAllOk(s);
  }

  lemma LiveOk(s: State)
    requires Ok(s)
    ensures Ok(Tell(s, Live(true)))
  {
    hide OutputOk, DueOf;
    TellOk(s, Live(true));
    SameSockets(s, Tell(s, Live(true)));
    SameDue(s, Tell(s, Live(true)));
  }

  lemma MessageOk(s: State, snap: Snap, l: Listener, m: Listener)
    requires Ok(s)
    ensures Ok(Settled(s, snap, l, m))
  {
    hide Settled, OutputOk, SocketsOk, TimersOk, DueOf;
    SettledOk(s, snap, l, m);
    var s' := Settled(s, snap, l, m);
    if !s'.closed {
      StaysOpen(s, snap, l, m);
      SameDue(s, s');
    }
  }

  lemma StaysOpen(s: State, snap: Snap, l: Listener, m: Listener)
    ensures s.closed ==> Settled(s, snap, l, m).closed
  {
  }

  /** Over every interleaving of timers, sockets, poll replies and calls of close. */
  lemma {:induction false} RunIsSafe(s: State, es: seq<Event>)
    requires Ok(s) && Possible(s, es)
    ensures Ok(After(s, es))
    decreases |es|
  {
    hide Ok, Step;
    if es != [] {
      StepOk(s, es[0]);
      RunIsSafe(Step(s, es[0]), es[1..]);
    }
  }

  /** From the start on, whatever happens in whatever order: while the watch is open, exactly one
      poll is in flight or scheduled; never is more than one reconnect timer due; every socket
      that was replaced, and on closing the last one too, has been closed; no snapshot is told
      after the close; the end is told once for each time that a terminal listener threw, and at
      most once more; and unless one threw, no snapshot is told after it. */
  lemma WatchIsSafe(ok: bool, limited: bool, es: seq<Event>)
    requires Possible(Started(ok, limited), es)
    ensures var s := After(Started(ok, limited), es);
            && (!s.closed ==> s.inFlight + |DueOf(s, Poll)| == 1)
            && |DueOf(s, Reconnect)| <= 1
            && (forall x: nat | x < s.made && (s.closed || s.socket != Some(x)) :: x in s.shut)
            && (s.closed ==> s.due == map[] && NoSnapshotFrom(s.out, s.heard))
            && s.throws <= Ends(s.out) <= s.throws + (if s.closed then 1 else 0)
            && (s.throws == 0 ==> forall k | 0 <= k < |s.out| && IsEnd(s.out[k]) :: NoSnapshotFrom(s.out, k))
  {
    StartedOk(ok, limited);
    RunIsSafe(Started(ok, limited), es);
    var s := After(Started(ok, limited), es);
    if s.closed {
      assert DueOf(s, Reconnect) == {};
    }
    hide After, Started;
  }

  /** Once closed, no step makes a timer, a socket or a request, or tells anything but that an
      old socket opened. */
  lemma ClosedIsQuiet(s: State, e: Event)
    requires Ok(s) && s.closed && Enabled(s, e)
    ensures var s' := Step(s, e);
            && s'.closed && s'.due == map[] && s'.made == s.made && s'.inFlight <= s.inFlight
            && (s'.out == s.out || s'.out == s.out + [Live(true)])
  {
    CloseAllOk(s);
    hide OutputOk, SocketsOk, CloseAll;
    ClosedDue(s);
  }

  lemma ClosedDue(s: State)
    requires Ok(s) && s.closed
    ensures s.due == map[] && CloseAll(s).due == map[] && CloseAll(s).made == s.made && CloseAll(s).inFlight == s.inFlight
  {
  }

  /** A terminal listener that throws keeps the watch open, and the end is told again. */
  lemma ThrowingListenerHearsTwice()
    ensures var e := PollReturns(Fresh(Snap(1, true), Returns, Throws));
            var m := Message(0, Some(Snap(1, true)), Returns, Returns);
            && Possible(Started(true, false), [m, e]) && Possible(Started(true, false), [e, m])
            && Ends(After(Started(true, false), [m, e]).out) == 1
            && Ends(After(Started(true, false), [e, m]).out) == 2
  {
    var e := PollReturns(Fresh(Snap(1, true), Returns, Throws));
    var m := Message(0, Some(Snap(1, true)), Returns, Returns);
    var s := Started(true, false);
    assert s.made == 1 && s.inFlight == 1 && s.out == [] && !s.closed;
    TerminalMessage(s);
    ThrowingReply(s);
    var one, two := Step(s, m), Step(s, e);
    ThrowingReply(one);
    TerminalMessage(two);
    hide Step, Ends, Started;
    TwoSteps(s, m, e);
    TwoSteps(s, e, m);
    SnapAndEnd(s.out);
    SnapAndEnd(two.out);
  }

  lemma TerminalMessage(s: State)
    requires s.made > 0
    ensures var s' := Step(s, Message(0, Some(Snap(1, true)), Returns, Returns));
            && (!s.closed ==> s'.out == s.out + [Snapshot(1), Terminal(1)] && s'.closed && s'.inFlight == s.inFlight)
  {
  }

  lemma ThrowingReply(s: State)
    requires s.inFlight > 0
    ensures var s' := Step(s, PollReturns(Fresh(Snap(1, true), Returns, Throws)));
            if s.closed then s'.out == s.out
            else s'.out == s.out + [Snapshot(1), Terminal(1)] && !s'.closed && s'.made == s.made
  {
  }

  lemma SnapAndEnd(out: seq<Output>)
    ensures Ends(out + [Snapshot(1), Terminal(1)]) == Ends(out) + 1 && Ends([]) == 0
  {
    EndsSnoc(out, Snapshot(1));
    EndsSnoc(out + [Snapshot(1)], Terminal(1));
    assert out + [Snapshot(1)] + [Terminal(1)] == out + [Snapshot(1), Terminal(1)];
  }

  lemma OneStep(s: State, a: Event)
    requires Enabled(s, a)
    ensures Possible(s, [a]) && After(s, [a]) == Step(s, a)
  {
    hide Step, Enabled;
    assert [a][1..] == [];
  }

  lemma TwoSteps(s: State, a: Event, b: Event)
    requires Enabled(s, a) && Enabled(Step(s, a), b)
    ensures Possible(s, [a, b]) && After(s, [a, b]) == Step(Step(s, a), b)
  {
    hide Step, Enabled;
    OneStep(Step(s, a), b);
    assert [a, b][1..] == [b];
  }

  // ---- The watcher as it runs ----

  class TaskWatcher {
    var closed: bool
    var timers: set<nat>
    var socket: Option<nat>
    var reconnectPending: bool
    var nextTimer: nat
    var made: nat
    ghost var due: map<nat, TimerKind>
    ghost var shut: set<nat>
    ghost var inFlight: nat
    ghost var out: seq<Output>
    ghost var throws: nat
    ghost var heard: nat

    ghost function View(): State
      reads this
    {
      State(closed, timers, socket, reconnectPending, due, nextTimer, made, shut, inFlight, out, throws, heard)
    }

    constructor ()
      ensures View() == FRESH
    {
      closed, timers, socket, reconnectPending, nextTimer, made := false, {}, None, false, 0, 0;
      due, shut, inFlight, out, throws, heard := map[], {}, 0, [], 0, 0;
    }

    method Start(ok: bool, limited: bool)
      requires View() == FRESH
      modifies this
      ensures View() == Started(ok, limited)
    {
      ConnectWs(ok);
      PollOnce(limited);
    }

    method SetTimer(kind: TimerKind)
      modifies this
      ensures View() == Later(old(View()), kind)
    {
      due := due[nextTimer := kind];
      timers := timers + {nextTimer};
      nextTimer := nextTimer + 1;
    }

    method Emit(ghost o: Output)
      modifies this`out
      ensures View() == Tell(old(View()), o)
    {
      out := out + [o];
    }

    method CloseSocket()
      modifies this`shut
      ensures View() == ShutSocket(old(View()))
    {
      if socket.Some? {
        shut := shut + {socket.value};
      }
    }

    method Close()
      modifies this
      ensures View() == CloseAll(old(View()))
    {
      if !closed {
        heard := |out|;
      }
      closed := true;
      due := due - timers;
      timers := {};
      CloseSocket();
    }

    method Listen(l: Listener)
      modifies this
      ensures View() == Hear(old(View()), l)
    {
      if l == Closes {
        Close();
      }
    }

    /** A listener that throws ends the caller's step as well. */
    method Settle(snap: Snap, onSnapshot: Listener, onTerminal: Listener)
      modifies this
      ensures View() == Settled(old(View()), snap, onSnapshot, onTerminal)
    {
      hide CloseAll;
      if closed {
        return;
      }
      Emit(Snapshot(snap.id));
      Listen(onSnapshot);
      if onSnapshot == Throws {
        return;
      }
      if snap.terminal {
        Emit(Terminal(snap.id));
        Listen(onTerminal);
        if onTerminal == Throws {
          throws := throws + 1;
          return;
        }
        Close();
      }
    }

    method ConnectWs(ok: bool)
      modifies this
      ensures View() == Connected(old(View()), ok)
    {
      if closed || reconnectPending {
        return;
      }
      CloseSocket();
      if !ok {
        Emit(Live(false));
        return;
      }
      socket := Some(made);
      made := made + 1;
    }

    method OnDown()
      modifies this
      ensures View() == Down(old(View()))
    {
      if closed || reconnectPending {
        return;
      }
      Emit(Live(false));
      reconnectPending := true;
      SetTimer(Reconnect);
    }

    method PollOnce(limited: bool)
      modifies this
      ensures View() == Polled(old(View()), limited)
    {
      if closed {
        return;
      }
      if limited {
        SetTimer(Poll);
        return;
      }
      inFlight := inFlight + 1;
    }

    method OnTimer(t: nat, kind: TimerKind, ok: bool, limited: bool)
      requires t in due && due[t] == kind
      modifies this
      ensures View() == Step(old(View()), TimerFires(t, ok, limited))
    {
      due := due - {t};
      if kind == Reconnect {
        reconnectPending := false;
        ConnectWs(ok);
      } else {
        PollOnce(limited);
      }
    }

    method OnMessage(from: nat, snap: Option<Snap>, onSnapshot: Listener, onTerminal: Listener)
      requires from < made
      modifies this
      ensures View() == Step(old(View()), Message(from, snap, onSnapshot, onTerminal))
    {
      if snap.Some? {
        Settle(snap.value, onSnapshot, onTerminal);
      }
    }

    method OnOpen(from: nat)
      requires from < made
      modifies this
      ensures View() == Step(old(View()), Opened(from))
    {
      Emit(Live(true));
    }

    method OnClose(from: nat, notFound: bool)
      requires from < made
      modifies this
      ensures View() == Step(old(View()), Dropped(from, notFound))
    {
      if notFound {
        if closed {
          return;
        }
        Close();
        Emit(Live(false));
        Emit(Gone);
        return;
      }
      OnDown();
    }

    method OnError(from: nat)
      requires from < made
      modifies this
      ensures View() == Step(old(View()), Errored(from))
    {
      OnDown();
    }

    method OnPollReply(reply: Reply)
      requires inFlight > 0
      modifies this
      ensures View() == Step(old(View()), PollReturns(reply))
    {
      inFlight := inFlight - 1;
      match reply
      case Fresh(snap, onSnapshot, onTerminal) =>
        if closed {
          return;
        }
        Settle(snap, onSnapshot, onTerminal);
        if !closed {
          SetTimer(Poll);
        }
      case NotFound =>
        if closed {
          return;
        }
        Close();
        Emit(Gone);
      case Failed =>
        if !closed {
          SetTimer(Poll);
        }
    }
  }
}
