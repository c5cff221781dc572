/** The log file with its two segments: derived events, which every projection rewrites, and the
    handoff events at the end, which are facts and survive. */
module Handoff {
  import opened Wrappers
  import opened Events
  import opened Projection
  import opened Graph
  import opened Run
  import Projector

  /** A line of the file that is not empty: an event, or something unreadable. */
  datatype Line = Ev(event: Event) | Garbage

  /** The file, if there is one. */
  type File = Option<seq<Line>>

  datatype Refusal = Missing | BadLine(line: nat) | BadNumber(line: nat) | Empty
  datatype Result = Refused(why: Refusal) | Anchored(number: nat, skipped: bool)

  ghost predicate AllHandoff(log: seq<Event>) { forall k | 0 <= k < |log| :: IsHandoff(log[k]) }

  function LinesOf(log: seq<Event>): (r: seq<Line>)
    ensures |r| == |log| && forall k | 0 <= k < |r| :: r[k] == Ev(log[k])
  {
    seq(|log|, k requires 0 <= k < |log| => Ev(log[k]))
  }

  /** The events of a file whose lines are all readable. */
  function EventsOf(lines: seq<Line>): (r: seq<Event>)
    requires forall k | 0 <= k < |lines| :: lines[k].Ev?
    ensures LinesOf(r) == lines
  {
    seq(|lines|, k requires 0 <= k < |lines| => lines[k].event)
  }

  // ---- What a projection keeps of the old file ----

  /** Where the run of handoff events at the end of the log begins. */
  function TailStart(log: seq<Event>): (i: nat)
    ensures i <= |log| && forall k | i <= k < |log| :: IsHandoff(log[k])
    ensures i > 0 ==> !IsHandoff(log[i - 1])
  {
    if log == [] || !IsHandoff(log[|log| - 1]) then |log| else TailStart(log[..|log| - 1])
  }

  predicate Readable(lines: seq<Line>) { forall k | 0 <= k < |lines| :: lines[k].Ev? }

  predicate CleanBefore(log: seq<Event>, i: nat)
    requires i <= |log|
  {
    forall k | 0 <= k < i :: !IsHandoff(log[k])
  }

  function Tail(file: File): seq<Event>
  {
    if file.None? || !Readable(file.value) then []
    else
      var log := EventsOf(file.value);
      if CleanBefore(log, TailStart(log)) then log[TailStart(log)..] else []
  }

  function Renumbered(base: nat, tail: seq<Event>): (r: seq<Event>)
    ensures |r| == |tail| && forall k | 0 <= k < |r| :: r[k] == tail[k].(number := base + k + 1)
  {
    seq(|tail|, k requires 0 <= k < |tail| => tail[k].(number := base + k + 1))
  }

  function Reprojected(file: File, derived: seq<Event>): File
  {
    Some(LinesOf(derived + Renumbered(|derived|, Tail(file))))
  }

  // ---- Anchoring ----

  function FirstGarbage(lines: seq<Line>, from: nat): (r: nat)
    requires from <= |lines|
    ensures from <= r <= |lines| && (r < |lines| ==> lines[r].Garbage?)
    ensures forall k | from <= k < r :: lines[k].Ev?
    decreases |lines| - from
  {
    if from == |lines| || lines[from].Garbage? then from else FirstGarbage(lines, from + 1)
  }

  function FirstMisnumbered(log: seq<Event>, from: nat): (r: nat)
    requires from <= |log|
    ensures from <= r <= |log| && (r < |log| ==> log[r].number != r + 1)
    ensures forall k | from <= k < r :: log[k].number == k + 1
    decreases |log| - from
  {
    if from == |log| || log[from].number != from + 1 then from else FirstMisnumbered(log, from + 1)
  }

  /** The last event already anchors everything before it. */
  predicate AlreadyAnchored(log: seq<Event>)
    requires log != []
  {
    var last := log[|log| - 1];
    last.body.HandoffCheckpointed? && last.body.logSeq == |log| - 1
  }

  function Anchor(log: seq<Event>, now: string): Event { Event(|log| + 1, now, MAIN, HandoffCheckpointed(|log|)) }

  function Checkpointed(file: File, now: string): (r: (File, Result))
    ensures r.1.Anchored? ==> file.Some? && Readable(file.value)
  {
    if file.None? then (file, Refused(Missing))
    else
      var g := FirstGarbage(file.value, 0);
      if g < |file.value| then (file, Refused(BadLine(g + 1)))
      else
        var log := EventsOf(file.value);
        var b := FirstMisnumbered(log, 0);
        if b < |log| then (file, Refused(BadNumber(b + 1)))
        else if log == [] then (file, Refused(Empty))
        else if AlreadyAnchored(log) then (file, Anchored(log[|log| - 1].number, true))
        else (Some(file.value + [Ev(Anchor(log, now))]), Anchored(|log| + 1, false))
  }

  /** On any file whatever: the guard accepts exactly a readable, non-empty, numbered log. */
  lemma AcceptsIff(file: File, now: string)
    ensures Checkpointed(file, now).1.Anchored? <==>
            file.Some? && Readable(file.value) && file.value != [] && Numbered(EventsOf(file.value))
    ensures Checkpointed(file, now).1.Refused? ==> Checkpointed(file, now).0 == file
  {
  }

  /** Which refusal, and what acceptance does to a file: its first unreadable line, or else its first
      line with the wrong number, is to blame; and unless the last line is an anchor with the number
      of lines before it, one is appended, which has the number of lines that it follows. */
  ghost predicate SaysCheckpoint(file: File, now: string, after: File, r: Result)
  {
    if file.None? then after == file && r == Refused(Missing)
    else
      var lines := file.value;
      match r
      case Refused(Missing) => false
      case Refused(BadLine(n)) =>
        after == file && 1 <= n <= |lines| && lines[n - 1].Garbage? && forall k | 0 <= k < n - 1 :: lines[k].Ev?
      case Refused(BadNumber(n)) =>
        after == file && 1 <= n <= |lines| && Readable(lines) && lines[n - 1].event.number != n &&
        forall k | 0 <= k < n - 1 :: lines[k].event.number == k + 1
      case Refused(Empty) => after == file && lines == []
      case Anchored(number, skipped) =>
        && Readable(lines) && lines != []
        && (skipped <==> lines[|lines| - 1].event.body == HandoffCheckpointed(|lines| - 1))
        && number == (if skipped then |lines| else |lines| + 1)
        && after == if skipped then file else Some(lines + [Ev(Event(|lines| + 1, now, "main", HandoffCheckpointed(|lines|)))])
  }

  lemma CheckpointSays(file: File, now: string)
    ensures SaysCheckpoint(file, now, Checkpointed(file, now).0, Checkpointed(file, now).1)
  {
    if file.Some? && Readable(file.value) {
      var lines, log := file.value, EventsOf(file.value);
      forall k | 0 <= k < |lines| ensures lines[k].event == log[k] {
        assert LinesOf(log)[k] == Ev(log[k]);
      }
    }
  }

  /** The file is readable, and its lines are events without anchors and then these anchors. */
  ghost predicate EndsWith(file: File, d: seq<Event>, t: seq<Event>)
  {
    file == Some(LinesOf(d + t)) && NoHandoff(d) && AllHandoff(t)
  }

  /** On any file whatever: a projection keeps the handoff events at the end of a readable file that
      has none before them, and of any other file nothing. */
  lemma TailIs(file: File)
    ensures forall d, t | EndsWith(file, d, t) :: Tail(file) == t
    ensures (forall d, t :: !EndsWith(file, d, t)) ==> Tail(file) == []
  {
    hide *;
    forall d, t | EndsWith(file, d, t) ensures Tail(file) == t {
      TailWhenClean(file, d, t);
    }
    if Tail(file) != [] {
      var d := CleanWhenTail(file);
    }
  }

  lemma TailWhenClean(file: File, d: seq<Event>, t: seq<Event>)
    requires EndsWith(file, d, t)
    ensures Tail(file) == t
  {
    hide Tail, IsHandoff, LinesOf;
    TailOfClean(d, t);
  }

  lemma CleanWhenTail(file: File) returns (d: seq<Event>)
    requires Tail(file) != []
    ensures EndsWith(file, d, Tail(file))
  {
    hide IsHandoff;
    var log := EventsOf(file.value);
    var i := TailStart(log);
    d := log[..i];
    assert d + log[i..] == log;
  }

  /** On any file whatever: once accepted, doing it again changes nothing and gives the same number. */
  lemma SecondCheckpointIsIdle(file: File, now: string, later: string)
    requires Checkpointed(file, now).1.Anchored?
    ensures var once := Checkpointed(file, now);
            Checkpointed(once.0, later) == (once.0, Anchored(once.1.number, true))
  {
    var log := EventsOf(file.value);
    if !AlreadyAnchored(log) {
      var lines := file.value + [Ev(Anchor(log, now))];
      assert FirstGarbage(lines, 0) == |lines|;
      assert EventsOf(lines) == log + [Anchor(log, now)] by {
        forall k | 0 <= k < |lines| ensures EventsOf(lines)[k] == (log + [Anchor(log, now)])[k] {
          assert Ev(EventsOf(lines)[k]) == lines[k];
        }
      }
    }
  }

  // ---- Histories ----

  datatype Step = Project(derived: seq<Event>) | Checkpoint(now: string)

  /** The file; and, for the proofs, the latest derived segment, the anchors ever appended, each
      as it was then, and the length of the derived segment when the latest one was. */
  datatype History = History(file: File, derived: seq<Event>, anchors: seq<Event>, anchoredLength: nat)

  const NO_HISTORY: History := History(None, [], [], 0)

  function Next(h: History, step: Step): History
  {
    match step
    case Project(derived) => h.(file := Reprojected(h.file, derived), derived := derived)
    case Checkpoint(now) =>
      var r := Checkpointed(h.file, now);
      if r.1.Anchored? && !r.1.skipped
      then History(r.0, h.derived, h.anchors + [Anchor(EventsOf(h.file.value), now)], |h.derived|)
      else h.(file := r.0)
  }

  function After(steps: seq<Step>): History
  {
    if steps == [] then NO_HISTORY else Next(After(steps[..|steps| - 1]), steps[|steps| - 1])
  }

  /** What every projection derives. */
  ghost predicate Derivable(log: seq<Event>) { log != [] && Numbered(log) && NoHandoff(log) }

  ghost predicate Possible(steps: seq<Step>)
  {
    forall k | 0 <= k < |steps| :: steps[k].Project? ==> Derivable(steps[k].derived)
  }

  /** The whole log of a history: the latest derived segment, then every anchor, renumbered. */
  function WholeLog(derived: seq<Event>, anchors: seq<Event>): seq<Event>
  {
    derived + Renumbered(|derived|, anchors)
  }

  ghost predicate Kept(h: History)
  {
    && (h.file.None? <==> h.derived == [])
    && (h.derived == [] ==> h.anchors == [])
    && (h.derived != [] ==> Derivable(h.derived) && h.file == Some(LinesOf(WholeLog(h.derived, h.anchors))))
    && AllHandoff(h.anchors)
    && (h.anchors != [] ==>
          h.anchors[|h.anchors| - 1].body == HandoffCheckpointed(h.anchoredLength + |h.anchors| - 1))
  }

  lemma WholeLogIs(d: seq<Event>, a: seq<Event>)
    requires Derivable(d) && AllHandoff(a)
    ensures Numbered(WholeLog(d, a)) && WholeLog(d, a) != []
    ensures Readable(LinesOf(WholeLog(d, a))) && EventsOf(LinesOf(WholeLog(d, a))) == WholeLog(d, a)
  {
    var log := WholeLog(d, a);
    forall k | 0 <= k < |log| ensures log[k].number == k + 1 {
      if k < |d| {
        assert log[k] == d[k];
      } else {
        assert log[k] == Renumbered(|d|, a)[k - |d|];
      }
    }
    Unlines(log);
  }

  lemma Unlines(log: seq<Event>)
    ensures Readable(LinesOf(log)) && EventsOf(LinesOf(log)) == log
  {
    var r := EventsOf(LinesOf(log));
    forall k | 0 <= k < |log| ensures r[k] == log[k] {
      assert Ev(r[k]) == LinesOf(r)[k] == LinesOf(log)[k];
    }
  }

  /** A clean file gives back exactly its handoff segment. */
  lemma TailOfClean(d: seq<Event>, t: seq<Event>)
    requires NoHandoff(d) && AllHandoff(t)
    ensures Tail(Some(LinesOf(d + t))) == t
  {
    var log := d + t;
    Unlines(log);
    var i := TailStart(log);
    forall k | 0 <= k < |log| ensures IsHandoff(log[k]) <==> k >= |d| {
      if k < |d| {
        assert log[k] == d[k];
      } else {
        assert log[k] == t[k - |d|];
      }
    }
    assert i < |log| ==> IsHandoff(log[i]);
    assert i == |d|;
  }

  lemma RenumberTwice(base: nat, other: nat, t: seq<Event>)
    ensures Renumbered(base, Renumbered(other, t)) == Renumbered(base, t)
  {
  }

  lemma ProjectKeeps(d: seq<Event>, a: seq<Event>, derived: seq<Event>)
    requires NoHandoff(d) && AllHandoff(a)
    ensures Reprojected(Some(LinesOf(WholeLog(d, a))), derived) == Some(LinesOf(WholeLog(derived, a)))
  {
    var t := Renumbered(|d|, a);
    forall k | 0 <= k < |t| ensures IsHandoff(t[k]) {
      assert IsHandoff(a[k]);
    }
    TailOfClean(d, t);
    RenumberTwice(|derived|, |d|, a);
  }

  /** The guard accepts; it skips exactly when the derived segment has the length that it had
      when the latest anchor was appended. */
  lemma CheckpointOnWhole(d: seq<Event>, a: seq<Event>, now: string)
    requires Derivable(d) && AllHandoff(a)
    ensures var log := WholeLog(d, a);
            var r := Checkpointed(Some(LinesOf(log)), now);
            if AlreadyAnchored(log) then r == (Some(LinesOf(log)), Anchored(|log|, true))
            else r == (Some(LinesOf(WholeLog(d, a + [Anchor(log, now)]))), Anchored(|log| + 1, false))
  {
    WholeLogIs(d, a);
    var log := WholeLog(d, a);
    AcceptsIff(Some(LinesOf(log)), now);
    if !AlreadyAnchored(log) {
      var e := Anchor(log, now);
      assert Renumbered(|d|, a + [e]) == Renumbered(|d|, a) + [e];
      assert LinesOf(WholeLog(d, a + [e])) == LinesOf(log) + [Ev(e)];
    }
  }

  lemma LastOfWhole(d: seq<Event>, a: seq<Event>, anchoredLength: nat)
    requires Derivable(d) && AllHandoff(a)
    requires a != [] ==> a[|a| - 1].body == HandoffCheckpointed(anchoredLength + |a| - 1)
    ensures WholeLog(d, a) != [] && (AlreadyAnchored(WholeLog(d, a)) <==> a != [] && |d| == anchoredLength)
  {
    var log := WholeLog(d, a);
    if a != [] {
      assert log[|log| - 1] == Renumbered(|d|, a)[|a| - 1];
    } else {
      assert log[|log| - 1] == d[|d| - 1] && !IsHandoff(d[|d| - 1]);
    }
  }

  lemma NextKeeps(h: History, step: Step)
    requires Kept(h) && (step.Project? ==> Derivable(step.derived))
    ensures Kept(Next(h, step))
  {
    var d, a := h.derived, h.anchors;
    match step
    case Project(derived) =>
      hide Reprojected, WholeLog, Derivable, Checkpointed;
      DerivableIs(derived);
      if d != [] {
        DerivableIs(d);
        ProjectKeeps(d, a, derived);
      } else {
        FirstProject(derived);
      }
    case Checkpoint(now) =>
      hide Reprojected, WholeLog, Derivable, Checkpointed, Anchor, AlreadyAnchored;
      if d != [] {
        CheckpointOnWhole(d, a, now);
        WholeLogIs(d, a);
        LastOfWhole(d, a, h.anchoredLength);
        AnchorIs(d, a, now);
      } else {
        NoFile(now);
      }
  }

  lemma DerivableIs(d: seq<Event>)
    requires Derivable(d)
    ensures NoHandoff(d) && d != []
  {
  }

  lemma FirstProject(derived: seq<Event>)
    ensures Reprojected(None, derived) == Some(LinesOf(WholeLog(derived, [])))
  {
  }

  lemma NoFile(now: string)
    ensures Checkpointed(None, now) == (None, Refused(Missing))
  {
  }

  lemma AnchorIs(d: seq<Event>, a: seq<Event>, now: string)
    ensures Anchor(WholeLog(d, a), now).body == HandoffCheckpointed(|d| + |a|)
    ensures IsHandoff(Anchor(WholeLog(d, a), now))
  {
  }

  /** Through any interleaving of projections and checkpoints, the file is the latest derived
      segment followed by every anchor ever appended, in order and unchanged but for its number. */
  lemma {:induction false} HistoryIsKept(steps: seq<Step>)
    requires Possible(steps)
    ensures Kept(After(steps))
    decreases |steps|
  {
    if steps != [] {
      hide Kept, Next, Derivable;
      assert Possible(steps[..|steps| - 1]);
      HistoryIsKept(steps[..|steps| - 1]);
      NextKeeps(After(steps[..|steps| - 1]), steps[|steps| - 1]);
    }
  }

  /** After any history with a projection, a checkpoint is accepted; it appends nothing if and
      only if there is an anchor and the derived segment is as long as when the latest one was
      appended. */
  lemma CheckpointAfterHistory(steps: seq<Step>, now: string)
    requires Possible(steps) && After(steps).derived != []
    ensures var h := After(steps);
            && h.file.Some? && Readable(h.file.value) && Numbered(EventsOf(h.file.value))
            && Checkpointed(h.file, now).1.Anchored?
            && (Checkpointed(h.file, now).1.skipped <==> h.anchors != [] && |h.derived| == h.anchoredLength)
  {
    HistoryIsKept(steps);
    var h := After(steps);
    hide After, Checkpointed;
    WholeLogIs(h.derived, h.anchors);
    CheckpointOnWhole(h.derived, h.anchors, now);
    LastOfWhole(h.derived, h.anchors, h.anchoredLength);
  }

  function LogWith(now: string, text: string): seq<Event>
  {
    Start(now, []).events + [Event(3, now, MAIN, UserMessage(text))]
  }

  function OneText(text: string): seq<Frame> { [Frame(NoTs, InSession(MAIN, UserText(text)))] }

  lemma TextFrame(s: State, text: string)
    requires text != "" && s.curTs == ""
    ensures var fr := Frame(NoTs, InSession(MAIN, UserText(text)));
            OnContentOf(Merged(s, fr), fr.content) == Projection.Emit(s, MAIN, UserMessage(text))
  {
  }

  lemma RunOfText(s: State, text: string)
    requires text != "" && s.curTs == ""
    ensures RunFrames(s, OneText(text)) == Projection.Emit(s, MAIN, UserMessage(text))
  {
    UnfoldRun(s, OneText(text));
    TextFrame(s, text);
    RunOfNone(s);
    assert OneText(text)[..0] == [];
    hide RunFrames, Merged, OnContentOf, Projection.EmitAs;
  }

  lemma FinishNone(s: State)
    requires s.graphIdx == |s.graphQ|
    ensures Finish(s, []).events == s.events
  {
  }

  lemma StartSays(now: string)
    ensures var s := Start(now, []);
            s.curTs == "" && s.now == now && s.sessions == map[] && s.graphIdx == |s.graphQ| == 0 && |s.events| == 2
  {
    StartOk(now, []);
  }

  lemma LogOfText(now: string, text: string)
    requires text != ""
    ensures Projector.Projects(now, [], OneText(text), [], LogWith(now, text)) && Derivable(LogWith(now, text))
    ensures |LogWith(now, text)| == 3 && LogWith(now, text)[2].body == UserMessage(text)
  {
    var s := Start(now, []);
    StartSays(now);
    RunOfText(s, text);
    hide RunFrames, Finish, Start, OneText, Derivable;
    var t := RunFrames(s, OneText(text));
    FinishNone(t);
    assert SortedIds([], t.sessions);
    Projector.ProjectsIs(now, [], OneText(text), [], LogWith(now, text));
    ProjectionIsDerivable(now, [], OneText(text), []);
  }

  lemma AfterStep(steps: seq<Step>, step: Step)
    ensures After(steps + [step]) == Next(After(steps), step)
  {
    assert (steps + [step])[..|steps|] == steps;
    hide Next;
  }

  /** Two projections of one length around a checkpoint: the next checkpoint appends nothing. */
  lemma SameLengthIsSkipped(x: seq<Event>, y: seq<Event>, now: string, later: string)
    requires Derivable(x) && Derivable(y) && |x| == |y|
    ensures var r := Checkpointed(After([Project(x), Checkpoint(now), Project(y)]).file, later).1; r.Anchored? && r.skipped
  {
    var first, second, third := [Project(x)], [Project(x), Checkpoint(now)], [Project(x), Checkpoint(now), Project(y)];
    AfterStep([], Project(x));
    AfterStep(first, Checkpoint(now));
    AfterStep(second, Project(y));
    assert first == [] + [Project(x)] && second == first + [Checkpoint(now)] && third == second + [Project(y)];
    assert Possible(first) && Possible(third) && After([]) == NO_HISTORY && x != [] && y != [];
    hide After, Checkpointed, Possible, Derivable, Reprojected;
    CheckpointAfterHistory(first, now);
    CheckpointAfterHistory(third, later);
  }

  /** Their content can differ. */
  lemma OtherContentIsSkipped(now: string, later: string)
    ensures var x, y := LogWith(now, "x"), LogWith(now, "y");
            && Projector.Projects(now, [], OneText("x"), [], x) && Projector.Projects(now, [], OneText("y"), [], y) && x != y
            && var r := Checkpointed(After([Project(x), Checkpoint(now), Project(y)]).file, later).1;
               r.Anchored? && r.skipped
  {
    LogOfText(now, "x");
    LogOfText(now, "y");
    hide LogWith, Projector.Projects, Checkpointed, Derivable, After;
    SameLengthIsSkipped(LogWith(now, "x"), LogWith(now, "y"), now, later);
  }

  // ---- Every projection is derivable ----

  lemma {:induction false} FlushRemainingGrows(s: State)
    ensures |FlushRemaining(s).events| >= |s.events|
    decreases |s.graphQ| - s.graphIdx
  {
    if s.graphIdx < |s.graphQ| {
      ApplyKeepsQueue(s);
      FlushRemainingGrows(ApplyNext(s));
    }
  }

  lemma {:induction false} FlushBeforeGrows(s: State, edge: nat)
    ensures |FlushBefore(s, edge).events| >= |s.events|
    decreases |s.graphQ| - s.graphIdx
  {
    if Due(s, edge) {
      ApplyKeepsQueue(s);
      FlushBeforeGrows(ApplyNext(s), edge);
    }
  }

  lemma {:induction false} RunGrows(s: State, frames: seq<Frame>)
    ensures |RunFrames(s, frames).events| >= |s.events|
    decreases |frames|
  {
    if frames != [] {
      var init, last := frames[..|frames| - 1], frames[|frames| - 1];
      RunGrows(s, init);
      var t := RunFrames(s, init);
      if last.ts.At? {
        FlushBeforeGrows(t, last.ts.instant);
      }
      assert |Merged(t, last).events| >= |t.events|;
      hide Merged, OnContentOf;
      OnContentOfExtends(Merged(t, last), last.content);
    }
  }

  lemma ProjectionIsDerivable(now: string, q: seq<GraphEvent>, frames: seq<Frame>, sids: seq<string>)
    requires SortedIds(sids, RunFrames(Start(now, q), frames).sessions)
    ensures Derivable(Finish(RunFrames(Start(now, q), frames), sids).events)
  {
    var s := RunFrames(Start(now, q), frames);
    assert |Start(now, q).events| > 0;
    RunGrows(Start(now, q), frames);
    hide Start, RunFrames, CloseSessions, FlushRemaining;
    RunEndsClosed(now, q, frames, sids);
    RunKeeps(now, q, frames);
    RunIsNamed(now, q, frames);
    FlushRemainingGrows(s);
    FlushRemainingRunOk(s);
    SideRunOk(FlushRemaining(s), "");
    NamedIds(sids, s.sessions);
    CloseSessionsExtends(FlushRemaining(s).(curTs := ""), sids);
  }

  // ---- The file ----

  class TaskLog {
    var file: File

    method ReadHandoffTail() returns (tail: seq<Event>)
      ensures tail == Tail(file)
    {
      hide TailStart, CleanBefore;
      if file.None? {
        return [];
      }
      var lines, log := file.value, [];
      for k := 0 to |lines|
        invariant Readable(lines[..k]) && LinesOf(log) == lines[..k]
      {
        if lines[k].Garbage? {
          return [];
        }
        log := log + [lines[k].event];
        assert LinesOf(log) == lines[..k] + [lines[k]];
      }
      assert lines[..|lines|] == lines;
      SameEvents(log, EventsOf(lines));
      tail := HandoffSegment(log);
    }

    static method HandoffSegment(log: seq<Event>) returns (tail: seq<Event>)
      ensures tail == if CleanBefore(log, TailStart(log)) then log[TailStart(log)..] else []
    {
      hide CleanBefore;
      var i := |log|;
      assert log[..i] == log;
      while i > 0 && IsHandoff(log[i - 1])
        invariant 0 <= i <= |log| && TailStart(log) == TailStart(log[..i])
      {
        i := i - 1;
        assert log[..i + 1][..i] == log[..i];
      }
      var clean := IsClean(log, i);
      return if clean then log[i..] else [];
    }

    static method IsClean(log: seq<Event>, i: nat) returns (clean: bool)
      requires i <= |log|
      ensures clean == CleanBefore(log, i)
    {
      for j := 0 to i
        invariant CleanBefore(log, j)
      {
        if IsHandoff(log[j]) {
          return false;
        }
      }
      return true;
    }

    /** Writes a new derived segment and, after it, the old file's handoff events. */
    method Reproject(derived: seq<Event>)
      modifies this
      ensures file == Reprojected(old(file), derived)
    {
      var tail := ReadHandoffTail();
      var log := derived;
      for k := 0 to |tail|
        invariant log == derived + Renumbered(|derived|, tail[..k])
      {
        log := log + [tail[k].(number := |log| + 1)];
        assert Renumbered(|derived|, tail[..k + 1]) == Renumbered(|derived|, tail[..k]) + [tail[k].(number := |derived| + k + 1)];
      }
      assert tail[..|tail|] == tail;
      file := Some(LinesOf(log));
    }

    /** A projection of the whole input into the file. */
    method Run(now: string, graphQ: seq<GraphEvent>, frames: seq<Frame>) returns (ghost derived: seq<Event>)
      modifies this
      ensures Derivable(derived) && file == Reprojected(old(file), derived)
    {
      hide *;
      var log := Projector.Project(now, graphQ, frames);
      ghost var sids :| Projector.Projects(now, graphQ, frames, sids, log);
      Projector.ProjectsIs(now, graphQ, frames, sids, log);
      ProjectionIsDerivable(now, graphQ, frames, sids);
      derived := log;
      Reproject(log);
    }

    method Checkpoint(now: string) returns (r: Result)
      modifies this
      ensures (file, r) == Checkpointed(old(file), now)
    {
      if file.None? {
        return Refused(Missing);
      }
      var lines, log := file.value, [];
      for k := 0 to |lines|
        invariant Readable(lines[..k]) && LinesOf(log) == lines[..k]
      {
        if lines[k].Garbage? {
          return Refused(BadLine(k + 1));
        }
        log := log + [lines[k].event];
        assert LinesOf(log) == lines[..k] + [lines[k]];
      }
      assert lines[..|lines|] == lines;
      SameEvents(log, EventsOf(lines));
      for i := 0 to |log|
        invariant forall k | 0 <= k < i :: log[k].number == k + 1
      {
        if log[i].number != i + 1 {
          return Refused(BadNumber(i + 1));
        }
      }
      if |log| == 0 {
        return Refused(Empty);
      }
      var last := log[|log| - 1];
      if last.body.HandoffCheckpointed? && last.body.logSeq == |log| - 1 {
        return Anchored(last.number, true);
      }
      var e := Event(|log| + 1, now, MAIN, HandoffCheckpointed(|log|));
      file := Some(lines + [Ev(e)]);
      return Anchored(e.number, false);
    }
  }

  lemma SameEvents(a: seq<Event>, b: seq<Event>)
    requires LinesOf(a) == LinesOf(b)
    ensures a == b
  {
    Unlines(a);
    Unlines(b);
  }
}
