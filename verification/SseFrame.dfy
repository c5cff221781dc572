/** The text form of a frame log: the printer that writes it and the scanner that reads it.
    A character stands for a byte. */
module SseFrame {
  import opened Lines

  const TS := ": ts "
  const EVENT := "event: "
  const DATA := "data: "

  /** A line and its line end must fit in the scanner's buffer. */
  const MAX_LINE: nat := 16 * 1024 * 1024

  /** line is the number of the data line, from 1. */
  datatype Frame = Frame(name: string, data: string, line: nat, ts: string)

  function TrimCrs(s: string): (r: string)
    ensures r <= s && (r == "" || r[|r| - 1] != CR)
    ensures (s == "" || s[|s| - 1] != CR) ==> r == s
  {
    if s != "" && s[|s| - 1] == CR then TrimCrs(s[..|s| - 1]) else s
  }

  // ---- Scanning ----

  datatype Pending = Pending(name: string, ts: string)

  const NOTHING := Pending("", "")

  datatype Read = Ts | Event | Data | Blank | Ignored

  function Kind(s: string): Read
  {
    if TS <= s then Ts else if EVENT <= s then Event else if DATA <= s then Data else if s == "" then Blank else Ignored
  }

  function Next(p: Pending, s: string): Pending
  {
    match Kind(s)
    case Ts => p.(ts := s[|TS|..])
    case Event => p.(name := s[|EVENT|..])
    case Data => NOTHING
    case Blank => NOTHING
    case Ignored => p
  }

  /** The frame that the line completes, if it does. */
  function Completed(p: Pending, s: string, n: nat): seq<Frame>
  {
    if Kind(s).Data? then [Frame(p.name, s[|DATA|..], n, p.ts)] else []
  }

  /** Frames in order, and whether the input was read to its end. */
  datatype Scanned = Scanned(frames: seq<Frame>, ok: bool)

  function ScanLines(lines: seq<string>, k: nat, p: Pending): Scanned
    requires k <= |lines|
    decreases |lines| - k
  {
    if k == |lines| then Scanned([], true)
    else if |lines[k]| + 1 > MAX_LINE then Scanned([], false)
    else
      var s := TrimCrs(lines[k]);
      var rest := ScanLines(lines, k + 1, Next(p, s));
      Scanned(Completed(p, s, k + 1) + rest.frames, rest.ok)
  }

  /** The lines of a text: what follows the last line end is a line only if it is not empty. */
  function LinesIn(text: string): seq<string>
  {
    var r := SplitLf(text);
    if r[|r| - 1] == "" then r[..|r| - 1] else r
  }

  ghost predicate ScannedSoFar(lines: seq<string>, k: nat, p: Pending, frames: seq<Frame>)
  {
    k <= |lines| &&
    var rest := ScanLines(lines, k, p);
    ScanLines(lines, 0, NOTHING) == Scanned(frames + rest.frames, rest.ok)
  }

  lemma ScanStep(lines: seq<string>, k: nat, p: Pending, frames: seq<Frame>)
    requires ScannedSoFar(lines, k, p, frames) && k < |lines|
    ensures |lines[k]| + 1 > MAX_LINE ==> ScanLines(lines, 0, NOTHING) == Scanned(frames, false)
    ensures |lines[k]| + 1 <= MAX_LINE ==>
              var s := TrimCrs(lines[k]); ScannedSoFar(lines, k + 1, Next(p, s), frames + Completed(p, s, k + 1))
  {
    hide Kind, TrimCrs, Next, Completed;
    var s := TrimCrs(lines[k]);
    assert frames + [] == frames;
    if |lines[k]| + 1 <= MAX_LINE {
      var rest := ScanLines(lines, k + 1, Next(p, s));
      assert frames + (Completed(p, s, k + 1) + rest.frames) == frames + Completed(p, s, k + 1) + rest.frames;
    }
  }

  lemma ScanEnds(lines: seq<string>, p: Pending, frames: seq<Frame>)
    ensures ScannedSoFar(lines, 0, NOTHING, [])
    ensures ScannedSoFar(lines, |lines|, p, frames) ==> ScanLines(lines, 0, NOTHING) == Scanned(frames, true)
  {
    var all := ScanLines(lines, 0, NOTHING);
    assert [] + all.frames == all.frames && frames + [] == frames;
  }

  method Scan(text: string) returns (frames: seq<Frame>, ok: bool)
    ensures Scanned(frames, ok) == ScanLines(LinesIn(text), 0, NOTHING)
  {
    hide Kind, TrimCrs, ScannedSoFar, LinesIn, ScanLines;
    var lines := LinesIn(text);
    var pending, pendingTs := "", "";
    frames := [];
    ScanEnds(lines, NOTHING, []);
    for k := 0 to |lines|
      invariant ScannedSoFar(lines, k, Pending(pending, pendingTs), frames)
    {
      ScanStep(lines, k, Pending(pending, pendingTs), frames);
      if |lines[k]| + 1 > MAX_LINE {
        return frames, false;
      }
      var s := TrimCrs(lines[k]);
      assert frames + [] == frames;
      match Kind(s) {
        case Ts => pendingTs := TsOf(s);
        case Event => pending := EventOf(s);
        case Data =>
          frames := frames + [Frame(pending, DataOf(s), k + 1, pendingTs)];
          pending, pendingTs := "", "";
        case Blank => pending, pendingTs := "", "";
        case Ignored =>
      }
    }
    ScanEnds(lines, Pending(pending, pendingTs), frames);
    ok := true;
  }

  function TsOf(s: string): string
    requires Kind(s).Ts?
  {
    s[|TS|..]
  }

  function EventOf(s: string): string
    requires Kind(s).Event?
  {
    s[|EVENT|..]
  }

  function DataOf(s: string): string
    requires Kind(s).Data?
  {
    s[|DATA|..]
  }

  // ---- Printing ----

  /** What the printer writes of a frame. */
  datatype Written = Written(ts: string, name: string, data: string)

  function PrintedLines(fs: seq<Written>): seq<string>
  {
    if fs == [] then [] else [TS + fs[0].ts, EVENT + fs[0].name, DATA + fs[0].data, ""] + PrintedLines(fs[1..])
  }

  function Printed(fs: seq<Written>): string
  {
    if fs == [] then ""
    else TS + fs[0].ts + [LF] + EVENT + fs[0].name + [LF] + DATA + fs[0].data + [LF] + [LF] + Printed(fs[1..])
  }

  method Print(fs: seq<Written>) returns (text: string)
    ensures text == Printed(fs)
  {
    text := "";
    for k := 0 to |fs|
      invariant text + Printed(fs[k..]) == Printed(fs)
    {
      var f := fs[k];
      assert fs[k..][0] == f && fs[k..][1..] == fs[k + 1..];
      var piece := TS + f.ts + [LF] + EVENT + f.name + [LF] + DATA + f.data + [LF] + [LF];
      assert text + (piece + Printed(fs[k + 1..])) == text + piece + Printed(fs[k + 1..]);
      text := text + piece;
    }
    assert fs[|fs|..] == [];
  }

  /** A field that survives: no line end in it, no CR at its end. */
  predicate Clean(s: string) { NoLf(s) && (s == "" || s[|s| - 1] != CR) }

  predicate FitsLine(s: string) { |s| + 1 <= MAX_LINE }

  predicate Writable(f: Written)
  {
    && Clean(f.ts) && Clean(f.name) && Clean(f.data)
    && FitsLine(TS + f.ts) && FitsLine(EVENT + f.name) && FitsLine(DATA + f.data)
  }

  function Unnumbered(frames: seq<Frame>): (r: seq<Written>)
    ensures |r| == |frames|
  {
    seq(|frames|, k requires 0 <= k < |frames| => Written(frames[k].ts, frames[k].name, frames[k].data))
  }

  // ---- Heartbeats ----

  /** A comment that is not a timestamp. */
  predicate Heartbeat(line: string) { ":" <= line && !(TS <= TrimCrs(line)) && NoLf(line) && FitsLine(line) }

  function WithoutBeats(lines: seq<string>): seq<string>
  {
    if lines == [] then [] else (if Heartbeat(lines[0]) then [] else [lines[0]]) + WithoutBeats(lines[1..])
  }

  lemma BeatIsIgnored(line: string)
    requires Heartbeat(line)
    ensures Kind(TrimCrs(line)).Ignored?
  {
    var s := TrimCrs(line);
    assert line[0] == ':';
    assert s != "" by {
      TrimKeepsFirst(line);
    }
    assert s[0] == ':' && EVENT[0] != ':' && DATA[0] != ':';
  }

  lemma {:induction false} TrimKeepsFirst(s: string)
    requires s != "" && s[0] != CR
    ensures TrimCrs(s) != "" && TrimCrs(s)[0] == s[0]
    decreases |s|
  {
    if s[|s| - 1] == CR {
      TrimKeepsFirst(s[..|s| - 1]);
    }
  }

  lemma PrintedLineKinds(f: Written)
    requires Writable(f)
    ensures TrimCrs(TS + f.ts) == TS + f.ts && Kind(TS + f.ts).Ts?
    ensures TrimCrs(EVENT + f.name) == EVENT + f.name && Kind(EVENT + f.name).Event?
    ensures TrimCrs(DATA + f.data) == DATA + f.data && Kind(DATA + f.data).Data?
    ensures TrimCrs("") == "" && Kind("").Blank?
    ensures !Heartbeat(TS + f.ts) && !Heartbeat(EVENT + f.name) && !Heartbeat(DATA + f.data) && !Heartbeat("")
  {
    assert TS[0] == ':' && EVENT[0] == 'e' && DATA[0] == 'd';
    assert TS[|TS| - 1] == ' ' && EVENT[|EVENT| - 1] == ' ' && DATA[|DATA| - 1] == ' ';
    assert (EVENT + f.name)[0] == 'e' && (DATA + f.data)[0] == 'd' && (TS + f.ts)[0] == ':';
  }

  // ---- Scanning what was printed ----

  /** The printed lines from stage 0..4 of frame d on. */
  function LinesFrom(fs: seq<Written>, d: nat, stage: nat): seq<string>
    requires d <= |fs| && stage < 4 && (d == |fs| ==> stage == 0)
  {
    if d == |fs| then []
    else [TS + fs[d].ts, EVENT + fs[d].name, DATA + fs[d].data, ""][stage..] + PrintedLines(fs[d + 1..])
  }

  /** What the scanner holds at that stage. */
  function Held(fs: seq<Written>, d: nat, stage: nat): Pending
    requires d <= |fs| && stage < 4 && (d == |fs| ==> stage == 0)
  {
    if stage == 0 || stage == 3 then NOTHING else if stage == 1 then Pending("", fs[d].ts) else Pending(fs[d].name, fs[d].ts)
  }

  lemma LinesFromStep(fs: seq<Written>, d: nat, stage: nat)
    requires d < |fs| && stage < 4
    ensures var all := LinesFrom(fs, d, stage);
            && all != []
            && all[0] == [TS + fs[d].ts, EVENT + fs[d].name, DATA + fs[d].data, ""][stage]
            && all[1..] == if stage < 3 then LinesFrom(fs, d, stage + 1) else LinesFrom(fs, d + 1, 0)
  {
    var four := [TS + fs[d].ts, EVENT + fs[d].name, DATA + fs[d].data, ""];
    hide TS, EVENT, DATA, PrintedLines;
    assert LinesFrom(fs, d, stage) == four[stage..] + PrintedLines(fs[d + 1..]);
    FourStep(four, stage, PrintedLines(fs[d + 1..]));
    if stage == 3 {
      PrintedTail(fs, d + 1);
    }
  }

  lemma FourStep(four: seq<string>, stage: nat, rest: seq<string>)
    requires |four| == 4 && stage < 4
    ensures (four[stage..] + rest)[0] == four[stage]
    ensures (four[stage..] + rest)[1..] == if stage < 3 then four[stage + 1..] + rest else rest
  {
  }

  lemma PrintedTail(fs: seq<Written>, d: nat)
    requires d <= |fs|
    ensures PrintedLines(fs[d..]) == LinesFrom(fs, d, 0)
  {
    hide TS, EVENT, DATA;
    if d < |fs| {
      var four := [TS + fs[d].ts, EVENT + fs[d].name, DATA + fs[d].data, ""];
      assert fs[d..][0] == fs[d] && fs[d..][1..] == fs[d + 1..] && four[0..] == four;
    }
  }

  lemma HeldStep(fs: seq<Written>, d: nat, stage: nat)
    requires d < |fs| && stage < 4 && Writable(fs[d])
    ensures var line := [TS + fs[d].ts, EVENT + fs[d].name, DATA + fs[d].data, ""][stage];
            var s := TrimCrs(line);
            && !Heartbeat(line) && FitsLine(line)
            && Next(Held(fs, d, stage), s) == (if stage < 3 then Held(fs, d, stage + 1) else Held(fs, d + 1, 0))
            && forall n :: Completed(Held(fs, d, stage), s, n) ==
                             if stage == 2 then [Frame(fs[d].name, fs[d].data, n, fs[d].ts)] else []
  {
    var f := fs[d];
    PrintedLineKinds(f);
    assert (TS + f.ts)[|TS|..] == f.ts && (EVENT + f.name)[|EVENT|..] == f.name && (DATA + f.data)[|DATA|..] == f.data;
    hide TS, EVENT, DATA, Heartbeat, Kind, TrimCrs, Clean;
    assert MAX_LINE > 1;
  }

  /** The frames that are still to come. */
  function ToCome(fs: seq<Written>, d: nat, stage: nat): seq<Written>
    requires d <= |fs|
  {
    if stage < 3 || d == |fs| then fs[d..] else fs[d + 1..]
  }

  /** Heartbeats anywhere among the printed lines change nothing. */
  lemma {:induction false} ScanWithBeats(lines: seq<string>, k: nat, fs: seq<Written>, d: nat, stage: nat)
    requires k <= |lines| && d <= |fs| && stage < 4 && (d == |fs| ==> stage == 0)
    requires forall f | f in fs :: Writable(f)
    requires WithoutBeats(lines[k..]) == LinesFrom(fs, d, stage)
    ensures var r := ScanLines(lines, k, Held(fs, d, stage));
            r.ok && Unnumbered(r.frames) == ToCome(fs, d, stage)
    decreases |lines| - k
  {
    hide Heartbeat, Kind, TrimCrs, Writable, FitsLine, TS, EVENT, DATA;
    if k == |lines| {
      NoneLeft(fs, d, stage);
    } else {
      assert lines[k..][0] == lines[k] && lines[k..][1..] == lines[k + 1..];
      if Heartbeat(lines[k]) {
        BeatStep(lines, k, Held(fs, d, stage));
        assert [] + WithoutBeats(lines[k + 1..]) == WithoutBeats(lines[k + 1..]);
        ScanWithBeats(lines, k + 1, fs, d, stage);
      } else {
        assert ([lines[k]] + WithoutBeats(lines[k + 1..]))[1..] == WithoutBeats(lines[k + 1..]);
        assert d < |fs|;
        assert fs[d] in fs;
        LinesFromStep(fs, d, stage);
        HeldStep(fs, d, stage);
        var d', stage' := if stage < 3 then d else d + 1, if stage < 3 then stage + 1 else 0;
        ScanWithBeats(lines, k + 1, fs, d', stage');
        LineStep(lines, k, fs, d, stage);
      }
    }
  }

  lemma NoneLeft(fs: seq<Written>, d: nat, stage: nat)
    requires d <= |fs| && stage < 4 && (d == |fs| ==> stage == 0) && LinesFrom(fs, d, stage) == []
    ensures d == |fs|
  {
    if d < |fs| {
      LinesFromStep(fs, d, stage);
    }
  }

  lemma BeatStep(lines: seq<string>, k: nat, p: Pending)
    requires k < |lines| && Heartbeat(lines[k])
    ensures ScanLines(lines, k, p) == ScanLines(lines, k + 1, p)
  {
    BeatIsIgnored(lines[k]);
    hide Kind, TrimCrs;
    var rest := ScanLines(lines, k + 1, p);
    assert [] + rest.frames == rest.frames;
  }

  lemma LineStep(lines: seq<string>, k: nat, fs: seq<Written>, d: nat, stage: nat)
    requires k < |lines| && d < |fs| && stage < 4
    requires var d', stage' := if stage < 3 then d else d + 1, if stage < 3 then stage + 1 else 0;
             var s := TrimCrs(lines[k]);
             && FitsLine(lines[k])
             && Next(Held(fs, d, stage), s) == Held(fs, d', stage')
             && Completed(Held(fs, d, stage), s, k + 1) ==
                  (if stage == 2 then [Frame(fs[d].name, fs[d].data, k + 1, fs[d].ts)] else [])
             && ScanLines(lines, k + 1, Held(fs, d', stage')).ok
             && Unnumbered(ScanLines(lines, k + 1, Held(fs, d', stage')).frames) == ToCome(fs, d', stage')
    ensures var r := ScanLines(lines, k, Held(fs, d, stage));
            r.ok && Unnumbered(r.frames) == ToCome(fs, d, stage)
  {
    hide Kind, TrimCrs, Next, Held, Completed;
    var d', stage' := if stage < 3 then d else d + 1, if stage < 3 then stage + 1 else 0;
    var rest := ScanLines(lines, k + 1, Held(fs, d', stage'));
    if stage == 2 {
      assert fs[d..] == [fs[d]] + fs[d + 1..];
      var f := Frame(fs[d].name, fs[d].data, k + 1, fs[d].ts);
      assert Unnumbered([f] + rest.frames) == [fs[d]] + Unnumbered(rest.frames);
    } else {
      assert [] + rest.frames == rest.frames;
    }
  }

  // ---- The text of printed lines ----

  /** Every line with its line end. */
  function Terminated(lines: seq<string>): string
  {
    if lines == [] then "" else lines[0] + [LF] + Terminated(lines[1..])
  }

  lemma {:induction false} LinesOfTerminated(lines: seq<string>)
    requires forall k | 0 <= k < |lines| :: NoLf(lines[k])
    ensures SplitLf(Terminated(lines)) == lines + [""] && LinesIn(Terminated(lines)) == lines
    decreases |lines|
  {
    if lines == [] {
      assert SplitLf("") == [""];
    } else {
      LinesOfTerminated(lines[1..]);
      SplitPiece(lines[0], Terminated(lines[1..]));
      assert [lines[0]] + (lines[1..] + [""]) == lines + [""];
    }
    assert (lines + [""])[..|lines|] == lines;
  }

  lemma {:induction false} PrintedIsTerminated(fs: seq<Written>)
    ensures Printed(fs) == Terminated(PrintedLines(fs))
    decreases |fs|
  {
    if fs != [] {
      var f, rest := fs[0], PrintedLines(fs[1..]);
      PrintedIsTerminated(fs[1..]);
      hide Printed, PrintedLines, TS, EVENT, DATA;
      FourTerminated(TS + f.ts, EVENT + f.name, DATA + f.data, rest);
      PrintedCons(fs);
    }
  }

  lemma PrintedCons(fs: seq<Written>)
    requires fs != []
    ensures var f := fs[0];
            && Printed(fs) == (TS + f.ts) + ([LF] + ((EVENT + f.name) + ([LF] + ((DATA + f.data) + ([LF] + ([LF] + Printed(fs[1..])))))))
            && PrintedLines(fs) == [TS + f.ts, EVENT + f.name, DATA + f.data, ""] + PrintedLines(fs[1..])
  {
    hide TS, EVENT, DATA;
  }

  lemma FourTerminated(a: string, b: string, c: string, rest: seq<string>)
    ensures Terminated([a, b, c, ""] + rest) == a + ([LF] + (b + ([LF] + (c + ([LF] + ([LF] + Terminated(rest)))))))
  {
    TerminatedCons(a, [b, c, ""] + rest);
    TerminatedCons(b, [c, ""] + rest);
    TerminatedCons(c, [""] + rest);
    TerminatedCons("", rest);
    assert [a, b, c, ""] + rest == [a] + ([b, c, ""] + rest);
    assert [b, c, ""] + rest == [b] + ([c, ""] + rest);
    assert [c, ""] + rest == [c] + ([""] + rest);
    assert "" + ([LF] + Terminated(rest)) == [LF] + Terminated(rest);
  }

  lemma TerminatedCons(a: string, rest: seq<string>)
    ensures Terminated([a] + rest) == a + ([LF] + Terminated(rest))
  {
    assert ([a] + rest)[1..] == rest;
  }

  // ---- The main results ----

  /** Scanning the printed form of any writable frames, with heartbeats inserted anywhere between
      its lines, gives back the same names, data and times: no time reaches a later frame. */
  lemma ScanUndoesPrint(lines: seq<string>, fs: seq<Written>)
    requires forall f | f in fs :: Writable(f)
    requires WithoutBeats(lines) == PrintedLines(fs) && forall k | 0 <= k < |lines| :: NoLf(lines[k])
    ensures var r := ScanLines(LinesIn(Terminated(lines)), 0, NOTHING);
            r.ok && Unnumbered(r.frames) == fs
  {
    LinesOfTerminated(lines);
    assert lines[0..] == lines && fs[0..] == fs;
    hide *;
    PrintedFromStart(fs);
    ScanWithBeats(lines, 0, fs, 0, 0);
  }

  lemma PrintedFromStart(fs: seq<Written>)
    ensures LinesFrom(fs, 0, 0) == PrintedLines(fs) && Held(fs, 0, 0) == NOTHING && ToCome(fs, 0, 0) == fs[0..]
  {
    hide TS, EVENT, DATA;
    if fs != [] {
      var f := fs[0];
      assert [TS + f.ts, EVENT + f.name, DATA + f.data, ""][0..] == [TS + f.ts, EVENT + f.name, DATA + f.data, ""];
    }
  }

  lemma {:induction false} ScannedIsClean(lines: seq<string>, k: nat, p: Pending)
    requires k <= |lines| && Clean(p.name) && Clean(p.ts) && forall j | 0 <= j < |lines| :: NoLf(lines[j])
    ensures forall f | f in Unnumbered(ScanLines(lines, k, p).frames) :: Clean(f.ts) && Clean(f.name) && Clean(f.data)
    decreases |lines| - k
  {
    if k < |lines| && |lines[k]| + 1 <= MAX_LINE {
      var s := TrimCrs(lines[k]);
      assert Clean(s);
      FieldsOfClean(p, s, k + 1);
      hide NoLf, Clean, TrimCrs, Next, Completed;
      ScannedIsClean(lines, k + 1, Next(p, s));
      var rest := ScanLines(lines, k + 1, Next(p, s));
      assert Unnumbered(Completed(p, s, k + 1) + rest.frames) == Unnumbered(Completed(p, s, k + 1)) + Unnumbered(rest.frames);
    }
  }

  lemma FieldsOfClean(p: Pending, s: string, n: nat)
    requires Clean(s) && Clean(p.name) && Clean(p.ts)
    ensures Clean(Next(p, s).name) && Clean(Next(p, s).ts)
    ensures forall f | f in Unnumbered(Completed(p, s, n)) :: Clean(f.ts) && Clean(f.name) && Clean(f.data)
  {
    assert Clean("");
    assert TS <= s ==> Clean(s[|TS|..]);
    assert EVENT <= s ==> Clean(s[|EVENT|..]);
    assert DATA <= s ==> Clean(s[|DATA|..]);
    hide Clean, TS, EVENT, DATA;
  }

  lemma {:induction false} ReadMeansFits(lines: seq<string>, k: nat, p: Pending)
    requires k <= |lines| && ScanLines(lines, k, p).ok
    ensures forall j | k <= j < |lines| :: FitsLine(lines[j])
    decreases |lines| - k
  {
    if k < |lines| {
      hide Kind, TrimCrs, Next, Completed;
      ReadMeansFits(lines, k + 1, Next(p, TrimCrs(lines[k])));
    }
  }

  lemma {:induction false} InPrinted(fs: seq<Written>, i: nat)
    requires i < |fs|
    ensures TS + fs[i].ts in PrintedLines(fs) && EVENT + fs[i].name in PrintedLines(fs) && DATA + fs[i].data in PrintedLines(fs)
    decreases i
  {
    hide TS, EVENT, DATA;
    var four := [TS + fs[0].ts, EVENT + fs[0].name, DATA + fs[0].data, ""];
    assert four[0] in four && four[1] in four && four[2] in four;
    if i > 0 {
      InPrinted(fs[1..], i - 1);
    }
  }

  lemma {:induction false} PrintedNoLf(fs: seq<Written>)
    requires forall f | f in fs :: Clean(f.ts) && Clean(f.name) && Clean(f.data)
    ensures forall k | 0 <= k < |PrintedLines(fs)| :: NoLf(PrintedLines(fs)[k])
    decreases |fs|
  {
    if fs != [] {
      var f := fs[0];
      assert f in fs;
      PrintedNoLf(fs[1..]);
      assert NoLf(TS + f.ts) && NoLf(EVENT + f.name) && NoLf(DATA + f.data) && NoLf("");
      hide NoLf, TS, EVENT, DATA;
    }
  }

  lemma {:induction false} NoBeatsPrinted(fs: seq<Written>)
    requires forall f | f in fs :: Writable(f)
    ensures WithoutBeats(PrintedLines(fs)) == PrintedLines(fs)
    decreases |fs|
  {
    if fs != [] {
      var f := fs[0];
      assert f in fs;
      PrintedLineKinds(f);
      NoBeatsPrinted(fs[1..]);
      hide TS, EVENT, DATA, Heartbeat, Writable;
      FourKept(TS + f.ts, EVENT + f.name, DATA + f.data, PrintedLines(fs[1..]));
    }
  }

  lemma FourKept(a: string, b: string, c: string, rest: seq<string>)
    requires !Heartbeat(a) && !Heartbeat(b) && !Heartbeat(c) && !Heartbeat("")
    ensures WithoutBeats([a, b, c, ""] + rest) == [a, b, c, ""] + WithoutBeats(rest)
  {
    hide Heartbeat, WithoutBeats;
    KeptCons(a, [b, c, ""] + rest);
    KeptCons(b, [c, ""] + rest);
    KeptCons(c, [""] + rest);
    KeptCons("", rest);
    assert [a, b, c, ""] + rest == [a] + ([b, c, ""] + rest);
    assert [b, c, ""] + rest == [b] + ([c, ""] + rest);
    assert [c, ""] + rest == [c] + ([""] + rest);
    assert [a] + ([b] + ([c] + ([""] + WithoutBeats(rest)))) == [a, b, c, ""] + WithoutBeats(rest);
  }

  lemma KeptCons(a: string, rest: seq<string>)
    requires !Heartbeat(a)
    ensures WithoutBeats([a] + rest) == [a] + WithoutBeats(rest)
  {
    hide Heartbeat;
    assert ([a] + rest)[1..] == rest;
  }

  /** The printed text reads back as it was written exactly when every field is free of line
      ends, does not end in CR, and leaves its line within the scanner's limit. */
  lemma ReadsBackIff(fs: seq<Written>)
    ensures var r := ScanLines(LinesIn(Printed(fs)), 0, NOTHING);
            (r.ok && Unnumbered(r.frames) == fs) <==> forall f | f in fs :: Writable(f)
  {
    PrintedIsTerminated(fs);
    var r := ScanLines(LinesIn(Printed(fs)), 0, NOTHING);
    if forall f | f in fs :: Writable(f) {
      NoBeatsPrinted(fs);
      PrintedNoLf(fs);
      ScanUndoesPrint(PrintedLines(fs), fs);
    }
    if r.ok && Unnumbered(r.frames) == fs {
      hide *;
      AllClean(fs);
      PrintedNoLf(fs);
      LinesOfTerminated(PrintedLines(fs));
      ReadMeansFits(PrintedLines(fs), 0, NOTHING);
      forall f | f in fs ensures Writable(f) {
        var i :| 0 <= i < |fs| && fs[i] == f;
        InPrinted(fs, i);
        AllFit(PrintedLines(fs), f);
      }
    }
  }

  lemma AllClean(fs: seq<Written>)
    requires Unnumbered(ScanLines(LinesIn(Printed(fs)), 0, NOTHING).frames) == fs
    ensures forall f | f in fs :: Clean(f.ts) && Clean(f.name) && Clean(f.data)
  {
    var lines := LinesIn(Printed(fs));
    assert forall j | 0 <= j < |lines| :: NoLf(lines[j]);
    assert Clean("");
    ScannedIsClean(lines, 0, NOTHING);
  }

  lemma AllFit(lines: seq<string>, f: Written)
    requires forall j | 0 <= j < |lines| :: FitsLine(lines[j])
    requires TS + f.ts in lines && EVENT + f.name in lines && DATA + f.data in lines
    requires Clean(f.ts) && Clean(f.name) && Clean(f.data)
    ensures Writable(f)
  {
    hide Clean, FitsLine, TS, EVENT, DATA;
  }

  // ---- No time reaches a later frame ----

  /** Line j gives the time, and no line after it, up to n, gives another one, completes a frame
      or is blank. */
  predicate TimeFrom(lines: seq<string>, j: nat, n: nat, ts: string)
    requires n <= |lines|
  {
    && j < n && TrimCrs(lines[j]) == TS + ts
    && forall m | j < m < n :: Kind(TrimCrs(lines[m])).Event? || Kind(TrimCrs(lines[m])).Ignored?
  }

  ghost predicate TimeOwned(lines: seq<string>, n: nat, ts: string)
    requires n <= |lines|
  {
    ts == "" || exists j: nat :: TimeFrom(lines, j, n, ts)
  }

  /** Whatever was scanned: a frame's time, if it has one, stands in front of that frame alone. */
  lemma {:induction false} TimeIsOwn(lines: seq<string>, k: nat, p: Pending)
    requires k <= |lines| && TimeOwned(lines, k, p.ts)
    ensures forall f | f in ScanLines(lines, k, p).frames :: 1 <= f.line <= |lines| && TimeOwned(lines, f.line - 1, f.ts)
    decreases |lines| - k
  {
    if k < |lines| && |lines[k]| + 1 <= MAX_LINE {
      var s := TrimCrs(lines[k]);
      NextOwned(lines, k, p);
      hide TimeOwned, TrimCrs, Kind;
      TimeIsOwn(lines, k + 1, Next(p, s));
    }
  }

  lemma NextOwned(lines: seq<string>, k: nat, p: Pending)
    requires k < |lines| && TimeOwned(lines, k, p.ts)
    ensures TimeOwned(lines, k + 1, Next(p, TrimCrs(lines[k])).ts)
  {
    var s := TrimCrs(lines[k]);
    match Kind(s)
    case Ts =>
      assert s == TS + s[|TS|..];
      assert TimeFrom(lines, k, k + 1, s[|TS|..]);
    case Event =>
      if p.ts != "" {
        var j: nat :| TimeFrom(lines, j, k, p.ts);
        assert TimeFrom(lines, j, k + 1, p.ts);
      }
    case Ignored =>
      if p.ts != "" {
        var j: nat :| TimeFrom(lines, j, k, p.ts);
        assert TimeFrom(lines, j, k + 1, p.ts);
      }
    case _ =>
  }
}
