/** What a scan of any text gives, in terms of its lines alone. */
module ScanLaw {
  import opened Lines
  import opened SseFrame

  // ---- The lines of a text ----

  /** t is s without the CRs at its end. */
  predicate WithoutCrs(s: string, t: string)
  {
    t <= s && (forall k | |t| <= k < |s| :: s[k] == CR) && (t != "" ==> t[|t| - 1] != CR)
  }

  lemma {:induction false} TrimCrsIs(s: string)
    ensures WithoutCrs(s, TrimCrs(s))
    decreases |s|
  {
    if s != "" && s[|s| - 1] == CR {
      TrimCrsIs(s[..|s| - 1]);
    }
  }

  predicate EndsInLf(text: string) { text != "" && text[|text| - 1] == LF }

  lemma {:induction false} TerminatedJoin(lines: seq<string>)
    requires lines != []
    ensures Terminated(lines) == Join(lines) + [LF]
    decreases |lines|
  {
    if |lines| == 1 {
      assert lines[1..] == [] && lines[0] + [LF] + "" == lines[0] + [LF];
    } else {
      TerminatedJoin(lines[1..]);
      assert lines[0] + [LF] + (Join(lines[1..]) + [LF]) == lines[0] + [LF] + Join(lines[1..]) + [LF];
    }
  }

  lemma {:induction false} JoinInit(lines: seq<string>)
    requires |lines| > 1
    ensures Join(lines) == Join(lines[..|lines| - 1]) + [LF] + lines[|lines| - 1]
    decreases |lines|
  {
    var n := |lines| - 1;
    var init, last := lines[..n], lines[n];
    if |lines| == 2 {
      assert init == [lines[0]] && lines[1..] == [last];
    } else {
      JoinInit(lines[1..]);
      assert lines[1..][..n - 1] == init[1..] && lines[1..][n - 1] == last;
      assert lines[0] + [LF] + (Join(init[1..]) + [LF] + last) == (lines[0] + [LF] + Join(init[1..])) + [LF] + last;
    }
  }

  lemma LastCharOf(x: string, last: string)
    requires NoLf(last)
    ensures EndsInLf(x + [LF] + last) <==> last == ""
    ensures !EndsInLf(last)
  {
    if last != "" {
      assert (x + [LF] + last)[|x| + |last|] == last[|last| - 1];
    }
  }

  /** The lines of a text are the text, cut at its line ends; one behind the last line end counts
      unless it is empty. */
  lemma LinesInIs(text: string)
    ensures forall k | 0 <= k < |LinesIn(text)| :: NoLf(LinesIn(text)[k])
    ensures Terminated(LinesIn(text)) == if text == "" || EndsInLf(text) then text else text + [LF]
  {
    var r := SplitLf(text);
    var n := |r| - 1;
    JoinSplit(text);
    hide SplitLf, Join, Terminated;
    assert NoLf(r[n]);
    if n == 0 {
      JoinOne(r);
      LastCharOf("", r[0]);
      TerminatedNone();
      if r[0] != "" {
        TerminatedJoin(r);
      }
    } else {
      JoinInit(r);
      LastCharOf(Join(r[..n]), r[n]);
      if r[n] == "" {
        TerminatedJoin(r[..n]);
        assert Join(r[..n]) + [LF] + "" == Join(r[..n]) + [LF];
      } else {
        TerminatedJoin(r);
      }
    }
  }

  lemma JoinOne(r: seq<string>)
    requires |r| == 1
    ensures Join(r) == r[0]
  {
  }

  lemma TerminatedNone()
    ensures Terminated([]) == ""
  {
  }

  // ---- The frames of some lines ----

  function LineText(lines: seq<string>, k: nat): string
    requires k < |lines|
  {
    TrimCrs(lines[k])
  }

  /** A frame starts over behind its data, and behind an empty line. */
  predicate StartsOver(line: string) { line == "" || DATA <= line }

  /** Line j has this mark with the text v behind it, and up to line n no later line has the mark
      and none starts over. */
  ghost predicate LastAt(lines: seq<string>, n: nat, mark: string, v: string, j: nat)
    requires n <= |lines|
  {
    && j < n && LineText(lines, j) == mark + v
    && forall m: nat | j < m < n :: !(mark <= LineText(lines, m)) && !StartsOver(LineText(lines, m))
  }

  /** Since the frame before line n started over, no line has this mark. */
  ghost predicate NoneSince(lines: seq<string>, n: nat, mark: string)
    requires n <= |lines|
  {
    forall j: nat | j < n && mark <= LineText(lines, j) :: exists m: nat :: j < m < n && StartsOver(LineText(lines, m))
  }

  /** v is what the last line with this mark says for the frame at line n, or nothing. */
  ghost predicate Given(lines: seq<string>, n: nat, mark: string, v: string)
    requires n <= |lines|
  {
    (v == "" && NoneSince(lines, n, mark)) || exists j: nat :: LastAt(lines, n, mark, v, j)
  }

  lemma GivenAnew(lines: seq<string>, n: nat, mark: string, v: string)
    requires n < |lines| && LineText(lines, n) == mark + v
    ensures Given(lines, n + 1, mark, v)
  {
    assert LastAt(lines, n + 1, mark, v, n);
  }

  lemma GivenStill(lines: seq<string>, n: nat, mark: string, v: string)
    requires n < |lines| && Given(lines, n, mark, v)
    requires !(mark <= LineText(lines, n)) && !StartsOver(LineText(lines, n))
    ensures Given(lines, n + 1, mark, v)
  {
    if v == "" && NoneSince(lines, n, mark) {
      forall j: nat | j < n + 1 && mark <= LineText(lines, j) ensures exists m: nat :: j < m < n + 1 && StartsOver(LineText(lines, m)) {
        var m: nat :| j < m < n && StartsOver(LineText(lines, m));
        assert m < n + 1;
      }
    } else {
      var j: nat :| LastAt(lines, n, mark, v, j);
      assert LastAt(lines, n + 1, mark, v, j);
    }
  }

  lemma GivenNone(lines: seq<string>, n: nat, mark: string)
    requires n < |lines| && StartsOver(LineText(lines, n)) && !(mark <= LineText(lines, n))
    ensures Given(lines, n + 1, mark, "")
  {
    forall j: nat | j < n + 1 && mark <= LineText(lines, j) ensures exists m: nat :: j < m < n + 1 && StartsOver(LineText(lines, m)) {
      assert j < n < n + 1;
    }
  }

  /** What the scanner holds in front of line n. */
  ghost predicate HoldsAt(lines: seq<string>, n: nat, p: Pending)
    requires n <= |lines|
  {
    Given(lines, n, EVENT, p.name) && Given(lines, n, TS, p.ts)
  }

  lemma MarksDiffer(s: string)
    ensures EVENT <= s ==> !(TS <= s) && !StartsOver(s)
    ensures TS <= s ==> !(EVENT <= s) && !StartsOver(s)
  {
    assert EVENT[0] != TS[0] && EVENT[0] != DATA[0] && TS[0] != DATA[0];
  }

  lemma HoldsNext(lines: seq<string>, n: nat, p: Pending)
    requires n < |lines| && HoldsAt(lines, n, p)
    ensures HoldsAt(lines, n + 1, Next(p, LineText(lines, n)))
  {
    var s := LineText(lines, n);
    MarksDiffer(s);
    NextSays(p, s);
    hide Given, LineText, StartsOver, Next, Kind, EVENT, TS, DATA;
    if TS <= s {
      GivenAnew(lines, n, TS, Next(p, s).ts);
      GivenStill(lines, n, EVENT, p.name);
    } else if EVENT <= s {
      GivenAnew(lines, n, EVENT, Next(p, s).name);
      GivenStill(lines, n, TS, p.ts);
    } else if StartsOver(s) {
      GivenNone(lines, n, EVENT);
      GivenNone(lines, n, TS);
    } else {
      GivenStill(lines, n, EVENT, p.name);
      GivenStill(lines, n, TS, p.ts);
    }
  }

  lemma NextSays(p: Pending, s: string)
    ensures var q := Next(p, s);
            if TS <= s then q.name == p.name && s == TS + q.ts
            else if EVENT <= s then s == EVENT + q.name && q.ts == p.ts
            else if StartsOver(s) then q.name == "" && q.ts == ""
            else q == p
  {
    assert EVENT[0] != TS[0] && EVENT[0] != DATA[0] && TS[0] != DATA[0];
  }

  /** The frame of line f.line: what stands behind its mark, with the name and the time given to it. */
  ghost predicate FrameOf(lines: seq<string>, f: Frame)
  {
    && 1 <= f.line <= |lines| && LineText(lines, f.line - 1) == DATA + f.data
    && Given(lines, f.line - 1, EVENT, f.name) && Given(lines, f.line - 1, TS, f.ts)
  }

  /** In order, from line k to n: one frame for each data line, and no others. */
  ghost predicate FramesOf(lines: seq<string>, k: nat, n: nat, frames: seq<Frame>)
    requires k <= n <= |lines|
    decreases n - k
  {
    if k == n then frames == []
    else if DATA <= LineText(lines, k) then
      frames != [] && frames[0].line == k + 1 && FrameOf(lines, frames[0]) && FramesOf(lines, k + 1, n, frames[1..])
    else FramesOf(lines, k + 1, n, frames)
  }

  ghost predicate ReadUpTo(lines: seq<string>, k: nat, n: nat, r: Scanned)
  {
    && k <= n <= |lines| && (forall j | k <= j < n :: FitsLine(lines[j])) && (n < |lines| ==> !FitsLine(lines[n]))
    && FramesOf(lines, k, n, r.frames) && (r.ok <==> n == |lines|)
  }

  lemma CompletedSays(p: Pending, s: string, n: nat)
    ensures if DATA <= s then exists f :: Completed(p, s, n) == [f] && f.line == n && f.name == p.name && f.ts == p.ts && s == DATA + f.data
            else Completed(p, s, n) == []
  {
    assert EVENT[0] != DATA[0] && TS[0] != DATA[0];
    if DATA <= s {
      var f := Frame(p.name, s[|DATA|..], n, p.ts);
      assert Completed(p, s, n) == [f];
    }
  }

  lemma NoFrames(lines: seq<string>, k: nat, n: nat, frames: seq<Frame>)
    requires k == n <= |lines| && frames == []
    ensures FramesOf(lines, k, n, frames)
  {
  }

  lemma OneFrameMore(lines: seq<string>, k: nat, n: nat, f: Frame, rest: seq<Frame>)
    requires k < n <= |lines| && f.line == k + 1 && FrameOf(lines, f) && FramesOf(lines, k + 1, n, rest)
    ensures FramesOf(lines, k, n, [f] + rest)
  {
    hide LineText, Given, DATA;
    assert LineText(lines, k) == DATA + f.data;
    assert ([f] + rest)[1..] == rest;
  }

  lemma {:induction false} ScansFrom(lines: seq<string>, k: nat, p: Pending) returns (n: nat)
    requires k <= |lines| && HoldsAt(lines, k, p)
    ensures ReadUpTo(lines, k, n, ScanLines(lines, k, p))
    decreases |lines| - k
  {
    hide *;
    ScanCases(lines, k, p);
    if k == |lines| || !FitsLine(lines[k]) {
      n := k;
      NoFrames(lines, k, k, ScanLines(lines, k, p).frames);
      ReadNothing(lines, k, ScanLines(lines, k, p));
    } else {
      var s := LineText(lines, k);
      HoldsNext(lines, k, p);
      n := ScansFrom(lines, k + 1, Next(p, s));
      CompletedSays(p, s, k + 1);
      ReadMore(lines, k, n, p, Completed(p, s, k + 1), ScanLines(lines, k + 1, Next(p, s)), ScanLines(lines, k, p));
    }
  }

  lemma ScanCases(lines: seq<string>, k: nat, p: Pending)
    requires k <= |lines|
    ensures k == |lines| ==> ScanLines(lines, k, p) == Scanned([], true)
    ensures k < |lines| && !FitsLine(lines[k]) ==> ScanLines(lines, k, p) == Scanned([], false)
    ensures k < |lines| && FitsLine(lines[k]) ==>
              var s := LineText(lines, k);
              var rest := ScanLines(lines, k + 1, Next(p, s));
              ScanLines(lines, k, p) == Scanned(Completed(p, s, k + 1) + rest.frames, rest.ok)
  {
    hide TrimCrs, Next, Completed;
  }

  lemma ReadNothing(lines: seq<string>, k: nat, r: Scanned)
    requires k <= |lines| && FramesOf(lines, k, k, r.frames) && (k < |lines| ==> !FitsLine(lines[k])) && (r.ok <==> k == |lines|)
    ensures ReadUpTo(lines, k, k, r)
  {
    hide FramesOf, FitsLine;
  }

  lemma ReadMore(lines: seq<string>, k: nat, n: nat, p: Pending, own: seq<Frame>, rest: Scanned, r: Scanned)
    requires k < |lines| && FitsLine(lines[k]) && HoldsAt(lines, k, p) && ReadUpTo(lines, k + 1, n, rest)
    requires if DATA <= LineText(lines, k) then
               exists f :: own == [f] && f.line == k + 1 && f.name == p.name && f.ts == p.ts && LineText(lines, k) == DATA + f.data
             else own == []
    requires r == Scanned(own + rest.frames, rest.ok)
    ensures ReadUpTo(lines, k, n, r)
  {
    hide FitsLine, LineText, Given, DATA, TS, EVENT, FramesOf;
    if DATA <= LineText(lines, k) {
      var f :| own == [f] && f.line == k + 1 && f.name == p.name && f.ts == p.ts && LineText(lines, k) == DATA + f.data;
      assert FrameOf(lines, f);
      OneFrameMore(lines, k, n, f, rest.frames);
    } else {
      assert [] + rest.frames == rest.frames;
      SameFrames(lines, k, n, rest.frames);
    }
  }

  lemma SameFrames(lines: seq<string>, k: nat, n: nat, frames: seq<Frame>)
    requires k < n <= |lines|
    requires !(DATA <= LineText(lines, k)) && FramesOf(lines, k + 1, n, frames)
    ensures FramesOf(lines, k, n, frames)
  {
    hide LineText, FrameOf, DATA;
  }

  /** Whatever the lines: they are read up to the first that is too long, or all of them. Each data
      line read gives one frame, in order, with what stands behind its mark, and with the name and
      the time that the last such line gave since the frame before it or an empty line. */
  lemma ScanReads(lines: seq<string>) returns (n: nat)
    ensures ReadUpTo(lines, 0, n, ScanLines(lines, 0, NOTHING))
  {
    assert NoneSince(lines, 0, EVENT) && NoneSince(lines, 0, TS);
    hide ScanLines, ReadUpTo, NoneSince;
    assert Given(lines, 0, EVENT, "") && Given(lines, 0, TS, "");
    n := ScansFrom(lines, 0, NOTHING);
  }
}
