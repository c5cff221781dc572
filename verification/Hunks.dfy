/** One hunk of an apply_patch text: its context block and its changes. */
module Hunks {
  import opened Wrappers
  import opened Lines

  /** del are the removed lines, which the context block holds from origIndex on. */
  datatype PatchChunk = PatchChunk(origIndex: int, del: seq<string>, ins: seq<string>)

  datatype Hunk = Hunk(context: seq<string>, chunks: seq<PatchChunk>, eof: bool)

  // ---- Markers ----

  const BEGIN := "*** Begin Patch"
  const END := "*** End Patch"
  const ADD := "*** Add File: "
  const UPDATE := "*** Update File: "
  const DELETE := "*** Delete File: "
  const MOVE := "*** Move to: "
  const END_FILE := "*** End of File"

  /** The line begins with a section marker, whose trailing space does not count. */
  predicate StopsAdd(line: string)
  {
    END <= line || UPDATE[..|UPDATE| - 1] <= line || DELETE[..|DELETE| - 1] <= line || ADD[..|ADD| - 1] <= line
  }

  predicate StopsUpdate(line: string) { StopsAdd(line) || END_FILE <= line }

  predicate StopsHunk(line: string) { line == "" || "@@" <= line || StopsUpdate(line) || line == "***" }

  predicate BadLine(line: string) { !StopsHunk(line) && "***" <= line }

  // ---- What a patch line says ----

  datatype Mark = Keep | Insert | Remove

  function MarkOf(line: string): Mark
  {
    if line != "" && line[0] == '+' then Insert else if line != "" && line[0] == '-' then Remove else Keep
  }

  /** The line without its mark; a line without a mark is context as it stands. */
  function TextOf(line: string): string
  {
    if line != "" && (line[0] == '+' || line[0] == '-' || line[0] == ' ') then line[1..] else line
  }

  /** The lines that the file must have. */
  function OldSide(body: seq<string>): seq<string>
  {
    if body == [] then []
    else
      var l := body[|body| - 1];
      OldSide(body[..|body| - 1]) + if MarkOf(l) == Insert then [] else [TextOf(l)]
  }

  /** The lines that the file gets. */
  function NewSide(body: seq<string>): seq<string>
  {
    if body == [] then []
    else
      var l := body[|body| - 1];
      NewSide(body[..|body| - 1]) + if MarkOf(l) == Remove then [] else [TextOf(l)]
  }

  function Grow(c: PatchChunk, line: string): PatchChunk
  {
    if MarkOf(line) == Remove then c.(del := c.del + [TextOf(line)]) else c.(ins := c.ins + [TextOf(line)])
  }

  predicate InRun(body: seq<string>) { body != [] && MarkOf(body[|body| - 1]) != Keep }

  function ChangesStep(body: seq<string>, before: seq<PatchChunk>, line: string): seq<PatchChunk>
  {
    if MarkOf(line) == Keep then before
    else if InRun(body) && before != [] then before[..|before| - 1] + [Grow(before[|before| - 1], line)]
    else before + [Grow(PatchChunk(|OldSide(body)|, [], []), line)]
  }

  /** One chunk for each maximal run of lines that are not context. */
  function Changes(body: seq<string>): seq<PatchChunk>
  {
    if body == [] then [] else ChangesStep(body[..|body| - 1], Changes(body[..|body| - 1]), body[|body| - 1])
  }

  // ---- Well-formed hunks ----

  predicate ChunkInBlock(context: seq<string>, c: PatchChunk)
  {
    && 0 <= c.origIndex && c.origIndex + |c.del| <= |context|
    && context[c.origIndex..c.origIndex + |c.del|] == c.del
    && (c.del != [] || c.ins != [])
  }

  /** A kept line separates chunk k from the one before it. */
  predicate SeparatedAt(chunks: seq<PatchChunk>, k: nat)
    requires k < |chunks|
  {
    k > 0 ==> chunks[k - 1].origIndex + |chunks[k - 1].del| < chunks[k].origIndex
  }

  predicate WellFormed(context: seq<string>, chunks: seq<PatchChunk>)
  {
    && (forall k | 0 <= k < |chunks| :: ChunkInBlock(context, chunks[k]))
    && (forall k | 0 <= k < |chunks| :: SeparatedAt(chunks, k))
  }

  // ---- Applying chunks to lines ----

  /** The chunks start within the file, in order, none before the end of its predecessor. */
  predicate Fits(length: nat, cur: nat, chunks: seq<PatchChunk>)
    decreases |chunks|
  {
    chunks == [] ||
    (cur <= chunks[0].origIndex <= length && Fits(length, chunks[0].origIndex + |chunks[0].del|, chunks[1..]))
  }

  /** The file from line cur on, with the chunks applied. */
  function Applied(file: seq<string>, cur: nat, chunks: seq<PatchChunk>): seq<string>
    requires Fits(|file|, cur, chunks)
    decreases |chunks|
  {
    if chunks == [] then From(file, cur)
    else file[cur..chunks[0].origIndex] + chunks[0].ins + Applied(file, chunks[0].origIndex + |chunks[0].del|, chunks[1..])
  }

  ghost predicate AppliesTo(file: seq<string>, cur: nat, chunks: seq<PatchChunk>, result: seq<string>)
  {
    Fits(|file|, cur, chunks) && Applied(file, cur, chunks) == result
  }

  /** Where the last chunk ends. */
  function EndOf(cur: nat, chunks: seq<PatchChunk>): int
  {
    if chunks == [] then cur else chunks[|chunks| - 1].origIndex + |chunks[|chunks| - 1].del|
  }

  lemma AppliedCons(file: seq<string>, cur: nat, chunks: seq<PatchChunk>)
    requires chunks != [] && Fits(|file|, cur, chunks)
    ensures var c := chunks[0];
            && cur <= c.origIndex <= |file| && Fits(|file|, c.origIndex + |c.del|, chunks[1..])
            && Applied(file, cur, chunks) == file[cur..c.origIndex] + c.ins + Applied(file, c.origIndex + |c.del|, chunks[1..])
  {
  }

  lemma ConsApplied(file: seq<string>, cur: nat, chunks: seq<PatchChunk>, result: seq<string>)
    requires chunks != [] && cur <= chunks[0].origIndex <= |file|
    requires AppliesTo(file, chunks[0].origIndex + |chunks[0].del|, chunks[1..], result)
    ensures AppliesTo(file, cur, chunks, file[cur..chunks[0].origIndex] + chunks[0].ins + result)
  {
  }

  lemma AppliedNone(file: seq<string>, cur: nat)
    requires cur <= |file|
    ensures Fits(|file|, cur, []) && Applied(file, cur, []) == file[cur..] && AppliesTo(file, cur, [], file[cur..])
  {
  }

  /** One more line behind everything. */
  lemma {:induction false} AppliedLine(file: seq<string>, cur: nat, chunks: seq<PatchChunk>, line: string)
    requires Fits(|file|, cur, chunks) && EndOf(cur, chunks) <= |file| && cur <= |file|
    ensures AppliesTo(file + [line], cur, chunks, Applied(file, cur, chunks) + [line])
    decreases |chunks|
  {
    hide *;
    var file' := file + [line];
    if chunks == [] {
      AppliedNone(file, cur);
      AppliedNone(file', cur);
      assert file'[cur..] == file[cur..] + [line];
    } else {
      var c := chunks[0];
      AppliedCons(file, cur, chunks);
      EndLater(cur, chunks);
      EndWithin(|file|, c.origIndex + |c.del|, chunks[1..]);
      AppliedLine(file, c.origIndex + |c.del|, chunks[1..], line);
      var rest := Applied(file, c.origIndex + |c.del|, chunks[1..]);
      ConsApplied(file', cur, chunks, rest + [line]);
      assert file'[cur..c.origIndex] == file[cur..c.origIndex];
      Assoc(file[cur..c.origIndex] + c.ins, rest, [line]);
    }
  }

  lemma EndLater(cur: nat, chunks: seq<PatchChunk>)
    requires chunks != []  && chunks[0].origIndex >= 0
    ensures EndOf(cur, chunks) == EndOf(chunks[0].origIndex + |chunks[0].del|, chunks[1..])
  {
  }

  lemma {:induction false} EndWithin(length: nat, cur: nat, chunks: seq<PatchChunk>)
    requires Fits(length, cur, chunks)
    ensures cur <= EndOf(cur, chunks)
    decreases |chunks|
  {
    if chunks != [] {
      EndLater(cur, chunks);
      EndWithin(length, chunks[0].origIndex + |chunks[0].del|, chunks[1..]);
    }
  }

  /** One more chunk at the very end of the file. */
  lemma {:induction false} AppliedChunk(file: seq<string>, cur: nat, chunks: seq<PatchChunk>, tail: seq<string>, c: PatchChunk)
    requires Fits(|file|, cur, chunks) && EndOf(cur, chunks) <= |file| && cur <= |file|
    requires c.origIndex == |file| && |c.del| == |tail|
    ensures AppliesTo(file + tail, cur, chunks + [c], Applied(file, cur, chunks) + c.ins)
    decreases |chunks|
  {
    hide *;
    var file' := file + tail;
    if chunks == [] {
      AppliedNone(file, cur);
      AppliedNone(file', |file'|);
      assert (chunks + [c])[1..] == [] && chunks + [c] == [c];
      ConsApplied(file', cur, [c], []);
      assert file'[cur..|file|] == file[cur..];
      assert file[cur..] + c.ins + [] == file[cur..] + c.ins;
    } else {
      var d := chunks[0];
      AppliedCons(file, cur, chunks);
      EndLater(cur, chunks);
      EndWithin(|file|, d.origIndex + |d.del|, chunks[1..]);
      AppliedChunk(file, d.origIndex + |d.del|, chunks[1..], tail, c);
      assert (chunks + [c])[1..] == chunks[1..] + [c] && (chunks + [c])[0] == d;
      var rest := Applied(file, d.origIndex + |d.del|, chunks[1..]);
      ConsApplied(file', cur, chunks + [c], rest + c.ins);
      assert file'[cur..d.origIndex] == file[cur..d.origIndex];
      Assoc(file[cur..d.origIndex] + d.ins, rest, c.ins);
    }
  }

  // ---- The chunks of a hunk ----

  /** Where the run of changed lines at the end begins. */
  function RunStart(body: seq<string>): (n: nat)
    ensures n <= |body| && !InRun(body[..n]) && (InRun(body) ==> n < |body|)
  {
    if InRun(body) then RunStart(body[..|body| - 1]) else |body|
  }

  /** The last chunk c is the run at the end: nothing of it shows in what comes before. */
  ghost predicate LastRun(body: seq<string>, pre: seq<string>)
  {
    var cs := Changes(body);
    && cs != []
    && var c := cs[|cs| - 1];
    && cs == Changes(pre) + [c] && c.origIndex == |OldSide(pre)|
    && OldSide(body) == OldSide(pre) + c.del && NewSide(body) == NewSide(pre) + c.ins && (c.del != [] || c.ins != [])
  }

  lemma {:induction false} LastRunIs(body: seq<string>)
    requires InRun(body)
    ensures LastRun(body, body[..RunStart(body)])
    decreases |body|
  {
    var init, line := body[..|body| - 1], body[|body| - 1];
    var pre := body[..RunStart(body)];
    assert init[..RunStart(init)] == pre;
    if InRun(init) {
      LastRunIs(init);
      GrowRun(body, init, pre);
    } else {
      assert pre == init;
      assert OldSide(init) + [] == OldSide(init) && NewSide(init) + [] == NewSide(init);
    }
  }

  lemma GrowRun(body: seq<string>, init: seq<string>, pre: seq<string>)
    requires body != [] && init == body[..|body| - 1] && InRun(body) && InRun(init) && LastRun(init, pre)
    ensures LastRun(body, pre)
  {
    var line, cs := body[|body| - 1], Changes(init);
    var p, c := Changes(pre), cs[|cs| - 1];
    GrowStep(init, p, c, line);
    UnfoldSides(body);
    hide Changes, InRun, OldSide, NewSide, ChangesStep, TextOf;
    GrowSides(OldSide(pre), NewSide(pre), c, line);
  }

  lemma UnfoldSides(body: seq<string>)
    requires body != []
    ensures var init, line := body[..|body| - 1], body[|body| - 1];
            && Changes(body) == ChangesStep(init, Changes(init), line)
            && OldSide(body) == OldSide(init) + (if MarkOf(line) == Insert then [] else [TextOf(line)])
            && NewSide(body) == NewSide(init) + (if MarkOf(line) == Remove then [] else [TextOf(line)])
  {
  }

  lemma GrowStep(init: seq<string>, p: seq<PatchChunk>, c: PatchChunk, line: string)
    requires InRun(init) && MarkOf(line) != Keep
    ensures ChangesStep(init, p + [c], line) == p + [Grow(c, line)]
  {
    hide TextOf, Grow;
    assert (p + [c])[..|p|] == p;
  }

  lemma GrowSides(old': seq<string>, new': seq<string>, c: PatchChunk, line: string)
    requires MarkOf(line) != Keep
    ensures (old' + c.del) + (if MarkOf(line) == Insert then [] else [TextOf(line)]) == old' + Grow(c, line).del
    ensures (new' + c.ins) + (if MarkOf(line) == Remove then [] else [TextOf(line)]) == new' + Grow(c, line).ins
    ensures Grow(c, line).origIndex == c.origIndex && (Grow(c, line).del != [] || Grow(c, line).ins != [])
  {
    hide TextOf;
  }

  /** The chunks of any hunk body are well formed, and applying them to its old side gives
      exactly its new side. */
  ghost predicate ChangesOk(body: seq<string>)
  {
    var old', cs := OldSide(body), Changes(body);
    && WellFormed(old', cs) && AppliesTo(old', 0, cs, NewSide(body))
    && EndOf(0, cs) <= |old'| && (!InRun(body) && cs != [] ==> EndOf(0, cs) < |old'|)
  }

  lemma KeepLine(body: seq<string>, init: seq<string>)
    requires body != [] && init == body[..|body| - 1] && !InRun(body) && ChangesOk(init)
    ensures ChangesOk(body)
  {
    var line, old', cs := TextOf(body[|body| - 1]), OldSide(init), Changes(init);
    UnfoldSides(body);
    assert Changes(body) == cs && OldSide(body) == old' + [line] && NewSide(body) == NewSide(init) + [line] by {
      hide OldSide, NewSide, Changes, TextOf;
    }
    hide *;
    ChangesSay(init);
    AppliedLine(old', 0, cs, line);
    InBlocks(old', [line], cs);
    SayChanges(body);
  }

  lemma ChangesSay(body: seq<string>)
    requires ChangesOk(body)
    ensures var old', cs := OldSide(body), Changes(body);
            && WellFormed(old', cs) && Fits(|old'|, 0, cs) && Applied(old', 0, cs) == NewSide(body)
            && EndOf(0, cs) <= |old'| && (!InRun(body) && cs != [] ==> EndOf(0, cs) < |old'|)
  {
    hide OldSide, NewSide, Changes, WellFormed, Applied, Fits, InRun;
  }

  lemma SayChanges(body: seq<string>)
    requires var old', cs := OldSide(body), Changes(body);
             && WellFormed(old', cs) && AppliesTo(old', 0, cs, NewSide(body))
             && EndOf(0, cs) <= |old'| && (!InRun(body) && cs != [] ==> EndOf(0, cs) < |old'|)
    ensures ChangesOk(body)
  {
    hide OldSide, NewSide, Changes, WellFormed, Applied, Fits, InRun, AppliesTo;
  }

  lemma InBlocks(a: seq<string>, b: seq<string>, cs: seq<PatchChunk>)
    requires WellFormed(a, cs)
    ensures WellFormed(a + b, cs)
  {
    hide ChunkInBlock;
    forall k | 0 <= k < |cs| ensures ChunkInBlock(a + b, cs[k]) {
      Prefixes(a, b, cs[k]);
    }
  }

  lemma Prefixes(a: seq<string>, b: seq<string>, c: PatchChunk)
    requires ChunkInBlock(a, c)
    ensures ChunkInBlock(a + b, c)
  {
    assert (a + b)[c.origIndex..c.origIndex + |c.del|] == a[c.origIndex..c.origIndex + |c.del|];
  }

  lemma RunAdded(body: seq<string>, pre: seq<string>)
    requires InRun(body) && !InRun(pre) && LastRun(body, pre) && ChangesOk(pre)
    ensures ChangesOk(body)
  {
    var old', cs := OldSide(pre), Changes(pre);
    var all := Changes(body);
    LastRunSays(body, pre);
    var c := all[|all| - 1];
    hide *;
    ChangesSay(pre);
    AppliedChunk(old', 0, cs, c.del, c);
    RunInBlock(old', cs, c);
    SayChanges(body);
  }

  lemma LastRunSays(body: seq<string>, pre: seq<string>)
    requires LastRun(body, pre)
    ensures var cs := Changes(body);
            && cs != []
            && var c := cs[|cs| - 1];
            && cs == Changes(pre) + [c] && c.origIndex == |OldSide(pre)| && EndOf(0, cs) == |OldSide(body)|
            && OldSide(body) == OldSide(pre) + c.del && NewSide(body) == NewSide(pre) + c.ins && (c.del != [] || c.ins != [])
  {
    hide OldSide, NewSide, Changes;
  }

  lemma RunInBlock(a: seq<string>, cs: seq<PatchChunk>, c: PatchChunk)
    requires WellFormed(a, cs) && c.origIndex == |a| && (c.del != [] || c.ins != [])
    requires cs != [] ==> EndOf(0, cs) < |a|
    ensures WellFormed(a + c.del, cs + [c])
  {
    InBlocks(a, c.del, cs);
    assert (a + c.del)[|a|..|a| + |c.del|] == c.del;
    var all := cs + [c];
    assert ChunkInBlock(a + c.del, c);
    hide ChunkInBlock;
    forall k | 0 <= k < |all| ensures ChunkInBlock(a + c.del, all[k]) && SeparatedAt(all, k) {
      if k < |cs| {
        assert SeparatedAt(cs, k);
      }
    }
  }

  lemma {:induction false} ChangesAreOk(body: seq<string>)
    ensures ChangesOk(body)
    decreases |body|
  {
    if body == [] {
      assert Fits(0, 0, []);
    } else if InRun(body) {
      hide ChangesOk, LastRun;
      LastRunIs(body);
      ChangesAreOk(body[..RunStart(body)]);
      RunAdded(body, body[..RunStart(body)]);
    } else {
      hide ChangesOk;
      ChangesAreOk(body[..|body| - 1]);
      KeepLine(body, body[..|body| - 1]);
    }
  }

  // ---- Reading a hunk ----

  /** Where the hunk that begins at i ends. */
  function HunkEnd(lines: seq<string>, i: nat): (n: nat)
    requires i <= |lines|
    ensures i <= n <= |lines|
    ensures forall k | i <= k < n :: !StopsHunk(lines[k]) && !BadLine(lines[k])
    ensures n < |lines| ==> StopsHunk(lines[n]) || BadLine(lines[n])
    decreases |lines| - i
  {
    if i == |lines| || StopsHunk(lines[i]) || BadLine(lines[i]) then i else HunkEnd(lines, i + 1)
  }

  /** The hunk that begins at line i, and the line after it. */
  function HunkAt(lines: seq<string>, i: nat): Result<(Hunk, nat), string>
    requires i <= |lines|
  {
    var n := HunkEnd(lines, i);
    if n < |lines| && BadLine(lines[n]) then Failure("Invalid line: " + lines[n])
    else
      var eof := n < |lines| && lines[n] == END_FILE;
      Success((Hunk(OldSide(lines[i..n]), Changes(lines[i..n]), eof), if eof then n + 1 else n))
  }

  lemma SidesOf(body: seq<string>, line: string)
    ensures OldSide(body + [line]) == OldSide(body) + if MarkOf(line) == Insert then [] else [TextOf(line)]
    ensures Changes(body + [line]) == ChangesStep(body, Changes(body), line)
  {
    assert (body + [line])[..|body|] == body;
  }

  /** The chunk that the run at the end would become. */
  function Pending(at: nat, del: seq<string>, ins: seq<string>): seq<PatchChunk>
  {
    if del != [] || ins != [] then [PatchChunk(at - |del|, del, ins)] else []
  }

  ghost predicate ReadSoFar(body: seq<string>, context: seq<string>, chunks: seq<PatchChunk>,
                            del: seq<string>, ins: seq<string>, mode: Mark)
  {
    && context == OldSide(body) && Changes(body) == chunks + Pending(|context|, del, ins)
    && (mode == Keep ==> del == [] && ins == []) && (InRun(body) <==> mode != Keep)
    && (mode != Keep ==> del != [] || ins != [])
  }

  lemma ReadKeep(body: seq<string>, line: string, context: seq<string>, chunks: seq<PatchChunk>,
                 del: seq<string>, ins: seq<string>, mode: Mark)
    requires ReadSoFar(body, context, chunks, del, ins, mode) && MarkOf(line) == Keep
    ensures ReadSoFar(body + [line], context + [TextOf(line)], chunks + Pending(|context|, del, ins), [], [], Keep)
    ensures mode == Keep ==> del == [] && ins == []
    ensures Pending(|context|, [], []) == [] && chunks + [] == chunks
  {
    SidesOf(body, line);
    var all := chunks + Pending(|context|, del, ins);
    assert all + [] == all;
  }

  lemma ReadChange(body: seq<string>, line: string, context: seq<string>, chunks: seq<PatchChunk>,
                   del: seq<string>, ins: seq<string>, mode: Mark)
    requires ReadSoFar(body, context, chunks, del, ins, mode) && MarkOf(line) != Keep
    ensures if MarkOf(line) == Remove
            then ReadSoFar(body + [line], context + [TextOf(line)], chunks, del + [TextOf(line)], ins, Remove)
            else ReadSoFar(body + [line], context, chunks, del, ins + [TextOf(line)], Insert)
  {
    SidesOf(body, line);
    hide Changes, OldSide;
    assert context + [] == context;
    assert InRun(body + [line]);
    if mode == Keep {
      assert chunks + [] == chunks;
    } else {
      var all := Changes(body);
      assert all[..|all| - 1] == chunks;
    }
  }

  lemma ReadStart(lines: seq<string>, i: nat)
    requires i <= |lines|
    ensures ReadSoFar(lines[i..i], [], [], [], [], Keep)
  {
  }

  lemma EndHere(lines: seq<string>, i: nat)
    requires i <= |lines|
    ensures i < |lines| && !StopsHunk(lines[i]) && "***" <= lines[i] ==> HunkEnd(lines, i) == i && BadLine(lines[i])
    ensures i < |lines| && !StopsHunk(lines[i]) && !("***" <= lines[i]) ==> HunkEnd(lines, i) == HunkEnd(lines, i + 1)
    ensures i == |lines| || StopsHunk(lines[i]) ==> HunkEnd(lines, i) == i && (i < |lines| ==> !BadLine(lines[i]))
  {
  }

  lemma ReadDone(lines: seq<string>, i: nat, n: nat, context: seq<string>, chunks: seq<PatchChunk>,
                 del: seq<string>, ins: seq<string>, mode: Mark)
    requires i <= n <= |lines| && HunkEnd(lines, i) == n && (n < |lines| ==> !BadLine(lines[n]))
    requires ReadSoFar(lines[i..n], context, chunks, del, ins, mode)
    ensures var eof := n < |lines| && lines[n] == END_FILE;
            HunkAt(lines, i) == Success((Hunk(context, chunks + Pending(|context|, del, ins), eof), if eof then n + 1 else n))
  {
    hide HunkEnd, OldSide, Changes, BadLine;
  }

  lemma BadHunk(lines: seq<string>, i: nat, n: nat)
    requires i <= n < |lines| && HunkEnd(lines, i) == n && BadLine(lines[n])
    ensures HunkAt(lines, i) == Failure("Invalid line: " + lines[n])
  {
    hide HunkEnd, OldSide, Changes, BadLine;
  }

  lemma PendingIs(at: nat, del: seq<string>, ins: seq<string>, chunks: seq<PatchChunk>)
    ensures Pending(at, del, ins) == if del != [] || ins != [] then [PatchChunk(at - |del|, del, ins)] else []
    ensures chunks + [] == chunks
  {
  }

  /** Reads one hunk: context block and chunks, up to the line that ends it. */
  method Peek(lines: seq<string>, initialIndex: nat) returns (r: Result<(Hunk, nat), string>)
    requires initialIndex <= |lines|
    ensures r == HunkAt(lines, initialIndex)
  {
    hide *;
    var index := initialIndex;
    var context: seq<string>, del: seq<string>, ins: seq<string> := [], [], [];
    var chunks: seq<PatchChunk> := [];
    var mode := Keep;
    ReadStart(lines, index);
    while index < |lines| && !StopsHunk(lines[index])
      invariant initialIndex <= index <= |lines|
      invariant HunkEnd(lines, initialIndex) == HunkEnd(lines, index)
      invariant ReadSoFar(lines[initialIndex..index], context, chunks, del, ins, mode)
    {
      var line := lines[index];
      ghost var body := lines[initialIndex..index];
      EndHere(lines, index);
      if "***" <= line {
        BadHunk(lines, initialIndex, index);
        return Failure("Invalid line: " + line);
      }
      assert body + [line] == lines[initialIndex..index + 1];
      if MarkOf(line) == Keep {
        ReadKeep(body, line, context, chunks, del, ins, mode);
        PendingIs(|context|, del, ins, chunks);
        if mode != Keep {
          if ins != [] || del != [] {
            chunks := chunks + [PatchChunk(|context| - |del|, del, ins)];
          }
          del, ins := [], [];
        }
        context := context + [TextOf(line)];
        mode := Keep;
      } else {
        ReadChange(body, line, context, chunks, del, ins, mode);
        if MarkOf(line) == Remove {
          mode, del, context := Remove, del + [TextOf(line)], context + [TextOf(line)];
        } else {
          mode, ins := Insert, ins + [TextOf(line)];
        }
      }
      index := index + 1;
    }
    EndHere(lines, index);
    ReadDone(lines, initialIndex, index, context, chunks, del, ins, mode);
    PendingIs(|context|, del, ins, chunks);
    if ins != [] || del != [] {
      chunks := chunks + [PatchChunk(|context| - |del|, del, ins)];
    }
    if index < |lines| && lines[index] == END_FILE {
      return Success((Hunk(context, chunks, true), index + 1));
    }
    return Success((Hunk(context, chunks, false), index));
  }
}
