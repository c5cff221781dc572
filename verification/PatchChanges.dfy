/** From an apply_patch text to the changed files: all of it, or none. */
module PatchChanges {
  import opened Wrappers
  import opened Lines
  import opened Anchor
  import opened Hunks
  import opened HunkText
  import opened LineEndings
  import opened BlockSearch
  import opened LineByLine
  import Parser = PatchParser
  import opened PatchParser

  // ---- The patch text ----

  /** The lines of the input, each without one CR at its end. */
  function RawLines(input: string): (r: seq<string>)
    ensures r != [] && forall k | 0 <= k < |r| :: NoLf(r[k])
  {
    var lines := SplitLf(input);
    seq(|lines|, k requires 0 <= k < |lines| => WithoutCr(lines[k]))
  }

  predicate IsWrapper(line: string)
  {
    Trim(line) != "" && ("%%bash" <= line || "apply_patch" <= line || "EOF" <= line || "```" <= line)
  }

  function FirstBegin(lines: seq<string>, i: nat): (r: nat)
    requires i <= |lines|
    ensures i <= r <= |lines| && (r < |lines| ==> BEGIN <= lines[r])
    ensures forall k | i <= k < r :: !(BEGIN <= lines[k])
    decreases |lines| - i
  {
    if i == |lines| || BEGIN <= lines[i] then i else FirstBegin(lines, i + 1)
  }

  /** One more than the last line that ends the patch; 0 if none does. */
  function LastEnd(lines: seq<string>, n: nat): (r: nat)
    requires n <= |lines|
    ensures r <= n && (r > 0 ==> END <= lines[r - 1])
    ensures forall k | r <= k < n :: !(END <= lines[k])
  {
    if n == 0 || END <= lines[n - 1] then n else LastEnd(lines, n - 1)
  }

  function DropFront(lines: seq<string>, drop: string -> bool): seq<string>
  {
    if lines != [] && drop(lines[0]) then DropFront(lines[1..], drop) else lines
  }

  function DropBack(lines: seq<string>, drop: string -> bool): seq<string>
  {
    if lines != [] && drop(lines[|lines| - 1]) then DropBack(lines[..|lines| - 1], drop) else lines
  }

  function Stripped(lines: seq<string>, drop: string -> bool): seq<string> { DropBack(DropFront(lines, drop), drop) }

  /** The lines from the first begin sentinel to the last end sentinel; if there are none, what
      is left without shell wrapping and blank lines around it, between sentinels. */
  function Normalized(input: string): Result<seq<string>, string>
  {
    var raw := RawLines(input);
    var b, e := FirstBegin(raw, 0), LastEnd(raw, |raw|);
    if b < |raw| || e > 0 then
      if b == |raw| || e == 0 || e - 1 < b then Failure("Invalid patch text - incomplete sentinels")
      else Success(raw[b..e])
    else Success([BEGIN] + Stripped(Stripped(raw, IsWrapper), line => line == "") + [END])
  }

  /** What is left of lines when those to be dropped are taken off both ends. */
  ghost predicate StripsTo(lines: seq<string>, drop: string -> bool, r: seq<string>)
  {
    exists lo, hi :: StripsAt(lines, drop, r, lo, hi)
  }

  ghost predicate StripsAt(lines: seq<string>, drop: string -> bool, r: seq<string>, lo: int, hi: int)
  {
    && 0 <= lo <= hi <= |lines| && r == lines[lo..hi]
    && (forall k | 0 <= k < |lines| && (k < lo || hi <= k) :: drop(lines[k]))
    && (r != [] ==> !drop(r[0]) && !drop(r[|r| - 1]))
  }

  lemma {:induction false} DropFrontIs(lines: seq<string>, drop: string -> bool) returns (lo: nat)
    ensures lo <= |lines| && DropFront(lines, drop) == lines[lo..] && (forall k | 0 <= k < lo :: drop(lines[k]))
    ensures lo < |lines| ==> !drop(lines[lo])
    decreases |lines|
  {
    if lines != [] && drop(lines[0]) {
      var rest := DropFrontIs(lines[1..], drop);
      lo := rest + 1;
      assert forall k | 0 < k < lo :: lines[k] == lines[1..][k - 1];
    } else {
      lo := 0;
    }
  }

  lemma {:induction false} DropBackIs(lines: seq<string>, drop: string -> bool) returns (hi: nat)
    ensures hi <= |lines| && DropBack(lines, drop) == lines[..hi] && (forall k | hi <= k < |lines| :: drop(lines[k]))
    ensures hi > 0 ==> !drop(lines[hi - 1])
    decreases |lines|
  {
    if lines != [] && drop(lines[|lines| - 1]) {
      hi := DropBackIs(lines[..|lines| - 1], drop);
    } else {
      hi := |lines|;
    }
  }

  lemma StrippedIs(lines: seq<string>, drop: string -> bool)
    ensures StripsTo(lines, drop, Stripped(lines, drop))
  {
    var lo := DropFrontIs(lines, drop);
    var front := lines[lo..];
    var n := DropBackIs(front, drop);
    var r := Stripped(lines, drop);
    hide DropFront, DropBack;
    forall k | lo + n <= k < |lines| ensures drop(lines[k]) {
      assert front[k - lo] == lines[k];
    }
    assert StripsAt(lines, drop, r, lo, lo + n);
  }

  /** The lines of the text, each without a CR at its end. */
  lemma RawIs(input: string)
    ensures var lines, raw := SplitLf(input), RawLines(input);
            && |raw| == |lines|
            && forall k | 0 <= k < |raw| ::
                 lines[k] == if lines[k] != "" && lines[k][|lines[k]| - 1] == CR then raw[k] + [CR] else raw[k]
  {
    hide SplitLf;
  }

  ghost predicate NoBegin(raw: seq<string>, lo: int, hi: int)
  {
    forall k | 0 <= lo <= k < hi <= |raw| :: !(BEGIN <= raw[k])
  }

  ghost predicate NoEnd(raw: seq<string>, lo: int, hi: int)
  {
    forall k | 0 <= lo <= k < hi <= |raw| :: !(END <= raw[k])
  }

  /** b is the first begin sentinel, and e, at or behind it, the last end sentinel. */
  ghost predicate FirstToLast(raw: seq<string>, b: int, e: int)
  {
    && 0 <= b <= e < |raw| && BEGIN <= raw[b] && END <= raw[e]
    && NoBegin(raw, 0, b) && NoEnd(raw, e + 1, |raw|)
  }

  ghost predicate Framed(raw: seq<string>, r: Result<seq<string>, string>)
  {
    exists b, e :: FirstToLast(raw, b, e) && r == Success(raw[b..e + 1])
  }

  ghost predicate Framable(raw: seq<string>) { exists b, e :: FirstToLast(raw, b, e) }

  ghost predicate FreeForm(raw: seq<string>, mid: seq<string>, core: seq<string>)
  {
    StripsTo(raw, IsWrapper, mid) && StripsTo(mid, line => line == "", core)
  }

  ghost predicate Freed(raw: seq<string>, r: Result<seq<string>, string>)
  {
    exists mid, core :: FreeForm(raw, mid, core) && r == Success([BEGIN] + core + [END])
  }

  /** With a sentinel somewhere, the text is what stands from its first begin to its last end, and
      is refused when that is nothing; without one, it is what wrappers and blank lines leave. */
  ghost predicate SaysNormal(raw: seq<string>, r: Result<seq<string>, string>)
  {
    if NoBegin(raw, 0, |raw|) && NoEnd(raw, 0, |raw|) then Freed(raw, r)
    else if Framable(raw) then Framed(raw, r)
    else r.Failure?
  }

  lemma NormalizedIs(input: string)
    ensures SaysNormal(RawLines(input), Normalized(input))
  {
    hide *;
    var raw := RawLines(input);
    NormalizedBy(input);
    if FirstBegin(raw, 0) < |raw| || LastEnd(raw, |raw|) > 0 {
      SentinelsSay(raw);
    } else {
      FreeFormSays(raw);
    }
  }

  function BetweenThem(raw: seq<string>): Result<seq<string>, string>
  {
    var b, e := FirstBegin(raw, 0), LastEnd(raw, |raw|);
    if b == |raw| || e == 0 || e - 1 < b then Failure("Invalid patch text - incomplete sentinels") else Success(raw[b..e])
  }

  function WithoutThem(raw: seq<string>): Result<seq<string>, string>
  {
    Success([BEGIN] + Stripped(Stripped(raw, IsWrapper), line => line == "") + [END])
  }

  lemma NormalizedBy(input: string)
    ensures var raw := RawLines(input);
            Normalized(input) == if FirstBegin(raw, 0) < |raw| || LastEnd(raw, |raw|) > 0 then BetweenThem(raw) else WithoutThem(raw)
  {
    hide RawLines, FirstBegin, LastEnd, Stripped, IsWrapper;
  }

  lemma FirstBeginIs(raw: seq<string>)
    ensures var b := FirstBegin(raw, 0); b <= |raw| && NoBegin(raw, 0, b) && (b < |raw| ==> BEGIN <= raw[b])
  {
    hide FirstBegin;
  }

  lemma LastEndIs(raw: seq<string>)
    ensures var e := LastEnd(raw, |raw|); e <= |raw| && NoEnd(raw, e, |raw|) && (e > 0 ==> END <= raw[e - 1])
  {
    hide LastEnd;
  }

  lemma FreeFormSays(raw: seq<string>)
    requires FirstBegin(raw, 0) == |raw| && LastEnd(raw, |raw|) == 0
    ensures SaysNormal(raw, WithoutThem(raw))
  {
    FirstBeginIs(raw);
    LastEndIs(raw);
    StrippedIs(raw, IsWrapper);
    StrippedIs(Stripped(raw, IsWrapper), line => line == "");
    hide Stripped, IsWrapper, BEGIN, END, FirstBegin, LastEnd, StripsTo, NoBegin, NoEnd, Framable, Framed;
    assert FreeForm(raw, Stripped(raw, IsWrapper), Stripped(Stripped(raw, IsWrapper), line => line == ""));
  }

  lemma SomeBegin(raw: seq<string>, b: nat)
    requires b < |raw| && BEGIN <= raw[b]
    ensures !NoBegin(raw, 0, |raw|)
  {
  }

  lemma SomeEnd(raw: seq<string>, e: nat)
    requires e < |raw| && END <= raw[e]
    ensures !NoEnd(raw, 0, |raw|)
  {
  }

  lemma SayFramed(raw: seq<string>, b: nat, e: nat)
    requires 0 < e <= |raw| && b <= e - 1 && BEGIN <= raw[b] && END <= raw[e - 1] && NoBegin(raw, 0, b) && NoEnd(raw, e, |raw|)
    ensures SaysNormal(raw, Success(raw[b..e]))
  {
    SomeBegin(raw, b);
    hide BEGIN, END, NoBegin, NoEnd, Freed;
    assert FirstToLast(raw, b, e - 1);
  }

  lemma SayRefused(raw: seq<string>, why: string)
    requires !(NoBegin(raw, 0, |raw|) && NoEnd(raw, 0, |raw|)) && !Framable(raw)
    ensures SaysNormal(raw, Failure(why))
  {
    hide NoBegin, NoEnd, Framable;
  }

  lemma BetweenIs(raw: seq<string>)
    ensures var b, e := FirstBegin(raw, 0), LastEnd(raw, |raw|);
            if b == |raw| || e == 0 || e - 1 < b then BetweenThem(raw) == Failure("Invalid patch text - incomplete sentinels")
            else BetweenThem(raw) == Success(raw[b..e])
  {
    hide FirstBegin, LastEnd;
  }

  lemma SentinelsSay(raw: seq<string>)
    requires FirstBegin(raw, 0) < |raw| || LastEnd(raw, |raw|) > 0
    ensures SaysNormal(raw, BetweenThem(raw))
  {
    hide *;
    FirstBeginIs(raw);
    LastEndIs(raw);
    BetweenIs(raw);
    SaysBetween(raw, FirstBegin(raw, 0), LastEnd(raw, |raw|), BetweenThem(raw));
  }

  lemma SaysBetween(raw: seq<string>, b: nat, e: nat, r: Result<seq<string>, string>)
    requires b <= |raw| && NoBegin(raw, 0, b) && (b < |raw| ==> BEGIN <= raw[b])
    requires e <= |raw| && NoEnd(raw, e, |raw|) && (e > 0 ==> END <= raw[e - 1])
    requires b < |raw| || e > 0
    requires if b == |raw| || e == 0 || e - 1 < b then r == Failure("Invalid patch text - incomplete sentinels") else r == Success(raw[b..e])
    ensures SaysNormal(raw, r)
  {
    hide *;
    if b == |raw| || e == 0 || e - 1 < b {
      NoneToLast(raw, b, e);
      if b < |raw| {
        SomeBegin(raw, b);
      } else {
        SomeEnd(raw, e - 1);
      }
      SayRefused(raw, "Invalid patch text - incomplete sentinels");
    } else {
      SayFramed(raw, b, e);
    }
  }

  lemma NoneToLast(raw: seq<string>, b: nat, e: nat)
    requires b <= |raw| && e <= |raw| && NoBegin(raw, 0, b) && NoEnd(raw, e, |raw|)
    requires (b < |raw| ==> BEGIN <= raw[b]) && (e > 0 ==> END <= raw[e - 1]) && (b == |raw| || e == 0 || e - 1 < b)
    ensures !Framable(raw)
  {
    hide BEGIN, END;
  }

  lemma NotBoth(line: string)
    ensures !(BEGIN <= line && END <= line)
  {
    assert BEGIN[4] == 'B' && END[4] == 'E';
  }

  lemma Begins(line: string)
    ensures line <= line
  {
  }

  /** What is parsed always begins and ends with a sentinel: the section of an update can
      never run off the end of the text. */
  lemma NormalizedIsBracketed(input: string)
    ensures Normalized(input).Success? ==>
              var lines := Normalized(input).value;
              |lines| >= 2 && BEGIN <= lines[0] && END <= lines[|lines| - 1]
  {
    hide RawLines, Stripped, IsWrapper;
    var raw := RawLines(input);
    var b, e := FirstBegin(raw, 0), LastEnd(raw, |raw|);
    if b < |raw| {
      NotBoth(raw[b]);
    }
    hide BEGIN, END, FirstBegin, LastEnd;
    Begins(BEGIN);
    Begins(END);
  }

  method StripLines(lines: seq<string>, drop: string -> bool) returns (r: seq<string>)
    ensures r == Stripped(lines, drop)
  {
    var start, end := 0, |lines|;
    while start < end && drop(lines[start])
      invariant 0 <= start <= end == |lines| && DropFront(lines, drop) == DropFront(lines[start..], drop)
    {
      start := start + 1;
    }
    ghost var front := lines[start..];
    assert front == lines[start..end];
    while end > start && drop(lines[end - 1])
      invariant start <= end <= |lines| && DropBack(front, drop) == DropBack(lines[start..end], drop)
    {
      assert lines[start..end][..end - 1 - start] == lines[start..end - 1];
      end := end - 1;
    }
    r := lines[start..end];
  }

  method NormalizePatchInput(input: string) returns (r: Result<seq<string>, string>)
    ensures r == Normalized(input)
  {
    hide Stripped, IsWrapper;
    var raw := RawLines(input);
    var b: nat := 0;
    while b < |raw| && !(BEGIN <= raw[b])
      invariant b <= |raw| && FirstBegin(raw, 0) == FirstBegin(raw, b)
    {
      b := b + 1;
    }
    var e: nat := |raw|;
    while e > 0 && !(END <= raw[e - 1])
      invariant e <= |raw| && LastEnd(raw, |raw|) == LastEnd(raw, e)
    {
      e := e - 1;
    }
    if b < |raw| || e > 0 {
      if b == |raw| || e == 0 || e - 1 < b {
        return Failure("Invalid patch text - incomplete sentinels");
      }
      return Success(raw[b..e]);
    }
    var stripped := StripLines(raw, IsWrapper);
    stripped := StripLines(stripped, line => line == "");
    return Success([BEGIN] + stripped + [END]);
  }

  // ---- Applying the chunks of a file ----

  /** Refuses a chunk that starts beyond the file or before the end of its predecessor. */
  method ApplyChunks(content: string, chunks: seq<PatchChunk>) returns (r: Option<string>)
    ensures r.Some? <==> chunks == [] || Fits(|SplitLf(content)|, 0, chunks)
    ensures r.Some? ==> r.value == if chunks == [] then content else Join(Applied(SplitLf(content), 0, chunks))
  {
    hide SplitLf, Join, Applied, Fits, AppliedSoFar;
    if chunks == [] {
      return Some(content);
    }
    var lines := SplitLf(content);
    var result: seq<string>, current: nat := [], 0;
    ApplyBegin(lines, chunks);
    for k := 0 to |chunks|
      invariant AppliedSoFar(lines, chunks, k, result, current)
    {
      ApplyStep(lines, chunks, k, result, current);
      var c := chunks[k];
      if c.origIndex > |lines| || current > c.origIndex {
        return None;
      }
      result := result + lines[current..c.origIndex] + c.ins;
      current := c.origIndex + |c.del|;
    }
    ApplyEnd(lines, chunks, result, current);
    return Some(Join(result + From(lines, current)));
  }

  ghost predicate AppliedSoFar(file: seq<string>, chunks: seq<PatchChunk>, k: nat, result: seq<string>, current: nat)
  {
    && k <= |chunks| && (Fits(|file|, 0, chunks) <==> Fits(|file|, current, chunks[k..]))
    && (Fits(|file|, 0, chunks) ==> Applied(file, 0, chunks) == result + Applied(file, current, chunks[k..]))
  }

  lemma ApplyBegin(file: seq<string>, chunks: seq<PatchChunk>)
    ensures AppliedSoFar(file, chunks, 0, [], 0)
  {
    assert chunks[0..] == chunks;
    if Fits(|file|, 0, chunks) {
      assert [] + Applied(file, 0, chunks) == Applied(file, 0, chunks);
    }
  }

  lemma FitsCons(length: nat, current: nat, chunks: seq<PatchChunk>)
    requires chunks != []
    ensures var c := chunks[0];
            Fits(length, current, chunks) <==>
            current <= c.origIndex <= length && Fits(length, c.origIndex + |c.del|, chunks[1..])
  {
  }

  lemma SoFarFits(file: seq<string>, chunks: seq<PatchChunk>, k: nat, result: seq<string>, current: nat)
    requires AppliedSoFar(file, chunks, k, result, current)
    ensures k <= |chunks| && (Fits(|file|, 0, chunks) <==> Fits(|file|, current, chunks[k..]))
  {
  }

  lemma SoFarNot(file: seq<string>, chunks: seq<PatchChunk>, k: nat, result: seq<string>, current: nat)
    requires k <= |chunks| && !Fits(|file|, 0, chunks) && !Fits(|file|, current, chunks[k..])
    ensures AppliedSoFar(file, chunks, k, result, current)
  {
  }

  lemma ApplyStep(file: seq<string>, chunks: seq<PatchChunk>, k: nat, result: seq<string>, current: nat)
    requires AppliedSoFar(file, chunks, k, result, current) && k < |chunks|
    ensures var c := chunks[k];
            if c.origIndex > |file| || current > c.origIndex then !Fits(|file|, 0, chunks)
            else AppliedSoFar(file, chunks, k + 1, result + file[current..c.origIndex] + c.ins, c.origIndex + |c.del|)
  {
    hide *;
    var c := chunks[k];
    assert chunks[k..][0] == c && chunks[k..][1..] == chunks[k + 1..];
    SoFarFits(file, chunks, k, result, current);
    FitsCons(|file|, current, chunks[k..]);
    if Fits(|file|, 0, chunks) {
      AppliedCons(file, current, chunks[k..]);
      var gap, rest := file[current..c.origIndex], Applied(file, c.origIndex + |c.del|, chunks[k + 1..]);
      Assoc(gap, c.ins, rest);
      Assoc(result, gap + c.ins, rest);
      Assoc(result, gap, c.ins);
      AppliedMore(file, chunks, k, result, current);
    } else if current <= c.origIndex <= |file| {
      SoFarNot(file, chunks, k + 1, result + file[current..c.origIndex] + c.ins, c.origIndex + |c.del|);
    }
  }

  lemma AppliedMore(file: seq<string>, chunks: seq<PatchChunk>, k: nat, result: seq<string>, current: nat)
    requires AppliedSoFar(file, chunks, k, result, current) && k < |chunks| && Fits(|file|, 0, chunks)
    requires var c := chunks[k];
             && 0 <= current <= c.origIndex <= |file| && Fits(|file|, c.origIndex + |c.del|, chunks[k + 1..])
             && Fits(|file|, current, chunks[k..])
             && result + Applied(file, current, chunks[k..]) ==
                result + file[current..c.origIndex] + c.ins + Applied(file, c.origIndex + |c.del|, chunks[k + 1..])
    ensures AppliedSoFar(file, chunks, k + 1, result + file[current..chunks[k].origIndex] + chunks[k].ins,
                         chunks[k].origIndex + |chunks[k].del|)
  {
    hide Fits, Applied;
  }

  lemma ApplyEnd(file: seq<string>, chunks: seq<PatchChunk>, result: seq<string>, current: nat)
    requires AppliedSoFar(file, chunks, |chunks|, result, current)
    ensures Fits(|file|, 0, chunks) && Applied(file, 0, chunks) == result + From(file, current)
  {
    assert chunks[|chunks|..] == [];
  }

  // ---- The changes ----

  datatype Change =
    | Created(newContent: string)
    | Removed(oldContent: string)
    | Rewritten(oldContent: string, newContent: string, movePath: Option<string>)

  /** A new file gets the platform's line ends, unless it brought a CR of its own. */
  function NewFile(text: string, platformCrlf: bool): string
  {
    if platformCrlf && CR !in text then JoinWith(CRLF, SplitLf(text)) else text
  }

  function LfFiles(files: Files): (r: Files)
    ensures r.Keys == files.Keys
  {
    map p | p in files :: ToLf(files[p])
  }

  /** What one action makes of a file; nothing when its chunks do not fit. */
  function ChangeOf(content: string, action: Action, platformCrlf: bool): Option<Change>
  {
    match action
    case Add(text) => Some(Created(NewFile(text, platformCrlf)))
    case Delete => Some(Removed(Restored(ToLf(content), HasCrlf(content))))
    case Update(chunks, placements, movePath) =>
      if chunks != [] && !Fits(|WorkLines(content)|, 0, chunks) then None
      else
        var lines := if chunks == [] then WorkLines(content) else Applied(WorkLines(content), 0, chunks);
        Some(Rewritten(Restored(ToLf(content), HasCrlf(content)), Restored(Join(lines), HasCrlf(content)), movePath))
  }

  function ContentOf(files: Files, path: string): string { if path in files then files[path] else "" }

  /** The changes, all of them or none. */
  ghost predicate Computed(canon: Canon, input: string, files: Files, platformCrlf: bool, r: Result<(map<string, Change>, nat), string>)
  {
    var lines := Normalized(input);
    if lines.Failure? || PatchOf(canon, lines.value, LfFiles(files)).Failure? then r.Failure?
    else
      var patch := PatchOf(canon, lines.value, LfFiles(files)).value;
      && (r.Success? <==> patch.missed == 0 && forall p | p in patch.actions :: ChangeOf(ContentOf(files, p), patch.actions[p], platformCrlf).Some?)
      && (r.Success? ==>
            && r.value.1 == patch.fuzz && r.value.0.Keys == patch.actions.Keys
            && forall p | p in patch.actions :: ChangeOf(ContentOf(files, p), patch.actions[p], platformCrlf) == Some(r.value.0[p]))
  }

  /** Applies the action to the file's content, which for the work has LF line ends. */
  method ApplyAction(content: string, action: Action, platformCrlf: bool) returns (r: Option<Change>)
    ensures r == ChangeOf(content, action, platformCrlf)
  {
    hide SplitLf, ToLf, Join, HasCrlf, Restored, Applied, Fits;
    match action
    case Add(text) =>
      r := Some(Created(NewFile(text, platformCrlf)));
    case Delete =>
      r := Some(Removed(Restored(ToLf(content), HasCrlf(content))));
    case Update(chunks, placements, movePath) =>
      JoinSplit(ToLf(content));
      var text := ApplyChunks(ToLf(content), chunks);
      if text.None? {
        return None;
      }
      r := Some(Rewritten(Restored(ToLf(content), HasCrlf(content)), Restored(text.value, HasCrlf(content)), movePath));
  }

  method ComputePatchChanges(canon: Canon, input: string, files: Files, platformCrlf: bool)
    returns (r: Result<(map<string, Change>, nat), string>)
    ensures Computed(canon, input, files, platformCrlf, r)
  {
    hide Normalized, PatchOf, ChangeOf;
    var lines := NormalizePatchInput(input);
    if lines.Failure? {
      return Failure(lines.error);
    }
    var parser := new Parser.PatchParser(canon, lines.value, LfFiles(files));
    var patch := parser.Parse();
    if patch.Failure? {
      return Failure(patch.error);
    }
    if patch.value.missed > 0 {
      return Failure("the patch cannot be anchored to the current files");
    }
    var changes := PatchToChanges(files, patch.value, platformCrlf);
    return if changes.None? then Failure("a chunk does not fit") else Success((changes.value, patch.value.fuzz));
  }

  ghost predicate AllChanged(files: Files, patch: Patch, platformCrlf: bool, changes: map<string, Change>)
    requires changes.Keys <= patch.actions.Keys
  {
    forall p | p in changes :: ChangeOf(ContentOf(files, p), patch.actions[p], platformCrlf) == Some(changes[p])
  }

  method PatchToChanges(files: Files, patch: Patch, platformCrlf: bool) returns (r: Option<map<string, Change>>)
    ensures r.Some? <==> forall p | p in patch.actions :: ChangeOf(ContentOf(files, p), patch.actions[p], platformCrlf).Some?
    ensures r.Some? ==> r.value.Keys == patch.actions.Keys && AllChanged(files, patch, platformCrlf, r.value)
  {
    hide ChangeOf;
    var changes: map<string, Change> := map[];
    var rest := patch.actions.Keys;
    while rest != {}
      invariant rest <= patch.actions.Keys && changes.Keys == patch.actions.Keys - rest
      invariant AllChanged(files, patch, platformCrlf, changes)
      decreases |rest|
    {
      var path :| path in rest;
      var change := ApplyAction(ContentOf(files, path), patch.actions[path], platformCrlf);
      if change.None? {
        return None;
      }
      changes := changes[path := change.value];
      rest := rest - {path};
    }
    return Some(changes);
  }

  // ---- All or nothing ----

  /** A whole update: the section's rounds take its lines one after the other, up to the line that
      ends it; each round's own hunk has a sound place, looked for from behind the one before; what
      they insert and delete are the texts behind the section's plus and minus signs; and the chunks are exactly those of the hunks, in order of place, those at one place in order. */
  ghost predicate WholeUpdate(canon: Canon, lines: seq<string>, i: nat, file: seq<string>, action: Action)
  {
    && action.Update? && i <= |lines|
    && var u, starts := Rounds(canon, lines, i, None, file, 0), Starts(canon, lines, i, None, file, 0);
    && u.Success? && u.value.placements == action.placements && |starts| == |action.placements|
    && (if starts == [] then u.value.next == i else starts[0] == i)
    && i <= u.value.next < |lines| && Inside(lines, i, u.value.next) && StopsUpdate(lines[u.value.next])
    && (forall k | 0 <= k < |starts| :: TookHunk(lines, starts[k], EndOfRound(starts, u.value.next, k)))
    && AllSound(canon, file, action.placements) && Chained(canon, lines, file, starts, action.placements, 0)
    && SaysInAll(lines, i, u.value.next, action.placements, u.value.fuzz)
    && InPlaceOrder(AllChunks(action.placements), action.chunks)
  }

  /** The same chunks in order of place; those at one place keep their order. */
  ghost predicate InPlaceOrder(all: seq<PatchChunk>, chunks: seq<PatchChunk>)
  {
    && SortedByPlace(chunks) && multiset(chunks) == multiset(all)
    && forall place :: ChunksAt(chunks, place) == ChunksAt(all, place)
  }

  lemma SortedInPlaceOrder(all: seq<PatchChunk>)
    ensures InPlaceOrder(all, SortByPlace(all))
  {
    SortSorts(all);
    forall place ensures ChunksAt(SortByPlace(all), place) == ChunksAt(all, place) {
      SortIsStable(all, place);
    }
  }

  lemma UpdateIsWhole(canon: Canon, lines: seq<string>, i: nat, text: string)
    requires i < |lines| && UpdateAt(canon, lines, i, text).Success? && UpdateAt(canon, lines, i, text).value.missed == 0
    ensures WholeUpdate(canon, lines, BodyOf(lines, i), SplitLf(text), UpdateAt(canon, lines, i, text).value.action)
    ensures UpdateAt(canon, lines, i, text).value.action.movePath == MoveOf(lines, i)
  {
    hide Rounds, Starts, TookHunk, AllSound, Chained, SaysInAll, SortByPlace, AllChunks, InPlaceOrder, SplitLf, PathOf, StopsUpdate, Inside;
    var start := BodyOf(lines, i);
    RoundsMoveOn(canon, lines, start, None, SplitLf(text), 0);
    RoundsStayInside(canon, lines, start, None, SplitLf(text), 0);
    RoundsTile(canon, lines, start, None, SplitLf(text), 0);
    RoundsAreSound(canon, lines, start, None, SplitLf(text), 0);
    RoundsChain(canon, lines, start, None, SplitLf(text), 0);
    RoundsSay(canon, lines, start, None, SplitLf(text), 0);
    SortedInPlaceOrder(AllChunks(Rounds(canon, lines, start, None, SplitLf(text), 0).value.placements));
  }

  /** The file is kept stretches with the removed lines between them, each removed run at its
      chunk's place, and the result is the same stretches with the inserted lines between them. */
  ghost predicate Rewoven(file: seq<string>, result: seq<string>, chunks: seq<PatchChunk>)
  {
    exists gaps: seq<seq<string>>, cuts: seq<seq<string>> :: RewovenVia(file, result, chunks, gaps, cuts)
  }

  ghost predicate RewovenVia(file: seq<string>, result: seq<string>, chunks: seq<PatchChunk>,
                             gaps: seq<seq<string>>, cuts: seq<seq<string>>)
  {
    && |gaps| == |chunks| + 1 && |cuts| == |chunks|
    && Weave(gaps, cuts) == file && Weave(gaps, Inserts(chunks)) == result
    && forall k | 0 <= k < |chunks| :: CutFits(gaps, cuts, chunks, k) && Offset(gaps, cuts, k) == chunks[k].origIndex
  }

  /** Each cut is as long as the chunk says, unless the file ends first: then nothing is behind it. */
  predicate CutFits(gaps: seq<seq<string>>, cuts: seq<seq<string>>, chunks: seq<PatchChunk>, k: nat)
    requires |cuts| == |chunks| && |gaps| == |cuts| + 1 && k < |cuts|
  {
    |cuts[k]| <= |chunks[k].del| && (|cuts[k]| < |chunks[k].del| ==> k + 1 == |cuts| && gaps[k + 1] == [])
  }

  function Inserts(chunks: seq<PatchChunk>): (r: seq<seq<string>>)
    ensures |r| == |chunks|
  {
    seq(|chunks|, k requires 0 <= k < |chunks| => chunks[k].ins)
  }

  ghost predicate WovenFrom(file: seq<string>, cur: nat, chunks: seq<PatchChunk>, gaps: seq<seq<string>>, cuts: seq<seq<string>>)
    requires Fits(|file|, cur, chunks)
  {
    && |gaps| == |chunks| + 1 && |cuts| == |chunks|
    && Weave(gaps, cuts) == From(file, cur) && Weave(gaps, Inserts(chunks)) == Applied(file, cur, chunks)
    && forall k | 0 <= k < |chunks| :: CutFits(gaps, cuts, chunks, k) && cur + Offset(gaps, cuts, k) == chunks[k].origIndex
  }

  lemma {:induction false} AppliedWeaves(file: seq<string>, cur: nat, chunks: seq<PatchChunk>)
    returns (gaps: seq<seq<string>>, cuts: seq<seq<string>>)
    requires Fits(|file|, cur, chunks)
    ensures WovenFrom(file, cur, chunks, gaps, cuts)
    decreases |chunks|
  {
    if chunks == [] {
      gaps, cuts := [From(file, cur)], [];
    } else {
      var c := chunks[0];
      var end := c.origIndex + |c.del|;
      AppliedCons(file, cur, chunks);
      if end > |file| {
        EndsThere(|file|, end, chunks[1..]);
      }
      var gs, cs := AppliedWeaves(file, end, chunks[1..]);
      var cut := if end <= |file| then file[c.origIndex..end] else file[c.origIndex..];
      gaps, cuts := [file[cur..c.origIndex]] + gs, [cut] + cs;
      hide Fits, Applied;
      WovenCons(file, cur, chunks, gs, cs, cut);
    }
  }

  /** Nothing fits behind the end. */
  lemma EndsThere(length: nat, cur: nat, chunks: seq<PatchChunk>)
    requires Fits(length, cur, chunks) && cur > length
    ensures chunks == []
  {
  }

  lemma WovenCons(file: seq<string>, cur: nat, chunks: seq<PatchChunk>, gs: seq<seq<string>>, cs: seq<seq<string>>, cut: seq<string>)
    requires chunks != [] && Fits(|file|, cur, chunks)
    requires var c := chunks[0];
             var end := c.origIndex + |c.del|;
             && cur <= c.origIndex <= |file| && Fits(|file|, end, chunks[1..]) && WovenFrom(file, end, chunks[1..], gs, cs)
             && cut == (if end <= |file| then file[c.origIndex..end] else file[c.origIndex..])
             && (end > |file| ==> chunks[1..] == [])
    ensures WovenFrom(file, cur, chunks, [file[cur..chunks[0].origIndex]] + gs, [cut] + cs)
  {
    hide *;
    var c := chunks[0];
    var end := c.origIndex + |c.del|;
    var gap := file[cur..c.origIndex];
    WovenSays(file, end, chunks[1..], gs, cs);
    AppliedCons(file, cur, chunks);
    WeaveCons(gap, gs, cut, cs);
    WeaveCons(gap, gs, c.ins, Inserts(chunks[1..]));
    CutPiece(file, cur, c.origIndex, end, cut);
    CutShort(file, c.origIndex, end, cut, chunks[1..], gs, cs);
    InsertsCons(chunks);
    CutsFit(chunks, gap, gs, cut, cs, cur);
    SayWoven(file, cur, chunks, [gap] + gs, [cut] + cs);
  }

  lemma WovenSays(file: seq<string>, cur: nat, chunks: seq<PatchChunk>, gaps: seq<seq<string>>, cuts: seq<seq<string>>)
    requires Fits(|file|, cur, chunks) && WovenFrom(file, cur, chunks, gaps, cuts)
    ensures |gaps| == |chunks| + 1 && |cuts| == |chunks|
    ensures Weave(gaps, cuts) == From(file, cur) && Weave(gaps, Inserts(chunks)) == Applied(file, cur, chunks)
    ensures forall k | 0 <= k < |chunks| :: CutFits(gaps, cuts, chunks, k) && cur + Offset(gaps, cuts, k) == chunks[k].origIndex
  {
  }

  lemma SayWoven(file: seq<string>, cur: nat, chunks: seq<PatchChunk>, gaps: seq<seq<string>>, cuts: seq<seq<string>>)
    requires Fits(|file|, cur, chunks) && |gaps| == |chunks| + 1 && |cuts| == |chunks|
    requires Weave(gaps, cuts) == From(file, cur) && Weave(gaps, Inserts(chunks)) == Applied(file, cur, chunks)
    requires forall k | 0 <= k < |chunks| :: CutFits(gaps, cuts, chunks, k) && cur + Offset(gaps, cuts, k) == chunks[k].origIndex
    ensures WovenFrom(file, cur, chunks, gaps, cuts)
  {
  }

  lemma InsertsCons(chunks: seq<PatchChunk>)
    requires chunks != []
    ensures Inserts(chunks) == [chunks[0].ins] + Inserts(chunks[1..])
  {
  }

  /** A cut is short only where the file ends, and then nothing is left for the stretch behind it. */
  lemma CutShort(file: seq<string>, at: nat, end: nat, cut: seq<string>, chunks: seq<PatchChunk>,
                 gs: seq<seq<string>>, cs: seq<seq<string>>)
    requires at <= |file| && at <= end && |gs| == |cs| + 1 && |cs| == |chunks|
    requires cut == (if end <= |file| then file[at..end] else file[at..]) && (end > |file| ==> chunks == [])
    requires Weave(gs, cs) == From(file, end)
    ensures |cut| <= end - at && (|cut| < end - at ==> cs == [] && gs[0] == [])
  {
  }

  lemma CutsFit(chunks: seq<PatchChunk>, gap: seq<string>, gs: seq<seq<string>>, cut: seq<string>, cs: seq<seq<string>>, cur: nat)
    requires chunks != [] && |cs| == |chunks| - 1 && |gs| == |cs| + 1
    requires cur + |gap| == chunks[0].origIndex
    requires |cut| <= |chunks[0].del| && (|cut| < |chunks[0].del| ==> cs == [] && gs[0] == [])
    requires forall k | 0 <= k < |cs| ::
               CutFits(gs, cs, chunks[1..], k) && chunks[0].origIndex + |chunks[0].del| + Offset(gs, cs, k) == chunks[1..][k].origIndex
    ensures forall k | 0 <= k < |chunks| ::
              CutFits([gap] + gs, [cut] + cs, chunks, k) && cur + Offset([gap] + gs, [cut] + cs, k) == chunks[k].origIndex
  {
    var gaps, cuts := [gap] + gs, [cut] + cs;
    assert gaps[1..] == gs && cuts[1..] == cs;
    forall k | 0 <= k < |chunks|
      ensures CutFits(gaps, cuts, chunks, k) && cur + Offset(gaps, cuts, k) == chunks[k].origIndex
    {
      if k > 0 {
        assert CutFits(gs, cs, chunks[1..], k - 1);
        assert Offset(gaps, cuts, k) == |gap| + |cut| + Offset(gs, cs, k - 1);
      }
    }
  }

  lemma WeaveCons(gap: seq<string>, gaps: seq<seq<string>>, part: seq<string>, parts: seq<seq<string>>)
    requires |gaps| == |parts| + 1
    ensures Weave([gap] + gaps, [part] + parts) == gap + part + Weave(gaps, parts)
  {
    assert ([gap] + gaps)[1..] == gaps && ([part] + parts)[1..] == parts;
  }

  lemma CutPiece(file: seq<string>, cur: nat, at: nat, end: nat, cut: seq<string>)
    requires cur <= at <= |file| && at <= end && cut == if end <= |file| then file[at..end] else file[at..]
    ensures file[cur..at] + cut + From(file, end) == From(file, cur)
  {
  }

  // ---- No line holds a line end ----

  ghost predicate AllNoLf(lines: seq<string>) { forall k | 0 <= k < |lines| :: NoLf(lines[k]) }

  ghost predicate InsertsNoLf(chunks: seq<PatchChunk>) { forall k | 0 <= k < |chunks| :: AllNoLf(chunks[k].ins) }

  lemma WorkNoLf(content: string)
    ensures AllNoLf(WorkLines(content))
  {
  }

  lemma {:induction false} DroppedNoLf(lines: seq<string>, drop: string -> bool)
    requires AllNoLf(lines)
    ensures AllNoLf(DropFront(lines, drop)) && AllNoLf(DropBack(lines, drop))
    decreases |lines|
  {
    hide NoLf;
    if lines != [] {
      DroppedNoLf(lines[1..], drop);
      DroppedNoLf(lines[..|lines| - 1], drop);
    }
  }

  lemma StrippedNoLf(lines: seq<string>, drop: string -> bool)
    requires AllNoLf(lines)
    ensures AllNoLf(Stripped(lines, drop))
  {
    hide AllNoLf;
    DroppedNoLf(lines, drop);
    DroppedNoLf(DropFront(lines, drop), drop);
  }

  lemma BetweenSentinels(lines: seq<string>)
    requires AllNoLf(lines)
    ensures AllNoLf([BEGIN] + lines + [END])
  {
    assert NoLf(BEGIN) && NoLf(END);
    hide NoLf;
  }

  lemma RawNoLf(input: string, b: nat, e: nat)
    requires b <= e <= |RawLines(input)|
    ensures AllNoLf(RawLines(input)) && AllNoLf(RawLines(input)[b..e])
  {
    hide NoLf;
  }

  lemma NormalizedNoLf(input: string)
    ensures Normalized(input).Success? ==> AllNoLf(Normalized(input).value)
  {
    hide AllNoLf, Stripped, IsWrapper, RawLines, FirstBegin, LastEnd, BEGIN, END;
    var raw := RawLines(input);
    var b, e := FirstBegin(raw, 0), LastEnd(raw, |raw|);
    RawNoLf(input, 0, 0);
    if b < |raw| || e > 0 {
      if b < |raw| && e > 0 && e - 1 >= b {
        RawNoLf(input, b, e);
      }
    } else {
      StrippedNoLf(raw, IsWrapper);
      StrippedNoLf(Stripped(raw, IsWrapper), line => line == "");
      BetweenSentinels(Stripped(Stripped(raw, IsWrapper), line => line == ""));
    }
  }

  lemma {:induction false} ChangesNoLf(body: seq<string>)
    requires AllNoLf(body)
    ensures InsertsNoLf(Changes(body))
    decreases |body|
  {
    if body != [] {
      ChangesNoLf(body[..|body| - 1]);
      assert NoLf(TextOf(body[|body| - 1]));
      hide NoLf, OldSide;
    }
  }

  lemma PlacedNoLf(canon: Canon, file: seq<string>, h: Hunk, hadDef: bool, cursor: nat)
    requires WellFormed(h.context, h.chunks) && InBlock(|h.context|, h.chunks) && InsertsNoLf(h.chunks)
    ensures var p := Parser.Placed(canon, file, h, hadDef, cursor); p.placed.Some? ==> InsertsNoLf(p.placed.value.chunks)
  {
    hide Parser.Placed, WellFormed, AllNoLf, BestFrom, Fits, RunsMatch;
    PlacedIsSound(canon, file, h, hadDef, cursor);
  }

  lemma RoundNoLf(canon: Canon, lines: seq<string>, i: nat, file: seq<string>, cursor: nat)
    requires i <= |lines| && AllNoLf(lines) && RoundAt(canon, lines, i, file, cursor).Success?
    ensures var p := RoundAt(canon, lines, i, file, cursor).value.placed; p.Some? ==> InsertsNoLf(p.value.chunks)
  {
    hide Parser.Placed, Sought, DefLine, NoLf, InsertsNoLf, WellFormed, Changes, OldSide;
    var at := BodyStart(lines, i);
    HunkIsOk(lines, at);
    ChangesNoLf(lines[at..HunkEnd(lines, at)]);
    PlacedNoLf(canon, file, HunkAt(lines, at).value.0, DefLine(lines, i).Some?, Sought(canon, file, DefLine(lines, i), cursor).0);
  }

  lemma {:induction false} RoundsNoLf(canon: Canon, lines: seq<string>, i: nat, last: Option<nat>, file: seq<string>, cursor: nat)
    requires i <= |lines| && AllNoLf(lines) && Rounds(canon, lines, i, last, file, cursor).Success?
    ensures InsertsNoLf(AllChunks(Rounds(canon, lines, i, last, file, cursor).value.placements))
    decreases |lines| - i, if last == Some(i) then 0 else 1
  {
    hide AllNoLf;
    if !(i < |lines| && StopsUpdate(lines[i])) {
      RoundMovesOn(canon, lines, i, file, cursor);
      var r := RoundAt(canon, lines, i, file, cursor).value;
      RoundsNoLf(canon, lines, r.next, Some(i), file, r.cursor);
      RoundNoLf(canon, lines, i, file, cursor);
      hide RoundAt;
    }
  }

  lemma WholeNoLf(canon: Canon, lines: seq<string>, i: nat, file: seq<string>, action: Action)
    requires WholeUpdate(canon, lines, i, file, action) && AllNoLf(lines)
    ensures InsertsNoLf(action.chunks)
  {
    RoundsNoLf(canon, lines, i, None, file, 0);
    hide Rounds, Starts, TookHunk, AllSound, Chained, SaysInAll, AllChunks, AllNoLf, SortedByPlace, ChunksAt, StopsUpdate, Inside;
    var all := AllChunks(action.placements);
    forall k | 0 <= k < |action.chunks| ensures AllNoLf(action.chunks[k].ins) {
      assert action.chunks[k] in multiset(action.chunks);
      assert action.chunks[k] in multiset(all);
    }
  }

  lemma {:induction false} AppliedNoLf(file: seq<string>, cur: nat, chunks: seq<PatchChunk>)
    requires Fits(|file|, cur, chunks) && AllNoLf(file) && InsertsNoLf(chunks)
    ensures AllNoLf(Applied(file, cur, chunks))
    decreases |chunks|
  {
    hide NoLf;
    if chunks != [] {
      assert AllNoLf(chunks[0].ins);
      AppliedNoLf(file, chunks[0].origIndex + |chunks[0].del|, chunks[1..]);
    }
  }

  /** In a file whose line ends are all of one kind, a kept line that has a line end before and
      after, or that ends the file before and after, comes out exactly as it was, line end and
      all. One that stops being the last gets the file's line end, and one that becomes the last
      loses it. */
  lemma KeptVerbatim(content: string, result: seq<string>, j: nat, k: nat)
    requires Uniform(content) && AllNoLf(result) && j < |result| && k < |SplitLf(content)|
    requires |WorkLines(content)| == |SplitLf(content)| && result[j] == WorkLines(content)[k]
    ensures var out, lines := SplitLf(Restored(Join(result), HasCrlf(content))), SplitLf(content);
            && |out| == |result|
            && ((j < |result| - 1 <==> k < |lines| - 1) ==> out[j] == lines[k])
            && (j < |result| - 1 && k == |lines| - 1 ==>
                  out[j] == WithoutCr(lines[k]) + if HasCrlf(content) then [CR] else [])
            && (j == |result| - 1 && k < |lines| - 1 ==> out[j] == WithoutCr(lines[k]))
  {
    RestoredLines(result, HasCrlf(content));
    JoinSplit(content);
    LinesOfToLf(SplitLf(content));
    var line, crlf := SplitLf(content)[k], HasCrlf(content);
    hide SplitLf, Restored, HasCrlf, Join, ToLf;
    if k < |SplitLf(content)| - 1 {
      OnceWithout(line, crlf);
    }
  }

  lemma OnceWithout(line: string, crlf: bool)
    requires EndsCleanly(line, crlf)
    ensures if crlf then WithoutCr(WithoutCr(line)) + [CR] == line else WithoutCr(WithoutCr(line)) == line
  {
    TwiceWithout(line);
  }

  // ---- What each section does ----

  /** The file is rewritten by the whole of the update section at line k, and moved where its
      move line says; every line that no chunk takes out is kept in its place. */
  ghost predicate UpdateDone(canon: Canon, lines: seq<string>, k: nat, content: string, change: Change)
    requires k < |lines|
  {
    exists action: Action, result: seq<string> :: Updates(canon, lines, k, content, change, action, result)
  }

  ghost predicate Updates(canon: Canon, lines: seq<string>, k: nat, content: string, change: Change,
                          action: Action, result: seq<string>)
    requires k < |lines|
  {
    var body := if k + 1 < |lines| && "*** Move to: " <= lines[k + 1] then k + 2 else k + 1;
    && WholeUpdate(canon, lines, body, WorkLines(content), action) && MovesTo(lines, k, action.movePath)
    && Rewoven(WorkLines(content), result, action.chunks) && AllNoLf(result)
    && change == Rewritten(Restored(ToLf(content), HasCrlf(content)), Restored(Join(result), HasCrlf(content)), action.movePath)
  }

  /** The new file is the lines up to the next section, without their marks, under the platform's
      line ends unless it has a CR of its own. */
  ghost predicate AddDone(lines: seq<string>, k: nat, platformCrlf: bool, change: Change)
  {
    exists texts :: AddsTexts(lines, k, texts) && change.Created? && NewText(texts, platformCrlf, change.newContent)
  }

  ghost predicate AddsTexts(lines: seq<string>, k: nat, texts: seq<string>)
  {
    && k + 1 + |texts| <= |lines|
    && (k + 1 + |texts| < |lines| ==> StopsAdd(lines[k + 1 + |texts|]))
    && forall j | 0 <= j < |texts| :: lines[k + 1 + j] == "+" + texts[j] && !StopsAdd(lines[k + 1 + j])
  }

  ghost predicate NewText(texts: seq<string>, platformCrlf: bool, content: string)
  {
    if texts == [] then content == ""
    else if platformCrlf && forall j | 0 <= j < |texts| :: CR !in texts[j] then SplitLf(content) == WithCrs(texts)
    else SplitLf(content) == texts
  }

  /** A CR at the end of each line but the last. */
  function WithCrs(lines: seq<string>): seq<string>
  {
    if |lines| <= 1 then lines else [lines[0] + "\r"] + WithCrs(lines[1..])
  }

  /** The change of its file is what the section at line k says. */
  ghost predicate DoneAs(canon: Canon, lines: seq<string>, k: nat, files: Files, platformCrlf: bool, change: Change)
    requires k < |lines| && IsHeader(lines[k])
  {
    var path := HeaderPath(lines[k]);
    if UPDATE <= lines[k] then path in files && UpdateDone(canon, lines, k, files[path], change)
    else if DELETE <= lines[k] then path in files && change == Removed(Restored(ToLf(files[path]), HasCrlf(files[path])))
    else path !in files && AddDone(lines, k, platformCrlf, change)
  }

  ghost predicate Done(canon: Canon, lines: seq<string>, k: nat, files: Files, platformCrlf: bool, changes: map<string, Change>)
    requires k < |lines| && IsHeader(lines[k])
  {
    HeaderPath(lines[k]) in changes && DoneAs(canon, lines, k, files, platformCrlf, changes[HeaderPath(lines[k])])
  }

  /** Whenever changes are returned: every section before the first end sentinel is done, each for
      a path of its own, and nothing else is. An update is done by its own hunks, all of them. */
  lemma AllOrNothing(canon: Canon, input: string, files: Files, platformCrlf: bool,
                     r: Result<(map<string, Change>, nat), string>)
    requires Computed(canon, input, files, platformCrlf, r) && r.Success?
    ensures Normalized(input).Success?
    ensures var lines := Normalized(input).value;
            && (forall k | Heads(lines, 0, k) :: Done(canon, lines, k, files, platformCrlf, r.value.0))
            && (forall j, k | Heads(lines, 0, j) && Heads(lines, 0, k) && j < k :: HeaderPath(lines[j]) != HeaderPath(lines[k]))
            && (forall p | p in r.value.0 :: HasHeader(lines, 0, p))
            && r.value.1 == FuzzFrom(canon, lines, 0, LfFiles(files))
  {
    hide *;
    var patch := PatchBehind(canon, input, files, platformCrlf, r);
    var lines := Normalized(input).value;
    NormalizedNoLf(input);
    AllDone(canon, lines, files, platformCrlf, patch, r.value.0);
    SameHeads(canon, lines, files, platformCrlf, patch, r.value.0);
    TotalFuzz(canon, lines, files, platformCrlf, patch, r.value.0);
  }

  lemma TotalFuzz(canon: Canon, lines: seq<string>, files: Files, platformCrlf: bool, patch: Patch, changes: map<string, Change>)
    requires MadeOf(canon, lines, files, platformCrlf, patch, changes)
    ensures patch.fuzz == FuzzFrom(canon, lines, 0, LfFiles(files))
  {
    hide Heads, Has, HeaderPath, HasHeader, AllChanged, FuzzFrom, LfFiles;
  }

  lemma AllDone(canon: Canon, lines: seq<string>, files: Files, platformCrlf: bool, patch: Patch, changes: map<string, Change>)
    requires MadeOf(canon, lines, files, platformCrlf, patch, changes) && AllNoLf(lines)
    ensures forall k | Heads(lines, 0, k) :: Done(canon, lines, k, files, platformCrlf, changes)
  {
    hide MadeOf, AllNoLf, Done, FirstEnd, IsHeader;
    forall k | Heads(lines, 0, k) ensures Done(canon, lines, k, files, platformCrlf, changes) {
      ReadIsDone(canon, lines, k, files, platformCrlf, patch, changes);
    }
  }

  /** The patch that was read, and that the changes were made of. */
  ghost predicate MadeOf(canon: Canon, lines: seq<string>, files: Files, platformCrlf: bool, patch: Patch, changes: map<string, Change>)
  {
    && AllRead(canon, lines, 0, LfFiles(files), Patch(map[], 0, 0), patch) && patch.missed == 0
    && changes.Keys == patch.actions.Keys && AllChanged(files, patch, platformCrlf, changes)
  }

  lemma PatchBehind(canon: Canon, input: string, files: Files, platformCrlf: bool, r: Result<(map<string, Change>, nat), string>)
    returns (patch: Patch)
    requires Computed(canon, input, files, platformCrlf, r) && r.Success?
    ensures Normalized(input).Success? && MadeOf(canon, Normalized(input).value, files, platformCrlf, patch, r.value.0)
    ensures r.value.1 == patch.fuzz
  {
    hide Normalized, PatchOf, ChangeOf, AllRead;
    var lines := Normalized(input).value;
    patch := PatchOf(canon, lines, LfFiles(files)).value;
    ReadsFromTop(canon, lines, LfFiles(files));
  }

  lemma ReadsFromTop(canon: Canon, lines: seq<string>, files: Files)
    requires PatchOf(canon, lines, files).Success?
    ensures AllRead(canon, lines, 0, files, Patch(map[], 0, 0), PatchOf(canon, lines, files).value)
  {
    hide Parsed, AllRead;
    if lines != [] && BEGIN <= lines[0] {
      ParsedReadsAll(canon, lines, 1, files, Patch(map[], 0, 0));
      BeginIsNoHeader(lines);
      AllReadFrom(canon, lines, files, Patch(map[], 0, 0), PatchOf(canon, lines, files).value);
    } else {
      ParsedReadsAll(canon, lines, 0, files, Patch(map[], 0, 0));
    }
  }

  lemma BeginIsNoHeader(lines: seq<string>)
    requires lines != [] && BEGIN <= lines[0]
    ensures forall k :: Heads(lines, 0, k) <==> Heads(lines, 1, k)
  {
    NotBoth(lines[0]);
    assert BEGIN[4] == 'B' && UPDATE[4] == 'U' && DELETE[4] == 'D' && ADD[4] == 'A';
  }

  lemma BeginCostsNothing(canon: Canon, lines: seq<string>, files: Files)
    requires lines != [] && BEGIN <= lines[0]
    ensures FuzzFrom(canon, lines, 0, files) == FuzzFrom(canon, lines, 1, files)
  {
    NotBoth(lines[0]);
    assert BEGIN[4] == 'B' && UPDATE[4] == 'U' && DELETE[4] == 'D' && ADD[4] == 'A';
    hide FuzzAt;
  }

  lemma AllReadFrom(canon: Canon, lines: seq<string>, files: Files, before: Patch, patch: Patch)
    requires lines != [] && BEGIN <= lines[0] && (forall k :: Heads(lines, 0, k) <==> Heads(lines, 1, k))
    requires AllRead(canon, lines, 1, files, before, patch)
    ensures AllRead(canon, lines, 0, files, before, patch)
  {
    BeginCostsNothing(canon, lines, files);
    hide Has, HeaderPath, IsHeader, FirstEnd, FuzzFrom;
    forall k | Heads(lines, 0, k) ensures Has(canon, lines, k, files, patch) && HeaderPath(lines[k]) !in before.actions {
      assert Heads(lines, 1, k);
    }
    forall p | p in patch.actions && p !in before.actions ensures HasHeader(lines, 0, p) {
      assert HasHeader(lines, 1, p);
      var k :| Heads(lines, 1, k) && HeaderPath(lines[k]) == p;
      assert Heads(lines, 0, k);
    }
  }

  lemma SameHeads(canon: Canon, lines: seq<string>, files: Files, platformCrlf: bool, patch: Patch, changes: map<string, Change>)
    requires MadeOf(canon, lines, files, platformCrlf, patch, changes)
    ensures forall j, k | Heads(lines, 0, j) && Heads(lines, 0, k) && j < k :: HeaderPath(lines[j]) != HeaderPath(lines[k])
    ensures forall p | p in changes :: HasHeader(lines, 0, p)
  {
    hide Heads, Has, HeaderPath, HasHeader, AllChanged;
    forall p | p in changes ensures HasHeader(lines, 0, p) {
      assert p in changes.Keys;
    }
  }

  /** What was read of a section, and the change that was made of it. */
  lemma ReadIsDone(canon: Canon, lines: seq<string>, k: nat, files: Files, platformCrlf: bool, patch: Patch, changes: map<string, Change>)
    requires MadeOf(canon, lines, files, platformCrlf, patch, changes) && AllNoLf(lines) && Heads(lines, 0, k)
    ensures Done(canon, lines, k, files, platformCrlf, changes)
  {
    HeadTaken(canon, lines, k, files, platformCrlf, patch, changes);
    var path := HeaderPath(lines[k]);
    var read := SectionAt(canon, lines, k, LfFiles(files), {}).value.1;
    hide Heads, AllNoLf, MadeOf, UpdateDone, AddDone, UpdateAt, AddAt, PathOf, Restored, HasCrlf, ToLf, ChangeOf, DoneAs;
    if UPDATE <= lines[k] {
      ReadUpdate(canon, lines, k, files, platformCrlf, read, changes[path]);
    } else if DELETE <= lines[k] {
      ReadDelete(canon, lines, k, files, platformCrlf, read, changes[path]);
    } else {
      ReadAdd(canon, lines, k, files, platformCrlf, read, changes[path]);
    }
  }

  lemma HeadTaken(canon: Canon, lines: seq<string>, k: nat, files: Files, platformCrlf: bool, patch: Patch, changes: map<string, Change>)
    requires MadeOf(canon, lines, files, platformCrlf, patch, changes) && Heads(lines, 0, k)
    ensures k < |lines| && IsHeader(lines[k])
    ensures var s, path := SectionAt(canon, lines, k, LfFiles(files), {}), HeaderPath(lines[k]);
            && s.Success? && s.value.0 == path && s.value.1.missed == 0 && path in changes
            && ChangeOf(ContentOf(files, path), s.value.1.action, platformCrlf) == Some(changes[path])
  {
    hide SectionAt, ChangeOf, HeaderPath, FirstEnd, IsHeader, LfFiles;
    assert Has(canon, lines, k, LfFiles(files), patch);
    assert HeaderPath(lines[k]) in changes.Keys;
  }

  lemma ReadUpdate(canon: Canon, lines: seq<string>, k: nat, files: Files, platformCrlf: bool, read: Read, change: Change)
    requires k < |lines| && UPDATE <= lines[k] && AllNoLf(lines) && read.missed == 0
    requires SectionAt(canon, lines, k, LfFiles(files), {}) == Success((HeaderPath(lines[k]), read))
    requires ChangeOf(ContentOf(files, HeaderPath(lines[k])), read.action, platformCrlf) == Some(change)
    ensures DoneAs(canon, lines, k, files, platformCrlf, change)
  {
    var path := PathOf(lines[k], UPDATE);
    hide AllNoLf, UpdateAt, PathOf, ChangeOf, Rewoven, WholeUpdate, WorkLines, Restored, HasCrlf, ToLf, SplitLf;
    LfFilesAre(files, path);
    UpdateIsWhole(canon, lines, k, LfFiles(files)[path]);
    WholeNoLf(canon, lines, BodyOf(lines, k), WorkLines(files[path]), read.action);
    var result := ResultOf(files[path], read.action, platformCrlf);
    MoveSays(lines, k);
    hide BodyOf, MoveOf, MovesTo, AllNoLf;
    assert Updates(canon, lines, k, files[path], change, read.action, result);
  }

  lemma ReadDelete(canon: Canon, lines: seq<string>, k: nat, files: Files, platformCrlf: bool, read: Read, change: Change)
    requires k < |lines| && !(UPDATE <= lines[k]) && DELETE <= lines[k]
    requires SectionAt(canon, lines, k, LfFiles(files), {}) == Success((HeaderPath(lines[k]), read))
    requires ChangeOf(ContentOf(files, HeaderPath(lines[k])), read.action, platformCrlf) == Some(change)
    ensures DoneAs(canon, lines, k, files, platformCrlf, change)
  {
    hide PathOf, Restored, HasCrlf, ToLf;
    LfFilesAre(files, PathOf(lines[k], DELETE));
  }

  lemma ReadAdd(canon: Canon, lines: seq<string>, k: nat, files: Files, platformCrlf: bool, read: Read, change: Change)
    requires k < |lines| && !(UPDATE <= lines[k]) && !(DELETE <= lines[k]) && ADD <= lines[k] && AllNoLf(lines)
    requires SectionAt(canon, lines, k, LfFiles(files), {}) == Success((HeaderPath(lines[k]), read))
    requires ChangeOf(ContentOf(files, HeaderPath(lines[k])), read.action, platformCrlf) == Some(change)
    ensures DoneAs(canon, lines, k, files, platformCrlf, change)
  {
    hide PathOf, StopsAdd, NewFile, Join, NoLf;
    AddEndIs(lines, k + 1);
    var n := AddEnd(lines, k + 1);
    var texts := Added(lines, k + 1, n);
    hide AddEnd;
    forall j | 0 <= j < |texts| ensures lines[k + 1 + j] == "+" + texts[j] && NoLf(texts[j]) {
      assert "+" <= lines[k + 1 + j];
      BehindMark(lines[k + 1 + j]);
    }
    assert AddsTexts(lines, k, texts);
    NewFileIs(texts, platformCrlf);
    assert PathOf(lines[k], ADD) !in LfFiles(files).Keys;
  }

  lemma BehindMark(line: string)
    requires "+" <= line && NoLf(line)
    ensures line == "+" + line[1..] && NoLf(line[1..])
  {
  }

  lemma NewFileIs(texts: seq<string>, platformCrlf: bool)
    requires AllNoLf(texts)
    ensures NewText(texts, platformCrlf, NewFile(Join(texts), platformCrlf))
  {
    CrOfJoined(texts);
    if texts == [] {
      NewFileOfNone(platformCrlf);
    } else {
      SplitJoin(texts);
      if platformCrlf && CR !in Join(texts) {
        JoinedWithCrs(texts);
      }
    }
    hide SplitLf, Join, JoinWith, NoLf;
  }

  lemma NewFileOfNone(platformCrlf: bool)
    ensures NewFile(Join([]), platformCrlf) == ""
  {
    assert SplitLf("") == [""];
  }

  lemma {:induction false} CrOfJoined(texts: seq<string>)
    ensures CR in Join(texts) <==> exists j :: 0 <= j < |texts| && CR in texts[j]
    decreases |texts|
  {
    if |texts| > 1 {
      CrOfJoined(texts[1..]);
      assert CR !in [LF];
      var a, b := texts[0], Join(texts[1..]);
      assert CR in a + [LF] + b <==> CR in a || CR in b;
      hide Join;
      if exists j :: 0 <= j < |texts[1..]| && CR in texts[1..][j] {
        var j :| 0 <= j < |texts[1..]| && CR in texts[1..][j];
        assert CR in texts[j + 1];
      }
      if exists j :: 0 <= j < |texts| && CR in texts[j] {
        var j :| 0 <= j < |texts| && CR in texts[j];
        if j > 0 {
          assert CR in texts[1..][j - 1];
        }
      }
    }
  }

  lemma {:induction false} JoinedWithCrs(texts: seq<string>)
    requires texts != [] && AllNoLf(texts)
    ensures SplitLf(JoinWith(CRLF, texts)) == WithCrs(texts)
    decreases |texts|
  {
    if |texts| == 1 {
      SplitPiece(texts[0], "");
      assert texts == [texts[0]];
    } else {
      JoinedWithCrs(texts[1..]);
      var rest := JoinWith(CRLF, texts[1..]);
      assert NoLf(texts[0]) && NoLf(texts[0] + "\r");
      SplitPiece(texts[0] + "\r", rest);
      assert texts[0] + CRLF + rest == texts[0] + "\r" + [LF] + rest;
    }
  }

  lemma LfFilesAre(files: Files, path: string)
    requires path in LfFiles(files)
    ensures path in files && SplitLf(LfFiles(files)[path]) == WorkLines(files[path]) && ContentOf(files, path) == files[path]
  {
  }

  lemma ResultOf(content: string, action: Action, platformCrlf: bool) returns (result: seq<string>)
    requires action.Update? && ChangeOf(content, action, platformCrlf).Some? && InsertsNoLf(action.chunks)
    ensures Rewoven(WorkLines(content), result, action.chunks) && AllNoLf(result)
    ensures ChangeOf(content, action, platformCrlf) ==
            Some(Rewritten(Restored(ToLf(content), HasCrlf(content)), Restored(Join(result), HasCrlf(content)), action.movePath))
  {
    hide Restored, HasCrlf, Join, WorkLines;
    var file := WorkLines(content);
    WorkNoLf(content);
    if action.chunks == [] {
      assert Fits(|file|, 0, []);
      var gaps, cuts := AppliedWeaves(file, 0, []);
      result := file;
      assert From(file, 0) == file;
      assert RewovenVia(file, result, [], gaps, cuts);
    } else {
      var gaps, cuts := AppliedWeaves(file, 0, action.chunks);
      result := Applied(file, 0, action.chunks);
      AppliedNoLf(file, 0, action.chunks);
      assert From(file, 0) == file;
      assert RewovenVia(file, result, action.chunks, gaps, cuts);
    }
  }
}
