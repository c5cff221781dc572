/** Reading an apply_patch text against the files it changes. */
module PatchParser {
  import opened Wrappers
  import opened Lines
  import opened Anchor
  import opened Hunks
  import opened HunkText
  import opened BlockSearch
  import opened LineByLine
  import opened Matching

  // ---- The definition line of a hunk ----

  predicate DefReads(canon: Canon, def: string, line: string)
  {
    line != "" && (canon(line) == canon(Trim(def)) || canon(line) == canon(def) || canon(Trim(line)) == canon(Trim(def)))
  }

  /** A line that only reads like the definition without its outer space costs one. */
  function DefFuzz(canon: Canon, def: string, line: string): nat
  {
    if canon(Trim(line)) == canon(Trim(def)) && canon(line) != canon(Trim(def)) && canon(line) != canon(def) then 1 else 0
  }

  function DefAt(canon: Canon, file: seq<string>, def: string, i: nat): (r: Option<nat>)
    ensures r.Some? ==> i <= r.value < |file| && DefReads(canon, def, file[r.value])
    ensures forall k | i <= k < (if r.Some? then r.value else |file|) :: !DefReads(canon, def, file[k])
    decreases |file| - i
  {
    if i >= |file| then None else if DefReads(canon, def, file[i]) then Some(i) else DefAt(canon, file, def, i + 1)
  }

  // ---- Placing a hunk ----

  /** By its block, found in a scan from some place on, or line by line from some place on. */
  datatype How = AtBlock(at: int, scan: int) | ByLine(from: nat)

  /** A hunk, whether it had a definition line, the cursor from which it was looked for, how it
      was anchored, the cursor behind it, its chunks at their places in the file, and what placing
      it and finding its definition line cost. */
  datatype Placement = Placement(
    hunk: Hunk, hadDef: bool, cursor: nat, how: How, next: nat, chunks: seq<PatchChunk>, cost: nat, defCost: nat)

  datatype Placing = Placing(placed: Option<Placement>, cursor: nat, fuzz: nat)

  function Shifted(chunks: seq<PatchChunk>, n: int): (r: seq<PatchChunk>)
    ensures |r| == |chunks|
  {
    seq(|chunks|, k requires 0 <= k < |chunks| => chunks[k].(origIndex := chunks[k].origIndex + n))
  }

  function AsBlock(h: Hunk, hadDef: bool, cursor: nat, from: int, f: Found): Placing
    requires f.index >= -|h.context|
  {
    var next := f.index + |h.context|;
    Placing(Some(Placement(h, hadDef, cursor, AtBlock(f.index, from), next, Shifted(h.chunks, f.index), f.fuzz, 0)), next, f.fuzz)
  }

  function AsLine(h: Hunk, cursor: nat, from: nat, a: Anchoring): Placing
  {
    Placing(Some(Placement(h, true, cursor, ByLine(from), a.nextIndex, a.chunks, 0, 0)), a.nextIndex, 0)
  }

  /** From the cursor, and then from the top. */
  function AsLines(canon: Canon, file: seq<string>, h: Hunk, cursor: nat): Placing
    requires InBlock(|h.context|, h.chunks)
  {
    var here := Anchored(canon, file, h.context, h.chunks, cursor);
    if here.Some? then AsLine(h, cursor, cursor, here.value)
    else
      var top := Anchored(canon, file, h.context, h.chunks, 0);
      if cursor > 0 && top.Some? then AsLine(h, cursor, 0, top.value) else Placing(None, cursor, 0)
  }

  /** A hunk with a definition line is never placed by likeness alone; one without is tried from
      the top again. */
  function Placed(canon: Canon, file: seq<string>, h: Hunk, hadDef: bool, cursor: nat): Placing
    requires InBlock(|h.context|, h.chunks)
  {
    var b := Block(canon, file, h.context, cursor, h.eof);
    if !h.eof && hadDef && (b.None? || b.value.fuzz >= 1000) then AsLines(canon, file, h, cursor)
    else if b.Some? then AsBlock(h, hadDef, cursor, ScanStart(file, h.context, cursor, h.eof, b.value.fuzz), b.value)
    else
      var top := Block(canon, file, h.context, 0, false);
      if !h.eof && top.Some? then AsBlock(h, hadDef, cursor, 0, top.value) else Placing(None, cursor, 0)
  }

  // ---- One round of an update section ----

  datatype Round = Round(next: nat, cursor: nat, fuzz: nat, placed: Option<Placement>)

  lemma HunkIsOk(lines: seq<string>, i: nat)
    requires i <= |lines|
    ensures HunkAt(lines, i).Success? ==>
              var h := HunkAt(lines, i).value;
              && i <= h.1 <= |lines|
              && WellFormed(h.0.context, h.0.chunks) && InBlock(|h.0.context|, h.0.chunks)
              && AppliesTo(h.0.context, 0, h.0.chunks, NewSide(lines[i..HunkEnd(lines, i)]))
  {
    var n := HunkEnd(lines, i);
    ChangesAreOk(lines[i..n]);
    hide HunkEnd, OldSide, Changes, NewSide, Applied, Fits;
    BlockOfWellFormed(OldSide(lines[i..n]), Changes(lines[i..n]));
  }

  lemma BlockOfWellFormed(context: seq<string>, chunks: seq<PatchChunk>)
    requires WellFormed(context, chunks)
    ensures InBlock(|context|, chunks)
  {
    forall k | 0 <= k < |chunks| ensures 0 <= chunks[k].origIndex && chunks[k].origIndex + |chunks[k].del| <= |context| {
      assert ChunkInBlock(context, chunks[k]);
    }
  }

  predicate OpensHunk(line: string) { "@@ " <= line || line == "@@" }

  function BodyStart(lines: seq<string>, i: nat): nat { if i < |lines| && OpensHunk(lines[i]) then i + 1 else i }

  /** The definition of the hunk at line i, if it says anything. */
  function DefLine(lines: seq<string>, i: nat): Option<string>
  {
    if i < |lines| && "@@ " <= lines[i] && Trim(lines[i][3..]) != "" then Some(lines[i][3..]) else None
  }

  /** The cursor behind the definition line, and what finding it costs. */
  function Sought(canon: Canon, file: seq<string>, def: Option<string>, cursor: nat): (nat, nat)
  {
    if def.None? then (cursor, 0)
    else
      var d := DefAt(canon, file, def.value, cursor);
      if d.None? then (cursor, 0) else (d.value + 1, DefFuzz(canon, def.value, file[d.value]))
  }

  function RoundAt(canon: Canon, lines: seq<string>, i: nat, file: seq<string>, cursor: nat): Result<Round, string>
    requires i <= |lines|
  {
    if BodyStart(lines, i) == i && cursor != 0 then Failure("Invalid Line")
    else
      var def := DefLine(lines, i);
      var sought := Sought(canon, file, def, cursor);
      var h := HunkAt(lines, BodyStart(lines, i));
      HunkIsOk(lines, BodyStart(lines, i));
      if h.Failure? then Failure(h.error)
      else
        var p := Placed(canon, file, h.value.0, def.Some?, sought.0);
        Success(Round(h.value.1, p.cursor, sought.1 + p.fuzz, WithDefCost(p.placed, sought.1)))
  }

  function WithDefCost(placed: Option<Placement>, cost: nat): Option<Placement>
  {
    if placed.Some? then Some(placed.value.(defCost := cost)) else None
  }

  // ---- An update section ----

  datatype Updated = Updated(next: nat, fuzz: nat, placements: seq<Placement>, missed: nat)

  lemma RoundMovesOn(canon: Canon, lines: seq<string>, i: nat, file: seq<string>, cursor: nat)
    requires i <= |lines|
    ensures RoundAt(canon, lines, i, file, cursor).Success? ==> i <= RoundAt(canon, lines, i, file, cursor).value.next <= |lines|
  {
    hide Placed, Sought, HunkAt, DefLine;
    HunkIsOk(lines, BodyStart(lines, i));
  }

  /** The hunks from line i on, up to the marker that ends the section; last is where the round
      before began. A round that consumed no line is refused at the next one. */
  function Rounds(canon: Canon, lines: seq<string>, i: nat, last: Option<nat>, file: seq<string>, cursor: nat): Result<Updated, string>
    requires i <= |lines|
    decreases |lines| - i, if last == Some(i) then 0 else 1
  {
    if i < |lines| && StopsUpdate(lines[i]) then Success(Updated(i, 0, [], 0))
    else if last == Some(i) then Failure("Invalid Line (parser made no progress)")
    else
      RoundMovesOn(canon, lines, i, file, cursor);
      var r := RoundAt(canon, lines, i, file, cursor);
      if r.Failure? then Failure(r.error)
      else
        var rest := Rounds(canon, lines, r.value.next, Some(i), file, r.value.cursor);
        if rest.Failure? then rest
        else
          var u := rest.value;
          Success(if r.value.placed.Some? then Updated(u.next, r.value.fuzz + u.fuzz, [r.value.placed.value] + u.placements, u.missed)
                  else Updated(u.next, r.value.fuzz + u.fuzz, u.placements, u.missed + 1))
  }

  function AllChunks(placements: seq<Placement>): seq<PatchChunk>
  {
    if placements == [] then [] else placements[0].chunks + AllChunks(placements[1..])
  }

  // ---- Sorting by place ----

  predicate SortedByPlace(chunks: seq<PatchChunk>)
  {
    forall i, j | 0 <= i < j < |chunks| :: chunks[i].origIndex <= chunks[j].origIndex
  }

  /** Behind every chunk whose place is not greater. */
  function InsertByPlace(chunks: seq<PatchChunk>, c: PatchChunk): seq<PatchChunk>
  {
    if chunks == [] || chunks[|chunks| - 1].origIndex <= c.origIndex then chunks + [c]
    else InsertByPlace(chunks[..|chunks| - 1], c) + [chunks[|chunks| - 1]]
  }

  /** In order of place; chunks at one place keep their order. */
  function SortByPlace(chunks: seq<PatchChunk>): seq<PatchChunk>
  {
    if chunks == [] then [] else InsertByPlace(SortByPlace(chunks[..|chunks| - 1]), chunks[|chunks| - 1])
  }

  lemma {:induction false} InsertHolds(chunks: seq<PatchChunk>, c: PatchChunk)
    ensures multiset(InsertByPlace(chunks, c)) == multiset(chunks) + multiset{c}
    decreases |chunks|
  {
    if chunks != [] && chunks[|chunks| - 1].origIndex > c.origIndex {
      InsertHolds(chunks[..|chunks| - 1], c);
      assert chunks == chunks[..|chunks| - 1] + [chunks[|chunks| - 1]];
    }
  }

  lemma Bounded(more: seq<PatchChunk>, chunks: seq<PatchChunk>, c: PatchChunk, bound: int)
    requires multiset(more) == multiset(chunks) + multiset{c} && c.origIndex <= bound
    requires forall k | 0 <= k < |chunks| :: chunks[k].origIndex <= bound
    ensures forall k | 0 <= k < |more| :: more[k].origIndex <= bound
  {
    forall k | 0 <= k < |more| ensures more[k].origIndex <= bound {
      assert more[k] in multiset(more);
      assert more[k] == c || more[k] in multiset(chunks);
    }
  }

  lemma {:induction false} InsertSorted(chunks: seq<PatchChunk>, c: PatchChunk)
    requires SortedByPlace(chunks)
    ensures SortedByPlace(InsertByPlace(chunks, c))
    decreases |chunks|
  {
    if chunks != [] && chunks[|chunks| - 1].origIndex > c.origIndex {
      var init, last := chunks[..|chunks| - 1], chunks[|chunks| - 1];
      InsertSorted(init, c);
      InsertHolds(init, c);
      var more := InsertByPlace(init, c);
      assert InsertByPlace(chunks, c) == more + [last];
      hide InsertByPlace;
      Bounded(more, init, c, last.origIndex);
    }
  }

  lemma {:induction false} SortSorts(chunks: seq<PatchChunk>)
    ensures SortedByPlace(SortByPlace(chunks)) && multiset(SortByPlace(chunks)) == multiset(chunks)
    decreases |chunks|
  {
    if chunks != [] {
      SortSorts(chunks[..|chunks| - 1]);
      InsertSorted(SortByPlace(chunks[..|chunks| - 1]), chunks[|chunks| - 1]);
      InsertHolds(SortByPlace(chunks[..|chunks| - 1]), chunks[|chunks| - 1]);
      assert chunks == chunks[..|chunks| - 1] + [chunks[|chunks| - 1]];
    }
  }

  /** The chunks at one place, in order. */
  function ChunksAt(chunks: seq<PatchChunk>, place: int): seq<PatchChunk>
  {
    if chunks == [] then []
    else
      var last := chunks[|chunks| - 1];
      ChunksAt(chunks[..|chunks| - 1], place) + if last.origIndex == place then [last] else []
  }

  lemma ChunksAtSnoc(chunks: seq<PatchChunk>, c: PatchChunk, place: int)
    ensures ChunksAt(chunks + [c], place) == ChunksAt(chunks, place) + if c.origIndex == place then [c] else []
  {
    assert (chunks + [c])[..|chunks|] == chunks;
  }

  lemma {:induction false} InsertIsStable(chunks: seq<PatchChunk>, c: PatchChunk, place: int)
    ensures ChunksAt(InsertByPlace(chunks, c), place) == ChunksAt(chunks, place) + if c.origIndex == place then [c] else []
    decreases |chunks|
  {
    hide ChunksAt;
    if chunks == [] || chunks[|chunks| - 1].origIndex <= c.origIndex {
      ChunksAtSnoc(chunks, c, place);
    } else {
      var init, last := chunks[..|chunks| - 1], chunks[|chunks| - 1];
      InsertIsStable(init, c, place);
      ChunksAtSnoc(InsertByPlace(init, c), last, place);
      ChunksAtSnoc(init, last, place);
      assert chunks == init + [last];
    }
  }

  /** Chunks at one place keep their order. */
  lemma {:induction false} SortIsStable(chunks: seq<PatchChunk>, place: int)
    ensures ChunksAt(SortByPlace(chunks), place) == ChunksAt(chunks, place)
    decreases |chunks|
  {
    if chunks != [] {
      SortIsStable(chunks[..|chunks| - 1], place);
      InsertIsStable(SortByPlace(chunks[..|chunks| - 1]), chunks[|chunks| - 1], place);
    }
  }

  // ---- The whole patch ----

  datatype Action =
    | Add(newFile: string)
    | Delete
    | Update(chunks: seq<PatchChunk>, placements: seq<Placement>, movePath: Option<string>)

  type Files = map<string, string>

  /** missed counts the hunks that found no place; fuzz is the total cost of the others. */
  datatype Patch = Patch(actions: map<string, Action>, fuzz: nat, missed: nat)

  function PathOf(line: string, marker: string): string
    requires marker <= line
  {
    Trim(line[|marker|..])
  }

  function AddEnd(lines: seq<string>, i: nat): (n: nat)
    requires i <= |lines|
    ensures i <= n <= |lines|
    decreases |lines| - i
  {
    if i == |lines| || StopsAdd(lines[i]) || !("+" <= lines[i]) then i else AddEnd(lines, i + 1)
  }

  function Added(lines: seq<string>, i: nat, n: nat): (r: seq<string>)
    requires i <= n <= |lines|
    ensures |r| == n - i
  {
    seq(n - i, k requires 0 <= k < n - i => if lines[i + k] == "" then "" else lines[i + k][1..])
  }

  datatype Read = Read(next: nat, action: Action, fuzz: nat, missed: nat)

  /** The section that begins at line i, which names the path. */
  function UpdateAt(canon: Canon, lines: seq<string>, i: nat, text: string): (r: Result<Read, string>)
    requires i < |lines|
    ensures r.Success? ==> i < r.value.next <= |lines|
  {
    var start := BodyOf(lines, i);
    var u := Rounds(canon, lines, start, None, SplitLf(text), 0);
    RoundsMoveOn(canon, lines, start, None, SplitLf(text), 0);
    if u.Failure? then Failure(u.error)
    else
      Success(Read(u.value.next,
                   Update(SortByPlace(AllChunks(u.value.placements)), u.value.placements, MoveOf(lines, i)),
                   u.value.fuzz, u.value.missed))
  }

  predicate Moves(lines: seq<string>, i: nat) { i + 1 < |lines| && MOVE <= lines[i + 1] }

  /** Where the hunks of the update section at line i begin: behind its header and move line. */
  function BodyOf(lines: seq<string>, i: nat): (n: nat)
    requires i < |lines|
    ensures n <= |lines|
  {
    if Moves(lines, i) then i + 2 else i + 1
  }

  function MoveOf(lines: seq<string>, i: nat): Option<string>
    requires i < |lines|
  {
    if Moves(lines, i) then Some(PathOf(lines[i + 1], MOVE)) else None
  }

  lemma {:induction false} RoundsMoveOn(canon: Canon, lines: seq<string>, i: nat, last: Option<nat>, file: seq<string>, cursor: nat)
    requires i <= |lines|
    ensures var r := Rounds(canon, lines, i, last, file, cursor);
            r.Success? ==> i <= r.value.next < |lines| && StopsUpdate(lines[r.value.next])
    decreases |lines| - i, if last == Some(i) then 0 else 1
  {
    hide RoundAt, StopsUpdate;
    if !(i < |lines| && StopsUpdate(lines[i])) && last != Some(i) {
      RoundMovesOn(canon, lines, i, file, cursor);
      var r := RoundAt(canon, lines, i, file, cursor);
      if r.Success? {
        RoundsMoveOn(canon, lines, r.value.next, Some(i), file, r.value.cursor);
      }
    }
  }

  function AddAt(lines: seq<string>, i: nat): (r: Result<Read, string>)
    requires i < |lines|
    ensures r.Success? ==> i < r.value.next <= |lines|
  {
    var n := AddEnd(lines, i + 1);
    if n < |lines| && !StopsAdd(lines[n]) then Failure("Invalid Add File line (missing '+')")
    else Success(Read(n, Add(Join(Added(lines, i + 1, n))), 0, 0))
  }

  /** The section at line i, with the path it is for. */
  function SectionAt(canon: Canon, lines: seq<string>, i: nat, files: Files, taken: set<string>): (r: Result<(string, Read), string>)
    requires i < |lines|
    ensures r.Success? ==> i < r.value.1.next <= |lines| && r.value.0 !in taken
    ensures r.Success? ==> (r.value.1.action.Add? <==> r.value.0 !in files)
  {
    var line := lines[i];
    if UPDATE <= line then
      var path := PathOf(line, UPDATE);
      if path in taken then Failure("Duplicate update")
      else if path !in files then Failure("Update File Error: Missing File")
      else
        var u := UpdateAt(canon, lines, i, files[path]);
        if u.Failure? then Failure(u.error) else Success((path, u.value))
    else if DELETE <= line then
      var path := PathOf(line, DELETE);
      if path in taken then Failure("Duplicate delete")
      else if path !in files then Failure("Delete File Error: Missing File")
      else Success((path, Read(i + 1, Delete, 0, 0)))
    else if ADD <= line then
      var path := PathOf(line, ADD);
      if path in taken then Failure("Duplicate add")
      else if path in files then Failure("Add File Error: File already exists")
      else
        var a := AddAt(lines, i);
        if a.Failure? then Failure(a.error) else Success((path, a.value))
    else Failure("Unknown line while parsing")
  }

  function Parsed(canon: Canon, lines: seq<string>, i: nat, files: Files, patch: Patch): Result<Patch, string>
    requires i <= |lines|
    decreases |lines| - i
  {
    if i == |lines| || END <= lines[i] then Success(patch)
    else
      var s := SectionAt(canon, lines, i, files, patch.actions.Keys);
      if s.Failure? then Failure(s.error)
      else
        var (path, read) := s.value;
        Parsed(canon, lines, read.next, files,
               Patch(patch.actions[path := read.action], patch.fuzz + read.fuzz, patch.missed + read.missed))
  }

  function PatchOf(canon: Canon, lines: seq<string>, files: Files): Result<Patch, string>
  {
    Parsed(canon, lines, if lines != [] && BEGIN <= lines[0] then 1 else 0, files, Patch(map[], 0, 0))
  }

  // ---- The sections of a patch ----

  predicate IsHeader(line: string) { UPDATE <= line || DELETE <= line || ADD <= line }

  function HeaderPath(line: string): string
    requires IsHeader(line)
  {
    PathOf(line, if UPDATE <= line then UPDATE else if DELETE <= line then DELETE else ADD)
  }

  /** The first end sentinel from line i on. */
  function FirstEnd(lines: seq<string>, i: nat): (n: nat)
    requires i <= |lines|
    ensures i <= n <= |lines| && (n < |lines| ==> END <= lines[n])
    ensures forall k | i <= k < n :: !(END <= lines[k])
    decreases |lines| - i
  {
    if i == |lines| || END <= lines[i] then i else FirstEnd(lines, i + 1)
  }

  /** Line k is the header of a section, from line i on and before the first end sentinel. */
  predicate Heads(lines: seq<string>, i: nat, k: int)
    requires i <= |lines|
  {
    i <= k < FirstEnd(lines, i) && IsHeader(lines[k])
  }

  /** The patch has what the section at line k says. */
  ghost predicate Has(canon: Canon, lines: seq<string>, k: nat, files: Files, patch: Patch)
    requires k < |lines| && IsHeader(lines[k])
  {
    var s, path := SectionAt(canon, lines, k, files, {}), HeaderPath(lines[k]);
    && s.Success? && s.value.0 == path && path in patch.actions
    && s.value.1.action == patch.actions[path] && s.value.1.missed <= patch.missed
  }

  /** What the placements of the section at line k cost. */
  ghost function FuzzAt(canon: Canon, lines: seq<string>, k: nat, files: Files): nat
    requires k < |lines| && IsHeader(lines[k])
  {
    if UPDATE <= lines[k] && HeaderPath(lines[k]) in files then
      var u := Rounds(canon, lines, BodyOf(lines, k), None, SplitLf(files[HeaderPath(lines[k])]), 0);
      if u.Success? then CostOf(u.value.placements) else 0
    else 0
  }

  /** The same for all sections from line i on, before the first end sentinel. */
  ghost function FuzzFrom(canon: Canon, lines: seq<string>, i: nat, files: Files): nat
    requires i <= |lines|
    decreases |lines| - i
  {
    if i == |lines| || END <= lines[i] then 0
    else (if IsHeader(lines[i]) then FuzzAt(canon, lines, i, files) else 0) + FuzzFrom(canon, lines, i + 1, files)
  }

  lemma {:induction false} NoFuzzInside(canon: Canon, lines: seq<string>, i: nat, next: nat, files: Files)
    requires i <= next <= |lines| && Inside(lines, i, next)
    ensures FuzzFrom(canon, lines, i, files) == FuzzFrom(canon, lines, next, files)
    decreases next - i
  {
    hide FuzzAt, IsHeader, StopsAdd;
    if i < next {
      InnerMarks(lines[i]);
      NoFuzzInside(canon, lines, i + 1, next, files);
    }
  }

  lemma FuzzOfSection(canon: Canon, lines: seq<string>, i: nat, files: Files, taken: set<string>)
    requires i < |lines| && SectionAt(canon, lines, i, files, taken).Success?
    requires SectionAt(canon, lines, i, files, taken).value.1.missed == 0
    ensures IsHeader(lines[i]) && SectionAt(canon, lines, i, files, taken).value.1.fuzz == FuzzAt(canon, lines, i, files)
  {
    hide Rounds, PathOf, SplitLf, BodyOf, MoveOf, AllChunks, SortByPlace, AddEnd, Added, SaysInAll;
    if UPDATE <= lines[i] {
      var text := files[PathOf(lines[i], UPDATE)];
      var u := Rounds(canon, lines, BodyOf(lines, i), None, SplitLf(text), 0);
      RoundsSay(canon, lines, BodyOf(lines, i), None, SplitLf(text), 0);
      CostSays(lines, BodyOf(lines, i), u.value.next, u.value.placements, u.value.fuzz);
    }
  }

  lemma CostSays(lines: seq<string>, i: nat, next: nat, placements: seq<Placement>, fuzz: nat)
    requires SaysInAll(lines, i, next, placements, fuzz)
    ensures fuzz == CostOf(placements)
  {
  }

  /** From line i on, every section was read into the patch, under a path of its own that the
      patch did not have before, and nothing else was. */
  ghost predicate AllRead(canon: Canon, lines: seq<string>, i: nat, files: Files, before: Patch, patch: Patch)
    requires i <= |lines|
  {
    && before.missed <= patch.missed
    && (patch.missed == 0 ==> patch.fuzz == before.fuzz + FuzzFrom(canon, lines, i, files))
    && (forall p | p in before.actions :: p in patch.actions && patch.actions[p] == before.actions[p])
    && (forall k | Heads(lines, i, k) :: Has(canon, lines, k, files, patch) && HeaderPath(lines[k]) !in before.actions)
    && (forall j, k | Heads(lines, i, j) && Heads(lines, i, k) && j < k :: HeaderPath(lines[j]) != HeaderPath(lines[k]))
    && (forall p | p in patch.actions && p !in before.actions :: HasHeader(lines, i, p))
  }

  ghost predicate HasHeader(lines: seq<string>, i: nat, path: string)
    requires i <= |lines|
  {
    exists k :: Heads(lines, i, k) && HeaderPath(lines[k]) == path
  }

  lemma InnerMarks(line: string)
    ensures OpensHunk(line) || line == END_FILE || MOVE <= line || (line != "" && line[0] == '+') ==> !StopsAdd(line)
    ensures IsHeader(line) || END <= line ==> StopsAdd(line)
    ensures IsHeader(line) ==> !(END <= line)
  {
    assert END[4] == 'E' && UPDATE[4] == 'U' && DELETE[4] == 'D' && ADD[4] == 'A' && MOVE[4] == 'M';
    assert END[0] == UPDATE[0] == DELETE[0] == ADD[0] == MOVE[0] == '*';
    assert END[8] == 'P' && END_FILE[8] == 'o';
  }

  /** No line that ends a section is within one. */
  ghost predicate Inside(lines: seq<string>, lo: nat, hi: nat)
    requires hi <= |lines|
  {
    forall k | lo <= k < hi :: !StopsAdd(lines[k])
  }

  lemma HunkStaysInside(lines: seq<string>, i: nat)
    requires i <= |lines| && HunkAt(lines, i).Success?
    ensures HunkAt(lines, i).value.1 <= |lines| && Inside(lines, i, HunkAt(lines, i).value.1)
  {
    hide HunkEnd, OldSide, Changes, StopsAdd;
    forall k | i <= k < HunkAt(lines, i).value.1 ensures !StopsAdd(lines[k]) {
      InnerMarks(lines[k]);
    }
  }

  lemma RoundStaysInside(canon: Canon, lines: seq<string>, i: nat, file: seq<string>, cursor: nat)
    requires i <= |lines| && RoundAt(canon, lines, i, file, cursor).Success?
    ensures var n := RoundAt(canon, lines, i, file, cursor).value.next; n <= |lines| && Inside(lines, i, n)
  {
    hide Placed, Sought, DefLine, StopsAdd, OpensHunk, HunkAt;
    HunkStaysInside(lines, BodyStart(lines, i));
    if i < |lines| {
      InnerMarks(lines[i]);
    }
  }

  lemma {:induction false} RoundsStayInside(canon: Canon, lines: seq<string>, i: nat, last: Option<nat>, file: seq<string>, cursor: nat)
    requires i <= |lines| && Rounds(canon, lines, i, last, file, cursor).Success?
    ensures var n := Rounds(canon, lines, i, last, file, cursor).value.next; n <= |lines| && Inside(lines, i, n)
    decreases |lines| - i, if last == Some(i) then 0 else 1
  {
    RoundsMoveOn(canon, lines, i, last, file, cursor);
    hide RoundAt, StopsAdd, StopsUpdate;
    if !(i < |lines| && StopsUpdate(lines[i])) {
      var r := RoundAt(canon, lines, i, file, cursor).value;
      RoundMovesOn(canon, lines, i, file, cursor);
      RoundStaysInside(canon, lines, i, file, cursor);
      RoundsStayInside(canon, lines, r.next, Some(i), file, r.cursor);
    }
  }

  lemma UpdateStaysInside(canon: Canon, lines: seq<string>, i: nat, text: string)
    requires i < |lines| && UpdateAt(canon, lines, i, text).Success?
    ensures Inside(lines, i + 1, UpdateAt(canon, lines, i, text).value.next)
  {
    hide Rounds, SplitLf, StopsAdd;
    RoundsStayInside(canon, lines, BodyOf(lines, i), None, SplitLf(text), 0);
    if Moves(lines, i) {
      InnerMarks(lines[i + 1]);
    }
  }

  lemma {:induction false} AddEndIs(lines: seq<string>, i: nat)
    requires i <= |lines|
    ensures Inside(lines, i, AddEnd(lines, i))
    ensures forall k | i <= k < AddEnd(lines, i) :: "+" <= lines[k]
    ensures var n := AddEnd(lines, i); n < |lines| ==> StopsAdd(lines[n]) || !("+" <= lines[n])
    decreases |lines| - i
  {
    hide StopsAdd;
    if i < |lines| && !StopsAdd(lines[i]) && "+" <= lines[i] {
      AddEndIs(lines, i + 1);
    }
  }

  /** A section begins with a header, and up to its end there is no other one. */
  lemma SectionIsOne(canon: Canon, lines: seq<string>, i: nat, files: Files, taken: set<string>)
    requires i < |lines| && SectionAt(canon, lines, i, files, taken).Success?
    ensures var (path, read) := SectionAt(canon, lines, i, files, taken).value;
            && IsHeader(lines[i]) && path == HeaderPath(lines[i]) && path !in taken
            && SectionAt(canon, lines, i, files, {}) == SectionAt(canon, lines, i, files, taken)
            && read.next <= |lines| && Inside(lines, i + 1, read.next)
  {
    hide UpdateAt, StopsAdd, PathOf, AddEnd, Added;
    if UPDATE <= lines[i] {
      UpdateStaysInside(canon, lines, i, files[PathOf(lines[i], UPDATE)]);
    } else if ADD <= lines[i] && !(DELETE <= lines[i]) {
      AddEndIs(lines, i + 1);
    }
  }

  /** The headers from a section on are its own and those behind its end. */
  lemma HeadsStep(lines: seq<string>, i: nat, next: nat)
    requires i < next <= |lines| && IsHeader(lines[i]) && Inside(lines, i + 1, next)
    ensures forall k :: Heads(lines, i, k) <==> k == i || Heads(lines, next, k)
  {
    InnerMarks(lines[i]);
    forall k | i < k < next ensures !IsHeader(lines[k]) && !(END <= lines[k]) {
      InnerMarks(lines[k]);
    }
    hide IsHeader, StopsAdd;
    EndStep(lines, i, next);
  }

  lemma {:induction false} EndStep(lines: seq<string>, i: nat, next: nat)
    requires i <= next <= |lines| && forall k | i <= k < next :: !(END <= lines[k])
    ensures FirstEnd(lines, i) == FirstEnd(lines, next)
    decreases next - i
  {
    if i < next {
      EndStep(lines, i + 1, next);
    }
  }

  /** An accepted patch has every section, each under a path of its own, and nothing else. */
  lemma {:induction false} ParsedReadsAll(canon: Canon, lines: seq<string>, i: nat, files: Files, patch: Patch)
    requires i <= |lines|
    ensures var r := Parsed(canon, lines, i, files, patch); r.Success? ==> AllRead(canon, lines, i, files, patch, r.value)
    decreases |lines| - i
  {
    hide SectionAt, AllRead;
    if i == |lines| || END <= lines[i] {
      NothingRead(canon, lines, i, files, patch);
    } else {
      var s := SectionAt(canon, lines, i, files, patch.actions.Keys);
      if s.Success? {
        var (path, read) := s.value;
        SectionIsOne(canon, lines, i, files, patch.actions.Keys);
        var more := Patch(patch.actions[path := read.action], patch.fuzz + read.fuzz, patch.missed + read.missed);
        ParsedReadsAll(canon, lines, read.next, files, more);
        var r := Parsed(canon, lines, i, files, patch);
        if r.Success? {
          SectionAhead(canon, lines, i, files, patch, more, r.value);
        }
      }
    }
  }

  lemma NothingRead(canon: Canon, lines: seq<string>, i: nat, files: Files, patch: Patch)
    requires i == |lines| || (i < |lines| && END <= lines[i])
    ensures AllRead(canon, lines, i, files, patch, patch)
  {
    hide IsHeader, Has, HeaderPath;
    assert FirstEnd(lines, i) == i;
  }

  lemma FuzzStep(canon: Canon, lines: seq<string>, i: nat, files: Files, taken: set<string>)
    requires i < |lines| && SectionAt(canon, lines, i, files, taken).Success?
    requires SectionAt(canon, lines, i, files, taken).value.1.missed == 0
    requires i < SectionAt(canon, lines, i, files, taken).value.1.next <= |lines|
    ensures var read := SectionAt(canon, lines, i, files, taken).value.1;
            FuzzFrom(canon, lines, i, files) == read.fuzz + FuzzFrom(canon, lines, read.next, files)
  {
    SectionIsOne(canon, lines, i, files, taken);
    FuzzOfSection(canon, lines, i, files, taken);
    InnerMarks(lines[i]);
    hide SectionAt, FuzzAt, IsHeader, StopsAdd;
    NoFuzzInside(canon, lines, i + 1, SectionAt(canon, lines, i, files, taken).value.1.next, files);
  }

  lemma SectionAhead(canon: Canon, lines: seq<string>, i: nat, files: Files, before: Patch, more: Patch, patch: Patch)
    requires i < |lines| && SectionAt(canon, lines, i, files, before.actions.Keys).Success?
    requires var (path, read) := SectionAt(canon, lines, i, files, before.actions.Keys).value;
             && i < read.next <= |lines| && more.actions == before.actions[path := read.action]
             && more.missed == before.missed + read.missed && more.fuzz == before.fuzz + read.fuzz
             && AllRead(canon, lines, read.next, files, more, patch)
    ensures AllRead(canon, lines, i, files, before, patch)
  {
    hide SectionAt, IsHeader, HeaderPath, FirstEnd;
    var (path, read) := SectionAt(canon, lines, i, files, before.actions.Keys).value;
    SectionIsOne(canon, lines, i, files, before.actions.Keys);
    HeadsStep(lines, i, read.next);
    if patch.missed == 0 {
      FuzzStep(canon, lines, i, files, before.actions.Keys);
    }
    hide Heads, FuzzFrom;
    assert Has(canon, lines, i, files, patch) by {
      assert path in more.actions;
    }
    forall p | p in patch.actions && p !in before.actions ensures HasHeader(lines, i, p) {
      if p == path {
        assert Heads(lines, i, i);
      } else {
        assert HasHeader(lines, read.next, p);
        var k :| Heads(lines, read.next, k) && HeaderPath(lines[k]) == p;
        assert Heads(lines, i, k);
      }
    }
  }

  // ---- What the rounds of a section do ----

  /** The line at which each round began. */
  function Starts(canon: Canon, lines: seq<string>, i: nat, last: Option<nat>, file: seq<string>, cursor: nat): seq<nat>
    requires i <= |lines|
    decreases |lines| - i, if last == Some(i) then 0 else 1
  {
    if (i < |lines| && StopsUpdate(lines[i])) || last == Some(i) || RoundAt(canon, lines, i, file, cursor).Failure? then []
    else
      RoundMovesOn(canon, lines, i, file, cursor);
      var r := RoundAt(canon, lines, i, file, cursor).value;
      [i] + Starts(canon, lines, r.next, Some(i), file, r.cursor)
  }

  /** Where the round that began at starts[k] ended. */
  function EndOfRound(starts: seq<nat>, next: nat, k: nat): nat
    requires k < |starts|
  {
    if k + 1 < |starts| then starts[k + 1] else next
  }

  /** The round took the lines from lo to hi: a section mark, if there is one, and one hunk. */
  ghost predicate TookHunk(lines: seq<string>, lo: nat, hi: nat)
  {
    && lo < hi <= |lines|
    && var h := HunkAt(lines, BodyStart(lines, lo));
    h.Success? && h.value.1 == hi
  }

  /** Every round of a section that is accepted consumes at least one line, and the rounds take
      the lines of the section one after the other, leaving none out. */
  lemma {:induction false} RoundsTile(canon: Canon, lines: seq<string>, i: nat, last: Option<nat>, file: seq<string>, cursor: nat)
    requires i <= |lines| && Rounds(canon, lines, i, last, file, cursor).Success?
    ensures var u, starts := Rounds(canon, lines, i, last, file, cursor).value, Starts(canon, lines, i, last, file, cursor);
            && |starts| == |u.placements| + u.missed
            && (if starts == [] then u.next == i else starts[0] == i)
            && (forall k | 0 <= k < |starts| :: TookHunk(lines, starts[k], EndOfRound(starts, u.next, k)))
    decreases |lines| - i, if last == Some(i) then 0 else 1
  {
    if !(i < |lines| && StopsUpdate(lines[i])) {
      RoundMovesOn(canon, lines, i, file, cursor);
      var r := RoundAt(canon, lines, i, file, cursor).value;
      RoundsTile(canon, lines, r.next, Some(i), file, r.cursor);
      RoundTakes(canon, lines, i, file, cursor);
      MustMove(canon, lines, r.next, i, file, r.cursor);
      TileCons(lines, i, Starts(canon, lines, r.next, Some(i), file, r.cursor), r.next,
               Rounds(canon, lines, r.next, Some(i), file, r.cursor).value.next);
      hide RoundAt, TookHunk, StopsUpdate, EndOfRound;
    }
  }

  lemma TileCons(lines: seq<string>, i: nat, rest: seq<nat>, mid: nat, next: nat)
    requires TookHunk(lines, i, mid) && (if rest == [] then next == mid else rest[0] == mid)
    requires forall k | 0 <= k < |rest| :: TookHunk(lines, rest[k], EndOfRound(rest, next, k))
    ensures var starts := [i] + rest;
            forall k | 0 <= k < |starts| :: TookHunk(lines, starts[k], EndOfRound(starts, next, k))
  {
    var starts := [i] + rest;
    hide TookHunk;
    forall k | 0 <= k < |starts| ensures TookHunk(lines, starts[k], EndOfRound(starts, next, k)) {
      if k > 0 {
        assert starts[k] == rest[k - 1] && EndOfRound(starts, next, k) == EndOfRound(rest, next, k - 1);
        assert TookHunk(lines, rest[k - 1], EndOfRound(rest, next, k - 1));
      }
    }
  }

  lemma RoundTakes(canon: Canon, lines: seq<string>, i: nat, file: seq<string>, cursor: nat)
    requires i <= |lines| && RoundAt(canon, lines, i, file, cursor).Success?
    ensures var n := RoundAt(canon, lines, i, file, cursor).value.next; n > i ==> TookHunk(lines, i, n)
  {
    hide Placed, Sought, HunkAt, DefLine;
    HunkIsOk(lines, BodyStart(lines, i));
  }

  lemma MustMove(canon: Canon, lines: seq<string>, next: nat, i: nat, file: seq<string>, cursor: nat)
    requires i <= next <= |lines| && !(i < |lines| && StopsUpdate(lines[i]))
    requires Rounds(canon, lines, next, Some(i), file, cursor).Success?
    ensures next > i
  {
    hide RoundAt, StopsUpdate;
  }

  // ---- What a placement is ----

  /** Where the scan began: at the end of the file when it was asked to and found something
      there; from the top when nothing from the cursor on matches; else at the cursor. */
  ghost predicate ScanBegan(canon: Canon, file: seq<string>, h: Hunk, cursor: nat, from: int)
  {
    if h.eof && !EndMisses(canon, file, h.context) then from == |file| - |h.context|
    else if !h.eof && NowhereFrom(canon, file, h.context, cursor) then from == 0
    else from == cursor
  }

  /** What it costs that a block is not at the end of the file where it was said to be. */
  ghost function Penalty(canon: Canon, file: seq<string>, h: Hunk): nat
  {
    if h.eof && EndMisses(canon, file, h.context) then 10000 else 0
  }

  /** The chunks of the hunk, at the block that was found: the first window of the best level
      that has one, from where its scan began. A block of no lines is at the cursor. */
  ghost predicate BlockPlacement(canon: Canon, file: seq<string>, p: Placement)
  {
    && p.how.AtBlock? && p.chunks == Shifted(p.hunk.chunks, p.how.at) && p.next == p.how.at + |p.hunk.context|
    && (p.hunk.context == [] ==> p.how.at == p.cursor && p.cost == 0)
    && (p.hunk.context != [] ==>
          && ScanBegan(canon, file, p.hunk, p.cursor, p.how.scan)
          && exists level: Level :: BestFrom(canon, file, p.hunk.context, p.how.scan, p.how.at, level) &&
                                    (level == Similar ==> !p.hadDef || p.hunk.eof) &&
                                    p.cost == Fuzz(level) + Penalty(canon, file, p.hunk))
  }

  /** No window from the cursor on matches the block, but perhaps by likeness. */
  ghost predicate AlikeAtMost(canon: Canon, file: seq<string>, context: seq<string>, cursor: nat)
  {
    forall level: Level, j | level != Similar && cursor <= j < |file| :: !MatchesAt(canon, level, file, context, j)
  }

  /** The same changes, on lines that read like those deleted, from the cursor on, or from the
      top when that fails. */
  ghost predicate LinePlacement(canon: Canon, file: seq<string>, p: Placement)
  {
    && p.how.ByLine? && p.cost == 0 && p.hadDef && !p.hunk.eof && AlikeAtMost(canon, file, p.hunk.context, p.cursor)
    && InBlock(|p.hunk.context|, p.hunk.chunks)
    && Anchored(canon, file, p.hunk.context, p.hunk.chunks, p.how.from) == Some(Anchoring(p.chunks, p.next))
    && (p.how.from == p.cursor ||
        (p.how.from == 0 && Anchored(canon, file, p.hunk.context, p.hunk.chunks, p.cursor).None?))
    && |p.chunks| == |p.hunk.chunks|
    && (forall k | 0 <= k < |p.chunks| :: p.chunks[k].del == p.hunk.chunks[k].del && p.chunks[k].ins == p.hunk.chunks[k].ins)
    && Fits(|file|, 0, p.chunks) && RunsMatch(canon, file, p.chunks)
  }

  ghost predicate Sound(canon: Canon, file: seq<string>, p: Placement)
  {
    WellFormed(p.hunk.context, p.hunk.chunks) && (BlockPlacement(canon, file, p) || LinePlacement(canon, file, p))
  }

  lemma BlockIsSound(canon: Canon, file: seq<string>, h: Hunk, hadDef: bool, cursor: nat)
    requires Block(canon, file, h.context, cursor, h.eof).Some?
    requires var b := Block(canon, file, h.context, cursor, h.eof); h.eof || !hadDef || b.value.fuzz < 1000
    ensures var b := Block(canon, file, h.context, cursor, h.eof).value;
            BlockPlacement(canon, file, AsBlock(h, hadDef, cursor, ScanStart(file, h.context, cursor, h.eof, b.fuzz), b).placed.value)
  {
    hide BestFrom, NowhereFrom, Block, EndMisses;
    var b := Block(canon, file, h.context, cursor, h.eof).value;
    if h.context == [] {
      EmptyIsFound(canon, file, cursor, h.eof);
    } else {
      BlockIsBestThenFirst(canon, file, h.context, cursor, h.eof);
      var from := ScanStart(file, h.context, cursor, h.eof, b.fuzz);
      var level: Level :| b.fuzz == Fuzz(level) + (if b.fuzz >= 10000 then 10000 else 0)
                          && BestFrom(canon, file, h.context, from, b.index, level);
      assert BestFrom(canon, file, h.context, from, b.index, level);
    }
  }

  lemma TopIsSound(canon: Canon, file: seq<string>, h: Hunk, hadDef: bool, cursor: nat)
    requires Block(canon, file, h.context, cursor, false).None? && !h.eof && !hadDef
    requires Block(canon, file, h.context, 0, false).Some?
    ensures BlockPlacement(canon, file, AsBlock(h, hadDef, cursor, 0, Block(canon, file, h.context, 0, false).value).placed.value)
  {
    hide BestFrom, NowhereFrom, Block, EndMisses;
    var b := Block(canon, file, h.context, 0, false).value;
    EmptyIsFound(canon, file, cursor, false);
    BlockIsBestThenFirst(canon, file, h.context, cursor, false);
    BlockIsBestThenFirst(canon, file, h.context, 0, false);
    var level: Level :| b.fuzz == Fuzz(level) && BestFrom(canon, file, h.context, 0, b.index, level);
    assert BestFrom(canon, file, h.context, 0, b.index, level);
  }

  lemma SearchedAlike(canon: Canon, file: seq<string>, context: seq<string>, cursor: nat)
    requires context != []
    requires var b := Block(canon, file, context, cursor, false); b.None? || b.value.fuzz >= 1000
    ensures AlikeAtMost(canon, file, context, cursor)
  {
    hide Block, MatchesAt, EndMisses;
    BlockIsBestThenFirst(canon, file, context, cursor, false);
  }

  lemma AsLinesIsSound(canon: Canon, file: seq<string>, h: Hunk, cursor: nat)
    requires WellFormed(h.context, h.chunks) && InBlock(|h.context|, h.chunks) && h.context != []
    requires !h.eof && AlikeAtMost(canon, file, h.context, cursor)
    ensures AsLines(canon, file, h, cursor).placed.Some? ==>
              LinePlacement(canon, file, AsLines(canon, file, h, cursor).placed.value)
  {
    AnchoringIsSafe(canon, file, h.context, h.chunks, cursor);
    AnchoringIsSafe(canon, file, h.context, h.chunks, 0);
    AnchoringKeeps(canon, file, h.context, h.chunks, cursor);
    AnchoringKeeps(canon, file, h.context, h.chunks, 0);
    hide Anchored, Fits, RunsMatch, Greedy, WellFormed, AlikeAtMost;
  }

  lemma AnchoringKeeps(canon: Canon, file: seq<string>, context: seq<string>, chunks: seq<PatchChunk>, start: nat)
    requires InBlock(|context|, chunks)
    ensures var r := Anchored(canon, file, context, chunks, start);
            r.Some? ==>
              && |r.value.chunks| == |chunks|
              && forall k | 0 <= k < |chunks| :: r.value.chunks[k].del == chunks[k].del && r.value.chunks[k].ins == chunks[k].ins
  {
    hide Greedy, Torn, PlaceOf, OutOfOrder;
  }

  /** Whatever the patch and the file: a hunk that is placed is placed soundly; and one with a
      definition line, not marked for the end of the file, never by likeness alone. */
  lemma PlacedIsSound(canon: Canon, file: seq<string>, h: Hunk, hadDef: bool, cursor: nat)
    requires WellFormed(h.context, h.chunks) && InBlock(|h.context|, h.chunks)
    ensures var p := Placed(canon, file, h, hadDef, cursor);
            p.placed.Some? ==>
              && p.placed.value.hunk == h && p.placed.value.hadDef == hadDef && p.placed.value.cursor == cursor
              && p.placed.value.next == p.cursor && p.placed.value.cost == p.fuzz && Sound(canon, file, p.placed.value)
  {
    hide Block, Anchored, WellFormed, LinePlacement, BlockPlacement, AlikeAtMost;
    var b := Block(canon, file, h.context, cursor, h.eof);
    if !h.eof && hadDef && (b.None? || b.value.fuzz >= 1000) {
      EmptyIsFound(canon, file, cursor, h.eof);
      SearchedAlike(canon, file, h.context, cursor);
      AsLinesIsSound(canon, file, h, cursor);
    } else if b.Some? {
      BlockIsSound(canon, file, h, hadDef, cursor);
    } else {
      var top := Block(canon, file, h.context, 0, false);
      if !h.eof && top.Some? {
        TopIsSound(canon, file, h, hadDef, cursor);
      }
    }
  }

  lemma EmptyIsFound(canon: Canon, file: seq<string>, cursor: nat, eof: bool)
    ensures Block(canon, file, [], cursor, eof) == Some(Found(cursor, 0))
  {
  }

  ghost predicate AllSound(canon: Canon, file: seq<string>, placements: seq<Placement>)
  {
    forall k | 0 <= k < |placements| :: Sound(canon, file, placements[k])
  }

  lemma {:induction false} RoundsAreSound(canon: Canon, lines: seq<string>, i: nat, last: Option<nat>, file: seq<string>, cursor: nat)
    requires i <= |lines| && Rounds(canon, lines, i, last, file, cursor).Success?
    ensures AllSound(canon, file, Rounds(canon, lines, i, last, file, cursor).value.placements)
    decreases |lines| - i, if last == Some(i) then 0 else 1
  {
    hide Sound;
    if !(i < |lines| && StopsUpdate(lines[i])) {
      RoundMovesOn(canon, lines, i, file, cursor);
      var r := RoundAt(canon, lines, i, file, cursor).value;
      RoundsAreSound(canon, lines, r.next, Some(i), file, r.cursor);
      RoundIsSound(canon, lines, i, file, cursor);
      hide RoundAt;
    }
  }

  lemma RoundIsSound(canon: Canon, lines: seq<string>, i: nat, file: seq<string>, cursor: nat)
    requires i <= |lines| && RoundAt(canon, lines, i, file, cursor).Success?
    ensures var p := RoundAt(canon, lines, i, file, cursor).value.placed; p.Some? ==> Sound(canon, file, p.value)
  {
    hide Placed, HunkAt, BestFrom, LinePlacement, WellFormed;
    var at := BodyStart(lines, i);
    HunkIsOk(lines, at);
    var def := DefLine(lines, i);
    PlacedIsSound(canon, file, HunkAt(lines, at).value.0, def.Some?, Sought(canon, file, def, cursor).0);
    hide Sound, Sought;
    var p := Placed(canon, file, HunkAt(lines, at).value.0, def.Some?, Sought(canon, file, def, cursor).0);
    if p.placed.Some? {
      AnyDefCost(canon, file, p.placed.value, Sought(canon, file, def, cursor).1);
    }
  }

  lemma AnyDefCost(canon: Canon, file: seq<string>, p: Placement, cost: nat)
    requires Sound(canon, file, p)
    ensures Sound(canon, file, p.(defCost := cost))
  {
    hide WellFormed, BestFrom, Anchored, Fits, RunsMatch, AlikeAtMost, ScanBegan, Penalty;
  }

  /** The text behind the mark of a hunk is its definition, unless it is all space. */
  ghost predicate SaysDef(lines: seq<string>, start: nat, def: Option<string>)
  {
    if def.Some? then start < |lines| && lines[start] == "@@ " + def.value && !AllSpace(def.value)
    else start >= |lines| || !("@@ " <= lines[start]) || AllSpace(lines[start][3..])
  }

  /** Line k is the first from the cursor on that reads like the definition. */
  ghost predicate FirstReading(canon: Canon, file: seq<string>, def: string, cursor: nat, k: nat)
  {
    cursor <= k < |file| && DefReads(canon, def, file[k]) && forall j | cursor <= j < k :: !DefReads(canon, def, file[j])
  }

  /** The search for the hunk starts behind the first line that reads like its definition, which
      costs one if it does so only without the space around it; and at the cursor if none does. */
  ghost predicate StartsBehind(canon: Canon, file: seq<string>, def: Option<string>, cursor: nat, at: nat, cost: nat)
  {
    if def.Some? && at > 0 && FirstReading(canon, file, def.value, cursor, at - 1) then
      cost == if canon(file[at - 1]) == canon(def.value) || canon(file[at - 1]) == canon(Trim(def.value)) then 0 else 1
    else
      && at == cursor && cost == 0
      && (def.Some? ==> forall k | cursor <= k < |file| :: !DefReads(canon, def.value, file[k]))
  }

  /** The round that began at a line placed its own hunk, which is what the lines behind its mark
      say, looking for it from behind its definition line, which was looked for from the cursor
      that the round found. */
  ghost predicate PlacedOwn(canon: Canon, lines: seq<string>, file: seq<string>, start: nat, cursor: nat, p: Placement)
  {
    && start <= |lines|
    && var at := if start < |lines| && (lines[start] == "@@" || "@@ " <= lines[start]) then start + 1 else start;
    && HunkAt(lines, at).Success? && HunkAt(lines, at).value.0 == p.hunk
    && HunkEnd(lines, at) <= |lines| && at <= HunkEnd(lines, at) && SaysHunk(lines[at..HunkEnd(lines, at)], p.hunk)
    && exists def :: && SaysDef(lines, start, def) && p.hadDef == def.Some?
                     && StartsBehind(canon, file, def, cursor, p.cursor, p.defCost)
  }

  lemma DefLineSays(lines: seq<string>, i: nat)
    ensures SaysDef(lines, i, DefLine(lines, i))
  {
    if i < |lines| && "@@ " <= lines[i] {
      TrimIs(lines[i][3..]);
      assert lines[i] == "@@ " + lines[i][3..];
      TrimmedAway(lines[i][3..]);
    }
    hide Trim;
  }

  /** Nothing is left exactly of what is all space. */
  lemma TrimmedAway(s: string)
    ensures Trim(s) == "" <==> AllSpace(s)
  {
    TrimIs(s);
    hide Trim;
    var a, b :| Around(s, a, Trim(s), b);
    if Trim(s) == "" {
      AllSpaceAround(s, a, b);
    } else {
      NotAllSpace(s, a, Trim(s), b);
    }
  }

  lemma SoughtStarts(canon: Canon, file: seq<string>, def: Option<string>, cursor: nat)
    ensures var sought := Sought(canon, file, def, cursor); StartsBehind(canon, file, def, cursor, sought.0, sought.1)
  {
    hide Trim;
    if def.Some? {
      var d := DefAt(canon, file, def.value, cursor);
      if d.Some? {
        assert FirstReading(canon, file, def.value, cursor, d.value);
        assert canon(Trim(file[d.value])) == canon(Trim(def.value)) || canon(file[d.value]) == canon(Trim(def.value)) ||
               canon(file[d.value]) == canon(def.value);
      }
    }
  }

  /** When normalisation takes only equal texts to equal ones, a line reads like a definition
      exactly if it is not empty and equal to it but for space around. */
  lemma DefReadsIff(canon: Canon, def: string, line: string)
    requires Injective(canon)
    ensures DefReads(canon, def, line) <==> line != "" && AgreeInside(line, def)
  {
    AgreeInsideIff(line, def);
    TrimTwice(def);
    hide Trim, AgreeInside;
  }

  /** The cursor that round k found: behind the hunk before it. */
  function CursorOf(placements: seq<Placement>, first: nat, k: nat): nat
    requires k <= |placements|
  {
    if k == 0 then first else placements[k - 1].next
  }

  ghost predicate Chained(canon: Canon, lines: seq<string>, file: seq<string>, starts: seq<nat>, placements: seq<Placement>, first: nat)
  {
    && |starts| == |placements|
    && forall k | 0 <= k < |starts| :: PlacedOwn(canon, lines, file, starts[k], CursorOf(placements, first, k), placements[k])
  }

  lemma ChainCons(canon: Canon, lines: seq<string>, file: seq<string>, i: nat, starts: seq<nat>, p: Placement,
                  placements: seq<Placement>, first: nat)
    requires PlacedOwn(canon, lines, file, i, first, p) && Chained(canon, lines, file, starts, placements, p.next)
    ensures Chained(canon, lines, file, [i] + starts, [p] + placements, first)
  {
    hide PlacedOwn;
    var all, ps := [i] + starts, [p] + placements;
    forall k | 0 <= k < |all| ensures PlacedOwn(canon, lines, file, all[k], CursorOf(ps, first, k), ps[k]) {
      if k > 0 {
        assert PlacedOwn(canon, lines, file, starts[k - 1], CursorOf(placements, p.next, k - 1), placements[k - 1]);
      }
    }
  }

  lemma RoundPlaces(canon: Canon, lines: seq<string>, i: nat, file: seq<string>, cursor: nat)
    requires i <= |lines| && RoundAt(canon, lines, i, file, cursor).Success?
    ensures var r := RoundAt(canon, lines, i, file, cursor).value;
            r.placed.Some? ==> PlacedOwn(canon, lines, file, i, cursor, r.placed.value) && r.placed.value.next == r.cursor
  {
    var at := BodyStart(lines, i);
    HunkIsOk(lines, at);
    DefLineSays(lines, i);
    SoughtStarts(canon, file, DefLine(lines, i), cursor);
    HunkSaysLines(lines, at);
    PlacedIsSound(canon, file, HunkAt(lines, at).value.0, DefLine(lines, i).Some?, Sought(canon, file, DefLine(lines, i), cursor).0);
    hide Placed, HunkAt, HunkEnd, Sound, WellFormed, Sought, DefLine, SaysDef, StartsBehind, SaysHunk;
  }

  /** When no hunk of a section missed, each round's own hunk was placed, and each was looked for
      from behind the one before it. */
  lemma {:induction false} RoundsChain(canon: Canon, lines: seq<string>, i: nat, last: Option<nat>, file: seq<string>, cursor: nat)
    requires i <= |lines| && Rounds(canon, lines, i, last, file, cursor).Success?
    requires Rounds(canon, lines, i, last, file, cursor).value.missed == 0
    ensures Chained(canon, lines, file, Starts(canon, lines, i, last, file, cursor),
                    Rounds(canon, lines, i, last, file, cursor).value.placements, cursor)
    decreases |lines| - i, if last == Some(i) then 0 else 1
  {
    hide RoundAt, PlacedOwn, StopsUpdate;
    if !(i < |lines| && StopsUpdate(lines[i])) {
      RoundMovesOn(canon, lines, i, file, cursor);
      var r := RoundAt(canon, lines, i, file, cursor).value;
      var rest := Rounds(canon, lines, r.next, Some(i), file, r.cursor).value;
      RoundPlaces(canon, lines, i, file, cursor);
      RoundsChain(canon, lines, r.next, Some(i), file, r.cursor);
      ChainCons(canon, lines, file, i, Starts(canon, lines, r.next, Some(i), file, r.cursor), r.placed.value, rest.placements, cursor);
    }
  }

  // ---- When a patch is refused ----

  /** A hunk finds no place exactly when none of the ways that are open to it leads to one: with a
      definition line, no window from the cursor matches but by likeness, and its lines cannot be
      anchored from the cursor or the top; without one, no window of the file matches; for the end
      of the file, none there or from the cursor. */
  lemma PlacedIff(canon: Canon, file: seq<string>, h: Hunk, hadDef: bool, cursor: nat)
    requires WellFormed(h.context, h.chunks) && InBlock(|h.context|, h.chunks)
    ensures Placed(canon, file, h, hadDef, cursor).placed.None? <==>
            && h.context != []
            && if h.eof then NowhereFrom(canon, file, h.context, cursor) && EndMisses(canon, file, h.context)
               else if hadDef then
                 && AlikeAtMost(canon, file, h.context, cursor)
                 && Anchored(canon, file, h.context, h.chunks, cursor).None?
                 && Anchored(canon, file, h.context, h.chunks, 0).None?
               else NowhereFrom(canon, file, h.context, cursor) && NowhereFrom(canon, file, h.context, 0)
  {
    hide Block, Anchored, WellFormed, NowhereFrom, EndMisses, AlikeAtMost, BestFrom;
    if h.context == [] {
      EmptyIsFound(canon, file, cursor, h.eof);
    } else {
      BlockIsBestThenFirst(canon, file, h.context, cursor, h.eof);
      BlockIsBestThenFirst(canon, file, h.context, 0, false);
      if !h.eof {
        AlikeIff(canon, file, h.context, cursor);
      }
    }
  }

  lemma AlikeIff(canon: Canon, file: seq<string>, context: seq<string>, cursor: nat)
    requires context != []
    ensures var b := Block(canon, file, context, cursor, false);
            b.None? || b.value.fuzz >= 1000 <==> AlikeAtMost(canon, file, context, cursor)
  {
    hide Block, MatchesAt, EndMisses;
    BlockIsBestThenFirst(canon, file, context, cursor, false);
    var b := Block(canon, file, context, cursor, false);
    if b.Some? {
      var level: Level :| b.value.fuzz == Fuzz(level) + (if b.value.fuzz >= 10000 then 10000 else 0)
                          && BestFrom(canon, file, context, cursor, b.value.index, level);
    }
  }

  /** A round is refused exactly when a hunk behind the first has no mark, or a stray marker line
      is where its body ends. */
  lemma RoundRefusedIff(canon: Canon, lines: seq<string>, i: nat, file: seq<string>, cursor: nat)
    requires i <= |lines|
    ensures var marked := i < |lines| && (lines[i] == "@@" || "@@ " <= lines[i]);
            var n := HunkEnd(lines, if marked then i + 1 else i);
            RoundAt(canon, lines, i, file, cursor).Failure? <==> (!marked && cursor != 0) || (n < |lines| && BadLine(lines[n]))
  {
    hide HunkEnd, BadLine, OldSide, Changes, Placed, Sought, DefLine;
    HunkIsOk(lines, BodyStart(lines, i));
  }

  /** A line of the new file, before anything that ends it, lacks its mark. */
  ghost predicate LacksMark(lines: seq<string>, i: nat)
  {
    exists k :: i < k < |lines| && !("+" <= lines[k]) && forall j | i < j <= k :: !StopsAdd(lines[j])
  }

  lemma AddRefusedIff(lines: seq<string>, i: nat)
    requires i < |lines|
    ensures AddAt(lines, i).Failure? <==> LacksMark(lines, i)
  {
    AddEndIs(lines, i + 1);
    hide Added, StopsAdd;
    var n := AddEnd(lines, i + 1);
    if n < |lines| && !StopsAdd(lines[n]) {
      assert !("+" <= lines[n]) && forall j | i < j <= n :: !StopsAdd(lines[j]);
    }
  }

  lemma UpdateRefusedIff(canon: Canon, lines: seq<string>, i: nat, text: string)
    requires i < |lines|
    ensures UpdateAt(canon, lines, i, text).Failure? <==> Rounds(canon, lines, BodyOf(lines, i), None, SplitLf(text), 0).Failure?
  {
    hide Rounds, SplitLf, MoveOf, SortByPlace, AllChunks;
  }

  /** A section is refused exactly when it has no header or its path was taken; when it is to update
      or delete a file that is not there, or to add one that is; and when its hunks are refused, or
      a line of a new file lacks its mark. */
  lemma SectionRefusedIff(canon: Canon, lines: seq<string>, i: nat, files: Files, taken: set<string>)
    requires i < |lines|
    ensures SectionAt(canon, lines, i, files, taken).Failure? <==>
            || !IsHeader(lines[i]) || HeaderPath(lines[i]) in taken
            || (if UPDATE <= lines[i] then
                  HeaderPath(lines[i]) !in files ||
                  Rounds(canon, lines, BodyOf(lines, i), None, SplitLf(files[HeaderPath(lines[i])]), 0).Failure?
                else if DELETE <= lines[i] then HeaderPath(lines[i]) !in files
                else HeaderPath(lines[i]) in files || LacksMark(lines, i))
  {
    hide Rounds, PathOf, SplitLf, UpdateAt, AddAt, LacksMark, BodyOf;
    AddRefusedIff(lines, i);
    if UPDATE <= lines[i] && PathOf(lines[i], UPDATE) in files {
      UpdateRefusedIff(canon, lines, i, files[PathOf(lines[i], UPDATE)]);
    }
  }

  /** The path in a header is what stands behind the marker, without the space around it. */
  lemma HeaderSays(line: string)
    requires IsHeader(line)
    ensures exists t :: HeaderIs(line, t) && Inner(t, HeaderPath(line))
  {
    hide Trim;
    var marker := if UPDATE <= line then UPDATE else if DELETE <= line then DELETE else ADD;
    assert line == marker + line[|marker|..];
    TrimIs(line[|marker|..]);
    assert HeaderIs(line, line[|marker|..]);
  }

  predicate HeaderIs(line: string, rest: string)
  {
    line == "*** Update File: " + rest || line == "*** Delete File: " + rest || line == "*** Add File: " + rest
  }

  /** The new path is what stands behind the marker of a move line, if there is one. */
  ghost predicate MovesTo(lines: seq<string>, k: nat, path: Option<string>)
  {
    if k + 1 < |lines| && "*** Move to: " <= lines[k + 1] then path.Some? && Inner(lines[k + 1][13..], path.value) else path.None?
  }

  lemma MoveSays(lines: seq<string>, k: nat)
    requires k < |lines|
    ensures MovesTo(lines, k, MoveOf(lines, k))
    ensures BodyOf(lines, k) == if k + 1 < |lines| && "*** Move to: " <= lines[k + 1] then k + 2 else k + 1
  {
    hide Trim;
    if Moves(lines, k) {
      TrimIs(lines[k + 1][13..]);
    }
  }

  // ---- What a section says in all ----

  function CostOf(placements: seq<Placement>): nat
  {
    if placements == [] then 0 else placements[0].cost + placements[0].defCost + CostOf(placements[1..])
  }

  lemma PlacedTexts(canon: Canon, file: seq<string>, p: Placement)
    requires Sound(canon, file, p)
    ensures InsOf(p.chunks) == InsOf(p.hunk.chunks) && DelOf(p.chunks) == DelOf(p.hunk.chunks)
  {
    hide WellFormed, BestFrom, Anchored, Fits, RunsMatch, AlikeAtMost, ScanBegan, Penalty, InsOf, DelOf;
    SameTexts(p.chunks, p.hunk.chunks);
  }

  predicate Silent(lines: seq<string>) { PlusTexts(lines) == [] && MinusTexts(lines) == [] }

  lemma MarkIsSilent(lines: seq<string>, i: nat)
    requires i <= |lines|
    ensures i <= BodyStart(lines, i) <= |lines| && Silent(lines[i..BodyStart(lines, i)])
  {
    NoTexts();
    if BodyStart(lines, i) > i {
      assert lines[i..i + 1] == [lines[i]] && lines[i][0] == '@';
      NoText(lines[i]);
    } else {
      assert lines[i..i] == [];
    }
  }

  lemma HunkEnds(lines: seq<string>, at: nat)
    requires at <= |lines| && HunkAt(lines, at).Success?
    ensures var n, next := HunkEnd(lines, at), HunkAt(lines, at).value.1;
            at <= n <= next <= |lines| && (next == n || (next == n + 1 && lines[n] == END_FILE))
  {
    hide HunkEnd, OldSide, Changes, BadLine;
  }

  lemma TailIsSilent(lines: seq<string>, n: nat, next: nat)
    requires n <= next <= |lines| && (next == n || (next == n + 1 && lines[n] == END_FILE))
    ensures Silent(lines[n..next])
  {
    NoTexts();
    if next > n {
      assert lines[n..next] == [lines[n]] && lines[n][0] == '*';
      NoText(lines[n]);
    } else {
      assert lines[n..next] == [];
    }
  }

  lemma EndIsSilent(lines: seq<string>, at: nat)
    requires at <= |lines| && HunkAt(lines, at).Success?
    ensures var n, next := HunkEnd(lines, at), HunkAt(lines, at).value.1;
            at <= n <= next <= |lines| && Silent(lines[n..next])
  {
    hide *;
    HunkEnds(lines, at);
    TailIsSilent(lines, HunkEnd(lines, at), HunkAt(lines, at).value.1);
  }

  lemma SilentAround(lines: seq<string>, i: nat, at: nat, n: nat, next: nat)
    requires i <= at <= n <= next <= |lines| && Silent(lines[i..at]) && Silent(lines[n..next])
    ensures PlusTexts(lines[i..next]) == PlusTexts(lines[at..n]) && MinusTexts(lines[i..next]) == MinusTexts(lines[at..n])
  {
    JoinsOn(lines, i, at, next);
    JoinsOn(lines, at, n, next);
    hide PlusTexts, MinusTexts;
  }

  /** The lines that a round takes: its mark, if there is one, its body, and an end-of-file mark. */
  lemma RoundLines(lines: seq<string>, i: nat)
    requires i <= |lines| && HunkAt(lines, BodyStart(lines, i)).Success?
    ensures var at := BodyStart(lines, i); var n, next := HunkEnd(lines, at), HunkAt(lines, at).value.1;
            && i <= at <= n <= next <= |lines|
            && PlusTexts(lines[i..next]) == PlusTexts(lines[at..n]) && MinusTexts(lines[i..next]) == MinusTexts(lines[at..n])
  {
    hide *;
    MarkIsSilent(lines, i);
    var at := BodyStart(lines, i);
    EndIsSilent(lines, at);
    SilentAround(lines, i, at, HunkEnd(lines, at), HunkAt(lines, at).value.1);
  }

  lemma NoTexts()
    ensures PlusTexts([]) == [] && MinusTexts([]) == []
  {
  }

  lemma RoundSays(canon: Canon, lines: seq<string>, i: nat, file: seq<string>, cursor: nat)
    requires i <= |lines| && RoundAt(canon, lines, i, file, cursor).Success?
    ensures var r := RoundAt(canon, lines, i, file, cursor).value;
            && i <= r.next <= |lines|
            && (r.placed.Some? ==>
                  && InsOf(r.placed.value.chunks) == PlusTexts(lines[i..r.next])
                  && DelOf(r.placed.value.chunks) == MinusTexts(lines[i..r.next])
                  && r.fuzz == r.placed.value.cost + r.placed.value.defCost)
  {
    var at := BodyStart(lines, i);
    HunkIsOk(lines, at);
    var sought := Sought(canon, file, DefLine(lines, i), cursor);
    PlacedIsSound(canon, file, HunkAt(lines, at).value.0, DefLine(lines, i).Some?, sought.0);
    RoundLines(lines, i);
    HunkSaysLines(lines, at);
    SaysAll(lines[at..HunkEnd(lines, at)], HunkAt(lines, at).value.0);
    var p := Placed(canon, file, HunkAt(lines, at).value.0, DefLine(lines, i).Some?, sought.0);
    hide Placed, HunkAt, HunkEnd, Sound, WellFormed, Sought, DefLine, SaysHunk, PlusTexts, MinusTexts, InsOf, DelOf, BodyStart,
         OldTexts, NewTexts;
    if p.placed.Some? {
      PlacedTexts(canon, file, p.placed.value);
    }
  }

  lemma JoinsOn(lines: seq<string>, i: nat, mid: nat, next: nat)
    requires i <= mid <= next <= |lines|
    ensures PlusTexts(lines[i..next]) == PlusTexts(lines[i..mid]) + PlusTexts(lines[mid..next])
    ensures MinusTexts(lines[i..next]) == MinusTexts(lines[i..mid]) + MinusTexts(lines[mid..next])
  {
    assert lines[i..next] == lines[i..mid] + lines[mid..next];
    TextsConcat(lines[i..mid], lines[mid..next]);
  }

  /** What the placements of a section insert and delete, and what they cost, are the texts behind
      its marks and its total. */
  ghost predicate SaysInAll(lines: seq<string>, i: nat, next: nat, placements: seq<Placement>, fuzz: nat)
  {
    && i <= next <= |lines| && fuzz == CostOf(placements)
    && InsOf(AllChunks(placements)) == PlusTexts(lines[i..next]) && DelOf(AllChunks(placements)) == MinusTexts(lines[i..next])
  }

  lemma SaysCons(lines: seq<string>, i: nat, mid: nat, next: nat, p: Placement, placements: seq<Placement>, fuzz: nat)
    requires i <= mid && SaysInAll(lines, mid, next, placements, fuzz)
    requires InsOf(p.chunks) == PlusTexts(lines[i..mid]) && DelOf(p.chunks) == MinusTexts(lines[i..mid])
    ensures SaysInAll(lines, i, next, [p] + placements, p.cost + p.defCost + fuzz)
  {
    JoinsOn(lines, i, mid, next);
    InsConcat(p.chunks, AllChunks(placements));
    assert ([p] + placements)[1..] == placements;
    hide InsOf, DelOf, PlusTexts, MinusTexts;
  }

  lemma SaysNothing(lines: seq<string>, i: nat)
    requires i <= |lines|
    ensures SaysInAll(lines, i, i, [], 0)
  {
  }

  lemma {:induction false} RoundsSay(canon: Canon, lines: seq<string>, i: nat, last: Option<nat>, file: seq<string>, cursor: nat)
    requires i <= |lines| && Rounds(canon, lines, i, last, file, cursor).Success?
    requires Rounds(canon, lines, i, last, file, cursor).value.missed == 0
    ensures var u := Rounds(canon, lines, i, last, file, cursor).value; SaysInAll(lines, i, u.next, u.placements, u.fuzz)
    decreases |lines| - i, if last == Some(i) then 0 else 1
  {
    hide RoundAt, SaysInAll, StopsUpdate, InsOf, DelOf, PlusTexts, MinusTexts;
    if i < |lines| && StopsUpdate(lines[i]) {
      SaysNothing(lines, i);
    } else {
      RoundMovesOn(canon, lines, i, file, cursor);
      var r := RoundAt(canon, lines, i, file, cursor).value;
      var rest := Rounds(canon, lines, r.next, Some(i), file, r.cursor).value;
      RoundSays(canon, lines, i, file, cursor);
      RoundsSay(canon, lines, r.next, Some(i), file, r.cursor);
      SaysCons(lines, i, r.next, rest.next, r.placed.value, rest.placements, rest.fuzz);
    }
  }

  // ---- The parser as it runs ----

  method SeekDef(canon: Canon, file: seq<string>, def: string, cursor: nat) returns (r: Option<nat>)
    ensures r == DefAt(canon, file, def, cursor)
  {
    hide DefReads;
    var i := cursor;
    while i < |file|
      invariant cursor <= i && DefAt(canon, file, def, i) == DefAt(canon, file, def, cursor)
    {
      if DefReads(canon, def, file[i]) {
        return Some(i);
      }
      i := i + 1;
    }
    r := None;
  }

  method PlaceByLine(canon: Canon, file: seq<string>, h: Hunk, cursor: nat) returns (r: Placing)
    requires InBlock(|h.context|, h.chunks)
    ensures r == AsLines(canon, file, h, cursor)
  {
    hide Anchored;
    var anchored := TryLineByLineAnchor(canon, file, h.context, h.chunks, cursor);
    if anchored.Some? {
      return AsLine(h, cursor, cursor, anchored.value);
    }
    if cursor > 0 {
      anchored := TryLineByLineAnchor(canon, file, h.context, h.chunks, 0);
      if anchored.Some? {
        return AsLine(h, cursor, 0, anchored.value);
      }
    }
    return Placing(None, cursor, 0);
  }

  method PlaceHunk(canon: Canon, file: seq<string>, h: Hunk, hadDef: bool, cursor: nat) returns (r: Placing)
    requires InBlock(|h.context|, h.chunks)
    ensures r == Placed(canon, file, h, hadDef, cursor)
  {
    hide Block, AsLines;
    var b := FindBlock(canon, file, h.context, cursor, h.eof);
    if !h.eof && hadDef && (b.None? || b.value.fuzz >= 1000) {
      r := PlaceByLine(canon, file, h, cursor);
      return;
    }
    var from := if b.Some? then ScanStart(file, h.context, cursor, h.eof, b.value.fuzz) else 0;
    if b.None? && !h.eof {
      b := FindBlock(canon, file, h.context, 0, false);
    }
    return if b.Some? then AsBlock(h, hadDef, cursor, from, b.value) else Placing(None, cursor, 0);
  }

  method Seek(canon: Canon, file: seq<string>, def: Option<string>, cursor: nat) returns (at: nat, fuzz: nat)
    ensures (at, fuzz) == Sought(canon, file, def, cursor)
  {
    hide DefReads, DefFuzz;
    if def.None? {
      return cursor, 0;
    }
    var d := SeekDef(canon, file, def.value, cursor);
    if d.None? {
      return cursor, 0;
    }
    return d.value + 1, DefFuzz(canon, def.value, file[d.value]);
  }

  method OneRound(canon: Canon, lines: seq<string>, i: nat, file: seq<string>, cursor: nat) returns (r: Result<Round, string>)
    requires i <= |lines|
    ensures r == RoundAt(canon, lines, i, file, cursor)
  {
    hide Placed, HunkAt, DefLine, Sought, OpensHunk;
    var index := i;
    if i < |lines| && OpensHunk(lines[i]) {
      index := i + 1;
    } else if cursor != 0 {
      return Failure("Invalid Line");
    }
    var def := DefLine(lines, i);
    var at, fuzz := Seek(canon, file, def, cursor);
    HunkIsOk(lines, index);
    var h := Peek(lines, index);
    if h.Failure? {
      return Failure(h.error);
    }
    var p := PlaceHunk(canon, file, h.value.0, def.Some?, at);
    return Success(Round(h.value.1, p.cursor, fuzz + p.fuzz, WithDefCost(p.placed, fuzz)));
  }

  ghost predicate RoundsSoFar(all: Result<Updated, string>, rest: Result<Updated, string>,
                              fuzz: nat, placements: seq<Placement>, missed: nat)
  {
    all == if rest.Failure? then rest
           else Success(Updated(rest.value.next, fuzz + rest.value.fuzz, placements + rest.value.placements, missed + rest.value.missed))
  }

  lemma RoundsStep(all: Result<Updated, string>, canon: Canon, lines: seq<string>, i: nat, last: Option<nat>,
                   file: seq<string>, cursor: nat, fuzz: nat, placements: seq<Placement>, missed: nat)
    requires i <= |lines| && !(i < |lines| && StopsUpdate(lines[i])) && last != Some(i)
    requires RoundsSoFar(all, Rounds(canon, lines, i, last, file, cursor), fuzz, placements, missed)
    ensures var r := RoundAt(canon, lines, i, file, cursor);
            && (r.Failure? ==> all == Failure(r.error))
            && (r.Success? ==>
                  i <= r.value.next <= |lines| &&
                  RoundsSoFar(all, Rounds(canon, lines, r.value.next, Some(i), file, r.value.cursor), fuzz + r.value.fuzz,
                              if r.value.placed.Some? then placements + [r.value.placed.value] else placements,
                              if r.value.placed.Some? then missed else missed + 1))
  {
    hide RoundAt, StopsUpdate;
    RoundMovesOn(canon, lines, i, file, cursor);
    var r := RoundAt(canon, lines, i, file, cursor);
    if r.Success? {
      var rest := Rounds(canon, lines, r.value.next, Some(i), file, r.value.cursor);
      if rest.Success? && r.value.placed.Some? {
        assert placements + ([r.value.placed.value] + rest.value.placements) ==
               placements + [r.value.placed.value] + rest.value.placements;
      }
    }
  }

  lemma {:induction false} AllChunksSnoc(placements: seq<Placement>, p: Placement)
    ensures AllChunks(placements + [p]) == AllChunks(placements) + p.chunks
    decreases |placements|
  {
    if placements == [] {
      assert placements + [p] == [p] && AllChunks([]) + p.chunks == p.chunks && p.chunks + [] == p.chunks;
    } else {
      AllChunksSnoc(placements[1..], p);
      assert (placements + [p])[1..] == placements[1..] + [p];
      assert placements[0].chunks + (AllChunks(placements[1..]) + p.chunks) == AllChunks(placements) + p.chunks;
    }
  }

  class PatchParser {
    const canon: Canon
    const lines: seq<string>
    const currentFiles: Files
    var index: nat
    var fuzz: nat
    var missed: nat
    var actions: map<string, Action>

    constructor (canon: Canon, lines: seq<string>, currentFiles: Files)
      ensures this.canon == canon && this.lines == lines && this.currentFiles == currentFiles
      ensures index == 0 && fuzz == 0 && missed == 0 && actions == map[]
    {
      this.canon, this.lines, this.currentFiles := canon, lines, currentFiles;
      index, fuzz, missed, actions := 0, 0, 0, map[];
    }

    /** Reads the hunks of an update section; each round must consume a line. */
    method ParseUpdateFile(text: string) returns (r: Result<Action, string>)
      requires index <= |lines|
      modifies this
      ensures actions == old(actions)
      ensures var u := Rounds(canon, lines, old(index), None, SplitLf(text), 0);
              if u.Failure? then r == Failure(u.error)
              else
                && r == Success(Update(SortByPlace(AllChunks(u.value.placements)), u.value.placements, None))
                && index == u.value.next <= |lines|
                && fuzz == old(fuzz) + u.value.fuzz && missed == old(missed) + u.value.missed
    {
      hide RoundsSoFar, Rounds, RoundAt, StopsUpdate, AllChunks;
      var file := SplitLf(text);
      ghost var all := Rounds(canon, lines, index, None, file, 0);
      var cursor: nat := 0;
      var last: Option<nat> := None;
      var placements: seq<Placement>, chunks: seq<PatchChunk> := [], [];
      RoundsBegin(all);
      while index == |lines| || !StopsUpdate(lines[index])
        invariant index <= |lines| && actions == old(actions) && chunks == AllChunks(placements)
        invariant fuzz >= old(fuzz) && missed >= old(missed)
        invariant RoundsSoFar(all, Rounds(canon, lines, index, last, file, cursor), fuzz - old(fuzz), placements, missed - old(missed))
        decreases |lines| - index, if last == Some(index) then 0 else 1
      {
        if last == Some(index) {
          RoundsStuck(all, canon, lines, index, file, cursor, fuzz - old(fuzz), placements, missed - old(missed));
          return Failure("Invalid Line (parser made no progress)");
        }
        RoundsStep(all, canon, lines, index, last, file, cursor, fuzz - old(fuzz), placements, missed - old(missed));
        var round := OneRound(canon, lines, index, file, cursor);
        if round.Failure? {
          return Failure(round.error);
        }
        fuzz := fuzz + round.value.fuzz;
        if round.value.placed.Some? {
          AllChunksSnoc(placements, round.value.placed.value);
          chunks := chunks + round.value.placed.value.chunks;
          placements := placements + [round.value.placed.value];
        } else {
          missed := missed + 1;
        }
        last, index, cursor := Some(index), round.value.next, round.value.cursor;
      }
      RoundsEnd(all, canon, lines, index, last, file, cursor, fuzz - old(fuzz), placements, missed - old(missed));
      return Success(Update(SortByPlace(chunks), placements, None));
    }

    method ParseUpdate(path: string) returns (r: Result<(), string>)
      requires index < |lines| && UPDATE <= lines[index] && path == PathOf(lines[index], UPDATE)
      modifies this
      ensures Entered(old(index), old(actions), old(fuzz), old(missed), r)
    {
      hide Rounds, StopsUpdate, AllChunks, SortByPlace, Trim;
      if path in actions {
        return Failure("Duplicate update");
      }
      index := index + 1;
      var movePath: Option<string> := None;
      if index < |lines| && MOVE <= lines[index] {
        movePath := Some(PathOf(lines[index], MOVE));
        index := index + 1;
      }
      if path !in currentFiles {
        return Failure("Update File Error: Missing File");
      }
      var action := ParseUpdateFile(currentFiles[path]);
      if action.Failure? {
        return Failure(action.error);
      }
      actions := actions[path := action.value.(movePath := movePath)];
      return Success(());
    }

    /** The section at the old index is in the patch, and the index is behind it. */
    ghost predicate Entered(i: nat, before: map<string, Action>, fuzzBefore: nat, missedBefore: nat, r: Result<(), string>)
      requires i < |lines|
      reads this
    {
      var s := SectionAt(canon, lines, i, currentFiles, before.Keys);
      if s.Failure? then r == Failure(s.error)
      else
        && r.Success? && index == s.value.1.next && actions == before[s.value.0 := s.value.1.action]
        && fuzz == fuzzBefore + s.value.1.fuzz && missed == missedBefore + s.value.1.missed
    }

    method ParseDelete(path: string) returns (r: Result<(), string>)
      requires index < |lines| && !(UPDATE <= lines[index]) && DELETE <= lines[index] && path == PathOf(lines[index], DELETE)
      modifies this
      ensures Entered(old(index), old(actions), old(fuzz), old(missed), r)
    {
      hide UpdateAt, AddAt, Trim;
      if path in actions {
        return Failure("Duplicate delete");
      }
      if path !in currentFiles {
        return Failure("Delete File Error: Missing File");
      }
      actions := actions[path := Delete];
      index := index + 1;
      return Success(());
    }

    method ParseAdd(path: string) returns (r: Result<(), string>)
      requires index < |lines| && !(UPDATE <= lines[index]) && !(DELETE <= lines[index]) && ADD <= lines[index]
      requires path == PathOf(lines[index], ADD)
      modifies this
      ensures Entered(old(index), old(actions), old(fuzz), old(missed), r)
    {
      hide UpdateAt, Trim, StopsAdd, AddAt;
      if path in actions {
        return Failure("Duplicate add");
      }
      if path in currentFiles {
        return Failure("Add File Error: File already exists");
      }
      var text := ReadAdded();
      if text.Failure? {
        return Failure(text.error);
      }
      actions := actions[path := Add(text.value)];
      return Success(());
    }

    method ReadAdded() returns (r: Result<string, string>)
      requires index < |lines|
      modifies this
      ensures actions == old(actions) && fuzz == old(fuzz) && missed == old(missed)
      ensures var a := AddAt(lines, old(index));
              if a.Failure? then r == Failure(a.error)
              else r.Success? && index == a.value.next && a.value == Read(index, Add(r.value), 0, 0)
    {
      hide StopsAdd;
      index := index + 1;
      var content: seq<string> := [];
      while index < |lines| && !StopsAdd(lines[index])
        invariant old(index) + 1 <= index <= |lines| && actions == old(actions) && fuzz == old(fuzz) && missed == old(missed)
        invariant AddEnd(lines, old(index) + 1) == AddEnd(lines, index)
        invariant content == Added(lines, old(index) + 1, index)
      {
        if !("+" <= lines[index]) {
          return Failure("Invalid Add File line (missing '+')");
        }
        content := content + [lines[index][1..]];
        index := index + 1;
      }
      return Success(Join(content));
    }

    method ParseNextAction() returns (r: Result<(), string>)
      requires index < |lines|
      modifies this
      ensures Entered(old(index), old(actions), old(fuzz), old(missed), r)
    {
      var line := lines[index];
      if UPDATE <= line {
        r := ParseUpdate(PathOf(line, UPDATE));
      } else if DELETE <= line {
        r := ParseDelete(PathOf(line, DELETE));
      } else if ADD <= line {
        r := ParseAdd(PathOf(line, ADD));
      } else {
        r := Failure("Unknown line while parsing");
      }
    }

    method Parse() returns (r: Result<Patch, string>)
      requires index == 0 && fuzz == 0 && missed == 0 && actions == map[]
      modifies this
      ensures r == PatchOf(canon, lines, currentFiles)
    {
      hide SectionAt;
      if lines != [] && BEGIN <= lines[0] {
        index := 1;
      }
      while index < |lines| && !(END <= lines[index])
        invariant index <= |lines|
        invariant Parsed(canon, lines, index, currentFiles, Patch(actions, fuzz, missed)) == PatchOf(canon, lines, currentFiles)
        decreases |lines| - index
      {
        var s := ParseNextAction();
        if s.Failure? {
          return Failure(s.error);
        }
      }
      return Success(Patch(actions, fuzz, missed));
    }
  }

  lemma RoundsBegin(all: Result<Updated, string>)
    ensures RoundsSoFar(all, all, 0, [], 0) && AllChunks([]) == []
  {
    if all.Success? {
      assert [] + all.value.placements == all.value.placements;
    }
  }

  lemma RoundsStuck(all: Result<Updated, string>, canon: Canon, lines: seq<string>, i: nat,
                    file: seq<string>, cursor: nat, fuzz: nat, placements: seq<Placement>, missed: nat)
    requires i <= |lines| && !(i < |lines| && StopsUpdate(lines[i]))
    requires RoundsSoFar(all, Rounds(canon, lines, i, Some(i), file, cursor), fuzz, placements, missed)
    ensures all == Failure("Invalid Line (parser made no progress)")
  {
    hide RoundAt, StopsUpdate;
  }

  lemma RoundsEnd(all: Result<Updated, string>, canon: Canon, lines: seq<string>, i: nat, last: Option<nat>,
                  file: seq<string>, cursor: nat, fuzz: nat, placements: seq<Placement>, missed: nat)
    requires i < |lines| && StopsUpdate(lines[i])
    requires RoundsSoFar(all, Rounds(canon, lines, i, last, file, cursor), fuzz, placements, missed)
    ensures all == Success(Updated(i, fuzz, placements, missed))
  {
    hide RoundAt, StopsUpdate;
    assert placements + [] == placements;
  }
}
