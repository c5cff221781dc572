/** A patch that is found before the first line of its file, and refused for it; and two patches in
    one text, of which the second is not read. */
module PatchInputs {
  import opened Wrappers
  import opened Lines
  import opened LineEndings
  import opened Anchor
  import opened Hunks
  import opened BlockSearch
  import opened LineByLine
  import Parser = PatchParser
  import opened PatchParser
  import opened PatchChanges

  /** Takes the one line of a file away, with two more lines behind it that the file lacks. */
  const LINES: seq<string> :=
    [BEGIN, UPDATE + "f", "-aaaaaaaa", " a", " a", END_FILE, END]

  const FILES: Files := map["f" := "aaaaaaaa"]

  const CHUNK: PatchChunk := PatchChunk(0, ["aaaaaaaa"], [])

  const HUNK: Hunk := Hunk(THREE_LINES, [CHUNK], true)

  const PLACED: Placement := Placement(HUNK, false, 0, AtBlock(-2, -2), 1, [CHUNK.(origIndex := -2)], 1000, 0)

  lemma Marks()
    ensures forall k | 2 <= k < 5 :: !StopsHunk(LINES[k]) && !("***" <= LINES[k]) && !OpensHunk(LINES[k]) && !StopsUpdate(LINES[k])
    ensures StopsHunk(LINES[5]) && !("@@ " <= LINES[2]) && StopsUpdate(LINES[6])
  {
    assert LINES[2][0] == '-' && LINES[3][0] == ' ' && LINES[4][0] == ' ';
    assert END[0] == UPDATE[0] == DELETE[0] == ADD[0] == END_FILE[0] == '*';
    assert END <= LINES[6] && END_FILE <= LINES[5];
  }

  lemma ReadsTheBody()
    ensures OldSide(["-aaaaaaaa", " a", " a"]) == THREE_LINES && Changes(["-aaaaaaaa", " a", " a"]) == [CHUNK]
  {
    var l, k := "-aaaaaaaa", " a";
    assert MarkOf(l) == Remove && TextOf(l) == "aaaaaaaa" && MarkOf(k) == Keep && TextOf(k) == "a";
    assert [] + [l] == [l] && [l] + [k] == [l, k] && [l, k] + [k] == [l, k, k];
    SidesOf([], l);
    assert OldSide([l]) == ["aaaaaaaa"] && Changes([l]) == [CHUNK];
    hide Changes, OldSide;
    SidesOf([l], k);
    SidesOf([l, k], k);
  }

  lemma ReadsTheHunk()
    ensures HunkAt(LINES, 2) == Success((HUNK, 6))
  {
    Marks();
    EndHere(LINES, 2);
    EndHere(LINES, 3);
    EndHere(LINES, 4);
    EndHere(LINES, 5);
    assert LINES[2..5] == ["-aaaaaaaa", " a", " a"];
    ReadsTheBody();
    hide HunkEnd, StopsHunk, BadLine, Changes, OldSide;
  }

  lemma ByItsBlock(canon: Canon, file: seq<string>, h: Hunk, cursor: nat, f: Found)
    requires InBlock(|h.context|, h.chunks) && Block(canon, file, h.context, cursor, h.eof) == Some(f)
    ensures Parser.Placed(canon, file, h, false, cursor) ==
            AsBlock(h, false, cursor, ScanStart(file, h.context, cursor, h.eof, f.fuzz), f)
  {
    hide Block, AsBlock, InBlock;
  }

  lemma AsItsBlock()
    ensures AsBlock(HUNK, false, 0, ScanStart(ONE_LINE, HUNK.context, 0, HUNK.eof, 1000), Found(-2, 1000)) ==
            Placing(Some(PLACED), 1, 1000)
  {
    assert Parser.Shifted([CHUNK], -2) == PLACED.chunks;
  }

  lemma HunkSays()
    ensures HUNK.context == THREE_LINES && HUNK.eof && InBlock(|HUNK.context|, HUNK.chunks)
  {
  }

  lemma FindsItsPlace()
    ensures Parser.Placed(AsIs, ONE_LINE, HUNK, false, 0) == Placing(Some(PLACED), 1, 1000)
  {
    hide *;
    FoundBeforeTheFile(0);
    HunkSays();
    ByItsBlock(AsIs, ONE_LINE, HUNK, 0, Found(-2, 1000));
    AsItsBlock();
  }

  lemma FirstRound(canon: Canon, lines: seq<string>, i: nat, file: seq<string>, h: Hunk, next: nat)
    requires i <= |lines| && BodyStart(lines, i) == i && DefLine(lines, i) == None && HunkAt(lines, i) == Success((h, next))
    requires InBlock(|h.context|, h.chunks)
    ensures var p := Parser.Placed(canon, file, h, false, 0);
            RoundAt(canon, lines, i, file, 0) == Success(Round(next, p.cursor, p.fuzz, WithDefCost(p.placed, 0)))
  {
    hide HunkAt, Parser.Placed, BodyStart, DefLine, InBlock;
  }

  lemma NoDefCost()
    ensures WithDefCost(Some(PLACED), 0) == Some(PLACED)
  {
  }

  lemma NoMarkNoDef()
    ensures |LINES| == 7 && BodyStart(LINES, 2) == 2 && DefLine(LINES, 2) == None
  {
    Marks();
  }

  lemma PlacesTheHunk()
    ensures RoundAt(AsIs, LINES, 2, ONE_LINE, 0) == Success(Round(6, 1, 1000, Some(PLACED)))
  {
    hide *;
    NoMarkNoDef();
    ReadsTheHunk();
    FindsItsPlace();
    HunkSays();
    FirstRound(AsIs, LINES, 2, ONE_LINE, HUNK, 6);
    NoDefCost();
  }

  lemma SectionEnds(canon: Canon, last: nat, file: seq<string>, cursor: nat)
    ensures Rounds(canon, LINES, 6, Some(last), file, cursor) == Success(Updated(6, 0, [], 0))
  {
    Marks();
    hide RoundAt, StopsUpdate;
  }

  lemma ReadsTheSection()
    ensures Rounds(AsIs, LINES, 2, None, ONE_LINE, 0) == Success(Updated(6, 1000, [PLACED], 0))
  {
    Marks();
    PlacesTheHunk();
    SectionEnds(AsIs, 2, ONE_LINE, 1);
    hide RoundAt, StopsUpdate, StopsHunk, OpensHunk;
    assert [PLACED] + [] == [PLACED];
  }

  lemma OneLineFile()
    ensures SplitLf("aaaaaaaa") == ONE_LINE && ToLf("aaaaaaaa") == "aaaaaaaa"
  {
    SplitPiece("aaaaaaaa", "");
    ToLfPiece("aaaaaaaa", "");
  }

  lemma PathIs()
    ensures PathOf(LINES[1], UPDATE) == "f" && !(END <= LINES[1]) && !(MOVE <= LINES[2]) && END <= LINES[6]
  {
    assert LINES[1][|UPDATE|..] == "f";
    assert LINES[1][4] == 'U' && END[4] == 'E' && LINES[2][0] == '-';
  }

  function ActionOf(): Action { Update(PLACED.chunks, [PLACED], None) }

  lemma ReadsTheUpdate()
    ensures UpdateAt(AsIs, LINES, 1, "aaaaaaaa") == Success(Read(6, ActionOf(), 1000, 0))
  {
    PathIs();
    OneLineFile();
    ReadsTheSection();
    assert AllChunks([PLACED]) == PLACED.chunks;
    assert SortByPlace(PLACED.chunks) == PLACED.chunks;
    hide Rounds, SplitLf, AllChunks, SortByPlace, PathOf;
  }

  lemma ReadsThePatch()
    ensures PatchOf(AsIs, LINES, FILES) == Success(Patch(map["f" := ActionOf()], 1000, 0))
  {
    ReadsTheUpdate();
    PathIs();
    Bracketed();
    hide UpdateAt, PathOf;
    assert SectionAt(AsIs, LINES, 1, FILES, {}) == Success(("f", Read(6, ActionOf(), 1000, 0)));
    hide SectionAt;
    assert Parsed(AsIs, LINES, 6, FILES, Patch(map["f" := ActionOf()], 1000, 0)) == Success(Patch(map["f" := ActionOf()], 1000, 0));
  }

  lemma Bracketed()
    ensures BEGIN <= LINES[0] && UPDATE <= LINES[1] && END <= LINES[6]
  {
  }

  lemma ItDoesNotFit(platformCrlf: bool)
    ensures ChangeOf("aaaaaaaa", ActionOf(), platformCrlf) == None
  {
    hide WorkLines;
  }

  lemma NormalizesToItself()
    ensures Normalized(Join(LINES)) == Success(LINES)
  {
    forall k | 0 <= k < |LINES| ensures NoLf(LINES[k]) && WithoutCr(LINES[k]) == LINES[k] {
      PlainLine(k);
    }
    SplitJoin(LINES);
    hide Join, SplitLf, NoLf, WithoutCr, Stripped, IsWrapper;
    assert RawLines(Join(LINES)) == LINES;
    Bracketed();
    assert FirstBegin(LINES, 0) == 0 && LastEnd(LINES, 7) == 7;
    assert LINES[0..7] == LINES;
  }

  lemma PlainLine(k: nat)
    requires k < |LINES|
    ensures NoLf(LINES[k]) && WithoutCr(LINES[k]) == LINES[k]
  {
  }

  lemma FilesAreLf()
    ensures LfFiles(FILES) == FILES && ContentOf(FILES, "f") == "aaaaaaaa"
  {
    OneLineFile();
  }

  /** The patch is refused whole: its block is found before the first line of the file, and its
      chunk would start there. */
  lemma RefusedBeforeTheFile(platformCrlf: bool, r: Result<(map<string, Change>, nat), string>)
    requires Computed(AsIs, Join(LINES), FILES, platformCrlf, r)
    ensures r.Failure?
  {
    NormalizesToItself();
    FilesAreLf();
    ReadsThePatch();
    ItDoesNotFit(platformCrlf);
    hide Join, Normalized, LfFiles, PatchOf, ChangeOf, ContentOf, ActionOf;
    assert "f" in map["f" := ActionOf()];
  }

  // ---- Two patches in one text ----

  const TWO_PATCHES: seq<string> := [BEGIN, DELETE + "f", END, BEGIN, DELETE + "g", END]

  const TWO_FILES: Files := map["f" := "x", "g" := "y"]

  lemma TwoNormalized()
    ensures Normalized(Join(TWO_PATCHES)) == Success(TWO_PATCHES)
  {
    forall k | 0 <= k < |TWO_PATCHES| ensures NoLf(TWO_PATCHES[k]) && WithoutCr(TWO_PATCHES[k]) == TWO_PATCHES[k] {
      TwoPlain(k);
    }
    SplitJoin(TWO_PATCHES);
    hide Join, SplitLf, NoLf, WithoutCr, Stripped, IsWrapper;
    assert RawLines(Join(TWO_PATCHES)) == TWO_PATCHES;
    TwoMarks();
    assert FirstBegin(TWO_PATCHES, 0) == 0 && LastEnd(TWO_PATCHES, 6) == 6;
    assert TWO_PATCHES[0..6] == TWO_PATCHES;
  }

  lemma TwoPlain(k: nat)
    requires k < |TWO_PATCHES|
    ensures NoLf(TWO_PATCHES[k]) && WithoutCr(TWO_PATCHES[k]) == TWO_PATCHES[k]
  {
  }

  lemma TwoMarks()
    ensures BEGIN <= TWO_PATCHES[0] && DELETE <= TWO_PATCHES[1] && !(UPDATE <= TWO_PATCHES[1]) && !(END <= TWO_PATCHES[1])
    ensures END <= TWO_PATCHES[2] && END <= TWO_PATCHES[5] && PathOf(TWO_PATCHES[1], DELETE) == "f"
  {
    assert TWO_PATCHES[1][|DELETE|..] == "f";
    assert TWO_PATCHES[1][4] == 'D' && UPDATE[4] == 'U' && END[4] == 'E';
  }

  lemma TwoFilesAreLf()
    ensures LfFiles(TWO_FILES) == TWO_FILES
  {
    assert ToLf("x") == "x" && ToLf("y") == "y";
  }

  lemma ReadsTheFirst()
    ensures PatchOf(AsIs, TWO_PATCHES, TWO_FILES) == Success(Patch(map["f" := Delete], 0, 0))
  {
    TwoMarks();
    hide PathOf;
    assert SectionAt(AsIs, TWO_PATCHES, 1, TWO_FILES, {}) == Success(("f", Read(2, Delete, 0, 0)));
    hide SectionAt;
    assert Parsed(AsIs, TWO_PATCHES, 2, TWO_FILES, Patch(map["f" := Delete], 0, 0)) == Success(Patch(map["f" := Delete], 0, 0));
  }

  /** The text is taken up to its last end sentinel and read up to its first: the second file is
      not deleted, and nothing says so. */
  lemma SecondPatchIsIgnored(platformCrlf: bool, r: Result<(map<string, Change>, nat), string>)
    requires Computed(AsIs, Join(TWO_PATCHES), TWO_FILES, platformCrlf, r)
    ensures r.Success? && r.value.0.Keys == {"f"} && IsHeader(TWO_PATCHES[4]) && HeaderPath(TWO_PATCHES[4]) == "g"
  {
    TwoNormalized();
    TwoFilesAreLf();
    ReadsTheFirst();
    SecondHeader();
    hide Join, Normalized, LfFiles, PatchOf, ContentOf, IsHeader, HeaderPath, Restored, HasCrlf;
  }

  lemma SecondHeader()
    ensures IsHeader(TWO_PATCHES[4]) && HeaderPath(TWO_PATCHES[4]) == "g"
  {
    assert TWO_PATCHES[4][|DELETE|..] == "g";
    assert TWO_PATCHES[4][4] == 'D' && UPDATE[4] == 'U' && DELETE <= TWO_PATCHES[4];
  }
}
