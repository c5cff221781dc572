/** Finding where a hunk belongs in a file, and applying a whole patch or none of it. */
module Anchor {
  import opened Wrappers
  import opened Lines
  import opened Numbers
  import opened Diff
  import Levenshtein

  /** Normalisation of text before comparison; only equality of its results matters. */
  type Canon = string -> string

  const THRESHOLD: real := 0.66

  // ---- Views of lines that the four levels compare ----

  /** The white space that JavaScript trims. */
  predicate IsSpace(c: char)
  {
    '\U{0009}' <= c <= '\U{000D}' || c == ' ' || c == '\U{00A0}' || c == '\U{1680}' || '\U{2000}' <= c <= '\U{200A}' ||
    c == '\U{2028}' || c == '\U{2029}' || c == '\U{202F}' || c == '\U{205F}' || c == '\U{3000}' || c == '\U{FEFF}'
  }

  function TrimEnd(s: string): string
  {
    if s != "" && IsSpace(s[|s| - 1]) then TrimEnd(s[..|s| - 1]) else s
  }

  function TrimStart(s: string): string
  {
    if s != "" && IsSpace(s[0]) then TrimStart(s[1..]) else s
  }

  function Trim(s: string): string { TrimStart(TrimEnd(s)) }

  datatype Level = Exact | TrailingSpace | OuterSpace | Similar

  function Fuzz(level: Level): nat
  {
    match level case Exact => 0 case TrailingSpace => 1 case OuterSpace => 100 case Similar => 1000
  }

  function View(level: Level, lines: seq<string>): seq<string>
  {
    match level
    case TrailingSpace => seq(|lines|, k requires 0 <= k < |lines| => TrimEnd(lines[k]))
    case OuterSpace => seq(|lines|, k requires 0 <= k < |lines| => Trim(lines[k]))
    case _ => lines
  }

  function Key(canon: Canon, level: Level, lines: seq<string>): string
  {
    canon(Join(View(level, lines)))
  }

  function Window(lines: seq<string>, context: seq<string>, i: nat): seq<string> { Cut(lines, i, i + |context|) }

  /** How similar the context is to the lines that start at i. */
  function Score(canon: Canon, lines: seq<string>, context: seq<string>, i: nat): real
  {
    Levenshtein.Similarity(canon(Join(Window(lines, context, i))), canon(Join(context)))
  }

  /** The context matches the lines that start at i. */
  predicate Matches(canon: Canon, level: Level, lines: seq<string>, context: seq<string>, i: nat)
  {
    if level == Similar then Score(canon, lines, context, i) >= THRESHOLD
    else Key(canon, level, Window(lines, context, i)) == Key(canon, level, context)
  }

  // ---- The anchoring search ----

  datatype Hit = Hit(index: nat, fuzz: nat, similarity: Option<real>) | Miss(best: real)

  /** The first match at or after i. */
  function FirstMatch(canon: Canon, level: Level, lines: seq<string>, context: seq<string>, i: nat): Option<nat>
    decreases |lines| - i
  {
    if i + |context| > |lines| then None
    else if Matches(canon, level, lines, context, i) then Some(i)
    else FirstMatch(canon, level, lines, context, i + 1)
  }

  lemma {:induction false} FirstMatchIsFirst(canon: Canon, level: Level, lines: seq<string>, context: seq<string>, i: nat)
    ensures var r := FirstMatch(canon, level, lines, context, i);
            && (r.Some? ==> i <= r.value && r.value + |context| <= |lines| && Matches(canon, level, lines, context, r.value))
            && (r.Some? ==> forall j | i <= j < r.value :: !Matches(canon, level, lines, context, j))
            && (r.None? ==> forall j | i <= j <= |lines| - |context| :: !Matches(canon, level, lines, context, j))
    decreases |lines| - i
  {
    hide Matches;
    if i + |context| <= |lines| && !Matches(canon, level, lines, context, i) {
      FirstMatchIsFirst(canon, level, lines, context, i + 1);
    }
  }

  /** The greatest score of a window at or after i, but at least the best so far. */
  function BestScore(canon: Canon, lines: seq<string>, context: seq<string>, i: nat, best: real): real
    decreases |lines| - i
  {
    if i + |context| > |lines| then best
    else
      var s := Score(canon, lines, context, i);
      BestScore(canon, lines, context, i + 1, if s > best then s else best)
  }

  lemma {:induction false} BestScoreIsBest(canon: Canon, lines: seq<string>, context: seq<string>, i: nat, best: real)
    ensures var r := BestScore(canon, lines, context, i, best);
            && r >= best && (forall j | i <= j <= |lines| - |context| :: r >= Score(canon, lines, context, j))
            && (r == best || exists j :: i <= j <= |lines| - |context| && r == Score(canon, lines, context, j))
    decreases |lines| - i
  {
    hide Score;
    if i + |context| <= |lines| {
      var s := Score(canon, lines, context, i);
      BestScoreIsBest(canon, lines, context, i + 1, if s > best then s else best);
    }
  }

  function Locate(canon: Canon, lines: seq<string>, context: seq<string>, start: nat, hint: nat): Hit
  {
    if |context| == 0 then Hit(Max(start, hint), 0, None)
    else
      var exact := FirstMatch(canon, Exact, lines, context, start);
      if exact.Some? then Hit(exact.value, 0, None) else
      var trailing := FirstMatch(canon, TrailingSpace, lines, context, start);
      if trailing.Some? then Hit(trailing.value, 1, None) else
      var outer := FirstMatch(canon, OuterSpace, lines, context, start);
      if outer.Some? then Hit(outer.value, 100, None) else
      var similar := FirstMatch(canon, Similar, lines, context, start);
      if similar.Some? then Hit(similar.value, 1000, Some(Score(canon, lines, context, similar.value)))
      else Miss(BestScore(canon, lines, context, start, 0.0))
  }

  method Scan(canon: Canon, level: Level, lines: seq<string>, context: seq<string>, start: nat) returns (r: Option<nat>)
    ensures r == FirstMatch(canon, level, lines, context, start)
  {
    hide Matches;
    var i := start;
    while i + |context| <= |lines|
      invariant start <= i
      invariant FirstMatch(canon, level, lines, context, i) == FirstMatch(canon, level, lines, context, start)
    {
      if Matches(canon, level, lines, context, i) {
        return Some(i);
      }
      i := i + 1;
    }
    r := None;
  }

  lemma MatchesSimilar(canon: Canon, lines: seq<string>, context: seq<string>, i: nat)
    ensures Matches(canon, Similar, lines, context, i) <==> Score(canon, lines, context, i) >= THRESHOLD
  {
  }

  method ScoreAt(canon: Canon, lines: seq<string>, context: seq<string>, i: nat) returns (s: real)
    ensures s == Score(canon, lines, context, i)
  {
    s := Levenshtein.ComputeSimilarity(canon(Join(Window(lines, context, i))), canon(Join(context)));
  }

  /** The last level: the first window that is similar enough, or else the best score seen. */
  method ScanSimilar(canon: Canon, lines: seq<string>, context: seq<string>, start: nat)
    returns (r: Option<nat>, best: real)
    ensures r == FirstMatch(canon, Similar, lines, context, start)
    ensures best == if r.Some? then Score(canon, lines, context, r.value) else BestScore(canon, lines, context, start, 0.0)
  {
    hide Matches, Score;
    best := 0.0;
    var i := start;
    while i + |context| <= |lines|
      invariant start <= i
      invariant FirstMatch(canon, Similar, lines, context, i) == FirstMatch(canon, Similar, lines, context, start)
      invariant BestScore(canon, lines, context, i, best) == BestScore(canon, lines, context, start, 0.0)
    {
      MatchesSimilar(canon, lines, context, i);
      var s := ScoreAt(canon, lines, context, i);
      if s >= THRESHOLD {
        return Some(i), s;
      }
      if s > best {
        best := s;
      }
      i := i + 1;
    }
    r := None;
  }

  /** The four-level search: each level scans all windows before the next one starts. */
  method FindContext(canon: Canon, lines: seq<string>, context: seq<string>, start: nat, hint: nat) returns (r: Hit)
    ensures r == Locate(canon, lines, context, start, hint)
  {
    hide FirstMatch, BestScore, Score, Matches;
    if |context| == 0 {
      return Hit(Max(start, hint), 0, None);
    }
    var m := Scan(canon, Exact, lines, context, start);
    if m.Some? {
      return Hit(m.value, 0, None);
    }
    m := Scan(canon, TrailingSpace, lines, context, start);
    if m.Some? {
      return Hit(m.value, 1, None);
    }
    m := Scan(canon, OuterSpace, lines, context, start);
    if m.Some? {
      return Hit(m.value, 100, None);
    }
    var best;
    m, best := ScanSimilar(canon, lines, context, start);
    r := if m.Some? then Hit(m.value, 1000, Some(best)) else Miss(best);
  }

  /** The window at index is the first that matches at this level, and no window matches at
      a better level. */
  ghost predicate Sound(canon: Canon, lines: seq<string>, context: seq<string>, start: nat, index: nat, level: Level)
  {
    && start <= index && index + |context| <= |lines|
    && Matches(canon, level, lines, context, index)
    && (forall j | start <= j < index :: !Matches(canon, level, lines, context, j))
    && (forall better: Level, j | Fuzz(better) < Fuzz(level) && start <= j <= |lines| - |context| ::
          !Matches(canon, better, lines, context, j))
  }

  ghost predicate NoMatch(canon: Canon, lines: seq<string>, context: seq<string>, start: nat)
  {
    forall level: Level, j | start <= j <= |lines| - |context| :: !Matches(canon, level, lines, context, j)
  }

  /** The search hits exactly when some window matches at some level, and its hit is the
      first window of the best level that has one. */
  lemma LocateIsBestThenFirst(canon: Canon, lines: seq<string>, context: seq<string>, start: nat, hint: nat)
    requires context != []
    ensures var r := Locate(canon, lines, context, start, hint);
            && (r.Hit? ==> exists level: Level :: r.fuzz == Fuzz(level) && Sound(canon, lines, context, start, r.index, level))
            && (r.Miss? <==> NoMatch(canon, lines, context, start))
            && (r.Miss? ==> r.best < THRESHOLD)
  {
    hide Matches, Score, FirstMatch, BestScore;
    var r := Locate(canon, lines, context, start, hint);
    FirstMatchIsFirst(canon, Exact, lines, context, start);
    FirstMatchIsFirst(canon, TrailingSpace, lines, context, start);
    FirstMatchIsFirst(canon, OuterSpace, lines, context, start);
    FirstMatchIsFirst(canon, Similar, lines, context, start);
    if r.Hit? {
      var level := if r.fuzz == 0 then Exact else if r.fuzz == 1 then TrailingSpace
                   else if r.fuzz == 100 then OuterSpace else Similar;
      assert r.fuzz == Fuzz(level) && Sound(canon, lines, context, start, r.index, level);
    } else {
      forall level: Level, j | start <= j <= |lines| - |context|
        ensures !Matches(canon, level, lines, context, j)
      {
        assert level == Exact || level == TrailingSpace || level == OuterSpace || level == Similar;
      }
      forall j | start <= j <= |lines| - |context| ensures Score(canon, lines, context, j) < THRESHOLD {
        MatchesSimilar(canon, lines, context, j);
      }
      BestScoreIsBest(canon, lines, context, start, 0.0);
    }
  }

  lemma SimilarReports(canon: Canon, lines: seq<string>, context: seq<string>, start: nat, hint: nat)
    requires context != []
    ensures var r := Locate(canon, lines, context, start, hint);
            && (r.Hit? ==> r.similarity == if r.fuzz == 1000 then Some(Score(canon, lines, context, r.index)) else None)
            && (r.Miss? ==> r.best == BestScore(canon, lines, context, start, 0.0))
  {
    hide FirstMatch, BestScore, Score;
  }

  /** A hit by likeness reports how alike its window is, and a miss how alike the most alike window
      is, or zero if there is none. */
  lemma LocateReports(canon: Canon, lines: seq<string>, context: seq<string>, start: nat, hint: nat)
    requires context != []
    ensures var r := Locate(canon, lines, context, start, hint);
            && (r.Hit? ==> r.similarity == if r.fuzz == Fuzz(Similar) then Some(Score(canon, lines, context, r.index)) else None)
            && (r.Miss? ==> forall j | start <= j <= |lines| - |context| :: Score(canon, lines, context, j) <= r.best)
            && (r.Miss? ==> r.best == 0.0 || exists j :: start <= j <= |lines| - |context| && Score(canon, lines, context, j) == r.best)
  {
    SimilarReports(canon, lines, context, start, hint);
    BestScoreIsBest(canon, lines, context, start, 0.0);
    hide Locate, Score, BestScore;
  }

  // ---- Applying resolved chunks ----

  datatype Refusal = OutOfRange(start: nat) | Overlap(current: nat, start: nat)
  datatype Spliced = Done(lines: seq<string>) | Refused(why: Refusal)

  /** The first chunk that cannot be spliced, if there is one. */
  function FirstRefusal(length: nat, cur: nat, chunks: seq<Chunk>): Option<Refusal>
    decreases |chunks|
  {
    if chunks == [] then None
    else if chunks[0].start > length then Some(OutOfRange(chunks[0].start))
    else if cur > chunks[0].start then Some(Overlap(cur, chunks[0].start))
    else FirstRefusal(length, chunks[0].start + chunks[0].del, chunks[1..])
  }

  lemma {:induction false} RefusedUnlessAscending(length: nat, cur: nat, chunks: seq<Chunk>)
    ensures FirstRefusal(length, cur, chunks).None? <==> Ascending(length, cur, chunks)
    decreases |chunks|
  {
    if chunks != [] {
      RefusedUnlessAscending(length, chunks[0].start + chunks[0].del, chunks[1..]);
    }
  }

  /** The chunks before chunk k can be spliced, and k cannot, because it starts behind the file or
      before the end of its predecessor. */
  ghost predicate FirstBad(length: nat, cur: nat, chunks: seq<Chunk>, k: nat, why: Refusal)
  {
    && k < |chunks| && Ascending(length, cur, chunks[..k])
    && var end := if k == 0 then cur else chunks[k - 1].start + chunks[k - 1].del;
       if why.OutOfRange? then why.start == chunks[k].start > length
       else why == Overlap(end, chunks[k].start) && chunks[k].start < end && chunks[k].start <= length
  }

  /** The refusal names the first chunk that cannot be spliced, and why. */
  lemma {:induction false} RefusalNamesFirst(length: nat, cur: nat, chunks: seq<Chunk>) returns (k: nat)
    requires FirstRefusal(length, cur, chunks).Some?
    ensures FirstBad(length, cur, chunks, k, FirstRefusal(length, cur, chunks).value)
    decreases |chunks|
  {
    var c := chunks[0];
    if c.start > length || cur > c.start {
      k := 0;
    } else {
      var rest := RefusalNamesFirst(length, c.start + c.del, chunks[1..]);
      k := rest + 1;
      assert chunks[..k][1..] == chunks[1..][..rest];
    }
  }

  ghost function SpliceOr(file: seq<string>, cur: nat, chunks: seq<Chunk>): seq<string>
  {
    if Ascending(|file|, cur, chunks) then Splice(file, cur, chunks) else []
  }

  lemma SpliceStart(file: seq<string>, chunks: seq<Chunk>)
    ensures chunks[0..] == chunks && [] + SpliceOr(file, 0, chunks) == SpliceOr(file, 0, chunks)
  {
  }

  lemma SpliceNext(file: seq<string>, current: nat, chunks: seq<Chunk>, k: nat)
    requires k < |chunks|
    ensures var c := chunks[k];
            && (Ascending(|file|, current, chunks[k..]) <==>
                  current <= c.start <= |file| && Ascending(|file|, c.start + c.del, chunks[k + 1..]))
            && FirstRefusal(|file|, current, chunks[k..]) ==
               (if c.start > |file| then Some(OutOfRange(c.start))
                else if current > c.start then Some(Overlap(current, c.start))
                else FirstRefusal(|file|, c.start + c.del, chunks[k + 1..]))
            && (Ascending(|file|, current, chunks[k..]) ==>
                  SpliceOr(file, current, chunks[k..]) ==
                  file[current..c.start] + c.ins + SpliceOr(file, c.start + c.del, chunks[k + 1..]))
  {
    assert chunks[k..][0] == chunks[k] && chunks[k..][1..] == chunks[k + 1..];
  }

  /** Splices the chunks in order, refusing any that starts beyond the file or before the
      end of its predecessor. */
  method ApplyResolvedChunks(file: seq<string>, chunks: seq<Chunk>) returns (r: Spliced)
    ensures r.Done? <==> Ascending(|file|, 0, chunks)
    ensures r.Done? ==> r.lines == Splice(file, 0, chunks)
    ensures r.Refused? ==> FirstRefusal(|file|, 0, chunks) == Some(r.why)
  {
    var result: seq<string> := [];
    var current: nat := 0;
    SpliceStart(file, chunks);
    for k := 0 to |chunks|
      invariant Ascending(|file|, 0, chunks) == Ascending(|file|, current, chunks[k..])
      invariant FirstRefusal(|file|, 0, chunks) == FirstRefusal(|file|, current, chunks[k..])
      invariant SpliceOr(file, 0, chunks) == result + SpliceOr(file, current, chunks[k..]) || !Ascending(|file|, 0, chunks)
    {
      hide *;
      var c := chunks[k];
      SpliceNext(file, current, chunks, k);
      if c.start > |file| {
        return Refused(OutOfRange(c.start));
      }
      if current > c.start {
        return Refused(Overlap(current, c.start));
      }
      Assoc(result, file[current..c.start] + c.ins, SpliceOr(file, c.start + c.del, chunks[k + 1..]));
      result := result + (file[current..c.start] + c.ins);
      current := c.start + c.del;
    }
    r := Done(result + From(file, current));
  }

  // ---- Applying a patch ----

  datatype FilePatch = FilePatch(oldPath: string, newPath: string, hunks: seq<Hunk>)
  datatype Placed = Placed(hunk: nat, start: nat, fuzz: nat, similarity: Option<real>)
  datatype Failure = NotFound(hunk: nat, oldStart: nat, best: real) | Clash(hunk: nat, oldStart: nat, why: Refusal)

  /** lines is None when the whole patch was refused. */
  datatype Outcome = Outcome(lines: Option<seq<string>>, applied: seq<Placed>, failures: seq<Failure>, fuzz: nat)

  predicate Within(ns: seq<nat>, lo: nat, hi: nat)
  {
    forall k | 0 <= k < |ns| :: lo <= ns[k] < hi
  }

  function HunkNumbers(placed: seq<Placed>): seq<nat>
  {
    seq(|placed|, k requires 0 <= k < |placed| => placed[k].hunk)
  }

  /** First round: each hunk in turn, from the end of the last one placed. */
  function InOrder(canon: Canon, file: seq<string>, hunks: seq<Hunk>, k: nat, cursor: nat): (seq<Placed>, seq<nat>)
    requires k <= |hunks|
    decreases |hunks| - k
  {
    if k == |hunks| then ([], [])
    else
      var m := Locate(canon, file, hunks[k].oldLines, cursor, hunks[k].oldStart);
      if m.Miss? then
        var rest := InOrder(canon, file, hunks, k + 1, cursor);
        (rest.0, [k] + rest.1)
      else
        var rest := InOrder(canon, file, hunks, k + 1, m.index + |hunks[k].oldLines|);
        ([Placed(k, m.index, m.fuzz, m.similarity)] + rest.0, rest.1)
  }

  /** Second round: the hunks still missing, each from the top of the file. */
  function FromTop(canon: Canon, file: seq<string>, hunks: seq<Hunk>, pending: seq<nat>): (seq<Placed>, seq<Failure>)
    requires Within(pending, 0, |hunks|)
  {
    if pending == [] then ([], [])
    else
      var h := hunks[pending[0]];
      var m := Locate(canon, file, h.oldLines, 0, h.oldStart);
      var rest := FromTop(canon, file, hunks, pending[1..]);
      if m.Miss? then (rest.0, [NotFound(pending[0], h.oldStart, m.best)] + rest.1)
      else ([Placed(pending[0], m.index, m.fuzz, m.similarity)] + rest.0, rest.1)
  }

  function TotalFuzz(placed: seq<Placed>): nat
  {
    if placed == [] then 0 else placed[0].fuzz + TotalFuzz(placed[1..])
  }

  /** Stable insertion: behind everything that starts no later. */
  function InsertByStart(p: Placed, sorted: seq<Placed>): seq<Placed>
  {
    if sorted == [] || sorted[|sorted| - 1].start <= p.start then sorted + [p]
    else InsertByStart(p, sorted[..|sorted| - 1]) + [sorted[|sorted| - 1]]
  }

  function SortByStart(placed: seq<Placed>): seq<Placed>
  {
    if placed == [] then []
    else InsertByStart(placed[|placed| - 1], SortByStart(placed[..|placed| - 1]))
  }

  function ChunkOf(hunks: seq<Hunk>, p: Placed): Chunk
  {
    if p.hunk < |hunks| then Chunk(p.start, hunks[p.hunk].newLines, |hunks[p.hunk].oldLines|) else Chunk(p.start, [], 0)
  }

  function ChunksOf(hunks: seq<Hunk>, placed: seq<Placed>): seq<Chunk>
  {
    seq(|placed|, k requires 0 <= k < |placed| => ChunkOf(hunks, placed[k]))
  }

  lemma WithinCons(n: nat, ns: seq<nat>, lo: nat, hi: nat)
    requires lo <= n < hi && Within(ns, lo, hi)
    ensures Within([n] + ns, lo, hi)
  {
  }

  lemma {:induction false} InOrderPending(canon: Canon, file: seq<string>, hunks: seq<Hunk>, k: nat, cursor: nat)
    requires k <= |hunks|
    ensures Within(InOrder(canon, file, hunks, k, cursor).1, k, |hunks|)
    decreases |hunks| - k
  {
    hide Locate;
    if k < |hunks| {
      var m := Locate(canon, file, hunks[k].oldLines, cursor, hunks[k].oldStart);
      if m.Miss? {
        InOrderPending(canon, file, hunks, k + 1, cursor);
        WithinCons(k, InOrder(canon, file, hunks, k + 1, cursor).1, k, |hunks|);
      } else {
        InOrderPending(canon, file, hunks, k + 1, m.index + |hunks[k].oldLines|);
      }
    }
  }

  function LastHunk(applied: seq<Placed>): nat { if applied == [] then 0 else applied[|applied| - 1].hunk }

  function DeclaredStart(hunks: seq<Hunk>, n: nat): nat { if n < |hunks| then hunks[n].oldStart else 0 }

  /** The outcome of a patch: refused as a whole when a hunk is found in neither round, or
      when the placed hunks overlap. */
  function Apply(canon: Canon, file: seq<string>, hunks: seq<Hunk>): Outcome
  {
    InOrderPending(canon, file, hunks, 0, 0);
    var first := InOrder(canon, file, hunks, 0, 0);
    var second := FromTop(canon, file, hunks, first.1);
    var fuzz := TotalFuzz(first.0) + TotalFuzz(second.0);
    if second.1 != [] then Outcome(None, [], second.1, fuzz)
    else
      var applied := SortByStart(first.0 + second.0);
      var chunks := ChunksOf(hunks, applied);
      var refusal := FirstRefusal(|file|, 0, chunks);
      RefusedUnlessAscending(|file|, 0, chunks);
      if refusal.Some? then
        var last := LastHunk(applied);
        Outcome(None, [], [Clash(last, DeclaredStart(hunks, last), refusal.value)], fuzz)
      else Outcome(Some(Splice(file, 0, chunks)), applied, [], fuzz)
  }

  lemma FuzzSnoc(placed: seq<Placed>, p: Placed)
    ensures TotalFuzz(placed + [p]) == TotalFuzz(placed) + p.fuzz
  {
    if placed == [] {
      assert placed + [p] == [p];
    } else {
      FuzzSnoc(placed[1..], p);
      assert (placed + [p])[1..] == placed[1..] + [p];
    }
  }

  /** What is placed and pending so far, followed by what the rest of the round adds. */
  ghost predicate InOrderSoFar(
    canon: Canon, file: seq<string>, hunks: seq<Hunk>, placed: seq<Placed>, pending: seq<nat>, k: nat, cursor: nat)
    requires k <= |hunks|
  {
    var all, rest := InOrder(canon, file, hunks, 0, 0), InOrder(canon, file, hunks, k, cursor);
    all.0 == placed + rest.0 && all.1 == pending + rest.1
  }

  lemma InOrderStart(canon: Canon, file: seq<string>, hunks: seq<Hunk>)
    ensures InOrderSoFar(canon, file, hunks, [], [], 0, 0)
  {
    var all := InOrder(canon, file, hunks, 0, 0);
    assert all.0 == [] + all.0 && all.1 == [] + all.1;
  }

  lemma InOrderStep(
    canon: Canon, file: seq<string>, hunks: seq<Hunk>, placed: seq<Placed>, pending: seq<nat>, k: nat, cursor: nat)
    requires k < |hunks| && InOrderSoFar(canon, file, hunks, placed, pending, k, cursor)
    ensures var m := Locate(canon, file, hunks[k].oldLines, cursor, hunks[k].oldStart);
            if m.Miss? then InOrderSoFar(canon, file, hunks, placed, pending + [k], k + 1, cursor)
            else InOrderSoFar(canon, file, hunks, placed + [Placed(k, m.index, m.fuzz, m.similarity)], pending,
                              k + 1, m.index + |hunks[k].oldLines|)
  {
    hide Locate;
    var m := Locate(canon, file, hunks[k].oldLines, cursor, hunks[k].oldStart);
    if m.Miss? {
      Assoc(pending, [k], InOrder(canon, file, hunks, k + 1, cursor).1);
    } else {
      Assoc(placed, [Placed(k, m.index, m.fuzz, m.similarity)],
            InOrder(canon, file, hunks, k + 1, m.index + |hunks[k].oldLines|).0);
    }
  }

  lemma InOrderEnd(
    canon: Canon, file: seq<string>, hunks: seq<Hunk>, placed: seq<Placed>, pending: seq<nat>, cursor: nat)
    requires InOrderSoFar(canon, file, hunks, placed, pending, |hunks|, cursor)
    ensures InOrder(canon, file, hunks, 0, 0) == (placed, pending) && Within(pending, 0, |hunks|)
  {
    InOrderPending(canon, file, hunks, 0, 0);
    assert placed + [] == placed && pending + [] == pending;
  }

  ghost predicate FromTopSoFar(
    canon: Canon, file: seq<string>, hunks: seq<Hunk>, pending: seq<nat>, placed: seq<Placed>, failures: seq<Failure>, k: nat)
    requires k <= |pending| && Within(pending, 0, |hunks|)
  {
    var all, rest := FromTop(canon, file, hunks, pending), FromTop(canon, file, hunks, pending[k..]);
    all.0 == placed + rest.0 && all.1 == failures + rest.1
  }

  lemma FromTopStart(canon: Canon, file: seq<string>, hunks: seq<Hunk>, pending: seq<nat>)
    requires Within(pending, 0, |hunks|)
    ensures FromTopSoFar(canon, file, hunks, pending, [], [], 0)
  {
    var all := FromTop(canon, file, hunks, pending);
    assert pending[0..] == pending && all.0 == [] + all.0 && all.1 == [] + all.1;
  }

  lemma FromTopStep(
    canon: Canon, file: seq<string>, hunks: seq<Hunk>, pending: seq<nat>, placed: seq<Placed>, failures: seq<Failure>, k: nat)
    requires Within(pending, 0, |hunks|) && k < |pending|
    requires FromTopSoFar(canon, file, hunks, pending, placed, failures, k)
    ensures var n := pending[k];
            var m := Locate(canon, file, hunks[n].oldLines, 0, hunks[n].oldStart);
            if m.Miss? then
              FromTopSoFar(canon, file, hunks, pending, placed, failures + [NotFound(n, hunks[n].oldStart, m.best)], k + 1)
            else FromTopSoFar(canon, file, hunks, pending, placed + [Placed(n, m.index, m.fuzz, m.similarity)], failures, k + 1)
  {
    hide Locate;
    var n := pending[k];
    var m := Locate(canon, file, hunks[n].oldLines, 0, hunks[n].oldStart);
    assert pending[k..][1..] == pending[k + 1..];
    var rest := FromTop(canon, file, hunks, pending[k + 1..]);
    if m.Miss? {
      Assoc(failures, [NotFound(n, hunks[n].oldStart, m.best)], rest.1);
    } else {
      Assoc(placed, [Placed(n, m.index, m.fuzz, m.similarity)], rest.0);
    }
  }

  lemma FromTopEnd(
    canon: Canon, file: seq<string>, hunks: seq<Hunk>, pending: seq<nat>, placed: seq<Placed>, failures: seq<Failure>)
    requires Within(pending, 0, |hunks|) && FromTopSoFar(canon, file, hunks, pending, placed, failures, |pending|)
    ensures FromTop(canon, file, hunks, pending) == (placed, failures)
  {
    assert placed + [] == placed && failures + [] == failures;
  }

  method ApplyPatchToLines(canon: Canon, file: seq<string>, patch: FilePatch) returns (r: Outcome)
    ensures r == Apply(canon, file, patch.hunks)
  {
    hide *;
    var hunks := patch.hunks;
    var placed: seq<Placed>, pending: seq<nat> := [], [];
    var fuzz, cursor: nat := 0, 0;
    InOrderStart(canon, file, hunks);
    FuzzOfNone();
    for k := 0 to |hunks|
      invariant InOrderSoFar(canon, file, hunks, placed, pending, k, cursor) && fuzz == TotalFuzz(placed)
    {
      InOrderStep(canon, file, hunks, placed, pending, k, cursor);
      var h := hunks[k];
      var m := FindContext(canon, file, h.oldLines, cursor, h.oldStart);
      if m.Miss? {
        pending := pending + [k];
      } else {
        FuzzSnoc(placed, Placed(k, m.index, m.fuzz, m.similarity));
        placed := placed + [Placed(k, m.index, m.fuzz, m.similarity)];
        fuzz := fuzz + m.fuzz;
        cursor := m.index + |h.oldLines|;
      }
    }
    InOrderEnd(canon, file, hunks, placed, pending, cursor);
    var again: seq<Placed>, failures: seq<Failure> := [], [];
    FromTopStart(canon, file, hunks, pending);
    for k := 0 to |pending|
      invariant FromTopSoFar(canon, file, hunks, pending, again, failures, k)
      invariant fuzz == TotalFuzz(placed) + TotalFuzz(again)
    {
      FromTopStep(canon, file, hunks, pending, again, failures, k);
      WithinAt(pending, |hunks|, k);
      var h := hunks[pending[k]];
      var m := FindContext(canon, file, h.oldLines, 0, h.oldStart);
      if m.Miss? {
        failures := failures + [NotFound(pending[k], h.oldStart, m.best)];
      } else {
        FuzzSnoc(again, Placed(pending[k], m.index, m.fuzz, m.similarity));
        again := again + [Placed(pending[k], m.index, m.fuzz, m.similarity)];
        fuzz := fuzz + m.fuzz;
      }
    }
    FromTopEnd(canon, file, hunks, pending, again, failures);
    ApplyUnfolds(canon, file, hunks);
    if |failures| > 0 {
      return Outcome(None, [], failures, fuzz);
    }
    var applied := SortByStart(placed + again);
    var s := ApplyResolvedChunks(file, ChunksOf(hunks, applied));
    if s.Refused? {
      var last := LastHunk(applied);
      return Outcome(None, [], [Clash(last, DeclaredStart(hunks, last), s.why)], fuzz);
    }
    r := Outcome(Some(s.lines), applied, [], fuzz);
  }

  lemma FuzzOfNone()
    ensures TotalFuzz([]) == 0
  {
  }

  lemma WithinAt(ns: seq<nat>, hi: nat, k: nat)
    requires Within(ns, 0, hi) && k < |ns|
    ensures ns[k] < hi
  {
  }

  lemma ApplyUnfolds(canon: Canon, file: seq<string>, hunks: seq<Hunk>)
    ensures var first := InOrder(canon, file, hunks, 0, 0);
            Within(first.1, 0, |hunks|) &&
            var second := FromTop(canon, file, hunks, first.1);
            var fuzz := TotalFuzz(first.0) + TotalFuzz(second.0);
            var applied := SortByStart(first.0 + second.0);
            var chunks := ChunksOf(hunks, applied);
            var refusal := FirstRefusal(|file|, 0, chunks);
            && (refusal.None? <==> Ascending(|file|, 0, chunks))
            && Apply(canon, file, hunks) ==
               if second.1 != [] then Outcome(None, [], second.1, fuzz)
               else if refusal.Some? then
                 Outcome(None, [], [Clash(LastHunk(applied), DeclaredStart(hunks, LastHunk(applied)), refusal.value)], fuzz)
               else Outcome(Some(Splice(file, 0, chunks)), applied, [], fuzz)
  {
    InOrderPending(canon, file, hunks, 0, 0);
    RefusedUnlessAscending(|file|, 0, ChunksOf(hunks,
      SortByStart(InOrder(canon, file, hunks, 0, 0).0 + FromTop(canon, file, hunks, InOrder(canon, file, hunks, 0, 0).1).0)));
  }
}
