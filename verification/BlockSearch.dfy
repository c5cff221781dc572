/** Finding the context block of an apply_patch hunk in a file: in order, at four levels, and
    at the end of the file first when the hunk says so. */
module BlockSearch {
  import opened Wrappers
  import opened Lines
  import opened Anchor
  import opened Hunks
  import Levenshtein

  // ---- Windows ----

  function Clamp(i: int, n: nat): (r: nat)
    ensures r <= n
  {
    if i < 0 then (if n + i < 0 then 0 else n + i) else if i > n then n else i
  }

  /** JavaScript's slice: an index below zero counts from the end, and both ends are clamped. */
  function Slice<T>(s: seq<T>, lo: int, hi: int): (r: seq<T>)
    ensures 0 <= lo <= hi <= |s| ==> r == s[lo..hi]
    ensures 0 <= lo <= |s| <= hi ==> r == s[lo..]
  {
    if Clamp(lo, |s|) < Clamp(hi, |s|) then s[Clamp(lo, |s|)..Clamp(hi, |s|)] else []
  }

  function WindowAt(lines: seq<string>, context: seq<string>, i: int): seq<string> { Slice(lines, i, i + |context|) }

  function ScoreOf(canon: Canon, lines: seq<string>, context: seq<string>, i: int): real
  {
    Levenshtein.Similarity(canon(Join(WindowAt(lines, context, i))), canon(Join(context)))
  }

  /** The block matches the window at i, which the end of the file may cut short. */
  predicate MatchesAt(canon: Canon, level: Level, lines: seq<string>, context: seq<string>, i: int)
  {
    if level == Similar then ScoreOf(canon, lines, context, i) >= THRESHOLD
    else Key(canon, level, WindowAt(lines, context, i)) == Key(canon, level, context)
  }

  // ---- One scan of the file ----

  function FirstAt(canon: Canon, level: Level, lines: seq<string>, context: seq<string>, i: int): (r: Option<int>)
    ensures r.Some? ==> i <= r.value < |lines|
    decreases |lines| - i
  {
    if i >= |lines| then None
    else if MatchesAt(canon, level, lines, context, i) then Some(i)
    else FirstAt(canon, level, lines, context, i + 1)
  }

  lemma {:induction false} FirstAtIsFirst(canon: Canon, level: Level, lines: seq<string>, context: seq<string>, i: int)
    ensures var r := FirstAt(canon, level, lines, context, i);
            && (r.Some? ==> i <= r.value < |lines| && MatchesAt(canon, level, lines, context, r.value))
            && (r.Some? ==> forall j | i <= j < r.value :: !MatchesAt(canon, level, lines, context, j))
            && (r.None? ==> forall j | i <= j < |lines| :: !MatchesAt(canon, level, lines, context, j))
    decreases |lines| - i
  {
    hide MatchesAt;
    if i < |lines| && !MatchesAt(canon, level, lines, context, i) {
      FirstAtIsFirst(canon, level, lines, context, i + 1);
    }
  }

  /** Where the block is, and at what cost. */
  datatype Found = Found(index: int, fuzz: nat)

  function Core(canon: Canon, lines: seq<string>, context: seq<string>, start: int): (r: Option<Found>)
    ensures r.Some? ==> start <= r.value.index < |lines|
  {
    var exact := FirstAt(canon, Exact, lines, context, start);
    if exact.Some? then Some(Found(exact.value, 0)) else
    var trailing := FirstAt(canon, TrailingSpace, lines, context, start);
    if trailing.Some? then Some(Found(trailing.value, 1)) else
    var outer := FirstAt(canon, OuterSpace, lines, context, start);
    if outer.Some? then Some(Found(outer.value, 100)) else
    var similar := FirstAt(canon, Similar, lines, context, start);
    if similar.Some? then Some(Found(similar.value, 1000)) else None
  }

  /** A match at -1 counts as none, because -1 is how the search says that it found nothing. */
  function Block(canon: Canon, lines: seq<string>, context: seq<string>, start: nat, eof: bool): (r: Option<Found>)
    ensures r.Some? ==> r.value.index >= -|context| && (!eof ==> r.value.index >= start)
  {
    if context == [] then Some(Found(start, 0))
    else if eof then
      var last := Core(canon, lines, context, |lines| - |context|);
      if last.Some? && last.value.index != -1 then last
      else
        var any := Core(canon, lines, context, start);
        if any.Some? then Some(Found(any.value.index, any.value.fuzz + 10000)) else None
    else Core(canon, lines, context, start)
  }

  method ScanFrom(canon: Canon, level: Level, lines: seq<string>, context: seq<string>, start: int) returns (r: Option<int>)
    ensures r == FirstAt(canon, level, lines, context, start)
  {
    hide MatchesAt;
    var i := start;
    while i < |lines|
      invariant FirstAt(canon, level, lines, context, i) == FirstAt(canon, level, lines, context, start)
    {
      if MatchesAt(canon, level, lines, context, i) {
        return Some(i);
      }
      i := i + 1;
    }
    r := None;
  }

  method FindCore(canon: Canon, lines: seq<string>, context: seq<string>, start: int) returns (r: Option<Found>)
    ensures r == Core(canon, lines, context, start)
  {
    hide FirstAt;
    var m := ScanFrom(canon, Exact, lines, context, start);
    if m.Some? {
      return Some(Found(m.value, 0));
    }
    m := ScanFrom(canon, TrailingSpace, lines, context, start);
    if m.Some? {
      return Some(Found(m.value, 1));
    }
    m := ScanFrom(canon, OuterSpace, lines, context, start);
    if m.Some? {
      return Some(Found(m.value, 100));
    }
    m := ScanFrom(canon, Similar, lines, context, start);
    r := if m.Some? then Some(Found(m.value, 1000)) else None;
  }

  method FindBlock(canon: Canon, lines: seq<string>, context: seq<string>, start: nat, eof: bool) returns (r: Option<Found>)
    ensures r == Block(canon, lines, context, start, eof)
  {
    hide Core;
    if context == [] {
      return Some(Found(start, 0));
    }
    if eof {
      r := FindCore(canon, lines, context, |lines| - |context|);
      if r.Some? && r.value.index != -1 {
        return r;
      }
      r := FindCore(canon, lines, context, start);
      return if r.Some? then Some(Found(r.value.index, r.value.fuzz + 10000)) else None;
    }
    r := FindCore(canon, lines, context, start);
  }

  // ---- What a hit means ----

  ghost predicate NowhereFrom(canon: Canon, lines: seq<string>, context: seq<string>, from: int)
  {
    forall level: Level, j | from <= j < |lines| :: !MatchesAt(canon, level, lines, context, j)
  }

  /** The first window from a start that matches at the level, when none matches at a better one. */
  ghost predicate BestFrom(canon: Canon, lines: seq<string>, context: seq<string>, from: int, index: int, level: Level)
  {
    && from <= index < |lines|
    && MatchesAt(canon, level, lines, context, index)
    && (forall j | from <= j < index :: !MatchesAt(canon, level, lines, context, j))
    && (forall better: Level, j | Fuzz(better) < Fuzz(level) && from <= j < |lines| ::
          !MatchesAt(canon, better, lines, context, j))
  }

  lemma CoreIsBest(canon: Canon, lines: seq<string>, context: seq<string>, from: int)
    ensures var r := Core(canon, lines, context, from);
            && (r.Some? ==> exists level: Level ::
                  r.value.fuzz == Fuzz(level) && BestFrom(canon, lines, context, from, r.value.index, level))
            && (r.None? <==> NowhereFrom(canon, lines, context, from))
  {
    hide MatchesAt, FirstAt;
    FirstAtIsFirst(canon, Exact, lines, context, from);
    FirstAtIsFirst(canon, TrailingSpace, lines, context, from);
    FirstAtIsFirst(canon, OuterSpace, lines, context, from);
    FirstAtIsFirst(canon, Similar, lines, context, from);
    var r := Core(canon, lines, context, from);
    if r.Some? {
      var level := if r.value.fuzz == 0 then Exact else if r.value.fuzz == 1 then TrailingSpace
                   else if r.value.fuzz == 100 then OuterSpace else Similar;
      assert r.value.fuzz == Fuzz(level) && BestFrom(canon, lines, context, from, r.value.index, level);
    } else {
      forall level: Level, j | from <= j < |lines| ensures !MatchesAt(canon, level, lines, context, j) {
        assert level == Exact || level == TrailingSpace || level == OuterSpace || level == Similar;
      }
    }
  }

  /** Where the scan that gave this cost began, and the cost without the penalty for a block
      that should have been at the end and was not. */
  function ScanStart(lines: seq<string>, context: seq<string>, start: nat, eof: bool, fuzz: nat): int
  {
    if eof && fuzz < 10000 then |lines| - |context| else start
  }

  /** The scan of the end finds nothing, or finds the block at -1, which counts as nothing. */
  ghost predicate EndMisses(canon: Canon, lines: seq<string>, context: seq<string>)
  {
    var from := |lines| - |context|;
    NowhereFrom(canon, lines, context, from) || exists level: Level :: BestFrom(canon, lines, context, from, -1, level)
  }

  lemma EndMissesIff(canon: Canon, lines: seq<string>, context: seq<string>)
    ensures var last := Core(canon, lines, context, |lines| - |context|);
            EndMisses(canon, lines, context) <==> last.None? || last.value.index == -1
  {
    hide Core, MatchesAt;
    var from := |lines| - |context|;
    CoreIsBest(canon, lines, context, from);
    var last := Core(canon, lines, context, from);
    if last.Some? {
      var best: Level :| last.value.fuzz == Fuzz(best) && BestFrom(canon, lines, context, from, last.value.index, best);
      if exists level: Level :: BestFrom(canon, lines, context, from, -1, level) {
        var level: Level :| BestFrom(canon, lines, context, from, -1, level);
        SameBest(canon, lines, context, from, last.value.index, best, -1, level);
        SameBest(canon, lines, context, from, -1, level, last.value.index, best);
      }
    }
  }

  /** The best level is one, and its first window is at or before any other. */
  lemma SameBest(canon: Canon, lines: seq<string>, context: seq<string>, from: int, index: int, best: Level, j: int, level: Level)
    requires BestFrom(canon, lines, context, from, index, best)
    requires from <= j < |lines| && MatchesAt(canon, level, lines, context, j)
    requires forall better: Level, k | Fuzz(better) < Fuzz(level) && from <= k < |lines| :: !MatchesAt(canon, better, lines, context, k)
    ensures best == level && index <= j
  {
    hide MatchesAt;
  }

  /** A hit is the first window of the best level that has one, from where its scan began; and
      the search misses exactly when no window from the cursor matches at any level, and, for a
      hunk at the end of the file, the scan of the end misses too. */
  lemma BlockIsBestThenFirst(canon: Canon, lines: seq<string>, context: seq<string>, start: nat, eof: bool)
    requires context != []
    ensures var r := Block(canon, lines, context, start, eof);
            && (r.Some? ==> exists level: Level ::
                  && r.value.fuzz == Fuzz(level) + (if r.value.fuzz >= 10000 then 10000 else 0)
                  && BestFrom(canon, lines, context, ScanStart(lines, context, start, eof, r.value.fuzz), r.value.index, level))
            && (r.Some? ==> (r.value.fuzz >= 10000 <==> eof && EndMisses(canon, lines, context)))
            && (r.None? <==> NowhereFrom(canon, lines, context, start) && (eof ==> EndMisses(canon, lines, context)))
            && (r.Some? ==> -|context| <= r.value.index < |lines|)
  {
    hide Core, BestFrom, NowhereFrom, EndMisses;
    EndMissesIff(canon, lines, context);
    CoreIsBest(canon, lines, context, start);
    CoreIsBest(canon, lines, context, |lines| - |context|);
    var r := Block(canon, lines, context, start, eof);
    BestIsWithin(canon, lines, context, start);
    BestIsWithin(canon, lines, context, |lines| - |context|);
    if r.Some? {
      var from := ScanStart(lines, context, start, eof, r.value.fuzz);
      var level: Level :| r.value.fuzz == Fuzz(level) + (if r.value.fuzz >= 10000 then 10000 else 0)
                          && BestFrom(canon, lines, context, from, r.value.index, level);
    }
  }

  lemma BestIsWithin(canon: Canon, lines: seq<string>, context: seq<string>, from: int)
    ensures forall index, level :: BestFrom(canon, lines, context, from, index, level) ==> from <= index < |lines|
  {
  }

  // ---- The end of the file ----

  /** The last t lines, or all if there are fewer. */
  function Tail(lines: seq<string>, t: nat): seq<string> { if t <= |lines| then lines[|lines| - t..] else lines }

  /** Before its first line, the file reads as its own end. */
  lemma WindowBeforeIsTail(lines: seq<string>, context: seq<string>, t: int)
    requires 0 < t <= |context| - |lines|
    ensures WindowAt(lines, context, -t) == Tail(lines, t)
  {
  }

  /** The block reads like the last t lines, where a block that is longer than the file is first
      searched for, and no window of that scan matches at a better level. */
  ghost predicate TailReads(canon: Canon, lines: seq<string>, context: seq<string>, level: Level, t: int)
  {
    && 2 <= t <= |context| - |lines| && MatchesAt(canon, level, lines, context, -t)
    && forall better: Level, j | Fuzz(better) < Fuzz(level) && |lines| - |context| <= j < |lines| ::
         !MatchesAt(canon, better, lines, context, j)
  }

  /** A hunk for the end of the file is found before the first line exactly when its block is
      longer than the file by two lines or more and reads, at the best level that occurs, like
      that many of the last lines; so never when the file is long enough for the block. */
  lemma FoundBeforeFileIff(canon: Canon, lines: seq<string>, context: seq<string>, start: nat)
    requires context != []
    ensures var r := Block(canon, lines, context, start, true);
            && (r.Some? && r.value.index < 0 <==> exists level: Level, t: int :: TailReads(canon, lines, context, level, t))
            && (r.Some? && |context| <= |lines| + 1 ==> r.value.index >= 0)
  {
    hide Core, MatchesAt;
    var from := |lines| - |context|;
    CoreIsBest(canon, lines, context, from);
    var r, last := Block(canon, lines, context, start, true), Core(canon, lines, context, from);
    if r.Some? && r.value.index < 0 {
      var level: Level :| last.value.fuzz == Fuzz(level) && BestFrom(canon, lines, context, from, last.value.index, level);
      assert TailReads(canon, lines, context, level, -last.value.index);
    }
    if exists level: Level, t: int :: TailReads(canon, lines, context, level, t) {
      var level: Level, t: int :| TailReads(canon, lines, context, level, t);
      assert last.Some?;
      var best: Level :| last.value.fuzz == Fuzz(best) && BestFrom(canon, lines, context, from, last.value.index, best);
      SameBest(canon, lines, context, from, last.value.index, best, -t, level);
    }
  }

  // ---- An input that is found before the file ----

  /** Normalisation that changes nothing, as it does to plain text. */
  function AsIs(text: string): string { text }

  const ONE_LINE: seq<string> := ["aaaaaaaa"]
  const THREE_LINES: seq<string> := ["aaaaaaaa", "a", "a"]

  lemma {:induction false} DistanceOfLonger(s: string, more: string)
    ensures Levenshtein.Distance(s + more, s) <= |more|
    decreases |more|
  {
    if more == [] {
      assert s + more == s;
      Levenshtein.ZeroIffEqual(s, s);
    } else {
      var init, z := more[..|more| - 1], more[|more| - 1];
      DistanceOfLonger(s, init);
      assert s + more == (s + init) + [z];
      Levenshtein.LipschitzTarget(s + init, s, z);
    }
  }

  lemma SameViews(level: Level)
    ensures View(level, ONE_LINE) == ONE_LINE && View(level, THREE_LINES) == THREE_LINES
    ensures Join(ONE_LINE) == "aaaaaaaa" && Join(THREE_LINES) == "aaaaaaaa" + "\na\na"
  {
    assert THREE_LINES[1..] == ["a", "a"] && THREE_LINES[1..][1..] == ["a"];
    assert TrimEnd("aaaaaaaa") == TrimStart("aaaaaaaa") == "aaaaaaaa" && TrimEnd("a") == TrimStart("a") == "a";
  }

  lemma LikeEnough()
    ensures Levenshtein.Similarity("aaaaaaaa", "aaaaaaaa" + "\na\na") >= THRESHOLD
  {
    DistanceOfLonger("aaaaaaaa", "\na\na");
    hide Levenshtein.Distance;
    var d := Levenshtein.Distance("aaaaaaaa" + "\na\na", "aaaaaaaa");
    assert (12 - d) as real / 12.0 >= 8.0 / 12.0;
  }

  lemma MatchesBefore(level: Level, i: int)
    requires -2 <= i <= 0
    ensures MatchesAt(AsIs, level, ONE_LINE, THREE_LINES, i) <==> level == Similar
  {
    assert WindowAt(ONE_LINE, THREE_LINES, i) == ONE_LINE;
    SameViews(level);
    LikeEnough();
    hide View, Join, Levenshtein.Similarity, WindowAt;
    assert |Join(ONE_LINE)| < |Join(THREE_LINES)|;
  }

  /** The first of three lines is the whole file: by likeness all three are found at -2. */
  lemma FoundBeforeTheFile(start: nat)
    ensures Block(AsIs, ONE_LINE, THREE_LINES, start, true) == Some(Found(-2, 1000))
  {
    hide MatchesAt, FirstAt;
    forall level: Level, i | -2 <= i <= 0 ensures MatchesAt(AsIs, level, ONE_LINE, THREE_LINES, i) <==> level == Similar {
      MatchesBefore(level, i);
    }
    FirstAtIsFirst(AsIs, Exact, ONE_LINE, THREE_LINES, -2);
    FirstAtIsFirst(AsIs, TrailingSpace, ONE_LINE, THREE_LINES, -2);
    FirstAtIsFirst(AsIs, OuterSpace, ONE_LINE, THREE_LINES, -2);
    FirstAtIsFirst(AsIs, Similar, ONE_LINE, THREE_LINES, -2);
    assert MatchesAt(AsIs, Similar, ONE_LINE, THREE_LINES, -2);
  }
}
