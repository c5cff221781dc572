/** Anchoring a hunk line by line: each old line at its first place behind the line before it. */
module LineByLine {
  import opened Wrappers
  import opened Lines
  import opened Anchor
  import opened Hunks
  import Lcs

  function Canoned(canon: Canon, lines: seq<string>): (r: seq<string>)
    ensures |r| == |lines| && forall k | 0 <= k < |r| :: r[k] == canon(lines[k])
  {
    seq(|lines|, k requires 0 <= k < |lines| => canon(lines[k]))
  }

  /** The first line at or after i that reads like the target. */
  function LineAt(canon: Canon, file: seq<string>, target: string, i: nat): (r: Option<nat>)
    ensures r.Some? ==> i <= r.value < |file| && canon(file[r.value]) == canon(target)
    ensures r.Some? ==> forall k | i <= k < r.value :: canon(file[k]) != canon(target)
    ensures r.None? ==> forall k | i <= k < |file| :: canon(file[k]) != canon(target)
    decreases |file| - i
  {
    if i >= |file| then None
    else if canon(file[i]) == canon(target) then Some(i)
    else LineAt(canon, file, target, i + 1)
  }

  /** The place of each old line, from the start on. */
  function Greedy(canon: Canon, file: seq<string>, lines: seq<string>, start: nat): Option<seq<nat>>
    decreases |lines|
  {
    if lines == [] then Some([])
    else
      var i := LineAt(canon, file, lines[0], start);
      if i.None? then None
      else
        var rest := Greedy(canon, file, lines[1..], i.value + 1);
        if rest.None? then None else Some([i.value] + rest.value)
  }

  lemma {:induction false} SkipLines(c: seq<string>, s: seq<string>, n: nat)
    requires c != [] && n <= |s| && forall k | 0 <= k < n :: s[k] != c[0]
    ensures Lcs.IsSubseq(c, s) <==> Lcs.IsSubseq(c, s[n..])
    decreases n
  {
    if n > 0 {
      SkipLines(c, s[1..], n - 1);
      assert s[1..][n - 1..] == s[n..];
    }
  }

  lemma TakeHead(c: seq<string>, s: seq<string>)
    requires c != [] && s != [] && c[0] == s[0]
    ensures Lcs.IsSubseq(c, s) <==> Lcs.IsSubseq(c[1..], s[1..])
  {
    if Lcs.IsSubseq(c, s) {
      Lcs.SubseqTail(c, s);
    }
  }

  /** The scan fails exactly when the old lines are not a subsequence of the file from the start. */
  lemma {:induction false} GreedyIsComplete(canon: Canon, file: seq<string>, lines: seq<string>, start: nat)
    ensures Greedy(canon, file, lines, start).Some? <==>
            Lcs.IsSubseq(Canoned(canon, lines), From(Canoned(canon, file), start))
    decreases |lines|
  {
    hide *;
    if lines == [] {
      GreedyOfNone(canon, file, start);
      NoneInAll(canon, file, start);
    } else {
      var i := LineAt(canon, file, lines[0], start);
      HeadLine(canon, file, lines, start);
      GreedyCons(canon, file, lines, start);
      if i.Some? {
        GreedyIsComplete(canon, file, lines[1..], i.value + 1);
      }
    }
  }

  lemma GreedyCons(canon: Canon, file: seq<string>, lines: seq<string>, start: nat)
    requires lines != []
    ensures var i := LineAt(canon, file, lines[0], start);
            Greedy(canon, file, lines, start).Some? <==> i.Some? && Greedy(canon, file, lines[1..], i.value + 1).Some?
  {
    hide LineAt;
  }

  lemma HeadLine(canon: Canon, file: seq<string>, lines: seq<string>, start: nat)
    requires lines != []
    ensures var i := LineAt(canon, file, lines[0], start);
            Lcs.IsSubseq(Canoned(canon, lines), From(Canoned(canon, file), start)) <==>
            i.Some? && Lcs.IsSubseq(Canoned(canon, lines[1..]), From(Canoned(canon, file), i.value + 1))
  {
    hide Lcs.IsSubseq, LineAt;
    var c, all := Canoned(canon, lines), Canoned(canon, file);
    var s, i := From(all, start), LineAt(canon, file, lines[0], start);
    assert c[1..] == Canoned(canon, lines[1..]) && c[0] == canon(lines[0]);
    if i.None? {
      assert forall k | 0 <= k < |s| :: s[k] != c[0];
      hide *;
      SkipLines(c, s, |s|);
      NotInNone(c, s[|s|..]);
    } else {
      var n := i.value - start;
      assert n < |s| && s[n] == c[0] && forall k | 0 <= k < n :: s[k] != c[0];
      assert s[n..][1..] == From(all, i.value + 1);
      hide *;
      SkipLines(c, s, n);
      TakeHead(c, s[n..]);
    }
  }

  lemma NotInNone(c: seq<string>, s: seq<string>)
    requires c != [] && s == []
    ensures !Lcs.IsSubseq(c, s)
  {
  }

  /** The places ascend from the start, and each line of the file there reads like its old line. */
  ghost predicate Embeds(canon: Canon, file: seq<string>, lines: seq<string>, start: nat, at: seq<nat>)
  {
    && |at| == |lines|
    && (forall k | 0 <= k < |at| :: start <= at[k] < |file| && canon(file[at[k]]) == canon(lines[k]))
    && (forall j, k | 0 <= j < k < |at| :: at[j] < at[k])
  }

  lemma {:induction false} GreedyEmbeds(canon: Canon, file: seq<string>, lines: seq<string>, start: nat)
    requires Greedy(canon, file, lines, start).Some?
    ensures Embeds(canon, file, lines, start, Greedy(canon, file, lines, start).value)
    decreases |lines|
  {
    if lines != [] {
      var i := LineAt(canon, file, lines[0], start).value;
      GreedyEmbeds(canon, file, lines[1..], i + 1);
    }
  }

  lemma EmbedsTail(canon: Canon, file: seq<string>, lines: seq<string>, start: nat, at: seq<nat>, start': nat)
    requires Embeds(canon, file, lines, start, at) && lines != [] && start' <= at[0] + 1
    ensures Embeds(canon, file, lines[1..], start', at[1..])
  {
    var rest := at[1..];
    forall m | 0 <= m < |rest| ensures start' <= rest[m] < |file| && canon(file[rest[m]]) == canon(lines[1..][m]) {
      assert at[0] < at[m + 1];
    }
  }

  lemma FirstPlace(canon: Canon, file: seq<string>, lines: seq<string>, start: nat, at: seq<nat>)
    requires Embeds(canon, file, lines, start, at) && at != []
    ensures var i := LineAt(canon, file, lines[0], start); i.Some? && i.value <= at[0]
  {
    assert canon(file[at[0]]) == canon(lines[0]);
  }

  lemma GreedyStep(canon: Canon, file: seq<string>, lines: seq<string>, start: nat, i: nat)
    requires lines != [] && LineAt(canon, file, lines[0], start) == Some(i)
    requires Greedy(canon, file, lines[1..], i + 1).Some?
    ensures Greedy(canon, file, lines, start) == Some([i] + Greedy(canon, file, lines[1..], i + 1).value)
  {
    hide LineAt;
  }

  lemma GreedyOfNone(canon: Canon, file: seq<string>, start: nat)
    ensures Greedy(canon, file, [], start) == Some([])
  {
  }

  lemma NoneInAll(canon: Canon, file: seq<string>, start: nat)
    ensures Lcs.IsSubseq(Canoned(canon, []), From(Canoned(canon, file), start))
  {
  }

  lemma EmbedsLength(canon: Canon, file: seq<string>, lines: seq<string>, start: nat, at: seq<nat>)
    requires Embeds(canon, file, lines, start, at)
    ensures |at| == |lines|
  {
  }

  /** No place of one list is behind that of the other. */
  predicate NoLater(x: seq<nat>, y: seq<nat>)
  {
    |x| == |y| && forall k | 0 <= k < |x| :: x[k] <= y[k]
  }

  lemma NoLaterSame(x: seq<nat>)
    ensures NoLater(x, x)
  {
  }

  lemma NoLaterCons(i: nat, x: seq<nat>, y: seq<nat>)
    requires y != [] && i <= y[0] && NoLater(x, y[1..])
    ensures NoLater([i] + x, y)
  {
    forall k | 0 < k < |y| ensures ([i] + x)[k] <= y[k] {
      assert ([i] + x)[k] == x[k - 1] && y[k] == y[1..][k - 1];
    }
  }

  /** It is the earliest way to place the old lines: no other way has any of them before. */
  lemma {:induction false} GreedyIsEarliest(canon: Canon, file: seq<string>, lines: seq<string>, start: nat, at: seq<nat>)
    requires Embeds(canon, file, lines, start, at)
    ensures var g := Greedy(canon, file, lines, start); g.Some? && NoLater(g.value, at)
    decreases |lines|
  {
    hide *;
    EmbedsLength(canon, file, lines, start, at);
    if lines == [] {
      GreedyOfNone(canon, file, start);
      NoLaterSame(at);
    } else {
      FirstPlace(canon, file, lines, start, at);
      var i := LineAt(canon, file, lines[0], start).value;
      EmbedsTail(canon, file, lines, start, at, i + 1);
      GreedyIsEarliest(canon, file, lines[1..], i + 1, at[1..]);
      GreedyStep(canon, file, lines, start, i);
      NoLaterCons(i, Greedy(canon, file, lines[1..], i + 1).value, at);
    }
  }

  // ---- Chunks at the places found ----

  /** The deleted lines of the chunk are not next to each other in the file. */
  predicate Torn(at: seq<nat>, c: PatchChunk)
    requires 0 <= c.origIndex && c.origIndex + |c.del| <= |at|
  {
    c.del != [] && at[c.origIndex + |c.del| - 1] + 1 != at[c.origIndex] + |c.del|
  }

  /** A deletion goes where its first line is, a pure insertion before the next old line or,
      behind the last one, at the cursor. */
  function PlaceOf(at: seq<nat>, cursor: nat, c: PatchChunk): nat
    requires 0 <= c.origIndex && c.origIndex + |c.del| <= |at|
  {
    if c.origIndex < |at| then at[c.origIndex] else cursor
  }

  predicate InBlock(n: nat, chunks: seq<PatchChunk>)
  {
    forall k | 0 <= k < |chunks| :: 0 <= chunks[k].origIndex && chunks[k].origIndex + |chunks[k].del| <= n
  }

  function Moved(at: seq<nat>, cursor: nat, chunks: seq<PatchChunk>): (r: seq<PatchChunk>)
    requires InBlock(|at|, chunks)
    ensures |r| == |chunks|
    ensures forall k | 0 <= k < |r| :: r[k] == PatchChunk(PlaceOf(at, cursor, chunks[k]), chunks[k].del, chunks[k].ins)
  {
    seq(|chunks|, k requires 0 <= k < |chunks| => PatchChunk(PlaceOf(at, cursor, chunks[k]), chunks[k].del, chunks[k].ins))
  }

  predicate OutOfOrder(chunks: seq<PatchChunk>)
  {
    exists k :: 0 < k < |chunks| && chunks[k].origIndex < chunks[k - 1].origIndex + |chunks[k - 1].del|
  }

  function CursorAfter(at: seq<nat>, start: nat): nat { if at == [] then start else at[|at| - 1] + 1 }

  datatype Anchoring = Anchoring(chunks: seq<PatchChunk>, nextIndex: nat)

  predicate AnyTorn(at: seq<nat>, chunks: seq<PatchChunk>)
    requires InBlock(|at|, chunks)
  {
    exists k :: 0 <= k < |chunks| && Torn(at, chunks[k])
  }

  function Anchored(canon: Canon, file: seq<string>, context: seq<string>, chunks: seq<PatchChunk>, start: nat): Option<Anchoring>
    requires InBlock(|context|, chunks)
  {
    var at := Greedy(canon, file, context, start);
    if at.None? then None
    else
      GreedyEmbeds(canon, file, context, start);
      var out := Moved(at.value, CursorAfter(at.value, start), chunks);
      if AnyTorn(at.value, chunks) || OutOfOrder(out) then None else Some(Anchoring(out, CursorAfter(at.value, start)))
  }

  /** The chunks of a hunk that are not torn never come out of order, and never outside the file. */
  lemma PlacesAscend(canon: Canon, file: seq<string>, context: seq<string>, chunks: seq<PatchChunk>, start: nat, at: seq<nat>)
    requires WellFormed(context, chunks) && InBlock(|context|, chunks) && context != []
    requires Embeds(canon, file, context, start, at) && !AnyTorn(at, chunks)
    ensures var out := Moved(at, CursorAfter(at, start), chunks);
            && !OutOfOrder(out) && (forall k | 0 <= k < |out| :: 0 <= out[k].origIndex && out[k].origIndex + |out[k].del| <= |file|)
  {
    var cursor := CursorAfter(at, start);
    var out := Moved(at, cursor, chunks);
    forall k | 0 <= k < |out| ensures 0 <= out[k].origIndex && out[k].origIndex + |out[k].del| <= |file| {
      PlaceEnds(canon, file, context, chunks[k], start, at);
    }
    forall k | 0 < k < |out| ensures out[k].origIndex >= out[k - 1].origIndex + |out[k - 1].del| {
      var c, d := chunks[k - 1], chunks[k];
      PlaceEnds(canon, file, context, c, start, at);
      assert SeparatedAt(chunks, k);
      var e := c.origIndex + |c.del|;
      if c.del != [] {
        assert at[e - 1] < at[e];
      }
      if d.origIndex < |at| {
        assert e < d.origIndex ==> at[e] < at[d.origIndex];
      } else {
        assert at[e] <= at[|at| - 1];
      }
    }
  }

  lemma PlaceEnds(canon: Canon, file: seq<string>, context: seq<string>, c: PatchChunk, start: nat, at: seq<nat>)
    requires 0 <= c.origIndex && c.origIndex + |c.del| <= |at| && !Torn(at, c) && context != []
    requires Embeds(canon, file, context, start, at)
    ensures PlaceOf(at, CursorAfter(at, start), c) + |c.del| <= |file|
    ensures c.del != [] ==> PlaceOf(at, CursorAfter(at, start), c) + |c.del| == at[c.origIndex + |c.del| - 1] + 1
  {
  }

  lemma {:induction false} InOrderFits(length: nat, cur: nat, chunks: seq<PatchChunk>)
    requires !OutOfOrder(chunks) && (chunks != [] ==> cur <= chunks[0].origIndex)
    requires forall k | 0 <= k < |chunks| :: 0 <= chunks[k].origIndex && chunks[k].origIndex + |chunks[k].del| <= length
    ensures Fits(length, cur, chunks)
    decreases |chunks|
  {
    if chunks != [] {
      var rest := chunks[1..];
      forall k | 0 < k < |rest| ensures rest[k].origIndex >= rest[k - 1].origIndex + |rest[k - 1].del| {
        assert rest[k] == chunks[k + 1] && rest[k - 1] == chunks[k];
      }
      InOrderFits(length, chunks[0].origIndex + |chunks[0].del|, rest);
    }
  }

  /** Each deleted run lies on file lines that read like it, one after the other. */
  ghost predicate RunsMatch(canon: Canon, file: seq<string>, chunks: seq<PatchChunk>)
  {
    forall k | 0 <= k < |chunks| :: RunMatches(canon, file, chunks[k])
  }

  ghost predicate RunMatches(canon: Canon, file: seq<string>, c: PatchChunk)
  {
    && 0 <= c.origIndex && c.origIndex + |c.del| <= |file|
    && forall m | 0 <= m < |c.del| :: canon(file[c.origIndex + m]) == canon(c.del[m])
  }

  lemma RunMatchesAt(canon: Canon, file: seq<string>, context: seq<string>, c: PatchChunk, start: nat, at: seq<nat>)
    requires ChunkInBlock(context, c) && context != [] && Embeds(canon, file, context, start, at) && !Torn(at, c)
    ensures RunMatches(canon, file, PatchChunk(PlaceOf(at, CursorAfter(at, start), c), c.del, c.ins))
  {
    PlaceEnds(canon, file, context, c, start, at);
    var s, n := c.origIndex, |c.del|;
    forall m | 0 <= m < n ensures canon(file[PlaceOf(at, CursorAfter(at, start), c) + m]) == canon(c.del[m]) {
      Contiguous(at, s, n, m);
      assert c.del[m] == context[s..s + n][m] == context[s + m];
    }
  }

  /** Ascending places that span exactly their number are consecutive. */
  lemma Contiguous(at: seq<nat>, s: nat, n: nat, m: nat)
    requires s + n <= |at| && m < n && at[s + n - 1] + 1 == at[s] + n
    requires forall j, k | 0 <= j < k < |at| :: at[j] < at[k]
    ensures at[s + m] == at[s] + m
  {
    Spread(at, s, s + m);
    Spread(at, s + m, s + n - 1);
  }

  lemma {:induction false} Spread(at: seq<nat>, j: nat, k: nat)
    requires j <= k < |at|
    requires forall j, k | 0 <= j < k < |at| :: at[j] < at[k]
    ensures at[j] + (k - j) <= at[k]
    decreases k
  {
    if j < k {
      Spread(at, j, k - 1);
    }
  }

  /** For a hunk with old lines: anchoring fails exactly when they are not a subsequence of the
      file from the start, or the earliest way to place them tears a deletion apart. When it
      succeeds, its chunks are never refused, and each deletes lines that read like its own. */
  lemma AnchoringIsSafe(canon: Canon, file: seq<string>, context: seq<string>, chunks: seq<PatchChunk>, start: nat)
    requires context != [] && WellFormed(context, chunks) && InBlock(|context|, chunks)
    ensures var r, at := Anchored(canon, file, context, chunks, start), Greedy(canon, file, context, start);
            && (at.Some? <==> Lcs.IsSubseq(Canoned(canon, context), From(Canoned(canon, file), start)))
            && (at.Some? ==> Embeds(canon, file, context, start, at.value))
            && (r.None? <==> at.None? || AnyTorn(at.value, chunks))
            && (r.Some? ==> Fits(|file|, 0, r.value.chunks) && RunsMatch(canon, file, r.value.chunks))
            && (r.Some? ==> start < r.value.nextIndex <= |file|)
  {
    GreedyIsComplete(canon, file, context, start);
    var at := Greedy(canon, file, context, start);
    if at.Some? {
      GreedyEmbeds(canon, file, context, start);
      if !AnyTorn(at.value, chunks) {
        var out := Moved(at.value, CursorAfter(at.value, start), chunks);
        PlacesAscend(canon, file, context, chunks, start, at.value);
        InOrderFits(|file|, 0, out);
        forall k | 0 <= k < |out| ensures RunMatches(canon, file, out[k]) {
          assert ChunkInBlock(context, chunks[k]) && !Torn(at.value, chunks[k]);
          RunMatchesAt(canon, file, context, chunks[k], start, at.value);
        }
      }
    }
  }

  // ---- As the parser runs it ----

  method FindLine(canon: Canon, file: seq<string>, target: string, cursor: nat) returns (r: Option<nat>)
    ensures r == LineAt(canon, file, target, cursor)
  {
    var key := canon(target);
    var i := cursor;
    while i < |file|
      invariant cursor <= i && LineAt(canon, file, target, cursor) == LineAt(canon, file, target, i)
    {
      if canon(file[i]) == key {
        return Some(i);
      }
      i := i + 1;
    }
    r := None;
  }

  ghost predicate PlacedSoFar(canon: Canon, file: seq<string>, lines: seq<string>, start: nat, k: nat, at: seq<nat>, cursor: nat)
  {
    && k <= |lines| && |at| == k && cursor == CursorAfter(at, start)
    && var all, rest := Greedy(canon, file, lines, start), Greedy(canon, file, lines[k..], cursor);
    all == if rest.None? then None else Some(at + rest.value)
  }

  lemma PlacedStep(canon: Canon, file: seq<string>, lines: seq<string>, start: nat, k: nat, at: seq<nat>, cursor: nat)
    requires PlacedSoFar(canon, file, lines, start, k, at, cursor) && k < |lines|
    ensures var i := LineAt(canon, file, lines[k], cursor);
            if i.None? then Greedy(canon, file, lines, start).None?
            else PlacedSoFar(canon, file, lines, start, k + 1, at + [i.value], i.value + 1)
  {
    assert lines[k..][0] == lines[k] && lines[k..][1..] == lines[k + 1..];
    var i := LineAt(canon, file, lines[k], cursor);
    if i.Some? {
      var rest := Greedy(canon, file, lines[k + 1..], i.value + 1);
      if rest.Some? {
        assert at + ([i.value] + rest.value) == at + [i.value] + rest.value;
      }
    }
  }

  lemma PlacedEnds(canon: Canon, file: seq<string>, lines: seq<string>, start: nat, at: seq<nat>, cursor: nat)
    requires PlacedSoFar(canon, file, lines, start, |lines|, at, cursor)
    ensures Greedy(canon, file, lines, start) == Some(at) && cursor == CursorAfter(at, start)
  {
    assert lines[|lines|..] == [] && at + [] == at;
  }

  lemma PlacedStart(canon: Canon, file: seq<string>, lines: seq<string>, start: nat)
    ensures PlacedSoFar(canon, file, lines, start, 0, [], start)
  {
    var all := Greedy(canon, file, lines, start);
    assert lines[0..] == lines;
    if all.Some? {
      assert [] + all.value == all.value;
    }
  }

  method TryLineByLineAnchor(canon: Canon, file: seq<string>, context: seq<string>, chunks: seq<PatchChunk>, start: nat)
    returns (r: Option<Anchoring>)
    requires InBlock(|context|, chunks)
    ensures r == Anchored(canon, file, context, chunks, start)
  {
    hide PlacedSoFar, Greedy, LineAt, Torn, PlaceOf;
    var at: seq<nat> := [];
    var cursor := start;
    PlacedStart(canon, file, context, start);
    for k := 0 to |context|
      invariant |at| == k && PlacedSoFar(canon, file, context, start, k, at, cursor)
    {
      PlacedStep(canon, file, context, start, k, at, cursor);
      var i := FindLine(canon, file, context[k], cursor);
      if i.None? {
        return None;
      }
      at := at + [i.value];
      cursor := i.value + 1;
    }
    PlacedEnds(canon, file, context, start, at, cursor);
    var out: seq<PatchChunk> := [];
    for k := 0 to |chunks|
      invariant |out| == k && out == Moved(at, cursor, chunks)[..k]
      invariant forall m | 0 <= m < k :: !Torn(at, chunks[m])
    {
      if Torn(at, chunks[k]) {
        return None;
      }
      out := out + [PatchChunk(PlaceOf(at, cursor, chunks[k]), chunks[k].del, chunks[k].ins)];
    }
    assert out == Moved(at, cursor, chunks);
    var k := 1;
    while k < |out|
      invariant 1 <= k
      invariant forall m | 0 < m < k && m < |out| :: out[m].origIndex >= out[m - 1].origIndex + |out[m - 1].del|
    {
      if out[k].origIndex < out[k - 1].origIndex + |out[k - 1].del| {
        return None;
      }
      k := k + 1;
    }
    return Some(Anchoring(out, cursor));
  }
}
