/** From a before/after pair of texts to an invertible patch and a line shift table. */
module Diff {
  import opened Wrappers
  import opened Lines
  import opened Numbers
  import Lcs

  /** oldStart is 1-based. */
  datatype Hunk = Hunk(oldStart: nat, oldLines: seq<string>, newLines: seq<string>)

  /** Before-lines [start, start + delCount) were replaced, a net gain of delta lines. */
  datatype LineShift = LineShift(start: nat, delCount: nat, delta: int)

  /** An edit block: before-lines [delStart, delEnd) became after-lines [insStart, insEnd). */
  datatype Block = Block(delStart: nat, delEnd: nat, insStart: nat, insEnd: nat)

  datatype Patch = Patch(hunks: seq<Hunk>, shifts: seq<LineShift>)

  const CONTEXT: nat := 3

  // ---- What a list of blocks means ----

  predicate InRange(b: seq<string>, a: seq<string>, k: Block)
  {
    k.delStart <= k.delEnd <= |b| && k.insStart <= k.insEnd <= |a|
  }

  predicate SameGap(b: seq<string>, a: seq<string>, j: nat, i: nat, j': nat, i': nat)
  {
    j <= j' <= |b| && i <= i' <= |a| && b[j..j'] == a[i..i']
  }

  function EndBefore(blocks: seq<Block>, k: nat): (nat, nat)
    requires k <= |blocks|
  {
    if k == 0 then (0, 0) else (blocks[k - 1].delEnd, blocks[k - 1].insEnd)
  }

  /** Block k is in range, and the lines between it and its predecessor are equal on both sides. */
  ghost predicate BlockOk(b: seq<string>, a: seq<string>, blocks: seq<Block>, k: nat)
    requires k < |blocks|
  {
    && InRange(b, a, blocks[k])
    && SameGap(b, a, EndBefore(blocks, k).0, EndBefore(blocks, k).1, blocks[k].delStart, blocks[k].insStart)
  }

  /** All blocks are fine, and equal lines lead from the last one to the point (j, i). */
  ghost predicate EditsTo(b: seq<string>, a: seq<string>, blocks: seq<Block>, j: nat, i: nat)
  {
    && (forall k | 0 <= k < |blocks| :: BlockOk(b, a, blocks, k))
    && SameGap(b, a, EndBefore(blocks, |blocks|).0, EndBefore(blocks, |blocks|).1, j, i)
  }

  /** The blocks account for the whole difference between b and a. */
  ghost predicate Edits(b: seq<string>, a: seq<string>, blocks: seq<Block>)
  {
    EditsTo(b, a, blocks, |b|, |a|)
  }

  /** Block k is not empty, and at least one kept line lies between it and its predecessor. */
  ghost predicate Apart(blocks: seq<Block>, k: nat)
    requires k < |blocks|
  {
    && (k > 0 ==> blocks[k - 1].delEnd < blocks[k].delStart)
    && (blocks[k].delStart < blocks[k].delEnd || blocks[k].insStart < blocks[k].insEnd)
  }

  ghost predicate Separated(blocks: seq<Block>)
  {
    forall k | 0 <= k < |blocks| :: Apart(blocks, k)
  }

  function Deleted(blocks: seq<Block>): int
  {
    if blocks == [] then 0
    else Deleted(blocks[..|blocks| - 1]) + blocks[|blocks| - 1].delEnd - blocks[|blocks| - 1].delStart
  }

  function OldParts(b: seq<string>, blocks: seq<Block>): seq<seq<string>>
  {
    seq(|blocks|, k requires 0 <= k < |blocks| => Cut(b, blocks[k].delStart, blocks[k].delEnd))
  }

  function NewParts(a: seq<string>, blocks: seq<Block>): seq<seq<string>>
  {
    seq(|blocks|, k requires 0 <= k < |blocks| => Cut(a, blocks[k].insStart, blocks[k].insEnd))
  }

  /** The lines kept before each block and after the last one. */
  function Gaps(b: seq<string>, blocks: seq<Block>): seq<seq<string>>
  {
    seq(|blocks| + 1, k requires 0 <= k <= |blocks| =>
      Cut(b, EndBefore(blocks, k).0, if k < |blocks| then blocks[k].delStart else |b|))
  }

  /** What gap k, old part k and new part k are cut from. */
  ghost predicate Parts(
    b: seq<string>, a: seq<string>, blocks: seq<Block>,
    g: seq<seq<string>>, olds: seq<seq<string>>, news: seq<seq<string>>, k: nat)
    requires k < |blocks| == |olds| == |news| && |g| == |blocks| + 1
  {
    var e, c := EndBefore(blocks, k), blocks[k];
    && InRange(b, a, c) && SameGap(b, a, e.0, e.1, c.delStart, c.insStart)
    && g[k] == b[e.0..c.delStart]
    && olds[k] == b[c.delStart..c.delEnd] && news[k] == a[c.insStart..c.insEnd]
  }

  lemma {:induction false} PartsWeave(
    b: seq<string>, a: seq<string>, blocks: seq<Block>,
    g: seq<seq<string>>, olds: seq<seq<string>>, news: seq<seq<string>>, k: nat)
    requires k <= |blocks| == |olds| == |news| && |g| == |blocks| + 1
    requires forall m | 0 <= m < |blocks| :: Parts(b, a, blocks, g, olds, news, m)
    requires SameGap(b, a, EndBefore(blocks, |blocks|).0, EndBefore(blocks, |blocks|).1, |b|, |a|)
    requires g[|blocks|] == b[EndBefore(blocks, |blocks|).0..]
    ensures EndBefore(blocks, k).0 <= |b| && EndBefore(blocks, k).1 <= |a|
    ensures Weave(g[k..], olds[k..]) == b[EndBefore(blocks, k).0..]
    ensures Weave(g[k..], news[k..]) == a[EndBefore(blocks, k).1..]
    decreases |blocks| - k
  {
    var j, i := EndBefore(blocks, k).0, EndBefore(blocks, k).1;
    if k == |blocks| {
      assert b[j..|b|] == b[j..] && a[i..|a|] == a[i..];
      assert g[k..] == [b[j..]] && olds[k..] == [] && news[k..] == [];
    } else {
      PartsWeave(b, a, blocks, g, olds, news, k + 1);
      assert Parts(b, a, blocks, g, olds, news, k);
      var c := blocks[k];
      WeaveAt(g, olds, k);
      WeaveAt(g, news, k);
      assert b[j..] == b[j..c.delStart] + b[c.delStart..c.delEnd] + b[c.delEnd..];
      assert a[i..] == a[i..c.insStart] + a[c.insStart..c.insEnd] + a[c.insEnd..];
    }
  }

  lemma {:induction false} PartsOffset(
    b: seq<string>, a: seq<string>, blocks: seq<Block>,
    g: seq<seq<string>>, olds: seq<seq<string>>, news: seq<seq<string>>, k: nat)
    requires k < |blocks| == |olds| == |news| && |g| == |blocks| + 1
    requires forall m | 0 <= m < |blocks| :: Parts(b, a, blocks, g, olds, news, m)
    ensures Offset(g, olds, k) == blocks[k].delStart && Offset(g, news, k) == blocks[k].insStart
  {
    var e := EndBefore(blocks, k);
    assert Parts(b, a, blocks, g, olds, news, k);
    assert |g[k]| == |b[e.0..blocks[k].delStart]| == |a[e.1..blocks[k].insStart]|;
    if k > 0 {
      PartsOffset(b, a, blocks, g, olds, news, k - 1);
      assert Parts(b, a, blocks, g, olds, news, k - 1);
      OffsetStep(g, olds, k - 1);
      OffsetStep(g, news, k - 1);
    }
  }

  lemma EditsParts(b: seq<string>, a: seq<string>, blocks: seq<Block>)
    requires Edits(b, a, blocks)
    ensures forall m | 0 <= m < |blocks| ::
              Parts(b, a, blocks, Gaps(b, blocks), OldParts(b, blocks), NewParts(a, blocks), m)
    ensures EndBefore(blocks, |blocks|).0 <= |b| && Gaps(b, blocks)[|blocks|] == b[EndBefore(blocks, |blocks|).0..]
  {
    forall m | 0 <= m < |blocks| ensures
      Parts(b, a, blocks, Gaps(b, blocks), OldParts(b, blocks), NewParts(a, blocks), m)
    {
      assert BlockOk(b, a, blocks, m);
    }
  }

  /** Both texts are woven from the same kept stretches, each block at its own offset. */
  lemma EditsWeave(b: seq<string>, a: seq<string>, blocks: seq<Block>)
    requires Edits(b, a, blocks)
    ensures Weave(Gaps(b, blocks), OldParts(b, blocks)) == b
    ensures Weave(Gaps(b, blocks), NewParts(a, blocks)) == a
    ensures forall k | 0 <= k < |blocks| ::
              Offset(Gaps(b, blocks), OldParts(b, blocks), k) == blocks[k].delStart &&
              Offset(Gaps(b, blocks), NewParts(a, blocks), k) == blocks[k].insStart
  {
    EditsParts(b, a, blocks);
    var g, olds, news := Gaps(b, blocks), OldParts(b, blocks), NewParts(a, blocks);
    PartsWeave(b, a, blocks, g, olds, news, 0);
    assert g[0..] == g && olds[0..] == olds && news[0..] == news;
    forall k | 0 <= k < |blocks|
      ensures Offset(g, olds, k) == blocks[k].delStart && Offset(g, news, k) == blocks[k].insStart
    {
      PartsOffset(b, a, blocks, g, olds, news, k);
    }
  }

  /** A common tail beyond both texts is kept. */
  lemma EditsExtend(b: seq<string>, a: seq<string>, tail: seq<string>, blocks: seq<Block>)
    requires Edits(b, a, blocks)
    ensures Edits(b + tail, a + tail, blocks)
  {
    var j, i := EndBefore(blocks, |blocks|).0, EndBefore(blocks, |blocks|).1;
    assert (b + tail)[j..|b + tail|] == b[j..|b|] + tail;
    assert (a + tail)[i..|a + tail|] == a[i..|a|] + tail;
    forall k | 0 <= k < |blocks| ensures BlockOk(b + tail, a + tail, blocks, k) {
      var e := EndBefore(blocks, k);
      assert BlockOk(b, a, blocks, k);
      assert (b + tail)[e.0..blocks[k].delStart] == b[e.0..blocks[k].delStart];
      assert (a + tail)[e.1..blocks[k].insStart] == a[e.1..blocks[k].insStart];
    }
  }

  // ---- Finding the blocks ----

  method CommonPrefix(b: seq<string>, a: seq<string>) returns (pre: nat)
    ensures pre <= |b| && pre <= |a| && b[..pre] == a[..pre]
    ensures pre < |b| && pre < |a| ==> b[pre] != a[pre]
  {
    pre := 0;
    while pre < |b| && pre < |a| && b[pre] == a[pre]
      invariant pre <= |b| && pre <= |a| && b[..pre] == a[..pre]
    {
      pre := pre + 1;
    }
  }

  method CommonSuffix(b: seq<string>, a: seq<string>, pre: nat) returns (suf: nat)
    requires pre <= |b| && pre <= |a|
    ensures pre + suf <= |b| && pre + suf <= |a| && b[|b| - suf..] == a[|a| - suf..]
    ensures pre + suf < |b| && pre + suf < |a| ==> b[|b| - 1 - suf] != a[|a| - 1 - suf]
  {
    suf := 0;
    while suf < |b| - pre && suf < |a| - pre && b[|b| - 1 - suf] == a[|a| - 1 - suf]
      invariant pre + suf <= |b| && pre + suf <= |a| && b[|b| - suf..] == a[|a| - suf..]
    {
      assert b[|b| - 1 - suf..] == [b[|b| - 1 - suf]] + b[|b| - suf..];
      assert a[|a| - 1 - suf..] == [a[|a| - 1 - suf]] + a[|a| - suf..];
      suf := suf + 1;
    }
  }

  function LastDel(blocks: seq<Block>): int { if blocks == [] then -1 else blocks[|blocks| - 1].delEnd }

  /** Closed blocks and possibly one open block, together reaching the point (j, i). */
  ghost predicate Walked(b: seq<string>, a: seq<string>, blocks: seq<Block>, cur: Option<Block>, j: nat, i: nat)
  {
    && j <= |b| && i <= |a| && Separated(blocks)
    && (cur.None? ==> EditsTo(b, a, blocks, j, i) && LastDel(blocks) < j)
    && (cur.Some? ==>
          var c := cur.value;
          && EditsTo(b, a, blocks, c.delStart, c.insStart) && LastDel(blocks) < c.delStart
          && c.delStart <= c.delEnd == j && c.insStart <= c.insEnd == i
          && (c.delStart < j || c.insStart < i))
  }

  function OpenAt(cur: Option<Block>, j: nat, i: nat): Block
  {
    if cur.Some? then cur.value else Block(j, j, i, i)
  }

  function Removed(blocks: seq<Block>, cur: Option<Block>): int
  {
    Deleted(blocks) + if cur.Some? then cur.value.delEnd - cur.value.delStart else 0
  }

  lemma CloseBlock(b: seq<string>, a: seq<string>, blocks: seq<Block>, c: Block)
    requires EditsTo(b, a, blocks, c.delStart, c.insStart) && InRange(b, a, c)
    requires Separated(blocks) && LastDel(blocks) < c.delStart
    requires c.delStart < c.delEnd || c.insStart < c.insEnd
    ensures EditsTo(b, a, blocks + [c], c.delEnd, c.insEnd)
    ensures Separated(blocks + [c])
    ensures Deleted(blocks + [c]) == Deleted(blocks) + c.delEnd - c.delStart
  {
    var bs := blocks + [c];
    assert bs[..|bs| - 1] == blocks;
    assert b[c.delEnd..c.delEnd] == a[c.insEnd..c.insEnd];
    forall k | 0 <= k < |bs| ensures BlockOk(b, a, bs, k) {
      assert EndBefore(bs, k) == EndBefore(blocks, k);
      assert k < |blocks| ==> BlockOk(b, a, blocks, k);
    }
    forall k | 0 <= k < |bs| ensures Apart(bs, k) {
      assert k < |blocks| ==> Apart(blocks, k);
    }
  }

  lemma KeepLine(b: seq<string>, a: seq<string>, blocks: seq<Block>, j: nat, i: nat)
    requires EditsTo(b, a, blocks, j, i) && j < |b| && i < |a| && b[j] == a[i]
    ensures EditsTo(b, a, blocks, j + 1, i + 1)
  {
    var e := EndBefore(blocks, |blocks|);
    assert b[e.0..j + 1] == b[e.0..j] + [b[j]] && a[e.1..i + 1] == a[e.1..i] + [a[i]];
  }

  lemma TableAt(dp: seq<Lcs.uint32>, rb: seq<string>, ra: seq<string>, i: nat, j: nat)
    requires Lcs.TableOk(dp, rb, ra) && i < |ra| && j < |rb|
    ensures Lcs.Cell(i + 1, j, |rb| + 1) < |dp| && Lcs.Cell(i, j + 1, |rb| + 1) < |dp|
    ensures dp[Lcs.Cell(i + 1, j, |rb| + 1)] as int == Lcs.Length(rb[j..], ra[i + 1..])
    ensures dp[Lcs.Cell(i, j + 1, |rb| + 1)] as int == Lcs.Length(rb[j + 1..], ra[i..])
  {
    Lcs.CellInRange(i + 1, j, |ra| + 1, |rb| + 1);
    Lcs.CellInRange(i, j + 1, |ra| + 1, |rb| + 1);
    assert Lcs.CellOk(dp, rb, ra, i + 1, j) && Lcs.CellOk(dp, rb, ra, i, j + 1);
  }

  lemma WalkInsert(b: seq<string>, a: seq<string>, blocks: seq<Block>, cur: Option<Block>, j: nat, i: nat)
    requires Walked(b, a, blocks, cur, j, i) && i < |a|
    ensures Walked(b, a, blocks, Some(OpenAt(cur, j, i).(insEnd := i + 1)), j, i + 1)
    ensures Removed(blocks, Some(OpenAt(cur, j, i).(insEnd := i + 1))) == Removed(blocks, cur)
  {
  }

  lemma WalkDelete(b: seq<string>, a: seq<string>, blocks: seq<Block>, cur: Option<Block>, j: nat, i: nat)
    requires Walked(b, a, blocks, cur, j, i) && j < |b|
    ensures Walked(b, a, blocks, Some(OpenAt(cur, j, i).(delEnd := j + 1)), j + 1, i)
    ensures Removed(blocks, Some(OpenAt(cur, j, i).(delEnd := j + 1))) == Removed(blocks, cur) + 1
  {
  }

  function Closed(blocks: seq<Block>, cur: Option<Block>): seq<Block>
  {
    if cur.Some? then blocks + [cur.value] else blocks
  }

  lemma WalkClose(b: seq<string>, a: seq<string>, blocks: seq<Block>, cur: Option<Block>, j: nat, i: nat)
    requires Walked(b, a, blocks, cur, j, i)
    ensures EditsTo(b, a, Closed(blocks, cur), j, i) && Separated(Closed(blocks, cur))
    ensures LastDel(Closed(blocks, cur)) <= j
    ensures Deleted(Closed(blocks, cur)) == Removed(Closed(blocks, cur), None) == Removed(blocks, cur)
  {
    if cur.Some? {
      CloseBlock(b, a, blocks, cur.value);
    }
  }

  lemma WalkKeep(b: seq<string>, a: seq<string>, blocks: seq<Block>, cur: Option<Block>, j: nat, i: nat)
    requires Walked(b, a, blocks, cur, j, i) && j < |b| && i < |a| && b[j] == a[i]
    ensures Walked(b, a, Closed(blocks, cur), None, j + 1, i + 1)
    ensures Removed(Closed(blocks, cur), None) == Removed(blocks, cur)
  {
    WalkClose(b, a, blocks, cur, j, i);
    KeepLine(b, a, Closed(blocks, cur), j, i);
  }

  lemma WalkStart(b: seq<string>, a: seq<string>, pre: nat)
    requires pre <= |b| && pre <= |a| && b[..pre] == a[..pre]
    ensures Walked(b, a, [], None, pre, pre) && Removed([], None) == 0
  {
    assert b[0..pre] == b[..pre] && a[0..pre] == a[..pre];
  }

  /** Lines that a best alignment still keeps from row i and column j on. */
  ghost function Rest(rb: seq<string>, ra: seq<string>, j: nat, i: nat): nat
    requires j <= |rb| && i <= |ra|
  {
    Lcs.Length(rb[j..], ra[i..])
  }

  lemma RestEnds(rb: seq<string>, ra: seq<string>)
    ensures Rest(rb, ra, 0, 0) == Lcs.Length(rb, ra)
    ensures forall j | 0 <= j <= |rb| :: Rest(rb, ra, j, |ra|) == 0
    ensures forall i | 0 <= i <= |ra| :: Rest(rb, ra, |rb|, i) == 0
  {
    assert rb[0..] == rb && ra[0..] == ra;
  }

  lemma RestStep(dp: seq<Lcs.uint32>, rb: seq<string>, ra: seq<string>, j: nat, i: nat)
    requires Lcs.TableOk(dp, rb, ra) && i < |ra| && j < |rb|
    ensures var below, right := Lcs.Cell(i + 1, j, |rb| + 1), Lcs.Cell(i, j + 1, |rb| + 1);
            && below < |dp| && right < |dp|
            && (rb[j] == ra[i] ==> Rest(rb, ra, j, i) == 1 + Rest(rb, ra, j + 1, i + 1))
            && (rb[j] != ra[i] && dp[below] >= dp[right] ==> Rest(rb, ra, j, i) == Rest(rb, ra, j, i + 1))
            && (rb[j] != ra[i] && dp[below] < dp[right] ==> Rest(rb, ra, j, i) == Rest(rb, ra, j + 1, i))
  {
    Lcs.LengthStep(rb, ra, i, j);
    TableAt(dp, rb, ra, i, j);
  }

  /** Walks the table from its first cell; neighbouring edits gather in one block. The lines
      kept within the walked part number exactly its longest common subsequence. */
  method Backtrack(b: seq<string>, a: seq<string>, pre: nat, rb: seq<string>, ra: seq<string>, dp: array<Lcs.uint32>)
    returns (blocks: seq<Block>)
    requires pre + |rb| <= |b| && pre + |ra| <= |a| && b[..pre] == a[..pre]
    requires rb == b[pre..pre + |rb|] && ra == a[pre..pre + |ra|]
    requires Lcs.TableOk(dp[..], rb, ra)
    ensures EditsTo(b, a, blocks, pre + |rb|, pre + |ra|) && Separated(blocks)
    ensures |rb| - Deleted(blocks) == Lcs.Length(rb, ra)
  {
    hide *;
    blocks := [];
    var cur: Option<Block> := None;
    var cols := |rb| + 1;
    var i, j := 0, 0;
    WalkStart(b, a, pre);
    RestEnds(rb, ra);
    while i < |ra| && j < |rb|
      invariant i <= |ra| && j <= |rb|
      invariant Walked(b, a, blocks, cur, pre + j, pre + i)
      invariant j - Removed(blocks, cur) + Rest(rb, ra, j, i) == Lcs.Length(rb, ra)
    {
      RestStep(dp[..], rb, ra, j, i);
      if rb[j] == ra[i] {
        WalkKeep(b, a, blocks, cur, pre + j, pre + i);
        blocks, cur := Closed(blocks, cur), None;
        i, j := i + 1, j + 1;
      } else if dp[Lcs.Cell(i + 1, j, cols)] >= dp[Lcs.Cell(i, j + 1, cols)] {
        WalkInsert(b, a, blocks, cur, pre + j, pre + i);
        cur := Some(OpenAt(cur, pre + j, pre + i).(insEnd := pre + i + 1));
        i := i + 1;
      } else {
        WalkDelete(b, a, blocks, cur, pre + j, pre + i);
        cur := Some(OpenAt(cur, pre + j, pre + i).(delEnd := pre + j + 1));
        j := j + 1;
      }
    }
    while i < |ra|
      invariant i <= |ra| && j <= |rb| && (i == |ra| || j == |rb|)
      invariant Walked(b, a, blocks, cur, pre + j, pre + i)
      invariant j - Removed(blocks, cur) == Lcs.Length(rb, ra)
    {
      WalkInsert(b, a, blocks, cur, pre + j, pre + i);
      cur := Some(OpenAt(cur, pre + j, pre + i).(insEnd := pre + i + 1));
      i := i + 1;
    }
    while j < |rb|
      invariant i == |ra| && j <= |rb|
      invariant Walked(b, a, blocks, cur, pre + j, pre + i)
      invariant j - Removed(blocks, cur) == Lcs.Length(rb, ra)
    {
      WalkDelete(b, a, blocks, cur, pre + j, pre + i);
      cur := Some(OpenAt(cur, pre + j, pre + i).(delEnd := pre + j + 1));
      j := j + 1;
    }
    WalkClose(b, a, blocks, cur, pre + |rb|, pre + |ra|);
    blocks := Closed(blocks, cur);
  }

  // ---- Context and hunks ----

  function Less(n: nat, k: nat): nat { if n < k then 0 else n - k }

  /** Where block k starts; past the last block, the ends of both texts. */
  function StartAt(b: seq<string>, a: seq<string>, blocks: seq<Block>, k: nat): (nat, nat)
    requires k <= |blocks|
  {
    if k == |blocks| then (|b|, |a|) else (blocks[k].delStart, blocks[k].insStart)
  }

  lemma GapAt(b: seq<string>, a: seq<string>, blocks: seq<Block>, k: nat)
    requires Edits(b, a, blocks) && k <= |blocks|
    ensures var e, s := EndBefore(blocks, k), StartAt(b, a, blocks, k);
            SameGap(b, a, e.0, e.1, s.0, s.1) && s.0 - e.0 == s.1 - e.1
    ensures k < |blocks| ==> InRange(b, a, blocks[k])
  {
    var e, s := EndBefore(blocks, k), StartAt(b, a, blocks, k);
    if k < |blocks| {
      assert BlockOk(b, a, blocks, k);
    }
    assert |b[e.0..s.0]| == |a[e.1..s.1]|;
  }

  /** Blocks first to last, with up to three lines of context on either side. */
  function Widened(b: seq<string>, a: seq<string>, first: Block, last: Block): Block
  {
    Block(Less(first.delStart, CONTEXT), Min(|b|, last.delEnd + CONTEXT),
          Less(first.insStart, CONTEXT), Min(|a|, last.insEnd + CONTEXT))
  }

  /** Span k widens the blocks cuts[k] up to cuts[k + 1], and the next block lies more than
      the context behind it. */
  ghost predicate SpanOk(b: seq<string>, a: seq<string>, blocks: seq<Block>, spans: seq<Block>, cuts: seq<nat>, k: nat)
    requires k < |spans| && |cuts| == |spans| + 1
  {
    && cuts[k] < cuts[k + 1] <= |blocks|
    && spans[k] == Widened(b, a, blocks[cuts[k]], blocks[cuts[k + 1] - 1])
    && (cuts[k + 1] < |blocks| ==> spans[k].delEnd + CONTEXT < blocks[cuts[k + 1]].delStart)
  }

  ghost predicate Spans(b: seq<string>, a: seq<string>, blocks: seq<Block>, spans: seq<Block>, cuts: seq<nat>, idx: nat)
  {
    && |cuts| == |spans| + 1 && cuts[0] == 0 && cuts[|spans|] == idx <= |blocks|
    && (forall k | 0 <= k < |spans| :: SpanOk(b, a, blocks, spans, cuts, k))
    && EditsTo(b, a, spans, StartAt(b, a, blocks, idx).0, StartAt(b, a, blocks, idx).1)
    && Separated(spans)
  }

  function HunkOf(b: seq<string>, a: seq<string>, s: Block): Hunk
  {
    Hunk(s.delStart + 1, Cut(b, s.delStart, s.delEnd), Cut(a, s.insStart, s.insEnd))
  }

  function ShiftOf(k: Block): LineShift
  {
    LineShift(k.delStart, if k.delStart <= k.delEnd then k.delEnd - k.delStart else 0,
              k.insEnd - k.insStart - (k.delEnd - k.delStart))
  }

  function ShiftsOf(blocks: seq<Block>): seq<LineShift>
  {
    seq(|blocks|, k requires 0 <= k < |blocks| => ShiftOf(blocks[k]))
  }

  function HunksOf(b: seq<string>, a: seq<string>, spans: seq<Block>): seq<Hunk>
  {
    seq(|spans|, k requires 0 <= k < |spans| => HunkOf(b, a, spans[k]))
  }

  lemma SubGap(b: seq<string>, a: seq<string>, j: nat, i: nat, j': nat, i': nat, skip: nat, drop: nat)
    requires SameGap(b, a, j, i, j', i') && skip + drop <= j' - j
    ensures j' - j == i' - i && SameGap(b, a, j + skip, i + skip, j' - drop, i' - drop)
  {
    assert |b[j..j']| == |a[i..i']|;
    SliceSlice(b, j, j', skip, j' - drop - j);
    SliceSlice(a, i, i', skip, i' - drop - i);
  }

  lemma LastSpanAway(b: seq<string>, a: seq<string>, blocks: seq<Block>, spans: seq<Block>, cuts: seq<nat>, idx: nat)
    requires Spans(b, a, blocks, spans, cuts, idx) && idx < |blocks|
    ensures spans == [] ||
            (EndBefore(spans, |spans|).0 + CONTEXT < blocks[idx].delStart && EndBefore(spans, |spans|).0 == LastDel(spans))
  {
    if spans != [] {
      assert SpanOk(b, a, blocks, spans, cuts, |spans| - 1);
    }
  }

  /** The context before the widened block is the end of the gap before it. */
  lemma ContextBefore(b: seq<string>, a: seq<string>, spans: seq<Block>, first: Block)
    requires EditsTo(b, a, spans, first.delStart, first.insStart)
    requires spans == [] || EndBefore(spans, |spans|).0 + CONTEXT < first.delStart
    ensures first.delStart - Less(first.delStart, CONTEXT) == first.insStart - Less(first.insStart, CONTEXT)
    ensures EditsTo(b, a, spans, Less(first.delStart, CONTEXT), Less(first.insStart, CONTEXT))
    ensures LastDel(spans) < Less(first.delStart, CONTEXT)
  {
    var e := EndBefore(spans, |spans|);
    SubGap(b, a, e.0, e.1, first.delStart, first.insStart, 0, 0);
    SubGap(b, a, e.0, e.1, first.delStart, first.insStart, 0, first.delStart - Less(first.delStart, CONTEXT));
  }

  /** The context after the widened block is the start of the gap after it. */
  lemma ContextAfter(b: seq<string>, a: seq<string>, blocks: seq<Block>, last: nat)
    requires Edits(b, a, blocks) && last < |blocks|
    requires last + 1 < |blocks| ==> Min(|b|, blocks[last].delEnd + CONTEXT) + CONTEXT < blocks[last + 1].delStart
    ensures var c, s := Widened(b, a, blocks[last], blocks[last]), StartAt(b, a, blocks, last + 1);
            SameGap(b, a, c.delEnd, c.insEnd, s.0, s.1)
  {
    var c, s := Widened(b, a, blocks[last], blocks[last]), StartAt(b, a, blocks, last + 1);
    GapAt(b, a, blocks, last);
    GapAt(b, a, blocks, last + 1);
    SubGap(b, a, blocks[last].delEnd, blocks[last].insEnd, s.0, s.1, c.delEnd - blocks[last].delEnd, 0);
  }

  /** One more hunk: blocks idx to last, widened, extend the spans up to block last + 1. */
  lemma SpanStep(b: seq<string>, a: seq<string>, blocks: seq<Block>, spans: seq<Block>, cuts: seq<nat>, idx: nat, last: nat)
    requires Edits(b, a, blocks) && Separated(blocks) && Spans(b, a, blocks, spans, cuts, idx)
    requires idx <= last < |blocks|
    requires blocks[idx].delStart <= blocks[last].delStart && blocks[idx].insStart <= blocks[last].insStart
    requires var c := Widened(b, a, blocks[idx], blocks[last]);
             last + 1 < |blocks| ==> c.delEnd + CONTEXT < blocks[last + 1].delStart
    ensures var c := Widened(b, a, blocks[idx], blocks[last]);
            Spans(b, a, blocks, spans + [c], cuts + [last + 1], last + 1)
  {
    hide EditsTo, Separated, SameGap, BlockOk, Apart;
    var c := Widened(b, a, blocks[idx], blocks[last]);
    LastSpanAway(b, a, blocks, spans, cuts, idx);
    ContextBefore(b, a, spans, blocks[idx]);
    ContextAfter(b, a, blocks, last);
    BlockInRange(b, a, blocks, idx);
    BlockInRange(b, a, blocks, last);
    var s := StartAt(b, a, blocks, last + 1);
    SpanAppend(b, a, spans, c, s.0, s.1);
    var spans', cuts' := spans + [c], cuts + [last + 1];
    forall k | 0 <= k < |spans'| ensures SpanOk(b, a, blocks, spans', cuts', k) {
      assert k < |spans| ==> SpanOk(b, a, blocks, spans, cuts, k);
    }
  }

  lemma BlockInRange(b: seq<string>, a: seq<string>, blocks: seq<Block>, k: nat)
    requires Edits(b, a, blocks) && Separated(blocks) && k < |blocks|
    ensures InRange(b, a, blocks[k])
    ensures blocks[k].delStart < blocks[k].delEnd || blocks[k].insStart < blocks[k].insEnd
  {
    assert BlockOk(b, a, blocks, k) && Apart(blocks, k);
  }

  lemma SpanAppend(b: seq<string>, a: seq<string>, spans: seq<Block>, c: Block, j: nat, i: nat)
    requires SameGap(b, a, c.delEnd, c.insEnd, j, i)
    requires EditsTo(b, a, spans, c.delStart, c.insStart) && Separated(spans) && InRange(b, a, c)
    requires LastDel(spans) < c.delStart && (c.delStart < c.delEnd || c.insStart < c.insEnd)
    ensures EditsTo(b, a, spans + [c], j, i) && Separated(spans + [c])
  {
    CloseBlock(b, a, spans, c);
  }

  lemma SpansStart(b: seq<string>, a: seq<string>, blocks: seq<Block>)
    requires Edits(b, a, blocks)
    ensures Spans(b, a, blocks, [], [0], 0)
  {
    GapAt(b, a, blocks, 0);
  }

  /** Widening stepwise over blocks idx to last, as the merge loop does, is widening at once. */
  lemma MergeStep(b: seq<string>, a: seq<string>, blocks: seq<Block>, idx: nat, last: nat)
    requires Edits(b, a, blocks) && Separated(blocks) && idx <= last && last + 1 < |blocks|
    requires blocks[idx].delStart <= blocks[last].delStart && blocks[idx].insStart <= blocks[last].insStart
    ensures blocks[idx].delStart <= blocks[last + 1].delStart && blocks[idx].insStart <= blocks[last + 1].insStart
    ensures var c, n := Widened(b, a, blocks[idx], blocks[last]), blocks[last + 1];
            Block(Min(c.delStart, Less(n.delStart, CONTEXT)), Min(|b|, Max(c.delEnd, n.delEnd + CONTEXT)),
                  Min(c.insStart, Less(n.insStart, CONTEXT)), Min(|a|, Max(c.insEnd, n.insEnd + CONTEXT)))
            == Widened(b, a, blocks[idx], n)
  {
    GapAt(b, a, blocks, last + 1);
    BlockInRange(b, a, blocks, last);
    BlockInRange(b, a, blocks, last + 1);
  }

  method AddShifts(ghost b: seq<string>, ghost a: seq<string>, blocks: seq<Block>, before: seq<LineShift>, idx: nat, end: nat)
    returns (shifts: seq<LineShift>)
    requires Edits(b, a, blocks) && Separated(blocks) && idx <= end < |blocks| && before == ShiftsOf(blocks[..idx])
    ensures shifts == ShiftsOf(blocks[..end + 1])
  {
    hide Edits, Separated;
    shifts := before;
    var m := idx;
    while m <= end
      invariant idx <= m <= end + 1 && shifts == ShiftsOf(blocks[..m])
    {
      BlockInRange(b, a, blocks, m);
      shifts := shifts + [LineShift(blocks[m].delStart, blocks[m].delEnd - blocks[m].delStart,
                                    blocks[m].insEnd - blocks[m].insStart - (blocks[m].delEnd - blocks[m].delStart))];
      m := m + 1;
    }
  }

  /** The context of block idx, taking in the blocks behind it for as long as contexts meet. */
  method MergeRun(b: seq<string>, a: seq<string>, blocks: seq<Block>, idx: nat) returns (end: nat, c: Block)
    requires Edits(b, a, blocks) && Separated(blocks) && idx < |blocks|
    ensures idx <= end < |blocks| && c == Widened(b, a, blocks[idx], blocks[end])
    ensures blocks[idx].delStart <= blocks[end].delStart && blocks[idx].insStart <= blocks[end].insStart
    ensures end + 1 == |blocks| || blocks[end + 1].delStart > c.delEnd + CONTEXT
  {
    hide Edits, EditsTo, Separated;
    end := idx;
    BlockInRange(b, a, blocks, idx);
    c := Widened(b, a, blocks[idx], blocks[idx]);
    while end + 1 < |blocks| && blocks[end + 1].delStart <= c.delEnd + CONTEXT
      invariant idx <= end < |blocks|
      invariant blocks[idx].delStart <= blocks[end].delStart && blocks[idx].insStart <= blocks[end].insStart
      invariant c == Widened(b, a, blocks[idx], blocks[end])
    {
      MergeStep(b, a, blocks, idx, end);
      end := end + 1;
      c := Block(Min(c.delStart, Less(blocks[end].delStart, CONTEXT)),
                 Min(|b|, Max(c.delEnd, blocks[end].delEnd + CONTEXT)),
                 Min(c.insStart, Less(blocks[end].insStart, CONTEXT)),
                 Min(|a|, Max(c.insEnd, blocks[end].insEnd + CONTEXT)));
    }
  }

  /** Gives each block its context and merges those whose contexts meet. */
  method GroupHunks(b: seq<string>, a: seq<string>, blocks: seq<Block>)
    returns (hunks: seq<Hunk>, shifts: seq<LineShift>, ghost spans: seq<Block>, ghost cuts: seq<nat>)
    requires Edits(b, a, blocks) && Separated(blocks)
    ensures Spans(b, a, blocks, spans, cuts, |blocks|)
    ensures hunks == HunksOf(b, a, spans) && shifts == ShiftsOf(blocks)
  {
    hide Edits, EditsTo, Separated, Spans, SpanOk;
    hunks, shifts, spans, cuts := [], [], [], [0];
    var idx := 0;
    SpansStart(b, a, blocks);
    while idx < |blocks|
      invariant idx <= |blocks| && Spans(b, a, blocks, spans, cuts, idx)
      invariant hunks == HunksOf(b, a, spans) && shifts == ShiftsOf(blocks[..idx])
    {
      var end, c := MergeRun(b, a, blocks, idx);
      SpanStep(b, a, blocks, spans, cuts, idx, end);
      SpanInRange(b, a, blocks, spans + [c], cuts + [end + 1], end + 1, |spans|);
      hunks := hunks + [Hunk(c.delStart + 1, b[c.delStart..c.delEnd], a[c.insStart..c.insEnd])];
      spans, cuts := spans + [c], cuts + [end + 1];
      shifts := AddShifts(b, a, blocks, shifts, idx, end);
      idx := end + 1;
    }
    assert blocks[..|blocks|] == blocks;
  }

  lemma SpanInRange(b: seq<string>, a: seq<string>, blocks: seq<Block>, spans: seq<Block>, cuts: seq<nat>, idx: nat, k: nat)
    requires Spans(b, a, blocks, spans, cuts, idx) && k < |spans|
    ensures InRange(b, a, spans[k])
  {
    assert BlockOk(b, a, spans, k);
  }

  // ---- The whole patch ----

  function Olds(hunks: seq<Hunk>): seq<seq<string>> { seq(|hunks|, k requires 0 <= k < |hunks| => hunks[k].oldLines) }
  function News(hunks: seq<Hunk>): seq<seq<string>> { seq(|hunks|, k requires 0 <= k < |hunks| => hunks[k].newLines) }

  /** The final empty piece that both texts have when both end in a line end. */
  function CommonTail(b: seq<string>, a: seq<string>): (t: seq<string>)
    ensures t == [] || (b != [] && a != [] && t == b[|b| - 1..] == a[|a| - 1..])
  {
    if b != [] && b[|b| - 1] == "" && a != [] && a[|a| - 1] == "" then [""] else []
  }

  /** pre and suf strip the longest common prefix and then the longest common suffix. */
  ghost predicate Stripped(b: seq<string>, a: seq<string>, pre: nat, suf: nat)
  {
    && pre + suf <= |b| && pre + suf <= |a|
    && b[..pre] == a[..pre] && (pre < |b| && pre < |a| ==> b[pre] != a[pre])
    && b[|b| - suf..] == a[|a| - suf..]
    && (pre + suf < |b| && pre + suf < |a| ==> b[|b| - 1 - suf] != a[|a| - 1 - suf])
  }

  /** The hunks cut both texts into the same kept stretches; each declares where it stands,
      and between two hunks at least one line is kept. */
  ghost predicate Explains(gaps: seq<seq<string>>, hunks: seq<Hunk>, b: seq<string>, a: seq<string>)
  {
    && |gaps| == |hunks| + 1
    && b == Weave(gaps, Olds(hunks)) && a == Weave(gaps, News(hunks))
    && (forall k | 0 <= k < |hunks| :: hunks[k].oldStart == Offset(gaps, Olds(hunks), k) + 1)
    && (forall k | 0 < k < |hunks| :: gaps[k] != [])
  }

  lemma SpansExplain(b: seq<string>, a: seq<string>, spans: seq<Block>)
    requires Edits(b, a, spans) && Separated(spans)
    ensures Explains(Gaps(b, spans), HunksOf(b, a, spans), b, a)
  {
    var hunks, g := HunksOf(b, a, spans), Gaps(b, spans);
    assert Olds(hunks) == OldParts(b, spans) && News(hunks) == NewParts(a, spans);
    EditsWeave(b, a, spans);
    forall k | 0 < k < |hunks| ensures g[k] != [] {
      assert Apart(spans, k) && BlockOk(b, a, spans, k);
    }
  }

  /** Hunks cut from the texts without their common tail are the hunks cut from the whole texts. */
  lemma HunksExtend(b: seq<string>, a: seq<string>, tail: seq<string>, spans: seq<Block>)
    requires Edits(b, a, spans)
    ensures HunksOf(b + tail, a + tail, spans) == HunksOf(b, a, spans)
  {
    forall k | 0 <= k < |spans| ensures HunkOf(b + tail, a + tail, spans[k]) == HunkOf(b, a, spans[k]) {
      assert BlockOk(b, a, spans, k);
      var s := spans[k];
      assert (b + tail)[s.delStart..s.delEnd] == b[s.delStart..s.delEnd];
      assert (a + tail)[s.insStart..s.insEnd] == a[s.insStart..s.insEnd];
    }
  }

  lemma {:induction false} BlocksAscend(b: seq<string>, a: seq<string>, blocks: seq<Block>, i: nat, j: nat)
    requires Edits(b, a, blocks) && Separated(blocks) && i <= j < |blocks|
    ensures blocks[i].delStart <= blocks[j].delEnd && blocks[i].insStart <= blocks[j].insEnd
  {
    BlockInRange(b, a, blocks, j);
    if i < j {
      BlocksAscend(b, a, blocks, i, j - 1);
      GapAt(b, a, blocks, j);
    }
  }

  /** A hunk side is empty only when that whole text is. */
  lemma HunkSides(b: seq<string>, a: seq<string>, blocks: seq<Block>, spans: seq<Block>, cuts: seq<nat>, k: nat)
    requires Edits(b, a, blocks) && Separated(blocks) && Spans(b, a, blocks, spans, cuts, |blocks|) && k < |spans|
    ensures HunksOf(b, a, spans)[k].oldLines == [] <==> b == []
    ensures HunksOf(b, a, spans)[k].newLines == [] <==> a == []
  {
    assert SpanOk(b, a, blocks, spans, cuts, k);
    SpanInRange(b, a, blocks, spans, cuts, |blocks|, k);
    BlockInRange(b, a, blocks, cuts[k]);
    BlocksAscend(b, a, blocks, cuts[k], cuts[k + 1] - 1);
  }

  lemma Regroup<T>(x: seq<T>, pre: nat, suf: nat, tail: seq<T>)
    requires pre + suf <= |x|
    ensures x + tail == x[..pre] + (x[pre..|x| - suf] + (x[|x| - suf..] + tail))
  {
  }

  lemma KeptCount(b: seq<string>, a: seq<string>, tail: seq<string>, pre: nat, suf: nat, removed: int)
    requires Stripped(b, a, pre, suf)
    requires var rb, ra := b[pre..|b| - suf], a[pre..|a| - suf]; |rb| - removed == Lcs.Length(rb, ra)
    ensures |b + tail| - removed == Lcs.Length(b + tail, a + tail)
  {
    var rb, ra, s := b[pre..|b| - suf], a[pre..|a| - suf], b[|b| - suf..];
    Regroup(b, pre, suf, tail);
    Regroup(a, pre, suf, tail);
    Lcs.LengthPrefix(b[..pre], rb + (s + tail), ra + (s + tail));
    Lcs.LengthSuffix(rb, ra, s + tail);
  }

  lemma FinishEdits(b: seq<string>, a: seq<string>, blocks: seq<Block>, pre: nat, suf: nat)
    requires Stripped(b, a, pre, suf) && EditsTo(b, a, blocks, |b| - suf, |a| - suf)
    ensures Edits(b, a, blocks)
  {
    var e := EndBefore(blocks, |blocks|);
    assert b[e.0..|b|] == b[e.0..|b| - suf] + b[|b| - suf..];
    assert a[e.1..|a|] == a[e.1..|a| - suf] + a[|a| - suf..];
  }

  /** The stripped texts span more table cells than the cap allows. */
  ghost predicate TooLarge(b: seq<string>, a: seq<string>)
  {
    exists pre, suf :: Stripped(b, a, pre, suf) && (|b| - pre - suf) * (|a| - pre - suf) > Lcs.MAX_AREA
  }

  /** What a patch for the texts b and a must be, given its edit blocks. */
  ghost predicate IsPatch(p: Patch, blocks: seq<Block>, b: seq<string>, a: seq<string>)
  {
    && Edits(b, a, blocks) && Separated(blocks)
    && |b| - Deleted(blocks) == Lcs.Length(b, a)
    && p.shifts == ShiftsOf(blocks)
    && (exists gaps :: Explains(gaps, p.hunks, b, a))
  }

  /** Hunk contexts: every hunk is the widening of a run of blocks, runs further apart than
      their contexts reach. */
  ghost predicate HasContext(p: Patch, blocks: seq<Block>, b: seq<string>, a: seq<string>)
  {
    exists spans: seq<Block>, cuts: seq<nat> ::
      Spans(b, a, blocks, spans, cuts, |blocks|) && p.hunks == HunksOf(b, a, spans)
  }

  /** Every hunk has old lines unless b is empty, and new lines unless a is empty. */
  ghost predicate SidesFilled(p: Patch, b: seq<string>, a: seq<string>)
  {
    forall k | 0 <= k < |p.hunks| ::
      (p.hunks[k].oldLines == [] <==> b == []) && (p.hunks[k].newLines == [] <==> a == [])
  }

  lemma AssemblePatch(b: seq<string>, a: seq<string>, tail: seq<string>, blocks: seq<Block>,
                      spans: seq<Block>, cuts: seq<nat>, p: Patch)
    requires Edits(b, a, blocks) && Separated(blocks)
    requires |b + tail| - Deleted(blocks) == Lcs.Length(b + tail, a + tail)
    requires Spans(b, a, blocks, spans, cuts, |blocks|)
    requires p == Patch(HunksOf(b, a, spans), ShiftsOf(blocks))
    ensures IsPatch(p, blocks, b + tail, a + tail) && HasContext(p, blocks, b, a)
    ensures SidesFilled(p, b, a)
  {
    assert Edits(b, a, spans);
    EditsExtend(b, a, tail, blocks);
    EditsExtend(b, a, tail, spans);
    HunksExtend(b, a, tail, spans);
    SpansExplain(b + tail, a + tail, spans);
    forall k | 0 <= k < |p.hunks|
      ensures (p.hunks[k].oldLines == [] <==> b == []) && (p.hunks[k].newLines == [] <==> a == [])
    {
      HunkSides(b, a, blocks, spans, cuts, k);
    }
  }

  /** What a built patch, or a refusal, must be for the texts b + tail and a + tail. */
  ghost predicate Built(r: Option<Patch>, blocks: seq<Block>, b: seq<string>, a: seq<string>, tail: seq<string>)
  {
    && (r.None? <==> TooLarge(b, a))
    && (r.Some? ==> IsPatch(r.value, blocks, b + tail, a + tail) && HasContext(r.value, blocks, b, a))
    && (r.Some? ==> SidesFilled(r.value, b, a))
  }

  method PatchLines(b: seq<string>, a: seq<string>, ghost tail: seq<string>)
    returns (r: Option<Patch>, ghost blocks: seq<Block>)
    ensures Built(r, blocks, b, a, tail)
  {
    hide *;
    var pre := CommonPrefix(b, a);
    var suf := CommonSuffix(b, a, pre);
    StrippedUnique(b, a, pre, suf);
    StrippedArea(b, a, pre, suf);
    var rb, ra := b[pre..|b| - suf], a[pre..|a| - suf];
    if |rb| == 0 && |ra| == 0 {
      EqualTexts(b, a, tail, pre, suf);
      AssembledBuilt(b, a, tail, [], Patch([], []));
      return Some(Patch([], [])), [];
    }
    if |rb| * |ra| > Lcs.MAX_AREA {
      RefusalBuilt(b, a, tail);
      return None, [];
    }
    var dp := Lcs.FillTable(rb, ra);
    var bs := Backtrack(b, a, pre, rb, ra, dp);
    FinishEdits(b, a, bs, pre, suf);
    KeptCount(b, a, tail, pre, suf, Deleted(bs));
    var hunks, shifts, spans, cuts := GroupHunks(b, a, bs);
    r, blocks := Some(Patch(hunks, shifts)), bs;
    AssemblePatch(b, a, tail, bs, spans, cuts, r.value);
    AssembledBuilt(b, a, tail, bs, r.value);
  }

  lemma RefusalBuilt(b: seq<string>, a: seq<string>, tail: seq<string>)
    requires TooLarge(b, a)
    ensures Built(None, [], b, a, tail)
  {
  }

  lemma AssembledBuilt(b: seq<string>, a: seq<string>, tail: seq<string>, blocks: seq<Block>, p: Patch)
    requires !TooLarge(b, a)
    requires IsPatch(p, blocks, b + tail, a + tail) && HasContext(p, blocks, b, a)
    requires SidesFilled(p, b, a)
    ensures Built(Some(p), blocks, b, a, tail)
  {
  }

  /** The patch from one text to the other; refused only when the stripped texts are so
      different in so many lines that the table would be too large. */
  method BuildFilePatch(before: string, after: string) returns (r: Option<Patch>)
    ensures exists blocks :: BuiltFrom(before, after, r, blocks)
  {
    hide Built, SplitLines;
    var b, a := SplitLines(before), SplitLines(after);
    ghost var tail := CommonTail(b, a);
    if |b| > 0 && b[|b| - 1] == "" && |a| > 0 && a[|a| - 1] == "" {
      b, a := b[..|b| - 1], a[..|a| - 1];
    }
    assert b == SplitLines(before)[..|SplitLines(before)| - |tail|];
    assert a == SplitLines(after)[..|SplitLines(after)| - |tail|];
    ghost var blocks;
    r, blocks := PatchLines(b, a, tail);
    assert BuiltFrom(before, after, r, blocks);
  }

  /** Built from the lines of the texts without the empty last line that both may have. */
  ghost predicate BuiltFrom(before: string, after: string, r: Option<Patch>, blocks: seq<Block>)
  {
    var b, a := SplitLines(before), SplitLines(after);
    var tail := CommonTail(b, a);
    Built(r, blocks, b[..|b| - |tail|], a[..|a| - |tail|], tail)
  }

  /** What is built explains the whole texts, not just the lines that were compared. */
  lemma BuiltIsPatch(before: string, after: string, p: Patch, blocks: seq<Block>)
    requires BuiltFrom(before, after, Some(p), blocks)
    ensures IsPatch(p, blocks, SplitLines(before), SplitLines(after))
  {
    WholeTexts(SplitLines(before), SplitLines(after));
    hide SplitLines, IsPatch, HasContext, SidesFilled, TooLarge;
  }

  predicate EndsInLf(text: string) { text != "" && text[|text| - 1] == LF }

  lemma {:induction false} LastOfSplit(s: string)
    ensures SplitLf(s)[|SplitLf(s)| - 1] == "" <==> s == "" || EndsInLf(s)
    decreases |s|
  {
    if s != "" {
      LastOfSplit(s[1..]);
    }
  }

  lemma {:induction false} LfStaysLast(s: string)
    ensures ToLf(s) == "" <==> s == ""
    ensures EndsInLf(ToLf(s)) <==> EndsInLf(s)
    decreases |s|
  {
    if |s| > 1 {
      LfStaysLast(s[1..]);
      LfStaysLast(s[2..]);
    }
  }

  /** The hunk's old lines are among the first n of the text. */
  predicate ShowsWithin(h: Hunk, n: nat) { 1 <= h.oldStart && h.oldStart - 1 + |h.oldLines| <= n }

  lemma BuiltShows(b: seq<string>, a: seq<string>, p: Patch, blocks: seq<Block>, k: nat)
    requires HasContext(p, blocks, b, a) && k < |p.hunks|
    ensures ShowsWithin(p.hunks[k], |b|)
  {
    var spans: seq<Block>, cuts: seq<nat> :| Spans(b, a, blocks, spans, cuts, |blocks|) && p.hunks == HunksOf(b, a, spans);
    assert BlockOk(b, a, spans, k);
    hide Separated, SpanOk;
  }

  lemma EmptyPieceIsLast(text: string)
    requires text == "" || EndsInLf(text)
    ensures SplitLines(text)[|SplitLines(text)| - 1] == ""
  {
    LfStaysLast(text);
    LastOfSplit(ToLf(text));
    hide ToLf, SplitLf;
  }

  lemma TailOf(b: seq<string>, a: seq<string>)
    requires b != [] && a != [] && b[|b| - 1] == a[|a| - 1] == ""
    ensures CommonTail(b, a) == [""]
  {
  }

  lemma BuiltContext(before: string, after: string, p: Patch, blocks: seq<Block>)
    requires BuiltFrom(before, after, Some(p), blocks) && CommonTail(SplitLines(before), SplitLines(after)) == [""]
    ensures var b, a := SplitLines(before), SplitLines(after); HasContext(p, blocks, b[..|b| - 1], a[..|a| - 1])
  {
    hide SplitLines, HasContext, IsPatch, TooLarge, SidesFilled, CommonTail;
  }

  /** No hunk shows the empty piece behind the last line end when both texts end in one, or are
      empty. */
  lemma TailIsNotShown(before: string, after: string, p: Patch, blocks: seq<Block>, k: nat)
    requires BuiltFrom(before, after, Some(p), blocks) && k < |p.hunks|
    requires (before == "" || EndsInLf(before)) && (after == "" || EndsInLf(after))
    ensures ShowsWithin(p.hunks[k], |SplitLines(before)| - 1)
  {
    hide *;
    var b, a := SplitLines(before), SplitLines(after);
    EmptyPieceIsLast(before);
    EmptyPieceIsLast(after);
    TailOf(b, a);
    BuiltContext(before, after, p, blocks);
    BuiltShows(b[..|b| - 1], a[..|a| - 1], p, blocks, k);
  }

  /** Putting the common tail back gives the whole texts. */
  lemma WholeTexts(b: seq<string>, a: seq<string>)
    ensures var tail := CommonTail(b, a);
            b == b[..|b| - |tail|] + tail && a == a[..|a| - |tail|] + tail
  {
    var tail := CommonTail(b, a);
    hide *;
    TakeDrop(b, |b| - |tail|);
    TakeDrop(a, |a| - |tail|);
  }

  lemma EqualAt(b: seq<string>, a: seq<string>, n: nat, k: nat)
    requires k < n <= |b| && n <= |a|
    ensures b[..n] == a[..n] ==> b[k] == a[k]
    ensures b[|b| - n..] == a[|a| - n..] ==> b[|b| - 1 - k] == a[|a| - 1 - k]
  {
    if b[..n] == a[..n] {
      assert b[k] == b[..n][k] == a[..n][k];
    }
    if b[|b| - n..] == a[|a| - n..] {
      assert b[|b| - 1 - k] == b[|b| - n..][n - 1 - k] == a[|a| - n..][n - 1 - k];
    }
  }

  lemma StrippedUnique(b: seq<string>, a: seq<string>, pre: nat, suf: nat)
    requires pre + suf <= |b| && pre + suf <= |a|
    requires b[..pre] == a[..pre] && (pre < |b| && pre < |a| ==> b[pre] != a[pre])
    requires b[|b| - suf..] == a[|a| - suf..]
    requires pre + suf < |b| && pre + suf < |a| ==> b[|b| - 1 - suf] != a[|a| - 1 - suf]
    ensures Stripped(b, a, pre, suf)
    ensures pre + suf <= |b| && pre + suf <= |a| && b[..pre] == a[..pre]
    ensures forall p, s :: Stripped(b, a, p, s) ==> p == pre && s == suf
  {
    forall p: nat, s: nat | Stripped(b, a, p, s) ensures p == pre && s == suf {
      StrippedSame(b, a, pre, suf, p, s);
    }
  }

  lemma StrippedSame(b: seq<string>, a: seq<string>, pre: nat, suf: nat, p: nat, s: nat)
    requires Stripped(b, a, pre, suf) && Stripped(b, a, p, s)
    ensures p == pre && s == suf
  {
    if p < pre {
      EqualAt(b, a, pre, p);
    } else if pre < p {
      EqualAt(b, a, p, pre);
    } else if s < suf {
      EqualAt(b, a, suf, s);
    } else if suf < s {
      EqualAt(b, a, s, suf);
    }
  }

  lemma StrippedArea(b: seq<string>, a: seq<string>, pre: nat, suf: nat)
    requires Stripped(b, a, pre, suf) && forall p, s :: Stripped(b, a, p, s) ==> p == pre && s == suf
    ensures pre + suf <= |b| && pre + suf <= |a| && b[..pre] == a[..pre]
    ensures TooLarge(b, a) <==> |b[pre..|b| - suf]| * |a[pre..|a| - suf]| > Lcs.MAX_AREA
  {
    hide Lcs.MAX_AREA;
  }

  lemma EqualTexts(b: seq<string>, a: seq<string>, tail: seq<string>, pre: nat, suf: nat)
    requires Stripped(b, a, pre, suf) && pre + suf == |b| == |a|
    ensures IsPatch(Patch([], []), [], b + tail, a + tail) && HasContext(Patch([], []), [], b, a)
    ensures SidesFilled(Patch([], []), b, a)
  {
    assert b == b[..pre] + b[|b| - suf..] && a == a[..pre] + a[|a| - suf..];
    var bs: seq<Block> := [];
    assert Edits(b, a, bs);
    assert b[pre..|b| - suf] == [] && a[pre..|a| - suf] == [];
    KeptCount(b, a, tail, pre, suf, Deleted(bs));
    SpansStart(b, a, bs);
    AssemblePatch(b, a, tail, bs, [], [0], Patch([], []));
  }

  // ---- Following a line through the edit ----

  /** Where the 0-based line orig goes, as a 1-based line; acc is orig with the gains so far. */
  function ShiftFrom(orig: int, shifts: seq<LineShift>, acc: int): int
    decreases |shifts|
  {
    if shifts == [] then acc + 1
    else if orig >= shifts[0].start + shifts[0].delCount then ShiftFrom(orig, shifts[1..], acc + shifts[0].delta)
    else if orig >= shifts[0].start then shifts[0].start + 1
    else ShiftFrom(orig, shifts[1..], acc)
  }

  method ShiftLine(line: int, shifts: seq<LineShift>) returns (r: int)
    ensures r == ShiftFrom(line - 1, shifts, line - 1)
  {
    var orig := line - 1;
    var shifted := orig;
    for k := 0 to |shifts|
      invariant ShiftFrom(orig, shifts[k..], shifted) == ShiftFrom(orig, shifts, orig)
    {
      var s := shifts[k];
      assert shifts[k..][1..] == shifts[k + 1..];
      if orig >= s.start + s.delCount {
        shifted := shifted + s.delta;
      } else if orig >= s.start {
        return s.start + 1;
      }
    }
    r := shifted + 1;
  }

  predicate InBlock(blocks: seq<Block>, x: int, k: nat)
    requires k < |blocks|
  {
    blocks[k].delStart <= x < blocks[k].delEnd
  }

  /** Before-line x is not part of any block. */
  ghost predicate Survives(blocks: seq<Block>, x: int)
  {
    forall k | 0 <= k < |blocks| :: !InBlock(blocks, x, k)
  }

  function NetGain(blocks: seq<Block>, k: nat): int
    requires k <= |blocks|
  {
    if k == 0 then 0
    else NetGain(blocks, k - 1) + blocks[k - 1].insEnd - blocks[k - 1].insStart - (blocks[k - 1].delEnd - blocks[k - 1].delStart)
  }

  lemma {:induction false} NetGainAt(b: seq<string>, a: seq<string>, blocks: seq<Block>, k: nat)
    requires Edits(b, a, blocks) && k <= |blocks|
    ensures EndBefore(blocks, k).1 - EndBefore(blocks, k).0 == NetGain(blocks, k)
    ensures k < |blocks| ==> blocks[k].insStart - blocks[k].delStart == NetGain(blocks, k)
  {
    GapAt(b, a, blocks, k);
    if k > 0 {
      NetGainAt(b, a, blocks, k - 1);
    }
  }

  lemma {:induction false} ShiftBehind(b: seq<string>, a: seq<string>, blocks: seq<Block>, x: int, acc: int, k: nat)
    requires Edits(b, a, blocks) && k <= |blocks| && x < StartAt(b, a, blocks, k).0
    ensures ShiftFrom(x, ShiftsOf(blocks)[k..], acc) == acc + 1
    decreases |blocks| - k
  {
    var shifts := ShiftsOf(blocks);
    if k < |blocks| {
      assert shifts[k..][0] == ShiftOf(blocks[k]) && shifts[k..][1..] == shifts[k + 1..];
      GapAt(b, a, blocks, k);
      GapAt(b, a, blocks, k + 1);
      ShiftBehind(b, a, blocks, x, acc, k + 1);
    }
  }

  /** From block k on: a surviving line lies in some gap g, and moves with that gap. */
  lemma {:induction false} SurvivorGap(b: seq<string>, a: seq<string>, blocks: seq<Block>, x: nat, k: nat) returns (g: nat)
    requires Edits(b, a, blocks) && Survives(blocks, x) && x < |b|
    requires k <= |blocks| && EndBefore(blocks, k).0 <= x
    ensures k <= g <= |blocks| && EndBefore(blocks, g).0 <= x < StartAt(b, a, blocks, g).0
    ensures ShiftFrom(x, ShiftsOf(blocks)[k..], x + NetGain(blocks, k)) == x + NetGain(blocks, g) + 1
    decreases |blocks| - k
  {
    var shifts := ShiftsOf(blocks);
    if x < StartAt(b, a, blocks, k).0 {
      g := k;
      ShiftBehind(b, a, blocks, x, x + NetGain(blocks, k), k);
    } else {
      assert shifts[k..][0] == ShiftOf(blocks[k]) && shifts[k..][1..] == shifts[k + 1..];
      GapAt(b, a, blocks, k);
      assert !InBlock(blocks, x, k);
      g := SurvivorGap(b, a, blocks, x, k + 1);
    }
  }

  lemma GapMoves(b: seq<string>, a: seq<string>, blocks: seq<Block>, x: nat, g: nat)
    requires Edits(b, a, blocks) && g <= |blocks| && EndBefore(blocks, g).0 <= x < StartAt(b, a, blocks, g).0
    ensures var y := x + NetGain(blocks, g);
            EndBefore(blocks, g).1 <= y < StartAt(b, a, blocks, g).1 <= |a| && x < |b| && a[y] == b[x]
  {
    GapAt(b, a, blocks, g);
    NetGainAt(b, a, blocks, g);
    var e, s := EndBefore(blocks, g), StartAt(b, a, blocks, g);
    assert b[x] == b[e.0..s.0][x - e.0] == a[e.1..s.1][x - e.0];
  }

  lemma {:induction false} GapsAscend(b: seq<string>, a: seq<string>, blocks: seq<Block>, g: nat, h: nat)
    requires Edits(b, a, blocks) && g < h <= |blocks|
    ensures StartAt(b, a, blocks, g).1 <= EndBefore(blocks, h).1
    ensures StartAt(b, a, blocks, g).0 <= EndBefore(blocks, h).0
  {
    GapAt(b, a, blocks, h - 1);
    if g < h - 1 {
      GapsAscend(b, a, blocks, g, h - 1);
    }
  }

  /** The 0-based after-line that a 0-based before-line is tracked to. */
  function Tracked(blocks: seq<Block>, x: nat): int { ShiftFrom(x, ShiftsOf(blocks), x) - 1 }

  /** Every line that survives the edit is tracked to a line with the same text. */
  lemma ShiftIsFaithful(b: seq<string>, a: seq<string>, blocks: seq<Block>, x: nat)
    requires Edits(b, a, blocks) && x < |b| && Survives(blocks, x)
    ensures 0 <= Tracked(blocks, x) < |a| && a[Tracked(blocks, x)] == b[x]
  {
    var g := SurvivorGap(b, a, blocks, x, 0);
    assert ShiftsOf(blocks)[0..] == ShiftsOf(blocks);
    GapMoves(b, a, blocks, x, g);
  }

  /** Surviving lines keep their order and never meet. */
  lemma ShiftIsIncreasing(b: seq<string>, a: seq<string>, blocks: seq<Block>, x: nat, x': nat)
    requires Edits(b, a, blocks) && x < x' < |b| && Survives(blocks, x) && Survives(blocks, x')
    ensures Tracked(blocks, x) < Tracked(blocks, x')
  {
    var g := SurvivorGap(b, a, blocks, x, 0);
    var h := SurvivorGap(b, a, blocks, x', 0);
    assert ShiftsOf(blocks)[0..] == ShiftsOf(blocks);
    GapMoves(b, a, blocks, x, g);
    GapMoves(b, a, blocks, x', h);
    if g < h {
      GapsAscend(b, a, blocks, g, h);
    } else if h < g {
      GapsAscend(b, a, blocks, h, g);
    }
  }

  lemma {:induction false} ShiftIntoBlock(b: seq<string>, a: seq<string>, blocks: seq<Block>, x: nat, k: nat, m: nat, acc: int)
    requires Edits(b, a, blocks) && m <= k < |blocks| && InBlock(blocks, x, k)
    ensures ShiftFrom(x, ShiftsOf(blocks)[m..], acc) == blocks[k].delStart + 1
    decreases k - m
  {
    var shifts := ShiftsOf(blocks);
    assert shifts[m..][0] == ShiftOf(blocks[m]) && shifts[m..][1..] == shifts[m + 1..];
    GapAt(b, a, blocks, m);
    if m < k {
      GapsAscend(b, a, blocks, m, k);
      GapAt(b, a, blocks, m + 1);
      GapAt(b, a, blocks, k);
      if m + 1 < k {
        GapsAscend(b, a, blocks, m + 1, k);
      }
      ShiftIntoBlock(b, a, blocks, x, k, m + 1, acc + shifts[m].delta);
    }
  }

  /** A replaced line is tracked to the start of its block in the old text; that is the
      block's start in the new text just when the edits before it gain no lines in total. */
  lemma ShiftOfReplacedLine(b: seq<string>, a: seq<string>, blocks: seq<Block>, x: nat, k: nat)
    requires Edits(b, a, blocks) && k < |blocks| && InBlock(blocks, x, k)
    ensures Tracked(blocks, x) == blocks[k].delStart
    ensures Tracked(blocks, x) == blocks[k].insStart <==> NetGain(blocks, k) == 0
  {
    assert ShiftsOf(blocks)[0..] == ShiftsOf(blocks);
    ShiftIntoBlock(b, a, blocks, x, k, 0, x);
    NetGainAt(b, a, blocks, k);
  }

  /** Such a line can be off: after a line was added above, a replaced line is tracked one
      line above its replacement. */
  lemma ReplacedLineCanBeOff()
    ensures var b, a := ["p", "x"], ["q", "p", "y"];
            var blocks := [Block(0, 0, 0, 1), Block(1, 2, 2, 3)];
            Edits(b, a, blocks) && Separated(blocks) && InBlock(blocks, 1, 1) && Tracked(blocks, 1) != blocks[1].insStart
  {
    var b, a := ["p", "x"], ["q", "p", "y"];
    var blocks := [Block(0, 0, 0, 1), Block(1, 2, 2, 3)];
    assert b[0..0] == a[0..0] && b[0..1] == a[1..2] && b[2..2] == a[3..3];
    assert BlockOk(b, a, blocks, 0) && BlockOk(b, a, blocks, 1);
    assert Apart(blocks, 0) && Apart(blocks, 1);
    ShiftOfReplacedLine(b, a, blocks, 1, 1);
    assert NetGain(blocks, 1) == 1 by { assert NetGain(blocks, 0) == 0; }
  }
}
