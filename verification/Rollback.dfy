/** What applying a patch guarantees, and what undoing one fix does to a file that later
    edits have changed. */
module Rollback {
  import opened Wrappers
  import opened Numbers
  import opened Lines
  import opened Diff
  import opened Anchor
  import LineEndings
  import Lcs

  // ---- All of the patch or nothing ----

  predicate SortedByStart(placed: seq<Placed>)
  {
    forall i, j | 0 <= i < j < |placed| :: placed[i].start <= placed[j].start
  }

  lemma {:induction false} InsertKeepsOrder(p: Placed, sorted: seq<Placed>)
    requires SortedByStart(sorted)
    ensures SortedByStart(InsertByStart(p, sorted))
    decreases |sorted|
  {
    if sorted != [] && sorted[|sorted| - 1].start > p.start {
      var init, last := sorted[..|sorted| - 1], sorted[|sorted| - 1];
      InsertKeepsOrder(p, init);
      var r := InsertByStart(p, init);
      forall k | 0 <= k < |r| ensures r[k].start <= last.start {
        InsertKeepsAll(p, init);
        assert r[k] in multiset(r);
      }
    }
  }

  lemma {:induction false} InsertKeepsAll(p: Placed, sorted: seq<Placed>)
    ensures multiset(InsertByStart(p, sorted)) == multiset(sorted) + multiset{p}
    decreases |sorted|
  {
    if sorted != [] && sorted[|sorted| - 1].start > p.start {
      var init, last := sorted[..|sorted| - 1], sorted[|sorted| - 1];
      InsertKeepsAll(p, init);
      assert sorted == init + [last];
    }
  }

  lemma {:induction false} SortSorts(placed: seq<Placed>)
    ensures SortedByStart(SortByStart(placed)) && multiset(SortByStart(placed)) == multiset(placed)
    decreases |placed|
  {
    if placed != [] {
      SortSorts(placed[..|placed| - 1]);
      InsertKeepsOrder(placed[|placed| - 1], SortByStart(placed[..|placed| - 1]));
      InsertKeepsAll(placed[|placed| - 1], SortByStart(placed[..|placed| - 1]));
      assert placed == placed[..|placed| - 1] + [placed[|placed| - 1]];
    }
  }

  /** The placements at one start, in order. */
  function At(placed: seq<Placed>, start: nat): seq<Placed>
  {
    if placed == [] then []
    else At(placed[..|placed| - 1], start) + if placed[|placed| - 1].start == start then [placed[|placed| - 1]] else []
  }

  lemma AtSnoc(placed: seq<Placed>, p: Placed, start: nat)
    ensures At(placed + [p], start) == At(placed, start) + if p.start == start then [p] else []
  {
    assert (placed + [p])[..|placed|] == placed;
  }

  lemma {:induction false} InsertIsStable(p: Placed, sorted: seq<Placed>, start: nat)
    ensures At(InsertByStart(p, sorted), start) == At(sorted, start) + if p.start == start then [p] else []
    decreases |sorted|
  {
    if sorted == [] || sorted[|sorted| - 1].start <= p.start {
      AtSnoc(sorted, p, start);
    } else {
      var init, last := sorted[..|sorted| - 1], sorted[|sorted| - 1];
      InsertIsStable(p, init, start);
      AtSnoc(InsertByStart(p, init), last, start);
    }
  }

  /** Placements at one start keep their order. */
  lemma {:induction false} SortIsStable(placed: seq<Placed>, start: nat)
    ensures At(SortByStart(placed), start) == At(placed, start)
    decreases |placed|
  {
    if placed != [] {
      SortIsStable(placed[..|placed| - 1], start);
      InsertIsStable(placed[|placed| - 1], SortByStart(placed[..|placed| - 1]), start);
    }
  }

  lemma {:induction false} SortOfSorted(placed: seq<Placed>)
    requires SortedByStart(placed)
    ensures SortByStart(placed) == placed
    decreases |placed|
  {
    if placed != [] {
      SortOfSorted(placed[..|placed| - 1]);
    }
  }

  /** p stands at the first place from the cursor on where its hunk's old lines match at the
      best level, which its fuzz names; without old lines, at its declared line or the cursor. */
  ghost predicate WellPlaced(canon: Canon, file: seq<string>, hunks: seq<Hunk>, p: Placed, from: nat)
  {
    p.hunk < |hunks| &&
    var context := hunks[p.hunk].oldLines;
    if context == [] then p.fuzz == 0 && p.start == Max(from, hunks[p.hunk].oldStart)
    else exists level: Level :: p.fuzz == Fuzz(level) && Sound(canon, file, context, from, p.start, level)
  }

  /** No place from the cursor on matches the hunk at any level. */
  ghost predicate MissedFrom(canon: Canon, file: seq<string>, hunks: seq<Hunk>, n: nat, from: nat)
  {
    n < |hunks| && hunks[n].oldLines != [] && NoMatch(canon, file, hunks[n].oldLines, from)
  }

  lemma LocateWellPlaced(canon: Canon, file: seq<string>, hunks: seq<Hunk>, n: nat, from: nat)
    requires n < |hunks|
    ensures var m := Locate(canon, file, hunks[n].oldLines, from, hunks[n].oldStart);
            && (m.Hit? ==> WellPlaced(canon, file, hunks, Placed(n, m.index, m.fuzz, m.similarity), from))
            && (m.Miss? ==> MissedFrom(canon, file, hunks, n, from))
  {
    hide Sound, FirstMatch, BestScore, NoMatch;
    if hunks[n].oldLines != [] {
      LocateIsBestThenFirst(canon, file, hunks[n].oldLines, from, hunks[n].oldStart);
    }
  }

  function OldLength(hunks: seq<Hunk>, n: nat): nat { if n < |hunks| then |hunks[n].oldLines| else 0 }

  /** Where hunk n is looked for, given what was placed in order: behind the last hunk before it
      that was placed. */
  function CursorAt(hunks: seq<Hunk>, placed: seq<Placed>, cursor: nat, n: nat): nat
    decreases |placed|
  {
    if placed == [] || placed[0].hunk >= n then cursor
    else CursorAt(hunks, placed[1..], placed[0].start + OldLength(hunks, placed[0].hunk), n)
  }

  /** What is placed in order, by hunk number, stands well from its cursor; what is pending missed
      from its own. */
  ghost predicate InOrderSound(canon: Canon, file: seq<string>, hunks: seq<Hunk>, placed: seq<Placed>, pending: seq<nat>,
                               k: nat, cursor: nat)
  {
    && (forall i, j | 0 <= i < j < |placed| :: placed[i].hunk < placed[j].hunk)
    && (forall p | p in placed :: PlacedAt(canon, file, hunks, placed, k, cursor, p))
    && (forall n | n in pending :: PendingAt(canon, file, hunks, placed, k, cursor, n))
  }

  ghost predicate PlacedAt(canon: Canon, file: seq<string>, hunks: seq<Hunk>, placed: seq<Placed>, k: nat, cursor: nat, p: Placed)
  {
    k <= p.hunk && WellPlaced(canon, file, hunks, p, CursorAt(hunks, placed, cursor, p.hunk))
  }

  ghost predicate PendingAt(canon: Canon, file: seq<string>, hunks: seq<Hunk>, placed: seq<Placed>, k: nat, cursor: nat, n: nat)
  {
    k <= n && MissedFrom(canon, file, hunks, n, CursorAt(hunks, placed, cursor, n))
  }

  lemma MissStep(canon: Canon, file: seq<string>, hunks: seq<Hunk>, placed: seq<Placed>, pending: seq<nat>, k: nat, cursor: nat)
    requires InOrderSound(canon, file, hunks, placed, pending, k + 1, cursor) && MissedFrom(canon, file, hunks, k, cursor)
    ensures InOrderSound(canon, file, hunks, placed, [k] + pending, k, cursor)
  {
    hide WellPlaced, MissedFrom;
    forall n | n in [k] + pending ensures PendingAt(canon, file, hunks, placed, k, cursor, n) {
      if n in pending {
        assert PendingAt(canon, file, hunks, placed, k + 1, cursor, n);
      } else if placed != [] {
        assert PlacedAt(canon, file, hunks, placed, k + 1, cursor, placed[0]);
      }
    }
    forall p | p in placed ensures PlacedAt(canon, file, hunks, placed, k, cursor, p) {
      assert PlacedAt(canon, file, hunks, placed, k + 1, cursor, p);
    }
  }

  lemma HitStep(canon: Canon, file: seq<string>, hunks: seq<Hunk>, placed: seq<Placed>, pending: seq<nat>, k: nat, cursor: nat, q: Placed)
    requires q.hunk == k && WellPlaced(canon, file, hunks, q, cursor)
    requires InOrderSound(canon, file, hunks, placed, pending, k + 1, q.start + OldLength(hunks, k))
    ensures InOrderSound(canon, file, hunks, [q] + placed, pending, k, cursor)
  {
    hide WellPlaced, MissedFrom;
    var all, next := [q] + placed, q.start + OldLength(hunks, k);
    assert all[1..] == placed;
    forall i | 0 <= i < |placed| ensures k < placed[i].hunk {
      assert PlacedAt(canon, file, hunks, placed, k + 1, next, placed[i]);
    }
    forall n | n in pending ensures PendingAt(canon, file, hunks, all, k, cursor, n) {
      assert PendingAt(canon, file, hunks, placed, k + 1, next, n);
    }
    forall p | p in all ensures PlacedAt(canon, file, hunks, all, k, cursor, p) {
      if p in placed {
        assert PlacedAt(canon, file, hunks, placed, k + 1, next, p);
      }
    }
  }

  lemma {:induction false} InOrderIsSound(canon: Canon, file: seq<string>, hunks: seq<Hunk>, k: nat, cursor: nat)
    requires k <= |hunks|
    ensures var r := InOrder(canon, file, hunks, k, cursor); InOrderSound(canon, file, hunks, r.0, r.1, k, cursor)
    decreases |hunks| - k
  {
    hide Locate, WellPlaced, MissedFrom;
    if k < |hunks| {
      LocateWellPlaced(canon, file, hunks, k, cursor);
      var m := Locate(canon, file, hunks[k].oldLines, cursor, hunks[k].oldStart);
      var next := if m.Miss? then cursor else m.index + |hunks[k].oldLines|;
      InOrderIsSound(canon, file, hunks, k + 1, next);
      var rest := InOrder(canon, file, hunks, k + 1, next);
      hide InOrderSound;
      if m.Miss? {
        MissStep(canon, file, hunks, rest.0, rest.1, k, cursor);
      } else {
        HitStep(canon, file, hunks, rest.0, rest.1, k, cursor, Placed(k, m.index, m.fuzz, m.similarity));
      }
    }
  }

  lemma {:induction false} FromTopWellPlaced(canon: Canon, file: seq<string>, hunks: seq<Hunk>, pending: seq<nat>)
    requires Within(pending, 0, |hunks|)
    ensures forall p | p in FromTop(canon, file, hunks, pending).0 :: WellPlaced(canon, file, hunks, p, 0) && p.hunk in pending
  {
    hide Locate, WellPlaced;
    if pending != [] {
      LocateWellPlaced(canon, file, hunks, pending[0], 0);
      FromTopWellPlaced(canon, file, hunks, pending[1..]);
    }
  }

  /** The hunks were placed in two rounds: in order, each looked for behind the one before it;
      and from the top, each that was not found in order. Those at one start keep that order. */
  ghost predicate PlacedInRounds(canon: Canon, file: seq<string>, hunks: seq<Hunk>, applied: seq<Placed>)
  {
    exists first, second, pending :: TwoRounds(canon, file, hunks, applied, first, second, pending)
  }

  ghost predicate TwoRounds(canon: Canon, file: seq<string>, hunks: seq<Hunk>, applied: seq<Placed>,
                            first: seq<Placed>, second: seq<Placed>, pending: seq<nat>)
  {
    && multiset(applied) == multiset(first) + multiset(second)
    && (forall start :: At(applied, start) == At(first + second, start))
    && InOrderSound(canon, file, hunks, first, pending, 0, 0)
    && (forall p | p in second :: WellPlaced(canon, file, hunks, p, 0) && p.hunk in pending)
  }

  function Range(lo: nat, hi: nat): (r: seq<nat>)
    requires lo <= hi
    ensures |r| == hi - lo && forall k | 0 <= k < |r| :: r[k] == lo + k
  {
    seq(hi - lo, k => lo + k)
  }

  lemma NumbersCons(p: Placed, rest: seq<Placed>)
    ensures multiset(HunkNumbers([p] + rest)) == multiset{p.hunk} + multiset(HunkNumbers(rest))
  {
    assert HunkNumbers([p] + rest) == [p.hunk] + HunkNumbers(rest);
  }

  lemma NumbersConcat(xs: seq<Placed>, ys: seq<Placed>)
    ensures multiset(HunkNumbers(xs + ys)) == multiset(HunkNumbers(xs)) + multiset(HunkNumbers(ys))
  {
    assert HunkNumbers(xs + ys) == HunkNumbers(xs) + HunkNumbers(ys);
  }

  lemma {:induction false} InsertNumbers(p: Placed, sorted: seq<Placed>)
    ensures multiset(HunkNumbers(InsertByStart(p, sorted))) == multiset(HunkNumbers(sorted)) + multiset{p.hunk}
    decreases |sorted|
  {
    assert HunkNumbers([p]) == [p.hunk];
    if sorted == [] || sorted[|sorted| - 1].start <= p.start {
      NumbersConcat(sorted, [p]);
    } else {
      var init, last := sorted[..|sorted| - 1], sorted[|sorted| - 1];
      assert sorted == init + [last] && HunkNumbers([last]) == [last.hunk];
      InsertNumbers(p, init);
      NumbersConcat(InsertByStart(p, init), [last]);
      NumbersConcat(init, [last]);
    }
  }

  lemma {:induction false} SortNumbers(placed: seq<Placed>)
    ensures multiset(HunkNumbers(SortByStart(placed))) == multiset(HunkNumbers(placed))
    decreases |placed|
  {
    if placed != [] {
      var init, last := placed[..|placed| - 1], placed[|placed| - 1];
      SortNumbers(init);
      InsertNumbers(last, SortByStart(init));
      assert placed == init + [last] && HunkNumbers([last]) == [last.hunk];
      NumbersConcat(init, [last]);
    }
  }

  lemma {:induction false} InOrderCoversAll(canon: Canon, file: seq<string>, hunks: seq<Hunk>, k: nat, cursor: nat)
    requires k <= |hunks|
    ensures var r := InOrder(canon, file, hunks, k, cursor);
            multiset(HunkNumbers(r.0)) + multiset(r.1) == multiset(Range(k, |hunks|))
    decreases |hunks| - k
  {
    hide Locate;
    var r := InOrder(canon, file, hunks, k, cursor);
    if k == |hunks| {
      assert r.0 == [] && r.1 == [] && HunkNumbers([]) == [] && Range(k, |hunks|) == [];
    } else {
      assert Range(k, |hunks|) == [k] + Range(k + 1, |hunks|);
      var m := Locate(canon, file, hunks[k].oldLines, cursor, hunks[k].oldStart);
      if m.Miss? {
        InOrderCoversAll(canon, file, hunks, k + 1, cursor);
      } else {
        var cursor' := m.index + |hunks[k].oldLines|;
        InOrderCoversAll(canon, file, hunks, k + 1, cursor');
        NumbersCons(Placed(k, m.index, m.fuzz, m.similarity), InOrder(canon, file, hunks, k + 1, cursor').0);
      }
    }
  }

  lemma {:induction false} FromTopCoversAll(canon: Canon, file: seq<string>, hunks: seq<Hunk>, pending: seq<nat>)
    requires Within(pending, 0, |hunks|)
    ensures var r := FromTop(canon, file, hunks, pending);
            r.1 == [] ==> multiset(HunkNumbers(r.0)) == multiset(pending)
  {
    hide Locate;
    if pending == [] {
      assert HunkNumbers([]) == [];
    } else {
      FromTopCoversAll(canon, file, hunks, pending[1..]);
      assert pending == [pending[0]] + pending[1..];
      var n := pending[0];
      var m := Locate(canon, file, hunks[n].oldLines, 0, hunks[n].oldStart);
      if m.Hit? {
        NumbersCons(Placed(n, m.index, m.fuzz, m.similarity), FromTop(canon, file, hunks, pending[1..]).0);
      }
    }
  }

  lemma RoundsAre(canon: Canon, file: seq<string>, hunks: seq<Hunk>, applied: seq<Placed>,
                  first: seq<Placed>, second: seq<Placed>, pending: seq<nat>)
    requires applied == SortByStart(first + second) && InOrderSound(canon, file, hunks, first, pending, 0, 0)
    requires forall p | p in second :: WellPlaced(canon, file, hunks, p, 0) && p.hunk in pending
    ensures PlacedInRounds(canon, file, hunks, applied)
  {
    SortSorts(first + second);
    forall start ensures At(applied, start) == At(first + second, start) {
      SortIsStable(first + second, start);
    }
    hide InOrderSound, WellPlaced, At, SortByStart;
    assert TwoRounds(canon, file, hunks, applied, first, second, pending);
  }

  /** Either nothing changes and some failure is reported, or every hunk is applied exactly
      once, each where its old lines match, and every other line stays. */
  lemma AllOrNothing(canon: Canon, file: seq<string>, hunks: seq<Hunk>)
    ensures var r := Apply(canon, file, hunks);
            && (r.lines.None? ==> r.applied == [] && r.failures != [])
            && (r.lines.Some? ==> r.failures == [])
            && (r.lines.Some? ==> multiset(HunkNumbers(r.applied)) == multiset(Range(0, |hunks|)))
            && (r.lines.Some? ==> SortedByStart(r.applied) && Ascending(|file|, 0, ChunksOf(hunks, r.applied)))
            && (r.lines.Some? ==> PlacedInRounds(canon, file, hunks, r.applied))
            && (r.lines.Some? ==> r.lines.value == Splice(file, 0, ChunksOf(hunks, r.applied)))
  {
    hide *;
    ApplyUnfolds(canon, file, hunks);
    var first := InOrder(canon, file, hunks, 0, 0);
    var second := FromTop(canon, file, hunks, first.1);
    var placed := first.0 + second.0;
    InOrderCoversAll(canon, file, hunks, 0, 0);
    FromTopCoversAll(canon, file, hunks, first.1);
    NumbersConcat(first.0, second.0);
    SortNumbers(placed);
    SortSorts(placed);
    InOrderIsSound(canon, file, hunks, 0, 0);
    FromTopWellPlaced(canon, file, hunks, first.1);
    RoundsAre(canon, file, hunks, SortByStart(placed), first.0, second.0, first.1);
  }

  // ---- What a patch costs, and why it fails ----

  lemma FuzzConcat(x: seq<Placed>, y: seq<Placed>)
    ensures TotalFuzz(x + y) == TotalFuzz(x) + TotalFuzz(y)
  {
    if x == [] {
      assert x + y == y;
    } else {
      FuzzConcat(x[1..], y);
      assert (x + y)[1..] == x[1..] + y;
    }
  }

  lemma {:induction false} InsertFuzz(p: Placed, sorted: seq<Placed>)
    ensures TotalFuzz(InsertByStart(p, sorted)) == TotalFuzz(sorted) + p.fuzz
    decreases |sorted|
  {
    hide TotalFuzz;
    if sorted == [] || sorted[|sorted| - 1].start <= p.start {
      FuzzSnoc(sorted, p);
    } else {
      var init, last := sorted[..|sorted| - 1], sorted[|sorted| - 1];
      InsertFuzz(p, init);
      FuzzSnoc(InsertByStart(p, init), last);
      FuzzSnoc(init, last);
      assert sorted == init + [last];
    }
  }

  lemma {:induction false} SortFuzz(placed: seq<Placed>)
    ensures TotalFuzz(SortByStart(placed)) == TotalFuzz(placed)
    decreases |placed|
  {
    hide TotalFuzz, InsertByStart;
    if placed == [] {
      assert SortByStart(placed) == placed;
    } else {
      var init, last := placed[..|placed| - 1], placed[|placed| - 1];
      SortFuzz(init);
      InsertFuzz(last, SortByStart(init));
      FuzzSnoc(init, last);
      assert placed == init + [last];
    }
  }

  /** What the placements cost, one after the other. */
  function Costs(placed: seq<Placed>): nat
  {
    if placed == [] then 0 else Costs(placed[..|placed| - 1]) + placed[|placed| - 1].fuzz
  }

  lemma {:induction false} FuzzIsCosts(placed: seq<Placed>)
    ensures TotalFuzz(placed) == Costs(placed)
    decreases |placed|
  {
    hide TotalFuzz;
    if placed == [] {
      FuzzOfNone();
    } else {
      FuzzIsCosts(placed[..|placed| - 1]);
      FuzzSnoc(placed[..|placed| - 1], placed[|placed| - 1]);
      assert placed == placed[..|placed| - 1] + [placed[|placed| - 1]];
    }
  }

  /** The fuzz of a patch that is applied is what its placements cost in all. */
  lemma FuzzIsTotal(canon: Canon, file: seq<string>, hunks: seq<Hunk>)
    ensures var r := Apply(canon, file, hunks); r.lines.Some? ==> r.fuzz == Costs(r.applied)
  {
    ApplyUnfolds(canon, file, hunks);
    var first := InOrder(canon, file, hunks, 0, 0);
    var second := FromTop(canon, file, hunks, first.1);
    SortFuzz(first.0 + second.0);
    FuzzConcat(first.0, second.0);
    FuzzIsCosts(SortByStart(first.0 + second.0));
    hide InOrder, FromTop, SortByStart, TotalFuzz, Costs, Apply, Splice, Ascending, FirstRefusal, ChunksOf;
  }

  predicate Reports(f: Failure, hunks: seq<Hunk>, n: nat)
  {
    f.NotFound? && f.hunk == n && n < |hunks| && f.oldStart == hunks[n].oldStart && f.best < THRESHOLD
  }

  lemma {:induction false} FromTopReports(canon: Canon, file: seq<string>, hunks: seq<Hunk>, pending: seq<nat>)
    requires Within(pending, 0, |hunks|)
    ensures var r := FromTop(canon, file, hunks, pending);
            && (forall f | f in r.1 :: f.NotFound? && Reports(f, hunks, f.hunk) && f.hunk in pending && MissedFrom(canon, file, hunks, f.hunk, 0))
            && (forall n | n in pending && MissedFrom(canon, file, hunks, n, 0) :: exists f :: f in r.1 && Reports(f, hunks, n))
    decreases |pending|
  {
    hide Locate, NoMatch;
    if pending != [] {
      var n := pending[0];
      var h := hunks[n];
      var m := Locate(canon, file, h.oldLines, 0, h.oldStart);
      LocateWellPlaced(canon, file, hunks, n, 0);
      LocateMiss(canon, file, hunks, n);
      FromTopReports(canon, file, hunks, pending[1..]);
      assert pending == [n] + pending[1..];
      var r, rest := FromTop(canon, file, hunks, pending), FromTop(canon, file, hunks, pending[1..]);
      hide MissedFrom, FromTop;
      forall k | k in pending && MissedFrom(canon, file, hunks, k, 0) ensures exists f :: f in r.1 && Reports(f, hunks, k) {
        if k in pending[1..] {
          var f :| f in rest.1 && Reports(f, hunks, k);
          assert f in r.1;
        } else {
          assert NotFound(n, h.oldStart, m.best) in r.1;
        }
      }
    }
  }

  lemma LocateMiss(canon: Canon, file: seq<string>, hunks: seq<Hunk>, n: nat)
    requires n < |hunks|
    ensures var m := Locate(canon, file, hunks[n].oldLines, 0, hunks[n].oldStart);
            && (m.Miss? <==> MissedFrom(canon, file, hunks, n, 0)) && (m.Miss? ==> m.best < THRESHOLD)
  {
    hide FirstMatch, BestScore, NoMatch;
    if hunks[n].oldLines != [] {
      LocateIsBestThenFirst(canon, file, hunks[n].oldLines, 0, hunks[n].oldStart);
    }
  }

  /** A hunk that is nowhere in the file is not placed in order. */
  lemma NowhereIsPending(canon: Canon, file: seq<string>, hunks: seq<Hunk>, n: nat)
    requires n < |hunks| && MissedFrom(canon, file, hunks, n, 0)
    ensures n in InOrder(canon, file, hunks, 0, 0).1
  {
    var r := InOrder(canon, file, hunks, 0, 0);
    InOrderIsSound(canon, file, hunks, 0, 0);
    InOrderCoversAll(canon, file, hunks, 0, 0);
    hide InOrder, NoMatch;
    assert Range(0, |hunks|)[n] == n;
    assert n in multiset(Range(0, |hunks|));
    if n !in r.1 {
      assert n in multiset(HunkNumbers(r.0));
      var k :| 0 <= k < |r.0| && HunkNumbers(r.0)[k] == n;
      assert PlacedAt(canon, file, hunks, r.0, 0, 0, r.0[k]);
      PlacedSomewhere(canon, file, hunks, r.0[k], CursorAt(hunks, r.0, 0, n));
      assert false;
    }
  }

  lemma PlacedSomewhere(canon: Canon, file: seq<string>, hunks: seq<Hunk>, p: Placed, from: nat)
    requires WellPlaced(canon, file, hunks, p, from)
    ensures !MissedFrom(canon, file, hunks, p.hunk, 0)
  {
    hide Matches;
  }

  /** A patch fails for one of two reasons: hunks that are nowhere in the file, all of which are
      reported, and nothing else; or, when all are somewhere, one clash of their places. */
  lemma FailuresSay(canon: Canon, file: seq<string>, hunks: seq<Hunk>)
    ensures var r := Apply(canon, file, hunks);
            if exists n :: MissedFrom(canon, file, hunks, n, 0) then
              && r.lines.None?
              && (forall f | f in r.failures :: f.NotFound? && Reports(f, hunks, f.hunk) && MissedFrom(canon, file, hunks, f.hunk, 0))
              && (forall n | MissedFrom(canon, file, hunks, n, 0) :: exists f :: f in r.failures && Reports(f, hunks, n))
            else r.lines.None? ==> |r.failures| == 1 && r.failures[0].Clash?
  {
    hide *;
    ApplyUnfolds(canon, file, hunks);
    var first := InOrder(canon, file, hunks, 0, 0);
    InOrderPending(canon, file, hunks, 0, 0);
    FromTopReports(canon, file, hunks, first.1);
    forall n: nat | MissedFrom(canon, file, hunks, n, 0) ensures n in first.1 {
      MissedIsHunk(canon, file, hunks, n);
      NowhereIsPending(canon, file, hunks, n);
    }
    var second := FromTop(canon, file, hunks, first.1);
    if second.1 != [] {
      assert second.1[0] in second.1;
      assert MissedFrom(canon, file, hunks, second.1[0].hunk, 0);
    }
  }

  lemma MissedIsHunk(canon: Canon, file: seq<string>, hunks: seq<Hunk>, n: nat)
    requires MissedFrom(canon, file, hunks, n, 0)
    ensures n < |hunks|
  {
  }

  // ---- Undoing a fix ----

  function InvertHunks(hunks: seq<Hunk>): seq<Hunk>
  {
    seq(|hunks|, k requires 0 <= k < |hunks| => Hunk(hunks[k].oldStart, hunks[k].newLines, hunks[k].oldLines))
  }

  /** The patch that takes the new lines back to the old ones. */
  function InvertFilePatch(p: FilePatch): FilePatch
  {
    FilePatch(if p.newPath != "" then p.newPath else p.oldPath, p.oldPath, InvertHunks(p.hunks))
  }

  /** The inverse is for the file that the patch leaves behind, and gives it its old name; inverting
      twice gives the patch back if and only if it names both files or neither. */
  lemma InvertNames(p: FilePatch)
    ensures var q := InvertFilePatch(p);
            && q.newPath == p.oldPath && q.oldPath in {p.newPath, p.oldPath} && (p.newPath != "" ==> q.oldPath == p.newPath)
            && (InvertFilePatch(q) == p <==> (p.oldPath == "" <==> p.newPath == ""))
  {
    InvertTwice(p.hunks);
    hide InvertHunks;
  }

  lemma InvertTwice(hunks: seq<Hunk>)
    ensures InvertHunks(InvertHunks(hunks)) == hunks
    ensures Olds(InvertHunks(hunks)) == News(hunks) && News(InvertHunks(hunks)) == Olds(hunks)
  {
  }

  /** The chunks that apply the hunks where they declare to start. */
  function Declared(hunks: seq<Hunk>): seq<Chunk>
  {
    seq(|hunks|, k requires 0 <= k < |hunks| =>
      Chunk(if hunks[k].oldStart > 0 then hunks[k].oldStart - 1 else 0, hunks[k].newLines, |hunks[k].oldLines|))
  }

  /** A built patch takes the before-lines to the after-lines when its hunks are spliced at
      their declared places, and its inverse takes them back when spliced at the places
      where the new lines stand. */
  lemma RoundTrip(p: Diff.Patch, blocks: seq<Block>, b: seq<string>, a: seq<string>)
    requires IsPatch(p, blocks, b, a)
    ensures Ascending(|b|, 0, Declared(p.hunks)) && Splice(b, 0, Declared(p.hunks)) == a
    ensures exists gaps ::
              Explains(gaps, p.hunks, b, a) &&
              var back := Swaps(gaps, News(p.hunks), Olds(p.hunks));
              Ascending(|a|, 0, back) && Splice(a, 0, back) == b
  {
    var gaps :| Explains(gaps, p.hunks, b, a);
    RoundTripVia(gaps, p.hunks, b, a);
  }

  lemma RoundTripVia(gaps: seq<seq<string>>, hunks: seq<Hunk>, b: seq<string>, a: seq<string>)
    requires Explains(gaps, hunks, b, a)
    ensures Ascending(|b|, 0, Declared(hunks)) && Splice(b, 0, Declared(hunks)) == a
    ensures var back := Swaps(gaps, News(hunks), Olds(hunks));
            Ascending(|a|, 0, back) && Splice(a, 0, back) == b
  {
    assert Declared(hunks) == Swaps(gaps, Olds(hunks), News(hunks));
    hide Weave, Splice, Ascending, Offset;
    SpliceWeave(gaps, Olds(hunks), News(hunks));
    SpliceWeave(gaps, News(hunks), Olds(hunks));
  }

  /** As text, too: joined with line feeds, the patched lines are the after-text up to its
      line ends. */
  lemma RoundTripText(p: Diff.Patch, blocks: seq<Block>, before: string, after: string)
    requires IsPatch(p, blocks, SplitLines(before), SplitLines(after))
    ensures Ascending(|SplitLines(before)|, 0, Declared(p.hunks))
    ensures Join(Splice(SplitLines(before), 0, Declared(p.hunks))) == ToLf(after)
  {
    RoundTrip(p, blocks, SplitLines(before), SplitLines(after));
    JoinSplit(ToLf(after));
  }

  /** Where part k - 1 of the woven file ends. */
  function EndPrev(gaps: seq<seq<string>>, parts: seq<seq<string>>, k: nat): nat
    requires |gaps| == |parts| + 1 && k <= |parts|
  {
    if k == 0 then 0 else Offset(gaps, parts, k - 1) + |parts[k - 1]|
  }

  /** Each part reads like the old lines of its hunk, up to normalisation. */
  ghost predicate Reads(canon: Canon, parts: seq<seq<string>>, hunks: seq<Hunk>)
  {
    && |parts| == |hunks|
    && forall k | 0 <= k < |hunks| ::
         hunks[k].oldLines != [] && |parts[k]| == |hunks[k].oldLines| &&
         canon(Join(parts[k])) == canon(Join(hunks[k].oldLines))
  }

  /** No earlier place, behind the part before it, reads like hunk k's old lines. */
  ghost predicate OwnFirst(canon: Canon, gaps: seq<seq<string>>, parts: seq<seq<string>>, hunks: seq<Hunk>, k: nat)
    requires |gaps| == |parts| + 1 && |parts| == |hunks| && k < |hunks|
  {
    forall j | EndPrev(gaps, parts, k) <= j < Offset(gaps, parts, k) ::
      !Matches(canon, Exact, Weave(gaps, parts), hunks[k].oldLines, j)
  }

  /** Every hunk placed where its own part stands, as it reads there. */
  function Own(gaps: seq<seq<string>>, parts: seq<seq<string>>, k: nat): seq<Placed>
    requires |gaps| == |parts| + 1 && k <= |parts|
    decreases |parts| - k
  {
    if k == |parts| then [] else [Placed(k, Offset(gaps, parts, k), 0, None)] + Own(gaps, parts, k + 1)
  }

  lemma {:induction false} OwnAt(gaps: seq<seq<string>>, parts: seq<seq<string>>, k: nat)
    requires |gaps| == |parts| + 1 && k <= |parts|
    ensures |Own(gaps, parts, k)| == |parts| - k
    ensures forall m | 0 <= m < |parts| - k ::
              Own(gaps, parts, k)[m] == Placed(k + m, Offset(gaps, parts, k + m), 0, None)
    ensures TotalFuzz(Own(gaps, parts, k)) == 0
    decreases |parts| - k
  {
    if k < |parts| {
      OwnAt(gaps, parts, k + 1);
      var own, rest := Own(gaps, parts, k), Own(gaps, parts, k + 1);
      assert own == [Placed(k, Offset(gaps, parts, k), 0, None)] + rest;
      assert TotalFuzz(own) == TotalFuzz(rest) by {
        hide Own, Offset;
        assert own[1..] == rest;
      }
      hide *;
      forall m | 0 <= m < |parts| - k ensures own[m] == Placed(k + m, Offset(gaps, parts, k + m), 0, None) {
        if m > 0 {
          assert own[m] == rest[m - 1] && k + m == k + 1 + (m - 1);
        }
      }
    }
  }

  lemma {:induction false} OffsetsAscend(gaps: seq<seq<string>>, parts: seq<seq<string>>, i: nat, j: nat)
    requires |gaps| == |parts| + 1 && i <= j < |parts|
    ensures Offset(gaps, parts, i) <= Offset(gaps, parts, j)
  {
    if i < j {
      OffsetsAscend(gaps, parts, i, j - 1);
      OffsetStep(gaps, parts, j - 1);
    }
  }

  lemma OwnIsSorted(gaps: seq<seq<string>>, parts: seq<seq<string>>)
    requires |gaps| == |parts| + 1
    ensures SortedByStart(Own(gaps, parts, 0))
  {
    OwnAt(gaps, parts, 0);
    var own := Own(gaps, parts, 0);
    forall i, j | 0 <= i < j < |own| ensures own[i].start <= own[j].start {
      OffsetsAscend(gaps, parts, i, j);
    }
  }

  lemma OwnChunks(gaps: seq<seq<string>>, parts: seq<seq<string>>, hunks: seq<Hunk>)
    requires |gaps| == |parts| + 1 && |parts| == |hunks|
    requires forall k | 0 <= k < |hunks| :: |parts[k]| == |hunks[k].oldLines|
    ensures ChunksOf(hunks, Own(gaps, parts, 0)) == Swaps(gaps, parts, News(hunks))
  {
    OwnAt(gaps, parts, 0);
  }

  lemma OffsetBehind(gaps: seq<seq<string>>, parts: seq<seq<string>>, k: nat)
    requires |gaps| == |parts| + 1 && k < |parts|
    ensures EndPrev(gaps, parts, k) <= Offset(gaps, parts, k)
  {
    if k > 0 {
      OffsetStep(gaps, parts, k - 1);
    }
  }

  /** Its own part reads like the hunk's old lines. */
  lemma OwnMatches(canon: Canon, gaps: seq<seq<string>>, parts: seq<seq<string>>, hunks: seq<Hunk>, k: nat)
    requires |gaps| == |parts| + 1 && Reads(canon, parts, hunks) && k < |hunks|
    ensures Offset(gaps, parts, k) + |hunks[k].oldLines| <= |Weave(gaps, parts)|
    ensures Matches(canon, Exact, Weave(gaps, parts), hunks[k].oldLines, Offset(gaps, parts, k))
  {
    OffsetHolds(gaps, parts, k);
    hide Weave, Offset, Join;
    var o, file := Offset(gaps, parts, k), Weave(gaps, parts);
    assert Window(file, hunks[k].oldLines, o) == parts[k];
  }

  /** From its cursor the search finds a place no later than the hunk's own, with fuzz 0; it
      is the own place just when nothing in between reads like it. */
  lemma LocateOwn(canon: Canon, gaps: seq<seq<string>>, parts: seq<seq<string>>, hunks: seq<Hunk>, k: nat)
    requires |gaps| == |parts| + 1 && Reads(canon, parts, hunks) && k < |hunks|
    ensures var m := Locate(canon, Weave(gaps, parts), hunks[k].oldLines, EndPrev(gaps, parts, k), hunks[k].oldStart);
            && m.Hit? && m.fuzz == 0 && m.similarity.None?
            && (OwnFirst(canon, gaps, parts, hunks, k) <==> m.index == Offset(gaps, parts, k))
  {
    var file, own, from := Weave(gaps, parts), Offset(gaps, parts, k), EndPrev(gaps, parts, k);
    OwnMatches(canon, gaps, parts, hunks, k);
    OffsetBehind(gaps, parts, k);
    hide Matches, FirstMatch;
    FirstMatchIsFirst(canon, Exact, file, hunks[k].oldLines, from);
  }

  lemma {:induction false} InOrderOwn(
    canon: Canon, gaps: seq<seq<string>>, parts: seq<seq<string>>, hunks: seq<Hunk>, k: nat)
    requires |gaps| == |parts| + 1 && Reads(canon, parts, hunks) && k <= |hunks|
    requires forall m | k <= m < |hunks| :: OwnFirst(canon, gaps, parts, hunks, m)
    ensures InOrder(canon, Weave(gaps, parts), hunks, k, EndPrev(gaps, parts, k)) == (Own(gaps, parts, k), [])
    decreases |hunks| - k
  {
    if k < |hunks| {
      hide *;
      InOrderOwn(canon, gaps, parts, hunks, k + 1);
      InOrderOwnStep(canon, gaps, parts, hunks, k);
    } else {
      hide Locate, OwnFirst, Weave, EndPrev;
    }
  }

  lemma InOrderOwnStep(
    canon: Canon, gaps: seq<seq<string>>, parts: seq<seq<string>>, hunks: seq<Hunk>, k: nat)
    requires |gaps| == |parts| + 1 && Reads(canon, parts, hunks) && k < |hunks|
    requires OwnFirst(canon, gaps, parts, hunks, k)
    requires InOrder(canon, Weave(gaps, parts), hunks, k + 1, EndPrev(gaps, parts, k + 1)) == (Own(gaps, parts, k + 1), [])
    ensures InOrder(canon, Weave(gaps, parts), hunks, k, EndPrev(gaps, parts, k)) == (Own(gaps, parts, k), [])
  {
    hide Locate, OwnFirst, Weave, Offset;
    LocateOwn(canon, gaps, parts, hunks, k);
    assert EndPrev(gaps, parts, k + 1) == Offset(gaps, parts, k) + |hunks[k].oldLines|;
  }

  /** When hunk k is the first whose own place is not the first one that reads like it, it is
      placed elsewhere. */
  lemma {:induction false} InOrderStrays(
    canon: Canon, gaps: seq<seq<string>>, parts: seq<seq<string>>, hunks: seq<Hunk>, i: nat, k: nat) returns (p: Placed)
    requires |gaps| == |parts| + 1 && Reads(canon, parts, hunks) && i <= k < |hunks|
    requires forall m | i <= m < k :: OwnFirst(canon, gaps, parts, hunks, m)
    requires !OwnFirst(canon, gaps, parts, hunks, k)
    ensures p in InOrder(canon, Weave(gaps, parts), hunks, i, EndPrev(gaps, parts, i)).0
    ensures p.hunk == k && p.start != Offset(gaps, parts, k)
    decreases k - i
  {
    hide Locate, OwnFirst;
    LocateOwn(canon, gaps, parts, hunks, i);
    var m := Locate(canon, Weave(gaps, parts), hunks[i].oldLines, EndPrev(gaps, parts, i), hunks[i].oldStart);
    if i == k {
      p := Placed(k, m.index, m.fuzz, m.similarity);
    } else {
      assert OwnFirst(canon, gaps, parts, hunks, i);
      assert EndPrev(gaps, parts, i + 1) == Offset(gaps, parts, i) + |hunks[i].oldLines|;
      p := InOrderStrays(canon, gaps, parts, hunks, i + 1, k);
    }
  }

  ghost predicate AllOwnFirst(canon: Canon, gaps: seq<seq<string>>, parts: seq<seq<string>>, hunks: seq<Hunk>)
    requires |gaps| == |parts| + 1 && |parts| == |hunks|
  {
    forall k | 0 <= k < |hunks| :: OwnFirst(canon, gaps, parts, hunks, k)
  }

  lemma AppliesInPlace(canon: Canon, gaps: seq<seq<string>>, parts: seq<seq<string>>, hunks: seq<Hunk>)
    requires |gaps| == |parts| + 1 && Reads(canon, parts, hunks) && AllOwnFirst(canon, gaps, parts, hunks)
    ensures Apply(canon, Weave(gaps, parts), hunks)
            == Outcome(Some(Weave(gaps, News(hunks))), Own(gaps, parts, 0), [], 0)
  {
    hide *;
    var file, own := Weave(gaps, parts), Own(gaps, parts, 0);
    ReadsLengths(canon, parts, hunks);
    AllOwnFirstAt(canon, gaps, parts, hunks);
    InOrderOwn(canon, gaps, parts, hunks, 0);
    OwnAt(gaps, parts, 0);
    OwnIsSorted(gaps, parts);
    SortOfSorted(own);
    OwnChunks(gaps, parts, hunks);
    SpliceWeave(gaps, parts, News(hunks));
    NoneFromTop(canon, file, hunks);
    assert own + [] == own;
    ApplyUnfolds(canon, file, hunks);
  }

  lemma AllOwnFirstAt(canon: Canon, gaps: seq<seq<string>>, parts: seq<seq<string>>, hunks: seq<Hunk>)
    requires |gaps| == |parts| + 1 && |parts| == |hunks| && AllOwnFirst(canon, gaps, parts, hunks)
    ensures forall k | 0 <= k < |hunks| :: OwnFirst(canon, gaps, parts, hunks, k)
    ensures EndPrev(gaps, parts, 0) == 0
  {
  }

  lemma ReadsLengths(canon: Canon, parts: seq<seq<string>>, hunks: seq<Hunk>)
    requires Reads(canon, parts, hunks)
    ensures |parts| == |hunks| == |News(hunks)|
    ensures forall k | 0 <= k < |hunks| :: |parts[k]| == |hunks[k].oldLines|
  {
  }

  lemma NoneFromTop(canon: Canon, file: seq<string>, hunks: seq<Hunk>)
    ensures Within([], 0, |hunks|) && FromTop(canon, file, hunks, []) == ([], []) && TotalFuzz([]) == 0
  {
  }

  lemma {:induction false} FirstStray(
    canon: Canon, gaps: seq<seq<string>>, parts: seq<seq<string>>, hunks: seq<Hunk>, n: nat) returns (k: nat)
    requires |gaps| == |parts| + 1 && |parts| == |hunks| && n <= |hunks|
    requires exists m :: n <= m < |hunks| && !OwnFirst(canon, gaps, parts, hunks, m)
    ensures n <= k < |hunks| && !OwnFirst(canon, gaps, parts, hunks, k)
    ensures forall m | n <= m < k :: OwnFirst(canon, gaps, parts, hunks, m)
    decreases |hunks| - n
  {
    hide OwnFirst;
    if !OwnFirst(canon, gaps, parts, hunks, n) {
      k := n;
    } else {
      k := FirstStray(canon, gaps, parts, hunks, n + 1);
    }
  }

  lemma StraysOtherwise(canon: Canon, gaps: seq<seq<string>>, parts: seq<seq<string>>, hunks: seq<Hunk>)
    requires |gaps| == |parts| + 1 && Reads(canon, parts, hunks) && !AllOwnFirst(canon, gaps, parts, hunks)
    ensures Apply(canon, Weave(gaps, parts), hunks).applied != Own(gaps, parts, 0)
  {
    var file := Weave(gaps, parts);
    var k := FirstStray(canon, gaps, parts, hunks, 0);
    var p := InOrderStrays(canon, gaps, parts, hunks, 0, k);
    assert EndPrev(gaps, parts, 0) == 0;
    OwnAt(gaps, parts, 0);
    assert p !in Own(gaps, parts, 0);
    hide *;
    ApplyUnfolds(canon, file, hunks);
    var first := InOrder(canon, file, hunks, 0, 0);
    var second := FromTop(canon, file, hunks, first.1);
    SortSorts(first.0 + second.0);
    assert p in multiset(SortByStart(first.0 + second.0));
  }

  /** Replacing the parts of a woven file: the patch lands on exactly those parts, with fuzz
      0, if and only if no hunk has an earlier look-alike behind its predecessor; and then
      the parts are replaced and everything between them stays, whatever it is. */
  lemma LandsInPlace(canon: Canon, gaps: seq<seq<string>>, parts: seq<seq<string>>, hunks: seq<Hunk>)
    requires |gaps| == |parts| + 1 && Reads(canon, parts, hunks)
    ensures AllOwnFirst(canon, gaps, parts, hunks) <==>
            Apply(canon, Weave(gaps, parts), hunks).applied == Own(gaps, parts, 0)
    ensures AllOwnFirst(canon, gaps, parts, hunks) ==>
            Apply(canon, Weave(gaps, parts), hunks)
            == Outcome(Some(Weave(gaps, News(hunks))), Own(gaps, parts, 0), [], 0)
  {
    hide AllOwnFirst, Apply, Weave, Own;
    if AllOwnFirst(canon, gaps, parts, hunks) {
      AppliesInPlace(canon, gaps, parts, hunks);
    } else {
      StraysOtherwise(canon, gaps, parts, hunks);
    }
  }

  /** Exactly one place in the file reads like the old lines of hunk k. */
  ghost predicate Unique(canon: Canon, file: seq<string>, hunks: seq<Hunk>, k: nat, at: nat)
    requires k < |hunks|
  {
    forall j | 0 <= j <= |file| - |hunks[k].oldLines| ::
      Matches(canon, Exact, file, hunks[k].oldLines, j) <==> j == at
  }

  /** Undoing one fix while keeping later ones. Later edits changed the stretches between the
      blocks that the fix wrote in any way, and the blocks themselves only in what normalisation
      takes out. If each block has just one place in the file that reads like it, undoing puts
      back exactly those blocks and keeps every other line. */
  lemma SurgicalRollback(canon: Canon, p: FilePatch, parts: seq<seq<string>>, later: seq<seq<string>>)
    requires |later| == |p.hunks| + 1 && Reads(canon, parts, InvertHunks(p.hunks))
    requires forall k | 0 <= k < |p.hunks| ::
               Unique(canon, Weave(later, parts), InvertHunks(p.hunks), k, Offset(later, parts, k))
    ensures Apply(canon, Weave(later, parts), InvertFilePatch(p).hunks)
            == Outcome(Some(Weave(later, Olds(p.hunks))), Own(later, parts, 0), [], 0)
  {
    var undo := InvertHunks(p.hunks);
    InvertTwice(p.hunks);
    forall k | 0 <= k < |undo| ensures OwnFirst(canon, later, parts, undo, k) {
      assert Unique(canon, Weave(later, parts), undo, k, Offset(later, parts, k));
      OwnMatches(canon, later, parts, undo, k);
      hide Matches;
    }
    LandsInPlace(canon, later, parts, undo);
  }

  /** With no later edit: undoing lands on the fix's own blocks exactly when none of them has
      an earlier look-alike behind its predecessor, and then gives b back. */
  lemma RollbackWithoutLaterEdits(
    canon: Canon, p: FilePatch, b: seq<string>, a: seq<string>, gaps: seq<seq<string>>)
    requires Explains(gaps, p.hunks, b, a)
    requires forall k | 0 <= k < |p.hunks| :: p.hunks[k].newLines != []
    ensures var r := Apply(canon, a, InvertFilePatch(p).hunks);
            && (AllOwnFirst(canon, gaps, News(p.hunks), InvertHunks(p.hunks)) <==> r.applied == Own(gaps, News(p.hunks), 0))
            && (AllOwnFirst(canon, gaps, News(p.hunks), InvertHunks(p.hunks)) ==>
                  r.lines == Some(b) && r.fuzz == 0 && r.failures == [])
  {
    InvertTwice(p.hunks);
    assert Reads(canon, News(p.hunks), InvertHunks(p.hunks));
    LandsInPlace(canon, gaps, News(p.hunks), InvertHunks(p.hunks));
  }

  // ---- Undoing a patch that was built ----

  /** What a built patch promises to the undoing of it: it explains the texts, and each of its
      hunks wrote something. */
  lemma BuiltHasNewLines(before: string, after: string, p: Diff.Patch, blocks: seq<Block>)
    requires BuiltFrom(before, after, Some(p), blocks) && after != ""
    ensures forall k | 0 <= k < |p.hunks| :: p.hunks[k].newLines != []
    ensures exists gaps :: Explains(gaps, p.hunks, SplitLines(before), SplitLines(after))
  {
    BuiltIsPatch(before, after, p, blocks);
    NewTextHasLines(before, after);
    hide SplitLines, Edits, Separated, TooLarge, HasContext, Explains;
  }

  lemma NewTextHasLines(before: string, after: string)
    requires after != ""
    ensures var b, a := SplitLines(before), SplitLines(after);
            a[..|a| - |CommonTail(b, a)|] != []
  {
  }

  /** Every undo of a built fix whose after-text is not empty is one of those above. */
  lemma UndoOfBuilt(canon: Canon, before: string, after: string, p: Diff.Patch, blocks: seq<Block>, path: string)
    requires BuiltFrom(before, after, Some(p), blocks) && after != ""
    ensures exists gaps ::
              && Explains(gaps, p.hunks, SplitLines(before), SplitLines(after))
              && var r := Apply(canon, SplitLines(after), InvertFilePatch(FilePatch(path, path, p.hunks)).hunks);
              && (AllOwnFirst(canon, gaps, News(p.hunks), InvertHunks(p.hunks)) <==> r.applied == Own(gaps, News(p.hunks), 0))
              && (AllOwnFirst(canon, gaps, News(p.hunks), InvertHunks(p.hunks)) ==>
                    r.lines == Some(SplitLines(before)) && r.fuzz == 0 && r.failures == [])
  {
    BuiltHasNewLines(before, after, p, blocks);
    hide SplitLines, Explains, AllOwnFirst, Apply, Own, BuiltFrom;
    var gaps :| Explains(gaps, p.hunks, SplitLines(before), SplitLines(after));
    RollbackWithoutLaterEdits(canon, FilePatch(path, path, p.hunks), SplitLines(before), SplitLines(after), gaps);
  }

  lemma ReadsBack(canon: Canon, hunks: seq<Hunk>, parts: seq<seq<string>>)
    requires |parts| == |hunks| && forall k | 0 <= k < |hunks| :: hunks[k].newLines != []
    requires forall k | 0 <= k < |parts| ::
               |parts[k]| == |hunks[k].newLines| && canon(Join(parts[k])) == canon(Join(hunks[k].newLines))
    ensures Reads(canon, parts, InvertHunks(hunks))
  {
    hide Join;
  }

  lemma UndoHunks(hunks: seq<Hunk>, path: string)
    ensures InvertFilePatch(FilePatch(path, path, hunks)).hunks == InvertHunks(hunks) && |InvertHunks(hunks)| == |hunks|
  {
  }

  /** The same with later edits: what SurgicalRollback asks of the hunks, a built patch has. */
  lemma SurgicalUndoOfBuilt(canon: Canon, before: string, after: string, p: Diff.Patch, blocks: seq<Block>, path: string,
                            parts: seq<seq<string>>, later: seq<seq<string>>)
    requires BuiltFrom(before, after, Some(p), blocks) && after != ""
    requires |parts| == |p.hunks| && |later| == |parts| + 1
    requires forall k | 0 <= k < |parts| ::
               |parts[k]| == |p.hunks[k].newLines| && canon(Join(parts[k])) == canon(Join(p.hunks[k].newLines))
    requires forall k | 0 <= k < |p.hunks| ::
               Unique(canon, Weave(later, parts), InvertHunks(p.hunks), k, Offset(later, parts, k))
    ensures Apply(canon, Weave(later, parts), InvertFilePatch(FilePatch(path, path, p.hunks)).hunks)
            == Outcome(Some(Weave(later, Olds(p.hunks))), Own(later, parts, 0), [], 0)
  {
    hide *;
    BuiltHasNewLines(before, after, p, blocks);
    ReadsBack(canon, p.hunks, parts);
    UndoHunks(p.hunks, path);
    SurgicalRollback(canon, FilePatch(path, path, p.hunks), parts, later);
  }

  // ---- An undo that hits another copy ----

  /** The patch for one changed line with three or more lines on either side. */
  function OneLinePatch(above: seq<string>, was: string, now: string, below: seq<string>): Diff.Patch
    requires |above| >= 3 && |below| >= 3
  {
    var n := |above|;
    Diff.Patch([Hunk(n - 2, above[n - 3..] + [was] + below[..3], above[n - 3..] + [now] + below[..3])], [LineShift(n, 1, 0)])
  }

  lemma OneLineSpans(above: seq<string>, was: string, now: string, below: seq<string>)
    requires |above| >= 3 && |below| >= 3
    ensures var n, b, a := |above|, above + [was] + below, above + [now] + below;
            var blocks, spans := [Block(n, n + 1, n, n + 1)], [Block(n - 3, n + 4, n - 3, n + 4)];
            && Edits(b, a, blocks) && Separated(blocks) && Spans(b, a, blocks, spans, [0, 1], 1)
            && OneLinePatch(above, was, now, below) == Diff.Patch(HunksOf(b, a, spans), ShiftsOf(blocks))
  {
    var n, b, a := |above|, above + [was] + below, above + [now] + below;
    var blocks := [Block(n, n + 1, n, n + 1)];
    assert b[..n] == above == a[..n] && b[n + 1..] == below == a[n + 1..];
    assert b[0..n] == b[..n] && a[0..n] == a[..n] && b[n + 1..|b|] == below && a[n + 1..|a|] == below;
    assert BlockOk(b, a, blocks, 0) && Apart(blocks, 0);
    SpansStart(b, a, blocks);
    SpanStep(b, a, blocks, [], [0], 0, 0);
    var span := Block(n - 3, n + 4, n - 3, n + 4);
    assert [] + [span] == [span] && [0] + [1] == [0, 1];
    OneLineHunk(above, was, now, below);
  }

  lemma OneLineHunk(above: seq<string>, was: string, now: string, below: seq<string>)
    requires |above| >= 3 && |below| >= 3
    ensures var n, b, a := |above|, above + [was] + below, above + [now] + below;
            HunkOf(b, a, Block(n - 3, n + 4, n - 3, n + 4)) == OneLinePatch(above, was, now, below).hunks[0]
  {
    var n, b, a := |above|, above + [was] + below, above + [now] + below;
    assert b[n - 3..n + 4] == above[n - 3..] + [was] + below[..3];
    assert a[n - 3..n + 4] == above[n - 3..] + [now] + below[..3];
  }

  lemma OneLineStripped(above: seq<string>, was: string, now: string, below: seq<string>)
    requires was != now
    ensures var b, a := above + [was] + below, above + [now] + below;
            && Stripped(b, a, |above|, |below|) && !TooLarge(b, a)
            && b[|above|..|b| - |below|] == [was] && a[|above|..|a| - |below|] == [now]
  {
    var b, a := above + [was] + below, above + [now] + below;
    assert b[..|above|] == above == a[..|above|];
    assert b[|b| - |below|..] == below == a[|a| - |below|..];
    StrippedUnique(b, a, |above|, |below|);
    StrippedArea(b, a, |above|, |below|);
  }

  /** It is what building gives for these lines. */
  lemma OneLineIsBuilt(above: seq<string>, was: string, now: string, below: seq<string>)
    requires |above| >= 3 && |below| >= 3 && was != now
    ensures var n := |above|;
            Built(Some(OneLinePatch(above, was, now, below)), [Block(n, n + 1, n, n + 1)],
                  above + [was] + below, above + [now] + below, [])
  {
    var n, b, a := |above|, above + [was] + below, above + [now] + below;
    var blocks, spans := [Block(n, n + 1, n, n + 1)], [Block(n - 3, n + 4, n - 3, n + 4)];
    OneLineSpans(above, was, now, below);
    OneLineStripped(above, was, now, below);
    assert Deleted(blocks) == 1 && Lcs.Length([was], [now]) == 0;
    hide Edits, Separated, Spans, Stripped, TooLarge, Deleted, Lcs.Length, OneLinePatch;
    KeptCount(b, a, [], |above|, |below|, 1);
    AssemblePatch(b, a, [], blocks, spans, [0, 1], OneLinePatch(above, was, now, below));
    AssembledBuilt(b, a, [], blocks, OneLinePatch(above, was, now, below));
  }

  const FIXED: seq<string> := ["c", "c", "c", "N", "c", "c", "c"]
  const BROKEN: seq<string> := ["c", "c", "c", "O", "c", "c", "c"]

  const CONTEXT_LINES: seq<string> := ["c", "c", "c"]
  const ABOVE: seq<string> := FIXED + ["g"] + CONTEXT_LINES
  const BEFORE_FIX: seq<string> := FIXED + ["g"] + BROKEN
  const AFTER_FIX: seq<string> := FIXED + ["g"] + FIXED
  const FIX: Diff.Patch := Diff.Patch([Hunk(9, BROKEN, FIXED)], [LineShift(11, 1, 0)])

  /** Three lines of context do not make a block unique: here the block that the fix wrote
      also stands further up, and undoing the fix, as it was built, changes that copy instead. */
  lemma RollbackCanHitAnotherCopy(canon: Canon)
    ensures SplitLines(Join(BEFORE_FIX)) == BEFORE_FIX && SplitLines(Join(AFTER_FIX)) == AFTER_FIX
    ensures BuiltFrom(Join(BEFORE_FIX), Join(AFTER_FIX), Some(FIX), [Block(11, 12, 11, 12)])
    ensures Apply(canon, AFTER_FIX, InvertFilePatch(FilePatch("f", "f", FIX.hunks)).hunks).lines
            == Some(BROKEN + ["g"] + FIXED) != Some(BEFORE_FIX)
  {
    hide *;
    CopyIsBuilt();
    CopyUndone();
    UndoneAtFirstCopy(canon, ["g"] + FIXED, Hunk(9, BROKEN, FIXED));
  }

  lemma CopyUndone()
    ensures AFTER_FIX == FIXED + (["g"] + FIXED) && BROKEN + ["g"] + FIXED == BROKEN + (["g"] + FIXED)
    ensures BROKEN + ["g"] + FIXED != BEFORE_FIX && FIXED != []
    ensures InvertFilePatch(FilePatch("f", "f", FIX.hunks)).hunks == InvertHunks([Hunk(9, BROKEN, FIXED)])
    ensures Hunk(9, BROKEN, FIXED).newLines == FIXED && Hunk(9, BROKEN, FIXED).oldLines == BROKEN
  {
    assert (BROKEN + ["g"] + FIXED)[3] == "O" && BEFORE_FIX[3] == "N";
  }

  lemma CopyShape()
    ensures BEFORE_FIX == ABOVE + ["O"] + CONTEXT_LINES && AFTER_FIX == ABOVE + ["N"] + CONTEXT_LINES
    ensures |ABOVE| == 11 && |CONTEXT_LINES| == 3 && ABOVE[8..] == CONTEXT_LINES && CONTEXT_LINES[..3] == CONTEXT_LINES
    ensures BROKEN == CONTEXT_LINES + ["O"] + CONTEXT_LINES && FIXED == CONTEXT_LINES + ["N"] + CONTEXT_LINES
  {
  }

  lemma CopyPatch()
    ensures |ABOVE| >= 3 && |CONTEXT_LINES| >= 3 && OneLinePatch(ABOVE, "O", "N", CONTEXT_LINES) == FIX
  {
    CopyShape();
    hide ABOVE, CONTEXT_LINES, BROKEN, FIXED;
  }

  lemma CopyLines()
    ensures SplitLines(Join(BEFORE_FIX)) == BEFORE_FIX && SplitLines(Join(AFTER_FIX)) == AFTER_FIX
    ensures CommonTail(BEFORE_FIX, AFTER_FIX) == []
  {
    PlainLines(BEFORE_FIX);
    PlainLines(AFTER_FIX);
    hide SplitLines, Join;
  }

  lemma CopyIsBuilt()
    ensures SplitLines(Join(BEFORE_FIX)) == BEFORE_FIX && SplitLines(Join(AFTER_FIX)) == AFTER_FIX
    ensures BuiltFrom(Join(BEFORE_FIX), Join(AFTER_FIX), Some(FIX), [Block(11, 12, 11, 12)])
  {
    hide *;
    CopyShape();
    CopyPatch();
    CopyLines();
    OneLineIsBuilt(ABOVE, "O", "N", CONTEXT_LINES);
    WithoutTail(Join(BEFORE_FIX), Join(AFTER_FIX), FIX, [Block(11, 12, 11, 12)]);
  }

  lemma WithoutTail(before: string, after: string, p: Diff.Patch, blocks: seq<Block>)
    requires CommonTail(SplitLines(before), SplitLines(after)) == []
    requires Built(Some(p), blocks, SplitLines(before), SplitLines(after), [])
    ensures BuiltFrom(before, after, Some(p), blocks)
  {
    hide SplitLines, Built, CommonTail;
    var b, a := SplitLines(before), SplitLines(after);
    assert b[..|b|] == b && a[..|a|] == a;
  }

  /** Lines of one letter are the lines of their text. */
  lemma PlainLines(lines: seq<string>)
    requires lines != [] && forall k | 0 <= k < |lines| :: |lines[k]| == 1 && 'A' <= lines[k][0]
    ensures SplitLines(Join(lines)) == lines
  {
    forall k | 0 <= k < |lines| ensures NoLf(lines[k]) && LineEndings.WithoutCr(lines[k]) == lines[k] {
    }
    LineEndings.LinesOfToLf(lines);
    assert LineEndings.LessCr(lines) == lines;
  }

  lemma OneHunkExplains(above: seq<string>, below: seq<string>, h: Hunk)
    requires h.oldStart == |above| + 1
    ensures Explains([above, below], [h], above + h.oldLines + below, above + h.newLines + below)
  {
    var gaps := [above, below];
    assert gaps[1..] == [below];
    assert Olds([h]) == [h.oldLines] && News([h]) == [h.newLines];
    assert Offset(gaps, [h.oldLines], 0) == |above|;
  }

  lemma UndoneAtFirstCopy(canon: Canon, rest: seq<string>, h: Hunk)
    requires h.newLines != []
    ensures Apply(canon, h.newLines + rest, InvertHunks([h])).lines == Some(h.oldLines + rest)
  {
    var gaps, undo := [[], rest], InvertHunks([h]);
    assert undo == [Hunk(h.oldStart, h.newLines, h.oldLines)];
    assert gaps[1..] == [rest];
    assert Weave(gaps, [h.newLines]) == [] + h.newLines + rest == h.newLines + rest;
    assert News(undo) == [h.oldLines];
    assert Weave(gaps, News(undo)) == [] + h.oldLines + rest == h.oldLines + rest;
    assert Offset(gaps, [h.newLines], 0) == 0;
    hide Weave, Matches, Apply;
    LandsInPlace(canon, gaps, [h.newLines], undo);
  }

  /** A fix that empties the file cannot be undone in place: its hunk has no new lines to
      anchor at, so it goes by its declared line and leaves the empty line above the old
      text. That is the old text only when all its lines are empty. */
  lemma UndoOfEmptying(canon: Canon, b: seq<string>)
    requires b != []
    ensures Explains([[], [""]], [Hunk(1, b, [])], b + [""], [""])
    ensures Apply(canon, [""], InvertHunks([Hunk(1, b, [])])).lines == Some([""] + b)
    ensures [""] + b == b + [""] <==> forall k | 0 <= k < |b| :: b[k] == ""
  {
    OneHunkExplains([], [""], Hunk(1, b, []));
    assert [] + b + [""] == b + [""] && [] + [] + [""] == [""];
    var undo := InvertHunks([Hunk(1, b, [])]);
    assert undo == [Hunk(1, [], b)];
    UndoneByLineNumber(canon, b);
    AllEqualIfShiftable(b);
  }

  lemma UndoneByLineNumber(canon: Canon, b: seq<string>)
    ensures Apply(canon, [""], [Hunk(1, [], b)]).lines == Some([""] + b)
  {
    var file, hunks := [""], [Hunk(1, [], b)];
    var p := Placed(0, 1, 0, None);
    assert Locate(canon, file, [], 0, 1) == Hit(1, 0, None);
    assert InOrder(canon, file, hunks, 1, 1) == ([], []);
    assert Locate(canon, file, hunks[0].oldLines, 0, hunks[0].oldStart) == Hit(1, 0, None);
    assert InOrder(canon, file, hunks, 0, 0) == ([p] + [], []);
    assert [p] + [] == [p];
    NoneFromTop(canon, file, hunks);
    assert [p] + [] == [p];
    SortOfSorted([p]);
    assert ChunksOf(hunks, [p]) == [Chunk(1, b, 0)];
    SplicedAtEnd(b);
    hide *;
    ApplyUnfolds(canon, file, hunks);
  }

  lemma SplicedAtEnd(b: seq<string>)
    ensures Ascending(1, 0, [Chunk(1, b, 0)]) && Splice([""], 0, [Chunk(1, b, 0)]) == [""] + b
  {
    var cs := [Chunk(1, b, 0)];
    assert cs[1..] == [];
    assert [""][0..1] == [""] && From([""], 1) == [];
    assert Splice([""], 1, []) == [];
  }

  lemma {:induction false} AllEqualIfShiftable(b: seq<string>)
    ensures [""] + b == b + [""] <==> forall k | 0 <= k < |b| :: b[k] == ""
  {
    if [""] + b == b + [""] {
      EmptyUpTo(b, |b|);
    }
  }

  lemma {:induction false} EmptyUpTo(b: seq<string>, n: nat)
    requires [""] + b == b + [""] && n <= |b|
    ensures forall k | 0 <= k < n :: b[k] == ""
  {
    if n > 0 {
      EmptyUpTo(b, n - 1);
      assert b[n - 1] == (b + [""])[n - 1] == ([""] + b)[n - 1];
    }
  }
}
