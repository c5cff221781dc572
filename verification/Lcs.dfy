/** Longest common subsequence: the reference notion the line diff is measured against,
    the recursion that its table follows, and the table itself. */
module Lcs {
  import opened Numbers

  newtype uint32 = n: int | 0 <= n < 0x1_0000_0000

  /** Cells that the table may have, apart from its border. */
  const MAX_AREA: nat := 6_000_000

  // ---- The notion: a common subsequence, and one of greatest length ----

  predicate IsSubseq<T(==)>(c: seq<T>, s: seq<T>)
  {
    c == [] || (s != [] && ((c[0] == s[0] && IsSubseq(c[1..], s[1..])) || IsSubseq(c, s[1..])))
  }

  ghost predicate IsCommon<T>(c: seq<T>, b: seq<T>, a: seq<T>)
  {
    IsSubseq(c, b) && IsSubseq(c, a)
  }

  /** No common subsequence of b and a is longer than n, and one is exactly that long. */
  ghost predicate IsLcsLength<T(!new)>(n: nat, b: seq<T>, a: seq<T>)
  {
    && (forall c: seq<T> :: IsCommon(c, b, a) ==> |c| <= n)
    && (exists c: seq<T> :: IsCommon(c, b, a) && |c| == n)
  }

  lemma {:induction false} SubseqTail<T>(c: seq<T>, s: seq<T>)
    requires c != [] && IsSubseq(c, s)
    ensures IsSubseq(c[1..], s) && s != [] && IsSubseq(c[1..], s[1..])
    decreases |s|
  {
    if c[0] == s[0] && IsSubseq(c[1..], s[1..]) {
      SubseqWeaken(c[1..], s[1..], s[0]);
      assert s == [s[0]] + s[1..];
    } else {
      SubseqTail(c, s[1..]);
      SubseqWeaken(c[1..], s[1..], s[0]);
      assert s == [s[0]] + s[1..];
    }
  }

  lemma SubseqWeaken<T>(c: seq<T>, s: seq<T>, x: T)
    requires IsSubseq(c, s)
    ensures IsSubseq(c, [x] + s)
  {
    assert ([x] + s)[1..] == s;
  }

  lemma {:induction false} SubseqLength<T>(c: seq<T>, s: seq<T>)
    requires IsSubseq(c, s)
    ensures |c| <= |s|
    decreases |s|
  {
    if c != [] {
      if IsSubseq(c, s[1..]) {
        SubseqLength(c, s[1..]);
      } else {
        SubseqLength(c[1..], s[1..]);
      }
    }
  }

  /** Subsequences of a sequence that ends in x. */
  lemma {:induction false} SubseqSnoc<T>(c: seq<T>, s: seq<T>, x: T)
    ensures IsSubseq(c, s) ==> IsSubseq(c + [x], s + [x])
    ensures IsSubseq(c, s + [x]) && c != [] ==> IsSubseq(c[..|c| - 1], s)
    ensures IsSubseq(c, s) ==> IsSubseq(c, s + [x])
    decreases |s|
  {
    var s' := s + [x];
    if s == [] {
      assert s' == [x] && s'[1..] == [];
      if c == [] {
        assert c + [x] == [x];
      } else if IsSubseq(c, s') {
        SubseqLength(c, s');
        assert c[..|c| - 1] == [];
      }
    } else {
      assert s'[0] == s[0] && s'[1..] == s[1..] + [x];
      SubseqSnoc(c, s[1..], x);
      if c != [] {
        SubseqSnoc(c[1..], s[1..], x);
        assert (c + [x])[1..] == c[1..] + [x];
        if IsSubseq(c, s') && !IsSubseq(c, s'[1..]) {
          var d := c[..|c| - 1];
          if d != [] {
            assert d[1..] == c[1..][..|c[1..]| - 1];
          }
        }
      } else {
        assert IsSubseq([x], s[1..] + [x]) by { assert c + [x] == [x]; }
        assert c + [x] == [x];
      }
    }
  }

  // ---- The recursion ----

  function Length<T(==)>(b: seq<T>, a: seq<T>): nat
    decreases |b| + |a|
  {
    if b == [] || a == [] then 0
    else if b[0] == a[0] then Length(b[1..], a[1..]) + 1
    else Max(Length(b, a[1..]), Length(b[1..], a))
  }

  lemma {:induction false} LengthBound<T>(b: seq<T>, a: seq<T>)
    ensures Length(b, a) <= |b| && Length(b, a) <= |a|
    decreases |b| + |a|
  {
    if b != [] && a != [] {
      LengthBound(b[1..], a[1..]);
      LengthBound(b, a[1..]);
      LengthBound(b[1..], a);
    }
  }

  lemma {:induction false} LengthIsUpperBound<T>(c: seq<T>, b: seq<T>, a: seq<T>)
    requires IsCommon(c, b, a)
    ensures |c| <= Length(b, a)
    decreases |b| + |a|
  {
    if c == [] || b == [] || a == [] {
      SubseqLength(c, b);
      SubseqLength(c, a);
    } else if b[0] == a[0] {
      SubseqTail(c, b);
      SubseqTail(c, a);
      LengthIsUpperBound(c[1..], b[1..], a[1..]);
    } else if IsSubseq(c, a[1..]) {
      LengthIsUpperBound(c, b, a[1..]);
    } else {
      LengthIsUpperBound(c, b[1..], a);
    }
  }

  lemma {:induction false} LengthIsAttained<T>(b: seq<T>, a: seq<T>) returns (c: seq<T>)
    ensures IsCommon(c, b, a) && |c| == Length(b, a)
    decreases |b| + |a|
  {
    if b == [] || a == [] {
      c := [];
    } else if b[0] == a[0] {
      var d := LengthIsAttained(b[1..], a[1..]);
      c := [b[0]] + d;
      assert c[1..] == d;
    } else if Length(b, a[1..]) >= Length(b[1..], a) {
      c := LengthIsAttained(b, a[1..]);
    } else {
      c := LengthIsAttained(b[1..], a);
    }
  }

  /** The recursion computes exactly the longest common subsequence length. */
  lemma LengthIsOptimal<T(!new)>(b: seq<T>, a: seq<T>)
    ensures IsLcsLength(Length(b, a), b, a)
  {
    forall c: seq<T> | IsCommon(c, b, a) ensures |c| <= Length(b, a) {
      LengthIsUpperBound(c, b, a);
    }
    var c := LengthIsAttained(b, a);
  }

  // ---- Stripping equal ends loses nothing ----

  lemma {:induction false} LengthPrefix<T>(p: seq<T>, b: seq<T>, a: seq<T>)
    ensures Length(p + b, p + a) == |p| + Length(b, a)
  {
    if p == [] {
      assert p + b == b && p + a == a;
    } else {
      assert (p + b)[1..] == p[1..] + b && (p + a)[1..] == p[1..] + a;
      LengthPrefix(p[1..], b, a);
    }
  }

  lemma LengthSnoc<T>(b: seq<T>, a: seq<T>, x: T)
    ensures Length(b + [x], a + [x]) == Length(b, a) + 1
  {
    var c := LengthIsAttained(b, a);
    SubseqSnoc(c, b, x);
    SubseqSnoc(c, a, x);
    LengthIsUpperBound(c + [x], b + [x], a + [x]);
    var d := LengthIsAttained(b + [x], a + [x]);
    if d != [] {
      SubseqSnoc(d, b, x);
      SubseqSnoc(d, a, x);
      LengthIsUpperBound(d[..|d| - 1], b, a);
    }
  }

  lemma {:induction false} LengthSuffix<T>(b: seq<T>, a: seq<T>, s: seq<T>)
    ensures Length(b + s, a + s) == Length(b, a) + |s|
    decreases |s|
  {
    if s == [] {
      assert b + s == b && a + s == a;
    } else {
      var s', x := s[..|s| - 1], s[|s| - 1];
      assert b + s == (b + s') + [x] && a + s == (a + s') + [x];
      LengthSnoc(b + s', a + s', x);
      LengthSuffix(b, a, s');
    }
  }

  // ---- The table ----

  /** Row-major cell i, j of a flat table that is cols wide. */
  function Cell(i: nat, j: nat, cols: nat): nat { i * cols + j }

  lemma CellInRange(i: nat, j: nat, rows: nat, cols: nat)
    requires i < rows && j < cols
    ensures Cell(i, j, cols) < rows * cols
  {
    assert (i + 1) * cols <= rows * cols;
  }

  lemma CellInjective(i: nat, j: nat, i': nat, j': nat, cols: nat)
    requires j < cols && j' < cols
    ensures Cell(i, j, cols) == Cell(i', j', cols) ==> i == i' && j == j'
  {
    if i < i' {
      assert (i + 1) * cols <= i' * cols;
    } else if i' < i {
      assert (i' + 1) * cols <= i * cols;
    }
  }

  ghost predicate CellOk<T>(dp: seq<uint32>, b: seq<T>, a: seq<T>, i: nat, j: nat)
    requires i <= |a| && j <= |b|
    requires |dp| == (|a| + 1) * (|b| + 1)
  {
    CellInRange(i, j, |a| + 1, |b| + 1);
    dp[Cell(i, j, |b| + 1)] as int == Length(b[j..], a[i..])
  }

  /** Every cell holds the length for the two suffixes that start there. */
  ghost predicate TableOk<T>(dp: seq<uint32>, b: seq<T>, a: seq<T>)
  {
    && |dp| == (|a| + 1) * (|b| + 1)
    && (forall i, j | 0 <= i <= |a| && 0 <= j <= |b| :: CellOk(dp, b, a, i, j))
  }

  lemma ProductBoundsMin(x: nat, y: nat, limit: nat)
    requires x * y <= limit
    ensures x <= limit || y <= limit
  {
    if x > 0 && y > 0 {
      assert x <= x * y;
    }
  }

  lemma CellOkAfterWrite<T>(dp: seq<uint32>, dp': seq<uint32>, b: seq<T>, a: seq<T>, i: nat, j: nat, i': nat, j': nat)
    requires i <= |a| && j <= |b| && i' <= |a| && j' <= |b| && (i != i' || j != j')
    requires |dp| == |dp'| == (|a| + 1) * (|b| + 1)
    requires forall k | 0 <= k < |dp| && k != Cell(i', j', |b| + 1) :: dp'[k] == dp[k]
    ensures CellOk(dp', b, a, i, j) == CellOk(dp, b, a, i, j)
  {
    CellInRange(i, j, |a| + 1, |b| + 1);
    CellInjective(i, j, i', j', |b| + 1);
  }

  lemma LengthStep<T>(b: seq<T>, a: seq<T>, i: nat, j: nat)
    requires i < |a| && j < |b|
    ensures Length(b[j..], a[i..]) ==
            if b[j] == a[i] then Length(b[j + 1..], a[i + 1..]) + 1
            else Max(Length(b[j..], a[i + 1..]), Length(b[j + 1..], a[i..]))
  {
    assert b[j..][1..] == b[j + 1..] && a[i..][1..] == a[i + 1..];
  }

  /** Cells already filled when the loops stand at row i with columns from j on done. */
  ghost predicate FilledFrom<T>(dp: seq<uint32>, b: seq<T>, a: seq<T>, i: int, j: int)
    requires |dp| == (|a| + 1) * (|b| + 1)
  {
    forall r, c | 0 <= r <= |a| && 0 <= c <= |b| && (r > i || (r == i && c >= j) || r == |a| || c == |b|) ::
      CellOk(dp, b, a, r, c)
  }

  lemma FilledStep<T>(dp: seq<uint32>, dp': seq<uint32>, b: seq<T>, a: seq<T>, i: nat, j: nat)
    requires i < |a| && j < |b|
    requires |dp| == |dp'| == (|a| + 1) * (|b| + 1)
    requires FilledFrom(dp, b, a, i, j + 1)
    requires forall k | 0 <= k < |dp| && k != Cell(i, j, |b| + 1) :: dp'[k] == dp[k]
    requires CellOk(dp', b, a, i, j)
    ensures FilledFrom(dp', b, a, i, j)
  {
    forall r, c | 0 <= r <= |a| && 0 <= c <= |b| && (r > i || (r == i && c >= j) || r == |a| || c == |b|)
      ensures CellOk(dp', b, a, r, c)
    {
      if r != i || c != j {
        assert CellOk(dp, b, a, r, c);
        CellOkAfterWrite(dp, dp', b, a, r, c, i, j);
      }
    }
  }

  /** The flat table, filled in place from the last row and column backwards. */
  method FillTable<T(==)>(b: seq<T>, a: seq<T>) returns (dp: array<uint32>)
    requires |b| * |a| <= MAX_AREA
    ensures fresh(dp) && TableOk(dp[..], b, a)
  {
    var rows, cols := |a| + 1, |b| + 1;
    dp := new uint32[rows * cols](_ => 0);
    ProductBoundsMin(|b|, |a|, MAX_AREA);
    forall r, c | 0 <= r <= |a| && 0 <= c <= |b| && (r == |a| || c == |b|)
      ensures CellOk(dp[..], b, a, r, c)
    {
      CellInRange(r, c, rows, cols);
    }
    var i := |a| - 1;
    while i >= 0
      invariant -1 <= i < |a|
      invariant dp.Length == rows * cols
      invariant FilledFrom(dp[..], b, a, i, |b|)
    {
      var j := |b| - 1;
      while j >= 0
        invariant -1 <= j < |b|
        invariant dp.Length == rows * cols
        invariant FilledFrom(dp[..], b, a, i, j + 1)
      {
        ghost var before := dp[..];
        CellInRange(i, j, rows, cols);
        CellInRange(i + 1, j, rows, cols);
        CellInRange(i, j + 1, rows, cols);
        CellInRange(i + 1, j + 1, rows, cols);
        assert CellOk(before, b, a, i + 1, j) && CellOk(before, b, a, i, j + 1) && CellOk(before, b, a, i + 1, j + 1);
        LengthStep(b, a, i, j);
        LengthBound(b[j + 1..], a[i + 1..]);
        dp[Cell(i, j, cols)] :=
          if b[j] == a[i] then dp[Cell(i + 1, j + 1, cols)] + 1
          else if dp[Cell(i + 1, j, cols)] < dp[Cell(i, j + 1, cols)] then dp[Cell(i, j + 1, cols)]
          else dp[Cell(i + 1, j, cols)];
        FilledStep(before, dp[..], b, a, i, j);
        j := j - 1;
      }
      i := i - 1;
    }
  }
}
