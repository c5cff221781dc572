/** Edit distance: edit scripts as the reference, the matrix that computes the distance in
    place, and the similarity score built on it. */
module Levenshtein {
  import Lcs
  import opened Numbers

  /** One step of an edit script. */
  datatype Op<T> = Keep(x: T) | Substitute(x: T, y: T) | Insert(y: T) | Delete(x: T)

  function Source<T>(script: seq<Op<T>>): seq<T>
  {
    if script == [] then [] else
    var o := script[|script| - 1];
    Source(script[..|script| - 1]) + if o.Insert? then [] else [o.x]
  }

  function Target<T>(script: seq<Op<T>>): seq<T>
  {
    if script == [] then [] else
    var o := script[|script| - 1];
    Target(script[..|script| - 1]) +
    match o case Keep(x) => [x] case Substitute(_, y) => [y] case Insert(y) => [y] case Delete(_) => []
  }

  function Cost<T>(script: seq<Op<T>>): nat
  {
    if script == [] then 0 else
    Cost(script[..|script| - 1]) + if script[|script| - 1].Keep? then 0 else 1
  }

  ghost predicate Edits<T>(script: seq<Op<T>>, s: seq<T>, t: seq<T>)
  {
    Source(script) == s && Target(script) == t
  }

  lemma EditsSnoc<T>(script: seq<Op<T>>, o: Op<T>)
    ensures Source(script + [o]) == Source(script) + if o.Insert? then [] else [o.x]
    ensures Target(script + [o]) ==
            Target(script) + if o.Delete? then [] else if o.Keep? then [o.x] else [o.y]
    ensures Cost(script + [o]) == Cost(script) + if o.Keep? then 0 else 1
  {
    assert (script + [o])[..|script|] == script;
  }

  function Min3(x: nat, y: nat, z: nat): nat
  {
    if x <= y && x <= z then x else if y <= z then y else z
  }

  /** The distance by the recursion on last characters that the matrix follows. */
  function Distance<T(==)>(t: seq<T>, s: seq<T>): nat
    decreases |t| + |s|
  {
    if t == [] then |s|
    else if s == [] then |t|
    else
      var t', s' := t[..|t| - 1], s[..|s| - 1];
      if t[|t| - 1] == s[|s| - 1] then Distance(t', s')
      else 1 + Min3(Distance(t', s'), Distance(t, s'), Distance(t', s))
  }

  lemma DistanceStep<T>(t: seq<T>, s: seq<T>, y: T, x: T)
    ensures Distance(t + [y], s + [x]) ==
            if y == x then Distance(t, s)
            else 1 + Min3(Distance(t, s), Distance(t + [y], s), Distance(t, s + [x]))
  {
    assert (t + [y])[..|t|] == t && (s + [x])[..|s|] == s;
  }

  lemma {:induction false} DistanceToEmpty<T>(t: seq<T>)
    ensures Distance(t, []) == |t|
  {
  }

  /** One more character at the end of the target changes the distance by at most one. */
  lemma {:induction false} LipschitzTarget<T>(t: seq<T>, s: seq<T>, z: T)
    ensures Distance(t, s) - 1 <= Distance(t + [z], s) <= Distance(t, s) + 1
    decreases |t| + |s|
  {
    if s == [] {
      DistanceToEmpty(t);
      DistanceToEmpty(t + [z]);
    } else {
      hide *;
      var s', x := s[..|s| - 1], s[|s| - 1];
      assert s == s' + [x];
      DistanceStep(t, s', z, x);
      LipschitzSource(t, s', x);
      LipschitzTarget(t, s', z);
      Min3Is(Distance(t, s'), Distance(t + [z], s'), Distance(t, s));
    }
  }

  /** One more character at the end of the source changes the distance by at most one. */
  lemma {:induction false} LipschitzSource<T>(t: seq<T>, s: seq<T>, z: T)
    ensures Distance(t, s) - 1 <= Distance(t, s + [z]) <= Distance(t, s) + 1
    decreases |t| + |s|
  {
    if t == [] {
      assert Distance(t, s) == |s| && Distance(t, s + [z]) == |s| + 1;
    } else {
      hide *;
      var t', y := t[..|t| - 1], t[|t| - 1];
      assert t == t' + [y];
      DistanceStep(t', s, y, z);
      LipschitzTarget(t', s, y);
      LipschitzSource(t', s, z);
      Min3Is(Distance(t', s), Distance(t, s), Distance(t', s + [z]));
    }
  }

  lemma Min3Is(x: nat, y: nat, z: nat)
    ensures var m := Min3(x, y, z); m <= x && m <= y && m <= z && (m == x || m == y || m == z)
  {
  }

  /** No script is cheaper than the distance. */
  lemma {:induction false} DistanceIsLowerBound<T>(script: seq<Op<T>>)
    ensures Distance(Target(script), Source(script)) <= Cost(script)
    decreases |script|
  {
    if script != [] {
      var script', o := script[..|script| - 1], script[|script| - 1];
      DistanceIsLowerBound(script');
      var t, s := Target(script'), Source(script');
      match o
      case Keep(x) => DistanceStep(t, s, x, x);
      case Substitute(x, y) => DistanceStep(t, s, y, x);
      case Insert(y) => LipschitzTarget(t, s, y); assert s + [] == s;
      case Delete(x) => LipschitzSource(t, s, x); assert t + [] == t;
    }
  }

  lemma {:induction false} DeleteAll<T>(s: seq<T>) returns (script: seq<Op<T>>)
    ensures Edits(script, s, []) && Cost(script) == |s|
  {
    if s == [] {
      script := [];
    } else {
      var e := DeleteAll(s[..|s| - 1]);
      EditsSnoc(e, Delete(s[|s| - 1]));
      script := e + [Delete(s[|s| - 1])];
    }
  }

  lemma {:induction false} InsertAll<T>(t: seq<T>) returns (script: seq<Op<T>>)
    ensures Edits(script, [], t) && Cost(script) == |t|
  {
    if t == [] {
      script := [];
    } else {
      var e := InsertAll(t[..|t| - 1]);
      EditsSnoc(e, Insert(t[|t| - 1]));
      script := e + [Insert(t[|t| - 1])];
    }
  }

  /** Some script costs exactly the distance. */
  lemma {:induction false} DistanceIsAttained<T>(t: seq<T>, s: seq<T>) returns (script: seq<Op<T>>)
    ensures Edits(script, s, t) && Cost(script) == Distance(t, s)
    decreases |t| + |s|
  {
    if t == [] {
      script := DeleteAll(s);
    } else if s == [] {
      script := InsertAll(t);
    } else {
      var t', s', y, x := t[..|t| - 1], s[..|s| - 1], t[|t| - 1], s[|s| - 1];
      assert t == t' + [y] && s == s' + [x];
      DistanceStep(t', s', y, x);
      if y == x {
        var e := DistanceIsAttained(t', s');
        EditsSnoc(e, Keep(x));
        script := e + [Keep(x)];
      } else if Distance(t, s) == 1 + Distance(t', s') {
        var e := DistanceIsAttained(t', s');
        EditsSnoc(e, Substitute(x, y));
        script := e + [Substitute(x, y)];
      } else if Distance(t, s) == 1 + Distance(t, s') {
        var e := DistanceIsAttained(t, s');
        EditsSnoc(e, Delete(x));
        script := e + [Delete(x)];
      } else {
        var e := DistanceIsAttained(t', s);
        EditsSnoc(e, Insert(y));
        script := e + [Insert(y)];
      }
    }
  }

  ghost predicate IsEditDistance<T(!new)>(n: nat, s: seq<T>, t: seq<T>)
  {
    && (forall e: seq<Op<T>> :: Edits(e, s, t) ==> n <= Cost(e))
    && (exists e: seq<Op<T>> :: Edits(e, s, t) && Cost(e) == n)
  }

  /** The recursion computes exactly the least cost of an edit script. */
  lemma DistanceIsOptimal<T(!new)>(t: seq<T>, s: seq<T>)
    ensures IsEditDistance(Distance(t, s), s, t)
  {
    forall e: seq<Op<T>> | Edits(e, s, t) ensures Distance(t, s) <= Cost(e) {
      DistanceIsLowerBound(e);
    }
    var e := DistanceIsAttained(t, s);
  }

  // ---- The distance is a metric ----

  function Reversed<T>(o: Op<T>): Op<T>
  {
    match o
    case Keep(x) => Keep(x)
    case Substitute(x, y) => Substitute(y, x)
    case Insert(y) => Delete(y)
    case Delete(x) => Insert(x)
  }

  lemma {:induction false} Undo<T>(script: seq<Op<T>>) returns (undo: seq<Op<T>>)
    ensures Edits(undo, Target(script), Source(script)) && Cost(undo) == Cost(script)
    decreases |script|
  {
    if script == [] {
      undo := [];
    } else {
      var o := script[|script| - 1];
      var e := Undo(script[..|script| - 1]);
      EditsSnoc(e, Reversed(o));
      undo := e + [Reversed(o)];
    }
  }

  lemma Symmetric<T>(t: seq<T>, s: seq<T>)
    ensures Distance(t, s) == Distance(s, t)
  {
    var e := DistanceIsAttained(t, s);
    var e' := Undo(e);
    DistanceIsLowerBound(e');
    var f := DistanceIsAttained(s, t);
    var f' := Undo(f);
    DistanceIsLowerBound(f');
  }

  lemma {:induction false} ZeroIffEqual<T>(t: seq<T>, s: seq<T>)
    ensures Distance(t, s) == 0 <==> t == s
    decreases |t|
  {
    if t != [] && s != [] {
      var t', s' := t[..|t| - 1], s[..|s| - 1];
      ZeroIffEqual(t', s');
      assert t == t' + [t[|t| - 1]] && s == s' + [s[|s| - 1]];
    }
  }

  lemma {:induction false} AtMostLonger<T>(t: seq<T>, s: seq<T>)
    ensures Distance(t, s) <= Max(|t|, |s|)
    decreases |t|
  {
    if t != [] && s != [] {
      AtMostLonger(t[..|t| - 1], s[..|s| - 1]);
    }
  }

  /** Doing one script and then another costs no more in a single script. */
  lemma {:induction false} Compose<T>(e: seq<Op<T>>, f: seq<Op<T>>) returns (g: seq<Op<T>>)
    requires Target(e) == Source(f)
    ensures Edits(g, Source(e), Target(f)) && Cost(g) <= Cost(e) + Cost(f)
    decreases |e| + |f|
  {
    if e != [] && e[|e| - 1].Delete? {
      g := ComposeDelete(e, f);
    } else if f != [] && f[|f| - 1].Insert? {
      g := ComposeInsert(e, f);
    } else if e == [] {
      EmptyEnd(f);
      g := [];
    } else if f == [] {
      EmptyEnd(e);
      g := [];
    } else {
      g := ComposeBoth(e, f);
    }
  }

  lemma EmptyEnd<T>(e: seq<Op<T>>)
    ensures Source(e) == [] && e != [] ==> e[|e| - 1].Insert?
    ensures Target(e) == [] && e != [] ==> e[|e| - 1].Delete?
  {
  }

  lemma {:induction false} ComposeDelete<T>(e: seq<Op<T>>, f: seq<Op<T>>) returns (g: seq<Op<T>>)
    requires Target(e) == Source(f) && e != [] && e[|e| - 1].Delete?
    ensures Edits(g, Source(e), Target(f)) && Cost(g) <= Cost(e) + Cost(f)
    decreases |e| + |f|, 0
  {
    var o := e[|e| - 1];
    assert Target(e[..|e| - 1]) + [] == Target(e[..|e| - 1]);
    var h := Compose(e[..|e| - 1], f);
    EditsSnoc(h, o);
    g := h + [o];
  }

  lemma {:induction false} ComposeInsert<T>(e: seq<Op<T>>, f: seq<Op<T>>) returns (g: seq<Op<T>>)
    requires Target(e) == Source(f) && f != [] && f[|f| - 1].Insert?
    ensures Edits(g, Source(e), Target(f)) && Cost(g) <= Cost(e) + Cost(f)
    decreases |e| + |f|, 0
  {
    var o := f[|f| - 1];
    assert Source(f[..|f| - 1]) + [] == Source(f[..|f| - 1]);
    var h := Compose(e, f[..|f| - 1]);
    EditsSnoc(h, o);
    g := h + [o];
  }

  /** The first script's last step makes the character that the second one's last step takes. */
  lemma {:induction false} ComposeBoth<T>(e: seq<Op<T>>, f: seq<Op<T>>) returns (g: seq<Op<T>>)
    requires Target(e) == Source(f) && e != [] && f != []
    requires !e[|e| - 1].Delete? && !f[|f| - 1].Insert?
    ensures Edits(g, Source(e), Target(f)) && Cost(g) <= Cost(e) + Cost(f)
    decreases |e| + |f|, 0
  {
    var o, p := e[|e| - 1], f[|f| - 1];
    var e', f' := e[..|e| - 1], f[..|f| - 1];
    var made := if o.Keep? then o.x else o.y;
    SameLast(Target(e'), made, Source(f'), p.x);
    var h := Compose(e', f');
    if o.Insert? && p.Delete? {
      assert Source(e') + [] == Source(e') && Target(f') + [] == Target(f');
      g := h;
    } else {
      var q :=
        if o.Insert? then Insert(if p.Keep? then p.x else p.y)
        else if p.Delete? then Delete(o.x)
        else if o.Keep? && p.Keep? then Keep(o.x)
        else Substitute(o.x, if p.Keep? then p.x else p.y);
      EditsSnoc(h, q);
      g := h + [q];
    }
  }

  lemma SameLast<T>(s: seq<T>, x: T, t: seq<T>, y: T)
    requires s + [x] == t + [y]
    ensures s == t && x == y
  {
    assert (s + [x])[|s|] == x && (t + [y])[|t|] == y;
    assert s == (s + [x])[..|s|] && t == (t + [y])[..|t|];
  }

  lemma Triangle<T>(s: seq<T>, t: seq<T>, u: seq<T>)
    ensures Distance(u, s) <= Distance(t, s) + Distance(u, t)
  {
    var e := DistanceIsAttained(t, s);
    var f := DistanceIsAttained(u, t);
    var g := Compose(e, f);
    DistanceIsLowerBound(g);
  }

  // ---- The matrix ----

  ghost predicate CellOk<T>(m: seq<nat>, b: seq<T>, a: seq<T>, i: nat, j: nat)
    requires i <= |b| && j <= |a| && |m| == (|b| + 1) * (|a| + 1)
  {
    Lcs.CellInRange(i, j, |b| + 1, |a| + 1);
    m[Lcs.Cell(i, j, |a| + 1)] == Distance(b[..i], a[..j])
  }

  /** Cells filled when the loops stand at row i with columns up to j done. */
  ghost predicate FilledTo<T>(m: seq<nat>, b: seq<T>, a: seq<T>, i: nat, j: nat)
  {
    && |m| == (|b| + 1) * (|a| + 1)
    && forall r, c | 0 <= r <= |b| && 0 <= c <= |a| && (r < i || (r == i && c < j) || r == 0 || c == 0) ::
      CellOk(m, b, a, r, c)
  }

  lemma CellStep<T>(b: seq<T>, a: seq<T>, i: nat, j: nat)
    requires 0 < i <= |b| && 0 < j <= |a|
    ensures Distance(b[..i], a[..j]) ==
            if b[i - 1] == a[j - 1] then Distance(b[..i - 1], a[..j - 1])
            else 1 + Min3(Distance(b[..i - 1], a[..j - 1]), Distance(b[..i], a[..j - 1]), Distance(b[..i - 1], a[..j]))
  {
    assert b[..i] == b[..i - 1] + [b[i - 1]] && a[..j] == a[..j - 1] + [a[j - 1]];
    DistanceStep(b[..i - 1], a[..j - 1], b[i - 1], a[j - 1]);
  }

  lemma FilledStep<T>(m: seq<nat>, m': seq<nat>, b: seq<T>, a: seq<T>, i: nat, j: nat)
    requires 0 < i <= |b| && 0 < j <= |a|
    requires FilledTo(m, b, a, i, j) && |m'| == |m|
    requires forall k | 0 <= k < |m| && k != Lcs.Cell(i, j, |a| + 1) :: m'[k] == m[k]
    requires CellOk(m', b, a, i, j)
    ensures FilledTo(m', b, a, i, j + 1)
  {
    forall r, c | 0 <= r <= |b| && 0 <= c <= |a| && (r < i || (r == i && c < j + 1) || r == 0 || c == 0)
      ensures CellOk(m', b, a, r, c)
    {
      if r != i || c != j {
        assert CellOk(m, b, a, r, c);
        Lcs.CellInRange(r, c, |b| + 1, |a| + 1);
        Lcs.CellInjective(r, c, i, j, |a| + 1);
      }
    }
  }

  lemma NextRow<T>(m: seq<nat>, b: seq<T>, a: seq<T>, i: nat)
    requires FilledTo(m, b, a, i, |a| + 1)
    ensures FilledTo(m, b, a, i + 1, 1)
  {
  }

  /** The border of the matrix: row r starts with r, column c starts with c. */
  ghost predicate Bordered(m: seq<nat>, rows: nat, cols: nat, r: nat, c: nat)
  {
    && |m| == rows * cols
    && (forall i | 0 <= i < rows && i < r :: Lcs.Cell(i, 0, cols) < |m| && m[Lcs.Cell(i, 0, cols)] == i)
    && (forall j | 0 <= j < cols && j < c :: j < |m| && m[j] == j)
  }

  lemma BorderFills<T>(m: seq<nat>, b: seq<T>, a: seq<T>)
    requires Bordered(m, |b| + 1, |a| + 1, |b| + 1, |a| + 1)
    ensures FilledTo(m, b, a, 1, 1)
  {
    forall r, c | 0 <= r <= |b| && 0 <= c <= |a| && (r < 1 || (r == 1 && c < 1) || r == 0 || c == 0)
      ensures CellOk(m, b, a, r, c)
    {
      if c == 0 {
        DistanceToEmpty(b[..r]);
      } else {
        assert Lcs.Cell(0, c, |a| + 1) == c;
      }
    }
  }

  lemma BorderColumn(m: seq<nat>, m': seq<nat>, rows: nat, cols: nat, i: nat)
    requires cols > 0 && i < rows && Bordered(m, rows, cols, i, 0)
    requires Lcs.Cell(i, 0, cols) < |m| && m' == m[Lcs.Cell(i, 0, cols) := i]
    ensures Bordered(m', rows, cols, i + 1, 0)
  {
    forall k | 0 <= k < rows && k < i + 1 ensures Lcs.Cell(k, 0, cols) < |m'| && m'[Lcs.Cell(k, 0, cols)] == k {
      Lcs.CellInRange(k, 0, rows, cols);
      Lcs.CellInjective(k, 0, i, 0, cols);
    }
  }

  lemma BorderRow(m: seq<nat>, m': seq<nat>, rows: nat, cols: nat, j: nat)
    requires rows > 0 && j < cols && Bordered(m, rows, cols, rows, j)
    requires j < |m| && m' == m[j := j]
    ensures Bordered(m', rows, cols, rows, j + 1)
  {
    forall k | 0 <= k < rows ensures Lcs.Cell(k, 0, cols) < |m'| && m'[Lcs.Cell(k, 0, cols)] == k {
      Lcs.CellInRange(k, 0, rows, cols);
      Lcs.CellInjective(k, 0, 0, j, cols);
    }
  }

  /** The distance, by filling a flat matrix in place row by row. */
  method Compute<T(==)>(a: seq<T>, b: seq<T>) returns (d: nat)
    ensures d == Distance(b, a)
  {
    var rows, cols := |b| + 1, |a| + 1;
    var m := new nat[rows * cols](_ => 0);
    for i := 0 to rows
      invariant m.Length == rows * cols && Bordered(m[..], rows, cols, i, 0)
    {
      Lcs.CellInRange(i, 0, rows, cols);
      ghost var was := m[..];
      m[Lcs.Cell(i, 0, cols)] := i;
      BorderColumn(was, m[..], rows, cols, i);
    }
    for j := 0 to cols
      invariant m.Length == rows * cols && Bordered(m[..], rows, cols, rows, j)
    {
      Lcs.CellInRange(0, j, rows, cols);
      ghost var was := m[..];
      m[j] := j;
      BorderRow(was, m[..], rows, cols, j);
    }
    BorderFills(m[..], b, a);
    for i := 1 to rows
      invariant m.Length == rows * cols && FilledTo(m[..], b, a, i, 1)
    {
      for j := 1 to cols
        invariant m.Length == rows * cols && FilledTo(m[..], b, a, i, j)
      {
        ghost var was := m[..];
        Lcs.CellInRange(i, j, rows, cols);
        Lcs.CellInRange(i - 1, j - 1, rows, cols);
        Lcs.CellInRange(i, j - 1, rows, cols);
        Lcs.CellInRange(i - 1, j, rows, cols);
        assert CellOk(was, b, a, i - 1, j - 1) && CellOk(was, b, a, i, j - 1) && CellOk(was, b, a, i - 1, j);
        CellStep(b, a, i, j);
        m[Lcs.Cell(i, j, cols)] :=
          if b[i - 1] == a[j - 1] then m[Lcs.Cell(i - 1, j - 1, cols)]
          else 1 + Min3(m[Lcs.Cell(i - 1, j - 1, cols)], m[Lcs.Cell(i, j - 1, cols)], m[Lcs.Cell(i - 1, j, cols)]);
        FilledStep(was, m[..], b, a, i, j);
      }
      NextRow(m[..], b, a, i);
    }
    Lcs.CellInRange(|b|, |a|, rows, cols);
    assert CellOk(m[..], b, a, |b|, |a|);
    assert b[..|b|] == b && a[..|a|] == a;
    d := m[Lcs.Cell(|b|, |a|, cols)];
  }

  // ---- Similarity ----

  /** The share of the longer string that an optimal edit leaves alone. */
  function Similarity<T(==)>(a: seq<T>, b: seq<T>): real
  {
    var longer, shorter := if |a| >= |b| then a else b, if |a| >= |b| then b else a;
    if |longer| == 0 then 1.0
    else (|longer| - Distance(longer, shorter)) as real / |longer| as real
  }

  lemma SimilarityIsAScore<T>(a: seq<T>, b: seq<T>)
    ensures 0.0 <= Similarity(a, b) <= 1.0
    ensures Similarity(a, b) == Similarity(b, a)
    ensures Similarity(a, b) == 1.0 <==> a == b
  {
    var n := Max(|a|, |b|);
    Symmetric(a, b);
    AtMostLonger(a, b);
    AtMostLonger(b, a);
    ZeroIffEqual(a, b);
    ZeroIffEqual(b, a);
    if n > 0 {
      var d := Distance(a, b);
      assert (n - d) as real == n as real - d as real;
      Fraction(n - d, n);
    }
  }

  lemma SimilarityOf<T>(a: seq<T>, b: seq<T>)
    ensures Distance(a, b) == Distance(b, a)
    ensures Similarity(a, b) == if Max(|a|, |b|) == 0 then 1.0 else (Max(|a|, |b|) - Distance(b, a)) as real / Max(|a|, |b|) as real
  {
    Symmetric(a, b);
    hide Distance;
  }

  lemma ShareTimes(n: nat, d: nat)
    requires n > 0
    ensures ((n - d) as real / n as real) * n as real == n as real - d as real
  {
  }

  /** It is the share of the longer text that a cheapest edit leaves alone. */
  lemma SimilarityIsShare<T(!new)>(a: seq<T>, b: seq<T>, d: nat)
    requires IsEditDistance(d, a, b)
    ensures var n := Max(|a|, |b|);
            if n == 0 then Similarity(a, b) == 1.0
            else Similarity(a, b) * n as real == n as real - d as real
  {
    hide *;
    DistanceIsOptimal(b, a);
    OneDistance(d, Distance(b, a), a, b);
    SimilarityOf(a, b);
    if Max(|a|, |b|) > 0 {
      ShareTimes(Max(|a|, |b|), d);
    }
  }

  lemma OneDistance<T(!new)>(d: nat, e: nat, s: seq<T>, t: seq<T>)
    requires IsEditDistance(d, s, t) && IsEditDistance(e, s, t)
    ensures d == e
  {
    var x :| Edits(x, s, t) && Cost(x) == d;
    var y :| Edits(y, s, t) && Cost(y) == e;
  }

  lemma Fraction(x: nat, n: nat)
    requires n > 0 && x <= n
    ensures 0.0 <= x as real / n as real <= 1.0
    ensures x as real / n as real == 1.0 <==> x == n
  {
    var q := x as real / n as real;
    assert q * n as real == x as real;
    Scaled(q, n as real);
  }

  lemma Scaled(q: real, n: real)
    requires n > 0.0
    ensures q > 1.0 ==> q * n > n
    ensures q < 0.0 ==> q * n < 0.0
  {
    if q > 1.0 {
      assert (q - 1.0) * n > 0.0;
    }
  }

  method ComputeSimilarity<T(==)>(a: seq<T>, b: seq<T>) returns (r: real)
    ensures r == Similarity(a, b)
  {
    var longer, shorter := if |a| >= |b| then a else b, if |a| >= |b| then b else a;
    if |longer| == 0 {
      return 1.0;
    }
    var d := Compute(shorter, longer);
    r := (|longer| - d) as real / |longer| as real;
  }
}
