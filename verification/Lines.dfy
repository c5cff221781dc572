/** Text as lines: splitting at line ends, joining with LF, and weaving a file out of
    stretches that an edit keeps and stretches that it replaces. */
module Lines {

  const LF := '\n'
  const CR := '\r'

  predicate NoLf(s: string) { forall i | 0 <= i < |s| :: s[i] != LF }

  /** Splitting at every LF; never empty. */
  function SplitLf(s: string): (r: seq<string>)
    ensures r != []
    ensures forall k | 0 <= k < |r| :: NoLf(r[k])
  {
    if s == "" then [""]
    else
      var r := SplitLf(s[1..]);
      if s[0] == LF then [""] + r else [[s[0]] + r[0]] + r[1..]
  }

  /** Joining with LF. */
  function Join(lines: seq<string>): string
  {
    if lines == [] then ""
    else if |lines| == 1 then lines[0]
    else lines[0] + [LF] + Join(lines[1..])
  }

  /** Every CR LF pair becomes one LF. */
  function ToLf(s: string): string
  {
    if s == "" then ""
    else if |s| > 1 && s[0] == CR && s[1] == LF then [LF] + ToLf(s[2..])
    else [s[0]] + ToLf(s[1..])
  }

  /** Splitting at CR LF or LF. */
  function SplitLines(s: string): (r: seq<string>)
    ensures r != []
    ensures forall k | 0 <= k < |r| :: NoLf(r[k])
  {
    SplitLf(ToLf(s))
  }

  lemma {:induction false} SplitPiece(line: string, rest: string)
    requires NoLf(line)
    ensures SplitLf(line) == [line]
    ensures SplitLf(line + [LF] + rest) == [line] + SplitLf(rest)
  {
    var s := line + [LF] + rest;
    if line == "" {
      assert s[1..] == rest;
    } else {
      assert NoLf(line[1..]);
      SplitPiece(line[1..], rest);
      assert s[1..] == line[1..] + [LF] + rest;
      assert [line[0]] + line[1..] == line;
    }
  }

  /** Splitting undoes joining. */
  lemma {:induction false} SplitJoin(lines: seq<string>)
    requires lines != [] && forall k | 0 <= k < |lines| :: NoLf(lines[k])
    ensures SplitLf(Join(lines)) == lines
  {
    if |lines| == 1 {
      SplitPiece(lines[0], "");
      assert lines == [lines[0]];
    } else {
      SplitJoin(lines[1..]);
      SplitPiece(lines[0], Join(lines[1..]));
      assert lines == [lines[0]] + lines[1..];
    }
  }

  lemma JoinCons(line: string, rest: seq<string>)
    requires rest != []
    ensures Join([line] + rest) == line + ([LF] + Join(rest))
  {
    assert ([line] + rest)[1..] == rest;
  }

  lemma Assoc<T>(x: seq<T>, y: seq<T>, z: seq<T>)
    ensures (x + y) + z == x + (y + z)
  {
  }

  lemma JoinPush(c: char, r: seq<string>)
    requires r != []
    ensures Join([[c] + r[0]] + r[1..]) == [c] + Join(r)
  {
    hide NoLf, SplitLf;
    if |r| == 1 {
      assert [[c] + r[0]] + r[1..] == [[c] + r[0]];
    } else {
      JoinCons([c] + r[0], r[1..]);
      JoinCons(r[0], r[1..]);
      assert [r[0]] + r[1..] == r;
      Assoc([c], r[0], [LF] + Join(r[1..]));
    }
  }

  /** Joining undoes splitting. */
  lemma {:induction false} JoinSplit(s: string)
    ensures Join(SplitLf(s)) == s
  {
    if s != "" {
      JoinSplit(s[1..]);
      var r := SplitLf(s[1..]);
      if s[0] == LF {
        JoinCons("", r);
      } else {
        JoinPush(s[0], r);
      }
    }
  }

  lemma TakeDrop<T>(s: seq<T>, n: nat)
    requires n <= |s|
    ensures s == s[..n] + s[n..]
  {
  }

  lemma SliceSlice<T>(s: seq<T>, lo: nat, hi: nat, x: nat, y: nat)
    requires lo <= hi <= |s| && x <= y <= hi - lo
    ensures s[lo..hi][x..y] == s[lo + x..lo + y]
  {
    var l, r := s[lo..hi][x..y], s[lo + x..lo + y];
    assert |l| == |r| && forall k | 0 <= k < |l| :: l[k] == s[lo + x + k] == r[k];
  }

  // ---- Weaving ----

  /** gaps[0] parts[0] gaps[1] parts[1] ... gaps[n] */
  function Weave<T>(gaps: seq<seq<T>>, parts: seq<seq<T>>): seq<T>
    requires |gaps| == |parts| + 1
  {
    if parts == [] then gaps[0] else gaps[0] + parts[0] + Weave(gaps[1..], parts[1..])
  }

  lemma WeaveAt<T>(gaps: seq<seq<T>>, parts: seq<seq<T>>, k: nat)
    requires |gaps| == |parts| + 1 && k < |parts|
    ensures Weave(gaps[k..], parts[k..]) == gaps[k] + parts[k] + Weave(gaps[k + 1..], parts[k + 1..])
  {
    assert gaps[k..][1..] == gaps[k + 1..] && parts[k..][1..] == parts[k + 1..];
  }

  /** Where part k starts in the weave. */
  function Offset<T>(gaps: seq<seq<T>>, parts: seq<seq<T>>, k: nat): nat
    requires |gaps| == |parts| + 1 && k < |parts|
  {
    if k == 0 then |gaps[0]| else |gaps[0]| + |parts[0]| + Offset(gaps[1..], parts[1..], k - 1)
  }

  lemma {:induction false} OffsetHolds<T>(gaps: seq<seq<T>>, parts: seq<seq<T>>, k: nat)
    requires |gaps| == |parts| + 1 && k < |parts|
    ensures var o := Offset(gaps, parts, k);
            o + |parts[k]| <= |Weave(gaps, parts)| && Weave(gaps, parts)[o..o + |parts[k]|] == parts[k]
  {
    var rest := Weave(gaps[1..], parts[1..]);
    var pre := gaps[0] + parts[0];
    assert Weave(gaps, parts) == pre + rest;
    if k == 0 {
      PrefixSlice(gaps[0], parts[0], rest);
    } else {
      OffsetHolds(gaps[1..], parts[1..], k - 1);
      SliceBehind(pre, rest, Offset(gaps[1..], parts[1..], k - 1), |parts[k]|);
    }
  }

  lemma PrefixSlice<T>(pre: seq<T>, gap: seq<T>, rest: seq<T>)
    ensures ((pre + gap) + rest)[|pre|..|pre| + |gap|] == gap
  {
  }

  lemma SliceBehind<T>(pre: seq<T>, rest: seq<T>, o: nat, n: nat)
    requires o + n <= |rest|
    ensures (pre + rest)[|pre| + o..|pre| + o + n] == rest[o..o + n]
  {
  }

  lemma {:induction false} OffsetStep<T>(gaps: seq<seq<T>>, parts: seq<seq<T>>, k: nat)
    requires |gaps| == |parts| + 1 && k + 1 < |parts|
    ensures Offset(gaps, parts, k + 1) == Offset(gaps, parts, k) + |parts[k]| + |gaps[k + 1]|
  {
    if k > 0 {
      OffsetStep(gaps[1..], parts[1..], k - 1);
    } else {
      assert Offset(gaps[1..], parts[1..], 0) == |gaps[1]|;
    }
  }

  lemma {:induction false} WeaveTail<T>(gaps: seq<seq<T>>, parts: seq<seq<T>>, tail: seq<T>)
    requires |gaps| == |parts| + 1
    ensures Weave(gaps[|parts| := gaps[|parts|] + tail], parts) == Weave(gaps, parts) + tail
  {
    var g' := gaps[|parts| := gaps[|parts|] + tail];
    if parts != [] {
      WeaveTail(gaps[1..], parts[1..], tail);
      assert g'[1..] == gaps[1..][|parts| - 1 := gaps[1..][|parts| - 1] + tail];
      assert gaps[0] + parts[0] + (Weave(gaps[1..], parts[1..]) + tail) == gaps[0] + parts[0] + Weave(gaps[1..], parts[1..]) + tail;
    }
  }

  // ---- Splicing replacement chunks into a list of lines ----

  /** Replace del lines from line start on by the lines ins. */
  datatype Chunk = Chunk(start: nat, ins: seq<string>, del: nat)

  /** Lines lo up to hi, as far as they exist. */
  function Cut<T>(s: seq<T>, lo: nat, hi: nat): seq<T> { if lo <= hi <= |s| then s[lo..hi] else [] }

  function From<T>(s: seq<T>, i: nat): seq<T> { if i <= |s| then s[i..] else [] }

  /** Chunks that ascend, do not overlap and start within the file. */
  predicate Ascending(length: nat, cur: nat, chunks: seq<Chunk>)
    decreases |chunks|
  {
    chunks == [] ||
    (cur <= chunks[0].start <= length && Ascending(length, chunks[0].start + chunks[0].del, chunks[1..]))
  }

  /** The file from line cur on, with the chunks applied. */
  function Splice(file: seq<string>, cur: nat, chunks: seq<Chunk>): seq<string>
    requires Ascending(|file|, cur, chunks)
    decreases |chunks|
  {
    if chunks == [] then From(file, cur)
    else file[cur..chunks[0].start] + chunks[0].ins + Splice(file, chunks[0].start + chunks[0].del, chunks[1..])
  }

  /** The chunks that swap each woven part xs[k], found at its offset, for ys[k]. */
  function Swaps(gaps: seq<seq<string>>, xs: seq<seq<string>>, ys: seq<seq<string>>): seq<Chunk>
    requires |gaps| == |xs| + 1 && |xs| == |ys|
  {
    seq(|xs|, k requires 0 <= k < |xs| => Chunk(Offset(gaps, xs, k), ys[k], |xs[k]|))
  }

  function Shifted(chunks: seq<Chunk>, n: nat): seq<Chunk>
  {
    seq(|chunks|, k requires 0 <= k < |chunks| => chunks[k].(start := chunks[k].start + n))
  }

  lemma SwapsTail(pre: seq<string>, gaps: seq<seq<string>>, xs: seq<seq<string>>, ys: seq<seq<string>>)
    requires |gaps| == |xs| + 1 && |xs| == |ys| && xs != []
    ensures var chunks := Shifted(Swaps(gaps, xs, ys), |pre|);
            && chunks != [] && chunks[0] == Chunk(|pre| + |gaps[0]|, ys[0], |xs[0]|)
            && chunks[1..] == Shifted(Swaps(gaps[1..], xs[1..], ys[1..]), |pre + gaps[0] + xs[0]|)
  {
  }

  ghost predicate SplicesTo(file: seq<string>, cur: nat, chunks: seq<Chunk>, result: seq<string>)
  {
    Ascending(|file|, cur, chunks) && Splice(file, cur, chunks) == result
  }

  lemma SpliceFirst(file: seq<string>, cur: nat, gap: seq<string>, chunks: seq<Chunk>, rest: seq<string>)
    requires chunks != [] && chunks[0].start == cur + |gap| <= |file| && file[cur..cur + |gap|] == gap
    requires SplicesTo(file, cur + |gap| + chunks[0].del, chunks[1..], rest)
    ensures SplicesTo(file, cur, chunks, gap + chunks[0].ins + rest)
  {
  }

  lemma {:induction false} SpliceWeaveFrom(
    pre: seq<string>, gaps: seq<seq<string>>, xs: seq<seq<string>>, ys: seq<seq<string>>)
    requires |gaps| == |xs| + 1 && |xs| == |ys|
    ensures SplicesTo(pre + Weave(gaps, xs), |pre|, Shifted(Swaps(gaps, xs, ys), |pre|), Weave(gaps, ys))
    decreases |xs|
  {
    if xs == [] {
      assert (pre + gaps[0])[|pre|..] == gaps[0];
    } else {
      hide *;
      SpliceWeaveFrom(pre + gaps[0] + xs[0], gaps[1..], xs[1..], ys[1..]);
      SpliceWeaveStep(pre, gaps, xs, ys);
    }
  }

  lemma SpliceWeaveStep(pre: seq<string>, gaps: seq<seq<string>>, xs: seq<seq<string>>, ys: seq<seq<string>>)
    requires |gaps| == |xs| + 1 && |xs| == |ys| && xs != []
    requires var pre' := pre + gaps[0] + xs[0];
             SplicesTo(pre' + Weave(gaps[1..], xs[1..]), |pre'|,
                       Shifted(Swaps(gaps[1..], xs[1..], ys[1..]), |pre'|), Weave(gaps[1..], ys[1..]))
    ensures SplicesTo(pre + Weave(gaps, xs), |pre|, Shifted(Swaps(gaps, xs, ys), |pre|), Weave(gaps, ys))
  {
    hide *;
    SwapsTail(pre, gaps, xs, ys);
    WeaveSplit(pre, gaps, xs);
    WeaveSplit([], gaps, ys);
    PrefixSlice(pre, gaps[0], xs[0] + Weave(gaps[1..], xs[1..]));
    SpliceFirst(pre + Weave(gaps, xs), |pre|, gaps[0], Shifted(Swaps(gaps, xs, ys), |pre|), Weave(gaps[1..], ys[1..]));
  }

  lemma WeaveSplit<T>(pre: seq<T>, gaps: seq<seq<T>>, xs: seq<seq<T>>)
    requires |gaps| == |xs| + 1 && xs != []
    ensures pre + Weave(gaps, xs) == (pre + gaps[0] + xs[0]) + Weave(gaps[1..], xs[1..])
    ensures pre + Weave(gaps, xs) == (pre + gaps[0]) + (xs[0] + Weave(gaps[1..], xs[1..]))
    ensures Weave(gaps, xs) == gaps[0] + xs[0] + Weave(gaps[1..], xs[1..])
  {
    var w := Weave(gaps[1..], xs[1..]);
    assert Weave(gaps, xs) == (gaps[0] + xs[0]) + w;
    hide *;
    Assoc(gaps[0], xs[0], w);
    Assoc(pre, gaps[0], xs[0] + w);
    Assoc(pre + gaps[0], xs[0], w);
  }

  /** Swapping the parts of a woven file gives the file woven from the other parts:
      the stretches between them stay, whatever they are. */
  lemma SpliceWeave(gaps: seq<seq<string>>, xs: seq<seq<string>>, ys: seq<seq<string>>)
    requires |gaps| == |xs| + 1 && |xs| == |ys|
    ensures Ascending(|Weave(gaps, xs)|, 0, Swaps(gaps, xs, ys))
    ensures Splice(Weave(gaps, xs), 0, Swaps(gaps, xs, ys)) == Weave(gaps, ys)
  {
    SpliceWeaveFrom([], gaps, xs, ys);
    assert [] + Weave(gaps, xs) == Weave(gaps, xs);
    assert Shifted(Swaps(gaps, xs, ys), 0) == Swaps(gaps, xs, ys);
  }
}
