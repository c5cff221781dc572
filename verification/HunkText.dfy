/** What the lines of a hunk say, read off their marks alone; and printing a hunk, which reading
    undoes. */
module HunkText {
  import opened Wrappers
  import opened Lines
  import opened Hunks

  // ---- The lines behind a mark ----

  /** The texts behind the plus signs. */
  function PlusTexts(body: seq<string>): seq<string>
  {
    if body == [] then []
    else
      var l := body[|body| - 1];
      PlusTexts(body[..|body| - 1]) + if "+" <= l then [l[1..]] else []
  }

  /** The texts behind the minus signs. */
  function MinusTexts(body: seq<string>): seq<string>
  {
    if body == [] then []
    else
      var l := body[|body| - 1];
      MinusTexts(body[..|body| - 1]) + if "-" <= l then [l[1..]] else []
  }

  /** All lines but the inserted ones; a minus sign or one space in front is a mark. */
  function OldTexts(body: seq<string>): seq<string>
  {
    if body == [] then []
    else
      var l := body[|body| - 1];
      OldTexts(body[..|body| - 1]) + if "+" <= l then [] else if "-" <= l || " " <= l then [l[1..]] else [l]
  }

  function NewTexts(body: seq<string>): seq<string>
  {
    if body == [] then []
    else
      var l := body[|body| - 1];
      NewTexts(body[..|body| - 1]) + if "-" <= l then [] else if "+" <= l || " " <= l then [l[1..]] else [l]
  }

  function InsOf(chunks: seq<PatchChunk>): seq<string>
  {
    if chunks == [] then [] else InsOf(chunks[..|chunks| - 1]) + chunks[|chunks| - 1].ins
  }

  function DelOf(chunks: seq<PatchChunk>): seq<string>
  {
    if chunks == [] then [] else DelOf(chunks[..|chunks| - 1]) + chunks[|chunks| - 1].del
  }

  lemma InsSnoc(chunks: seq<PatchChunk>, c: PatchChunk)
    ensures InsOf(chunks + [c]) == InsOf(chunks) + c.ins && DelOf(chunks + [c]) == DelOf(chunks) + c.del
  {
    assert (chunks + [c])[..|chunks|] == chunks;
  }

  lemma InsNone()
    ensures InsOf([]) == [] && DelOf([]) == []
  {
  }

  lemma {:induction false} InsConcat(x: seq<PatchChunk>, y: seq<PatchChunk>)
    ensures InsOf(x + y) == InsOf(x) + InsOf(y) && DelOf(x + y) == DelOf(x) + DelOf(y)
    decreases |y|
  {
    hide *;
    if y == [] {
      assert x + y == x;
      InsNone();
    } else {
      var init, last := y[..|y| - 1], y[|y| - 1];
      InsConcat(x, init);
      InsSnoc(x + init, last);
      InsSnoc(init, last);
      assert x + y == (x + init) + [last] && y == init + [last];
      Assoc(InsOf(x), InsOf(init), last.ins);
      Assoc(DelOf(x), DelOf(init), last.del);
    }
  }

  lemma TextsSnoc(body: seq<string>, line: string)
    ensures PlusTexts(body + [line]) == PlusTexts(body) + PlusPart(line)
    ensures MinusTexts(body + [line]) == MinusTexts(body) + MinusPart(line)
  {
    assert (body + [line])[..|body|] == body;
  }

  lemma TextsNone(x: seq<string>)
    ensures PlusTexts(x + []) == PlusTexts(x) + PlusTexts([]) && MinusTexts(x + []) == MinusTexts(x) + MinusTexts([])
  {
    assert x + [] == x;
  }

  lemma {:induction false} TextsConcat(x: seq<string>, y: seq<string>)
    ensures PlusTexts(x + y) == PlusTexts(x) + PlusTexts(y) && MinusTexts(x + y) == MinusTexts(x) + MinusTexts(y)
    decreases |y|
  {
    hide *;
    if y == [] {
      TextsNone(x);
    } else {
      var init, last := y[..|y| - 1], y[|y| - 1];
      TextsConcat(x, init);
      TextsSnoc(x + init, last);
      TextsSnoc(init, last);
      assert x + y == (x + init) + [last] && y == init + [last];
      Assoc(PlusTexts(x), PlusTexts(init), PlusPart(last));
      Assoc(MinusTexts(x), MinusTexts(init), MinusPart(last));
    }
  }

  /** A line with neither mark says nothing of changes. */
  lemma NoText(line: string)
    requires !("+" <= line) && !("-" <= line)
    ensures PlusTexts([line]) == [] && MinusTexts([line]) == []
  {
    assert [line][..0] == [];
  }

  lemma {:induction false} SameTexts(x: seq<PatchChunk>, y: seq<PatchChunk>)
    requires |x| == |y| && forall k | 0 <= k < |x| :: x[k].ins == y[k].ins && x[k].del == y[k].del
    ensures InsOf(x) == InsOf(y) && DelOf(x) == DelOf(y)
    decreases |x|
  {
    if x != [] {
      SameTexts(x[..|x| - 1], y[..|y| - 1]);
    }
  }

  lemma LineSays(line: string)
    ensures MarkOf(line) == (if "+" <= line then Insert else if "-" <= line then Remove else Keep)
    ensures TextOf(line) == if "+" <= line || "-" <= line || " " <= line then line[1..] else line
  {
  }

  lemma {:induction false} SidesSay(body: seq<string>)
    ensures OldSide(body) == OldTexts(body) && NewSide(body) == NewTexts(body)
    decreases |body|
  {
    if body != [] {
      SidesSay(body[..|body| - 1]);
      LineSays(body[|body| - 1]);
      hide MarkOf, TextOf;
    }
  }

  lemma GrowLast(chunks: seq<PatchChunk>, c: PatchChunk)
    requires chunks != []
    ensures var init, last := chunks[..|chunks| - 1], chunks[|chunks| - 1];
            InsOf(init + [c]) == InsOf(init) + c.ins && DelOf(init + [c]) == DelOf(init) + c.del &&
            InsOf(chunks) == InsOf(init) + last.ins && DelOf(chunks) == DelOf(init) + last.del
  {
    InsSnoc(chunks[..|chunks| - 1], c);
  }

  function PlusPart(line: string): seq<string> { if "+" <= line then [line[1..]] else [] }

  function MinusPart(line: string): seq<string> { if "-" <= line then [line[1..]] else [] }

  lemma GrowSays(c: PatchChunk, line: string)
    requires MarkOf(line) != Keep
    ensures Grow(c, line).ins == c.ins + PlusPart(line) && Grow(c, line).del == c.del + MinusPart(line)
  {
    LineSays(line);
    assert "+" <= line ==> line[0] == '+';
    assert "-" <= line ==> line[0] == '-';
  }

  lemma KeepSays(line: string)
    requires MarkOf(line) == Keep
    ensures PlusPart(line) == [] && MinusPart(line) == []
  {
    LineSays(line);
  }

  lemma StepSays(body: seq<string>, before: seq<PatchChunk>, line: string)
    ensures var after := ChangesStep(body, before, line);
            InsOf(after) == InsOf(before) + PlusPart(line) && DelOf(after) == DelOf(before) + MinusPart(line)
  {
    hide MarkOf, Grow, OldSide, InRun, InsOf, DelOf, PlusPart, MinusPart;
    if MarkOf(line) == Keep {
      KeepSays(line);
    } else if InRun(body) && before != [] {
      var init, last := before[..|before| - 1], before[|before| - 1];
      GrowSays(last, line);
      GrowLast(before, Grow(last, line));
      Assoc(InsOf(init), last.ins, PlusPart(line));
      Assoc(DelOf(init), last.del, MinusPart(line));
    } else {
      var c := PatchChunk(|OldSide(body)|, [], []);
      GrowSays(c, line);
      InsSnoc(before, Grow(c, line));
    }
  }

  /** The chunks insert exactly the texts behind the plus signs, and delete those behind the minus
      signs, in order. */
  lemma {:induction false} ChangesSay(body: seq<string>)
    ensures InsOf(Changes(body)) == PlusTexts(body) && DelOf(Changes(body)) == MinusTexts(body)
    decreases |body|
  {
    if body != [] {
      ChangesSay(body[..|body| - 1]);
      StepSays(body[..|body| - 1], Changes(body[..|body| - 1]), body[|body| - 1]);
      hide ChangesStep, InsOf, DelOf;
    }
  }

  /** What a hunk is, for the lines that it was read from: its block is the old lines, its chunks
      insert and delete what the marks say, and they make the new lines of the old ones. */
  ghost predicate SaysHunk(body: seq<string>, h: Hunk)
  {
    && h.context == OldTexts(body) && WellFormed(h.context, h.chunks)
    && InsOf(h.chunks) == PlusTexts(body) && DelOf(h.chunks) == MinusTexts(body)
    && AppliesTo(h.context, 0, h.chunks, NewTexts(body))
  }

  /** The hunk read at a line is what the lines from there to its end say. */
  lemma HunkSaysLines(lines: seq<string>, i: nat)
    requires i <= |lines| && HunkAt(lines, i).Success?
    ensures i <= HunkEnd(lines, i) <= |lines| && SaysHunk(lines[i..HunkEnd(lines, i)], HunkAt(lines, i).value.0)
    ensures HunkAt(lines, i).value.1 ==
            if HunkEnd(lines, i) < |lines| && lines[HunkEnd(lines, i)] == END_FILE then HunkEnd(lines, i) + 1 else HunkEnd(lines, i)
  {
    var body := lines[i..HunkEnd(lines, i)];
    ChangesAreOk(body);
    SidesSay(body);
    ChangesSay(body);
    hide HunkEnd, OldSide, NewSide, Changes, Applied, Fits, WellFormed, PlusTexts, MinusTexts, OldTexts, NewTexts, InsOf, DelOf;
  }

  // ---- Printing ----

  datatype Item = Item(mark: Mark, text: string)

  function LineOf(item: Item): string
  {
    (match item.mark case Insert => "+" case Remove => "-" case Keep => " ") + item.text
  }

  function Printed(items: seq<Item>): (r: seq<string>)
    ensures |r| == |items| && forall k | 0 <= k < |r| :: r[k] == LineOf(items[k])
  {
    seq(|items|, k requires 0 <= k < |items| => LineOf(items[k]))
  }

  /** The texts of the items that have one of these marks, in order. */
  function TextsWith(items: seq<Item>, marks: set<Mark>): seq<string>
  {
    if items == [] then []
    else
      var last := items[|items| - 1];
      TextsWith(items[..|items| - 1], marks) + if last.mark in marks then [last.text] else []
  }

  lemma PrintedLine(item: Item)
    ensures LineOf(item)[1..] == item.text
    ensures "+" <= LineOf(item) <==> item.mark == Insert
    ensures "-" <= LineOf(item) <==> item.mark == Remove
    ensures " " <= LineOf(item) <==> item.mark == Keep
  {
    assert LineOf(item)[0] == match item.mark case Insert => '+' case Remove => '-' case Keep => ' ';
  }

  lemma {:induction false} PrintedSays(items: seq<Item>)
    ensures OldTexts(Printed(items)) == TextsWith(items, {Keep, Remove}) && NewTexts(Printed(items)) == TextsWith(items, {Keep, Insert})
    ensures PlusTexts(Printed(items)) == TextsWith(items, {Insert}) && MinusTexts(Printed(items)) == TextsWith(items, {Remove})
    decreases |items|
  {
    if items != [] {
      var init, last := items[..|items| - 1], items[|items| - 1];
      PrintedSays(init);
      assert Printed(items)[..|items| - 1] == Printed(init);
      PrintedLine(last);
      hide LineOf;
    }
  }

  /** A printed line never ends its hunk and is never a stray marker. */
  lemma PrintedGoesOn(item: Item)
    ensures !StopsHunk(LineOf(item)) && !BadLine(LineOf(item))
  {
    assert LineOf(item)[0] in {'+', '-', ' '};
    assert END[0] == UPDATE[0] == DELETE[0] == ADD[0] == END_FILE[0] == '*';
  }

  lemma {:induction false} EndsBehind(lines: seq<string>, i: nat, n: nat)
    requires i <= n <= |lines| && (forall k | i <= k < n :: !StopsHunk(lines[k]) && !BadLine(lines[k]))
    requires n == |lines| || StopsHunk(lines[n])
    ensures HunkEnd(lines, i) == n
    decreases n - i
  {
    hide StopsHunk, BadLine;
    if i < n {
      EndsBehind(lines, i + 1, n);
    }
  }

  /** The end sentinel, or the header of a section. */
  predicate EndsAdded(line: string)
  {
    "*** End Patch" <= line || "*** Update File:" <= line || "*** Delete File:" <= line || "*** Add File:" <= line
  }

  /** Such a line ends a hunk: it is empty, the header of the next hunk, three stars, the mark for
      the end of the file, or the end of the section. */
  predicate Ends(line: string)
  {
    line == "" || "@@" <= line || line == "***" || "*** End of File" <= line || EndsAdded(line)
  }

  lemma EndsIff(line: string)
    ensures Ends(line) <==> StopsHunk(line)
    ensures EndsAdded(line) <==> StopsAdd(line)
    ensures EndsAdded(line) || "*** End of File" <= line <==> StopsUpdate(line)
    ensures line == "*** End of File" <==> line == END_FILE
  {
    assert UPDATE[..|UPDATE| - 1] == "*** Update File:";
    assert DELETE[..|DELETE| - 1] == "*** Delete File:";
    assert ADD[..|ADD| - 1] == "*** Add File:";
  }

  /** A hunk is refused exactly when, after lines that neither end it nor begin with three stars,
      there comes one that begins with three stars and does not end it. */
  lemma PeekRefusedIff(lines: seq<string>, i: nat)
    requires i <= |lines|
    ensures HunkAt(lines, i).Failure? <==>
            exists n :: i <= n < |lines| && !Ends(lines[n]) && "***" <= lines[n] && forall k | i <= k < n :: !Ends(lines[k]) && !("***" <= lines[k])
  {
    var n := HunkEnd(lines, i);
    forall k | i <= k < |lines| ensures Ends(lines[k]) <==> StopsHunk(lines[k]) {
      EndsIff(lines[k]);
    }
    hide Ends, StopsHunk, OldSide, Changes;
    if HunkAt(lines, i).Failure? {
      assert !Ends(lines[n]) && "***" <= lines[n];
    }
  }

  lemma PrintedEnds(before: seq<string>, items: seq<Item>, rest: seq<string>)
    requires rest == [] || StopsHunk(rest[0])
    ensures var lines, n := before + Printed(items) + rest, |before| + |items|;
            && n <= |lines| && HunkEnd(lines, |before|) == n && lines[|before|..n] == Printed(items)
            && (n < |lines| <==> rest != []) && (n < |lines| ==> lines[n] == rest[0] && !BadLine(lines[n]))
  {
    var lines, i, n := before + Printed(items) + rest, |before|, |before| + |items|;
    hide LineOf;
    forall k | i <= k < n ensures !StopsHunk(lines[k]) && !BadLine(lines[k]) {
      PrintedGoesOn(items[k - i]);
      assert lines[k] == Printed(items)[k - i];
    }
    hide StopsHunk;
    EndsBehind(lines, i, n);
  }

  lemma HunkReads(lines: seq<string>, i: nat)
    requires i <= |lines| && (HunkEnd(lines, i) < |lines| ==> !BadLine(lines[HunkEnd(lines, i)]))
    ensures HunkAt(lines, i).Success?
    ensures HunkAt(lines, i).value.0.eof <==> HunkEnd(lines, i) < |lines| && lines[HunkEnd(lines, i)] == END_FILE
  {
    hide HunkEnd, OldSide, Changes, BadLine;
  }

  /** Whatever stands before and behind: reading a printed hunk gives the kept and removed texts as
      its block, chunks that delete and insert exactly the removed and inserted texts, make the kept
      and inserted texts of the block, and do so for the end of the file if it says so. */
  lemma PeekUndoesPrint(before: seq<string>, items: seq<Item>, rest: seq<string>)
    requires rest == [] || Ends(rest[0])
    ensures var lines, eof := before + Printed(items) + rest, rest != [] && rest[0] == "*** End of File";
            var r := HunkAt(lines, |before|);
            && r.Success? && r.value.1 == |before| + |items| + (if eof then 1 else 0) && r.value.0.eof == eof
            && r.value.0.context == TextsWith(items, {Keep, Remove})
            && DelOf(r.value.0.chunks) == TextsWith(items, {Remove}) && InsOf(r.value.0.chunks) == TextsWith(items, {Insert})
            && WellFormed(r.value.0.context, r.value.0.chunks)
            && AppliesTo(r.value.0.context, 0, r.value.0.chunks, TextsWith(items, {Keep, Insert}))
  {
    var lines := before + Printed(items) + rest;
    hide *;
    if rest != [] {
      EndsIff(rest[0]);
    }
    PrintedEnds(before, items, rest);
    PrintedSays(items);
    HunkReads(lines, |before|);
    HunkSaysLines(lines, |before|);
    SaysAll(Printed(items), HunkAt(lines, |before|).value.0);
  }

  lemma SaysAll(body: seq<string>, h: Hunk)
    requires SaysHunk(body, h)
    ensures h.context == OldTexts(body) && WellFormed(h.context, h.chunks)
    ensures InsOf(h.chunks) == PlusTexts(body) && DelOf(h.chunks) == MinusTexts(body)
    ensures AppliesTo(h.context, 0, h.chunks, NewTexts(body))
  {
    hide WellFormed, AppliesTo;
  }
}
