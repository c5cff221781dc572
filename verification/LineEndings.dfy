/** Working on a file's lines with LF alone, and giving the result the file's own line ends. */
module LineEndings {
  import opened Lines

  const CRLF := [CR, LF]

  /** Any CR LF anywhere makes it a CR LF file. */
  predicate HasCrlf(s: string) { exists i :: 0 <= i < |s| - 1 && s[i] == CR && s[i + 1] == LF }

  function JoinWith(sep: string, lines: seq<string>): string
  {
    if lines == [] then "" else if |lines| == 1 then lines[0] else lines[0] + sep + JoinWith(sep, lines[1..])
  }

  /** The text with every line end, of either kind, made the given kind. */
  function Restored(text: string, crlf: bool): string { JoinWith(if crlf then CRLF else [LF], SplitLines(text)) }

  function WithoutCr(line: string): string
  {
    if line != "" && line[|line| - 1] == CR then line[..|line| - 1] else line
  }

  /** One CR less at the end of every line but the last. */
  function LessCr(lines: seq<string>): (r: seq<string>)
    ensures |r| == |lines|
  {
    seq(|lines|, k requires 0 <= k < |lines| => if k < |lines| - 1 then WithoutCr(lines[k]) else lines[k])
  }

  /** One CR more. */
  function MoreCr(lines: seq<string>): (r: seq<string>)
    ensures |r| == |lines|
  {
    seq(|lines|, k requires 0 <= k < |lines| => if k < |lines| - 1 then lines[k] + [CR] else lines[k])
  }

  lemma LessCrCons(line: string, rest: seq<string>)
    requires rest != []
    ensures LessCr([line] + rest) == [WithoutCr(line)] + LessCr(rest)
  {
  }

  lemma ToLfStep(c: char, s: string)
    ensures ToLf([c] + s) == if c == CR && s != "" && s[0] == LF then [LF] + ToLf(s[1..]) else [c] + ToLf(s)
  {
    assert ([c] + s)[1..] == s;
    if s != "" {
      assert ([c] + s)[2..] == s[1..];
    }
  }

  lemma {:induction false} ToLfPiece(line: string, rest: string)
    requires NoLf(line)
    ensures ToLf(line) == line && ToLf(line + ([LF] + rest)) == WithoutCr(line) + ([LF] + ToLf(rest))
    decreases |line|
  {
    hide *;
    EmptyLine();
    if line == "" {
      ToLfStep(LF, rest);
      assert "" + ([LF] + rest) == [LF] + rest;
      assert "" + ([LF] + ToLf(rest)) == [LF] + ToLf(rest);
    } else {
      LineRest(line);
      ToLfPiece(line[1..], rest);
      ToLfStep(line[0], line[1..]);
      ToLfStep(line[0], line[1..] + ([LF] + rest));
      assert line == [line[0]] + line[1..];
      assert line + ([LF] + rest) == [line[0]] + (line[1..] + ([LF] + rest));
      if line[1..] == "" {
        assert line[1..] + ([LF] + rest) == [LF] + rest && ([LF] + rest)[1..] == rest;
        OneChar(line[0], line);
        ToLfStep(LF, rest);
        assert "" + ([LF] + ToLf(rest)) == [LF] + ToLf(rest);
      } else {
        WithoutCrCons(line);
        Assoc([line[0]], WithoutCr(line[1..]), [LF] + ToLf(rest));
        assert (line[1..] + ([LF] + rest))[0] == line[1..][0];
      }
    }
  }

  lemma LineRest(line: string)
    requires NoLf(line) && line != ""
    ensures NoLf(line[1..]) && line[0] != LF && (line[1..] != "" ==> line[1..][0] != LF)
  {
    assert line[1..] != "" ==> line[1..][0] == line[1];
  }

  lemma EmptyLine()
    ensures ToLf("") == "" && WithoutCr("") == "" && CR != LF
  {
  }

  lemma OneChar(c: char, line: string)
    requires line == [c]
    ensures WithoutCr(line) == if c == CR then "" else line
    ensures CR != LF
  {
  }

  lemma WithoutCrCons(line: string)
    requires |line| > 1
    ensures WithoutCr(line) == [line[0]] + WithoutCr(line[1..])
  {
  }

  /** Normalising line ends takes one CR off every line but the last. */
  lemma {:induction false} LinesOfToLf(lines: seq<string>)
    requires lines != [] && forall k | 0 <= k < |lines| :: NoLf(lines[k])
    ensures SplitLf(ToLf(Join(lines))) == LessCr(lines)
    decreases |lines|
  {
    if |lines| == 1 {
      ToLfPiece(lines[0], "");
      SplitPiece(lines[0], "");
    } else {
      LinesOfToLf(lines[1..]);
      ToLfPiece(lines[0], Join(lines[1..]));
      SplitPiece(WithoutCr(lines[0]), ToLf(Join(lines[1..])));
      Assoc(lines[0], [LF], Join(lines[1..]));
      Assoc(WithoutCr(lines[0]), [LF], ToLf(Join(lines[1..])));
      assert lines == [lines[0]] + lines[1..];
      LessCrCons(lines[0], lines[1..]);
    }
  }

  lemma {:induction false} JoinCrlf(lines: seq<string>)
    requires lines != []
    ensures JoinWith(CRLF, lines) == Join(MoreCr(lines))
    decreases |lines|
  {
    if |lines| > 1 {
      JoinCrlf(lines[1..]);
      assert MoreCr(lines)[1..] == MoreCr(lines[1..]);
      assert lines[0] + CRLF + JoinWith(CRLF, lines[1..]) == (lines[0] + [CR]) + [LF] + JoinWith(CRLF, lines[1..]);
    }
  }

  lemma {:induction false} JoinLf(lines: seq<string>)
    ensures JoinWith([LF], lines) == Join(lines)
    decreases |lines|
  {
    if |lines| > 1 {
      JoinLf(lines[1..]);
    }
  }

  lemma LessCrNoLf(lines: seq<string>)
    requires forall k | 0 <= k < |lines| :: NoLf(lines[k])
    ensures forall k | 0 <= k < |lines| :: NoLf(LessCr(lines)[k]) && NoLf(MoreCr(lines)[k])
  {
  }

  /** The lines of a text that was put together from lines and given the file's line ends. */
  lemma RestoredLines(lines: seq<string>, crlf: bool)
    requires lines != [] && forall k | 0 <= k < |lines| :: NoLf(lines[k])
    ensures SplitLf(Restored(Join(lines), crlf)) == if crlf then MoreCr(LessCr(lines)) else LessCr(lines)
  {
    LinesOfToLf(lines);
    LessCrNoLf(lines);
    LessCrNoLf(LessCr(lines));
    hide SplitLf, Join, NoLf, LessCr, MoreCr;
    if crlf {
      JoinCrlf(LessCr(lines));
      SplitJoin(MoreCr(LessCr(lines)));
    } else {
      JoinLf(LessCr(lines));
      SplitJoin(LessCr(lines));
    }
  }

  /** Line k of the file ends as the file's line ends do, and would lose nothing. */
  predicate EndsCleanly(line: string, crlf: bool)
  {
    if crlf then line != "" && line[|line| - 1] == CR && (|line| == 1 || line[|line| - 2] != CR)
    else line == "" || line[|line| - 1] != CR
  }

  /** Every line but the last ends in the file's one kind of line end, with no CR before it. */
  predicate Uniform(content: string)
  {
    var lines := SplitLf(content);
    forall k | 0 <= k < |lines| - 1 :: EndsCleanly(lines[k], HasCrlf(content))
  }

  predicate EndsWithCr(line: string) { line != "" && line[|line| - 1] == CR }

  ghost predicate SomeCrLine(lines: seq<string>) { exists k :: 0 <= k < |lines| - 1 && EndsWithCr(lines[k]) }

  lemma {:induction false} CrlfInLines(content: string)
    ensures HasCrlf(content) <==> SomeCrLine(SplitLf(content))
    decreases |content|
  {
    if content != "" {
      var c, rest := content[0], content[1..];
      CrlfInLines(rest);
      var r := SplitLf(rest);
      assert HasCrlf(content) <==> HasCrlf(rest) || (c == CR && rest != "" && rest[0] == LF) by {
        if HasCrlf(content) {
          var i :| 0 <= i < |content| - 1 && content[i] == CR && content[i + 1] == LF;
          if i > 0 {
            assert rest[i - 1] == CR && rest[i] == LF;
          }
        }
        if HasCrlf(rest) {
          var i :| 0 <= i < |rest| - 1 && rest[i] == CR && rest[i + 1] == LF;
          assert content[i + 1] == CR && content[i + 2] == LF;
        }
      }
      CrLineStep(c, rest, r);
    }
  }

  lemma CrLineStep(c: char, rest: string, r: seq<string>)
    requires r == SplitLf(rest)
    ensures SomeCrLine(SplitLf([c] + rest)) <==> SomeCrLine(r) || (c == CR && rest != "" && rest[0] == LF)
  {
    assert ([c] + rest)[1..] == rest;
    var all := SplitLf([c] + rest);
    assert c == LF ==> all == [""] + r;
    assert c != LF ==> all == [[c] + r[0]] + r[1..];
    assert r[0] == "" <==> rest == "" || rest[0] == LF;
    assert |r| > 1 || rest == "" || rest[0] != LF;
    assert rest == "" ==> r == [""];
    hide SplitLf;
    if c == LF {
      CrLineShift(r, all);
    } else {
      CrLineHead(c, r, all);
    }
  }

  lemma CrLineShift(r: seq<string>, all: seq<string>)
    requires all == [""] + r && r != []
    ensures SomeCrLine(all) <==> SomeCrLine(r)
  {
    if SomeCrLine(r) {
      var k :| 0 <= k < |r| - 1 && EndsWithCr(r[k]);
      assert EndsWithCr(all[k + 1]);
    }
    if SomeCrLine(all) {
      var k :| 0 <= k < |all| - 1 && EndsWithCr(all[k]);
      assert EndsWithCr(r[k - 1]);
    }
  }

  lemma CrLineHead(c: char, r: seq<string>, all: seq<string>)
    requires r != [] && all == [[c] + r[0]] + r[1..]
    ensures SomeCrLine(all) <==> SomeCrLine(r) || (c == CR && r[0] == "" && |r| > 1)
  {
    forall k | 0 <= k < |r| ensures EndsWithCr(all[k]) <==> EndsWithCr(r[k]) || (k == 0 && r[0] == "" && c == CR) {
    }
    hide EndsWithCr;
    if SomeCrLine(r) {
      var k :| 0 <= k < |r| - 1 && EndsWithCr(r[k]);
      assert EndsWithCr(all[k]);
    }
    if c == CR && r[0] == "" && |r| > 1 {
      assert EndsWithCr(all[0]);
    }
  }

  /** The lines that the patch is worked out on. */
  function WorkLines(content: string): seq<string> { SplitLf(ToLf(content)) }

  /** A file comes back unchanged exactly when it is uniform: a line end of the other kind is
      made the file's own, and a CR before a line end is lost. */
  lemma RestoredIsSameIff(content: string)
    ensures Restored(ToLf(content), HasCrlf(content)) == content <==> Uniform(content)
  {
    var lines, crlf := SplitLf(content), HasCrlf(content);
    JoinSplit(content);
    LinesOfToLf(lines);
    LessCrNoLf(lines);
    JoinSplit(ToLf(content));
    RestoredLines(LessCr(lines), crlf);
    var back := SplitLf(Restored(ToLf(content), crlf));
    JoinSplit(Restored(ToLf(content), crlf));
    assert Restored(ToLf(content), crlf) == content <==> back == lines;
    CrlfInLines(content);
    hide SplitLf, Join, ToLf, Restored, HasCrlf, NoLf;
    BackIsSame(lines, crlf);
  }

  const MIXED: string := "a\r\nb\nc"

  lemma JoinsMixed()
    ensures Join(["a\r", "b", "c"]) == MIXED && HasCrlf(MIXED)
  {
    assert ["a\r", "b", "c"][1..] == ["b", "c"] && ["b", "c"][1..] == ["c"];
    assert MIXED[1] == CR && MIXED[2] == LF;
  }

  lemma JoinsRestored()
    ensures JoinWith(CRLF, ["a", "b", "c"]) == "a\r\nb\r\nc"
  {
    assert ["a", "b", "c"][1..] == ["b", "c"] && ["b", "c"][1..] == ["c"];
    assert JoinWith(CRLF, ["b", "c"]) == "b" + CRLF + "c";
    assert JoinWith(CRLF, ["a", "b", "c"]) == "a" + CRLF + ("b" + CRLF + "c");
  }

  lemma LessMixed()
    ensures LessCr(["a\r", "b", "c"]) == ["a", "b", "c"] && LessCr(["a", "b", "c"]) == ["a", "b", "c"]
    ensures NoLf("a\r") && NoLf("a") && NoLf("b") && NoLf("c")
  {
    assert "a\r"[..1] == "a";
    assert WithoutCr("a\r") == "a" && WithoutCr("a") == "a" && WithoutCr("b") == "b";
  }

  /** One LF among CR LF becomes CR LF. */
  lemma MixedIsNotRestored()
    ensures HasCrlf(MIXED) && Restored(ToLf(MIXED), true) == "a\r\nb\r\nc" != MIXED
  {
    JoinsMixed();
    LessMixed();
    JoinsRestored();
    LinesOfToLf(["a\r", "b", "c"]);
    LinesOfToLf(["a", "b", "c"]);
    JoinSplit(ToLf(MIXED));
    assert ToLf(MIXED) == Join(["a", "b", "c"]);
    assert SplitLines(ToLf(MIXED)) == SplitLf(ToLf(ToLf(MIXED)));
    hide ToLf, SplitLf, Join, JoinWith, HasCrlf, LessCr, NoLf;
    assert |MIXED| == 6 && |"a\r\nb\r\nc"| == 7;
  }

  lemma BackIsSame(lines: seq<string>, crlf: bool)
    requires crlf <==> SomeCrLine(lines)
    ensures (if crlf then MoreCr(LessCr(LessCr(lines))) else LessCr(LessCr(lines))) == lines <==>
            forall k | 0 <= k < |lines| - 1 :: EndsCleanly(lines[k], crlf)
  {
    var back := if crlf then MoreCr(LessCr(LessCr(lines))) else LessCr(LessCr(lines));
    forall k | 0 <= k < |lines| - 1 ensures back[k] == lines[k] <==> EndsCleanly(lines[k], crlf) {
      assert back[k] == if crlf then WithoutCr(WithoutCr(lines[k])) + [CR] else WithoutCr(WithoutCr(lines[k]));
      assert !crlf ==> !EndsWithCr(lines[k]);
      TwiceWithout(lines[k]);
    }
    assert |lines| > 0 ==> back[|lines| - 1] == lines[|lines| - 1];
    if forall k | 0 <= k < |lines| - 1 :: EndsCleanly(lines[k], crlf) {
      assert forall k | 0 <= k < |lines| :: back[k] == lines[k];
    }
  }

  lemma TwiceWithout(line: string)
    ensures WithoutCr(WithoutCr(line)) + [CR] == line <==> EndsCleanly(line, true)
    ensures !EndsWithCr(line) ==> WithoutCr(WithoutCr(line)) == line && EndsCleanly(line, false)
  {
    if EndsWithCr(line) {
      assert line == line[..|line| - 1] + [CR];
    }
  }
}
