/** What it means for lines to match: at each level of the search, in terms of the lines alone. */
module Matching {
  import opened Numbers
  import opened Lines
  import opened Anchor
  import opened BlockSearch
  import Levenshtein

  // ---- What trimming leaves ----

  predicate AllSpace(s: string) { forall k | 0 <= k < |s| :: IsSpace(s[k]) }

  /** t is s without all the space at its end. */
  predicate EndsAt(s: string, t: string)
  {
    t <= s && AllSpace(s[|t|..]) && (t != "" ==> !IsSpace(t[|t| - 1]))
  }

  /** t is s without all the space at its start. */
  predicate StartsAt(s: string, t: string)
  {
    && |t| <= |s| && s[|s| - |t|..] == t && AllSpace(s[..|s| - |t|])
    && (t != "" ==> !IsSpace(t[0]))
  }

  /** t stands in s with nothing but space around it. */
  ghost predicate Around(s: string, a: string, t: string, b: string)
  {
    s == a + t + b && AllSpace(a) && AllSpace(b)
  }

  ghost predicate StandsIn(s: string, t: string) { exists a, b :: Around(s, a, t, b) }

  /** t is s without all the space around it. */
  ghost predicate Inner(s: string, t: string)
  {
    StandsIn(s, t) && (t != "" ==> !IsSpace(t[0]) && !IsSpace(t[|t| - 1]))
  }

  lemma SpaceConcat(x: string, y: string)
    ensures AllSpace(x + y) <==> AllSpace(x) && AllSpace(y)
  {
    assert AllSpace(x + y) ==> forall k | 0 <= k < |x| :: (x + y)[k] == x[k] && IsSpace(x[k]);
    assert AllSpace(x + y) ==> forall k | 0 <= k < |y| :: (x + y)[|x| + k] == y[k];
  }

  lemma {:induction false} TrimEndIs(s: string)
    ensures EndsAt(s, TrimEnd(s))
    decreases |s|
  {
    if s != "" && IsSpace(s[|s| - 1]) {
      var init, last := s[..|s| - 1], [s[|s| - 1]];
      TrimEndIs(init);
      var r := TrimEnd(init);
      assert s[|r|..] == init[|r|..] + last;
      SpaceConcat(init[|r|..], last);
    }
  }

  lemma {:induction false} TrimStartIs(s: string)
    ensures StartsAt(s, TrimStart(s))
    decreases |s|
  {
    if s != "" && IsSpace(s[0]) {
      var first, rest := [s[0]], s[1..];
      TrimStartIs(rest);
      var r := TrimStart(rest);
      assert s[|s| - |r|..] == rest[|rest| - |r|..];
      assert s[..|s| - |r|] == first + rest[..|rest| - |r|];
      SpaceConcat(first, rest[..|rest| - |r|]);
    }
  }

  /** Only one text is what trimming leaves. */
  lemma EndsOnce(s: string, t: string, u: string)
    requires EndsAt(s, t) && EndsAt(s, u)
    ensures t == u
  {
    EndsNotAfter(s, t, u);
    EndsNotAfter(s, u, t);
    assert t == s[..|t|] && u == s[..|u|];
  }

  lemma EndsNotAfter(s: string, t: string, u: string)
    requires EndsAt(s, t) && EndsAt(s, u)
    ensures |u| <= |t|
  {
  }

  lemma TrimIs(s: string)
    ensures Inner(s, Trim(s))
  {
    TrimEndIs(s);
    var e := TrimEnd(s);
    TrimStartIs(e);
    var t := Trim(s);
    var a, b := e[..|e| - |t|], s[|e|..];
    assert e == a + t;
    assert Around(s, a, t, b);
    if t != "" {
      assert e[|e| - 1] == t[|t| - 1];
    }
  }

  lemma NotAllSpace(s: string, a: string, t: string, b: string)
    requires s == a + t + b && t != "" && !IsSpace(t[0])
    ensures !AllSpace(s)
  {
    assert s[|a|] == t[0];
  }

  lemma AllSpaceAround(s: string, a: string, b: string)
    requires Around(s, a, "", b)
    ensures AllSpace(s)
  {
    SpaceConcat(a + "", b);
  }

  lemma SameStart(s: string, a: string, t: string, b: string, c: string, u: string, d: string)
    requires Around(s, a, t, b) && Around(s, c, u, d) && t != "" && !IsSpace(t[0])
    ensures |c| <= |a|
  {
    assert s[|a|] == t[0];
  }

  lemma SameEnd(s: string, a: string, t: string, b: string, c: string, u: string, d: string)
    requires Around(s, a, t, b) && Around(s, c, u, d) && t != "" && !IsSpace(t[|t| - 1])
    ensures |d| <= |b|
  {
    var last := |a| + |t| - 1;
    assert s[last] == t[|t| - 1];
  }

  /** Only one text is what trimming leaves. */
  lemma InnerOnce(s: string, t: string, u: string)
    requires Inner(s, t) && Inner(s, u)
    ensures t == u
  {
    var a, b :| Around(s, a, t, b);
    var c, d :| Around(s, c, u, d);
    hide AllSpace, IsSpace;
    if t == "" {
      AllSpaceAround(s, a, b);
      if u != "" {
        NotAllSpace(s, c, u, d);
      }
    } else if u == "" {
      AllSpaceAround(s, c, d);
      NotAllSpace(s, a, t, b);
    } else {
      SameStart(s, a, t, b, c, u, d);
      SameStart(s, c, u, d, a, t, b);
      SameEnd(s, a, t, b, c, u, d);
      SameEnd(s, c, u, d, a, t, b);
      assert t == s[|a|..|s| - |b|] && u == s[|c|..|s| - |d|];
    }
  }

  // ---- Lines that agree ----

  predicate Leads(s: string, t: string) { t <= s && AllSpace(s[|t|..]) }

  /** The lines are one text with space behind it. */
  ghost predicate AgreeToTheEnd(x: string, y: string) { exists t :: Leads(x, t) && Leads(y, t) }

  /** The lines are one text with space around it. */
  ghost predicate AgreeInside(x: string, y: string) { exists t :: StandsIn(x, t) && StandsIn(y, t) }

  lemma LeadTrims(s: string, t: string)
    requires Leads(s, t)
    ensures TrimEnd(s) == TrimEnd(t)
  {
    TrimEndIs(s);
    TrimEndIs(t);
    var r := TrimEnd(t);
    assert s[|r|..] == t[|r|..] + s[|t|..];
    SpaceConcat(t[|r|..], s[|t|..]);
    EndsOnce(s, TrimEnd(s), r);
  }

  lemma AgreeToTheEndIff(x: string, y: string)
    ensures AgreeToTheEnd(x, y) <==> TrimEnd(x) == TrimEnd(y)
  {
    TrimEndIs(x);
    TrimEndIs(y);
    hide TrimEnd, AllSpace, IsSpace;
    if AgreeToTheEnd(x, y) {
      var t :| Leads(x, t) && Leads(y, t);
      LeadTrims(x, t);
      LeadTrims(y, t);
    }
    if TrimEnd(x) == TrimEnd(y) {
      assert Leads(x, TrimEnd(x)) && Leads(y, TrimEnd(x));
    }
  }

  lemma StandsInTrims(s: string, t: string)
    requires StandsIn(s, t)
    ensures Trim(s) == Trim(t)
  {
    TrimIs(s);
    TrimIs(t);
    hide Trim, AllSpace, IsSpace;
    var r := Trim(t);
    var a, b :| Around(s, a, t, b);
    var c, d :| Around(t, c, r, d);
    SpaceConcat(a, c);
    SpaceConcat(d, b);
    assert s == (a + c) + r + (d + b);
    assert Around(s, a + c, r, d + b);
    InnerOnce(s, Trim(s), r);
  }

  lemma AgreeInsideIff(x: string, y: string)
    ensures AgreeInside(x, y) <==> Trim(x) == Trim(y)
  {
    TrimIs(x);
    TrimIs(y);
    hide Trim, StandsIn;
    if AgreeInside(x, y) {
      var t :| StandsIn(x, t) && StandsIn(y, t);
      StandsInTrims(x, t);
      StandsInTrims(y, t);
    }
  }

  /** What a line must have in common with the line of the block. */
  ghost predicate Agree(level: Level, x: string, y: string)
  {
    match level
    case TrailingSpace => AgreeToTheEnd(x, y)
    case OuterSpace => AgreeInside(x, y)
    case _ => x == y
  }

  // ---- Windows that match ----

  ghost predicate Injective(canon: Canon) { forall x, y :: canon(x) == canon(y) ==> x == y }

  ghost predicate OneLined(lines: seq<string>) { forall k | 0 <= k < |lines| :: NoLf(lines[k]) }

  /** Line by line, the block agrees with the lines from i on. */
  ghost predicate AgreesAt(level: Level, lines: seq<string>, context: seq<string>, i: nat)
    requires i + |context| <= |lines|
  {
    forall k | 0 <= k < |context| :: Agree(level, lines[i + k], context[k])
  }

  function Seen(level: Level, line: string): string
  {
    match level case TrailingSpace => TrimEnd(line) case OuterSpace => Trim(line) case _ => line
  }

  lemma SeenIff(level: Level, x: string, y: string)
    ensures Agree(level, x, y) <==> Seen(level, x) == Seen(level, y)
  {
    AgreeToTheEndIff(x, y);
    AgreeInsideIff(x, y);
    hide AgreeInside, AgreeToTheEnd, TrimEnd, Trim;
  }

  lemma ViewIs(level: Level, lines: seq<string>)
    ensures |View(level, lines)| == |lines| && forall k | 0 <= k < |lines| :: View(level, lines)[k] == Seen(level, lines[k])
  {
    hide TrimEnd, Trim;
  }

  lemma SeenNoLf(level: Level, line: string)
    requires NoLf(line)
    ensures NoLf(Seen(level, line))
  {
    TrimEndIs(line);
    TrimIs(line);
    var a, b :| Around(line, a, Trim(line), b);
    hide Trim, TrimEnd;
    assert forall k | 0 <= k < |Trim(line)| :: Trim(line)[k] == line[|a| + k];
  }

  lemma ViewsAgree(level: Level, window: seq<string>, context: seq<string>)
    requires |window| == |context|
    ensures View(level, window) == View(level, context) <==> AgreesAt(level, window, context, 0)
  {
    ViewIs(level, window);
    ViewIs(level, context);
    hide View, Agree, Seen;
    forall k | 0 <= k < |context| ensures Agree(level, window[k], context[k]) <==> Seen(level, window[k]) == Seen(level, context[k]) {
      SeenIff(level, window[k], context[k]);
    }
    if AgreesAt(level, window, context, 0) {
      forall k | 0 <= k < |context| ensures View(level, window)[k] == View(level, context)[k] {
        assert Agree(level, window[0 + k], context[k]);
      }
    }
    if View(level, window) == View(level, context) {
      forall k | 0 <= k < |context| ensures Agree(level, window[0 + k], context[k]) {
        assert View(level, window)[k] == View(level, context)[k];
      }
    }
  }

  lemma JoinedViews(level: Level, window: seq<string>, context: seq<string>)
    requires context != [] && |window| == |context| && OneLined(window) && OneLined(context)
    requires Join(View(level, window)) == Join(View(level, context))
    ensures View(level, window) == View(level, context)
  {
    ViewIs(level, window);
    ViewIs(level, context);
    hide View, Seen, NoLf, Join;
    forall k | 0 <= k < |context| ensures NoLf(Seen(level, window[k])) && NoLf(Seen(level, context[k])) {
      SeenNoLf(level, window[k]);
      SeenNoLf(level, context[k]);
    }
    SplitJoin(View(level, window));
    SplitJoin(View(level, context));
  }

  /** Lines that agree match, whatever normalisation does; and when it only ever takes equal texts
      to equal ones, the block matches at a level exactly where each of its lines agrees with the
      line of the file: they are equal, equal but for space at the end, or but for space around. */
  lemma MatchesIff(canon: Canon, level: Level, lines: seq<string>, context: seq<string>, i: nat)
    requires level != Similar && context != [] && OneLined(lines) && OneLined(context) && i + |context| <= |lines|
    ensures AgreesAt(level, lines, context, i) ==> Matches(canon, level, lines, context, i)
    ensures Injective(canon) && Matches(canon, level, lines, context, i) ==> AgreesAt(level, lines, context, i)
  {
    var window := lines[i..i + |context|];
    assert Window(lines, context, i) == window;
    ViewsAgree(level, window, context);
    assert AgreesAt(level, window, context, 0) <==> AgreesAt(level, lines, context, i) by {
      hide Agree;
      assert forall k | 0 <= k < |context| :: window[k] == lines[i + k];
      if AgreesAt(level, lines, context, i) {
        forall k | 0 <= k < |context| ensures Agree(level, window[0 + k], context[k]) {
          assert Agree(level, lines[i + k], context[k]);
        }
      }
      if AgreesAt(level, window, context, 0) {
        forall k | 0 <= k < |context| ensures Agree(level, lines[i + k], context[k]) {
          assert Agree(level, window[0 + k], context[k]);
        }
      }
    }
    assert OneLined(window) by {
      hide NoLf;
    }
    hide View, Join, AgreesAt, OneLined;
    if Injective(canon) && Matches(canon, level, lines, context, i) {
      JoinedViews(level, window, context);
    }
  }

  lemma MatchesByScore(canon: Canon, lines: seq<string>, context: seq<string>, i: nat)
    requires i + |context| <= |lines|
    ensures Matches(canon, Similar, lines, context, i) <==>
            Levenshtein.Similarity(canon(Join(lines[i..i + |context|])), canon(Join(context))) >= THRESHOLD
  {
    assert Window(lines, context, i) == lines[i..i + |context|];
    hide Levenshtein.Similarity, Join;
  }

  /** By likeness it matches exactly where a cheapest edit of the joined texts leaves at least the
      threshold's share of the longer one alone. */
  lemma SimilarIff(canon: Canon, lines: seq<string>, context: seq<string>, i: nat, d: nat)
    requires i + |context| <= |lines|
    requires Levenshtein.IsEditDistance(d, canon(Join(lines[i..i + |context|])), canon(Join(context)))
    ensures var n := Max(|canon(Join(lines[i..i + |context|]))|, |canon(Join(context))|);
            Matches(canon, Similar, lines, context, i) <==> n == 0 || n as real - d as real >= 0.66 * n as real
  {
    hide *;
    var x, y := canon(Join(lines[i..i + |context|])), canon(Join(context));
    MatchesByScore(canon, lines, context, i);
    Levenshtein.SimilarityIsShare(x, y, d);
    AtLeastShare(Levenshtein.Similarity(x, y), Max(|x|, |y|), d);
  }

  lemma AtLeastShare(s: real, n: nat, d: nat)
    requires if n == 0 then s == 1.0 else s * n as real == n as real - d as real
    ensures s >= THRESHOLD <==> n == 0 || n as real - d as real >= 0.66 * n as real
  {
    if n > 0 {
      ScaledBy(s, 0.66, n as real);
    }
  }

  lemma ScaledBy(s: real, t: real, n: real)
    requires n > 0.0
    ensures s >= t <==> s * n >= t * n
  {
    assert (s - t) * n == s * n - t * n;
    if s >= t {
      assert (s - t) * n >= 0.0;
    } else {
      assert (t - s) * n > 0.0;
    }
  }

  /** A window that the end of the file cuts short matches the block only by likeness. */
  lemma ShortWindowNever(canon: Canon, level: Level, lines: seq<string>, context: seq<string>, i: nat)
    requires level != Similar && context != [] && OneLined(lines) && OneLined(context) && Injective(canon)
    requires i < |lines| < i + |context|
    ensures !MatchesAt(canon, level, lines, context, i)
  {
    assert WindowAt(lines, context, i) == lines[i..];
    ShortViews(level, lines[i..], context);
    hide View, Join, NoLf;
  }

  lemma ShortViews(level: Level, window: seq<string>, context: seq<string>)
    requires window != [] && |window| < |context| && OneLined(window) && OneLined(context)
    ensures Join(View(level, window)) != Join(View(level, context))
  {
    ViewIs(level, window);
    ViewIs(level, context);
    hide View, Seen, NoLf, Join;
    forall k | 0 <= k < |window| ensures NoLf(Seen(level, window[k])) {
      SeenNoLf(level, window[k]);
    }
    forall k | 0 <= k < |context| ensures NoLf(Seen(level, context[k])) {
      SeenNoLf(level, context[k]);
    }
    SplitJoin(View(level, window));
    SplitJoin(View(level, context));
  }

  /** Inside the file, both searches mean the same. */
  lemma BothSearches(canon: Canon, level: Level, lines: seq<string>, context: seq<string>, i: nat)
    requires i + |context| <= |lines|
    ensures MatchesAt(canon, level, lines, context, i) <==> Matches(canon, level, lines, context, i)
  {
    assert WindowAt(lines, context, i) == Window(lines, context, i);
    hide View, Join, Levenshtein.Similarity, WindowAt;
  }

  lemma TrimTwice(s: string)
    ensures Trim(Trim(s)) == Trim(s)
  {
    TrimIs(s);
    hide Trim;
    StandsInTrims(s, Trim(s));
  }
}
