/** Byte strings: searching for a token, and streams that deliver a body in pieces. */
module Bytes {
  import opened Wrappers

  newtype byte = b: int | 0 <= b < 256

  predicate Occurs(s: seq<byte>, pat: seq<byte>, i: int)
  {
    0 <= i && i + |pat| <= |s| && s[i..i + |pat|] == pat
  }

  ghost predicate NoneIn(s: seq<byte>, pat: seq<byte>, lo: int, hi: int)
  {
    forall i | lo <= i < hi :: !Occurs(s, pat, i)
  }

  /** The first occurrence at or after from. */
  function Find(s: seq<byte>, pat: seq<byte>, from: nat): Option<nat>
    decreases |s| - from
  {
    if from + |pat| > |s| then None
    else if s[from..from + |pat|] == pat then Some(from)
    else Find(s, pat, from + 1)
  }

  lemma {:induction false} FindIs(s: seq<byte>, pat: seq<byte>, from: nat)
    ensures var r := Find(s, pat, from);
            && (r.Some? ==> from <= r.value && Occurs(s, pat, r.value) && NoneIn(s, pat, from, r.value))
            && (r.None? ==> NoneIn(s, pat, from, |s| + 1))
    decreases |s| - from
  {
    if from + |pat| <= |s| && s[from..from + |pat|] != pat {
      FindIs(s, pat, from + 1);
    }
  }

  lemma FoundFirst(s: seq<byte>, pat: seq<byte>, from: nat, at: nat)
    requires from <= at && Occurs(s, pat, at) && NoneIn(s, pat, from, at)
    ensures Find(s, pat, from) == Some(at)
  {
    FindIs(s, pat, from);
  }

  lemma OccursInPrefix(s: seq<byte>, t: seq<byte>, pat: seq<byte>, i: int)
    ensures Occurs(s, pat, i) ==> Occurs(s + t, pat, i)
    ensures Occurs(s + t, pat, i) && i + |pat| <= |s| ==> Occurs(s, pat, i)
  {
    if 0 <= i && i + |pat| <= |s| {
      assert (s + t)[i..i + |pat|] == s[i..i + |pat|];
    }
  }

  lemma OccursBehind(s: seq<byte>, t: seq<byte>, pat: seq<byte>, i: nat)
    ensures Occurs(s + t, pat, |s| + i) <==> Occurs(t, pat, i)
  {
    if i + |pat| <= |t| {
      assert (s + t)[|s| + i..|s| + i + |pat|] == t[i..i + |pat|];
    }
  }

  lemma OccursDropped(s: seq<byte>, pat: seq<byte>, n: nat, i: nat)
    requires n <= |s|
    ensures Occurs(s[n..], pat, i) <==> Occurs(s, pat, n + i)
  {
    assert s == s[..n] + s[n..];
    OccursBehind(s[..n], s[n..], pat, i);
  }

  /** What the first bytes hold decides the search if the token is found there. */
  lemma FindInPrefix(s: seq<byte>, t: seq<byte>, pat: seq<byte>, from: nat)
    ensures Find(s, pat, from).Some? ==> Find(s + t, pat, from) == Find(s, pat, from)
    ensures Find(s, pat, from).None? ==> NoneIn(s + t, pat, from, |s| - |pat| + 1)
  {
    FindIs(s, pat, from);
    if Find(s, pat, from).Some? {
      var at := Find(s, pat, from).value;
      OccursInPrefix(s, t, pat, at);
      forall i | from <= i < at ensures !Occurs(s + t, pat, i) {
        OccursInPrefix(s, t, pat, i);
      }
      FoundFirst(s + t, pat, from, at);
    } else {
      forall i | from <= i < |s| - |pat| + 1 ensures !Occurs(s + t, pat, i) {
        OccursInPrefix(s, t, pat, i);
      }
    }
  }

  /** Dropping bytes among which no occurrence starts moves the first occurrence up. */
  lemma FindDropped(s: seq<byte>, pat: seq<byte>, n: nat)
    requires n <= |s| && NoneIn(s, pat, 0, n)
    ensures Find(s, pat, 0).Some? <==> Find(s[n..], pat, 0).Some?
    ensures Find(s, pat, 0).Some? ==> Find(s, pat, 0).value == n + Find(s[n..], pat, 0).value
  {
    FindIs(s, pat, 0);
    FindIs(s[n..], pat, 0);
    if Find(s, pat, 0).Some? {
      OccursDropped(s, pat, n, Find(s, pat, 0).value - n);
    }
    if Find(s[n..], pat, 0).Some? {
      var at := Find(s[n..], pat, 0).value;
      OccursDropped(s, pat, n, at);
      forall i | 0 <= i < n + at ensures !Occurs(s, pat, i) {
        if n <= i {
          OccursDropped(s, pat, n, i - n);
        }
      }
      FoundFirst(s, pat, 0, n + at);
    }
  }

  /** The token right behind x is the first one also when more follows. */
  lemma FindDelimited(x: seq<byte>, pat: seq<byte>, rest: seq<byte>)
    requires Find(x + pat, pat, 0) == Some(|x|)
    ensures Find(x + pat + rest, pat, 0) == Some(|x|)
  {
    FindInPrefix(x + pat, rest, pat, 0);
  }

  /** Cutting x + (y + z) within y. */
  lemma CutInMiddle(x: seq<byte>, y: seq<byte>, z: seq<byte>, i: nat)
    requires i <= |y|
    ensures (x + (y + z))[..|x| + i] == x + y[..i]
    ensures (x + (y + z))[|x| + i..] == y[i..] + z
    ensures x + (y + z) == (x + y[..i]) + (y[i..] + z)
  {
    assert y == y[..i] + y[i..];
  }

  function Flatten(pieces: seq<seq<byte>>): seq<byte>
  {
    if pieces == [] then [] else pieces[0] + Flatten(pieces[1..])
  }

  lemma {:induction false} FlattenSnoc(pieces: seq<seq<byte>>, last: seq<byte>)
    ensures Flatten(pieces + [last]) == Flatten(pieces) + last
  {
    if pieces == [] {
      assert [] + [last] == [last] && [last][1..] == [];
    } else {
      FlattenSnoc(pieces[1..], last);
      assert (pieces + [last])[1..] == pieces[1..] + [last];
    }
  }

  const CR: byte := 13
  const CRLF: seq<byte> := [13, 10]
  const DASHES: seq<byte> := [45, 45]

  /** The most that one read of a stream delivers. */
  const READ_CHUNK: nat := 64 * 1024

  predicate WellRead(incoming: seq<seq<byte>>)
  {
    forall k | 0 <= k < |incoming| :: 0 < |incoming[k]| <= READ_CHUNK
  }

  /** All reads but the last one are full, as from a file. */
  predicate FullReads(incoming: seq<seq<byte>>)
  {
    forall k | 0 <= k < |incoming| - 1 :: |incoming[k]| == READ_CHUNK
  }
}
