/** The file part's payload as a stream of chunks: bytes are released as soon as they cannot
    belong to the closing delimiter any more. */
module FileStream {
  import opened Bytes

  /** The delimiter and the two bytes behind it that make it a real boundary. */
  function Keep(d: seq<byte>): nat { |d| + 2 }

  /** A delimiter stands at i and is followed by two dashes or a line end. */
  predicate EndsHere(s: seq<byte>, d: seq<byte>, i: int)
  {
    Occurs(s, d, i) && i + Keep(d) <= |s| && s[i + |d|..i + Keep(d)] in {DASHES, CRLF}
  }

  /** The payload's end: the first real boundary. */
  ghost predicate FirstEnd(s: seq<byte>, d: seq<byte>, end: int)
  {
    EndsHere(s, d, end) && forall i | 0 <= i < end :: !EndsHere(s, d, i)
  }

  /** What one round of the search does: the end is found; or a false candidate is skipped;
      or n bytes are released and more must be read. */
  datatype Step = Done(pos: nat) | Skip(from: nat) | Release(n: nat, from: nat)

  function Next(d: seq<byte>, buffer: seq<byte>, from: nat): Step
  {
    var pos := Find(buffer, d, from);
    if pos.Some? then
      if pos.value + Keep(d) <= |buffer| then
        if EndsHere(buffer, d, pos.value) then Done(pos.value) else Skip(pos.value + Keep(d))
      else if pos.value > Keep(d) then Release(pos.value - Keep(d), 0)
      else Release(0, 0)
    else if |buffer| > Keep(d) then Release(|buffer| - Keep(d), 0)
    else Release(0, from)
  }

  lemma NextFits(d: seq<byte>, buffer: seq<byte>, from: nat)
    requires from <= |buffer|
    ensures var s := Next(d, buffer, from);
            && (s.Done? ==> from <= s.pos && s.pos + Keep(d) <= |buffer|)
            && (s.Skip? ==> from < s.from <= |buffer|)
            && (s.Release? ==> s.n + s.from <= |buffer|)
  {
    FindIs(buffer, d, from);
  }

  /** ok is false when the body ends before the payload does. */
  datatype Drained = Drained(out: seq<byte>, ok: bool)

  function Drain(d: seq<byte>, buffer: seq<byte>, incoming: seq<seq<byte>>, from: nat): Drained
    requires from <= |buffer|
    decreases |incoming|, |buffer| - from
  {
    NextFits(d, buffer, from);
    match Next(d, buffer, from)
    case Done(pos) => Drained(buffer[..pos], true)
    case Skip(from') => Drain(d, buffer, incoming, from')
    case Release(n, from') =>
      if incoming == [] then Drained(buffer[..n], false)
      else
        var rest := Drain(d, buffer[n..] + incoming[0], incoming[1..], from');
        Drained(buffer[..n] + rest.out, rest.ok)
  }

  lemma ReleaseBody(buffer: seq<byte>, incoming: seq<seq<byte>>, n: nat)
    requires n <= |buffer| && incoming != []
    ensures var body := buffer + Flatten(incoming);
            (buffer[n..] + incoming[0]) + Flatten(incoming[1..]) == body[n..] && buffer[..n] == body[..n]
  {
    assert Flatten(incoming) == incoming[0] + Flatten(incoming[1..]);
    hide *;
    CutInMiddle([], buffer, Flatten(incoming), n);
    assert [] + (buffer + Flatten(incoming)) == buffer + Flatten(incoming) && [] + buffer[..n] == buffer[..n];
    Regroup(buffer[n..], incoming[0], Flatten(incoming[1..]));
  }

  lemma Regroup(x: seq<byte>, y: seq<byte>, z: seq<byte>)
    ensures (x + y) + z == x + (y + z)
  {
  }

  lemma EndsHereInPrefix(s: seq<byte>, t: seq<byte>, d: seq<byte>, i: int)
    ensures EndsHere(s, d, i) ==> EndsHere(s + t, d, i)
    ensures EndsHere(s + t, d, i) && i + Keep(d) <= |s| ==> EndsHere(s, d, i)
  {
    OccursInPrefix(s, t, d, i);
    if 0 <= i && i + Keep(d) <= |s| {
      assert (s + t)[i + |d|..i + Keep(d)] == s[i + |d|..i + Keep(d)];
    }
  }

  lemma EndsHereDropped(s: seq<byte>, d: seq<byte>, n: nat, i: nat)
    requires n <= |s|
    ensures EndsHere(s[n..], d, i) <==> EndsHere(s, d, n + i)
  {
    OccursDropped(s, d, n, i);
    if n + i + Keep(d) <= |s| {
      assert s[n..][i + |d|..i + Keep(d)] == s[n + i + |d|..n + i + Keep(d)];
    }
  }

  // ---- Whatever comes out is a prefix of the body, cut at a real boundary ----

  lemma {:induction false} DrainIsSound(d: seq<byte>, buffer: seq<byte>, incoming: seq<seq<byte>>, from: nat)
    requires from <= |buffer|
    ensures var body, r := buffer + Flatten(incoming), Drain(d, buffer, incoming, from);
            r.out <= body && (r.ok ==> EndsHere(body, d, |r.out|))
    decreases |incoming|, |buffer| - from
  {
    NextFits(d, buffer, from);
    var body := buffer + Flatten(incoming);
    match Next(d, buffer, from)
    case Done(pos) =>
      DoneEnds(d, buffer, from, pos);
      EndsHereInPrefix(buffer, Flatten(incoming), d, pos);
    case Skip(from') =>
      DrainIsSound(d, buffer, incoming, from');
    case Release(n, from') =>
      if incoming != [] {
        var rest := Drain(d, buffer[n..] + incoming[0], incoming[1..], from');
        ReleaseBody(buffer, incoming, n);
        DrainIsSound(d, buffer[n..] + incoming[0], incoming[1..], from');
        hide Drain, Next, EndsHere;
        JoinPrefix(body, n, rest.out);
        if rest.ok {
          EndsHereDropped(body, d, n, |rest.out|);
        }
      }
  }

  lemma DoneEnds(d: seq<byte>, buffer: seq<byte>, from: nat, pos: nat)
    requires Next(d, buffer, from) == Done(pos)
    ensures EndsHere(buffer, d, pos)
  {
  }

  lemma JoinPrefix(body: seq<byte>, n: nat, out: seq<byte>)
    requires n <= |body| && out <= body[n..]
    ensures body[..n] + out <= body && |body[..n] + out| == n + |out|
  {
    assert body == body[..n] + body[n..];
  }

  // ---- When the payload comes out whole ----

  /** A false candidate close enough before the end that skipping it skips the end. */
  ghost predicate Shadowed(s: seq<byte>, d: seq<byte>, end: int)
  {
    exists f :: end - Keep(d) < f < end && Occurs(s, d, f)
  }

  lemma NextTowardsEnd(d: seq<byte>, buffer: seq<byte>, coming: seq<byte>, from: nat, end: nat)
    requires from <= |buffer| && from <= end
    requires FirstEnd(buffer + coming, d, end) && !Shadowed(buffer + coming, d, end)
    ensures var s := Next(d, buffer, from);
            && (s.Done? ==> s.pos == end)
            && (s.Skip? ==> s.from <= end)
            && (s.Release? ==> s.n + s.from <= end && end + Keep(d) > |buffer|)
  {
    var body := buffer + coming;
    FindIs(buffer, d, from);
    OccursInPrefix(buffer, coming, d, end);
    EndsHereInPrefix(buffer, coming, d, end);
    var p := Find(buffer, d, from);
    if p.Some? {
      OccursInPrefix(buffer, coming, d, p.value);
      EndsHereInPrefix(buffer, coming, d, p.value);
    }
  }

  lemma FirstEndDropped(s: seq<byte>, d: seq<byte>, n: nat, end: nat)
    requires n <= end && FirstEnd(s, d, end) && !Shadowed(s, d, end)
    ensures FirstEnd(s[n..], d, end - n) && !Shadowed(s[n..], d, end - n)
  {
    EndsHereDropped(s, d, n, end - n);
    forall i | 0 <= i < end - n ensures !EndsHere(s[n..], d, i) {
      EndsHereDropped(s, d, n, i);
    }
    forall f | end - n - Keep(d) < f < end - n ensures !Occurs(s[n..], d, f) {
      if 0 <= f {
        OccursDropped(s, d, n, f);
      }
    }
  }

  lemma {:induction false} DrainReachesEnd(
    d: seq<byte>, buffer: seq<byte>, incoming: seq<seq<byte>>, from: nat, end: nat)
    requires from <= |buffer| && from <= end
    requires FirstEnd(buffer + Flatten(incoming), d, end) && !Shadowed(buffer + Flatten(incoming), d, end)
    ensures Drain(d, buffer, incoming, from) == Drained((buffer + Flatten(incoming))[..end], true)
    decreases |incoming|, |buffer| - from
  {
    var body := buffer + Flatten(incoming);
    NextFits(d, buffer, from);
    NextTowardsEnd(d, buffer, Flatten(incoming), from, end);
    hide FirstEnd, Shadowed, Next;
    match Next(d, buffer, from)
    case Done(pos) =>
      assert buffer[..pos] == body[..pos];
    case Skip(from') =>
      DrainReachesEnd(d, buffer, incoming, from', end);
    case Release(n, from') =>
      if incoming == [] {
        EndFits(body, d, end);
      } else {
        ReleaseBody(buffer, incoming, n);
        FirstEndDropped(body, d, n, end);
        DrainReachesEnd(d, buffer[n..] + incoming[0], incoming[1..], from', end - n);
        EndFits(body, d, end);
        JoinCut(body, n, end);
      }
  }

  lemma EndFits(body: seq<byte>, d: seq<byte>, end: nat)
    requires FirstEnd(body, d, end)
    ensures end + Keep(d) <= |body|
  {
  }

  lemma JoinCut(body: seq<byte>, n: nat, end: nat)
    requires n <= end <= |body|
    ensures body[..n] + body[n..][..end - n] == body[..end]
  {
  }

  // ---- When it cannot ----

  /** A delimiter starts with CR and has no other one, as any boundary without CR gives. */
  ghost predicate OneCr(d: seq<byte>)
  {
    |d| >= 4 && d[..2] == CRLF && forall k | 1 <= k < |d| :: d[k] != CR
  }

  lemma NoOverlap(s: seq<byte>, d: seq<byte>, i: int, j: int)
    requires OneCr(d) && Occurs(s, d, i) && Occurs(s, d, j) && i < j
    ensures i + |d| <= j
  {
    if j < i + |d| {
      OccursAt(s, d, j, 0);
      OccursAt(s, d, i, j - i);
    }
  }

  lemma OccursAt(s: seq<byte>, d: seq<byte>, i: int, k: nat)
    requires Occurs(s, d, i) && k < |d|
    ensures s[i + k] == d[k]
  {
    assert s[i + k] == s[i..i + |d|][k];
  }

  /** A candidate that touches the next delimiter is a real boundary: a line end follows it. */
  lemma TouchingEnds(s: seq<byte>, d: seq<byte>, f: int)
    requires OneCr(d) && Occurs(s, d, f) && Occurs(s, d, f + |d|)
    ensures EndsHere(s, d, f)
  {
    assert s[f + |d|..f + Keep(d)] == s[f + |d|..f + |d| + |d|][..2] == CRLF;
  }

  /** The only candidate that can shadow the end stands one byte before touching it. */
  lemma ShadowIsOneByteOff(s: seq<byte>, d: seq<byte>, end: int)
    requires OneCr(d) && FirstEnd(s, d, end)
    ensures Shadowed(s, d, end) <==> Occurs(s, d, end - |d| - 1)
  {
    if f :| end - Keep(d) < f < end && Occurs(s, d, f) {
      NoOverlap(s, d, f, end);
      if f == end - |d| {
        TouchingEnds(s, d, f);
      }
    }
  }

  /** Past the end: once the search starts behind it and all later reads are long, or none is
      left, the stream does not end there any more. */
  lemma {:induction false} PastEnd(d: seq<byte>, buffer: seq<byte>, incoming: seq<seq<byte>>, from: nat, end: nat)
    requires end < Keep(d) <= from <= |buffer| && 2 * Keep(d) <= READ_CHUNK
    requires incoming == [] || |buffer| == Keep(d) + READ_CHUNK
    ensures var r := Drain(d, buffer, incoming, from); r.ok ==> |r.out| > end
    decreases |buffer| - from
  {
    NextFits(d, buffer, from);
    if Next(d, buffer, from).Skip? {
      PastEnd(d, buffer, incoming, Next(d, buffer, from).from, end);
    } else {
      FindIs(buffer, d, from);
    }
  }

  /** The buffer ends with a false candidate and its two bytes. */
  ghost predicate Trapped(d: seq<byte>, buffer: seq<byte>, f: nat)
  {
    && |buffer| == f + Keep(d) && Occurs(buffer, d, f)
    && forall i | 0 <= i <= f :: !EndsHere(buffer, d, i)
  }

  lemma TrappedNext(d: seq<byte>, buffer: seq<byte>, f: nat, from: nat)
    requires OneCr(d) && Trapped(d, buffer, f) && from <= |buffer|
    ensures var s := Next(d, buffer, from);
            || s.Skip?
            || (f > 0 && s == Release(f, 0))
            || (f == 0 && from > 0 && s == Release(0, from))
  {
    FindIs(buffer, d, from);
    var p := Find(buffer, d, from);
    if p.Some? && f < p.value {
      NoOverlap(buffer, d, f, p.value);
    }
  }

  lemma FirstStepSkips(d: seq<byte>, x: seq<byte>)
    requires Occurs(x, d, 0) && !EndsHere(x, d, 0) && Keep(d) <= |x|
    ensures Next(d, x, 0) == Skip(Keep(d))
  {
    FindIs(x, d, 0);
  }

  lemma {:induction false} TrappedMisses(
    d: seq<byte>, buffer: seq<byte>, incoming: seq<seq<byte>>, f: nat, from: nat)
    requires OneCr(d) && Trapped(d, buffer, f) && 2 * Keep(d) <= READ_CHUNK
    requires from <= |buffer| && (from == 0 || from >= Keep(d))
    requires incoming != [] && (|incoming[0]| == READ_CHUNK || |incoming| == 1)
    ensures var r := Drain(d, buffer, incoming, from); r.ok ==> |r.out| > f + |d| + 1
    decreases |buffer| - from
  {
    NextFits(d, buffer, from);
    TrappedNext(d, buffer, f, from);
    var s := Next(d, buffer, from);
    if s.Skip? {
      assert s.from >= Keep(d);
      TrappedMisses(d, buffer, incoming, f, s.from);
    } else {
      var x := buffer[f..] + incoming[0];
      TrapMoves(d, buffer, incoming[0], f);
      if f > 0 {
        FirstStepSkips(d, x);
        PastEnd(d, x, incoming[1..], Keep(d), |d| + 1);
        assert Drain(d, x, incoming[1..], 0) == Drain(d, x, incoming[1..], Keep(d));
      } else {
        assert buffer[0..] == buffer;
        PastEnd(d, x, incoming[1..], from, |d| + 1);
      }
    }
  }

  lemma TrapMoves(d: seq<byte>, buffer: seq<byte>, read: seq<byte>, f: nat)
    requires Trapped(d, buffer, f)
    ensures var x := buffer[f..] + read;
            Occurs(x, d, 0) && !EndsHere(x, d, 0) && |x| == Keep(d) + |read|
  {
    OccursDropped(buffer, d, f, 0);
    EndsHereDropped(buffer, d, f, 0);
    OccursInPrefix(buffer[f..], read, d, 0);
    EndsHereInPrefix(buffer[f..], read, d, 0);
  }

  /** A file of these bytes, read to its end in full reads. */
  function InReads(s: seq<byte>): (r: seq<seq<byte>>)
    ensures WellRead(r) && Flatten(r) == s
    ensures s != [] ==> r != [] && (|r[0]| == READ_CHUNK || |r| == 1)
    decreases |s|
  {
    if s == [] then []
    else if |s| <= READ_CHUNK then [s]
    else
      assert s == s[..READ_CHUNK] + s[READ_CHUNK..];
      [s[..READ_CHUNK]] + InReads(s[READ_CHUNK..])
  }

  lemma ShadowTraps(d: seq<byte>, body: seq<byte>, end: nat)
    requires OneCr(d) && FirstEnd(body, d, end) && Occurs(body, d, end - |d| - 1)
    ensures var f := end - |d| - 1;
            f >= 0 && f + Keep(d) < |body| && Trapped(d, body[..f + Keep(d)], f)
  {
    var f := end - |d| - 1;
    var head, tail := body[..f + Keep(d)], body[f + Keep(d)..];
    assert body == head + tail;
    OccursInPrefix(head, tail, d, f);
    forall i | 0 <= i <= f ensures !EndsHere(head, d, i) {
      EndsHereInPrefix(head, tail, d, i);
    }
  }

  /** The stream yields exactly the payload, however the body is split into what is buffered
      already and what the reads bring, if and only if no false candidate stands one byte
      before touching the closing delimiter. */
  lemma StreamIsExactUnlessShadowed(d: seq<byte>, body: seq<byte>, end: nat)
    requires OneCr(d) && 2 * Keep(d) <= READ_CHUNK && FirstEnd(body, d, end)
    ensures (forall buffer, incoming | WellRead(incoming) && buffer + Flatten(incoming) == body ::
               Drain(d, buffer, incoming, 0) == Drained(body[..end], true))
            <==> !Occurs(body, d, end - |d| - 1)
  {
    ShadowIsOneByteOff(body, d, end);
    if Occurs(body, d, end - |d| - 1) {
      ShadowTraps(d, body, end);
      var f := end - |d| - 1;
      var head, tail := body[..f + Keep(d)], body[f + Keep(d)..];
      assert body == head + tail;
      var incoming := InReads(tail);
      TrappedMisses(d, head, incoming, f, 0);
      assert WellRead(incoming) && head + Flatten(incoming) == body;
      assert Drain(d, head, incoming, 0) != Drained(body[..end], true);
    } else {
      forall buffer: seq<byte>, incoming | WellRead(incoming) && buffer + Flatten(incoming) == body
        ensures Drain(d, buffer, incoming, 0) == Drained(body[..end], true)
      {
        DrainReachesEnd(d, buffer, incoming, 0, end);
      }
    }
  }

  const BOUNDARY: seq<byte> := [13, 10, 45, 45, 98]

  /** The delimiter, one more byte, and then the real end. */
  const SHADOWED: seq<byte> := BOUNDARY + [120] + BOUNDARY + DASHES

  lemma ShadowedOccurs(i: nat)
    requires i <= |SHADOWED|
    ensures Occurs(SHADOWED, BOUNDARY, i) <==> i == 0 || i == 6
  {
    if i + 5 <= |SHADOWED| {
      assert SHADOWED[i..i + 5][0] == SHADOWED[i] && SHADOWED[i..i + 5][4] == SHADOWED[i + 4];
      assert SHADOWED[0..5] == BOUNDARY && SHADOWED[6..11] == BOUNDARY;
    }
  }

  /** A payload that ends in the delimiter and one more byte, all of it read at once: its end is
      skipped, and the stream fails. */
  lemma ShadowedFails()
    ensures FirstEnd(SHADOWED, BOUNDARY, 6) && Drain(BOUNDARY, SHADOWED, [], 0) == Drained(SHADOWED[..6], false)
  {
    var s, d := SHADOWED, BOUNDARY;
    forall i: nat | i <= |s| ensures Occurs(s, d, i) <==> i == 0 || i == 6 {
      ShadowedOccurs(i);
    }
    assert s[5..7] == [120, 13] && s[11..13] == DASHES;
    hide Occurs, Find, Drain;
    FindIs(s, d, 0);
    FindIs(s, d, 7);
    assert Next(d, s, 0) == Skip(7);
    assert Next(d, s, 7) == Release(6, 0);
    DrainSkips(d, s, 7);
    DrainEnds(d, s, 7, 6);
  }

  lemma DrainSkips(d: seq<byte>, s: seq<byte>, from: nat)
    requires Next(d, s, 0) == Skip(from) && from <= |s|
    ensures Drain(d, s, [], 0) == Drain(d, s, [], from)
  {
    hide Next;
  }

  lemma DrainEnds(d: seq<byte>, s: seq<byte>, from: nat, n: nat)
    requires from <= |s| && n <= |s| && Next(d, s, from) == Release(n, 0)
    ensures Drain(d, s, [], from) == Drained(s[..n], false)
  {
    hide Next;
  }
}
