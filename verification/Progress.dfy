/** Merging a task's log lines and the stream of its AI text, both of which arrive in frames that
    may repeat, overlap or skip. */
module Progress {
  import opened Wrappers
  import opened Decimals

  // ---- Characters, their bytes and their code units ----

  /** A character; the surrogates are not characters. */
  type CodePoint = c: nat | c < 0x11_0000 && !(0xD800 <= c < 0xE000) witness 0

  /** Half a character, or a whole one. */
  type Unit = u: nat | u < 0x1_0000 witness 0

  function BytesOf(c: nat): nat { if c < 0x80 then 1 else if c < 0x800 then 2 else if c < 0x1_0000 then 3 else 4 }

  function UnitsOf(c: CodePoint): (r: seq<Unit>)
    ensures |r| == if c < 0x1_0000 then 1 else 2
  {
    if c < 0x1_0000 then [c] else [0xD800 + (c - 0x1_0000) / 0x400, 0xDC00 + (c - 0x1_0000) % 0x400]
  }

  function Units(text: seq<CodePoint>): seq<Unit>
  {
    if text == [] then [] else UnitsOf(text[0]) + Units(text[1..])
  }

  predicate PairAt(s: seq<Unit>) { |s| >= 2 && 0xD800 <= s[0] < 0xDC00 && 0xDC00 <= s[1] < 0xE000 }

  /** The character at the front; half of one that lacks its other half stands for itself. */
  function FirstPoint(s: seq<Unit>): (c: nat)
    requires s != []
    ensures PairAt(s) <==> c > 0xFFFF
  {
    if PairAt(s) then
      var high: int, low: int := s[0], s[1];
      (high - 0xD800) * 0x400 + (low - 0xDC00) + 0x1_0000
    else s[0]
  }

  function Rest(s: seq<Unit>): seq<Unit>
    requires s != []
  {
    if FirstPoint(s) > 0xFFFF then s[2..] else s[1..]
  }

  /** The length in bytes. */
  function ByteLength(s: seq<Unit>): nat
    decreases |s|
  {
    if s == [] then 0 else BytesOf(FirstPoint(s)) + ByteLength(Rest(s))
  }

  function Bytes(text: seq<CodePoint>): nat
  {
    if text == [] then 0 else BytesOf(text[0]) + Bytes(text[1..])
  }

  lemma FrontOfUnits(c: CodePoint, s: seq<Unit>)
    ensures UnitsOf(c) + s != [] && FirstPoint(UnitsOf(c) + s) == c && Rest(UnitsOf(c) + s) == s
  {
    var all := UnitsOf(c) + s;
    if c >= 0x1_0000 {
      var d := c - 0x1_0000;
      assert d / 0x400 * 0x400 + d % 0x400 == d && d / 0x400 < 0x400;
      assert all[2..] == s;
    } else {
      assert all[1..] == s;
    }
  }

  lemma {:induction false} BytesOfUnits(text: seq<CodePoint>)
    ensures ByteLength(Units(text)) == Bytes(text)
    decreases |text|
  {
    if text != [] {
      BytesOfUnits(text[1..]);
      FrontOfUnits(text[0], Units(text[1..]));
      hide UnitsOf, FirstPoint, Rest, BytesOf;
    }
  }

  lemma {:induction false} UnitsConcat(a: seq<CodePoint>, b: seq<CodePoint>)
    ensures Units(a + b) == Units(a) + Units(b) && Bytes(a + b) == Bytes(a) + Bytes(b)
    decreases |a|
  {
    if a == [] {
      assert a + b == b && [] + Units(b) == Units(b);
    } else {
      UnitsConcat(a[1..], b);
      assert (a + b)[1..] == a[1..] + b;
      assert UnitsOf(a[0]) + (Units(a[1..]) + Units(b)) == Units(a) + Units(b);
    }
  }

  lemma {:induction false} AtLeastOneEach(text: seq<CodePoint>)
    ensures Bytes(text) >= |text|
  {
    if text != [] {
      AtLeastOneEach(text[1..]);
    }
  }

  // ---- Appending a chunk ----

  /** What is left of the chunk when whole characters are taken off it, up to skip bytes. */
  function Skipped(s: seq<Unit>, skip: int, off: nat): seq<Unit>
    decreases |s|
  {
    if off >= skip || s == [] then s
    else
      var step := BytesOf(FirstPoint(s));
      if off + step > skip then s else Skipped(Rest(s), skip, off + step)
  }

  datatype Merged = Merged(text: seq<Unit>, cursor: nat)

  /** None drops the chunk. next is where it ends in the stream, in bytes. */
  function Appended(text: seq<Unit>, cursor: nat, chunk: seq<Unit>, next: nat): Option<Merged>
  {
    if next <= cursor && cursor != 0 then None
    else
      var start := next - ByteLength(chunk);
      if cursor == 0 || start > cursor then Some(Merged(chunk, next))
      else Some(Merged(text + Skipped(chunk, cursor - start, 0), next))
  }

  method AppendAiChunk(text: seq<Unit>, cursor: nat, chunk: seq<Unit>, next: nat) returns (r: Option<Merged>)
    ensures r == Appended(text, cursor, chunk, next)
  {
    hide FirstPoint, Rest, ByteLength, BytesOf;
    if next <= cursor && cursor != 0 {
      return None;
    }
    var start := next - ByteLength(chunk);
    if cursor == 0 || start > cursor {
      return Some(Merged(chunk, next));
    }
    var skip := cursor - start;
    var off: nat, rest := 0, chunk;
    while off < skip && |rest| > 0
      invariant Skipped(chunk, skip, 0) == Skipped(rest, skip, off)
      decreases |rest|
    {
      var step := BytesOf(FirstPoint(rest));
      if off + step > skip {
        break;
      }
      off := off + step;
      RestIsShorter(rest);
      rest := Rest(rest);
    }
    return Some(Merged(text + rest, next));
  }

  lemma RestIsShorter(s: seq<Unit>)
    requires s != []
    ensures |Rest(s)| < |s|
  {
  }

  /** Skipping the bytes of whole characters leaves exactly the others. */
  lemma {:induction false} SkipsWhole(a: seq<CodePoint>, b: seq<CodePoint>, off: nat)
    ensures Skipped(Units(a + b), off + Bytes(a), off) == Units(b)
    decreases |a|
  {
    if a == [] {
      assert a + b == b;
    } else {
      var rest := Units(a[1..] + b);
      assert (a + b)[1..] == a[1..] + b;
      assert Units(a + b) == UnitsOf(a[0]) + rest;
      FrontOfUnits(a[0], rest);
      assert BytesOf(a[0]) >= 1;
      SkipsWhole(a[1..], b, off + BytesOf(a[0]));
      hide UnitsOf, FirstPoint, Rest, BytesOf, Units;
    }
  }

  // ---- Chunks of one stream ----

  const AI_TEXT_CAP: nat := 512 * 1024

  /** The last n. */
  function Last<T>(n: nat, s: seq<T>): seq<T> { if |s| <= n then s else s[|s| - n..] }

  lemma LastOfLast<T>(n: nat, x: seq<T>, y: seq<T>)
    ensures Last(n, Last(n, x) + y) == Last(n, x + y)
  {
  }

  /** Characters lo up to hi of the stream. */
  datatype Piece = Piece(lo: nat, hi: nat)

  predicate PieceOf(stream: seq<CodePoint>, p: Piece) { p.lo <= p.hi <= |stream| }

  /** How far, in bytes, the first n characters of the stream reach. */
  function Offset(stream: seq<CodePoint>, n: nat): nat
    requires n <= |stream|
  {
    Bytes(stream[..n])
  }

  lemma OffsetsAscend(stream: seq<CodePoint>, m: nat, n: nat)
    requires m <= n <= |stream|
    ensures Offset(stream, n) == Offset(stream, m) + Bytes(stream[m..n])
    ensures m < n ==> Offset(stream, m) < Offset(stream, n)
  {
    assert stream[..n] == stream[..m] + stream[m..n];
    UnitsConcat(stream[..m], stream[m..n]);
    AtLeastOneEach(stream[m..n]);
  }

  /** The text is the end, as far as the cap allows, of characters from..to of the stream, and
      the cursor is at to. */
  ghost predicate Shows(stream: seq<CodePoint>, text: seq<Unit>, cursor: nat, from: nat, to: nat)
  {
    && from <= to <= |stream| && cursor == Offset(stream, to)
    && text == Last(AI_TEXT_CAP, Units(stream[from..to]))
  }

  /** The text and cursor after one more piece of the stream, capped. */
  function AfterPiece(stream: seq<CodePoint>, m: Merged, p: Piece): Merged
    requires PieceOf(stream, p)
  {
    var r := Appended(m.text, m.cursor, Units(stream[p.lo..p.hi]), Offset(stream, p.hi));
    if r.None? then m else Merged(Last(AI_TEXT_CAP, r.value.text), r.value.cursor)
  }

  /** Where the shown text begins after one more piece: a piece that leaves a gap, or comes when
      nothing was read yet, starts it over. */
  function FromAfter(p: Piece, from: nat, to: nat): nat
  {
    if p.hi <= to && to != 0 then from else if to == 0 || p.lo > to then p.lo else from
  }

  function ToAfter(p: Piece, to: nat): nat { if p.hi <= to && to != 0 then to else p.hi }

  lemma OffsetOrder(stream: seq<CodePoint>, m: nat, n: nat)
    requires m <= |stream| && n <= |stream|
    ensures m <= n <==> Offset(stream, m) <= Offset(stream, n)
    ensures Offset(stream, 0) == 0
  {
    if m <= n {
      OffsetsAscend(stream, m, n);
    } else {
      OffsetsAscend(stream, n, m);
    }
  }

  /** Where a piece starts, worked out from where it ends. */
  lemma PieceStart(stream: seq<CodePoint>, p: Piece)
    requires PieceOf(stream, p)
    ensures Offset(stream, p.hi) - ByteLength(Units(stream[p.lo..p.hi])) == Offset(stream, p.lo)
  {
    BytesOfUnits(stream[p.lo..p.hi]);
    OffsetsAscend(stream, p.lo, p.hi);
  }

  lemma AfterPieceIs(stream: seq<CodePoint>, m: Merged, p: Piece)
    requires PieceOf(stream, p)
    ensures var chunk, next := Units(stream[p.lo..p.hi]), Offset(stream, p.hi);
            AfterPiece(stream, m, p) ==
            if next <= m.cursor && m.cursor != 0 then m
            else if m.cursor == 0 || Offset(stream, p.lo) > m.cursor then Merged(Last(AI_TEXT_CAP, chunk), next)
            else Merged(Last(AI_TEXT_CAP, m.text + Skipped(chunk, m.cursor - Offset(stream, p.lo), 0)), next)
  {
    PieceStart(stream, p);
    hide Units, Offset, Skipped, ByteLength, Last;
  }

  lemma ShowsIs(stream: seq<CodePoint>, text: seq<Unit>, cursor: nat, from: nat, to: nat)
    ensures Shows(stream, text, cursor, from, to) <==>
            from <= to <= |stream| && cursor == Offset(stream, to) && text == Last(AI_TEXT_CAP, Units(stream[from..to]))
  {
  }

  lemma BoundsOf(p: Piece, from: nat, to: nat)
    ensures FromAfter(p, from, to) == (if p.hi <= to && to != 0 then from else if to == 0 || p.lo > to then p.lo else from)
    ensures ToAfter(p, to) == if p.hi <= to && to != 0 then to else p.hi
  {
  }

  lemma PieceShows(stream: seq<CodePoint>, m: Merged, from: nat, to: nat, p: Piece)
    requires PieceOf(stream, p) && Shows(stream, m.text, m.cursor, from, to)
    ensures var r := AfterPiece(stream, m, p);
            && Shows(stream, r.text, r.cursor, FromAfter(p, from, to), ToAfter(p, to))
            && r.cursor >= m.cursor
  {
    assert p.lo <= p.hi <= |stream|;
    hide *;
    ShowsIs(stream, m.text, m.cursor, from, to);
    BoundsOf(p, from, to);
    AfterPieceIs(stream, m, p);
    OffsetOrder(stream, p.hi, to);
    OffsetOrder(stream, to, p.hi);
    OffsetOrder(stream, p.lo, to);
    OffsetOrder(stream, to, 0);
    var r := AfterPiece(stream, m, p);
    ShowsIs(stream, r.text, r.cursor, FromAfter(p, from, to), ToAfter(p, to));
    if to != 0 && p.lo <= to < p.hi {
      OffsetsAscend(stream, p.lo, to);
      JoinsOn(stream, m.text, from, to, p);
    }
  }

  lemma JoinsOn(stream: seq<CodePoint>, text: seq<Unit>, from: nat, to: nat, p: Piece)
    requires from <= to <= |stream| && p.lo <= to < p.hi <= |stream| && text == Last(AI_TEXT_CAP, Units(stream[from..to]))
    ensures Last(AI_TEXT_CAP, text + Skipped(Units(stream[p.lo..p.hi]), Bytes(stream[p.lo..to]), 0)) ==
            Last(AI_TEXT_CAP, Units(stream[from..p.hi]))
  {
    hide Bytes, Units, Last, Skipped;
    var a, b := stream[p.lo..to], stream[to..p.hi];
    assert stream[p.lo..p.hi] == a + b;
    SkipsWhole(a, b, 0);
    assert stream[from..p.hi] == stream[from..to] + b;
    UnitsConcat(stream[from..to], b);
    LastOfLast(AI_TEXT_CAP, Units(stream[from..to]), Units(b));
  }

  function AfterPieces(stream: seq<CodePoint>, ps: seq<Piece>): Merged
    requires forall p | p in ps :: PieceOf(stream, p)
  {
    if ps == [] then Merged([], 0) else AfterPiece(stream, AfterPieces(stream, ps[..|ps| - 1]), ps[|ps| - 1])
  }

  function FromOf(ps: seq<Piece>): nat
  {
    if ps == [] then 0 else FromAfter(ps[|ps| - 1], FromOf(ps[..|ps| - 1]), ToOf(ps[..|ps| - 1]))
  }

  function ToOf(ps: seq<Piece>): nat
  {
    if ps == [] then 0 else ToAfter(ps[|ps| - 1], ToOf(ps[..|ps| - 1]))
  }

  /** Over pieces of one stream in any order, with repeats: the cursor never goes back, and the
      text is always the end of a stretch of the stream that reaches to the cursor. */
  lemma {:induction false} StreamIsShown(stream: seq<CodePoint>, ps: seq<Piece>)
    requires forall p | p in ps :: PieceOf(stream, p)
    ensures var r := AfterPieces(stream, ps); Shows(stream, r.text, r.cursor, FromOf(ps), ToOf(ps))
    ensures ps != [] ==> AfterPieces(stream, ps).cursor >= AfterPieces(stream, ps[..|ps| - 1]).cursor
    decreases |ps|
  {
    if ps == [] {
      assert stream[0..0] == [] && stream[..0] == [];
    } else {
      StreamIsShown(stream, ps[..|ps| - 1]);
      hide Shows, AfterPiece, FromAfter, ToAfter;
      PieceShows(stream, AfterPieces(stream, ps[..|ps| - 1]), FromOf(ps[..|ps| - 1]), ToOf(ps[..|ps| - 1]), ps[|ps| - 1]);
    }
  }

  /** The text is the whole prefix of the stream up to the cursor, as far as the cap allows,
      exactly when no gap was left behind the start, or what came after it fills the cap. */
  lemma WholePrefixIff(stream: seq<CodePoint>, ps: seq<Piece>)
    requires forall p | p in ps :: PieceOf(stream, p)
    ensures var r, from, to := AfterPieces(stream, ps), FromOf(ps), ToOf(ps);
            && from <= to <= |stream| && r.cursor == Offset(stream, to)
            && (r.text == Last(AI_TEXT_CAP, Units(stream[..to])) <==>
                  from == 0 || |Units(stream[from..to])| >= AI_TEXT_CAP)
  {
    StreamIsShown(stream, ps);
    hide *;
    var from, to := FromOf(ps), ToOf(ps);
    var r := AfterPieces(stream, ps);
    ShowsIs(stream, r.text, r.cursor, from, to);
    PrefixSplit(stream, from, to);
    LastOfLonger(AI_TEXT_CAP, Units(stream[..from]), Units(stream[from..to]));
  }

  /** A gap of one character: what came before it is no longer shown. */
  lemma GapDropsText()
    ensures var stream, ps := [97, 98, 99], [Piece(0, 1), Piece(2, 3)];
            && (forall p | p in ps :: PieceOf(stream, p))
            && AfterPieces(stream, ps) == Merged([99], 3)
            && AfterPieces(stream, ps).text != Last(AI_TEXT_CAP, Units(stream))
  {
    var stream: seq<CodePoint>, ps := [97, 98, 99], [Piece(0, 1), Piece(2, 3)];
    StreamIsShown(stream, ps);
    assert ps[..1] == [Piece(0, 1)] && ps[..1][..0] == [];
    assert FromOf(ps[..1]) == 0 && ToOf(ps[..1]) == 1;
    assert FromOf(ps) == 2 && ToOf(ps) == 3;
    assert stream[2..3] == [99] && stream[..3] == stream && stream[1..] == [98, 99] && stream[1..][1..] == [99];
  }

  lemma PrefixSplit(stream: seq<CodePoint>, from: nat, to: nat)
    requires from <= to <= |stream|
    ensures Units(stream[..to]) == Units(stream[..from]) + Units(stream[from..to])
    ensures from == 0 <==> Units(stream[..from]) == []
    ensures from == 0 ==> Units(stream[..to]) == Units(stream[from..to])
  {
    assert stream[..to] == stream[..from] + stream[from..to];
    UnitsConcat(stream[..from], stream[from..to]);
    if from > 0 {
      SomeUnits(stream[..from]);
    } else {
      assert stream[0..to] == stream[..to];
    }
  }

  lemma SomeUnits(text: seq<CodePoint>)
    requires text != []
    ensures Units(text) != []
  {
  }

  lemma LastOfLonger<T>(n: nat, x: seq<T>, y: seq<T>)
    ensures |y| >= n ==> Last(n, x + y) == Last(n, y)
    ensures |y| < n && x != [] ==> |Last(n, x + y)| > |Last(n, y)|
  {
  }

  // ---- Log lines ----

  datatype Entry = Entry(logId: string, message: string)

  const LOG_CAP: nat := 500

  /** In the order of numbers when both are numbers, and of texts otherwise. */
  predicate LogIdAfter(a: string, b: string)
  {
    if IsDecimal(a) && IsDecimal(b) then ValueOf(a) > ValueOf(b) else Less(b, a)
  }

  /** The log and its last id after these entries, without the cap. */
  function Absorbed(logs: seq<Entry>, lastId: string, entries: seq<Entry>): (seq<Entry>, string)
    decreases |entries|
  {
    if entries == [] then (logs, lastId)
    else if LogIdAfter(entries[0].logId, lastId) then Absorbed(logs + [entries[0]], entries[0].logId, entries[1..])
    else Absorbed(logs, lastId, entries[1..])
  }

  ghost predicate DecimalIds(entries: seq<Entry>) { forall k | 0 <= k < |entries| :: IsDecimal(entries[k].logId) }

  ghost predicate Increasing(logs: seq<Entry>)
  {
    forall i, j | 0 <= i < j < |logs| :: ValueOf(logs[i].logId) < ValueOf(logs[j].logId)
  }

  /** Decimal, strictly increasing ids, of which the last one is remembered. */
  ghost predicate LogsOk(logs: seq<Entry>, lastId: string)
  {
    && DecimalIds(logs) && Increasing(logs)
    && (if logs == [] then lastId == "" else lastId == logs[|logs| - 1].logId)
  }

  lemma EntryOk(logs: seq<Entry>, lastId: string, e: Entry)
    requires LogsOk(logs, lastId) && IsDecimal(e.logId) && LogIdAfter(e.logId, lastId)
    ensures LogsOk(logs + [e], e.logId)
  {
  }

  lemma NoneAbsorbed(logs: seq<Entry>, lastId: string)
    ensures Absorbed(logs, lastId, []) == (logs, lastId)
  {
  }

  lemma AbsorbedStep(logs: seq<Entry>, lastId: string, entries: seq<Entry>)
    requires entries != [] && DecimalIds(entries)
    ensures var e := entries[0];
            && IsDecimal(e.logId) && DecimalIds(entries[1..]) && (forall x :: x in entries <==> x == e || x in entries[1..])
            && Absorbed(logs, lastId, entries) ==
               if LogIdAfter(e.logId, lastId) then Absorbed(logs + [e], e.logId, entries[1..]) else Absorbed(logs, lastId, entries[1..])
  {
    hide LogIdAfter, IsDecimal;
    assert entries == [entries[0]] + entries[1..];
  }

  lemma NotAfterItself(id: string)
    ensures !LogIdAfter(id, id)
  {
    LessIsTotal(id, id);
  }

  lemma {:induction false} AbsorbedOk(logs: seq<Entry>, lastId: string, entries: seq<Entry>)
    requires LogsOk(logs, lastId) && DecimalIds(entries)
    ensures var r := Absorbed(logs, lastId, entries);
            && LogsOk(r.0, r.1) && logs <= r.0
            && forall e | e in entries :: !LogIdAfter(e.logId, r.1)
    decreases |entries|
  {
    hide *;
    if entries == [] {
      NoneAbsorbed(logs, lastId);
    } else {
      var e := entries[0];
      AbsorbedStep(logs, lastId, entries);
      var after := LogIdAfter(e.logId, lastId);
      var logs', last' := if after then logs + [e] else logs, if after then e.logId else lastId;
      if after {
        EntryOk(logs, lastId, e);
        NotAfterItself(e.logId);
      }
      AbsorbedOk(logs', last', entries[1..]);
      var r := Absorbed(logs', last', entries[1..]);
      LastOnlyGrows(logs', last', r.0, r.1, e.logId);
    }
  }

  /** What is not after an id is not after a later one. */
  lemma LastOnlyGrows(logs: seq<Entry>, lastId: string, logs': seq<Entry>, lastId': string, id: string)
    requires LogsOk(logs, lastId) && LogsOk(logs', lastId') && logs <= logs' && IsDecimal(id)
    requires !LogIdAfter(id, lastId)
    ensures !LogIdAfter(id, lastId')
  {
    hide ValueOf, Less;
    EmptyIsFirst(id);
    if logs != [] && |logs'| > |logs| {
      assert logs'[|logs| - 1] == logs[|logs| - 1];
    }
  }

  lemma EmptyIsFirst(id: string)
    ensures id != "" ==> Less("", id)
    ensures !IsDecimal("")
  {
  }

  /** Entries none of which is after the last id change nothing. */
  lemma {:induction false} OldEntriesIgnored(logs: seq<Entry>, lastId: string, entries: seq<Entry>)
    requires forall e | e in entries :: !LogIdAfter(e.logId, lastId)
    ensures Absorbed(logs, lastId, entries) == (logs, lastId)
    decreases |entries|
  {
    hide LogIdAfter;
    if entries != [] {
      assert entries[0] in entries;
      OldEntriesIgnored(logs, lastId, entries[1..]);
    }
  }

  lemma CappedOk(logs: seq<Entry>, lastId: string)
    requires LogsOk(logs, lastId)
    ensures LogsOk(Last(LOG_CAP, logs), lastId)
  {
  }

  // ---- Frames ----

  /** chunk is the decoded text; the frame counts only if it has one. */
  datatype Ai = Ai(chunk: Option<seq<Unit>>, next: nat, total: nat, complete: bool)

  datatype Frame = Frame(status: Option<string>, logs: seq<Entry>, ai: Option<Ai>)

  datatype State = State(
    status: string, logs: seq<Entry>, lastLogId: string, aiText: seq<Unit>, aiCursor: nat,
    aiComplete: bool, aiTotalBytes: nat, version: nat)

  const NEW_STATE: State := State("", [], "", [], 0, false, 0, 0)

  function WithLogs(s: State, entries: seq<Entry>): State
  {
    var r := Absorbed(s.logs, s.lastLogId, entries);
    s.(logs := Last(LOG_CAP, r.0), lastLogId := r.1)
  }

  function WithChunk(s: State, chunk: seq<Unit>, next: nat): State
  {
    var m := Appended(s.aiText, s.aiCursor, chunk, next);
    if m.None? then s else s.(aiCursor := m.value.cursor, aiText := Last(AI_TEXT_CAP, m.value.text))
  }

  function WithAi(s: State, ai: Option<Ai>): State
  {
    if ai.None? then s
    else
      var s1 := if ai.value.chunk.Some? then WithChunk(s, ai.value.chunk.value, ai.value.next) else s;
      s1.(aiTotalBytes := ai.value.total, aiComplete := s1.aiComplete || ai.value.complete)
  }

  /** What a change of makes a new version. */
  function Signature(s: State): (string, string, nat, bool) { (s.status, s.lastLogId, s.aiCursor, s.aiComplete) }

  function Absorbing(s: State, f: Frame): State
  {
    WithAi(WithLogs(s.(status := if f.status.Some? then f.status.value else s.status), f.logs), f.ai)
  }

  function Applied(s: State, f: Frame): State
  {
    var s' := Absorbing(s, f);
    if Signature(s') != Signature(s) then s'.(version := s.version + 1) else s'
  }

  ghost predicate StateOk(s: State) { LogsOk(s.logs, s.lastLogId) && |s.logs| <= LOG_CAP && |s.aiText| <= AI_TEXT_CAP }

  /** Whatever is in the frame, as long as its log ids are decimal: the logs stay strictly
      increasing, and neither they nor the text outgrow their caps. */
  lemma AppliedOk(s: State, f: Frame)
    requires StateOk(s) && DecimalIds(f.logs)
    ensures StateOk(Applied(s, f)) && Applied(s, f).aiCursor >= s.aiCursor
  {
    AbsorbedOk(s.logs, s.lastLogId, f.logs);
    var r := Absorbed(s.logs, s.lastLogId, f.logs);
    CappedOk(r.0, r.1);
    CapsHold(s, f);
    CursorOnlyGrows(s, f);
    hide LogsOk, Absorbed, WithAi, Last;
  }

  lemma CapsHold(s: State, f: Frame)
    ensures var s', r := Absorbing(s, f), Absorbed(s.logs, s.lastLogId, f.logs);
            && s'.logs == Last(LOG_CAP, r.0) && s'.lastLogId == r.1 && |s'.logs| <= LOG_CAP
            && (|s.aiText| <= AI_TEXT_CAP ==> |s'.aiText| <= AI_TEXT_CAP)
  {
    hide Absorbed, Appended;
  }

  lemma CursorOnlyGrows(s: State, f: Frame)
    ensures Absorbing(s, f).aiCursor >= s.aiCursor
  {
    hide Absorbed, Skipped, ByteLength;
  }

  /** A frame whose text is a piece of the stream moves what is shown as the piece does. */
  lemma FrameShows(stream: seq<CodePoint>, s: State, f: Frame, p: Piece, from: nat, to: nat)
    requires PieceOf(stream, p) && Shows(stream, s.aiText, s.aiCursor, from, to)
    requires f.ai.Some? && f.ai.value.chunk == Some(Units(stream[p.lo..p.hi])) && f.ai.value.next == Offset(stream, p.hi)
    ensures var s' := Applied(s, f); Shows(stream, s'.aiText, s'.aiCursor, FromAfter(p, from, to), ToAfter(p, to))
  {
    PieceShows(stream, Merged(s.aiText, s.aiCursor), from, to, p);
    hide Shows, Absorbed, Appended, Last, Units, Offset, FromAfter, ToAfter;
  }

  /** Applying a frame again changes nothing at all. */
  lemma AppliedTwice(s: State, f: Frame)
    requires StateOk(s) && DecimalIds(f.logs)
    ensures Applied(Applied(s, f), f) == Applied(s, f)
  {
    AbsorbedOk(s.logs, s.lastLogId, f.logs);
    var r := Absorbed(s.logs, s.lastLogId, f.logs);
    OldEntriesIgnored(Last(LOG_CAP, r.0), r.1, f.logs);
    hide LogsOk, Absorbed, LogIdAfter;
    assert Last(LOG_CAP, Last(LOG_CAP, r.0)) == Last(LOG_CAP, r.0);
    var s1 := Absorbing(s, f);
    ChunkTwice(s, f);
    assert Absorbing(s1, f) == s1;
    hide WithAi, WithLogs;
    VersionApart(Applied(s, f), s1, f);
  }

  lemma ChunkTwice(s: State, f: Frame)
    ensures WithAi(Absorbing(s, f), f.ai) == Absorbing(s, f)
  {
    hide WithLogs, Skipped, ByteLength;
    var t := WithLogs(s.(status := if f.status.Some? then f.status.value else s.status), f.logs);
    if f.ai.Some? && f.ai.value.chunk.Some? {
      var chunk, next := f.ai.value.chunk.value, f.ai.value.next;
      var m := Appended(t.aiText, t.aiCursor, chunk, next);
      if m.Some? && m.value.cursor == 0 {
        assert t.aiCursor == 0 && next == 0;
      }
    }
  }

  lemma VersionApart(s: State, t: State, f: Frame)
    requires s == t.(version := s.version) && Absorbing(t, f) == t
    ensures Applied(s, f) == s
  {
    hide Absorbed, Appended;
    SameApart(s, t, f);
  }

  lemma SameApart(s: State, t: State, f: Frame)
    requires s == t.(version := s.version)
    ensures Absorbing(s, f) == Absorbing(t, f).(version := s.version)
  {
    hide Absorbed, Appended;
  }

  // ---- A frame that comes again ----

  function AppliedAll(s: State, gs: seq<Frame>): State
  {
    if gs == [] then s else Applied(AppliedAll(s, gs[..|gs| - 1]), gs[|gs| - 1])
  }

  /** What a state that the frame went into keeps from then on: none of the frame's entries is
      after the last id, its text is behind the cursor, and a completion is not taken back. */
  ghost predicate Seen(t: State, f: Frame)
  {
    && (forall e | e in f.logs :: !LogIdAfter(e.logId, t.lastLogId))
    && (f.ai.Some? && f.ai.value.chunk.Some? ==> f.ai.value.next <= t.aiCursor)
    && (f.ai.Some? && f.ai.value.complete ==> t.aiComplete)
  }

  lemma AppliedIsSeen(s: State, f: Frame)
    requires StateOk(s) && DecimalIds(f.logs)
    ensures Seen(Applied(s, f), f)
  {
    AbsorbedOk(s.logs, s.lastLogId, f.logs);
    hide LogIdAfter, Absorbed, LogsOk, Skipped, ByteLength, Last;
  }

  lemma SeenStays(t: State, f: Frame, g: Frame)
    requires StateOk(t) && DecimalIds(f.logs) && DecimalIds(g.logs) && Seen(t, f)
    ensures Seen(Applied(t, g), f)
  {
    AbsorbedOk(t.logs, t.lastLogId, g.logs);
    var r := Absorbed(t.logs, t.lastLogId, g.logs);
    CapsHold(t, g);
    CursorOnlyGrows(t, g);
    hide LogIdAfter, Absorbed, LogsOk, WithChunk, WithLogs, Last, IsDecimal;
    forall e | e in f.logs ensures !LogIdAfter(e.logId, r.1) {
      assert IsDecimal(e.logId);
      LastOnlyGrows(t.logs, t.lastLogId, r.0, r.1, e.logId);
    }
  }

  lemma {:induction false} SeenAfterAll(s: State, f: Frame, gs: seq<Frame>)
    requires StateOk(s) && DecimalIds(f.logs) && forall g | g in gs :: DecimalIds(g.logs)
    ensures var t := AppliedAll(Applied(s, f), gs); StateOk(t) && Seen(t, f)
    decreases |gs|
  {
    hide StateOk, DecimalIds, Seen, Applied;
    if gs == [] {
      AppliedOk(s, f);
      AppliedIsSeen(s, f);
    } else {
      var init, last := gs[..|gs| - 1], gs[|gs| - 1];
      SeenAfterAll(s, f, init);
      AppliedOk(AppliedAll(Applied(s, f), init), last);
      SeenStays(AppliedAll(Applied(s, f), init), f, last);
    }
  }

  /** All that a frame does when it comes again. */
  function Again(t: State, f: Frame): State
  {
    var status := if f.status.Some? then f.status.value else t.status;
    t.(status := status, version := if status != t.status then t.version + 1 else t.version,
       aiTotalBytes := if f.ai.Some? then f.ai.value.total else t.aiTotalBytes,
       aiText := if f.ai.Some? && f.ai.value.chunk.Some? && t.aiCursor == 0 then Last(AI_TEXT_CAP, f.ai.value.chunk.value) else t.aiText)
  }

  lemma SeenAgain(t: State, f: Frame)
    requires StateOk(t) && Seen(t, f)
    ensures Applied(t, f) == Again(t, f)
  {
    OldEntriesIgnored(t.logs, t.lastLogId, f.logs);
    hide LogIdAfter, Absorbed, LogsOk, Skipped, ByteLength;
  }

  /** A frame that comes again, after any other frames: the logs, the last id and the cursor stay
      as they are, and so does the text, if and only if the cursor has left the start, the frame
      has no text, or that is what is shown. Only its status and total are taken up again. */
  lemma AppliedAgain(s: State, f: Frame, gs: seq<Frame>)
    requires StateOk(s) && DecimalIds(f.logs) && forall g | g in gs :: DecimalIds(g.logs)
    ensures var t := AppliedAll(Applied(s, f), gs);
            var u := Applied(t, f);
            && u.logs == t.logs && u.lastLogId == t.lastLogId && u.aiCursor == t.aiCursor && u.aiComplete == t.aiComplete
            && (u.aiText == t.aiText <==>
                  || t.aiCursor != 0 || f.ai.None? || f.ai.value.chunk.None?
                  || Last(AI_TEXT_CAP, f.ai.value.chunk.value) == t.aiText)
            && u.status == (if f.status.Some? then f.status.value else t.status)
            && u.aiTotalBytes == (if f.ai.Some? then f.ai.value.total else t.aiTotalBytes)
            && u.version == (if u.status != t.status then t.version + 1 else t.version)
  {
    SeenAfterAll(s, f, gs);
    hide AppliedAll, Applied, StateOk, Seen, Last;
    SeenAgain(AppliedAll(Applied(s, f), gs), f);
  }

  /** The progress of a task, updated in place. */
  class ProgressState {
    var status: string
    var logs: seq<Entry>
    var lastLogId: string
    var aiText: seq<Unit>
    var aiCursor: nat
    var aiComplete: bool
    var aiTotalBytes: nat
    var version: nat

    ghost function View(): State
      reads this
    {
      State(status, logs, lastLogId, aiText, aiCursor, aiComplete, aiTotalBytes, version)
    }

    constructor ()
      ensures View() == NEW_STATE
    {
      status, logs, lastLogId, aiText, aiCursor := "", [], "", [], 0;
      aiComplete, aiTotalBytes, version := false, 0, 0;
    }

    method ApplyFrame(f: Frame)
      modifies this
      ensures View() == Applied(old(View()), f)
    {
      hide Absorbed, Appended, Last, LogIdAfter;
      var before := (status, lastLogId, aiCursor, aiComplete);
      if f.status.Some? {
        status := f.status.value;
      }
      AbsorbLogs(f.logs);
      if f.ai.Some? {
        AbsorbAi(f.ai.value);
      }
      if (status, lastLogId, aiCursor, aiComplete) != before {
        version := version + 1;
      }
    }

    method AbsorbLogs(entries: seq<Entry>)
      modifies this`logs, this`lastLogId
      ensures View() == WithLogs(old(View()), entries)
    {
      hide LogIdAfter;
      ghost var was := View();
      for k := 0 to |entries|
        invariant View() == was.(logs := logs, lastLogId := lastLogId)
        invariant Absorbed(was.logs, was.lastLogId, entries) == Absorbed(logs, lastLogId, entries[k..])
      {
        assert entries[k..][0] == entries[k] && entries[k..][1..] == entries[k + 1..];
        if LogIdAfter(entries[k].logId, lastLogId) {
          logs := logs + [entries[k]];
          lastLogId := entries[k].logId;
        }
      }
      assert entries[|entries|..] == [];
      if |logs| > LOG_CAP {
        logs := logs[|logs| - LOG_CAP..];
      }
    }

    method AbsorbAi(ai: Ai)
      modifies this`aiText, this`aiCursor, this`aiTotalBytes, this`aiComplete
      ensures View() == WithAi(old(View()), Some(ai))
    {
      hide Appended;
      if ai.chunk.Some? {
        var merged := AppendAiChunk(aiText, aiCursor, ai.chunk.value, ai.next);
        if merged.Some? {
          aiCursor := merged.value.cursor;
          aiText := if |merged.value.text| > AI_TEXT_CAP then merged.value.text[|merged.value.text| - AI_TEXT_CAP..]
                    else merged.value.text;
        }
      }
      aiTotalBytes := ai.total;
      if ai.complete {
        aiComplete := true;
      }
    }
  }
}
