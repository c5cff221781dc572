/** Streaming multipart/form-data parsing (section 5.1.1 of RFC 2046): the body arrives in
    reads of up to 64 KiB, and the parser must find in it what a parser holding the whole
    body would find. */
module Multipart {
  import opened Wrappers
  import opened Bytes
  import opened FileStream

  const MAX_PREAMBLE: nat := 1024 * 1024
  const MAX_PART_HEADERS: nat := 64 * 1024

  const BLANK_LINE: seq<byte> := [13, 10, 13, 10]

  datatype Error =
    UnexpectedEnd | Garbage | PreambleTooLong | BodyEnded | MalformedDelimiter | HeadersTooLong | FieldTooLong
  type Checked<+T> = Result<T, Error>

  /** What the header block of a part says the part is. */
  datatype Kind = FilePart | Field(name: seq<byte>) | Unnamed
  type Classify = seq<byte> -> Kind

  type Fields = map<seq<byte>, seq<byte>>

  function Token(boundary: seq<byte>): seq<byte> { DASHES + boundary }
  function Delimiter(boundary: seq<byte>): seq<byte> { CRLF + DASHES + boundary }

  // ---- Parsing a body that is all there ----

  /** largest is the length of the longest header block with its blank line. */
  datatype Parsed = Refused | Parsed(fields: Fields, rest: seq<byte>, largest: nat)

  function WithLargest(p: Parsed, n: nat): Parsed
  {
    if p.Parsed? && p.largest < n then p.(largest := n) else p
  }

  function Store(fields: Fields, kind: Kind, payload: seq<byte>): Fields
  {
    if kind.Field? then fields[kind.name := payload] else fields
  }

  /** From behind a boundary token up to the file part's payload. */
  function ParseParts(boundary: seq<byte>, classify: Classify, maxField: nat, body: seq<byte>, fields: Fields): Parsed
    decreases |body|
  {
    if |body| < 2 || body[..2] != CRLF then Refused
    else
      var part := body[2..];
      var blank := Find(part, BLANK_LINE, 0);
      FindIs(part, BLANK_LINE, 0);
      if blank.None? then Refused
      else
        var kind := classify(part[..blank.value]);
        var rest := part[blank.value + 4..];
        if kind.FilePart? then Parsed(fields, rest, blank.value + 4)
        else
          var end := Find(rest, Delimiter(boundary), 0);
          FindIs(rest, Delimiter(boundary), 0);
          if end.None? || end.value > maxField then Refused
          else
            WithLargest(
              ParseParts(boundary, classify, maxField, rest[end.value + |Delimiter(boundary)|..],
                         Store(fields, kind, rest[..end.value])),
              blank.value + 4)
  }

  function ParseWhole(boundary: seq<byte>, classify: Classify, maxField: nat, body: seq<byte>): Parsed
  {
    if Token(boundary) <= body then ParseParts(boundary, classify, maxField, body[|Token(boundary)|..], map[])
    else Refused
  }

  // ---- The streaming parser ----

  class StreamingMultipartParser {
    /** What the stream will still deliver, read by read. */
    var incoming: seq<seq<byte>>
    var buffer: seq<byte>
    const boundary: seq<byte>
    const maxField: nat

    constructor (incoming: seq<seq<byte>>, boundary: seq<byte>, maxField: nat)
      requires WellRead(incoming)
      ensures Valid() && Rest() == Flatten(incoming)
      ensures this.boundary == boundary && this.maxField == maxField && this.incoming == incoming && buffer == []
    {
      this.incoming, this.boundary, this.maxField := incoming, boundary, maxField;
      buffer := [];
    }

    ghost predicate Valid()
      reads this
    {
      WellRead(incoming)
    }

    /** The part of the body that is not consumed yet. */
    ghost function Rest(): seq<byte>
      reads this
    {
      buffer + Flatten(incoming)
    }

    method Fill() returns (more: bool)
      requires Valid()
      modifies this
      ensures Valid() && Rest() == old(Rest())
      ensures more <==> old(incoming) != []
      ensures more ==> incoming == old(incoming)[1..] && buffer == old(buffer) + old(incoming)[0]
      ensures !more ==> buffer == old(buffer) && incoming == []
    {
      if incoming == [] {
        return false;
      }
      buffer := buffer + incoming[0];
      incoming := incoming[1..];
      more := true;
    }

    /** Takes the first n bytes out of the buffer. */
    method Take(n: nat) returns (piece: seq<byte>)
      requires Valid() && n <= |buffer|
      modifies this
      ensures Valid() && incoming == old(incoming) && |piece| == n && |buffer| == old(|buffer|) - n
      ensures Joined(old(buffer), piece, buffer) && Joined(old(Rest()), piece, Rest())
      ensures CutAt(old(buffer), n, piece, buffer)
    {
      piece := buffer[..n];
      buffer := buffer[n..];
      CutInMiddle([], piece + buffer, Flatten(incoming), n);
    }

    /** Consumes a field's payload and the delimiter behind it. */
    method ReadFieldPayload() returns (r: Checked<seq<byte>>)
      requires Valid()
      modifies this
      ensures Valid() && (FullReads(old(incoming)) ==> FullReads(incoming))
      ensures var end := Find(old(Rest()), Delimiter(boundary), 0);
              && (r.Success? <==> end.Some? && end.value <= maxField)
              && (r.Success? ==> SplitsAt(old(Rest()), end.value, |Delimiter(boundary)|, r.value, Rest()))
    {
      ghost var body := Rest();
      var delimiter := Delimiter(boundary);
      var keep := |delimiter| - 1;
      assert |delimiter| == 4 + |boundary|;
      var got: seq<byte> := [];
      var total := 0;
      NoReleaseYet(body, delimiter);
      while true
        invariant Valid() && (FullReads(old(incoming)) ==> FullReads(incoming))
        invariant Released(body, delimiter, got, Rest()) && total == |got| <= maxField
        decreases |incoming|
      {
        hide *;
        ghost var before := Rest();
        BufferFirst();
        FoundFits(buffer, delimiter, 0);
        var pos := Find(buffer, delimiter, 0);
        if pos.Some? {
          FoundInBuffer(body, delimiter, got, before, buffer);
          var piece := Take(pos.value);
          ghost var middle := Rest();
          var token := Take(|delimiter|);
          SplitInPieces(body, delimiter, got, before, piece, middle, token, Rest());
          got := got + piece;
          return if |got| > maxField then Failure(FieldTooLong) else Success(got);
        }
        if |buffer| > keep {
          ghost var was := buffer;
          var piece := Take(|buffer| - keep);
          ReleaseMore(body, delimiter, got, before, was, piece, Rest());
          got := got + piece;
          total := total + |piece|;
        }
        TooMuchReleased(body, delimiter, got, Rest());
        if total > maxField {
          return Failure(FieldTooLong);
        }
        Exhausted(body, delimiter, got, Rest());
        FullReadsTail(incoming);
        var more := Fill();
        if !more {
          BufferFirst();
          return Failure(UnexpectedEnd);
        }
      }
    }

    /** Behind a boundary token: a line end starts a part, two dashes end the body. */
    method StripBoundaryTerminator() returns (r: Checked<()>)
      requires Valid()
      modifies this
      ensures Valid() && Rest() == old(Rest()) && (FullReads(old(incoming)) ==> FullReads(incoming))
      ensures r.Success? <==> AtLineEnd(Rest())
      ensures r.Success? ==> |buffer| >= 2
    {
      while |buffer| < 2
        invariant Valid() && Rest() == old(Rest()) && (FullReads(old(incoming)) ==> FullReads(incoming))
        decreases |incoming|
      {
        hide *;
        FullReadsTail(incoming);
        var more := Fill();
        if !more {
          BufferFirst();
          TooShort(Rest());
          return Failure(UnexpectedEnd);
        }
      }
      BufferFirst();
      LineEndStarts(buffer, Rest());
      if buffer[..2] == DASHES {
        return Failure(BodyEnded);
      }
      if buffer[..2] != CRLF {
        return Failure(MalformedDelimiter);
      }
      r := Success(());
    }

    /** Consumes the opening boundary token; it must be the very start of the body. */
    method ExpectFirstBoundary() returns (r: Checked<()>)
      requires Valid() && buffer == []
      modifies this
      ensures Valid() && (FullReads(old(incoming)) ==> FullReads(incoming))
      ensures r.Success? ==> |buffer| >= 2 && AtLineEnd(Rest()) && Joined(old(Rest()), Token(boundary), Rest())
      ensures r.Failure? && |Token(boundary)| + READ_CHUNK <= MAX_PREAMBLE ==>
                forall rest :: Joined(old(Rest()), Token(boundary), rest) ==> !AtLineEnd(rest)
    {
      ghost var body := Rest();
      var token := Token(boundary);
      var scanned := 0;
      while Find(buffer, token, 0).None?
        invariant Valid() && Rest() == body && (FullReads(old(incoming)) ==> FullReads(incoming))
        invariant scanned == |buffer|
        decreases |incoming|
      {
        hide Find, FullReads, Flatten, Token;
        var before := |buffer|;
        BufferFirst();
        NotYetThere(body, token, buffer);
        FullReadsTail(incoming);
        var more := Fill();
        if !more {
          return Failure(UnexpectedEnd);
        }
        scanned := scanned + (|buffer| - before);
        if scanned > MAX_PREAMBLE {
          return Failure(PreambleTooLong);
        }
      }
      hide *;
      FoundFits(buffer, token, 0);
      BufferFirst();
      FoundAtStart(body, token, buffer);
      if Find(buffer, token, 0).value != 0 {
        return Failure(Garbage);
      }
      ghost var was := buffer;
      var taken := Take(|token|);
      TakenToken(was, token, taken, buffer);
      r := StripBoundaryTerminator();
      JoinedOnce(body, token, Rest());
    }

    /** Consumes the line end and the header block up to its blank line. */
    method ReadHeaders() returns (r: Checked<seq<byte>>)
      requires Valid() && |buffer| >= 2 && AtLineEnd(Rest())
      modifies this
      ensures Valid() && (FullReads(old(incoming)) ==> FullReads(incoming))
      ensures r.Success? ==> HeadersEnd(old(Rest()), r.value, Rest())
      ensures var blank := Find(old(Rest())[2..], BLANK_LINE, 0);
              (r.Failure? && FullReads(old(incoming)) && blank.Some? ==> blank.value + 4 > MAX_PART_HEADERS)
    {
      ghost var at := Rest();
      ghost var part := at[2..];
      ghost var full := FullReads(incoming);
      buffer := buffer[2..];
      assert Rest() == part;
      var scanned := 0;
      while Find(buffer, BLANK_LINE, 0).None?
        invariant Valid() && Rest() == part && (full ==> FullReads(incoming))
        invariant scanned == 0 || !full || incoming == [] || |buffer| >= READ_CHUNK
        decreases |incoming|
      {
        hide Find, Flatten;
        var before := |buffer|;
        BufferFirst();
        BlankBeyond(part, buffer);
        FullReadsTail(incoming);
        var more := Fill();
        if !more {
          return Failure(UnexpectedEnd);
        }
        scanned := scanned + (|buffer| - before);
        if scanned > MAX_PART_HEADERS {
          return Failure(HeadersTooLong);
        }
      }
      hide *;
      BufferFirst();
      FoundFits(buffer, BLANK_LINE, 0);
      FindStarts(part, BLANK_LINE, buffer);
      var pos := Find(buffer, BLANK_LINE, 0).value;
      BlankLineLength();
      var block := Take(pos);
      ghost var middle := Rest();
      var blank := Take(4);
      SplitTwice(part, block, middle, blank, Rest());
      HeadersEndHere(at, block, Rest());
      r := Success(block);
    }

    /** Consumes the body up to the file part's payload. */
    method Parse(classify: Classify) returns (r: Checked<Fields>)
      requires Valid() && buffer == []
      modifies this
      ensures Valid()
      ensures r.Success? ==>
                && ParseWhole(boundary, classify, maxField, old(Rest())).Parsed?
                && ParseWhole(boundary, classify, maxField, old(Rest())).fields == r.value
                && ParseWhole(boundary, classify, maxField, old(Rest())).rest == Rest()
      ensures r.Failure? && FullReads(old(incoming)) && |Token(boundary)| + READ_CHUNK <= MAX_PREAMBLE ==>
                ParseWhole(boundary, classify, maxField, old(Rest())).Refused? ||
                ParseWhole(boundary, classify, maxField, old(Rest())).largest > MAX_PART_HEADERS
    {
      ghost var whole := ParseWhole(boundary, classify, maxField, Rest());
      ghost var full := FullReads(incoming);
      ghost var largest: nat := 0;
      var fields: Fields := map[];
      hide *;
      var e := ExpectFirstBoundary();
      WholeAtFirst(boundary, classify, maxField, old(Rest()));
      if e.Failure? {
        return Failure(e.error);
      }
      WholeAtToken(boundary, classify, maxField, old(Rest()), Rest());
      while true
        invariant Valid() && |buffer| >= 2 && AtLineEnd(Rest()) && (full ==> FullReads(incoming))
        invariant whole == WithLargest(ParseParts(boundary, classify, maxField, Rest(), fields), largest)
        decreases |Rest()|
      {
        ghost var at := Rest();
        PartStep(boundary, classify, maxField, at, fields);
        var h := ReadHeaders();
        if h.Failure? {
          LargestOf(ParseParts(boundary, classify, maxField, at, fields), largest);
          return Failure(h.error);
        }
        var kind := classify(h.value);
        if kind.FilePart? {
          WholeAtFile(boundary, classify, maxField, at, fields, h.value, Rest(), largest);
          return Success(fields);
        }
        ghost var rest := Rest();
        var payload := ReadFieldPayload();
        WholeAtField(boundary, classify, maxField, at, fields, h.value, rest, largest);
        if payload.Failure? {
          return Failure(payload.error);
        }
        WholePastField(boundary, classify, maxField, at, fields, h.value, rest, payload.value, Rest(), largest);
        fields := Store(fields, kind, payload.value);
        largest := if largest < |h.value| + 4 then |h.value| + 4 else largest;
        e := StripBoundaryTerminator();
        WholeAtBadEnd(boundary, classify, maxField, Rest(), fields, largest);
        if e.Failure? {
          return Failure(e.error);
        }
      }
    }

    /** No real boundary is in sight: yields all but the bytes that may still become one. */
    method ReleaseUndecided(delimiter: seq<byte>, pos: Option<nat>, chunks: seq<seq<byte>>, from: nat)
      returns (chunks': seq<seq<byte>>, from': nat)
      requires Valid() && from <= |buffer| && pos == Find(buffer, delimiter, from)
      requires Next(delimiter, buffer, from).Release?
      modifies this
      ensures Valid() && incoming == old(incoming)
      ensures Yielded(old(buffer), chunks, Next(delimiter, old(buffer), from).n, buffer, chunks')
      ensures from' == Next(delimiter, old(buffer), from).from
    {
      hide Find, EndsHere, Occurs, CutAt, Joined, Yielded, WellRead;
      var keep := |delimiter| + 2;
      chunks', from' := chunks, from;
      NextFits(delimiter, buffer, from);
      YieldNothing(buffer, chunks);
      if pos.None? {
        if |buffer| > keep {
          ghost var was := buffer;
          var piece := Take(|buffer| - keep);
          YieldPiece(was, chunks, |was| - keep, piece, buffer);
          chunks', from' := chunks + [piece], 0;
        }
      } else {
        if pos.value > keep {
          ghost var was := buffer;
          var piece := Take(pos.value - keep);
          YieldPiece(was, chunks, pos.value - keep, piece, buffer);
          chunks' := chunks + [piece];
        }
        from' := 0;
      }
    }

    /** Yields the file payload chunk by chunk until its closing delimiter; ok is false when
        the body ends first. */
    method DrainFile() returns (chunks: seq<seq<byte>>, ok: bool)
      requires Valid()
      modifies this
      ensures Valid()
      ensures var r := Drain(Delimiter(boundary), old(buffer), old(incoming), 0);
              Flatten(chunks) == r.out && ok == r.ok
    {
      hide DrainSoFar, Find, Drain, EndsHere, Flatten, Occurs, CutAt, Joined, Yielded, WellRead, Delimiter;
      var delimiter := Delimiter(boundary);
      var keep := |delimiter| + 2;
      var from: nat := 0;
      chunks := [];
      DrainStart(delimiter, buffer, incoming);
      while true
        invariant Valid() && from <= |buffer|
        invariant DrainSoFar(delimiter, old(buffer), old(incoming), chunks, buffer, incoming, from)
        decreases |incoming|, |buffer| - from
      {
        NextFits(delimiter, buffer, from);
        TerminatorDecides(delimiter, buffer, from);
        ghost var start := from;
        var pos := Find(buffer, delimiter, from);
        if pos.Some? && |buffer| >= pos.value + keep {
          var terminator := buffer[pos.value + |delimiter|..pos.value + keep];
          if terminator == DASHES || terminator == CRLF {
            DrainDone(delimiter, old(buffer), old(incoming), chunks, buffer, incoming, from);
            chunks := chunks + [buffer[..pos.value]];
            buffer := [];
            return chunks, true;
          }
          DrainSkip(delimiter, old(buffer), old(incoming), chunks, buffer, incoming, from);
          from := pos.value + keep;
          continue;
        }
        ghost var was, before := buffer, chunks;
        chunks, from := ReleaseUndecided(delimiter, pos, chunks, from);
        DrainRelease(delimiter, old(buffer), old(incoming), before, was, incoming, start, chunks, buffer);
        var more := Fill();
        if !more {
          return chunks, false;
        }
      }
    }

    lemma BufferFirst()
      ensures Starts(buffer, Rest()) && (incoming == [] ==> Rest() == buffer)
    {
    }
  }

  /** front is the first n bytes of whole, and back the others. */
  ghost predicate CutAt(whole: seq<byte>, n: nat, front: seq<byte>, back: seq<byte>)
  {
    n <= |whole| && front == whole[..n] && back == whole[n..]
  }

  /** whole is front followed by back. */
  ghost predicate Joined(whole: seq<byte>, front: seq<byte>, back: seq<byte>)
  {
    whole == front + back
  }

  ghost predicate Starts(front: seq<byte>, whole: seq<byte>)
  {
    front <= whole
  }

  lemma SplitInPieces(
    body: seq<byte>, delimiter: seq<byte>, got: seq<byte>, rest: seq<byte>,
    piece: seq<byte>, middle: seq<byte>, token: seq<byte>, back: seq<byte>)
    requires Released(body, delimiter, got, rest) && Joined(rest, piece, middle) && Joined(middle, token, back)
    ensures SplitsAt(body, |got + piece|, |token|, got + piece, back)
    ensures |got + piece| == |got| + |piece|
  {
    hide Occurs, NoneIn;
    assert body == (got + piece) + (token + back);
  }

  /** The body goes on with a line end. */
  predicate AtLineEnd(body: seq<byte>)
  {
    |body| >= 2 && body[..2] == CRLF
  }

  lemma LineEndStarts(buffer: seq<byte>, rest: seq<byte>)
    requires |buffer| >= 2 && Starts(buffer, rest)
    ensures AtLineEnd(rest) <==> buffer[..2] == CRLF
  {
    assert buffer[..2] == rest[..2];
  }

  lemma TooShort(body: seq<byte>)
    ensures |body| < 2 ==> !AtLineEnd(body)
  {
  }

  lemma BlankLineLength()
    ensures |BLANK_LINE| == 4
  {
  }

  lemma JoinedOccurs(body: seq<byte>, token: seq<byte>, rest: seq<byte>, buffer: seq<byte>)
    requires Starts(buffer, body) && |token| <= |buffer| && Joined(body, token, rest)
    ensures Occurs(buffer, token, 0)
  {
    assert buffer[0..|token|] == body[..|token|] == token;
  }

  /** While the token is not in the buffer, a body that starts with it is longer still. */
  lemma NotYetThere(body: seq<byte>, token: seq<byte>, buffer: seq<byte>)
    requires Starts(buffer, body) && Find(buffer, token, 0).None?
    ensures |token| <= |buffer| || buffer == body ==> forall rest :: !Joined(body, token, rest)
  {
    FindIs(buffer, token, 0);
    forall rest | |token| <= |buffer| || buffer == body ensures !Joined(body, token, rest) {
      if |token| <= |buffer| && Joined(body, token, rest) {
        JoinedOccurs(body, token, rest, buffer);
      }
    }
  }

  lemma FoundAtStart(body: seq<byte>, token: seq<byte>, buffer: seq<byte>)
    requires Starts(buffer, body) && Find(buffer, token, 0).Some?
    ensures Find(buffer, token, 0).value != 0 ==> forall rest :: !Joined(body, token, rest)
  {
    FindIs(buffer, token, 0);
    forall rest | Find(buffer, token, 0).value != 0 ensures !Joined(body, token, rest) {
      if Joined(body, token, rest) {
        JoinedOccurs(body, token, rest, buffer);
      }
    }
  }

  lemma TakenToken(was: seq<byte>, token: seq<byte>, taken: seq<byte>, buffer: seq<byte>)
    requires Find(was, token, 0) == Some(0) && Joined(was, taken, buffer) && |taken| == |token|
    ensures taken == token
  {
    FindIs(was, token, 0);
    assert was[0..|token|] == taken;
  }

  lemma JoinedOnce(body: seq<byte>, token: seq<byte>, rest: seq<byte>)
    requires Joined(body, token, rest)
    ensures forall other :: Joined(body, token, other) ==> other == rest
  {
    assert body[|token|..] == rest;
    forall other | Joined(body, token, other) ensures other == rest {
      assert body[|token|..] == other;
    }
  }

  lemma BlankBeyond(part: seq<byte>, buffer: seq<byte>)
    requires Starts(buffer, part) && Find(buffer, BLANK_LINE, 0).None?
    ensures Find(part, BLANK_LINE, 0).Some? ==> Find(part, BLANK_LINE, 0).value + 4 > |buffer| && buffer != part
  {
    FindIs(part, BLANK_LINE, 0);
    NoneInRest(BLANK_LINE, part, buffer);
  }

  lemma FindStarts(whole: seq<byte>, pat: seq<byte>, buffer: seq<byte>)
    requires Starts(buffer, whole) && Find(buffer, pat, 0).Some?
    ensures Find(whole, pat, 0) == Find(buffer, pat, 0)
  {
    assert whole == buffer + whole[|buffer|..];
    FindInPrefix(buffer, whole[|buffer|..], pat, 0);
  }

  lemma SplitTwice(part: seq<byte>, block: seq<byte>, middle: seq<byte>, blank: seq<byte>, rest: seq<byte>)
    requires Joined(part, block, middle) && Joined(middle, blank, rest)
    ensures SplitsAt(part, |block|, |blank|, block, rest)
  {
    assert part == block + (blank + rest);
  }

  // ---- The chunks yielded so far, and what is still to come ----

  ghost predicate DrainSoFar(
    d: seq<byte>, buffer0: seq<byte>, incoming0: seq<seq<byte>>,
    chunks: seq<seq<byte>>, buffer: seq<byte>, incoming: seq<seq<byte>>, from: nat)
    requires from <= |buffer|
  {
    var all, rest := Drain(d, buffer0, incoming0, 0), Drain(d, buffer, incoming, from);
    all.ok == rest.ok && all.out == Flatten(chunks) + rest.out
  }

  lemma DrainStart(d: seq<byte>, buffer: seq<byte>, incoming: seq<seq<byte>>)
    ensures DrainSoFar(d, buffer, incoming, [], buffer, incoming, 0)
  {
    var all := Drain(d, buffer, incoming, 0);
    hide Drain;
    assert all.out == Flatten([]) + all.out;
  }

  lemma TerminatorDecides(d: seq<byte>, buffer: seq<byte>, from: nat)
    ensures var pos := Find(buffer, d, from);
            pos.Some? ==>
              pos.value + |d| <= |buffer| &&
              (|buffer| >= pos.value + Keep(d) ==>
                (EndsHere(buffer, d, pos.value) <==> buffer[pos.value + |d|..pos.value + Keep(d)] in {DASHES, CRLF}))
  {
    FindIs(buffer, d, from);
  }

  lemma DrainDone(
    d: seq<byte>, buffer0: seq<byte>, incoming0: seq<seq<byte>>,
    chunks: seq<seq<byte>>, buffer: seq<byte>, incoming: seq<seq<byte>>, from: nat)
    requires from <= |buffer| && DrainSoFar(d, buffer0, incoming0, chunks, buffer, incoming, from)
    requires Next(d, buffer, from).Done?
    ensures Next(d, buffer, from).pos <= |buffer|
    ensures Drain(d, buffer0, incoming0, 0) == Drained(Flatten(chunks + [buffer[..Next(d, buffer, from).pos]]), true)
  {
    NextFits(d, buffer, from);
    FlattenSnoc(chunks, buffer[..Next(d, buffer, from).pos]);
  }

  lemma DrainSkip(
    d: seq<byte>, buffer0: seq<byte>, incoming0: seq<seq<byte>>,
    chunks: seq<seq<byte>>, buffer: seq<byte>, incoming: seq<seq<byte>>, from: nat)
    requires from <= |buffer| && DrainSoFar(d, buffer0, incoming0, chunks, buffer, incoming, from)
    requires Next(d, buffer, from).Skip?
    ensures from < Next(d, buffer, from).from <= |buffer|
    ensures DrainSoFar(d, buffer0, incoming0, chunks, buffer, incoming, Next(d, buffer, from).from)
  {
    NextFits(d, buffer, from);
  }

  /** The first n bytes of the buffer, if any, were yielded as one more chunk. */
  ghost predicate Yielded(
    buffer: seq<byte>, chunks: seq<seq<byte>>, n: nat, buffer': seq<byte>, chunks': seq<seq<byte>>)
  {
    n <= |buffer| && buffer' == buffer[n..] && chunks' == if n > 0 then chunks + [buffer[..n]] else chunks
  }

  lemma YieldPiece(buffer: seq<byte>, chunks: seq<seq<byte>>, n: nat, piece: seq<byte>, buffer': seq<byte>)
    requires CutAt(buffer, n, piece, buffer') && n > 0
    ensures Yielded(buffer, chunks, n, buffer', chunks + [piece])
  {
  }

  lemma YieldNothing(buffer: seq<byte>, chunks: seq<seq<byte>>)
    ensures Yielded(buffer, chunks, 0, buffer, chunks)
  {
    assert buffer[0..] == buffer;
  }

  lemma DrainRelease(
    d: seq<byte>, buffer0: seq<byte>, incoming0: seq<seq<byte>>,
    chunks: seq<seq<byte>>, buffer: seq<byte>, incoming: seq<seq<byte>>, from: nat,
    chunks': seq<seq<byte>>, buffer': seq<byte>)
    requires from <= |buffer| && DrainSoFar(d, buffer0, incoming0, chunks, buffer, incoming, from)
    requires Next(d, buffer, from).Release?
    requires Yielded(buffer, chunks, Next(d, buffer, from).n, buffer', chunks')
    ensures var from' := Next(d, buffer, from).from;
            && from' <= |buffer'|
            && (incoming == [] ==> Drain(d, buffer0, incoming0, 0) == Drained(Flatten(chunks'), false))
            && (incoming != [] ==> DrainSoFar(d, buffer0, incoming0, chunks', buffer' + incoming[0], incoming[1..], from'))
  {
    NextFits(d, buffer, from);
    var s := Next(d, buffer, from);
    var all, rest := Drain(d, buffer0, incoming0, 0), Drain(d, buffer, incoming, from);
    FlattenSnoc(chunks, buffer[..s.n]);
    if s.n == 0 {
      assert Flatten(chunks) + buffer[..0] == Flatten(chunks);
    }
    assert Flatten(chunks') == Flatten(chunks) + buffer[..s.n];
    if incoming == [] {
      assert rest == Drained(buffer[..s.n], false);
    } else {
      var later := Drain(d, buffer' + incoming[0], incoming[1..], s.from);
      assert rest == Drained(buffer[..s.n] + later.out, later.ok);
      hide *;
      Regroup(Flatten(chunks), buffer[..s.n], later.out);
    }
  }

  // ---- The streaming steps follow the whole-body parse ----

  lemma LargestOf(p: Parsed, n: nat)
    ensures WithLargest(p, n).Parsed? == p.Parsed?
    ensures p.Parsed? ==> WithLargest(p, n).largest >= p.largest
    ensures WithLargest(p, 0) == p
  {
  }

  lemma WholeAtFirst(boundary: seq<byte>, classify: Classify, maxField: nat, body: seq<byte>)
    ensures (forall rest :: Joined(body, Token(boundary), rest) ==> !AtLineEnd(rest)) ==>
              ParseWhole(boundary, classify, maxField, body).Refused?
  {
    var token := Token(boundary);
    if token <= body {
      assert Joined(body, token, body[|token|..]);
    }
  }

  lemma WholeAtToken(boundary: seq<byte>, classify: Classify, maxField: nat, body: seq<byte>, rest: seq<byte>)
    requires Joined(body, Token(boundary), rest)
    ensures ParseWhole(boundary, classify, maxField, body) ==
            WithLargest(ParseParts(boundary, classify, maxField, rest, map[]), 0)
  {
    assert body[|Token(boundary)|..] == rest;
    hide ParseParts;
    LargestOf(ParseParts(boundary, classify, maxField, rest, map[]), 0);
  }

  lemma PartStep(boundary: seq<byte>, classify: Classify, maxField: nat, at: seq<byte>, fields: Fields)
    requires AtLineEnd(at)
    ensures var blank, p := Find(at[2..], BLANK_LINE, 0), ParseParts(boundary, classify, maxField, at, fields);
            p.Parsed? ==> blank.Some? && p.largest >= blank.value + 4
  {
    hide Find;
  }

  /** Where the header block of the part at hand ends, and what follows it. */
  ghost predicate HeadersEnd(at: seq<byte>, block: seq<byte>, rest: seq<byte>)
  {
    && AtLineEnd(at)
    && Find(at[2..], BLANK_LINE, 0) == Some(|block|)
    && SplitsAt(at[2..], |block|, 4, block, rest)
  }

  lemma HeadersEndHere(at: seq<byte>, block: seq<byte>, rest: seq<byte>)
    requires AtLineEnd(at) && Find(at[2..], BLANK_LINE, 0) == Some(|block|) && SplitsAt(at[2..], |block|, 4, block, rest)
    ensures HeadersEnd(at, block, rest)
  {
  }

  lemma WholeAtFile(boundary: seq<byte>, classify: Classify, maxField: nat, at: seq<byte>, fields: Fields,
                    block: seq<byte>, rest: seq<byte>, largest: nat)
    requires HeadersEnd(at, block, rest) && classify(block).FilePart?
    ensures var p := WithLargest(ParseParts(boundary, classify, maxField, at, fields), largest);
            p.Parsed? && p.fields == fields && p.rest == rest
  {
    hide Find;
  }

  lemma WholeAtField(boundary: seq<byte>, classify: Classify, maxField: nat, at: seq<byte>, fields: Fields,
                     block: seq<byte>, rest: seq<byte>, largest: nat)
    requires HeadersEnd(at, block, rest) && !classify(block).FilePart?
    ensures var end := Find(rest, Delimiter(boundary), 0);
            end.None? || end.value > maxField ==>
              WithLargest(ParseParts(boundary, classify, maxField, at, fields), largest).Refused?
  {
    hide Find, Delimiter;
  }

  lemma WholePastField(boundary: seq<byte>, classify: Classify, maxField: nat, at: seq<byte>, fields: Fields,
                       block: seq<byte>, rest: seq<byte>, payload: seq<byte>, back: seq<byte>, largest: nat)
    requires HeadersEnd(at, block, rest) && !classify(block).FilePart?
    requires var end := Find(rest, Delimiter(boundary), 0);
             end.Some? && end.value <= maxField && SplitsAt(rest, end.value, |Delimiter(boundary)|, payload, back)
    ensures WithLargest(ParseParts(boundary, classify, maxField, at, fields), largest) ==
            WithLargest(ParseParts(boundary, classify, maxField, back, Store(fields, classify(block), payload)),
                        if largest < |block| + 4 then |block| + 4 else largest)
    ensures |back| < |at|
  {
    hide Find, Delimiter;
  }

  lemma WholeAtBadEnd(boundary: seq<byte>, classify: Classify, maxField: nat, rest: seq<byte>, fields: Fields, largest: nat)
    ensures !AtLineEnd(rest) ==> WithLargest(ParseParts(boundary, classify, maxField, rest, fields), largest).Refused?
  {
  }

  lemma FullReadsTail(incoming: seq<seq<byte>>)
    ensures FullReads(incoming) && incoming != [] ==> FullReads(incoming[1..])
    ensures FullReads([])
  {
  }

  /** got has been taken from the front of body, rest is what remains, and no delimiter
      starts within got. */
  ghost predicate Released(body: seq<byte>, delimiter: seq<byte>, got: seq<byte>, rest: seq<byte>)
  {
    body == got + rest && NoneIn(body, delimiter, 0, |got|)
  }

  lemma NoReleaseYet(body: seq<byte>, delimiter: seq<byte>)
    ensures Released(body, delimiter, [], body)
  {
  }

  lemma FoundInBuffer(
    body: seq<byte>, delimiter: seq<byte>, got: seq<byte>, rest: seq<byte>, buffer: seq<byte>)
    requires Released(body, delimiter, got, rest) && Starts(buffer, rest) && Find(buffer, delimiter, 0).Some?
    ensures Find(body, delimiter, 0) == Some(|got| + Find(buffer, delimiter, 0).value)
  {
    hide Find, Occurs, NoneIn;
    assert rest == buffer + rest[|buffer|..];
    FoundBehind(body, delimiter, got, rest);
    FindInPrefix(buffer, rest[|buffer|..], delimiter, 0);
  }

  /** Up to at the body is front, and past the next skip bytes it is back. */
  ghost predicate SplitsAt(body: seq<byte>, at: nat, skip: nat, front: seq<byte>, back: seq<byte>)
  {
    at + skip <= |body| && body[..at] == front && body[at + skip..] == back
  }

  lemma FoundFits(s: seq<byte>, pat: seq<byte>, from: nat)
    ensures Find(s, pat, from).Some? ==> from <= Find(s, pat, from).value && Find(s, pat, from).value + |pat| <= |s|
  {
    FindIs(s, pat, from);
  }

  lemma FoundBehind(body: seq<byte>, delimiter: seq<byte>, got: seq<byte>, rest: seq<byte>)
    requires Released(body, delimiter, got, rest)
    ensures body == got + rest
    ensures Find(body, delimiter, 0) ==
            if Find(rest, delimiter, 0).Some? then Some(|got| + Find(rest, delimiter, 0).value) else None
  {
    assert body[|got|..] == rest;
    hide Find, Occurs, NoneIn;
    FindDropped(body, delimiter, |got|);
  }

  /** Nothing is left that could hold a delimiter. */
  lemma Exhausted(body: seq<byte>, delimiter: seq<byte>, got: seq<byte>, rest: seq<byte>)
    requires Released(body, delimiter, got, rest)
    ensures |rest| < |delimiter| ==> Find(body, delimiter, 0).None?
  {
    FoundBehind(body, delimiter, got, rest);
  }

  lemma NoneInBuffer(
    body: seq<byte>, delimiter: seq<byte>, got: seq<byte>, rest: seq<byte>, buffer: seq<byte>, n: nat)
    requires Released(body, delimiter, got, rest) && Starts(buffer, rest) && Find(buffer, delimiter, 0).None?
    requires n <= |buffer| - |delimiter| + 1
    ensures NoneIn(body, delimiter, 0, |got| + n)
  {
    NoneInRest(delimiter, rest, buffer);
    hide Find, Starts;
    forall i | 0 <= i < |got| + n ensures !Occurs(body, delimiter, i) {
      hide Occurs;
      if |got| <= i {
        OccursBehind(got, rest, delimiter, i - |got|);
      }
    }
  }

  lemma NoneInRest(delimiter: seq<byte>, rest: seq<byte>, buffer: seq<byte>)
    requires Starts(buffer, rest) && Find(buffer, delimiter, 0).None?
    ensures NoneIn(rest, delimiter, 0, |buffer| - |delimiter| + 1)
  {
    assert rest == buffer + rest[|buffer|..];
    hide Find, Occurs, NoneIn;
    FindInPrefix(buffer, rest[|buffer|..], delimiter, 0);
  }

  lemma ReleaseMore(
    body: seq<byte>, delimiter: seq<byte>, got: seq<byte>, rest: seq<byte>, buffer: seq<byte>,
    piece: seq<byte>, rest': seq<byte>)
    requires Released(body, delimiter, got, rest) && Starts(buffer, rest) && Find(buffer, delimiter, 0).None?
    requires Joined(rest, piece, rest') && |piece| <= |buffer| - |delimiter| + 1
    ensures Released(body, delimiter, got + piece, rest') && |got + piece| == |got| + |piece|
  {
    hide Find, Occurs, NoneIn, Starts;
    NoneInBuffer(body, delimiter, got, rest, buffer, |piece|);
    assert got + (piece + rest') == (got + piece) + rest';
  }

  lemma TooMuchReleased(body: seq<byte>, delimiter: seq<byte>, got: seq<byte>, rest: seq<byte>)
    requires Released(body, delimiter, got, rest)
    ensures Find(body, delimiter, 0).Some? ==> Find(body, delimiter, 0).value >= |got|
  {
    FindIs(body, delimiter, 0);
  }
}
