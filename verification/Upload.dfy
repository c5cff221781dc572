/** An upload from end to end: a multipart body is parsed as it arrives, and its file part is
    written into the sandbox slice by slice. */
module Upload {
  import opened Wrappers
  import opened Bytes
  import opened FileStream
  import opened Multipart
  import Sandbox

  // ---- The body that a client sends ----

  datatype Part = Part(block: seq<byte>, payload: seq<byte>)

  function FilePartOf(boundary: seq<byte>, file: Part, epilogue: seq<byte>): seq<byte>
  {
    file.payload + Delimiter(boundary) + (DASHES + epilogue)
  }

  /** The parts behind the opening boundary token, the file part last. */
  function EncodeParts(boundary: seq<byte>, parts: seq<Part>, file: Part, epilogue: seq<byte>): seq<byte>
  {
    if parts == [] then CRLF + (file.block + BLANK_LINE + FilePartOf(boundary, file, epilogue))
    else
      CRLF + (parts[0].block + BLANK_LINE +
        (parts[0].payload + Delimiter(boundary) + EncodeParts(boundary, parts[1..], file, epilogue)))
  }

  function Encode(boundary: seq<byte>, parts: seq<Part>, file: Part, epilogue: seq<byte>): seq<byte>
  {
    Token(boundary) + EncodeParts(boundary, parts, file, epilogue)
  }

  /** The header block holds no blank line, and the payload no delimiter. */
  predicate WellFormed(boundary: seq<byte>, p: Part)
  {
    && Find(p.block + BLANK_LINE, BLANK_LINE, 0) == Some(|p.block|)
    && Find(p.payload + Delimiter(boundary), Delimiter(boundary), 0) == Some(|p.payload|)
  }

  ghost predicate Sendable(boundary: seq<byte>, classify: Classify, maxField: nat, parts: seq<Part>, file: Part)
  {
    && WellFormed(boundary, file) && classify(file.block).FilePart?
    && (forall k | 0 <= k < |parts| ::
          WellFormed(boundary, parts[k]) && !classify(parts[k].block).FilePart? && |parts[k].payload| <= maxField)
  }

  function FieldsOf(classify: Classify, parts: seq<Part>, fields: Fields): Fields
  {
    if parts == [] then fields
    else FieldsOf(classify, parts[1..], Store(fields, classify(parts[0].block), parts[0].payload))
  }

  /** Part k is the field of this name. */
  predicate Names(classify: Classify, parts: seq<Part>, k: int, name: seq<byte>)
  {
    0 <= k < |parts| && classify(parts[k].block) == Field(name)
  }

  predicate LastNames(classify: Classify, parts: seq<Part>, k: int, name: seq<byte>)
  {
    Names(classify, parts, k, name) && forall j | k < j < |parts| :: !Names(classify, parts, j, name)
  }

  /** The fields are those that some part names, each with the payload of the last such part. */
  ghost predicate IsForm(classify: Classify, parts: seq<Part>, fields: Fields)
  {
    && (forall name :: name in fields <==> exists k :: Names(classify, parts, k, name))
    && (forall k, name | LastNames(classify, parts, k, name) :: name in fields && fields[name] == parts[k].payload)
  }

  /** Only one form has these fields. */
  lemma OneForm(classify: Classify, parts: seq<Part>, x: Fields, y: Fields)
    requires IsForm(classify, parts, x) && IsForm(classify, parts, y)
    ensures x == y
  {
    forall name | name in x ensures name in y && x[name] == y[name] {
      var k :| Names(classify, parts, k, name);
      var last := LastNamed(classify, parts, k, name);
    }
    forall name | name in y ensures name in x {
      var k :| Names(classify, parts, k, name);
    }
  }

  lemma LastNamed(classify: Classify, parts: seq<Part>, k: nat, name: seq<byte>) returns (last: nat)
    requires Names(classify, parts, k, name)
    ensures LastNames(classify, parts, last, name)
    decreases |parts| - k
  {
    if j :| k < j < |parts| && Names(classify, parts, j, name) {
      last := LastNamed(classify, parts, j, name);
    } else {
      last := k;
    }
  }

  /** From fields already there: those named last win. */
  ghost predicate FormOver(classify: Classify, parts: seq<Part>, before: Fields, fields: Fields)
  {
    && (forall name :: name in fields <==> name in before || exists k :: Names(classify, parts, k, name))
    && (forall k, name | LastNames(classify, parts, k, name) :: name in fields && fields[name] == parts[k].payload)
    && (forall name | name in before && !exists k :: Names(classify, parts, k, name) :: name in fields && fields[name] == before[name])
  }

  lemma NamesTail(classify: Classify, parts: seq<Part>, k: int, name: seq<byte>)
    requires parts != []
    ensures k > 0 ==> (Names(classify, parts, k, name) <==> Names(classify, parts[1..], k - 1, name))
  {
  }

  lemma SomeNames(classify: Classify, parts: seq<Part>, name: seq<byte>)
    requires parts != []
    ensures (exists k :: Names(classify, parts, k, name)) <==>
            Names(classify, parts, 0, name) || exists k :: Names(classify, parts[1..], k, name)
  {
    hide Names;
    if exists k :: Names(classify, parts, k, name) {
      var k :| Names(classify, parts, k, name);
      NamesWithin(classify, parts, k, name);
      NamesTail(classify, parts, k, name);
    }
    if exists k :: Names(classify, parts[1..], k, name) {
      var k :| Names(classify, parts[1..], k, name);
      NamesWithin(classify, parts[1..], k, name);
      NamesTail(classify, parts, k + 1, name);
    }
  }

  lemma NamesWithin(classify: Classify, parts: seq<Part>, k: int, name: seq<byte>)
    requires Names(classify, parts, k, name)
    ensures 0 <= k < |parts|
  {
  }

  lemma LastTail(classify: Classify, parts: seq<Part>, k: int, name: seq<byte>)
    requires parts != [] && LastNames(classify, parts, k, name)
    ensures k == 0 ==> !exists j :: Names(classify, parts[1..], j, name)
    ensures k > 0 ==> LastNames(classify, parts[1..], k - 1, name)
  {
    forall j | Names(classify, parts[1..], j, name) ensures j + 1 <= k {
      NamesTail(classify, parts, j + 1, name);
    }
    NamesTail(classify, parts, k, name);
  }

  lemma {:induction false} FieldsAreForm(classify: Classify, parts: seq<Part>, before: Fields)
    ensures FormOver(classify, parts, before, FieldsOf(classify, parts, before))
    decreases |parts|
  {
    if parts != [] {
      var p, rest := parts[0], parts[1..];
      var kind, stored := classify(p.block), Store(before, classify(p.block), p.payload);
      var fields := FieldsOf(classify, parts, before);
      FieldsAreForm(classify, rest, stored);
      hide FieldsOf, LastNames;
      forall name ensures name in fields <==> name in before || exists k :: Names(classify, parts, k, name) {
        SomeNames(classify, parts, name);
      }
      forall k, name | LastNames(classify, parts, k, name) ensures name in fields && fields[name] == parts[k].payload {
        LastTail(classify, parts, k, name);
        LastSays(classify, parts, k, name);
      }
      forall name | name in before && !exists k :: Names(classify, parts, k, name) ensures name in fields && fields[name] == before[name] {
        SomeNames(classify, parts, name);
      }
    }
  }

  lemma LastSays(classify: Classify, parts: seq<Part>, k: int, name: seq<byte>)
    requires LastNames(classify, parts, k, name)
    ensures Names(classify, parts, k, name)
  {
  }

  lemma FormOfAll(classify: Classify, parts: seq<Part>)
    ensures IsForm(classify, parts, FieldsOf(classify, parts, map[]))
  {
    FieldsAreForm(classify, parts, map[]);
    hide FieldsOf, LastNames, Names;
  }

  function LongestBlock(parts: seq<Part>, file: Part): nat
  {
    if parts == [] then |file.block| + 4
    else
      var rest := LongestBlock(parts[1..], file);
      if rest < |parts[0].block| + 4 then |parts[0].block| + 4 else rest
  }

  lemma BlockEnds(boundary: seq<byte>, p: Part, rest: seq<byte>)
    requires WellFormed(boundary, p)
    ensures HeadersEnd(CRLF + (p.block + BLANK_LINE + rest), p.block, rest)
  {
    var after := p.block + BLANK_LINE + rest;
    var at := CRLF + after;
    hide Find;
    FindDelimited(p.block, BLANK_LINE, rest);
    assert at[2..] == after && at[..2] == CRLF;
    assert after[..|p.block|] == p.block && after[|p.block| + 4..] == rest;
  }

  lemma PayloadEnds(boundary: seq<byte>, p: Part, rest: seq<byte>)
    requires WellFormed(boundary, p)
    ensures var s, d := p.payload + Delimiter(boundary) + rest, Delimiter(boundary);
            Find(s, d, 0) == Some(|p.payload|) && SplitsAt(s, |p.payload|, |d|, p.payload, rest)
  {
    var d := Delimiter(boundary);
    var s := p.payload + d + rest;
    hide Find, Delimiter;
    FindDelimited(p.payload, d, rest);
    assert s[..|p.payload|] == p.payload && s[|p.payload| + |d|..] == rest;
  }

  /** Parts and then the header block of a file part, with whatever stands behind it. */
  function Lead(boundary: seq<byte>, parts: seq<Part>, block: seq<byte>, rest: seq<byte>): seq<byte>
  {
    if parts == [] then CRLF + (block + BLANK_LINE + rest)
    else
      CRLF + (parts[0].block + BLANK_LINE + (parts[0].payload + Delimiter(boundary) + Lead(boundary, parts[1..], block, rest)))
  }

  predicate BlockOk(block: seq<byte>) { Find(block + BLANK_LINE, BLANK_LINE, 0) == Some(|block|) }

  /** The fields of a form, and the header block of its file part. */
  ghost predicate IsLead(boundary: seq<byte>, classify: Classify, maxField: nat, parts: seq<Part>, block: seq<byte>)
  {
    && BlockOk(block) && classify(block).FilePart?
    && (forall k | 0 <= k < |parts| ::
          WellFormed(boundary, parts[k]) && !classify(parts[k].block).FilePart? && |parts[k].payload| <= maxField)
  }

  lemma {:induction false} EncodedLeads(boundary: seq<byte>, parts: seq<Part>, file: Part, epilogue: seq<byte>)
    ensures EncodeParts(boundary, parts, file, epilogue) == Lead(boundary, parts, file.block, FilePartOf(boundary, file, epilogue))
    decreases |parts|
  {
    hide Delimiter, FilePartOf;
    if parts != [] {
      EncodedLeads(boundary, parts[1..], file, epilogue);
    }
  }

  lemma LeadBlockEnds(block: seq<byte>, rest: seq<byte>)
    requires BlockOk(block)
    ensures HeadersEnd(CRLF + (block + BLANK_LINE + rest), block, rest)
  {
    var after := block + BLANK_LINE + rest;
    var at := CRLF + after;
    hide Find;
    FindDelimited(block, BLANK_LINE, rest);
    assert at[2..] == after && at[..2] == CRLF;
    assert after[..|block|] == block && after[|block| + 4..] == rest;
  }

  /** Parsing a form up to its file part gives its fields and what stands behind. */
  lemma {:induction false} ParseLead(boundary: seq<byte>, classify: Classify, maxField: nat, parts: seq<Part>,
                                     block: seq<byte>, rest: seq<byte>, fields: Fields)
    requires IsLead(boundary, classify, maxField, parts, block)
    ensures ParseParts(boundary, classify, maxField, Lead(boundary, parts, block, rest), fields)
            == Parsed(FieldsOf(classify, parts, fields), rest, LongestBlock(parts, Part(block, [])))
    decreases |parts|
  {
    var at := Lead(boundary, parts, block, rest);
    hide ParseParts, Find, HeadersEnd, SplitsAt, Delimiter, BlockOk;
    if parts == [] {
      LeadBlockEnds(block, rest);
      ParseFileNext(boundary, classify, maxField, at, fields, block, rest);
    } else {
      var p, back := parts[0], Lead(boundary, parts[1..], block, rest);
      var behind := p.payload + Delimiter(boundary) + back;
      BlockEnds(boundary, p, behind);
      PayloadEnds(boundary, p, back);
      WholePastField(boundary, classify, maxField, at, fields, p.block, behind, p.payload, back, 0);
      LargestOf(ParseParts(boundary, classify, maxField, at, fields), 0);
      ParseLead(boundary, classify, maxField, parts[1..], block, rest, Store(fields, classify(p.block), p.payload));
    }
  }

  lemma {:induction false} SameLongest(parts: seq<Part>, x: Part, y: Part)
    requires x.block == y.block
    ensures LongestBlock(parts, x) == LongestBlock(parts, y)
  {
    if parts != [] {
      SameLongest(parts[1..], x, y);
    }
  }

  /** The whole-body parse of an encoded body gives back what was encoded. */
  lemma ParseEncodedParts(
    boundary: seq<byte>, classify: Classify, maxField: nat, parts: seq<Part>, file: Part, epilogue: seq<byte>, fields: Fields)
    requires Sendable(boundary, classify, maxField, parts, file)
    ensures ParseParts(boundary, classify, maxField, EncodeParts(boundary, parts, file, epilogue), fields)
            == Parsed(FieldsOf(classify, parts, fields), FilePartOf(boundary, file, epilogue), LongestBlock(parts, file))
  {
    EncodedLeads(boundary, parts, file, epilogue);
    ParseLead(boundary, classify, maxField, parts, file.block, FilePartOf(boundary, file, epilogue), fields);
    SameLongest(parts, file, Part(file.block, []));
    hide ParseParts, Lead, EncodeParts, FieldsOf, LongestBlock, FilePartOf;
  }

  lemma CutBlock(at: seq<byte>) returns (block: seq<byte>, rest: seq<byte>)
    requires |at| >= 2 && at[..2] == CRLF && Find(at[2..], BLANK_LINE, 0).Some?
    ensures var n := Find(at[2..], BLANK_LINE, 0).value;
            && n + 4 <= |at[2..]| && block == at[2..][..n] && rest == at[2..][n + 4..]
    ensures BlockOk(block) && at == CRLF + (block + BLANK_LINE + rest)
  {
    var part := at[2..];
    var n := Find(part, BLANK_LINE, 0).value;
    FindIs(part, BLANK_LINE, 0);
    block, rest := part[..n], part[n + 4..];
    assert part[n..n + 4] == BLANK_LINE;
    assert part == block + BLANK_LINE + rest && at == at[..2] + part;
    FirstAlone(block, BLANK_LINE, rest);
  }

  /** What is found first is found first without what stands behind it. */
  lemma FirstAlone(x: seq<byte>, d: seq<byte>, rest: seq<byte>)
    requires Find(x + d + rest, d, 0) == Some(|x|)
    ensures Find(x + d, d, 0) == Some(|x|)
  {
    FindIs(x + d + rest, d, 0);
    forall i | 0 <= i < |x| ensures !Occurs(x + d, d, i) {
      OccursInPrefix(x + d, rest, d, i);
    }
    assert (x + d)[|x|..|x| + |d|] == d;
    FoundFirst(x + d, d, 0, |x|);
  }

  lemma CutPayload(boundary: seq<byte>, block: seq<byte>, rest: seq<byte>) returns (p: Part, back: seq<byte>)
    requires BlockOk(block) && Find(rest, Delimiter(boundary), 0).Some?
    ensures var n, d := Find(rest, Delimiter(boundary), 0).value, Delimiter(boundary);
            n + |d| <= |rest| && p == Part(block, rest[..n]) && back == rest[n + |d|..] && rest == p.payload + d + back
    ensures WellFormed(boundary, p)
  {
    var d := Delimiter(boundary);
    var n := Find(rest, d, 0).value;
    FindIs(rest, d, 0);
    p, back := Part(block, rest[..n]), rest[n + |d|..];
    assert rest[n..n + |d|] == d;
    assert rest == p.payload + d + back;
    FirstAlone(p.payload, d, back);
  }

  /** Only forms are parsed: whatever body is accepted is the fields of one, up to a file part. */
  lemma {:induction false} ParsedIsLead(boundary: seq<byte>, classify: Classify, maxField: nat, body: seq<byte>, fields: Fields)
    returns (parts: seq<Part>, block: seq<byte>)
    requires ParseParts(boundary, classify, maxField, body, fields).Parsed?
    ensures IsLead(boundary, classify, maxField, parts, block)
    ensures body == Lead(boundary, parts, block, ParseParts(boundary, classify, maxField, body, fields).rest)
    decreases |body|
  {
    var b, rest := CutBlock(body);
    if classify(b).FilePart? {
      parts, block := [], b;
    } else {
      var p, back := CutPayload(boundary, b, rest);
      var fields' := Store(fields, classify(b), p.payload);
      var more;
      more, block := ParsedIsLead(boundary, classify, maxField, back, fields');
      parts := [p] + more;
      hide Find, Delimiter, WellFormed, BlockOk;
      assert parts[1..] == more;
    }
  }

  /** A body is accepted exactly when it is a form up to a file part, whose fields and rest it
      then gives. */
  lemma ParsedIff(boundary: seq<byte>, classify: Classify, maxField: nat, body: seq<byte>)
    ensures var r := ParseWhole(boundary, classify, maxField, body);
            && (r.Parsed? <==> exists parts, block, rest :: FormOf(boundary, classify, maxField, body, parts, block, rest))
            && (forall parts, block, rest | FormOf(boundary, classify, maxField, body, parts, block, rest) ::
                  r.Parsed? && r.rest == rest && IsForm(classify, parts, r.fields) && r.largest == LongestBlock(parts, Part(block, [])))
  {
    var r := ParseWhole(boundary, classify, maxField, body);
    forall parts, block, rest | FormOf(boundary, classify, maxField, body, parts, block, rest)
      ensures r.Parsed? && r.rest == rest && IsForm(classify, parts, r.fields) && r.largest == LongestBlock(parts, Part(block, []))
    {
      ParseLead(boundary, classify, maxField, parts, block, rest, map[]);
      FormOfAll(classify, parts);
      hide ParseParts, Lead, IsForm, IsLead, LongestBlock;
      assert body[|Token(boundary)|..] == Lead(boundary, parts, block, rest);
    }
    if r.Parsed? {
      var parts, block := ParsedIsLead(boundary, classify, maxField, body[|Token(boundary)|..], map[]);
      hide ParseParts, Lead, IsLead;
      assert body == Token(boundary) + body[|Token(boundary)|..];
      assert FormOf(boundary, classify, maxField, body, parts, block, r.rest);
    }
  }

  ghost predicate FormOf(boundary: seq<byte>, classify: Classify, maxField: nat, body: seq<byte>,
                         parts: seq<Part>, block: seq<byte>, rest: seq<byte>)
  {
    IsLead(boundary, classify, maxField, parts, block) && body == Token(boundary) + Lead(boundary, parts, block, rest)
  }

  lemma ParseFileNext(
    boundary: seq<byte>, classify: Classify, maxField: nat, at: seq<byte>, fields: Fields, block: seq<byte>, rest: seq<byte>)
    requires HeadersEnd(at, block, rest) && classify(block).FilePart?
    ensures ParseParts(boundary, classify, maxField, at, fields) == Parsed(fields, rest, |block| + 4)
  {
    hide Find;
  }

  lemma ParseOfEncoded(
    boundary: seq<byte>, classify: Classify, maxField: nat, parts: seq<Part>, file: Part, epilogue: seq<byte>)
    requires Sendable(boundary, classify, maxField, parts, file)
    ensures ParseWhole(boundary, classify, maxField, Encode(boundary, parts, file, epilogue))
            == Parsed(FieldsOf(classify, parts, map[]), FilePartOf(boundary, file, epilogue), LongestBlock(parts, file))
    ensures IsForm(classify, parts, FieldsOf(classify, parts, map[]))
  {
    FormOfAll(classify, parts);
    ParseEncodedParts(boundary, classify, maxField, parts, file, epilogue, map[]);
    hide ParseParts, EncodeParts;
    assert Encode(boundary, parts, file, epilogue)[|Token(boundary)|..] == EncodeParts(boundary, parts, file, epilogue);
  }

  /** The file part's payload ends where its encoding says. */
  lemma PayloadIsFirstEnd(boundary: seq<byte>, file: Part, epilogue: seq<byte>)
    requires WellFormed(boundary, file)
    ensures var s, d := FilePartOf(boundary, file, epilogue), Delimiter(boundary);
            FirstEnd(s, d, |file.payload|) && !Shadowed(s, d, |file.payload|) && s[..|file.payload|] == file.payload
  {
    var d := Delimiter(boundary);
    var s := FilePartOf(boundary, file, epilogue);
    var n := |file.payload|;
    PayloadEnds(boundary, file, DASHES + epilogue);
    FindIs(s, d, 0);
    hide Find, Delimiter, Shadowed;
    assert s[n + |d|..][..2] == DASHES;
    assert s[n + |d|..n + Keep(d)] == s[n + |d|..][..2];
    NotShadowed(s, d, n);
  }

  lemma NotShadowed(s: seq<byte>, d: seq<byte>, n: nat)
    requires NoneIn(s, d, 0, n)
    ensures !Shadowed(s, d, n)
  {
    forall f | n - Keep(d) < f < n ensures !Occurs(s, d, f) {
    }
  }

  /** Whatever the reads are, once the parser stands at the file part the chunks it yields
      make up exactly the payload. */
  lemma PayloadStreams(boundary: seq<byte>, file: Part, epilogue: seq<byte>, buffer: seq<byte>, incoming: seq<seq<byte>>)
    requires WellFormed(boundary, file)
    requires buffer + Flatten(incoming) == FilePartOf(boundary, file, epilogue)
    ensures Drain(Delimiter(boundary), buffer, incoming, 0) == Drained(file.payload, true)
  {
    PayloadIsFirstEnd(boundary, file, epilogue);
    hide Drain, FirstEnd, Shadowed, FilePartOf;
    DrainReachesEnd(Delimiter(boundary), buffer, incoming, 0, |file.payload|);
  }

  // ---- The request handler ----

  datatype Response = BadBody(error: Error) | Answer(result: Sandbox.WriteResult)

  /** Where the handler found the payload: what was buffered and what was still to be read
      when the file part began. */
  datatype Split = Split(buffer: seq<byte>, incoming: seq<seq<byte>>)

  /** Parses the body as it arrives and writes its file part to the path that its fields name. */
  method HandleUpload(
    parser: StreamingMultipartParser, classify: Classify, pathOf: Fields -> string, modeOf: Fields -> bool, box: Sandbox.Box)
    returns (r: Response, ghost at: Split, ghost took: bool)
    requires parser.Valid() && parser.buffer == []
    modifies parser, box
    ensures var whole := ParseWhole(parser.boundary, classify, parser.maxField, old(parser.Rest()));
            // A body that a whole-body parser accepts, in full reads and with short headers, is accepted.
            && (r.BadBody? && FullReads(old(parser.incoming)) && |Token(parser.boundary)| + READ_CHUNK <= MAX_PREAMBLE ==>
                  whole.Refused? || whole.largest > MAX_PART_HEADERS)
            && (r.BadBody? ==> box.files == old(box.files))
            && (r.Answer? ==> whole.Parsed? && at.buffer + Flatten(at.incoming) == whole.rest)
            && (r.Answer? ==>
                  var sent := Drain(Delimiter(parser.boundary), at.buffer, at.incoming, 0);
                  Sandbox.Outcome(pathOf(whole.fields), sent.out, sent.ok, modeOf(whole.fields),
                                  old(box.files), old(box.fates), box.files, r.result, took))
  {
    hide *;
    at, took := Split([], []), false;
    var f := parser.Parse(classify);
    if f.Failure? {
      return BadBody(f.error), at, took;
    }
    at := Split(parser.buffer, parser.incoming);
    RestAt(parser);
    var chunks, ok := parser.DrainFile();
    ghost var cleaned;
    var w;
    w, took, cleaned := Sandbox.WriteFileStream(box, pathOf(f.value), chunks, ok, modeOf(f.value));
    r := Answer(w);
  }

  lemma RestAt(parser: StreamingMultipartParser)
    ensures parser.Rest() == parser.buffer + Flatten(parser.incoming)
  {
  }

  /** The whole way: an encoded form, read in full 64 KiB reads at whatever offsets its parts
      have, is always parsed to its fields, and when the answer says the file was written, the
      target holds exactly the file part's payload. */
  method UploadEncoded(
    boundary: seq<byte>, maxField: nat, incoming: seq<seq<byte>>, classify: Classify,
    pathOf: Fields -> string, modeOf: Fields -> bool, box: Sandbox.Box,
    ghost parts: seq<Part>, ghost file: Part, ghost epilogue: seq<byte>)
    returns (r: Response, ghost took: bool)
    requires WellRead(incoming) && FullReads(incoming)
    requires |Token(boundary)| + READ_CHUNK <= MAX_PREAMBLE
    requires Sendable(boundary, classify, maxField, parts, file) && LongestBlock(parts, file) <= MAX_PART_HEADERS
    requires Flatten(incoming) == Encode(boundary, parts, file, epilogue)
    modifies box
    ensures r.Answer? && IsForm(classify, parts, FieldsOf(classify, parts, map[]))
    ensures var fields := FieldsOf(classify, parts, map[]);
            Sandbox.Outcome(pathOf(fields), file.payload, true, modeOf(fields), old(box.files), old(box.fates), box.files, r.result, took)
  {
    hide *;
    var parser := new StreamingMultipartParser(incoming, boundary, maxField);
    ghost var at;
    ParseOfEncoded(boundary, classify, maxField, parts, file, epilogue);
    SendableFile(boundary, classify, maxField, parts, file);
    r, at, took := HandleUpload(parser, classify, pathOf, modeOf, box);
    if r.Answer? {
      PayloadStreams(boundary, file, epilogue, at.buffer, at.incoming);
    }
  }

  lemma SendableFile(boundary: seq<byte>, classify: Classify, maxField: nat, parts: seq<Part>, file: Part)
    requires Sendable(boundary, classify, maxField, parts, file)
    ensures WellFormed(boundary, file)
  {
  }
}
