/** What progress over a whole run of frames is, read off the frames. */
module ProgressLaw {
  import opened Wrappers
  import opened Decimals
  import opened Progress

  // ---- One frame ----

  /** Something of the frame is new. */
  ghost predicate Moves(s: State, f: Frame)
  {
    || (f.status.Some? && f.status.value != s.status)
    || (exists e :: e in f.logs && LogIdAfter(e.logId, s.lastLogId))
    || (f.ai.Some? && f.ai.value.chunk.Some? && f.ai.value.next > s.aiCursor)
    || (f.ai.Some? && f.ai.value.complete && !s.aiComplete)
  }

  lemma {:induction false} LastIdMoves(logs: seq<Entry>, lastId: string, entries: seq<Entry>)
    requires LogsOk(logs, lastId) && DecimalIds(entries)
    ensures Absorbed(logs, lastId, entries).1 != lastId <==> exists e :: e in entries && LogIdAfter(e.logId, lastId)
    decreases |entries|
  {
    if entries != [] {
      AbsorbedStep(logs, lastId, entries);
      var e := entries[0];
      if LogIdAfter(e.logId, lastId) {
        AbsorbedOk(logs, lastId, entries);
        assert e in entries;
        hide LogIdAfter, Absorbed, LogsOk;
      } else {
        hide LogIdAfter, LogsOk;
        LastIdMoves(logs, lastId, entries[1..]);
      }
    }
  }

  lemma CursorMoves(s: State, f: Frame)
    ensures Absorbing(s, f).aiCursor != s.aiCursor <==> f.ai.Some? && f.ai.value.chunk.Some? && f.ai.value.next > s.aiCursor
  {
    hide Absorbed, Skipped, ByteLength, Last;
  }

  lemma AbsorbingSays(s: State, f: Frame)
    ensures var t := Absorbing(s, f);
            && t.status == (if f.status.Some? then f.status.value else s.status)
            && t.lastLogId == Absorbed(s.logs, s.lastLogId, f.logs).1
            && t.aiComplete == (s.aiComplete || (f.ai.Some? && f.ai.value.complete))
            && t.aiTotalBytes == (if f.ai.Some? then f.ai.value.total else s.aiTotalBytes)
            && t.version == s.version
  {
    hide Absorbed, Appended, Last;
  }

  /** The version moves, by one, exactly when something of the frame is new. */
  lemma VersionMovesIff(s: State, f: Frame)
    requires StateOk(s) && DecimalIds(f.logs)
    ensures Applied(s, f).version == s.version + if Moves(s, f) then 1 else 0
  {
    AbsorbingSays(s, f);
    CursorMoves(s, f);
    LastIdMoves(s.logs, s.lastLogId, f.logs);
    hide Absorbing, Absorbed, LogIdAfter;
  }

  // ---- A whole run ----

  function RunOf(fs: seq<Frame>): State
  {
    if fs == [] then NEW_STATE else Applied(RunOf(fs[..|fs| - 1]), fs[|fs| - 1])
  }

  function StatusOf(fs: seq<Frame>): string
  {
    if fs == [] then ""
    else if fs[|fs| - 1].status.Some? then fs[|fs| - 1].status.value
    else StatusOf(fs[..|fs| - 1])
  }

  function TotalOf(fs: seq<Frame>): nat
  {
    if fs == [] then 0
    else if fs[|fs| - 1].ai.Some? then fs[|fs| - 1].ai.value.total
    else TotalOf(fs[..|fs| - 1])
  }

  predicate Completes(f: Frame) { f.ai.Some? && f.ai.value.complete }

  function EntriesOf(fs: seq<Frame>): seq<Entry>
  {
    if fs == [] then [] else EntriesOf(fs[..|fs| - 1]) + fs[|fs| - 1].logs
  }

  /** The entry's number is greater than all before it. */
  predicate IsRecord(before: seq<Entry>, e: Entry)
  {
    forall k | 0 <= k < |before| :: ValueOf(before[k].logId) < ValueOf(e.logId)
  }

  /** The entries whose number is greater than all before them. */
  function Records(entries: seq<Entry>): seq<Entry>
  {
    if entries == [] then []
    else
      var init, last := entries[..|entries| - 1], entries[|entries| - 1];
      Records(init) + if IsRecord(init, last) then [last] else []
  }

  function LastIdOf(records: seq<Entry>): string { if records == [] then "" else records[|records| - 1].logId }

  ghost predicate AtMost(entries: seq<Entry>, v: int)
  {
    forall k | 0 <= k < |entries| :: ValueOf(entries[k].logId) <= v
  }

  lemma RecordSnoc(init: seq<Entry>, last: Entry, v: int)
    requires AtMost(init, v)
    ensures IsRecord(init, last) ==> AtMost(init + [last], ValueOf(last.logId))
    ensures !IsRecord(init, last) ==> AtMost(init + [last], v)
  {
    hide ValueOf;
  }

  lemma RecordsSnoc(entries: seq<Entry>, e: Entry)
    ensures Records(entries + [e]) == Records(entries) + if IsRecord(entries, e) then [e] else []
  {
    assert (entries + [e])[..|entries|] == entries;
  }

  lemma LastOfSnoc(records: seq<Entry>, e: Entry)
    ensures LastIdOf(records + [e]) == e.logId && LastIdOf(records + []) == LastIdOf(records)
  {
    assert records + [] == records;
  }

  lemma FirstIsRecord(e: Entry)
    ensures IsRecord([], e)
  {
  }

  /** The last record has the greatest number. */
  lemma {:induction false} LastIsGreatest(entries: seq<Entry>)
    requires entries != []
    ensures Records(entries) != [] && Records(entries)[|Records(entries)| - 1] in entries
    ensures AtMost(entries, ValueOf(LastIdOf(Records(entries))))
    decreases |entries|
  {
    var n := |entries| - 1;
    var init, last := entries[..n], entries[n];
    assert entries == init + [last];
    RecordsSnoc(init, last);
    LastOfSnoc(Records(init), last);
    hide ValueOf, Records, IsRecord, AtMost, LastIdOf;
    if init == [] {
      FirstIsRecord(last);
      OnlyAtMost(last);
      assert entries == [last];
    } else {
      LastIsGreatest(init);
      RecordSnoc(init, last, ValueOf(LastIdOf(Records(init))));
      assert Records(init) + [] == Records(init);
    }
  }

  lemma OnlyAtMost(e: Entry)
    ensures AtMost([e], ValueOf(e.logId))
  {
  }

  lemma AfterNone(id: string)
    requires IsDecimal(id)
    ensures LogIdAfter(id, "")
  {
    EmptyIsFirst(id);
  }

  lemma IdOfIn(entries: seq<Entry>, e: Entry)
    requires DecimalIds(entries) && e in entries
    ensures IsDecimal(e.logId)
  {
    hide IsDecimal;
  }

  lemma RecordByGreatest(entries: seq<Entry>, e: Entry, greatest: Entry)
    requires greatest in entries && AtMost(entries, ValueOf(greatest.logId))
    ensures IsRecord(entries, e) <==> ValueOf(e.logId) > ValueOf(greatest.logId)
  {
    hide ValueOf;
    var k :| 0 <= k < |entries| && entries[k] == greatest;
  }

  lemma RecordIff(entries: seq<Entry>, e: Entry)
    requires DecimalIds(entries) && IsDecimal(e.logId)
    ensures IsRecord(entries, e) <==> LogIdAfter(e.logId, LastIdOf(Records(entries)))
  {
    if entries == [] {
      FirstIsRecord(e);
      AfterNone(e.logId);
    } else {
      LastIsGreatest(entries);
      var r := Records(entries);
      IdOfIn(entries, r[|r| - 1]);
      RecordByGreatest(entries, e, r[|r| - 1]);
      hide ValueOf, Records, Less, IsDecimal, IsRecord, AtMost, DecimalIds;
    }
  }

  lemma OnAbsorbed(before: seq<Entry>, e: Entry)
    requires DecimalIds(before) && IsDecimal(e.logId)
    ensures var r, last := Records(before), LastIdOf(Records(before));
            if LogIdAfter(e.logId, last) then Records(before + [e]) == r + [e] && LastIdOf(Records(before + [e])) == e.logId
            else Records(before + [e]) == r
  {
    RecordIff(before, e);
    RecordsSnoc(before, e);
    LastOfSnoc(Records(before), e);
    hide Records, IsRecord, LogIdAfter, LastIdOf, DecimalIds, IsDecimal;
    assert Records(before) + [] == Records(before);
  }

  lemma AbsorbedNone(before: seq<Entry>)
    ensures Absorbed(Records(before), LastIdOf(Records(before)), []) == (Records(before + []), LastIdOf(Records(before + [])))
  {
    assert before + [] == before;
  }

  /** Absorbing more entries takes the records on. */
  lemma {:induction false} AbsorbedRecords(before: seq<Entry>, entries: seq<Entry>)
    requires DecimalIds(before) && DecimalIds(entries)
    ensures Absorbed(Records(before), LastIdOf(Records(before)), entries) ==
            (Records(before + entries), LastIdOf(Records(before + entries)))
    decreases |entries|
  {
    hide *;
    if entries == [] {
      AbsorbedNone(before);
    } else {
      var e := entries[0];
      AbsorbedStep(Records(before), LastIdOf(Records(before)), entries);
      OnAbsorbed(before, e);
      DecimalSnoc(before, e);
      assert before + entries == (before + [e]) + entries[1..];
      AbsorbedRecords(before + [e], entries[1..]);
    }
  }

  lemma DecimalSnoc(before: seq<Entry>, e: Entry)
    requires DecimalIds(before) && IsDecimal(e.logId)
    ensures DecimalIds(before + [e])
  {
  }

  /** What is absorbed does not depend on what is there but for its last id. */
  lemma {:induction false} AbsorbedAppends(logs: seq<Entry>, lastId: string, entries: seq<Entry>)
    ensures var r := Absorbed([], lastId, entries); Absorbed(logs, lastId, entries) == (logs + r.0, r.1)
    decreases |entries|
  {
    hide LogIdAfter;
    assert logs + [] == logs;
    if entries != [] {
      var e := entries[0];
      if LogIdAfter(e.logId, lastId) {
        AbsorbedAppends(logs + [e], e.logId, entries[1..]);
        AbsorbedAppends([] + [e], e.logId, entries[1..]);
        var r := Absorbed([], e.logId, entries[1..]).0;
        assert logs + (([] + [e]) + r) == (logs + [e]) + r;
      } else {
        AbsorbedAppends(logs, lastId, entries[1..]);
      }
    }
  }

  /** Over any frames with decimal ids: the log is the last five hundred of the entries whose number
      is greater than all before them, each as it came; the status and the total are the last that
      were given; and it is complete exactly if some frame said so. */
  lemma {:induction false} RunShows(fs: seq<Frame>)
    requires forall k | 0 <= k < |fs| :: DecimalIds(fs[k].logs)
    ensures var s := RunOf(fs);
            && DecimalIds(EntriesOf(fs))
            && s.logs == Last(LOG_CAP, Records(EntriesOf(fs))) && s.lastLogId == LastIdOf(Records(EntriesOf(fs)))
            && s.status == StatusOf(fs) && s.aiTotalBytes == TotalOf(fs)
            && (s.aiComplete <==> AnyCompletes(fs))
    decreases |fs|
  {
    if fs != [] {
      var n := |fs| - 1;
      var init, f := fs[..n], fs[n];
      RunShows(init);
      LogsRun(RunOf(init), EntriesOf(init), f);
      AbsorbingSays(RunOf(init), f);
      AppliedSays(RunOf(init), f);
      DecimalConcat(EntriesOf(init), f.logs);
      CompletesSnoc(fs);
      hide DecimalIds, Records, Absorbing, Applied, Last, LastIdOf, AnyCompletes, Absorbed;
    }
  }

  predicate AnyCompletes(fs: seq<Frame>) { exists k :: 0 <= k < |fs| && Completes(fs[k]) }

  lemma CompletesSnoc(fs: seq<Frame>)
    requires fs != []
    ensures AnyCompletes(fs) <==> AnyCompletes(fs[..|fs| - 1]) || Completes(fs[|fs| - 1])
  {
    var n := |fs| - 1;
    if AnyCompletes(fs[..n]) {
      var k :| 0 <= k < n && Completes(fs[..n][k]);
      assert Completes(fs[k]);
    }
    if AnyCompletes(fs) {
      var k :| 0 <= k < |fs| && Completes(fs[k]);
      assert k < n ==> Completes(fs[..n][k]);
    }
  }

  lemma AppliedSays(s: State, f: Frame)
    ensures var t, u := Absorbing(s, f), Applied(s, f);
            u.status == t.status && u.aiTotalBytes == t.aiTotalBytes && u.aiComplete == t.aiComplete
  {
    hide Absorbing;
  }

  lemma DecimalConcat(x: seq<Entry>, y: seq<Entry>)
    requires DecimalIds(x) && DecimalIds(y)
    ensures DecimalIds(x + y)
  {
  }

  lemma LogsRun(s: State, before: seq<Entry>, f: Frame)
    requires DecimalIds(before) && DecimalIds(f.logs)
    requires s.logs == Last(LOG_CAP, Records(before)) && s.lastLogId == LastIdOf(Records(before))
    ensures var u := Applied(s, f);
            u.logs == Last(LOG_CAP, Records(before + f.logs)) && u.lastLogId == LastIdOf(Records(before + f.logs))
  {
    AbsorbedRecords(before, f.logs);
    AbsorbedAppends(s.logs, s.lastLogId, f.logs);
    AbsorbedAppends(Records(before), s.lastLogId, f.logs);
    CapsHold(s, f);
    LastOfLast(LOG_CAP, Records(before), Absorbed([], s.lastLogId, f.logs).0);
    hide Absorbed, Records, LastIdOf, Absorbing, DecimalIds, Last;
    SameButVersion(s, f);
  }

  lemma SameButVersion(s: State, f: Frame)
    ensures Applied(s, f).logs == Absorbing(s, f).logs && Applied(s, f).lastLogId == Absorbing(s, f).lastLogId
  {
    hide Absorbing;
  }
}
