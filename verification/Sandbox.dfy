/** Writing a byte stream to a file in a sandbox whose every command may fail. */
module Sandbox {
  import opened Wrappers
  import opened Bytes

  /** A request may carry this much of a file; larger ones are rejected by the gateway. */
  const UPLOAD_CHUNK_BYTES: nat := 720 * 1024

  /** The slice length: the limit rounded down to a multiple of three. */
  const SLICE: nat := UPLOAD_CHUNK_BYTES - UPLOAD_CHUNK_BYTES % 3

  /** How one command ends: it works; it fails, having written only some bytes; or it takes
      effect but its success is never reported. */
  datatype Fate = Works | Fails(written: seq<byte>) | Unreported

  /** How the command that is k commands away will end; when the fates are used up, commands work. */
  function FateAt(fates: seq<Fate>, k: nat): Fate { if k < |fates| then fates[k] else Works }

  function Drop(fates: seq<Fate>, n: nat): seq<Fate> { if n < |fates| then fates[n..] else [] }

  lemma DropIs(fates: seq<Fate>, n: nat)
    ensures FateAt(Drop(fates, n), 0) == FateAt(fates, n) && Drop(Drop(fates, n), 1) == Drop(fates, n + 1)
    ensures Drop(fates, 0) == fates
  {
  }

  /** The first n commands all work. */
  predicate AllWork(fates: seq<Fate>, n: nat)
  {
    forall k | 0 <= k < n :: FateAt(fates, k).Works?
  }

  type Files = map<string, seq<byte>>

  predicate SameAt(f: Files, g: Files, path: string)
  {
    (path in f <==> path in g) && (path in f ==> f[path] == g[path])
  }

  /** The two agree at all paths but this one. */
  predicate SameBut(f: Files, g: Files, path: string)
  {
    f - {path} == g - {path}
  }

  class Box {
    var files: Files
    /** What will become of the next commands; when it is used up they work. */
    var fates: seq<Fate>

    constructor (files: Files, fates: seq<Fate>)
      ensures this.files == files && this.fates == fates
    {
      this.files, this.fates := files, fates;
    }

    method NextFate() returns (f: Fate)
      modifies this`fates
      ensures f == FateAt(old(fates), 0) && fates == Drop(old(fates), 1)
    {
      if fates == [] {
        return Works;
      }
      f := fates[0];
      fates := fates[1..];
    }

    /** base64 -d > path, or >> path. */
    method WriteSlice(path: string, data: seq<byte>, append: bool) returns (ok: bool)
      requires |data| <= UPLOAD_CHUNK_BYTES
      modifies this
      ensures SameBut(old(files), files, path)
      ensures fates == Drop(old(fates), 1) && (ok <==> FateAt(old(fates), 0).Works?)
      ensures ok ==> path in files
      ensures ok ==> files[path] == (if append && path in old(files) then old(files)[path] else []) + data
    {
      var f := NextFate();
      var base := if append && path in files then files[path] else [];
      files := files[path := base + if f.Fails? then f.written else data];
      ok := f.Works?;
    }

    /** mv from to. */
    method Move(from: string, to: string) returns (ok: bool, ghost took: bool)
      requires from != to
      modifies this
      ensures ok ==> took
      ensures fates == Drop(old(fates), 1)
      ensures took <==> from in old(files) && !FateAt(old(fates), 0).Fails?
      ensures ok <==> from in old(files) && FateAt(old(fates), 0).Works?
      ensures took ==> from in old(files) && files == old(files)[to := old(files)[from]] - {from}
      ensures !took ==> files == old(files)
    {
      var f := NextFate();
      if from !in files || f.Fails? {
        return false, false;
      }
      files := files[to := files[from]] - {from};
      ok, took := f.Works?, true;
    }

    /** rm -f path. */
    method Remove(path: string) returns (ok: bool, ghost took: bool)
      modifies this
      ensures ok ==> took
      ensures fates == Drop(old(fates), 1)
      ensures (took <==> !FateAt(old(fates), 0).Fails?) && (ok <==> FateAt(old(fates), 0).Works?)
      ensures files == if took then old(files) - {path} else old(files)
    {
      var f := NextFate();
      if f.Fails? {
        return false, false;
      }
      files := files - {path};
      ok, took := f.Works?, true;
    }

    /** A command that changes no file contents: mkdir, chmod. */
    method Run() returns (ok: bool)
      modifies this
      ensures files == old(files)
      ensures fates == Drop(old(fates), 1) && (ok <==> FateAt(old(fates), 0).Works?)
    {
      var f := NextFate();
      ok := f.Works?;
    }
  }

  datatype Step = MakeDir | WriteSlice | Source | Finalize | SetMode
  datatype WriteResult = Written(bytes: nat, slices: nat) | NotAbsolute | Failed(step: Step)

  function StagingOf(path: string): string { path + ".part" }

  /** Slices that n bytes take; an empty file still takes one. */
  function SlicesFor(n: nat): nat { if n == 0 then 1 else (n + SLICE - 1) / SLICE }

  lemma SlicesCount(n: nat, full: nat, rest: nat)
    requires n == full * SLICE + rest && rest < SLICE
    ensures SlicesFor(n) == if rest > 0 || full == 0 then full + 1 else full
  {
    if n > 0 {
      if rest > 0 {
        assert n + SLICE - 1 == (full + 1) * SLICE + (rest - 1);
        DivIs(n + SLICE - 1, full + 1, rest - 1);
      } else {
        assert n + SLICE - 1 == full * SLICE + (SLICE - 1);
        DivIs(n + SLICE - 1, full, SLICE - 1);
      }
    }
  }

  lemma DivIs(x: nat, q: nat, r: nat)
    requires x == q * SLICE + r && r < SLICE
    ensures x / SLICE == q
  {
  }

  /** The slices that are written of a stream of n bytes before its source ends or fails. */
  function WritesFor(n: nat, complete: bool): nat { if complete then SlicesFor(n) else n / SLICE }

  /** The step at which the writing of n bytes fails: the commands are the making of the
      directory, one for each slice, the move and the change of mode. */
  function FailedStep(fates: seq<Fate>, n: nat, complete: bool, mode: bool): Option<Step>
  {
    var w := WritesFor(n, complete);
    if !FateAt(fates, 0).Works? then Some(MakeDir)
    else if !AllWork(fates, 1 + w) then Some(WriteSlice)
    else if !complete then Some(Source)
    else if !FateAt(fates, 1 + w).Works? then Some(Finalize)
    else if mode && !FateAt(fates, 2 + w).Works? then Some(SetMode)
    else None
  }

  /** The move takes effect: everything before it works, and it does not fail. */
  predicate MoveTakes(fates: seq<Fate>, n: nat, complete: bool)
  {
    complete && AllWork(fates, 1 + SlicesFor(n)) && !FateAt(fates, 1 + SlicesFor(n)).Fails?
  }

  /** After some slices, the next commands are the others. */
  ghost predicate Behind(fates0: seq<Fate>, fates: seq<Fate>, slices: nat)
  {
    AllWork(fates0, 1 + slices) && fates == Drop(fates0, 1 + slices)
  }

  lemma BehindStart(fates0: seq<Fate>, fates: seq<Fate>)
    requires fates == Drop(fates0, 1) && FateAt(fates0, 0).Works?
    ensures Behind(fates0, fates, 0)
  {
  }

  lemma NoDirectory(fates0: seq<Fate>, n: nat, complete: bool, mode: bool)
    requires !FateAt(fates0, 0).Works?
    ensures FailedStep(fates0, n, complete, mode) == Some(MakeDir) && !MoveTakes(fates0, n, complete)
  {
  }

  lemma BehindMore(fates0: seq<Fate>, fates: seq<Fate>, fates': seq<Fate>, slices: nat)
    requires Behind(fates0, fates, slices) && fates' == Drop(fates, 1)
    ensures FateAt(fates, 0) == FateAt(fates0, 1 + slices)
    ensures FateAt(fates, 0).Works? ==> Behind(fates0, fates', slices + 1)
  {
    DropIs(fates0, 1 + slices);
  }

  lemma WholeSlices(n: nat, came: nat, slices: nat, complete: bool)
    requires slices * SLICE <= came <= n
    ensures slices <= WritesFor(n, complete)
  {
    var q, r := n / SLICE, n % SLICE;
    assert n == q * SLICE + r;
    SlicesCount(n, q, r);
  }

  lemma {:induction false} FlattenPrefix(chunks: seq<seq<byte>>, k: nat)
    requires k <= |chunks|
    ensures |Flatten(chunks[..k])| <= |Flatten(chunks)|
    decreases |chunks| - k
  {
    if k < |chunks| {
      assert chunks[..k + 1] == chunks[..k] + [chunks[k]];
      FlattenSnoc(chunks[..k], chunks[k]);
      FlattenPrefix(chunks, k + 1);
    } else {
      assert chunks[..k] == chunks;
    }
  }

  /** A slice that was to be written failed. */
  lemma SliceFails(fates0: seq<Fate>, slices: nat, n: nat, complete: bool, mode: bool)
    requires AllWork(fates0, 1 + slices) && !FateAt(fates0, 1 + slices).Works? && slices < WritesFor(n, complete)
    ensures FailedStep(fates0, n, complete, mode) == Some(WriteSlice) && !MoveTakes(fates0, n, complete)
  {
    assert FateAt(fates0, 0).Works?;
  }

  /** What the staging file and the buffer hold once some of the stream has come in: all of
      it, in whole slices and a rest. */
  ghost predicate Staged(files0: Files, files: Files, staging: string, came: seq<byte>, sent: seq<byte>, buffer: seq<byte>,
                         total: nat, count: nat)
  {
    && SameBut(files0, files, staging)
    && came == sent + buffer && |sent| == total == count * SLICE
    && (count > 0 ==> staging in files && files[staging] == sent)
  }

  lemma StagedStart(files: Files, staging: string)
    ensures Staged(files, files, staging, [], [], [], 0, 0)
  {
  }

  lemma StagedMore(files0: Files, files: Files, staging: string, came: seq<byte>, sent: seq<byte>, buffer: seq<byte>,
                   total: nat, count: nat, piece: seq<byte>)
    requires Staged(files0, files, staging, came, sent, buffer, total, count)
    ensures Staged(files0, files, staging, came + piece, sent, buffer + piece, total, count)
  {
  }

  /** A slice (or, at the end, the rest) has been written. */
  lemma StagedSlice(files0: Files, files: Files, files': Files, staging: string, came: seq<byte>, sent: seq<byte>,
                    buffer: seq<byte>, total: nat, count: nat, n: nat)
    requires Staged(files0, files, staging, came, sent, buffer, total, count) && n <= |buffer|
    requires SameBut(files, files', staging) && staging in files'
    requires files'[staging] == (if count > 0 && staging in files then files[staging] else []) + buffer[..n]
    ensures SameBut(files0, files', staging) && files'[staging] == sent + buffer[..n]
    ensures n == SLICE ==>
              Staged(files0, files', staging, came, sent + buffer[..n], buffer[n..], total + n, count + 1)
  {
    if count == 0 {
      assert sent == [];
    }
    assert buffer == buffer[..n] + buffer[n..];
  }

  /** What becomes of a payload that was streamed, completely or not: a relative path is refused
      before anything happens; otherwise it is written if and only if no step fails, and then the
      path holds it, nothing else changed and no staging file is left; and after a failure, which
      names the step, at most the path and the staging file differ, and the path holds what it
      held unless the move took effect. */
  ghost predicate Outcome(
    path: string, payload: seq<byte>, complete: bool, mode: bool, files0: Files, fates0: seq<Fate>,
    files: Files, result: WriteResult, took: bool)
  {
    if path == "" || path[0] != '/' then result == NotAbsolute && files == files0
    else
      var failed, staging := FailedStep(fates0, |payload|, complete, mode), path + ".part";
      && (took <==> MoveTakes(fates0, |payload|, complete))
      && if failed.None? then
           && result == Written(|payload|, SlicesFor(|payload|))
           && files == files0[path := payload] - {staging}
         else
           && result == Failed(failed.value)
           && files - {path, staging} == files0 - {path, staging}
           && if took then path in files && files[path] == payload else SameAt(files0, files, path)
  }

  /** Streams the chunks into a staging file slice by slice and then moves it into place.
      complete says whether the source of the chunks ends normally; took and cleaned say
      whether the move and the clean-up, if they were tried, took effect. */
  method WriteFileStream(box: Box, path: string, chunks: seq<seq<byte>>, complete: bool, mode: bool)
    returns (r: WriteResult, ghost took: bool, ghost cleaned: bool)
    modifies box
    ensures Outcome(path, Flatten(chunks), complete, mode, old(box.files), old(box.fates), box.files, r, took)
    ensures r.Failed? && cleaned ==> StagingOf(path) !in box.files
    // The move can only have taken effect if the failure came then or later.
    ensures r.Failed? && took ==> r.step == Finalize || (r.step == SetMode && mode)
    ensures r.Failed? && r.step == SetMode ==> took
  {
    took, cleaned := false, false;
    if path == "" || path[0] != '/' {
      return NotAbsolute, took, cleaned;
    }
    var staging := StagingOf(path);
    var failed, total, slices, moved := StageAndMove(box, path, staging, chunks, complete, mode);
    took := moved;
    if failed.None? {
      return Written(total, slices), took, cleaned;
    }
    ghost var before := box.files;
    var _, gone := box.Remove(staging);
    r, cleaned := Failed(failed.value), gone;
    AfterFailure(old(box.files), before, box.files, path, staging, Flatten(chunks));
  }

  lemma AfterFailure(files0: Files, files: Files, files': Files, path: string, staging: string, payload: seq<byte>)
    requires staging != path
    requires SameBut(files0, files, staging) || files == files0[path := payload] - {staging}
    requires files' == files || files' == files - {staging}
    ensures files' - {path, staging} == files0 - {path, staging}
    ensures SameBut(files0, files, staging) ==> SameAt(files0, files', path)
    ensures files == files0[path := payload] - {staging} ==> path in files' && files'[path] == payload
  {
    if SameBut(files0, files, staging) {
      assert files' - {path, staging} == (files - {staging}) - {path};
      assert files0 - {path, staging} == (files0 - {staging}) - {path};
      assert SameAt(files0 - {staging}, files - {staging}, path);
    } else {
      assert files' - {path, staging} == files - {path, staging};
    }
  }

  /** The steps that may fail, and the one that did, if any. */
  method StageAndMove(box: Box, path: string, staging: string, chunks: seq<seq<byte>>, complete: bool, mode: bool)
    returns (failed: Option<Step>, total: nat, slices: nat, ghost took: bool)
    requires staging == StagingOf(path)
    modifies box
    ensures failed == FailedStep(old(box.fates), |Flatten(chunks)|, complete, mode)
    ensures took <==> MoveTakes(old(box.fates), |Flatten(chunks)|, complete)
    ensures failed.None? ==> took && total == |Flatten(chunks)| && slices == SlicesFor(|Flatten(chunks)|)
    ensures took ==> complete && box.files == old(box.files)[path := Flatten(chunks)] - {staging}
    ensures !took ==> SameBut(old(box.files), box.files, staging)
    ensures failed.Some? && took ==> failed.value == Finalize || (failed.value == SetMode && mode)
    ensures failed == Some(SetMode) ==> took
  {
    took := false;
    total, slices := 0, 0;
    var buffer: seq<byte> := [];
    ghost var sent: seq<byte> := [];
    ghost var n := |Flatten(chunks)|;
    var ok := box.Run();
    if !ok {
      NoDirectory(old(box.fates), n, complete, mode);
      return Some(MakeDir), total, slices, took;
    }
    BehindStart(old(box.fates), box.fates);
    hide FailedStep, MoveTakes, AllWork, FateAt, Drop, WritesFor, Behind;
    StagedStart(box.files, staging);
    assert chunks[..0] == [];
    for k := 0 to |chunks|
      invariant Staged(old(box.files), box.files, staging, Flatten(chunks[..k]), sent, buffer, total, slices)
      invariant |buffer| < SLICE && Behind(old(box.fates), box.fates, slices)
    {
      hide Staged, Flatten, SameBut;
      FlattenSnoc(chunks[..k], chunks[k]);
      assert chunks[..k + 1] == chunks[..k] + [chunks[k]];
      StagedMore(old(box.files), box.files, staging, Flatten(chunks[..k]), sent, buffer, total, slices, chunks[k]);
      buffer := buffer + chunks[k];
      while |buffer| >= SLICE
        invariant Staged(old(box.files), box.files, staging, Flatten(chunks[..k + 1]), sent, buffer, total, slices)
        invariant Behind(old(box.fates), box.fates, slices)
      {
        ghost var before, fates := box.files, box.fates;
        ok := box.WriteSlice(staging, buffer[..SLICE], slices > 0);
        SameButChain(old(box.files), before, box.files, staging, Flatten(chunks[..k + 1]), sent, buffer, total, slices);
        BehindMore(old(box.fates), fates, box.fates, slices);
        if !ok {
          FlattenPrefix(chunks, k + 1);
          StagedCount(old(box.files), before, staging, Flatten(chunks[..k + 1]), sent, buffer, total, slices);
          WholeSlices(n, |Flatten(chunks[..k + 1])|, slices + 1, complete);
          BehindWorks(old(box.fates), fates, slices);
          SliceFails(old(box.fates), slices, n, complete, mode);
          return Some(WriteSlice), total, slices, took;
        }
        StagedSlice(old(box.files), before, box.files, staging, Flatten(chunks[..k + 1]), sent, buffer, total, slices, SLICE);
        sent := sent + buffer[..SLICE];
        total := total + SLICE;
        slices := slices + 1;
        buffer := buffer[SLICE..];
      }
    }
    assert chunks[..|chunks|] == chunks;
    if !complete {
      StagedCount(old(box.files), box.files, staging, Flatten(chunks), sent, buffer, total, slices);
      BehindWorks(old(box.fates), box.fates, slices);
      SourceFails(old(box.fates), slices, n, |buffer|, mode);
      return Some(Source), total, slices, took;
    }
    failed, total, slices, took := FlushAndMove(box, path, staging, old(box.fates), old(box.files), Flatten(chunks), sent, buffer, total, slices, mode);
  }

  lemma BehindWorks(fates0: seq<Fate>, fates: seq<Fate>, slices: nat)
    requires Behind(fates0, fates, slices)
    ensures AllWork(fates0, 1 + slices)
  {
  }

  lemma StagedCount(files0: Files, files: Files, staging: string, came: seq<byte>, sent: seq<byte>, buffer: seq<byte>,
                    total: nat, count: nat)
    requires Staged(files0, files, staging, came, sent, buffer, total, count)
    ensures |came| == count * SLICE + |buffer|
  {
  }

  lemma SourceFails(fates0: seq<Fate>, slices: nat, n: nat, rest: nat, mode: bool)
    requires AllWork(fates0, 1 + slices) && n == slices * SLICE + rest && rest < SLICE
    ensures FailedStep(fates0, n, false, mode) == Some(Source) && !MoveTakes(fates0, n, false)
  {
    DivIs(n, slices, rest);
    assert FateAt(fates0, 0).Works?;
  }

  lemma SameButChain(files0: Files, files: Files, files': Files, staging: string, came: seq<byte>, sent: seq<byte>,
                     buffer: seq<byte>, total: nat, count: nat)
    requires Staged(files0, files, staging, came, sent, buffer, total, count) && SameBut(files, files', staging)
    ensures SameBut(files0, files', staging)
  {
  }

  /** The rest of the buffer, then the move into place, then the mode. */
  method FlushAndMove(box: Box, path: string, staging: string, ghost fates0: seq<Fate>, ghost files0: Files, ghost payload: seq<byte>,
                      ghost sent: seq<byte>, buffer: seq<byte>, total0: nat, slices0: nat, mode: bool)
    returns (failed: Option<Step>, total: nat, slices: nat, ghost took: bool)
    requires staging == StagingOf(path) && |buffer| < SLICE
    requires Staged(files0, box.files, staging, payload, sent, buffer, total0, slices0)
    requires Behind(fates0, box.fates, slices0)
    modifies box
    ensures failed == FailedStep(fates0, |payload|, true, mode)
    ensures took <==> MoveTakes(fates0, |payload|, true)
    ensures failed.None? ==> took && total == |payload| && slices == SlicesFor(|payload|)
    ensures took ==> box.files == files0[path := payload] - {staging}
    ensures !took ==> SameBut(files0, box.files, staging)
    ensures failed.Some? && took ==> failed.value == Finalize || (failed.value == SetMode && mode)
    ensures failed == Some(SetMode) ==> took
  {
    took := false;
    total, slices := total0, slices0;
    SlicesCount(|payload|, slices0, |buffer|);
    var ok;
    ghost var w := SlicesFor(|payload|);
    hide AllWork, FateAt, Drop, FailedStep, MoveTakes, Behind, SlicesFor;
    if |buffer| > 0 || slices == 0 {
      ghost var before, fates := box.files, box.fates;
      ok := box.WriteSlice(staging, buffer, slices > 0);
      BehindMore(fates0, fates, box.fates, slices);
      if !ok {
        BehindWorks(fates0, fates, slices);
        WritesOf(|payload|);
        SliceFails(fates0, slices, |payload|, true, mode);
        return Some(WriteSlice), total, slices, took;
      }
      assert buffer == buffer[..|buffer|];
      StagedSlice(files0, before, box.files, staging, payload, sent, buffer, total, slices, |buffer|);
      total, slices := total + |buffer|, slices + 1;
    } else {
      assert sent + buffer == sent;
    }
    ghost var staged := box.files;
    assert staging in staged && staged[staging] == payload && SameBut(files0, staged, staging);
    ghost var fates := box.fates;
    ok, took := box.Move(staging, path);
    BehindMove(fates0, fates, box.fates, |payload|, mode);
    MovedIntoPlace(files0, staged, path, staging, payload);
    if !ok {
      return Some(Finalize), total, slices, took;
    }
    if mode {
      ok := box.Run();
      if !ok {
        return Some(SetMode), total, slices, took;
      }
    }
    failed := None;
  }

  lemma WritesOf(n: nat)
    ensures WritesFor(n, true) == SlicesFor(n)
  {
  }

  lemma BehindMove(fates0: seq<Fate>, fates: seq<Fate>, fates': seq<Fate>, n: nat, mode: bool)
    requires Behind(fates0, fates, SlicesFor(n)) && fates' == Drop(fates, 1)
    ensures MoveTakes(fates0, n, true) <==> !FateAt(fates, 0).Fails?
    ensures !FateAt(fates, 0).Works? ==> FailedStep(fates0, n, true, mode) == Some(Finalize)
    ensures FateAt(fates, 0).Works? ==>
              FailedStep(fates0, n, true, mode) == if mode && !FateAt(fates', 0).Works? then Some(SetMode) else None
  {
    DropIs(fates0, 1 + SlicesFor(n));
    DropIs(fates0, 2 + SlicesFor(n));
    assert FateAt(fates0, 0).Works?;
  }

  lemma MovedIntoPlace(files0: Files, staged: Files, path: string, staging: string, payload: seq<byte>)
    requires SameBut(files0, staged, staging) && staging in staged && staged[staging] == payload
    requires staging != path
    ensures staged[path := payload] - {staging} == files0[path := payload] - {staging}
  {
    assert staged[path := payload] - {staging} == (staged - {staging})[path := payload];
    assert files0[path := payload] - {staging} == (files0 - {staging})[path := payload];
  }

  // ---- When a failure leaves the new file in place ----

  /** A write fails although the target is new exactly when everything up to the move works and
      the move's success is not reported, or the change of mode behind it does not work. */
  lemma FailsBehindMoveIff(fates: seq<Fate>, n: nat, complete: bool, mode: bool)
    ensures FailedStep(fates, n, complete, mode).Some? && MoveTakes(fates, n, complete) <==>
            && complete && AllWork(fates, 1 + SlicesFor(n))
            && var move := FateAt(fates, 1 + SlicesFor(n));
               move.Unreported? || (move.Works? && mode && !FateAt(fates, 2 + SlicesFor(n)).Works?)
  {
    assert AllWork(fates, 1 + SlicesFor(n)) ==> FateAt(fates, 0).Works?;
  }

  lemma OneSlice(n: nat)
    requires n <= SLICE
    ensures SlicesFor(n) == 1
  {
    if n > 0 {
      DivIs(n + SLICE - 1, 1, n - 1);
    }
  }

  const CHMOD_FAILS: seq<Fate> := [Works, Works, Works, Fails([])]

  lemma OnlyModeFails(n: nat)
    requires n <= SLICE
    ensures FailedStep(CHMOD_FAILS, n, true, true) == Some(SetMode) && MoveTakes(CHMOD_FAILS, n, true)
  {
    OneSlice(n);
    assert AllWork(CHMOD_FAILS, 2);
  }

  /** A file of one slice is written over another, and only the change of mode fails: the write
      fails, and the old content is gone. */
  method NewFileStays(was: seq<byte>, payload: seq<byte>) returns (r: WriteResult, now: Files)
    requires |payload| <= SLICE
    ensures r == Failed(SetMode) && "/f" in now && now["/f"] == payload
  {
    var box := new Box(map["/f" := was], CHMOD_FAILS);
    OnlyModeFails(|payload|);
    assert Flatten([payload]) == payload by {
      assert [payload][1..] == [];
    }
    hide FailedStep, MoveTakes, Flatten;
    ghost var took, cleaned;
    r, took, cleaned := WriteFileStream(box, "/f", [payload], true, true);
    now := box.files;
  }
}
