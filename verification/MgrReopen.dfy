// The manager after a crash: which files are opened again, and what is left of the log. A crash may come in
// the middle of an append, and may take with it records at the end of the current file.
module MgrReopen {
  import opened Bytes
  import opened BinLogFormat
  import opened BinLogRecovery
  import opened MgrSpec
  import opened MgrInvariant
  import opened MgrCursors

  /** A data file and its index as they are found. */
  datatype LeftFile = LeftFile(no: nat, day: nat, data: seq<byte>, idx: IndexFile)

  /** The files on disk: those under management, and before them those put out of it unless they were deleted. */
  function Stored(m: Mgr): seq<LogFile> {
    (if m.limits.delOut then [] else m.out) + m.files
  }

  /**
   * What can be left of the current file: its first `kept` records, and the bytes `torn` of record `next`,
   * which is the one after them or, if none is missing, one that was being written.
   */
  predicate Interrupted(m: Mgr, kept: nat, next: Record, torn: seq<byte>) {
    && m.files != [] && kept <= |Current(m).recs|
    && Continues(Current(m).recs[..kept], next) && next.h.End() + FREE_SIZE < m.limits.maxFileSize
    && (if kept < |Current(m).recs| then next == Current(m).recs[kept] else next.h.sid > m.maxSid)
    && torn < RecordBytes(next)
    && (torn != [] ==> AllFilled((m.out + m.files)[..|m.out + m.files| - 1]))
  }

  /** The files as a crash leaves them; no index need be complete. */
  ghost predicate LeftBy(m: Mgr, kept: nat, next: Record, torn: seq<byte>, left: seq<LeftFile>)
    requires m.files != [] && kept <= |Current(m).recs|
  {
    var row := Stored(m);
    var n := |row| - 1;
    && |left| == |row|
    && (forall i :: 0 <= i <= n ==> left[i].no == row[i].no && left[i].day == row[i].day)
    && (forall i :: 0 <= i < n ==> left[i].data == FileBytes(row[i].recs) && IndexPrefix(left[i].idx, Entries(row[i].recs)))
    && CrashLeft(left[n].data, left[n].idx, row[n].recs[..kept], next, torn)
  }

  /** The file after recovery: the records left of it, and what is saved of the torn one. */
  function RecoveredFile(f: LogFile, kept: nat, next: Record, torn: seq<byte>): LogFile
    requires kept <= |f.recs|
  {
    f.(recs := Recovered(f.recs[..kept], next, torn))
  }

  /** A row of files with its last one recovered. */
  function RecoveredRow(row: seq<LogFile>, kept: nat, next: Record, torn: seq<byte>): seq<LogFile>
    requires row != [] && kept <= |row[|row| - 1].recs|
  {
    row[..|row| - 1] + [RecoveredFile(row[|row| - 1], kept, next, torn)]
  }

  /** Files without records are removed. */
  function NonEmpty(row: seq<LogFile>): seq<LogFile> {
    if row == [] then []
    else NonEmpty(row[..|row| - 1]) + if row[|row| - 1].recs == [] then [] else [row[|row| - 1]]
  }

  function KeptFiles(m: Mgr, kept: nat, next: Record, torn: seq<byte>): seq<LogFile>
    requires m.files != [] && kept <= |Current(m).recs|
  {
    NonEmpty(RecoveredRow(Stored(m), kept, next, torn))
  }

  /** The manager after it has been opened again; the sid bounds are read from the files. */
  function Reopened(m: Mgr, kept: nat, next: Record, torn: seq<byte>): Mgr
    requires m.files != [] && kept <= |Current(m).recs|
  {
    var files := KeptFiles(m, kept, next, torn);
    m.(valid := true, files := files, cursors := map[],
       minSid := if files == [] then 0 else FirstSid(files[0].recs),
       maxSid := if files == [] then 0 else LastSid(files[|files| - 1].recs),
       out := if m.limits.delOut then NonEmpty(m.out) else [])
  }

  // ------------------------------------------------------------------ rows of files

  predicate AllFilled(row: seq<LogFile>) {
    forall i :: 0 <= i < |row| ==> row[i].recs != []
  }

  /** No file with records follows one without. */
  predicate EmptiesLast(row: seq<LogFile>) {
    row != [] ==> EmptiesLast(row[..|row| - 1]) && (row[|row| - 1].recs != [] ==> AllFilled(row[..|row| - 1]))
  }

  /** Files laid out and numbered one after the other; those without records come last. */
  ghost predicate RowOk(limits: Limits, row: seq<LogFile>) {
    && (forall i :: 0 <= i < |row| ==> FileOk(limits, row[i]))
    && (forall i :: 0 <= i < |row| ==> row[i].no == row[0].no + i)
    && EmptiesLast(row)
  }

  /** What may be under management when a crash comes, after a failed append as well. */
  ghost predicate Sound(m: Mgr) {
    && LimitsOk(m.limits) && m.files != [] && RowOk(m.limits, m.out + m.files)
    && Ascending(History(m)) && m.maxSid == LastSid(History(m))
  }

  lemma {:induction false} OpenIsSound(m: Mgr)
    requires Open(m)
    ensures Sound(m)
  {
    hide Flat, Laid, Ascending, EmptiesLast;
    var row := m.out + m.files;
    FilledFirst(row[..|row| - 1], row[|row| - 1]);
    assert row[..|row| - 1] + [row[|row| - 1]] == row;
  }

  lemma {:induction false} FilledOrdered(row: seq<LogFile>)
    requires AllFilled(row)
    ensures EmptiesLast(row) && NonEmpty(row) == row
  {
    if row != [] {
      FilledOrdered(row[..|row| - 1]);
      assert row[..|row| - 1] + [row[|row| - 1]] == row;
    }
  }

  lemma {:induction false} FilledFirst(row: seq<LogFile>, f: LogFile)
    requires AllFilled(row)
    ensures EmptiesLast(row + [f])
  {
    FilledOrdered(row);
    assert (row + [f])[..|row|] == row;
  }

  lemma {:induction false} NonEmptyJoin(a: seq<LogFile>, b: seq<LogFile>)
    ensures NonEmpty(a + b) == NonEmpty(a) + NonEmpty(b)
  {
    if b == [] {
      assert a + b == a;
    } else {
      assert (a + b)[..|a + b| - 1] == a + b[..|b| - 1];
      NonEmptyJoin(a, b[..|b| - 1]);
    }
  }

  lemma {:induction false} NonEmptyFlat(row: seq<LogFile>)
    ensures Flat(NonEmpty(row)) == Flat(row)
  {
    if row != [] {
      var front, f := NonEmpty(row[..|row| - 1]), row[|row| - 1];
      NonEmptyFlat(row[..|row| - 1]);
      if f.recs == [] {
        assert front + [] == front && Flat(front) + [] == Flat(front);
      } else {
        FlatSnoc(front, f);
      }
    }
  }

  lemma {:induction false} NonEmptyIs(row: seq<LogFile>)
    ensures forall i :: 0 <= i < |NonEmpty(row)| ==> NonEmpty(row)[i].recs != []
    ensures NonEmpty(row) == [] <==> forall i :: 0 <= i < |row| ==> row[i].recs == []
  {
    if row != [] {
      NonEmptyIs(row[..|row| - 1]);
    }
  }

  /** With the files without records at the end, removing them cuts the row short. */
  lemma {:induction false} NonEmptyCuts(row: seq<LogFile>) returns (k: nat)
    requires EmptiesLast(row)
    ensures k <= |row| && NonEmpty(row) == row[..k]
  {
    if row == [] {
      k := 0;
    } else if row[|row| - 1].recs == [] {
      k := NonEmptyCuts(row[..|row| - 1]);
      assert row[..|row| - 1][..k] == row[..k];
    } else {
      FilledOrdered(row);
      k := |row|;
    }
  }

  lemma {:induction false} NonEmptyOk(limits: Limits, row: seq<LogFile>)
    requires RowOk(limits, row)
    ensures FilesOk(limits, NonEmpty(row))
  {
    NonEmptyIs(row);
    var k := NonEmptyCuts(row);
    hide FileOk, NonEmpty, EmptiesLast;
    assert forall i :: 0 <= i < k ==> row[..k][i] == row[i];
  }

  lemma {:induction false} TailOk(limits: Limits, a: seq<LogFile>, b: seq<LogFile>)
    requires FilesOk(limits, a + b)
    ensures FilesOk(limits, b)
  {
    hide FileOk;
    forall i | 0 <= i < |b|
      ensures b[i] == (a + b)[|a| + i] && b[0] == (a + b)[|a|]
    {
    }
  }

  // --------------------------------------------------------------- after the crash

  /** Recovering the last file of a row keeps the row in order. */
  lemma {:induction false} RecoveredRowOk(limits: Limits, row: seq<LogFile>, kept: nat, next: Record, torn: seq<byte>)
    requires RowOk(limits, row) && row != [] && kept <= |row[|row| - 1].recs|
    requires Continues(row[|row| - 1].recs[..kept], next) && next.h.End() + FREE_SIZE < limits.maxFileSize
    requires torn < RecordBytes(next) && (torn != [] ==> AllFilled(row[..|row| - 1]))
    ensures RowOk(limits, RecoveredRow(row, kept, next, torn))
  {
    hide RecordBytes, Continues, Laid;
    var n, r := |row| - 1, RecoveredRow(row, kept, next, torn);
    assert FileOk(limits, row[n]);
    RecoveredFileOk(limits, row[n], kept, next, torn);
    forall i | 0 <= i < |r|
      ensures FileOk(limits, r[i]) && r[i].no == r[0].no + i
    {
      assert FileOk(limits, row[i]);
      assert r[i].no == row[i].no && r[0].no == row[0].no;
    }
    if torn != [] {
      FilledFirst(row[..n], r[n]);
    } else {
      assert r[..n] == row[..n];
    }
  }

  lemma {:induction false} RecoveredFileOk(limits: Limits, f: LogFile, kept: nat, next: Record, torn: seq<byte>)
    requires FileOk(limits, f) && kept <= |f.recs|
    requires Continues(f.recs[..kept], next) && next.h.End() + FREE_SIZE < limits.maxFileSize
    requires torn < RecordBytes(next)
    ensures FileOk(limits, RecoveredFile(f, kept, next, torn))
    ensures f.recs == [] && torn == [] ==> RecoveredFile(f, kept, next, torn).recs == []
  {
    hide RecordBytes, Continues;
    PrefixLaid(f.recs, kept);
    RecoveredLaid(f.recs[..kept], next, torn);
    RecoveredEnds(f.recs[..kept], next, torn);
  }

  lemma {:induction false} PrefixLaid(recs: seq<Record>, kept: nat)
    requires Laid(recs) && kept <= |recs|
    ensures Laid(recs[..kept]) && EndOf(recs[..kept]) <= EndOf(recs)
  {
    if kept == |recs| {
      assert recs[..kept] == recs;
    } else {
      LaidAt(recs, kept);
      if kept > 0 {
        Positions(recs, kept - 1, |recs| - 1);
      }
    }
  }

  lemma {:induction false} RecoveredEnds(recs: seq<Record>, next: Record, torn: seq<byte>)
    ensures var r := Recovered(recs, next, torn);
            EndOf(r) == if Salvage(next, torn) == [] then EndOf(recs) else next.h.End()
  {
    if Salvage(next, torn) == [] {
      assert Recovered(recs, next, torn) == recs;
    }
  }

  /** Nothing that tells the newest sid is left: no file has a record, and those that had some are deleted. */
  predicate Forgotten(m: Mgr, kept: nat, torn: seq<byte>) {
    && m.limits.delOut && Gone(m) != []
    && (forall i :: 0 <= i < |m.files| - 1 ==> m.files[i].recs == [])
    && kept == 0 && |torn| < HEADER_SIZE
  }

  lemma {:induction false} NoneAboveLast(recs: seq<Record>, p: nat)
    requires Ascending(recs) && p < |recs|
    ensures recs[p].h.sid <= LastSid(recs)
  {
    if p < |recs| - 1 {
      assert recs[p].h.sid < recs[|recs| - 1].h.sid;
    }
  }

  /** How much of the history is left when only `kept` records of the current file are. */
  function LeftOf(m: Mgr, kept: nat): (h: seq<Record>)
    requires m.files != [] && kept <= |Current(m).recs|
  {
    CurrentEndsHistory(m);
    History(m)[..|History(m)| - (|Current(m).recs| - kept)]
  }

  lemma {:induction false} CurrentEndsHistory(m: Mgr)
    requires m.files != []
    ensures |Current(m).recs| <= |History(m)|
    ensures forall i :: 0 <= i < |Current(m).recs| ==>
              History(m)[|History(m)| - |Current(m).recs| + i] == Current(m).recs[i]
  {
    var n := |m.files| - 1;
    assert Flat(m.files) == Flat(m.files[..n]) + m.files[n].recs;
  }

  lemma {:induction false} RowParts(m: Mgr, kept: nat, next: Record, torn: seq<byte>)
    requires m.files != [] && kept <= |Current(m).recs|
    ensures var r := Reopened(m, kept, next, torn);
            r.out + r.files == NonEmpty(RecoveredRow(m.out + m.files, kept, next, torn))
  {
    var n := |m.files| - 1;
    var f := RecoveredFile(m.files[n], kept, next, torn);
    var row := m.out + m.files;
    assert row[..|row| - 1] == m.out + m.files[..n];
    assert RecoveredRow(row, kept, next, torn) == m.out + (m.files[..n] + [f]);
    NonEmptyJoin(m.out, m.files[..n] + [f]);
    assert m.limits.delOut ==> Stored(m) == m.files by {
      assert [] + m.files == m.files;
    }
  }

  lemma {:induction false} RecoveredFlat(m: Mgr, kept: nat, next: Record, torn: seq<byte>)
    requires m.files != [] && kept <= |Current(m).recs|
    ensures Flat(RecoveredRow(m.out + m.files, kept, next, torn)) == LeftOf(m, kept) + Salvage(next, torn)
  {
    hide Salvage;
    var row := m.out + m.files;
    var n := |row| - 1;
    var front, recs := Flat(row[..n]), row[n].recs;
    FlatJoin(m.out, m.files);
    assert History(m) == Flat(row) == front + recs;
    assert LeftOf(m, kept) == front + recs[..kept];
    FlatSnoc(row[..n], RecoveredFile(row[n], kept, next, torn));
    assert front + (recs[..kept] + Salvage(next, torn)) == (front + recs[..kept]) + Salvage(next, torn);
  }

  /** The history after the crash is the one the manager wants. */
  lemma {:induction false} ReopenedHistory(m: Mgr, kept: nat, next: Record, torn: seq<byte>)
    requires m.files != [] && kept <= |Current(m).recs|
    ensures History(Reopened(m, kept, next, torn)) == LeftOf(m, kept) + Salvage(next, torn)
  {
    hide Reopened, Salvage, LeftOf;
    var r := Reopened(m, kept, next, torn);
    RowParts(m, kept, next, torn);
    FlatJoin(r.out, r.files);
    NonEmptyFlat(RecoveredRow(m.out + m.files, kept, next, torn));
    RecoveredFlat(m, kept, next, torn);
  }

  lemma {:induction false} LeftAscends(m: Mgr, kept: nat, next: Record, torn: seq<byte>)
    requires Sound(m) && Interrupted(m, kept, next, torn)
    ensures Ascending(LeftOf(m, kept) + Salvage(next, torn))
  {
    hide Flat, Laid, Continues, RecordBytes, RowOk;
    CurrentEndsHistory(m);
    var h, left := History(m), LeftOf(m, kept);
    var recs := Current(m).recs;
    if |torn| < HEADER_SIZE {
      assert left + [] == left;
    } else if kept < |recs| {
      assert h[|left|] == recs[kept];
      SameSidsAscend(h, |left|, Salvage(next, torn)[0]);
    } else {
      assert left == h;
      AscendingSnoc(h, Salvage(next, torn)[0]);
    }
  }

  lemma {:induction false} SameSidsAscend(h: seq<Record>, k: nat, r: Record)
    requires Ascending(h) && k < |h| && r.h == h[k].h
    ensures Ascending(h[..k] + [r])
  {
    forall i, j | 0 <= i < j < k + 1
      ensures (h[..k] + [r])[i].h.sid < (h[..k] + [r])[j].h.sid
    {
      assert h[i].h.sid < h[j].h.sid;
    }
  }

  lemma {:induction false} ReopenedRows(m: Mgr, kept: nat, next: Record, torn: seq<byte>)
    requires Sound(m) && Interrupted(m, kept, next, torn)
    ensures var r := Reopened(m, kept, next, torn);
            && FilesOk(m.limits, r.out + r.files) && FilesOk(m.limits, r.files)
            && (r.files != [] ==> r.files[0].recs != [] && r.files[|r.files| - 1].recs != [])
  {
    hide Flat, Laid, Continues, RecordBytes, Ascending, Reopened, NonEmpty, RecoveredRow, RowOk, FilesOk;
    RecoveredRowOk(m.limits, m.out + m.files, kept, next, torn);
    RowParts(m, kept, next, torn);
    var r := Reopened(m, kept, next, torn);
    PartsOk(m.limits, r.out, r.files, RecoveredRow(m.out + m.files, kept, next, torn));
  }

  lemma {:induction false} PartsOk(limits: Limits, out: seq<LogFile>, files: seq<LogFile>, row: seq<LogFile>)
    requires RowOk(limits, row) && out + files == NonEmpty(row)
    ensures FilesOk(limits, out + files) && FilesOk(limits, files)
    ensures files != [] ==> files[0].recs != [] && files[|files| - 1].recs != []
  {
    hide NonEmpty, RowOk, FilesOk;
    NonEmptyOk(limits, row);
    TailOk(limits, out, files);
    NonEmptyIs(row);
    assert forall i :: 0 <= i < |files| ==> files[i] == (out + files)[|out| + i];
  }

  /** When nothing under management has a record after the crash. */
  lemma {:induction false} NoFileKept(m: Mgr, kept: nat, next: Record, torn: seq<byte>)
    requires m.files != [] && kept <= |Current(m).recs|
    ensures var r := Reopened(m, kept, next, torn);
            r.files == [] && r.out != [] <==> Forgotten(m, kept, torn)
  {
    hide Flat, NonEmpty;
    if m.limits.delOut {
      assert Stored(m) == m.files;
      NonEmptyIs(RecoveredRow(m.files, kept, next, torn));
      NonEmptyIs(m.out);
      FlatOfEmpty(m.out);
      RecoveredEmpty(m.files, kept, next, torn);
    }
  }

  lemma {:induction false} RecoveredEmpty(files: seq<LogFile>, kept: nat, next: Record, torn: seq<byte>)
    requires files != [] && kept <= |files[|files| - 1].recs|
    ensures var row := RecoveredRow(files, kept, next, torn);
            (forall i :: 0 <= i < |row| ==> row[i].recs == []) <==>
            (forall i :: 0 <= i < |files| - 1 ==> files[i].recs == []) && kept == 0 && |torn| < HEADER_SIZE
  {
    var n, row := |files| - 1, RecoveredRow(files, kept, next, torn);
    assert row[n].recs == [] <==> kept == 0 && |torn| < HEADER_SIZE;
    assert forall i :: 0 <= i < n ==> row[i] == files[i];
  }

  lemma {:induction false} FlatOfEmpty(row: seq<LogFile>)
    ensures Flat(row) == [] <==> forall i :: 0 <= i < |row| ==> row[i].recs == []
  {
    if row != [] {
      FlatOfEmpty(row[..|row| - 1]);
    }
  }

  /**
   * Opening again after a crash loses no record that is left on disk, and adds at most the one that was
   * torn. The manager is then well-formed, except when all the files left to it are without records and
   * those that had some have been deleted: then the sids of the log before are forgotten.
   */
  lemma {:induction false} ReopenedKeeps(m: Mgr, kept: nat, next: Record, torn: seq<byte>)
    requires Sound(m) && Interrupted(m, kept, next, torn)
    ensures var r := Reopened(m, kept, next, torn);
            && History(r) == LeftOf(m, kept) + Salvage(next, torn)
            && (r.files != [] ==> Open(r) && r.files[|r.files| - 1].recs != [])
            && (r.files == [] ==> r.maxSid == 0)
            && (WellFormed(r) <==> !Forgotten(m, kept, torn))
  {
    hide Flat, Laid, Continues, RecordBytes, Ascending, FilesOk, KeptFiles, NonEmpty, Salvage, LeftOf, Forgotten, Interrupted;
    InterruptedIs(m, kept, next, torn);
    var r := Reopened(m, kept, next, torn);
    ReopenedHistory(m, kept, next, torn);
    ReopenedRows(m, kept, next, torn);
    LeftAscends(m, kept, next, torn);
    NoFileKept(m, kept, next, torn);
    if r.files != [] {
      LastOfFlat(Gone(r), r.files);
    }
  }

  lemma {:induction false} InterruptedIs(m: Mgr, kept: nat, next: Record, torn: seq<byte>)
    requires Interrupted(m, kept, next, torn)
    ensures m.files != [] && kept <= |Current(m).recs|
  {
  }

  /** So for a manager that has not failed it takes a single file that is new, or has lost all its records. */
  lemma {:induction false} OpenForgets(m: Mgr, kept: nat, next: Record, torn: seq<byte>)
    requires Open(m) && Interrupted(m, kept, next, torn)
    ensures WellFormed(Reopened(m, kept, next, torn)) <==>
              !(m.limits.delOut && Gone(m) != [] && |m.files| == 1 && kept == 0 && |torn| < HEADER_SIZE)
  {
    hide Flat, Laid, Continues, RecordBytes, Ascending, Reopened, WellFormed, Interrupted;
    OpenIsSound(m);
    ReopenedKeeps(m, kept, next, torn);
    assert |m.files| > 1 ==> m.files[0].recs != [];
  }

  // ------------------------------------------------------------ opening file by file

  /** In a closed file there is room for one more record. */
  lemma {:induction false} ClosedIsLeft(f: LogFile, limits: Limits, idx: IndexFile, sid: nat) returns (next: Record)
    requires FileOk(limits, f) && limits.maxFileSize < U31 && LastSid(f.recs) < sid < U64
    requires IndexPrefix(idx, Entries(f.recs))
    ensures CrashLeft(FileBytes(f.recs), idx, f.recs, next, []) && Recovered(f.recs, next, []) == f.recs
  {
    CountFits(f.recs);
    next := NextRecord(f.recs, sid, 0, 0, []);
    Snoc(f.recs, next);
    assert FileBytes(f.recs) + [] == FileBytes(f.recs);
    assert Recovered(f.recs, next, []) == f.recs + [] == f.recs;
  }

  /** The files kept are in order, from the oldest to the newest. */
  lemma {:induction false} KeptInOrder(m: Mgr, kept: nat, next: Record, torn: seq<byte>)
    requires Sound(m) && Interrupted(m, kept, next, torn)
    ensures FilesOk(m.limits, KeptFiles(m, kept, next, torn)) && Ascending(Flat(KeptFiles(m, kept, next, torn)))
  {
    hide Flat, Laid, Continues, RecordBytes, Ascending, FilesOk, KeptFiles, NonEmpty, Salvage, LeftOf, Interrupted, RowOk;
    InterruptedIs(m, kept, next, torn);
    ReopenedRows(m, kept, next, torn);
    ReopenedHistory(m, kept, next, torn);
    LeftAscends(m, kept, next, torn);
    AscendingPart(Gone(Reopened(m, kept, next, torn)), Flat(KeptFiles(m, kept, next, torn)));
  }

  /** The next older file comes before those opened, with smaller sids, unless it is without records. */
  lemma {:induction false} NextOlder(limits: Limits, row: seq<LogFile>, i: nat)
    requires FilesOk(limits, NonEmpty(row)) && Ascending(Flat(NonEmpty(row))) && i < |row|
    ensures var rest := NonEmpty(row[i + 1..]);
            && NonEmpty(row[i..]) == (if row[i].recs == [] then rest else [row[i]] + rest)
            && (row[i].recs != [] && rest != [] ==>
                  row[i].no + 1 == rest[0].no && LastSid(row[i].recs) < FirstSid(rest[0].recs))
  {
    hide Flat, FileOk, Ascending;
    var rest := NonEmpty(row[i + 1..]);
    assert row[i..] == [row[i]] + row[i + 1..];
    NonEmptyJoin([row[i]], row[i + 1..]);
    assert NonEmpty([row[i]]) == if row[i].recs == [] then [] else [row[i]] by {
      assert [row[i]][..0] == [];
    }
    if row[i].recs != [] && rest != [] {
      var both := NonEmpty(row[i..]);
      assert row == row[..i] + row[i..];
      NonEmptyJoin(row[..i], row[i..]);
      TailOk(limits, NonEmpty(row[..i]), both);
      FlatJoin(NonEmpty(row[..i]), both);
      AscendingPart(Flat(NonEmpty(row[..i])), Flat(both));
      NonEmptyIs(row[i + 1..]);
      assert both[0] == row[i] && both[1] == rest[0];
      FilesAscend(both, 0, 1);
    }
  }

  /** All files but the last hold smaller sids than the record that was torn. */
  lemma {:induction false} OlderSids(m: Mgr, kept: nat, next: Record, torn: seq<byte>, i: nat)
    requires Sound(m) && Interrupted(m, kept, next, torn) && i < |Stored(m)| - 1
    ensures FileOk(m.limits, Stored(m)[i]) && LastSid(Stored(m)[i].recs) < next.h.sid
  {
    hide Flat, Ascending, EmptiesLast, RecordBytes, FileOk;
    var row := m.out + m.files;
    var n, j := |row| - 1, i + |row| - |Stored(m)|;
    assert Stored(m)[i] == row[j] && row[n] == Current(m);
    assert FileOk(m.limits, row[j]);
    var recs := row[j].recs;
    if recs != [] {
      FlatJoin(m.out, m.files);
      FlatAt(row, j, |recs| - 1);
      var p := |Flat(row[..j])| + (|recs| - 1);
      if kept < |Current(m).recs| {
        FlatAt(row, n, kept);
        FilesInOrder(row, j, |recs| - 1, n);
        InAscending(History(m), p, |Flat(row[..n])| + kept);
      } else {
        NoneAboveLast(History(m), p);
      }
    }
  }

  lemma {:induction false} InAscending(recs: seq<Record>, p: nat, q: nat)
    requires Ascending(recs) && p < q < |recs|
    ensures recs[p].h.sid < recs[q].h.sid
  {
  }

  // --------------------------------------------------- what an append leaves to a crash

  /** The records of the file that is written, if there is one. */
  function CurrentRecs(m: Mgr): seq<Record> {
    if m.files == [] then [] else Current(m).recs
  }

  predicate SameFile(m: Mgr, r: Mgr) {
    m.files != [] && r.files != [] && Current(r).no == Current(m).no
  }

  /** A crash that takes the whole current file leaves something that tells the newest sid, if there is one. */
  predicate Remembered(m: Mgr) {
    || !m.limits.delOut || Gone(m) == []
    || exists i :: 0 <= i < |m.files| - 1 && m.files[i].recs != []
  }

  lemma {:induction false} RememberedIsKept(m: Mgr, kept: nat, torn: seq<byte>)
    requires Remembered(m) || kept > 0
    ensures !Forgotten(m, kept, torn)
  {
    hide Flat;
  }

  /** Any roll leaves the history, the newest sid and the order of the files as they are. */
  lemma {:induction false} RollSound(m: Mgr, day: nat)
    requires Sound(m)
    ensures var r := Roll(m, day);
            && Sound(r) && History(r) == History(m) && r.maxSid == m.maxSid && r.limits == m.limits
            && Current(r) == LogFile(Current(m).no + 1, day, [])
  {
    hide Flat, Ascending, Evicted, EmptiesLast, FileOk;
    var f := LogFile(Current(m).no + 1, day, []);
    var n := Evicted(m.limits, m.cursors, m.files + [f]);
    var row := m.out + m.files;
    CurrentIsKept(m.limits, m.cursors, m.files + [f]);
    BorderMoves(m.out, m.files + [f], n);
    RolledHistory(m.out, m.files, f, n);
    assert m.out + (m.files + [f]) == row + [f];
    EmptyFollows(m.limits, row, f);
  }

  lemma {:induction false} EmptyFollows(limits: Limits, row: seq<LogFile>, f: LogFile)
    requires RowOk(limits, row) && row != [] && f.recs == [] && f.no == row[|row| - 1].no + 1
    ensures RowOk(limits, row + [f])
  {
    assert (row + [f])[..|row|] == row;
    assert Laid([]);
  }

  /** With room for two files the one just closed stays, with room for three the one before it. */
  lemma {:induction false} RollLeaves(m: Mgr, day: nat, k: nat)
    requires m.files != [] && k < |m.files| && k + 2 <= m.limits.maxFileNum
    ensures var r := Roll(m, day);
            |r.files| >= k + 2 && r.files[|r.files| - 2 - k] == m.files[|m.files| - 1 - k]
  {
    var all := m.files + [LogFile(Current(m).no + 1, day, [])];
    var n := Evicted(m.limits, m.cursors, all);
    if n > 0 {
      EvictedUnpinned(m.limits, m.cursors, all, n - 1);
    }
    var i := |all| - 2 - k;
    assert n <= i && all[n..][i - n] == all[i] == m.files[i];
  }

  lemma {:induction false} WithFileSound(m: Mgr, day: nat)
    requires WellFormed(m) && m.valid
    ensures var r := WithFile(m, day);
            && Sound(r) && History(r) == History(m) && r.maxSid == m.maxSid && r.limits == m.limits && r.out == m.out
            && (m.files == [] ==> History(m) == [] && Current(r).recs == [])
  {
    hide Flat, Ascending, Laid, FilesOk;
    FirstFileOpen(m, day);
    OpenIsSound(WithFile(m, day));
    if m.files == [] {
      FlatOfNone();
    }
  }

  /** An append that fails has closed the current file and left a new one without records. */
  lemma {:induction false} AppendFails(m: Mgr, q: Request)
    requires WellFormed(m) && m.valid && q.sid > m.maxSid && TooLarge(m.limits, |q.data|)
    ensures var (r, ok) := AppendStep(m, q);
            && !ok && !r.valid && Sound(r) && History(r) == History(m) && r.maxSid == m.maxSid && r.limits == m.limits
            && CurrentRecs(r) == [] && !SameFile(m, r)
  {
    hide Flat, Roll, Sound, WellFormed, History;
    var m0 := WithFile(m, q.day);
    WithFileSound(m, q.day);
    var m1 := ForDay(m0, q);
    if q.day > Current(m0).day {
      RollSound(m0, q.day);
    }
    SoundHasFiles(m1);
    RollSound(m1, Current(m1).day);
    SoundHasFiles(Roll(m1, Current(m1).day));
    SoundAnyway(Roll(m1, Current(m1).day));
  }

  lemma {:induction false} SoundHasFiles(m: Mgr)
    requires Sound(m)
    ensures m.files != []
  {
  }

  lemma {:induction false} SoundAnyway(m: Mgr)
    requires Sound(m)
    ensures Sound(m.(valid := false)) && History(m.(valid := false)) == History(m)
  {
    hide Flat, Ascending, RowOk;
  }

  /** An append that succeeds has written to the same file, or as the first record of a new one. */
  lemma {:induction false} AppendWrites(m: Mgr, q: Request)
    requires WellFormed(m) && m.valid && Fits(q) && q.sid > m.maxSid && !TooLarge(m.limits, |q.data|)
    ensures var (r, ok) := AppendStep(m, q);
            && ok && r.valid && r.files != [] && WellFormed(r) && AddsOne(History(m), History(r), q)
            && r.limits == m.limits && r.maxSid == q.sid
            && |CurrentRecs(r)| == (if SameFile(m, r) then |CurrentRecs(m)| + 1 else 1)
            && (SameFile(m, r) ==> |r.files| == |m.files| && r.out == m.out && r.files[..|r.files| - 1] == m.files[..|m.files| - 1])
  {
    hide Flat, Roll, History, AddsOne, WellFormed;
    AppendOutcome(m, q);
    var m0 := WithFile(m, q.day);
    WithFileSound(m, q.day);
    var m1 := ForDay(m0, q);
    hide Sound;
    if q.day > Current(m0).day {
      RollSound(m0, q.day);
    }
    SoundHasFiles(m1);
    RollSound(m1, Current(m1).day);
    SoundHasFiles(Roll(m1, Current(m1).day));
  }

  /**
   * After an append that started a new file the newest sid is remembered, with a file limit of at least 3,
   * or of 2 if the record was not too large for any file.
   */
  lemma {:induction false} AppendRemembers(m: Mgr, q: Request)
    requires WellFormed(m) && m.valid && Fits(q) && q.sid > m.maxSid
    requires m.limits.maxFileNum >= 3 || (m.limits.maxFileNum == 2 && !TooLarge(m.limits, |q.data|))
    requires !SameFile(m, AppendStep(m, q).0)
    ensures Remembered(AppendStep(m, q).0)
  {
    hide Flat, Roll, Sound, WellFormed;
    var r := AppendStep(m, q).0;
    var m0 := WithFile(m, q.day);
    WithFileSound(m, q.day);
    if m.files == [] {
      GoneOfNothing(m, q);
    } else {
      LastHasRecords(m);
      var last := |m.files| - 1;
      var m1 := ForDay(m0, q);
      if q.day > Current(m0).day {
        RollSound(m0, q.day);
        RollLeaves(m0, q.day, 0);
      }
      SoundHasFiles(m1);
      StoredFront(m1, q);
      if NoRoom(m1.limits, Current(m1).recs, |q.data|) {
        RollSound(m1, Current(m1).day);
        RollLeaves(m1, Current(m1).day, if m1 == m0 then 0 else 1);
        assert r.files[|r.files| - (if m1 == m0 then 2 else 3)].recs != [];
      } else {
        assert m1 != m0 ==> r.files[|r.files| - 2].recs != [];
        assert m1 == m0 ==> SameFile(m, r);
      }
    }
  }

  /** Storing changes no file but the last. */
  lemma {:induction false} StoredFront(m: Mgr, q: Request)
    requires m.files != []
    ensures var r := Store(m, q).0;
            var x := if NoRoom(m.limits, Current(m).recs, |q.data|) then Roll(m, Current(m).day) else m;
            |r.files| == |x.files| && r.limits == x.limits && forall i :: 0 <= i < |x.files| - 1 ==> r.files[i] == x.files[i]
  {
    hide Roll;
  }

  lemma {:induction false} LastHasRecords(m: Mgr)
    requires WellFormed(m) && m.valid && m.files != []
    ensures Current(m).recs != []
  {
  }

  /** An append to an empty log leaves nothing behind that could be forgotten. */
  lemma {:induction false} GoneOfNothing(m: Mgr, q: Request)
    requires WellFormed(m) && m.valid && Fits(q) && q.sid > m.maxSid && m.files == []
    ensures Gone(AppendStep(m, q).0) == []
  {
    hide Flat, Roll, Sound;
    WithFileSound(m, q.day);
    if TooLarge(m.limits, |q.data|) {
      hide WellFormed;
      AppendFails(m, q);
    } else {
      FlatOfNone();
    }
  }

  // ------------------------------------------------------------ how sids get forgotten

  /** A manager without files. */
  predicate Fresh(m: Mgr) {
    m.valid && m.files == [] && m.out == [] && m.minSid == 0 && m.maxSid == 0 && m.cursors == map[]
  }

  lemma {:induction false} FirstAppend(m: Mgr, q: Request)
    requires Fresh(m) && q.sid >= 1 && !TooLarge(m.limits, |q.data|)
    ensures AppendStep(m, q) ==
            (m.(files := [LogFile(START_FILE_NUM, q.day, [NewRecord([], q)])], maxSid := q.sid, minSid := q.sid), true)
  {
    hide WriteLast;
    var m0 := WithFile(m, q.day);
    WriteOfOne(m0, q);
  }

  lemma {:induction false} WriteOfOne(m: Mgr, q: Request)
    requires |m.files| == 1 && m.files[0].recs == [] && m.minSid == 0
    ensures WriteLast(m, q) ==
            m.(files := [LogFile(m.files[0].no, m.files[0].day, [NewRecord([], q)])], maxSid := q.sid, minSid := q.sid)
  {
    assert [] + [NewRecord([], q)] == [NewRecord([], q)];
    assert m.files[..0] == [];
  }

  lemma {:induction false} RollOfOne(m: Mgr, day: nat)
    requires |m.files| == 1 && m.cursors == map[] && m.limits.maxFileNum == 1
    ensures Roll(m, day) == m.(files := [LogFile(m.files[0].no + 1, day, [])], minSid := 0, out := m.out + m.files)
  {
    var f, g := m.files[0], LogFile(m.files[0].no + 1, day, []);
    assert m.files + [g] == [f, g] && [f, g][1..] == [g] && [f, g][..1] == m.files;
    assert Evicted(m.limits, m.cursors, [g]) == 0;
  }

  /** With a file limit of 1 the first record of a new day puts the only other file out of management. */
  lemma {:induction false} NextDayAppend(m: Mgr, q: Request)
    requires m.valid && |m.files| == 1 && m.cursors == map[] && m.limits.maxFileNum == 1
    requires q.day > Current(m).day && q.sid > m.maxSid && !TooLarge(m.limits, |q.data|)
    ensures AppendStep(m, q) ==
            (m.(files := [LogFile(m.files[0].no + 1, q.day, [NewRecord([], q)])], out := m.out + m.files,
                maxSid := q.sid, minSid := q.sid), true)
  {
    hide Roll, WriteLast;
    RollOfOne(m, q.day);
    WriteOfOne(Roll(m, q.day), q);
  }

  /**
   * The run that makes the manager forget: with a file limit of 1 and deletion, a record on one day and one
   * on the next. A crash before the second is on disk leaves no file with a record, and the sids start over.
   */
  lemma {:induction false} OneFileForgets(m: Mgr, a: Request, b: Request)
    requires Fresh(m) && LimitsOk(m.limits) && m.limits.maxFileNum == 1 && m.limits.delOut
    requires Fits(a) && Fits(b) && 1 <= a.sid < b.sid && a.day < b.day
    requires !TooLarge(m.limits, |a.data|) && !TooLarge(m.limits, |b.data|)
    ensures var m1 := AppendStep(m, a).0;
            var m2 := AppendStep(m1, b).0;
            && WellFormed(m1) && WellFormed(m2) && m2.valid && m2.files != []
            && var next := NewRecord([], b);
            && CurrentRecs(m2) == [next] && Interrupted(m2, 0, next, []) && Forgotten(m2, 0, [])
            && Reopened(m2, 0, next, []).files == [] && Reopened(m2, 0, next, []).maxSid == 0
            && !WellFormed(Reopened(m2, 0, next, []))
  {
    hide Laid, Roll, AppendStep, Continues;
    FreshIs(m);
    FirstAppend(m, a);
    AppendOutcome(m, a);
    var m1 := AppendStep(m, a).0;
    NextDayAppend(m1, b);
    AppendOutcome(m1, b);
    var m2 := AppendStep(m1, b).0;
    var next := NewRecord([], b);
    OpenIsSound(m2);
    FirstContinues(b, m.limits);
    assert Flat([LogFile(START_FILE_NUM, a.day, [NewRecord([], a)])]) != [] by {
      FlatSnoc([], LogFile(START_FILE_NUM, a.day, [NewRecord([], a)]));
    }
    ReopenedKeeps(m2, 0, next, []);
    NoFileKept(m2, 0, next, []);
  }

  lemma {:induction false} FreshIs(m: Mgr)
    requires Fresh(m) && LimitsOk(m.limits)
    ensures WellFormed(m)
  {
  }

  lemma {:induction false} FirstContinues(q: Request, limits: Limits)
    requires Fits(q) && q.sid >= 1 && !TooLarge(limits, |q.data|) && LimitsOk(limits)
    ensures var r := NewRecord([], q);
            Continues([], r) && [r][..0] == [] && r.h.End() + FREE_SIZE < limits.maxFileSize && [] < RecordBytes(r)
  {
  }

  /** A file limit of 2 does not help where a record too large for any file closes two files at once. */
  lemma {:induction false} TooLargeOnNewDay(m: Mgr, q: Request)
    requires m.valid && |m.files| == 1 && m.cursors == map[] && m.limits.maxFileNum == 2
    requires q.day > Current(m).day && q.sid > m.maxSid && TooLarge(m.limits, |q.data|)
    ensures var no := m.files[0].no;
            AppendStep(m, q) ==
            (m.(valid := false, files := [LogFile(no + 1, q.day, []), LogFile(no + 2, q.day, [])],
                out := m.out + m.files, minSid := 0), false)
  {
    var f := m.files[0];
    var g, h := LogFile(f.no + 1, q.day, []), LogFile(f.no + 2, q.day, []);
    RollToTwo(m, q.day);
    hide Roll;
    var m1 := ForDay(m, q);
    assert m.files == [f];
    assert m1 == m.(files := [f, g], minSid := FirstSid(f.recs)) && Current(m1) == g;
    RollOfTwo(m1, q.day);
    assert NoRoom(m1.limits, g.recs, |q.data|) && NoRoom(m1.limits, h.recs, |q.data|);
  }

  lemma {:induction false} RollToTwo(m: Mgr, day: nat)
    requires |m.files| == 1 && m.limits.maxFileNum == 2
    ensures var f := m.files[0];
            Roll(m, day) == m.(files := [f, LogFile(f.no + 1, day, [])], minSid := FirstSid(f.recs))
  {
    var f := m.files[0];
    var all := [f, LogFile(f.no + 1, day, [])];
    assert m.files + [all[1]] == all && all[0..] == all && m.out + all[..0] == m.out;
    assert Evicted(m.limits, m.cursors, all) == 0;
  }

  lemma {:induction false} RollOfTwo(m: Mgr, day: nat)
    requires |m.files| == 2 && m.files[1].recs == [] && m.cursors == map[] && m.limits.maxFileNum == 2
    ensures Roll(m, day) ==
            m.(files := [m.files[1], LogFile(m.files[1].no + 1, day, [])], minSid := 0, out := m.out + [m.files[0]])
  {
    var h := LogFile(m.files[1].no + 1, day, []);
    var all := m.files + [h];
    assert all[1..] == [m.files[1], h] && all[..1] == [m.files[0]];
    assert Evicted(m.limits, m.cursors, [m.files[1], h]) == 0;
  }
}
