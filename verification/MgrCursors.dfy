// Cursors over the whole log: a seek finds the first record above a sid, next and prev step by exactly
// one record of the history, across files, and prev undoes next.
module MgrCursors {
  import opened BinLogFormat
  import opened BinLogCursor
  import opened MgrSpec
  import opened MgrInvariant

  /** Where in the history the cursor stands. */
  function Position(m: Mgr, c: CursorV): nat
    requires Stands(m.files, c)
  {
    |Gone(m)| + |Flat(m.files[..FileIndex(m.files, c.fileNo)])| + c.header.logNo
  }

  /** The file the cursor has open. */
  function OpenFile(m: Mgr, c: CursorV): LogFile {
    var i := FileIndex(m.files, c.fileNo);
    if i < |m.files| then m.files[i] else LogFile(c.fileNo, 0, [])
  }

  // ------------------------------------------------------------- inside one file

  lemma {:induction false} ReadsRecord(c: CursorV, f: LogFile, j: nat)
    requires Laid(f.recs) && j < |f.recs|
    ensures ToHeader(c, f, f.recs[j].h.offset) == (c.(state := Ready, header := f.recs[j].h), Moved)
  {
    hide HeaderMove, HeaderIn, FileBytes;
    RecordIsFound(f.recs, j, FileBytes(f.recs));
  }

  lemma {:induction false} ReadsEnd(c: CursorV, f: LogFile)
    requires Laid(f.recs)
    ensures ToHeader(c, f, EndOf(f.recs)) == (c, AtEnd)
  {
    FileBytesSize(f.recs);
  }

  /** Seeking to a record's offset in a file puts the cursor on that record. */
  lemma {:induction false} SeeksRecord(c: CursorV, f: LogFile, j: nat)
    requires Laid(f.recs) && j < |f.recs|
    ensures FileSeek(c, f, f.recs[j].h.offset) == (CursorV(Ready, c.seekSid, f.no, f.recs[j].h), true)
  {
    ReadsRecord(CursorV(Unseek, c.seekSid, f.no, Header(0, 0, 0, 0, 0, 0, 0)), f, j);
  }

  /** The first record starts the file, and each next one where the last ended. */
  lemma {:induction false} Neighbours(recs: seq<Record>, j: nat)
    requires Laid(recs) && j < |recs|
    ensures recs[j].h.logNo == j
    ensures recs[j].h.offset == if j == 0 then 0 else recs[j - 1].h.End()
    ensures recs[j].h.prevOffset == if j == 0 then 0 else recs[j - 1].h.offset
    ensures recs[j].h.End() <= EndOf(recs)
    ensures j > 0 ==> recs[j].h.offset != 0
  {
    LaidAt(recs, j);
    assert j > 0 ==> recs[..j][j - 1] == recs[j - 1];
    if j < |recs| - 1 {
      Positions(recs, j, |recs| - 1);
    }
  }

  // ---------------------------------------------------------- positions in the log

  /** A cursor set on record `j` of file `i` stands at the record's place in the history. */
  lemma {:induction false} PlacedAt(m: Mgr, c: CursorV, i: nat, j: nat)
    requires FilesOk(m.limits, m.files)
    requires i < |m.files| && j < |m.files[i].recs|
    requires c.fileNo == m.files[i].no && c.header == m.files[i].recs[j].h
    ensures FileIndex(m.files, c.fileNo) == i
    ensures Stands(m.files, c)
    ensures Position(m, c) == |Gone(m)| + |Flat(m.files[..i])| + j < |History(m)|
    ensures History(m)[Position(m, c)].h == c.header
  {
    hide Laid, Flat, Stands;
    assert FileOk(m.limits, m.files[i]);
    Neighbours(m.files[i].recs, j);
    StandsIs(m.files, c, i);
    FileIndexIs(m.files, i);
    FlatAt(m.files, i, j);
  }

  /** What standing means: a file, a record of it, and a place in the history. */
  lemma {:induction false} WhereItStands(m: Mgr, c: CursorV) returns (i: nat, j: nat)
    requires FilesOk(m.limits, m.files) && Stands(m.files, c)
    ensures i == FileIndex(m.files, c.fileNo) < |m.files| && j == c.header.logNo < |m.files[i].recs|
    ensures c.fileNo == m.files[i].no && c.header == m.files[i].recs[j].h
    ensures Laid(m.files[i].recs) && EndOf(m.files[i].recs) < m.limits.maxFileSize
    ensures Position(m, c) == |Gone(m)| + |Flat(m.files[..i])| + j < |History(m)|
    ensures History(m)[Position(m, c)].h == c.header
  {
    i, j := FileIndex(m.files, c.fileNo), c.header.logNo;
    assert FileOk(m.limits, m.files[i]);
    PlacedAt(m, c, i, j);
  }

  lemma {:induction false} NextFilePosition(files: seq<LogFile>, i: nat)
    requires i < |files|
    ensures Flat(files[..i + 1]) == Flat(files[..i]) + files[i].recs
  {
    assert files[..i + 1][..i] == files[..i];
  }

  lemma {:induction false} EndOfHistory(m: Mgr, i: nat, j: nat)
    requires i < |m.files| && j < |m.files[i].recs|
    requires FilesOk(m.limits, m.files)
    requires m.files[|m.files| - 1].recs != []
    ensures |Gone(m)| + |Flat(m.files[..i])| + j + 1 == |History(m)| <==>
              i == |m.files| - 1 && j == |m.files[i].recs| - 1
  {
    NextFilePosition(m.files, i);
    FlatSplit(m.files, i + 1);
    if i < |m.files| - 1 {
      var rest := m.files[i + 1..];
      assert rest[|rest| - 1] == m.files[|m.files| - 1];
    } else {
      assert m.files[..i + 1] == m.files;
    }
  }

  // -------------------------------------------------------------------- the moves

  lemma {:induction false} OldestRecord(gone: seq<Record>, files: seq<LogFile>)
    requires files != [] && files[0].recs != []
    ensures |gone| < |gone + Flat(files)| && (gone + Flat(files))[|gone|] == files[0].recs[0]
  {
    assert files[..0] == [];
    FlatAt(files, 0, 0);
  }

  /** A ready cursor is never out of the managed range, which the source asserts. */
  lemma {:induction false} NeverOutOfRange(m: Mgr, c: CursorV)
    requires WellFormed(m) && m.valid
    requires Stands(m.files, c)
    ensures !OutOfRange(m, c)
  {
    hide Laid, Flat, Stands;
    var i, j := WhereItStands(m, c);
    OldestRecord(Gone(m), m.files);
    if Position(m, c) > |Gone(m)| {
      assert History(m)[|Gone(m)|].h.sid < History(m)[Position(m, c)].h.sid;
    }
  }

  /** `after` is `before` moved by `step` records of the history. */
  predicate MovedBy(m: Mgr, before: CursorV, after: CursorV, step: int)
    requires Stands(m.files, before)
  {
    && after.state == Ready && Stands(m.files, after) && after.seekSid == before.seekSid
    && Position(m, after) == Position(m, before) + step
  }

  lemma {:induction false} NextWithin(m: Mgr, c: CursorV, i: nat, j: nat)
    requires WellFormed(m) && m.valid
    requires c.state == Ready && Stands(m.files, c)
    requires i < |m.files| && j + 1 < |m.files[i].recs|
    requires c.fileNo == m.files[i].no && c.header == m.files[i].recs[j].h
    ensures var (c', res) := NextStep(m, c, m.files[i]); res == Success && MovedBy(m, c, c', 1)
  {
    hide Laid, Flat, Stands, ToHeader;
    NeverOutOfRange(m, c);
    var f := m.files[i];
    assert FileOk(m.limits, f);
    Neighbours(f.recs, j);
    Neighbours(f.recs, j + 1);
    ReadsRecord(c, f, j + 1);
    PlacedAt(m, c, i, j);
    PlacedAt(m, c.(header := f.recs[j + 1].h), i, j + 1);
  }

  lemma {:induction false} NextAcross(m: Mgr, c: CursorV, i: nat)
    requires WellFormed(m) && m.valid
    requires c.state == Ready && Stands(m.files, c)
    requires i + 1 < |m.files| && m.files[i].recs != []
    requires c.fileNo == m.files[i].no && c.header == m.files[i].recs[|m.files[i].recs| - 1].h
    ensures var (c', res) := NextStep(m, c, m.files[i]); res == Success && MovedBy(m, c, c', 1)
  {
    hide Laid, Flat, Stands, ToHeader;
    NeverOutOfRange(m, c);
    var f, g := m.files[i], m.files[i + 1];
    assert FileOk(m.limits, f) && FileOk(m.limits, g);
    ReadsEnd(c, f);
    AboveIs(m.files, i);
    Neighbours(g.recs, 0);
    SeeksRecord(c, g, 0);
    PlacedAt(m, c, i, |f.recs| - 1);
    PlacedAt(m, CursorV(Ready, c.seekSid, g.no, g.recs[0].h), i + 1, 0);
    NextFilePosition(m.files, i);
  }

  lemma {:induction false} NextAtEnd(m: Mgr, c: CursorV)
    requires WellFormed(m) && m.valid && m.files != []
    requires c.state == Ready && Stands(m.files, c)
    requires c.fileNo == Current(m).no && c.header == Current(m).recs[|Current(m).recs| - 1].h
    ensures NextStep(m, c, Current(m)) == (c, End)
  {
    hide Laid, Flat, Stands, ToHeader;
    NeverOutOfRange(m, c);
    assert FileOk(m.limits, Current(m));
    ReadsEnd(c, Current(m));
    AboveIs(m.files, |m.files| - 1);
  }

  /** next steps to the following record of the history wherever it is stored, or reports the end and stays. */
  lemma {:induction false} NextMoves(m: Mgr, c: CursorV)
    requires WellFormed(m) && m.valid
    requires c.state == Ready && Stands(m.files, c)
    ensures var (c', res) := NextStep(m, c, OpenFile(m, c));
            if Position(m, c) + 1 < |History(m)| then res == Success && MovedBy(m, c, c', 1)
            else res == End && c' == c
  {
    hide Laid, Flat, Stands, NextStep, MovedBy;
    var i, j := WhereItStands(m, c);
    EndOfHistory(m, i, j);
    if j + 1 < |m.files[i].recs| {
      NextWithin(m, c, i, j);
    } else if i + 1 < |m.files| {
      NextAcross(m, c, i);
    } else {
      NextAtEnd(m, c);
    }
  }

  /** prev steps to the record before, wherever it is stored. At the oldest record the source is undefined. */
  lemma {:induction false} PrevMoves(m: Mgr, c: CursorV)
    requires WellFormed(m) && m.valid
    requires c.state == Ready && Stands(m.files, c)
    ensures var (c', res) := PrevStep(m, c, OpenFile(m, c));
            if Position(m, c) > |Gone(m)| then res == Success && MovedBy(m, c, c', -1)
            else res == Undefined
  {
    hide Laid, Flat, Stands, PrevStep, MovedBy;
    var i, j := WhereItStands(m, c);
    if j > 0 {
      PrevWithin(m, c, i, j);
    } else if i > 0 {
      PrevAcross(m, c, i);
    } else {
      PrevAtStart(m, c);
    }
  }

  lemma {:induction false} PrevWithin(m: Mgr, c: CursorV, i: nat, j: nat)
    requires WellFormed(m) && m.valid
    requires c.state == Ready && Stands(m.files, c)
    requires i < |m.files| && 0 < j < |m.files[i].recs|
    requires c.fileNo == m.files[i].no && c.header == m.files[i].recs[j].h
    ensures var (c', res) := PrevStep(m, c, m.files[i]); res == Success && MovedBy(m, c, c', -1)
    ensures Position(m, c) > |Gone(m)|
  {
    hide Laid, Flat, Stands, ToHeader;
    NeverOutOfRange(m, c);
    var f := m.files[i];
    assert FileOk(m.limits, f);
    Neighbours(f.recs, j);
    ReadsRecord(c, f, j - 1);
    PlacedAt(m, c, i, j);
    PlacedAt(m, c.(header := f.recs[j - 1].h), i, j - 1);
  }

  lemma {:induction false} PrevAcross(m: Mgr, c: CursorV, i: nat)
    requires WellFormed(m) && m.valid
    requires c.state == Ready && Stands(m.files, c)
    requires 0 < i < |m.files| && m.files[i].recs != []
    requires c.fileNo == m.files[i].no && c.header == m.files[i].recs[0].h
    ensures var (c', res) := PrevStep(m, c, m.files[i]); res == Success && MovedBy(m, c, c', -1)
    ensures Position(m, c) > |Gone(m)|
  {
    hide Laid, Flat, Stands, ToHeader, Ascending, CursorsOk, History;
    NeverOutOfRange(m, c);
    var f, g := m.files[i], m.files[i - 1];
    assert FileOk(m.limits, f) && FileOk(m.limits, g);
    Neighbours(f.recs, 0);
    AboveIs(m.files, i);
    SeeksRecord(c, g, |g.recs| - 1);
    PlacedAt(m, c, i, 0);
    PlacedAt(m, CursorV(Ready, c.seekSid, g.no, g.recs[|g.recs| - 1].h), i - 1, |g.recs| - 1);
    NextFilePosition(m.files, i - 1);
  }

  lemma {:induction false} PrevAtStart(m: Mgr, c: CursorV)
    requires WellFormed(m) && m.valid && m.files != []
    requires c.state == Ready && Stands(m.files, c)
    requires m.files[0].recs != [] && c.fileNo == m.files[0].no && c.header == m.files[0].recs[0].h
    ensures PrevStep(m, c, m.files[0]).1 == Undefined
    ensures Position(m, c) == |Gone(m)|
  {
    NeverOutOfRange(m, c);
    assert FileOk(m.limits, m.files[0]);
    Neighbours(m.files[0].recs, 0);
    AboveIs(m.files, 0);
    PlacedAt(m, c, 0, 0);
    assert m.files[..0] == [];
  }

  /** Two ready cursors at one place of the history are on the same record of the same file. */
  lemma {:induction false} PositionIsUnique(m: Mgr, c: CursorV, d: CursorV)
    requires WellFormed(m) && m.valid
    requires Stands(m.files, c) && Stands(m.files, d) && Position(m, c) == Position(m, d)
    ensures c.header == d.header && c.fileNo == d.fileNo
  {
    hide Laid, Flat, Stands;
    var i, j := WhereItStands(m, c);
    var k, l := WhereItStands(m, d);
    if i < k {
      FilesInOrder(m.files, i, j, k);
    } else if k < i {
      FilesInOrder(m.files, k, l, i);
    }
  }

  lemma {:induction false} FilesInOrder(files: seq<LogFile>, i: nat, j: nat, k: nat)
    requires i < k < |files| && j < |files[i].recs|
    ensures |Flat(files[..i])| + j < |Flat(files[..k])|
  {
    FlatAt(files[..k], i, j);
    assert files[..k][..i] == files[..i];
  }

  /** A ready cursor fetches the data of the record of the history it stands on. */
  lemma {:induction false} FetchReads(m: Mgr, c: CursorV, bufLen: nat)
    requires WellFormed(m) && m.valid
    requires c.state == Ready && Stands(m.files, c) && c.header.logLen <= bufLen
    ensures Position(m, c) < |History(m)|
    ensures FetchStep(m, c, bufLen, OpenFile(m, c)) == (c, Fetched(History(m)[Position(m, c)].data))
  {
    hide Laid, Flat, Stands, FileBytes, DataOf;
    var i, j := WhereItStands(m, c);
    DataIsFound(m.files[i].recs, j, FileBytes(m.files[i].recs));
    assert History(m)[Position(m, c)] == m.files[i].recs[j] by {
      FlatAt(m.files, i, j);
    }
  }

  /** prev undoes next: from any record but the newest, one step forward and one back return to it. */
  lemma {:induction false} PrevUndoesNext(m: Mgr, c: CursorV)
    requires WellFormed(m) && m.valid
    requires c.state == Ready && Stands(m.files, c)
    requires Position(m, c) + 1 < |History(m)|
    ensures var (d, forward) := NextStep(m, c, OpenFile(m, c));
            forward == Success && PrevStep(m, d, OpenFile(m, d)) == (c, Success)
  {
    hide Laid, Flat, Stands, NextStep, PrevStep;
    NextMoves(m, c);
    var d := NextStep(m, c, OpenFile(m, c)).0;
    PrevMoves(m, d);
    PositionIsUnique(m, c, PrevStep(m, d, OpenFile(m, d)).0);
  }

  lemma {:induction false} AboveIs(files: seq<LogFile>, i: nat)
    requires forall k :: 0 <= k < |files| ==> files[k].no == files[0].no + k
    requires i < |files|
    ensures AboveIndex(files, files[i].no) == i + 1
    ensures LowerIndex(files, files[i].no) == i
  {
    var a, l := AboveIndex(files, files[i].no), LowerIndex(files, files[i].no);
    assert files[i].no == files[0].no + i;
    if i + 1 < |files| {
      assert files[i + 1].no == files[0].no + (i + 1);
    }
  }

  // ---------------------------------------------------------------------- seeking

  lemma {:induction false} AscendingPart(gone: seq<Record>, flat: seq<Record>)
    requires Ascending(gone + flat)
    ensures Ascending(flat)
  {
    forall i, j | 0 <= i < j < |flat|
      ensures flat[i].h.sid < flat[j].h.sid
    {
      assert (gone + flat)[|gone| + i].h.sid < (gone + flat)[|gone| + j].h.sid;
    }
  }

  /** All sids of a file lie below those of a later one. */
  lemma {:induction false} FilesAscend(files: seq<LogFile>, i: nat, k: nat)
    requires Ascending(Flat(files))
    requires i < k < |files| && files[i].recs != [] && files[k].recs != []
    ensures LastSid(files[i].recs) < FirstSid(files[k].recs)
  {
    var j := |files[i].recs| - 1;
    FlatAt(files, i, j);
    FlatAt(files, k, 0);
    FilesInOrder(files, i, j, k);
    assert Flat(files)[|Flat(files[..i])| + j].h.sid < Flat(files)[|Flat(files[..k])|].h.sid;
  }

  /** The successor of a sid in the whole log is its successor in the first file that has one. */
  lemma {:induction false} UpperInFile(files: seq<LogFile>, i: nat, sid: nat)
    requires Ascending(Flat(files))
    requires i < |files| && (forall k :: 0 <= k < |files| ==> files[k].recs != [])
    requires sid < LastSid(files[i].recs) && (i > 0 ==> LastSid(files[i - 1].recs) <= sid)
    ensures UpperIndex(files[i].recs, sid) < |files[i].recs|
    ensures UpperIndex(Flat(files), sid) == |Flat(files[..i])| + UpperIndex(files[i].recs, sid)
  {
    hide Flat;
    var u := UpperIndex(files[i].recs, sid);
    FlatAt(files, i, u);
    var p := |Flat(files[..i])| + u;
    if u > 0 {
      FlatAt(files, i, u - 1);
    } else if i > 0 {
      NextFilePosition(files, i - 1);
      FlatAt(files, i - 1, |files[i - 1].recs| - 1);
    } else {
      assert files[..0] == [];
      FlatOfNone();
    }
    UpperInOrder(Flat(files), sid, p);
  }

  lemma {:induction false} FlatOfNone()
    ensures Flat([]) == []
  {
  }

  /** The file a seek looks into: the current one, or the first whose newest sid is above. */
  function SeekFile(files: seq<LogFile>, sid: nat): nat
    requires files != []
  {
    var n := |files| - 1;
    if sid >= FirstSid(files[n].recs) || FileFor(files, sid) == |files| then n else FileFor(files, sid)
  }

  lemma {:induction false} SeekFileIsFirst(files: seq<LogFile>, sid: nat)
    requires files != [] && Ascending(Flat(files))
    requires forall k :: 0 <= k < |files| ==> files[k].recs != []
    requires sid < LastSid(files[|files| - 1].recs)
    ensures var i := SeekFile(files, sid);
            i < |files| && sid < LastSid(files[i].recs) && (i > 0 ==> LastSid(files[i - 1].recs) <= sid)
  {
    var n := |files| - 1;
    if sid >= FirstSid(files[n].recs) && n > 0 {
      FilesAscend(files, n - 1, n);
    }
  }

  /** A seek finds the first managed record above the sid, or reports that there is none; it never fails. */
  lemma {:induction false} SeekFinds(m: Mgr, c: CursorV, sid: nat)
    requires WellFormed(m) && m.valid
    ensures var (c', res) := SeekStep(m, c, sid);
            var u := UpperIndex(Flat(m.files), sid);
            if u < |Flat(m.files)| then
              && res == Success && c'.state == Ready && c'.seekSid == sid
              && Stands(m.files, c') && Position(m, c') == |Gone(m)| + u
            else res == End && c' == c.(state := Unseek, seekSid := sid)
  {
    hide Laid, Flat, Stands, SeekStep;
    if m.files == [] || sid >= LastSid(Current(m).recs) {
      SeekPassesEnd(m, c, sid);
    } else {
      assert Ascending(Flat(m.files)) by {
        AscendingPart(Gone(m), Flat(m.files));
      }
      SeekFileIsFirst(m.files, sid);
      SeekLands(m, c, SeekFile(m.files, sid), sid);
    }
  }

  lemma {:induction false} SeekPassesEnd(m: Mgr, c: CursorV, sid: nat)
    requires WellFormed(m) && m.valid
    requires m.files == [] || sid >= LastSid(Current(m).recs)
    ensures SeekStep(m, c, sid) == (c.(state := Unseek, seekSid := sid), End)
    ensures UpperIndex(Flat(m.files), sid) == |Flat(m.files)|
  {
    hide Laid, Flat, Ascending, UpperIndex;
    if m.files == [] {
      FlatOfNone();
      NoneAbove([], sid);
    } else {
      AboveAll(Gone(m), m.files, sid);
    }
  }

  lemma {:induction false} NoneAbove(recs: seq<Record>, sid: nat)
    requires Ascending(recs) && LastSid(recs) <= sid
    ensures UpperIndex(recs, sid) == |recs|
  {
    UpperInOrder(recs, sid, |recs|);
  }

  lemma {:induction false} AboveAll(gone: seq<Record>, files: seq<LogFile>, sid: nat)
    requires files != [] && files[|files| - 1].recs != [] && Ascending(gone + Flat(files))
    requires LastSid(files[|files| - 1].recs) <= sid
    ensures UpperIndex(Flat(files), sid) == |Flat(files)|
  {
    hide Flat, Ascending, UpperIndex;
    AscendingPart(gone, Flat(files));
    LastOfFlat([], files);
    assert [] + Flat(files) == Flat(files);
    NoneAbove(Flat(files), sid);
  }

  /** A seek below the newest sid looks in the file that has the record. */
  lemma {:induction false} SeekLooksIn(m: Mgr, c: CursorV, sid: nat)
    requires m.valid && m.files != [] && sid < LastSid(Current(m).recs) && SeekFile(m.files, sid) < |m.files|
    ensures SeekStep(m, c, sid) == SeekIn(c.(seekSid := sid), m.files[SeekFile(m.files, sid)], sid)
  {
    hide SeekIn;
  }

  lemma {:induction false} SeekLands(m: Mgr, c: CursorV, i: nat, sid: nat)
    requires WellFormed(m) && m.valid && m.files != []
    requires sid < LastSid(Current(m).recs) && i == SeekFile(m.files, sid) < |m.files|
    requires sid < LastSid(m.files[i].recs) && (i > 0 ==> LastSid(m.files[i - 1].recs) <= sid)
    requires Ascending(Flat(m.files))
    ensures var (c', res) := SeekStep(m, c, sid);
            var u := UpperIndex(Flat(m.files), sid);
            && u < |Flat(m.files)|
            && res == Success && c'.state == Ready && c'.seekSid == sid
            && Stands(m.files, c') && Position(m, c') == |Gone(m)| + u
  {
    hide Laid, Flat, Stands, FileSeek, Ascending, SeekStep, SeekFile, UpperIndex, Position, CursorsOk;
    var f := m.files[i];
    SeekLooksIn(m, c, sid);
    UpperInFile(m.files, i, sid);
    var u := UpperIndex(f.recs, sid);
    assert FileOk(m.limits, f);
    SeeksRecord(c.(seekSid := sid), f, u);
    PlacedAt(m, CursorV(Ready, sid, f.no, f.recs[u].h), i, u);
  }

  /**
   * What is refused, and what it leaves: nothing moves on a manager that has failed or for a cursor that is not
   * ready, and reading into a buffer that is too small puts the cursor in the error state.
   */
  lemma {:induction false} Refused(m: Mgr, q: Request, c: CursorV, sid: nat, bufLen: nat)
    ensures !m.valid ==> AppendStep(m, q) == (m, false) && SeekStep(m, c, sid) == (c.(seekSid := sid), Failure)
    ensures !m.valid || c.state != Ready ==>
              && NextStep(m, c, OpenFile(m, c)) == (c, Failure) && PrevStep(m, c, OpenFile(m, c)) == (c, Failure)
              && FetchStep(m, c, bufLen, OpenFile(m, c)) == (c, NoData)
    ensures m.valid && c.state == Ready && bufLen < c.header.logLen ==>
              FetchStep(m, c, bufLen, OpenFile(m, c)) == (c.(state := Error), NoData)
  {
  }
}
