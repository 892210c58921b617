// The binlog manager in place: a row of open files of which only the newest is written, the registered
// cursors, and the sid bounds. Every method carries out the operation of MgrSpec on the files themselves.
module BinLogMgr {
  import opened Bytes
  import opened BinLogFormat
  import opened BinLogCursor
  import opened BinLogRecovery
  import BinLogFile
  import opened MgrSpec
  import opened MgrInvariant
  import opened MgrCursors
  import opened MgrRuns
  import opened MgrReopen

  // ------------------------------------------------------- what the files stand for

  ghost function View(f: BinLogFile.File): (v: LogFile)
    reads f
  {
    LogFile(f.fileNo, f.day, f.recs)
  }

  ghost function Views(files: seq<BinLogFile.File>): (vs: seq<LogFile>)
    reads files
    ensures |vs| == |files|
  {
    if files == [] then [] else Views(files[..|files| - 1]) + [View(files[|files| - 1])]
  }

  lemma {:induction false} ViewsAre(files: seq<BinLogFile.File>)
    ensures forall i :: 0 <= i < |files| ==> Views(files)[i] == View(files[i])
  {
    if files != [] {
      ViewsAre(files[..|files| - 1]);
    }
  }

  /** Open files with consecutive numbers and the manager's size limit. */
  ghost predicate Row(files: seq<BinLogFile.File>, maxFileSize: nat)
    reads files
  {
    forall i :: 0 <= i < |files| ==>
      files[i].Valid() && files[i].maxFileSize == maxFileSize && files[i].fileNo == files[0].fileNo + i
  }

  lemma {:induction false} RowSnoc(files: seq<BinLogFile.File>, maxFileSize: nat, f: BinLogFile.File)
    requires Row(files, maxFileSize) && files != []
    requires f.Valid() && f.maxFileSize == maxFileSize && f.fileNo == files[|files| - 1].fileNo + 1
    ensures Row(files + [f], maxFileSize)
  {
    hide BinLogFile.File.Valid;
  }

  lemma {:induction false} FileFacts(f: BinLogFile.File)
    requires f.Valid()
    ensures f.at.minSid == FirstSid(f.recs) && f.at.maxSid == LastSid(f.recs) && f.at.prevLogOffset == LastOffset(f.recs)
    ensures f.at.logNum == |f.recs|
    ensures f.at.fileSize == EndOf(f.recs) && f.data == FileBytes(f.recs) && |f.data| < U32
    ensures Laid(f.recs)
  {
    FileBytesSize(f.recs);
  }

  /** The sid bounds are those of the oldest and the newest file, which is the one that is written. */
  ghost predicate Bounds(files: seq<BinLogFile.File>, minSid: nat, maxSid: nat)
    reads files
  {
    if files == [] then minSid == maxSid == 0
    else
      var last := files[|files| - 1];
      minSid == FirstSid(files[0].recs) && maxSid == LastSid(last.recs) && !last.readOnly
  }

  /** The files of the row from number `i` on are open, those with records. */
  ghost predicate OpenedFrom(files: seq<BinLogFile.File>, minSid: nat, maxSid: nat, limits: Limits, row: seq<LogFile>, i: nat)
    reads files
  {
    && i <= |row|
    && Row(files, limits.maxFileSize) && Bounds(files, minSid, maxSid) && Views(files) == NonEmpty(row[i..])
  }

  lemma {:induction false} LeftSize(m: Mgr, kept: nat, next: Record, torn: seq<byte>, left: seq<LeftFile>)
    requires m.files != [] && kept <= |Current(m).recs| && LeftBy(m, kept, next, torn, left)
    ensures |left| == |Stored(m)| == |RecoveredRow(Stored(m), kept, next, torn)|
  {
  }

  lemma {:induction false} FitsSid(m: Mgr, kept: nat, next: Record, torn: seq<byte>)
    requires Interrupted(m, kept, next, torn)
    ensures next.h.sid < U64
  {
  }

  lemma {:induction false} NothingOpened(limits: Limits, row: seq<LogFile>)
    ensures OpenedFrom([], 0, 0, limits, row, |row|)
  {
    assert row[|row|..] == [];
  }

  lemma {:induction false} AllOpened(files: seq<BinLogFile.File>, minSid: nat, maxSid: nat, limits: Limits, row: seq<LogFile>)
    requires OpenedFrom(files, minSid, maxSid, limits, row, 0) && FilesOk(limits, NonEmpty(row))
    requires FREE_SIZE < limits.maxFileSize
    ensures Row(files, limits.maxFileSize) && Views(files) == NonEmpty(row)
    ensures var kept := NonEmpty(row);
            && minSid == (if kept == [] then 0 else FirstSid(kept[0].recs))
            && maxSid == (if kept == [] then 0 else LastSid(kept[|kept| - 1].recs))
    ensures files != [] ==> !files[|files| - 1].readOnly && LastSid(files[|files| - 1].recs) <= maxSid
    ensures files != [] ==> Roomy(files[|files| - 1].recs, limits.maxFileSize)
  {
    hide Row, NonEmpty, Laid;
    assert row[0..] == row;
    ViewsAre(files);
  }

  lemma {:induction false} RowCons(f: BinLogFile.File, files: seq<BinLogFile.File>, maxFileSize: nat)
    requires f.Valid() && f.maxFileSize == maxFileSize && Row(files, maxFileSize)
    requires files != [] ==> f.fileNo + 1 == files[0].fileNo
    ensures Row([f] + files, maxFileSize)
    ensures Views([f] + files) == [View(f)] + Views(files)
  {
    hide BinLogFile.File.Valid;
    ViewsAre(files);
    ViewsAre([f] + files);
  }

  /** What opening one file more comes to. */
  lemma {:induction false} OpenedMore(f: BinLogFile.File, files: seq<BinLogFile.File>, minSid: nat, maxSid: nat, limits: Limits,
                                      row: seq<LogFile>, i: nat)
    requires FilesOk(limits, NonEmpty(row)) && Ascending(Flat(NonEmpty(row))) && i < |row|
    requires OpenedFrom(files, minSid, maxSid, limits, row, i + 1)
    requires f.Valid() && f.readOnly == (files != []) && f.maxFileSize == limits.maxFileSize && View(f) == row[i]
    ensures f.recs == [] ==> OpenedFrom(files, minSid, maxSid, limits, row, i)
    ensures f.recs != [] ==>
              && (files != [] ==> LastSid(f.recs) < minSid)
              && OpenedFrom([f] + files, FirstSid(f.recs), if files == [] then LastSid(f.recs) else maxSid, limits, row, i)
  {
    hide BinLogFile.File.Valid, Row, Views, NonEmpty, Flat, Ascending, FilesOk;
    ViewsAre(files);
    NextOlder(limits, row, i);
    if f.recs != [] {
      RowCons(f, files, limits.maxFileSize);
    }
  }

  lemma {:induction false} RollIs(m: Mgr, day: nat, all: seq<LogFile>)
    requires m.files != [] && all == m.files + [LogFile(m.files[|m.files| - 1].no + 1, day, [])]
    ensures var n := Evicted(m.limits, m.cursors, all);
            MgrSpec.Roll(m, day) ==
            m.(files := all[n..], minSid := FirstSid(if all[n..] == [] then [] else all[n].recs), out := m.out + all[..n])
  {
  }

  /** The files after the record asked for has been added to the last of them. */
  ghost function Written(vs: seq<LogFile>, q: Request): seq<LogFile>
    requires vs != []
  {
    var n := |vs| - 1;
    vs[..n] + [vs[n].(recs := vs[n].recs + [NewRecord(vs[n].recs, q)])]
  }

  lemma {:induction false} RowFile(files: seq<BinLogFile.File>, maxFileSize: nat, f: BinLogFile.File)
    requires Row(files, maxFileSize) && f in files
    ensures f.Valid()
  {
  }

  /** What a file's seek does: find the entry above `sid`, then read the header it points at. */
  method SeekInFile(f: BinLogFile.File, c0: CursorV, sid: nat) returns (c: CursorV, res: Result)
    requires f.Valid()
    ensures (c, res) == SeekIn(c0, View(f), sid)
  {
    hide FileSeek;
    FileFacts(f);
    hide BinLogFile.File.Valid, FileBytes, Laid;
    var found := f.Upper(sid);
    if found.Found? {
      var ok;
      c, ok := SeekTo(f, c0, found.index.offset);
      res := if ok then Success else Failure;
    } else {
      c, res := CursorV(Error, c0.seekSid, f.fileNo, Header(0, 0, 0, 0, 0, 0, 0)), Failure;
    }
  }

  /** Opens the file for the cursor and reads the header at `off`. */
  method SeekTo(f: BinLogFile.File, c0: CursorV, off: nat) returns (c: CursorV, ok: bool)
    requires f.Valid()
    ensures (c, ok) == FileSeek(c0, View(f), off)
  {
    FileFacts(f);
    hide BinLogFile.File.Valid, FileBytes, Laid, HeaderMove, HeaderIn;
    var (d, move) := ReadHeader(CursorV(Unseek, c0.seekSid, f.fileNo, Header(0, 0, 0, 0, 0, 0, 0)), f.data, off);
    c := d;
    ok := move == Moved;
    if !ok {
      c := c.(state := Error);
    }
  }

  // ------------------------------------------------------- cursors with their cache

  /** The value a cursor object stands for. */
  ghost function CursorView(c: Cursor): CursorV
    reads c
  {
    CursorV(c.state, c.seekSid, c.fileNo, c.header)
  }

  /** What SeekTo does on a value, done by a cursor object through its block cache. */
  method SeekCached(f: BinLogFile.File, c: Cursor, off: nat) returns (ok: bool)
    requires f.Valid() && c.block.Length == BLOCK && off < U32
    modifies c, c.block
    ensures c.CacheOk(f.data) && c.isOpen
    ensures (CursorView(c), ok) == FileSeek(old(CursorView(c)), View(f), off)
  {
    hide BinLogFile.File.Valid, FileBytes, Laid, HeaderMove, HeaderIn;
    FileFacts(f);
    c.Open(f.fileNo);
    var move := c.Seek(f.data, off);
    ok := move == Moved;
    if !ok {
      c.state := Error;
    }
  }

  /** A step forward within the file, which may have grown since the cache was filled. */
  method NextCached(f: BinLogFile.File, c: Cursor, ghost seen: seq<byte>) returns (move: Move)
    requires f.Valid() && c.isOpen && c.state == Ready && c.CacheOk(seen) && seen <= f.data
    modifies c, c.block
    ensures c.CacheOk(f.data) && c.isOpen
    ensures (CursorView(c), move) == ToHeader(old(CursorView(c)), View(f), Wrap32(old(c.header.End())))
  {
    hide BinLogFile.File.Valid, FileBytes, Laid, HeaderMove, HeaderIn;
    FileFacts(f);
    c.GrowthKeepsCache(seen, f.data);
    move := c.Next(f.data);
  }

  /** A step back within the file. */
  method PrevCached(f: BinLogFile.File, c: Cursor, ghost seen: seq<byte>) returns (move: Move)
    requires f.Valid() && c.isOpen && c.state == Ready && c.CacheOk(seen) && seen <= f.data
    requires c.header.offset != 0
    modifies c, c.block
    ensures c.CacheOk(f.data) && c.isOpen
    ensures (CursorView(c), move) == ToHeader(old(CursorView(c)), View(f), old(c.header.prevOffset))
  {
    hide BinLogFile.File.Valid, FileBytes, Laid, HeaderMove, HeaderIn;
    FileFacts(f);
    c.GrowthKeepsCache(seen, f.data);
    move := c.Prev(f.data);
  }

  /** The data of the record the cursor is on, through the cache. */
  method FetchCached(f: BinLogFile.File, c: Cursor, ghost seen: seq<byte>, bufLen: nat) returns (r: Fetch)
    requires f.Valid() && c.isOpen && c.state == Ready && c.CacheOk(seen) && seen <= f.data
    modifies c, c.block
    ensures c.CacheOk(f.data) && CursorView(c) == old(CursorView(c))
    ensures r == if bufLen < old(c.header).logLen then NoData else DataOf(FileBytes(f.recs), old(c.header))
  {
    hide BinLogFile.File.Valid, FileBytes, Laid, HeaderMove, HeaderIn, DataOf;
    FileFacts(f);
    c.GrowthKeepsCache(seen, f.data);
    r := c.Data(f.data, bufLen);
  }

  lemma {:induction false} RowFrom(files: seq<BinLogFile.File>, maxFileSize: nat, n: nat)
    requires Row(files, maxFileSize) && n <= |files|
    ensures Row(files[n..], maxFileSize)
  {
    hide BinLogFile.File.Valid;
  }

  lemma {:induction false} ViewsFrom(files: seq<BinLogFile.File>, n: nat)
    requires n <= |files|
    ensures Views(files[n..]) == Views(files)[n..]
  {
    ViewsAre(files);
    ViewsAre(files[n..]);
  }

  lemma {:induction false} ViewsSnoc(files: seq<BinLogFile.File>, f: BinLogFile.File)
    ensures Views(files + [f]) == Views(files) + [View(f)]
  {
    assert (files + [f])[..|files|] == files;
  }

  /** The free tail of a file that is written is not used up. */
  predicate Roomy(recs: seq<Record>, maxFileSize: nat) {
    EndOf(recs) + FREE_SIZE < maxFileSize
  }

  class Manager {
    const limits: Limits
    var valid: bool
    var files: seq<BinLogFile.File>
    var cursors: map<nat, CursorV>
    var minSid: nat
    var maxSid: nat
    ghost var out: seq<LogFile>

    ghost predicate Valid()
      reads this, files
    {
      && BinLogFile.MIN_FILE_SIZE <= limits.maxFileSize < U31
      && Row(files, limits.maxFileSize)
      && (files != [] ==> !files[|files| - 1].readOnly)
      && (files != [] ==> LastSid(files[|files| - 1].recs) <= maxSid && Roomy(files[|files| - 1].recs, limits.maxFileSize))
    }

    /** The state of MgrSpec this manager is in. */
    ghost function Abs(): Mgr
      reads this, files
    {
      Mgr(limits, valid, Views(files), minSid, maxSid, cursors, out)
    }

    constructor (lims: Limits)
      requires BinLogFile.MIN_FILE_SIZE <= lims.maxFileSize < U31
      ensures Valid() && files == []
      ensures Abs() == Mgr(lims, true, [], 0, 0, map[], [])
    {
      limits, valid, files, cursors, minSid, maxSid := lims, true, [], map[], 0, 0;
      out := [];
    }

    // ----------------------------------------------------------------- opening

    /**
     * Opens the files that were left behind, newest first. Whatever was lost of an index is rebuilt; files
     * without records are removed. Nothing that is left of the log is missing afterwards.
     */
    method Init(left: seq<LeftFile>, ghost m: Mgr, ghost kept: nat, ghost next: Record, ghost torn: seq<byte>)
      returns (ok: bool)
      requires Valid() && files == [] && m.limits == limits
      requires Sound(m) && Interrupted(m, kept, next, torn) && LeftBy(m, kept, next, torn, left)
      modifies this
      ensures ok && Valid() && Abs() == Reopened(m, kept, next, torn)
    {
      hide BinLogFile.File.Valid, Row, Views, LeftBy, Flat, Bounds, Sound, Interrupted, NonEmpty, RecoveredRow, FilesOk;
      InterruptedIs(m, kept, next, torn);
      LeftSize(m, kept, next, torn, left);
      ghost var row := RecoveredRow(Stored(m), kept, next, torn);
      KeptInOrder(m, kept, next, torn);
      ok, valid, files, cursors, minSid, maxSid := false, false, [], map[], 0, 0;
      out := if limits.delOut then NonEmpty(m.out) else [];
      NothingOpened(limits, row);
      var i := |left|;
      while i > 0
        invariant 0 <= i <= |left| == |row|
        invariant OpenedFrom(files, minSid, maxSid, limits, row, i)
        invariant !valid && cursors == map[] && out == if limits.delOut then NonEmpty(m.out) else []
        decreases i
      {
        i := i - 1;
        var f := OpenLeft(left[i], files != [], m, left, i, kept, next, torn);
        var inOrder := AddOldest(f, row, i);
        if !inOrder {
          return;
        }
      }
      ok, valid := true, true;
      AllOpened(files, minSid, maxSid, limits, row);
    }

    /** Puts an opened file before the others, unless it is without records; its sids must be below theirs. */
    method AddOldest(f: BinLogFile.File, ghost row: seq<LogFile>, ghost i: nat) returns (ok: bool)
      requires FilesOk(limits, NonEmpty(row)) && Ascending(Flat(NonEmpty(row))) && i < |row|
      requires OpenedFrom(files, minSid, maxSid, limits, row, i + 1)
      requires f.Valid() && f.readOnly == (files != []) && f.maxFileSize == limits.maxFileSize && View(f) == row[i]
      modifies this`files, this`minSid, this`maxSid
      ensures ok && OpenedFrom(files, minSid, maxSid, limits, row, i)
    {
      hide BinLogFile.File.Valid, OpenedFrom, NonEmpty, Flat, Ascending, FilesOk;
      ok := true;
      FileFacts(f);
      OpenedMore(f, files, minSid, maxSid, limits, row, i);
      if f.at.logNum != 0 {
        if files != [] && f.at.maxSid >= minSid {
          return false;
        }
        if files == [] {
          maxSid := f.at.maxSid;
        }
        minSid := f.at.minSid;
        files := [f] + files;
      }
    }

    /** Opens one of the files left behind. */
    method OpenLeft(l: LeftFile, readOnly: bool, ghost m: Mgr, ghost left: seq<LeftFile>, ghost i: nat,
                    ghost kept: nat, ghost next: Record, ghost torn: seq<byte>) returns (f: BinLogFile.File)
      requires BinLogFile.MIN_FILE_SIZE <= limits.maxFileSize < U31 && m.limits == limits
      requires Sound(m) && Interrupted(m, kept, next, torn) && LeftBy(m, kept, next, torn, left)
      requires i < |left| == |Stored(m)| && l == left[i]
      ensures fresh(f) && f.Valid() && f.readOnly == readOnly && f.maxFileSize == limits.maxFileSize
      ensures View(f) == RecoveredRow(Stored(m), kept, next, torn)[i]
    {
      hide BinLogFile.File.Valid, Sound, RecordBytes, Flat, Laid, Continues, CrashLeft, Recovered;
      f := new BinLogFile.File(l.day, l.no, limits.maxFileSize);
      ghost var whole, more, cut := Stored(m)[i].recs, next, torn;
      if i < |left| - 1 {
        OlderSids(m, kept, next, torn, i);
        FitsSid(m, kept, next, torn);
        more := ClosedIsLeft(Stored(m)[i], limits, l.idx, next.h.sid);
        cut := [];
      } else {
        whole := whole[..kept];
      }
      var rebuilt := f.Open(l.data, l.idx, readOnly, whole, more, cut);
    }

    // --------------------------------------------------------------- appending

    /** Whether the oldest file must be kept: within the file limit, or not below the place of some cursor. */
    method IsManaged(f: BinLogFile.File) returns (res: bool)
      requires f.Valid()
      ensures res <==> |files| <= limits.maxFileNum ||
                       exists id :: id in cursors &&
                                    (if cursors[id].state == Ready then cursors[id].header.sid else cursors[id].seekSid) <= LastSid(f.recs)
    {
      if |files| <= limits.maxFileNum {
        return true;
      }
      assert f.at.maxSid == LastSid(f.recs);
      var todo := cursors.Keys;
      while todo != {}
        invariant todo <= cursors.Keys
        invariant forall id :: id in cursors && id !in todo ==> Needs(cursors[id]) > f.at.maxSid
      {
        var id :| id in todo;
        if Needs(cursors[id]) <= f.at.maxSid {
          return true;
        }
        todo := todo - {id};
      }
      res := false;
    }

    /** Starts the next file, which becomes the one that is written. */
    method AddFile(day: nat) returns (f: BinLogFile.File)
      requires Valid() && files != []
      modifies this`files, files[|files| - 1]
      ensures files == old(files) + [f] && fresh(f)
      ensures Row(files, limits.maxFileSize) && f.Valid() && !f.readOnly && f.recs == []
      ensures Views(files) == old(Views(files)) + [LogFile(old(files[|files| - 1].fileNo) + 1, day, [])]
    {
      hide BinLogFile.Holds, BinLogFile.Indexed, BinLogFile.File.Valid, Views;
      ghost var before, vs := files, Views(files);
      ViewsAre(files);
      var current := files[|files| - 1];
      f := new BinLogFile.File(day, current.fileNo + 1, limits.maxFileSize);
      f.Create();
      current.SetReadOnly();
      files := files + [f];
      forall i | 0 <= i < |before|
        ensures before[i].Valid() && View(before[i]) == vs[i]
      {
        if before[i] != current {
          assert old(before[i].Valid());
        }
      }
      assert Row(before, limits.maxFileSize);
      ViewsAre(before);
      RowSnoc(before, limits.maxFileSize, f);
      ViewsSnoc(before, f);
    }

    /** Puts the next file under management and drops the oldest ones that nothing holds. */
    method Roll(day: nat)
      requires Valid() && files != []
      modifies this`files, this`out, this`minSid, files[|files| - 1]
      ensures Valid()
      ensures Abs() == MgrSpec.Roll(old(Abs()), day)
      ensures files != [] ==> fresh(files[|files| - 1]) && files[|files| - 1].recs == []
      ensures files == [] || |files| <= limits.maxFileNum ||
              exists id :: id in cursors &&
                           (if cursors[id].state == Ready then cursors[id].header.sid else cursors[id].seekSid) <= LastSid(files[0].recs)
      ensures forall f :: f in files ==> f in old(files) || fresh(f)
    {
      hide Flat, Evicted, BinLogFile.File.Valid, Views, Row, Pinned, MgrSpec.Roll;
      ghost var m := Abs();
      ViewsAre(files);
      var current := AddFile(day);
      RollIs(m, day, Views(files));
      DropOld(current);
    }

    /** Evicts, and takes the least sid from the file that is then the oldest. */
    method DropOld(current: BinLogFile.File)
      requires Row(files, limits.maxFileSize) && files != [] && current == files[|files| - 1]
      requires current.recs == []
      modifies this`files, this`out, this`minSid
      ensures var vs := old(Views(files));
              var n := Evicted(limits, cursors, vs);
              && Views(files) == vs[n..] && out == old(out) + vs[..n]
              && minSid == FirstSid(if vs[n..] == [] then [] else vs[n].recs)
      ensures Row(files, limits.maxFileSize) && (files != [] ==> files[|files| - 1] == current)
      ensures files == [] || |files| <= limits.maxFileNum ||
              exists id :: id in cursors &&
                           (if cursors[id].state == Ready then cursors[id].header.sid else cursors[id].seekSid) <= LastSid(files[0].recs)
      ensures forall f :: f in files ==> f in old(files)
    {
      hide Flat, Evicted, BinLogFile.Holds, BinLogFile.Indexed, BinLogFile.File.Valid, Views, Row, Pinned;
      ghost var all := files;
      ghost var n := Evicted(limits, cursors, Views(files));
      Evict();
      RowFrom(all, limits.maxFileSize, n);
      ViewsFrom(all, n);
      if files != [] {
        RowAt(files, limits.maxFileSize, 0);
        FileFacts(files[0]);
        minSid := files[0].at.minSid;
      } else {
        RowAt(all, limits.maxFileSize, |all| - 1);
        FileFacts(current);
        minSid := current.at.minSid;
      }
    }

    /** Creates the very first file. */
    method FirstFile(day: nat)
      requires Valid() && files == []
      modifies this`files
      ensures Valid() && Abs() == WithFile(old(Abs()), day)
      ensures |files| == 1 && fresh(files[0]) && files[0].recs == []
    {
      hide BinLogFile.Holds, BinLogFile.Indexed, BinLogFile.File.Valid;
      var f := new BinLogFile.File(day, START_FILE_NUM, limits.maxFileSize);
      f.Create();
      files := [f];
      ViewsAre(files);
    }

    /** Writes to the current file if it has room. */
    method WriteFile(q: Request) returns (done: bool)
      requires Valid() && files != []
      requires Fits(q) && |q.data| < BinLogFile.MAX_DATA && q.sid > maxSid
      modifies files[|files| - 1]
      ensures Row(files, limits.maxFileSize) && !files[|files| - 1].readOnly
      ensures done <==> !NoRoom(limits, old(files[|files| - 1].recs), |q.data|)
      ensures LastSid(files[|files| - 1].recs) <= if done then q.sid else maxSid
      ensures Roomy(files[|files| - 1].recs, limits.maxFileSize)
      ensures Views(files) == if done then Written(old(Views(files)), q) else old(Views(files))
    {
      hide BinLogFile.Holds, BinLogFile.Indexed, BinLogFile.File.Valid, Views, Laid, FileBytes;
      ghost var vs := Views(files);
      ViewsAre(files);
      var n := |files| - 1;
      var current := files[n];
      FileFacts(current);
      var res := current.Append(q.sid, q.datetime, q.group, q.data);
      forall i | 0 <= i < n
        ensures files[i].Valid() && View(files[i]) == vs[i]
      {
        assert old(files[i].Valid()) && files[i] != current;
      }
      ViewsAre(files);
      done := res == BinLogFile.Appended;
    }

    /** Writes to the current file if it has room, and then moves the sid bounds. */
    method Write(q: Request) returns (done: bool)
      requires Valid() && files != []
      requires Fits(q) && |q.data| < BinLogFile.MAX_DATA && q.sid > maxSid
      modifies this`maxSid, this`minSid, files[|files| - 1]
      ensures Valid()
      ensures done <==> !NoRoom(limits, old(files[|files| - 1].recs), |q.data|)
      ensures Abs() == if done then WriteLast(old(Abs()), q) else old(Abs())
    {
      hide Row, Views;
      done := WriteFile(q);
      if done {
        maxSid := q.sid;
        if minSid == 0 {
          minSid := q.sid;
        }
      }
    }

    /** Writes to the current file, or to a new one of the same day when that is full; else the manager has failed. */
    method StoreRecord(q: Request) returns (ok: bool)
      requires Valid() && files != []
      requires Fits(q) && |q.data| < BinLogFile.MAX_DATA && q.sid > maxSid
      modifies this, files[|files| - 1]
      ensures Valid()
      ensures Abs() == Store(old(Abs()), q).0 && ok == Store(old(Abs()), q).1
      ensures forall f :: f in files ==> f in old(files) || fresh(f)
    {
      hide Row, Views, MgrSpec.Roll, NoRoom, WriteLast, Roomy, BinLogFile.File.Valid;
      ViewsAre(files);
      ghost var m := Abs();
      ok := Write(q);
      if !ok {
        Roll(files[|files| - 1].day);
        assert Abs() == MgrSpec.Roll(m, Current(m).day);
        if files != [] {
          ViewsAre(files);
          ok := Write(q);
        }
        valid := valid && ok;
      }
    }

    /**
     * Appends a record: on a later day to a new file, into the current file while it has room, else into
     * a new file of the same day. Sids must grow; the manager fails for good on a record no file can take.
     */
    method Append(q: Request) returns (ok: bool)
      requires Valid() && Fits(q) && |q.data| < BinLogFile.MAX_DATA
      modifies this, files
      ensures Valid()
      ensures Abs() == AppendStep(old(Abs()), q).0 && ok == AppendStep(old(Abs()), q).1
      ensures forall f :: f in files ==> f in old(files) || fresh(f)
    {
      hide Row, Views, MgrSpec.Roll, Store;
      ok := false;
      if !valid {
        return;
      }
      if files == [] {
        FirstFile(q.day);
      }
      if q.sid <= maxSid || q.sid < 1 {
        return;
      }
      ViewsAre(files);
      if q.day > files[|files| - 1].day {
        Roll(q.day);
        if files == [] {
          valid := false;
          return;
        }
      }
      ok := StoreRecord(q);
    }

    /** Writes the index of the current file out; the records stay as they are. */
    method Commit() returns (ok: bool)
      requires Valid()
      modifies files
      ensures Valid() && Abs() == old(Abs()) && files == old(files)
      ensures ok == valid && (ok && files != [] ==> files[|files| - 1].cache.buf == [])
    {
      hide BinLogFile.Holds, BinLogFile.Indexed, BinLogFile.File.Valid, Views;
      ok := valid;
      if valid && files != [] {
        ghost var vs := Views(files);
        ViewsAre(files);
        var n := |files| - 1;
        var current := files[n];
        current.FlushIndex();
        forall i | 0 <= i <= n
          ensures files[i].Valid() && View(files[i]) == vs[i]
        {
          assert files[i] != current ==> old(files[i].Valid());
        }
        ViewsAre(files);
        assert Views(files) == vs;
      }
    }

    /** The eviction loop: it stops at the first file that is within the limit or not below the place of some cursor. */
    method Evict()
      requires Row(files, limits.maxFileSize)
      modifies this`files, this`out
      ensures var n := Evicted(limits, cursors, old(Views(files)));
              files == old(files)[n..] && out == old(out) + old(Views(files))[..n]
      ensures files == [] || |files| <= limits.maxFileNum ||
              exists id :: id in cursors &&
                           (if cursors[id].state == Ready then cursors[id].header.sid else cursors[id].seekSid) <= LastSid(files[0].recs)
    {
      hide BinLogFile.Holds, BinLogFile.Indexed, Flat, Evicted, Row, Pinned, Views;
      ghost var all, vs, n := files, Views(files), 0;
      NoneDropped(vs, out);
      while files != []
        invariant n <= |all| && files == all[n..] && Row(all, limits.maxFileSize) && vs == Views(all)
        invariant Evicted(limits, cursors, vs) == n + Evicted(limits, cursors, vs[n..])
        invariant out == old(out) + vs[..n]
        decreases |files|
      {
        RowAt(all, limits.maxFileSize, n);
        var keep := IsManaged(files[0]);
        PinnedIs(cursors, vs[n]);
        EvictOne(limits, cursors, vs, n, old(out));
        if keep {
          break;
        }
        out := out + [View(files[0])];
        files := files[1..];
        n := n + 1;
      }
      assert vs[n..] == [] || Evicted(limits, cursors, vs[n..]) == 0;
    }

    // ------------------------------------------------------------------ cursors

    method CreateCursor(id: nat, sid: nat) returns (res: Result)
      requires Valid()
      modifies this`cursors
      ensures Valid()
      ensures (Abs(), res) == Step(old(Abs()), CreateOp(id, sid))
    {
      hide Row, Views;
      if id in cursors {
        return Failure;
      }
      cursors := cursors[id := NewCursor(sid)];
      res := Success;
    }

    method DestroyCursor(id: nat) returns (res: Result)
      requires Valid()
      modifies this`cursors
      ensures Valid()
      ensures (Abs(), res) == Step(old(Abs()), DestroyOp(id))
    {
      hide Row, Views;
      if id !in cursors {
        return Failure;
      }
      cursors := cursors - {id};
      res := Success;
    }

    /** Points the cursor at the first record above `sid`, looked up in the index of the file that has it. */
    method Seek(id: nat, sid: nat) returns (res: Result)
      requires Valid()
      modifies this`cursors
      ensures Valid()
      ensures (Abs(), res) == Step(old(Abs()), SeekOp(id, sid))
    {
      hide Row, Views, SeekStep;
      if id !in cursors {
        return Failure;
      }
      var c;
      c, res := SeekCursor(cursors[id], sid);
      cursors := cursors[id := c];
    }

    method SeekCursor(c0: CursorV, sid: nat) returns (c: CursorV, res: Result)
      requires Valid()
      ensures (c, res) == SeekStep(Abs(), c0, sid)
    {
      hide Row, Views, BinLogFile.File.Valid, SeekIn, FileFor, FileBytes, Laid;
      c, res := c0.(seekSid := sid), Failure;
      if !valid {
        return;
      }
      ViewsAre(files);
      if files == [] {
        return c.(state := Unseek), End;
      }
      RowAt(files, limits.maxFileSize, |files| - 1);
      FileFacts(files[|files| - 1]);
      if sid >= files[|files| - 1].at.maxSid {
        return c.(state := Unseek), End;
      }
      var f := files[|files| - 1];
      if sid < f.at.minSid {
        var i := FindFor(sid);
        f := if i == |files| then f else files[i];
      }
      RowFile(files, limits.maxFileSize, f);
      c, res := SeekInFile(f, c, sid);
    }

    method FindFor(sid: nat) returns (i: nat)
      requires Valid()
      ensures i == FileFor(Views(files), sid)
    {
      hide Row, Views, BinLogFile.File.Valid;
      ViewsAre(files);
      i := 0;
      while i < |files|
        invariant i <= |files|
        invariant forall k :: 0 <= k < i ==> LastSid(Views(files)[k].recs) <= sid
      {
        RowAt(files, limits.maxFileSize, i);
        FileFacts(files[i]);
        if sid < files[i].at.maxSid {
          break;
        }
        i := i + 1;
      }
    }

    /** Where the cursor's file is in the row; its bytes are what the cursor has open. */
    method FindOpen(no: nat) returns (i: nat, bytes: seq<byte>)
      requires Valid()
      ensures i == FileIndex(Views(files), no)
      ensures bytes == FileBytes(if i < |files| then Views(files)[i].recs else [])
    {
      hide Row, Views, BinLogFile.File.Valid, FileBytes, Laid;
      ViewsAre(files);
      i, bytes := 0, [];
      while i < |files|
        invariant i <= |files| && bytes == []
        invariant forall k :: 0 <= k < i ==> Views(files)[k].no != no
      {
        if files[i].fileNo == no {
          RowAt(files, limits.maxFileSize, i);
          FileFacts(files[i]);
          bytes := files[i].data;
          return;
        }
        i := i + 1;
      }
      EmptyFile();
    }

    /** The first file with a number above `no`, or at least `no`. */
    method FindAbove(no: nat, orEqual: bool) returns (i: nat)
      ensures i == if orEqual then LowerIndex(Views(files), no) else AboveIndex(Views(files), no)
    {
      hide Views;
      ViewsAre(files);
      i := 0;
      while i < |files| && (files[i].fileNo < no || (files[i].fileNo == no && !orEqual))
        invariant i <= |files|
        invariant forall k :: 0 <= k < i ==> Views(files)[k].no < no || (Views(files)[k].no == no && !orEqual)
      {
        i := i + 1;
      }
    }

    method Next(id: nat) returns (res: Result)
      requires Valid()
      modifies this`cursors
      ensures Valid()
      ensures (Abs(), res) == Step(old(Abs()), NextOp(id))
    {
      hide Row, Views, NextStep;
      if id !in cursors {
        return Failure;
      }
      var c;
      c, res := NextCursor(cursors[id]);
      cursors := cursors[id := c];
    }

    /** Moves to the next record of the file the cursor is in, else to the first one of the next file. */
    method NextCursor(c0: CursorV) returns (c: CursorV, res: Result)
      requires Valid()
      ensures (c, res) == NextStep(Abs(), c0, OpenFile(Abs(), c0))
    {
      hide Row, Views, BinLogFile.File.Valid, FileBytes, Laid, HeaderMove, HeaderIn, FileSeek, FileIndex, AboveIndex;
      c, res := c0, Failure;
      if !valid || c.state != Ready {
        return;
      }
      if c.header.sid < minSid {
        c, res := ToOldest(c);
        return;
      }
      var at, bytes := FindOpen(c.fileNo);
      var (d, move) := ReadHeader(c, bytes, Wrap32(c.header.End()));
      c := d;
      if move == Moved {
        return c, Success;
      }
      if move != AtEnd {
        return c.(state := Error), Failure;
      }
      var i := FindAbove(c0.fileNo, false);
      if i == |files| {
        return c, End;
      }
      c, res := SeekAt(i, c, 0);
    }

    /** Reads the data of the record the cursor is on into a buffer of `bufLen` bytes. */
    method Fetch(id: nat, bufLen: nat) returns (r: Fetch)
      requires Valid() && id in cursors
      modifies this`cursors
      ensures Valid()
      ensures var (c, got) := FetchStep(old(Abs()), old(cursors[id]), bufLen, old(OpenFile(Abs(), cursors[id])));
              r == got && Abs() == old(Abs()).(cursors := old(cursors)[id := c])
    {
      hide Row, Views, FileBytes, DataOf, FileIndex;
      var c := cursors[id];
      assert cursors == cursors[id := c];
      if !valid || c.state != Ready {
        return NoData;
      }
      var at, bytes := FindOpen(c.fileNo);
      r := if bufLen < c.header.logLen then NoData else DataOf(bytes, c.header);
      if !r.Fetched? {
        cursors := cursors[id := c.(state := Error)];
        r := NoData;
      }
    }

    /** Where a cursor goes whose record is no longer retained. */
    method ToOldest(c0: CursorV) returns (c: CursorV, res: Result)
      requires Valid()
      ensures (c, res) ==
              if files == [] then (c0, Undefined)
              else var (c', ok) := FileSeek(c0, Views(files)[0], 0); (c', if ok then Success else Failure)
    {
      hide Row, Views, FileSeek;
      if files == [] {
        return c0, Undefined;
      }
      c, res := SeekAt(0, c0, 0);
    }

    method SeekAt(i: nat, c0: CursorV, off: nat) returns (c: CursorV, res: Result)
      requires Valid() && i < |files|
      ensures var (c', ok) := FileSeek(c0, Views(files)[i], off);
              (c, res) == (c', if ok then Success else Failure)
    {
      hide Views, BinLogFile.File.Valid, FileSeek;
      ViewsAre(files);
      RowAt(files, limits.maxFileSize, i);
      var ok;
      c, ok := SeekTo(files[i], c0, off);
      res := if ok then Success else Failure;
    }

    method Prev(id: nat) returns (res: Result)
      requires Valid()
      modifies this`cursors
      ensures Valid()
      ensures (Abs(), res) == Step(old(Abs()), PrevOp(id))
    {
      hide Row, Views, PrevStep;
      if id !in cursors {
        return Failure;
      }
      var c;
      c, res := PrevCursor(cursors[id]);
      cursors := cursors[id := c];
    }

    /** Moves back along the previous-offset chain, else to the last record of the file before. */
    method PrevCursor(c0: CursorV) returns (c: CursorV, res: Result)
      requires Valid()
      ensures (c, res) == PrevStep(Abs(), c0, OpenFile(Abs(), c0))
    {
      hide Row, Views, BinLogFile.File.Valid, FileBytes, Laid, HeaderMove, HeaderIn, FileSeek, FileIndex, PrevFile;
      c, res := c0, Failure;
      if !valid || c.state != Ready {
        return;
      }
      if c.header.sid < minSid {
        c, res := ToOldest(c);
        res := if res == Success then End else res;
        return;
      }
      if c.header.offset != 0 {
        var at, bytes := FindOpen(c.fileNo);
        var (d, move) := ReadHeader(c, bytes, c.header.prevOffset);
        c := d;
        if move == Moved {
          return c, Success;
        }
        if move != AtEnd {
          return c.(state := Error), Failure;
        }
      }
      c, res := ToFileBefore(c);
    }

    method ToFileBefore(c0: CursorV) returns (c: CursorV, res: Result)
      requires Valid()
      ensures (c, res) == PrevFile(Abs(), c0)
    {
      hide Row, Views, BinLogFile.File.Valid, FileSeek, LowerIndex;
      ViewsAre(files);
      var i := FindAbove(c0.fileNo, true);
      if i == |files| || (i == 0 && files[0].fileNo == c0.fileNo) {
        return c0, Undefined;
      }
      if files[i].fileNo == c0.fileNo {
        i := i - 1;
      }
      RowAt(files, limits.maxFileSize, i);
      FileFacts(files[i]);
      c, res := SeekAt(i, c0, files[i].at.prevLogOffset);
    }
  }

  lemma {:induction false} EmptyFile()
    ensures FileBytes([]) == []
  {
  }

  /** What pins a file: the record a ready cursor stands on, or the sid any other was sought with. */
  lemma {:induction false} PinnedIs(cursors: map<nat, CursorV>, f: LogFile)
    ensures Pinned(cursors, f) <==>
            exists id :: id in cursors &&
                         (if cursors[id].state == Ready then cursors[id].header.sid else cursors[id].seekSid) <= LastSid(f.recs)
  {
    assert forall id :: id in cursors ==>
      Needs(cursors[id]) == if cursors[id].state == Ready then cursors[id].header.sid else cursors[id].seekSid;
  }

  lemma {:induction false} NoneDropped(vs: seq<LogFile>, out: seq<LogFile>)
    ensures vs[0..] == vs && out + vs[..0] == out
  {
  }

  lemma {:induction false} RowAt(files: seq<BinLogFile.File>, maxFileSize: nat, i: nat)
    requires Row(files, maxFileSize) && i < |files|
    ensures files[i].Valid() && files[i].maxFileSize == maxFileSize && Views(files)[i] == View(files[i])
  {
    hide BinLogFile.File.Valid;
    ViewsAre(files);
  }

  /** One round of the eviction loop, on values. */
  lemma {:induction false} EvictOne(limits: Limits, cursors: map<nat, CursorV>, vs: seq<LogFile>, n: nat, out: seq<LogFile>)
    requires n < |vs|
    ensures var keep := |vs| - n <= limits.maxFileNum || Pinned(cursors, vs[n]);
            Evicted(limits, cursors, vs[n..]) == if keep then 0 else 1 + Evicted(limits, cursors, vs[n + 1..])
    ensures out + vs[..n + 1] == (out + vs[..n]) + [vs[n]]
  {
    assert vs[n..][1..] == vs[n + 1..];
  }
}
