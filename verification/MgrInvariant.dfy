// What every append keeps: the log's order and layout, the sid bounds, the place of every ready
// cursor, and that no file is dropped that a cursor still needs.
module MgrInvariant {
  import opened Bytes
  import opened BinLogFormat
  import opened BinLogCursor
  import opened MgrSpec

  // ---------------------------------------------------------------- invariants

  /** A managed file: laid out from its start, and clear of the free tail. */
  ghost predicate FileOk(limits: Limits, f: LogFile) {
    Laid(f.recs) && (f.recs != [] ==> EndOf(f.recs) + FREE_SIZE < limits.maxFileSize)
  }

  /** File numbers are consecutive, and only the newest file may be empty. */
  ghost predicate FilesOk(limits: Limits, files: seq<LogFile>) {
    && (forall i :: 0 <= i < |files| ==> FileOk(limits, files[i]))
    && (forall i :: 0 <= i < |files| ==> files[i].no == files[0].no + i)
    && (forall i :: 0 <= i < |files| - 1 ==> files[i].recs != [])
  }

  /** The cursor stands on a record of a managed file. */
  predicate Stands(files: seq<LogFile>, c: CursorV) {
    var i := FileIndex(files, c.fileNo);
    && i < |files|
    && c.header.logNo < |files[i].recs|
    && files[i].recs[c.header.logNo].h == c.header
  }

  ghost predicate CursorsOk(files: seq<LogFile>, cursors: map<nat, CursorV>) {
    forall id :: id in cursors && cursors[id].state == Ready ==> Stands(files, cursors[id])
  }

  predicate LimitsOk(limits: Limits) {
    limits.maxFileNum >= 1 && limits.maxFileSize < U31
  }

  /** A manager with a current file, which may still be empty. */
  ghost predicate Open(m: Mgr) {
    && LimitsOk(m.limits) && m.valid && m.files != []
    && FilesOk(m.limits, m.files) && FilesOk(m.limits, m.out + m.files)
    && Ascending(History(m))
    && m.minSid == FirstSid(m.files[0].recs)
    && m.maxSid == LastSid(History(m))
    && CursorsOk(m.files, m.cursors)
  }

  /** Between operations: no log at all, or one whose current file holds records. A failed manager promises nothing. */
  ghost predicate WellFormed(m: Mgr) {
    && LimitsOk(m.limits)
    && (m.valid ==>
          if m.files == [] then
            m.out == [] && m.minSid == 0 && m.maxSid == 0 && CursorsOk([], m.cursors)
          else Open(m) && m.files[|m.files| - 1].recs != [])
  }

  // -------------------------------------------------------------- the flat log

  lemma {:induction false} FlatSplit(files: seq<LogFile>, n: nat)
    requires n <= |files|
    ensures Flat(files) == Flat(files[..n]) + Flat(files[n..])
  {
    if n == |files| {
      assert files[..n] == files && files[n..] == [];
    } else {
      var front := files[..|files| - 1];
      FlatSplit(front, n);
      assert front[..n] == files[..n];
      assert files[n..][..|files| - n - 1] == front[n..];
    }
  }

  lemma {:induction false} FlatSnoc(files: seq<LogFile>, f: LogFile)
    ensures Flat(files + [f]) == Flat(files) + f.recs
  {
    assert (files + [f])[..|files|] == files;
  }

  /** Where record `j` of file `i` lies in the flat log. */
  lemma {:induction false} FlatAt(files: seq<LogFile>, i: nat, j: nat)
    requires i < |files| && j < |files[i].recs|
    ensures |Flat(files[..i])| + j < |Flat(files)|
    ensures Flat(files)[|Flat(files[..i])| + j] == files[i].recs[j]
  {
    FlatSplit(files, i + 1);
    assert files[..i + 1][..i] == files[..i];
  }

  lemma {:induction false} LastOfFlat(gone: seq<Record>, files: seq<LogFile>)
    requires files != [] && files[|files| - 1].recs != []
    ensures LastSid(gone + Flat(files)) == LastSid(files[|files| - 1].recs)
  {
    var n, recs := |files| - 1, files[|files| - 1].recs;
    FlatAt(files, n, |recs| - 1);
    assert Flat(files) == Flat(files[..n]) + recs;
    assert (gone + Flat(files))[|gone + Flat(files)| - 1] == recs[|recs| - 1];
  }

  // ------------------------------------------------------------------ retention

  lemma {:induction false} EvictedUnpinned(limits: Limits, cursors: map<nat, CursorV>, files: seq<LogFile>, k: nat)
    requires k < Evicted(limits, cursors, files)
    ensures |files| - k > limits.maxFileNum
    ensures !Pinned(cursors, files[k])
    decreases |files|
  {
    if k > 0 {
      EvictedUnpinned(limits, cursors, files[1..], k - 1);
    }
  }

  /** No record of a dropped file is one a cursor may still have to read. */
  lemma {:induction false} DroppedRecordsAreRead(limits: Limits, cursors: map<nat, CursorV>, files: seq<LogFile>, n: nat, p: nat, id: nat)
    requires n <= Evicted(limits, cursors, files)
    requires forall i :: 0 <= i < |files| ==> Laid(files[i].recs)
    requires p < |Flat(files[..n])| && id in cursors
    ensures Flat(files[..n])[p].h.sid < Needs(cursors[id])
    decreases n
  {
    if n > 0 {
      assert files[..n][..n - 1] == files[..n - 1];
      var recs := files[n - 1].recs;
      if p < |Flat(files[..n - 1])| {
        DroppedRecordsAreRead(limits, cursors, files, n - 1, p, id);
      } else {
        var j := p - |Flat(files[..n - 1])|;
        EvictedUnpinned(limits, cursors, files, n - 1);
        if j < |recs| - 1 {
          Positions(recs, j, |recs| - 1);
        }
      }
    }
  }

  // ------------------------------------------------------- cursors keep their place

  /** With consecutive numbers a file is found at its distance from the first. */
  lemma {:induction false} FileIndexIs(files: seq<LogFile>, i: nat)
    requires forall k :: 0 <= k < |files| ==> files[k].no == files[0].no + k
    requires i < |files|
    ensures FileIndex(files, files[i].no) == i
  {
  }

  lemma {:induction false} StandsIs(files: seq<LogFile>, c: CursorV, i: nat)
    requires forall k :: 0 <= k < |files| ==> files[k].no == files[0].no + k
    requires i < |files| && c.fileNo == files[i].no
    ensures Stands(files, c) <==>
              c.header.logNo < |files[i].recs| && files[i].recs[c.header.logNo].h == c.header
  {
    FileIndexIs(files, i);
  }

  /** A cursor keeps its place when files are added after, and unneeded ones dropped before. */
  lemma {:induction false} StandsAfterRoll(files: seq<LogFile>, f: LogFile, n: nat, c: CursorV)
    requires forall k :: 0 <= k < |files| ==> files[k].no == files[0].no + k
    requires files != [] && f.no == files[|files| - 1].no + 1
    requires Stands(files, c) && n <= FileIndex(files, c.fileNo)
    ensures Stands((files + [f])[n..], c)
  {
    var i, more := FileIndex(files, c.fileNo), (files + [f])[n..];
    forall k | 0 <= k < |more|
      ensures more[k].no == more[0].no + k
    {
      assert more[k] == (files + [f])[n + k] && more[0] == (files + [f])[n];
      assert files[|files| - 1].no == files[0].no + (|files| - 1);
    }
    assert more[i - n] == files[i];
    StandsIs(more, c, i - n);
  }

  /** A ready cursor pins its own file, so eviction stops short of it. */
  lemma {:induction false} CursorPins(limits: Limits, cursors: map<nat, CursorV>, files: seq<LogFile>, f: LogFile,
                                      id: nat)
    requires forall i :: 0 <= i < |files| ==> Laid(files[i].recs)
    requires id in cursors && cursors[id].state == Ready && Stands(files, cursors[id])
    ensures Evicted(limits, cursors, files + [f]) <= FileIndex(files, cursors[id].fileNo)
  {
    var c := cursors[id];
    var i := FileIndex(files, c.fileNo);
    var recs, j := files[i].recs, c.header.logNo;
    if i < Evicted(limits, cursors, files + [f]) {
      EvictedUnpinned(limits, cursors, files + [f], i);
      assert (files + [f])[i] == files[i];
      if j < |recs| - 1 {
        Positions(recs, j, |recs| - 1);
      }
    }
  }

  // ---------------------------------------------------------------- rolling over

  /** Starting a new file drops only unneeded old ones and loses no record of the history. */
  lemma {:induction false} RollKeeps(m: Mgr, day: nat)
    requires Open(m) && m.files[|m.files| - 1].recs != []
    ensures Open(Roll(m, day))
    ensures History(Roll(m, day)) == History(m)
    ensures Roll(m, day).maxSid == m.maxSid && Roll(m, day).limits == m.limits
    ensures var r := Roll(m, day); r.files[|r.files| - 1] == LogFile(m.files[|m.files| - 1].no + 1, day, [])
  {
    hide Laid, Flat, Ascending, FilesOk, CursorsOk, Evicted;
    var f := LogFile(m.files[|m.files| - 1].no + 1, day, []);
    var n := Evicted(m.limits, m.cursors, m.files + [f]);
    CurrentIsKept(m.limits, m.cursors, m.files + [f]);
    RolledHistory(m.out, m.files, f, n);
    RolledFilesOk(m.limits, m.files, f, n);
    RolledRow(m.limits, m.out, m.files, f, n);
    RolledCursors(m.limits, m.cursors, m.files, f);
  }

  lemma {:induction false} CurrentIsKept(limits: Limits, cursors: map<nat, CursorV>, files: seq<LogFile>)
    requires limits.maxFileNum >= 1 && files != []
    ensures Evicted(limits, cursors, files) < |files|
  {
    if Evicted(limits, cursors, files) == |files| {
      EvictedUnpinned(limits, cursors, files, |files| - 1);
    }
  }

  lemma {:induction false} FlatJoin(a: seq<LogFile>, b: seq<LogFile>)
    ensures Flat(a + b) == Flat(a) + Flat(b)
  {
    FlatSplit(a + b, |a|);
    assert (a + b)[..|a|] == a && (a + b)[|a|..] == b;
  }

  /** Taking files from the row to those put out of management moves the border, and nothing else. */
  lemma {:induction false} BorderMoves(out: seq<LogFile>, files: seq<LogFile>, n: nat)
    requires n <= |files|
    ensures (out + files[..n]) + files[n..] == out + files
    ensures Flat(out + files[..n]) + Flat(files[n..]) == Flat(out) + Flat(files)
  {
    hide Flat;
    assert files[..n] + files[n..] == files;
    Joins(out, files[..n], files[n..]);
    FlatJoin(out + files[..n], files[n..]);
    FlatJoin(out, files);
  }

  lemma {:induction false} RolledHistory(out: seq<LogFile>, files: seq<LogFile>, f: LogFile, n: nat)
    requires n <= |files| && f.recs == []
    ensures Flat(out + (files + [f])[..n]) + Flat((files + [f])[n..]) == Flat(out) + Flat(files)
  {
    BorderMoves(out, files + [f], n);
    FlatSnoc(files, f);
    assert Flat(files) + [] == Flat(files);
  }

  lemma {:induction false} RolledRow(limits: Limits, out: seq<LogFile>, files: seq<LogFile>, f: LogFile, n: nat)
    requires FilesOk(limits, out + files) && files != [] && files[|files| - 1].recs != []
    requires f.recs == [] && f.no == files[|files| - 1].no + 1 && n <= |files|
    ensures FilesOk(limits, (out + (files + [f])[..n]) + (files + [f])[n..])
  {
    BorderMoves(out, files + [f], n);
    assert out + (files + [f]) == (out + files) + [f];
    RolledFilesOk(limits, out + files, f, 0);
    assert ((out + files) + [f])[0..] == (out + files) + [f];
  }

  lemma {:induction false} RolledCursors(limits: Limits, cursors: map<nat, CursorV>, files: seq<LogFile>, f: LogFile)
    requires FilesOk(limits, files) && files != [] && f.no == files[|files| - 1].no + 1
    requires CursorsOk(files, cursors)
    ensures CursorsOk((files + [f])[Evicted(limits, cursors, files + [f])..], cursors)
  {
    var n := Evicted(limits, cursors, files + [f]);
    forall id | id in cursors && cursors[id].state == Ready
      ensures Stands((files + [f])[n..], cursors[id])
    {
      CursorPins(limits, cursors, files, f, id);
      StandsAfterRoll(files, f, n, cursors[id]);
    }
  }

  lemma {:induction false} RolledFilesOk(limits: Limits, files: seq<LogFile>, f: LogFile, n: nat)
    requires FilesOk(limits, files) && files != [] && files[|files| - 1].recs != []
    requires f.recs == [] && f.no == files[|files| - 1].no + 1 && n <= |files|
    ensures FilesOk(limits, (files + [f])[n..])
  {
    var all := files + [f];
    forall i | 0 <= i < |all[n..]|
      ensures FileOk(limits, all[n..][i])
      ensures all[n..][i].no == all[n..][0].no + i
      ensures i < |all[n..]| - 1 ==> all[n..][i].recs != []
    {
      assert all[n..][i] == all[n + i] && all[n..][0] == all[n];
      assert files[|files| - 1].no == files[0].no + (|files| - 1);
    }
  }

  // -------------------------------------------------------------- writing a record

  predicate Fits(q: Request) {
    q.sid < U64 && q.datetime < U32 && q.group < U32 && |q.data| < U31
  }

  /** `after` is `before` and one more record, the one asked for. */
  predicate AddsOne(before: seq<Record>, after: seq<Record>, q: Request) {
    && |after| == |before| + 1 && after[..|before|] == before
    && var r := after[|before|];
      && r.h.sid == q.sid && r.h.datetime == q.datetime && r.h.group == q.group
      && r.h.logLen == |q.data| && r.data == q.data
  }

  /** Writing to the current file adds one record to the history, laid out and in order. */
  lemma {:induction false} WriteLastKeeps(m: Mgr, q: Request)
    requires Open(m) && Fits(q) && q.sid > m.maxSid
    requires !NoRoom(m.limits, m.files[|m.files| - 1].recs, |q.data|)
    ensures WellFormed(WriteLast(m, q)) && WriteLast(m, q).files != []
    ensures AddsOne(History(m), History(WriteLast(m, q)), q)
    ensures WriteLast(m, q).valid
  {
    hide Flat, Stands, Laid, Ascending, FilesOk, CursorsOk, AddsOne, Continues, History, NoRoom, Fits, LastSid;
    var f := m.files[|m.files| - 1];
    var r := NewRecord(f.recs, q);
    SidsBefore(m);
    LastFileOk(m.limits, m.files);
    NewContinues(f.recs, q, m.limits);
    HistoryAfterWrite(m, q);
    AscendingSnoc(History(m), r);
    OneMore(History(m), r, q);
    WrittenRow(m.limits, m.out, m.files, r);
    WrittenCursors(m.limits, m.files, r, m.cursors);
    WrittenFiles(m.limits, m.files, r);
  }

  lemma {:induction false} HistoryAfterWrite(m: Mgr, q: Request)
    requires m.files != []
    ensures History(WriteLast(m, q)) == History(m) + [NewRecord(m.files[|m.files| - 1].recs, q)]
  {
    WrittenHistory(Gone(m), m.files, NewRecord(m.files[|m.files| - 1].recs, q));
  }

  lemma {:induction false} OneMore(before: seq<Record>, r: Record, q: Request)
    requires r.h.sid == q.sid && r.h.datetime == q.datetime && r.h.group == q.group
    requires r.h.logLen == |q.data| && r.data == q.data
    ensures AddsOne(before, before + [r], q)
    ensures LastSid(before + [r]) == q.sid
  {
  }

  lemma {:induction false} LastFileOk(limits: Limits, files: seq<LogFile>)
    requires FilesOk(limits, files) && files != []
    ensures Laid(files[|files| - 1].recs) && Laid(files[0].recs)
    ensures |files| > 1 ==> files[0].recs != []
  {
    assert FileOk(limits, files[|files| - 1]) && FileOk(limits, files[0]);
  }

  lemma {:induction false} WrittenFiles(limits: Limits, files: seq<LogFile>, r: Record)
    requires FilesOk(limits, files) && files != []
    requires Continues(files[|files| - 1].recs, r) && r.h.End() + FREE_SIZE < limits.maxFileSize
    ensures var n := |files| - 1;
            var more := files[..n] + [files[n].(recs := files[n].recs + [r])];
            && FilesOk(limits, more) && more[n].recs != []
            && FirstSid(more[0].recs) == if FirstSid(files[0].recs) == 0 then r.h.sid else FirstSid(files[0].recs)
  {
    var n := |files| - 1;
    var f := files[n].(recs := files[n].recs + [r]);
    LastFileOk(limits, files);
    Snoc(files[n].recs, r);
    if files[0].recs != [] {
      FirstSidPositive(files[0].recs);
    }
    ReplacedLast(limits, files, f);
  }

  lemma {:induction false} WrittenRow(limits: Limits, out: seq<LogFile>, files: seq<LogFile>, r: Record)
    requires FilesOk(limits, out + files) && files != []
    requires Continues(files[|files| - 1].recs, r) && r.h.End() + FREE_SIZE < limits.maxFileSize
    ensures var n := |files| - 1;
            FilesOk(limits, out + (files[..n] + [files[n].(recs := files[n].recs + [r])]))
  {
    hide FilesOk, Continues;
    var n, row := |files| - 1, out + files;
    WrittenFiles(limits, row, r);
    assert row[..|row| - 1] == out + files[..n];
    var f := files[n].(recs := files[n].recs + [r]);
    assert (out + files[..n]) + [f] == out + (files[..n] + [f]);
  }

  lemma {:induction false} ReplacedLast(limits: Limits, files: seq<LogFile>, f: LogFile)
    requires FilesOk(limits, files) && files != [] && FileOk(limits, f) && f.no == files[|files| - 1].no
    ensures FilesOk(limits, files[..|files| - 1] + [f])
  {
    hide FileOk;
    var n := |files| - 1;
    var more := files[..n] + [f];
    forall i | 0 <= i < |more|
      ensures FileOk(limits, more[i])
      ensures more[i].no == more[0].no + i
      ensures i < |more| - 1 ==> more[i].recs != []
    {
      assert more[i].no == files[i].no && more[0].no == files[0].no;
      assert FileOk(limits, files[i]);
    }
  }

  lemma {:induction false} FirstSidPositive(recs: seq<Record>)
    requires Laid(recs) && recs != []
    ensures FirstSid(recs) >= 1
  {
    LaidAt(recs, 0);
    assert recs[..0] == [];
  }

  lemma {:induction false} NewContinues(recs: seq<Record>, q: Request, limits: Limits)
    requires Laid(recs) && LastSid(recs) < q.sid && Fits(q)
    requires !NoRoom(limits, recs, |q.data|) && limits.maxFileSize < U31
    ensures Continues(recs, NewRecord(recs, q))
    ensures NewRecord(recs, q).h.End() + FREE_SIZE < limits.maxFileSize
  {
    CountFits(recs);
  }

  /** The newest sid bounds the current file's. */
  lemma {:induction false} SidsBefore(m: Mgr)
    requires Open(m)
    ensures LastSid(m.files[|m.files| - 1].recs) <= m.maxSid
    ensures m.files[|m.files| - 1].recs != [] ==> LastSid(m.files[|m.files| - 1].recs) == m.maxSid
  {
    if m.files[|m.files| - 1].recs != [] {
      LastOfFlat(Gone(m), m.files);
    }
  }

  lemma {:induction false} WrittenHistory(gone: seq<Record>, files: seq<LogFile>, r: Record)
    requires files != []
    ensures var n := |files| - 1;
            gone + Flat(files[..n] + [files[n].(recs := files[n].recs + [r])]) == (gone + Flat(files)) + [r]
  {
    var n := |files| - 1;
    FlatSnoc(files[..n], files[n].(recs := files[n].recs + [r]));
    var front := Flat(files[..n]);
    assert gone + (front + (files[n].recs + [r])) == (gone + (front + files[n].recs)) + [r];
  }

  lemma {:induction false} WrittenCursors(limits: Limits, files: seq<LogFile>, r: Record, cursors: map<nat, CursorV>)
    requires files != [] && FilesOk(limits, files)
    requires CursorsOk(files, cursors)
    ensures var n := |files| - 1;
            CursorsOk(files[..n] + [files[n].(recs := files[n].recs + [r])], cursors)
  {
    var n := |files| - 1;
    var more := files[..n] + [files[n].(recs := files[n].recs + [r])];
    forall k | 0 <= k < |more|
      ensures more[k].no == more[0].no + k
    {
      assert more[k].no == files[k].no && more[0].no == files[0].no;
    }
    forall id | id in cursors && cursors[id].state == Ready
      ensures Stands(more, cursors[id])
    {
      var i := FileIndex(files, cursors[id].fileNo);
      assert Stands(files, cursors[id]);
      assert more[i].no == files[i].no;
      StandsIs(more, cursors[id], i);
    }
  }

  // ----------------------------------------------------------------- any append

  /**
   * An append keeps the manager well-formed, unless it is the very first and its sid is 0: that one is
   * turned down only after an empty file has been put under management.
   */
  lemma {:induction false} AppendKeepsWellFormed(m: Mgr, q: Request)
    requires WellFormed(m) && Fits(q)
    ensures WellFormed(AppendStep(m, q).0) <==> !(m.valid && m.files == [] && q.sid == 0)
  {
    hide Laid, Flat, Ascending, FilesOk, CursorsOk;
    if m.valid {
      if m.files == [] && q.sid == 0 {
      } else if q.sid <= m.maxSid || q.sid < 1 {
        AppendTurnedDown(m, q);
      } else {
        AppendOutcome(m, q);
      }
    }
  }

  /**
   * Without that exception the oldest sid goes wrong: a first append with sid 0 leaves an empty file
   * behind, and after two more days the manager reports the newest sid as its oldest.
   */
  lemma {:induction false} FirstSidZeroBreaksMinSid(m: Mgr)
    requires WellFormed(m) && m.valid && m.files == [] && m.cursors == map[]
    requires m.limits.maxFileNum >= 3 && !TooLarge(m.limits, 0)
    ensures var m1 := AppendStep(m, Request(0, 0, 0, 0, [])).0;
            var m2 := AppendStep(m1, Request(5, 0, 1, 0, [])).0;
            var m3 := AppendStep(m2, Request(9, 0, 2, 0, [])).0;
            && m3.valid && |m3.files| == 3 && m3.minSid == 9
            && |Flat(m3.files)| == 2 && Flat(m3.files)[0].h.sid == 5
  {
    hide Flat, NoRoom, Roll;
    var q5, q9 := Request(5, 0, 1, 0, []), Request(9, 0, 2, 0, []);
    var m1 := AppendStep(m, Request(0, 0, 0, 0, [])).0;
    assert m1 == m.(files := [LogFile(1, 0, [])]);
    NewDayAppend(m1, q5);
    var m2 := AppendStep(m1, q5).0;
    NewDayAppend(m2, q9);
    FlatOfThree(LogFile(1, 0, []), LogFile(2, 1, [NewRecord([], q5)]), LogFile(3, 2, [NewRecord([], q9)]));
  }

  lemma {:induction false} FlatOfThree(a: LogFile, b: LogFile, c: LogFile)
    ensures Flat([a, b, c]) == a.recs + b.recs + c.recs
    ensures Flat([a] + [b] + [c]) == a.recs + b.recs + c.recs
  {
    FlatSnoc([], a);
    FlatSnoc([a], b);
    FlatSnoc([a] + [b], c);
    assert [] + [a] == [a] && [a] + [b] + [c] == [a, b, c];
  }

  /** An append on a later day, with room for one more file and none to evict. */
  lemma {:induction false} NewDayAppend(m: Mgr, q: Request)
    requires m.valid && m.files != [] && q.day > Current(m).day && |m.files| < m.limits.maxFileNum
    requires q.sid > m.maxSid && !TooLarge(m.limits, |q.data|)
    ensures var oldest := FirstSid(m.files[0].recs);
            AppendStep(m, q).0 ==
            m.(files := m.files + [LogFile(Current(m).no + 1, q.day, [NewRecord([], q)])],
               maxSid := q.sid, minSid := if oldest == 0 then q.sid else oldest)
  {
    var f := LogFile(Current(m).no + 1, q.day, []);
    var all := m.files + [f];
    assert Evicted(m.limits, m.cursors, all) == 0;
    assert all[..0] == [] && all[0..] == all && m.out + [] == m.out;
    assert all[..|all| - 1] == m.files;
    assert [] + [NewRecord([], q)] == [NewRecord([], q)];
  }

  lemma {:induction false} AppendTurnedDown(m: Mgr, q: Request)
    requires WellFormed(m) && m.valid && m.files != []
    requires q.sid <= m.maxSid
    ensures AppendStep(m, q) == (m, false)
  {
  }

  lemma {:induction false} FirstFileOpen(m: Mgr, day: nat)
    requires WellFormed(m) && m.valid
    ensures Open(WithFile(m, day)) && History(WithFile(m, day)) == History(m)
    ensures WithFile(m, day).maxSid == m.maxSid
  {
    if m.files == [] {
      var m0 := WithFile(m, day);
      assert Flat(m0.files) == [];
      assert History(m0) == [] == History(m);
    }
  }

  /** A file has room for nothing only if the record exceeds the limit less the free tail and its header. */
  predicate TooLarge(limits: Limits, len: nat) {
    FREE_SIZE + HEADER_SIZE + len >= limits.maxFileSize
  }

  lemma {:induction false} ForDayKeeps(m: Mgr, q: Request)
    requires Open(m) && (q.day > Current(m).day ==> Current(m).recs != [])
    ensures Open(ForDay(m, q)) && History(ForDay(m, q)) == History(m)
    ensures ForDay(m, q).maxSid == m.maxSid && ForDay(m, q).limits == m.limits
  {
    if q.day > Current(m).day {
      RollKeeps(m, q.day);
    }
  }

  /** Storing adds exactly the record asked for, whichever file it goes to, unless it is too large for any file. */
  lemma {:induction false} StoreOutcome(m: Mgr, q: Request)
    requires Open(m) && Fits(q) && q.sid > m.maxSid
    ensures var (r, ok) := Store(m, q);
            && WellFormed(r)
            && (ok <==> r.valid) && (ok <==> !TooLarge(m.limits, |q.data|))
            && (ok ==> r.files != [] && AddsOne(History(m), History(r), q))
  {
    hide Laid, Flat, Ascending, FilesOk, CursorsOk, Evicted, AddsOne, History;
    if !NoRoom(m.limits, Current(m).recs, |q.data|) {
      WriteLastKeeps(m, q);
    } else {
      var r := Roll(m, Current(m).day);
      if Current(m).recs != [] {
        RollKeeps(m, Current(m).day);
        if !TooLarge(m.limits, |q.data|) {
          WriteLastKeeps(r, q);
        }
      } else {
        RollEmpty(m, Current(m).day);
      }
    }
  }

  /**
   * An append of a larger sid adds exactly its record to the history, whichever of the two rollovers it
   * takes; it fails, for good, exactly when the record is too large for any file.
   */
  lemma {:induction false} AppendOutcome(m: Mgr, q: Request)
    requires WellFormed(m) && m.valid && Fits(q)
    requires q.sid > m.maxSid
    ensures var (r, ok) := AppendStep(m, q);
            && WellFormed(r)
            && (ok <==> r.valid) && (ok <==> !TooLarge(m.limits, |q.data|))
            && (ok ==> r.files != [] && AddsOne(History(m), History(r), q))
  {
    hide Laid, Flat, Ascending, FilesOk, CursorsOk, Evicted, AddsOne, History, Roll, Store;
    var m0 := WithFile(m, q.day);
    FirstFileOpen(m, q.day);
    ForDayKeeps(m0, q);
    StoreOutcome(ForDay(m0, q), q);
  }

  lemma {:induction false} RollEmpty(m: Mgr, day: nat)
    requires m.files != []
    ensures var r := Roll(m, day);
            r.files == [] || r.files[|r.files| - 1].recs == []
  {
    var f := LogFile(m.files[|m.files| - 1].no + 1, day, []);
    var n := Evicted(m.limits, m.cursors, m.files + [f]);
    if n < |m.files + [f]| {
      assert (m.files + [f])[n..][|m.files| - n] == f;
    }
  }

  // ------------------------------------------------------------ retention safety

  ghost predicate AllLaid(files: seq<LogFile>) {
    forall i :: 0 <= i < |files| ==> Laid(files[i].recs)
  }

  lemma {:induction false} RollDropsOnlyRead(m: Mgr, day: nat)
    requires m.files != [] && AllLaid(m.files)
    ensures AllLaid(Roll(m, day).files)
    ensures Gone(m) <= Gone(Roll(m, day)) && Roll(m, day).cursors == m.cursors
    ensures OnlyRead(m.cursors, Gone(Roll(m, day))[|Gone(m)|..])
  {
    hide Laid, Flat, Evicted;
    var all := m.files + [LogFile(m.files[|m.files| - 1].no + 1, day, [])];
    var n := Evicted(m.limits, m.cursors, all);
    FlatJoin(m.out, all[..n]);
    NothingLaid();
    assert Gone(Roll(m, day))[|Gone(m)|..] == Flat(all[..n]);
    forall p, id | 0 <= p < |Flat(all[..n])| && id in m.cursors
      ensures Flat(all[..n])[p].h.sid < Needs(m.cursors[id])
    {
      DroppedRecordsAreRead(m.limits, m.cursors, all, n, p, id);
    }
  }

  lemma {:induction false} NothingLaid()
    ensures Laid([])
  {
  }

  /** Every cursor has already passed, or was sought past, all of `dropped`. */
  ghost predicate OnlyRead(cursors: map<nat, CursorV>, dropped: seq<Record>) {
    forall p, id :: 0 <= p < |dropped| && id in cursors ==> dropped[p].h.sid < Needs(cursors[id])
  }

  lemma {:induction false} StoreDropsOnlyRead(m: Mgr, q: Request)
    requires m.files != [] && AllLaid(m.files)
    ensures Gone(m) <= Gone(Store(m, q).0)
    ensures OnlyRead(m.cursors, Gone(Store(m, q).0)[|Gone(m)|..])
  {
    hide Laid, Flat, Evicted;
    if NoRoom(m.limits, Current(m).recs, |q.data|) {
      RollDropsOnlyRead(m, Current(m).day);
    }
  }

  /** No append, whatever rollovers it takes and whether or not it succeeds, drops a record a cursor still needs. */
  lemma {:induction false} AppendDropsOnlyRead(m: Mgr, q: Request)
    requires WellFormed(m)
    ensures Gone(m) <= Gone(AppendStep(m, q).0)
    ensures OnlyRead(m.cursors, Gone(AppendStep(m, q).0)[|Gone(m)|..])
  {
    hide Laid, Flat, Evicted, OnlyRead, Store, Roll;
    NothingDropped(m.cursors, Gone(m));
    if m.valid && q.sid > m.maxSid {
      var m0 := WithFile(m, q.day);
      assert AllLaid(m0.files) by {
        FirstFileOpen(m, q.day);
        assert forall i :: 0 <= i < |m0.files| ==> FileOk(m.limits, m0.files[i]);
      }
      var m1 := ForDay(m0, q);
      if q.day > Current(m0).day {
        RollDropsOnlyRead(m0, q.day);
      }
      if m1.files != [] {
        StoreDropsOnlyRead(m1, q);
        ReadTwice(m.cursors, Gone(m0), Gone(m1), Gone(Store(m1, q).0));
      }
    }
  }

  lemma {:induction false} NothingDropped(cursors: map<nat, CursorV>, gone: seq<Record>)
    ensures OnlyRead(cursors, gone[|gone|..])
  {
  }

  lemma {:induction false} ReadTwice(cursors: map<nat, CursorV>, a: seq<Record>, b: seq<Record>, c: seq<Record>)
    requires a <= b <= c
    requires OnlyRead(cursors, b[|a|..]) && OnlyRead(cursors, c[|b|..])
    ensures OnlyRead(cursors, c[|a|..])
  {
    forall p, id | 0 <= p < |c[|a|..]| && id in cursors
      ensures c[|a|..][p].h.sid < Needs(cursors[id])
    {
      if p < |b| - |a| {
        assert c[|a|..][p] == b[|a|..][p];
      } else {
        assert c[|a|..][p] == c[|b|..][p - (|b| - |a|)];
      }
    }
  }
}
