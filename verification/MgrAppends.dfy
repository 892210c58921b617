// Where an append puts its record, and which files it keeps: the file written, its number and its day, and a
// row of files that is no longer than the limit and the cursors ask for.
module MgrAppends {
  import opened Bytes
  import opened BinLogFormat
  import opened BinLogCursor
  import opened MgrSpec
  import opened MgrInvariant

  /**
   * The files dropped are exactly the oldest ones that are over the limit and below every cursor: below the
   * record a ready cursor stands on, and below the sid any other was sought with. The first file kept is within
   * the limit, or some cursor is not above it.
   */
  lemma {:induction false} EvictsExactly(limits: Limits, cursors: map<nat, CursorV>, files: seq<LogFile>)
    ensures var n := Evicted(limits, cursors, files);
            && (n > 0 ==> |files| - n + 1 > limits.maxFileNum)
            && (forall k, id :: 0 <= k < n && id in cursors ==>
                  LastSid(files[k].recs) < if cursors[id].state == Ready then cursors[id].header.sid else cursors[id].seekSid)
            && (n == |files| || |files| - n <= limits.maxFileNum ||
                exists id :: id in cursors &&
                             (if cursors[id].state == Ready then cursors[id].header.sid else cursors[id].seekSid) <= LastSid(files[n].recs))
    decreases |files|
  {
    var n := Evicted(limits, cursors, files);
    if n > 0 {
      EvictsExactly(limits, cursors, files[1..]);
      assert forall k :: 0 < k < |files| ==> files[k] == files[1..][k - 1];
    }
  }

  /** The row is within the limit, or a cursor is not above its oldest file. */
  ghost predicate Trim(m: Mgr) {
    m.files == [] || |m.files| <= m.limits.maxFileNum ||
    exists id :: id in m.cursors &&
                 (if m.cursors[id].state == Ready then m.cursors[id].header.sid else m.cursors[id].seekSid) <= LastSid(m.files[0].recs)
  }

  lemma {:induction false} RollTrims(m: Mgr, day: nat)
    requires m.files != []
    ensures Trim(Roll(m, day))
  {
    hide Evicted;
    EvictsExactly(m.limits, m.cursors, m.files + [LogFile(Current(m).no + 1, day, [])]);
  }

  lemma {:induction false} WriteStaysTrim(m: Mgr, q: Request)
    requires m.files != [] && Trim(m) && m.limits.maxFileNum >= 1
    ensures Trim(WriteLast(m, q))
  {
  }

  /**
   * Every append that starts a file, whether or not it succeeds, leaves no file that is over the limit and
   * needed by no cursor.
   */
  lemma {:induction false} AppendFreesFiles(m: Mgr, q: Request)
    requires WellFormed(m) && m.valid
    requires var r := AppendStep(m, q).0;
             m.files == [] || r.files == [] || Current(r).no != Current(m).no
    ensures var r := AppendStep(m, q).0;
            r.files == [] || |r.files| <= r.limits.maxFileNum ||
            exists id :: id in r.cursors &&
                         (if r.cursors[id].state == Ready then r.cursors[id].header.sid else r.cursors[id].seekSid) <= LastSid(r.files[0].recs)
  {
    hide Laid, Flat, Ascending, FilesOk, CursorsOk, Trim, Roll, NoRoom;
    var m0 := WithFile(m, q.day);
    FirstIsTrim(m, q.day);
    if q.sid > m0.maxSid {
      var m1 := ForDay(m0, q);
      if q.day > Current(m0).day {
        RollTrims(m0, q.day);
        RollLimits(m0, q.day);
      }
      if m1.files != [] {
        StoreTrims(m1, q);
      } else {
        FailedIsTrim(m1);
      }
    }
    assert Trim(AppendStep(m, q).0);
    TrimMeans(AppendStep(m, q).0);
  }

  lemma {:induction false} TrimMeans(m: Mgr)
    requires Trim(m)
    ensures m.files == [] || |m.files| <= m.limits.maxFileNum ||
            exists id :: id in m.cursors &&
                         (if m.cursors[id].state == Ready then m.cursors[id].header.sid else m.cursors[id].seekSid) <= LastSid(m.files[0].recs)
  {
  }

  lemma {:induction false} FirstIsTrim(m: Mgr, day: nat)
    requires WellFormed(m)
    ensures m.limits.maxFileNum >= 1 && (m.files == [] ==> Trim(WithFile(m, day)))
  {
  }

  /** Storing in a trim row, or in a new file, leaves a trim row; storing in the current file keeps its number. */
  lemma {:induction false} StoreTrims(m: Mgr, q: Request)
    requires m.files != [] && m.limits.maxFileNum >= 1
    ensures var r := Store(m, q).0;
            Trim(m) || r.files == [] || Current(r).no != Current(m).no ==> Trim(r)
  {
    hide Trim, Roll, NoRoom;
    if !NoRoom(m.limits, Current(m).recs, |q.data|) {
      if Trim(m) {
        WriteStaysTrim(m, q);
      }
    } else {
      var r := Roll(m, Current(m).day);
      RollTrims(m, Current(m).day);
      RollLimits(m, Current(m).day);
      if r.files != [] {
        WriteStaysTrim(r, q);
      }
      FailedIsTrim(r);
    }
  }

  lemma {:induction false} RollLimits(m: Mgr, day: nat)
    requires m.files != []
    ensures Roll(m, day).limits == m.limits
  {
  }

  lemma {:induction false} FailedIsTrim(m: Mgr)
    requires Trim(m)
    ensures Trim(m.(valid := false))
  {
  }

  // ------------------------------------------------------------- the file written

  /**
   * Where the record goes: into the current file, unless the request is of a later day or the file has no room
   * for the record and the free tail of 4 MiB. Then it is the first of a file with the next number, of the
   * request's day in the first case and of the current file's day in the second. The very first file has number 1.
   */
  lemma {:induction false} AppendPlaces(m: Mgr, q: Request) returns (n: nat)
    requires WellFormed(m) && m.valid && Fits(q) && q.sid > m.maxSid && !TooLarge(m.limits, |q.data|)
    ensures var r := AppendStep(m, q).0;
            var stays := m.files != [] && q.day <= Current(m).day
                         && EndOf(Current(m).recs) + 4 * 1024 * 1024 + 32 + |q.data| < m.limits.maxFileSize;
            if m.files == [] then r.files == [LogFile(1, q.day, [NewRecord([], q)])]
            else if stays then
              r.files == m.files[..|m.files| - 1] + [Current(m).(recs := Current(m).recs + [NewRecord(Current(m).recs, q)])]
            else
              && n <= |m.files|
              && r.files == m.files[n..] + [LogFile(Current(m).no + 1, Max(q.day, Current(m).day), [NewRecord([], q)])]
  {
    hide Laid, Flat, Ascending, FilesOk, CursorsOk, Roll;
    n := 0;
    var m0 := WithFile(m, q.day);
    FirstFileOpen(m, q.day);
    if m.files == [] {
      assert [] + [NewRecord([], q)] == [NewRecord([], q)];
      assert m0.files[..0] + [LogFile(1, q.day, [NewRecord([], q)])] == [LogFile(1, q.day, [NewRecord([], q)])];
    } else if q.day > Current(m).day {
      n := RollPlaces(m, q, q.day);
    } else if NoRoom(m.limits, Current(m).recs, |q.data|) {
      n := RollPlaces(m, q, Current(m).day);
    }
  }

  /** The new file is never dropped, and has room. */
  lemma {:induction false} RollPlaces(m: Mgr, q: Request, day: nat) returns (n: nat)
    requires WellFormed(m) && m.valid && m.files != [] && !TooLarge(m.limits, |q.data|)
    ensures n <= |m.files|
    ensures var r := Roll(m, day);
            && r.valid == m.valid && r.files != [] && r.limits == m.limits && Current(r).day == day
            && !NoRoom(r.limits, Current(r).recs, |q.data|)
            && WriteLast(r, q).files == m.files[n..] + [LogFile(Current(m).no + 1, day, [NewRecord([], q)])]
  {
    hide Laid, Flat, Ascending, FilesOk, CursorsOk, Evicted, WriteLast;
    var f := LogFile(Current(m).no + 1, day, []);
    n := Evicted(m.limits, m.cursors, m.files + [f]);
    CurrentIsKept(m.limits, m.cursors, m.files + [f]);
    var r := Roll(m, day);
    RowEnds(m.files, f, n);
    assert r.files == m.files[n..] + [f];
    WritesFirst(r, m.files[n..], f, q);
  }

  lemma {:induction false} RowEnds(files: seq<LogFile>, f: LogFile, n: nat)
    requires n <= |files|
    ensures (files + [f])[n..] == files[n..] + [f]
  {
  }

  lemma {:induction false} WritesFirst(r: Mgr, front: seq<LogFile>, f: LogFile, q: Request)
    requires r.files == front + [f] && f.recs == []
    ensures WriteLast(r, q).files == front + [f.(recs := [NewRecord([], q)])] && Current(r) == f
  {
    assert (front + [f])[..|front|] == front;
    assert [] + [NewRecord([], q)] == [NewRecord([], q)];
  }
}
