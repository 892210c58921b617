// The checkpoint file: one sid kept as a log of lines, rewritten now and then through two more files and
// renames. A rename, a removal and the write of one line are atomic; a crash may come between any two of
// them, and may take with it any of the last lines that were still in the stream's buffer.
module SidLog {
  import opened Wrappers

  const SWITCH_FILE_LOG_NUM: nat := 100000

  /** The first line of a file names the log and carries a sid; the lines after it carry one each. */
  datatype Line = Head(sid: nat) | Entry(sid: nat)

  datatype FileState = Missing | Present(lines: seq<Line>)

  datatype Disk = Disk(cur: FileState, old_: FileState, new_: FileState)

  function Lines(f: FileState): seq<Line> {
    if f.Present? then f.lines else []
  }

  function EntriesOf(sids: seq<nat>): (r: seq<Line>)
    ensures |r| == |sids| && forall i :: 0 <= i < |r| ==> r[i] == Entry(sids[i])
  {
    seq(|sids|, i requires 0 <= i < |sids| => Entry(sids[i]))
  }

  /** The sid of the last entry, or `sid` without one. */
  function LastEntry(lines: seq<Line>, sid: nat): nat {
    if lines == [] then sid
    else if lines[|lines| - 1].Entry? then lines[|lines| - 1].sid
    else LastEntry(lines[..|lines| - 1], sid)
  }

  function CountEntries(lines: seq<Line>): nat {
    if lines == [] then 0
    else CountEntries(lines[..|lines| - 1]) + if lines[|lines| - 1].Entry? then 1 else 0
  }

  /** What load finds in a file: nothing without a first line of the right kind. */
  function Value(lines: seq<Line>): Option<nat> {
    if lines == [] || lines[0].Entry? then None else Some(LastEntry(lines[1..], lines[0].sid))
  }

  /** The file that prepare keeps. */
  function Kept(d: Disk): seq<Line> {
    if d.cur.Present? then d.cur.lines else if d.old_.Present? then d.old_.lines else Lines(d.new_)
  }

  /** The current file after lines of the buffer have reached it. */
  function Flushed(d: Disk, sids: seq<nat>): Disk {
    if sids == [] then d else d.(cur := Present(Lines(d.cur) + EntriesOf(sids)))
  }

  /** The file operations, each of them atomic: create or empty, write the first line, remove, rename. */
  predicate OneStep(a: Disk, b: Disk) {
    || b == a.(new_ := Present([])) || (a.cur == Missing && b == a.(cur := Present([])))
    || (a.new_ == Present([]) && b.new_.Present? && |b.new_.lines| == 1 && b == a.(new_ := b.new_))
    || b == a.(old_ := Missing) || b == a.(new_ := Missing)
    || (a.cur.Present? && b == a.(old_ := a.cur, cur := Missing))
    || (a.new_.Present? && b == a.(cur := a.new_, new_ := Missing))
    || (a.old_.Present? && b == a.(cur := a.old_, old_ := Missing))
  }

  /**
   * The state at one moment: the disk, the buffered lines, every sid the file was ever given, and how many
   * of these had been given when the buffer was last flushed.
   */
  datatype Snapshot = Snapshot(disk: Disk, buffer: seq<nat>, history: seq<nat>, safe: nat)

  /** Loading from this disk gives a sid that was given at or after the last flush. */
  ghost predicate Recovers(d: Disk, history: seq<nat>, safe: nat) {
    match Value(Kept(d))
    case None => safe == 0
    case Some(v) => exists k :: 0 <= k < |history| && safe <= k + 1 && history[k] == v
  }

  /** However many of the buffered lines a crash at this moment leaves. */
  ghost predicate CrashSafe(c: Snapshot) {
    c.safe <= |c.history| &&
    forall n :: 0 <= n <= |c.buffer| ==> Recovers(Flushed(c.disk, c.buffer[..n]), c.history, c.safe)
  }

  ghost predicate AllSafe(trace: seq<Snapshot>) {
    forall i :: 0 <= i < |trace| ==> CrashSafe(trace[i])
  }

  // -------------------------------------------------------------------- lemmas

  /** Of lines that are all entries, the last is the one read, and all are counted. */
  lemma {:induction false} EntriesRead(lines: seq<Line>, sid: nat)
    requires forall i :: 0 <= i < |lines| ==> lines[i].Entry?
    ensures CountEntries(lines) == |lines|
    ensures LastEntry(lines, sid) == if lines == [] then sid else lines[|lines| - 1].sid
  {
    if lines != [] {
      EntriesRead(lines[..|lines| - 1], sid);
    }
  }

  lemma {:induction false} ValueAfter(lines: seq<Line>, sids: seq<nat>)
    requires Value(lines).Some?
    ensures Value(lines + EntriesOf(sids)) == if sids == [] then Value(lines) else Some(sids[|sids| - 1])
  {
    var all := lines + EntriesOf(sids);
    if sids == [] {
      assert all == lines;
    } else {
      assert all[1..][|all| - 2] == Entry(sids[|sids| - 1]);
    }
  }

  /** With its last flushed sid in the current file and later ones buffered, any crash is safe. */
  lemma {:induction false} CurrentIsSafe(c: Snapshot)
    requires c.disk.cur.Present? && 1 <= c.safe <= |c.history|
    requires Value(c.disk.cur.lines) == Some(c.history[c.safe - 1]) && c.buffer == c.history[c.safe..]
    ensures CrashSafe(c)
  {
    forall n | 0 <= n <= |c.buffer|
      ensures Recovers(Flushed(c.disk, c.buffer[..n]), c.history, c.safe)
    {
      ValueAfter(c.disk.cur.lines, c.buffer[..n]);
      assert c.history[c.safe + n - 1] == if n == 0 then c.history[c.safe - 1] else c.buffer[..n][n - 1];
    }
  }

  lemma {:induction false} OneMoreBuffered(c: Snapshot, sid: nat)
    requires c.disk.cur.Present? && 1 <= c.safe <= |c.history|
    requires Value(c.disk.cur.lines) == Some(c.history[c.safe - 1]) && c.buffer == c.history[c.safe..]
    ensures var history := c.history + [sid];
            && CrashSafe(Snapshot(c.disk, c.buffer + [sid], history, c.safe))
            && c.buffer + [sid] == history[c.safe..] && history[c.safe - 1] == c.history[c.safe - 1]
  {
    hide CrashSafe, Value;
    CurrentIsSafe(Snapshot(c.disk, c.buffer + [sid], c.history + [sid], c.safe));
  }

  /** With an empty buffer only the disk counts: it holds the newest sid, or none where none was ever kept. */
  lemma {:induction false} DiskIsSafe(c: Snapshot)
    requires c.buffer == [] && c.safe <= |c.history|
    requires match Value(Kept(c.disk))
             case None => c.safe == 0
             case Some(v) => c.history != [] && v == c.history[|c.history| - 1]
    ensures CrashSafe(c)
  {
    assert Value(Kept(c.disk)).Some? ==> c.history[|c.history| - 1] == Value(Kept(c.disk)).value;
  }

  lemma {:induction false} HeadValue(sid: nat)
    ensures Value([Head(sid)]) == Some(sid) && Value([]) == None
  {
    assert [Head(sid)][1..] == [];
  }

  lemma {:induction false} OneMoreSafe(trace: seq<Snapshot>, c: Snapshot)
    requires AllSafe(trace) && CrashSafe(c)
    ensures AllSafe(trace + [c])
  {
  }

  class SidLogFile {
    const flushRecord: nat
    var disk: Disk
    var buffer: seq<nat>
    var isOpen: bool
    var curLogCount: nat
    var totalLogCount: nat
    var maxSid: nat
    ghost var history: seq<nat>
    ghost var safe: nat
    /** The moments between the steps of all operations so far. */
    ghost var trace: seq<Snapshot>

    ghost function Now(): Snapshot
      reads this
    {
      Snapshot(disk, buffer, history, safe)
    }

    /** The open file between two operations. */
    ghost predicate Valid()
      reads this
    {
      && isOpen && disk.cur.Present? && disk.old_ == disk.new_ == Missing
      && 1 <= safe <= |history|
      && Value(disk.cur.lines) == Some(history[safe - 1]) && buffer == history[safe..]
      && maxSid == history[|history| - 1]
      && curLogCount == |buffer| < flushRecord
      && AllSafe(trace)
    }

    /** A handle on what is on disk, not yet opened. */
    constructor (flushNum: nat, d: Disk, ghost given: seq<nat>, ghost kept: nat)
      ensures disk == d && !isOpen && buffer == [] && history == given && safe == kept && trace == []
      ensures flushRecord == if flushNum == 0 then 1 else flushNum
    {
      flushRecord := if flushNum == 0 then 1 else flushNum;
      disk, buffer, isOpen, curLogCount, totalLogCount, maxSid := d, [], false, 0, 0, 0;
      history, safe, trace := given, kept, [];
    }

    /** One file operation; a crash may follow. */
    method To(d: Disk)
      requires OneStep(disk, d)
      requires AllSafe(trace) && CrashSafe(Snapshot(d, buffer, history, safe))
      modifies this`disk, this`trace
      ensures disk == d && AllSafe(trace) && old(trace) <= trace
    {
      OneMoreSafe(trace, Snapshot(d, buffer, history, safe));
      disk := d;
      trace := trace + [Now()];
    }

    /** The file keeps the sid last flushed, or no sid was ever kept. */
    ghost predicate Saveable()
      reads this
    {
      && history != [] && maxSid == history[|history| - 1] && AllSafe(trace)
      && if safe > 0 then
           && isOpen && disk.cur.Present? && safe <= |history|
           && Value(disk.cur.lines) == Some(history[safe - 1]) && buffer == history[safe..]
         else
           buffer == [] && Value(Lines(disk.cur)) == None && (disk.cur == Missing ==> disk.old_ == Missing)
    }

    /** Writes a file of one line with the current sid. */
    method WriteNew()
      requires Saveable()
      modifies this`disk, this`trace
      ensures Saveable() && disk == Disk(old(disk.cur), Missing, Present([Head(maxSid)])) && old(trace) <= trace
    {
      hide AllSafe, CrashSafe, Value;
      HeadValue(maxSid);
      var made := disk.(new_ := Present([]));
      var written := disk.(new_ := Present([Head(maxSid)]));
      var alone := written.(old_ := Missing);
      if safe > 0 {
        CurrentIsSafe(Snapshot(made, buffer, history, safe));
        CurrentIsSafe(Snapshot(written, buffer, history, safe));
        CurrentIsSafe(Snapshot(alone, buffer, history, safe));
      } else {
        DiskIsSafe(Snapshot(made, buffer, history, safe));
        DiskIsSafe(Snapshot(written, buffer, history, safe));
        DiskIsSafe(Snapshot(alone, buffer, history, safe));
      }
      To(made);
      To(written);
      To(alone);
    }

    /** Writes the buffered lines out. */
    method Flush()
      requires Saveable() && isOpen
      modifies this`disk, this`buffer, this`safe, this`trace
      ensures Saveable() && buffer == [] && old(trace) <= trace
      ensures disk == old(Flushed(disk, buffer)) && (old(safe) > 0 ==> safe == |history|)
    {
      hide AllSafe, CrashSafe, Value;
      if buffer != [] {
        ValueAfter(disk.cur.lines, buffer);
        disk := Flushed(disk, buffer);
        buffer := [];
        safe := |history|;
        DiskIsSafe(Now());
        OneMoreSafe(trace, Now());
        trace := trace + [Now()];
      }
    }

    /** Writes a file of one line with the current sid and puts it in the place of the current file. */
    method Save()
      requires Saveable() && flushRecord >= 1
      modifies this
      ensures Valid() && history == old(history) && safe == |history| && old(trace) <= trace
      ensures disk == Disk(Present([Head(maxSid)]), Missing, Missing) && maxSid == old(maxSid) && totalLogCount == 0
    {
      hide AllSafe, CrashSafe, Value;
      HeadValue(maxSid);
      WriteNew();
      if isOpen {
        Flush();
        isOpen := false;
      }
      Replace();
      isOpen, totalLogCount, curLogCount := true, 0, 0;
    }

    /** The renames: current to old, new to current, and the old one removed. */
    method Replace()
      requires buffer == [] && history != [] && safe <= |history| && AllSafe(trace) && maxSid == history[|history| - 1]
      requires disk.old_ == Missing && disk.new_ == Present([Head(maxSid)])
      requires Value(Lines(disk.cur)) == if safe > 0 then Some(maxSid) else None
      modifies this`disk, this`safe, this`trace
      ensures disk == Disk(Present([Head(maxSid)]), Missing, Missing) && safe == |history|
      ensures AllSafe(trace) && old(trace) <= trace
    {
      hide AllSafe, CrashSafe, Value;
      HeadValue(maxSid);
      if disk.cur.Present? {
        var moved := disk.(old_ := disk.cur, cur := Missing);
        DiskIsSafe(Snapshot(moved, buffer, history, safe));
        To(moved);
      }
      var swapped := disk.(cur := disk.new_, new_ := Missing);
      DiskIsSafe(Snapshot(swapped, buffer, history, safe));
      To(swapped);
      safe := |history|;
      var final := disk.(old_ := Missing);
      DiskIsSafe(Snapshot(final, buffer, history, safe));
      To(final);
    }

    /** Starts the log with a sid, on a prepared file or where no file was left. */
    method Create(sid: nat)
      requires flushRecord >= 1 && AllSafe(trace) && history == [] && safe == 0 && buffer == []
      requires Value(Lines(disk.cur)) == None && (disk.cur == Missing ==> disk.old_ == Missing)
      modifies this
      ensures Valid() && history == [sid] && safe == 1 && maxSid == sid && old(trace) <= trace
    {
      maxSid := sid;
      history := [sid];
      Save();
    }

    method SyncFile()
      requires Valid()
      modifies this
      ensures Valid() && history == old(history) && safe == |history| && old(trace) <= trace
      ensures totalLogCount == old(totalLogCount)
    {
      if curLogCount > 0 {
        Flush();
        curLogCount := 0;
      }
    }

    method Buffer(sid: nat)
      requires Valid()
      modifies this
      ensures Saveable() && history == old(history) + [sid] && old(trace) <= trace
      ensures isOpen && safe == old(safe) && disk == old(disk)
      ensures curLogCount == old(curLogCount) + 1 == |buffer| && totalLogCount == old(totalLogCount) + 1
    {
      hide AllSafe, CrashSafe, Value, Flushed, Recovers, Valid, Now;
      ghost var was := Snapshot(disk, buffer, history, safe);
      ghost var now := Snapshot(disk, buffer + [sid], history + [sid], safe);
      ValidMeans();
      OneMoreBuffered(was, sid);
      OneMoreSafe(trace, now);
      buffer := buffer + [sid];
      history := history + [sid];
      trace := trace + [now];
      curLogCount, totalLogCount, maxSid := curLogCount + 1, totalLogCount + 1, sid;
    }

    lemma {:induction false} ValidMeans()
      requires Valid()
      ensures isOpen && disk.cur.Present? && 1 <= safe <= |history| && AllSafe(trace) && curLogCount == |buffer|
      ensures Value(disk.cur.lines) == Some(history[safe - 1]) && buffer == history[safe..]
    {
    }

    /** Gives the log a sid. It is flushed with every `flushRecord`-th one, and rewritten after many. */
    method Log(sid: nat)
      requires Valid() && flushRecord >= 1
      modifies this
      ensures Valid() && history == old(history) + [sid] && old(trace) <= trace
      ensures safe >= old(safe) && |history| - safe < flushRecord
      ensures maxSid == sid
      ensures totalLogCount == (if old(totalLogCount) < 100000 then old(totalLogCount) + 1 else 0)
      ensures old(totalLogCount) >= 100000 ==> safe == |history| && disk == Disk(Present([Head(sid)]), Missing, Missing)
      ensures old(totalLogCount) < 100000 ==>
                && |history| - safe == (if old(curLogCount) + 1 >= flushRecord then 0 else old(curLogCount) + 1)
                && (old(curLogCount) + 1 < flushRecord ==> disk == old(disk))
    {
      hide AllSafe, CrashSafe, Value;
      Buffer(sid);
      if curLogCount >= flushRecord {
        Flush();
        curLogCount := 0;
      }
      if totalLogCount > SWITCH_FILE_LOG_NUM {
        Save();
      }
    }

    // ------------------------------------------------------------------ recovery

    /** After a crash: one file is kept as the current one, the others are removed, and it is opened. */
    method Prepare()
      requires AllSafe(trace) && buffer == [] && safe <= |history| && Recovers(disk, history, safe)
      modifies this`disk, this`trace, this`isOpen, this`curLogCount, this`totalLogCount
      ensures disk == Disk(Present(old(Kept(disk))), Missing, Missing) && isOpen
      ensures disk.cur == if old(disk).cur.Present? then old(disk).cur
                          else if old(disk).old_.Present? then old(disk).old_
                          else if old(disk).new_.Present? then old(disk).new_
                          else Present([])
      ensures AllSafe(trace) && old(trace) <= trace && curLogCount == totalLogCount == 0
    {
      hide AllSafe, CrashSafe, Value;
      curLogCount, totalLogCount := 0, 0;
      if disk.cur == Missing {
        var d := if disk.old_.Present? then disk.(cur := disk.old_, old_ := Missing)
                 else if disk.new_.Present? then disk.(cur := disk.new_, new_ := Missing)
                 else disk.(cur := Present([]));
        SameIsSafe(disk, Snapshot(d, buffer, history, safe));
        To(d);
      }
      isOpen := true;
      SameIsSafe(disk, Snapshot(disk.(old_ := Missing), buffer, history, safe));
      To(disk.(old_ := Missing));
      SameIsSafe(disk, Snapshot(disk.(new_ := Missing), buffer, history, safe));
      To(disk.(new_ := Missing));
    }

    /**
     * Opens the log. What a crash has left, at any step of any operation or of an earlier recovery, is a
     * sid that was given at or after the last flush; from here on the log stands where it was then.
     */
    method Load() returns (found: bool)
      requires flushRecord >= 1 && AllSafe(trace) && buffer == [] && safe <= |history| && Recovers(disk, history, safe)
      modifies this
      ensures old(trace) <= trace && AllSafe(trace) && buffer == []
      ensures found <==> Value(old(Kept(disk))).Some?
      ensures found ==> Valid() && history <= old(history) && old(safe) <= |history| == safe
                        && Value(old(Kept(disk))) == Some(maxSid)
                        && totalLogCount == CountEntries(old(Kept(disk))[1..])
      ensures var lines := old(Kept(disk));
              found && (forall i :: 1 <= i < |lines| ==> lines[i].Entry?) ==>
                maxSid == lines[|lines| - 1].sid && totalLogCount == |lines| - 1
      ensures !found ==> old(safe) == 0 && disk.cur.Present? && Value(disk.cur.lines) == None
    {
      Prepare();
      var lines := disk.cur.lines;
      if lines == [] || lines[0].Entry? {
        return false;
      }
      maxSid, totalLogCount := ReadSids(lines);
      if forall i :: 1 <= i < |lines| ==> lines[i].Entry? {
        assert forall i :: 0 <= i < |lines[1..]| ==> lines[1..][i] == lines[i + 1];
        EntriesRead(lines[1..], lines[0].sid);
      }
      ghost var k :| 0 <= k < |history| && safe <= k + 1 && history[k] == maxSid;
      history := history[..k + 1];
      safe := k + 1;
      found := true;
    }

    static method ReadSids(lines: seq<Line>) returns (sid: nat, count: nat)
      requires lines != [] && lines[0].Head?
      ensures sid == LastEntry(lines[1..], lines[0].sid) && count == CountEntries(lines[1..])
    {
      sid, count := lines[0].sid, 0;
      var i := 1;
      while i < |lines|
        invariant 1 <= i <= |lines| && sid == LastEntry(lines[1..i], lines[0].sid) && count == CountEntries(lines[1..i])
      {
        if lines[i].Entry? {
          sid, count := lines[i].sid, count + 1;
        }
        i := i + 1;
        assert lines[1..i][..i - 2] == lines[1..i - 1];
      }
      assert lines[1..i] == lines[1..];
    }
  }

  /** A change that leaves the file to be kept as it is, is safe. */
  lemma {:induction false} SameIsSafe(before: Disk, c: Snapshot)
    requires c.buffer == [] && c.safe <= |c.history| && Recovers(before, c.history, c.safe) && Kept(c.disk) == Kept(before)
    ensures CrashSafe(c) && Recovers(c.disk, c.history, c.safe)
  {
  }

  // ---------------------------------------------------------------- whole runs

  /** What an owner of the log does with it: give it a sid, or let the flush timer run out. */
  datatype Use = Give(sid: nat) | Timeout

  function Given(uses: seq<Use>): seq<nat> {
    if uses == [] then []
    else Given(uses[..|uses| - 1]) + if uses[|uses| - 1].Give? then [uses[|uses| - 1].sid] else []
  }

  /** Any use of an open log; at no moment of it does a crash lose a sid given before the last flush. */
  method UseLog(f: SidLogFile, uses: seq<Use>)
    requires f.Valid()
    modifies f
    ensures f.Valid() && old(f.trace) <= f.trace
    ensures f.history == old(f.history) + Given(uses) && |f.history| - f.safe < f.flushRecord
  {
    var i := 0;
    assert uses[..0] == [] && f.history + [] == f.history;
    while i < |uses|
      invariant i <= |uses| && f.Valid() && old(f.trace) <= f.trace
      invariant f.history == old(f.history) + Given(uses[..i])
    {
      match uses[i] {
        case Give(sid) => f.Log(sid);
        case Timeout => f.SyncFile();
      }
      i := i + 1;
      assert uses[..i][..i - 1] == uses[..i - 1];
    }
    assert uses[..i] == uses;
  }

  /**
   * A crash at any moment of a log's life, also while an earlier crash was being recovered from, with any of
   * the buffered lines written: loading gives a sid that was given at or after the last flush before it.
   */
  method Survive(f: SidLogFile, ghost moment: nat, ghost n: nat, left: Disk) returns (g: SidLogFile, found: bool)
    requires AllSafe(f.trace) && moment < |f.trace| && n <= |f.trace[moment].buffer|
    requires left == Flushed(f.trace[moment].disk, f.trace[moment].buffer[..n])
    ensures fresh(g) && AllSafe(g.trace)
    ensures var c := f.trace[moment];
            && (!found ==> c.safe == 0)
            && (found ==> g.Valid() && g.history <= c.history && c.safe <= |g.history|
                          && g.maxSid == g.history[|g.history| - 1])
  {
    ghost var c := f.trace[moment];
    assert CrashSafe(c);
    g := new SidLogFile(f.flushRecord, left, c.history, c.safe);
    found := g.Load();
  }
}
