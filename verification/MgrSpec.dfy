// The binlog manager as a state and its operations: a row of files, the cursors registered with it,
// and what append, seek, next and prev do to them. Everything promised about the manager is proved
// about these functions; class BinLogMgr.Manager carries them out in place.
module MgrSpec {
  import opened Bytes
  import opened BinLogFormat
  import opened BinLogCursor

  const START_FILE_NUM: nat := 1

  datatype LogFile = LogFile(no: nat, day: nat, recs: seq<Record>)

  /** A registered cursor: the sid it was last sought with, and the record it stands on when it is ready. */
  datatype CursorV = CursorV(state: SeekState, seekSid: nat, fileNo: nat, header: Header)

  /** `delOut` says that the files put out of management are deleted. */
  datatype Limits = Limits(maxFileSize: nat, maxFileNum: nat, delOut: bool)

  /** `out` are the files that were put out of management, oldest first; the code keeps no such field. */
  datatype Mgr = Mgr(limits: Limits, valid: bool, files: seq<LogFile>, minSid: nat, maxSid: nat,
                     cursors: map<nat, CursorV>, out: seq<LogFile>)

  /** What a caller asks to append, with the day its timestamp falls on. */
  datatype Request = Request(sid: nat, datetime: nat, day: nat, group: nat, data: seq<byte>)

  /** The results 1, 0 and -1 of a cursor operation; stepping before the first file is undefined in the source. */
  datatype Result = Success | End | Failure | Undefined

  // ------------------------------------------------------------ the whole log

  /** The records of the managed files, oldest first. */
  function Flat(files: seq<LogFile>): seq<Record> {
    if files == [] then [] else Flat(files[..|files| - 1]) + files[|files| - 1].recs
  }

  /** The records that are no longer managed. */
  function Gone(m: Mgr): seq<Record> {
    Flat(m.out)
  }

  /** Every record ever appended. */
  function History(m: Mgr): seq<Record> {
    Gone(m) + Flat(m.files)
  }

  // ----------------------------------------------------------------- appending

  function NewRecord(recs: seq<Record>, q: Request): Record {
    NextRecord(recs, q.sid, q.datetime, q.group, q.data)
  }

  predicate NoRoom(limits: Limits, recs: seq<Record>, len: nat) {
    EndOf(recs) + FREE_SIZE + HEADER_SIZE + len >= limits.maxFileSize
  }

  /** Whether some cursor may still need the file: one that stands on, or was sought at, a sid not above its last. */
  predicate Pinned(cursors: map<nat, CursorV>, f: LogFile) {
    exists id :: id in cursors && Needs(cursors[id]) <= LastSid(f.recs)
  }

  function Needs(c: CursorV): nat {
    if c.state == Ready then c.header.sid else c.seekSid
  }

  /** How many of the oldest files the eviction loop drops. */
  function Evicted(limits: Limits, cursors: map<nat, CursorV>, files: seq<LogFile>): (n: nat)
    ensures n <= |files|
  {
    if files == [] || |files| <= limits.maxFileNum || Pinned(cursors, files[0]) then 0
    else 1 + Evicted(limits, cursors, files[1..])
  }

  /** Closes the current file and starts the next one; files out of management are dropped. */
  function Roll(m: Mgr, day: nat): (r: Mgr)
    requires m.files != []
    ensures r.cursors == m.cursors
  {
    var last := m.files[|m.files| - 1];
    var files := m.files + [LogFile(last.no + 1, day, [])];
    var n := Evicted(m.limits, m.cursors, files);
    var kept := files[n..];
    m.(files := kept,
       minSid := FirstSid(if kept == [] then [] else kept[0].recs),
       out := m.out + files[..n])
  }

  function WriteLast(m: Mgr, q: Request): (r: Mgr)
    requires m.files != []
    ensures r.cursors == m.cursors
  {
    var n := |m.files| - 1;
    var f := m.files[n];
    m.(files := m.files[..n] + [f.(recs := f.recs + [NewRecord(f.recs, q)])],
       maxSid := q.sid,
       minSid := if m.minSid == 0 then q.sid else m.minSid)
  }

  /** The manager with a file to write to; the very first one is created on demand, before the sid is looked at. */
  function WithFile(m: Mgr, day: nat): (r: Mgr)
    ensures r.files != [] && r.maxSid == m.maxSid && r.cursors == m.cursors
  {
    if m.files == [] then m.(files := [LogFile(START_FILE_NUM, day, [])]) else m
  }

  function Current(m: Mgr): LogFile
    requires m.files != []
  {
    m.files[|m.files| - 1]
  }

  /** A request of a later day than the current file's starts a new file. */
  function ForDay(m: Mgr, q: Request): (r: Mgr)
    requires m.files != []
    ensures r.cursors == m.cursors
  {
    if q.day > Current(m).day then Roll(m, q.day) else m
  }

  /** Writes to the current file, or to a new one of the same day when that is full; else the manager has failed. */
  function Store(m: Mgr, q: Request): (r: (Mgr, bool))
    requires m.files != []
    ensures r.0.cursors == m.cursors
  {
    if !NoRoom(m.limits, Current(m).recs, |q.data|) then (WriteLast(m, q), true)
    else
      var r := Roll(m, Current(m).day);
      if r.files == [] || NoRoom(m.limits, Current(r).recs, |q.data|) then (r.(valid := false), false)
      else (WriteLast(r, q), true)
  }

  function AppendStep(m: Mgr, q: Request): (r: (Mgr, bool))
    ensures r.0.cursors == m.cursors
    ensures r.0.valid ==> m.valid
  {
    if !m.valid then (m, false)
    else
      var m0 := WithFile(m, q.day);
      if q.sid <= m0.maxSid || q.sid < 1 then (m0, false)
      else
        var m1 := ForDay(m0, q);
        if m1.files == [] then (m1.(valid := false), false) else Store(m1, q)
  }

  // ------------------------------------------------------------------- cursors

  /** The cursor after reading the header at `off` of a file with these bytes. */
  function ReadHeader(c: CursorV, bytes: seq<byte>, off: nat): (CursorV, Move) {
    var move := HeaderMove(bytes, off);
    if move == Moved then (c.(state := Ready, header := HeaderIn(bytes, off)), move)
    else if move == Failed then (c.(state := Error, header := HeaderIn(bytes, off)), move)
    else (c, move)
  }

  function ToHeader(c: CursorV, f: LogFile, off: nat): (CursorV, Move) {
    ReadHeader(c, FileBytes(f.recs), off)
  }

  /** Opens file `f` for the cursor and reads the header at `off`. */
  function OpenAt(c: CursorV, f: LogFile, off: nat): (CursorV, Move) {
    ToHeader(CursorV(Unseek, c.seekSid, f.no, Header(0, 0, 0, 0, 0, 0, 0)), f, off)
  }

  function FileSeek(c: CursorV, f: LogFile, off: nat): (CursorV, bool) {
    var (c', move) := OpenAt(c, f, off);
    if move == Moved then (c', true) else (c'.(state := Error), false)
  }

  /** The first file that has a record above `sid`. */
  function FileFor(files: seq<LogFile>, sid: nat): (i: nat)
    ensures i <= |files|
    ensures forall k :: 0 <= k < i ==> LastSid(files[k].recs) <= sid
    ensures i < |files| ==> sid < LastSid(files[i].recs)
  {
    if files == [] || sid < LastSid(files[0].recs) then 0
    else
      var i := FileFor(files[1..], sid);
      assert forall k :: 0 < k < i + 1 ==> files[k] == files[1..][k - 1];
      i + 1
  }

  /** The data of the record the cursor is on, read from the file it has open. */
  function FetchStep(m: Mgr, c: CursorV, bufLen: nat, open: LogFile): (CursorV, Fetch) {
    if !m.valid || c.state != Ready then (c, NoData)
    else if bufLen < c.header.logLen then (c.(state := Error), NoData)
    else
      var r := DataOf(FileBytes(open.recs), c.header);
      if r.Fetched? then (c, r) else (c.(state := Error), NoData)
  }

  function SeekStep(m: Mgr, c0: CursorV, sid: nat): (CursorV, Result) {
    var c := c0.(seekSid := sid);
    if !m.valid then (c, Failure)
    else if m.files == [] || sid >= LastSid(m.files[|m.files| - 1].recs) then (c.(state := Unseek), End)
    else
      var cur := m.files[|m.files| - 1];
      var i := FileFor(m.files, sid);
      var f := if sid >= FirstSid(cur.recs) || i == |m.files| then cur else m.files[i];
      SeekIn(c, f, sid)
  }

  /** Seeks in one file: the index gives the entry above `sid`, and the header it points at is read. */
  function SeekIn(c: CursorV, f: LogFile, sid: nat): (CursorV, Result) {
    var u := UpperIndex(f.recs, sid);
    if u == |f.recs| then (CursorV(Error, c.seekSid, f.no, Header(0, 0, 0, 0, 0, 0, 0)), Failure)
    else
      var (c', ok) := FileSeek(c, f, f.recs[u].h.offset);
      (c', if ok then Success else Failure)
  }

  /** The managed file the cursor reads, or |files| if it is managed no longer. */
  function FileIndex(files: seq<LogFile>, no: nat): (i: nat)
    ensures i <= |files|
    ensures i < |files| ==> files[i].no == no
    ensures forall k :: 0 <= k < i ==> files[k].no != no
  {
    if files == [] || files[0].no == no then 0
    else
      var i := FileIndex(files[1..], no);
      assert forall k :: 0 < k < i + 1 ==> files[k] == files[1..][k - 1];
      i + 1
  }

  function AboveIndex(files: seq<LogFile>, no: nat): (i: nat)
    ensures i <= |files|
    ensures i < |files| ==> files[i].no > no
    ensures forall k :: 0 <= k < i ==> files[k].no <= no
  {
    if files == [] || files[0].no > no then 0
    else
      var i := AboveIndex(files[1..], no);
      assert forall k :: 0 < k < i + 1 ==> files[k] == files[1..][k - 1];
      i + 1
  }

  predicate OutOfRange(m: Mgr, c: CursorV) {
    c.header.sid < m.minSid
  }

  /** Moves to the next record, in this file or at the start of the next. `open` is the file the cursor holds open. */
  function NextStep(m: Mgr, c: CursorV, open: LogFile): (CursorV, Result) {
    if !m.valid || c.state != Ready then (c, Failure)
    else if OutOfRange(m, c) then
      if m.files == [] then (c, Undefined)
      else
        var (c', ok) := FileSeek(c, m.files[0], 0);
        (c', if ok then Success else Failure)
    else
      var (c', move) := ToHeader(c, open, Wrap32(c.header.End()));
      if move == Moved then (c', Success)
      else if move != AtEnd then (c'.(state := Error), Failure)
      else
        var i := AboveIndex(m.files, c.fileNo);
        if i == |m.files| then (c', End)
        else
          var (c'', ok) := FileSeek(c', m.files[i], 0);
          (c'', if ok then Success else Failure)
  }

  /** Moves to the record before, in this file or at the end of the one before it. */
  function PrevStep(m: Mgr, c: CursorV, open: LogFile): (CursorV, Result) {
    if !m.valid || c.state != Ready then (c, Failure)
    else if OutOfRange(m, c) then
      if m.files == [] then (c, Undefined)
      else
        var (c', ok) := FileSeek(c, m.files[0], 0);
        (c', if ok then End else Failure)
    else if c.header.offset != 0 then
      var (c', move) := ToHeader(c, open, c.header.prevOffset);
      if move == Moved then (c', Success)
      else if move != AtEnd then (c'.(state := Error), Failure)
      else PrevFile(m, c')
    else PrevFile(m, c)
  }

  /** One step back in the order of file numbers, as the map's lower_bound and a decrement do it. */
  function PrevFile(m: Mgr, c: CursorV): (CursorV, Result) {
    var i := LowerIndex(m.files, c.fileNo);
    if i == |m.files| || (i == 0 && m.files[0].no == c.fileNo) then (c, Undefined)
    else
      var f := if m.files[i].no == c.fileNo then m.files[i - 1] else m.files[i];
      var (c', ok) := FileSeek(c, f, LastOffset(f.recs));
      (c', if ok then Success else Failure)
  }

  function LowerIndex(files: seq<LogFile>, no: nat): (i: nat)
    ensures i <= |files|
    ensures i < |files| ==> files[i].no >= no
    ensures forall k :: 0 <= k < i ==> files[k].no < no
  {
    if files == [] || files[0].no >= no then 0
    else
      var i := LowerIndex(files[1..], no);
      assert forall k :: 0 < k < i + 1 ==> files[k] == files[1..][k - 1];
      i + 1
  }
}
