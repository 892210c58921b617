// Opening a file after a crash: what an interrupted append leaves behind, and how the index is
// rebuilt from the record headers when it cannot be trusted.
module BinLogRecovery {
  import opened Bytes
  import opened BinLogFormat
  import opened BinLogCursor

  /** The result of looking for an index entry. */
  datatype Lookup = Found(index: Index) | NotFound | IoError

  // ----------------------------------------------------------- file operations

  function Zeros(n: nat): (s: seq<byte>)
    ensures |s| == n
  {
    seq(n, _ => 0)
  }

  /** ftruncate: cuts the file, or extends it with zero bytes. */
  function Resize(file: seq<byte>, n: nat): (s: seq<byte>)
    ensures |s| == n
  {
    if n <= |file| then file[..n] else file + Zeros(n - |file|)
  }

  /**
   * An index file: whole 20-byte entries and, after a crash, the first `extra` bytes of one more.
   * The bytes of an entry are those of EncodeIndex.
   */
  datatype IndexFile = IndexFile(entries: seq<Index>, extra: nat)
  {
    function Size(): nat {
      INDEX_SIZE * |entries| + extra
    }

    /** pwrite of an entry at an offset inside the file or at the end of its whole entries. */
    function Write(e: Index, k: nat): IndexFile
      requires k <= |entries|
    {
      if k < |entries| then IndexFile(entries[k := e], extra) else IndexFile(entries + [e], 0)
    }

    /** What a read of one entry finds. */
    function Read(k: nat): Lookup {
      if k < |entries| then Found(entries[k]) else IoError
    }

    function Truncate(k: nat): IndexFile
      requires k <= |entries|
    {
      IndexFile(entries[..k], 0)
    }
  }

  /** The file holds a byte prefix of the index `full`. */
  ghost predicate IndexPrefix(file: IndexFile, full: seq<Index>) {
    && file.extra < INDEX_SIZE
    && file.entries <= full
    && (file.extra > 0 ==> |file.entries| < |full|)
  }

  // ------------------------------------------------------------- crash recovery

  /** What survives of the record an append was writing: nothing without its header, else its data padded with zeros. */
  function Salvage(next: Record, torn: seq<byte>): seq<Record> {
    if |torn| < HEADER_SIZE then []
    else [next.(data := Resize(torn[HEADER_SIZE..], next.h.logLen))]
  }

  function Recovered(recs: seq<Record>, next: Record, torn: seq<byte>): seq<Record> {
    recs + Salvage(next, torn)
  }

  /** A data file and an index file as a crash during an append, or during an earlier recovery, leaves them. */
  ghost predicate CrashLeft(data: seq<byte>, idx: IndexFile, recs: seq<Record>, next: Record, torn: seq<byte>) {
    && Laid(recs) && Continues(recs, next) && next.h.End() < U32
    && data == FileBytes(recs) + torn
    && torn < RecordBytes(next)
    && IndexPrefix(idx, Entries(recs + [next]))
  }

  /** Writing true entries over any prefix of the true index, where the prefix reaches, leaves a prefix of it. */
  lemma {:induction false} WriteKeepsPrefix(file: IndexFile, full: seq<Index>, k: nat)
    requires IndexPrefix(file, full)
    requires k <= |file.entries| && k < |full|
    ensures IndexPrefix(file.Write(full[k], k), full)
    ensures |file.Write(full[k], k).entries| >= k + 1
  {
  }

  /** The recovered records fit together like the lost ones, with the same headers. */
  lemma {:induction false} RecoveredLaid(recs: seq<Record>, next: Record, torn: seq<byte>)
    requires Laid(recs) && Continues(recs, next)
    requires torn < RecordBytes(next)
    ensures Laid(Recovered(recs, next, torn))
    ensures Entries(Recovered(recs, next, torn)) ==
            Entries(recs + [next])[..|Recovered(recs, next, torn)|]
  {
    Snoc(recs, next);
    if |torn| < HEADER_SIZE {
      assert Recovered(recs, next, torn) == recs;
    } else {
      Snoc(recs, Salvage(next, torn)[0]);
    }
  }

  /** The data file the recovery leaves is the file of the recovered records. */
  lemma {:induction false} RecoveredBytes(recs: seq<Record>, next: Record, torn: seq<byte>)
    requires Laid(recs) && Continues(recs, next)
    requires torn < RecordBytes(next)
    ensures Resize(FileBytes(recs) + torn, EndOf(Recovered(recs, next, torn))) ==
            FileBytes(Recovered(recs, next, torn))
  {
    FileBytesSize(recs);
    if |torn| < HEADER_SIZE {
      assert Recovered(recs, next, torn) == recs;
    } else {
      var r := Salvage(next, torn)[0];
      Snoc(recs, r);
      RecordHead(next);
      RecordHead(r);
      PaddedRecord(FileBytes(recs), torn, RecordBytes(next), RecordBytes(r), r.data);
    }
  }

  /** An index entry ends where the data file ends only if it is the last of a complete index. */
  lemma {:induction false} EntryAtFileEnd(recs: seq<Record>, next: Record, torn: nat, k: nat)
    requires Laid(recs) && Continues(recs, next)
    requires torn < HEADER_SIZE + next.h.logLen
    requires k <= |recs|
    ensures (if k < |recs| then recs[k] else next).h.End() == EndOf(recs) + torn <==> k == |recs| - 1 && torn == 0
  {
    if k < |recs| - 1 {
      Positions(recs, k, |recs| - 1);
    }
  }

  lemma {:induction false} PaddedRecord(front: seq<byte>, torn: seq<byte>, rec: seq<byte>, padded: seq<byte>, data: seq<byte>)
    requires torn <= rec && |torn| >= HEADER_SIZE
    requires |padded| == |rec| == HEADER_SIZE + |data|
    requires padded[..HEADER_SIZE] == rec[..HEADER_SIZE] && padded[HEADER_SIZE..] == data
    requires data == Resize(torn[HEADER_SIZE..], |data|)
    ensures Resize(front + torn, |front| + |rec|) == front + padded
  {
  }

  // ------------------------------------------------------------------- the scan

  /** Where a scan stands after reading `k` headers. */
  function ScanOffset(heads: seq<Header>, k: nat): nat
    requires k <= |heads|
  {
    if k == 0 then 0 else heads[k - 1].End()
  }

  /** The scan that has read `k` headers finds the next of `heads`, or stops after the last. */
  predicate ScanFinds(data: seq<byte>, heads: seq<Header>, k: nat)
    requires k <= |heads|
  {
    var off := ScanOffset(heads, k);
    && off < U32
    && if k < |heads| then HeaderMove(data, off) == Moved && HeaderIn(data, off) == heads[k]
       else HeaderMove(data, off) == AtEnd || HeaderMove(data, off) == Torn
  }

  /** Reading headers one after the other from the start of the file finds `heads` and then no further one. */
  ghost predicate Scans(data: seq<byte>, heads: seq<Header>) {
    |data| < U32 && forall k :: 0 <= k <= |heads| ==> ScanFinds(data, heads, k)
  }

  lemma {:induction false} TruncateToPrefix(file: IndexFile, full: seq<Index>, k: nat)
    requires IndexPrefix(file, full) && k <= |file.entries|
    ensures file.Truncate(k) == IndexFile(full[..k], 0)
  {
  }

  /** Rewrites the index from the headers found in the data file, up to the first place without a whole one. */
  method CreateIndex(data: seq<byte>, stale: IndexFile, ghost heads: seq<Header>, ghost full: seq<Index>)
    returns (idx: IndexFile, size: nat)
    requires Scans(data, heads)
    requires IndexPrefix(stale, full)
    requires |heads| <= |full| && forall k :: 0 <= k < |heads| ==> full[k] == IndexOf(heads[k])
    ensures idx == IndexFile(full[..|heads|], 0)
    ensures size == ScanOffset(heads, |heads|)
  {
    hide HeaderMove, HeaderIn;
    var cursor := new Cursor(0);
    cursor.Open(0);
    var last := Index(0, 0, 0, 0);
    var count: nat := 0;
    idx := stale;
    assert ScanFinds(data, heads, 0);
    var move := cursor.Next(data);
    while move == Moved
      invariant cursor.CacheOk(data) && cursor.isOpen
      invariant count <= |heads|
      invariant move == HeaderMove(data, ScanOffset(heads, count))
      invariant move == Moved ==> count < |heads| && cursor.state == Ready && cursor.header == heads[count]
      invariant IndexPrefix(idx, full) && count <= |idx.entries|
      invariant count > 0 ==> last == IndexOf(heads[count - 1])
      decreases |heads| - count
    {
      last := IndexOf(cursor.header);
      WriteKeepsPrefix(idx, full, count);
      idx := idx.Write(last, count);
      count := count + 1;
      assert ScanFinds(data, heads, count) && cursor.NextOffset() == ScanOffset(heads, count);
      move := cursor.Next(data);
    }
    assert ScanFinds(data, heads, count);
    size := if count > 0 then last.End() else 0;
    TruncateToPrefix(idx, full, count);
    idx := idx.Truncate(count);
  }

  function Heads(recs: seq<Record>): (hs: seq<Header>)
    ensures |hs| == |recs|
    ensures forall k :: 0 <= k < |recs| ==> hs[k] == recs[k].h
  {
    seq(|recs|, k requires 0 <= k < |recs| => recs[k].h)
  }

  lemma {:induction false} ScanMeetsWhole(recs: seq<Record>, torn: seq<byte>, k: nat)
    requires Laid(recs) && EndOf(recs) < U32
    requires k < |recs|
    ensures HeaderMove(FileBytes(recs) + torn, recs[k].h.offset) == Moved
    ensures HeaderIn(FileBytes(recs) + torn, recs[k].h.offset) == recs[k].h
    ensures recs[k].h.offset == (if k == 0 then 0 else recs[k - 1].h.End())
    ensures recs[k].h.offset < U32
  {
    hide HeaderMove, HeaderIn;
    RecordIsFound(recs, k, FileBytes(recs) + torn);
    LaidAt(recs, k);
  }

  /** A scan of a crash-left file reads the header of every record whose header is complete, and no other. */
  lemma {:induction false} ScanFindsRecovered(recs: seq<Record>, next: Record, torn: seq<byte>)
    requires Laid(recs) && Continues(recs, next) && next.h.End() < U32
    requires torn < RecordBytes(next)
    ensures Scans(FileBytes(recs) + torn, Heads(Recovered(recs, next, torn)))
  {
    hide HeaderMove, HeaderIn, RecordBytes, FileBytes, Laid;
    var data, heads := FileBytes(recs) + torn, Heads(Recovered(recs, next, torn));
    FileBytesSize(recs);
    TornRecordIsFound(FileBytes(recs), next, torn);
    RecoveredHeads(recs, next, torn);
    assert |torn| < |RecordBytes(next)| == HEADER_SIZE + next.h.logLen;
    forall k | 0 <= k <= |heads|
      ensures ScanFinds(data, heads, k)
    {
      if k < |recs| {
        ScanMeetsWhole(recs, torn, k);
      }
    }
  }

  lemma {:induction false} RecoveredHeads(recs: seq<Record>, next: Record, torn: seq<byte>)
    ensures Heads(Recovered(recs, next, torn)) ==
            if |torn| < HEADER_SIZE then Heads(recs) else Heads(recs) + [next.h]
  {
    if |torn| < HEADER_SIZE {
      assert Recovered(recs, next, torn) == recs;
    }
  }

  /**
   * Opens the pair of files a crash has left: afterwards the data file is that of the recovered
   * records and the index lists exactly those. The index is kept only if it was already complete.
   */
  method Recover(dataFile: seq<byte>, indexFile: IndexFile,
                 ghost whole: seq<Record>, ghost next: Record, ghost torn: seq<byte>)
    returns (data: seq<byte>, idx: IndexFile, rebuilt: bool)
    requires CrashLeft(dataFile, indexFile, whole, next, torn)
    ensures data == FileBytes(Recovered(whole, next, torn))
    ensures idx == IndexFile(Entries(Recovered(whole, next, torn)), 0)
    ensures rebuilt <==> torn != [] || indexFile != IndexFile(Entries(whole), 0) || whole == []
  {
    data, idx := dataFile, indexFile;
    rebuilt := NeedsRebuild(dataFile, indexFile, whole, next, torn);
    if rebuilt {
      ghost var found := Recovered(whole, next, torn);
      ScanFindsRecovered(whole, next, torn);
      RecoveredLaid(whole, next, torn);
      RecoveredBytes(whole, next, torn);
      RecoveredEntries(whole, next, torn);
      var size;
      idx, size := CreateIndex(dataFile, indexFile, Heads(found), Entries(whole + [next]));
      data := Resize(dataFile, size);
    } else {
      assert Recovered(whole, next, torn) == whole;
      assert FileBytes(whole) + torn == FileBytes(whole);
    }
  }

  lemma {:induction false} RecoveredEntries(recs: seq<Record>, next: Record, torn: seq<byte>)
    ensures forall k :: 0 <= k < |Recovered(recs, next, torn)| ==>
              Entries(recs + [next])[k] == IndexOf(Heads(Recovered(recs, next, torn))[k])
    ensures ScanOffset(Heads(Recovered(recs, next, torn)), |Recovered(recs, next, torn)|) ==
            EndOf(Recovered(recs, next, torn))
  {
  }

  /** Whether the index cannot be trusted: cut inside an entry, empty, or not ending where the data ends. */
  method NeedsRebuild(data: seq<byte>, idx: IndexFile,
                      ghost whole: seq<Record>, ghost next: Record, ghost torn: seq<byte>) returns (res: bool)
    requires CrashLeft(data, idx, whole, next, torn)
    ensures res <==> torn != [] || idx != IndexFile(Entries(whole), 0) || whole == []
  {
    hide FileBytes, Laid;
    if idx.Size() % INDEX_SIZE != 0 || idx.Size() == 0 {
      return true;
    }
    var k := |idx.entries| - 1;
    Snoc(whole, next);
    FileBytesSize(whole);
    EntryAtFileEnd(whole, next, |torn|, k);
    assert idx.entries[k] == IndexOf((whole + [next])[k].h);
    res := idx.entries[k].End() != |data|;
    if !res {
      assert idx.entries == (Entries(whole) + [IndexOf(next.h)])[..|whole|] == Entries(whole);
    }
  }
}
