// One binlog file: the data file, its index split between disk and the write cache,
// appending, the sid lookup, and the index rebuild when a file is opened after a crash.
module BinLogFile {
  import opened Bytes
  import opened BinLogFormat
  import opened BinLogRecovery

  const CACHE_RECORDS: nat := 16384
  const MIN_FILE_SIZE: nat := 32 * 1024 * 1024

  /** Data shorter than this never makes the test for room wrap round, however full the file is. */
  const MAX_DATA: nat := U31 - HEADER_SIZE

  datatype AppendResult = Appended | Full | Rejected

  // ---------------------------------------------------------------- the test for room

  /** The sum the file is tested with, and whether it says that the record fits; the sum is a 32-bit word. */
  function Needed(fileSize: nat, len: nat): nat {
    fileSize + FREE_SIZE + HEADER_SIZE + len
  }

  predicate HasRoom(fileSize: nat, len: nat, maxFileSize: nat) {
    Wrap32(Needed(fileSize, len)) < maxFileSize
  }

  /** The test is right exactly for the data whose sum does not wrap round to less than the file's limit. */
  lemma {:induction false} RoomTestIsExact(fileSize: nat, len: nat, maxFileSize: nat)
    requires fileSize + FREE_SIZE < maxFileSize < U31 && len < U32
    ensures (HasRoom(fileSize, len, maxFileSize) <==> Needed(fileSize, len) < maxFileSize)
            <==> !(U32 <= Needed(fileSize, len) < U32 + maxFileSize)
    ensures len < MAX_DATA ==> Needed(fileSize, len) < U32
  {
    var sum := Needed(fileSize, len);
    if sum >= U32 {
      assert Wrap32(sum) == sum - U32;
    }
  }

  /** So an empty file is said to have room for data of nearly 4G. */
  lemma {:induction false} LongDataPasses(maxFileSize: nat)
    requires MIN_FILE_SIZE <= maxFileSize < U31
    ensures var len := U32 - FREE_SIZE - HEADER_SIZE;
            len < U32 && HasRoom(0, len, maxFileSize) && Needed(0, len) >= maxFileSize
  {
    RoomTestIsExact(0, U32 - FREE_SIZE - HEADER_SIZE, maxFileSize);
  }

  // ------------------------------------------------------------------- the file

  /**
   * The write cache: index entries not yet on disk, where each sid's entry is among them, the last
   * sid on disk before them, and the newest sid. A read-only file has none; that is an empty one here.
   */
  datatype WriteCache = WriteCache(buf: seq<Index>, sidMap: map<nat, nat>, prevSid: nat, maxSid: nat)
  {
    /** The map finds each cached entry by its sid, and nothing else. */
    ghost predicate Agrees() {
      && (forall i :: 0 <= i < |buf| ==> buf[i].sid in sidMap && sidMap[buf[i].sid] == i)
      && (forall s :: s in sidMap ==> sidMap[s] < |buf| && buf[sidMap[s]].sid == s)
      && |sidMap| == |buf| <= CACHE_RECORDS
    }

    function Add(e: Index): WriteCache {
      WriteCache(buf + [e], sidMap[e.sid := |buf|], prevSid, e.sid)
    }

    function Flushed(): WriteCache {
      WriteCache([], map[], if buf == [] then prevSid else maxSid, maxSid)
    }
  }

  /** The counters kept beside a data file. */
  datatype Counters = Counters(minSid: nat, maxSid: nat, logNum: nat, fileSize: nat, indexFileSize: nat,
                               prevLogOffset: nat, minTime: nat, maxTime: nat)
  {
    /** The counters after a record with header `h` has been written. */
    function Count(h: Header): Counters {
      Counters(if logNum == 0 then h.sid else minSid, h.sid, logNum + 1, fileSize + HEADER_SIZE + h.logLen,
               indexFileSize + INDEX_SIZE, fileSize,
               if logNum == 0 then h.datetime else Min(minTime, h.datetime), h.datetime)
    }

    /** They are the counters of the file that holds `recs`. */
    ghost predicate Of(recs: seq<Record>) {
      && fileSize == EndOf(recs)
      && logNum == |recs| && indexFileSize == INDEX_SIZE * logNum
      && minSid == FirstSid(recs) && maxSid == LastSid(recs)
      && prevLogOffset == LastOffset(recs)
      && if recs == [] then minTime == maxTime == 0
         else minTime <= recs[0].h.datetime && maxTime == recs[|recs| - 1].h.datetime
    }
  }

  /** A data file and its counters hold exactly `recs`. */
  ghost predicate Holds(data: seq<byte>, at: Counters, recs: seq<Record>) {
    Laid(recs) && EndOf(recs) < U32 && data == FileBytes(recs) && at.Of(recs)
  }

  /** The index file and the write cache together hold the records' entries. */
  ghost predicate Indexed(idx: IndexFile, cache: WriteCache, recs: seq<Record>) {
    && idx.entries + cache.buf == Entries(recs) && idx.extra == 0
    && cache.Agrees()
    && cache.maxSid == LastSid(recs)
    && cache.prevSid == if idx.entries == [] then 0 else idx.entries[|idx.entries| - 1].sid
  }

  /** Two empty files, and nothing cached. */
  lemma {:induction false} NothingHeld()
    ensures Holds([], Counters(0, 0, 0, 0, 0, 0, 0, 0), [])
    ensures Indexed(IndexFile([], 0), WriteCache([], map[], 0, 0), [])
  {
  }

  lemma {:induction false} HoldsMore(data: seq<byte>, at: Counters, recs: seq<Record>, r: Record)
    requires Holds(data, at, recs)
    requires Continues(recs, r) && r.h.End() < U32
    ensures Holds(data + RecordBytes(r), at.Count(r.h), recs + [r])
  {
    Snoc(recs, r);
  }

  lemma {:induction false} CachedSidsAreOlder(recs: seq<Record>, disk: seq<Index>, buf: seq<Index>, sid: nat)
    requires Laid(recs)
    requires disk + buf == Entries(recs)
    requires LastSid(recs) < sid
    ensures forall k :: 0 <= k < |buf| ==> buf[k].sid < sid
  {
    forall k | 0 <= k < |buf|
      ensures buf[k].sid < sid
    {
      var i := |disk| + k;
      assert buf[k] == (disk + buf)[i] == IndexOf(recs[i].h);
      if i < |recs| - 1 {
        Positions(recs, i, |recs| - 1);
      }
    }
  }

  lemma {:induction false} IndexedMore(idx: IndexFile, cache: WriteCache, recs: seq<Record>, r: Record)
    requires Laid(recs) && LastSid(recs) < r.h.sid
    requires Indexed(idx, cache, recs) && |cache.buf| < CACHE_RECORDS
    ensures Indexed(idx, cache.Add(IndexOf(r.h)), recs + [r])
  {
    hide Laid, FileBytes;
    CachedSidsAreOlder(recs, idx.entries, cache.buf, r.h.sid);
    Snoc(recs, r);
    var e := IndexOf(r.h);
    assert idx.entries + (cache.buf + [e]) == (idx.entries + cache.buf) + [e];
  }

  /** What the recovery starts from: an open file stopped while it wrote a record, or part of its write cache. */
  lemma {:induction false} CrashOfOpenFile(data: seq<byte>, at: Counters, idx: IndexFile, cache: WriteCache, recs: seq<Record>,
                                           next: Record, torn: seq<byte>, k: nat, extra: nat)
    requires Holds(data, at, recs) && Indexed(idx, cache, recs)
    requires Continues(recs, next) && next.h.End() < U32 && torn < RecordBytes(next)
    requires k <= |cache.buf| && extra < INDEX_SIZE && (extra > 0 ==> k < |cache.buf|)
    ensures CrashLeft(data + torn, IndexFile(idx.entries + cache.buf[..k], extra), recs, next, torn)
  {
    hide Laid, FileBytes, RecordBytes;
    Snoc(recs, next);
    var left := idx.entries + cache.buf[..k];
    assert left == (idx.entries + cache.buf)[..|left|];
    assert left <= Entries(recs) + [IndexOf(next.h)];
  }

  lemma {:induction false} RecoveredFits(data: seq<byte>, idx: IndexFile, recs: seq<Record>, next: Record, torn: seq<byte>)
    requires CrashLeft(data, idx, recs, next, torn)
    ensures var r := Recovered(recs, next, torn); Laid(r) && |FileBytes(r)| == EndOf(r) < U32
  {
    hide FileBytes, RecordBytes;
    RecoveredLaid(recs, next, torn);
    FileBytesSize(Recovered(recs, next, torn));
    CountFits(recs);
  }

  /** Writing the cache out loses no entry. */
  lemma {:induction false} FlushedIndexed(idx: IndexFile, cache: WriteCache, recs: seq<Record>)
    requires Indexed(idx, cache, recs)
    ensures Indexed(IndexFile(idx.entries + cache.buf, 0), cache.Flushed(), recs)
    ensures cache.buf == [] ==> Indexed(idx, cache.Flushed(), recs)
  {
    var all := idx.entries + cache.buf;
    assert all + [] == all;
    assert cache.buf == [] ==> all == idx.entries;
    assert all != [] ==> all[|all| - 1] == IndexOf(recs[|recs| - 1].h);
  }

  class File {
    const day: nat
    const fileNo: nat
    const maxFileSize: nat
    /** The two files as they are on disk. */
    var data: seq<byte>
    var idx: IndexFile
    var cache: WriteCache
    var valid: bool
    var readOnly: bool
    var at: Counters

    ghost var recs: seq<Record>

    ghost predicate Valid()
      reads this
    {
      valid && Holds(data, at, recs) && Indexed(idx, cache, recs) && (readOnly ==> cache.buf == [])
    }

    constructor (d: nat, no: nat, maxSize: nat)
      ensures day == d && fileNo == no && maxFileSize == Max(maxSize, MIN_FILE_SIZE)
      ensures !valid && readOnly
    {
      day, fileNo, maxFileSize := d, no, if maxSize < MIN_FILE_SIZE then MIN_FILE_SIZE else maxSize;
      data, idx, cache := [], IndexFile([], 0), WriteCache([], map[], 0, 0);
      valid, readOnly := false, true;
      at := Counters(0, 0, 0, 0, 0, 0, 0, 0);
      recs := [];
    }

    /** Creates the two files empty and opens them for writing. */
    method Create()
      modifies this
      ensures Valid() && !readOnly && recs == []
    {
      hide Holds, Indexed;
      NothingHeld();
      data, idx, cache := [], IndexFile([], 0), WriteCache([], map[], 0, 0);
      valid, readOnly := true, false;
      at := Counters(0, 0, 0, 0, 0, 0, 0, 0);
      recs := [];
    }

    // ------------------------------------------------------------------- opening

    /**
     * Opens the files a crash has left: the file then holds the recovered records and nothing else,
     * and its index, rebuilt unless it was complete, lists exactly those.
     */
    method Open(dataFile: seq<byte>, indexFile: IndexFile, bReadOnly: bool,
                ghost whole: seq<Record>, ghost next: Record, ghost torn: seq<byte>) returns (rebuilt: bool)
      requires CrashLeft(dataFile, indexFile, whole, next, torn)
      modifies this
      ensures Valid() && readOnly == bReadOnly
      ensures recs == Recovered(whole, next, torn)
      ensures idx == IndexFile(Entries(recs), 0)
      ensures rebuilt <==> torn != [] || indexFile != IndexFile(Entries(whole), 0) || whole == []
    {
      hide FileBytes, RecordBytes, Laid, Recovered, Indexed;
      RecoveredFits(dataFile, indexFile, whole, next, torn);
      data, idx, rebuilt := Recover(dataFile, indexFile, whole, next, torn);
      recs := Recovered(whole, next, torn);
      Prepare(|data|);
      valid, readOnly := true, bReadOnly;
    }

    /** Takes the counters from a complete index. */
    method Prepare(size: nat)
      requires Laid(recs) && size == EndOf(recs) && idx == IndexFile(Entries(recs), 0)
      modifies this`at, this`cache
      ensures at.Of(recs) && Indexed(idx, cache, recs)
      ensures recs != [] ==> at.minTime == recs[0].h.datetime
    {
      var logNum := idx.Size() / INDEX_SIZE;
      at := Counters(0, 0, 0, size, idx.Size(), 0, 0, 0);
      if logNum > 0 {
        var first, last := idx.entries[0], idx.entries[logNum - 1];
        at := Counters(first.sid, last.sid, logNum, size, idx.Size(), last.offset, first.datetime, last.datetime);
      }
      cache := WriteCache([], map[], at.maxSid, at.maxSid);
    }

    // ----------------------------------------------------------------- appending

    method FlushIndex()
      requires Valid()
      modifies this`idx, this`cache
      ensures Valid()
      ensures cache == old(cache).Flushed()
    {
      FlushedIndexed(idx, cache, recs);
      hide Holds, Indexed;
      if |cache.buf| > 0 {
        idx := IndexFile(idx.entries + cache.buf, 0);
      }
      cache := cache.Flushed();
    }

    /** Adds an entry to the write cache, which is written out first when it is full. */
    method CacheEntry(h: Header, ghost r: Record)
      requires Indexed(idx, cache, recs)
      requires Holds(data, at, recs) && LastSid(recs) < h.sid && r.h == h
      modifies this`idx, this`cache
      ensures Indexed(idx, cache, recs + [r])
      ensures |old(cache).buf| < CACHE_RECORDS ==> idx == old(idx) && cache.buf == old(cache).buf + [IndexOf(h)]
      ensures |old(cache).buf| == CACHE_RECORDS ==>
                idx.entries == old(idx).entries + old(cache).buf && cache.buf == [IndexOf(h)]
    {
      FlushedIndexed(idx, cache, recs);
      assert |cache.buf| <= CACHE_RECORDS;
      hide Indexed, Laid, FileBytes;
      if |cache.buf| == CACHE_RECORDS {
        idx := IndexFile(idx.entries + cache.buf, 0);
        cache := cache.Flushed();
      }
      IndexedMore(idx, cache, recs, r);
      cache := cache.Add(IndexOf(h));
    }

    /**
     * Appends a record unless the file has no room for it and the free tail; the sum of the test must not wrap
     * round. The order of sids is the caller's duty: the file itself compares only the first one.
     */
    method Append(sid: nat, datetime: nat, group: nat, bytes: seq<byte>) returns (res: AppendResult)
      requires Valid()
      requires sid < U64 && datetime < U32 && group < U32 && maxFileSize < U31
      requires Needed(at.fileSize, |bytes|) < U32
      requires recs != [] ==> LastSid(recs) < sid
      modifies this
      ensures Valid() && readOnly == old(readOnly)
      ensures res == Full <==> Needed(old(at.fileSize), |bytes|) >= maxFileSize
      ensures res == Rejected <==> res != Full && (readOnly || sid == 0)
      ensures res == Appended ==>
                && at.fileSize + FREE_SIZE < maxFileSize
                && recs == old(recs) + [NextRecord(old(recs), sid, datetime, group, bytes)]
                && at.minTime == if old(recs) == [] then datetime else Min(old(at.minTime), datetime)
      ensures res != Appended ==> recs == old(recs)
      ensures old(data) <= data
    {
      if !HasRoom(at.fileSize, |bytes|, maxFileSize) {
        return Full;
      }
      if readOnly || !valid {
        return Rejected;
      }
      if at.logNum == 0 && sid <= at.maxSid {
        return Rejected;
      }
      var h := Header(sid, at.logNum, datetime, at.fileSize, |bytes|, at.prevLogOffset, group);
      CountFits(recs);
      WriteRecord(h, bytes);
      res := Appended;
    }

    /** Writes header and data at the end of the data file, and the entry into the write cache. */
    method WriteRecord(h: Header, bytes: seq<byte>)
      requires Valid() && !readOnly
      requires Continues(recs, Record(h, bytes)) && h.End() < U32
      modifies this`data, this`idx, this`cache, this`at, this`recs
      ensures Valid()
      ensures recs == old(recs) + [Record(h, bytes)] && old(data) <= data && at == old(at).Count(h)
    {
      hide Holds, Indexed;
      var r := Record(h, bytes);
      HoldsMore(data, at, recs, r);
      CacheEntry(h, r);
      data := data + RecordBytes(r);
      at := at.Count(h);
      recs := recs + [r];
    }

    /** The file takes no more records; everything is on disk. */
    method SetReadOnly()
      requires Valid()
      modifies this`idx, this`cache, this`readOnly
      ensures Valid() && readOnly
    {
      if !readOnly {
        FlushIndex();
        readOnly := true;
      }
    }

    // ------------------------------------------------------------------- lookup

    /** The entry with the least sid above `sid`, if the file has one; a linear search would find the same. */
    method Upper(sid: nat) returns (res: Lookup)
      requires Valid()
      ensures res == UpperOf(recs, sid)
    {
      if at.logNum == 0 || sid >= at.maxSid {
        UpperIs(recs, sid, |recs|);
        return NotFound;
      }
      if |cache.sidMap| != 0 && cache.prevSid <= sid {
        res := SearchCache(sid);
      } else if sid < at.minSid {
        UpperIs(recs, sid, 0);
        LastOnDisk(recs, idx, cache);
        EntryAt(recs, idx, cache, 0);
        res := idx.Read(0);
      } else {
        res := SearchDisk(sid);
      }
    }

    /** The least sid of the cache above `sid`. */
    method SearchCache(sid: nat) returns (res: Lookup)
      requires Valid() && recs != []
      requires cache.prevSid <= sid < LastSid(recs)
      ensures res == UpperOf(recs, sid)
    {
      ghost var u := UpperInCache(recs, idx, cache, sid);
      var k :| k in cache.sidMap && sid < k && forall s :: s in cache.sidMap && sid < s ==> k <= s;
      assert k == recs[u].h.sid;
      res := Found(cache.buf[cache.sidMap[k]]);
    }

    /** The flushed entries are searched; they hold the successor of `sid`. */
    method SearchDisk(sid: nat) returns (res: Lookup)
      requires Valid() && recs != []
      requires FirstSid(recs) <= sid < LastSid(recs)
      requires cache.buf != [] ==> sid < cache.prevSid
      ensures res == UpperOf(recs, sid)
    {
      LastOnDisk(recs, idx, cache);
      EntryAt(recs, idx, cache, 0);
      DiskAscends(recs, idx, cache);
      ghost var k;
      res, k := BinarySearch(idx, at.logNum - 1 - |cache.sidMap|, sid);
      EntryAt(recs, idx, cache, k - 1);
      EntryAt(recs, idx, cache, k);
      UpperIs(recs, sid, k);
    }
  }

  predicate SidsAscend(es: seq<Index>) {
    forall i, j :: 0 <= i < j < |es| ==> es[i].sid < es[j].sid
  }

  lemma {:induction false} DiskAscends(recs: seq<Record>, idx: IndexFile, cache: WriteCache)
    requires Laid(recs)
    requires Indexed(idx, cache, recs)
    ensures SidsAscend(idx.entries)
  {
    forall i, j | 0 <= i < j < |idx.entries|
      ensures idx.entries[i].sid < idx.entries[j].sid
    {
      assert |idx.entries + cache.buf| == |recs|;
      EntryAt(recs, idx, cache, i);
      EntryAt(recs, idx, cache, j);
      Positions(recs, i, j);
    }
  }

  /**
   * The loop of the binary search. Its variables are unsigned: none may pass below zero, and no read may
   * go past `last`. The entry it ends on is that of `sid`, or next to where that would be.
   */
  method Probe(idx: IndexFile, last: nat, sid: nat) returns (item: Index, mid: nat)
    requires |idx.entries| == last + 1
    requires idx.entries[0].sid <= sid < idx.entries[last].sid
    ensures mid <= last && item == idx.entries[mid]
    ensures sid < item.sid ==> mid > 0 && idx.entries[mid - 1].sid < sid
    ensures item.sid < sid ==> mid < last && sid < idx.entries[mid + 1].sid
  {
    ghost var es := idx.entries;
    var start: nat, end: nat := 0, last;
    mid, item := 0, idx.entries[0];
    while end >= start
      invariant start <= end + 1 <= last + 1
      invariant start > 0 ==> es[start - 1].sid < sid
      invariant end < last ==> sid < es[end + 1].sid
      invariant mid <= last && item == es[mid]
      invariant start > 0 || end < last ==> (mid == start - 1 && item.sid < sid) || (mid == end + 1 && sid < item.sid)
      decreases end + 1 - start
    {
      mid := (start + end) / 2;
      item := idx.Read(mid).index;
      if sid == item.sid {
        break;
      } else if sid < item.sid {
        end := mid - 1;
      } else {
        start := mid + 1;
      }
    }
  }

  /** The binary search over the entries up to `last`, then one entry on if the probe was not above `sid`. */
  method BinarySearch(idx: IndexFile, last: nat, sid: nat) returns (res: Lookup, ghost k: nat)
    requires |idx.entries| == last + 1 && SidsAscend(idx.entries)
    requires idx.entries[0].sid <= sid < idx.entries[last].sid
    ensures 0 < k <= last && res == Found(idx.entries[k])
    ensures idx.entries[k - 1].sid <= sid < idx.entries[k].sid
    ensures res.Found? && res.index in idx.entries && sid < res.index.sid
    ensures forall e :: e in idx.entries && sid < e.sid ==> res.index.sid <= e.sid
  {
    var item, mid := Probe(idx, last, sid);
    k := mid;
    res := Found(item);
    if sid >= item.sid {
      k := mid + 1;
      res := idx.Read(mid + 1);
    }
    LeastAbove(idx.entries, k, sid);
  }

  lemma {:induction false} LeastAbove(es: seq<Index>, k: nat, sid: nat)
    requires SidsAscend(es) && 0 < k < |es| && es[k - 1].sid <= sid < es[k].sid
    ensures forall e :: e in es && sid < e.sid ==> es[k].sid <= e.sid
  {
    forall i | 0 <= i < |es| && sid < es[i].sid
      ensures es[k].sid <= es[i].sid
    {
    }
  }

  /** The linear search: what any lookup must return. */
  function UpperOf(recs: seq<Record>, sid: nat): Lookup {
    var i := UpperIndex(recs, sid);
    if i < |recs| then Found(IndexOf(recs[i].h)) else NotFound
  }

  lemma {:induction false} EntryAt(recs: seq<Record>, idx: IndexFile, cache: WriteCache, i: nat)
    requires Indexed(idx, cache, recs)
    requires i < |recs|
    ensures |idx.entries| + |cache.buf| == |recs|
    ensures i < |idx.entries| ==> idx.entries[i] == IndexOf(recs[i].h)
    ensures i >= |idx.entries| ==> cache.buf[i - |idx.entries|] == IndexOf(recs[i].h)
  {
    var all := idx.entries + cache.buf;
    assert all[i] == IndexOf(recs[i].h);
  }

  /** The newest entry on disk is the one whose sid the cache remembers. */
  lemma {:induction false} LastOnDisk(recs: seq<Record>, idx: IndexFile, cache: WriteCache)
    requires Indexed(idx, cache, recs)
    ensures |idx.entries| + |cache.sidMap| == |recs|
    ensures cache.prevSid == if idx.entries == [] then 0 else recs[|idx.entries| - 1].h.sid
  {
    assert |idx.entries + cache.buf| == |recs|;
    if idx.entries != [] {
      EntryAt(recs, idx, cache, |idx.entries| - 1);
    }
  }

  /** A sid no smaller than the last flushed one and smaller than the newest has its successor in the cache. */
  lemma {:induction false} UpperInCache(recs: seq<Record>, idx: IndexFile, cache: WriteCache, sid: nat) returns (u: nat)
    requires Laid(recs) && recs != []
    requires Indexed(idx, cache, recs)
    requires cache.prevSid <= sid < LastSid(recs)
    ensures u == UpperIndex(recs, sid) < |recs|
    ensures |idx.entries| <= u < |idx.entries| + |cache.buf|
    ensures cache.buf[u - |idx.entries|] == IndexOf(recs[u].h)
    ensures forall s :: s in cache.sidMap && sid < s ==> recs[u].h.sid <= s
  {
    hide Laid;
    u := UpperIndex(recs, sid);
    LastOnDisk(recs, idx, cache);
    UpperIsPast(recs, |idx.entries|, sid);
    hide Indexed, UpperIndex;
    EntryAt(recs, idx, cache, u);
    forall s | s in cache.sidMap && sid < s
      ensures recs[u].h.sid <= s
    {
      NoneBetween(recs, idx, cache, sid, s);
    }
  }

  /** The successor of a sid lies past the records up to it. */
  lemma {:induction false} UpperIsPast(recs: seq<Record>, n: nat, sid: nat)
    requires Laid(recs) && n <= |recs| && sid < LastSid(recs)
    requires n > 0 ==> recs[n - 1].h.sid <= sid
    ensures n <= UpperIndex(recs, sid) < |recs|
  {
    hide Laid;
    var u := UpperIndex(recs, sid);
    if u < n - 1 {
      Positions(recs, u, n - 1);
    }
  }

  lemma {:induction false} NoneBetween(recs: seq<Record>, idx: IndexFile, cache: WriteCache, sid: nat, s: nat)
    requires Laid(recs)
    requires Indexed(idx, cache, recs)
    requires s in cache.sidMap && sid < s
    ensures UpperIndex(recs, sid) < |recs| && recs[UpperIndex(recs, sid)].h.sid <= s
  {
    hide Laid;
    var u, i := UpperIndex(recs, sid), |idx.entries| + cache.sidMap[s];
    assert |idx.entries + cache.buf| == |recs|;
    EntryAt(recs, idx, cache, i);
    if u < i {
      Positions(recs, u, i);
    }
  }
}
