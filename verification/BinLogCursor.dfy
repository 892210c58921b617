// The read cursor over one data file: a positioned read through one cached 64K block,
// and the moves from record header to record header built on it.
// The file itself is passed in as its current bytes; between two calls it may only have grown.
module BinLogCursor {
  import opened Bytes
  import opened BinLogFormat

  const BLOCK: nat := 65536

  datatype SeekState = Unseek | Ready | Error

  /** The results 1, 0, -2 and -1 of a cursor move. */
  datatype Move = Moved | AtEnd | Torn | Failed

  /** How many of `count` bytes a pread at `off` returns. */
  function ReadLen(file: seq<byte>, count: nat, off: nat): (n: nat)
    ensures n <= count
  {
    Max(0, Min(count, |file| - off))
  }

  /** `buf` is what a pread of `count` bytes at `off` returns: as much of the request as the file holds. */
  predicate IsRead(buf: seq<byte>, file: seq<byte>, count: nat, off: nat) {
    && |buf| == ReadLen(file, count, off)
    && forall k :: 0 <= k < |buf| ==> buf[k] == file[off + k]
  }

  function OsPread(file: seq<byte>, count: nat, off: nat): (s: seq<byte>)
    ensures IsRead(s, file, count, off)
  {
    seq(ReadLen(file, count, off), k requires 0 <= k < ReadLen(file, count, off) => file[off + k])
  }

  /** How much of block `no` the file has. */
  function Available(file: seq<byte>, no: nat): (n: nat)
    ensures n <= BLOCK
  {
    Max(0, Min(BLOCK, |file| - no * BLOCK))
  }

  /** `no << 16` in 32 bits. */
  function BlockStart(no: nat): nat {
    Wrap32(no * 65536)
  }

  lemma {:induction false} BlockStartExact(no: nat)
    requires no < 65536
    ensures BlockStart(no) == no * BLOCK
  {
  }

  lemma {:induction false} BlockOf(pos: nat)
    ensures pos / BLOCK * BLOCK <= pos < pos / BLOCK * BLOCK + BLOCK
    ensures pos < U32 ==> pos / BLOCK < 65536
  {
  }

  /** The header found at `off` without any cache. */
  function HeaderMove(file: seq<byte>, off: nat): Move {
    if off >= |file| then AtEnd
    else if off + HEADER_SIZE > |file| then Torn
    else if HeaderIn(file, off).offset != off then Failed
    else Moved
  }

  function HeaderIn(file: seq<byte>, off: nat): Header
  {
    if off + HEADER_SIZE <= |file| then DecodeHeader(file[off..off + HEADER_SIZE]) else Header(0, 0, 0, 0, 0, 0, 0)
  }

  /** What reading a record's data comes to: the data, a part of it at the end of the file, or an error. */
  datatype Fetch = Fetched(data: seq<byte>) | Short(data: seq<byte>) | NoData

  /** The data of a record with this header, as far as the file holds it; its position is a 32-bit word. */
  function DataOf(file: seq<byte>, h: Header): Fetch {
    var data := OsPread(file, h.logLen, Wrap32(h.offset + HEADER_SIZE));
    if |data| == h.logLen then Fetched(data) else Short(data)
  }

  class Cursor {
    const block: array<byte>
    var blockNo: nat
    var blockLen: nat
    var header: Header
    var state: SeekState
    var seekSid: nat
    var fileNo: nat
    var isOpen: bool

    /** The cached bytes are a prefix of that block of the file, and the header is one that can be read. */
    ghost predicate CacheOk(file: seq<byte>)
      reads this, block
    {
      && block.Length == BLOCK && header.Fits()
      && blockLen <= Available(file, blockNo)
      && forall k :: 0 <= k < blockLen ==> block[k] == file[blockNo * BLOCK + k]
    }

    constructor (sid: nat)
      ensures fresh(block) && block.Length == BLOCK && blockLen == 0
      ensures state == Unseek && seekSid == sid && !isOpen
    {
      block := new byte[BLOCK];
      blockNo, blockLen := 0, 0;
      header := Header(0, 0, 0, 0, 0, 0, 0);
      state, seekSid, fileNo, isOpen := Unseek, sid, 0, false;
    }

    method Open(no: nat)
      requires block.Length == BLOCK
      modifies this
      ensures forall file :: CacheOk(file)
      ensures isOpen && state == Unseek && fileNo == no && seekSid == old(seekSid)
      ensures header == Header(0, 0, 0, 0, 0, 0, 0)
    {
      state, isOpen, fileNo := Unseek, true, no;
      header := Header(0, 0, 0, 0, 0, 0, 0);
      blockNo, blockLen := 0, 0;
    }

    /** Makes block `no` the cached one, filled at least to `upTo` unless the file ends before. */
    method PreadPage(file: seq<byte>, no: nat, upTo: nat)
      requires CacheOk(file)
      requires no < 65536 && upTo <= BLOCK
      modifies this`blockNo, this`blockLen, block
      ensures CacheOk(file)
      ensures blockNo == no
      ensures blockLen >= Min(upTo, Available(file, no))
    {
      if no != blockNo {
        blockNo, blockLen := no, 0;
      }
      if upTo <= blockLen {
        return;
      }
      BlockStartExact(no);
      var got := OsPread(file, BLOCK - blockLen, BlockStart(no) + blockLen);
      forall k | 0 <= k < |got| {
        block[blockLen + k] := got[k];
      }
      blockLen := blockLen + |got|;
    }

    /** The part `from..upTo` of one block, as much of it as the file holds. */
    method ReadInBlock(file: seq<byte>, no: nat, from: nat, upTo: nat) returns (buf: seq<byte>)
      requires CacheOk(file)
      requires no < 65536 && from < upTo <= BLOCK
      modifies this`blockNo, this`blockLen, block
      ensures CacheOk(file)
      ensures IsRead(buf, file, upTo - from, no * BLOCK + from)
    {
      PreadPage(file, no, upTo);
      var to := if upTo <= blockLen then upTo else blockLen;
      buf := if from < to then block[from..to] else [];
    }

    /** Whole blocks are read past the cache; both 32-bit shifts are exact here. */
    static method ReadMiddle(file: seq<byte>, no: nat, count: nat) returns (buf: seq<byte>)
      requires no < 65536 && count < 65536
      ensures IsRead(buf, file, count * BLOCK, no * BLOCK)
    {
      BlockStartExact(no);
      BlockStartExact(count);
      buf := OsPread(file, BlockStart(count), BlockStart(no));
    }

    /**
     * A positioned read through the cache: first block, whole blocks in the middle, last block.
     * Block numbers and byte positions are 32-bit words; for a file shorter than 4G none wraps.
     */
    method Pread(file: seq<byte>, n: nat, off: nat) returns (buf: seq<byte>)
      requires CacheOk(file)
      requires |file| < U32 && off < U32 && n < U32
      modifies this`blockNo, this`blockLen, block
      ensures CacheOk(file)
      ensures IsRead(buf, file, n, off)
    {
      if n == 0 {
        return [];
      }
      var startBlock, endBlock := off / BLOCK, (off + n - 1) / BLOCK;
      BlockOf(off);
      BlockOf(off + n - 1);
      var from := off - startBlock * BLOCK;
      if startBlock == endBlock {
        buf := ReadInBlock(file, startBlock, from, from + n);
        return;
      }
      var first := BLOCK - from;
      buf := ReadInBlock(file, startBlock, from, BLOCK);
      if |buf| == first {
        var rest := ReadOn(file, startBlock + 1, endBlock, n - first);
        buf := buf + rest;
      }
    }

    /** The blocks after a first one that was there in full. */
    method ReadOn(file: seq<byte>, no: nat, endBlock: nat, n: nat) returns (buf: seq<byte>)
      requires CacheOk(file)
      requires no * BLOCK <= |file| < U32
      requires no <= endBlock && 0 < n - (endBlock - no) * BLOCK <= BLOCK && n < U32
      modifies this`blockNo, this`blockLen, block
      ensures CacheOk(file)
      ensures IsRead(buf, file, n, no * BLOCK)
    {
      buf := [];
      var count := endBlock - no;
      if count > 0 {
        buf := ReadMiddle(file, no, count);
        if |buf| != count * BLOCK {
          return;
        }
      }
      var tail := ReadInBlock(file, endBlock, 0, n - |buf|);
      buf := buf + tail;
    }

    /** The cache stays good while the file grows. */
    lemma {:induction false} GrowthKeepsCache(file: seq<byte>, grown: seq<byte>)
      requires CacheOk(file)
      requires file <= grown
      ensures CacheOk(grown)
    {
    }

    /** Reads the header at `off`; the cursor stands on it unless there is none, or it is not at its own offset. */
    method ToHeader(file: seq<byte>, off: nat) returns (m: Move)
      requires CacheOk(file)
      requires |file| < U32 && off < U32
      modifies this`blockNo, this`blockLen, this`header, this`state, block
      ensures CacheOk(file)
      ensures m == HeaderMove(file, off)
      ensures if m == Moved || m == Failed then header == HeaderIn(file, off) else header == old(header)
      ensures state == if m == Moved then Ready else if m == Failed then Error else old(state)
    {
      var buf := Pread(file, HEADER_SIZE, off);
      if |buf| != HEADER_SIZE {
        return if |buf| == 0 then AtEnd else Torn;
      }
      assert buf == file[off..off + HEADER_SIZE];
      DecodedHeaderFits(buf);
      header := DecodeHeader(buf);
      if off != header.offset {
        state := Error;
        return Failed;
      }
      state := Ready;
      return Moved;
    }

    /** The offset a step forward goes to, a 32-bit word. */
    function NextOffset(): nat
      reads this
    {
      if state == Unseek then 0 else Wrap32(header.End())
    }

    method Next(file: seq<byte>) returns (m: Move)
      requires CacheOk(file) && |file| < U32
      modifies this`blockNo, this`blockLen, this`header, this`state, block
      ensures CacheOk(file)
      ensures old(state == Error || !isOpen) ==> m == Failed && state == old(state) && header == old(header)
      ensures old(state != Error && isOpen) ==>
                var off := if old(state) == Unseek then 0 else Wrap32(old(header.offset) + 32 + old(header.logLen));
                && m == HeaderMove(file, off)
                && (header == if m == Moved || m == Failed then HeaderIn(file, off) else old(header))
                && (state == if m == Moved then Ready else if m == Failed then Error else old(state))
    {
      if state == Error || !isOpen {
        return Failed;
      }
      m := ToHeader(file, NextOffset());
    }

    /** The offset a step back goes to; a cursor that has not been sought starts at the front. */
    function PrevOffset(): nat
      reads this
    {
      if state == Unseek then 0 else header.prevOffset
    }

    method Prev(file: seq<byte>) returns (m: Move)
      requires CacheOk(file) && |file| < U32
      modifies this`blockNo, this`blockLen, this`header, this`state, block
      ensures CacheOk(file)
      ensures old(state == Error || !isOpen) ==> m == Failed && state == old(state) && header == old(header)
      ensures old(state == Ready && isOpen && header.offset == 0) ==>
                m == AtEnd && state == old(state) && header == old(header)
      ensures old(state != Error && isOpen && (state == Unseek || header.offset != 0)) ==>
                var off := if old(state) == Unseek then 0 else old(header.prevOffset);
                && m == HeaderMove(file, off)
                && (header == if m == Moved || m == Failed then HeaderIn(file, off) else old(header))
                && (state == if m == Moved then Ready else if m == Failed then Error else old(state))
    {
      if state == Error || !isOpen {
        return Failed;
      }
      if state == Unseek || header.offset != 0 {
        m := ToHeader(file, PrevOffset());
      } else {
        m := AtEnd;
      }
    }

    /** Reads the data of the record the cursor is on, if it fits into `bufLen` bytes. */
    method Data(file: seq<byte>, bufLen: nat) returns (r: Fetch)
      requires CacheOk(file) && |file| < U32
      modifies this`blockNo, this`blockLen, block
      ensures CacheOk(file)
      ensures r == if !isOpen || state != Ready || bufLen < header.logLen then NoData else DataOf(file, header)
    {
      if !isOpen || state != Ready {
        return NoData;
      }
      if header.logLen == 0 {
        return Fetched([]);
      }
      if bufLen < header.logLen {
        return NoData;
      }
      var buf := Pread(file, header.logLen, Wrap32(header.offset + HEADER_SIZE));
      assert buf == OsPread(file, header.logLen, Wrap32(header.offset + HEADER_SIZE));
      r := if |buf| != header.logLen then Short(buf) else Fetched(buf);
    }

    method Seek(file: seq<byte>, off: nat) returns (m: Move)
      requires CacheOk(file) && |file| < U32 && off < U32
      modifies this`blockNo, this`blockLen, this`header, this`state, block
      ensures CacheOk(file)
      ensures !isOpen ==> m == Failed && state == Unseek && header == old(header)
      ensures isOpen ==>
                && m == HeaderMove(file, off)
                && (header == if m == Moved || m == Failed then HeaderIn(file, off) else old(header))
                && (state == if m == Moved then Ready else if m == Failed then Error else Unseek)
    {
      state := Unseek;
      if !isOpen {
        return Failed;
      }
      m := ToHeader(file, off);
    }
  }

  // ------------------------------------------- moves over a file of records

  /**
   * What a cursor makes of any bytes: it takes 32 of them for a header exactly if the offset in them is where they
   * lie, and gives up on any others.
   */
  lemma {:induction false} HeaderAccepted(file: seq<byte>, off: nat)
    ensures HeaderMove(file, off) == AtEnd <==> off >= |file|
    ensures HeaderMove(file, off) == Torn <==> off < |file| < off + 32
    ensures off + 32 <= |file| ==> HeaderMove(file, off) == if FourAt(file, off + 16) == off then Moved else Failed
    ensures off + 32 <= |file| ==> HeaderIn(file, off).sid == FourAt(file, off) * U32 + FourAt(file, off + 4)
  {
    hide DecodeHeader;
    if off + HEADER_SIZE <= |file| {
      var s := file[off..off + HEADER_SIZE];
      DecodedLayout(s);
      assert FourAt(s, 16) == FourAt(file, off + 16);
      assert FourAt(s, 0) == FourAt(file, off) && FourAt(s, 4) == FourAt(file, off + 4);
    }
  }

  lemma {:induction false} HeaderIsFound(file: seq<byte>, h: Header)
    requires h.Fits()
    requires h.offset + HEADER_SIZE <= |file|
    requires file[h.offset..h.offset + HEADER_SIZE] == EncodeHeader(h)
    ensures HeaderMove(file, h.offset) == Moved
    ensures HeaderIn(file, h.offset) == h
  {
    HeaderRoundTrip(h);
  }

  /** A record of a file is found under its own offset, whatever follows it. */
  lemma {:induction false} RecordIsFound(recs: seq<Record>, i: nat, file: seq<byte>)
    requires Laid(recs)
    requires i < |recs|
    requires FileBytes(recs) <= file
    ensures HeaderMove(file, recs[i].h.offset) == Moved
    ensures HeaderIn(file, recs[i].h.offset) == recs[i].h
  {
    var h := recs[i].h;
    LaidAt(recs, i);
    RecordAt(recs, i);
    SliceOfPrefix(FileBytes(recs), file, h.offset, h.offset + HEADER_SIZE);
    HeaderIsFound(file, h);
  }

  /** The data of a record of a file is read as it was written. */
  lemma {:induction false} DataIsFound(recs: seq<Record>, i: nat, file: seq<byte>)
    requires Laid(recs) && EndOf(recs) < U32
    requires i < |recs|
    requires FileBytes(recs) <= file
    ensures DataOf(file, recs[i].h) == Fetched(recs[i].data)
  {
    hide FileBytes, RecordBytes, DataOf;
    LaidAt(recs, i);
    FileBytesSize(recs);
    RecordAt(recs, i);
    FileBytesSize(recs[..i]);
    RecordHead(recs[i]);
    var rest := FileSplit(recs, i);
    DataLies(FileBytes(recs[..i]), RecordBytes(recs[i]), rest, file, recs[i].h);
  }

  lemma {:induction false} DataLies(front: seq<byte>, rec: seq<byte>, rest: seq<byte>, file: seq<byte>, h: Header)
    requires front + rec + rest <= file
    requires |front| == h.offset && |rec| == HEADER_SIZE + h.logLen && h.offset + HEADER_SIZE < U32
    ensures DataOf(file, h) == Fetched(rec[HEADER_SIZE..])
  {
    assert forall k :: 0 <= k < |rec| ==> (front + rec + rest)[|front| + k] == rec[k];
    var data := OsPread(file, h.logLen, h.offset + HEADER_SIZE);
    assert forall k :: 0 <= k < |data| ==> data[k] == rec[HEADER_SIZE + k];
    assert data == rec[HEADER_SIZE..];
  }

  /** What a cursor meets after `front`: nothing, a piece of a header, or the header of a record cut short. */
  lemma {:induction false} TornRecordIsFound(front: seq<byte>, r: Record, torn: seq<byte>)
    requires r.h.Fits() && |r.data| == r.h.logLen && r.h.offset == |front|
    requires torn < RecordBytes(r)
    ensures HeaderMove(front + torn, |front|) ==
            if torn == [] then AtEnd else if |torn| < HEADER_SIZE then Torn else Moved
    ensures |torn| >= HEADER_SIZE ==> HeaderIn(front + torn, |front|) == r.h
    ensures HeaderMove(front + torn, r.h.End()) == AtEnd
    ensures |torn| >= HEADER_SIZE && |front| + HEADER_SIZE < U32 ==> DataOf(front + torn, r.h) == Short(torn[HEADER_SIZE..])
  {
    if |torn| >= HEADER_SIZE {
      if |front| + HEADER_SIZE < U32 {
        TornDataIsShort(front, r, torn);
      }
      HeadOfTorn(front, torn, RecordBytes(r), HEADER_SIZE);
      RecordHead(r);
      HeaderIsFound(front + torn, r.h);
    }
  }

  lemma {:induction false} TornDataIsShort(front: seq<byte>, r: Record, torn: seq<byte>)
    requires r.h.logLen == |r.data| && r.h.offset == |front| && torn < RecordBytes(r) && |torn| >= HEADER_SIZE
    requires |front| + HEADER_SIZE < U32
    ensures DataOf(front + torn, r.h) == Short(torn[HEADER_SIZE..])
  {
    hide EncodeHeader;
    var off := |front| + HEADER_SIZE;
    assert (front + torn)[off..] == torn[HEADER_SIZE..];
    assert OsPread(front + torn, r.h.logLen, off) == (front + torn)[off..];
  }
}
