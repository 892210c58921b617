// What a binlog file and its index hold, byte for byte, for a given sequence of records.
module BinLogFormat {
  import opened Bytes

  const HEADER_SIZE: nat := 32
  const INDEX_SIZE: nat := 20
  /** The tail of a file that appends leave free. */
  const FREE_SIZE: nat := 4 * 1024 * 1024

  /** The fixed header stored before each record's data. */
  datatype Header = Header(sid: nat, logNo: nat, datetime: nat, offset: nat, logLen: nat, prevOffset: nat, group: nat)
  {
    predicate Fits() {
      && sid < U64 && logNo < U32 && datetime < U32 && offset < U32
      && logLen < U32 && prevOffset < U32 && group < U32
    }

    /** Where the next record of the file starts. */
    function End(): nat {
      offset + HEADER_SIZE + logLen
    }
  }

  /** A stored record: its header as written, and its data. */
  datatype Record = Record(h: Header, data: seq<byte>)

  /** The entry of a record in the index file. */
  datatype Index = Index(sid: nat, datetime: nat, offset: nat, logLen: nat)
  {
    predicate Fits() {
      sid < U64 && datetime < U32 && offset < U32 && logLen < U32
    }

    function End(): nat {
      offset + HEADER_SIZE + logLen
    }
  }

  function IndexOf(h: Header): Index {
    Index(h.sid, h.datetime, h.offset, h.logLen)
  }

  // ---------------------------------------------------------------- codecs

  const HEADER_WIDTHS: seq<nat> := [8, 4, 4, 4, 4, 4, 4]
  const INDEX_WIDTHS: seq<nat> := [8, 4, 4, 4]

  lemma {:induction false} Widths()
    ensures Total(HEADER_WIDTHS) == HEADER_SIZE && |HEADER_WIDTHS| == 7
    ensures Total(INDEX_WIDTHS) == INDEX_SIZE && |INDEX_WIDTHS| == 4
  {
    assert Total([4]) == 4;
    assert Total([4, 4]) == 8;
    assert Total([4, 4, 4]) == 12;
    assert Total([4, 4, 4, 4]) == 16;
    assert Total([4, 4, 4, 4, 4]) == 20;
    assert Total([4, 4, 4, 4, 4, 4]) == 24;
  }

  function EncodeHeader(h: Header): (s: seq<byte>)
    ensures |s| == HEADER_SIZE
  {
    Widths();
    EncodeWords([h.sid, h.logNo, h.datetime, h.offset, h.logLen, h.prevOffset, h.group], HEADER_WIDTHS)
  }

  function DecodeHeader(s: seq<byte>): Header
    requires |s| == HEADER_SIZE
  {
    Widths();
    var w := DecodeWords(s, HEADER_WIDTHS);
    Header(w[0], w[1], w[2], w[3], w[4], w[5], w[6])
  }

  function EncodeIndex(e: Index): (s: seq<byte>)
    ensures |s| == INDEX_SIZE
  {
    Widths();
    EncodeWords([e.sid, e.datetime, e.offset, e.logLen], INDEX_WIDTHS)
  }

  function DecodeIndex(s: seq<byte>): Index
    requires |s| == INDEX_SIZE
  {
    Widths();
    var w := DecodeWords(s, INDEX_WIDTHS);
    Index(w[0], w[1], w[2], w[3])
  }

  lemma {:induction false} DecodedHeaderFits(s: seq<byte>)
    requires |s| == HEADER_SIZE
    ensures DecodeHeader(s).Fits()
  {
    Widths();
    Spans();
  }

  lemma {:induction false} HeaderRoundTrip(h: Header)
    requires h.Fits()
    ensures DecodeHeader(EncodeHeader(h)) == h
  {
    Widths();
    Spans();
    WordsRoundTrip([h.sid, h.logNo, h.datetime, h.offset, h.logLen, h.prevOffset, h.group], HEADER_WIDTHS);
  }

  lemma {:induction false} IndexRoundTrip(e: Index)
    requires e.Fits()
    ensures DecodeIndex(EncodeIndex(e)) == e
  {
    Widths();
    Spans();
    WordsRoundTrip([e.sid, e.datetime, e.offset, e.logLen], INDEX_WIDTHS);
  }

  /** The word of four bytes at `at`, the first byte highest. */
  function FourAt(s: seq<byte>, at: nat): nat
    requires at + 4 <= |s|
  {
    ((s[at] as int * 256 + s[at + 1] as int) * 256 + s[at + 2] as int) * 256 + s[at + 3] as int
  }

  lemma {:induction false} FourAtIs(s: seq<byte>, at: nat)
    requires at + 4 <= |s|
    ensures FourAt(s, at) == FromBigEndian(s[at..at + 4])
  {
    hide FromBigEndian;
    FourBytes(s[at..at + 4]);
  }

  /** Where each field of a header lies, as words of four bytes in network order; the sid takes two, high one first. */
  lemma {:induction false} HeaderLayout(h: Header)
    requires h.Fits()
    ensures var s := EncodeHeader(h);
            && FourAt(s, 0) * U32 + FourAt(s, 4) == h.sid
            && FourAt(s, 8) == h.logNo && FourAt(s, 12) == h.datetime && FourAt(s, 16) == h.offset
            && FourAt(s, 20) == h.logLen && FourAt(s, 24) == h.prevOffset && FourAt(s, 28) == h.group
  {
    hide FromBigEndian, BigEndian, EncodeWords, FourAt;
    var s, words := EncodeHeader(h), [h.sid, h.logNo, h.datetime, h.offset, h.logLen, h.prevOffset, h.group];
    SidLies(s, words, HEADER_WIDTHS, h.sid);
    Widths();
    forall k | 1 <= k < 7
      ensures FourAt(s, 4 + 4 * k) == words[k]
    {
      HeaderWords(k);
      FieldLies(s, words, HEADER_WIDTHS, k);
    }
    assert FourAt(s, 4 + 4 * 1) == words[1] && FourAt(s, 4 + 4 * 2) == words[2] && FourAt(s, 4 + 4 * 3) == words[3];
    assert FourAt(s, 4 + 4 * 4) == words[4] && FourAt(s, 4 + 4 * 5) == words[5] && FourAt(s, 4 + 4 * 6) == words[6];
  }

  lemma {:induction false} HeaderWords(k: nat)
    requires 1 <= k < 7
    ensures Total(HEADER_WIDTHS[..k]) == 4 + 4 * k && HEADER_WIDTHS[k] == 4
    ensures k < 4 ==> Total(INDEX_WIDTHS[..k]) == 4 + 4 * k && INDEX_WIDTHS[k] == 4
  {
    if k > 1 {
      HeaderWords(k - 1);
      TotalSnoc(HEADER_WIDTHS[..k - 1], HEADER_WIDTHS[k - 1]);
      assert HEADER_WIDTHS[..k] == HEADER_WIDTHS[..k - 1] + [HEADER_WIDTHS[k - 1]];
      if k < 4 {
        TotalSnoc(INDEX_WIDTHS[..k - 1], INDEX_WIDTHS[k - 1]);
        assert INDEX_WIDTHS[..k] == INDEX_WIDTHS[..k - 1] + [INDEX_WIDTHS[k - 1]];
      }
    } else {
      assert HEADER_WIDTHS[..1] == [8] && INDEX_WIDTHS[..1] == [8];
    }
  }

  lemma {:induction false} TotalSnoc(widths: seq<nat>, n: nat)
    ensures Total(widths + [n]) == Total(widths) + n
  {
    if widths == [] {
      assert widths + [n] == [n];
    } else {
      assert (widths + [n])[1..] == widths[1..] + [n];
      TotalSnoc(widths[1..], n);
    }
  }

  lemma {:induction false} FieldLies(s: seq<byte>, words: seq<nat>, widths: seq<nat>, k: nat)
    requires |words| == |widths| && k < |words| && s == EncodeWords(words, widths)
    requires widths[k] == 4 && words[k] < U32
    ensures Total(widths[..k]) + 4 <= |s| && FourAt(s, Total(widths[..k])) == words[k]
  {
    hide FromBigEndian, BigEndian, EncodeWords, FourAt;
    WordAt(words, widths, k);
    FourAtIs(s, Total(widths[..k]));
    Spans();
    BigEndianRoundTrip(words[k], 4);
  }

  lemma {:induction false} SidLies(s: seq<byte>, words: seq<nat>, widths: seq<nat>, sid: nat)
    requires |words| == |widths| && words != [] && s == EncodeWords(words, widths)
    requires widths[0] == 8 && words[0] == sid < U64
    ensures |s| >= 8 && FourAt(s, 0) * U32 + FourAt(s, 4) == sid
  {
    hide FromBigEndian, BigEndian, EncodeWords, FourAt;
    WordAt(words, widths, 0);
    assert Total(widths[..0]) == 0;
    Spans();
    BigEndianRoundTrip(sid, 8);
    EightBytes(s[0..8]);
    FourAtIs(s, 0);
    FourAtIs(s, 4);
    assert s[0..8][..4] == s[0..4] && s[0..8][4..] == s[4..8];
  }

  /** Any 32 bytes are read as a header in the same places. */
  lemma {:induction false} DecodedLayout(s: seq<byte>)
    requires |s| == HEADER_SIZE
    ensures var h := DecodeHeader(s);
            && h.sid == FourAt(s, 0) * U32 + FourAt(s, 4)
            && h.logNo == FourAt(s, 8) && h.datetime == FourAt(s, 12) && h.offset == FourAt(s, 16)
            && h.logLen == FourAt(s, 20) && h.prevOffset == FourAt(s, 24) && h.group == FourAt(s, 28)
  {
    hide FromBigEndian, DecodeWords, FourAt;
    Widths();
    var w := DecodeWords(s, HEADER_WIDTHS);
    SidDecoded(s);
    forall k | 1 <= k < 7
      ensures w[k] == FourAt(s, 4 + 4 * k)
    {
      HeaderWords(k);
      DecodedAt(s, HEADER_WIDTHS, k);
      FourAtIs(s, 4 + 4 * k);
    }
    assert FourAt(s, 4 + 4 * 1) == w[1] && FourAt(s, 4 + 4 * 2) == w[2] && FourAt(s, 4 + 4 * 3) == w[3];
    assert FourAt(s, 4 + 4 * 4) == w[4] && FourAt(s, 4 + 4 * 5) == w[5] && FourAt(s, 4 + 4 * 6) == w[6];
  }

  lemma {:induction false} SidDecoded(s: seq<byte>)
    requires |s| == HEADER_SIZE
    ensures |s| == Total(HEADER_WIDTHS) && DecodeWords(s, HEADER_WIDTHS)[0] == FourAt(s, 0) * U32 + FourAt(s, 4)
  {
    hide FromBigEndian, DecodeWords, FourAt;
    Widths();
    DecodedAt(s, HEADER_WIDTHS, 0);
    assert Total(HEADER_WIDTHS[..0]) == 0;
    EightBytes(s[0..8]);
    FourAtIs(s, 0);
    FourAtIs(s, 4);
    assert s[0..8][..4] == s[0..4] && s[0..8][4..] == s[4..8];
  }

  lemma {:induction false} IndexLayout(e: Index)
    requires e.Fits()
    ensures var s := EncodeIndex(e);
            && FourAt(s, 0) * U32 + FourAt(s, 4) == e.sid
            && FourAt(s, 8) == e.datetime && FourAt(s, 12) == e.offset && FourAt(s, 16) == e.logLen
  {
    hide FromBigEndian, BigEndian, EncodeWords, FourAt;
    var s, words := EncodeIndex(e), [e.sid, e.datetime, e.offset, e.logLen];
    SidLies(s, words, INDEX_WIDTHS, e.sid);
    Widths();
    forall k | 1 <= k < 4
      ensures FourAt(s, 4 + 4 * k) == words[k]
    {
      HeaderWords(k);
      FieldLies(s, words, INDEX_WIDTHS, k);
    }
    assert FourAt(s, 4 + 4 * 1) == words[1] && FourAt(s, 4 + 4 * 2) == words[2] && FourAt(s, 4 + 4 * 3) == words[3];
  }

  // -------------------------------------------------------- the layout of a file

  /** The size of the file, which is where its next record goes. */
  function EndOf(recs: seq<Record>): nat {
    if recs == [] then 0 else recs[|recs| - 1].h.End()
  }

  /** The offset of the last record, the one an appended record points back at. */
  function LastOffset(recs: seq<Record>): nat {
    if recs == [] then 0 else recs[|recs| - 1].h.offset
  }

  function FirstSid(recs: seq<Record>): nat {
    if recs == [] then 0 else recs[0].h.sid
  }

  function LastSid(recs: seq<Record>): nat {
    if recs == [] then 0 else recs[|recs| - 1].h.sid
  }

  /**
   * `r` can be written straight after `recs`: its number and its offsets are those of its position,
   * its sid is larger than any before, and every field fits its width.
   */
  predicate Continues(recs: seq<Record>, r: Record) {
    && r.h.Fits() && |r.data| == r.h.logLen
    && r.h.logNo == |recs| && r.h.offset == EndOf(recs) && r.h.prevOffset == LastOffset(recs)
    && LastSid(recs) < r.h.sid
  }

  /** The records of a well-formed file: each continues those before it. */
  predicate Laid(recs: seq<Record>) {
    recs != [] ==> Laid(recs[..|recs| - 1]) && Continues(recs[..|recs| - 1], recs[|recs| - 1])
  }

  ghost predicate Ascending(recs: seq<Record>) {
    forall i, j :: 0 <= i < j < |recs| ==> recs[i].h.sid < recs[j].h.sid
  }

  /** The record an append of these values writes after `recs`. */
  function NextRecord(recs: seq<Record>, sid: nat, datetime: nat, group: nat, data: seq<byte>): Record {
    Record(Header(sid, |recs|, datetime, EndOf(recs), |data|, LastOffset(recs), group), data)
  }

  function RecordBytes(r: Record): (s: seq<byte>)
    ensures |s| == HEADER_SIZE + |r.data|
  {
    EncodeHeader(r.h) + r.data
  }

  function FileBytes(recs: seq<Record>): seq<byte> {
    if recs == [] then [] else FileBytes(recs[..|recs| - 1]) + RecordBytes(recs[|recs| - 1])
  }

  function Entries(recs: seq<Record>): (es: seq<Index>)
    ensures |es| == |recs|
    ensures forall i :: 0 <= i < |recs| ==> es[i] == IndexOf(recs[i].h)
  {
    seq(|recs|, i requires 0 <= i < |recs| => IndexOf(recs[i].h))
  }

  /** The first record with a sid above `sid`, found by looking at every record in turn. */
  function UpperIndex(recs: seq<Record>, sid: nat): (i: nat)
    ensures i <= |recs|
    ensures forall k :: 0 <= k < i ==> recs[k].h.sid <= sid
    ensures i < |recs| ==> sid < recs[i].h.sid
  {
    if recs == [] || sid < recs[0].h.sid then 0
    else
      var i := UpperIndex(recs[1..], sid);
      assert forall k :: 0 < k < i + 1 ==> recs[k] == recs[1..][k - 1];
      i + 1
  }

  // ------------------------------------------------------------------ facts

  lemma {:induction false} LaidAt(recs: seq<Record>, i: nat)
    requires Laid(recs)
    requires i < |recs|
    ensures Laid(recs[..i])
    ensures Continues(recs[..i], recs[i])
  {
    var front := recs[..|recs| - 1];
    if i < |front| {
      LaidAt(front, i);
      assert front[..i] == recs[..i];
    }
  }

  /** Later records have larger sids and start where or after earlier ones end; headers take their room. */
  lemma {:induction false} Positions(recs: seq<Record>, i: nat, j: nat)
    requires Laid(recs)
    requires i < j < |recs|
    ensures recs[i].h.sid < recs[j].h.sid
    ensures recs[i].h.End() <= recs[j].h.offset
    decreases j
  {
    LaidAt(recs, j);
    assert recs[..j][j - 1] == recs[j - 1];
    if i < j - 1 {
      Positions(recs, i, j - 1);
    }
  }

  lemma {:induction false} LaidAscends(recs: seq<Record>)
    requires Laid(recs)
    ensures Ascending(recs)
  {
    forall i, j | 0 <= i < j < |recs|
      ensures recs[i].h.sid < recs[j].h.sid
    {
      Positions(recs, i, j);
    }
  }

  /** A file cannot hold more records than headers fit into it. */
  lemma {:induction false} CountFits(recs: seq<Record>)
    requires Laid(recs)
    ensures HEADER_SIZE * |recs| <= EndOf(recs)
    ensures LastOffset(recs) <= EndOf(recs)
  {
    if recs != [] {
      CountFits(recs[..|recs| - 1]);
    }
  }

  lemma {:induction false} Snoc(recs: seq<Record>, r: Record)
    ensures Laid(recs + [r]) <==> Laid(recs) && Continues(recs, r)
    ensures Entries(recs + [r]) == Entries(recs) + [IndexOf(r.h)]
    ensures FileBytes(recs + [r]) == FileBytes(recs) + RecordBytes(r)
    ensures EndOf(recs + [r]) == r.h.End() && LastSid(recs + [r]) == r.h.sid && LastOffset(recs + [r]) == r.h.offset
    ensures FirstSid(recs + [r]) == if recs == [] then r.h.sid else FirstSid(recs)
  {
    assert (recs + [r])[..|recs|] == recs;
  }

  lemma {:induction false} FileBytesSize(recs: seq<Record>)
    requires Laid(recs)
    ensures |FileBytes(recs)| == EndOf(recs)
  {
    if recs != [] {
      FileBytesSize(recs[..|recs| - 1]);
    }
  }

  /** A file is what precedes record `i`, the record itself, and what follows it. */
  lemma {:induction false} FileSplit(recs: seq<Record>, i: nat) returns (rest: seq<byte>)
    requires i < |recs|
    ensures FileBytes(recs) == FileBytes(recs[..i]) + RecordBytes(recs[i]) + rest
  {
    var front := recs[..|recs| - 1];
    if i == |front| {
      rest := [];
    } else {
      var tail := FileSplit(front, i);
      assert front[..i] == recs[..i];
      var last := RecordBytes(recs[|recs| - 1]);
      Regroup(FileBytes(recs[..i]), RecordBytes(recs[i]), tail, last);
      rest := tail + last;
    }
  }

  lemma {:induction false} RecordHead(r: Record)
    ensures RecordBytes(r)[..HEADER_SIZE] == EncodeHeader(r.h)
    ensures RecordBytes(r)[HEADER_SIZE..] == r.data
  {
  }

  /** The header of record `i` lies at its offset. */
  lemma {:induction false} RecordAt(recs: seq<Record>, i: nat)
    requires Laid(recs)
    requires i < |recs|
    ensures recs[i].h.End() <= |FileBytes(recs)|
    ensures FileBytes(recs)[recs[i].h.offset..recs[i].h.offset + HEADER_SIZE] == EncodeHeader(recs[i].h)
  {
    LaidAt(recs, i);
    FileBytesSize(recs[..i]);
    var rest := FileSplit(recs, i);
    MiddleSlice(FileBytes(recs[..i]), RecordBytes(recs[i]), rest, HEADER_SIZE);
    RecordHead(recs[i]);
  }

  /** In an ascending file the lookup result is marked by its two neighbours alone. */
  lemma {:induction false} UpperIs(recs: seq<Record>, sid: nat, i: nat)
    requires Laid(recs)
    requires i <= |recs|
    requires i > 0 ==> recs[i - 1].h.sid <= sid
    requires i < |recs| ==> sid < recs[i].h.sid
    ensures UpperIndex(recs, sid) == i
  {
    LaidAscends(recs);
    UpperInOrder(recs, sid, i);
  }

  lemma {:induction false} AscendingSnoc(recs: seq<Record>, r: Record)
    requires Ascending(recs)
    requires LastSid(recs) < r.h.sid
    ensures Ascending(recs + [r])
  {
    forall i, j | 0 <= i < j < |recs| + 1
      ensures (recs + [r])[i].h.sid < (recs + [r])[j].h.sid
    {
      if j == |recs| && i < |recs| - 1 {
        assert recs[i].h.sid < recs[|recs| - 1].h.sid;
      }
    }
  }

  lemma {:induction false} UpperInOrder(recs: seq<Record>, sid: nat, i: nat)
    requires Ascending(recs)
    requires i <= |recs|
    requires i > 0 ==> recs[i - 1].h.sid <= sid
    requires i < |recs| ==> sid < recs[i].h.sid
    ensures UpperIndex(recs, sid) == i
  {
  }
}
