// The binlog browser: a sparse index over one file, made by reading it once, and the two searches on it.
module BinlogOp {
  import opened Bytes
  import opened BinLogFormat
  import opened BinLogCursor

  const INTERVAL: nat := 100

  /** What a search says: it is on the record, there is none, or the source's behaviour is undefined. */
  datatype Answer = Found | NoSuch | Undefined

  /** The records among `n` that get an index entry: the first, each hundredth, and at the end the last. */
  predicate Marked(n: nat, done: bool, i: nat) {
    i < n && (i == 0 || (i + 1) % INTERVAL == 0 || (done && i == n - 1))
  }

  /** The last marked record at or before record `i`. */
  function Mark(n: nat, i: nat): (m: nat)
    requires i < n
    ensures m <= i && Marked(n, true, m)
    ensures i - m < INTERVAL
    ensures forall k :: m < k <= i ==> !Marked(n, true, k)
  {
    if i == n - 1 then i
    else if i + 1 < INTERVAL then 0
    else (i + 1) / INTERVAL * INTERVAL - 1
  }

  /** The index by sid holds the offsets of the marked records among the first `n`, and no others. */
  ghost predicate SidsIndexed(recs: seq<Record>, n: nat, done: bool, sids: map<nat, nat>) {
    && n <= |recs|
    && (forall i :: 0 <= i < n && Marked(n, done, i) ==> recs[i].h.sid in sids && sids[recs[i].h.sid] == recs[i].h.offset)
    && (forall s :: s in sids ==> exists i :: 0 <= i < n && Marked(n, done, i) && recs[i].h.sid == s)
  }

  predicate NumberAt(recs: seq<Record>, numbers: map<nat, nat>, i: nat)
    requires i < |recs|
  {
    i + 1 in numbers && numbers[i + 1] == recs[i].h.offset
  }

  /** The index by number, counted from 1, likewise. */
  ghost predicate NumbersIndexed(recs: seq<Record>, n: nat, done: bool, numbers: map<nat, nat>) {
    && n <= |recs|
    && (forall i :: 0 <= i < n && Marked(n, done, i) ==> NumberAt(recs, numbers, i))
    && (forall k :: k in numbers ==> 1 <= k <= n && Marked(n, done, k - 1))
  }

  /** Which records are entered: numbers counted from 1, the first, each hundredth, and the last; and where they lie. */
  ghost predicate Entered(recs: seq<Record>, sids: map<nat, nat>, numbers: map<nat, nat>) {
    && (forall k :: k in numbers <==> 1 <= k <= |recs| && (k == 1 || k % 100 == 0 || k == |recs|))
    && (forall k :: 1 <= k <= |recs| && k in numbers ==>
          numbers[k] == recs[k - 1].h.offset && recs[k - 1].h.sid in sids && sids[recs[k - 1].h.sid] == numbers[k])
    && forall s :: s in sids ==> exists i :: 0 <= i < |recs| && recs[i].h.sid == s && i + 1 in numbers
  }

  lemma {:induction false} EnteredRecords(recs: seq<Record>, sids: map<nat, nat>, numbers: map<nat, nat>)
    requires SidsIndexed(recs, |recs|, true, sids) && NumbersIndexed(recs, |recs|, true, numbers)
    ensures Entered(recs, sids, numbers)
  {
    hide SidsIndexed, NumbersIndexed;
    forall k
      ensures k in numbers <==> 1 <= k <= |recs| && (k == 1 || k % 100 == 0 || k == |recs|)
      ensures 1 <= k <= |recs| && k in numbers ==>
                numbers[k] == recs[k - 1].h.offset && recs[k - 1].h.sid in sids && sids[recs[k - 1].h.sid] == numbers[k]
    {
      NumberEntered(recs, sids, numbers, k);
    }
    forall s | s in sids
      ensures exists i :: 0 <= i < |recs| && recs[i].h.sid == s && i + 1 in numbers
    {
      var i := SidEntered(recs, sids, s);
      NumberEntered(recs, sids, numbers, i + 1);
      MarkedMeans(|recs|, i);
    }
  }

  lemma {:induction false} MarkedMeans(n: nat, i: nat)
    ensures Marked(n, true, i) <==> i < n && (i == 0 || (i + 1) % 100 == 0 || i == n - 1)
  {
  }

  lemma {:induction false} NumberEntered(recs: seq<Record>, sids: map<nat, nat>, numbers: map<nat, nat>, k: int)
    requires SidsIndexed(recs, |recs|, true, sids) && NumbersIndexed(recs, |recs|, true, numbers)
    ensures k in numbers <==> 1 <= k <= |recs| && (k == 1 || k % 100 == 0 || k == |recs|)
    ensures 1 <= k <= |recs| && k in numbers ==>
              numbers[k] == recs[k - 1].h.offset && recs[k - 1].h.sid in sids && sids[recs[k - 1].h.sid] == numbers[k]
  {
    hide Marked;
    if 1 <= k <= |recs| {
      var i := k - 1;
      MarkedMeans(|recs|, i);
      assert Marked(|recs|, true, i) ==> NumberAt(recs, numbers, i);
    }
  }

  lemma {:induction false} SidEntered(recs: seq<Record>, sids: map<nat, nat>, s: nat) returns (i: nat)
    requires SidsIndexed(recs, |recs|, true, sids) && s in sids
    ensures i < |recs| && Marked(|recs|, true, i) && recs[i].h.sid == s
  {
    hide Marked;
    i :| 0 <= i < |recs| && Marked(|recs|, true, i) && recs[i].h.sid == s;
  }

  // --------------------------------------------------------- making the indexes

  lemma {:induction false} OneMoreSid(recs: seq<Record>, n: nat, sids: map<nat, nat>)
    requires Laid(recs) && n < |recs| && SidsIndexed(recs, n, false, sids)
    ensures var h := recs[n].h;
            SidsIndexed(recs, n + 1, false, if Marked(n + 1, false, n) then sids[h.sid := h.offset] else sids)
  {
    var h := recs[n].h;
    var more := if Marked(n + 1, false, n) then sids[h.sid := h.offset] else sids;
    forall i | 0 <= i < n + 1 && Marked(n + 1, false, i)
      ensures recs[i].h.sid in more && more[recs[i].h.sid] == recs[i].h.offset
    {
      if i < n {
        assert Marked(n, false, i);
        Positions(recs, i, n);
      }
    }
    forall s | s in more
      ensures exists i :: 0 <= i < n + 1 && Marked(n + 1, false, i) && recs[i].h.sid == s
    {
      if s in sids {
        var i :| 0 <= i < n && Marked(n, false, i) && recs[i].h.sid == s;
        assert Marked(n + 1, false, i);
      } else {
        assert Marked(n + 1, false, n);
      }
    }
  }

  lemma {:induction false} OneMoreNumber(recs: seq<Record>, n: nat, numbers: map<nat, nat>)
    requires n < |recs| && NumbersIndexed(recs, n, false, numbers)
    ensures NumbersIndexed(recs, n + 1, false,
                           if Marked(n + 1, false, n) then numbers[n + 1 := recs[n].h.offset] else numbers)
  {
    var more := if Marked(n + 1, false, n) then numbers[n + 1 := recs[n].h.offset] else numbers;
    forall i | 0 <= i < n + 1 && Marked(n + 1, false, i)
      ensures NumberAt(recs, more, i)
    {
      assert i < n ==> Marked(n, false, i) && NumberAt(recs, numbers, i);
    }
    forall k | k in more
      ensures 1 <= k <= n + 1 && Marked(n + 1, false, k - 1)
    {
      assert k in numbers ==> Marked(n, false, k - 1);
    }
  }

  /** At the end the last record is entered too. */
  lemma {:induction false} LastSidEntered(recs: seq<Record>, sids: map<nat, nat>)
    requires Laid(recs) && SidsIndexed(recs, |recs|, false, sids)
    ensures |recs| <= 1 ==> SidsIndexed(recs, |recs|, true, sids)
    ensures recs != [] ==> SidsIndexed(recs, |recs|, true, sids[LastSid(recs) := LastOffset(recs)])
  {
    var n := |recs|;
    forall i | 0 <= i < n - 1
      ensures recs[i].h.sid < recs[n - 1].h.sid
    {
      Positions(recs, i, n - 1);
    }
    assert n > 0 ==> Marked(n, true, n - 1);
    assert forall i :: Marked(n, false, i) ==> Marked(n, true, i);
  }

  lemma {:induction false} LastNumberEntered(recs: seq<Record>, numbers: map<nat, nat>)
    requires NumbersIndexed(recs, |recs|, false, numbers)
    ensures |recs| <= 1 ==> NumbersIndexed(recs, |recs|, true, numbers)
    ensures recs != [] ==> NumbersIndexed(recs, |recs|, true, numbers[|recs| := LastOffset(recs)])
  {
    var n := |recs|;
    var more := if n == 0 then numbers else numbers[n := LastOffset(recs)];
    forall i | 0 <= i < n && Marked(n, true, i)
      ensures NumberAt(recs, more, i) && (n == 1 ==> NumberAt(recs, numbers, i))
    {
      assert i < n - 1 || i == 0 ==> Marked(n, false, i) && NumberAt(recs, numbers, i);
    }
    forall k | k in more
      ensures 1 <= k <= n && Marked(n, true, k - 1)
    {
      assert k in numbers ==> Marked(n, false, k - 1);
    }
  }

  // -------------------------------------------------------------- looking up

  /** The last record with a sid not above `sid`. */
  function AtOrBelow(recs: seq<Record>, sid: nat): (p: int)
    ensures -1 <= p < |recs|
  {
    UpperIndex(recs, sid) - 1
  }

  lemma {:induction false} AtOrBelowIs(recs: seq<Record>, sid: nat, i: nat)
    requires Laid(recs) && i < |recs|
    ensures recs[i].h.sid <= sid <==> i <= AtOrBelow(recs, sid)
    ensures recs[i].h.sid == sid ==> i == AtOrBelow(recs, sid)
  {
    var u := UpperIndex(recs, sid);
    LaidAscends(recs);
    assert u < i ==> recs[u].h.sid < recs[i].h.sid;
    assert i < u - 1 ==> recs[i].h.sid < recs[u - 1].h.sid;
  }

  /** The greatest indexed sid not above `sid` is that of the last marked record at or below it. */
  lemma {:induction false} IndexedBelow(recs: seq<Record>, sids: map<nat, nat>, sid: nat, k: nat)
    requires Laid(recs) && SidsIndexed(recs, |recs|, true, sids)
    requires k in sids && k <= sid && forall s :: s in sids && s <= sid ==> s <= k
    ensures var p := AtOrBelow(recs, sid);
            p >= 0 && sids[k] == recs[Mark(|recs|, p)].h.offset
  {
    var i :| 0 <= i < |recs| && Marked(|recs|, true, i) && recs[i].h.sid == k;
    var p := AtOrBelow(recs, sid);
    AtOrBelowIs(recs, sid, i);
    var m := Mark(|recs|, p);
    assert recs[m].h.sid in sids;
    hide SidsIndexed, Laid, Mark, AtOrBelow;
    BelowMark(recs, sid, i);
    SameRecord(recs, i, m);
  }

  /** No marked record up to `sid` comes after the last mark, and that one is up to `sid` too. */
  lemma {:induction false} BelowMark(recs: seq<Record>, sid: nat, i: nat)
    requires Laid(recs) && i < |recs| && Marked(|recs|, true, i) && recs[i].h.sid <= sid
    ensures AtOrBelow(recs, sid) >= 0
    ensures var m := Mark(|recs|, AtOrBelow(recs, sid)); i <= m && recs[m].h.sid <= sid
  {
    hide Laid;
    AtOrBelowIs(recs, sid, i);
    AtOrBelowIs(recs, sid, Mark(|recs|, AtOrBelow(recs, sid)));
  }

  lemma {:induction false} SameRecord(recs: seq<Record>, i: nat, m: nat)
    requires Laid(recs) && i <= m < |recs|
    ensures recs[m].h.sid <= recs[i].h.sid ==> i == m
  {
    if i < m {
      Positions(recs, i, m);
    }
  }

  /** So it is with the numbers. */
  lemma {:induction false} NumberBelow(recs: seq<Record>, numbers: map<nat, nat>, number: nat, k: nat)
    requires NumbersIndexed(recs, |recs|, true, numbers) && 1 <= number <= |recs|
    requires k in numbers && k <= number && forall s :: s in numbers && s <= number ==> s <= k
    ensures k == Mark(|recs|, number - 1) + 1 && numbers[k] == recs[k - 1].h.offset
  {
    var m := Mark(|recs|, number - 1);
    assert NumberAt(recs, numbers, m);
    assert Marked(|recs|, true, k - 1) && NumberAt(recs, numbers, k - 1);
  }

  lemma {:induction false} LeastFrom(s: set<nat>, x: nat, high: nat) returns (k: nat)
    requires high in s && x <= high
    ensures k in s && x <= k && forall y :: y in s && x <= y ==> k <= y
    decreases high
  {
    k := high;
    if y :| y in s && x <= y < high {
      k := LeastFrom(s, x, y);
    }
  }

  lemma {:induction false} GreatestBelow(s: set<nat>, x: nat, low: nat) returns (k: nat)
    requires low in s && low < x
    ensures k in s && k < x && forall y :: y in s && y < x ==> y <= k
    decreases x - low
  {
    k := low;
    if y :| y in s && low < y < x {
      k := GreatestBelow(s, x, y);
    }
  }

  /** The entry a search starts from: that of `x`, else the one before the first above it. */
  method Bound(index: map<nat, nat>, x: nat, ghost low: nat, ghost high: nat) returns (k: nat)
    requires low in index && high in index && low <= x <= high
    ensures k in index && k <= x && forall y :: y in index && y <= x ==> y <= k
  {
    var _ := LeastFrom(index.Keys, x, high);
    k :| k in index && x <= k && forall y :: y in index && x <= y ==> k <= y;
    if k != x {
      var above := k;
      var _ := GreatestBelow(index.Keys, above, low);
      k :| k in index && k < above && forall y :: y in index && y < above ==> y <= k;
    }
  }

  /** Whatever the cursor meets when it goes on from record `q`. */
  lemma {:induction false} NextFinds(recs: seq<Record>, q: nat)
    requires Laid(recs) && EndOf(recs) < U32 && q < |recs|
    ensures var off := Wrap32(recs[q].h.End());
            if q + 1 < |recs| then HeaderMove(FileBytes(recs), off) == Moved && HeaderIn(FileBytes(recs), off) == recs[q + 1].h
            else HeaderMove(FileBytes(recs), off) == AtEnd
    ensures recs[q].h.offset < U32 && |FileBytes(recs)| == EndOf(recs)
    ensures HeaderMove(FileBytes(recs), recs[q].h.offset) == Moved && HeaderIn(FileBytes(recs), recs[q].h.offset) == recs[q].h
  {
    hide HeaderIn, FileBytes;
    FileBytesSize(recs);
    RecordIsFound(recs, q, FileBytes(recs));
    LaidAt(recs, q);
    if q + 1 < |recs| {
      LaidAt(recs, q + 1);
      assert recs[..q + 1][q] == recs[q];
      RecordIsFound(recs, q + 1, FileBytes(recs));
      Positions(recs, q, q + 1);
      EndsBefore(recs, q + 1);
    }
  }

  lemma {:induction false} EndsBefore(recs: seq<Record>, q: nat)
    requires Laid(recs) && q < |recs|
    ensures recs[q].h.offset <= EndOf(recs)
  {
    if q < |recs| - 1 {
      Positions(recs, q, |recs| - 1);
    }
  }

  class Browser {
    const cursor: Cursor
    var sidIndex: map<nat, nat>
    var recIndex: map<nat, nat>
    var minSid: nat
    var maxSid: nat
    var recNum: nat
    /** Which record the cursor is on. */
    ghost var at: nat

    ghost predicate OnFile(file: seq<byte>, recs: seq<Record>)
      reads this, cursor, cursor.block
    {
      && Laid(recs) && EndOf(recs) < U32 && file == FileBytes(recs)
      && cursor.CacheOk(file) && cursor.isOpen
    }

    ghost predicate Stands(recs: seq<Record>)
      reads this, cursor
    {
      at < |recs| && cursor.state == Ready && cursor.header == recs[at].h
    }

    ghost predicate Loaded(recs: seq<Record>)
      reads this
    {
      && recNum == |recs| && minSid == FirstSid(recs) && maxSid == LastSid(recs)
      && SidsIndexed(recs, |recs|, true, sidIndex) && NumbersIndexed(recs, |recs|, true, recIndex)
    }

    constructor ()
      ensures fresh(cursor) && fresh(cursor.block) && cursor.block.Length == BLOCK
      ensures sidIndex == map[] && recIndex == map[] && minSid == maxSid == recNum == 0
    {
      cursor := new Cursor(0);
      sidIndex, recIndex, minSid, maxSid, recNum, at := map[], map[], 0, 0, 0, 0;
    }

    /** Places the cursor on record `q`, found at its offset. */
    method GoTo(file: seq<byte>, off: nat, ghost recs: seq<Record>, ghost q: nat)
      requires OnFile(file, recs) && q < |recs| && off == recs[q].h.offset
      modifies this`at, cursor, cursor.block
      ensures OnFile(file, recs) && Stands(recs) && at == q
    {
      hide HeaderMove, HeaderIn, FileBytes, Laid;
      NextFinds(recs, q);
      var m := cursor.Seek(file, off);
      at := q;
    }

    /** Moves the cursor on by one record, if there is one more. */
    method Step(file: seq<byte>, ghost recs: seq<Record>) returns (moved: bool)
      requires OnFile(file, recs) && Stands(recs)
      modifies this`at, cursor, cursor.block
      ensures OnFile(file, recs) && Stands(recs)
      ensures moved <==> old(at) + 1 < |recs|
      ensures at == if moved then old(at) + 1 else old(at)
    {
      hide HeaderMove, HeaderIn, FileBytes, Laid;
      NextFinds(recs, at);
      var m := cursor.Next(file);
      moved := m == Moved;
      if moved {
        at := at + 1;
      }
    }

    /** What has been read and indexed: the first `recNum` records. */
    ghost predicate Counted(recs: seq<Record>, endOffset: nat)
      reads this
    {
      && recNum <= |recs|
      && SidsIndexed(recs, recNum, false, sidIndex) && NumbersIndexed(recs, recNum, false, recIndex)
      && (if recNum == 0 then minSid == maxSid == 0
          else minSid == FirstSid(recs) && maxSid == recs[recNum - 1].h.sid && endOffset == recs[recNum - 1].h.offset)
    }

    /** Enters the record the cursor is on, if its number is one of those indexed. */
    method Count(ghost recs: seq<Record>, endOffset: nat) returns (offset: nat)
      requires Laid(recs) && Counted(recs, endOffset) && recNum < |recs| && cursor.header == recs[recNum].h
      modifies this`sidIndex, this`recIndex, this`minSid, this`maxSid, this`recNum
      ensures Counted(recs, offset) && recNum == old(recNum) + 1
    {
      hide Laid, SidsIndexed, NumbersIndexed;
      var h := cursor.header;
      OneMoreSid(recs, recNum, sidIndex);
      OneMoreNumber(recs, recNum, recIndex);
      recNum := recNum + 1;
      if recNum == 1 {
        minSid := h.sid;
      }
      maxSid, offset := h.sid, h.offset;
      if recNum == 1 || recNum % INTERVAL == 0 {
        sidIndex := sidIndex[h.sid := h.offset];
        recIndex := recIndex[recNum := h.offset];
      }
    }

    /** Reads the file from the start and indexes it; the cursor is then on the first record. */
    method Init(file: seq<byte>, ghost recs: seq<Record>)
      requires Laid(recs) && EndOf(recs) < U32 && file == FileBytes(recs) && cursor.block.Length == BLOCK
      modifies this, cursor, cursor.block
      ensures OnFile(file, recs) && Loaded(recs) && (recs != [] ==> Stands(recs) && at == 0)
      ensures Entered(recs, sidIndex, recIndex)
    {
      hide HeaderMove, HeaderIn, FileBytes, Laid, SidsIndexed, NumbersIndexed, Entered;
      sidIndex, recIndex, minSid, maxSid, recNum, at := map[], map[], 0, 0, 0, 0;
      cursor.Open(0);
      var endOffset := 0;
      NothingIndexed(recs);
      var moved := First(file, recs);
      while moved
        invariant OnFile(file, recs) && Counted(recs, endOffset)
        invariant moved <==> recNum < |recs|
        invariant recs != [] ==> Stands(recs) && at == if moved then recNum else recNum - 1
        decreases |recs| - recNum
      {
        endOffset := Count(recs, endOffset);
        moved := Step(file, recs);
      }
      Finish(recs, endOffset);
      if recNum > 0 {
        FirstAtZero(recs);
        GoTo(file, 0, recs, 0);
      }
      EnteredRecords(recs, sidIndex, recIndex);
    }

    /** Enters the last record. */
    method Finish(ghost recs: seq<Record>, endOffset: nat)
      requires Laid(recs) && Counted(recs, endOffset) && recNum == |recs|
      modifies this`sidIndex, this`recIndex
      ensures Loaded(recs)
    {
      hide Laid, SidsIndexed, NumbersIndexed;
      LastSidEntered(recs, sidIndex);
      LastNumberEntered(recs, recIndex);
      if recNum > 1 {
        sidIndex := sidIndex[maxSid := endOffset];
        recIndex := recIndex[recNum := endOffset];
      }
    }

    /** The first step of a cursor just opened. */
    method First(file: seq<byte>, ghost recs: seq<Record>) returns (moved: bool)
      requires OnFile(file, recs) && cursor.state == Unseek && at == 0
      modifies cursor, cursor.block
      ensures OnFile(file, recs) && (moved <==> recs != []) && (moved ==> Stands(recs))
    {
      StartFinds(recs);
      hide HeaderMove, HeaderIn, FileBytes, Laid;
      var m := cursor.Next(file);
      moved := m == Moved;
    }

    /**
     * Goes to the record with this sid. It is found exactly when the file has it; the cursor stays on the
     * record it was on otherwise. On an empty file the search for sid 0 has no defined behaviour.
     */
    method DoSid(sid: nat, file: seq<byte>, ghost recs: seq<Record>) returns (r: Answer)
      requires OnFile(file, recs) && Loaded(recs) && (recs != [] ==> Stands(recs))
      modifies this`at, cursor, cursor.block
      ensures OnFile(file, recs) && Loaded(recs) && (recs != [] ==> Stands(recs))
      ensures r == Found ==> recs != [] && recs[at].h.sid == sid
      ensures r == NoSuch ==> at == old(at) && forall i :: 0 <= i < |recs| ==> recs[i].h.sid != sid
      ensures r == Undefined <==> recs == [] && sid == 0
    {
      hide Laid, FileBytes, UpperIndex, HeaderMove, HeaderIn, SidsIndexed, NumbersIndexed;
      if sid < minSid || sid > maxSid {
        OutOfBounds(recs, sid);
        return NoSuch;
      }
      if recNum == 0 {
        return Undefined;
      }
      EndsIndexed(recs, sidIndex);
      var k := Bound(sidIndex, sid, minSid, maxSid);
      IndexedBelow(recs, sidIndex, sid, k);
      var back := cursor.header.offset;
      ghost var was := at;
      GoTo(file, sidIndex[k], recs, Mark(|recs|, AtOrBelow(recs, sid)));
      r := Search(sid, file, recs);
      if r == NoSuch {
        GoTo(file, back, recs, was);
      }
    }

    /** Compares and goes on, over as many records as lie between two entries of the index. */
    method Search(sid: nat, file: seq<byte>, ghost recs: seq<Record>) returns (r: Answer)
      requires OnFile(file, recs) && Stands(recs)
      requires AtOrBelow(recs, sid) >= 0 && at == Mark(|recs|, AtOrBelow(recs, sid))
      modifies this`at, cursor, cursor.block
      ensures OnFile(file, recs) && Stands(recs) && r != Undefined
      ensures r == Found ==> recs[at].h.sid == sid
      ensures r == NoSuch ==> forall i :: 0 <= i < |recs| ==> recs[i].h.sid != sid
    {
      hide Laid, FileBytes, UpperIndex, HeaderMove, HeaderIn;
      ghost var from, p := at, AtOrBelow(recs, sid);
      var i := 0;
      while i < INTERVAL
        invariant i <= INTERVAL && OnFile(file, recs) && Stands(recs)
        invariant at == from + i
        invariant forall j :: from <= j < from + i ==> recs[j].h.sid != sid
      {
        if cursor.header.sid == sid {
          return Found;
        }
        var moved := Step(file, recs);
        if !moved {
          NotAmong(recs, sid, from, at + 1);
          return NoSuch;
        }
        i := i + 1;
      }
      NotAmong(recs, sid, from, from + i);
      r := NoSuch;
    }

    /** Goes to record number `record`, counted from 0 in 32 bits; for the largest number the source is undefined. */
    method DoRecord(record: nat, file: seq<byte>, ghost recs: seq<Record>) returns (r: Answer)
      requires OnFile(file, recs) && Loaded(recs) && (recs != [] ==> Stands(recs)) && record < U32
      modifies this`at, cursor, cursor.block
      ensures OnFile(file, recs) && Loaded(recs) && (recs != [] ==> Stands(recs))
      ensures r == Found <==> record < |recs| && record != U32 - 1
      ensures r == Undefined <==> record == U32 - 1
      ensures r == Found ==> at == record
      ensures r != Found ==> at == old(at)
    {
      hide Laid, FileBytes, UpperIndex, HeaderMove, HeaderIn, SidsIndexed, NumbersIndexed;
      var number := Wrap32(record + 1);
      if number > recNum {
        return NoSuch;
      }
      if number == 0 {
        return Undefined;
      }
      NumbersAtEnds(recs, recIndex);
      var k := Bound(recIndex, number, 1, recNum);
      NumberBelow(recs, recIndex, number, k);
      GoTo(file, recIndex[k], recs, k - 1);
      var skip := number - k;
      while skip > 0
        invariant OnFile(file, recs) && Stands(recs) && 0 <= skip <= number && at + skip == number - 1
      {
        var moved := Step(file, recs);
        skip := skip - 1;
      }
      r := Found;
    }
  }

  lemma {:induction false} NothingIndexed(recs: seq<Record>)
    ensures SidsIndexed(recs, 0, false, map[]) && NumbersIndexed(recs, 0, false, map[])
  {
  }

  lemma {:induction false} FirstAtZero(recs: seq<Record>)
    requires Laid(recs) && recs != []
    ensures recs[0].h.offset == 0
  {
    LaidAt(recs, 0);
    assert recs[..0] == [];
  }

  lemma {:induction false} StartFinds(recs: seq<Record>)
    requires Laid(recs) && EndOf(recs) < U32
    ensures |FileBytes(recs)| == EndOf(recs)
    ensures if recs == [] then HeaderMove(FileBytes(recs), 0) == AtEnd
            else HeaderMove(FileBytes(recs), 0) == Moved && HeaderIn(FileBytes(recs), 0) == recs[0].h
  {
    hide HeaderIn;
    FileBytesSize(recs);
    if recs != [] {
      FirstAtZero(recs);
      RecordIsFound(recs, 0, FileBytes(recs));
    }
  }

  lemma {:induction false} OutOfBounds(recs: seq<Record>, sid: nat)
    requires Laid(recs) && (sid < FirstSid(recs) || sid > LastSid(recs))
    ensures forall i :: 0 <= i < |recs| ==> recs[i].h.sid != sid
  {
    forall i | 0 <= i < |recs|
      ensures FirstSid(recs) <= recs[i].h.sid <= LastSid(recs)
    {
      if i > 0 {
        Positions(recs, 0, i);
      }
      if i < |recs| - 1 {
        Positions(recs, i, |recs| - 1);
      }
    }
  }

  lemma {:induction false} EndsIndexed(recs: seq<Record>, sids: map<nat, nat>)
    requires SidsIndexed(recs, |recs|, true, sids) && recs != []
    ensures FirstSid(recs) in sids && LastSid(recs) in sids
  {
    assert Marked(|recs|, true, 0) && Marked(|recs|, true, |recs| - 1);
  }

  lemma {:induction false} NumbersAtEnds(recs: seq<Record>, numbers: map<nat, nat>)
    requires NumbersIndexed(recs, |recs|, true, numbers) && recs != []
    ensures 1 in numbers && |recs| in numbers
  {
    assert Marked(|recs|, true, 0) && Marked(|recs|, true, |recs| - 1);
    assert NumberAt(recs, numbers, 0) && NumberAt(recs, numbers, |recs| - 1);
  }

  /** A sid that is not among the records from its mark on is nowhere in the file. */
  lemma {:induction false} NotAmong(recs: seq<Record>, sid: nat, from: nat, to: nat)
    requires Laid(recs) && AtOrBelow(recs, sid) >= 0 && from == Mark(|recs|, AtOrBelow(recs, sid))
    requires to <= |recs| && (to == |recs| || to >= from + INTERVAL)
    requires forall j :: from <= j < to ==> recs[j].h.sid != sid
    ensures forall i :: 0 <= i < |recs| ==> recs[i].h.sid != sid
  {
    forall i | 0 <= i < |recs|
      ensures recs[i].h.sid != sid
    {
      AtOrBelowIs(recs, sid, i);
    }
  }
}
