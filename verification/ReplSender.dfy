// The sender's session and its connections in place, on a real manager: seeking, packing and numbering
// packets, taking replies. Each call does what ReplSpec says, with the manager's history for the log.
module ReplSender {
  import opened FlatLog
  import opened Wrappers
  import opened ReplSpec
  import opened ReplInvariant
  import opened ReplBinlog
  import M = MgrSpec
  import I = MgrInvariant
  import Runs = MgrRuns
  import BinLogMgr
  import BinLogCursor

  class DispSession {
    const mgr: BinLogMgr.Manager
    const id: nat
    const reader: Reader
    const start: nat
    const chunk: nat
    var seqNo: nat
    var next: bool
    /** Where the session's cursor is in the log. */
    ghost var place: Place

    ghost function Value(): Sender
      reads this
    {
      Sender(seqNo, place, next, start, chunk)
    }

    ghost function Log(): seq<Item>
      reads mgr, mgr.files
    {
      LogOf(reader, M.History(mgr.Abs()))
    }

    ghost predicate Valid()
      reads this`place, mgr, mgr.files
      ensures Valid() ==> id in mgr.Abs().cursors && (place.At? ==> place.pos < |Log()|)
    {
      mgr.Valid() && InSession(mgr.Abs(), id, place, start)
    }

    /** A session gets a cursor created for its start sid; nothing above that may have been dropped. */
    constructor (m: BinLogMgr.Manager, cursor: nat, rd: Reader, startSid: nat, chunkSize: nat)
      requires m.Valid() && I.WellFormed(m.Abs()) && m.valid
      requires cursor in m.cursors && m.cursors[cursor] == Runs.NewCursor(startSid) && UpTo(M.Gone(m.Abs()), startSid)
      ensures Valid() && mgr == m && reader == rd && Value() == Sender(0, Unseek, false, startSid, chunkSize)
    {
      hide BinLogMgr.Manager.Valid, BinLogMgr.Views, I.WellFormed, UpTo, LogOf;
      mgr, id, reader, start, chunk, seqNo, next, place := m, cursor, rd, startSid, chunkSize, 0, false, Unseek;
    }

    /** Places the cursor on the first record above the start sid; as long as there is none it stays unplaced. */
    method SeekToReportSid() returns (found: bool)
      requires Valid()
      modifies this`place, this`next, mgr`cursors
      ensures Valid() && Moved(old(mgr.Abs()), mgr.Abs(), id) && Log() == old(Log())
      ensures old(place) == Unseek ==>
                if found then
                  && place.At? && !next
                  && forall k :: 0 <= k < |Log()| ==> (Log()[k].sid > start <==> k >= place.pos)
                else
                  && place == Unseek && next == old(next)
                  && forall k :: 0 <= k < |Log()| ==> Log()[k].sid <= start
      ensures (Value(), found) == SeekToReport(old(Value()), Log())
    {
      hide BinLogMgr.Manager.Valid, BinLogMgr.Views, InSession, LogOf, Ascending, Above, UpTo;
      ghost var m, log := mgr.Abs(), Log();
      AtPlace(m, id, place, start);
      found := true;
      if mgr.cursors[id].state == BinLogCursor.Unseek {
        AfterSeek(reader, m, id, start);
        AboveSplits(log, start);
        if start >= mgr.maxSid {
          return false;
        }
        var res := mgr.Seek(id, start);
        next := start == mgr.cursors[id].header.sid;
        place := At(Above(log, start));
        SameHistory(m, mgr.Abs(), id);
      }
    }

    /**
     * Goes to the next record that is to be sent. The data is read once: a record that cannot be unpacked makes
     * the source's loop run on to the end of the log, and the records it passes are not sent.
     */
    method SeekToBinlog() returns (found: bool, item: Item)
      requires Valid() && place.At?
      modifies this`place, this`next, mgr`cursors
      ensures Valid() && place.At? && Moved(old(mgr.Abs()), mgr.Abs(), id) && Log() == old(Log())
      ensures found <==> old(Pending(Value())) < |Log()| && Log()[old(Pending(Value()))].good
      ensures found ==> place == At(old(Pending(Value()))) && !next && item == Log()[place.pos]
      ensures !found ==> place == At(|Log()| - 1) && next
    {
      hide Valid, BinLogMgr.Manager.Valid, BinLogMgr.Manager.Abs, LogOf, Moved;
      item := Item(0, 0, [], 0, false);
      ghost var m := mgr.Abs();
      MovedNot(m, id);
      if next {
        var more := StepOn();
        if !more {
          return false, item;
        }
      }
      item := Read();
      next := false;
      found := item.good;
      if !found {
        ghost var before := mgr.Abs();
        PassRest();
        MovedTwice(m, before, mgr.Abs(), id);
      }
    }

    /** Steps on until there is no further record. */
    method PassRest()
      requires Valid() && place.At?
      modifies this`place, this`next, mgr`cursors
      ensures Valid() && Moved(old(mgr.Abs()), mgr.Abs(), id) && Log() == old(Log())
      ensures place == At(|Log()| - 1) && next
    {
      hide Valid, BinLogMgr.Manager.Valid, BinLogMgr.Manager.Abs, LogOf, Moved;
      ghost var m := mgr.Abs();
      MovedNot(m, id);
      var more := true;
      while more
        invariant Valid() && place.At? && Moved(m, mgr.Abs(), id) && Log() == old(Log())
        invariant !more ==> place == At(|Log()| - 1)
        decreases more, |Log()| - place.pos
      {
        ghost var before := mgr.Abs();
        more := StepOn();
        MovedTwice(m, before, mgr.Abs(), id);
      }
      next := true;
    }

    /** Reads the record under the cursor. */
    method Read() returns (item: Item)
      requires Valid() && place.At?
      modifies mgr`cursors
      ensures Valid() && mgr.Abs() == old(mgr.Abs()) && item == Log()[place.pos]
    {
      hide BinLogMgr.Manager.Valid, BinLogMgr.Views, InSession, LogOf;
      AfterFetch(reader, mgr.Abs(), id, place.pos, start);
      var c := mgr.cursors[id];
      var r := mgr.Fetch(id, c.header.logLen);
      item := ItemFor(reader, c.header, r.data);
    }

    /** One record on, if there is one. */
    method StepOn() returns (more: bool)
      requires Valid() && place.At?
      modifies this`place, mgr`cursors
      ensures Valid() && place.At? && Moved(old(mgr.Abs()), mgr.Abs(), id) && Log() == old(Log())
      ensures more <==> old(place.pos) + 1 < |Log()|
      ensures place == At(old(place.pos) + if more then 1 else 0)
    {
      hide BinLogMgr.Manager.Valid, BinLogMgr.Manager.Abs, InSession, LogOf, Runs.Step;
      ghost var m := mgr.Abs();
      AfterNext(reader, m, id, place.pos, start);
      var res := mgr.Next(id);
      more := res == M.Success;
      if more {
        place := At(place.pos + 1);
      }
      SameHistory(m, mgr.Abs(), id);
    }

    /** The packing loop. */
    method PackItems() returns (items: seq<Item>)
      requires Valid() && place.At?
      modifies this`place, this`next, mgr`cursors
      ensures Valid() && place.At? && Moved(old(mgr.Abs()), mgr.Abs(), id) && Log() == old(Log())
      ensures (Value(), items) == Pack(old(Value()), Log(), [], 0)
    {
      hide Valid, BinLogMgr.Manager.Valid, BinLogMgr.Manager.Abs, LogOf, Moved, Pack;
      items := [];
      var total: nat, more := 0, true;
      ghost var m := mgr.Abs();
      MovedNot(m, id);
      while more
        invariant Valid() && place.At? && Moved(m, mgr.Abs(), id) && Log() == old(Log())
        invariant if more then Pack(Value(), Log(), items, total) == Pack(old(Value()), Log(), [], 0)
                  else (Value(), items) == Pack(old(Value()), Log(), [], 0)
        decreases more, |Log()| - Pending(Value())
      {
        ghost var before := mgr.Abs();
        PackStep(Value(), Log(), items, total);
        var item;
        more, item := SeekToBinlog();
        MovedTwice(m, before, mgr.Abs(), id);
        if more {
          next := true;
          items := items + [item];
          total := total + item.packed;
          more := chunk != 0 && total < chunk;
        }
      }
    }
  }

  /** One round of the packing loop. */
  lemma {:induction false} PackStep(s: Sender, log: seq<Item>, items: seq<Item>, total: nat)
    requires s.place.At? && Placed(s, log)
    ensures var p := Pending(s);
            var r := Pack(s, log, items, total);
            if p < |log| && log[p].good then
              var s' := s.(place := At(p), next := true);
              r == if s.chunk == 0 || total + log[p].packed >= s.chunk then (s', items + [log[p]])
                   else Pack(s', log, items + [log[p]], total + log[p].packed)
            else r == (s.(place := At(|log| - 1), next := true), items)
  {
  }

  lemma {:induction false} AtPlace(m: M.Mgr, id: nat, place: Place, start: nat)
    requires InSession(m, id, place, start)
    ensures id in m.cursors && (m.cursors[id].state == BinLogCursor.Unseek <==> place == Unseek)
    ensures Moved(m, m, id)
  {
    assert m.cursors[id := m.cursors[id]] == m.cursors;
  }

  lemma {:induction false} MovedNot(m: M.Mgr, id: nat)
    requires id in m.cursors
    ensures Moved(m, m, id)
  {
    assert m.cursors[id := m.cursors[id]] == m.cursors;
  }

  lemma {:induction false} MovedTwice(a: M.Mgr, b: M.Mgr, c: M.Mgr, id: nat)
    requires Moved(a, b, id) && Moved(b, c, id)
    ensures Moved(a, c, id)
  {
    assert a.cursors[id := b.cursors[id]][id := c.cursors[id]] == a.cursors[id := c.cursors[id]];
  }

  lemma {:induction false} AboveSplits(log: seq<Item>, sid: nat)
    requires Ascending(log)
    ensures forall k :: 0 <= k < |log| ==> (log[k].sid > sid <==> k >= Above(log, sid))
    ensures sid >= MaxSid(log) ==> Above(log, sid) == |log|
  {
  }

  /** One connection of a session: the number of its last packet, and the last sid in it. */
  class DispHandler {
    const session: DispSession
    var sentSeq: nat
    var lastSid: nat

    constructor (s: DispSession)
      ensures session == s && sentSeq == 0 && lastSid == 0
    {
      session, sentSeq, lastSid := s, 0, 0;
    }

    /** What a call sends, and what it leaves, are those of the protocol. */
    ghost predicate Sent(before: Sender, seqNo: nat, lastSeq: nat, last: nat, sent: Option<Packet>)
      requires Placed(before, session.Log())
      reads this, session, session.mgr, session.mgr.files
    {
      var (s, items) := SyncSend(before, session.Log());
      && session.Value() == s
      && sent == (if items == [] then None else Some(Packet(seqNo, items)))
      && sentSeq == (if items == [] then lastSeq else seqNo)
      && lastSid == (if items == [] then last else MaxSid(items))
    }

    /** Sends the next packet of the session on this connection, if there is anything to send. */
    method SyncSendBinLog() returns (sent: Option<Packet>)
      requires session.Valid()
      modifies this, session, session.mgr`cursors
      ensures session.Valid() && Moved(old(session.mgr.Abs()), session.mgr.Abs(), session.id) && session.Log() == old(session.Log())
      ensures Sent(old(session.Value()), old(session.seqNo), old(sentSeq), old(lastSid), sent)
    {
      hide DispSession.Valid, BinLogMgr.Manager.Valid, BinLogMgr.Manager.Abs, LogOf, Pack, Moved, SeekToReport, DispSession.Log;
      sent := None;
      ghost var m := session.mgr.Abs();
      var found := session.SeekToReportSid();
      if found {
        ghost var before := session.mgr.Abs();
        var items := session.PackItems();
        MovedTwice(m, before, session.mgr.Abs(), session.id);
        if items != [] {
          sentSeq, lastSid := session.seqNo, items[|items| - 1].sid;
          sent := Some(Packet(session.seqNo, items));
          session.seqNo := session.seqNo + 1;
        }
      }
    }

    /** A reply: unless its number is wrong, the checkpoint is given the last sid and the next packet goes out. */
    method RecvReply(seqNo: nat) returns (logged: Option<nat>, sent: Option<Packet>)
      requires session.Valid()
      modifies this, session, session.mgr`cursors
      ensures session.Valid() && Moved(old(session.mgr.Abs()), session.mgr.Abs(), session.id) && session.Log() == old(session.Log())
      ensures logged == if seqNo == old(sentSeq) then Some(old(lastSid)) else None
      ensures seqNo != old(sentSeq) ==>
                session.Value() == old(session.Value()) && sent == None && sentSeq == old(sentSeq) && lastSid == old(lastSid)
      ensures seqNo == old(sentSeq) ==>
                Sent(old(session.Value()), old(session.seqNo), old(sentSeq), old(lastSid), sent)
    {
      hide DispSession.Valid, BinLogMgr.Manager.Valid, BinLogMgr.Manager.Abs, LogOf, SyncSend;
      MovedNot(session.mgr.Abs(), session.id);
      if seqNo != sentSeq {
        return None, None;
      }
      logged := Some(lastSid);
      sent := SyncSendBinLog();
    }
  }

  // ---------------------------------------------------------- what a packet holds

  /** A session never goes back: what a call sends lies at or after its place, also among records that are not good. */
  lemma {:induction false} NeverGoesBack(s: Sender, log: seq<Item>)
    requires Placed(s, log) && s.place.At?
    ensures var (r, items) := SyncSend(s, log);
            r.place.At? && Pending(s) <= Pending(r) && forall x :: x in items ==> x in log[Pending(s)..]
  {
    PackGoesOn(s, log, [], 0, Pending(s));
  }

  lemma {:induction false} PackGoesOn(s: Sender, log: seq<Item>, items: seq<Item>, total: nat, from: nat)
    requires s.place.At? && Placed(s, log) && from <= Pending(s)
    requires forall x :: x in items ==> x in log[from..]
    ensures var (r, taken) := Pack(s, log, items, total);
            Pending(s) <= Pending(r) && forall x :: x in taken ==> x in log[from..]
    decreases |log| - Pending(s)
  {
    hide Pack;
    PackStep(s, log, items, total);
    var p := Pending(s);
    if p < |log| && log[p].good {
      assert log[p] == log[from..][p - from];
      if s.chunk > 0 && total + log[p].packed < s.chunk {
        PackGoesOn(s.(place := At(p), next := true), log, items + [log[p]], total + log[p].packed, from);
      }
    }
  }

  /**
   * A session whose next record is good sends it. Any other makes it pass the whole log as it is then: neither
   * that record nor any behind it is ever sent by this session.
   */
  lemma {:induction false} BadRecordLosesRest(s: Sender, log: seq<Item>)
    requires Placed(s, log) && s.place.At? && Pending(s) < |log|
    ensures var (r, items) := SyncSend(s, log);
            && (items != [] <==> log[Pending(s)].good)
            && (items != [] ==> items[0] == log[Pending(s)])
            && (items == [] ==> Pending(r) == |log|)
  {
    if log[Pending(s)].good {
      var item := log[Pending(s)];
      assert [] + [item] == [item];
      PackStarts(s.(place := At(Pending(s)), next := true), log, [item], item.packed);
    }
  }

  lemma {:induction false} PackStarts(s: Sender, log: seq<Item>, items: seq<Item>, total: nat)
    requires s.place.At? && Placed(s, log)
    ensures items <= Pack(s, log, items, total).1
    decreases |log| - Pending(s)
  {
    var (s1, found) := ReplSpec.SeekToBinlog(s, log);
    if found {
      var item := log[s1.place.pos];
      PackStarts(s1.(next := true), log, items + [item], total + item.packed);
    }
  }

  function Size(items: seq<Item>): nat {
    if items == [] then 0 else Size(items[..|items| - 1]) + items[|items| - 1].packed
  }

  /**
   * A packet is the shortest run of pending records whose sizes reach the chunk size, or all that are
   * left if they do not; without a chunk size it is one record.
   */
  lemma {:induction false} PacketIsShortest(s: Sender, log: seq<Item>)
    requires LogOk(log) && Placed(s, log) && (s.place.At? || s.start < MaxSid(log))
    ensures var items := SyncSend(s, log).1;
            var from := if s.place.At? then Pending(s) else Above(log, s.start);
            && from + |items| <= |log| && items == log[from..from + |items|]
            && (items == [] <==> from == |log|)
            && (s.chunk == 0 && from < |log| ==> |items| == 1)
            && (s.chunk > 0 && items != [] ==> Size(items[..|items| - 1]) < s.chunk)
            && (s.chunk > 0 ==> Size(items) >= s.chunk || from + |items| == |log|)
  {
    hide Pack, LogOk, Size;
    SendTakes(s, log);
    NoSize();
    PackFills(SeekToReport(s, log).0, log, [], 0);
  }

  lemma {:induction false} NoSize()
    ensures Size([]) == 0
  {
  }

  /** The packing loop stops at the first record whose size makes the total reach the chunk size. */
  ghost predicate Filled(chunk: nat, taken: seq<Item>, atEnd: bool) {
    && (chunk == 0 ==> |taken| <= 1)
    && (chunk > 0 && taken != [] ==> Size(taken[..|taken| - 1]) < chunk)
    && (chunk > 0 ==> Size(taken) >= chunk || atEnd)
    && (taken == [] ==> atEnd)
  }

  lemma {:induction false} PackFills(s: Sender, log: seq<Item>, items: seq<Item>, total: nat)
    requires s.place.At? && Placed(s, log) && total == Size(items)
    requires items != [] ==> 0 < s.chunk && total < s.chunk
    ensures var (r, taken) := Pack(s, log, items, total);
            |items| <= |taken| && Filled(s.chunk, taken, Pending(r) == |log|)
    decreases |log| - Pending(s)
  {
    var (s1, found) := SeekToBinlog(s, log);
    if found {
      hide Filled, SeekToBinlog;
      var item := log[s1.place.pos];
      SizeSnoc(items, item);
      if s.chunk > 0 && total + item.packed < s.chunk {
        PackFills(s1.(next := true), log, items + [item], total + item.packed);
      } else {
        OneMoreFills(s.chunk, items, item, Pending(s1.(next := true)) == |log|);
      }
    } else {
      NoneMore(s.chunk, items);
    }
  }

  lemma {:induction false} SizeSnoc(items: seq<Item>, item: Item)
    ensures Size(items + [item]) == Size(items) + item.packed
  {
    assert (items + [item])[..|items|] == items;
  }

  lemma {:induction false} OneMoreFills(chunk: nat, items: seq<Item>, item: Item, atEnd: bool)
    requires items != [] ==> 0 < chunk && Size(items) < chunk
    requires chunk > 0 ==> Size(items + [item]) >= chunk
    ensures Filled(chunk, items + [item], atEnd)
  {
    assert (items + [item])[..|items|] == items;
  }

  lemma {:induction false} NoneMore(chunk: nat, items: seq<Item>)
    requires items != [] ==> 0 < chunk && Size(items) < chunk
    ensures Filled(chunk, items, true)
  {
  }
}
