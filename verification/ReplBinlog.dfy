// The sender's cursor over the flat log is a cursor of the binlog manager: its seek, next and fetch give the
// places and records the replication works with, and the operations of others leave it where it is.
module ReplBinlog {
  import opened BinLogFormat
  import opened BinLogCursor
  import opened MgrSpec
  import opened MgrInvariant
  import opened MgrCursors
  import opened MgrRuns
  import opened Bytes
  import L = FlatLog

  /** How a record's entry is packed, and whether its data can be unpacked; from its sid, timestamp and data. */
  type Reader = (nat, nat, seq<byte>) -> (nat, bool)

  function ItemFor(reader: Reader, h: Header, data: seq<byte>): L.Item {
    var (packed, good) := reader(h.sid, h.datetime, data);
    L.Item(h.sid, h.datetime, data, packed, good)
  }

  /** The log that is shipped is the manager's history, record by record. */
  function LogOf(reader: Reader, history: seq<Record>): (log: seq<L.Item>)
    ensures |log| == |history|
    ensures forall i :: 0 <= i < |log| ==> log[i] == ItemFor(reader, history[i].h, history[i].data)
  {
    seq(|history|, i requires 0 <= i < |history| => ItemFor(reader, history[i].h, history[i].data))
  }

  /** The manager's cursor is where the sender takes it to be. */
  predicate IsAt(m: Mgr, c: CursorV, place: L.Place) {
    match place
    case Unseek => c.state == Unseek
    case At(pos) => c.state == Ready && Stands(m.files, c) && Position(m, c) == pos
  }

  /** A session's cursor: not yet sought, with nothing dropped that it wants, or on its place of the log. */
  ghost predicate InSession(m: Mgr, id: nat, place: L.Place, start: nat) {
    && WellFormed(m) && m.valid && id in m.cursors && IsAt(m, m.cursors[id], place)
    && (place.At? ==> place.pos < |History(m)|)
    && (place == L.Unseek ==> m.cursors[id].seekSid == start && UpTo(Gone(m), start))
  }

  predicate UpTo(recs: seq<Record>, sid: nat) {
    forall p :: 0 <= p < |recs| ==> recs[p].h.sid <= sid
  }

  lemma {:induction false} LogAscends(reader: Reader, history: seq<Record>)
    requires Ascending(history)
    ensures L.Ascending(LogOf(reader, history))
  {
    var log := LogOf(reader, history);
    assert forall i :: 0 <= i < |log| ==> log[i].sid == history[i].h.sid;
  }

  lemma {:induction false} LogGrows(reader: Reader, before: seq<Record>, after: seq<Record>)
    requires before <= after
    ensures LogOf(reader, before) <= LogOf(reader, after)
  {
  }

  lemma {:induction false} AboveIsUpper(reader: Reader, history: seq<Record>, sid: nat)
    requires Ascending(history)
    ensures L.Above(LogOf(reader, history), sid) == UpperIndex(history, sid)
  {
    var log := LogOf(reader, history);
    assert forall i :: 0 <= i < |log| ==> log[i].sid == history[i].h.sid;
    L.AboveIs(log, sid, UpperIndex(history, sid));
  }

  lemma {:induction false} HistoryAscends(m: Mgr)
    requires WellFormed(m) && m.valid
    ensures Ascending(History(m))
  {
    hide Flat, Laid;
    if m.files == [] {
      FlatOfNone();
    }
  }

  lemma {:induction false} NewestSid(reader: Reader, m: Mgr)
    requires WellFormed(m) && m.valid
    ensures L.MaxSid(LogOf(reader, History(m))) == m.maxSid
  {
    hide Laid;
    if m.files == [] {
      FlatOfNone();
    }
  }

  /**
   * Seeking the manager's cursor for a session puts it on the oldest managed record above the start sid. That
   * is the first record of the whole log above it if and only if no record above it has been dropped.
   */
  lemma {:induction false} SeekLands(reader: Reader, m: Mgr, c: CursorV, start: nat)
    requires WellFormed(m) && m.valid
    ensures var log := LogOf(reader, History(m));
            var p := |Gone(m)| + UpperIndex(Flat(m.files), start);
            && L.MaxSid(log) == m.maxSid && L.Ascending(log)
            && (start < m.maxSid ==> SeekStep(m, c, start).1 == Success && IsAt(m, SeekStep(m, c, start).0, L.At(p)))
            && (p == L.Above(log, start) <==> UpTo(Gone(m), start))
  {
    hide Laid, Flat, Stands, FilesOk, Ascending, SeekStep, UpperIndex, L.Above, UpTo;
    NewestSid(reader, m);
    HistoryAscends(m);
    LogAscends(reader, History(m));
    AboveIsUpper(reader, History(m), start);
    SeekFinds(m, c, start);
    if start < m.maxSid {
      NewestManaged(m, start);
    }
    DroppedAbove(Gone(m), Flat(m.files), start);
  }

  lemma {:induction false} NewestManaged(m: Mgr, sid: nat)
    requires WellFormed(m) && m.valid && sid < m.maxSid
    ensures UpperIndex(Flat(m.files), sid) < |Flat(m.files)|
  {
    hide Laid;
    var n := |m.files| - 1;
    assert Flat(m.files) == Flat(m.files[..n]) + Current(m).recs;
    var all := Flat(m.files);
    assert History(m)[|History(m)| - 1] == all[|all| - 1];
  }

  /** Where the search over all records ends, compared to that over the later ones. */
  lemma {:induction false} DroppedAbove(gone: seq<Record>, kept: seq<Record>, sid: nat)
    requires Ascending(gone + kept)
    ensures |gone| + UpperIndex(kept, sid) == UpperIndex(gone + kept, sid) <==> UpTo(gone, sid)
  {
    var all, u := gone + kept, UpperIndex(gone + kept, sid);
    if UpTo(gone, sid) {
      UpperInOrder(all, sid, |gone| + UpperIndex(kept, sid));
    } else {
      var p :| 0 <= p < |gone| && gone[p].h.sid > sid;
      assert all[p] == gone[p];
      assert u <= p;
    }
  }

  /** Moving the manager's cursor on takes it to the next record of the log, or it stays at the end. */
  lemma {:induction false} NextLands(m: Mgr, c: CursorV, p: nat)
    requires WellFormed(m) && m.valid && IsAt(m, c, L.At(p))
    ensures p < |History(m)|
    ensures var (c', res) := NextStep(m, c, OpenFile(m, c));
            if p + 1 < |History(m)| then res == Success && IsAt(m, c', L.At(p + 1)) else res == End && c' == c
  {
    hide Laid, Flat, FilesOk, Ascending, NextStep, History, Stands;
    NextMoves(m, c);
    PlaceInHistory(m, c);
  }

  /** The record under the cursor, header and data, is the one of the log. */
  lemma {:induction false} FetchLands(reader: Reader, m: Mgr, c: CursorV, p: nat)
    requires WellFormed(m) && m.valid && IsAt(m, c, L.At(p))
    ensures p < |History(m)|
    ensures var (c', r) := FetchStep(m, c, c.header.logLen, OpenFile(m, c));
            c' == c && r.Fetched? && ItemFor(reader, c.header, r.data) == LogOf(reader, History(m))[p]
  {
    hide Laid, Flat, FilesOk, Ascending, FetchStep, History, Stands;
    FetchReads(m, c, c.header.logLen);
    PlaceInHistory(m, c);
  }

  // ------------------------------------------------- the session's own operations

  /** Only this cursor has changed. */
  predicate Moved(m: Mgr, r: Mgr, id: nat) {
    id in m.cursors && id in r.cursors && r == m.(cursors := m.cursors[id := r.cursors[id]])
  }

  lemma {:induction false} SameHistory(m: Mgr, r: Mgr, id: nat)
    requires Moved(m, r, id)
    ensures History(r) == History(m) && r.valid == m.valid && r.maxSid == m.maxSid
  {
  }

  lemma {:induction false} AfterSeek(reader: Reader, m: Mgr, id: nat, start: nat)
    requires InSession(m, id, L.Unseek, start)
    ensures var log := LogOf(reader, History(m));
            L.Ascending(log) && L.MaxSid(log) == m.maxSid
    ensures start < m.maxSid ==>
              var (r, res) := Step(m, SeekOp(id, start));
              var log := LogOf(reader, History(m));
              var u := L.Above(log, start);
              && res == Success && Moved(m, r, id) && u < |log|
              && InSession(r, id, L.At(u), start) && r.cursors[id].header.sid == log[u].sid
  {
    hide Laid, Flat, Stands, FilesOk, WellFormed, Ascending, SeekStep, History, UpTo, L.Above;
    SeekLands(reader, m, m.cursors[id], start);
    if start < m.maxSid {
      StepKeepsWellFormed(m, SeekOp(id, start));
      var r := Step(m, SeekOp(id, start)).0;
      SamePosition(m, r, r.cursors[id]);
      PlaceInHistory(m, r.cursors[id]);
    }
  }

  /** Where a cursor stands does not depend on the cursors registered. */
  lemma {:induction false} SamePosition(m: Mgr, r: Mgr, c: CursorV)
    requires r == m.(cursors := r.cursors)
    ensures History(r) == History(m) && Gone(r) == Gone(m)
    ensures forall place :: IsAt(r, c, place) <==> IsAt(m, c, place)
  {
  }

  lemma {:induction false} AfterNext(reader: Reader, m: Mgr, id: nat, p: nat, start: nat)
    requires InSession(m, id, L.At(p), start)
    ensures var (r, res) := Step(m, NextOp(id));
            var log := LogOf(reader, History(m));
            && p < |log| && Moved(m, r, id)
            && res == (if p + 1 < |log| then Success else End)
            && InSession(r, id, L.At(if p + 1 < |log| then p + 1 else p), start)
  {
    hide Laid, Flat, Stands, FilesOk, WellFormed, Ascending, NextStep, History, UpTo;
    NextLands(m, m.cursors[id], p);
    StepKeepsWellFormed(m, NextOp(id));
    var r := Step(m, NextOp(id)).0;
    SamePosition(m, r, r.cursors[id]);
  }

  lemma {:induction false} AfterFetch(reader: Reader, m: Mgr, id: nat, p: nat, start: nat)
    requires InSession(m, id, L.At(p), start)
    ensures var c := m.cursors[id];
            var (d, r) := FetchStep(m, c, c.header.logLen, OpenFile(m, c));
            && p < |LogOf(reader, History(m))| && m.(cursors := m.cursors[id := d]) == m
            && r.Fetched? && ItemFor(reader, c.header, r.data) == LogOf(reader, History(m))[p]
  {
    hide Laid, Flat, Stands, FilesOk, WellFormed, Ascending, FetchStep, History, UpTo;
    FetchLands(reader, m, m.cursors[id], p);
    assert m.cursors[id := m.cursors[id]] == m.cursors;
  }

  // --------------------------------------------------- the operations of others

  /** None of the operations moves the cursor: not next, seek, prev or destroy of it, nor a crash. */
  predicate NotOn(ops: seq<Op>, id: nat) {
    OnlyNext(ops, id) && forall i :: 0 <= i < |ops| ==> ops[i] != NextOp(id)
  }

  lemma {:induction false} NoneVisited(m: Mgr, ops: seq<Op>, id: nat)
    requires NotOn(ops, id)
    ensures Visited(m, ops, id) == []
    decreases |ops|
  {
    if ops != [] {
      hide Step;
      NoneVisited(Step(m, ops[0]).0, ops[1..], id);
    }
  }

  /**
   * Whatever others do between two calls of the sender, appends, rollovers with evictions and operations on
   * other cursors, the session's cursor keeps its place in a log that has only grown.
   */
  lemma {:induction false} OthersKeepSession(reader: Reader, m: Mgr, ops: seq<Op>, id: nat, place: L.Place, start: nat)
    requires InSession(m, id, place, start) && ProperRun(m, ops) && NotOn(ops, id) && Run(m, ops).valid
    ensures InSession(Run(m, ops), id, place, start)
    ensures LogOf(reader, History(m)) <= LogOf(reader, History(Run(m, ops)))
  {
    hide Laid, Flat, FilesOk, Ascending, Stands, WellFormed, ProperRun, Visited, Run, UpTo;
    RunKeepsWellFormed(m, ops);
    var r := Run(m, ops);
    HistoryGrows(m, ops);
    LogGrows(reader, History(m), History(r));
    match place {
      case Unseek =>
        UnsoughtStays(m, ops, id);
        RunDropsOnlyRead(m, ops, id);
        UpToMore(Gone(m), Gone(r), start);
      case At(pos) =>
        CursorReadsEverything(m, ops, id);
        NoneVisited(m, ops, id);
    }
  }

  lemma {:induction false} UpToMore(before: seq<Record>, after: seq<Record>, sid: nat)
    requires before <= after && UpTo(before, sid) && Passed(after[|before|..], sid)
    ensures UpTo(after, sid)
  {
    forall p | 0 <= p < |after|
      ensures after[p].h.sid <= sid
    {
      assert p < |before| ==> after[p] == before[p];
      assert p >= |before| ==> after[p] == after[|before|..][p - |before|];
    }
  }

  /** Without crashes the history only grows. */
  lemma {:induction false} HistoryGrows(m: Mgr, ops: seq<Op>)
    requires WellFormed(m) && ProperRun(m, ops) && Run(m, ops).valid
    requires forall i :: 0 <= i < |ops| ==> !ops[i].CrashOp?
    ensures m.valid && History(m) <= History(Run(m, ops))
    decreases |ops|
  {
    hide Laid, Flat, FilesOk, Ascending, Stands, WellFormed, SeekStep, NextStep, PrevStep, AppendStep, History;
    ValidFromStart(m, ops);
    if ops != [] {
      var r := Step(m, ops[0]).0;
      StepKeepsWellFormed(m, ops[0]);
      ValidFromStart(r, ops[1..]);
      HistoryGrows(r, ops[1..]);
      StepGrowsHistory(m, ops[0]);
    }
  }

  lemma {:induction false} StepGrowsHistory(m: Mgr, op: Op)
    requires WellFormed(m) && m.valid && Proper(m, op) && !op.CrashOp? && Step(m, op).0.valid
    ensures History(m) <= History(Step(m, op).0)
  {
    hide Laid, Flat, FilesOk, Ascending, Stands, WellFormed, SeekStep, NextStep, PrevStep, AppendStep;
    match op {
      case AppendOp(q) => AppendGrows(m, q);
      case _ =>
    }
  }
}
