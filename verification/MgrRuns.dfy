// Whole runs of the manager: any number of appends, rollovers, cursor operations and crashes in any order.
module MgrRuns {
  import opened Bytes
  import opened BinLogFormat
  import opened BinLogCursor
  import opened BinLogRecovery
  import opened MgrSpec
  import opened MgrInvariant
  import opened MgrCursors
  import opened MgrReopen

  datatype Op =
    | AppendOp(q: Request)
    | CreateOp(id: nat, sid: nat)
    | SeekOp(id: nat, sid: nat)
    | NextOp(id: nat)
    | PrevOp(id: nat)
    | DestroyOp(id: nat)
    | CrashOp(kept: nat, next: Record, torn: seq<byte>)

  function NewCursor(sid: nat): CursorV {
    CursorV(Unseek, sid, 0, Header(0, 0, 0, 0, 0, 0, 0))
  }

  function Step(m: Mgr, op: Op): (Mgr, Result) {
    match op
    case AppendOp(q) => var (r, ok) := AppendStep(m, q); (r, if ok then Success else Failure)
    case CreateOp(id, sid) =>
      if id in m.cursors then (m, Failure) else (m.(cursors := m.cursors[id := NewCursor(sid)]), Success)
    case SeekOp(id, sid) =>
      if id !in m.cursors then (m, Failure)
      else var (c, res) := SeekStep(m, m.cursors[id], sid); (m.(cursors := m.cursors[id := c]), res)
    case NextOp(id) =>
      if id !in m.cursors then (m, Failure)
      else
        var (c, res) := NextStep(m, m.cursors[id], OpenFile(m, m.cursors[id]));
        (m.(cursors := m.cursors[id := c]), res)
    case PrevOp(id) =>
      if id !in m.cursors then (m, Failure)
      else
        var (c, res) := PrevStep(m, m.cursors[id], OpenFile(m, m.cursors[id]));
        (m.(cursors := m.cursors[id := c]), res)
    case DestroyOp(id) =>
      if id in m.cursors then (m.(cursors := m.cursors - {id}), Success) else (m, Failure)
    case CrashOp(kept, next, torn) =>
      if m.files == [] then (m.(cursors := map[]), Success)
      else if kept > |Current(m).recs| then (m, Failure)
      else (Reopened(m, kept, next, torn), Success)
  }

  function Run(m: Mgr, ops: seq<Op>): Mgr
    decreases |ops|
  {
    if ops == [] then m else Run(Step(m, ops[0]).0, ops[1..])
  }

  /** The headers a cursor is moved to by the successful next operations of a run. */
  function Visited(m: Mgr, ops: seq<Op>, id: nat): seq<Header>
    decreases |ops|
  {
    if ops == [] then []
    else
      var (r, res) := Step(m, ops[0]);
      (if ops[0] == NextOp(id) && res == Success && id in r.cursors then [r.cursors[id].header] else [])
      + Visited(r, ops[1..], id)
  }

  /**
   * What callers must respect: field widths, no sid 0 on an empty manager, no step back past the oldest
   * record. A crash leaves what it can leave, and does not make the manager forget its sids.
   */
  predicate Proper(m: Mgr, op: Op) {
    match op
    case AppendOp(q) => Fits(q) && !(m.valid && m.files == [] && q.sid == 0)
    case PrevOp(id) => Step(m, op).1 != Undefined
    case CrashOp(kept, next, torn) =>
      m.valid && (m.files != [] ==> Interrupted(m, kept, next, torn) && !Forgotten(m, kept, torn))
    case _ => true
  }

  predicate ProperRun(m: Mgr, ops: seq<Op>)
    decreases |ops|
  {
    ops != [] ==> Proper(m, ops[0]) && ProperRun(Step(m, ops[0]).0, ops[1..])
  }

  /** The operation leaves cursor `id` alone, except that it may be next. */
  predicate Spares(op: Op, id: nat) {
    match op
    case SeekOp(k, _) => k != id
    case PrevOp(k) => k != id
    case DestroyOp(k) => k != id
    case CrashOp(_, _, _) => false
    case _ => true
  }

  predicate OnlyNext(ops: seq<Op>, id: nat) {
    forall i :: 0 <= i < |ops| ==> Spares(ops[i], id)
  }

  // ------------------------------------------------------------------- one step

  /** The cursor fields are the only ones a cursor operation changes. */
  lemma {:induction false} CursorStep(m: Mgr, id: nat, c: CursorV)
    requires WellFormed(m) && m.valid
    requires c.state == Ready ==> Stands(m.files, c)
    ensures WellFormed(m.(cursors := m.cursors[id := c]))
  {
    hide Laid, Flat, Stands, FilesOk, Ascending;
  }

  lemma {:induction false} FailedStays(m: Mgr, op: Op)
    requires WellFormed(m) && !m.valid && !op.CrashOp?
    ensures WellFormed(Step(m, op).0) && !Step(m, op).0.valid
  {
  }

  /** Every proper operation keeps the manager well-formed. */
  lemma {:induction false} StepKeepsWellFormed(m: Mgr, op: Op)
    requires WellFormed(m) && Proper(m, op)
    ensures WellFormed(Step(m, op).0)
  {
    hide Laid, Flat, Stands, FilesOk, Ascending, SeekStep, NextStep, PrevStep, AppendStep, MovedBy;
    if !m.valid {
      FailedStays(m, op);
    } else {
      match op {
        case AppendOp(q) => AppendKeepsWellFormed(m, q);
        case CreateOp(id, sid) =>
          if id !in m.cursors {
            CursorStep(m, id, NewCursor(sid));
          }
        case SeekOp(id, sid) =>
          if id in m.cursors {
            SeekFinds(m, m.cursors[id], sid);
            CursorStep(m, id, SeekStep(m, m.cursors[id], sid).0);
          }
        case NextOp(id) =>
          if id in m.cursors {
            NextKeepsPlace(m, m.cursors[id]);
            CursorStep(m, id, NextStep(m, m.cursors[id], OpenFile(m, m.cursors[id])).0);
          }
        case PrevOp(id) =>
          if id in m.cursors {
            PrevKeepsPlace(m, m.cursors[id]);
            CursorStep(m, id, PrevStep(m, m.cursors[id], OpenFile(m, m.cursors[id])).0);
          }
        case DestroyOp(id) =>
        case CrashOp(kept, next, torn) => CrashKeeps(m, kept, next, torn);
      }
    }
  }

  lemma {:induction false} CrashKeeps(m: Mgr, kept: nat, next: Record, torn: seq<byte>)
    requires WellFormed(m) && Proper(m, CrashOp(kept, next, torn))
    ensures WellFormed(Step(m, CrashOp(kept, next, torn)).0)
  {
    hide Laid, Flat, FilesOk, Ascending, Interrupted, Forgotten, Reopened;
    if m.files != [] {
      InterruptedIs(m, kept, next, torn);
      OpenIsSound(m);
      ReopenedKeeps(m, kept, next, torn);
    }
  }

  /**
   * What a crash takes: the cursors, and of the records those of the current file from number `kept` on. A torn
   * record whose header is whole stays, its data padded with zeros.
   */
  lemma {:induction false} CrashTakes(m: Mgr, kept: nat, next: Record, torn: seq<byte>)
    requires WellFormed(m) && m.files != [] && Proper(m, CrashOp(kept, next, torn))
    ensures var (r, res) := Step(m, CrashOp(kept, next, torn));
            var n := |History(m)| - (|Current(m).recs| - kept);
            && 0 <= n <= |History(m)| && res == Success && r.valid && r.cursors == map[] && r.limits == m.limits
            && (|torn| < 32 ==> History(r) == History(m)[..n])
            && (|torn| >= 32 ==>
                  && |History(r)| == n + 1 && History(r)[..n] == History(m)[..n]
                  && History(r)[n].h == next.h && PaddedTo(torn[32..], History(r)[n].data, next.h.logLen))
  {
    hide Laid, Flat, FilesOk, Ascending, Forgotten, Reopened, Salvage, History;
    CurrentEndsHistory(m);
    ReopenedHistory(m, kept, next, torn);
    SalvageIs(next, torn);
    ReopenedFields(m, kept, next, torn);
    var left := LeftOf(m, kept);
    assert left + [] == left;
    assert |torn| >= 32 ==> (left + Salvage(next, torn))[..|left|] == left;
  }

  predicate PaddedTo(torn: seq<byte>, data: seq<byte>, n: nat) {
    |data| == n && |torn| <= n && torn <= data && forall i :: |torn| <= i < n ==> data[i] == 0
  }

  lemma {:induction false} SalvageIs(next: Record, torn: seq<byte>)
    requires torn < RecordBytes(next) && |next.data| == next.h.logLen
    ensures |torn| < 32 ==> Salvage(next, torn) == []
    ensures |torn| >= 32 ==>
              |Salvage(next, torn)| == 1 && Salvage(next, torn)[0].h == next.h
              && PaddedTo(torn[32..], Salvage(next, torn)[0].data, next.h.logLen)
  {
  }

  lemma {:induction false} ReopenedFields(m: Mgr, kept: nat, next: Record, torn: seq<byte>)
    requires m.files != [] && kept <= |Current(m).recs|
    ensures var r := Reopened(m, kept, next, torn); r.valid && r.cursors == map[] && r.limits == m.limits
  {
  }

  /** What the other operations answer: an append whether its record was added, and a cursor is there from create to destroy. */
  lemma {:induction false} Answers(m: Mgr, op: Op)
    requires WellFormed(m) && Proper(m, op)
    ensures var (r, res) := Step(m, op);
            && (op.AppendOp? ==>
                  if res == Success then AddsOne(History(m), History(r), op.q)
                  else res == Failure && History(r) == History(m))
            && (op.AppendOp? ==> (res == Success <==> m.valid && op.q.sid > m.maxSid && !TooLarge(m.limits, |op.q.data|)))
            && (op.CreateOp? ==>
                  && (res == Success <==> op.id !in m.cursors)
                  && r == m.(cursors := if op.id in m.cursors then m.cursors
                                        else m.cursors[op.id := CursorV(Unseek, op.sid, 0, Header(0, 0, 0, 0, 0, 0, 0))]))
            && (op.DestroyOp? ==>
                  && (res == Success <==> op.id in m.cursors)
                  && r == m.(cursors := r.cursors) && op.id !in r.cursors
                  && forall k :: k != op.id ==> (k in r.cursors <==> k in m.cursors) && (k in m.cursors ==> r.cursors[k] == m.cursors[k]))
  {
    hide Laid, Flat, Ascending, FilesOk, CursorsOk, AddsOne, History, Store, Roll, TooLarge, AppendStep;
    if op.AppendOp? {
      AppendAnswers(m, op.q);
    }
  }

  lemma {:induction false} AppendAnswers(m: Mgr, q: Request)
    requires WellFormed(m) && Proper(m, AppendOp(q))
    ensures var (r, ok) := AppendStep(m, q);
            && (ok ==> AddsOne(History(m), History(r), q)) && (!ok ==> History(r) == History(m))
            && (ok <==> m.valid && q.sid > m.maxSid && !TooLarge(m.limits, |q.data|))
  {
    hide Laid, Flat, Ascending, FilesOk, CursorsOk, AddsOne, History, Store, Roll, TooLarge;
    if m.valid {
      if q.sid <= m.maxSid {
        AppendTurnedDown(m, q);
      } else if TooLarge(m.limits, |q.data|) {
        AppendFails(m, q);
      } else {
        AppendOutcome(m, q);
      }
    }
  }

  lemma {:induction false} NextKeepsPlace(m: Mgr, c: CursorV)
    requires WellFormed(m) && m.valid
    requires c.state == Ready ==> Stands(m.files, c)
    ensures var c' := NextStep(m, c, OpenFile(m, c)).0; c'.state == Ready ==> Stands(m.files, c')
  {
    if c.state == Ready {
      NextMoves(m, c);
    }
  }

  lemma {:induction false} PrevKeepsPlace(m: Mgr, c: CursorV)
    requires WellFormed(m) && m.valid
    requires c.state == Ready ==> Stands(m.files, c)
    requires PrevStep(m, c, OpenFile(m, c)).1 != Undefined
    ensures var c' := PrevStep(m, c, OpenFile(m, c)).0; c'.state == Ready ==> Stands(m.files, c')
  {
    if c.state == Ready {
      PrevMoves(m, c);
    }
  }

  /** In a history that only grows a record keeps its place. */
  lemma {:induction false} SamePlace(m: Mgr, r: Mgr, c: CursorV)
    requires WellFormed(m) && m.valid && WellFormed(r) && r.valid
    requires History(m) <= History(r)
    requires Stands(m.files, c) && Stands(r.files, c)
    ensures Position(m, c) == Position(r, c)
  {
    hide Laid, Flat, Stands;
    var i, j := WhereItStands(m, c);
    var k, l := WhereItStands(r, c);
    assert History(r)[Position(m, c)] == History(m)[Position(m, c)];
    OnePlacePerSid(History(r), Position(m, c), Position(r, c));
  }

  lemma {:induction false} OnePlacePerSid(recs: seq<Record>, p: nat, q: nat)
    requires Ascending(recs) && p < |recs| && q < |recs|
    requires recs[p].h.sid == recs[q].h.sid
    ensures p == q
  {
  }

  lemma {:induction false} AppendGrows(m: Mgr, q: Request)
    requires WellFormed(m) && Proper(m, AppendOp(q))
    requires AppendStep(m, q).0.valid
    ensures m.valid && History(m) <= History(AppendStep(m, q).0)
    ensures AppendStep(m, q).0.cursors == m.cursors
  {
    hide Laid, Flat, Stands, FilesOk, Ascending, AddsOne, History, AppendStep;
    if m.valid {
      if q.sid > m.maxSid {
        AppendOutcome(m, q);
        AddsOneGrows(History(m), History(AppendStep(m, q).0), q);
      } else {
        AppendTurnedDown(m, q);
      }
    }
  }

  lemma {:induction false} AddsOneGrows(before: seq<Record>, after: seq<Record>, q: Request)
    requires AddsOne(before, after, q)
    ensures before <= after
  {
  }

  /** What one operation of a run does to a ready cursor it spares: next moves it by one, nothing else moves it. */
  lemma {:induction false} StepEffect(m: Mgr, op: Op, id: nat)
    requires WellFormed(m) && Proper(m, op) && Spares(op, id)
    requires id in m.cursors && m.cursors[id].state == Ready
    requires Step(m, op).0.valid
    ensures m.valid && Stands(m.files, m.cursors[id])
    ensures var (r, res) := Step(m, op);
            && History(m) <= History(r)
            && id in r.cursors && r.cursors[id].state == Ready && Stands(r.files, r.cursors[id])
            && Position(r, r.cursors[id]) ==
               Position(m, m.cursors[id]) + if op == NextOp(id) && res == Success then 1 else 0
  {
    hide Laid, Flat, Stands, FilesOk, Ascending, SeekStep, NextStep, PrevStep, AppendStep;
    var r := Step(m, op).0;
    StepKeepsWellFormed(m, op);
    match op {
      case AppendOp(q) =>
        AppendGrows(m, q);
        SamePlace(m, r, m.cursors[id]);
      case NextOp(k) =>
        if k == id {
          NextMoves(m, m.cursors[id]);
        }
      case _ =>
    }
  }

  /** A failed manager stays failed. */
  lemma {:induction false} ValidFromStart(m: Mgr, ops: seq<Op>)
    requires WellFormed(m) && ProperRun(m, ops) && Run(m, ops).valid
    ensures m.valid
    decreases |ops|
  {
    if ops != [] {
      StepKeepsWellFormed(m, ops[0]);
      ValidFromStart(Step(m, ops[0]).0, ops[1..]);
      if !m.valid {
        FailedStays(m, ops[0]);
      }
    }
  }

  /** Well-formedness holds after every run. */
  lemma {:induction false} RunKeepsWellFormed(m: Mgr, ops: seq<Op>)
    requires WellFormed(m) && ProperRun(m, ops)
    ensures WellFormed(Run(m, ops))
    decreases |ops|
  {
    if ops != [] {
      StepKeepsWellFormed(m, ops[0]);
      RunKeepsWellFormed(Step(m, ops[0]).0, ops[1..]);
    }
  }

  /** `visited` are the headers of the records of `log` from `from` on. */
  predicate Reads(visited: seq<Header>, log: seq<Record>, from: nat) {
    && from + |visited| <= |log|
    && forall k :: 0 <= k < |visited| ==> visited[k] == log[from + k].h
  }

  /**
   * Cursor completeness: over any run the records a ready cursor is moved to by its successful nexts are
   * exactly those that follow it in the history, in order and once each, whatever appends, rollovers,
   * evictions and other cursors' operations come in between.
   */
  lemma {:induction false} CursorReadsEverything(m: Mgr, ops: seq<Op>, id: nat)
    requires WellFormed(m) && ProperRun(m, ops) && OnlyNext(ops, id)
    requires id in m.cursors && m.cursors[id].state == Ready && Stands(m.files, m.cursors[id])
    requires Run(m, ops).valid
    ensures var r := Run(m, ops);
            && History(m) <= History(r)
            && id in r.cursors && r.cursors[id].state == Ready && Stands(r.files, r.cursors[id])
            && Position(r, r.cursors[id]) == Position(m, m.cursors[id]) + |Visited(m, ops, id)|
            && Reads(Visited(m, ops, id), History(r), Position(m, m.cursors[id]) + 1)
    decreases |ops|
  {
    hide Laid, Flat, Stands, FilesOk, Ascending, Step, History;
    if ops == [] {
      RunKeepsWellFormed(m, ops);
      ValidFromStart(m, ops);
      PlaceInHistory(m, m.cursors[id]);
    } else {
      var (r, res) := Step(m, ops[0]);
      StepKeepsWellFormed(m, ops[0]);
      ValidFromStart(r, ops[1..]);
      StepEffect(m, ops[0], id);
      CursorReadsEverything(r, ops[1..], id);
      PlaceInHistory(r, r.cursors[id]);
      ReadsOneMore(m, ops, id);
    }
  }

  lemma {:induction false} PlaceInHistory(m: Mgr, c: CursorV)
    requires WellFormed(m) && m.valid && Stands(m.files, c)
    ensures Position(m, c) < |History(m)| && History(m)[Position(m, c)].h == c.header
  {
    var i, j := WhereItStands(m, c);
  }

  lemma {:induction false} ReadsOneMore(m: Mgr, ops: seq<Op>, id: nat)
    requires ops != []
    ensures var (r, res) := Step(m, ops[0]);
            Visited(m, ops, id) ==
            (if ops[0] == NextOp(id) && res == Success && id in r.cursors then [r.cursors[id].header] else [])
            + Visited(r, ops[1..], id)
  {
  }

  /** Every record up to the first above `sid` that a seek may have lost is one it did not want. */
  lemma {:induction false} UpperInHistory(m: Mgr, sid: nat)
    requires WellFormed(m) && m.valid
    requires forall p :: 0 <= p < |Gone(m)| ==> Gone(m)[p].h.sid <= sid
    ensures UpperIndex(History(m), sid) == |Gone(m)| + UpperIndex(Flat(m.files), sid)
  {
    hide Flat, Laid;
    var u := UpperIndex(Flat(m.files), sid);
    if m.files == [] {
      assert Flat(m.files) == [] && History(m) == [] by {
        FlatOfNone();
      }
    } else {
      UpperInOrder(History(m), sid, |Gone(m)| + u);
    }
  }

  /**
   * After a successful seek the record the cursor is on, followed by those its nexts move it to, are
   * exactly the retained log's records above the sid, in order and once each; the next answer "at end"
   * means that none is missing. Nothing is skipped of the whole history either, unless a file with a
   * record above the sid was dropped before the seek.
   */
  lemma {:induction false} SeekThenRead(m: Mgr, id: nat, sid: nat, ops: seq<Op>)
    requires WellFormed(m) && id in m.cursors
    requires Step(m, SeekOp(id, sid)).1 == Success
    requires var m1 := Step(m, SeekOp(id, sid)).0;
             ProperRun(m1, ops) && OnlyNext(ops, id) && Run(m1, ops).valid
    ensures var m1 := Step(m, SeekOp(id, sid)).0;
            var r, from := Run(m1, ops), |Gone(m)| + UpperIndex(Flat(m.files), sid);
            var read := [m1.cursors[id].header] + Visited(m1, ops, id);
            && Reads(read, History(r), from)
            && (Step(r, NextOp(id)).1 == End <==> from + |read| == |History(r)|)
            && ((forall p :: 0 <= p < |Gone(m)| ==> Gone(m)[p].h.sid <= sid) ==> from == UpperIndex(History(m), sid))
  {
    hide Laid, Flat, Stands, FilesOk, Ascending, Step, Position, History, UpperIndex, Visited;
    var m1 := Step(m, SeekOp(id, sid)).0;
    var r := Run(m1, ops);
    StepKeepsWellFormed(m, SeekOp(id, sid));
    SeekSucceeds(m, id, sid);
    CursorReadsEverything(m1, ops, id);
    RunKeepsWellFormed(m1, ops);
    PlaceInHistory(m1, m1.cursors[id]);
    PlaceInHistory(r, r.cursors[id]);
    EndReported(r, id);
    if forall p :: 0 <= p < |Gone(m)| ==> Gone(m)[p].h.sid <= sid {
      UpperInHistory(m, sid);
    }
  }

  /** "At end" is answered exactly when the cursor is on the newest record. */
  lemma {:induction false} EndReported(m: Mgr, id: nat)
    requires WellFormed(m) && m.valid && id in m.cursors
    requires m.cursors[id].state == Ready && Stands(m.files, m.cursors[id])
    ensures Step(m, NextOp(id)).1 == End <==> Position(m, m.cursors[id]) + 1 == |History(m)|
  {
    hide Laid, Flat, Stands, NextStep;
    PlaceInHistory(m, m.cursors[id]);
    NextMoves(m, m.cursors[id]);
  }

  lemma {:induction false} SeekSucceeds(m: Mgr, id: nat, sid: nat)
    requires WellFormed(m) && id in m.cursors
    requires Step(m, SeekOp(id, sid)).1 == Success
    ensures var m1 := Step(m, SeekOp(id, sid)).0;
            && m.valid && m1.valid && m1.files == m.files && Gone(m1) == Gone(m)
            && id in m1.cursors && m1.cursors[id].state == Ready && Stands(m1.files, m1.cursors[id])
            && Position(m1, m1.cursors[id]) == |Gone(m)| + UpperIndex(Flat(m.files), sid)
  {
    hide Laid, Flat, Stands, FilesOk, Ascending, UpperIndex;
    if m.valid {
      hide SeekStep;
      SeekFinds(m, m.cursors[id], sid);
    }
  }

  // ---------------------------------------------------------- retention over runs

  /** No operation of a run makes a cursor it spares need older records than before. */
  lemma {:induction false} NeedsGrow(m: Mgr, op: Op, id: nat)
    requires WellFormed(m) && Proper(m, op) && Spares(op, id) && id in m.cursors
    ensures id in Step(m, op).0.cursors
    ensures Needs(m.cursors[id]) <= Needs(Step(m, op).0.cursors[id])
  {
    hide Laid, Flat, Stands, FilesOk, Ascending, SeekStep, NextStep, PrevStep, AppendStep;
    match op {
      case AppendOp(q) =>
      case NextOp(k) =>
        if k == id {
          NextNeedsMore(m, m.cursors[id]);
        }
      case _ =>
    }
  }

  lemma {:induction false} NextNeedsMore(m: Mgr, c: CursorV)
    requires WellFormed(m) && (m.valid && c.state == Ready ==> Stands(m.files, c))
    ensures Needs(c) <= Needs(NextStep(m, c, OpenFile(m, c)).0)
  {
    if m.valid && c.state == Ready {
      hide Laid, Flat, Stands, FilesOk, NextStep;
      NextMoves(m, c);
      var d := NextStep(m, c, OpenFile(m, c)).0;
      PlaceInHistory(m, c);
      PlaceInHistory(m, d);
      if d != c {
        assert History(m)[Position(m, c)].h.sid < History(m)[Position(m, d)].h.sid;
      }
    }
  }

  lemma {:induction false} StepDropsOnlyRead(m: Mgr, op: Op, id: nat)
    requires WellFormed(m) && id in m.cursors && Spares(op, id)
    ensures Gone(m) <= Gone(Step(m, op).0)
    ensures Passed(Gone(Step(m, op).0)[|Gone(m)|..], Needs(m.cursors[id]))
  {
    hide Laid, Flat, SeekStep, NextStep, PrevStep, AppendStep;
    match op {
      case AppendOp(q) => AppendDropsOnlyRead(m, q);
      case _ =>
    }
  }

  /** All of `dropped` lies below `sid`. */
  predicate Passed(dropped: seq<Record>, sid: nat) {
    forall p :: 0 <= p < |dropped| ==> dropped[p].h.sid < sid
  }

  /**
   * Retention safety over any run: every record whose file was dropped lies below what each cursor that
   * lived through the run still needs at its end, whether it was ready, not yet sought, or in error.
   */
  lemma {:induction false} RunDropsOnlyRead(m: Mgr, ops: seq<Op>, id: nat)
    requires WellFormed(m) && ProperRun(m, ops) && OnlyNext(ops, id) && id in m.cursors
    ensures Gone(m) <= Gone(Run(m, ops)) && id in Run(m, ops).cursors
    ensures Needs(m.cursors[id]) <= Needs(Run(m, ops).cursors[id])
    ensures Passed(Gone(Run(m, ops))[|Gone(m)|..], Needs(Run(m, ops).cursors[id]))
    decreases |ops|
  {
    if ops != [] {
      hide Laid, Flat, WellFormed, Step, Proper;
      var r := Step(m, ops[0]).0;
      StepKeepsWellFormed(m, ops[0]);
      NeedsGrow(m, ops[0], id);
      StepDropsOnlyRead(m, ops[0], id);
      RunDropsOnlyRead(r, ops[1..], id);
      PassedTwice(Gone(m), Gone(r), Gone(Run(r, ops[1..])), Needs(m.cursors[id]), Needs(Run(r, ops[1..]).cursors[id]));
    }
  }

  lemma {:induction false} PassedTwice(a: seq<Record>, b: seq<Record>, c: seq<Record>, first: nat, later: nat)
    requires a <= b <= c && first <= later
    requires Passed(b[|a|..], first) && Passed(c[|b|..], later)
    ensures Passed(c[|a|..], later)
  {
    forall p | 0 <= p < |c[|a|..]|
      ensures c[|a|..][p].h.sid < later
    {
      if p < |b| - |a| {
        assert c[|a|..][p] == b[|a|..][p];
      } else {
        assert c[|a|..][p] == c[|b|..][p - (|b| - |a|)];
      }
    }
  }

  /** A cursor that has not been sought stays as it is until it is. */
  lemma {:induction false} UnsoughtStays(m: Mgr, ops: seq<Op>, id: nat)
    requires id in m.cursors && m.cursors[id].state == Unseek && OnlyNext(ops, id)
    ensures id in Run(m, ops).cursors && Run(m, ops).cursors[id] == m.cursors[id]
    decreases |ops|
  {
    if ops != [] {
      hide SeekStep, PrevStep, AppendStep;
      assert Spares(ops[0], id);
      UnsoughtStays(Step(m, ops[0]).0, ops[1..], id);
    }
  }

  /**
   * A new cursor pins the log from its sid on: as long as it is not sought or destroyed, no run drops a
   * record at or above that sid.
   */
  lemma {:induction false} NewCursorPins(m: Mgr, id: nat, sid: nat, ops: seq<Op>)
    requires WellFormed(m) && id !in m.cursors
    requires var m1 := Step(m, CreateOp(id, sid)).0; ProperRun(m1, ops) && OnlyNext(ops, id)
    ensures var r := Run(Step(m, CreateOp(id, sid)).0, ops);
            Gone(m) <= Gone(r) && Passed(Gone(r)[|Gone(m)|..], sid)
  {
    hide Laid, Flat, FilesOk, Ascending, Run, ProperRun, OnlyNext, Passed;
    var m1 := Step(m, CreateOp(id, sid)).0;
    StepKeepsWellFormed(m, CreateOp(id, sid));
    UnsoughtStays(m1, ops, id);
    RunDropsOnlyRead(m1, ops, id);
  }
}
