// Issuing sids to senders: each record gets the next sid, is appended, and is acknowledged; records are
// flushed in batches, a crash may lose those not flushed, and a restart skips ahead of what may be lost.
// The log is the manager's, so a crash leaves what the manager finds when it opens its files again.
module SidIssue {
  import opened Bytes
  import opened BinLogFormat
  import opened BinLogRecovery
  import opened MgrSpec
  import opened MgrInvariant
  import opened MgrReopen
  import opened MgrCursors
  import Runs = MgrRuns

  /** The largest batch a configuration may set. */
  const MAX_FLUSH_COUNT: nat := 10000
  /** How far above the newest sid on disk a restart starts. */
  const SKIP: nat := MAX_FLUSH_COUNT + 1

  /**
   * `safe` is how many records of the current file are flushed; older files are flushed when they are
   * closed. `writing` says that the newest record has been written but neither its batch settled nor its
   * sender answered. `acked` is history: every sid ever acknowledged, in order.
   */
  datatype Server = Server(limit: nat, m: Mgr, safe: nat, cur: nat, unflushed: nat,
                           first: bool, writing: bool, acked: seq<nat>)

  /** A sid is issued and its record appended, unless the manager turns it down. */
  function Write(s: Server, q: Request): Server {
    var (m, ok) := AppendStep(s.m, q.(sid := s.cur + 1));
    var r := s.(m := m, safe := if SameFile(s.m, m) then s.safe else 0, cur := s.cur + 1);
    if ok then r.(unflushed := s.unflushed + 1, writing := true) else r
  }

  /** Writing to disk fails, and the manager with it. */
  function WriteFails(s: Server): Server {
    s.(m := s.m.(valid := false), cur := s.cur + 1)
  }

  function Flush(s: Server): Server {
    s.(safe := |CurrentRecs(s.m)|, unflushed := 0)
  }

  /** The batch is flushed if it is full, if time is up, or for the first record of a run; then the sender is answered. */
  function Settle(s: Server, timeUp: bool): Server {
    var r := if BatchDue(s, timeUp) || s.first then Flush(s) else s;
    r.(first := false, writing := false, acked := r.acked + [r.cur])
  }

  predicate BatchDue(s: Server, timeUp: bool) {
    s.unflushed > s.limit || timeUp
  }

  /**
   * Flushing fails: the sender gets an error, and the manager takes no more records. The batch counter is
   * reset before a batch is flushed, and the mark of a run's first record before that one is.
   */
  function SettleFails(s: Server, timeUp: bool): Server {
    var r := s.(m := s.m.(valid := false), writing := false);
    if BatchDue(s, timeUp) then r.(unflushed := 0) else r.(first := false)
  }

  /** The manager as it is opened again; one that finds no record starts a new log. */
  function Opened(m: Mgr, kept: nat, next: Record, torn: seq<byte>): Mgr {
    if m.files == [] || kept > |Current(m).recs| then m.(valid := true, cursors := map[])
    else
      var r := Reopened(m, kept, next, torn);
      r.(out := if r.files == [] then [] else r.out)
  }

  /** A crash leaves `kept` records of the current file and perhaps a torn one; the restart issues sids from far above. */
  function Restart(s: Server, kept: nat, next: Record, torn: seq<byte>, limit: nat): Server {
    var m := Opened(s.m, kept, next, torn);
    Server(limit, m, |CurrentRecs(m)|, m.maxSid + SKIP, 0, true, false, s.acked)
  }

  datatype Op =
    | WriteOp(q: Request)
    | FailOp
    | SettleOp(timeUp: bool)
    | SettleFailsOp(timeUp: bool)
    | TimerOp
    | CursorOp(op: Runs.Op)
    | CrashOp(kept: nat, next: Record, torn: seq<byte>, limit: nat)

  predicate Enabled(s: Server, op: Op) {
    match op
    case WriteOp(q) => !s.writing && Fits(q.(sid := s.cur + 1))
    case FailOp => !s.writing
    case SettleOp(_) => s.writing
    case SettleFailsOp(timeUp) => s.writing && (BatchDue(s, timeUp) || s.first)
    case TimerOp => !s.writing && s.m.valid
    case CursorOp(o) => s.m.valid && !o.AppendOp? && !o.CrashOp? && Runs.Proper(s.m, o)
    case CrashOp(kept, next, torn, limit) =>
      && limit <= MAX_FLUSH_COUNT && s.safe <= kept <= |CurrentRecs(s.m)|
      && (s.m.files != [] ==> Interrupted(s.m, kept, next, torn))
  }

  function Step(s: Server, op: Op): Server
    requires Enabled(s, op)
  {
    match op
    case WriteOp(q) => Write(s, q)
    case FailOp => WriteFails(s)
    case SettleOp(timeUp) => Settle(s, timeUp)
    case SettleFailsOp(timeUp) => SettleFails(s, timeUp)
    case TimerOp => Flush(s)
    case CursorOp(o) => s.(m := Runs.Step(s.m, o).0)
    case CrashOp(kept, next, torn, limit) => Restart(s, kept, next, torn, limit)
  }

  /**
   * What the steps do to the counters: each message takes the next sid, also when its record cannot be written;
   * only a settled one is acknowledged; everything is flushed when the flush interval has passed, the batch is
   * full, or the record is the run's first; a restart goes on well above the newest sid it finds.
   */
  lemma {:induction false} StepEffect(s: Server, op: Op)
    requires Enabled(s, op)
    ensures var r := Step(s, op);
            && r.cur == (match op
                         case WriteOp(_) => s.cur + 1
                         case FailOp => s.cur + 1
                         case CrashOp(_, _, _, _) => r.m.maxSid + 10001
                         case _ => s.cur)
            && r.acked == s.acked + (if op.SettleOp? then [s.cur] else [])
            && r.writing == ((op.WriteOp? && AppendStep(s.m, op.q.(sid := s.cur + 1)).1) || (s.writing && (op.TimerOp? || op.CursorOp?)))
            && (op.SettleOp? && (op.timeUp || s.unflushed > s.limit || s.first) ==>
                  r.unflushed == 0 && r.safe == |CurrentRecs(s.m)| && !r.first && r.m == s.m)
            && (op.SettleOp? && !(op.timeUp || s.unflushed > s.limit || s.first) ==>
                  r.unflushed == s.unflushed && r.safe == s.safe && !r.first && r.m == s.m)
            && (op.FailOp? || op.SettleFailsOp? ==> r.m == s.m.(valid := false) && r.safe == s.safe)
            && (op.SettleFailsOp? ==>
                  if op.timeUp || s.unflushed > s.limit then r.unflushed == 0 && r.first == s.first
                  else r.unflushed == s.unflushed && !r.first)
            && (op.CrashOp? ==> r.first && r.unflushed == 0 && r.safe == |CurrentRecs(r.m)|)
  {
    hide AppendStep, Opened, SameFile, Runs.Step, Runs.Proper, Interrupted, CurrentRecs;
  }

  predicate Possible(s: Server, ops: seq<Op>)
    decreases |ops|
  {
    ops != [] ==> Enabled(s, ops[0]) && Possible(Step(s, ops[0]), ops[1..])
  }

  function Run(s: Server, ops: seq<Op>): Server
    requires Possible(s, ops)
    decreases |ops|
  {
    if ops == [] then s else Run(Step(s, ops[0]), ops[1..])
  }

  /** A server that has just been started on a log. */
  ghost predicate Start(s: Server) {
    && s.limit <= MAX_FLUSH_COUNT && WellFormed(s.m) && s.m.valid && s.m.cursors == map[]
    && s.safe == |CurrentRecs(s.m)| && s.cur == s.m.maxSid + SKIP && s.unflushed == 0
    && s.first && !s.writing && s.acked == []
  }

  // ----------------------------------------------------------------- invariant

  /** The records that no crash takes away, unless it makes the manager forget them all. */
  function Durable(s: Server): seq<Record>
    requires s.safe <= |CurrentRecs(s.m)|
  {
    if s.m.files == [] then [] else LeftOf(s.m, s.safe)
  }

  /** The log is in order, also that of a manager that has failed. */
  ghost predicate LogOk(m: Mgr) {
    && LimitsOk(m.limits) && (m.valid ==> WellFormed(m))
    && if m.files == [] then m.out == [] && m.minSid == 0 && m.maxSid == 0 else Sound(m)
  }

  /** How the newest sid issued lies to those on disk, while the manager works. */
  predicate Counted(s: Server)
    requires s.safe <= |CurrentRecs(s.m)|
  {
    var durable, tail := LastSid(Durable(s)), |CurrentRecs(s.m)| - s.safe;
    if !s.first then s.cur == durable + tail == s.m.maxSid && s.cur > SKIP
    else if s.writing then tail == 1 && s.cur == durable + SKIP + 1 == s.m.maxSid
    else tail == 0 && s.cur == durable + SKIP
  }

  ghost predicate Inv(s: Server) {
    && s.limit <= MAX_FLUSH_COUNT && LogOk(s.m) && s.m.maxSid <= s.cur
    && s.safe <= |CurrentRecs(s.m)|
    && (s.m.valid ==> |CurrentRecs(s.m)| - s.safe <= s.unflushed <= s.limit + if s.writing then 1 else 0)
    && (s.writing ==> s.m.valid)
    && (s.m.valid ==> Counted(s))
  }

  lemma {:induction false} AllDurable(s: Server)
    requires s.safe == |CurrentRecs(s.m)| && LogOk(s.m)
    ensures Durable(s) == (if s.m.files == [] then [] else History(s.m)) && LastSid(Durable(s)) == s.m.maxSid
  {
    hide Flat, Laid, Ascending;
    if s.m.files != [] {
      CurrentEndsHistory(s.m);
    }
  }

  /** A server that starts on a log in order. */
  lemma {:induction false} FreshInv(s: Server)
    requires s.limit <= MAX_FLUSH_COUNT && LogOk(s.m) && s.safe == |CurrentRecs(s.m)|
    requires s.cur == s.m.maxSid + SKIP && s.unflushed == 0 && s.first && !s.writing
    ensures Inv(s) && LastSid(Durable(s)) == s.m.maxSid
  {
    hide LogOk, Durable;
    AllDurable(s);
  }

  lemma {:induction false} StartInv(s: Server)
    requires Start(s)
    ensures Inv(s)
  {
    StartLog(s.m);
    hide LogOk, WellFormed, Inv;
    FreshInv(s);
  }

  lemma {:induction false} StartLog(m: Mgr)
    requires WellFormed(m) && m.valid
    ensures LogOk(m)
  {
    hide Flat, Laid, Ascending;
    if m.files != [] {
      OpenIsSound(m);
    }
  }

  /** More records kept mean a newest sid at least as large. */
  lemma {:induction false} NewestGrows(a: seq<Record>, b: seq<Record>)
    requires a <= b && Ascending(b)
    ensures LastSid(a) <= LastSid(b)
  {
    if a != [] && |a| < |b| {
      assert b[|a| - 1].h.sid < b[|b| - 1].h.sid;
    }
  }

  lemma {:induction false} DurableGrows(s: Server)
    requires LogOk(s.m) && s.safe <= |CurrentRecs(s.m)|
    ensures LastSid(Durable(s)) <= s.m.maxSid
  {
    hide Flat, Laid, Ascending;
    if s.m.files != [] {
      CurrentEndsHistory(s.m);
      NewestGrows(Durable(s), History(s.m));
    }
  }

  lemma {:induction false} FlushKeeps(s: Server)
    requires Inv(s) && !s.writing && s.m.valid
    ensures Inv(Flush(s)) && LastSid(Durable(Flush(s))) == s.m.maxSid
  {
    hide LogOk, Durable;
    AllDurable(Flush(s));
    AllDurableIf(s);
  }

  lemma {:induction false} AllDurableIf(s: Server)
    requires s.safe == |CurrentRecs(s.m)| ==> LogOk(s.m)
    ensures s.safe == |CurrentRecs(s.m)| ==> LastSid(Durable(s)) == s.m.maxSid
  {
    if s.safe == |CurrentRecs(s.m)| {
      AllDurable(s);
    }
  }

  /** What is durable after an append that succeeded. */
  lemma {:induction false} WrittenDurable(s: Server, q: Request)
    requires Inv(s) && s.m.valid && Fits(q.(sid := s.cur + 1)) && !TooLarge(s.m.limits, |q.data|)
    ensures var r := Write(s, q);
            && r.writing && r.m.valid && LogOk(r.m) && r.m.maxSid == r.cur && r.m.limits == s.m.limits
            && r.safe <= |CurrentRecs(r.m)|
            && (if SameFile(s.m, r.m) then Durable(r) == Durable(s) && |CurrentRecs(r.m)| - r.safe == |CurrentRecs(s.m)| - s.safe + 1
                else LastSid(Durable(r)) == s.m.maxSid && |CurrentRecs(r.m)| - r.safe == 1)
  {
    hide Flat, Laid, Ascending, AppendStep, WellFormed, Sound, Counted, History;
    var q' := q.(sid := s.cur + 1);
    AppendWrites(s.m, q');
    var r := Write(s, q);
    WrittenLog(r.m);
    CurrentEndsHistory(r.m);
    if s.m.files != [] {
      CurrentEndsHistory(s.m);
      NewestIs(s.m);
    } else {
      NothingYet(s.m);
    }
  }

  lemma {:induction false} NewestIs(m: Mgr)
    requires LogOk(m) && m.files != []
    ensures m.maxSid == LastSid(History(m))
  {
  }

  lemma {:induction false} NothingYet(m: Mgr)
    requires LogOk(m) && m.files == []
    ensures History(m) == []
  {
  }

  lemma {:induction false} WrittenLog(m: Mgr)
    requires WellFormed(m) && m.valid && m.files != []
    ensures LogOk(m)
  {
    hide Flat, Laid, Ascending;
    OpenIsSound(m);
  }

  lemma {:induction false} WriteKeeps(s: Server, q: Request)
    requires Inv(s) && Enabled(s, WriteOp(q))
    ensures Inv(Write(s, q))
    ensures LastSid(Durable(Write(s, q))) >= LastSid(Durable(s))
  {
    hide Flat, Laid, Ascending, AppendStep, WellFormed, Sound, LogOk, Durable, SameFile;
    DurableGrows(s);
    AllDurableIf(s);
    if !s.m.valid {
      DeadStays(s, q);
    } else if TooLarge(s.m.limits, |q.data|) {
      FailedDurable(s, q);
    } else {
      WrittenDurable(s, q);
    }
  }

  lemma {:induction false} DeadStays(s: Server, q: Request)
    requires Inv(s) && !s.m.valid
    ensures Write(s, q) == s.(cur := s.cur + 1) && Durable(Write(s, q)) == Durable(s)
  {
  }

  lemma {:induction false} FailedDurable(s: Server, q: Request)
    requires Inv(s) && s.m.valid && Fits(q.(sid := s.cur + 1)) && TooLarge(s.m.limits, |q.data|)
    ensures var r := Write(s, q);
            && !r.m.valid && LogOk(r.m) && r.m.maxSid == s.m.maxSid && r.safe == |CurrentRecs(r.m)| == 0
            && r == s.(m := r.m, safe := 0, cur := s.cur + 1) && r.m.limits == s.m.limits
            && LastSid(Durable(r)) == s.m.maxSid
  {
    hide Flat, Laid, Ascending, AppendStep, WellFormed, RowOk;
    AppendFails(s.m, q.(sid := s.cur + 1));
    var r := Write(s, q);
    AllDurable(r);
  }

  lemma {:induction false} SettleKeeps(s: Server, timeUp: bool)
    requires Inv(s) && s.writing
    ensures Inv(Settle(s, timeUp))
    ensures LastSid(Durable(Settle(s, timeUp))) >= LastSid(Durable(s))
    ensures s.cur <= LastSid(Durable(Settle(s, timeUp))) + SKIP
  {
    hide LogOk;
    DurableGrows(s);
    AllDurable(Flush(s));
    var r := Settle(s, timeUp);
    assert Durable(r) == if s.unflushed > s.limit || timeUp || s.first then Durable(Flush(s)) else Durable(s);
  }

  /** The manager stops taking records; nothing else changes. */
  lemma {:induction false} DeadLog(m: Mgr)
    requires LogOk(m)
    ensures LogOk(m.(valid := false)) && CurrentRecs(m.(valid := false)) == CurrentRecs(m)
    ensures History(m.(valid := false)) == History(m)
  {
    hide Flat, Laid, Ascending, RowOk;
  }

  lemma {:induction false} SettleFailsKeeps(s: Server, timeUp: bool)
    requires Inv(s) && s.writing
    ensures Inv(SettleFails(s, timeUp)) && Durable(SettleFails(s, timeUp)) == Durable(s)
  {
    hide LogOk, Flat, History;
    DeadLog(s.m);
  }

  lemma {:induction false} WriteFailsKeeps(s: Server)
    requires Inv(s) && !s.writing
    ensures Inv(WriteFails(s)) && Durable(WriteFails(s)) == Durable(s)
  {
    hide LogOk, Flat, History;
    DeadLog(s.m);
  }

  /** Operations on cursors leave the log alone. */
  lemma {:induction false} CursorsApart(m: Mgr, o: Runs.Op)
    requires LogOk(m) && m.valid && !o.AppendOp? && !o.CrashOp? && Runs.Proper(m, o)
    ensures var r := Runs.Step(m, o).0;
            LogOk(r) && r == m.(cursors := r.cursors) && CurrentRecs(r) == CurrentRecs(m) && History(r) == History(m)
  {
    hide Flat, Laid, Ascending, RowOk, SeekStep, NextStep, PrevStep, WellFormed;
    Runs.StepKeepsWellFormed(m, o);
  }

  lemma {:induction false} CursorKeeps(s: Server, o: Runs.Op)
    requires Inv(s) && Enabled(s, CursorOp(o))
    ensures Inv(Step(s, CursorOp(o))) && Durable(Step(s, CursorOp(o))) == Durable(s)
  {
    hide LogOk, Flat, History, Runs.Step, Runs.Proper;
    CursorsApart(s.m, o);
  }

  // ------------------------------------------------------------------- restarting

  /** What a crash leaves is at least what is durable, unless the manager forgets all. */
  lemma {:induction false} OpenedLog(s: Server, kept: nat, next: Record, torn: seq<byte>)
    requires Inv(s) && s.safe <= kept <= |CurrentRecs(s.m)|
    requires s.m.files != [] ==> Interrupted(s.m, kept, next, torn)
    ensures var r := Opened(s.m, kept, next, torn);
            && LogOk(r) && WellFormed(r) && r.valid && r.cursors == map[] && r.limits == s.m.limits
            && (s.m.files != [] && Forgotten(s.m, kept, torn) ==> r.maxSid == 0)
            && (!(s.m.files != [] && Forgotten(s.m, kept, torn)) ==>
                  r.maxSid == LastSid(OpenedHistory(s.m, kept, next, torn))
                  && LastSid(Durable(s)) <= r.maxSid)
  {
    hide Flat, Laid, RowOk, Interrupted, Counted;
    if s.m.files != [] {
      OpenedFiles(s.m, kept, next, torn);
      if !Forgotten(s.m, kept, torn) {
        hide WellFormed, Sound;
        NewestIs(s.m);
        LeftGrows(s.m, s.safe, kept);
        var left := OpenedHistory(s.m, kept, next, torn);
        LeftInOrder(s.m, kept, next, torn);
        NewestGrows(Durable(s), left);
      }
    }
  }

  /** The records a restart finds. */
  function OpenedHistory(m: Mgr, kept: nat, next: Record, torn: seq<byte>): seq<Record>
    requires kept <= |CurrentRecs(m)|
  {
    if m.files == [] then [] else LeftOf(m, kept) + Salvage(next, torn)
  }

  lemma {:induction false} LeftInOrder(m: Mgr, kept: nat, next: Record, torn: seq<byte>)
    requires LogOk(m) && m.files != [] && Interrupted(m, kept, next, torn)
    ensures Ascending(OpenedHistory(m, kept, next, torn))
  {
    LeftAscends(m, kept, next, torn);
  }

  lemma {:induction false} LeftGrows(m: Mgr, a: nat, b: nat)
    requires m.files != [] && a <= b <= |Current(m).recs|
    ensures LeftOf(m, a) <= LeftOf(m, b)
  {
    CurrentEndsHistory(m);
  }

  lemma {:induction false} OpenedFiles(m: Mgr, kept: nat, next: Record, torn: seq<byte>)
    requires LogOk(m) && m.files != [] && Interrupted(m, kept, next, torn)
    ensures kept <= |CurrentRecs(m)|
    ensures var r := Opened(m, kept, next, torn);
            && LogOk(r) && WellFormed(r) && r.valid && r.cursors == map[] && r.limits == m.limits
            && (Forgotten(m, kept, torn) ==> r.maxSid == 0)
            && (!Forgotten(m, kept, torn) ==> r.maxSid == LastSid(OpenedHistory(m, kept, next, torn)))
  {
    hide Flat, Laid, RowOk, Interrupted, Ascending, Forgotten, KeptFiles, LeftOf, Salvage, FilesOk;
    InterruptedIs(m, kept, next, torn);
    ReopenedKeeps(m, kept, next, torn);
    var r := Reopened(m, kept, next, torn);
    if r.files != [] {
      WrittenLog(r);
    } else {
      FlatOfNone();
    }
  }

  lemma {:induction false} RestartKeeps(s: Server, kept: nat, next: Record, torn: seq<byte>, limit: nat)
    requires Inv(s) && Enabled(s, CrashOp(kept, next, torn, limit))
    ensures Inv(Restart(s, kept, next, torn, limit))
    ensures LastSid(Durable(Restart(s, kept, next, torn, limit))) == Restart(s, kept, next, torn, limit).m.maxSid
  {
    hide Inv, LogOk, Durable, Interrupted, Opened, WellFormed, Forgotten, OpenedHistory;
    OpenedLog(s, kept, next, torn);
    FreshInv(Restart(s, kept, next, torn, limit));
  }

  lemma {:induction false} StepKeeps(s: Server, op: Op)
    requires Inv(s) && Enabled(s, op)
    ensures Inv(Step(s, op))
  {
    hide Inv;
    match op {
      case WriteOp(q) => WriteKeeps(s, q);
      case FailOp => WriteFailsKeeps(s);
      case SettleOp(timeUp) => SettleKeeps(s, timeUp);
      case SettleFailsOp(timeUp) => SettleFailsKeeps(s, timeUp);
      case TimerOp => FlushKeeps(s);
      case CursorOp(o) => CursorKeeps(s, o);
      case CrashOp(kept, next, torn, limit) => RestartKeeps(s, kept, next, torn, limit);
    }
  }

  lemma {:induction false} RunKeeps(s: Server, ops: seq<Op>)
    requires Inv(s) && Possible(s, ops)
    ensures Inv(Run(s, ops))
    decreases |ops|
  {
    hide Inv, Step, Enabled;
    if ops != [] {
      StepKeeps(s, ops[0]);
      RunKeeps(Step(s, ops[0]), ops[1..]);
    }
  }

  // ------------------------------------------------- a crash and the sids issued

  /** The crash takes the run's first record, which has not been settled. */
  predicate FirstLost(s: Server, kept: nat, torn: seq<byte>) {
    s.first && s.writing && kept < |CurrentRecs(s.m)| && |torn| < HEADER_SIZE
  }

  /**
   * Which issued sids a crash lets a restart issue again: exactly when it takes the first record of the run
   * before that was settled, or makes the manager forget its sids, does the restart fall behind the newest.
   */
  lemma {:induction false} RestartIsAhead(s: Server, ops: seq<Op>, kept: nat, next: Record, torn: seq<byte>, limit: nat)
    requires Start(s) && Possible(s, ops)
    requires Run(s, ops).m.valid && Enabled(Run(s, ops), CrashOp(kept, next, torn, limit))
    ensures var r := Run(s, ops);
            Restart(r, kept, next, torn, limit).cur >= r.cur <==> !FirstLost(r, kept, torn) && !Forgotten(r.m, kept, torn)
  {
    StartInv(s);
    RunKeeps(s, ops);
    AheadOrNot(Run(s, ops), kept, next, torn, limit);
  }

  lemma {:induction false} AheadOrNot(s: Server, kept: nat, next: Record, torn: seq<byte>, limit: nat)
    requires Inv(s) && s.m.valid && Enabled(s, CrashOp(kept, next, torn, limit))
    ensures Restart(s, kept, next, torn, limit).cur >= s.cur <==> !FirstLost(s, kept, torn) && !Forgotten(s.m, kept, torn)
    ensures FirstLost(s, kept, torn) && !Forgotten(s.m, kept, torn) ==>
              Restart(s, kept, next, torn, limit).cur + 1 == s.cur
  {
    hide LogOk, Interrupted, Opened, WellFormed, Durable, Forgotten, OpenedHistory;
    OpenedLog(s, kept, next, torn);
    if s.m.files == [] {
      NothingForgotten(s.m, kept, torn);
    } else if Forgotten(s.m, kept, torn) {
      ForgottenSids(s.m, kept, torn);
      AllDurableIf(s);
    } else if s.first && s.writing {
      FirstLeft(s, kept, next, torn);
    }
  }

  lemma {:induction false} NothingForgotten(m: Mgr, kept: nat, torn: seq<byte>)
    requires LogOk(m) && m.files == []
    ensures !Forgotten(m, kept, torn) && CurrentRecs(m) == []
  {
  }

  /** Where sids are forgotten there were some. */
  lemma {:induction false} ForgottenSids(m: Mgr, kept: nat, torn: seq<byte>)
    requires LogOk(m) && m.files != [] && Forgotten(m, kept, torn)
    ensures m.maxSid >= 1
  {
    hide Flat, Laid, EmptiesLast;
    FlatOfEmpty(m.out);
    var i :| 0 <= i < |m.out| && m.out[i].recs != [];
    assert FileOk(m.limits, (m.out + m.files)[i]);
    FirstSidPositive(m.out[i].recs);
    FlatAt(m.out, i, 0);
    var p := |Flat(m.out[..i])|;
    assert History(m)[p] == m.out[i].recs[0];
    NoneAboveLast(History(m), p);
  }

  /** What the first record of a run adds, while it is being settled. */
  lemma {:induction false} FirstWritten(s: Server)
    requires Inv(s) && s.m.valid && s.m.files != [] && s.first && s.writing
    ensures |CurrentRecs(s.m)| == |Current(s.m).recs| == s.safe + 1
    ensures s.cur == s.m.maxSid == LastSid(History(s.m))
  {
    hide Flat, Laid, RowOk, Ascending, WellFormed, History;
    NewestIs(s.m);
  }

  /** The last sid a crash leaves, with all records of the current file or all but one. */
  lemma {:induction false} LastLeft(m: Mgr, kept: nat, next: Record, torn: seq<byte>)
    requires Interrupted(m, kept, next, torn) && m.maxSid == LastSid(History(m)) && kept <= |Current(m).recs| <= kept + 1
    ensures kept <= |CurrentRecs(m)|
    ensures var sid := LastSid(OpenedHistory(m, kept, next, torn));
            if |torn| >= HEADER_SIZE then sid >= m.maxSid
            else sid == if kept == |Current(m).recs| then m.maxSid else LastSid(LeftOf(m, kept))
  {
    hide Flat, Laid, Continues, RecordBytes, Ascending, AllFilled;
    CurrentEndsHistory(m);
    var left, recs := LeftOf(m, kept), Current(m).recs;
    if |torn| < HEADER_SIZE {
      assert left + [] == left;
      assert kept == |recs| ==> left == History(m);
    } else {
      assert (left + Salvage(next, torn))[|left|].h == next.h;
      assert kept < |recs| ==> History(m)[|History(m)| - 1] == recs[kept];
    }
  }

  /** With the run's first record just written, a crash leaves it whole, or what was durable before it. */
  lemma {:induction false} FirstLeft(s: Server, kept: nat, next: Record, torn: seq<byte>)
    requires Inv(s) && s.m.valid && s.m.files != [] && s.first && s.writing
    requires s.safe <= kept <= |CurrentRecs(s.m)| && Interrupted(s.m, kept, next, torn)
    ensures var sid := LastSid(OpenedHistory(s.m, kept, next, torn));
            if FirstLost(s, kept, torn) then sid == LastSid(Durable(s)) else sid >= s.cur
  {
    hide Inv, Interrupted, OpenedHistory, LeftOf, History;
    InvParts(s);
    FirstWritten(s);
    LastLeft(s.m, kept, next, torn);
  }

  // ---------------------------------------------------------- acknowledged sids

  predicate Rising(sids: seq<nat>) {
    forall i, j :: 0 <= i < j < |sids| ==> sids[i] < sids[j]
  }

  predicate Below(sids: seq<nat>, high: nat) {
    forall i :: 0 <= i < |sids| ==> sids[i] < high
  }

  /**
   * Files that tell the newest sid are always left: none are deleted, or the file limit is at least 3, or it
   * is 2 and no record is too large for any file.
   */
  predicate Sparing(limits: Limits, ops: seq<Op>) {
    limits.delOut ==> limits.maxFileNum >= 3 || (limits.maxFileNum == 2 && NoneTooLarge(limits, ops))
  }

  predicate NoneTooLarge(limits: Limits, ops: seq<Op>) {
    forall i :: 0 <= i < |ops| && ops[i].WriteOp? ==> !TooLarge(limits, |ops[i].q.data|)
  }

  /** The sids acknowledged rise, and no crash lets a restart fall behind them. */
  ghost predicate AckedOk(s: Server)
    requires s.safe <= |CurrentRecs(s.m)|
  {
    && Rising(s.acked)
    && Below(s.acked, LastSid(Durable(s)) + SKIP + 1)
    && Below(s.acked, s.cur + if s.writing then 0 else 1)
    && (Remembered(s.m) || s.safe > 0)
  }

  lemma {:induction false} Below2(sids: seq<nat>, low: nat, high: nat)
    requires Below(sids, low) && low <= high
    ensures Below(sids, high)
  {
  }

  lemma {:induction false} WriteRemembers(s: Server, q: Request)
    requires Inv(s) && Enabled(s, WriteOp(q)) && Sparing(s.m.limits, [WriteOp(q)])
    requires Remembered(s.m) || s.safe > 0
    ensures var r := Write(s, q);
            r.m.limits == s.m.limits && (Remembered(r.m) || r.safe > 0)
  {
    hide Flat, Laid, Ascending, AppendStep, Sound, LogOk, Durable, Remembered, Counted;
    if !s.m.valid {
      DeadStays(s, q);
    } else {
      assert s.m.limits.delOut && s.m.limits.maxFileNum < 3 ==> !TooLarge(s.m.limits, |q.data|) by {
        assert [WriteOp(q)][0] == WriteOp(q);
      }
      StillRemembered(s, q);
    }
  }

  lemma {:induction false} StillRemembered(s: Server, q: Request)
    requires Inv(s) && s.m.valid && Fits(q.(sid := s.cur + 1))
    requires s.m.limits.delOut ==> s.m.limits.maxFileNum >= 3 ||
                                   (s.m.limits.maxFileNum == 2 && !TooLarge(s.m.limits, |q.data|))
    requires Remembered(s.m) || s.safe > 0
    ensures var r := Write(s, q);
            r.m.limits == s.m.limits && (Remembered(r.m) || r.safe > 0)
  {
    hide Flat, Laid, Ascending, AppendStep, Sound, WellFormed, Counted;
    var q' := q.(sid := s.cur + 1);
    var r := Write(s, q);
    if TooLarge(s.m.limits, |q.data|) {
      FailedDurable(s, q);
    } else {
      WrittenDurable(s, q);
    }
    if r.m.limits.delOut && !SameFile(s.m, r.m) {
      AppendRemembers(s.m, q');
    } else if r.m.limits.delOut {
      assert !TooLarge(s.m.limits, |q.data|) by {
        if TooLarge(s.m.limits, |q.data|) {
          AppendFails(s.m, q');
        }
      }
      AppendWrites(s.m, q');
      SameFront(s.m, r.m);
    }
  }

  lemma {:induction false} SameFront(m: Mgr, r: Mgr)
    requires |r.files| == |m.files| > 0 && r.out == m.out && r.limits == m.limits
    requires r.files[..|r.files| - 1] == m.files[..|m.files| - 1]
    ensures Remembered(m) ==> Remembered(r)
  {
    hide Flat;
    forall i | 0 <= i < |m.files| - 1
      ensures r.files[i] == m.files[i]
    {
      assert r.files[..|r.files| - 1][i] == m.files[..|m.files| - 1][i];
    }
  }

  lemma {:induction false} AckedWrite(s: Server, q: Request)
    requires Inv(s) && AckedOk(s) && Enabled(s, WriteOp(q)) && Sparing(s.m.limits, [WriteOp(q)])
    ensures Inv(Write(s, q)) && AckedOk(Write(s, q)) && Write(s, q).m.limits == s.m.limits
  {
    WriteKeeps(s, q);
    WriteRemembers(s, q);
    hide LogOk, Durable, AppendStep, Remembered, Counted, Rising, Below, SameFile;
    var r := Write(s, q);
    Below2(s.acked, LastSid(Durable(s)) + SKIP + 1, LastSid(Durable(r)) + SKIP + 1);
    Below2(s.acked, s.cur + 1, s.cur + 2);
  }

  lemma {:induction false} OneMoreAcked(acked: seq<nat>, sid: nat)
    requires Rising(acked) && Below(acked, sid)
    ensures Rising(acked + [sid]) && Below(acked + [sid], sid + 1)
  {
  }

  lemma {:induction false} InvParts(s: Server)
    requires Inv(s)
    ensures LogOk(s.m) && s.safe <= |CurrentRecs(s.m)|
  {
  }

  lemma {:induction false} AckedSettle(s: Server, timeUp: bool)
    requires Inv(s) && AckedOk(s) && s.writing
    ensures Inv(Settle(s, timeUp)) && AckedOk(Settle(s, timeUp)) && Settle(s, timeUp).m.limits == s.m.limits
  {
    hide Inv, LogOk, Durable, Remembered, Counted, Rising, Below;
    InvParts(s);
    SettleKeeps(s, timeUp);
    var r := Settle(s, timeUp);
    OneMoreAcked(s.acked, s.cur);
    Below2(r.acked, s.cur + 1, LastSid(Durable(r)) + SKIP + 1);
  }

  lemma {:induction false} AckedRestart(s: Server, kept: nat, next: Record, torn: seq<byte>, limit: nat)
    requires Inv(s) && AckedOk(s) && Enabled(s, CrashOp(kept, next, torn, limit))
    ensures var r := Restart(s, kept, next, torn, limit);
            Inv(r) && AckedOk(r) && r.m.limits == s.m.limits
  {
    hide Inv, LogOk, Durable, Remembered, Rising, Below, Opened, Forgotten, Interrupted, OpenedHistory, WellFormed;
    InvParts(s);
    RememberedIsKept(s.m, kept, torn);
    RestartKeeps(s, kept, next, torn, limit);
    OpenedLog(s, kept, next, torn);
    var r := Restart(s, kept, next, torn, limit);
    OpenedRemembers(r);
    Below2(s.acked, LastSid(Durable(s)) + SKIP + 1, r.cur + 1);
  }

  lemma {:induction false} OpenedRemembers(r: Server)
    requires LogOk(r.m) && r.safe == |CurrentRecs(r.m)| && r.m.valid && WellFormed(r.m)
    ensures Remembered(r.m) || r.safe > 0
  {
    hide Laid, Ascending;
  }

  lemma {:induction false} AckedStep(s: Server, op: Op)
    requires Inv(s) && AckedOk(s) && Enabled(s, op) && Sparing(s.m.limits, [op])
    ensures Inv(Step(s, op)) && AckedOk(Step(s, op)) && Step(s, op).m.limits == s.m.limits
  {
    hide Inv, LogOk, Durable, Remembered, Rising, Below, Runs.Step, Runs.Proper;
    InvParts(s);
    StepKeeps(s, op);
    match op {
      case WriteOp(q) => AckedWrite(s, q);
      case FailOp =>
        WriteFailsKeeps(s);
        SameToRemember(s.m, WriteFails(s).m);
        Below2(s.acked, s.cur + 1, s.cur + 2);
      case SettleOp(timeUp) => AckedSettle(s, timeUp);
      case SettleFailsOp(timeUp) =>
        SettleFailsKeeps(s, timeUp);
        SameToRemember(s.m, SettleFails(s, timeUp).m);
        Below2(s.acked, s.cur, s.cur + 1);
      case TimerOp =>
        FlushKeeps(s);
        DurableGrows(s);
        Below2(s.acked, LastSid(Durable(s)) + SKIP + 1, s.m.maxSid + SKIP + 1);
      case CursorOp(o) =>
        CursorKeeps(s, o);
        CursorsApart(s.m, o);
        SameToRemember(s.m, Runs.Step(s.m, o).0);
      case CrashOp(kept, next, torn, limit) => AckedRestart(s, kept, next, torn, limit);
    }
  }

  lemma {:induction false} SameToRemember(m: Mgr, r: Mgr)
    requires r.files == m.files && r.out == m.out && r.limits == m.limits
    ensures Remembered(r) <==> Remembered(m)
  {
    hide Flat;
  }

  lemma {:induction false} AckedRun(s: Server, ops: seq<Op>)
    requires Inv(s) && AckedOk(s) && Possible(s, ops) && Sparing(s.m.limits, ops)
    ensures Inv(Run(s, ops)) && AckedOk(Run(s, ops))
    decreases |ops|
  {
    hide Inv, AckedOk, Step, Enabled;
    if ops != [] {
      SparingParts(s.m.limits, ops);
      AckedStep(s, ops[0]);
      AckedRun(Step(s, ops[0]), ops[1..]);
    }
  }

  lemma {:induction false} SparingParts(limits: Limits, ops: seq<Op>)
    requires Sparing(limits, ops) && ops != []
    ensures Sparing(limits, [ops[0]]) && Sparing(limits, ops[1..])
  {
    assert forall i :: 0 <= i < |ops[1..]| ==> ops[1..][i] == ops[i + 1];
  }

  lemma {:induction false} StartAcked(s: Server)
    requires Start(s)
    ensures Inv(s) && AckedOk(s)
  {
    StartInv(s);
    StartLog(s.m);
    OpenedRemembers(s);
  }

  /**
   * No acknowledged sid is issued again after any number of crashes, with files that tell the newest sid
   * always left: the sids acknowledged ever grow, and the next one to be issued is larger than all of them.
   */
  lemma {:induction false} AckedNeverReissued(s: Server, ops: seq<Op>)
    requires Start(s) && Possible(s, ops) && Sparing(s.m.limits, ops)
    ensures var r := Run(s, ops); Rising(r.acked) && Below(r.acked, r.cur + 1)
  {
    StartAcked(s);
    AckedRun(s, ops);
  }

  /**
   * Where the crash took a run's first record before it was settled, the next sid issued is that record's
   * again; it is not among those acknowledged, by this run or any before it.
   */
  lemma {:induction false} FirstIsReissued(s: Server, ops: seq<Op>, kept: nat, next: Record, torn: seq<byte>, limit: nat)
    requires Start(s) && Possible(s, ops) && Sparing(s.m.limits, ops)
    requires Run(s, ops).m.valid && Enabled(Run(s, ops), CrashOp(kept, next, torn, limit))
    requires FirstLost(Run(s, ops), kept, torn)
    ensures var r := Run(s, ops);
            var again := Restart(r, kept, next, torn, limit);
            && again.cur + 1 == r.cur && again.acked == r.acked && Below(again.acked, again.cur + 1)
  {
    StartAcked(s);
    AckedRun(s, ops);
    var r := Run(s, ops);
    RememberedIsKept(r.m, kept, torn);
    AheadOrNot(r, kept, next, torn, limit);
  }
}
