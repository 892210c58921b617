// When acknowledged sids are issued again, and how much of the skip a restart needs.
module SidReissue {
  import opened Bytes
  import opened BinLogFormat
  import opened BinLogRecovery
  import opened MgrSpec
  import opened MgrInvariant
  import opened MgrReopen
  import opened SidIssue

  /** A server started on an empty log, with file limits as a configuration sets them. */
  ghost predicate FreshServer(s: Server) {
    Start(s) && s.m.files == [] && 32 * 1024 * 1024 <= s.m.limits.maxFileSize
  }

  lemma {:induction false} FreshManager(s: Server)
    requires FreshServer(s)
    ensures Fresh(s.m) && LimitsOk(s.m.limits) && s.cur == SKIP && s.safe == 0 && s.first && !s.writing && s.acked == []
  {
  }

  /** An empty message of a day. */
  function Message(day: nat): Request {
    Request(0, 0, day, 0, [])
  }

  /** One record on an empty log, written, settled and acknowledged. */
  function AfterFirst(s: Server): Server {
    var q := Message(0).(sid := SKIP + 1);
    Server(s.limit, s.m.(files := [LogFile(START_FILE_NUM, 0, [NewRecord([], q)])], maxSid := SKIP + 1, minSid := SKIP + 1),
           1, SKIP + 1, 0, false, false, s.acked + [SKIP + 1])
  }

  lemma {:induction false} FirstMessage(s: Server)
    requires Fresh(s.m) && LimitsOk(s.m.limits) && s.cur == SKIP && s.safe == 0 && s.first && !s.writing
    requires 32 * 1024 * 1024 <= s.m.limits.maxFileSize
    ensures Enabled(s, WriteOp(Message(0))) && Enabled(Step(s, WriteOp(Message(0))), SettleOp(false))
    ensures Step(Step(s, WriteOp(Message(0))), SettleOp(false)) == AfterFirst(s)
  {
    hide AppendStep;
    FirstAppend(s.m, Message(0).(sid := SKIP + 1));
  }

  /** The crash that leaves no record at all; its torn record has not got its header. */
  function LoseAll(s: Server): Op {
    CrashOp(0, NewRecord([], Message(1).(sid := SKIP + 2)), [], s.limit)
  }

  /** With a file limit of 1: a record on each of two days, a crash before the second is on disk, and one record more. */
  function TwoDays(s: Server): seq<Op> {
    [WriteOp(Message(0)), SettleOp(false), WriteOp(Message(1)), LoseAll(s), WriteOp(Message(0)), SettleOp(false)]
  }

  lemma {:induction false} RunFrom(s: Server, ops: seq<Op>)
    requires ops != [] && Enabled(s, ops[0]) && Possible(Step(s, ops[0]), ops[1..])
    ensures Possible(s, ops) && Run(s, ops) == Run(Step(s, ops[0]), ops[1..])
  {
  }

  /** A run of six steps, in two times three. */
  lemma {:induction false} SixSteps(s: Server, ops: seq<Op>, end: Server)
    requires |ops| == 6
    requires Enabled(s, ops[0]) && Enabled(Step(s, ops[0]), ops[1])
    requires var s2 := Step(Step(s, ops[0]), ops[1]);
             && Enabled(s2, ops[2]) && Enabled(Step(s2, ops[2]), ops[3])
             && var s4 := Step(Step(s2, ops[2]), ops[3]);
             && Enabled(s4, ops[4]) && Enabled(Step(s4, ops[4]), ops[5]) && Step(Step(s4, ops[4]), ops[5]) == end
    ensures Possible(s, ops) && Run(s, ops) == end
  {
    hide Enabled, Step;
    var s2 := Step(Step(s, ops[0]), ops[1]);
    var s4 := Step(Step(s2, ops[2]), ops[3]);
    TwoSteps(s4, ops[4..], end);
    assert ops[2..][2..] == ops[4..] && ops[2..][0] == ops[2] && ops[2..][1] == ops[3];
    ThenTwo(s2, ops[2..], end);
    ThenTwo(s, ops, end);
  }

  lemma {:induction false} TwoSteps(s: Server, ops: seq<Op>, end: Server)
    requires |ops| == 2 && Enabled(s, ops[0]) && Enabled(Step(s, ops[0]), ops[1]) && Step(Step(s, ops[0]), ops[1]) == end
    ensures Possible(s, ops) && Run(s, ops) == end
  {
    hide Enabled, Step;
    assert ops[1..][0] == ops[1] && ops[1..][1..] == [];
    RunFrom(Step(s, ops[0]), ops[1..]);
    RunFrom(s, ops);
  }

  lemma {:induction false} ThenTwo(s: Server, ops: seq<Op>, end: Server)
    requires |ops| >= 2 && Enabled(s, ops[0]) && Enabled(Step(s, ops[0]), ops[1])
    requires Possible(Step(Step(s, ops[0]), ops[1]), ops[2..]) && Run(Step(Step(s, ops[0]), ops[1]), ops[2..]) == end
    ensures Possible(s, ops) && Run(s, ops) == end
  {
    hide Enabled, Step;
    assert ops[1..][0] == ops[1] && ops[1..][1..] == ops[2..];
    RunFrom(Step(s, ops[0]), ops[1..]);
    RunFrom(s, ops);
  }

  /** After losing all, the server is as it was, but for what it has acknowledged. */
  lemma {:induction false} Lost(s: Server, b: Server)
    requires FreshServer(s) && b.limit == s.limit && b.acked == [SKIP + 1] && b.m.limits == s.m.limits
    requires b.m.files != [] && Reopened(b.m, 0, NewRecord([], Message(1).(sid := SKIP + 2)), []).files == []
    requires Enabled(b, LoseAll(s))
    ensures Step(b, LoseAll(s)) == s.(acked := [SKIP + 1])
  {
    hide KeptFiles, Stored;
  }

  /** With one file and deletion an acknowledged sid is issued, and acknowledged, again. */
  lemma {:induction false} OneFileReissues(s: Server)
    requires FreshServer(s) && s.m.limits.delOut && s.m.limits.maxFileNum == 1
    ensures Possible(s, TwoDays(s)) && NoneTooLarge(s.m.limits, TwoDays(s))
    ensures Run(s, TwoDays(s)).acked == [SKIP + 1, SKIP + 1]
  {
    hide Step, Enabled, LoseAll, Message, FreshServer;
    FreshManager(s);
    AllMessages(s);
    FirstMessage(s);
    SecondDay(s, AfterFirst(s));
    var s4 := s.(acked := [SKIP + 1]);
    FirstMessage(s4);
    SixSteps(s, TwoDays(s), AfterFirst(s4));
  }

  lemma {:induction false} AllMessages(s: Server)
    requires FreshServer(s)
    ensures NoneTooLarge(s.m.limits, TwoDays(s)) && 32 * 1024 * 1024 <= s.m.limits.maxFileSize
  {
  }

  /** The second day's record and the crash. */
  lemma {:induction false} SecondDay(s: Server, s2: Server)
    requires FreshServer(s) && s.m.limits.delOut && s.m.limits.maxFileNum == 1 && s2 == AfterFirst(s)
    ensures Enabled(s2, WriteOp(Message(1))) && Enabled(Step(s2, WriteOp(Message(1))), LoseAll(s))
    ensures Step(Step(s2, WriteOp(Message(1))), LoseAll(s)) == s.(acked := [SKIP + 1])
  {
    hide AppendStep, Interrupted, Forgotten, Reopened, WellFormed;
    FreshManager(s);
    var a, b := Message(0).(sid := SKIP + 1), Message(1).(sid := SKIP + 2);
    OneFileForgets(s.m, a, b);
    FirstAppend(s.m, a);
    assert s2.m == AppendStep(s.m, a).0;
    NextDayAppend(s2.m, b);
    var s3 := Step(s2, WriteOp(Message(1)));
    assert s3.m == AppendStep(s2.m, b).0;
    assert s.acked + [SKIP + 1] == [SKIP + 1];
    Lost(s, s3);
  }

  // ------------------------------------------------- a record too large for any file

  /** A message too large for any file of these limits. */
  function HugeMessage(limits: Limits): Request {
    Message(1).(data := Zeros(limits.maxFileSize))
  }

  /** With a file limit of 2: a record, one too large on the next day, a crash, and one record more. */
  function HugeOnNextDay(s: Server): seq<Op> {
    [WriteOp(Message(0)), SettleOp(false), WriteOp(HugeMessage(s.m.limits)), LoseAll(s), WriteOp(Message(0)), SettleOp(false)]
  }

  /** The failed append and the crash. */
  lemma {:induction false} HugeFails(s: Server, s2: Server)
    requires FreshServer(s) && s.m.limits.delOut && s.m.limits.maxFileNum == 2 && s2 == AfterFirst(s)
    ensures var op := WriteOp(HugeMessage(s.m.limits));
            && Enabled(s2, op) && Enabled(Step(s2, op), LoseAll(s))
            && Step(Step(s2, op), LoseAll(s)) == s.(acked := [SKIP + 1])
  {
    hide AppendStep, Reopened, WellFormed, KeptFiles, Flat, Laid;
    FreshManager(s);
    var q := HugeMessage(s.m.limits).(sid := SKIP + 2);
    var s3 := Step(s2, WriteOp(HugeMessage(s.m.limits)));
    TooLargeOnNewDay(s2.m, q);
    assert s3.m == AppendStep(s2.m, q).0;
    var next := NewRecord([], Message(1).(sid := SKIP + 2));
    FirstContinues(Message(1).(sid := SKIP + 2), s.m.limits);
    assert s3.m.files[1].recs[..0] == [];
    assert Interrupted(s3.m, 0, next, []);
    EmptyRow(s3.m, next);
    assert s.acked + [SKIP + 1] == [SKIP + 1];
    Lost(s, s3);
  }

  lemma {:induction false} EmptyRow(m: Mgr, next: Record)
    requires m.limits.delOut && m.files != [] && Current(m).recs == [] && forall i :: 0 <= i < |m.files| ==> m.files[i].recs == []
    ensures Reopened(m, 0, next, []).files == []
  {
    hide NonEmpty;
    assert Stored(m) == m.files;
    RecoveredEmpty(m.files, 0, next, []);
    NonEmptyIs(RecoveredRow(m.files, 0, next, []));
  }

  lemma {:induction false} HugeReissues(s: Server)
    requires FreshServer(s) && s.m.limits.delOut && s.m.limits.maxFileNum == 2
    ensures Possible(s, HugeOnNextDay(s)) && Run(s, HugeOnNextDay(s)).acked == [SKIP + 1, SKIP + 1]
  {
    hide Step, Enabled, LoseAll, Message, FreshServer, HugeMessage;
    FreshManager(s);
    AllMessages(s);
    FirstMessage(s);
    HugeFails(s, AfterFirst(s));
    var s4 := s.(acked := [SKIP + 1]);
    FirstMessage(s4);
    SixSteps(s, HugeOnNextDay(s), AfterFirst(s4));
  }

  // ------------------------------------------------------------------ exactly when

  lemma {:induction false} TwiceIsNotRising(sid: nat)
    ensures !Rising([sid, sid])
  {
    assert [sid, sid][0] == [sid, sid][1];
  }

  /**
   * Exactly which limits keep acknowledged sids from being issued again, for a server started on an empty
   * log: files out of management are not deleted, or at least three files are managed.
   */
  lemma {:induction false} ReissueCondition(s: Server)
    requires FreshServer(s)
    ensures (forall ops :: Possible(s, ops) ==> Rising(Run(s, ops).acked)) <==>
            !s.m.limits.delOut || s.m.limits.maxFileNum >= 3
  {
    hide FreshServer, Possible, Run, Rising, Start;
    FreshStarts(s);
    if !s.m.limits.delOut || s.m.limits.maxFileNum >= 3 {
      forall ops | Possible(s, ops)
        ensures Rising(Run(s, ops).acked)
      {
        AckedNeverReissued(s, ops);
      }
    } else {
      TwiceIsNotRising(SKIP + 1);
      if s.m.limits.maxFileNum == 1 {
        OneFileReissues(s);
      } else {
        HugeReissues(s);
      }
    }
  }

  /** As long as no record is too large for a file, two managed files are enough. */
  lemma {:induction false} SmallReissueCondition(s: Server)
    requires FreshServer(s)
    ensures (forall ops :: Possible(s, ops) && NoneTooLarge(s.m.limits, ops) ==> Rising(Run(s, ops).acked)) <==>
            !s.m.limits.delOut || s.m.limits.maxFileNum >= 2
  {
    hide FreshServer, Possible, Run, Rising, NoneTooLarge, Start;
    FreshStarts(s);
    if !s.m.limits.delOut || s.m.limits.maxFileNum >= 2 {
      forall ops | Possible(s, ops) && NoneTooLarge(s.m.limits, ops)
        ensures Rising(Run(s, ops).acked)
      {
        AckedNeverReissued(s, ops);
      }
    } else {
      TwiceIsNotRising(SKIP + 1);
      OneFileReissues(s);
    }
  }

  lemma {:induction false} FreshStarts(s: Server)
    requires FreshServer(s)
    ensures Start(s) && s.m.limits.maxFileNum >= 1
  {
  }

  // ------------------------------------------------------------------- no slack

  /** Any number of records may be left of the current file. */
  lemma {:induction false} AnyLoss(m: Mgr, kept: nat)
    requires Sound(m) && kept < |Current(m).recs|
    ensures Interrupted(m, kept, Current(m).recs[kept], [])
  {
    hide Flat, EmptiesLast, Ascending, Continues;
    var recs := Current(m).recs;
    assert (m.out + m.files)[|m.out + m.files| - 1] == Current(m);
    assert FileOk(m.limits, Current(m));
    LaidAt(recs, kept);
    if kept < |recs| - 1 {
      Positions(recs, kept, |recs| - 1);
      LaidAt(recs, |recs| - 1);
    }
  }

  /** A server in the middle of a batch of `k` empty messages of one day, all in one file. */
  predicate InBatch(s: Server, k: nat) {
    && !s.first && !s.writing && s.m.valid && s.safe == 1
    && |s.m.files| == 1 && s.m.files[0].day == 0 && |s.m.files[0].recs| == k && EndOf(s.m.files[0].recs) == HEADER_SIZE * k
    && s.m.maxSid == s.cur && s.m.limits.maxFileSize >= 32 * 1024 * 1024
  }

  lemma {:induction false} WriteInBatch(s: Server, k: nat)
    requires InBatch(s, k) && k <= 2 * SKIP && s.cur + 1 < U64
    ensures Enabled(s, WriteOp(Message(0)))
    ensures var r := Step(s, WriteOp(Message(0)));
            && r.writing && InBatch(r.(writing := false), k + 1) && r.cur == s.cur + 1
            && r.unflushed == s.unflushed + 1 && r.limit == s.limit
  {
    var q := Message(0).(sid := s.cur + 1);
    var f := s.m.files[0];
    assert !NoRoom(s.m.limits, f.recs, 0);
    assert EndOf(f.recs + [NewRecord(f.recs, q)]) == HEADER_SIZE * (k + 1);
    assert s.m.files[..0] == [];
  }

  /** Messages written and settled one after the other, without time running out. */
  function Messages(n: nat): seq<Op> {
    if n == 0 then [] else [WriteOp(Message(0)), SettleOp(false)] + Messages(n - 1)
  }

  lemma {:induction false} BatchFills(s: Server, k: nat, n: nat)
    requires InBatch(s, k) && k + n <= 2 * SKIP && s.cur + n < U64 && s.unflushed + n <= s.limit
    ensures Possible(s, Messages(n))
    ensures var r := Run(s, Messages(n));
            InBatch(r, k + n) && r.cur == s.cur + n && r.unflushed == s.unflushed + n && r.limit == s.limit
    decreases n
  {
    if n > 0 {
      WriteInBatch(s, k);
      var t := Step(s, WriteOp(Message(0)));
      hide InBatch;
      BatchSettles(t, k + 1);
      var ops := Messages(n);
      assert ops[0] == WriteOp(Message(0)) && ops[1] == SettleOp(false) && ops[2..] == Messages(n - 1);
      BatchFills(Step(t, SettleOp(false)), k + 1, n - 1);
      ThenTwo(s, ops, Run(Step(t, SettleOp(false)), Messages(n - 1)));
    }
  }

  lemma {:induction false} BatchSettles(t: Server, k: nat)
    requires t.writing && InBatch(t.(writing := false), k) && t.unflushed <= t.limit
    ensures Enabled(t, SettleOp(false))
    ensures Step(t, SettleOp(false)) == t.(writing := false, acked := t.acked + [t.cur])
    ensures InBatch(Step(t, SettleOp(false)), k)
  {
  }

  lemma {:induction false} RunJoin(s: Server, a: seq<Op>, b: seq<Op>)
    requires Possible(s, a) && Possible(Run(s, a), b)
    ensures Possible(s, a + b) && Run(s, a + b) == Run(Run(s, a), b)
    decreases |a|
  {
    hide Enabled, Step;
    if a == [] {
      assert a + b == b;
    } else {
      assert (a + b)[1..] == a[1..] + b;
      RunJoin(Step(s, a[0]), a[1..], b);
    }
  }

  /** The first message, a full batch after it, and one message more that is not yet settled. */
  function FullBatch(): seq<Op> {
    [WriteOp(Message(0)), SettleOp(false)] + Messages(MAX_FLUSH_COUNT) + [WriteOp(Message(0))]
  }

  lemma {:induction false} FullBatchRuns(s: Server)
    requires FreshServer(s) && s.limit == MAX_FLUSH_COUNT
    ensures Possible(s, FullBatch())
    ensures var r := Run(s, FullBatch());
            r.writing && r.m.valid && r.safe == 1 && |CurrentRecs(r.m)| == 1 + SKIP && r.m.files != []
  {
    hide Enabled, Step, InBatch;
    FreshManager(s);
    AllMessages(s);
    FirstMessage(s);
    var a, b := [WriteOp(Message(0)), SettleOp(false)], Messages(MAX_FLUSH_COUNT);
    var one := AfterFirst(s);
    TwoSteps(s, a, one);
    AfterFirstInBatch(s);
    BatchFills(one, 1, MAX_FLUSH_COUNT);
    RunJoin(s, a, b);
    var full := Run(one, b);
    InBatchCur(full, 1 + MAX_FLUSH_COUNT);
    WriteInBatch(full, 1 + MAX_FLUSH_COUNT);
    InBatchRecs(Step(full, WriteOp(Message(0))), 1 + SKIP);
    assert [WriteOp(Message(0))][1..] == [];
    RunFrom(full, [WriteOp(Message(0))]);
    RunJoin(s, a + b, [WriteOp(Message(0))]);
  }

  lemma {:induction false} AfterFirstInBatch(s: Server)
    requires FreshServer(s)
    ensures InBatch(AfterFirst(s), 1) && AfterFirst(s).cur == SKIP + 1 && AfterFirst(s).unflushed == 0
  {
  }

  lemma {:induction false} InBatchCur(s: Server, k: nat)
    requires InBatch(s, k)
    ensures |CurrentRecs(s.m)| == k
  {
  }

  lemma {:induction false} InBatchRecs(s: Server, k: nat)
    requires s.writing && InBatch(s.(writing := false), k)
    ensures |CurrentRecs(s.m)| == k && s.safe == 1 && s.m.files != [] && s.m.valid
  {
  }

  /**
   * The skip has no slack: with the largest batch a crash can take issued sids up to the very one that the
   * restart begins after.
   */
  lemma {:induction false} SkipIsTight(s: Server)
    requires FreshServer(s) && s.limit == MAX_FLUSH_COUNT
    ensures Possible(s, FullBatch())
    ensures var r := Run(s, FullBatch());
            && 1 < |CurrentRecs(r.m)|
            && var next := CurrentRecs(r.m)[1];
            && Enabled(r, CrashOp(1, next, [], s.limit))
            && r.writing && Restart(r, 1, next, [], s.limit).cur == r.cur
  {
    FullBatchRuns(s);
    FreshStarts(s);
    StartInv(s);
    RunKeeps(s, FullBatch());
    TightAt(Run(s, FullBatch()), s.limit);
  }

  lemma {:induction false} TightAt(r: Server, limit: nat)
    requires Inv(r) && r.m.valid && r.m.files != [] && r.safe == 1 && |CurrentRecs(r.m)| == 1 + SKIP && limit <= MAX_FLUSH_COUNT
    ensures var next := CurrentRecs(r.m)[1];
            && Enabled(r, CrashOp(1, next, [], limit))
            && Restart(r, 1, next, [], limit).cur == r.cur
  {
    hide Flat, Laid, RowOk, Ascending, WellFormed, Interrupted, Continues;
    var next := CurrentRecs(r.m)[1];
    AnyLoss(r.m, 1);
    OpenedLog(r, 1, next, []);
    var left := LeftOf(r.m, 1);
    assert left + [] == left;
  }
}
