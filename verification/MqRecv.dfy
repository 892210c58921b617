// The handler that takes messages from senders, on a real manager: what one message does to the
// application's sid counter, the batch and the log, whether it succeeds or fails half way.
module MqRecv {
  import BinLogFile
  import opened MgrSpec
  import opened MgrInvariant
  import opened MgrReopen
  import opened SidIssue
  import BinLogMgr

  lemma {:induction false} AppendedIsValid(m: Mgr, q: Request)
    ensures AppendStep(m, q).1 ==> AppendStep(m, q).0.valid && AppendStep(m, q).0.files != []
  {
    hide NoRoom, Evicted;
  }

  lemma {:induction false} AppendedAdds(m: Mgr, q: Request)
    requires WellFormed(m) && Fits(q) && AppendStep(m, q).1
    ensures AppendStep(m, q).0.files != [] && AddsOne(History(m), History(AppendStep(m, q).0), q)
  {
    hide Roll, Store, WriteLast, AddsOne;
    AppendOutcome(m, q);
  }

  lemma {:induction false} SameFileIs(m: Mgr, r: Mgr)
    ensures SameFile(m, r) <==>
            m.files != [] && r.files != [] && r.files[|r.files| - 1].no == m.files[|m.files| - 1].no
  {
  }

  class RecvHandler {
    const mgr: BinLogMgr.Manager
    const limit: nat
    var cur: nat
    var unflushed: nat
    var first: bool
    ghost var safe: nat
    ghost var acked: seq<nat>

    /** The server of SidIssue this handler stands for; `writing` is whether a message is half way. */
    ghost function Value(writing: bool): Server
      reads this, mgr, mgr.files
    {
      Server(limit, mgr.Abs(), safe, cur, unflushed, first, writing, acked)
    }

    /** The start on a manager that has been opened. */
    constructor (manager: BinLogMgr.Manager, flushNum: nat)
      requires manager.Valid()
      ensures mgr == manager && limit == if flushNum < 1 then 1 else if flushNum > MAX_FLUSH_COUNT then MAX_FLUSH_COUNT else flushNum
      ensures WellFormed(mgr.Abs()) && mgr.valid && mgr.cursors == map[] ==> Start(Value(false))
    {
      hide BinLogMgr.Views, BinLogMgr.Row, BinLogFile.File.Valid, CurrentRecs, BinLogMgr.Manager.Valid, WellFormed;
      mgr := manager;
      limit := if flushNum < 1 then 1 else if flushNum > MAX_FLUSH_COUNT then MAX_FLUSH_COUNT else flushNum;
      cur, unflushed, first := manager.maxSid + SKIP, 0, true;
      safe, acked := |CurrentRecs(manager.Abs())|, [];
    }

    /** The file that is written. */
    ghost function Newest(): BinLogFile.File
      requires mgr.files != []
      reads mgr
    {
      mgr.files[|mgr.files| - 1]
    }

    /** What the manager's state says about it. */
    lemma {:induction false} Seen()
      ensures mgr.Abs().valid == mgr.valid && (mgr.files == [] <==> mgr.Abs().files == [])
      ensures mgr.files != [] ==>
                var f := mgr.Abs().files[|mgr.Abs().files| - 1];
                f.no == Newest().fileNo && f.recs == Newest().recs && CurrentRecs(mgr.Abs()) == f.recs
    {
      hide BinLogMgr.Row;
      BinLogMgr.ViewsAre(mgr.files);
    }

    /** Flushes what has been appended; `flushOk` says whether the disk takes it. */
    method Commit(flushOk: bool) returns (ok: bool)
      requires mgr.Valid() && mgr.valid
      modifies this`safe, this`unflushed, mgr`valid, mgr.files
      ensures mgr.Valid() && mgr.files == old(mgr.files) && ok == flushOk
      ensures mgr.Abs() == old(mgr.Abs()).(valid := flushOk) && mgr.valid == flushOk
      ensures History(mgr.Abs()) == old(History(mgr.Abs()))
      ensures ok ==> unflushed == 0 && safe == |CurrentRecs(mgr.Abs())| && (mgr.files != [] ==> safe == |Newest().recs|)
      ensures !ok ==> unflushed == old(unflushed) && safe == old(safe)
    {
      hide BinLogMgr.Views, BinLogMgr.Row, BinLogFile.File.Valid;
      ok := flushOk;
      if flushOk {
        var done := mgr.Commit();
        unflushed, safe := 0, |CurrentRecs(mgr.Abs())|;
        Seen();
      } else {
        mgr.valid := false;
      }
    }

    /** A sid is issued and its record appended. */
    method Store(q: Request) returns (ok: bool)
      requires mgr.Valid() && mgr.valid && Fits(q.(sid := cur + 1)) && |q.data| < BinLogFile.MAX_DATA
      modifies this`cur, this`safe, this`unflushed, mgr, mgr.files
      ensures mgr.Valid() && (ok ==> mgr.valid)
      ensures Value(ok) == Write(old(Value(false)), q)
      ensures cur == old(cur) + 1 && unflushed == old(unflushed) + if ok then 1 else 0
      ensures safe == if old(mgr.files) != [] && mgr.files != [] && Newest().fileNo == old(Newest().fileNo) then old(safe) else 0
      ensures ok ==> mgr.files != []
      ensures ok && old(WellFormed(mgr.Abs())) ==>
                AddsOne(History(old(mgr.Abs())), History(mgr.Abs()), q.(sid := cur))
      ensures forall i :: 0 <= i < |mgr.files| ==> mgr.files[i] in old(mgr.files) || fresh(mgr.files[i])
    {
      hide AppendStep, SameFile, AddsOne, WellFormed, History, CurrentRecs, BinLogMgr.Manager.Abs, BinLogMgr.Manager.Valid;
      cur := cur + 1;
      ghost var m := mgr.Abs();
      Seen();
      ok := mgr.Append(q.(sid := cur));
      AppendedIsValid(m, q.(sid := cur));
      Seen();
      if ok && WellFormed(m) {
        AppendedAdds(m, q.(sid := cur));
      }
      SameFileIs(m, mgr.Abs());
      safe := if SameFile(m, mgr.Abs()) then safe else 0;
      if ok {
        unflushed := unflushed + 1;
      }
    }

    /** The batch is flushed if it is due, and then the run's first record. */
    method Finish(timeUp: bool, flushOk: bool) returns (ok: bool)
      requires mgr.Valid() && mgr.valid
      modifies this`safe, this`unflushed, this`first, this`acked, mgr`valid, mgr.files
      ensures mgr.Valid()
      ensures ok == (BatchDue(old(Value(true)), timeUp) || old(first) ==> flushOk)
      ensures Value(false) == if ok then Settle(old(Value(true)), timeUp) else SettleFails(old(Value(true)), timeUp)
      ensures mgr.files == old(mgr.files) && History(mgr.Abs()) == old(History(mgr.Abs()))
      ensures ok == (timeUp || old(unflushed) > limit || old(first) ==> flushOk) && mgr.valid == ok
      ensures ok && (timeUp || old(unflushed) > limit || old(first)) ==>
                unflushed == 0 && (mgr.files != [] ==> safe == |Newest().recs|)
      ensures ok && !(timeUp || old(unflushed) > limit || old(first)) ==> unflushed == old(unflushed) && safe == old(safe)
      ensures !ok ==>
                && safe == old(safe)
                && if timeUp || old(unflushed) > limit then unflushed == 0 && first == old(first)
                   else unflushed == old(unflushed) && !first
      ensures acked == old(acked) + if ok then [cur] else []
      ensures ok ==> !first
    {
      hide BinLogMgr.Views, BinLogMgr.Row, BinLogFile.File.Valid, CurrentRecs, BinLogMgr.Manager.Valid, BinLogMgr.Manager.Abs, History, Newest;
      Seen();
      ok := true;
      if unflushed > limit || timeUp {
        unflushed := 0;
        ok := Commit(flushOk);
      }
      if ok && first {
        first := false;
        ok := Commit(flushOk);
      }
      if ok {
        acked := acked + [cur];
      }
    }

    /**
     * One message: it is given a sid, appended, committed if that is due, and answered with the sid. A
     * message that meets a failed manager, cannot be appended or cannot be flushed is answered with an error.
     * `flushOk` is whether the disk takes what this message flushes.
     */
    method OnRecvMsg(q: Request, timeUp: bool, flushOk: bool) returns (ok: bool, sid: nat)
      requires mgr.Valid() && Fits(q.(sid := cur + 1)) && |q.data| < BinLogFile.MAX_DATA
      modifies this, mgr, mgr.files
      ensures mgr.Valid()
      ensures !old(mgr.valid) ==> !ok && sid == 0 && Value(false) == old(Value(false))
      ensures var w := Write(old(Value(false)), q);
              old(mgr.valid) ==>
                && sid == w.cur
                && (ok <==> w.writing && (BatchDue(w, timeUp) || w.first ==> flushOk))
                && Value(false) == if !w.writing then w else if ok then Settle(w, timeUp) else SettleFails(w, timeUp)
      ensures old(mgr.valid) ==> sid == cur == old(cur) + 1
      ensures ok ==> old(mgr.valid) && !first && mgr.valid && mgr.files != []
      ensures ok && old(WellFormed(mgr.Abs())) ==> AddsOne(History(old(mgr.Abs())), History(mgr.Abs()), q.(sid := sid))
      ensures ok && (timeUp || old(unflushed) + 1 > limit || old(first)) ==>
                flushOk && unflushed == 0 && safe == |Newest().recs|
      ensures ok && !timeUp && old(unflushed) + 1 <= limit && !old(first) ==>
                && unflushed == old(unflushed) + 1
                && safe == if old(mgr.files) != [] && Newest().fileNo == old(Newest().fileNo) then old(safe) else 0
      ensures acked == old(acked) + if ok then [sid] else []
    {
      hide AppendStep, SameFile, BinLogMgr.Views, BinLogMgr.Row, BinLogFile.File.Valid, BinLogMgr.Manager.Valid, BinLogMgr.Manager.Abs;
      ok, sid := false, 0;
      if !mgr.valid {
        return;
      }
      ok := Store(q);
      sid := cur;
      if ok {
        ok := Finish(timeUp, flushOk);
      }
    }

    /** The timer flushes a batch that is due, also when no message comes. */
    method OnTimeoutCheck(timeUp: bool, flushOk: bool)
      requires mgr.Valid()
      modifies this`safe, this`unflushed, mgr`valid, mgr.files
      ensures mgr.Valid() && mgr.files == old(mgr.files) && History(mgr.Abs()) == old(History(mgr.Abs()))
      ensures old(mgr.valid) && (timeUp || old(unflushed) > limit) && flushOk ==>
                && Value(false) == Flush(old(Value(false)))
                && mgr.valid && unflushed == 0 && (mgr.files != [] ==> safe == |Newest().recs|)
      ensures old(mgr.valid) && (timeUp || old(unflushed) > limit) && !flushOk ==>
                !mgr.valid && unflushed == old(unflushed) && safe == old(safe)
      ensures !old(mgr.valid) || !(timeUp || old(unflushed) > limit) ==> Value(false) == old(Value(false))
    {
      hide BinLogMgr.Views, BinLogMgr.Row, BinLogFile.File.Valid, CurrentRecs, BinLogMgr.Manager.Valid;
      if mgr.valid && (unflushed > limit || timeUp) {
        var _ := Commit(flushOk);
      }
    }
  }
}
