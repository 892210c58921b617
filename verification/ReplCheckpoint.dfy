// The checkpoint of a source and the sessions: where a session resumes, what a reply logs, and that the
// checkpoint catches up with the log.
module ReplCheckpoint {
  import opened FlatLog
  import opened Wrappers
  import opened ReplSpec
  import opened ReplInvariant
  import opened ReplRuns
  import opened ReplTheorems
  import opened ReplDelivery

  // ----------------------------------------------------------------- resuming

  /**
   * A receiver process that has saved nothing resumes exactly from the sid its checkpoint file is loaded with;
   * where there is no file one is made with sid 0. Any other resumes right after the last record it has saved.
   */
  lemma {:induction false} ResumesFromCheckpoint(sys: System, ops: seq<Op>, r: nat, conns: nat, chunk: nat, loaded: nat)
    requires Start(sys) && LogOk(sys.log) && Possible(sys, ops)
    requires Enabled(Run(sys, ops), On(r, Open(conns, chunk, loaded)))
    ensures var s := Run(sys, ops);
            var s' := Step(s, On(r, Open(conns, chunk, loaded)));
            && r < |s'.ends| && s'.created && s'.ends[r].session.Some?
            && var e, e' := s.ends[r], s'.ends[r];
            var start := e'.session.value.sender.start;
            && e'.saved == e.saved && |e'.session.value.conns| == conns && e'.session.value.sender.chunk == chunk
            && (e.saved == [] ==> e'.first == start == if s.created then loaded else 0)
            && (e.saved != [] ==> e'.first == e.first && start == e.saved[|e.saved| - 1].sid)
            && s'.logged == (if s.created then s.logged else s.logged + {start})
            && s'.base == s.base && s'.late == s.late && s'.history == s.history && s'.log == s.log
  {
    hide SyncSend, Run;
    LinkIs(sys, ops, r);
    var l := LinkOf(Run(sys, ops), r);
    var sender := Sender(0, Unseek, false, StartOf(l, loaded), chunk);
    SendKeepsStart(Session(sender, seq(conns, _ => CLOSED), 0, map[], [], |l.saved|), l.log, 0);
    if l.saved != [] {
      SavedPositive(l.log, l.first, l.saved);
    }
  }

  lemma {:induction false} SendKeepsStart(t: Session, log: seq<Item>, i: nat)
    requires LogOk(log) && Placed(t.sender, log) && i < |t.conns|
    ensures var t' := SendOn(t, log, i);
            t'.sender.start == t.sender.start && t'.sender.chunk == t.sender.chunk && |t'.conns| == |t.conns|
  {
    hide SyncSend, LogOk;
    SendTakes(t.sender, log);
  }

  /** A restarted process has saved nothing and is in no session, so it resumes from the checkpoint as well. */
  lemma {:induction false} RestartForgets(sys: System, r: nat)
    requires r < |sys.ends|
    ensures var s := Step(sys, On(r, RestartReceiver));
            && s.ends == sys.ends[r := End(0, [], None)]
            && s.log == sys.log && s.history == sys.history && s.created == sys.created
            && s.base == sys.base && s.logged == sys.logged && sys.late <= s.late
  {
    hide Underway;
  }

  predicate NoRestart(ops: seq<Op>, r: nat) {
    forall i :: 0 <= i < |ops| ==> ops[i] != On(r, RestartReceiver)
  }

  /** The checkpoint of the last session that `r` opened while its process had saved nothing, or `first` without one. */
  function LastLoaded(sys: System, ops: seq<Op>, r: nat, first: nat): nat
    requires Possible(sys, ops)
    decreases |ops|
  {
    if ops == [] then first
    else
      var resumes := ops[0].On? && ops[0].r == r && ops[0].act.Open? && sys.ends[r].saved == [];
      LastLoaded(Step(sys, ops[0]), ops[1..], r, if resumes then ops[0].act.loaded else first)
  }

  lemma {:induction false} FirstIsLastLoaded(sys: System, ops: seq<Op>, r: nat)
    requires SystemOk(sys) && sys.created && Possible(sys, ops) && NoRestart(ops, r) && r < |sys.ends|
    ensures r < |Run(sys, ops).ends| && Run(sys, ops).ends[r].first == LastLoaded(sys, ops, r, sys.ends[r].first)
    decreases |ops|
  {
    if ops != [] {
      hide SystemOk, Step, Enabled;
      StepKeeps(sys, ops[0]);
      assert ops[0] != On(r, RestartReceiver);
      FirstAfter(sys, ops[0], r);
      assert forall i :: 0 <= i < |ops[1..]| ==> ops[1..][i] == ops[i + 1];
      FirstIsLastLoaded(Step(sys, ops[0]), ops[1..], r);
    }
  }

  lemma {:induction false} FirstAfter(sys: System, op: Op, r: nat)
    requires Enabled(sys, op) && op != On(r, RestartReceiver) && SystemOk(sys) && sys.created && r < |sys.ends|
    ensures var s := Step(sys, op);
            && s.created && r < |s.ends|
            && s.ends[r].first == if op.On? && op.r == r && op.act.Open? && sys.ends[r].saved == [] then op.act.loaded
                                  else sys.ends[r].first
  {
    hide SendOn, Recv, Reply, Items, Underway, SystemOk;
  }

  lemma {:induction false} SavedSids(sys: System, r: nat)
    requires SystemOk(sys) && r < |sys.ends|
    ensures var e := sys.ends[r];
            && (e.saved != [] ==> MaxSid(e.saved) >= 1)
            && forall k :: 0 <= k < |e.saved| ==> e.saved[k].sid > e.first
  {
    hide SafeFrom, High;
    var l := LinkOf(sys, r);
    assert LinkOk(l);
    var u := Above(l.log, l.first);
    forall k | 0 <= k < |l.saved|
      ensures l.saved[k].sid > l.first && l.saved[k].sid >= 1
    {
      assert l.saved[k] == l.log[u + k];
      assert k > 0 ==> l.log[u].sid < l.log[u + k].sid;
    }
  }

  /**
   * What is saved over any run after that, as long as the process does not restart: every record is above the sid
   * loaded last before anything was saved. So each is above the sid loaded here if and only if nothing is saved, or
   * no later session has gone back to a checkpoint with records of the log between the two.
   */
  lemma {:induction false} AboveCheckpointIff(sys: System, ops: seq<Op>, r: nat, conns: nat, chunk: nat, loaded: nat, more: seq<Op>)
    requires Start(sys) && LogOk(sys.log) && Possible(sys, ops)
    requires var s := Run(sys, ops); Enabled(s, On(r, Open(conns, chunk, loaded))) && s.created && s.ends[r].saved == []
    requires Possible(Step(Run(sys, ops), On(r, Open(conns, chunk, loaded))), more) && NoRestart(more, r)
    ensures var s0 := Step(Run(sys, ops), On(r, Open(conns, chunk, loaded)));
            var s, low := Run(s0, more), LastLoaded(s0, more, r, loaded);
            && r < |s.ends|
            && var saved := s.ends[r].saved;
            && (forall k :: 0 <= k < |saved| ==> saved[k].sid > low)
            && ((forall k :: 0 <= k < |saved| ==> saved[k].sid > loaded) <==>
                saved == [] || forall x :: x in s.log ==> !(low < x.sid <= loaded))
  {
    hide SystemOk, Step, Enabled, Run, Possible, LastLoaded;
    StartOk(sys);
    RunKeeps(sys, ops);
    var op := On(r, Open(conns, chunk, loaded));
    var s0 := Step(Run(sys, ops), op);
    StepKeeps(Run(sys, ops), op);
    ResumesFromCheckpoint(sys, ops, r, conns, chunk, loaded);
    FirstIsLastLoaded(s0, more, r);
    RunKeeps(s0, more);
    SavedSids(Run(s0, more), r);
    if Run(s0, more).ends[r].saved != [] {
      SavedFrom(Run(s0, more), r);
    }
  }

  /** A receiver that has saved anything has saved the first record above where it started. */
  lemma {:induction false} SavedFrom(sys: System, r: nat)
    requires SystemOk(sys) && r < |sys.ends| && sys.ends[r].saved != []
    ensures sys.ends[r].saved[0] in sys.log
    ensures forall x :: x in sys.log && x.sid > sys.ends[r].first ==> sys.ends[r].saved[0].sid <= x.sid
    ensures forall k :: 0 <= k < |sys.ends[r].saved| ==> sys.ends[r].saved[k] in sys.log
  {
    hide SafeFrom, High;
    var l := LinkOf(sys, r);
    assert LinkOk(l);
    var u := Above(l.log, l.first);
    assert l.saved[0] == l.log[u];
    forall k | 0 <= k < |l.saved|
      ensures l.saved[k] in l.log
    {
      assert l.saved[k] == l.log[u + k];
    }
  }

  /**
   * A session may go back like that: wherever the file may hold a smaller sid again, after a crash, there is a run
   * without a restart of the receiver in which it saves a given record between the two.
   */
  lemma {:induction false} ResumesLower(sys: System, ops: seq<Op>, r: nat, loaded: nat, low: nat, x: Item) returns (more: seq<Op>)
    requires Start(sys) && LogOk(sys.log) && Possible(sys, ops)
    requires var s := Run(sys, ops); Enabled(s, On(r, Open(1, 0, loaded))) && s.created && s.ends[r].saved == []
    requires low in Run(sys, ops).logged && x in Run(sys, ops).log && low < x.sid <= loaded
    ensures var s0 := Step(Run(sys, ops), On(r, Open(1, 0, loaded)));
            && Possible(s0, more) && NoRestart(more, r)
            && var s := Run(s0, more); r < |s.ends| && x in s.ends[r].saved
  {
    hide SystemOk, Run, SendOn, Underway, Above;
    StartOk(sys);
    RunKeeps(sys, ops);
    var s := Run(sys, ops);
    var s0, close, open := Step(s, On(r, Open(1, 0, loaded))), On(r, Close), On(r, Open(1, 0, low));
    StepKeeps(s, On(r, Open(1, 0, loaded)));
    ResumesFromCheckpoint(sys, ops, r, 1, 0, loaded);
    var s1 := Step(s0, close);
    StepKeeps(s0, close);
    var s2 := Step(s1, open);
    StepKeeps(s1, open);
    FirstAfter(s1, open, r);
    var rest := Completes(s2, r);
    more := [close, open] + rest;
    TwoFirst(s0, close, open, rest);
    AboveKeeps(s.log, low, x);
    assert forall i :: 2 <= i < |more| ==> more[i] == rest[i - 2];
  }

  /** That comes about: another receiver logs the sid, this one resumes from there, and then from the file as it was. */
  lemma {:induction false} CheckpointGoesBack(x: Item) returns (sys: System, ops: seq<Op>, more: seq<Op>)
    requires x.sid >= 1 && x.packed >= 1 && x.good
    ensures Start(sys) && LogOk(sys.log) && Possible(sys, ops)
    ensures var s := Run(sys, ops);
            && Enabled(s, On(1, Open(1, 0, x.sid))) && s.created && s.ends[1].saved == []
            && var s0 := Step(s, On(1, Open(1, 0, x.sid)));
            && s0.ends[1].first == x.sid && Possible(s0, more) && NoRestart(more, 1)
            && 1 < |Run(s0, more).ends| && x in Run(s0, more).ends[1].saved
  {
    hide Step, Enabled, Half;
    sys := System([x], 0, false, {}, {}, [], [End(0, [], None), End(0, [], None)]);
    var s1 := Shipping(sys, x);
    var s2 := Saving(s1, x);
    var s3 := Acked(s2, x);
    var s4 := Resumed(s3, x);
    ops := [On(0, Ack(0))] + [];
    OpFirst(s2, On(0, Ack(0)), []);
    OpFirst(s1, On(0, Receive(0)), ops);
    ops := [On(0, Receive(0))] + ops;
    OpFirst(sys, On(0, Open(1, 0, 0)), ops);
    ops := [On(0, Open(1, 0, 0))] + ops;
    more := ResumesLower(sys, ops, 1, x.sid, 0, x);
  }

  lemma {:induction false} TwoFirst(sys: System, a: Op, b: Op, rest: seq<Op>)
    requires Enabled(sys, a) && Enabled(Step(sys, a), b) && Possible(Step(Step(sys, a), b), rest)
    ensures Possible(sys, [a, b] + rest) && Run(sys, [a, b] + rest) == Run(Step(Step(sys, a), b), rest)
  {
    hide Step, Enabled;
    var ops := [a, b] + rest;
    assert ops[1..] == [b] + rest && ops[1..][1..] == rest;
  }

  lemma {:induction false} AboveKeeps(log: seq<Item>, low: nat, x: Item)
    requires x in log && x.sid > low
    ensures x in log[Above(log, low)..]
  {
    var j :| 0 <= j < |log| && log[j] == x;
    assert log[Above(log, low)..][j - Above(log, low)] == x;
  }

  // ------------------------------------------------------------------- logging

  /** A reply logs the sid of the last record of the packet it answers; all of that packet has been saved. */
  lemma {:induction false} ReplyLogsPacket(sys: System, ops: seq<Op>, r: nat, i: nat)
    requires Start(sys) && LogOk(sys.log) && Possible(sys, ops) && Enabled(Run(sys, ops), On(r, Ack(i)))
    ensures var s := Run(sys, ops);
            var t := s.ends[r].session.value;
            var k := t.conns[i].up[0];
            && k < |t.sent| && t.sent[k].conn == i && t.sent[k].packet.items != []
            && var items := t.sent[k].packet.items;
            && Step(s, On(r, Ack(i))).logged == s.logged + {items[|items| - 1].sid}
            && forall x :: x in items ==> x in s.ends[r].saved
  {
    hide SendOn, SyncSend, Run;
    LinkIs(sys, ops, r);
    var s := Run(sys, ops);
    var l := LinkOf(s, r);
    var t := l.session.value;
    UpIsFinished(t, i);
    AnsweredIsSaved(l, t, i);
  }

  lemma {:induction false} AnsweredIsSaved(l: Link, t: Session, i: nat)
    requires SessionOk(l, t) && i < |t.conns| && t.conns[i].up != []
    ensures var k := t.conns[i].sentSeq;
            k < t.next <= |t.sent| && t.sent[k].conn == i && forall x :: x in t.sent[k].packet.items ==> x in l.saved
  {
    hide Shipped, Items;
    UpIsFinished(t, i);
    var k := t.conns[i].sentSeq;
    assert ConnOk(t, i);
    PacketInItems(t.sent[..t.next], k);
    forall x | x in t.sent[k].packet.items
      ensures x in l.saved
    {
      assert x in l.saved[t.had..];
    }
  }

  lemma {:induction false} PacketInItems(ms: seq<Msg>, k: nat)
    requires k < |ms|
    ensures forall x :: x in ms[k].packet.items ==> x in Items(ms)
  {
    if k < |ms| - 1 {
      PacketInItems(ms[..|ms| - 1], k);
    }
  }

  /** A reply under way when its session ends, or its receiver restarts, may still log its sid. */
  lemma {:induction false} LateReplyLogs(sys: System, r: nat, i: nat, act: Act)
    requires r < |sys.ends| && sys.ends[r].session.Some? && (act == Close || act == RestartReceiver)
    requires var t := sys.ends[r].session.value; i < |t.conns| && t.conns[i].up != []
    ensures var s := Step(sys, On(r, act));
            var sid := sys.ends[r].session.value.conns[i].lastSid;
            && s.ends[r].session == None
            && Enabled(s, LateAck(sid)) && Step(s, LateAck(sid)).logged == sys.logged + {sid}
  {
    InUnderway(sys.ends[r].session.value.conns, i);
  }

  // --------------------------------------------------------------- catching up

  /** The last sid of every packet answered has been logged. */
  predicate Settled(t: Session, logged: set<nat>) {
    forall k :: 0 <= k < |t.sent| ==> Unanswered(t, k) || MaxSid(t.sent[k].packet.items) in logged
  }

  predicate SettledLink(l: Link) {
    l.session.Some? ==> Settled(l.session.value, l.logged)
  }

  predicate AllSettled(sys: System) {
    forall r :: 0 <= r < |sys.ends| ==> SettledLink(LinkOf(sys, r))
  }

  /** Sending on a connection of which every packet has been logged. */
  lemma {:induction false} SendSettles(t: Session, log: seq<Item>, i: nat, logged: set<nat>)
    requires Placed(t.sender, log) && i < |t.conns| && t.sender.seqNo == |t.sent|
    requires forall k :: 0 <= k < |t.sent| ==>
               (t.sent[k].conn != i && Unanswered(t, k)) || MaxSid(t.sent[k].packet.items) in logged
    ensures Settled(SendOn(t, log, i), logged)
  {
    hide SyncSend;
    var t' := SendOn(t, log, i);
    forall k | 0 <= k < |t'.sent|
      ensures Unanswered(t', k) || MaxSid(t'.sent[k].packet.items) in logged
    {
      assert k < |t.sent| ==> t'.sent[k] == t.sent[k];
    }
  }

  lemma {:induction false} ReplyKeepsNotes(conns: seq<Conn>, ms: seq<Msg>)
    ensures forall j :: 0 <= j < |conns| ==>
              var c := Reply(conns, ms)[j];
              c.joined == conns[j].joined && c.redo == conns[j].redo && c.sentSeq == conns[j].sentSeq
  {
    if ms != [] {
      ReplyKeepsNotes(conns, ms[..|ms| - 1]);
    }
  }

  lemma {:induction false} SameNotesSettle(t: Session, t': Session, logged: set<nat>)
    requires Settled(t, logged) && t'.sent == t.sent && |t'.conns| == |t.conns|
    requires forall j :: 0 <= j < |t.conns| ==>
               t'.conns[j].joined == t.conns[j].joined && t'.conns[j].redo == t.conns[j].redo && t'.conns[j].sentSeq == t.conns[j].sentSeq
    ensures Settled(t', logged)
  {
    forall k | 0 <= k < |t'.sent|
      ensures Unanswered(t', k) || MaxSid(t'.sent[k].packet.items) in logged
    {
      assert Unanswered(t, k) || MaxSid(t.sent[k].packet.items) in logged;
    }
  }

  lemma {:induction false} ReceiveSettles(l: Link, i: nat)
    requires SettledLink(l) && CanAct(l, Receive(i))
    ensures SettledLink(ReceiveStep(l, l.session.value, i))
  {
    hide Recv, Reply, Items, Settled;
    var t := l.session.value;
    var c := t.conns[i];
    var done := Recv(t.next, t.msgs, Msg(c.down[0], i)).0;
    ReplyKeepsNotes(t.conns[i := c.(down := c.down[1..])], done);
    SameNotesSettle(t, ReceiveStep(l, t, i).session.value, l.logged);
  }

  lemma {:induction false} AckSettles(l: Link, i: nat)
    requires LinkOk(l) && SettledLink(l) && CanAct(l, Ack(i))
    ensures SettledLink(AckStep(l, l.session.value, i))
  {
    hide SendOn, SyncSend, Shipped, Items, Core;
    var t := l.session.value;
    var c := t.conns[i];
    UpIsFinished(t, i);
    var t' := t.(conns := t.conns[i := c.(up := c.up[1..])]);
    forall k | 0 <= k < |t.sent|
      ensures (t'.sent[k].conn != i && Unanswered(t', k)) || MaxSid(t'.sent[k].packet.items) in l.logged + {c.lastSid}
    {
      assert Unanswered(t, k) || MaxSid(t.sent[k].packet.items) in l.logged;
    }
    SendSettles(t', l.log, i, l.logged + {c.lastSid});
  }

  lemma {:induction false} TurnSettles(l: Link, i: nat)
    requires LinkOk(l) && SettledLink(l) && (CanAct(l, Join(i)) || CanAct(l, Redo(i)))
    ensures SettledLink(l.(session := Some(SendOn(l.session.value, l.log, i))))
  {
    hide SendOn, SyncSend, Shipped, Items, Core;
    var t := l.session.value;
    forall k | 0 <= k < |t.sent|
      ensures (t.sent[k].conn != i && Unanswered(t, k)) || MaxSid(t.sent[k].packet.items) in l.logged
    {
      assert Unanswered(t, k) || MaxSid(t.sent[k].packet.items) in l.logged;
    }
    SendSettles(t, l.log, i, l.logged);
  }

  lemma {:induction false} ActSettles(l: Link, act: Act)
    requires LinkOk(l) && SettledLink(l) && CanAct(l, act)
    ensures SettledLink(ActStep(l, act)) && l.logged <= ActStep(l, act).logged
  {
    hide LinkOk, Settled, SendOn, Recv, Reply, Items;
    match act {
      case Open(conns, chunk, loaded) => OpenSettles(l, conns, chunk, loaded);
      case Join(i) => TurnSettles(l, i);
      case Redo(i) => TurnSettles(l, i);
      case Receive(i) => ReceiveSettles(l, i);
      case ReceiveFails(i, packets, items) =>
      case Ack(i) => AckSettles(l, i);
      case Close =>
      case RestartReceiver =>
    }
  }

  lemma {:induction false} OpenSettles(l: Link, conns: nat, chunk: nat, loaded: nat)
    requires CanAct(l, Open(conns, chunk, loaded))
    ensures SettledLink(OpenStep(l, conns, chunk, loaded))
  {
    hide SendOn;
    var start := StartOf(l, loaded);
    var t := Session(Sender(0, Unseek, false, start, chunk), seq(conns, _ => CLOSED), 0, map[], [], |l.saved|);
    SendSettles(t, l.log, 0, OpenStep(l, conns, chunk, loaded).logged);
  }

  lemma {:induction false} MoreLogged(l: Link, logged: set<nat>)
    requires SettledLink(l) && l.logged <= logged
    ensures SettledLink(l.(logged := logged))
  {
  }

  lemma {:induction false} StepSettles(sys: System, op: Op)
    requires SystemOk(sys) && AllSettled(sys) && Enabled(sys, op)
    ensures AllSettled(Step(sys, op))
  {
    hide LinkOk, SettledLink, ActStep, CanAct, Shared;
    var s := Step(sys, op);
    if op.On? {
      ActSettles(LinkOf(sys, op.r), op.act);
    }
    forall r | 0 <= r < |s.ends|
      ensures SettledLink(LinkOf(s, r))
    {
      if op.On? && r == op.r {
        assert LinkOf(s, r) == ActStep(LinkOf(sys, r), op.act);
      } else {
        MoreLogged(LinkOf(sys, r), s.logged);
        SameSession(LinkOf(sys, r).(logged := s.logged), LinkOf(s, r));
      }
    }
  }

  lemma {:induction false} SameSession(l: Link, m: Link)
    requires SettledLink(l) && m.session == l.session && m.logged == l.logged
    ensures SettledLink(m)
  {
  }

  lemma {:induction false} RunSettles(sys: System, ops: seq<Op>)
    requires SystemOk(sys) && AllSettled(sys) && Possible(sys, ops)
    ensures AllSettled(Run(sys, ops)) && SystemOk(Run(sys, ops))
    decreases |ops|
  {
    hide SystemOk, AllSettled, Step, Enabled;
    if ops != [] {
      StepKeeps(sys, ops[0]);
      StepSettles(sys, ops[0]);
      RunSettles(Step(sys, ops[0]), ops[1..]);
    }
  }

  /**
   * The checkpoint catches up: when every connection of a session waits and there is nothing to send, and the
   * session has sent anything, the newest sid of the log has been logged, and so has that of each packet sent.
   */
  lemma {:induction false} CheckpointCatchesUp(sys: System, ops: seq<Op>, r: nat)
    requires Start(sys) && LogOk(sys.log) && Possible(sys, ops)
    requires r < |Run(sys, ops).ends| && Run(sys, ops).ends[r].session.Some?
    requires var t := Run(sys, ops).ends[r].session.value;
             && (forall i :: 0 <= i < |t.conns| ==> !t.conns[i].joined || t.conns[i].redo)
             && Placed(t.sender, Run(sys, ops).log) && SyncSend(t.sender, Run(sys, ops).log).1 == []
    ensures var s := Run(sys, ops);
            var t := s.ends[r].session.value;
            && (forall k :: 0 <= k < |t.sent| ==> MaxSid(t.sent[k].packet.items) in s.logged)
            && (t.sent != [] ==> MaxSid(s.log) in s.logged)
  {
    hide SyncSend, Run, Possible, SystemOk;
    StartOk(sys);
    RunSettles(sys, ops);
    var s := Run(sys, ops);
    assert LinkOk(LinkOf(s, r)) by {
      LinkIs(sys, ops, r);
    }
    assert SettledLink(LinkOf(s, r));
    var t := s.ends[r].session.value;
    if t.sent != [] {
      LastShipped(LinkOf(s, r), t);
    }
  }

  /** With the whole log shipped, its newest record is the last of the last packet. */
  lemma {:induction false} LastShipped(l: Link, t: Session)
    requires LinkOk(l) && l.session == Some(t) && t.sent != [] && SyncSend(t.sender, l.log).1 == []
    ensures MaxSid(t.sent[|t.sent| - 1].packet.items) == MaxSid(l.log)
  {
    hide SyncSend, SafeFrom, High, Above, Routed, Shipped, Items, Core;
    SessionStart(l, t);
    AllTakenIn(l, t);
    var n := |t.sent| - 1;
    LastOfItems(t.sent);
    var u, p := Above(l.log, l.first), Pending(t.sender);
    assert p == |l.log| && Items(t.sent) == l.log[u + t.had..p];
  }

  lemma {:induction false} AllTakenIn(l: Link, t: Session)
    requires Core(l) && SessionOk(l, t) && t.sent != [] && SyncSend(t.sender, l.log).1 == []
    ensures t.sender.place.At? && Pending(t.sender) == |l.log| && t.sent[|t.sent| - 1].packet.items != []
  {
    hide SyncSend, SafeFrom, High, Above, Items, LogOk;
    SessionStart(l, t);
    AllTaken(t.sender, l.log);
    assert SentOk(t, |t.sent| - 1);
  }

  lemma {:induction false} LastOfItems(ms: seq<Msg>)
    requires ms != [] && ms[|ms| - 1].packet.items != []
    ensures Items(ms) != [] && MaxSid(Items(ms)) == MaxSid(ms[|ms| - 1].packet.items)
  {
  }

  // --------------------------------------------------------------------- turns

  /**
   * A turn of connection `i`: the session's packets together are the log above its start as far as it has been
   * sent; one more packet goes out, on this connection and under the next number, or it waits. It waits if and
   * only if all of the log has been sent.
   */
  predicate Turn(sent: seq<Msg>, t: Session, log: seq<Item>, i: nat) {
    var u, n := Above(log, t.sender.start), |Items(t.sent)|;
    && i < |t.conns| && t.conns[i].joined && t.conns[i].up == []
    && u + n <= |log| && Items(t.sent) == log[u..u + n]
    && if t.conns[i].redo then t.sent == sent && t.conns[i].down == [] && u + n == |log|
       else
         && |t.sent| == |sent| + 1 && t.sent[..|sent|] == sent
         && var m := t.sent[|sent|];
         m.conn == i && m.packet.seqNo == |sent| && m.packet.items != [] && t.conns[i].down == [m.packet]
  }

  lemma {:induction false} SendTurn(t: Session, log: seq<Item>, i: nat)
    requires LogOk(log) && Shipped(t.sender, t.sent, log) && t.sender.seqNo == |t.sent|
    requires i < |t.conns| && t.conns[i].down == [] && t.conns[i].up == []
    ensures Turn(t.sent, SendOn(t, log, i), log, i)
    ensures var conns := SendOn(t, log, i).conns;
            |conns| == |t.conns| && forall j :: 0 <= j < |conns| && j != i ==> conns[j] == t.conns[j]
  {
    hide LogOk, SyncSend, Items;
    SendTakes(t.sender, log);
    SendShips(t, log, i);
    var t' := SendOn(t, log, i);
    var u := Above(log, t.sender.start);
    if t'.sender.place.At? {
      assert Items(t'.sent) == log[u..Pending(t'.sender)];
    } else {
      assert t'.sent == [] && Items([]) == [] by {
        NoItems();
      }
      NoneAbove(log, t.sender.start);
    }
  }

  lemma {:induction false} NoItems()
    ensures Items([]) == []
  {
  }

  lemma {:induction false} NoneAbove(log: seq<Item>, sid: nat)
    requires LogOk(log) && sid >= MaxSid(log)
    ensures Above(log, sid) == |log|
  {
  }

  /** Opening is a turn of connection 0; joining, a reply, and another try after waiting are turns of their own. */
  lemma {:induction false} EveryTurnSends(sys: System, ops: seq<Op>, r: nat, act: Act)
    requires Start(sys) && LogOk(sys.log) && Possible(sys, ops) && Enabled(Run(sys, ops), On(r, act))
    requires act.Open? || act.Join? || act.Redo? || act.Ack?
    ensures var s := Run(sys, ops);
            var s' := Step(s, On(r, act));
            var i := if act.Open? then 0 else act.i;
            && s'.ends[r].session.Some? && s'.log == s.log && s'.ends[r].saved == s.ends[r].saved
            && var t := s'.ends[r].session.value;
            && Turn(if act.Open? then [] else s.ends[r].session.value.sent, t, s.log, i)
            && (act.Open? ==> forall j :: 1 <= j < |t.conns| ==> !t.conns[j].joined)
            && (!act.Open? ==>
                  && |t.conns| == |s.ends[r].session.value.conns| && t.sender.start == s.ends[r].session.value.sender.start
                  && forall j :: 0 <= j < |t.conns| && j != i ==> t.conns[j] == s.ends[r].session.value.conns[j])
  {
    hide Run, Possible, SyncSend, Items, SendOn, Turn;
    LinkIs(sys, ops, r);
    LinkTurn(LinkOf(Run(sys, ops), r), act);
  }

  lemma {:induction false} LinkTurn(l: Link, act: Act)
    requires LinkOk(l) && CanAct(l, act)
    requires act.Open? || act.Join? || act.Redo? || act.Ack?
    ensures var l' := ActStep(l, act);
            var i := if act.Open? then 0 else act.i;
            && l'.session.Some? && l'.log == l.log && l'.saved == l.saved
            && var t := l'.session.value;
            && Turn(if act.Open? then [] else l.session.value.sent, t, l.log, i)
            && (act.Open? ==> forall j :: 1 <= j < |t.conns| ==> !t.conns[j].joined)
            && (!act.Open? ==>
                  && |t.conns| == |l.session.value.conns| && t.sender.start == l.session.value.sender.start
                  && forall j :: 0 <= j < |t.conns| && j != i ==> t.conns[j] == l.session.value.conns[j])
  {
    hide SyncSend, Items, SendOn, Turn, Shipped, SafeFrom, High, StartOf, LogOk;
    if act.Open? {
      var t := Session(Sender(0, Unseek, false, StartOf(l, act.loaded), act.chunk), seq(act.conns, _ => CLOSED), 0, map[], [], |l.saved|);
      FreshSession(t, act.conns, l.log);
      SendTurn(t, l.log, 0);
    } else {
      var t := l.session.value;
      var up := if act.Ack? then t.conns[act.i].up[1..] else [];
      if act.Ack? {
        AnsweredIsFree(t, act.i);
      }
      assert ConnOk(t, act.i);
      SendTurn(t.(conns := t.conns[act.i := t.conns[act.i].(up := up)]), l.log, act.i);
      SendKeepsStart(t.(conns := t.conns[act.i := t.conns[act.i].(up := up)]), l.log, act.i);
      if !act.Ack? {
        assert t.(conns := t.conns[act.i := t.conns[act.i].(up := up)]) == t;
      }
    }
  }
}
