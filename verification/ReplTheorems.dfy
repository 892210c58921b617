// What the replication promises, over every run: records are saved in order without gap or duplicate,
// the checkpoint never runs ahead of what is saved, little is ever under way, and all of it arrives.
module ReplTheorems {
  import opened FlatLog
  import opened Wrappers
  import opened ReplSpec
  import opened ReplInvariant
  import opened ReplRuns

  /**
   * In-order prefix: however packets and replies of the connections interleave, however often sessions fail
   * and are opened again, and whatever other receivers do meanwhile, a receiver process has saved exactly the
   * first so many of the log's records above the sid it started from, each once and in order.
   */
  lemma {:induction false} SavedInOrder(sys: System, ops: seq<Op>, r: nat)
    requires Start(sys) && LogOk(sys.log) && Possible(sys, ops) && r < |Run(sys, ops).ends|
    ensures var log, e := Run(sys, ops).log, Run(sys, ops).ends[r];
            var u := Above(log, e.first);
            e.saved != [] ==> u + |e.saved| <= |log| && e.saved == log[u..u + |e.saved|]
  {
    LinkIs(sys, ops, r);
  }

  lemma {:induction false} LinkIs(sys: System, ops: seq<Op>, r: nat)
    requires Start(sys) && LogOk(sys.log) && Possible(sys, ops) && r < |Run(sys, ops).ends|
    ensures LinkOk(LinkOf(Run(sys, ops), r))
  {
    StartOk(sys);
    RunKeeps(sys, ops);
  }

  /**
   * Resuming is safe: whatever the checkpoint was ever given, or may yet be given by a late reply, and whatever
   * a receiver reports, is at most what the checkpoint held at first or the largest sid saved, and each record
   * at or below it has been saved, by one of the receivers that report under the source.
   */
  lemma {:induction false} ResumeLosesNothing(sys: System, ops: seq<Op>, r: nat, sid: nat)
    requires Start(sys) && LogOk(sys.log) && Possible(sys, ops)
    requires var s := Run(sys, ops);
             sid in s.logged || sid in s.late || (r < |s.ends| && sid in {s.ends[r].first, MaxSid(s.ends[r].saved)})
    ensures var s := Run(sys, ops);
            && (sid <= s.base || exists k :: 0 <= k < |s.history| && sid <= s.history[k].sid)
            && forall i :: 0 <= i < |s.log| && s.base < s.log[i].sid <= sid ==> s.log[i] in s.history
  {
    StartOk(sys);
    RunKeeps(sys, ops);
    var s := Run(sys, ops);
    if r < |s.ends| {
      assert LinkOk(LinkOf(s, r));
      if s.ends[r].saved != [] {
        assert s.ends[r].saved[|s.ends[r].saved| - 1] in s.history;
      }
    }
    HighIsReached(s.base, s.history);
  }

  lemma {:induction false} HighIsReached(base: nat, history: seq<Item>)
    ensures High(base, history) == base || exists k :: 0 <= k < |history| && High(base, history) == history[k].sid
  {
    if history != [] {
      HighIsReached(base, history[..|history| - 1]);
    }
  }

  /** The same process only adds to what it has saved, and starts from the same sid once it has saved something. */
  lemma {:induction false} ActGrows(l: Link, act: Act)
    requires CanAct(l, act) && act != RestartReceiver
    ensures l.saved <= ActStep(l, act).saved
    ensures l.saved != [] ==> ActStep(l, act).first == l.first
  {
  }

  lemma {:induction false} StepGrows(sys: System, op: Op, r: nat)
    requires Enabled(sys, op) && op != On(r, RestartReceiver) && r < |sys.ends|
    ensures r < |Step(sys, op).ends| && sys.ends[r].saved <= Step(sys, op).ends[r].saved
    ensures sys.ends[r].saved != [] ==> Step(sys, op).ends[r].first == sys.ends[r].first
  {
    hide ActStep, CanAct;
    if op.On? && op.r == r {
      ActGrows(LinkOf(sys, r), op.act);
    }
  }

  lemma {:induction false} SavedOnlyGrows(sys: System, ops: seq<Op>, r: nat)
    requires Possible(sys, ops) && r < |sys.ends| && forall i :: 0 <= i < |ops| ==> ops[i] != On(r, RestartReceiver)
    ensures r < |Run(sys, ops).ends| && sys.ends[r].saved <= Run(sys, ops).ends[r].saved
    ensures sys.ends[r].saved != [] ==> Run(sys, ops).ends[r].first == sys.ends[r].first
    decreases |ops|
  {
    if ops != [] {
      hide Step, Enabled;
      StepGrows(sys, ops[0], r);
      SavedOnlyGrows(Step(sys, ops[0]), ops[1..], r);
    }
  }

  // -------------------------------------------------- one source, several receivers

  /** The records that the processes of receiver `r` have saved in a run. */
  function Own(sys: System, ops: seq<Op>, r: nat): seq<Item>
    requires Possible(sys, ops)
    decreases |ops|
  {
    if ops == [] then []
    else
      var next := Step(sys, ops[0]);
      var now := if ops[0].On? && ops[0].r == r && |sys.history| <= |next.history| then next.history[|sys.history|..] else [];
      now + Own(next, ops[1..], r)
  }

  lemma {:induction false} OneSavesAll(sys: System, ops: seq<Op>)
    requires Possible(sys, ops) && |sys.ends| == 1
    ensures Run(sys, ops).history == sys.history + Own(sys, ops, 0)
    decreases |ops|
  {
    if ops == [] {
      assert sys.history + [] == sys.history;
    } else {
      hide ActStep, CanAct;
      var next := Step(sys, ops[0]);
      if ops[0].On? {
        ActShares(LinkOf(sys, 0), ops[0].act);
      }
      OneSavesAll(next, ops[1..]);
      var now := next.history[|sys.history|..];
      assert next.history == sys.history + now;
      Rejoin(sys.history, now, Own(next, ops[1..], 0));
    }
  }

  lemma {:induction false} Rejoin<T>(a: seq<T>, b: seq<T>, c: seq<T>)
    ensures (a + b) + c == a + (b + c) && a + c == a + ([] + c)
  {
  }

  /** The only receiver of a source has itself saved whatever lies below the sid it resumes from. */
  lemma {:induction false} OnlyReceiverHasAll(sys: System, ops: seq<Op>)
    requires Start(sys) && LogOk(sys.log) && Possible(sys, ops) && |sys.ends| == 1 && |Run(sys, ops).ends| == 1
    ensures var s := Run(sys, ops);
            forall i :: 0 <= i < |s.log| && s.base < s.log[i].sid <= s.ends[0].first ==> s.log[i] in Own(sys, ops, 0)
  {
    ResumeLosesNothing(sys, ops, 0, Run(sys, ops).ends[0].first);
    OneSavesAll(sys, ops);
    assert [] + Own(sys, ops, 0) == Own(sys, ops, 0);
  }

  /**
   * With a second one it need not be so: the checkpoint belongs to the source, and a receiver that reports
   * nothing resumes from what another one of the same source has saved.
   */
  lemma {:induction false} SecondReceiverMisses(x: Item) returns (sys: System, ops: seq<Op>)
    requires x.sid >= 1 && x.packed >= 1 && x.good
    ensures Start(sys) && LogOk(sys.log) && sys.log == [x] && |sys.ends| == 2 && Possible(sys, ops)
    ensures var s := Run(sys, ops); s.log == [x] && |s.ends| == 2 && s.base < x.sid == s.ends[1].first && x !in Own(sys, ops, 1)
  {
    hide Step, Enabled, Half;
    sys := System([x], 0, false, {}, {}, [], [End(0, [], None), End(0, [], None)]);
    var s1 := Shipping(sys, x);
    var s2 := Saving(s1, x);
    var s3 := Acked(s2, x);
    var s4 := Resumed(s3, x);
    ops := [On(1, Open(1, 0, x.sid))] + [];
    OpFirst(s3, On(1, Open(1, 0, x.sid)), []);
    OpFirst(s2, On(0, Ack(0)), ops);
    ops := [On(0, Ack(0))] + ops;
    OpFirst(s1, On(0, Receive(0)), ops);
    ops := [On(0, Receive(0))] + ops;
    OpFirst(sys, On(0, Open(1, 0, 0)), ops);
    ops := [On(0, Open(1, 0, 0))] + ops;
  }

  /** A run with one operation more in front, of which receiver 1 saves nothing. */
  lemma {:induction false} OpFirst(sys: System, op: Op, rest: seq<Op>)
    requires Enabled(sys, op) && Possible(Step(sys, op), rest)
    requires op.On? && (op.r != 1 || Step(sys, op).history == sys.history)
    ensures Possible(sys, [op] + rest) && Run(sys, [op] + rest) == Run(Step(sys, op), rest)
    ensures Own(sys, [op] + rest, 1) == Own(Step(sys, op), rest, 1)
  {
    hide Step, Enabled;
    assert ([op] + rest)[1..] == rest;
    assert [] + Own(Step(sys, op), rest, 1) == Own(Step(sys, op), rest, 1);
  }

  /** The first receiver's session with the only record on its way. */
  ghost predicate Half(s: System, x: Item, down: seq<Packet>, up: seq<nat>, next: nat) {
    && s.log == [x] && s.base == 0 && s.created && 0 in s.logged && |s.ends| == 2 && s.ends[1] == End(0, [], None)
    && s.ends[0].session.Some?
    && var t := s.ends[0].session.value;
    && t.sender == Sender(1, At(0), true, 0, 0) && t.next == next && t.msgs == map[]
    && t.conns == [Conn(true, false, down, up, 0, x.sid)]
  }

  lemma {:induction false} Shipping(sys: System, x: Item) returns (s: System)
    requires x.sid >= 1 && x.packed >= 1 && x.good
    requires sys == System([x], 0, false, {}, {}, [], [End(0, [], None), End(0, [], None)])
    ensures Enabled(sys, On(0, Open(1, 0, 0))) && s == Step(sys, On(0, Open(1, 0, 0)))
    ensures Half(s, x, [Packet(0, [x])], [], 0) && s.history == []
  {
    s := Step(sys, On(0, Open(1, 0, 0)));
    var sender := Sender(0, Unseek, false, 0, 0);
    assert Above([x], 0) == 0;
    assert SeekToReport(sender, [x]) == (sender.(place := At(0)), true);
    assert [] + [x] == [x];
    assert SeekToBinlog(sender.(place := At(0)), [x]) == (sender.(place := At(0)), true);
    assert Pack(sender.(place := At(0)), [x], [], 0) == (sender.(place := At(0), next := true), [x]);
    assert SyncSend(sender, [x]) == (Sender(1, At(0), true, 0, 0), [x]);
    assert [] + [Packet(0, [x])] == [Packet(0, [x])];
  }

  lemma {:induction false} Saving(sys: System, x: Item) returns (s: System)
    requires Half(sys, x, [Packet(0, [x])], [], 0) && sys.history == []
    ensures Enabled(sys, On(0, Receive(0))) && s == Step(sys, On(0, Receive(0)))
    ensures Half(s, x, [], [0], 1) && s.history == [x]
  {
    s := Step(sys, On(0, Receive(0)));
    var m := Msg(Packet(0, [x]), 0);
    assert Drain(1, map[]) == ([], 1, map[]);
    assert [m] + [] == [m];
    assert Recv(0, map[], m) == ([m], 1, map[]);
    assert [m][..0] == [] && Items([m]) == [] + [x];
    var c := Conn(true, false, [], [], 0, x.sid);
    var t := sys.ends[0].session.value;
    assert [Packet(0, [x])][1..] == [] && t.conns[0].(down := t.conns[0].down[1..]) == c;
    assert t.conns[0 := c] == [c] && [] + [0] == [0];
    assert ReceiveStep(LinkOf(sys, 0), t, 0).session == Some(t.(conns := Reply([c], [m]), next := 1, msgs := map[]));
    assert Reply([c], []) == [c] && Reply([c], [m]) == [c][0 := c.(up := [] + [0])];
  }

  lemma {:induction false} Acked(sys: System, x: Item) returns (s: System)
    requires Half(sys, x, [], [0], 1) && x.sid >= 1
    ensures Enabled(sys, On(0, Ack(0))) && s == Step(sys, On(0, Ack(0)))
    ensures s.log == [x] && s.base == 0 && s.created && |s.ends| == 2 && s.ends[1] == End(0, [], None)
    ensures 0 in s.logged && x.sid in s.logged && s.history == sys.history
  {
    s := Step(sys, On(0, Ack(0)));
  }

  lemma {:induction false} Resumed(sys: System, x: Item) returns (s: System)
    requires sys.log == [x] && sys.base == 0 && sys.created && |sys.ends| == 2 && sys.ends[1] == End(0, [], None)
    requires x.sid in sys.logged
    ensures Enabled(sys, On(1, Open(1, 0, x.sid))) && s == Step(sys, On(1, Open(1, 0, x.sid)))
    ensures s.log == [x] && s.base == 0 && |s.ends| == 2 && s.ends[1].first == x.sid && s.history == sys.history
  {
    s := Step(sys, On(1, Open(1, 0, x.sid)));
  }

  /**
   * The sender compares the reported name with the file names of its sessions, path and all: a second session
   * under one name is refused exactly when the path is empty, and the configuration ends every path with '/'.
   */
  predicate Refused(path: string, names: seq<string>, name: string) {
    exists i :: 0 <= i < |names| && path + names[i] == name
  }

  lemma {:induction false} SecondSessionRefusedIff(path: string, names: seq<string>, name: string)
    requires names != [] && forall i :: 0 <= i < |names| ==> names[i] == name
    ensures Refused(path, names, name) <==> path == []
  {
    if path == [] {
      assert path + names[0] == name;
    }
  }

  // ------------------------------------------------------------- what an arrival saves

  /**
   * An arriving packet lets the receiver save exactly the packets from the one it waits for up to the first that
   * has not arrived, in the order they were sent, and answer each on its connection.
   */
  lemma {:induction false} ArrivalSaves(sys: System, ops: seq<Op>, r: nat, i: nat)
    requires Start(sys) && LogOk(sys.log) && Possible(sys, ops) && Enabled(Run(sys, ops), On(r, Receive(i)))
    ensures var s := Run(sys, ops);
            var s' := Step(s, On(r, Receive(i)));
            var t, k := s.ends[r].session.value, s.ends[r].session.value.conns[i].sentSeq;
            && s'.ends[r].session.Some?
            && var n := s'.ends[r].session.value.next;
            && t.next <= n <= |t.sent| && k < |t.sent| && t.conns[i].down == [t.sent[k].packet]
            && s'.ends[r].saved == s.ends[r].saved + Items(t.sent[t.next..n])
            && s'.history == s.history + Items(t.sent[t.next..n])
            && (forall j :: t.next <= j < n ==> j == k || j in t.msgs) && n != k && n !in t.msgs
            && (forall j :: 0 <= j < |t.conns| && t.next <= t.conns[j].sentSeq < n && t.conns[j].joined && !t.conns[j].redo ==>
                  s'.ends[r].session.value.conns[j].up == [t.conns[j].sentSeq])
  {
    hide Run, Recv, Reply, Items, LinkOk;
    LinkIs(sys, ops, r);
    LinkArrival(LinkOf(Run(sys, ops), r), i);
  }

  lemma {:induction false} LinkArrival(l: Link, i: nat)
    requires LinkOk(l) && CanAct(l, Receive(i))
    ensures var r := ReceiveStep(l, l.session.value, i);
            var t, k := l.session.value, l.session.value.conns[i].sentSeq;
            && r.session.Some?
            && var n := r.session.value.next;
            && t.next <= n <= |t.sent| && k < |t.sent| && t.conns[i].down == [t.sent[k].packet]
            && r.saved == l.saved + Items(t.sent[t.next..n]) && r.history == l.history + Items(t.sent[t.next..n])
            && (forall j :: t.next <= j < n ==> j == k || j in t.msgs) && n != k && n !in t.msgs
            && (forall j :: 0 <= j < |t.conns| && t.next <= t.conns[j].sentSeq < n && t.conns[j].joined && !t.conns[j].redo ==>
                  r.session.value.conns[j].up == [t.conns[j].sentSeq])
  {
    hide Recv, Reply, Items, Shipped, Core;
    var t := l.session.value;
    RecvGives(t, i);
    var c := t.conns[i];
    var n := Recv(t.next, t.msgs, Msg(c.down[0], i)).1;
    var conns := t.conns[i := c.(down := c.down[1..])];
    ReplyReaches(t, conns, n);
    forall j | 0 <= j < |t.conns| && t.next <= t.conns[j].sentSeq < n && t.conns[j].joined && !t.conns[j].redo
      ensures conns[j].up == [] && Awaits(conns[j], t.next, n)
    {
      assert ConnOk(t, j);
    }
  }

  /** Where saving fails, the whole packets before the failure and the records before it in its packet are saved. */
  lemma {:induction false} FailureSavesPart(sys: System, ops: seq<Op>, r: nat, i: nat, packets: nat, items: nat)
    requires Start(sys) && LogOk(sys.log) && Possible(sys, ops) && Enabled(Run(sys, ops), On(r, Receive(i)))
    requires var s := Run(sys, ops);
             var t, m := s.ends[r].session.value, s.ends[r].session.value.next + packets;
             && m < Step(s, On(r, Receive(i))).ends[r].session.value.next
             && m < |t.sent| && items <= |t.sent[m].packet.items|
    ensures var s := Run(sys, ops);
            var t, m := s.ends[r].session.value, s.ends[r].session.value.next + packets;
            && Enabled(s, On(r, ReceiveFails(i, packets, items)))
            && var s' := Step(s, On(r, ReceiveFails(i, packets, items)));
            && s'.ends[r].session == None && s'.ends[r].first == s.ends[r].first
            && s'.ends[r].saved == s.ends[r].saved + (Items(t.sent[t.next..m]) + t.sent[m].packet.items[..items])
            && (forall k :: t.next <= k < m ==> MaxSid(t.sent[k].packet.items) in s'.late)
  {
    hide Run, Recv, Reply, Items, LinkOk;
    LinkIs(sys, ops, r);
    LinkFailure(LinkOf(Run(sys, ops), r), i, packets, items);
  }

  lemma {:induction false} LinkFailure(l: Link, i: nat, packets: nat, items: nat)
    requires LinkOk(l) && CanAct(l, Receive(i))
    requires var t, m := l.session.value, l.session.value.next + packets;
             m < ReceiveStep(l, t, i).session.value.next && m < |t.sent| && items <= |t.sent[m].packet.items|
    ensures var t, m := l.session.value, l.session.value.next + packets;
            var r := ReceiveFailsStep(l, t, i, packets, items);
            && r.session == None && r.first == l.first
            && r.saved == l.saved + (Items(t.sent[t.next..m]) + t.sent[m].packet.items[..items])
            && (forall k :: t.next <= k < m ==> MaxSid(t.sent[k].packet.items) in r.late)
  {
    hide Recv, Reply, Items, Shipped, Core, Underway;
    var t, m := l.session.value, l.session.value.next + packets;
    RecvGives(t, i);
    var done := Recv(t.next, t.msgs, Msg(t.conns[i].down[0], i)).0;
    assert done[packets] == t.sent[m] && done[..packets] == t.sent[t.next..m];
    ReplyReaches(t, t.conns, m);
    var conns := Reply(t.conns, t.sent[t.next..m]);
    forall k | t.next <= k < m
      ensures MaxSid(t.sent[k].packet.items) in Underway(conns)
    {
      assert Unanswered(t, k) && ConnOk(t, t.sent[k].conn);
      ReplyNote(t.conns, t.sent[t.next..m]);
      InUnderway(conns, t.sent[k].conn);
    }
  }

  lemma {:induction false} ReplyNote(conns: seq<Conn>, ms: seq<Msg>)
    ensures forall j :: 0 <= j < |conns| ==> Reply(conns, ms)[j].lastSid == conns[j].lastSid
  {
    if ms != [] {
      ReplyNote(conns, ms[..|ms| - 1]);
    }
  }

  // ------------------------------------------------------------------- window

  /** The connections the unfinished packets are on are as many as those packets. */
  lemma {:induction false} Carriers(t: Session, n: nat) returns (conns: set<nat>)
    requires Routed(t) && t.next <= n <= |t.sent|
    ensures |conns| == n - t.next
    ensures forall i :: i in conns ==> i < |t.conns| && t.next <= t.conns[i].sentSeq < n
    decreases n
  {
    if n == t.next {
      conns := {};
    } else {
      conns := Carriers(t, n - 1);
      assert Unanswered(t, n - 1);
      conns := conns + {t.sent[n - 1].conn};
    }
  }

  lemma {:induction false} InRange(s: set<nat>, lo: nat, hi: nat)
    requires lo <= hi && forall i :: i in s ==> lo <= i < hi
    ensures |s| <= hi - lo
  {
    if lo == hi {
      assert s == {};
    } else {
      InRange(s - {hi - 1}, lo, hi - 1);
    }
  }

  /**
   * Window bound: at most one packet per connection is not finished, and the reorder buffer holds at most
   * one fewer than there are connections, all within the window after the number that is missing.
   */
  lemma {:induction false} WindowBound(sys: System, ops: seq<Op>, r: nat)
    requires Start(sys) && LogOk(sys.log) && Possible(sys, ops)
    requires r < |Run(sys, ops).ends| && Run(sys, ops).ends[r].session.Some?
    ensures var t := Run(sys, ops).ends[r].session.value;
            && t.next <= t.sender.seqNo <= t.next + |t.conns|
            && |t.msgs| < |t.conns|
            && forall k :: k in t.msgs ==> t.next < k < t.next + |t.conns|
  {
    LinkIs(sys, ops, r);
    SessionWindow(LinkOf(Run(sys, ops), r), Run(sys, ops).ends[r].session.value);
  }

  lemma {:induction false} SessionWindow(l: Link, t: Session)
    requires SessionOk(l, t)
    ensures t.next <= t.sender.seqNo <= t.next + |t.conns|
    ensures |t.msgs| < |t.conns|
    ensures forall k :: k in t.msgs ==> t.next < k < t.next + |t.conns|
  {
    hide Shipped, ConnOk, Items;
    var conns := Carriers(t, |t.sent|);
    InRange(conns, 0, |t.conns|);
    if t.msgs != map[] {
      InRange(t.msgs.Keys, t.next + 1, |t.sent|);
    }
  }

  // --------------------------------------------------------------- progress

  /** A reply always answers the last packet sent on its connection, so the sender never turns one down. */
  lemma {:induction false} RepliesMatch(sys: System, ops: seq<Op>, r: nat, i: nat)
    requires Start(sys) && LogOk(sys.log) && Possible(sys, ops) && Enabled(Run(sys, ops), On(r, Ack(i)))
    ensures var c := Run(sys, ops).ends[r].session.value.conns[i]; c.up == [c.sentSeq]
  {
    LinkIs(sys, ops, r);
    UpIsFinished(Run(sys, ops).ends[r].session.value, i);
  }

  /** While a packet is unfinished or unanswered, a packet or a reply is on its way: the buffer never blocks. */
  lemma {:induction false} NeverStuck(l: Link, i: nat)
    requires LinkOk(l) && l.session.Some?
    requires var t := l.session.value; i < |t.conns| && t.conns[i].joined && !t.conns[i].redo
    ensures exists j :: 0 <= j < |l.session.value.conns| && (CanAct(l, Receive(j)) || CanAct(l, Ack(j)))
  {
    hide Items;
    var t := l.session.value;
    assert ConnOk(t, i) && Placed(t.sender, l.log);
    if t.conns[i].up != [] {
      assert CanAct(l, Ack(i));
    } else {
      assert Unanswered(t, t.next);
      var j := t.sent[t.next].conn;
      assert ConnOk(t, j);
      assert CanAct(l, Receive(j));
    }
  }

  /**
   * When every connection waits and the sender has nothing to send, the receiver has saved all of the log
   * above the sid its process started from.
   */
  lemma {:induction false} QuietMeansComplete(l: Link)
    requires LinkOk(l) && l.session.Some?
    requires var t := l.session.value;
             && (forall i :: 0 <= i < |t.conns| ==> !t.conns[i].joined || t.conns[i].redo)
             && SyncSend(t.sender, l.log).1 == []
    ensures l.saved == l.log[Above(l.log, l.first)..]
  {
    hide Core, Routed, Shipped, SyncSend, Above, Items;
    var t := l.session.value;
    AllFinished(t);
    if t.sent != [] {
      AllShipped(l, t);
    } else {
      NothingShipped(l, t);
    }
  }

  /** A session that has shipped something, and the receiver all of it, has shipped the whole log above its start. */
  lemma {:induction false} AllShipped(l: Link, t: Session)
    requires Core(l) && SessionOk(l, t) && t.sent != [] && t.next == |t.sent|
    requires SyncSend(t.sender, l.log).1 == []
    ensures l.saved == l.log[Above(l.log, l.first)..]
  {
    hide LogOk, Routed, SafeFrom, High, SyncSend, Above, Items;
    assert t.sent[..t.next] == t.sent;
    SessionStart(l, t);
    AllTaken(t.sender, l.log);
    Completed(l.log, l.saved, Above(l.log, l.first), t.had);
  }

  lemma {:induction false} AllTaken(s: Sender, log: seq<Item>)
    requires LogOk(log) && Placed(s, log) && s.place.At? && SyncSend(s, log).1 == []
    ensures Pending(s) == |log|
  {
    SendTakes(s, log);
  }

  lemma {:induction false} Completed<T>(log: seq<T>, saved: seq<T>, u: nat, had: nat)
    requires had <= |saved| && u + had <= |log| && saved[had..] == log[u + had..]
    requires saved != [] ==> u + |saved| <= |log| && saved == log[u..u + |saved|]
    ensures saved == log[u..]
  {
    assert |saved| - had == |log| - (u + had);
  }

  /** A session that had nothing to ship found everything saved already. */
  lemma {:induction false} NothingShipped(l: Link, t: Session)
    requires Core(l) && SessionOk(l, t) && t.sent == [] && SyncSend(t.sender, l.log).1 == []
    ensures l.saved == l.log[Above(l.log, l.first)..]
  {
    hide Routed, SafeFrom, High, SyncSend, LogOk, Items;
    NothingToSend(t.sender, t.sent, l.log);
    NoItems(t);
    assert t.next == 0 by {
      NextInRange(t);
    }
    SavedAll(l.log, l.first, l.saved, t.sender.start);
  }

  lemma {:induction false} NoItems(t: Session)
    requires t.sent == []
    ensures Items(t.sent[..0]) == []
  {
  }

  /** A sender that has sent nothing and has nothing to send has not placed its cursor. */
  lemma {:induction false} NothingToSend(s: Sender, sent: seq<Msg>, log: seq<Item>)
    requires LogOk(log) && Shipped(s, sent, log) && sent == [] && SyncSend(s, log).1 == []
    ensures s.place == Unseek && s.start >= MaxSid(log)
  {
    hide LogOk, SyncSend, Above;
    SendTakes(s, log);
    assert Items([]) == [];
  }

  /** A receiver at or above the newest sid has saved all there is above its first. */
  lemma {:induction false} SavedAll(log: seq<Item>, first: nat, saved: seq<Item>, start: nat)
    requires LogOk(log) && InOrder(log, first, saved) && start >= MaxSid(log)
    requires start == if saved == [] then first else saved[|saved| - 1].sid
    ensures saved == log[Above(log, first)..]
  {
    var u := Above(log, first);
    if saved != [] {
      var last := u + |saved| - 1;
      assert saved[|saved| - 1] == log[last];
      assert last == |log| - 1;
    } else {
      assert u == |log|;
    }
  }

  lemma {:induction false} AllFinished(t: Session)
    requires Routed(t) && forall i :: 0 <= i < |t.conns| ==> !t.conns[i].joined || t.conns[i].redo
    ensures t.next == |t.sent|
  {
    assert t.next < |t.sent| ==> Unanswered(t, t.next);
  }
}
