// Eventual delivery: while nothing is appended and no session fails, packets and replies can only go on
// arriving so many times, and when none can the receiver has all of the log.
module ReplDelivery {
  import opened FlatLog
  import opened Wrappers
  import opened ReplSpec
  import opened ReplInvariant
  import opened ReplRuns
  import opened ReplTheorems

  // ------------------------------------------------------------- what is still to do

  /** How many records the session has still to send. */
  function Unsent(s: Sender, log: seq<Item>): nat
    requires Placed(s, log)
  {
    if s.place.At? then |log| - Pending(s) else |log| - Above(log, s.start)
  }

  /** The packets on their way, and the replies. */
  function Downs(conns: seq<Conn>): nat {
    if conns == [] then 0 else Downs(conns[..|conns| - 1]) + |conns[|conns| - 1].down|
  }

  function Ups(conns: seq<Conn>): nat {
    if conns == [] then 0 else Ups(conns[..|conns| - 1]) + |conns[|conns| - 1].up|
  }

  /** Each record costs a packet, each packet at least a place in the buffer and a reply. */
  function Measure(t: Session, log: seq<Item>): nat
    requires Placed(t.sender, log)
  {
    4 * Unsent(t.sender, log) + 3 * Downs(t.conns) + 2 * |t.msgs| + Ups(t.conns)
  }

  lemma {:induction false} CountsChange(conns: seq<Conn>, i: nat, c: Conn)
    requires i < |conns|
    ensures Downs(conns[i := c]) + |conns[i].down| == Downs(conns) + |c.down|
    ensures Ups(conns[i := c]) + |conns[i].up| == Ups(conns) + |c.up|
  {
    var n := |conns| - 1;
    if i < n {
      assert conns[i := c][..n] == conns[..n][i := c];
      CountsChange(conns[..n], i, c);
    } else {
      assert conns[i := c][..n] == conns[..n];
    }
  }

  /** Sending either changes no count, or turns records into one packet on its way. */
  lemma {:induction false} SendFalls(t: Session, log: seq<Item>, i: nat)
    requires LogOk(log) && Placed(t.sender, log) && i < |t.conns|
    ensures var r := SendOn(t, log, i);
            && Placed(r.sender, log)
            && Measure(r, log) <= Measure(t, log)
            && (SyncSend(t.sender, log).1 != [] ==> Measure(r, log) < Measure(t, log))
  {
    hide LogOk, Downs, Ups, SyncSend;
    SendTakes(t.sender, log);
    CountsChange(t.conns, i, SendOn(t, log, i).conns[i]);
    assert SendOn(t, log, i).conns == t.conns[i := SendOn(t, log, i).conns[i]];
  }

  lemma {:induction false} ReplyCounts(conns: seq<Conn>, ms: seq<Msg>)
    ensures Downs(Reply(conns, ms)) == Downs(conns) && Ups(Reply(conns, ms)) <= Ups(conns) + |ms|
  {
    if ms != [] {
      var before, m := Reply(conns, ms[..|ms| - 1]), ms[|ms| - 1];
      ReplyCounts(conns, ms[..|ms| - 1]);
      if m.conn < |conns| {
        CountsChange(before, m.conn, before[m.conn].(up := before[m.conn].up + [m.packet.seqNo]));
      }
    }
  }

  /** What comes out of the buffer is no longer in it. */
  lemma {:induction false} DrainCounts(next: nat, msgs: Waiting)
    ensures var (done, n, ms) := Drain(next, msgs); |done| + |ms| == |msgs|
    decreases |msgs|
  {
    if FirstIs(msgs, next) {
      var rest := msgs - {next};
      assert rest.Keys == msgs.Keys - {next};
      assert |rest| == |rest.Keys| && |msgs| == |msgs.Keys|;
      DrainCounts(next + 1, rest);
    }
  }

  lemma {:induction false} RecvCounts(next: nat, msgs: Waiting, m: Msg)
    ensures var (done, n, ms) := Recv(next, msgs, m); |done| + 2 * |ms| <= 2 * |msgs| + 2
  {
    if m.packet.seqNo == next {
      DrainCounts(next + 1, msgs);
    } else {
      var more := msgs[m.packet.seqNo := m];
      assert more.Keys == msgs.Keys + {m.packet.seqNo};
      assert |more| == |more.Keys| && |msgs| == |msgs.Keys|;
    }
  }

  lemma {:induction false} ReceiveFalls(l: Link, t: Session, i: nat)
    requires i < |t.conns| && t.conns[i].down != [] && Placed(t.sender, l.log)
    ensures var r := ReceiveStep(l, t, i).session.value;
            r.sender == t.sender && Measure(r, l.log) < Measure(t, l.log)
  {
    hide Downs, Ups, Recv, Reply, Unsent, Items;
    var c := t.conns[i];
    var done := Recv(t.next, t.msgs, Msg(c.down[0], i)).0;
    RecvCounts(t.next, t.msgs, Msg(c.down[0], i));
    CountsChange(t.conns, i, c.(down := c.down[1..]));
    ReplyCounts(t.conns[i := c.(down := c.down[1..])], done);
  }

  // -------------------------------------------------------------- going on

  /** A packet or a reply arrives, or a connection that waits gets something to send. */
  predicate Delivering(l: Link, act: Act) {
    CanAct(l, act) &&
    match act
    case Receive(_) => true
    case Ack(_) => true
    case Redo(_) => SyncSend(l.session.value.sender, l.log).1 != []
    case _ => false
  }

  lemma {:induction false} PlacedIn(l: Link)
    requires LinkOk(l)
    ensures LogOk(l.log)
    ensures l.session.Some? ==>
              var t := l.session.value; Placed(t.sender, l.log) && Routed(t) && t.conns != [] && t.conns[0].joined
  {
  }

  /** Each such step brings the end nearer, and neither ends the session nor touches the log. */
  lemma {:induction false} StepFalls(l: Link, act: Act)
    requires LinkOk(l) && Delivering(l, act)
    ensures CanAct(l, act)
    ensures var r := ActStep(l, act);
            && LinkOk(r) && r.session.Some? && Placed(l.session.value.sender, l.log) && Placed(r.session.value.sender, r.log)
            && r.log == l.log && r.first == l.first
            && Measure(r.session.value, r.log) < Measure(l.session.value, l.log)
  {
    hide LinkOk, LogOk, Measure, SyncSend, SendOn, Routed;
    ActKeeps(l, act);
    PlacedIn(l);
    PlacedIn(ActStep(l, act));
    var t := l.session.value;
    match act {
      case Receive(i) => ReceiveFalls(l, t, i);
      case Redo(i) => SendFalls(t, l.log, i);
      case Ack(i) => AckFalls(l, i);
    }
  }

  lemma {:induction false} AckFalls(l: Link, i: nat)
    requires LinkOk(l) && CanAct(l, Ack(i))
    ensures var r := AckStep(l, l.session.value, i);
            && r.session.Some? && r.log == l.log && r.first == l.first && Placed(r.session.value.sender, l.log)
            && Measure(r.session.value, l.log) < Measure(l.session.value, l.log)
  {
    hide LogOk, LinkOk, SyncSend, Routed, Unsent, Downs, Ups, SendOn;
    PlacedIn(l);
    var t := l.session.value;
    var c := t.conns[i];
    UpIsFinished(t, i);
    CountsChange(t.conns, i, c.(up := c.up[1..]));
    SendFalls(t.(conns := t.conns[i := c.(up := c.up[1..])]), l.log, i);
  }

  /** As long as the receiver has not all of the log, something can go on. */
  lemma {:induction false} GoesOn(l: Link) returns (act: Act)
    requires LinkOk(l) && l.session.Some?
    ensures Delivering(l, act) || l.saved == l.log[Above(l.log, l.first)..]
  {
    hide LinkOk, LogOk, SyncSend, Routed, Above;
    PlacedIn(l);
    var t := l.session.value;
    if i :| 0 <= i < |t.conns| && t.conns[i].joined && !t.conns[i].redo {
      NeverStuck(l, i);
      var j :| 0 <= j < |t.conns| && (CanAct(l, Receive(j)) || CanAct(l, Ack(j)));
      act := if CanAct(l, Receive(j)) then Receive(j) else Ack(j);
    } else if SyncSend(t.sender, l.log).1 == [] {
      QuietMeansComplete(l);
      act := Close;
    } else {
      act := Redo(0);
    }
  }

  predicate Delivers(l: Link, acts: seq<Act>)
    decreases |acts|
  {
    acts != [] ==> Delivering(l, acts[0]) && Delivers(ActStep(l, acts[0]), acts[1..])
  }

  function After(l: Link, acts: seq<Act>): Link
    requires Delivers(l, acts)
    decreases |acts|
  {
    if acts == [] then l else After(ActStep(l, acts[0]), acts[1..])
  }

  /**
   * However packets and replies arrive, they can only do so a number of times known beforehand; and once
   * nothing more can arrive or be sent, the receiver has saved all of the log above its first sid.
   */
  lemma {:induction false} EverythingArrives(l: Link, acts: seq<Act>)
    requires LinkOk(l) && l.session.Some? && Delivers(l, acts)
    ensures Placed(l.session.value.sender, l.log) && |acts| <= Measure(l.session.value, l.log)
    ensures var r := After(l, acts);
            && r.log == l.log && r.first == l.first
            && ((forall act :: !Delivering(r, act)) ==> r.saved == l.log[Above(l.log, l.first)..])
    decreases |acts|
  {
    hide LinkOk, Measure, Delivering, Above, ActStep;
    PlacedIn(l);
    if acts == [] {
      var act := GoesOn(l);
    } else {
      StepFalls(l, acts[0]);
      EverythingArrives(ActStep(l, acts[0]), acts[1..]);
    }
  }

  /** From every state a session can be in, there is a way on to where its receiver has all of the log. */
  lemma {:induction false} Completes(sys: System, r: nat) returns (ops: seq<Op>)
    requires SystemOk(sys) && r < |sys.ends| && sys.ends[r].session.Some?
    ensures Possible(sys, ops)
    ensures forall k :: 0 <= k < |ops| ==>
              ops[k].On? && ops[k].r == r && (ops[k].act.Receive? || ops[k].act.Ack? || ops[k].act.Redo?)
    ensures var s := Run(sys, ops);
            && s.log == sys.log && r < |s.ends| && s.ends[r].first == sys.ends[r].first
            && s.ends[r].saved == sys.log[Above(sys.log, sys.ends[r].first)..]
    decreases Left(LinkOf(sys, r))
  {
    hide LinkOk, Measure, Above, ActStep, Left;
    var l := LinkOf(sys, r);
    EndOk(sys, r);
    PlacedIn(l);
    var act := GoesOn(l);
    ops := [];
    if l.saved != l.log[Above(l.log, l.first)..] {
      StepFalls(l, act);
      LeftIs(l);
      LeftIs(ActStep(l, act));
      var next := Step(sys, On(r, act));
      assert LinkOf(next, r) == ActStep(l, act);
      OnKeeps(sys, r, act);
      var rest := Completes(next, r);
      ops := [On(r, act)] + rest;
      assert ops[1..] == rest;
    }
  }

  function Left(l: Link): nat {
    if l.session.Some? && Placed(l.session.value.sender, l.log) then Measure(l.session.value, l.log) else 0
  }

  lemma {:induction false} LeftIs(l: Link)
    requires l.session.Some? && Placed(l.session.value.sender, l.log)
    ensures Left(l) == Measure(l.session.value, l.log)
  {
  }

  lemma {:induction false} EndOk(sys: System, r: nat)
    requires SystemOk(sys) && r < |sys.ends|
    ensures LinkOk(LinkOf(sys, r))
  {
  }
}
