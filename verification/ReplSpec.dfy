// Replication of the log to collectors: sessions over several connections, each with the sender's shared
// sequence number and cursor, the receiver's reorder buffer, and the checkpoint the sender keeps for a source.
// The log is its flat sequence of records (module ReplBinlog says how a manager's cursor reads it).
module ReplSpec {
  import opened FlatLog
  import opened Wrappers

  ghost predicate LogOk(log: seq<Item>) {
    Ascending(log) && forall i :: 0 <= i < |log| ==> log[i].sid >= 1 && log[i].packed >= 1 && log[i].good
  }

  // -------------------------------------------------------------------- sender

  /** `next` says that the record under the cursor has been sent. */
  datatype Sender = Sender(seqNo: nat, place: Place, next: bool, start: nat, chunk: nat)

  datatype Packet = Packet(seqNo: nat, items: seq<Item>)

  /** The cursor is on a record of the log if it is anywhere. */
  predicate Placed(s: Sender, log: seq<Item>) {
    s.place.At? ==> s.place.pos < |log|
  }

  /** The first record of the log the session has still to send. */
  function Pending(s: Sender): nat
    requires s.place.At?
  {
    if s.next then s.place.pos + 1 else s.place.pos
  }

  /** Places the cursor on the first record above the reported sid, once there is one. */
  function SeekToReport(s: Sender, log: seq<Item>): (r: (Sender, bool))
    requires Placed(s, log)
    ensures Placed(r.0, log)
    ensures r.1 <==> r.0.place.At?
  {
    if s.place.At? then (s, true)
    else if s.start >= MaxSid(log) then (s, false)
    else
      var u := Above(log, s.start);
      (s.(place := At(u), next := s.start == log[u].sid), true)
  }

  /**
   * Moves the cursor on if its record has been sent already. A record that cannot be unpacked makes the loop
   * run on to the end of the log: it moves the cursor, but looks at the same data again.
   */
  function SeekToBinlog(s: Sender, log: seq<Item>): (r: (Sender, bool))
    requires s.place.At? && Placed(s, log)
    ensures r.0.place.At? && Placed(r.0, log)
  {
    var p := Pending(s);
    if p == |log| then (s, false)
    else if log[p].good then (s.(place := At(p), next := false), true)
    else (s.(place := At(|log| - 1), next := true), false)
  }

  /** The packing loop: one record without a chunk size, else records until their sizes reach it. */
  function Pack(s: Sender, log: seq<Item>, items: seq<Item>, total: nat): (r: (Sender, seq<Item>))
    requires s.place.At? && Placed(s, log)
    ensures r.0.place.At? && Placed(r.0, log)
    decreases |log| - Pending(s)
  {
    var (s1, found) := SeekToBinlog(s, log);
    if !found then (s1, items)
    else
      var item := log[s1.place.pos];
      var s2 := s1.(next := true);
      if s.chunk == 0 || total + item.packed >= s.chunk then (s2, items + [item])
      else Pack(s2, log, items + [item], total + item.packed)
  }

  /** What one call sends, if anything: the records of one packet, under the session's next number. */
  function SyncSend(s: Sender, log: seq<Item>): (r: (Sender, seq<Item>))
    requires Placed(s, log)
    ensures Placed(r.0, log)
  {
    var (s1, found) := SeekToReport(s, log);
    if !found then (s1, [])
    else
      var (s2, items) := Pack(s1, log, [], 0);
      (if items == [] then s2 else s2.(seqNo := s2.seqNo + 1), items)
  }

  // ------------------------------------------------------------------ receiver

  /** A packet and the connection it came on. */
  datatype Msg = Msg(packet: Packet, conn: nat)

  type Waiting = map<nat, Msg>

  /** The buffer's first entry, in the order of numbers, is number `n`. */
  predicate FirstIs(msgs: Waiting, n: nat) {
    n in msgs && forall k :: k in msgs ==> n <= k
  }

  /** Takes from the front of the buffer as long as the numbers follow on. */
  function Drain(next: nat, msgs: Waiting): (seq<Msg>, nat, Waiting)
    decreases |msgs|
  {
    if FirstIs(msgs, next) then
      var (rest, n, ms) := Drain(next + 1, msgs - {next});
      ([msgs[next]] + rest, n, ms)
    else ([], next, msgs)
  }

  /** A packet that is next is finished, with those that waited for it; any other has to wait. */
  function Recv(next: nat, msgs: Waiting, m: Msg): (seq<Msg>, nat, Waiting) {
    if m.packet.seqNo == next then
      var (rest, n, ms) := Drain(next + 1, msgs);
      ([m] + rest, n, ms)
    else ([], next, msgs[m.packet.seqNo := m])
  }

  /** The records of a row of packets. */
  function Items(ms: seq<Msg>): seq<Item> {
    if ms == [] then [] else Items(ms[..|ms| - 1]) + ms[|ms| - 1].packet.items
  }

  // -------------------------------------------------------------------- system

  /**
   * One connection: packets on their way to the receiver and replies on their way back, and the sender's
   * notes about it. `redo` says that it waits for something to send.
   */
  datatype Conn = Conn(joined: bool, redo: bool, down: seq<Packet>, up: seq<nat>, sentSeq: nat, lastSid: nat)

  /** `sent` (every packet so far, in order) and `had` (what was saved before) are history; the code keeps neither. */
  datatype Session = Session(sender: Sender, conns: seq<Conn>, next: nat, msgs: Waiting, sent: seq<Msg>, had: nat)

  /**
   * A receiver of the source, and the session with it if there is one. `saved` are the records its process has
   * saved, and `first` is where that process started.
   */
  datatype End = End(first: nat, saved: seq<Item>, session: Option<Session>)

  /**
   * The sender's log, the checkpoint file of one source, and the receivers that report under that source.
   * `logged` holds every sid the checkpoint was ever given: after a crash it may be any of them.
   * `late` holds the sids that replies still under way on closed connections may yet give it.
   * `history` are the records that any receiver has saved; `base` is what the checkpoint held at first.
   */
  datatype System = System(log: seq<Item>, base: nat, created: bool, logged: set<nat>, late: set<nat>,
                           history: seq<Item>, ends: seq<End>)

  /** The system as far as one of its receivers is concerned. */
  datatype Link = Link(log: seq<Item>, base: nat, created: bool, logged: set<nat>, late: set<nat>,
                       first: nat, saved: seq<Item>, history: seq<Item>, session: Option<Session>)

  function LinkOf(sys: System, r: nat): Link
    requires r < |sys.ends|
  {
    var e := sys.ends[r];
    Link(sys.log, sys.base, sys.created, sys.logged, sys.late, e.first, e.saved, sys.history, e.session)
  }

  function WithLink(sys: System, r: nat, l: Link): System
    requires r < |sys.ends|
  {
    System(l.log, l.base, l.created, l.logged, l.late, l.history, sys.ends[r := End(l.first, l.saved, l.session)])
  }

  const CLOSED: Conn := Conn(false, false, [], [], 0, 0)

  /** What happens between the sender and one receiver. */
  datatype Act =
    | Open(conns: nat, chunk: nat, loaded: nat)
    | Join(i: nat)
    | Redo(i: nat)
    | Receive(i: nat)
    | ReceiveFails(i: nat, packets: nat, items: nat)
    | Ack(i: nat)
    | Close
    | RestartReceiver

  datatype Op = Append(item: Item) | LateAck(sid: nat) | On(r: nat, act: Act)

  /** The sid the receiver reports: that of the last record this process has saved. */
  function LogSid(l: Link): nat {
    MaxSid(l.saved)
  }

  /** The sender tries to send on connection `i`, which waits for its turn if there is nothing. */
  function SendOn(t: Session, log: seq<Item>, i: nat): Session
    requires Placed(t.sender, log) && i < |t.conns|
  {
    var (s, items) := SyncSend(t.sender, log);
    var c := t.conns[i].(joined := true);
    if items == [] then t.(sender := s, conns := t.conns[i := c.(redo := true)])
    else
      var p := Packet(t.sender.seqNo, items);
      var c' := c.(redo := false, down := c.down + [p], sentSeq := p.seqNo, lastSid := MaxSid(items));
      t.(sender := s, conns := t.conns[i := c'], sent := t.sent + [Msg(p, i)])
  }

  /** Each finished packet is answered on the connection it came on. */
  function Reply(conns: seq<Conn>, ms: seq<Msg>): (r: seq<Conn>)
    ensures |r| == |conns|
  {
    if ms == [] then conns
    else
      var before, m := Reply(conns, ms[..|ms| - 1]), ms[|ms| - 1];
      if m.conn < |conns| then
        before[m.conn := before[m.conn].(up := before[m.conn].up + [m.packet.seqNo])]
      else before
  }

  /** The sids that replies under way can make the sender log. */
  function Underway(conns: seq<Conn>): set<nat> {
    set i | 0 <= i < |conns| && conns[i].up != [] :: conns[i].lastSid
  }

  function Closed(l: Link): Link {
    match l.session
    case None => l
    case Some(t) => l.(session := None, late := l.late + Underway(t.conns))
  }

  /** The report: a receiver that has saved nothing resumes from the checkpoint, any other from its own last sid. */
  function StartOf(l: Link, loaded: nat): nat {
    if LogSid(l) == 0 && l.created then loaded else LogSid(l)
  }

  function OpenStep(l: Link, conns: nat, chunk: nat, loaded: nat): Link
    requires conns >= 1
  {
    var start := StartOf(l, loaded);
    var t := Session(Sender(0, Unseek, false, start, chunk), seq(conns, _ => CLOSED), 0, map[], [], |l.saved|);
    l.(created := true,
       logged := if l.created then l.logged else l.logged + {start},
       first := if l.saved == [] then start else l.first,
       session := Some(SendOn(t, l.log, 0)))
  }

  /** A packet arrives and what is finished by it is saved and answered. */
  function ReceiveStep(l: Link, t: Session, i: nat): Link
    requires i < |t.conns| && t.conns[i].down != []
  {
    var c := t.conns[i];
    var (done, n, ms) := Recv(t.next, t.msgs, Msg(c.down[0], i));
    var conns := Reply(t.conns[i := c.(down := c.down[1..])], done);
    l.(saved := l.saved + Items(done), history := l.history + Items(done),
       session := Some(t.(conns := conns, next := n, msgs := ms)))
  }

  /** The same, but saving fails in packet number `packets`, after `items` of its records: the session ends. */
  function ReceiveFailsStep(l: Link, t: Session, i: nat, packets: nat, items: nat): Link
    requires i < |t.conns| && t.conns[i].down != []
  {
    var c := t.conns[i];
    var (done, n, ms) := Recv(t.next, t.msgs, Msg(c.down[0], i));
    if packets >= |done| || items > |done[packets].packet.items| then l
    else
      var got := Items(done[..packets]) + done[packets].packet.items[..items];
      Closed(l.(saved := l.saved + got, history := l.history + got,
                session := Some(t.(conns := Reply(t.conns, done[..packets])))))
  }

  /** A reply arrives: it must be that to the last packet sent on the connection, whose last sid is logged. */
  function AckStep(l: Link, t: Session, i: nat): Link
    requires i < |t.conns| && t.conns[i].up != []
    requires Placed(t.sender, l.log)
  {
    var c := t.conns[i];
    if c.up[0] != c.sentSeq then Closed(l)
    else
      l.(logged := l.logged + {c.lastSid},
         session := Some(SendOn(t.(conns := t.conns[i := c.(up := c.up[1..])]), l.log, i)))
  }

  /** Whether this can happen. */
  predicate CanAct(l: Link, act: Act) {
    match act
    case Open(conns, _, loaded) => l.session == None && conns >= 1 && (l.created ==> loaded in l.logged)
    case Close => true
    case RestartReceiver => true
    case _ =>
      && l.session.Some?
      && var t := l.session.value;
      && Placed(t.sender, l.log) && act.i < |t.conns|
      && var c := t.conns[act.i];
      && (act.Join? ==> !c.joined)
      && (act.Redo? ==> c.redo)
      && (act.Receive? || act.ReceiveFails? ==> c.down != [])
      && (act.Ack? ==> c.up != [])
  }

  function ActStep(l: Link, act: Act): Link
    requires CanAct(l, act)
  {
    match act
    case Open(conns, chunk, loaded) => OpenStep(l, conns, chunk, loaded)
    case Join(i) => l.(session := Some(SendOn(l.session.value, l.log, i)))
    case Redo(i) => l.(session := Some(SendOn(l.session.value, l.log, i)))
    case Receive(i) => ReceiveStep(l, l.session.value, i)
    case ReceiveFails(i, packets, items) => ReceiveFailsStep(l, l.session.value, i, packets, items)
    case Ack(i) => AckStep(l, l.session.value, i)
    case Close => Closed(l)
    case RestartReceiver => Closed(l).(saved := [], first := 0)
  }

  /** Whether the operation can happen in this state. Any number of receivers may be in session at once. */
  predicate Enabled(sys: System, op: Op) {
    match op
    case Append(item) => item.sid > MaxSid(sys.log) && item.packed >= 1 && item.good
    case LateAck(sid) => sid in sys.late
    case On(r, act) => r < |sys.ends| && CanAct(LinkOf(sys, r), act)
  }

  function Step(sys: System, op: Op): System
    requires Enabled(sys, op)
  {
    match op
    case Append(item) => sys.(log := sys.log + [item])
    case LateAck(sid) => sys.(logged := sys.logged + {sid}, late := sys.late - {sid})
    case On(r, act) => WithLink(sys, r, ActStep(LinkOf(sys, r), act))
  }

  predicate Possible(sys: System, ops: seq<Op>)
    decreases |ops|
  {
    ops != [] ==> Enabled(sys, ops[0]) && Possible(Step(sys, ops[0]), ops[1..])
  }

  function Run(sys: System, ops: seq<Op>): System
    requires Possible(sys, ops)
    decreases |ops|
  {
    if ops == [] then sys else Run(Step(sys, ops[0]), ops[1..])
  }

  /** Before anything has been shipped: empty receivers and a checkpoint file that holds `base`, or none. */
  predicate Start(sys: System) {
    && (forall r :: 0 <= r < |sys.ends| ==> sys.ends[r] == End(0, [], None))
    && sys.history == [] && sys.late == {}
    && sys.logged == (if sys.created then {sys.base} else {}) && (!sys.created ==> sys.base == 0)
  }
}
