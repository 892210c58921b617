// Every step of the replication keeps the order of what is saved, the checkpoint behind it, and the
// session's packets where they belong.
module ReplRuns {
  import opened Bytes
  import opened FlatLog
  import opened Wrappers
  import opened ReplSpec
  import opened ReplInvariant

  /** The largest sid ever saved, or `base` if that is larger. */
  function High(base: nat, history: seq<Item>): (h: nat)
    ensures h >= base
    ensures forall k :: 0 <= k < |history| ==> history[k].sid <= h
  {
    if history == [] then base
    else
      var h := High(base, history[..|history| - 1]);
      var sid := history[|history| - 1].sid;
      if sid > h then sid else h
  }

  /** Resuming from `sid` loses nothing: each record at or below it has been saved, or lies below `base`. */
  ghost predicate SafeFrom(log: seq<Item>, base: nat, history: seq<Item>, sid: nat) {
    forall i :: 0 <= i < |log| && base < log[i].sid <= sid ==> log[i] in history
  }

  /** What a receiver process has saved is the run of the log's records that starts above its first sid. */
  predicate InOrder(log: seq<Item>, first: nat, saved: seq<Item>) {
    saved != [] ==>
      var u := Above(log, first);
      u + |saved| <= |log| && saved == log[u..u + |saved|]
  }

  predicate AllIn(saved: seq<Item>, history: seq<Item>) {
    forall k :: 0 <= k < |saved| ==> saved[k] in history
  }

  /** The log, the checkpoint and what any receiver has saved fit together. */
  ghost predicate Shared(log: seq<Item>, base: nat, logged: set<nat>, late: set<nat>, history: seq<Item>) {
    && LogOk(log)
    && var high := High(base, history);
    && (forall v :: v in logged || v in late ==> v <= high)
    && high <= Max(base, MaxSid(log))
    && SafeFrom(log, base, history, high)
  }

  ghost predicate Core(l: Link) {
    && Shared(l.log, l.base, l.logged, l.late, l.history)
    && InOrder(l.log, l.first, l.saved) && AllIn(l.saved, l.history)
    && l.first <= High(l.base, l.history)
  }

  ghost predicate SessionOk(l: Link, t: Session) {
    && Routed(t) && Shipped(t.sender, t.sent, l.log) && t.conns != [] && t.conns[0].joined
    && t.had <= |l.saved| && l.saved[t.had..] == Items(t.sent[..t.next])
    && t.sender.start == if t.had == 0 then l.first else l.saved[t.had - 1].sid
  }

  ghost predicate LinkOk(l: Link) {
    Core(l) && (l.session.Some? ==> SessionOk(l, l.session.value))
  }

  // ------------------------------------------------------------- the log grows

  lemma {:induction false} SafeStays(log: seq<Item>, base: nat, history: seq<Item>, sid: nat, item: Item)
    requires SafeFrom(log, base, history, sid) && sid <= Max(base, MaxSid(log)) && item.sid > MaxSid(log)
    ensures SafeFrom(log + [item], base, history, sid)
  {
  }

  lemma {:induction false} ShippedStays(t: Session, log: seq<Item>, item: Item)
    requires Shipped(t.sender, t.sent, log) && LogOk(log)
    ensures Shipped(t.sender, t.sent, log + [item])
  {
    if t.sender.place.At? {
      var u := Above(log, t.sender.start);
      AboveStays(log, log + [item], t.sender.start);
      assert (log + [item])[u..Pending(t.sender)] == log[u..Pending(t.sender)];
    }
  }

  lemma {:induction false} InOrderStays(log: seq<Item>, first: nat, saved: seq<Item>, item: Item)
    requires InOrder(log, first, saved) && LogOk(log)
    ensures InOrder(log + [item], first, saved)
  {
    if saved != [] {
      AboveStays(log, log + [item], first);
    }
  }

  lemma {:induction false} AppendKeeps(l: Link, item: Item)
    requires LinkOk(l) && item.sid > MaxSid(l.log) && item.packed >= 1 && item.good
    ensures LinkOk(l.(log := l.log + [item]))
  {
    hide LogOk, InOrder, SafeFrom, Shipped, Routed, High, Above, Items;
    LogSnoc(l.log, item);
    InOrderStays(l.log, l.first, l.saved, item);
    SafeStays(l.log, l.base, l.history, High(l.base, l.history), item);
    if l.session.Some? {
      ShippedStays(l.session.value, l.log, item);
    }
  }

  lemma {:induction false} LogSnoc(log: seq<Item>, item: Item)
    requires LogOk(log) && item.sid > MaxSid(log) && item.packed >= 1 && item.good
    ensures LogOk(log + [item])
  {
    forall i, j | 0 <= i < j < |log| + 1
      ensures (log + [item])[i].sid < (log + [item])[j].sid
    {
      assert i < |log| ==> log[i].sid <= MaxSid(log);
    }
  }

  // ------------------------------------------------------------ saving records

  lemma {:induction false} ItemsJoin(a: seq<Msg>, b: seq<Msg>)
    ensures Items(a + b) == Items(a) + Items(b)
  {
    if b == [] {
      assert a + b == a;
    } else {
      ItemsJoin(a, b[..|b| - 1]);
      assert (a + b)[..|a + b| - 1] == a + b[..|b| - 1];
      var x, y, z := Items(a), Items(b[..|b| - 1]), b[|b| - 1].packet.items;
      assert x + (y + z) == (x + y) + z;
    }
  }

  lemma {:induction false} SliceOn<T>(s: seq<T>, a: nat, b: nat, c: nat, got: seq<T>)
    requires a <= b <= c <= |s| && s[a..b] + got <= s[a..c]
    ensures b + |got| <= c && got == s[b..b + |got|]
  {
    forall k | 0 <= k < |got|
      ensures got[k] == s[b + k]
    {
      assert (s[a..b] + got)[b - a + k] == s[a..c][b - a + k];
    }
  }

  /** The session ships the log from the record after those saved before it. */
  lemma {:induction false} SessionStart(l: Link, t: Session)
    requires Core(l) && SessionOk(l, t) && t.sent != []
    ensures t.sender.place.At?
    ensures var u, p := Above(l.log, l.first), Pending(t.sender);
            u + t.had <= p <= |l.log| && Items(t.sent) == l.log[u + t.had..p]
  {
    hide SafeFrom, Routed, High, Above;
    if t.had > 0 {
      AboveNext(l.log, Above(l.log, l.first) + t.had - 1);
    }
  }

  lemma {:induction false} Continued<T>(log: seq<T>, saved: seq<T>, u: nat, had: nat, p: nat, got: seq<T>)
    requires u + had <= p <= |log| && had <= |saved|
    requires saved != [] ==> u + |saved| <= |log| && saved == log[u..u + |saved|]
    requires saved[had..] + got <= log[u + had..p]
    ensures u + |saved| + |got| <= |log| && saved + got == log[u..u + |saved| + |got|]
  {
    var m := u + |saved|;
    if saved != [] {
      assert saved[had..] == log[u + had..m];
      assert |saved[had..] + got| <= |log[u + had..p]|;
    }
    SliceOn(log, u + had, m, p, got);
    SliceJoin(log, u, m, m + |got|);
  }

  /** The session's next records of the log continue what has been saved. */
  lemma {:induction false} SavedContinues(l: Link, t: Session, got: seq<Item>)
    requires Core(l) && SessionOk(l, t) && t.sent != []
    requires l.saved[t.had..] + got <= Items(t.sent)
    ensures InOrder(l.log, l.first, l.saved + got)
  {
    hide LogOk, SafeFrom, Routed, Shipped, High, Above, Items;
    SessionStart(l, t);
    Continued(l.log, l.saved, Above(l.log, l.first), t.had, Pending(t.sender), got);
  }

  /** More records raise the high mark to the sid of one of them, or not at all. */
  lemma {:induction false} HighJoin(base: nat, a: seq<Item>, b: seq<Item>) returns (k: nat)
    ensures High(base, a + b) >= High(base, a)
    ensures High(base, a + b) > High(base, a) ==> k < |b| && High(base, a + b) == b[k].sid
  {
    k := 0;
    if b == [] {
      assert a + b == a;
    } else {
      var n := |b| - 1;
      assert (a + b)[..|a| + n] == a + b[..n];
      k := HighJoin(base, a, b[..n]);
      k := if High(base, a + b) > High(base, a + b[..n]) then n else k;
    }
  }

  /** A record between the first sid and the last one saved is among those saved. */
  lemma {:induction false} AmongSaved(log: seq<Item>, first: nat, saved: seq<Item>, k: nat, i: nat)
    requires LogOk(log) && k < |saved| && i < |log| && InOrder(log, first, saved)
    requires first < log[i].sid <= saved[k].sid
    ensures log[i] in saved
  {
    var u := Above(log, first);
    assert saved[k] == log[u + k];
    assert u <= i <= u + k;
    assert log[i] == saved[i - u];
  }

  lemma {:induction false} InMore(saved: seq<Item>, history: seq<Item>, got: seq<Item>)
    requires AllIn(saved, history)
    ensures AllIn(saved + got, history + got) && forall x :: x in history ==> x in history + got
  {
    forall k | 0 <= k < |saved + got|
      ensures (saved + got)[k] in history + got
    {
      assert k < |saved| ==> (saved + got)[k] == saved[k];
      assert k >= |saved| ==> (saved + got)[k] == got[k - |saved|];
    }
  }

  lemma {:induction false} InSaved(saved: seq<Item>, history: seq<Item>, x: Item)
    requires AllIn(saved, history) && x in saved
    ensures x in history
  {
  }

  /** Once the records up to the new high mark are saved, resuming from it loses nothing. */
  lemma {:induction false} SafeAfterSaving(l: Link, got: seq<Item>)
    requires LogOk(l.log) && SafeFrom(l.log, l.base, l.history, High(l.base, l.history)) && l.first <= High(l.base, l.history)
    requires InOrder(l.log, l.first, l.saved + got)
    requires AllIn(l.saved, l.history)
    ensures var r := l.(saved := l.saved + got, history := l.history + got);
            && SafeFrom(l.log, l.base, r.history, High(l.base, r.history))
            && High(l.base, r.history) <= Max(High(l.base, l.history), MaxSid(l.log))
  {
    hide LogOk, High, Above, InOrder, AllIn;
    var saved, history := l.saved + got, l.history + got;
    var high, high' := High(l.base, l.history), High(l.base, history);
    var k := HighJoin(l.base, l.history, got);
    if high' > high {
      assert got[k] == saved[|l.saved| + k];
      SavedInLog(l.log, l.first, saved, |l.saved| + k);
    }
    InMore(l.saved, l.history, got);
    forall i | 0 <= i < |l.log| && l.base < l.log[i].sid <= high'
      ensures l.log[i] in history
    {
      if l.log[i].sid > high {
        AmongSaved(l.log, l.first, saved, |l.saved| + k, i);
        InSaved(saved, history, l.log[i]);
      }
    }
  }

  lemma {:induction false} SavedInLog(log: seq<Item>, first: nat, saved: seq<Item>, k: nat)
    requires LogOk(log) && k < |saved| && InOrder(log, first, saved)
    ensures saved[k].sid <= MaxSid(log)
  {
  }

  lemma {:induction false} SavingKeeps(l: Link, got: seq<Item>)
    requires Core(l) && InOrder(l.log, l.first, l.saved + got)
    ensures Core(l.(saved := l.saved + got, history := l.history + got))
  {
    hide LogOk, SafeFrom, InOrder, High;
    var r := l.(saved := l.saved + got, history := l.history + got);
    SafeAfterSaving(l, got);
    var _ := HighJoin(l.base, l.history, got);
    InMore(l.saved, l.history, got);
  }

  // -------------------------------------------------------------- each step

  /** The session as far as one connection that is free to send on is concerned. */
  ghost predicate Sendable(l: Link, t: Session, i: nat) {
    && RoutedBut(t, i) && Shipped(t.sender, t.sent, l.log) && t.conns != [] && (i == 0 || t.conns[0].joined)
    && t.had <= |l.saved| && l.saved[t.had..] == Items(t.sent[..t.next])
    && t.sender.start == if t.had == 0 then l.first else l.saved[t.had - 1].sid
  }

  lemma {:induction false} SendKeeps(l: Link, t: Session, i: nat)
    requires LogOk(l.log) && Sendable(l, t, i)
    ensures SessionOk(l, SendOn(t, l.log, i))
  {
    hide LogOk, Shipped, Routed, RoutedBut, Items, Above;
    assert i < |t.conns| && Placed(t.sender, l.log) && t.next <= |t.sent| by {
      assert RoutedBut(t, i) && Shipped(t.sender, t.sent, l.log);
      Parts(t, l.log, i);
    }
    SendRoutes(t, l.log, i);
    SendShips(t, l.log, i);
    SendTakes(t.sender, l.log);
    var r := SendOn(t, l.log, i);
    assert r.sent[..t.next] == t.sent[..t.next];
  }

  lemma {:induction false} Parts(t: Session, log: seq<Item>, i: nat)
    requires RoutedBut(t, i) && Shipped(t.sender, t.sent, log)
    ensures i < |t.conns| && Placed(t.sender, log) && t.next <= |t.sent|
  {
  }

  /** The last record of a packet is one of the records of the row. */
  lemma {:induction false} LastOfPacket(ms: seq<Msg>, k: nat) returns (x: Item)
    requires k < |ms| && ms[k].packet.items != []
    ensures x in Items(ms) && x.sid == MaxSid(ms[k].packet.items)
  {
    if k == |ms| - 1 {
      x := ms[k].packet.items[|ms[k].packet.items| - 1];
    } else {
      x := LastOfPacket(ms[..|ms| - 1], k);
    }
  }

  /** A packet whose records are all saved ends at or below the high mark. */
  lemma {:induction false} FinishedIsLow(base: nat, history: seq<Item>, saved: seq<Item>, sent: seq<Msg>, n: nat, k: nat)
    requires k < n <= |sent| && sent[k].packet.items != []
    requires Items(sent[..n]) <= saved
    requires AllIn(saved, history)
    ensures MaxSid(sent[k].packet.items) <= High(base, history)
  {
    var x := LastOfPacket(sent[..n], k);
    var j :| 0 <= j < |Items(sent[..n])| && Items(sent[..n])[j] == x;
    assert saved[j] in history;
  }

  /** Joining and waiting connections may be sent on. */
  lemma {:induction false} TurnKeeps(l: Link, i: nat)
    requires LinkOk(l) && (CanAct(l, Join(i)) || CanAct(l, Redo(i)))
    ensures LinkOk(l.(session := Some(SendOn(l.session.value, l.log, i))))
  {
    hide LogOk, Shipped, Routed, RoutedBut, Items, Above, InOrder, SafeFrom, High;
    WaitingIsFree(l.session.value, i);
    SendKeeps(l, l.session.value, i);
  }

  /** The packets below `n` have been finished, those from `next` on just now. */
  lemma {:induction false} FinishedItems(t: Session, n: nat)
    requires t.next <= n <= |t.sent|
    ensures Items(t.sent[..n]) == Items(t.sent[..t.next]) + Items(t.sent[t.next..n])
    ensures Items(t.sent) == Items(t.sent[..n]) + Items(t.sent[n..])
  {
    ItemsJoin(t.sent[..t.next], t.sent[t.next..n]);
    assert t.sent[..t.next] + t.sent[t.next..n] == t.sent[..n];
    ItemsJoin(t.sent[..n], t.sent[n..]);
    assert t.sent[..n] + t.sent[n..] == t.sent;
  }

  lemma {:induction false} ReplyJoins(conns: seq<Conn>, ms: seq<Msg>)
    ensures forall j :: 0 <= j < |conns| ==> Reply(conns, ms)[j].joined == conns[j].joined
  {
    if ms != [] {
      ReplyJoins(conns, ms[..|ms| - 1]);
    }
  }

  lemma {:induction false} ReceiveKeeps(l: Link, i: nat)
    requires LinkOk(l) && CanAct(l, Receive(i))
    ensures LinkOk(ReceiveStep(l, l.session.value, i))
  {
    hide LogOk, Shipped, Routed, Items, Above, InOrder, SafeFrom, High, Recv, Reply;
    var t := l.session.value;
    var (done, n, ms) := Recv(t.next, t.msgs, Msg(t.conns[i].down[0], i));
    RecvGives(t, i);
    assert t.conns[i].down[1..] == [];
    ReceiveRoutes(t, i, n, ms);
    ReplyJoins(t.conns[i := t.conns[i].(down := t.conns[i].down[1..])], done);
    FinishedItems(t, n);
    assert l.saved[t.had..] + Items(done) == Items(t.sent[..n]);
    SavedContinues(l, t, Items(done));
    SavingKeeps(l, Items(done));
    assert (l.saved + Items(done))[t.had..] == Items(t.sent[..n]);
  }

  /** Replies are only ever under way for packets whose records are saved. */
  lemma {:induction false} UnderwayIsLow(base: nat, history: seq<Item>, saved: seq<Item>, t: Session)
    requires Routed(t) && Items(t.sent[..t.next]) <= saved
    requires AllIn(saved, history)
    ensures forall v :: v in Underway(t.conns) ==> v <= High(base, history)
  {
    forall v | v in Underway(t.conns)
      ensures v <= High(base, history)
    {
      var i :| 0 <= i < |t.conns| && t.conns[i].up != [] && v == t.conns[i].lastSid;
      UpIsFinished(t, i);
      FinishedIsLow(base, history, saved, t.sent, t.next, t.conns[i].sentSeq);
    }
  }

  lemma {:induction false} UpIsFinished(t: Session, i: nat)
    requires Routed(t) && i < |t.conns| && t.conns[i].up != []
    ensures var k := t.conns[i].sentSeq;
            && k < t.next <= |t.sent| && t.sent[k].packet.items != [] && t.conns[i].up == [k]
            && t.conns[i].lastSid == MaxSid(t.sent[k].packet.items)
  {
    assert ConnOk(t, i) && SentOk(t, t.conns[i].sentSeq);
  }

  /** The part of the records saved that this session has shipped. */
  lemma {:induction false} UnderwayKeeps(l: Link, t: Session)
    requires Core(l) && SessionOk(l, t)
    ensures forall v :: v in Underway(t.conns) ==> v <= High(l.base, l.history)
  {
    hide LogOk, Shipped, Routed, Items, Above, InOrder, SafeFrom, High, Underway;
    NextInRange(t);
    var ours := l.saved[t.had..];
    UnderwayIsLow(l.base, l.history, ours, t);
  }

  lemma {:induction false} CloseKeeps(l: Link)
    requires LinkOk(l)
    ensures LinkOk(Closed(l))
  {
    hide LogOk, Shipped, Routed, Items, Above, InOrder, SafeFrom, High, Underway;
    if l.session.Some? {
      UnderwayKeeps(l, l.session.value);
    }
  }

  lemma {:induction false} AckKeeps(l: Link, i: nat)
    requires LinkOk(l) && CanAct(l, Ack(i))
    ensures LinkOk(AckStep(l, l.session.value, i))
    ensures l.session.value.conns[i].up[0] == l.session.value.conns[i].sentSeq
  {
    hide LogOk, Shipped, Routed, RoutedBut, Items, Above, InOrder, SafeFrom, High, Underway;
    var t := l.session.value;
    var c := t.conns[i];
    AnsweredIsFree(t, i);
    UnderwayKeeps(l, t);
    assert c.lastSid in Underway(t.conns) by {
      InUnderway(t.conns, i);
    }
    assert c.up[1..] == [];
    SendKeeps(l, t.(conns := t.conns[i := c.(up := c.up[1..])]), i);
  }

  lemma {:induction false} InUnderway(conns: seq<Conn>, i: nat)
    requires i < |conns| && conns[i].up != []
    ensures conns[i].lastSid in Underway(conns)
  {
  }

  lemma {:induction false} NextInRange(t: Session)
    requires Routed(t)
    ensures t.next <= |t.sent|
  {
  }

  lemma {:induction false} FreshSession(t: Session, n: nat, log: seq<Item>)
    requires n >= 1 && t.sender.place == Unseek && t.sender.seqNo == 0
    requires t.conns == seq(n, _ => CLOSED) && t.next == 0 && t.msgs == map[] && t.sent == []
    ensures RoutedBut(t, 0) && Shipped(t.sender, t.sent, log) && Items(t.sent[..t.next]) == []
  {
  }

  /** Where a new session starts is at most the high mark, and right after what the receiver has saved. */
  lemma {:induction false} StartIsLow(l: Link, loaded: nat)
    requires Core(l) && (l.created ==> loaded in l.logged)
    ensures var start := StartOf(l, loaded);
            && start <= High(l.base, l.history)
            && (l.saved != [] ==> start == l.saved[|l.saved| - 1].sid)
  {
    hide SafeFrom;
    if l.saved != [] {
      SavedPositive(l.log, l.first, l.saved);
      var x := l.saved[|l.saved| - 1];
      assert x in l.history;
    }
  }

  lemma {:induction false} OpenKeeps(l: Link, conns: nat, chunk: nat, loaded: nat)
    requires LinkOk(l) && CanAct(l, Open(conns, chunk, loaded))
    ensures LinkOk(OpenStep(l, conns, chunk, loaded))
  {
    hide LogOk, Shipped, Routed, RoutedBut, Items, Above, SafeFrom, High, StartOf, SendOn;
    var start := StartOf(l, loaded);
    var t := Session(Sender(0, Unseek, false, start, chunk), seq(conns, _ => CLOSED), 0, map[], [], |l.saved|);
    StartIsLow(l, loaded);
    FreshSession(t, conns, l.log);
    assert l.saved[t.had..] == [];
    SendKeeps(l.(first := if l.saved == [] then start else l.first), t, 0);
  }

  lemma {:induction false} SavedPositive(log: seq<Item>, first: nat, saved: seq<Item>)
    requires LogOk(log) && InOrder(log, first, saved) && saved != []
    ensures MaxSid(saved) >= 1
  {
    assert saved[|saved| - 1] == log[Above(log, first) + |saved| - 1];
  }

  lemma {:induction false} PartOf<T>(a: seq<T>, b: seq<T>, c: seq<T>, rest: seq<T>, k: nat)
    requires k <= |c|
    ensures a + b <= a + (b + c[..k]) <= ((a + b) + c) + rest
  {
  }

  /** Part of a row of packets: whole ones below `m`, and the first `items` records of number `m`. */
  lemma {:induction false} PartlyFinished(t: Session, m: nat, items: nat)
    requires t.next <= m < |t.sent| && items <= |t.sent[m].packet.items|
    ensures var got := Items(t.sent[t.next..m]) + t.sent[m].packet.items[..items];
            && Items(t.sent[..m]) <= Items(t.sent[..t.next]) + got <= Items(t.sent)
  {
    hide Items;
    FinishedItems(t, m);
    FinishedItems(t, m + 1);
    ItemsSnoc(t.sent[..m], t.sent[m]);
    assert t.sent[..m] + [t.sent[m]] == t.sent[..m + 1];
    PartOf(Items(t.sent[..t.next]), Items(t.sent[t.next..m]), t.sent[m].packet.items, Items(t.sent[m + 1..]), items);
  }

  /** Replies are only given for packets whose records are saved, also when a later one fails. */
  lemma {:induction false} RepliesAreLow(base: nat, history: seq<Item>, saved: seq<Item>, t: Session, m: nat)
    requires Routed(t) && t.next <= m <= |t.sent| && Items(t.sent[..m]) <= saved
    requires AllIn(saved, history)
    ensures forall v :: v in Underway(Reply(t.conns, t.sent[t.next..m])) ==> v <= High(base, history)
  {
    hide Reply, High, Items, Routed;
    var conns := Reply(t.conns, t.sent[t.next..m]);
    ReplyReaches(t, t.conns, m);
    forall v | v in Underway(conns)
      ensures v <= High(base, history)
    {
      var i :| 0 <= i < |conns| && conns[i].up != [] && v == conns[i].lastSid;
      AnsweredBelow(t, i, m);
      FinishedIsLow(base, history, saved, t.sent, m, t.conns[i].sentSeq);
    }
  }

  lemma {:induction false} AnsweredBelow(t: Session, i: nat, m: nat)
    requires Routed(t) && i < |t.conns| && t.next <= m <= |t.sent|
    requires t.conns[i].up != [] || Awaits(t.conns[i], t.next, m)
    ensures var k := t.conns[i].sentSeq;
            && k < m && t.sent[k].packet.items != []
            && t.conns[i].lastSid == MaxSid(t.sent[k].packet.items)
  {
    assert ConnOk(t, i) && SentOk(t, t.conns[i].sentSeq);
  }

  lemma {:induction false} FailKeeps(l: Link, i: nat, packets: nat, items: nat)
    requires LinkOk(l) && CanAct(l, ReceiveFails(i, packets, items))
    ensures LinkOk(ReceiveFailsStep(l, l.session.value, i, packets, items))
  {
    hide LogOk, Shipped, Routed, Items, Above, InOrder, SafeFrom, High, Recv, Reply, Underway;
    var t := l.session.value;
    var (done, n, ms) := Recv(t.next, t.msgs, Msg(t.conns[i].down[0], i));
    if packets < |done| && items <= |done[packets].packet.items| {
      RecvGives(t, i);
      var m := t.next + packets;
      assert done[packets] == t.sent[m] && done[..packets] == t.sent[t.next..m];
      var got := Items(done[..packets]) + done[packets].packet.items[..items];
      PartlyFinished(t, m, items);
      SavedContinues(l, t, got);
      SavingKeeps(l, got);
      var ours, history := l.saved[t.had..] + got, l.history + got;
      InMore(l.saved[t.had..], l.history, got);
      RepliesAreLow(l.base, history, ours, t, m);
    }
  }

  lemma {:induction false} NothingSaved(log: seq<Item>, history: seq<Item>)
    ensures InOrder(log, 0, []) && AllIn([], history)
  {
  }

  lemma {:induction false} RestartKeeps(l: Link)
    requires LinkOk(l)
    ensures LinkOk(Closed(l).(saved := [], first := 0))
  {
    hide LogOk, Above, SafeFrom, Underway, Closed, InOrder, High;
    CloseKeeps(l);
    NothingSaved(l.log, l.history);
    assert Closed(l).session == None && Closed(l).history == l.history && Closed(l).log == l.log by {
      ClosedIs(l);
    }
  }

  lemma {:induction false} ClosedIs(l: Link)
    ensures Closed(l) == l.(session := None, late := Closed(l).late)
  {
  }

  /** Whatever happens between the sender and a receiver keeps the invariant for the two. */
  lemma {:induction false} ActKeeps(l: Link, act: Act)
    requires LinkOk(l) && CanAct(l, act)
    ensures LinkOk(ActStep(l, act))
  {
    hide LinkOk;
    match act {
      case Open(conns, chunk, loaded) => OpenKeeps(l, conns, chunk, loaded);
      case Join(i) => TurnKeeps(l, i);
      case Redo(i) => TurnKeeps(l, i);
      case Receive(i) => ReceiveKeeps(l, i);
      case ReceiveFails(i, packets, items) => FailKeeps(l, i, packets, items);
      case Ack(i) => AckKeeps(l, i);
      case Close => CloseKeeps(l);
      case RestartReceiver => RestartKeeps(l);
    }
  }

  lemma {:induction false} LateKeeps(l: Link, sid: nat)
    requires LinkOk(l) && sid in l.late
    ensures LinkOk(l.(logged := l.logged + {sid}, late := l.late - {sid}))
  {
    hide LogOk, Shipped, Routed, Items, Above, InOrder, SafeFrom, High;
  }

  // -------------------------------------------------------- several receivers

  ghost predicate SystemOk(sys: System) {
    && Shared(sys.log, sys.base, sys.logged, sys.late, sys.history)
    && forall r :: 0 <= r < |sys.ends| ==> LinkOk(LinkOf(sys, r))
  }

  /** One receiver leaves the log alone and adds to what has been saved. */
  lemma {:induction false} ActShares(l: Link, act: Act)
    requires CanAct(l, act)
    ensures var r := ActStep(l, act); r.log == l.log && r.base == l.base && l.history <= r.history
  {
    hide SendOn, Recv, Reply, Items;
  }

  /** The other receivers see no more of it than that. */
  lemma {:induction false} OthersKeep(l: Link, after: Link)
    requires LinkOk(l) && Core(after) && after.log == l.log && after.base == l.base && l.history <= after.history
    ensures LinkOk(l.(created := after.created, logged := after.logged, late := after.late, history := after.history))
  {
    hide Shared, InOrder, High, Shipped, Routed, Items;
    var more := after.history[|l.history|..];
    assert after.history == l.history + more;
    InMore(l.saved, l.history, more);
    assert AllIn(l.saved, after.history) by {
      assert forall k :: 0 <= k < |l.saved| ==> (l.saved + more)[k] == l.saved[k];
    }
    var _ := HighJoin(l.base, l.history, more);
  }

  lemma {:induction false} OnKeeps(sys: System, r: nat, act: Act)
    requires SystemOk(sys) && Enabled(sys, On(r, act))
    ensures SystemOk(Step(sys, On(r, act)))
  {
    hide LinkOk, ActStep, CanAct, Shared;
    var l := LinkOf(sys, r);
    var after := ActStep(l, act);
    ActKeeps(l, act);
    ActShares(l, act);
    CoreOf(after);
    var sys' := Step(sys, On(r, act));
    forall q | 0 <= q < |sys'.ends|
      ensures LinkOk(LinkOf(sys', q))
    {
      if q == r {
        assert LinkOf(sys', q) == after;
      } else {
        OthersKeep(LinkOf(sys, q), after);
      }
    }
  }

  lemma {:induction false} CoreOf(l: Link)
    requires LinkOk(l)
    ensures Core(l) && Shared(l.log, l.base, l.logged, l.late, l.history)
  {
  }

  lemma {:induction false} SharedGrows(sys: System, item: Item)
    requires Shared(sys.log, sys.base, sys.logged, sys.late, sys.history) && Enabled(sys, Append(item))
    ensures Shared(sys.log + [item], sys.base, sys.logged, sys.late, sys.history)
  {
    hide LogOk, SafeFrom, High;
    LogSnoc(sys.log, item);
    SafeStays(sys.log, sys.base, sys.history, High(sys.base, sys.history), item);
  }

  /** Every step keeps the invariant. */
  lemma {:induction false} StepKeeps(sys: System, op: Op)
    requires SystemOk(sys) && Enabled(sys, op)
    ensures SystemOk(Step(sys, op))
  {
    match op {
      case Append(item) =>
        hide LinkOk, Shared, CanAct;
        SharedGrows(sys, item);
        forall r | 0 <= r < |sys.ends|
          ensures LinkOk(LinkOf(Step(sys, op), r))
        {
          AppendKeeps(LinkOf(sys, r), item);
        }
      case LateAck(sid) =>
        hide LinkOk, SafeFrom, High, CanAct;
        forall r | 0 <= r < |sys.ends|
          ensures LinkOk(LinkOf(Step(sys, op), r))
        {
          LateKeeps(LinkOf(sys, r), sid);
        }
      case On(r, act) =>
        hide SystemOk;
        OnKeeps(sys, r, act);
    }
  }

  lemma {:induction false} StartOk(sys: System)
    requires Start(sys) && LogOk(sys.log)
    ensures SystemOk(sys)
  {
    hide LogOk, Above, InOrder;
    NothingSaved(sys.log, sys.history);
    assert High(sys.base, []) == sys.base;
  }

  lemma {:induction false} RunKeeps(sys: System, ops: seq<Op>)
    requires SystemOk(sys) && Possible(sys, ops)
    ensures SystemOk(Run(sys, ops))
    decreases |ops|
  {
    hide SystemOk, Step, Enabled;
    if ops != [] {
      StepKeeps(sys, ops[0]);
      RunKeeps(Step(sys, ops[0]), ops[1..]);
    }
  }
}
