// What every step of the replication keeps: where each packet is, and what has been sent and saved.
module ReplInvariant {
  import opened FlatLog
  import opened ReplSpec

  // ------------------------------------------------------------ one session

  /**
   * Where the last packet sent on connection `i` is. A connection that has not joined or waits for
   * something to send has nothing under way; any other has exactly one packet, the one it sent last: on
   * its way, in the reorder buffer, or finished with the reply on its way.
   */
  predicate ConnOk(t: Session, i: nat)
    requires i < |t.conns|
  {
    var c := t.conns[i];
    if !c.joined || c.redo then c.down == [] && c.up == []
    else
      && c.sentSeq < |t.sent| && t.sent[c.sentSeq].conn == i
      && c.lastSid == MaxSid(t.sent[c.sentSeq].packet.items)
      && (if c.sentSeq < t.next then c.down == [] && c.up == [c.sentSeq]
          else c.up == [] && c.down == if c.sentSeq in t.msgs then [] else [t.sent[c.sentSeq].packet])
  }

  /** Packet `k` has not been answered: it is the last one on a connection that does not wait. */
  predicate Unanswered(t: Session, k: nat)
    requires k < |t.sent|
  {
    var i := t.sent[k].conn;
    i < |t.conns| && t.conns[i].joined && !t.conns[i].redo && t.conns[i].sentSeq == k
  }

  predicate SentOk(t: Session, k: nat)
    requires k < |t.sent|
  {
    t.sent[k].packet.seqNo == k && t.sent[k].packet.items != [] && t.sent[k].conn < |t.conns|
  }

  /** Packets, connections and the reorder buffer fit together. */
  ghost predicate Routed(t: Session) {
    && t.sender.seqNo == |t.sent| && t.next <= |t.sent|
    && (forall k :: 0 <= k < |t.sent| ==> SentOk(t, k))
    && (forall i :: 0 <= i < |t.conns| ==> ConnOk(t, i))
    && (forall k :: t.next <= k < |t.sent| ==> Unanswered(t, k))
    && (forall k :: k in t.msgs ==> t.next < k < |t.sent| && t.msgs[k] == t.sent[k])
  }

  /** What has been sent is the log from the first record above the start sid up to the cursor. */
  ghost predicate Shipped(s: Sender, sent: seq<Msg>, log: seq<Item>) {
    && Placed(s, log)
    && if s.place == Unseek then sent == []
       else
         var u := Above(log, s.start);
         u <= s.place.pos && Items(sent) == log[u..Pending(s)]
  }

  // ----------------------------------------------------------------- sending

  /** The packing loop takes records of the log one after the other, without a gap. */
  lemma {:induction false} PackTakes(s: Sender, log: seq<Item>, items: seq<Item>, total: nat, u: nat)
    requires LogOk(log) && s.place.At? && Placed(s, log)
    requires u <= Pending(s) && items == log[u..Pending(s)]
    ensures var (r, taken) := Pack(s, log, items, total);
            && Pending(s) <= Pending(r) && taken == log[u..Pending(r)]
            && r == s.(place := r.place, next := r.next) && s.place.pos <= r.place.pos
    decreases |log| - Pending(s)
  {
    var (s1, found) := SeekToBinlog(s, log);
    if found {
      var item := log[s1.place.pos];
      var s2 := s1.(next := true);
      assert items + [item] == log[u..Pending(s2)];
      if !(s.chunk == 0 || total + item.packed >= s.chunk) {
        PackTakes(s2, log, items + [item], total + item.packed, u);
      }
    }
  }

  /** A call of the sender ships the next records of the log, and nothing only when it has shipped all of it. */
  lemma {:induction false} SendTakes(s: Sender, log: seq<Item>)
    requires LogOk(log) && Placed(s, log)
    ensures var (r, taken) := SyncSend(s, log);
            && r == s.(place := r.place, next := r.next, seqNo := s.seqNo + if taken == [] then 0 else 1)
            && (r.place == Unseek ==> s.place == Unseek && taken == [] && s.start >= MaxSid(log))
            && (r.place.At? ==>
                  var from := if s.place.At? then Pending(s) else Above(log, s.start);
                  && from <= Pending(r) && taken == log[from..Pending(r)]
                  && (s.place.At? ==> s.place.pos <= r.place.pos)
                  && (s.place == Unseek ==> from <= r.place.pos))
            && (taken == [] && r.place.At? ==> Pending(r) == |log|)
  {
    hide LogOk, Pack, Above;
    SeekPlaces(s, log);
    var (s1, found) := SeekToReport(s, log);
    if found {
      PackTakes(s1, log, [], 0, Pending(s1));
      PackSome(s1, log);
    }
  }

  /** A cursor placed for the report has everything above the start sid still to send. */
  lemma {:induction false} SeekPlaces(s: Sender, log: seq<Item>)
    requires LogOk(log) && Placed(s, log)
    ensures var (r, found) := SeekToReport(s, log);
            && r == s.(place := r.place, next := r.next)
            && (s.place.At? ==> r == s && found)
            && (s.place == Unseek && found ==>
                  r.place == At(Above(log, s.start)) && !r.next && Pending(r) == Above(log, s.start))
            && (!found ==> r == s && s.start >= MaxSid(log))
  {
  }

  lemma {:induction false} PackSome(s: Sender, log: seq<Item>)
    requires s.place.At? && Placed(s, log)
    ensures var (r, taken) := Pack(s, log, [], 0);
            taken == [] ==> Pending(r) == |log|
  {
    var (s1, found) := SeekToBinlog(s, log);
    if found {
      var item := log[s1.place.pos];
      PackGrows(s1.(next := true), log, [] + [item], item.packed);
    } else {
      assert Pending(s1) == |log|;
    }
  }

  lemma {:induction false} PackGrows(s: Sender, log: seq<Item>, items: seq<Item>, total: nat)
    requires s.place.At? && Placed(s, log)
    ensures |Pack(s, log, items, total).1| >= |items|
    decreases |log| - Pending(s)
  {
    var (s1, found) := SeekToBinlog(s, log);
    if found {
      var item := log[s1.place.pos];
      PackGrows(s1.(next := true), log, items + [item], total + item.packed);
    }
  }

  /** Nothing is under way on connection `i`, and no unfinished packet went out on it. */
  predicate Free(t: Session, i: nat)
    requires i < |t.conns|
  {
    && t.conns[i].down == [] && t.conns[i].up == []
    && forall k :: t.next <= k < |t.sent| ==> t.sent[k].conn != i
  }

  /** The session apart from connection `i`. */
  ghost predicate RoutedBut(t: Session, i: nat) {
    && i < |t.conns| && Free(t, i)
    && t.sender.seqNo == |t.sent| && t.next <= |t.sent|
    && (forall k :: 0 <= k < |t.sent| ==> SentOk(t, k))
    && (forall j :: 0 <= j < |t.conns| && j != i ==> ConnOk(t, j))
    && (forall k :: t.next <= k < |t.sent| ==> Unanswered(t, k))
    && (forall k :: k in t.msgs ==> t.next < k < |t.sent| && t.msgs[k] == t.sent[k])
  }

  lemma {:induction false} SendRoutes(t: Session, log: seq<Item>, i: nat)
    requires RoutedBut(t, i) && LogOk(log) && Placed(t.sender, log)
    ensures Routed(SendOn(t, log, i))
    ensures |SendOn(t, log, i).conns| == |t.conns|
  {
    var t' := SendOn(t, log, i);
    SendTakes(t.sender, log);
    forall k | 0 <= k < |t'.sent|
      ensures SentOk(t', k)
    {
      assert k < |t.sent| ==> SentOk(t, k);
    }
    forall j | 0 <= j < |t'.conns|
      ensures ConnOk(t', j)
    {
      assert j != i ==> ConnOk(t, j);
    }
    forall k | t'.next <= k < |t'.sent|
      ensures Unanswered(t', k)
    {
      assert k < |t.sent| ==> Unanswered(t, k);
    }
  }

  lemma {:induction false} SliceJoin<T>(s: seq<T>, a: nat, b: nat, c: nat)
    requires a <= b <= c <= |s|
    ensures s[a..b] + s[b..c] == s[a..c]
  {
  }

  lemma {:induction false} SendShips(t: Session, log: seq<Item>, i: nat)
    requires Shipped(t.sender, t.sent, log) && LogOk(log) && i < |t.conns|
    ensures var r := SendOn(t, log, i); Shipped(r.sender, r.sent, log)
  {
    hide LogOk, SyncSend;
    var t' := SendOn(t, log, i);
    var (s, items) := SyncSend(t.sender, log);
    SendTakes(t.sender, log);
    if s.place.At? {
      var u := Above(log, t.sender.start);
      var from := if t.sender.place.At? then Pending(t.sender) else u;
      assert Items(t.sent) == log[u..from];
      SliceJoin(log, u, from, Pending(s));
      if items == [] {
        assert log[u..from] + [] == log[u..from];
      } else {
        ItemsSnoc(t.sent, Msg(Packet(t.sender.seqNo, items), i));
      }
    }
  }

  lemma {:induction false} ItemsSnoc(ms: seq<Msg>, m: Msg)
    ensures Items(ms + [m]) == Items(ms) + m.packet.items
  {
    assert (ms + [m])[..|ms|] == ms;
  }

  /** A connection that waits, has not joined, or has had its reply, is free to send on. */
  lemma {:induction false} WaitingIsFree(t: Session, i: nat)
    requires Routed(t) && i < |t.conns| && (!t.conns[i].joined || t.conns[i].redo)
    ensures RoutedBut(t, i)
  {
    assert ConnOk(t, i);
    forall k | t.next <= k < |t.sent|
      ensures t.sent[k].conn != i
    {
      assert Unanswered(t, k);
    }
  }

  lemma {:induction false} AnsweredIsFree(t: Session, i: nat)
    requires Routed(t) && i < |t.conns| && t.conns[i].up != []
    ensures t.conns[i].up == [t.conns[i].sentSeq] && t.conns[i].sentSeq < t.next
    ensures RoutedBut(t.(conns := t.conns[i := t.conns[i].(up := [])]), i)
  {
    assert ConnOk(t, i);
    var t' := t.(conns := t.conns[i := t.conns[i].(up := [])]);
    forall k | t.next <= k < |t.sent|
      ensures t.sent[k].conn != i && Unanswered(t', k)
    {
      assert Unanswered(t, k);
    }
    forall k | 0 <= k < |t.sent|
      ensures SentOk(t', k)
    {
      assert SentOk(t, k);
    }
    forall j | 0 <= j < |t.conns| && j != i
      ensures ConnOk(t', j)
    {
      assert ConnOk(t, j);
    }
  }

  // --------------------------------------------------------------- receiving

  /** `msgs` holds packets of `sent` from number `from` on, each under its own number. */
  ghost predicate Holds(msgs: Waiting, sent: seq<Msg>, from: nat) {
    forall k :: k in msgs ==> from <= k < |sent| && msgs[k] == sent[k]
  }

  /** What is left after a drain to `n`, given what is left of the buffer without its first entry. */
  lemma {:induction false} DrainMembers(next: nat, n: nat, msgs: Waiting, ms: Waiting)
    requires next in msgs && next < n
    requires forall k :: next + 1 <= k ==> (k in msgs - {next} <==> k < n || k in ms)
    ensures forall k :: next <= k ==> (k in msgs <==> k < n || k in ms)
  {
    forall k | next <= k
      ensures k in msgs <==> k < n || k in ms
    {
      assert k in msgs - {next} <==> k in msgs && k != next;
    }
  }

  /** The buffer gives the packets in the order they were sent, up to the first one that is missing. */
  lemma {:induction false} DrainGives(sent: seq<Msg>, next: nat, msgs: Waiting)
    requires Holds(msgs, sent, next) && next <= |sent|
    ensures var (done, n, ms) := Drain(next, msgs);
            && next <= n <= |sent| && done == sent[next..n]
            && Holds(ms, sent, n + 1)
            && (forall k :: next <= k ==> (k in msgs <==> k < n || k in ms))
    decreases |msgs|
  {
    if FirstIs(msgs, next) {
      DrainGives(sent, next + 1, msgs - {next});
      var (done, n, ms) := Drain(next + 1, msgs - {next});
      SliceJoin(sent, next, next + 1, n);
      DrainMembers(next, n, msgs, ms);
    } else {
      assert Drain(next, msgs) == ([], next, msgs) && next !in msgs;
    }
  }

  /** What a packet on its way sets free when it arrives: a run of packets in the order they were sent. */
  lemma {:induction false} RecvGives(t: Session, i: nat)
    requires Routed(t) && i < |t.conns| && t.conns[i].down != []
    ensures var k := t.conns[i].sentSeq;
            var (done, n, ms) := Recv(t.next, t.msgs, Msg(t.conns[i].down[0], i));
            && t.conns[i].joined && !t.conns[i].redo
            && t.next <= k < |t.sent| && t.conns[i].down == [t.sent[k].packet]
            && t.next <= n <= |t.sent| && done == t.sent[t.next..n]
            && Holds(ms, t.sent, n + 1)
            && (forall j :: t.next <= j ==> (j in t.msgs || j == k <==> j < n || j in ms))
  {
    assert ConnOk(t, i);
    var k := t.conns[i].sentSeq;
    assert SentOk(t, k);
    assert t.sent[k] == Msg(t.conns[i].down[0], i);
    if k == t.next {
      DrainGives(t.sent, k + 1, t.msgs);
      var (done, n, ms) := Drain(k + 1, t.msgs);
      assert [t.sent[k]] + t.sent[k + 1..n] == t.sent[k..n];
    }
  }

  /** Connections that differ from those of the session only in what is on its way. */
  predicate SameNotes(conns: seq<Conn>, t: Session) {
    |conns| == |t.conns| && forall j :: 0 <= j < |conns| ==>
      conns[j].joined == t.conns[j].joined && conns[j].redo == t.conns[j].redo && conns[j].sentSeq == t.conns[j].sentSeq
      && conns[j].lastSid == t.conns[j].lastSid
  }

  predicate Awaits(c: Conn, from: nat, to: nat) {
    c.joined && !c.redo && from <= c.sentSeq < to
  }

  lemma {:induction false} SliceSnoc<T>(s: seq<T>, a: nat, b: nat)
    requires a < b <= |s|
    ensures s[a..b][..b - a - 1] == s[a..b - 1] && s[a..b][b - a - 1] == s[b - 1]
    ensures s[a..b] == s[a..b - 1] + [s[b - 1]]
  {
  }

  /** The connection of a packet just finished is the only one that awaited it. */
  lemma {:induction false} AwaitedOnce(t: Session, n: nat, j: nat)
    requires Routed(t) && t.next <= n < |t.sent| && j < |t.conns|
    ensures t.sent[n].conn < |t.conns| && t.sent[n].packet.seqNo == n
    ensures Awaits(t.conns[j], t.next, n + 1) <==> Awaits(t.conns[j], t.next, n) || t.sent[n].conn == j
    ensures t.sent[n].conn == j ==> t.conns[j].sentSeq == n
  {
    assert Unanswered(t, n) && SentOk(t, n) && ConnOk(t, j);
  }

  /** Each finished packet is answered on its own connection, once. */
  lemma {:induction false} ReplyReaches(t: Session, conns: seq<Conn>, n: nat)
    requires Routed(t) && SameNotes(conns, t) && t.next <= n <= |t.sent|
    ensures var r := Reply(conns, t.sent[t.next..n]);
            forall j :: 0 <= j < |conns| ==>
              r[j] == conns[j].(up := conns[j].up + if Awaits(conns[j], t.next, n) then [conns[j].sentSeq] else [])
    decreases n
  {
    hide Routed, Awaits, SameNotes;
    if n == t.next {
      assert t.sent[t.next..n] == [];
      forall j | 0 <= j < |conns|
        ensures !Awaits(conns[j], t.next, n)
      {
        NoneAwaits(conns[j], n);
      }
    } else {
      SliceSnoc(t.sent, t.next, n);
      ReplyReaches(t, conns, n - 1);
      forall j | 0 <= j < |conns|
        ensures t.sent[n - 1].conn < |conns| && t.sent[n - 1].packet.seqNo == n - 1
        ensures Awaits(conns[j], t.next, n) <==> Awaits(conns[j], t.next, n - 1) || t.sent[n - 1].conn == j
        ensures t.sent[n - 1].conn == j ==> conns[j].sentSeq == n - 1 && !Awaits(conns[j], t.next, n - 1)
      {
        AwaitedHere(t, conns, n - 1, j);
      }
    }
  }

  lemma {:induction false} NoneAwaits(c: Conn, n: nat)
    ensures !Awaits(c, n, n)
  {
  }

  lemma {:induction false} AwaitedHere(t: Session, conns: seq<Conn>, n: nat, j: nat)
    requires Routed(t) && SameNotes(conns, t) && t.next <= n < |t.sent| && j < |conns|
    ensures t.sent[n].conn < |conns| && t.sent[n].packet.seqNo == n
    ensures Awaits(conns[j], t.next, n + 1) <==> Awaits(conns[j], t.next, n) || t.sent[n].conn == j
    ensures t.sent[n].conn == j ==> conns[j].sentSeq == n && !Awaits(conns[j], t.next, n)
  {
    hide Routed;
    AwaitedOnce(t, n, j);
  }

  /** A connection after the packets below `n` have been finished. */
  lemma {:induction false} ConnAfterReceive(t: Session, t': Session, i: nat, j: nat, n: nat, ms: Waiting)
    requires i < |t.conns| && j < |t.conns| && ConnOk(t, j) && ConnOk(t, i)
    requires t.conns[i].down != [] && t.conns[i].joined && !t.conns[i].redo && t.next <= t.conns[i].sentSeq < |t.sent|
    requires t.next <= n <= |t.sent|
    requires var k := t.conns[j].sentSeq; t.next <= k ==> (k in t.msgs || k == t.conns[i].sentSeq <==> k < n || k in ms)
    requires var c := t.conns[j].(down := if i == j then [] else t.conns[j].down);
             && |t'.conns| == |t.conns| && t'.sent == t.sent && t'.next == n && t'.msgs == ms
             && t'.conns[j] == c.(up := c.up + if Awaits(c, t.next, n) then [c.sentSeq] else [])
    ensures ConnOk(t', j)
  {
  }

  lemma {:induction false} ReceiveRoutes(t: Session, i: nat, n: nat, ms: Waiting)
    requires Routed(t) && i < |t.conns| && t.conns[i].down != []
    requires t.conns[i].joined && !t.conns[i].redo && t.next <= t.conns[i].sentSeq < |t.sent|
    requires t.next <= n <= |t.sent| && Holds(ms, t.sent, n + 1)
    requires forall j :: t.next <= j ==> (j in t.msgs || j == t.conns[i].sentSeq <==> j < n || j in ms)
    ensures var conns := Reply(t.conns[i := t.conns[i].(down := [])], t.sent[t.next..n]);
            Routed(t.(conns := conns, next := n, msgs := ms))
  {
    hide ConnOk;
    var conns := t.conns[i := t.conns[i].(down := [])];
    ReplyReaches(t, conns, n);
    var t' := t.(conns := Reply(conns, t.sent[t.next..n]), next := n, msgs := ms);
    forall j | 0 <= j < |t'.conns|
      ensures ConnOk(t', j)
    {
      assert ConnOk(t, j) && ConnOk(t, i);
      var k := t.conns[j].sentSeq;
      assert t.next <= k ==> (k in t.msgs || k == t.conns[i].sentSeq <==> k < n || k in ms);
      ConnAfterReceive(t, t', i, j, n, ms);
    }
    forall k | 0 <= k < |t'.sent|
      ensures SentOk(t', k)
    {
      assert SentOk(t, k);
    }
    forall k | n <= k < |t'.sent|
      ensures Unanswered(t', k)
    {
      assert Unanswered(t, k) && SentOk(t, k);
    }
  }
}
