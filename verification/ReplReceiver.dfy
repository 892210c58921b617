// The receiver in place: the reorder buffer of its session, and the loop that saves and answers.
module ReplReceiver {
  import opened Bytes
  import opened FlatLog
  import opened ReplSpec

  class McSyncSession {
    var nextSeq: nat
    var msgs: Waiting

    constructor ()
      ensures nextSeq == 0 && msgs == map[]
    {
      nextSeq, msgs := 0, map[];
    }

    /** Takes a packet; those that are now in turn come out, in order. */
    method Recv(m: Msg) returns (finished: seq<Msg>)
      modifies this
      ensures (finished, nextSeq, msgs) == ReplSpec.Recv(old(nextSeq), old(msgs), m)
    {
      if m.packet.seqNo != nextSeq {
        msgs := msgs[m.packet.seqNo := m];
        return [];
      }
      finished := [m];
      nextSeq := nextSeq + 1;
      while FirstIs(msgs, nextSeq)
        invariant var (rest, n, ms) := Drain(nextSeq, msgs);
                  (finished + rest, n, ms) == ReplSpec.Recv(old(nextSeq), old(msgs), m)
        decreases |msgs|
      {
        Joins(finished, [msgs[nextSeq]], Drain(nextSeq + 1, msgs - {nextSeq}).0);
        finished := finished + [msgs[nextSeq]];
        msgs := msgs - {nextSeq};
        nextSeq := nextSeq + 1;
      }
      assert finished + [] == finished;
    }
  }

  /** A reply to send: the number answered, and the connection. */
  datatype Answer = Answer(conn: nat, seqNo: nat)

  function Answers(ms: seq<Msg>): (r: seq<Answer>)
    ensures |r| == |ms|
  {
    if ms == [] then []
    else Answers(ms[..|ms| - 1]) + [Answer(ms[|ms| - 1].conn, ms[|ms| - 1].packet.seqNo)]
  }

  /** Each answer is put on its connection. */
  function Deliver(conns: seq<Conn>, answers: seq<Answer>): (r: seq<Conn>)
    ensures |r| == |conns|
  {
    if answers == [] then conns
    else
      var before, a := Deliver(conns, answers[..|answers| - 1]), answers[|answers| - 1];
      if a.conn < |conns| then before[a.conn := before[a.conn].(up := before[a.conn].up + [a.seqNo])] else before
  }

  /** The answers given by the loop are the replies of the protocol. */
  lemma {:induction false} AnswersAreReplies(conns: seq<Conn>, ms: seq<Msg>)
    ensures Deliver(conns, Answers(ms)) == Reply(conns, ms)
  {
    if ms != [] {
      AnswersAreReplies(conns, ms[..|ms| - 1]);
      assert Answers(ms)[..|ms| - 1] == Answers(ms[..|ms| - 1]);
    }
  }

  lemma {:induction false} ItemsGrow(ms: seq<Msg>, i: nat)
    requires i < |ms|
    ensures Items(ms[..i + 1]) == Items(ms[..i]) + ms[i].packet.items
    ensures |Items(ms[..i + 1])| <= |Items(ms)|
    decreases |ms|
  {
    assert ms[..i + 1][..i] == ms[..i];
    if i + 1 == |ms| {
      assert ms[..i + 1] == ms;
    } else {
      var front := ms[..|ms| - 1];
      ItemsGrow(front, i);
      assert front[..i + 1] == ms[..i + 1];
    }
  }

  class Receiver {
    const session: McSyncSession
    var saved: seq<Item>
    var logSid: nat
    /** How many more records the store takes before it fails. */
    var room: nat

    constructor (s: McSyncSession, capacity: nat)
      ensures session == s && saved == [] && logSid == 0 && room == capacity
    {
      session, saved, logSid, room := s, [], 0, capacity;
    }

    method SaveBinlog(item: Item) returns (ok: bool)
      modifies this
      ensures ok <==> old(room) > 0
      ensures saved == if ok then old(saved) + [item] else old(saved)
      ensures logSid == if ok then item.sid else old(logSid)
      ensures room == if ok then old(room) - 1 else 0
    {
      if room == 0 {
        return false;
      }
      room := room - 1;
      saved := saved + [item];
      logSid := item.sid;
      ok := true;
    }

    /** Saves the records of a packet, up to the first failure, which comes exactly where the store takes no more. */
    method DealSyncData(m: Msg) returns (ok: bool, ghost done: nat)
      requires logSid == MaxSid(saved)
      modifies this
      ensures done <= |m.packet.items| && saved == old(saved) + m.packet.items[..done]
      ensures ok <==> old(room) >= |m.packet.items|
      ensures done == (if ok then |m.packet.items| else old(room)) && room == old(room) - done
      ensures logSid == MaxSid(saved)
    {
      var items, i := m.packet.items, 0;
      while i < |items|
        invariant i <= |items| && saved == old(saved) + items[..i] && logSid == MaxSid(saved)
        invariant room + i == old(room)
      {
        var saveOk := SaveBinlog(items[i]);
        if !saveOk {
          return false, i;
        }
        i := i + 1;
        assert items[..i] == items[..i - 1] + [items[i - 1]];
      }
      assert items[..i] == items;
      return true, i;
    }

    /**
     * A packet arrives on a connection: all packets that are now in turn are saved and answered in order;
     * if saving fails, those before the failure are still answered, and the session is to be closed.
     */
    method RecvMessage(m: Msg) returns (answers: seq<Answer>, ok: bool, ghost packets: nat, ghost items: nat)
      requires logSid == MaxSid(saved)
      modifies this, session
      ensures var (finished, n, ms) := ReplSpec.Recv(old(session.nextSeq), old(session.msgs), m);
              && session.nextSeq == n && session.msgs == ms
              && (ok ==> saved == old(saved) + Items(finished) && answers == Answers(finished))
              && (!ok ==> packets < |finished| && items < |finished[packets].packet.items|
                          && saved == old(saved) + (Items(finished[..packets]) + finished[packets].packet.items[..items])
                          && answers == Answers(finished[..packets]))
      ensures logSid == MaxSid(saved)
      ensures var finished := ReplSpec.Recv(old(session.nextSeq), old(session.msgs), m).0;
              && (ok <==> old(room) >= |Items(finished)|)
              && (!ok ==> room == 0 && |saved| == |old(saved)| + old(room))
    {
      hide ReplSpec.Recv;
      var finished := session.Recv(m);
      answers, packets, items := [], 0, 0;
      var i := 0;
      while i < |finished|
        invariant i <= |finished|
        invariant saved == old(saved) + Items(finished[..i]) && logSid == MaxSid(saved)
        invariant answers == Answers(finished[..i])
        invariant room + |Items(finished[..i])| == old(room)
        invariant (finished, session.nextSeq, session.msgs) == ReplSpec.Recv(old(session.nextSeq), old(session.msgs), m)
      {
        ghost var done;
        ok, done := DealSyncData(finished[i]);
        Joins(old(saved), Items(finished[..i]), finished[i].packet.items[..done]);
        ItemsGrow(finished, i);
        if !ok {
          packets, items := i, done;
          return;
        }
        answers := answers + [Answer(finished[i].conn, finished[i].packet.seqNo)];
        assert finished[..i + 1][..i] == finished[..i];
        i := i + 1;
      }
      assert finished[..i] == finished;
      ok := true;
    }
  }
}
