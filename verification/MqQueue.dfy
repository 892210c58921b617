// A message queue over the log: messages are handed out, wait for the result of sending, and are handed
// out again if that failed.
module MqQueue {
  import opened Bytes
  import opened FlatLog
  import opened Wrappers

  /** The sids of the good records, in order. */
  function Sids(log: seq<Item>): seq<nat> {
    if log == [] then []
    else Sids(log[..|log| - 1]) + if log[|log| - 1].good then [log[|log| - 1].sid] else []
  }

  lemma {:induction false} SidsSnoc(log: seq<Item>, from: nat, to: nat)
    requires from <= to < |log|
    ensures Sids(log[from..to + 1]) == Sids(log[from..to]) + if log[to].good then [log[to].sid] else []
  {
    assert log[from..to + 1][..to - from] == log[from..to];
  }

  predicate Rising(sids: seq<nat>) {
    forall i, j :: 0 <= i < j < |sids| ==> sids[i] < sids[j]
  }

  predicate Between(sids: seq<nat>, low: nat, high: nat) {
    forall i :: 0 <= i < |sids| ==> low < sids[i] < high
  }

  lemma {:induction false} RisingSnoc(sids: seq<nat>, low: nat, sid: nat, high: nat)
    requires Rising(sids) && Between(sids, low, sid) && low < sid < high
    ensures Rising(sids + [sid]) && Between(sids + [sid], low, high)
  {
  }

  lemma {:induction false} Wider(sids: seq<nat>, low: nat, sid: nat, high: nat)
    requires Between(sids, low, sid) && sid <= high
    ensures Between(sids, low, high)
  {
  }

  /** Good records keep the order of the log, and lie between the records around them. */
  lemma {:induction false} SidsInOrder(log: seq<Item>, from: nat, to: nat, high: nat)
    requires Ascending(log) && 0 < from <= to <= |log|
    requires log[to - 1].sid < high
    ensures Rising(Sids(log[from..to])) && Between(Sids(log[from..to]), log[from - 1].sid, high)
  {
    if from == to {
      assert log[from..to] == [];
    } else {
      SidsInOrder(log, from, to - 1, log[to - 1].sid);
      SidsSnoc(log, from, to - 1);
      var front := Sids(log[from..to - 1]);
      hide Rising, Between, Sids;
      if log[to - 1].good {
        RisingSnoc(front, log[from - 1].sid, log[to - 1].sid, high);
      } else {
        Wider(front, log[from - 1].sid, log[to - 1].sid, high);
        assert front + [] == front;
      }
    }
  }

  /** The sids handed out so far: the good records after the one the cursor was first placed on, up to the cursor. */
  predicate Given(log: seq<Item>, start: nat, place: Place, first: seq<nat>) {
    match place
    case Unseek => first == []
    case At(pos) =>
      var u := Above(log, start);
      u <= pos < |log| && first == Sids(log[u + 1..pos + 1])
  }

  lemma {:induction false} GivenStays(log: seq<Item>, grown: seq<Item>, start: nat, place: Place, first: seq<nat>)
    requires log <= grown && Ascending(grown) && Given(log, start, place, first)
    ensures Given(grown, start, place, first)
  {
    if place.At? {
      AboveStays(log, grown, start);
      var u := Above(log, start);
      SliceOfPrefix(log, grown, u + 1, place.pos + 1);
    }
  }

  lemma {:induction false} GivenAtFirst(log: seq<Item>, start: nat)
    requires Above(log, start) < |log|
    ensures Given(log, start, At(Above(log, start)), [])
  {
    var u := Above(log, start);
    assert log[u + 1..u + 1] == [];
  }

  /** One step of the cursor: a good record is handed out, above all before it. */
  lemma {:induction false} GivenMoves(log: seq<Item>, start: nat, pos: nat, first: seq<nat>)
    requires Ascending(log) && Given(log, start, At(pos), first) && pos + 1 < |log|
    ensures Given(log, start, At(pos + 1), if log[pos + 1].good then first + [log[pos + 1].sid] else first)
    ensures Rising(first) && Between(first, log[Above(log, start)].sid, log[pos + 1].sid)
  {
    hide Sids, Above, Rising, Between;
    var u := Above(log, start);
    SidsSnoc(log, u + 1, pos + 1);
    SidsInOrder(log, u + 1, pos + 1, log[pos + 1].sid);
    assert first + [] == first;
  }

  lemma {:induction false} MovesOn(log: seq<Item>, start: nat, pos: nat, first: seq<nat>)
    requires Ascending(log) && Given(log, start, At(pos), first) && pos + 1 < |log|
    ensures Given(log, start, At(pos + 1), if log[pos + 1].good then first + [log[pos + 1].sid] else first)
    ensures Rising(first + [log[pos + 1].sid])
  {
    hide Rising, Between, Sids, Above;
    GivenMoves(log, start, pos, first);
    OneMore(first, log[Above(log, start)].sid, log[pos + 1].sid);
  }

  lemma {:induction false} OneMore(sids: seq<nat>, low: nat, sid: nat)
    requires Rising(sids) && Between(sids, low, sid)
    ensures sid !in sids
    ensures Rising(sids + [sid])
  {
  }

  /** A rising row has no sid twice. */
  lemma {:induction false} NewSid(sids: seq<nat>, sid: nat)
    requires Rising(sids + [sid])
    ensures sid !in sids
  {
    forall i | 0 <= i < |sids|
      ensures sids[i] != sid
    {
      assert (sids + [sid])[i] < (sids + [sid])[|sids|];
    }
  }

  lemma {:induction false} GivenInLog(log: seq<Item>, start: nat, place: Place, first: seq<nat>)
    requires Given(log, start, place, first)
    ensures place.At? ==> place.pos < |log|
  {
  }

  /** Each sid handed out is in flight, waits to be handed out again, or is acknowledged, and only one of these. */
  ghost predicate Partition(first: seq<nat>, retry: set<nat>, inFlight: set<nat>, acked: set<nat>) {
    && retry !! inFlight && retry !! acked && inFlight !! acked
    && forall s :: s in first <==> s in retry || s in inFlight || s in acked
  }

  lemma {:induction false} PartitionRetry(first: seq<nat>, retry: set<nat>, inFlight: set<nat>, acked: set<nat>, k: nat)
    requires Partition(first, retry, inFlight, acked) && k in retry
    ensures Partition(first, retry - {k}, inFlight + {k}, acked)
  {
  }

  lemma {:induction false} PartitionNew(first: seq<nat>, retry: set<nat>, inFlight: set<nat>, acked: set<nat>, k: nat)
    requires Partition(first, retry, inFlight, acked) && k !in first
    ensures Partition(first + [k], retry, inFlight + {k}, acked)
  {
  }

  class Queue {
    const start: nat
    var place: Place
    var retry: map<nat, Item>
    var inFlight: map<nat, Item>
    /** Every sid in the order in which it was first handed out, and those sent successfully. */
    ghost var first: seq<nat>
    ghost var acked: set<nat>

    ghost predicate Valid(log: seq<Item>)
      reads this
    {
      && Ascending(log) && Given(log, start, place, first)
      && Partition(first, retry.Keys, inFlight.Keys, acked)
      && (forall s :: s in retry ==> retry[s].sid == s)
      && (forall s :: s in inFlight ==> inFlight[s].sid == s)
    }

    constructor (sid: nat)
      ensures start == sid && forall log :: Ascending(log) ==> Valid(log)
      ensures retry == map[] && inFlight == map[]
    {
      start, place, retry, inFlight, first, acked := sid, Unseek, map[], map[], [], {};
    }

    /** The first record that can still be handed out for the first time: after the cursor, or after where it is to be placed. */
    function FirstNew(log: seq<Item>): nat
      reads this`place
    {
      if place.At? then place.pos + 1 else Above(log, start) + 1
    }

    /** The log may have grown since the last call. */
    lemma {:induction false} StaysValid(log: seq<Item>, grown: seq<Item>)
      requires Valid(log) && log <= grown && Ascending(grown)
      ensures Valid(grown)
    {
      GivenStays(log, grown, start, place, first);
    }

    /**
     * The next message: of those that failed the one with the least sid, else the next good record of the
     * log, whose sid is above all that were ever handed out. It is then in flight.
     */
    method GetNextBinlog(log: seq<Item>) returns (msg: Option<Item>)
      requires Valid(log)
      modifies this
      ensures Valid(log) && acked == old(acked)
      ensures msg == None ==> retry == old(retry) == map[] && inFlight == old(inFlight) && first == old(first)
      ensures msg.Some? ==> inFlight == old(inFlight)[msg.value.sid := msg.value]
      ensures old(retry) != map[] ==>
                && msg.Some? && msg.value.sid in old(retry) && msg.value == old(retry)[msg.value.sid]
                && (forall s :: s in old(retry) ==> msg.value.sid <= s)
                && retry == old(retry) - {msg.value.sid} && first == old(first)
      ensures old(retry) == map[] && msg.Some? ==>
                && retry == map[] && msg.value in log && msg.value.good
                && first == old(first) + [msg.value.sid]
                && Rising(first)
      ensures old(retry) == map[] && msg.Some? ==>
                var from := old(FirstNew(log));
                && place.At? && from <= place.pos < |log| && msg.value == log[place.pos]
                && forall k :: from <= k < place.pos ==> !log[k].good
      ensures msg == None ==> forall k :: old(FirstNew(log)) <= k < |log| ==> !log[k].good
      ensures old(retry) == map[] && Above(log, start) < |log| ==> place.At?
      ensures old(retry) != map[] ==> place == old(place)
    {
      hide Given, Ascending, Partition, Rising, Between, Sids, Above;
      if retry != map[] {
        var _ := Least(retry.Keys);
        var k :| k in retry && forall s :: s in retry ==> k <= s;
        msg := Some(retry[k]);
        PartitionRetry(first, retry.Keys, inFlight.Keys, acked, k);
        retry := retry - {k};
      } else {
        msg := FetchNextBinlog(log);
        if msg.Some? {
          NewSid(old(first), msg.value.sid);
          PartitionNew(old(first), retry.Keys, inFlight.Keys, acked, msg.value.sid);
        }
      }
      if msg.Some? {
        var sid := msg.value.sid;
        inFlight := inFlight[sid := msg.value];
        assert inFlight.Keys == old(inFlight).Keys + {sid} && (old(retry) != map[] ==> retry.Keys == old(retry).Keys - {sid});
      }
    }

    /** Moves the cursor on to the next good record, if there is one; a first call also places it. */
    method FetchNextBinlog(log: seq<Item>) returns (msg: Option<Item>)
      requires Ascending(log) && Given(log, start, place, first)
      modifies this`place, this`first
      ensures Given(log, start, place, first)
      ensures msg == None ==> first == old(first)
      ensures msg.Some? ==> msg.value in log && msg.value.good && first == old(first) + [msg.value.sid] && Rising(first)
      ensures msg == None && place.At? ==> place.pos == |log| - 1
      ensures old(place).At? || Above(log, start) < |log| <==> place.At?
      ensures msg.Some? ==>
                var from := old(FirstNew(log));
                && place.At? && from <= place.pos < |log| && msg.value == log[place.pos]
                && forall k :: from <= k < place.pos ==> !log[k].good
      ensures msg == None ==> forall k :: old(FirstNew(log)) <= k < |log| ==> !log[k].good
    {
      msg := None;
      if place == Unseek {
        var u := Above(log, start);
        if u == |log| {
          return;
        }
        place := At(u);
        GivenAtFirst(log, start);
      }
      hide Given, Ascending, Rising, Between, Sids, Above;
      GivenInLog(log, start, place, first);
      msg := NextGood(log);
    }

    method NextGood(log: seq<Item>) returns (msg: Option<Item>)
      requires Ascending(log) && Given(log, start, place, first) && place.At? && place.pos < |log|
      modifies this`place, this`first
      ensures Given(log, start, place, first) && place.At?
      ensures msg == None ==> first == old(first) && place.pos == |log| - 1
      ensures forall k :: old(place.pos) < k < (if msg == None then |log| else place.pos) ==> !log[k].good
      ensures msg.Some? ==> old(place.pos) < place.pos < |log| && msg.value == log[place.pos]
      ensures msg.Some? ==> msg.value in log && msg.value.good && first == old(first) + [msg.value.sid] && Rising(first)
    {
      hide Given, Ascending, Rising, Between, Sids, Above;
      while place.pos + 1 < |log|
        invariant place.At? && old(place.pos) <= place.pos < |log| && Given(log, start, place, first) && first == old(first)
        invariant forall k :: old(place.pos) < k <= place.pos ==> !log[k].good
        decreases |log| - place.pos
      {
        MovesOn(log, start, place.pos, first);
        place := At(place.pos + 1);
        if log[place.pos].good {
          first := first + [log[place.pos].sid];
          return Some(log[place.pos]);
        }
      }
      msg := None;
    }

    /** The result of sending: a message that failed is handed out again. */
    method EndSendMsg(sid: nat, sent: bool, ghost log: seq<Item>)
      requires Valid(log) && sid in inFlight
      modifies this`retry, this`inFlight, this`acked
      ensures Valid(log) && inFlight == old(inFlight) - {sid}
      ensures sent ==> acked == old(acked) + {sid} && retry == old(retry)
      ensures !sent ==> acked == old(acked) && retry == old(retry)[sid := old(inFlight)[sid]]
    {
      if sent {
        acked := acked + {sid};
      } else {
        retry := retry[sid := inFlight[sid]];
      }
      inFlight := inFlight - {sid};
    }
  }

  lemma {:induction false} Least(s: set<nat>) returns (k: nat)
    requires s != {}
    ensures k in s && forall x :: x in s ==> k <= x
  {
    var y :| y in s;
    var rest := s - {y};
    k := y;
    if rest != {} {
      var other := Least(rest);
      k := if other <= y then other else y;
    }
    forall x | x in s
      ensures k <= x
    {
      assert x == y || x in rest;
    }
  }

  /**
   * Because next follows straight after the seek, the first record above the start sid is never handed
   * out: whatever is handed out is a later one.
   */
  lemma {:induction false} FirstRecordIsPassedOver(log: seq<Item>, start: nat, place: Place, first: seq<nat>)
    requires Ascending(log) && Given(log, start, place, first) && Above(log, start) < |log|
    ensures log[Above(log, start)].sid !in first
    ensures forall i, j :: 0 <= i < j < |first| ==> first[i] < first[j]
  {
    if place.At? {
      var u := Above(log, start);
      SidsInOrder(log, u + 1, place.pos + 1, log[place.pos].sid + 1);
    }
  }
}
