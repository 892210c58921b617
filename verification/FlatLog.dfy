// The log as those see it that read it through a cursor: a row of records with ascending sids.
module FlatLog {
  import opened Bytes

  /**
   * A record as it is read; `good` says that its data unpacks and has the data key, and `packed` is the size
   * the package writer gives its entry of a chunk.
   */
  datatype Item = Item(sid: nat, timestamp: nat, data: seq<byte>, packed: nat, good: bool)

  /** A cursor is not yet sought, or on a record. */
  datatype Place = Unseek | At(pos: nat)

  predicate Ascending(log: seq<Item>) {
    forall i, j :: 0 <= i < j < |log| ==> log[i].sid < log[j].sid
  }

  function MaxSid(log: seq<Item>): nat {
    if log == [] then 0 else log[|log| - 1].sid
  }

  /** The first record above `sid`. */
  function Above(log: seq<Item>, sid: nat): (i: nat)
    ensures i <= |log|
    ensures forall k :: 0 <= k < i ==> log[k].sid <= sid
    ensures i < |log| ==> sid < log[i].sid
  {
    if log == [] || sid < log[0].sid then 0
    else
      var i := Above(log[1..], sid);
      assert forall k :: 0 < k < i + 1 ==> log[k] == log[1..][k - 1];
      i + 1
  }

  lemma {:induction false} AboveIs(log: seq<Item>, sid: nat, i: nat)
    requires i <= |log| && (i < |log| ==> sid < log[i].sid)
    requires forall k :: 0 <= k < i ==> log[k].sid <= sid
    ensures Above(log, sid) == i
  {
  }

  /** A growing log keeps the first record above a sid where it is. */
  lemma {:induction false} AboveStays(log: seq<Item>, grown: seq<Item>, sid: nat)
    requires log <= grown && Above(log, sid) < |log|
    ensures Above(grown, sid) == Above(log, sid)
  {
    var a := Above(log, sid);
    assert forall k :: 0 <= k <= a ==> grown[k] == log[k];
    AboveIs(grown, sid, a);
  }

  /** Right above a record of the log comes the one after it. */
  lemma {:induction false} AboveNext(log: seq<Item>, i: nat)
    requires Ascending(log) && i < |log|
    ensures Above(log, log[i].sid) == i + 1
  {
    AboveIs(log, log[i].sid, i + 1);
  }
}
