// The collector's queue: items of several hosts in one order, bounded in size, the oldest discarded first.
module McQueue {
  import opened Bytes

  const ALIGN_SIZE: nat := 32
  const ITEM_HEADER: nat := 24

  datatype Item = Item(timestamp: nat, host: nat, sid: nat, size: nat)

  /** The memory an item with so many bytes of data takes, in whole units. */
  function ItemSize(dataLen: nat): (n: nat)
    ensures n % ALIGN_SIZE == 0 && ITEM_HEADER + dataLen <= n < ITEM_HEADER + dataLen + ALIGN_SIZE
  {
    (ITEM_HEADER + dataLen + ALIGN_SIZE - 1) / ALIGN_SIZE * ALIGN_SIZE
  }

  /** The order of the queue: by timestamp, then host, then sid. */
  predicate Before(a: Item, b: Item) {
    a.timestamp < b.timestamp ||
    (a.timestamp == b.timestamp && (a.host < b.host || (a.host == b.host && a.sid < b.sid)))
  }

  predicate SameKey(a: Item, b: Item) {
    a.timestamp == b.timestamp && a.host == b.host && a.sid == b.sid
  }

  predicate Sorted(items: seq<Item>) {
    forall i, j :: 0 <= i < j < |items| ==> Before(items[i], items[j])
  }

  predicate Has(items: seq<Item>, x: Item) {
    exists i :: 0 <= i < |items| && SameKey(items[i], x)
  }

  /** How many items come before `x`. */
  function Place(items: seq<Item>, x: Item): (n: nat)
    ensures n <= |items|
    ensures forall i :: 0 <= i < n ==> Before(items[i], x)
    ensures n < |items| ==> !Before(items[n], x)
  {
    if items == [] || !Before(items[0], x) then 0
    else
      var n := Place(items[1..], x);
      assert forall i :: 0 < i < n + 1 ==> items[i] == items[1..][i - 1];
      n + 1
  }

  /** Inserting into the ordered set does nothing when an item with the same key is there. */
  function Insert(items: seq<Item>, x: Item): seq<Item> {
    var n := Place(items, x);
    if n < |items| && SameKey(items[n], x) then items else items[..n] + [x] + items[n..]
  }

  function Sum(items: seq<Item>): nat {
    if items == [] then 0 else items[0].size + Sum(items[1..])
  }

  lemma {:induction false} SumJoin(a: seq<Item>, b: seq<Item>)
    ensures Sum(a + b) == Sum(a) + Sum(b)
  {
    if a == [] {
      assert a + b == b;
    } else {
      assert (a + b)[1..] == a[1..] + b;
      SumJoin(a[1..], b);
    }
  }

  lemma {:induction false} InsertSorted(items: seq<Item>, x: Item)
    requires Sorted(items)
    ensures Sorted(Insert(items, x))
  {
    var n := Place(items, x);
    if !(n < |items| && SameKey(items[n], x)) {
      var more := items[..n] + [x] + items[n..];
      forall i, j | 0 <= i < j < |more|
        ensures Before(more[i], more[j])
      {
        assert j > n ==> more[j] == items[j - 1];
        assert i > n ==> more[i] == items[i - 1];
        assert n < |items| ==> !Before(items[n], x) && !SameKey(items[n], x);
        assert i <= n < j - 1 ==> Before(items[n], items[j - 1]);
      }
    }
  }

  lemma {:induction false} InOrder(items: seq<Item>, i: nat, j: nat)
    requires Sorted(items) && j < |items|
    ensures i < j ==> Before(items[i], items[j])
  {
  }

  /** The set has an item with this key only where the new one would go. */
  lemma {:induction false} OnlyThere(items: seq<Item>, x: Item)
    requires Sorted(items)
    ensures var n := Place(items, x); Has(items, x) <==> n < |items| && SameKey(items[n], x)
  {
    var n := Place(items, x);
    if Has(items, x) {
      var i :| 0 <= i < |items| && SameKey(items[i], x);
      InOrder(items, n, i);
    }
  }

  lemma {:induction false} MiddleAdds(a: seq<Item>, x: Item, b: seq<Item>)
    ensures Sum(a + [x] + b) == Sum(a + b) + x.size
    ensures multiset(a + [x] + b) == multiset(a + b) + multiset{x}
  {
    SumJoin(a, b);
    SumJoin(a + [x], b);
    SumJoin(a, [x]);
  }

  lemma {:induction false} SplitAdds(items: seq<Item>, n: nat, x: Item)
    requires n <= |items|
    ensures Sum(items[..n] + [x] + items[n..]) == Sum(items) + x.size
    ensures multiset(items[..n] + [x] + items[n..]) == multiset(items) + multiset{x}
  {
    hide Sum;
    MiddleAdds(items[..n], x, items[n..]);
    assert items == items[..n] + items[n..];
  }

  /** A new key adds its item and nothing else; a known one changes nothing. */
  lemma {:induction false} InsertAdds(items: seq<Item>, x: Item)
    requires Sorted(items)
    ensures Has(items, x) ==> Insert(items, x) == items
    ensures !Has(items, x) ==> Sum(Insert(items, x)) == Sum(items) + x.size
                               && multiset(Insert(items, x)) == multiset(items) + multiset{x}
  {
    OnlyThere(items, x);
    hide Sorted, Before, Has, Sum;
    SplitAdds(items, Place(items, x), x);
  }

  /** How many of the oldest items must go until the size tracked for them is within `limit`; none if all are gone. */
  function Excess(items: seq<Item>, size: int, limit: nat): (n: nat)
    ensures n <= |items|
  {
    if size <= limit || items == [] then 0 else 1 + Excess(items[1..], size - items[0].size, limit)
  }

  lemma {:induction false} Balance(popped: multiset<Item>, discarded: multiset<Item>, x: Item, rest: multiset<Item>)
    ensures popped + discarded + (multiset{x} + rest) == (popped + multiset{x}) + discarded + rest
    ensures discarded + popped + (multiset{x} + rest) == discarded + (popped + multiset{x}) + rest
    ensures multiset([x]) == multiset{x}
  {
  }

  lemma {:induction false} BalanceIn(pushed: multiset<Item>, out: multiset<Item>, kept: multiset<Item>, x: Item)
    requires pushed == out + kept
    ensures pushed + multiset{x} == out + (kept + multiset{x}) && pushed + multiset{} == pushed
  {
  }

  lemma {:induction false} FirstGone(items: seq<Item>)
    requires Sorted(items) && items != []
    ensures items == [items[0]] + items[1..] && Sorted(items[1..])
    ensures Sum(items) == items[0].size + Sum(items[1..])
    ensures multiset(items) == multiset{items[0]} + multiset(items[1..])
  {
    assert items == [items[0]] + items[1..];
  }

  lemma {:induction false} DropOne(all: seq<Item>, n: nat)
    requires n <= |all|
    ensures all[n..] != [] ==> all[n..][1..] == all[n + 1..] && all[n..][0] == all[n]
  {
  }

  lemma {:induction false} OneExcess(items: seq<Item>, size: nat, limit: nat)
    ensures size <= limit ==> Excess(items, size, limit) == 0
    ensures size > limit && items != [] ==>
              Excess(items, size, limit) == 1 + Excess(items[1..], size - items[0].size, limit)
  {
  }

  /** With fewer than `n` items gone the rest is still above the limit. */
  predicate StillOver(items: seq<Item>, n: nat, limit: nat)
    requires n <= |items|
  {
    forall k :: 0 <= k < n ==> Sum(items[k..]) > limit
  }

  lemma {:induction false} StillOverShifts(items: seq<Item>, n: nat, limit: nat)
    requires 0 < n <= |items| && Sum(items) > limit && StillOver(items[1..], n - 1, limit)
    ensures StillOver(items, n, limit)
  {
    hide Sum;
    assert items[0..] == items;
    forall k | 0 <= k < n
      ensures Sum(items[k..]) > limit
    {
      if k > 0 {
        SuffixShifts(items, k);
        assert Sum(items[1..][k - 1..]) > limit;
      }
    }
  }

  /** What stays is the longest end of the queue that fits the limit. */
  lemma {:induction false} ExcessIsLeast(items: seq<Item>, limit: nat)
    ensures var n := Excess(items, Sum(items), limit);
            Sum(items[n..]) <= limit && StillOver(items, n, limit)
    decreases |items|
  {
    hide Sum, StillOver, Excess;
    SumFirst(items);
    OneExcess(items, Sum(items), limit);
    if Sum(items) > limit {
      ExcessIsLeast(items[1..], limit);
      var n := Excess(items, Sum(items), limit);
      SuffixShifts(items, n);
      StillOverShifts(items, n, limit);
    } else {
      assert items[0..] == items;
      NoneOver(items, limit);
    }
  }

  lemma {:induction false} NoneOver(items: seq<Item>, limit: nat)
    ensures StillOver(items, 0, limit)
  {
  }

  lemma {:induction false} SumFirst(items: seq<Item>)
    ensures items != [] ==> Sum(items) == items[0].size + Sum(items[1..])
    ensures Sum(items) > 0 ==> items != []
  {
  }

  lemma {:induction false} SuffixShifts(items: seq<Item>, k: nat)
    requires 0 < k <= |items|
    ensures items[1..][k - 1..] == items[k..]
  {
  }

  lemma {:induction false} ExcessShifts(items: seq<Item>, size: nat, limit: nat, drift: nat)
    requires size == Sum(items)
    ensures Excess(items, size + drift, limit + drift) == Excess(items, size, limit)
  {
    if size > limit && items != [] {
      ExcessShifts(items[1..], size - items[0].size, limit, drift);
    }
  }

  /**
   * Discarding brings the size tracked within the limit exactly when the drift alone is within it: a size
   * that counts items which are not there cannot be brought below that by discarding those that are.
   */
  lemma {:induction false} DriftDecides(items: seq<Item>, limit: nat, drift: nat)
    ensures var n := Excess(items, Sum(items) + drift, limit);
            && (Sum(items[n..]) + drift <= limit <==> drift <= limit)
            && (drift > limit ==> n == |items|)
    decreases |items|
  {
    if Sum(items) + drift > limit && items != [] {
      SumFirst(items);
      hide Sum;
      DriftDecides(items[1..], limit, drift);
      SuffixShifts(items, Excess(items, Sum(items) + drift, limit));
    } else {
      assert items[0..] == items;
    }
  }

  /** The oldest item the timeout keeps, if any: times are 32-bit words, and adding the timeout may wrap round. */
  function Expired(items: seq<Item>, timeout: nat, cutoff: nat): (n: nat)
    ensures n <= |items|
    ensures forall i :: 0 <= i < n ==> Wrap32(items[i].timestamp + timeout) < cutoff
    ensures n < |items| ==> Wrap32(items[n].timestamp + timeout) >= cutoff
  {
    if items == [] || Wrap32(items[0].timestamp + timeout) >= cutoff then 0
    else
      var n := Expired(items[1..], timeout, cutoff);
      assert forall i :: 0 < i < n + 1 ==> items[i] == items[1..][i - 1];
      n + 1
  }

  /** The time the sums are compared with: that of the newest item, or now if that is earlier. */
  function Cutoff(items: seq<Item>, now: nat): (c: nat)
    requires items != []
    ensures c <= now && c <= items[|items| - 1].timestamp && (c == now || c == items[|items| - 1].timestamp)
  {
    Min(items[|items| - 1].timestamp, now)
  }

  /** The oldest item within the timeout of the cutoff. */
  function FirstRecent(items: seq<Item>, timeout: nat, cutoff: nat): (n: nat)
    ensures n <= |items|
    ensures forall i :: 0 <= i < n ==> items[i].timestamp + timeout < cutoff
    ensures n < |items| ==> items[n].timestamp + timeout >= cutoff
  {
    if items == [] || items[0].timestamp + timeout >= cutoff then 0
    else
      var n := FirstRecent(items[1..], timeout, cutoff);
      assert forall i :: 0 < i < n + 1 ==> items[i] == items[1..][i - 1];
      n + 1
  }

  /** Times and the timeout are 32-bit words. */
  predicate Words(items: seq<Item>, timeout: nat, now: nat) {
    timeout < U32 && now < U32 && forall i :: 0 <= i < |items| ==> items[i].timestamp < U32
  }

  lemma {:induction false} TimesAscend(items: seq<Item>, i: nat, j: nat)
    requires Sorted(items) && i <= j < |items|
    ensures items[i].timestamp <= items[j].timestamp
  {
    assert i < j ==> Before(items[i], items[j]);
  }

  /** The items within the timeout of the newest one, or of now if that is earlier, are an end of the queue. */
  lemma {:induction false} RecentIsEnd(items: seq<Item>, timeout: nat, now: nat)
    requires Sorted(items) && items != []
    ensures var w := FirstRecent(items, timeout, Cutoff(items, now));
            && w < |items|
            && (forall i :: 0 <= i < |items| ==>
                  (i >= w <==> items[i].timestamp + timeout >= now || items[i].timestamp + timeout >= items[|items| - 1].timestamp))
  {
    hide Sorted;
    var w, cutoff := FirstRecent(items, timeout, Cutoff(items, now)), Cutoff(items, now);
    TimesAscend(items, 0, |items| - 1);
    forall i | 0 <= i < |items|
      ensures i >= w && w < |items| ==> items[i].timestamp + timeout >= cutoff
    {
      if i >= w {
        TimesAscend(items, w, i);
      }
    }
  }

  /**
   * The loop stops and keeps exactly the items within the timeout if and only if the sum for the oldest of
   * these does not wrap round below the cutoff. Where it does, that item is lost, and with the clock not
   * behind the newest item so is every other: the loop then runs off the empty queue.
   */
  lemma {:induction false} TimeoutKeepsRecent(items: seq<Item>, timeout: nat, now: nat)
    requires Sorted(items) && items != [] && Words(items, timeout, now)
    ensures var cutoff := Cutoff(items, now);
            var w, n := FirstRecent(items, timeout, cutoff), Expired(items, timeout, cutoff);
            && w < |items| && w <= n
            && (n == w <==> Wrap32(items[w].timestamp + timeout) >= cutoff)
            && (n == |items| <==> Wrap32(items[w].timestamp + timeout) < cutoff
                                  && Wrap32(items[|items| - 1].timestamp + timeout) < cutoff)
            && (n > w && now >= items[|items| - 1].timestamp ==> n == |items|)
  {
    hide Sorted, Words, Wrap32, FirstRecent, Expired;
    RecentIsEnd(items, timeout, now);
    var cutoff, last := Cutoff(items, now), |items| - 1;
    var w, n := FirstRecent(items, timeout, cutoff), Expired(items, timeout, cutoff);
    WrapsAscend(items, timeout, now, w, last);
    if n < |items| {
      NoWrap(items, timeout, now, n);
      if w < n {
        WrapsAscend(items, timeout, now, w, n);
        WrapsAscend(items, timeout, now, n, last);
      }
    }
  }

  /** Without wrap-round the items kept are those within the timeout of now or of the newest item. */
  lemma {:induction false} KeepsRecent(items: seq<Item>, timeout: nat, now: nat)
    requires Sorted(items) && items != [] && items[|items| - 1].timestamp + timeout < U32
    ensures var n := Expired(items, timeout, Cutoff(items, now));
            && n < |items|
            && (forall i :: 0 <= i < |items| ==>
                  (i >= n <==> items[i].timestamp + timeout >= now || items[i].timestamp + timeout >= items[|items| - 1].timestamp))
  {
    hide Sorted, FirstRecent, Expired;
    var n, last := Expired(items, timeout, Cutoff(items, now)), |items| - 1;
    forall i | 0 <= i < |items|
      ensures items[i].timestamp <= items[last].timestamp
      ensures n < |items| && n <= i ==> items[n].timestamp <= items[i].timestamp
    {
      TimesAscend(items, i, last);
      if n <= i {
        TimesAscend(items, n, i);
      }
    }
    assert Wrap32(items[last].timestamp + timeout) == items[last].timestamp + timeout;
  }

  /**
   * The first `n` items, and no others, are to be dropped: their 32-bit sums with the timeout reach neither now nor
   * the newest item's time, and that of the next does. Where no sum wraps round, exactly the items within the
   * timeout of now or of the newest item stay, so always the newest.
   */
  predicate OutOfTime(items: seq<Item>, n: nat, timeout: nat, now: nat)
    requires items != [] && n <= |items|
  {
    var newest := items[|items| - 1].timestamp;
    && (forall i :: 0 <= i < n ==> Wrap32(items[i].timestamp + timeout) < now && Wrap32(items[i].timestamp + timeout) < newest)
    && (n < |items| ==> Wrap32(items[n].timestamp + timeout) >= now || Wrap32(items[n].timestamp + timeout) >= newest)
    && (newest + timeout < U32 ==>
          n < |items| && forall i :: 0 <= i < |items| ==>
                           (i >= n <==> items[i].timestamp + timeout >= now || items[i].timestamp + timeout >= newest))
  }

  lemma {:induction false} ExpiredMeans(items: seq<Item>, timeout: nat, now: nat)
    requires Sorted(items) && items != []
    ensures OutOfTime(items, Expired(items, timeout, Cutoff(items, now)), timeout, now)
  {
    hide Sorted, Expired, Wrap32;
    if items[|items| - 1].timestamp + timeout < U32 {
      KeepsRecent(items, timeout, now);
    }
  }

  lemma {:induction false} NoWrap(items: seq<Item>, timeout: nat, now: nat, i: nat)
    requires Sorted(items) && Words(items, timeout, now) && i < |items|
    ensures items[i].timestamp + timeout < Cutoff(items, now) ==>
              Wrap32(items[i].timestamp + timeout) == items[i].timestamp + timeout
  {
  }

  /** Once the sums have wrapped they ascend again, and stay below the times themselves. */
  lemma {:induction false} WrapsAscend(items: seq<Item>, timeout: nat, now: nat, i: nat, j: nat)
    requires Sorted(items) && Words(items, timeout, now) && i <= j < |items|
    requires items[i].timestamp + timeout >= Cutoff(items, now)
    ensures var low, high := Wrap32(items[i].timestamp + timeout), Wrap32(items[j].timestamp + timeout);
            low < Cutoff(items, now) || items[i].timestamp + timeout >= U32 ==>
              && items[i].timestamp + timeout >= U32 && items[j].timestamp + timeout >= U32
              && low <= high < items[j].timestamp <= items[|items| - 1].timestamp
  {
    TimesAscend(items, i, j);
    TimesAscend(items, j, |items| - 1);
  }

  /**
   * A timeout the configuration takes, and times of the present day: both items are within the timeout, and
   * the queue is emptied.
   */
  lemma {:induction false} WrapEmptiesQueue()
    ensures var items := [Item(1400000000, 0, 1, 32), Item(1400000001, 0, 2, 32)];
            var timeout, cutoff := 3000000000, Cutoff(items, 1400000005);
            && Sorted(items) && Words(items, timeout, 1400000005)
            && FirstRecent(items, timeout, cutoff) == 0 && Expired(items, timeout, cutoff) == |items|
  {
    var items := [Item(1400000000, 0, 1, 32), Item(1400000001, 0, 2, 32)];
    TimeoutKeepsRecent(items, 3000000000, 1400000005);
  }

  // ------------------------------------------------------------------ in place

  class Queue {
    const timeout: nat
    const maxSize: nat
    var items: seq<Item>
    var curSize: nat
    var discardNum: nat
    /** Everything pushed, and what became of it. */
    ghost var pushed: multiset<Item>
    ghost var popped: multiset<Item>
    ghost var discarded: multiset<Item>
    /** By how much the size tracked is too large: the sizes of the items whose keys were there already. */
    ghost var drift: nat

    /** The size is that of the items and the drift, and nothing taken in is lost: it is popped, discarded, or still there. */
    ghost predicate Valid()
      reads this
    {
      Whole() && curSize <= maxSize
    }

    constructor (seconds: nat, megabytes: nat)
      ensures Valid() && items == [] && drift == 0 && timeout == seconds && maxSize == megabytes * 1024 * 1024
    {
      timeout, maxSize, items, curSize, discardNum := seconds, megabytes * 1024 * 1024, [], 0, 0;
      pushed, popped, discarded, drift := multiset{}, multiset{}, multiset{}, 0;
    }

    /** As Valid, whatever the size. */
    ghost predicate Whole()
      reads this
    {
      && Sorted(items) && curSize == Sum(items) + drift
      && pushed == popped + discarded + multiset(items)
      && discardNum == |discarded|
    }

    /** Discards the oldest item. */
    method Discard()
      requires Whole() && items != []
      modifies this`items, this`curSize, this`discardNum, this`discarded
      ensures Whole() && items == old(items[1..]) && curSize == old(curSize) - old(items[0]).size
    {
      hide Sorted, Sum;
      FirstGone(items);
      var log := items[0];
      Balance(discarded, popped, log, multiset(items[1..]));
      curSize := curSize - log.size;
      items := items[1..];
      discardNum := discardNum + 1;
      discarded := discarded + multiset{log};
    }

    /** The drift once `x` has been pushed. */
    ghost function DriftWith(x: Item): nat
      reads this
    {
      drift + if Has(items, x) then x.size else 0
    }

    method Add(x: Item)
      requires Valid()
      modifies this`items, this`curSize, this`pushed, this`drift
      ensures Whole() && items == Insert(old(items), x) && drift == old(DriftWith(x))
      ensures pushed == old(pushed) + if Has(old(items), x) then multiset{} else multiset{x}
    {
      hide Sorted, Insert, Has, Sum;
      InsertSorted(items, x);
      InsertAdds(items, x);
      BalanceIn(pushed, popped + discarded, multiset(items), x);
      drift := DriftWith(x);
      pushed := pushed + if Has(items, x) then multiset{} else multiset{x};
      items := Insert(items, x);
      curSize := curSize + x.size;
    }

    lemma {:induction false} SizeTracked()
      requires Whole()
      ensures curSize == Sum(items) + drift && (curSize > drift ==> items != []) && (items == [] ==> curSize == drift)
    {
    }

    /**
     * Adds an item in its place, then discards the oldest ones until the size tracked for the rest is within
     * the limit. An item whose key is there only adds to the drift; where that passes the limit by itself
     * the loop runs on an empty queue, where the source is undefined, and the result is false. With distinct
     * keys the drift is 0 and the size exact.
     */
    method Push(x: Item) returns (ok: bool)
      requires Valid()
      modifies this
      ensures ok == (old(DriftWith(x)) <= maxSize)
      ensures Whole() && (ok ==> Valid()) && popped == old(popped) && drift == old(DriftWith(x))
      ensures pushed == old(pushed) + if Has(old(items), x) then multiset{} else multiset{x}
      ensures !ok ==> items == []
      ensures var all := Insert(old(items), x);
              var n := |all| - |items|;
              ok ==> n >= 0 && items == all[n..] && StillOver(all, n, maxSize - drift)
    {
      hide Sorted, Insert, Has, Whole, Excess, Sum;
      Add(x);
      ghost var all := items;
      SizeTracked();
      DriftDecides(all, maxSize, drift);
      if drift <= maxSize {
        ExcessIsLeast(all, maxSize - drift);
        ExcessShifts(all, Sum(all), maxSize - drift, drift);
      }
      ok := Shrink();
    }

    /** The eviction loop; false if it runs on an empty queue. */
    method Shrink() returns (ok: bool)
      requires Whole()
      modifies this`items, this`curSize, this`discardNum, this`discarded
      ensures Whole() && ok == (curSize <= maxSize) == (drift <= maxSize) && (!ok ==> items == [])
      ensures items == old(items[Excess(items, curSize, maxSize)..])
    {
      hide Sorted, Whole, Excess, Sum;
      ghost var all, n := items, 0;
      assert all[0..] == all;
      while curSize > maxSize
        invariant n <= |all| && items == all[n..] && Whole()
        invariant old(Excess(items, curSize, maxSize)) == n + Excess(items, curSize, maxSize)
        decreases |items|
      {
        SizeTracked();
        if items == [] {
          return false;
        }
        OneExcess(items, curSize, maxSize);
        DropOne(all, n);
        Discard();
        n := n + 1;
      }
      OneExcess(items, curSize, maxSize);
      SizeTracked();
      ok := true;
    }

    method Pop() returns (r: seq<Item>)
      requires Valid()
      modifies this
      ensures Valid() && pushed == old(pushed) && discarded == old(discarded) && drift == old(drift)
      ensures if old(items) == [] then r == [] && items == [] else r == [old(items[0])] && items == old(items[1..])
      ensures popped == old(popped) + multiset(r)
    {
      hide Sorted, Sum;
      if items == [] {
        return [];
      }
      FirstGone(items);
      var log := items[0];
      r := [log];
      Balance(popped, discarded, log, multiset(items[1..]));
      curSize := curSize - log.size;
      items := items[1..];
      popped := popped + multiset{log};
    }

    /** Discards what is out of time; false if nothing is left and the loop runs on, where the source is undefined. */
    method CheckTimeout(now: nat) returns (ok: bool)
      requires Valid()
      modifies this
      ensures Valid() && pushed == old(pushed) && popped == old(popped) && drift == old(drift)
      ensures old(items) != [] ==>
                var n := old(Expired(items, timeout, Cutoff(items, now)));
                items == old(items)[n..] && ok == (n < |old(items)|)
      ensures |items| <= |old(items)| && items == old(items)[|old(items)| - |items|..]
      ensures old(items) != [] ==> ok == (items != []) && OutOfTime(old(items), |old(items)| - |items|, timeout, now)
      ensures old(items) == [] ==> ok && items == []
    {
      if items == [] {
        return true;
      }
      hide Sorted, Whole, Expired, Sum, Cutoff, OutOfTime;
      SortedIn();
      ExpiredMeans(items, timeout, now);
      ok := DropExpired(Cutoff(items, now));
    }

    lemma {:induction false} SortedIn()
      requires Whole()
      ensures Sorted(items)
    {
    }

    /** The loop over the expired items. */
    method DropExpired(cutoff: nat) returns (ok: bool)
      requires Whole()
      modifies this`items, this`curSize, this`discardNum, this`discarded
      ensures Whole() && curSize <= old(curSize) && items == old(items[Expired(items, timeout, cutoff)..])
      ensures ok == (items != [])
    {
      hide Sorted, Whole, Expired, Sum;
      ghost var all, n := items, 0;
      ghost var upTo := Expired(all, timeout, cutoff);
      assert all[0..] == all;
      while items != [] && Wrap32(items[0].timestamp + timeout) < cutoff
        invariant n <= upTo <= |all| && items == all[n..] && Whole() && curSize <= old(curSize)
        decreases |items|
      {
        OneExpired(all, timeout, cutoff, n);
        DropOne(all, n);
        Discard();
        n := n + 1;
      }
      OneExpired(all, timeout, cutoff, n);
      ok := items != [];
    }
  }

  lemma {:induction false} OneExpired(items: seq<Item>, timeout: nat, cutoff: nat, n: nat)
    requires n <= Expired(items, timeout, cutoff)
    ensures n == Expired(items, timeout, cutoff) <==> n == |items| || Wrap32(items[n].timestamp + timeout) >= cutoff
  {
  }

  /** An item whose key is there already is dropped but counted: from then on the size is too large by its own. */
  lemma {:induction false} SizeIsExactIff(items: seq<Item>, x: Item)
    requires Sorted(items) && x.size > 0
    ensures Sum(items) + x.size == Sum(Insert(items, x)) <==> !Has(items, x)
  {
    InsertAdds(items, x);
  }
}
