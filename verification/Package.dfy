// The key/value package of the Python client: a dictionary, its bytes, and back again.
module Package {
  import opened Bytes
  import opened Wrappers

  /** A value as it is packed under a key: a byte string, or a dictionary. */
  datatype Item = Text(s: seq<byte>) | Dict(fields: seq<Field>)

  /** Under one key there is an item or a list of items; lists are not nested. */
  datatype Value = One(item: Item) | List(items: seq<Item>)

  /** A dictionary is a row of fields in the order in which their keys were first set. */
  datatype Field = Field(key: seq<byte>, value: Value)

  datatype Entry = Entry(key: seq<byte>, item: Item)

  /** What unpack comes to: a dictionary, one of three exceptions, or no end. */
  datatype Outcome = Ok(fields: seq<Field>) | StructError | IndexError | BadPackage | Diverges

  // ---------------------------------------------------------------------- pack

  function Under(key: seq<byte>, items: seq<Item>): (es: seq<Entry>)
    ensures |es| == |items| && forall i :: 0 <= i < |es| ==> es[i] == Entry(key, items[i])
  {
    seq(|items|, i requires 0 <= i < |items| => Entry(key, items[i]))
  }

  function EntriesOf(f: Field): seq<Entry> {
    match f.value
    case One(item) => [Entry(f.key, item)]
    case List(items) => Under(f.key, items)
  }

  /** What pack writes, in order: each item of each list under the list's key. */
  function Entries(fields: seq<Field>): seq<Entry> {
    if fields == [] then [] else EntriesOf(fields[0]) + Entries(fields[1..])
  }

  /** The first word of an entry: its size, with the top bit set for a dictionary. */
  function Head(size: nat, isDict: bool): nat {
    if isDict && size < U31 then size + U31 else size
  }

  function Frame(key: seq<byte>, data: seq<byte>, isDict: bool): Option<seq<byte>> {
    var size := 8 + |key| + |data|;
    if size >= U32 || |key| >= U16 then None
    else Some(BigEndian(Head(size, isDict), 4) + BigEndian(|key|, 2) + key + [0] + data + [0])
  }

  /** The bytes of one entry, unless a length does not fit its word. */
  function PackEntry(e: Entry): Option<seq<byte>>
    decreases e.item, 2
  {
    match e.item
    case Text(s) => Frame(e.key, s, false)
    case Dict(fields) =>
      var data := Pack(fields);
      if data == None then None else Frame(e.key, data.value, true)
  }

  function Pack(fields: seq<Field>): Option<seq<byte>>
    decreases fields, 0
  {
    if fields == [] then Some([])
    else Then(PackValue(fields[0].key, fields[0].value), Pack(fields[1..]))
  }

  function PackValue(key: seq<byte>, v: Value): Option<seq<byte>>
    decreases v, 0
  {
    match v
    case One(item) => PackEntry(Entry(key, item))
    case List(items) => PackItems(key, items)
  }

  function PackItems(key: seq<byte>, items: seq<Item>): Option<seq<byte>>
    decreases items, 0
  {
    if items == [] then Some([])
    else Then(PackEntry(Entry(key, items[0])), PackItems(key, items[1..]))
  }

  function Then(a: Option<seq<byte>>, b: Option<seq<byte>>): Option<seq<byte>> {
    if a == None || b == None then None else Some(a.value + b.value)
  }

  function PackEntries(es: seq<Entry>): Option<seq<byte>> {
    if es == [] then Some([]) else Then(PackEntry(es[0]), PackEntries(es[1..]))
  }

  lemma {:induction false} ThenRegroups(a: Option<seq<byte>>, b: Option<seq<byte>>, c: Option<seq<byte>>)
    ensures Then(Then(a, b), c) == Then(a, Then(b, c))
    ensures Then(a, Some([])) == a
  {
    if a != None && b != None && c != None {
      assert (a.value + b.value) + c.value == a.value + (b.value + c.value);
    }
    if a != None {
      assert a.value + [] == a.value;
    }
  }

  lemma {:induction false} PackJoin(a: seq<Entry>, b: seq<Entry>)
    ensures PackEntries(a + b) == Then(PackEntries(a), PackEntries(b))
  {
    if a == [] {
      assert a + b == b;
      assert PackEntries(b) != None ==> [] + PackEntries(b).value == PackEntries(b).value;
    } else {
      PackJoin(a[1..], b);
      assert (a + b)[1..] == a[1..] + b;
      ThenRegroups(PackEntry(a[0]), PackEntries(a[1..]), PackEntries(b));
    }
  }

  lemma {:induction false} PackItemsIs(key: seq<byte>, items: seq<Item>)
    ensures PackItems(key, items) == PackEntries(Under(key, items))
  {
    if items != [] {
      PackItemsIs(key, items[1..]);
      assert Under(key, items)[1..] == Under(key, items[1..]);
    }
  }

  lemma {:induction false} PackValueIs(f: Field)
    ensures PackValue(f.key, f.value) == PackEntries(EntriesOf(f))
  {
    match f.value {
      case One(item) =>
        assert EntriesOf(f)[1..] == [];
        ThenRegroups(PackEntry(Entry(f.key, item)), None, None);
      case List(items) => PackItemsIs(f.key, items);
    }
  }

  /** A package is its entries one after the other. */
  lemma {:induction false} PackIs(fields: seq<Field>)
    ensures Pack(fields) == PackEntries(Entries(fields))
  {
    if fields != [] {
      PackValueIs(fields[0]);
      PackIs(fields[1..]);
      PackJoin(EntriesOf(fields[0]), Entries(fields[1..]));
    }
  }

  // ------------------------------------------------------------ when pack fails

  /** How many bytes the data of an item, the items of a list, and a whole dictionary take. */
  function DataLength(item: Item): nat
    decreases item, 1
  {
    match item
    case Text(s) => |s|
    case Dict(fields) => Length(fields)
  }

  function ListLength(key: seq<byte>, items: seq<Item>): nat
    decreases items, 0
  {
    if items == [] then 0 else 8 + |key| + DataLength(items[0]) + ListLength(key, items[1..])
  }

  function Length(fields: seq<Field>): nat
    decreases fields, 0
  {
    if fields == [] then 0
    else (match fields[0].value
          case One(item) => 8 + |fields[0].key| + DataLength(item)
          case List(items) => ListLength(fields[0].key, items)) + Length(fields[1..])
  }

  /** The key fits two bytes and the entry four, and so it is for each entry inside. */
  predicate Fits(key: seq<byte>, item: Item)
    decreases item, 1
  {
    |key| < 65536 && 8 + |key| + DataLength(item) < U32 && (item.Dict? ==> AllFit(item.fields))
  }

  predicate AllFit(fields: seq<Field>)
    decreases fields, 0
  {
    forall i :: 0 <= i < |fields| ==>
      match fields[i].value
      case One(item) => Fits(fields[i].key, item)
      case List(items) => forall k :: 0 <= k < |items| ==> Fits(fields[i].key, items[k])
  }

  /** A dictionary is packed exactly if every entry fits, at any depth, into as many bytes as they take together. */
  lemma {:induction false} PackedIffFits(fields: seq<Field>)
    ensures Pack(fields) != None <==> AllFit(fields)
    ensures Pack(fields) != None ==> |Pack(fields).value| == Length(fields)
    decreases fields, 0
  {
    if fields != [] {
      match fields[0].value {
        case One(item) => EntryPackedIffFits(fields[0].key, item);
        case List(items) => ListPackedIffFits(fields[0].key, items);
      }
      PackedIffFits(fields[1..]);
      AllFitParts(fields);
    }
  }

  lemma {:induction false} AllFitParts(fields: seq<Field>)
    requires fields != []
    ensures AllFit(fields) <==> AllFit([fields[0]]) && AllFit(fields[1..])
  {
    hide Fits;
    assert forall i :: 0 < i < |fields| ==> fields[i] == fields[1..][i - 1];
    assert [fields[0]][0] == fields[0];
  }

  lemma {:induction false} ListPackedIffFits(key: seq<byte>, items: seq<Item>)
    ensures PackItems(key, items) != None <==> forall k :: 0 <= k < |items| ==> Fits(key, items[k])
    ensures PackItems(key, items) != None ==> |PackItems(key, items).value| == ListLength(key, items)
    decreases items, 0
  {
    hide Fits;
    if items != [] {
      EntryPackedIffFits(key, items[0]);
      ListPackedIffFits(key, items[1..]);
      assert forall k :: 0 < k < |items| ==> items[k] == items[1..][k - 1];
    }
  }

  lemma {:induction false} EntryPackedIffFits(key: seq<byte>, item: Item)
    ensures PackEntry(Entry(key, item)) != None <==> Fits(key, item)
    ensures PackEntry(Entry(key, item)) != None ==> |PackEntry(Entry(key, item)).value| == 8 + |key| + DataLength(item)
    decreases item, 1
  {
    hide BigEndian;
    Spans();
    if item.Dict? {
      PackedIffFits(item.fields);
    }
  }

  // -------------------------------------------------------------------- unpack

  function Find(fields: seq<Field>, key: seq<byte>): (i: nat)
    ensures i <= |fields|
    ensures i < |fields| ==> fields[i].key == key
    ensures forall k :: 0 <= k < i ==> fields[k].key != key
  {
    if fields == [] || fields[0].key == key then 0
    else
      var i := Find(fields[1..], key);
      assert forall k :: 0 < k < i + 1 ==> fields[k] == fields[1..][k - 1];
      i + 1
  }

  /** A new key goes to the end; under a known one the value becomes, or grows as, a list in its place. */
  function Insert(fields: seq<Field>, e: Entry): seq<Field> {
    var i := Find(fields, e.key);
    if i == |fields| then fields + [Field(e.key, One(e.item))]
    else
      var items := match fields[i].value case One(item) => [item] case List(items) => items;
      fields[i := Field(e.key, List(items + [e.item]))]
  }

  /** A Python slice whose bounds are not negative. */
  function Slice(s: seq<byte>, from: nat, to: nat): (r: seq<byte>)
    ensures |r| <= |s| && (from > 0 && s != [] ==> |r| < |s|)
  {
    var end := if to <= |s| then to else |s|;
    if from <= end then s[from..end] else []
  }

  /** The size of an entry, from its first word. */
  function SizeOf(head: nat): nat {
    if head >= U31 then head - U31 else head
  }

  function Word(s: seq<byte>, from: nat, width: nat): (n: nat)
    requires from + width <= |s|
    ensures n < Span(width)
  {
    FromBigEndian(s[from..from + width])
  }

  /** What one pass of the loop takes from the front of the message: an exception, or the parts of an entry. */
  datatype Taken = Bad(why: Outcome) | Part(size: nat, key: seq<byte>, data: seq<byte>, isDict: bool)

  function Take(msg: seq<byte>): (t: Taken)
    requires msg != []
    ensures t.Part? ==> t.size <= |msg| && |t.data| < |msg|
    ensures t.Bad? ==> t.why.StructError? || t.why.IndexError? || t.why.BadPackage?
  {
    if |msg| < 4 then Bad(StructError)
    else
      var head := Word(msg, 0, 4);
      var size := SizeOf(head);
      if size > |msg| then Bad(BadPackage)
      else if |msg| < 6 then Bad(StructError)
      else
        var keyLen := Word(msg, 4, 2);
        if keyLen > size then Bad(BadPackage)
        else if 6 + keyLen >= |msg| then Bad(IndexError)
        else if msg[6 + keyLen] != 0 then Bad(BadPackage)
        else
          var end := if size == 0 then |msg| - 1 else size - 1;
          Part(size, msg[6..6 + keyLen], Slice(msg, 7 + keyLen, end), head >= U31)
  }

  /** The item of an entry; a dictionary's is unpacked in its turn. */
  function ItemOf(t: Taken): (r: (Outcome, Item))
    requires t.Part?
    decreases |t.data|, 1
  {
    if !t.isDict then (Ok([]), Text(t.data))
    else
      var inner := UnpackFrom(t.data, []);
      if inner.Ok? then (inner, Dict(inner.fields)) else (inner, Text([]))
  }

  /** The loop of unpack, from a message and the fields found so far. An entry of size 0 is read over and over. */
  function UnpackFrom(msg: seq<byte>, fields: seq<Field>): Outcome
    decreases |msg|, 0
  {
    if msg == [] then Ok(fields)
    else
      var t := Take(msg);
      if t.Bad? then t.why
      else
        var (inner, item) := ItemOf(t);
        if !inner.Ok? then inner
        else if t.size == 0 then Diverges
        else UnpackFrom(msg[t.size..], Insert(fields, Entry(t.key, item)))
  }

  function Unpack(msg: seq<byte>): Outcome {
    UnpackFrom(msg, [])
  }

  // ---------------------------------------------------------------- round trip

  /** No key twice, at any depth. */
  predicate Distinct(fields: seq<Field>) {
    && (forall i, j :: 0 <= i < j < |fields| ==> fields[i].key != fields[j].key)
    && forall i :: 0 <= i < |fields| ==> DistinctValue(fields[i].value)
  }

  predicate DistinctValue(v: Value) {
    match v
    case One(item) => DistinctItem(item)
    case List(items) => forall i :: 0 <= i < |items| ==> DistinctItem(items[i])
  }

  predicate DistinctItem(item: Item) {
    item.Dict? ==> Distinct(item.fields)
  }

  /** What survives packing: an empty list is dropped, a list of one item is that item. */
  function Normal(fields: seq<Field>): seq<Field> {
    if fields == [] then [] else NormalField(fields[0]) + Normal(fields[1..])
  }

  function NormalField(f: Field): seq<Field> {
    match f.value
    case One(item) => [Field(f.key, One(NormalItem(item)))]
    case List(items) =>
      var ns := NormalItems(items);
      if |ns| == 0 then [] else if |ns| == 1 then [Field(f.key, One(ns[0]))] else [Field(f.key, List(ns))]
  }

  function NormalItems(items: seq<Item>): (r: seq<Item>)
    ensures |r| == |items|
  {
    if items == [] then [] else [NormalItem(items[0])] + NormalItems(items[1..])
  }

  function NormalItem(item: Item): Item {
    match item
    case Text(s) => item
    case Dict(fields) => Dict(Normal(fields))
  }

  /** Each size of the message fits the 31 bits it is read back from. */
  predicate SizesFit(es: seq<Entry>) {
    forall i :: 0 <= i < |es| ==> PackEntry(es[i]) != None && |PackEntry(es[i]).value| < U31
  }

  /** The parts of a frame lie where unpack looks for them. */
  lemma {:induction false} FrameParts(head: seq<byte>, len: seq<byte>, key: seq<byte>, data: seq<byte>, rest: seq<byte>)
    requires |head| == 4 && |len| == 2
    ensures var msg := (head + len + key + [0] + data + [0]) + rest;
            var size := 8 + |key| + |data|;
            && |msg| == size + |rest| && msg[0..4] == head && msg[4..6] == len && msg[6..6 + |key|] == key
            && msg[6 + |key|] == 0 && msg[7 + |key|..size - 1] == data && msg[size..] == rest
  {
  }

  /** What the entry of a frame reads back as, whatever follows it. */
  lemma {:induction false} FrameTaken(key: seq<byte>, data: seq<byte>, isDict: bool, rest: seq<byte>)
    requires Frame(key, data, isDict) != None && 8 + |key| + |data| < U31
    ensures var b := Frame(key, data, isDict).value;
            |b| == 8 + |key| + |data| && b + rest != [] && Take(b + rest) == Part(|b|, key, data, isDict)
            && (b + rest)[|b|..] == rest
  {
    hide BigEndian, FromBigEndian;
    Spans();
    BigEndianRoundTrip(Head(8 + |key| + |data|, isDict), 4);
    BigEndianRoundTrip(|key|, 2);
    FrameParts(BigEndian(Head(8 + |key| + |data|, isDict), 4), BigEndian(|key|, 2), key, data, rest);
  }

  /**
   * The bytes of an entry: its size, of all of it, in four bytes with the top bit for a dictionary, the length of
   * the key in two, the key, a zero, the data, and a zero. There are none exactly if a length does not fit.
   */
  lemma {:induction false} FrameLayout(key: seq<byte>, data: seq<byte>, isDict: bool)
    ensures Frame(key, data, isDict) == None <==> |key| >= 65536 || 8 + |key| + |data| >= U32
    ensures Frame(key, data, isDict) != None ==>
              var b, n := Frame(key, data, isDict).value, 8 + |key| + |data|;
              && |b| == n
              && ((b[0] as int * 256 + b[1] as int) * 256 + b[2] as int) * 256 + b[3] as int
                 == n + (if isDict && n < U31 then U31 else 0)
              && b[4] as int * 256 + b[5] as int == |key|
              && b[6..6 + |key|] == key && b[6 + |key|] == 0
              && b[7 + |key|..n - 1] == data && b[n - 1] == 0
  {
    hide BigEndian, FromBigEndian;
    if Frame(key, data, isDict) != None {
      var n := 8 + |key| + |data|;
      var head, len := BigEndian(Head(n, isDict), 4), BigEndian(|key|, 2);
      Spans();
      BigEndianRoundTrip(Head(n, isDict), 4);
      BigEndianRoundTrip(|key|, 2);
      FrameParts(head, len, key, data, []);
      FourBytes(head);
      TwoBytes(len);
      var b := head + len + key + [0] + data + [0];
      assert b + [] == b;
      assert b[0..4] == head && b[4..6] == len && b[n - 1] == 0;
    }
  }

  /** What one pass takes from any bytes, and which exception it raises on which. */
  lemma {:induction false} TakenBytes(msg: seq<byte>)
    requires msg != []
    ensures |msg| < 4 ==> Take(msg) == Bad(StructError)
    ensures |msg| >= 4 ==>
              var size := ((msg[0] as int % 128 * 256 + msg[1] as int) * 256 + msg[2] as int) * 256 + msg[3] as int;
              && (size > |msg| ==> Take(msg) == Bad(BadPackage))
              && (size <= |msg| < 6 ==> Take(msg) == Bad(StructError))
              && (size <= |msg| && |msg| >= 6 ==>
                    var keyLen := msg[4] as int * 256 + msg[5] as int;
                    Take(msg) == if keyLen > size then Bad(BadPackage)
                                 else if 6 + keyLen >= |msg| then Bad(IndexError)
                                 else if msg[6 + keyLen] != 0 then Bad(BadPackage)
                                 else Part(size, msg[6..6 + keyLen], Between(msg, 7 + keyLen, if size == 0 then |msg| else size), msg[0] >= 128))
  {
    hide Word, SizeOf, Slice, Between;
    if |msg| >= 4 {
      SizeBits(msg);
    }
    if |msg| >= 6 {
      KeyLength(msg);
      var size, keyLen := SizeOf(Word(msg, 0, 4)), Word(msg, 4, 2);
      if keyLen <= size <= |msg| {
        SliceIsBetween(msg, 7 + keyLen, if size == 0 then |msg| else size);
      }
    }
  }

  lemma {:induction false} SizeBits(msg: seq<byte>)
    requires |msg| >= 4
    ensures SizeOf(Word(msg, 0, 4)) == ((msg[0] as int % 128 * 256 + msg[1] as int) * 256 + msg[2] as int) * 256 + msg[3] as int
    ensures Word(msg, 0, 4) >= U31 <==> msg[0] >= 128
  {
    hide FromBigEndian;
    FourBytes(msg[0..4]);
    var high := msg[0] as int;
    assert high % 128 == if high >= 128 then high - 128 else high;
  }

  lemma {:induction false} KeyLength(msg: seq<byte>)
    requires |msg| >= 6
    ensures Word(msg, 4, 2) == msg[4] as int * 256 + msg[5] as int
  {
    hide FromBigEndian;
    TwoBytes(msg[4..6]);
  }

  lemma {:induction false} SliceIsBetween(msg: seq<byte>, from: nat, end: nat)
    requires 0 < end <= |msg|
    ensures Slice(msg, from, end - 1) == Between(msg, from, end)
  {
  }

  /** The bytes from `from` up to the last one before `end`, or none. */
  function Between(s: seq<byte>, from: nat, end: nat): (r: seq<byte>)
    requires end <= |s|
    ensures from < end ==> |r| == end - 1 - from && forall i :: 0 <= i < |r| ==> r[i] == s[from + i]
    ensures from >= end ==> r == []
  {
    if from < end then s[from..end - 1] else []
  }

  /** A known key keeps its place, and its item or list becomes a list with one more; a new one goes to the end. */
  lemma {:induction false} InsertKeeps(fields: seq<Field>, e: Entry)
    ensures var r := Insert(fields, e);
            && |r| >= |fields| && (forall i :: 0 <= i < |fields| ==> r[i].key == fields[i].key)
            && (forall i :: 0 <= i < |fields| && fields[i].key != e.key ==> r[i] == fields[i])
            && ((forall i :: 0 <= i < |fields| ==> fields[i].key != e.key) ==> r == fields + [Field(e.key, One(e.item))])
            && (forall i :: 0 <= i < |fields| && fields[i].key == e.key && (forall k :: 0 <= k < i ==> fields[k].key != e.key) ==>
                  && |r| == |fields|
                  && r[i].value == List((if fields[i].value.One? then [fields[i].value.item] else fields[i].value.items) + [e.item]))
  {
    var n := Find(fields, e.key);
    forall i | 0 <= i < |fields| && fields[i].key == e.key && (forall k :: 0 <= k < i ==> fields[k].key != e.key)
      ensures i == n
    {
    }
  }

  lemma {:induction false} SmallPartsFit(es: seq<Entry>)
    requires PackEntries(es) != None && |PackEntries(es).value| < U31
    ensures SizesFit(es)
  {
    if es != [] {
      SmallPartsFit(es[1..]);
      assert forall i :: 0 < i < |es| ==> es[i] == es[1..][i - 1];
    }
  }

  /** The fields after the loop of unpack has read these entries. */
  function InsertAll(fields: seq<Field>, es: seq<Entry>): seq<Field>
    decreases |es|
  {
    if es == [] then fields else InsertAll(Insert(fields, Entry(es[0].key, NormalItem(es[0].item))), es[1..])
  }

  lemma {:induction false} InsertAllJoin(fields: seq<Field>, a: seq<Entry>, b: seq<Entry>)
    ensures InsertAll(fields, a + b) == InsertAll(InsertAll(fields, a), b)
    decreases |a|
  {
    if a == [] {
      assert a + b == b;
    } else {
      assert (a + b)[1..] == a[1..] + b;
      InsertAllJoin(Insert(fields, Entry(a[0].key, NormalItem(a[0].item))), a[1..], b);
    }
  }

  lemma {:induction false} EntryRoundTrip(e: Entry, rest: seq<byte>, got: seq<Field>)
    requires PackEntry(e) != None && |PackEntry(e).value| < U31 && DistinctItem(e.item)
    ensures UnpackFrom(PackEntry(e).value + rest, got) ==
            UnpackFrom(rest, Insert(got, Entry(e.key, NormalItem(e.item))))
    decreases e.item, 2
  {
    match e.item {
      case Text(s) => FrameTaken(e.key, s, false, rest);
      case Dict(fields) =>
        var data := Pack(fields).value;
        FrameTaken(e.key, data, true, rest);
        PackIs(fields);
        SmallPartsFit(Entries(fields));
        RoundTrip(fields);
    }
  }

  lemma {:induction false} ItemsRoundTrip(key: seq<byte>, items: seq<Item>, rest: seq<byte>, got: seq<Field>)
    requires SizesFit(Under(key, items)) && forall i :: 0 <= i < |items| ==> DistinctItem(items[i])
    ensures PackItems(key, items) != None
    ensures UnpackFrom(PackItems(key, items).value + rest, got) == UnpackFrom(rest, InsertAll(got, Under(key, items)))
    decreases items, 0
  {
    if items == [] {
      assert [] + rest == rest;
    } else {
      var e := Entry(key, items[0]);
      assert e == Under(key, items)[0];
      assert Under(key, items)[1..] == Under(key, items[1..]);
      var got' := Insert(got, Entry(key, NormalItem(items[0])));
      assert forall i :: 0 <= i < |items[1..]| ==> items[1..][i] == items[i + 1];
      assert SizesFit(Under(key, items[1..])) by {
        TailFits(Under(key, items));
      }
      ItemsRoundTrip(key, items[1..], rest, got');
      EntryRoundTrip(e, PackItems(key, items[1..]).value + rest, got);
      Joins(PackEntry(e).value, PackItems(key, items[1..]).value, rest);
    }
  }

  lemma {:induction false} TailFits(es: seq<Entry>)
    requires SizesFit(es) && es != []
    ensures SizesFit(es[1..])
  {
    assert forall i :: 0 < i < |es| ==> es[i] == es[1..][i - 1];
  }

  lemma {:induction false} JoinedFit(a: seq<Entry>, b: seq<Entry>)
    requires SizesFit(a + b)
    ensures SizesFit(a) && SizesFit(b)
  {
    assert forall i :: 0 <= i < |a| ==> a[i] == (a + b)[i];
    assert forall i :: 0 <= i < |b| ==> b[i] == (a + b)[|a| + i];
  }

  lemma {:induction false} ValueRoundTrip(f: Field, rest: seq<byte>, got: seq<Field>)
    requires SizesFit(EntriesOf(f)) && DistinctValue(f.value)
    ensures PackValue(f.key, f.value) != None
    ensures UnpackFrom(PackValue(f.key, f.value).value + rest, got) == UnpackFrom(rest, InsertAll(got, EntriesOf(f)))
    decreases f.value, 0
  {
    match f.value {
      case One(item) =>
        assert EntriesOf(f)[0] == Entry(f.key, item) && EntriesOf(f)[1..] == [];
        EntryRoundTrip(Entry(f.key, item), rest, got);
      case List(items) => ItemsRoundTrip(f.key, items, rest, got);
    }
  }

  lemma {:induction false} FieldsRoundTrip(fields: seq<Field>, got: seq<Field>)
    requires SizesFit(Entries(fields)) && forall i :: 0 <= i < |fields| ==> DistinctValue(fields[i].value)
    ensures Pack(fields) != None
    ensures UnpackFrom(Pack(fields).value, got) == Ok(InsertAll(got, Entries(fields)))
    decreases fields, 0
  {
    if fields != [] {
      var f := fields[0];
      JoinedFit(EntriesOf(f), Entries(fields[1..]));
      InsertAllJoin(got, EntriesOf(f), Entries(fields[1..]));
      FieldsRoundTrip(fields[1..], InsertAll(got, EntriesOf(f)));
      ValueRoundTrip(f, Pack(fields[1..]).value, got);
    }
  }

  /** Items under one key make one field of what is read, unless there are none. */
  function Grown(items: seq<Item>): Value
    requires items != []
  {
    if |items| == 1 then One(items[0]) else List(items)
  }

  lemma {:induction false} InsertGrown(got: seq<Field>, key: seq<byte>, first: seq<Item>, next: Item)
    requires first != [] && forall i :: 0 <= i < |got| ==> got[i].key != key
    ensures Insert(got + [Field(key, Grown(first))], Entry(key, next)) == got + [Field(key, Grown(first + [next]))]
  {
    var now := got + [Field(key, Grown(first))];
    assert now[|got|].key == key;
    assert Find(now, key) == |got|;
    if |first| == 1 {
      assert first == [first[0]];
    }
    assert now[|got| := Field(key, List(first + [next]))] == got + [Field(key, List(first + [next]))];
  }

  lemma {:induction false} UnderCons(key: seq<byte>, items: seq<Item>)
    requires items != []
    ensures Under(key, items)[0] == Entry(key, items[0]) && Under(key, items)[1..] == Under(key, items[1..])
  {
  }

  lemma {:induction false} InsertUnder(got: seq<Field>, key: seq<byte>, first: seq<Item>, items: seq<Item>)
    requires first != [] && forall i :: 0 <= i < |got| ==> got[i].key != key
    ensures InsertAll(got + [Field(key, Grown(first))], Under(key, items)) ==
            got + [Field(key, Grown(first + NormalItems(items)))]
    decreases |items|
  {
    hide Insert, Grown, NormalItem;
    if items == [] {
      assert first + [] == first;
    } else {
      var next, rest := NormalItem(items[0]), NormalItems(items[1..]);
      InsertGrown(got, key, first, next);
      InsertUnder(got, key, first + [next], items[1..]);
      UnderCons(key, items);
      assert first + ([next] + rest) == (first + [next]) + rest;
    }
  }

  lemma {:induction false} InsertField(got: seq<Field>, f: Field)
    requires forall i :: 0 <= i < |got| ==> got[i].key != f.key
    ensures InsertAll(got, EntriesOf(f)) == got + NormalField(f)
  {
    match f.value {
      case One(item) => assert EntriesOf(f)[1..] == [];
      case List(items) =>
        if items == [] {
          assert got + [] == got;
        } else {
          assert Under(f.key, items)[1..] == Under(f.key, items[1..]);
          InsertUnder(got, f.key, [NormalItem(items[0])], items[1..]);
        }
    }
  }

  ghost predicate Apart(got: seq<Field>, fields: seq<Field>) {
    && (forall i, j :: 0 <= i < |got| && 0 <= j < |fields| ==> got[i].key != fields[j].key)
    && (forall i, j :: 0 <= i < j < |fields| ==> fields[i].key != fields[j].key)
  }

  lemma {:induction false} ApartNext(got: seq<Field>, fields: seq<Field>)
    requires Apart(got, fields) && fields != []
    ensures Apart(got + NormalField(fields[0]), fields[1..])
    ensures forall i :: 0 <= i < |got| ==> got[i].key != fields[0].key
  {
    var more := got + NormalField(fields[0]);
    forall i, j | 0 <= i < |more| && 0 <= j < |fields[1..]|
      ensures more[i].key != fields[1..][j].key
    {
      assert i >= |got| ==> more[i].key == fields[0].key;
    }
  }

  lemma {:induction false} InsertFields(got: seq<Field>, fields: seq<Field>)
    requires Apart(got, fields)
    ensures InsertAll(got, Entries(fields)) == got + Normal(fields)
    decreases |fields|
  {
    hide Apart, EntriesOf, NormalField, Insert;
    if fields == [] {
      assert got + [] == got;
    } else {
      InsertAllJoin(got, EntriesOf(fields[0]), Entries(fields[1..]));
      ApartNext(got, fields);
      InsertField(got, fields[0]);
      InsertFields(got + NormalField(fields[0]), fields[1..]);
      assert got + (NormalField(fields[0]) + Normal(fields[1..])) == (got + NormalField(fields[0])) + Normal(fields[1..]);
    }
  }

  /**
   * Unpacking what was packed gives the dictionary back, in the order of its keys and lists, except that
   * empty lists are gone and lists of one item are that item; it always comes to an end.
   */
  lemma {:induction false} RoundTrip(fields: seq<Field>)
    requires Distinct(fields) && SizesFit(Entries(fields))
    ensures Pack(fields) != None && Unpack(Pack(fields).value) == Ok(Normal(fields))
    decreases fields, 1
  {
    FieldsRoundTrip(fields, []);
    InsertFields([], fields);
    assert [] + Normal(fields) == Normal(fields);
  }

  /** No list of fewer than two items, at any depth. */
  predicate IsNormal(fields: seq<Field>) {
    forall i :: 0 <= i < |fields| ==> IsNormalValue(fields[i].value)
  }

  predicate IsNormalValue(v: Value) {
    match v
    case One(item) => IsNormalItem(item)
    case List(items) => |items| >= 2 && forall i :: 0 <= i < |items| ==> IsNormalItem(items[i])
  }

  predicate IsNormalItem(item: Item) {
    item.Dict? ==> IsNormal(item.fields)
  }

  lemma {:induction false} NormalItemKeeps(item: Item)
    ensures NormalItem(item) == item <==> IsNormalItem(item)
    decreases item, 1
  {
    if item.Dict? {
      NormalKeeps(item.fields);
    }
  }

  lemma {:induction false} NormalItemsKeep(items: seq<Item>)
    ensures NormalItems(items) == items <==> forall i :: 0 <= i < |items| ==> IsNormalItem(items[i])
    decreases items, 1
  {
    if items != [] {
      NormalItemKeeps(items[0]);
      NormalItemsKeep(items[1..]);
      assert items == [items[0]] + items[1..];
      assert forall i :: 0 < i < |items| ==> items[i] == items[1..][i - 1];
    }
  }

  lemma {:induction false} NormalFieldKeeps(f: Field)
    ensures NormalField(f) == [f] <==> IsNormalValue(f.value)
    decreases f.value, 2
  {
    match f.value {
      case One(item) => NormalItemKeeps(item);
      case List(items) => NormalItemsKeep(items);
    }
  }

  lemma {:induction false} NormalSize(fields: seq<Field>)
    ensures |Normal(fields)| <= |fields|
  {
    if fields != [] {
      NormalSize(fields[1..]);
    }
  }

  /** A dictionary is its own normal form exactly when it is normal. */
  lemma {:induction false} NormalKeeps(fields: seq<Field>)
    ensures Normal(fields) == fields <==> IsNormal(fields)
    decreases fields, 0
  {
    if fields != [] {
      var f, rest := NormalField(fields[0]), Normal(fields[1..]);
      NormalFieldKeeps(fields[0]);
      NormalKeeps(fields[1..]);
      NormalSize(fields[1..]);
      assert forall i :: 0 < i < |fields| ==> fields[i] == fields[1..][i - 1];
      assert fields == [fields[0]] + fields[1..];
      if f + rest == fields {
        assert |f| == 1;
        assert f[0] == (f + rest)[0] && rest == (f + rest)[1..];
      }
    }
  }

  /** The round trip is exact for the dictionaries without short lists, and for no others. */
  lemma {:induction false} RoundTripIsExact(fields: seq<Field>)
    requires Distinct(fields) && SizesFit(Entries(fields))
    ensures Pack(fields) != None && (Unpack(Pack(fields).value) == Ok(fields) <==> IsNormal(fields))
  {
    RoundTrip(fields);
    NormalKeeps(fields);
  }

  // -------------------------------------------------------------- where unpack ends

  /** The message starts with an entry of size 0, plain or a dictionary: its first seven bytes say so. */
  predicate ZeroEntry(msg: seq<byte>) {
    |msg| >= 7 && (msg[0] == 0 || msg[0] == 128) && forall i :: 1 <= i < 7 ==> msg[i] == 0
  }

  /** The message is a row of entries, none of size 0, and so are the dictionaries in it. */
  predicate Clean(msg: seq<byte>)
    decreases |msg|
  {
    msg == [] ||
    var t := Take(msg);
    t.Part? && (t.isDict ==> Clean(t.data)) && 0 < t.size && Clean(msg[t.size..])
  }

  /** An entry of size 0, here or in a dictionary, comes before anything that is no entry. */
  predicate HasZero(msg: seq<byte>)
    decreases |msg|
  {
    msg != [] &&
    var t := Take(msg);
    t.Part? &&
    if t.isDict && !Clean(t.data) then HasZero(t.data)
    else ZeroEntry(msg) || (0 < t.size && HasZero(msg[t.size..]))
  }

  /** The entries of size 0 are those that start with these bytes. */
  lemma {:induction false} ZeroTaken(msg: seq<byte>)
    requires msg != []
    ensures ZeroEntry(msg) <==> Take(msg).Part? && Take(msg).size == 0
  {
    hide FromBigEndian;
    if |msg| >= 6 {
      FourBytes(msg[0..4]);
      TwoBytes(msg[4..6]);
    }
  }

  /** The first thing in the message, here or in a dictionary, that is no entry raises this exception. */
  predicate FailsWith(msg: seq<byte>, why: Outcome)
    decreases |msg|
  {
    msg != [] &&
    var t := Take(msg);
    if t.Bad? then t.why == why
    else if t.isDict && !Clean(t.data) then FailsWith(t.data, why)
    else 0 < t.size && FailsWith(msg[t.size..], why)
  }

  /**
   * What unpack comes to depends on the bytes alone, not on the fields read before: it returns a dictionary
   * exactly on the rows of entries without one of size 0, never ends exactly where one of size 0 is met, and
   * otherwise raises the exception of the first thing that is no entry.
   */
  lemma {:induction false} UnpackEnds(msg: seq<byte>, fields: seq<Field>)
    ensures UnpackFrom(msg, fields).Ok? <==> Clean(msg)
    ensures UnpackFrom(msg, fields) == Diverges <==> HasZero(msg)
    ensures forall why :: why in [StructError, IndexError, BadPackage] ==> (UnpackFrom(msg, fields) == why <==> FailsWith(msg, why))
    decreases |msg|
  {
    hide Take, ZeroEntry, Insert;
    if msg != [] {
      var t := Take(msg);
      ZeroTaken(msg);
      if t.Part? {
        if t.isDict {
          UnpackEnds(t.data, []);
        }
        if t.size > 0 {
          var item := ItemOf(t).1;
          UnpackEnds(msg[t.size..], Insert(fields, Entry(t.key, item)));
        }
      }
    }
  }

  /** So no message that starts with a plain entry of size 0 is ever unpacked. */
  lemma {:induction false} SizeZeroDiverges(msg: seq<byte>, fields: seq<Field>)
    requires ZeroEntry(msg) && msg[0] == 0
    ensures UnpackFrom(msg, fields) == Diverges
  {
    hide FromBigEndian;
    ZeroTaken(msg);
    FourBytes(msg[0..4]);
    UnpackEnds(msg, fields);
  }

  // --------------------------------------------------------------- the two loops

  /** What the loop of pack has still to write. */
  function Remaining(fields: seq<Field>, i: nat, j: nat): seq<Entry>
    requires i <= |fields| && (i < |fields| ==> j <= |EntriesOf(fields[i])|)
  {
    if i == |fields| then [] else EntriesOf(fields[i])[j..] + Entries(fields[i + 1..])
  }

  lemma {:induction false} RemainingFrom(fields: seq<Field>, i: nat)
    requires i <= |fields|
    ensures Remaining(fields, i, 0) == Entries(fields[i..])
    ensures i < |fields| ==> Remaining(fields, i, |EntriesOf(fields[i])|) == Entries(fields[i + 1..])
  {
    if i < |fields| {
      assert fields[i..][0] == fields[i] && fields[i..][1..] == fields[i + 1..];
      assert EntriesOf(fields[i])[0..] == EntriesOf(fields[i]);
      assert [] + Entries(fields[i + 1..]) == Entries(fields[i + 1..]);
    }
  }

  /** Taking the next entry off what is left. */
  lemma {:induction false} RemainingNext(fields: seq<Field>, i: nat, j: nat)
    requires i < |fields| && j < |EntriesOf(fields[i])|
    ensures Remaining(fields, i, j) == [EntriesOf(fields[i])[j]] + Remaining(fields, i, j + 1)
  {
    hide EntriesOf, Entries;
    TakeFirst(EntriesOf(fields[i]), j, Entries(fields[i + 1..]));
  }

  lemma {:induction false} TakeFirst(es: seq<Entry>, j: nat, more: seq<Entry>)
    requires j < |es|
    ensures es[j..] + more == [es[j]] + (es[j + 1..] + more)
  {
  }

  lemma {:induction false} FieldSize(f: Field)
    ensures |EntriesOf(f)| == if f.value.List? then |f.value.items| else 1
  {
  }

  lemma {:induction false} EntryOfField(f: Field, j: nat)
    requires j < |EntriesOf(f)|
    ensures EntriesOf(f)[j] == Entry(f.key, if f.value.List? then f.value.items[j] else f.value.item)
  {
  }

  lemma {:induction false} WriteNext(res: seq<byte>, e: Entry, rest: seq<Entry>)
    ensures Then(Some(res), PackEntries([e] + rest)) ==
            if PackEntry(e) == None then None else Then(Some(res + PackEntry(e).value), PackEntries(rest))
  {
    assert ([e] + rest)[1..] == rest;
    ThenRegroups(Some(res), PackEntry(e), PackEntries(rest));
  }

  /** Packs one item under a key. */
  method PackItem(key: seq<byte>, item: Item) returns (r: Option<seq<byte>>)
    ensures r == PackEntry(Entry(key, item))
    decreases item, 2
  {
    match item {
      case Text(s) => r := Frame(key, s, false);
      case Dict(inner) =>
        var data := PackMessage(inner);
        r := if data == None then None else Frame(key, data.value, true);
    }
  }

  /** Before the loop nothing is written, and after it nothing is left. */
  lemma {:induction false} LoopEnds(fields: seq<Field>, res: seq<byte>)
    ensures Pack(fields) == Then(Some([]), PackEntries(Remaining(fields, 0, 0)))
    ensures Then(Some(res), PackEntries(Remaining(fields, |fields|, 0))) == Some(res)
  {
    PackIs(fields);
    RemainingFrom(fields, 0);
    assert fields[0..] == fields;
    assert Pack(fields) != None ==> [] + Pack(fields).value == Pack(fields).value;
    ThenRegroups(Some(res), None, None);
  }

  /** Packs a dictionary; no result stands for the exception raised on a length that does not fit. */
  method PackMessage(fields: seq<Field>) returns (r: Option<seq<byte>>)
    ensures r == Pack(fields)
    decreases fields, 0
  {
    hide Pack, PackEntries, PackEntry, Entries, EntriesOf, Then, Remaining;
    var res: seq<byte>, i, j := [], 0, 0;
    LoopEnds(fields, []);
    while i < |fields|
      invariant i <= |fields| && (i < |fields| ==> j <= |EntriesOf(fields[i])|)
      invariant i < |fields| && fields[i].value.One? ==> j == 0
      invariant i == |fields| ==> j == 0
      invariant Pack(fields) == Then(Some(res), PackEntries(Remaining(fields, i, j)))
      decreases |fields| - i, if i < |fields| then |EntriesOf(fields[i])| - j else 0
    {
      var key, value := fields[i].key, fields[i].value;
      FieldSize(fields[i]);
      RemainingFrom(fields, i);
      RemainingFrom(fields, i + 1);
      if value.List? && j >= |value.items| {
        i, j := i + 1, 0;
        continue;
      }
      RemainingNext(fields, i, j);
      EntryOfField(fields[i], j);
      var item := if value.List? then value.items[j] else value.item;
      WriteNext(res, Entry(key, item), Remaining(fields, i, j + 1));
      if value.List? {
        j := j + 1;
      } else {
        i := i + 1;
      }
      var part := PackItem(key, item);
      if part == None {
        return None;
      }
      res := res + part.value;
    }
    LoopEnds(fields, res);
    r := Some(res);
  }

  /** Unpacks a message; where the source would never return, the result says so. */
  method UnpackMessage(message: seq<byte>) returns (r: Outcome)
    ensures r == Unpack(message)
    decreases |message|
  {
    var msg, res := message, [];
    while msg != []
      invariant |msg| <= |message| && UnpackFrom(msg, res) == Unpack(message)
      decreases |msg|
    {
      var t := Take(msg);
      if t.Bad? {
        return t.why;
      }
      var item := Text(t.data);
      if t.isDict {
        var inner := UnpackMessage(t.data);
        if !inner.Ok? {
          return inner;
        }
        item := Dict(inner.fields);
      }
      if t.size == 0 {
        return Diverges;
      }
      res := Insert(res, Entry(t.key, item));
      msg := msg[t.size..];
    }
    r := Ok(res);
  }
}
