// Bytes and the big-endian words every on-disk and on-wire structure is made of.
module Bytes {
  type byte = x: int | 0 <= x < 256

  const U16: nat := 0x1_0000
  const U31: nat := 0x8000_0000
  const U32: nat := 0x1_0000_0000
  const U64: nat := 0x1_0000_0000_0000_0000

  function Min(a: int, b: int): int {
    if a <= b then a else b
  }

  function Max(a: int, b: int): int {
    if a <= b then b else a
  }

  /** `n` as an unsigned 32-bit word. */
  function Wrap32(n: nat): (w: nat)
    ensures w == n % U32
  {
    if n < U32 then n else n % U32
  }

  /** 256 to the power `width`. */
  function Span(width: nat): (n: nat)
    ensures n >= 1
  {
    if width == 0 then 1 else 256 * Span(width - 1)
  }

  /** The low `width` bytes of `n` in network order; a larger `n` loses its high bytes, as a C cast does. */
  function BigEndian(n: nat, width: nat): (s: seq<byte>)
    ensures |s| == width
    decreases width, n
  {
    if width == 0 then [] else BigEndian(n / 256, width - 1) + [n % 256]
  }

  function FromBigEndian(s: seq<byte>): (n: nat)
    ensures n < Span(|s|)
  {
    if s == [] then 0 else FromBigEndian(s[..|s| - 1]) * 256 + s[|s| - 1] as int
  }

  lemma {:induction false} BigEndianRoundTrip(n: nat, width: nat)
    requires n < Span(width)
    ensures FromBigEndian(BigEndian(n, width)) == n
  {
    if width > 0 {
      BigEndianRoundTrip(n / 256, width - 1);
      LastByte(BigEndian(n / 256, width - 1), n % 256);
    }
  }

  lemma {:induction false} LastByte(s: seq<byte>, b: byte)
    ensures FromBigEndian(s + [b]) == FromBigEndian(s) * 256 + b as int
  {
    assert (s + [b])[..|s|] == s;
  }

  // Network order: the first byte of a word is its highest.

  lemma {:induction false} TwoBytes(s: seq<byte>)
    requires |s| == 2
    ensures FromBigEndian(s) == s[0] as int * 256 + s[1] as int
  {
    assert s == [s[0]] + [s[1]];
    LastByte([s[0]], s[1]);
    LastByte([], s[0]);
    assert [] + [s[0]] == [s[0]];
  }

  lemma {:induction false} FourBytes(s: seq<byte>)
    requires |s| == 4
    ensures FromBigEndian(s) == ((s[0] as int * 256 + s[1] as int) * 256 + s[2] as int) * 256 + s[3] as int
  {
    assert s == s[..2] + [s[2]] + [s[3]];
    TwoBytes(s[..2]);
    LastByte(s[..2], s[2]);
    LastByte(s[..2] + [s[2]], s[3]);
  }

  lemma {:induction false} EightBytes(s: seq<byte>)
    requires |s| == 8
    ensures FromBigEndian(s) == FromBigEndian(s[..4]) * U32 + FromBigEndian(s[4..])
  {
    hide FromBigEndian;
    JoinBytes(s[..4], s[4..]);
    assert s == s[..4] + s[4..];
    assert Span(4) == U32 by {
      Spans();
    }
  }

  lemma {:induction false} JoinBytes(a: seq<byte>, b: seq<byte>)
    ensures FromBigEndian(a + b) == FromBigEndian(a) * Span(|b|) + FromBigEndian(b)
  {
    if b == [] {
      assert a + b == a;
    } else {
      hide FromBigEndian;
      var n := |b| - 1;
      JoinBytes(a, b[..n]);
      assert a + b == (a + b[..n]) + [b[n]] && b == b[..n] + [b[n]];
      LastByte(a + b[..n], b[n]);
      LastByte(b[..n], b[n]);
      ShiftSum(FromBigEndian(a), Span(n), FromBigEndian(b[..n]), b[n] as int);
    }
  }

  lemma {:induction false} ShiftSum(x: nat, y: nat, z: nat, w: nat)
    ensures (x * y + z) * 256 + w == x * (256 * y) + (z * 256 + w)
  {
  }

  // A structure on disk is a list of words, each of its own width.

  function Total(widths: seq<nat>): nat {
    if widths == [] then 0 else widths[0] + Total(widths[1..])
  }

  function EncodeWords(words: seq<nat>, widths: seq<nat>): (s: seq<byte>)
    requires |words| == |widths|
    ensures |s| == Total(widths)
  {
    if words == [] then [] else BigEndian(words[0], widths[0]) + EncodeWords(words[1..], widths[1..])
  }

  function DecodeWords(s: seq<byte>, widths: seq<nat>): (words: seq<nat>)
    requires |s| == Total(widths)
    ensures |words| == |widths|
    ensures forall i :: 0 <= i < |words| ==> words[i] < Span(widths[i])
  {
    if widths == [] then []
    else [FromBigEndian(s[..widths[0]])] + DecodeWords(s[widths[0]..], widths[1..])
  }

  lemma {:induction false} WordsRoundTrip(words: seq<nat>, widths: seq<nat>)
    requires |words| == |widths|
    requires forall i :: 0 <= i < |words| ==> words[i] < Span(widths[i])
    ensures DecodeWords(EncodeWords(words, widths), widths) == words
  {
    if words != [] {
      var first, rest := BigEndian(words[0], widths[0]), EncodeWords(words[1..], widths[1..]);
      BigEndianRoundTrip(words[0], widths[0]);
      WordsRoundTrip(words[1..], widths[1..]);
      assert (first + rest)[..widths[0]] == first && (first + rest)[widths[0]..] == rest;
      assert words == [words[0]] + words[1..];
    }
  }

  /** Each word lies after those before it. */
  lemma {:induction false} WordAt(words: seq<nat>, widths: seq<nat>, k: nat)
    requires |words| == |widths| && k < |words|
    ensures Total(widths[..k]) + widths[k] <= Total(widths)
    ensures EncodeWords(words, widths)[Total(widths[..k])..Total(widths[..k]) + widths[k]] == BigEndian(words[k], widths[k])
  {
    hide BigEndian;
    var first, rest := BigEndian(words[0], widths[0]), EncodeWords(words[1..], widths[1..]);
    if k == 0 {
      assert widths[..0] == [];
      assert (first + rest)[..widths[0]] == first;
    } else {
      WordAt(words[1..], widths[1..], k - 1);
      assert widths[..k][1..] == widths[1..][..k - 1];
      var at := Total(widths[1..][..k - 1]);
      assert (first + rest)[widths[0] + at..widths[0] + at + widths[k]] == rest[at..at + widths[k]];
    }
  }

  lemma {:induction false} SliceOfRest<T>(s: seq<T>, n: nat, a: nat, b: nat)
    requires a <= b && n + b <= |s|
    ensures s[n..][a..b] == s[n + a..n + b]
  {
  }

  lemma {:induction false} DecodedAt(s: seq<byte>, widths: seq<nat>, k: nat)
    requires |s| == Total(widths) && k < |widths|
    ensures Total(widths[..k]) + widths[k] <= |s|
    ensures DecodeWords(s, widths)[k] == FromBigEndian(s[Total(widths[..k])..Total(widths[..k]) + widths[k]])
  {
    hide FromBigEndian;
    if k == 0 {
      assert widths[..0] == [];
    } else {
      DecodedAt(s[widths[0]..], widths[1..], k - 1);
      assert widths[..k][1..] == widths[1..][..k - 1];
      var at := Total(widths[1..][..k - 1]);
      SliceOfRest(s, widths[0], at, at + widths[k]);
    }
  }

  lemma {:induction false} Spans()
    ensures Span(2) == U16 && Span(4) == U32 && Span(8) == U64
  {
    assert Span(1) == 256;
    assert Span(3) == 256 * U16;
    assert Span(6) == U16 * U32;
  }

  /** Where the middle part of three lies in the whole; a shorter piece of it starts at the same place. */
  lemma {:induction false} MiddleSlice<T>(front: seq<T>, mid: seq<T>, rest: seq<T>, n: nat)
    requires n <= |mid|
    ensures (front + mid + rest)[|front|..|front| + n] == mid[..n]
  {
  }

  lemma {:induction false} Joins<T>(a: seq<T>, b: seq<T>, c: seq<T>)
    ensures (a + b) + c == a + (b + c)
  {
  }

  lemma {:induction false} Regroup<T>(a: seq<T>, b: seq<T>, c: seq<T>, d: seq<T>)
    ensures (a + b + c) + d == a + b + (c + d)
  {
  }

  lemma {:induction false} SliceOfPrefix<T>(front: seq<T>, whole: seq<T>, a: nat, b: nat)
    requires front <= whole
    requires a <= b <= |front|
    ensures whole[a..b] == front[a..b]
  {
  }

  /** What starts a prefix of `rec` starts `rec`, wherever the prefix lies. */
  lemma {:induction false} HeadOfTorn<T>(front: seq<T>, torn: seq<T>, rec: seq<T>, n: nat)
    requires torn <= rec
    requires n <= |torn|
    ensures (front + torn)[|front|..|front| + n] == rec[..n]
  {
  }
}
