/** Bytes and their network-order reading. */
module Bytes {

  type byte = x: int | 0 <= x < 0x100
  type u64 = x: int | 0 <= x < 0x1_0000_0000_0000_0000

  /** A growable byte vector, as the backends extend it in place. */
  class ByteVec {
    var data: seq<byte>

    constructor ()
      ensures data == []
    {
      data := [];
    }

    method Push(b: byte)
      modifies this
      ensures data == old(data) + [b]
    {
      data := data + [b];
    }

    method Extend(more: seq<byte>)
      modifies this
      ensures data == old(data) + more
    {
      data := data + more;
    }
  }

  /** `x >> 8 * n` */
  function Shr(x: nat, n: nat): nat {
    if n == 0 then x else Shr(x / 0x100, n - 1)
  }

  /** `(x >> 8 * n) as u8` */
  function Byte(x: nat, n: nat): byte {
    Shr(x, n) % 0x100
  }

  /** The last n bytes of x in network byte order. */
  function BigEndian(x: nat, n: nat): (s: seq<byte>)
    ensures |s| == n && forall i :: 0 <= i < n ==> s[i] == Byte(x, n - 1 - i)
  {
    seq(n, i requires 0 <= i < n => Byte(x, n - 1 - i))
  }

  /** The number a byte string denotes in network byte order. */
  function Value(s: seq<byte>): nat {
    if s == [] then 0 else 0x100 * Value(s[..|s| - 1]) + s[|s| - 1]
  }

  function Pow256(n: nat): (p: nat)
    ensures p >= 1
  {
    if n == 0 then 1 else 0x100 * Pow256(n - 1)
  }

  lemma BigEndianSnoc(x: nat, n: nat)
    ensures BigEndian(x, n + 1) == BigEndian(x / 0x100, n) + [x % 0x100]
  {
  }

  lemma BigEndianCons(x: nat, n: nat)
    ensures BigEndian(x, n + 1) == [Byte(x, n)] + BigEndian(x, n)
  {
  }

  lemma ValueSnoc(s: seq<byte>, b: byte)
    ensures Value(s + [b]) == 0x100 * Value(s) + b
  {
    assert (s + [b])[..|s|] == s;
  }

  lemma ValueSingle(b: byte)
    ensures Value([b]) == b
  {
    ValueSnoc([], b);
    assert [] + [b] == [b];
  }

  lemma {:induction false} ValueOfBigEndian(x: nat, n: nat)
    requires x < Pow256(n)
    ensures Value(BigEndian(x, n)) == x
  {
    if n > 0 {
      ValueOfBigEndian(x / 0x100, n - 1);
      BigEndianSnoc(x, n - 1);
      ValueSnoc(BigEndian(x / 0x100, n - 1), x % 0x100);
    }
  }

  lemma {:induction false} BigEndianOfValue(s: seq<byte>)
    ensures BigEndian(Value(s), |s|) == s
  {
    if s != [] {
      var n := |s| - 1;
      BigEndianOfValue(s[..n]);
      BigEndianSnoc(Value(s), n);
      assert Value(s) / 0x100 == Value(s[..n]);
      assert s == s[..n] + [s[n]];
    }
  }

  lemma {:induction false} ValueBound(s: seq<byte>)
    ensures Value(s) < Pow256(|s|)
  {
    if s != [] { ValueBound(s[..|s| - 1]); }
  }

  lemma {:induction false} ValueCons(b: byte, s: seq<byte>)
    ensures Value([b] + s) == Pow256(|s|) * b + Value(s)
  {
    if s == [] {
      ValueSingle(b);
      assert [b] + s == [b];
    } else {
      var n := |s| - 1;
      ValueCons(b, s[..n]);
      ValueSnoc([b] + s[..n], s[n]);
      assert [b] + s == [b] + s[..n] + [s[n]];
      assert 0x100 * (Pow256(n) * b) == Pow256(n + 1) * b;
    }
  }

  /** Pow256(n + 1) * c, one byte at a time. */
  lemma PowStep(n: nat, c: nat)
    ensures Pow256(n + 1) * c == 0x100 * (Pow256(n) * c)
  {
    var p := Pow256(n);
    assert (0x100 * p) * c == 0x100 * (p * c);
  }

  lemma ShiftStep(d: nat, u: nat)
    ensures (0x100 * d + u) / 0x100 == d + u / 0x100 && (0x100 * d + u) % 0x100 == u % 0x100
  {
  }

  lemma ShrStep(d: nat, u: nat, n: nat)
    requires n > 0
    ensures Shr(0x100 * d + u, n) == Shr(d + u / 0x100, n - 1)
    ensures Shr(u, n) == Shr(u / 0x100, n - 1)
  {
    ShiftStep(d, u);
  }

  /** Shifting n bytes out of Pow256(n) * c + u. */
  lemma {:induction false} ShrSum(c: nat, u: nat, n: nat)
    ensures Shr(Pow256(n) * c + u, n) == c + Shr(u, n)
  {
    if n > 0 {
      hide Pow256, Shr;
      PowStep(n - 1, c);
      ShrStep(Pow256(n - 1) * c, u, n);
      ShrSum(c, u / 0x100, n - 1);
    }
  }

  lemma {:induction false} ShrBound(u: nat, k: nat, n: nat)
    requires u < Pow256(n) * k
    ensures Shr(u, n) < k
  {
    if n == 0 {
      assert Pow256(0) * k == k;
    } else {
      PowStep(n - 1, k);
      ShrBound(u / 0x100, k, n - 1);
    }
  }

  lemma LowBytesStep(d: nat, u: nat, n: nat)
    requires BigEndian(d + u / 0x100, n) == BigEndian(u / 0x100, n)
    ensures BigEndian(0x100 * d + u, n + 1) == BigEndian(u, n + 1)
  {
    hide BigEndian;
    ShiftStep(d, u);
    BigEndianSnoc(0x100 * d + u, n);
    BigEndianSnoc(u, n);
  }

  /** What lies above n bytes does not show in them. */
  lemma {:induction false} LowBytes(c: nat, u: nat, n: nat)
    ensures BigEndian(Pow256(n) * c + u, n) == BigEndian(u, n)
  {
    if n > 0 {
      hide Pow256, BigEndian, Byte;
      PowStep(n - 1, c);
      LowBytes(c, u / 0x100, n - 1);
      LowBytesStep(Pow256(n - 1) * c, u, n - 1);
    }
  }
}

/** The variable-length integers of section 16 of RFC 9000, as both Rust backends write them and
    as the quinn backend reads them. */
module Varint {
  import opened Lists
  import opened Bytes

  const TWO62: nat := 0x4000_0000_0000_0000

  /** The four encoded lengths; the two most significant bits of the first byte select one. */
  function Length(code: nat): (n: nat)
    requires code < 4
    ensures n >= 1
  {
    if code == 0 then 1 else if code == 1 then 2 else if code == 2 then 4 else 8
  }

  /** How many values an encoding selected by `code` can carry: two bits go to the selector. */
  function Capacity(code: nat): nat
    requires code < 4
  {
    if code == 0 then 0x40 else if code == 1 then 0x4000 else if code == 2 then 0x4000_0000 else TWO62
  }

  /** The smallest selector whose capacity holds v; the largest one when none does. */
  function Code(v: u64): (c: nat)
    ensures c < 4 && (v < Capacity(c) || c == 3)
    ensures forall d: nat :: d < c ==> v >= Capacity(d)
  {
    if v < 0x40 then 0 else if v < 0x4000 then 1 else if v < 0x4000_0000 then 2 else 3
  }

  /** Reference encoding: the selector above the value, in network byte order. A value of 2^62 or
      more does not fit; its two top bits are overwritten by the selector. */
  function Encode(v: u64): (s: seq<byte>)
    ensures |s| == Length(Code(v))
  {
    var c := Code(v);
    BigEndian(c * Capacity(c) + v % Capacity(c), Length(c))
  }

  /** Reference decoding of the integer at the front of s, with its encoded length. */
  function Decode(s: seq<byte>): (r: Option<(nat, nat)>)
    ensures r.Some? ==> 1 <= r.value.1 <= |s|
  {
    if s == [] then None
    else
      var n := Length(s[0] / 0x40);
      if |s| < n then None else Some((Value([s[0] % 0x40] + s[1..n]), n))
  }

  /** `b | tag` for a tag that occupies the two top bits. */
  function Or40(b: byte): byte { if b / 0x40 % 2 == 1 then b else b + 0x40 }
  function Or80(b: byte): byte { if b >= 0x80 then b else b + 0x80 }
  function OrC0(b: byte): byte { b % 0x40 + 0xc0 }

  method WriteVarint(value: u64, out: ByteVec)
    modifies out
    ensures out.data == old(out.data) + Encode(value)
  {
    ghost var before := out.data;
    Spelled(value);
    if value < 0x40 {
      out.Push(Byte(value, 0));
    } else if value < 0x4000 {
      out.Push(Or40(Byte(value, 1)));
      out.Push(Byte(value, 0));
    } else if value < 0x4000_0000 {
      out.Push(Or80(Byte(value, 3)));
      out.Push(Byte(value, 2));
      out.Push(Byte(value, 1));
      out.Push(Byte(value, 0));
    } else {
      out.Push(OrC0(Byte(value, 7)));
      out.Push(Byte(value, 6));
      out.Push(Byte(value, 5));
      out.Push(Byte(value, 4));
      out.Push(Byte(value, 3));
      out.Push(Byte(value, 2));
      out.Push(Byte(value, 1));
      out.Push(Byte(value, 0));
    }
    assert out.data == before + Encode(value);
  }

  /** The encoding byte by byte. */
  lemma Spelled(v: u64)
    ensures v < 0x40 ==> Encode(v) == [Byte(v, 0)]
    ensures 0x40 <= v < 0x4000 ==> Encode(v) == [Or40(Byte(v, 1)), Byte(v, 0)]
    ensures 0x4000 <= v < 0x4000_0000 ==>
      Encode(v) == [Or80(Byte(v, 3)), Byte(v, 2), Byte(v, 1), Byte(v, 0)]
    ensures v >= 0x4000_0000 ==>
      Encode(v) == [OrC0(Byte(v, 7)), Byte(v, 6), Byte(v, 5), Byte(v, 4), Byte(v, 3), Byte(v, 2), Byte(v, 1),
                    Byte(v, 0)]
  {
    hide Shr, Encode;
    Leading(v);
    var n := Length(Code(v)) - 1;
    assert BigEndian(v, 1) == [Byte(v, 0)];
    assert BigEndian(v, 3) == [Byte(v, 2), Byte(v, 1), Byte(v, 0)];
    assert BigEndian(v, 7) == [Byte(v, 6), Byte(v, 5), Byte(v, 4), Byte(v, 3), Byte(v, 2), Byte(v, 1), Byte(v, 0)];
    assert Byte(v, n) % 0x40 == Shr(v, n) % 0x40;
  }

  method ReadVarint(bytes: seq<byte>) returns (r: Option<(nat, nat)>)
    ensures r == Decode(bytes)
  {
    hide Value;
    if |bytes| == 0 { return None; }
    var first := bytes[0];
    var len := match first / 0x40 case 0 => 1 case 1 => 2 case 2 => 4 case _ => 8;
    if |bytes| < len { return None; }
    ghost var head: seq<byte> := [first % 0x40];
    var value: nat := first % 0x40;
    ValueSingle(first % 0x40);
    assert head + bytes[1..1] == head;
    for i := 1 to len
      invariant value == Value(head + bytes[1..i])
    {
      value := value * 0x100 + bytes[i];
      ValueSnoc(head + bytes[1..i], bytes[i]);
      assert head + bytes[1..i + 1] == head + bytes[1..i] + [bytes[i]];
    }
    return Some((value, len));
  }

  lemma Capacities(c: nat)
    requires c < 4
    ensures Capacity(c) == Pow256(Length(c) - 1) * 0x40 <= Pow256(Length(c))
  {
    assert Pow256(1) == 0x100 && Pow256(3) == 0x100_0000 && Pow256(7) == 0x100_0000_0000_0000;
  }

  /** An encoding is its selector on top of the payload bits, whatever the payload. */
  lemma EncodingShape(c: nat, u: nat)
    requires c < 4 && u < Capacity(c)
    ensures var n := Length(c) - 1;
            Shr(u, n) < 0x40 &&
            BigEndian(c * Capacity(c) + u, n + 1) == [0x40 * c + Shr(u, n)] + BigEndian(u, n)
  {
    var n := Length(c) - 1;
    var d := Pow256(n);
    Capacities(c);
    ShrBound(u, 0x40, n);
    assert c * (d * 0x40) == d * (0x40 * c);
    ShrSum(0x40 * c, u, n);
    BigEndianCons(d * (0x40 * c) + u, n);
    LowBytes(0x40 * c, u, n);
  }

  lemma SplitAbove(v: nat, d: nat, q: nat, u: nat)
    requires d > 0 && q == v / (d * 0x40) && u == v % (d * 0x40)
    ensures v == d * (0x40 * q) + u
  {
    assert v == (d * 0x40) * q + u;
    assert (d * 0x40) * q == d * (0x40 * q);
  }

  /** The first byte takes the selector; all the others are bytes of the value itself. */
  lemma Leading(v: u64)
    ensures var c := Code(v); var n := Length(c) - 1;
            && Encode(v) == [0x40 * c + Shr(v, n) % 0x40] + BigEndian(v, n)
            && (c < 3 ==> Shr(v, n) < 0x40)
  {
    hide Shr, BigEndian, Pow256;
    var c := Code(v);
    var n := Length(c) - 1;
    var q, u := v / Capacity(c), v % Capacity(c);
    Capacities(c);
    EncodingShape(c, u);
    SplitAbove(v, Pow256(n), q, u);
    Above(v, q, u, n);
    if c < 3 { ShrBound(v, 0x40, n); }
  }

  /** What lies above n bytes and six bits shows neither in the bytes nor in the six bits. */
  lemma Above(v: nat, q: nat, u: nat, n: nat)
    requires v == Pow256(n) * (0x40 * q) + u
    ensures Shr(v, n) % 0x40 == Shr(u, n) % 0x40 && BigEndian(v, n) == BigEndian(u, n)
  {
    hide Shr, BigEndian, Pow256;
    ShrSum(0x40 * q, u, n);
    LowBytes(0x40 * q, u, n);
  }

  /** Decoding what was written, with anything after it, gives the value modulo 2^62 and the exact
      encoded length. */
  lemma DecodeEncode(v: u64, rest: seq<byte>)
    ensures Decode(Encode(v) + rest) == Some((v % TWO62, |Encode(v)|))
  {
    var c := Code(v);
    var u := v % Capacity(c);
    var n := Length(c) - 1;
    assert u == v % TWO62;
    EncodingShape(c, u);
    var s := Encode(v) + rest;
    var top := Shr(u, n);
    assert s[0] == 0x40 * c + top && s[0] / 0x40 == c && s[0] % 0x40 == top;
    assert s[1..n + 1] == BigEndian(u, n);
    Capacities(c);
    BigEndianCons(u, n);
    assert top % 0x100 == top;
    ValueOfBigEndian(u, n + 1);
  }

  lemma ValueOfEight(a: byte, b: byte, c: byte, d: byte, e: byte, f: byte, g: byte, h: byte)
    ensures Value([a, b]) == 0x100 * a + b
    ensures Value([a, b, c, d]) == 0x100_0000 * a + 0x1_0000 * b + 0x100 * c + d
    ensures Value([a, b, c, d, e, f, g, h]) ==
            0x1_0000_0000 * Value([a, b, c, d]) + 0x100_0000 * e + 0x1_0000 * f + 0x100 * g + h
  {
    hide Value;
    ValueSingle(a);
    ValueSnoc([a], b);
    ValueSnoc([a, b], c);
    ValueSnoc([a, b, c], d);
    ValueSnoc([a, b, c, d], e);
    ValueSnoc([a, b, c, d, e], f);
    ValueSnoc([a, b, c, d, e, f], g);
    ValueSnoc([a, b, c, d, e, f, g], h);
    assert [a] + [b] == [a, b] && [a, b] + [c] == [a, b, c] && [a, b, c] + [d] == [a, b, c, d];
    assert [a, b, c, d] + [e] == [a, b, c, d, e] && [a, b, c, d, e] + [f] == [a, b, c, d, e, f];
    assert [a, b, c, d, e, f] + [g] == [a, b, c, d, e, f, g];
    assert [a, b, c, d, e, f, g] + [h] == [a, b, c, d, e, f, g, h];
  }

  /** A whole encoding, and its value written back where it is the shortest. */
  lemma Example(s: seq<byte>, first: byte, rest: seq<byte>, v: u64)
    requires s != [] && s == [s[0]] + rest && s[0] % 0x40 == first && |s| == Length(s[0] / 0x40)
    requires Value([first] + rest) == v < TWO62
    ensures Decode(s) == Some((v, |s|))
    ensures |s| == Length(Code(v)) ==> Encode(v) == s
  {
    hide Encode, Value;
    assert s[1..|s|] == rest && s[..|s|] == s;
    if |s| == Length(Code(v)) { MinimalIsCanonical(s); }
  }

  /** The four examples of section A.1 of RFC 9000, and its two-byte encoding of 37. */
  lemma EightByteExample()
    ensures Decode([0xc2, 0x19, 0x7c, 0x5e, 0xff, 0x14, 0xe8, 0x8c]) == Some((151288809941952652, 8))
    ensures Encode(151288809941952652) == [0xc2, 0x19, 0x7c, 0x5e, 0xff, 0x14, 0xe8, 0x8c]
  {
    hide Encode, Decode, Value;
    var s: seq<byte>, rest: seq<byte> :=
      [0xc2, 0x19, 0x7c, 0x5e, 0xff, 0x14, 0xe8, 0x8c], [0x19, 0x7c, 0x5e, 0xff, 0x14, 0xe8, 0x8c];
    ValueOfEight(0x02, 0x19, 0x7c, 0x5e, 0xff, 0x14, 0xe8, 0x8c);
    assert s == [s[0]] + rest && [0x02] + rest == [0x02, 0x19, 0x7c, 0x5e, 0xff, 0x14, 0xe8, 0x8c];
    Example(s, 0x02, rest, 151288809941952652);
  }

  lemma FourByteExample()
    ensures Decode([0x9d, 0x7f, 0x3e, 0x7d]) == Some((494878333, 4))
    ensures Encode(494878333) == [0x9d, 0x7f, 0x3e, 0x7d]
  {
    hide Encode, Decode, Value;
    var s: seq<byte>, rest: seq<byte> := [0x9d, 0x7f, 0x3e, 0x7d], [0x7f, 0x3e, 0x7d];
    ValueOfEight(0x1d, 0x7f, 0x3e, 0x7d, 0, 0, 0, 0);
    assert s == [s[0]] + rest && [0x1d] + rest == [0x1d, 0x7f, 0x3e, 0x7d];
    Example(s, 0x1d, rest, 494878333);
  }

  lemma ShortExamples()
    ensures Decode([0x7b, 0xbd]) == Some((15293, 2)) && Encode(15293) == [0x7b, 0xbd]
    ensures Decode([0x25]) == Some((37, 1)) && Encode(37) == [0x25]
    ensures Decode([0x40, 0x25]) == Some((37, 2))
  {
    hide Encode, Decode, Value;
    var one: seq<byte>, two: seq<byte>, long: seq<byte> := [0x25], [0x7b, 0xbd], [0x40, 0x25];
    ValueOfEight(0x3b, 0xbd, 0, 0, 0, 0, 0, 0);
    ValueOfEight(0x00, 0x25, 0, 0, 0, 0, 0, 0);
    ValueSingle(0x25);
    assert two == [two[0]] + [0xbd] && [0x3b] + [0xbd] == [0x3b, 0xbd];
    assert long == [long[0]] + [0x25] && [0x00] + [0x25] == [0x00, 0x25];
    assert one == [one[0]] + [] && [0x25] + [] == [0x25];
    Example(two, 0x3b, [0xbd], 15293);
    Example(long, 0x00, [0x25], 37);
    Example(one, 0x25, [], 37);
  }

  /** The codec round-trips exactly on the values that RFC 9000 gives an encoding. */
  lemma RoundTripExactly(v: u64, rest: seq<byte>)
    ensures Decode(Encode(v) + rest) == Some((v, |Encode(v)|)) <==> v < TWO62
  {
    hide Encode, Decode;
    DecodeEncode(v, rest);
  }

  /** A reader that has seen only part of an encoding waits for more. */
  lemma StrictPrefixUndecoded(v: u64, k: nat)
    requires k < |Encode(v)|
    ensures Decode(Encode(v)[..k]) == None
  {
    Leading(v);
    if k > 0 {
      assert Encode(v)[0] / 0x40 == Code(v);
    }
  }

  /** More input never changes a decoded integer. */
  lemma DecodeExtended(s: seq<byte>, t: seq<byte>)
    requires Decode(s).Some?
    ensures Decode(s + t) == Decode(s)
  {
    var n := Decode(s).value.1;
    assert (s + t)[1..n] == s[1..n];
  }

  /** Every decoded value fits in 62 bits, and no encoding of it, minimal or not, is shorter than
      the one that is written back. */
  lemma DecodedBound(s: seq<byte>)
    requires Decode(s).Some?
    ensures var (v, n) := Decode(s).value; v < TWO62 && |Encode(v)| <= n <= |s|
  {
    var c := s[0] / 0x40;
    var (v, n) := Decode(s).value;
    var d := Pow256(n - 1);
    ValueCons(s[0] % 0x40, s[1..n]);
    ValueBound(s[1..n]);
    Capacities(c);
    assert d * (s[0] % 0x40) <= d * 0x3f;
    assert v < Capacity(c);
  }

  /** Re-encoding a decoded integer preserves its value and never grows; it reproduces the very
      bytes read exactly when they were of the shortest length. */
  lemma Reencode(s: seq<byte>, rest: seq<byte>)
    requires Decode(s).Some?
    ensures var (v, n) := Decode(s).value;
            && v < TWO62 && |Encode(v)| <= n <= |s|
            && Decode(Encode(v) + rest) == Some((v, |Encode(v)|))
            && (Encode(v) == s[..n] <==> |Encode(v)| == n)
  {
    hide Encode, Decode;
    DecodedBound(s);
    var (v, n) := Decode(s).value;
    DecodeEncode(v, rest);
    if |Encode(v)| == n { MinimalIsCanonical(s); }
  }

  lemma MinimalIsCanonical(s: seq<byte>)
    requires Decode(s).Some? && Decode(s).value.0 < TWO62
    requires |Encode(Decode(s).value.0)| == Decode(s).value.1
    ensures Encode(Decode(s).value.0) == s[..Decode(s).value.1]
  {
    hide Value, Shr, Capacity, Encode, BigEndian;
    var (v, n) := Decode(s).value;
    var c := s[0] / 0x40;
    assert Code(v) == c;
    var t: seq<byte> := [s[0] % 0x40] + s[1..n];
    BigEndianOfValue(t);
    BigEndianCons(v, n - 1);
    Leading(v);
    assert t == [Byte(v, n - 1)] + BigEndian(v, n - 1);
    assert t[0] == Byte(v, n - 1) && t[1..] == BigEndian(v, n - 1);
    assert s[..n] == [s[0]] + s[1..n];
  }
}
