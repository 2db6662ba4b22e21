/** Java's primitive value types as the three components use them. */
module Bytes {

  /** An octet as stored in a Java byte[]: the unsigned view 0..255 of a Java byte. */
  type byte = b: int | 0 <= b < 256

  /** A UTF-16 code unit, the element type of a Java String (String.charAt). */
  type CodeUnit = c: int | 0 <= c < 0x1_0000

  /** A Java String: a sequence of UTF-16 code units, at most Integer.MAX_VALUE long. */
  type JavaString = s: seq<CodeUnit> | |s| <= 0x7FFF_FFFF

  /** A Java int. */
  type Int32 = x: int | -0x8000_0000 <= x < 0x8000_0000

  /** The value Java gives a byte when it is read as a (signed) number. */
  function Signed(b: byte): (v: int)
    ensures -128 <= v < 128
    ensures v % 256 == b
    ensures v >= 0 <==> b < 128
  {
    if b < 128 then b else b - 256
  }

  /** A narrowing cast `(byte) x` of a Java int: keeps the low eight bits. */
  function ToByte(x: int): (b: byte)
    ensures 0 <= x < 256 ==> b == x
    ensures (x - b) % 256 == 0
  {
    x % 256
  }

  /** `x >> 8` on a Java int: an arithmetic shift, that is, floor division by 256. */
  function ShiftRight8(x: Int32): (y: Int32)
    ensures y * 256 <= x < y * 256 + 256
  {
    x / 256
  }

  /** The two bytes `(byte)(x >> 8)` and `(byte)x` hold the low sixteen bits of `x`, in network order. */
  lemma LowSixteenBits(x: Int32)
    ensures ToByte(ShiftRight8(x)) * 256 + ToByte(x) == x % 65536
  {
    var q := ShiftRight8(x);
    var lo := x - q * 256;
    assert ToByte(x) == lo;
    var k := (q - ToByte(q)) / 256;
    assert q == k * 256 + ToByte(q);
    assert x == k * 65536 + (ToByte(q) * 256 + lo);
    assert 0 <= ToByte(q) * 256 + lo < 65536;
  }

  /** The sequence `d` with `b` written over it from index `off` on (System.arraycopy into d). */
  function Overwrite(d: seq<byte>, off: nat, b: seq<byte>): (r: seq<byte>)
    requires off + |b| <= |d|
    ensures |r| == |d|
    ensures r[off..off + |b|] == b
    ensures r[..off] == d[..off] && r[off + |b|..] == d[off + |b|..]
  {
    d[..off] + b + d[off + |b|..]
  }

  /** Two adjacent writes are one write of both parts. */
  lemma OverwriteTwice(d: seq<byte>, off: nat, p: seq<byte>, q: seq<byte>)
    requires off + |p| + |q| <= |d|
    ensures Overwrite(Overwrite(d, off, p), off + |p|, q) == Overwrite(d, off, p + q)
  {
    assert d[..off] + p + d[off + |p|..][..off + |p| - off - |p|] == d[..off] + p;
    assert (d[..off] + p + d[off + |p|..])[off + |p| + |q|..] == d[off + |p| + |q|..];
  }

  /** The int a Java `int` expression yields: the mathematical value wrapped into 32 bits. */
  function ToInt32(x: int): (y: Int32)
    ensures (x - y) % 0x1_0000_0000 == 0
    ensures -0x8000_0000 <= x < 0x8000_0000 ==> y == x
  {
    var m := x % 0x1_0000_0000;
    if m >= 0x8000_0000 then m - 0x1_0000_0000 else m
  }

  /** `(byte) str.charAt(i)` for each code unit of a Java String, in order. */
  function Truncated(s: seq<CodeUnit>): (b: seq<byte>)
    ensures |b| == |s| && forall i :: 0 <= i < |s| ==> b[i] == ToByte(s[i])
  {
    if s == [] then [] else [ToByte(s[0])] + Truncated(s[1..])
  }
}

/** An optional value, for Java references that may be null. */
module Options {
  datatype Option<+T> = None | Some(value: T)
}
