/** Byte strings and the integers they stand for. */
module Bytes {

  type Byte = b: int | 0 <= b < 256

  /** A 16-bit word, as held by the length and count registers. */
  type Word = w: int | 0 <= w < 0x1_0000

  /** The number of values that n bytes can take. */
  function Radix(n: nat): (r: nat)
    ensures r > 0
  {
    if n == 0 then 1 else 256 * Radix(n - 1)
  }

  /** The big-endian value of a byte string: its first byte is the most significant. */
  function BigEndian(s: seq<Byte>): nat {
    if s == [] then 0 else 256 * BigEndian(s[..|s| - 1]) + s[|s| - 1]
  }

  /** The n low bytes of v, most significant first. */
  function ToBigEndian(v: nat, n: nat): (s: seq<Byte>)
    ensures |s| == n
  {
    if n == 0 then [] else ToBigEndian(v / 256, n - 1) + [v % 256]
  }

  function Reverse(s: seq<Byte>): (r: seq<Byte>)
    ensures |r| == |s|
  {
    seq(|s|, i requires 0 <= i < |s| => s[|s| - 1 - i])
  }

  /** The value of a byte string whose first byte is the least significant. */
  function LittleEndian(s: seq<Byte>): nat {
    BigEndian(Reverse(s))
  }

  function ToLittleEndian(v: nat, n: nat): (s: seq<Byte>)
    ensures |s| == n
  {
    Reverse(ToBigEndian(v, n))
  }

  lemma ReverseTwice(s: seq<Byte>)
    ensures Reverse(Reverse(s)) == s
  {}

  lemma {:induction false} BigEndianBound(s: seq<Byte>)
    ensures BigEndian(s) < Radix(|s|)
  {
    if s != [] { BigEndianBound(s[..|s| - 1]); }
  }

  /** Writing a number that fits in n bytes and reading it back. */
  lemma {:induction false} BigEndianRoundTrip(v: nat, n: nat)
    requires v < Radix(n)
    ensures BigEndian(ToBigEndian(v, n)) == v
  {
    if n > 0 {
      BigEndianRoundTrip(v / 256, n - 1);
      var s := ToBigEndian(v, n);
      assert s[..n - 1] == ToBigEndian(v / 256, n - 1);
    }
  }

  /** Reading a byte string and writing its value back. */
  lemma {:induction false} ToBigEndianRoundTrip(s: seq<Byte>)
    ensures ToBigEndian(BigEndian(s), |s|) == s
  {
    if s != [] {
      ToBigEndianRoundTrip(s[..|s| - 1]);
      assert s == s[..|s| - 1] + [s[|s| - 1]];
    }
  }

  lemma LittleEndianRoundTrip(v: nat, n: nat)
    requires v < Radix(n)
    ensures LittleEndian(ToLittleEndian(v, n)) == v
  {
    ReverseTwice(ToBigEndian(v, n));
    BigEndianRoundTrip(v, n);
  }

  /** The value of a concatenation. */
  lemma {:induction false} BigEndianConcat(a: seq<Byte>, b: seq<Byte>)
    ensures BigEndian(a + b) == BigEndian(a) * Radix(|b|) + BigEndian(b)
  {
    if b == [] {
      assert a + b == a;
    } else {
      var b' := b[..|b| - 1];
      BigEndianConcat(a, b');
      assert (a + b)[..|a + b| - 1] == a + b';
      assert BigEndian(a + b) == 256 * (BigEndian(a) * Radix(|b'|) + BigEndian(b')) + b[|b| - 1];
      assert 256 * (BigEndian(a) * Radix(|b'|)) == BigEndian(a) * Radix(|b|);
    }
  }

  lemma BigEndian2(s: seq<Byte>)
    requires |s| == 2
    ensures BigEndian(s) == 256 * (s[0] as int) + s[1]
  {
    assert s[..1][..0] == [];
    assert BigEndian(s[..1]) == s[0];
  }

  lemma Radix2()
    ensures Radix(2) == 0x1_0000
  {
    assert Radix(1) == 256;
  }
}
