/** Bytes, bits and little-endian numbers. */
module Bytes {
  import opened Modular

  newtype Byte = b: int | 0 <= b < 256

  /** 64-bit addresses live below this bound. */
  const TWO_64: nat := 0x1_0000_0000_0000_0000

  const TWO_32: nat := 0x1_0000_0000

  /** `wrapping_add` of two 64-bit numbers. */
  function WrappingAdd(a: nat, b: nat): nat { (a + b) % TWO_64 }

  /** Bit `k` of a number. */
  function Bit(b: nat, k: nat): bool { if k == 0 then b % 2 == 1 else Bit(b / 2, k - 1) }

  /** Overwrite part of a sequence. */
  function Splice<T>(s: seq<T>, at: nat, part: seq<T>): (r: seq<T>)
    requires at + |part| <= |s|
    ensures |r| == |s|
  {
    s[..at] + part + s[at + |part|..]
  }

  /** One more than the largest number `n` bytes can hold. */
  function Power256(n: nat): (r: nat)
    ensures 0 < r
  {
    if n == 0 then 1 else 256 * Power256(n - 1)
  }

  function ToLe(v: nat, n: nat): (r: seq<Byte>)
    ensures |r| == n
  {
    if n == 0 then [] else [(v % 256) as Byte] + ToLe(v / 256, n - 1)
  }

  function FromLe(bytes: seq<Byte>): nat {
    if bytes == [] then 0 else bytes[0] as nat + 256 * FromLe(bytes[1..])
  }

  /** Numbers that fit survive the little-endian round trip. */
  lemma {:induction false} LeRoundTrip(v: nat, n: nat)
    requires v < Power256(n)
    ensures FromLe(ToLe(v, n)) == v
  {
    if n > 0 {
      assert v / 256 < Power256(n - 1);
      LeRoundTrip(v / 256, n - 1);
      assert ToLe(v, n)[1..] == ToLe(v / 256, n - 1);
    }
  }

  /** A number of `n` bytes is below `Power256(n)`. */
  lemma {:induction false} FromLeBound(bytes: seq<Byte>)
    ensures FromLe(bytes) < Power256(|bytes|)
  {
    if bytes != [] { FromLeBound(bytes[1..]); }
  }

  lemma {:induction false} LeBytesRoundTrip(bytes: seq<Byte>)
    ensures ToLe(FromLe(bytes), |bytes|) == bytes
  {
    if bytes != [] {
      LeBytesRoundTrip(bytes[1..]);
      assert FromLe(bytes) % 256 == bytes[0] as nat && FromLe(bytes) / 256 == FromLe(bytes[1..]);
      assert bytes == [bytes[0]] + bytes[1..];
    }
  }

  lemma DivideTwice(v: nat, c: nat)
    requires 0 < c
    ensures v / 256 / c == v / (256 * c)
  {
    var q, s, t := v / 256 / c, v / 256 % c, v % 256;
    assert v / 256 == q * c + s;
    assert q * (256 * c) == 256 * (q * c);
    Uniquely(v, 256 * c, q, 256 * s + t);
  }

  /** Byte `i` has the weight of the `i`-th power of 256: the first byte is the lowest. */
  lemma {:induction false} LowestByteFirst(v: nat, n: nat, i: nat)
    requires i < n
    ensures ToLe(v, n)[i] as nat == v / Power256(i) % 256
  {
    if i > 0 {
      LowestByteFirst(v / 256, n - 1, i - 1);
      DivideTwice(v, Power256(i - 1));
    }
  }

  lemma SmallPowers()
    ensures Power256(1) == 0x100 && Power256(3) == 0x100_0000 && Power256(4) == TWO_32 && Power256(8) == TWO_64
  {
    assert Power256(2) == 0x1_0000;
    assert Power256(5) == 256 * TWO_32;
    assert Power256(6) == 256 * 256 * TWO_32;
    assert Power256(7) == 256 * 256 * 256 * TWO_32;
  }
}
