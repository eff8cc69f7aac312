/** Guest memory as the controller sees it over the DMA bus: one byte per mapped address. */
module GuestMemory {
  import opened Bytes

  /** Unmapped addresses are absent; they read as all ones and ignore writes. */
  type Memory = map<nat, Byte>

  function ReadByte(m: Memory, a: nat): Byte { if a in m then m[a] else 0xFF }

  function Read(m: Memory, a: nat, n: nat): (r: seq<Byte>)
    ensures |r| == n
  {
    seq<Byte>(n, i requires 0 <= i < n => ReadByte(m, a + i))
  }

  function Write(m: Memory, a: nat, bytes: seq<Byte>): (r: Memory)
    ensures r.Keys == m.Keys
  {
    map k | k in m :: if a <= k < a + |bytes| then bytes[k - a] else m[k]
  }

  ghost predicate Mapped(m: Memory, a: nat, n: nat) { forall k | a <= k < a + n :: k in m }

  predicate Apart(a: nat, n: nat, b: nat, m: nat) { a + n <= b || b + m <= a }

  /** What was written to mapped memory is what is read back. */
  lemma ReadBack(m: Memory, a: nat, bytes: seq<Byte>)
    requires Mapped(m, a, |bytes|)
    ensures Read(Write(m, a, bytes), a, |bytes|) == bytes
  {
    var after := Write(m, a, bytes);
    assert forall x | a <= x < a + |bytes| :: x in m && ReadByte(after, x) == bytes[x - a];
  }

  /** A write leaves every range it does not touch alone. */
  lemma ReadElsewhere(m: Memory, a: nat, bytes: seq<Byte>, b: nat, n: nat)
    requires Apart(a, |bytes|, b, n)
    ensures Read(Write(m, a, bytes), b, n) == Read(m, b, n)
  {
    var after := Write(m, a, bytes);
    assert forall x | b <= x < b + n :: ReadByte(after, x) == ReadByte(m, x);
  }

  function ReadNumber(m: Memory, a: nat, n: nat): nat { FromLe(Read(m, a, n)) }

  /** The memory object the controller shares with the guest. */
  class DmaMemory {
    var bytes: Memory

    constructor (bytes: Memory)
      ensures this.bytes == bytes
    {
      this.bytes := bytes;
    }
  }
}
