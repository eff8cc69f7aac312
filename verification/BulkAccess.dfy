/**
 * Bulk accesses over devices of any kind: a device is whatever a one-byte access does to the state of the
 * machine, side effects included, and its bulk accesses are the default byte loops. A bulk access over the
 * bus then performs exactly the one-byte accesses of its addresses, in ascending order.
 */
module BulkAccess {
  import opened Bytes
  import opened Intervals
  import opened MemoryBus
  import opened Wrappers

  /** A one-byte access as a device sees it; without a device it goes to the default device. */
  datatype ByteAccess = ByteAccess(device: Option<nat>, offset: nat)

  /** What a byte read or a byte write does to machine state `S`. */
  type Reader<!S> = (S, ByteAccess) -> (S, Byte)
  type Writer<!S> = (S, ByteAccess, Byte) -> S

  /** Where a one-byte access to address `a` goes. */
  function AccessAt(devices: seq<Entry>, a: nat): ByteAccess {
    match Route(devices, ByteAt(a))
    case ToDevice(e) =>
      RouteTargetIsAnEntry(devices, ByteAt(a));
      ContainmentMeansAllAddresses(e.range, ByteAt(a));
      assert ByteAt(a).Has(a);
      ByteAccess(Some(e.device.id), a - e.range.start)
    case _ => ByteAccess(None, a)
  }

  /** The first `n` of the one-byte reads at `a`, `a + 1`, ...: the state they leave and the bytes they yield. */
  function Reads<S>(read: Reader<S>, devices: seq<Entry>, s: S, a: nat, n: nat): (r: (S, seq<Byte>))
    ensures |r.1| == n
  {
    if n == 0 then (s, [])
    else
      var (t, data) := Reads(read, devices, s, a, n - 1);
      var (u, b) := read(t, AccessAt(devices, a + n - 1));
      (u, data + [b])
  }

  function Writes<S>(write: Writer<S>, devices: seq<Entry>, s: S, a: nat, data: seq<Byte>, n: nat): S
    requires n <= |data|
  {
    if n == 0 then s
    else write(Writes(write, devices, s, a, data, n - 1), AccessAt(devices, a + n - 1), data[n - 1])
  }

  /** The `i`-th byte of a chunk is the access that its address stands for. */
  lemma ChunkAccess(devices: seq<Entry>, requestStart: nat, c: Chunk, i: nat)
    requires ChunkAgreesWithBytes(devices, requestStart, c) && i < c.to - c.from
    ensures AccessAt(devices, requestStart + c.from + i) ==
      ByteAccess(if c.entry.Some? then Some(c.entry.value.device.id) else None, c.deviceOffset + i)
  {
    assert Route(devices, ByteAt(requestStart + c.from + i)) == if c.entry.Some? then ToDevice(c.entry.value)
      else ToDefault;
  }

  /** Where the bytes of a chunk go. */
  function TargetOf(c: Chunk): Option<nat> { if c.entry.Some? then Some(c.entry.value.device.id) else None }

  /** The default bulk read of a device, one byte at a time, behind the bytes read so far. */
  method ReadChunk<S>(read: Reader<S>, bus: Bus, s: S, ghost start: S, offset: nat, c: Chunk, data: seq<Byte>)
    returns (t: S, more: seq<Byte>)
    requires bus.Valid() && ChunkAgreesWithBytes(bus.devices, offset, c)
    requires (s, data) == Reads(read, bus.devices, start, offset, c.from)
    ensures (t, more) == Reads(read, bus.devices, start, offset, c.to)
  {
    t, more := s, data;
    for i := 0 to c.to - c.from
      invariant (t, more) == Reads(read, bus.devices, start, offset, c.from + i)
    {
      ChunkAccess(bus.devices, offset, c, i);
      var (u, b) := read(t, ByteAccess(TargetOf(c), c.deviceOffset + i));
      t, more := u, more + [b];
    }
  }

  /** A bulk read over the bus: the same state and the same bytes as ascending one-byte reads. */
  method ReadBulk<S>(read: Reader<S>, bus: Bus, s: S, offset: nat, length: nat) returns (t: S, data: seq<Byte>)
    requires bus.Valid() && offset + length <= U64_MAX
    ensures (t, data) == Reads(read, bus.devices, s, offset, length)
  {
    var chunks := new BulkRequestIterator(bus.devices, bus.size, offset, length);
    t, data := s, [];
    var chunk := chunks.Next();
    while chunk.Some?
      invariant fresh(chunks) && chunks.Valid() && chunks.devices == bus.devices
      invariant chunks.requestStart == offset && chunks.requestEnd == offset + length
      invariant |data| <= length && (t, data) == Reads(read, bus.devices, s, offset, |data|)
      invariant chunk.Some? ==>
        && chunk.value.from == |data| && chunks.curOffset == offset + chunk.value.to
        && ChunkAgreesWithBytes(bus.devices, offset, chunk.value)
      invariant chunk.None? ==> |data| == length
      decreases length - |data|
    {
      t, data := ReadChunk(read, bus, t, s, offset, chunk.value, data);
      chunk := chunks.Next();
    }
  }

  /** The default bulk write of a device, one byte at a time. */
  method WriteChunk<S>(write: Writer<S>, bus: Bus, s: S, ghost start: S, offset: nat, c: Chunk, data: seq<Byte>)
    returns (t: S)
    requires bus.Valid() && ChunkAgreesWithBytes(bus.devices, offset, c) && c.to <= |data|
    requires s == Writes(write, bus.devices, start, offset, data, c.from)
    ensures t == Writes(write, bus.devices, start, offset, data, c.to)
  {
    t := s;
    for i := 0 to c.to - c.from
      invariant t == Writes(write, bus.devices, start, offset, data, c.from + i)
    {
      ChunkAccess(bus.devices, offset, c, i);
      t := write(t, ByteAccess(TargetOf(c), c.deviceOffset + i), data[c.from + i]);
    }
  }

  /** A bulk write over the bus: the same state as ascending one-byte writes. */
  method WriteBulk<S>(write: Writer<S>, bus: Bus, s: S, offset: nat, data: seq<Byte>) returns (t: S)
    requires bus.Valid() && offset + |data| <= U64_MAX
    ensures t == Writes(write, bus.devices, s, offset, data, |data|)
  {
    var chunks := new BulkRequestIterator(bus.devices, bus.size, offset, |data|);
    t := s;
    ghost var done := 0;
    var chunk := chunks.Next();
    while chunk.Some?
      invariant fresh(chunks) && chunks.Valid() && chunks.devices == bus.devices
      invariant chunks.requestStart == offset && chunks.requestEnd == offset + |data|
      invariant 0 <= done <= |data| && t == Writes(write, bus.devices, s, offset, data, done)
      invariant chunk.Some? ==>
        && chunk.value.from == done && chunks.curOffset == offset + chunk.value.to
        && ChunkAgreesWithBytes(bus.devices, offset, chunk.value)
      invariant chunk.None? ==> done == |data|
      decreases |data| - done
    {
      t := WriteChunk(write, bus, t, s, offset, chunk.value, data);
      done := chunk.value.to;
      chunk := chunks.Next();
    }
  }

  // ---------------------------------------------------------------------
  // Memory devices
  // ---------------------------------------------------------------------

  /** A store of bytes as a machine state: bytes that are there are overwritten, others read as ones. */
  function StoreRead(s: Store, a: ByteAccess): (Store, Byte) {
    if a.device.Some? && a.device.value in s && a.offset < |s[a.device.value]| then (s, s[a.device.value][a.offset])
    else (s, OPEN_BUS)
  }

  function StoreWrite(s: Store, a: ByteAccess, b: Byte): Store {
    if a.device.Some? && a.device.value in s && a.offset < |s[a.device.value]|
    then var content: seq<Byte> := s[a.device.value][a.offset := b]; s[a.device.value := content]
    else s
  }

  lemma AccessIsBacked(devices: seq<Entry>, s: Store, a: nat)
    requires Backed(devices, s)
    ensures StoreRead(s, AccessAt(devices, a)) == (s, ReadByte(devices, s, a))
    ensures forall b :: StoreWrite(s, AccessAt(devices, a), b) == WriteByte(devices, s, a, b)
  {
    match Route(devices, ByteAt(a))
    case ToDevice(e) =>
      RouteTargetIsAnEntry(devices, ByteAt(a));
      EntryIsBacked(devices, s, e);
    case _ =>
  }

  /** For memory devices this is what reading and writing the store byte by byte does. */
  lemma {:induction false} MemoryReads(devices: seq<Entry>, s: Store, a: nat, n: nat)
    requires Backed(devices, s)
    ensures Reads(StoreRead, devices, s, a, n) == (s, ReadBytes(devices, s, a, n))
  {
    if n > 0 {
      MemoryReads(devices, s, a, n - 1);
      AccessIsBacked(devices, s, a + n - 1);
      assert ReadBytes(devices, s, a, n) == ReadBytes(devices, s, a, n - 1) + [ReadByte(devices, s, a + n - 1)];
    }
  }

  lemma {:induction false} MemoryWrites(devices: seq<Entry>, s: Store, a: nat, data: seq<Byte>, n: nat)
    requires Backed(devices, s) && n <= |data|
    ensures Writes(StoreWrite, devices, s, a, data, n) == WriteBytes(devices, s, a, data, n)
  {
    if n > 0 {
      MemoryWrites(devices, s, a, data, n - 1);
      AccessIsBacked(devices, WriteBytes(devices, s, a, data, n - 1), a + n - 1);
    }
  }
}
