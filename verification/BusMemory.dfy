/**
 * Guest memory is what the DMA bus makes of the devices on it: seen through a bus whose devices are
 * all different, it is one flat map of bytes, and bulk accesses are plain reads and writes of it.
 */
module BusMemory {
  import opened Bytes
  import opened GuestMemory
  import opened MemoryBus

  /** No device is mapped twice; a second mapping would show every write at a second address. */
  ghost predicate Unshared(devices: seq<Entry>) {
    forall i, j | 0 <= i < j < |devices| :: devices[i].device.id != devices[j].device.id
  }

  /** The bytes of the devices, by address. */
  function Flat(devices: seq<Entry>, store: Store): Memory
    requires Backed(devices, store)
  {
    map a: nat | a < TWO_64 && Route(devices, ByteAt(a)).ToDevice? :: MemoryBus.ReadByte(devices, store, a)
  }

  /** A bulk read over the bus is a read of the flat memory; addresses without a device read as ones. */
  lemma BulkReadIsFlatRead(devices: seq<Entry>, store: Store, a: nat, n: nat)
    requires Backed(devices, store) && a + n <= TWO_64
    ensures ReadBytes(devices, store, a, n) == Read(Flat(devices, store), a, n)
  {
    var m := Flat(devices, store);
    assert forall x: nat | x < TWO_64 :: GuestMemory.ReadByte(m, x) == MemoryBus.ReadByte(devices, store, x);
  }

  lemma SameDeviceSameEntry(devices: seq<Entry>, d: Entry, e: Entry)
    requires Unshared(devices) && d in devices && e in devices && d.device.id == e.device.id
    ensures d == e
  {
  }

  /** A one-byte write shows at its own address and nowhere else. */
  lemma {:induction false} ByteWriteShowsOnce(devices: seq<Entry>, store: Store, a: nat, v: Byte, x: nat)
    requires Backed(devices, store) && Unshared(devices)
    requires Route(devices, ByteAt(x)).ToDevice?
    ensures MemoryBus.ReadByte(devices, WriteByte(devices, store, a, v), x) ==
      if x == a then v else MemoryBus.ReadByte(devices, store, x)
  {
    var e := Route(devices, ByteAt(x)).entry;
    RouteTargetIsAnEntry(devices, ByteAt(x));
    RouteTargetIsAnEntry(devices, ByteAt(a));
    match Route(devices, ByteAt(a))
    case ToDevice(d) =>
      if d.device.id == e.device.id { SameDeviceSameEntry(devices, d, e); }
    case _ =>
  }

  lemma ByteWriteIsFlatWrite(devices: seq<Entry>, store: Store, a: nat, v: Byte)
    requires Backed(devices, store) && Unshared(devices)
    ensures Flat(devices, WriteByte(devices, store, a, v)) == Write(Flat(devices, store), a, [v])
  {
    var before, after := Flat(devices, store), Flat(devices, WriteByte(devices, store, a, v));
    forall x | x in before ensures after[x] == Write(before, a, [v])[x] {
      ByteWriteShowsOnce(devices, store, a, v, x);
    }
  }

  lemma OneByteMore(m: Memory, a: nat, data: seq<Byte>, n: nat)
    requires 0 < n <= |data|
    ensures Write(Write(m, a, data[..n - 1]), a + n - 1, [data[n - 1]]) == Write(m, a, data[..n])
  {
  }

  /** A bulk write over the bus is a write to the flat memory. */
  lemma {:induction false} BulkWriteIsFlatWrite(devices: seq<Entry>, store: Store, a: nat, data: seq<Byte>, n: nat)
    requires Backed(devices, store) && Unshared(devices) && n <= |data|
    ensures Flat(devices, WriteBytes(devices, store, a, data, n)) == Write(Flat(devices, store), a, data[..n])
  {
    if n > 0 {
      BulkWriteIsFlatWrite(devices, store, a, data, n - 1);
      ByteWriteIsFlatWrite(devices, WriteBytes(devices, store, a, data, n - 1), a + n - 1, data[n - 1]);
      OneByteMore(Flat(devices, store), a, data, n);
    }
  }
}
