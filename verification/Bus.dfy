/** The memory bus: first-match routing over disjoint ranges and the bulk-request splitter. */
module MemoryBus {
  import opened Bytes
  import opened Intervals
  import opened Wrappers

  /** The largest 64-bit address; `checked_add` fails above it. */
  const U64_MAX: nat := 0xFFFF_FFFF_FFFF_FFFF

  /** What an unclaimed byte reads as. */
  const OPEN_BUS: Byte := 0xFF

  /** A device is known to the bus by its identity and size only. */
  datatype Device = Device(id: nat, size: nat)

  datatype Entry = Entry(range: Interval, device: Device)

  datatype AddError =
    | OverlapsExistingDevice(existing: Interval, added: Interval)
    | DeviceOutOfRange(busSize: nat, added: Interval)

  /** The bytes held by every device, by device identity. */
  type Store = map<nat, seq<Byte>>

  /** What the bus guarantees about its entry list: the ranges fit and never overlap. */
  predicate WellFormed(devices: seq<Entry>, size: nat) {
    && (forall i | 0 <= i < |devices| :: Placed(devices[i], size))
    && (forall i, j | 0 <= i < j < |devices| :: !devices[i].range.Overlaps(devices[j].range))
  }

  predicate Placed(e: Entry, size: nat) {
    e.range.start <= e.range.end <= size && e.range.end - e.range.start == e.device.size
  }

  /** Every device has as many bytes behind it as the range it claims. */
  predicate Backed(devices: seq<Entry>, store: Store) {
    forall i | 0 <= i < |devices| ::
      && devices[i].device.id in store
      && |store[devices[i].device.id]| == devices[i].device.size
      && devices[i].range.end <= devices[i].range.start + devices[i].device.size
  }

  // ---------------------------------------------------------------------
  // Routing
  // ---------------------------------------------------------------------

  datatype Target = ToDevice(entry: Entry) | ToErrorDevice | ToDefault

  /** The first entry, in insertion order, that claims any part of the request decides. */
  function Route(devices: seq<Entry>, request: Interval): Target {
    if devices == [] then ToDefault
    else if devices[0].range.ContainsInterval(request) then ToDevice(devices[0])
    else if devices[0].range.Overlaps(request) then ToErrorDevice
    else Route(devices[1..], request)
  }

  /** Routing described without an order: by who contains and who touches the request. */
  ghost predicate RoutedTo(devices: seq<Entry>, request: Interval, t: Target) {
    match t
    case ToDevice(e) => e in devices && e.range.ContainsInterval(request)
    case ToErrorDevice =>
      && (exists e :: e in devices && e.range.Overlaps(request))
      && (forall e :: e in devices ==> !e.range.ContainsInterval(request))
    case ToDefault => forall e :: e in devices ==> !e.range.Overlaps(request)
  }

  lemma ContainingMeansOverlapping(a: Interval, request: Interval)
    requires !request.IsEmpty() && a.ContainsInterval(request)
    ensures a.Overlaps(request)
  {
  }

  lemma ContainedMeetsEveryOverlap(a: Interval, b: Interval, request: Interval)
    requires !request.IsEmpty() && a.ContainsInterval(request) && b.Overlaps(request)
    ensures a.Overlaps(b) && b.Overlaps(a)
  {
  }

  lemma ApartFromAnOverlap(a: Interval, b: Interval, request: Interval)
    requires !request.IsEmpty() && a.Overlaps(request) && !a.Overlaps(b)
    ensures !b.ContainsInterval(request)
  {
  }

  lemma {:induction false} FirstMatchIsRoute(devices: seq<Entry>, size: nat, request: Interval)
    requires WellFormed(devices, size) && !request.IsEmpty()
    ensures RoutedTo(devices, request, Route(devices, request))
  {
    if devices != [] {
      var head, tail := devices[0], devices[1..];
      assert devices == [head] + tail;
      FirstMatchIsRoute(tail, size, request);
      if head.range.ContainsInterval(request) {
      } else if head.range.Overlaps(request) {
        forall e | e in devices ensures !e.range.ContainsInterval(request) {
          var i :| 0 <= i < |devices| && devices[i] == e;
          if i > 0 { ApartFromAnOverlap(head.range, e.range, request); }
        }
      } else if Route(tail, request).ToErrorDevice? {
        var e :| e in tail && e.range.Overlaps(request);
        assert e in devices;
      }
    }
  }

  lemma ContainingEntryIsUnique(devices: seq<Entry>, size: nat, request: Interval, a: Entry, b: Entry)
    requires WellFormed(devices, size) && !request.IsEmpty()
    requires a in devices && b in devices
    requires a.range.ContainsInterval(request) && b.range.Overlaps(request)
    ensures a == b
  {
    var i :| 0 <= i < |devices| && devices[i] == a;
    var j :| 0 <= j < |devices| && devices[j] == b;
    ContainedMeetsEveryOverlap(a.range, b.range, request);
  }

  /** Which device answers does not depend on the order in which devices were added. */
  lemma {:induction false} RoutingIgnoresInsertionOrder(d1: seq<Entry>, d2: seq<Entry>, size: nat, request: Interval)
    requires WellFormed(d1, size) && WellFormed(d2, size) && !request.IsEmpty()
    requires forall e :: e in d1 <==> e in d2
    ensures Route(d1, request) == Route(d2, request)
  {
    FirstMatchIsRoute(d1, size, request);
    FirstMatchIsRoute(d2, size, request);
    match (Route(d1, request), Route(d2, request))
    case (ToDevice(a), ToDevice(b)) =>
      ContainingMeansOverlapping(b.range, request);
      ContainingEntryIsUnique(d1, size, request, a, b);
    case (ToDevice(a), _) => ContainingMeansOverlapping(a.range, request);
    case (_, ToDevice(b)) => ContainingMeansOverlapping(b.range, request);
    case (_, _) =>
  }

  /** Entries that do not touch a request have no influence on where it goes. */
  lemma {:induction false} UntouchedEntriesDoNotMatter(d1: seq<Entry>, d2: seq<Entry>, size: nat, request: Interval)
    requires WellFormed(d1, size) && WellFormed(d2, size) && !request.IsEmpty()
    requires forall e :: e in d1 && e.range.Overlaps(request) ==> e in d2
    requires forall e :: e in d2 && e.range.Overlaps(request) ==> e in d1
    ensures Route(d1, request) == Route(d2, request)
  {
    FirstMatchIsRoute(d1, size, request);
    FirstMatchIsRoute(d2, size, request);
    match (Route(d1, request), Route(d2, request))
    case (ToDevice(a), ToDevice(b)) =>
      ContainingMeansOverlapping(a.range, request);
      ContainingMeansOverlapping(b.range, request);
      ContainingEntryIsUnique(d1, size, request, a, b);
    case (ToDevice(a), _) => ContainingMeansOverlapping(a.range, request);
    case (_, ToDevice(b)) => ContainingMeansOverlapping(b.range, request);
    case (_, _) =>
  }

  // ---------------------------------------------------------------------
  // One-byte accesses
  // ---------------------------------------------------------------------

  function ByteAt(a: nat): Interval { Interval(a, a + 1) }

  /** `Bus::read` of one byte. */
  function ReadByte(devices: seq<Entry>, store: Store, a: nat): Byte
    requires Backed(devices, store)
  {
    match Route(devices, ByteAt(a))
    case ToDevice(e) =>
      RouteTargetIsAnEntry(devices, ByteAt(a));
      ContainmentMeansAllAddresses(e.range, ByteAt(a));
      assert ByteAt(a).Has(a);
      store[e.device.id][a - e.range.start]
    case _ => OPEN_BUS
  }

  /** `Bus::write` of one byte. */
  function WriteByte(devices: seq<Entry>, store: Store, a: nat, v: Byte): (after: Store)
    requires Backed(devices, store)
    ensures Backed(devices, after) && after.Keys == store.Keys
  {
    match Route(devices, ByteAt(a))
    case ToDevice(e) =>
      RouteTargetIsAnEntry(devices, ByteAt(a));
      ContainmentMeansAllAddresses(e.range, ByteAt(a));
      assert ByteAt(a).Has(a);
      var content: seq<Byte> := store[e.device.id];
      store[e.device.id := content[a - e.range.start := v]]
    case _ => store
  }

  lemma {:induction false} RouteTargetIsAnEntry(devices: seq<Entry>, request: Interval)
    ensures var t := Route(devices, request);
            t.ToDevice? ==> t.entry in devices && t.entry.range.ContainsInterval(request)
  {
    if devices != [] { RouteTargetIsAnEntry(devices[1..], request); }
  }

  /** The ascending sequence of one-byte reads at `a`, `a + 1`, ... */
  function ReadBytes(devices: seq<Entry>, store: Store, a: nat, n: nat): seq<Byte>
    requires Backed(devices, store)
  {
    seq<Byte>(n, i requires 0 <= i < n => ReadByte(devices, store, a + i))
  }

  /** The first `n` of the ascending one-byte writes of `data` to `a`, `a + 1`, ... */
  function WriteBytes(devices: seq<Entry>, store: Store, a: nat, data: seq<Byte>, n: nat): (after: Store)
    requires Backed(devices, store) && n <= |data|
    ensures Backed(devices, after) && after.Keys == store.Keys
  {
    if n == 0 then store
    else WriteByte(devices, WriteBytes(devices, store, a, data, n - 1), a + n - 1, data[n - 1])
  }

  /** Every address of `a .. a + n` belongs to the same device, at consecutive offsets. */
  ghost predicate InsideOneEntry(devices: seq<Entry>, a: nat, n: nat, e: Entry) {
    e in devices && (forall x: nat | a <= x < a + n :: Route(devices, ByteAt(x)) == ToDevice(e))
  }

  lemma EntryIsBacked(devices: seq<Entry>, store: Store, e: Entry)
    requires Backed(devices, store) && e in devices
    ensures e.device.id in store && |store[e.device.id]| == e.device.size
  {
    var i :| 0 <= i < |devices| && devices[i] == e;
  }

  /** Writes that stay inside one device add up to a splice of that device's bytes. */
  lemma {:induction false} WritesInsideOneDevice(
    devices: seq<Entry>, store: Store, a: nat, data: seq<Byte>, lo: nat, hi: nat, e: Entry)
    requires Backed(devices, store) && lo <= hi <= |data|
    requires InsideOneEntry(devices, a + lo, hi - lo, e)
    requires e.range.start <= a + lo && a + hi - e.range.start <= e.device.size
    ensures var before := WriteBytes(devices, store, a, data, lo);
      && e.device.id in before
      && |before[e.device.id]| == e.device.size
      && WriteBytes(devices, store, a, data, hi)
         == before[e.device.id := Splice(before[e.device.id], a + lo - e.range.start, data[lo..hi])]
    decreases hi
  {
    var id, off := e.device.id, a + lo - e.range.start;
    var before := WriteBytes(devices, store, a, data, lo);
    EntryIsBacked(devices, before, e);
    if lo == hi {
      assert Splice(before[id], off, data[lo..hi]) == before[id];
    } else {
      WritesInsideOneDevice(devices, store, a, data, lo, hi - 1, e);
      assert Route(devices, ByteAt(a + hi - 1)) == ToDevice(e);
      OneMoreWriteInside(devices, before, WriteBytes(devices, store, a, data, hi - 1), a, data, lo, hi, e);
    }
  }

  /** One more write inside the device makes the splice one byte longer. */
  lemma {:induction false} OneMoreWriteInside(
    devices: seq<Entry>, before: Store, mid: Store, a: nat, data: seq<Byte>, lo: nat, hi: nat, e: Entry)
    requires Backed(devices, before) && Backed(devices, mid) && lo < hi <= |data| && e.device.id in before
    requires e.range.start <= a + lo && a + hi - e.range.start <= |before[e.device.id]|
    requires Route(devices, ByteAt(a + hi - 1)) == ToDevice(e)
    requires mid == before[e.device.id := Splice(before[e.device.id], a + lo - e.range.start, data[lo..hi - 1])]
    ensures WriteByte(devices, mid, a + hi - 1, data[hi - 1])
         == before[e.device.id := Splice(before[e.device.id], a + lo - e.range.start, data[lo..hi])]
  {
    SpliceOneMore(before[e.device.id], a + lo - e.range.start, data, lo, hi);
    WriteInsideDevice(devices, mid, a + hi - 1, data[hi - 1], e);
  }

  /** A one-byte write that is routed to a device changes that byte of it. */
  lemma {:induction false} WriteInsideDevice(devices: seq<Entry>, store: Store, x: nat, v: Byte, e: Entry)
    requires Backed(devices, store) && Route(devices, ByteAt(x)) == ToDevice(e)
    ensures e.device.id in store && e.range.start <= x && x - e.range.start < |store[e.device.id]|
    ensures WriteByte(devices, store, x, v) == store[e.device.id := store[e.device.id][x - e.range.start := v]]
  {
    RouteTargetIsAnEntry(devices, ByteAt(x));
    ContainmentMeansAllAddresses(e.range, ByteAt(x));
    assert ByteAt(x).Has(x);
  }

  lemma SpliceOneMore(s: seq<Byte>, at: nat, data: seq<Byte>, lo: nat, hi: nat)
    requires lo < hi <= |data| && at + (hi - lo) <= |s|
    ensures Splice(s, at, data[lo..hi]) == Splice(s, at, data[lo..hi - 1])[at + hi - 1 - lo := data[hi - 1]]
  {
    assert data[lo..hi] == data[lo..hi - 1] + [data[hi - 1]];
  }

  // ---------------------------------------------------------------------
  // The splitter
  // ---------------------------------------------------------------------

  /** One bulk request to one device; `entry` is absent for the default device. */
  datatype Chunk = Chunk(entry: Option<Entry>, deviceOffset: nat, from: nat, to: nat)

  /** Each byte of the chunk goes where a one-byte access to its address goes. */
  ghost predicate ChunkAgreesWithBytes(devices: seq<Entry>, requestStart: nat, c: Chunk) {
    && c.from < c.to
    && match c.entry
       case None =>
         && c.to == c.from + 1
         && c.deviceOffset == requestStart + c.from
         && Route(devices, ByteAt(requestStart + c.from)) == ToDefault
       case Some(e) =>
         && e.range.start + c.deviceOffset == requestStart + c.from
         && c.deviceOffset + (c.to - c.from) <= e.device.size
         && InsideOneEntry(devices, requestStart + c.from, c.to - c.from, e)
  }

  lemma ChunkInsideEntry(devices: seq<Entry>, size: nat, a: nat, n: nat, e: Entry)
    requires WellFormed(devices, size) && e in devices
    requires e.range.start <= a && a + n <= e.range.end
    ensures InsideOneEntry(devices, a, n, e)
  {
    forall x: nat | a <= x < a + n ensures Route(devices, ByteAt(x)) == ToDevice(e) {
      var request := ByteAt(x);
      assert request.Has(x);
      ContainmentMeansAllAddresses(e.range, request);
      FirstMatchIsRoute(devices, size, request);
      ContainingMeansOverlapping(e.range, request);
      match Route(devices, request)
      case ToDevice(b) =>
        ContainingMeansOverlapping(b.range, request);
        ContainingEntryIsUnique(devices, size, request, e, b);
      case _ =>
    }
  }

  lemma {:induction false} NobodyHasMeansDefault(devices: seq<Entry>, size: nat, a: nat)
    requires WellFormed(devices, size)
    requires forall i | 0 <= i < |devices| :: !devices[i].range.Has(a)
    ensures Route(devices, ByteAt(a)) == ToDefault
  {
    FirstMatchIsRoute(devices, size, ByteAt(a));
    RouteTargetIsAnEntry(devices, ByteAt(a));
    forall e | e in devices ensures !e.range.Overlaps(ByteAt(a)) {
      OverlapMeansSharedAddress(e.range, ByteAt(a));
    }
    match Route(devices, ByteAt(a))
    case ToDevice(e) => ContainingMeansOverlapping(e.range, ByteAt(a));
    case _ =>
  }

  class BulkRequestIterator {
    const devices: seq<Entry>
    const size: nat
    const requestStart: nat
    const requestEnd: nat
    var curOffset: nat

    ghost predicate Valid() reads this {
      WellFormed(devices, size) && requestStart <= curOffset <= requestEnd
    }

    constructor (devices: seq<Entry>, size: nat, offset: nat, length: nat)
      requires WellFormed(devices, size)
      ensures Valid() && curOffset == requestStart
      ensures this.devices == devices && this.size == size
      ensures requestStart == offset && requestEnd == offset + length
    {
      this.devices, this.size := devices, size;
      requestStart, requestEnd, curOffset := offset, offset + length, offset;
    }

    /** The chunks follow each other without gaps and each one makes progress. */
    method Next() returns (chunk: Option<Chunk>)
      requires Valid()
      modifies this
      ensures Valid()
      ensures chunk.None? <==> old(curOffset) == requestEnd
      ensures chunk.None? ==> curOffset == old(curOffset)
      ensures chunk.Some? ==>
        && requestStart + chunk.value.from == old(curOffset)
        && requestStart + chunk.value.to == curOffset
        && old(curOffset) < curOffset
        && ChunkAgreesWithBytes(devices, requestStart, chunk.value)
    {
      if curOffset == requestEnd {
        return None;
      }
      var dataOffset := curOffset - requestStart;
      var remaining := requestEnd - requestStart - dataOffset;
      var i := 0;
      while i < |devices| && !devices[i].range.Has(curOffset)
        invariant 0 <= i <= |devices|
        invariant forall j | 0 <= j < i :: !devices[j].range.Has(curOffset)
      {
        i := i + 1;
      }
      var c;
      if i < |devices| {
        var e := devices[i];
        var deviceOffset := curOffset - e.range.start;
        var chunkSize := Min(remaining, e.range.end - e.range.start - deviceOffset);
        c := Chunk(Some(e), deviceOffset, dataOffset, dataOffset + chunkSize);
        assert Placed(e, size);
        ChunkInsideEntry(devices, size, curOffset, chunkSize, e);
      } else {
        c := Chunk(None, curOffset, dataOffset, dataOffset + 1);
        NobodyHasMeansDefault(devices, size, curOffset);
      }
      curOffset := curOffset + (c.to - c.from);
      chunk := Some(c);
    }
  }

  // ---------------------------------------------------------------------
  // The bus object
  // ---------------------------------------------------------------------

  /** The memory behind the devices, shared by every bus that lists them. */
  class DeviceMemory {
    var bytes: Store

    constructor (bytes: Store)
      ensures this.bytes == bytes
    {
      this.bytes := bytes;
    }

    /** The default bulk read of a device: one byte at a time, ascending. */
    method ReadBulk(id: nat, offset: nat, data: array<Byte>, from: nat, to: nat)
      requires id in bytes && from <= to <= data.Length && offset + (to - from) <= |bytes[id]|
      modifies data
      ensures data[..] == old(data[..from]) + bytes[id][offset..offset + (to - from)] + old(data[to..])
    {
      var cur := from;
      while cur < to
        invariant from <= cur <= to
        invariant data[..from] == old(data[..from])
        invariant data[from..cur] == bytes[id][offset..offset + (cur - from)]
        invariant data[cur..] == old(data[cur..])
      {
        data[cur] := bytes[id][offset + (cur - from)];
        cur := cur + 1;
        assert data[from..cur] == data[from..cur - 1] + [data[cur - 1]];
        assert bytes[id][offset..offset + (cur - from)]
            == bytes[id][offset..offset + (cur - 1 - from)] + [bytes[id][offset + (cur - 1 - from)]];
      }
      assert data[..] == data[..from] + data[from..to] + data[to..];
    }

    /** The default bulk write of a device: one byte at a time, ascending. */
    method WriteBulk(id: nat, offset: nat, data: seq<Byte>)
      requires id in bytes && offset + |data| <= |bytes[id]|
      modifies this
      ensures bytes == old(bytes)[id := Splice(old(bytes)[id], offset, data)]
    {
      var cur := 0;
      assert Splice(bytes[id], offset, data[..0]) == bytes[id];
      while cur < |data|
        invariant 0 <= cur <= |data|
        invariant bytes == old(bytes)[id := Splice(old(bytes)[id], offset, data[..cur])]
      {
        var content: seq<Byte> := bytes[id][offset + cur := data[cur]];
        bytes := bytes[id := content];
        cur := cur + 1;
        assert data[..cur] == data[..cur - 1] + [data[cur - 1]];
        assert bytes[id] == Splice(old(bytes)[id], offset, data[..cur]);
      }
      assert data[..cur] == data;
    }
  }

  lemma ReadBytesSplits(devices: seq<Entry>, store: Store, a: nat, n: nat, m: nat)
    requires Backed(devices, store)
    ensures ReadBytes(devices, store, a, n + m)
         == ReadBytes(devices, store, a, n) + ReadBytes(devices, store, a + n, m)
  {
  }

  lemma ReadsInsideChunk(devices: seq<Entry>, store: Store, requestStart: nat, c: Chunk)
    requires Backed(devices, store) && ChunkAgreesWithBytes(devices, requestStart, c)
    ensures c.entry.None? ==> ReadBytes(devices, store, requestStart + c.from, 1) == [OPEN_BUS]
    ensures c.entry.Some? ==>
      && c.entry.value.device.id in store
      && c.deviceOffset + (c.to - c.from) <= |store[c.entry.value.device.id]|
      && ReadBytes(devices, store, requestStart + c.from, c.to - c.from)
         == store[c.entry.value.device.id][c.deviceOffset..c.deviceOffset + (c.to - c.from)]
  {
    if c.entry.Some? {
      var e, n, a := c.entry.value, c.to - c.from, requestStart + c.from;
      EntryIsBacked(devices, store, e);
      forall x: nat | a <= x < a + n
        ensures ReadByte(devices, store, x) == store[e.device.id][x - e.range.start]
      {
        assert Route(devices, ByteAt(x)) == ToDevice(e);
      }
    } else {
      assert ReadByte(devices, store, requestStart + c.from) == OPEN_BUS;
    }
  }

  /** Writing one more chunk is writing its bytes one by one after the earlier ones. */
  lemma {:induction false} ChunkWriteExtends(devices: seq<Entry>, store: Store, offset: nat, data: seq<Byte>, c: Chunk)
    requires Backed(devices, store) && ChunkAgreesWithBytes(devices, offset, c) && c.to <= |data|
    ensures var before := WriteBytes(devices, store, offset, data, c.from);
            var after := WriteBytes(devices, store, offset, data, c.to);
            match c.entry
            case None => after == before
            case Some(e) =>
              && e.device.id in before
              && c.deviceOffset + (c.to - c.from) <= |before[e.device.id]|
              && after == before[e.device.id := Splice(before[e.device.id], c.deviceOffset, data[c.from..c.to])]
  {
    match c.entry
    case None => assert Route(devices, ByteAt(offset + c.to - 1)) == ToDefault;
    case Some(e) => WritesInsideOneDevice(devices, store, offset, data, c.from, c.to, e);
  }

  class Bus {
    const size: nat
    var devices: seq<Entry>

    ghost predicate Valid() reads this { WellFormed(devices, size) }

    constructor (size: nat)
      ensures Valid() && this.size == size && devices == []
    {
      this.size, devices := size, [];
    }

    /** Adding succeeds exactly when the range fits and touches no existing range. */
    method Add(startAddr: nat, device: Device) returns (r: Result<(), AddError>)
      requires Valid() && size <= U64_MAX
      modifies this
      ensures Valid()
      ensures var range := Interval(startAddr, startAddr + device.size);
        && (r.Success? <==>
              range.end <= size && forall e | e in old(devices) :: !e.range.Overlaps(range))
        && devices == old(devices) + (if r.Success? then [Entry(range, device)] else [])
        && (r.Failure? ==> (r.error.DeviceOutOfRange? <==> size < range.end))
        && (r.Failure? && r.error.OverlapsExistingDevice? ==>
              && r.error.added == range && r.error.existing.Overlaps(range)
              && exists e :: e in devices && e.range == r.error.existing)
    {
      if U64_MAX < startAddr + device.size {
        return Failure(DeviceOutOfRange(size, Interval(startAddr, (startAddr + device.size) % (U64_MAX + 1))));
      }
      var range := Interval(startAddr, startAddr + device.size);
      if size < range.end {
        return Failure(DeviceOutOfRange(size, range));
      }
      var i := 0;
      while i < |devices|
        invariant 0 <= i <= |devices|
        invariant forall j | 0 <= j < i :: !devices[j].range.Overlaps(range)
      {
        if devices[i].range.Overlaps(range) {
          return Failure(OverlapsExistingDevice(devices[i].range, range));
        }
        i := i + 1;
      }
      devices := devices + [Entry(range, device)];
      return Success(());
    }

    /** Requests that wrap the address space are nobody's; the rest go by first match. */
    method ToDeviceRequest(addr: nat, requestSize: nat) returns (t: Target)
      requires Valid() && requestSize in {1, 2, 4, 8}
      ensures t == if U64_MAX < addr + requestSize then ToDefault
                   else Route(devices, Interval(addr, addr + requestSize))
      ensures addr + requestSize <= U64_MAX ==> RoutedTo(devices, Interval(addr, addr + requestSize), t)
    {
      if U64_MAX < addr + requestSize {
        return ToDefault;
      }
      var request := Interval(addr, addr + requestSize);
      FirstMatchIsRoute(devices, size, request);
      assert devices[0..] == devices;
      for i := 0 to |devices|
        invariant Route(devices, request) == Route(devices[i..], request)
      {
        if devices[i].range.ContainsInterval(request) {
          return ToDevice(devices[i]);
        }
        if devices[i].range.Overlaps(request) {
          return ToErrorDevice;
        }
        assert devices[i..][1..] == devices[i + 1..];
      }
      return ToDefault;
    }

    /** A bulk read returns what ascending one-byte reads return. */
    method ReadBulk(memory: DeviceMemory, offset: nat, data: array<Byte>)
      requires Valid() && Backed(devices, memory.bytes) && offset + data.Length <= U64_MAX
      modifies data
      ensures data[..] == ReadBytes(devices, memory.bytes, offset, data.Length)
    {
      var chunks := new BulkRequestIterator(devices, size, offset, data.Length);
      var chunk := chunks.Next();
      ghost var done := 0;
      while chunk.Some?
        invariant fresh(chunks) && chunks.Valid()
        invariant chunks.devices == devices && chunks.requestStart == offset
        invariant chunks.requestEnd == offset + data.Length
        invariant 0 <= done <= data.Length
        invariant data[..done] == ReadBytes(devices, memory.bytes, offset, done)
        invariant chunk.Some? ==>
          && chunk.value.from == done && chunks.curOffset == offset + chunk.value.to
          && ChunkAgreesWithBytes(devices, offset, chunk.value)
        invariant chunk.None? ==> done == data.Length
        decreases data.Length - done
      {
        ReadChunk(memory, offset, chunk.value, data);
        done := chunk.value.to;
        chunk := chunks.Next();
      }
      assert data[..] == data[..done];
    }

    /** One chunk of a bulk read extends what has been read so far. */
    method ReadChunk(memory: DeviceMemory, offset: nat, c: Chunk, data: array<Byte>)
      requires Valid() && Backed(devices, memory.bytes)
      requires ChunkAgreesWithBytes(devices, offset, c) && c.to <= data.Length
      requires data[..c.from] == ReadBytes(devices, memory.bytes, offset, c.from)
      modifies data
      ensures data[..c.to] == ReadBytes(devices, memory.bytes, offset, c.to)
    {
      ghost var before := data[..];
      ReadsInsideChunk(devices, memory.bytes, offset, c);
      match c.entry {
        case Some(e) => memory.ReadBulk(e.device.id, c.deviceOffset, data, c.from, c.to);
        case None => data[c.from] := OPEN_BUS;
      }
      ReadBytesSplits(devices, memory.bytes, offset, c.from, c.to - c.from);
      assert data[..c.to] == before[..c.from] + ReadBytes(devices, memory.bytes, offset + c.from, c.to - c.from);
    }

    /** A bulk write leaves what ascending one-byte writes leave, aliased devices included. */
    method WriteBulk(memory: DeviceMemory, offset: nat, data: seq<Byte>)
      requires Valid() && Backed(devices, memory.bytes) && offset + |data| <= U64_MAX
      modifies memory
      ensures memory.bytes == WriteBytes(devices, old(memory.bytes), offset, data, |data|)
    {
      var chunks := new BulkRequestIterator(devices, size, offset, |data|);
      var chunk := chunks.Next();
      ghost var done := 0;
      while chunk.Some?
        invariant fresh(chunks) && chunks.Valid()
        invariant chunks.devices == devices && chunks.requestStart == offset
        invariant chunks.requestEnd == offset + |data|
        invariant 0 <= done <= |data|
        invariant Backed(devices, memory.bytes)
        invariant memory.bytes == WriteBytes(devices, old(memory.bytes), offset, data, done)
        invariant chunk.Some? ==>
          && chunk.value.from == done && chunks.curOffset == offset + chunk.value.to
          && ChunkAgreesWithBytes(devices, offset, chunk.value)
        invariant chunk.None? ==> done == |data|
        decreases |data| - done
      {
        var c := chunk.value;
        ChunkWriteExtends(devices, old(memory.bytes), offset, data, c);
        match c.entry {
          case Some(e) => memory.WriteBulk(e.device.id, c.deviceOffset, data[c.from..c.to]);
          case None =>
        }
        done := c.to;
        chunk := chunks.Next();
      }
    }
  }
}
