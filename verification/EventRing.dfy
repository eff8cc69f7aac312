/**
 * The event ring: the controller produces, the driver consumes, both follow the segment table.
 * The object keeps an address, a countdown and a cycle bit; it is shown to behave like a plain
 * queue towards a driver that follows section 4.9.4 of the xHCI specification.
 */
module EventRings {
  import opened Bytes
  import opened CycleRings
  import opened GuestMemory
  import opened Modular
  import opened Trbs
  import opened Wrappers

  const SEGMENT_BASE: nat := 0
  const SIZE: nat := 8
  const ENTRY_SIZE: nat := 16

  /** What the controller keeps about its event ring. */
  datatype RingState = RingState(enqueuePointer: nat, trbCount: nat, erstCount: nat, cycleState: bool)

  const UNCONFIGURED := RingState(0, 0, 0, false)

  /** Entry `i` of the segment table in guest memory. */
  function EntryBase(m: Memory, table: nat, i: nat): nat {
    ReadNumber(m, WrappingAdd(WrappingAdd(table, i * ENTRY_SIZE), SEGMENT_BASE), 8)
  }

  function EntrySize(m: Memory, table: nat, i: nat): nat {
    ReadNumber(m, WrappingAdd(WrappingAdd(table, i * ENTRY_SIZE), SIZE), 4)
  }

  /** A single slot left in a segment makes the next segment matter, and then a table without entries is fatal. */
  function Full(m: Memory, r: RingState, table: nat, entries: nat, dequeue: nat): bool
    requires r.trbCount == 1 ==> 0 < entries
  {
    if r.trbCount == 1
    then dequeue == EntryBase(m, table, (r.erstCount + 1) % entries)
    else dequeue == WrappingAdd(r.enqueuePointer, TRB_SIZE)
  }

  function NextSegment(m: Memory, r: RingState, table: nat, entries: nat): RingState {
    var wrapped := r.erstCount + 1 == entries;
    var e := if wrapped then 0 else r.erstCount + 1;
    RingState(EntryBase(m, table, e), EntrySize(m, table, e), e, if wrapped then !r.cycleState else r.cycleState)
  }

  /** Enqueueing: memory and ring afterwards. The 32-bit countdown wraps if a segment of size zero was configured. */
  function Enqueued(m: Memory, r: RingState, e: EventTrb, table: nat, entries: nat): (Memory, RingState) {
    var after := Write(m, r.enqueuePointer, ToBytes(e, r.cycleState));
    var left := (r.trbCount + TWO_32 - 1) % TWO_32;
    if left == 0
    then (after, NextSegment(after, r.(trbCount := 0), table, entries))
    else (after, r.(trbCount := left, enqueuePointer := WrappingAdd(r.enqueuePointer, TRB_SIZE)))
  }

  class EventRing {
    const dma: DmaMemory
    var enqueuePointer: nat
    var trbCount: nat
    var erstCount: nat
    var cycleState: bool

    function View(): RingState reads this {
      RingState(enqueuePointer, trbCount, erstCount, cycleState)
    }

    constructor (dma: DmaMemory)
      ensures View() == UNCONFIGURED && this.dma == dma
    {
      this.dma := dma;
      enqueuePointer, trbCount, erstCount, cycleState := 0, 0, 0, false;
    }

    method Reset()
      modifies this
      ensures View() == UNCONFIGURED
    {
      enqueuePointer, trbCount, erstCount, cycleState := 0, 0, 0, false;
    }

    /** Note that the segment index is not among the things a configuration sets. */
    method Configure(table: nat, entries: nat)
      requires table % 64 == 0 && 0 < entries
      modifies this
      ensures View() == RingState(EntryBase(dma.bytes, table, 0), EntrySize(dma.bytes, table, 0), old(erstCount), true)
    {
      enqueuePointer := ReadNumber(dma.bytes, WrappingAdd(table % TWO_64, SEGMENT_BASE), 8);
      trbCount := ReadNumber(dma.bytes, WrappingAdd(table % TWO_64, SIZE), 4);
      cycleState := true;
    }

    method CheckEventRingFull(table: nat, entries: nat, dequeue: nat) returns (full: bool)
      requires trbCount == 1 ==> 0 < entries
      ensures full == Full(dma.bytes, View(), table, entries, dequeue)
    {
      if trbCount == 1 {
        var next := (erstCount + 1) % entries;
        var entry := WrappingAdd(table, next * ENTRY_SIZE);
        full := dequeue == ReadNumber(dma.bytes, WrappingAdd(entry, SEGMENT_BASE), 8);
      } else {
        full := dequeue == WrappingAdd(enqueuePointer, TRB_SIZE);
      }
    }

    method AdvanceSegmentOrWrap(table: nat, entries: nat)
      modifies this
      ensures View() == NextSegment(dma.bytes, old(View()), table, entries)
    {
      erstCount := erstCount + 1;
      if erstCount == entries {
        cycleState := !cycleState;
        erstCount := 0;
      }
      var entry := WrappingAdd(table, erstCount * ENTRY_SIZE);
      enqueuePointer := ReadNumber(dma.bytes, WrappingAdd(entry, SEGMENT_BASE), 8);
      trbCount := ReadNumber(dma.bytes, WrappingAdd(entry, SIZE), 4);
    }

    method AdvanceEnqueuePointer(table: nat, entries: nat)
      modifies this
      ensures View() == if old(trbCount) == 0 then NextSegment(dma.bytes, old(View()), table, entries)
                        else old(View()).(enqueuePointer := WrappingAdd(old(enqueuePointer), TRB_SIZE))
    {
      if trbCount == 0 {
        AdvanceSegmentOrWrap(table, entries);
      } else {
        enqueuePointer := WrappingAdd(enqueuePointer, TRB_SIZE);
      }
    }

    /** Recovery from a full ring does not exist; the caller has to keep it from filling up. */
    method Enqueue(e: EventTrb, table: nat, entries: nat, dequeue: nat)
      requires (trbCount == 1 ==> 0 < entries) && !Full(dma.bytes, View(), table, entries, dequeue)
      modifies this, dma
      ensures (dma.bytes, View()) == Enqueued(old(dma.bytes), old(View()), e, table, entries)
    {
      dma.bytes := Write(dma.bytes, enqueuePointer, ToBytes(e, cycleState));
      trbCount := (trbCount + TWO_32 - 1) % TWO_32;
      AdvanceEnqueuePointer(table, entries);
    }
  }

  // ---------------------------------------------------------------------
  // A ring over a static segment table
  // ---------------------------------------------------------------------

  /**
   * Entry `i` of the table as section 6.5 of the xHCI specification lays it out: the segment's address in
   * bytes 0 to 7, its number of TRBs in bytes 8 to 11, and four reserved bytes.
   */
  ghost predicate HoldsEntry(m: Memory, table: nat, i: nat, s: Segment) {
    Read(m, table + 16 * i, 16) == ToLe(s.base, 8) + ToLe(s.size, 4) + [0, 0, 0, 0]
  }

  predicate Usable(s: Segment) { 0 < s.size < TWO_32 && s.base + s.size * TRB_SIZE < TWO_64 }

  /** The table in memory describes these segments and does not overlap them. */
  ghost predicate Describes(m: Memory, table: nat, segs: seq<Segment>) {
    && 0 < |segs|
    && table + |segs| * 16 <= TWO_64
    && (forall i | 0 <= i < |segs| :: HoldsEntry(m, table, i, segs[i]) && Usable(segs[i]))
    && SegmentsApart(segs)
    && OffRing(Slots(segs), table, |segs| * 16)
  }

  /** The bytes of an entry, read as the controller reads them, give the segment back. */
  lemma EntryReadsBack(m: Memory, entry: nat, s: Segment)
    requires Read(m, entry, 16) == ToLe(s.base, 8) + ToLe(s.size, 4) + [0, 0, 0, 0] && Usable(s)
    ensures ReadNumber(m, entry, 8) == s.base && ReadNumber(m, entry + 8, 4) == s.size
  {
    var bytes := Read(m, entry, 16);
    SmallPowers();
    LeRoundTrip(s.base, 8);
    LeRoundTrip(s.size, 4);
    assert Read(m, entry, 8) == bytes[..8] == ToLe(s.base, 8);
    assert Read(m, entry + 8, 4) == bytes[8..12] == ToLe(s.size, 4);
  }

  lemma EntryAddress(table: nat, i: nat, n: nat)
    requires i < n && table + n * 16 <= TWO_64
    ensures WrappingAdd(table, i * 16) == table + 16 * i
    ensures WrappingAdd(table + 16 * i, 0) == table + 16 * i && WrappingAdd(table + 16 * i, 8) == table + 16 * i + 8
  {
    SmallPosition(table + 16 * i, TWO_64);
    SmallPosition(table + 16 * i + 8, TWO_64);
  }

  /** What the controller reads from entry `i` of the table. */
  lemma TableSays(m: Memory, table: nat, segs: seq<Segment>, i: nat)
    requires Describes(m, table, segs) && i < |segs|
    ensures EntryBase(m, table, i) == segs[i].base && EntrySize(m, table, i) == segs[i].size && Usable(segs[i])
  {
    assert HoldsEntry(m, table, i, segs[i]);
    EntryReadsBack(m, table + 16 * i, segs[i]);
    EntryAddress(table, i, |segs|);
  }

  lemma DescribedAreUsable(m: Memory, table: nat, segs: seq<Segment>)
    requires Describes(m, table, segs)
    ensures forall i | 0 <= i < |segs| :: Usable(segs[i])
  {
    forall i | 0 <= i < |segs| ensures Usable(segs[i]) {
      assert HoldsEntry(m, table, i, segs[i]);
    }
  }

  /** Nothing outside the table decides what the table says. */
  lemma TableSurvivesWrite(m: Memory, table: nat, segs: seq<Segment>, a: nat, bytes: seq<Byte>)
    requires Describes(m, table, segs) && Apart(a, |bytes|, table, |segs| * 16)
    ensures Describes(Write(m, a, bytes), table, segs)
  {
    forall i | 0 <= i < |segs| ensures HoldsEntry(Write(m, a, bytes), table, i, segs[i]) {
      assert HoldsEntry(m, table, i, segs[i]);
      ReadElsewhere(m, a, bytes, table + 16 * i, 16);
    }
  }

  /** The ring stands at position `p` of an endless queue. */
  ghost predicate StandsAt(r: RingState, segs: seq<Segment>, p: nat)
    requires 0 < |Slots(segs)|
  {
    var n := |Slots(segs)|;
    && r.erstCount < |segs|
    && 1 <= r.trbCount <= segs[r.erstCount].size
    && p % n == Start(segs, r.erstCount) + segs[r.erstCount].size - r.trbCount
    && r.enqueuePointer == Slots(segs)[p % n]
    && r.cycleState == CycleAt(p, n)
  }

  lemma SomeSlots(segs: seq<Segment>, e: nat)
    requires e < |segs| && 0 < segs[e].size
    ensures 0 < |Slots(segs)| && Start(segs, e) + segs[e].size <= |Slots(segs)|
    ensures e + 1 == |segs| ==> Start(segs, e) + segs[e].size == |Slots(segs)|
    ensures e + 1 < |segs| ==> Start(segs, e + 1) == Start(segs, e) + segs[e].size
  {
    StartGrows(segs, e, |segs|);
    StartIsLength(segs, |segs|);
  }

  lemma NextSlotInSegment(segs: seq<Segment>, e: nat, off: nat)
    requires e < |segs| && Usable(segs[e]) && off + 1 < segs[e].size
    ensures Start(segs, e) + off + 1 < |Slots(segs)|
    ensures Slots(segs)[Start(segs, e) + off + 1] == WrappingAdd(Slots(segs)[Start(segs, e) + off], TRB_SIZE)
  {
    SlotInSegment(segs, e, off);
    SlotInSegment(segs, e, off + 1);
    SmallPosition(segs[e].base + (off + 1) * TRB_SIZE, TWO_64);
  }

  /** Within a segment the next position is the next slot. */
  lemma NextInSegment(m: Memory, r: RingState, table: nat, segs: seq<Segment>, p: nat)
    requires Describes(m, table, segs) && 0 < |Slots(segs)| && StandsAt(r, segs, p) && 1 < r.trbCount
    ensures var n := |Slots(segs)|;
      && (p + 1) % n == p % n + 1 && CycleAt(p + 1, n) == CycleAt(p, n)
      && Slots(segs)[(p + 1) % n] == WrappingAdd(r.enqueuePointer, TRB_SIZE)
  {
    var n, e := |Slots(segs)|, r.erstCount;
    TableSays(m, table, segs, e);
    SomeSlots(segs, e);
    var off := segs[e].size - r.trbCount;
    NextTurn(p, n, Start(segs, e) + off + 1);
    NextSlotInSegment(segs, e, off);
  }

  function NextEntry(e: nat, entries: nat): nat { if e + 1 == entries then 0 else e + 1 }

  lemma NextEntryIsModular(e: nat, entries: nat)
    requires e < entries
    ensures NextEntry(e, entries) == (e + 1) % entries && NextEntry(e, entries) < entries
  {
    if e + 1 < entries { SmallPosition(e + 1, entries); } else { FullTurn(0, entries); SmallPosition(0, entries); }
  }

  /** The last slot of segment `e` is followed by the next segment, and the last segment by the next pass. */
  lemma {:induction false} AfterLastSlot(segs: seq<Segment>, e: nat, p: nat)
    requires e < |segs| && (forall i | 0 <= i < |segs| :: 0 < segs[i].size) && 0 < |Slots(segs)|
    requires p % |Slots(segs)| + 1 == Start(segs, e) + segs[e].size
    ensures (p + 1) % |Slots(segs)| == Start(segs, NextEntry(e, |segs|))
    ensures CycleAt(p + 1, |Slots(segs)|) ==
      (if e + 1 == |segs| then !CycleAt(p, |Slots(segs)|) else CycleAt(p, |Slots(segs)|))
  {
    SomeSlots(segs, e);
    NextTurn(p, |Slots(segs)|, Start(segs, e) + segs[e].size);
    if e + 1 < |segs| {
      SomeSlots(segs, e + 1);
    }
  }

  /** After the last slot of a segment comes the first slot of the next, and after the last segment the next pass. */
  lemma {:induction false} NextAcrossSegments(m: Memory, r: RingState, table: nat, segs: seq<Segment>, p: nat)
    requires Describes(m, table, segs) && 0 < |Slots(segs)| && StandsAt(r, segs, p) && r.trbCount == 1
    ensures var n := |Slots(segs)|; var e := NextEntry(r.erstCount, |segs|);
      && (p + 1) % n == Start(segs, e)
      && CycleAt(p + 1, n) == (if e == 0 then !CycleAt(p, n) else CycleAt(p, n))
      && Slots(segs)[(p + 1) % n] == segs[e].base
  {
    var e := NextEntry(r.erstCount, |segs|);
    DescribedAreUsable(m, table, segs);
    AfterLastSlot(segs, r.erstCount, p);
    SlotInSegment(segs, e, 0);
  }

  /** Fullness compares against the slot after the next one to be written. */
  lemma FullLooksOneAhead(m: Memory, r: RingState, table: nat, segs: seq<Segment>, p: nat, dequeue: nat)
    requires Describes(m, table, segs) && 0 < |Slots(segs)| && StandsAt(r, segs, p)
    ensures Full(m, r, table, |segs|, dequeue) <==> dequeue == Slots(segs)[(p + 1) % |Slots(segs)|]
  {
    if r.trbCount == 1 {
      NextAcrossSegments(m, r, table, segs, p);
      NextEntryIsModular(r.erstCount, |segs|);
      TableSays(m, table, segs, NextEntry(r.erstCount, |segs|));
    } else {
      NextInSegment(m, r, table, segs, p);
    }
  }

  /** Against a driver at position `c`, the ring is full exactly when one more event would meet it. */
  lemma FullExactly(m: Memory, r: RingState, table: nat, segs: seq<Segment>, p: nat, c: nat)
    requires Describes(m, table, segs) && 0 < |Slots(segs)| && StandsAt(r, segs, p)
    requires c <= p < c + |Slots(segs)|
    ensures Full(m, r, table, |segs|, Slots(segs)[c % |Slots(segs)|]) <==> p + 1 == c + |Slots(segs)|
  {
    var n := |Slots(segs)|;
    FullLooksOneAhead(m, r, table, segs, p, Slots(segs)[c % n]);
    SegmentsMakeLayout(segs);
    SlotAddressesDiffer(Slots(segs), c % n, (p + 1) % n);
    if p + 1 == c + n {
      FullTurn(c, n);
    } else {
      DistinctWithinTurn(c, p + 1, n);
    }
  }

  /** Configuring a ring whose segment index is zero puts it at position zero. */
  lemma ConfiguredStandsAtZero(m: Memory, table: nat, segs: seq<Segment>)
    requires Describes(m, table, segs)
    ensures 0 < |Slots(segs)|
    ensures StandsAt(RingState(EntryBase(m, table, 0), EntrySize(m, table, 0), 0, true), segs, 0)
  {
    TableSays(m, table, segs, 0);
    SomeSlots(segs, 0);
    SmallPosition(0, |Slots(segs)|);
    SlotInSegment(segs, 0, 0);
  }

  lemma MovesWithinSegment(m: Memory, r: RingState, table: nat, segs: seq<Segment>, p: nat)
    requires Describes(m, table, segs) && 0 < |Slots(segs)| && StandsAt(r, segs, p) && 1 < r.trbCount
    ensures StandsAt(
      r.(trbCount := r.trbCount - 1, enqueuePointer := WrappingAdd(r.enqueuePointer, TRB_SIZE)), segs, p + 1)
  {
    NextInSegment(m, r, table, segs, p);
  }

  lemma MovesToNextSegment(m: Memory, r: RingState, table: nat, segs: seq<Segment>, p: nat)
    requires Describes(m, table, segs) && 0 < |Slots(segs)| && StandsAt(r, segs, p) && r.trbCount == 1
    ensures StandsAt(NextSegment(m, r.(trbCount := 0), table, |segs|), segs, p + 1)
  {
    NextAcrossSegments(m, r, table, segs, p);
    TableSays(m, table, segs, NextEntry(r.erstCount, |segs|));
  }

  lemma CountsDown(count: nat)
    requires 1 <= count < TWO_32
    ensures (count + TWO_32 - 1) % TWO_32 == count - 1
  {
    Uniquely(count + TWO_32 - 1, TWO_32, 1, count - 1);
  }

  /** Enqueueing, by whether the segment still has room behind this slot. */
  lemma EnqueuedMeans(m: Memory, r: RingState, e: EventTrb, table: nat, entries: nat)
    requires 1 <= r.trbCount < TWO_32
    ensures var after := Write(m, r.enqueuePointer, ToBytes(e, r.cycleState));
      Enqueued(m, r, e, table, entries) ==
        (after, if r.trbCount == 1 then NextSegment(after, r.(trbCount := 0), table, entries)
                else r.(trbCount := r.trbCount - 1, enqueuePointer := WrappingAdd(r.enqueuePointer, TRB_SIZE)))
  {
    CountsDown(r.trbCount);
  }

  /** Enqueueing writes the slot of position `p` and moves the ring to position `p + 1`. */
  lemma EnqueueAdvances(m: Memory, r: RingState, e: EventTrb, table: nat, segs: seq<Segment>, p: nat)
    requires Describes(m, table, segs) && 0 < |Slots(segs)| && StandsAt(r, segs, p)
    ensures var n := |Slots(segs)|; var (after, next) := Enqueued(m, r, e, table, |segs|);
      && after == Write(m, Slots(segs)[p % n], ToBytes(e, CycleAt(p, n)))
      && Describes(after, table, segs)
      && StandsAt(next, segs, p + 1)
  {
    var n := |Slots(segs)|;
    var t := ToBytes(e, CycleAt(p, n));
    var after := Write(m, Slots(segs)[p % n], t);
    TableSurvivesWrite(m, table, segs, Slots(segs)[p % n], t);
    TableSays(m, table, segs, r.erstCount);
    EnqueuedMeans(m, r, e, table, |segs|);
    if r.trbCount == 1 {
      MovesToNextSegment(after, r, table, segs, p);
    } else {
      MovesWithinSegment(after, r, table, segs, p);
    }
  }

  // ---------------------------------------------------------------------
  // Controller and driver together
  // ---------------------------------------------------------------------

  /** The controller, the driver and the memory between them; `sent` and `received` are what went in and came out. */
  datatype World = World(
    memory: Memory, ring: RingState, erdp: nat,
    sent: seq<EventTrb>, received: seq<Trb>, acknowledged: nat)

  datatype Move =
    | Send(event: EventTrb)
    | Take
    | Acknowledge(upTo: nat)
    | WriteElsewhere(a: nat, bytes: seq<Byte>)

  /** The driver polls the slot at its own position and writes the address of the slot it has come to. */
  ghost predicate Allowed(w: World, a: Move, table: nat, segs: seq<Segment>)
    requires 0 < |Slots(segs)|
  {
    match a
    case Send(e) => FitsFields(e) && !Full(w.memory, w.ring, table, |segs|, w.erdp)
    case Take => true
    case Acknowledge(upTo) => w.acknowledged <= upTo <= |w.received|
    case WriteElsewhere(a, bytes) =>
      OffRing(Slots(segs), a, |bytes|) && Apart(a, |bytes|, table, |segs| * 16)
  }

  function Moved(w: World, a: Move, table: nat, segs: seq<Segment>): World
    requires 0 < |Slots(segs)|
  {
    var slots := Slots(segs);
    match a
    case Send(e) =>
      var (after, next) := Enqueued(w.memory, w.ring, e, table, |segs|);
      w.(memory := after, ring := next, sent := w.sent + [e])
    case Take =>
      (match Poll(w.memory, slots, |w.received|)
       case Some(t) => w.(received := w.received + [t])
       case None => w)
    case Acknowledge(upTo) => w.(acknowledged := upTo, erdp := slots[upTo % |slots|])
    case WriteElsewhere(a, bytes) => w.(memory := Write(w.memory, a, bytes))
  }

  /** The sent events as they appear in memory. */
  function Written(sent: seq<EventTrb>, n: nat): (log: seq<Trb>)
    requires 0 < n
    ensures |log| == |sent|
  {
    seq<Trb>(|sent|, k requires 0 <= k < |sent| => ToBytes(sent[k], CycleAt(k, n)))
  }

  /** The controller is never a full turn ahead, memory holds the log, and the driver has read a prefix of it. */
  ghost predicate InStep(w: World, table: nat, segs: seq<Segment>) {
    && Describes(w.memory, table, segs) && 0 < |Slots(segs)|
    && var n := |Slots(segs)|; var log := Written(w.sent, n);
    && StandsAt(w.ring, segs, |w.sent|)
    && Holds(w.memory, Slots(segs), log)
    && w.acknowledged <= |w.received| <= |w.sent| < w.acknowledged + n
    && w.erdp == Slots(segs)[w.acknowledged % n]
    && w.received == log[..|w.received|]
    && (forall k | 0 <= k < |w.sent| :: FitsFields(w.sent[k]))
  }

  lemma WrittenGrows(sent: seq<EventTrb>, e: EventTrb, n: nat)
    requires 0 < n
    ensures Written(sent + [e], n) == Written(sent, n) + [ToBytes(e, CycleAt(|sent|, n))]
  {
  }

  /** Memory and ring after an event was sent. */
  lemma SendPublishes(w: World, e: EventTrb, table: nat, segs: seq<Segment>)
    requires InStep(w, table, segs)
    ensures var v, n := Moved(w, Send(e), table, segs), |Slots(segs)|;
      && Describes(v.memory, table, segs) && StandsAt(v.ring, segs, |v.sent|)
      && Holds(v.memory, Slots(segs), Written(v.sent, n))
  {
    var n, p := |Slots(segs)|, |w.sent|;
    EnqueueAdvances(w.memory, w.ring, e, table, segs, p);
    StampSetsCycle(EventBytes(e), CycleAt(p, n));
    Publish(w.memory, Slots(segs), Written(w.sent, n), ToBytes(e, CycleAt(p, n)));
    WrittenGrows(w.sent, e, n);
  }

  lemma SendKeepsStep(w: World, v: World, e: EventTrb, table: nat, segs: seq<Segment>)
    requires InStep(w, table, segs) && Allowed(w, Send(e), table, segs) && v == Moved(w, Send(e), table, segs)
    ensures InStep(v, table, segs)
  {
    var n := |Slots(segs)|;
    FullExactly(w.memory, w.ring, table, segs, |w.sent|, w.acknowledged);
    SendPublishes(w, e, table, segs);
    WrittenGrows(w.sent, e, n);
    assert Written(v.sent, n)[..|w.received|] == Written(w.sent, n)[..|w.received|];
  }

  lemma TakeReadsLog(w: World, table: nat, segs: seq<Segment>)
    requires InStep(w, table, segs)
    ensures var c := |w.received|;
      Poll(w.memory, Slots(segs), c) == if c < |w.sent| then Some(Written(w.sent, |Slots(segs)|)[c]) else None
  {
    PollReadsLog(w.memory, Slots(segs), Written(w.sent, |Slots(segs)|), |w.received|);
  }

  lemma TakeKeepsStep(w: World, v: World, table: nat, segs: seq<Segment>)
    requires InStep(w, table, segs) && v == Moved(w, Take, table, segs)
    ensures InStep(v, table, segs)
  {
    TakeReadsLog(w, table, segs);
    var log := Written(w.sent, |Slots(segs)|);
    if |w.received| < |w.sent| {
      assert v == w.(received := w.received + [log[|w.received|]]);
      assert log[..|w.received| + 1] == log[..|w.received|] + [log[|w.received|]];
    } else {
      assert v == w;
    }
  }

  lemma MoveKeepsStep(w: World, a: Move, table: nat, segs: seq<Segment>)
    requires InStep(w, table, segs) && Allowed(w, a, table, segs)
    ensures InStep(Moved(w, a, table, segs), table, segs)
  {
    match a
    case Send(e) => SendKeepsStep(w, Moved(w, a, table, segs), e, table, segs);
    case Take => TakeKeepsStep(w, Moved(w, a, table, segs), table, segs);
    case Acknowledge(upTo) =>
    case WriteElsewhere(x, bytes) =>
      TableSurvivesWrite(w.memory, table, segs, x, bytes);
      WriteBeside(w.memory, Slots(segs), Written(w.sent, |Slots(segs)|), x, bytes);
  }

  ghost predicate MoveAt(ws: seq<World>, moves: seq<Move>, i: nat, table: nat, segs: seq<Segment>)
    requires 0 < |Slots(segs)| && |ws| == |moves| + 1 && i < |moves|
  {
    Allowed(ws[i], moves[i], table, segs) && ws[i + 1] == Moved(ws[i], moves[i], table, segs)
  }

  /** A run from a freshly configured ring over cleared slots. */
  ghost predicate Play(ws: seq<World>, moves: seq<Move>, table: nat, segs: seq<Segment>) {
    && 0 < |Slots(segs)| && |ws| == |moves| + 1
    && Describes(ws[0].memory, table, segs)
    && Backed(ws[0].memory, Slots(segs))
    && (forall i | 0 <= i < |Slots(segs)| :: NeverWritten(ws[0].memory, Slots(segs), i))
    && ws[0].ring == RingState(EntryBase(ws[0].memory, table, 0), EntrySize(ws[0].memory, table, 0), 0, true)
    && ws[0].sent == [] && ws[0].received == [] && ws[0].acknowledged == 0 && ws[0].erdp == Slots(segs)[0]
    && (forall i | 0 <= i < |moves| :: MoveAt(ws, moves, i, table, segs))
  }

  lemma {:induction false} PlayStaysInStep(ws: seq<World>, moves: seq<Move>, table: nat, segs: seq<Segment>, i: nat)
    requires Play(ws, moves, table, segs) && i < |ws|
    ensures InStep(ws[i], table, segs)
    decreases i
  {
    if i == 0 {
      ConfiguredStandsAtZero(ws[0].memory, table, segs);
      SegmentsMakeLayout(segs);
      SmallPosition(0, |Slots(segs)|);
    } else {
      PlayStaysInStep(ws, moves, table, segs, i - 1);
      assert MoveAt(ws, moves, i - 1, table, segs);
      MoveKeepsStep(ws[i - 1], moves[i - 1], table, segs);
    }
  }

  /**
   * In step, the driver has read exactly the first events that were sent, and its next poll yields the next
   * one, if any.
   */
  lemma DriverReadsPrefix(w: World, table: nat, segs: seq<Segment>)
    requires InStep(w, table, segs)
    ensures |w.received| <= |w.sent|
    ensures forall k | 0 <= k < |w.received| :: ReadEvent(w.received[k]) == Some(w.sent[k])
    ensures var next := Poll(w.memory, Slots(segs), |w.received|);
      (next.Some? <==> |w.received| < |w.sent|) && (next.Some? ==> ReadEvent(next.value) == Some(w.sent[|w.received|]))
  {
    var n := |Slots(segs)|;
    TakeReadsLog(w, table, segs);
    forall k | 0 <= k < |w.sent| ensures ReadEvent(Written(w.sent, n)[k]) == Some(w.sent[k]) {
      EventRoundTrip(w.sent[k], CycleAt(k, n));
    }
  }

  /**
   * In every run, whatever the order of sending, polling and acknowledging: the driver has read
   * exactly the first events that were sent, each once and in order; its next poll yields the
   * next event if there is one and nothing otherwise.
   */
  lemma DriverReadsWhatWasSent(ws: seq<World>, moves: seq<Move>, table: nat, segs: seq<Segment>, i: nat)
    requires Play(ws, moves, table, segs) && i < |ws|
    ensures var w := ws[i];
      && |w.received| <= |w.sent|
      && (forall k | 0 <= k < |w.received| :: ReadEvent(w.received[k]) == Some(w.sent[k]))
      && var next := Poll(w.memory, Slots(segs), |w.received|);
      && (next.Some? <==> |w.received| < |w.sent|)
      && (next.Some? ==> ReadEvent(next.value) == Some(w.sent[|w.received|]))
  {
    PlayStaysInStep(ws, moves, table, segs, i);
    DriverReadsPrefix(ws[i], table, segs);
  }
}
