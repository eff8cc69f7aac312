/**
 * Rings whose producer and consumer never exchange indices: a cycle bit in every slot tells
 * fresh entries from stale ones. Event rings and transfer rings are both of this kind; they
 * differ in who produces. Positions count slots from the start and never wrap; position `p`
 * lives in slot `p % n` and is written with the cycle bit of its pass.
 */
module CycleRings {
  import opened Bytes
  import opened GuestMemory
  import opened Modular
  import opened Wrappers

  const TRB_SIZE: nat := 16

  /** The sixteen bytes of a TRB. */
  type Trb = t: seq<Byte> | |t| == TRB_SIZE witness [0, 0, 0, 0, 0, 0, 0, 0, 0, 0, 0, 0, 0, 0, 0, 0]

  function CycleBit(t: Trb): bool { Bit(t[12] as nat, 0) }

  function TrbAt(m: Memory, a: nat): Trb { Read(m, a, TRB_SIZE) }

  /** The cycle bit of position `p`: set in the first pass, then flipping with every pass. */
  function CycleAt(p: nat, n: nat): bool
    requires 0 < n
  {
    (p / n) % 2 == 0
  }

  /** One step further: the next slot, or the first slot of the next pass. */
  lemma NextTurn(p: nat, n: nat, k: nat)
    requires 0 < n && p % n + 1 == k
    ensures k <= n
    ensures (p + 1) % n == if k == n then 0 else k
    ensures CycleAt(p + 1, n) == if k == n then !CycleAt(p, n) else CycleAt(p, n)
  {
    Successor(p, n);
  }

  /** Slot addresses of a ring: no two slots share a byte. */
  ghost predicate Layout(slots: seq<nat>) {
    0 < |slots| && forall i, j | 0 <= i < j < |slots| :: Apart(slots[i], TRB_SIZE, slots[j], TRB_SIZE)
  }

  ghost predicate Backed(m: Memory, slots: seq<nat>) {
    forall i | 0 <= i < |slots| :: Mapped(m, slots[i], TRB_SIZE)
  }

  /** Everything in the log carries the cycle bit of its position. */
  ghost predicate Stamped(log: seq<Trb>, n: nat)
    requires 0 < n
  {
    forall k | 0 <= k < |log| :: CycleBit(log[k]) == CycleAt(k, n)
  }

  ghost predicate SlotHolds(m: Memory, slots: seq<nat>, log: seq<Trb>, k: nat)
    requires Layout(slots) && k < |log|
  {
    TrbAt(m, slots[k % |slots|]) == log[k]
  }

  ghost predicate NeverWritten(m: Memory, slots: seq<nat>, i: nat)
    requires i < |slots|
  {
    !CycleBit(TrbAt(m, slots[i]))
  }

  /** Memory holds the last pass worth of the log, and slots not reached yet carry a clear cycle bit. */
  ghost predicate Holds(m: Memory, slots: seq<nat>, log: seq<Trb>) {
    && Layout(slots) && Backed(m, slots) && Stamped(log, |slots|)
    && (forall k | 0 <= k < |log| && |log| <= k + |slots| :: SlotHolds(m, slots, log, k))
    && (forall i | |log| <= i < |slots| :: NeverWritten(m, slots, i))
  }

  /** A slot whose turn has not come yet still shows the cycle bit of the previous pass. */
  lemma StaleBit(m: Memory, slots: seq<nat>, log: seq<Trb>, i: nat)
    requires Holds(m, slots, log) && |log| <= i < |log| + |slots|
    ensures CycleBit(TrbAt(m, slots[i % |slots|])) != CycleAt(i, |slots|)
  {
    var n := |slots|;
    if i < n {
      SmallPosition(i, n);
      assert NeverWritten(m, slots, i);
    } else {
      FullTurn(i - n, n);
      assert SlotHolds(m, slots, log, i - n);
    }
  }

  /** What a consumer at position `c` sees: a fresh entry, or nothing. */
  function Poll(m: Memory, slots: seq<nat>, c: nat): Option<Trb>
    requires 0 < |slots|
  {
    var t := TrbAt(m, slots[c % |slots|]);
    if CycleBit(t) == CycleAt(c, |slots|) then Some(t) else None
  }

  /** A consumer at most one turn behind reads the log in order, and sees an empty ring only at its end. */
  lemma PollReadsLog(m: Memory, slots: seq<nat>, log: seq<Trb>, c: nat)
    requires Holds(m, slots, log) && c <= |log| <= c + |slots|
    ensures Poll(m, slots, c) == if c < |log| then Some(log[c]) else None
  {
    if c < |log| {
      assert SlotHolds(m, slots, log, c);
    } else {
      StaleBit(m, slots, log, c);
    }
  }

  lemma OtherSlotUntouched(m: Memory, slots: seq<nat>, p: nat, t: Trb, i: nat)
    requires Layout(slots) && i < |slots| && i != p % |slots|
    ensures TrbAt(Write(m, slots[p % |slots|], t), slots[i]) == TrbAt(m, slots[i])
  {
    var j := p % |slots|;
    assert i < j ==> Apart(slots[i], TRB_SIZE, slots[j], TRB_SIZE);
    assert j < i ==> Apart(slots[j], TRB_SIZE, slots[i], TRB_SIZE);
    ReadElsewhere(m, slots[j], t, slots[i], TRB_SIZE);
  }

  /** Writing the next entry with its cycle bit appends it to the log. */
  lemma Publish(m: Memory, slots: seq<nat>, log: seq<Trb>, t: Trb)
    requires Holds(m, slots, log) && CycleBit(t) == CycleAt(|log|, |slots|)
    ensures Holds(Write(m, slots[|log| % |slots|], t), slots, log + [t])
  {
    var n, p, longer := |slots|, |log|, log + [t];
    var after := Write(m, slots[p % n], t);
    assert forall i | 0 <= i < n :: Mapped(m, slots[i], TRB_SIZE) ==> Mapped(after, slots[i], TRB_SIZE);
    forall k | 0 <= k < |longer| && |longer| <= k + n ensures SlotHolds(after, slots, longer, k) {
      if k == p {
        assert Mapped(m, slots[p % n], TRB_SIZE);
        ReadBack(m, slots[p % n], t);
      } else {
        DistinctWithinTurn(k, p, n);
        OtherSlotUntouched(m, slots, p, t, k % n);
        assert SlotHolds(m, slots, log, k);
      }
    }
    forall i | |longer| <= i < n ensures NeverWritten(after, slots, i) {
      SmallPosition(p, n);
      OtherSlotUntouched(m, slots, p, t, i);
      assert NeverWritten(m, slots, i);
    }
  }

  /** The range `a .. a + n` shares no byte with any slot. */
  ghost predicate OffRing(slots: seq<nat>, a: nat, n: nat) {
    forall i | 0 <= i < |slots| :: Apart(a, n, slots[i], TRB_SIZE)
  }

  /** Writes beside the ring do not matter to it. */
  lemma WriteBeside(m: Memory, slots: seq<nat>, log: seq<Trb>, a: nat, bytes: seq<Byte>)
    requires Holds(m, slots, log) && OffRing(slots, a, |bytes|)
    ensures Holds(Write(m, a, bytes), slots, log)
  {
    var after := Write(m, a, bytes);
    assert forall i | 0 <= i < |slots| :: Mapped(m, slots[i], TRB_SIZE) ==> Mapped(after, slots[i], TRB_SIZE);
    forall i | 0 <= i < |slots| ensures TrbAt(after, slots[i]) == TrbAt(m, slots[i]) {
      ReadElsewhere(m, a, bytes, slots[i], TRB_SIZE);
    }
    forall k | 0 <= k < |log| && |log| <= k + |slots| ensures SlotHolds(after, slots, log, k) {
      assert SlotHolds(m, slots, log, k);
    }
    forall i | |log| <= i < |slots| ensures NeverWritten(after, slots, i) {
      assert NeverWritten(m, slots, i);
    }
  }

  /** Slots are told apart by their address. */
  lemma SlotAddressesDiffer(slots: seq<nat>, i: nat, j: nat)
    requires Layout(slots) && i < |slots| && j < |slots|
    ensures slots[i] == slots[j] <==> i == j
  {
    assert i < j ==> Apart(slots[i], TRB_SIZE, slots[j], TRB_SIZE);
    assert j < i ==> Apart(slots[j], TRB_SIZE, slots[i], TRB_SIZE);
  }

  // ---------------------------------------------------------------------
  // Rings made of segments
  // ---------------------------------------------------------------------

  /** A run of consecutive slots. */
  datatype Segment = Segment(base: nat, size: nat)

  function SegmentSlots(s: Segment): (r: seq<nat>)
    ensures |r| == s.size
  {
    seq(s.size, i requires 0 <= i < s.size => s.base + i * TRB_SIZE)
  }

  /** The slots of the first `e` segments, in ring order. */
  function SlotsUpTo(segs: seq<Segment>, e: nat): seq<nat>
    requires e <= |segs|
  {
    if e == 0 then [] else SlotsUpTo(segs, e - 1) + SegmentSlots(segs[e - 1])
  }

  function Slots(segs: seq<Segment>): seq<nat> { SlotsUpTo(segs, |segs|) }

  /** The position of the first slot of segment `e`. */
  function Start(segs: seq<Segment>, e: nat): nat
    requires e <= |segs|
  {
    if e == 0 then 0 else Start(segs, e - 1) + segs[e - 1].size
  }

  lemma {:induction false} StartIsLength(segs: seq<Segment>, e: nat)
    requires e <= |segs|
    ensures |SlotsUpTo(segs, e)| == Start(segs, e)
  {
    if e > 0 { StartIsLength(segs, e - 1); }
  }

  lemma {:induction false} SlotInSegmentUpTo(segs: seq<Segment>, upTo: nat, e: nat, off: nat)
    requires e < upTo <= |segs| && off < segs[e].size
    ensures Start(segs, e) + off < |SlotsUpTo(segs, upTo)|
    ensures SlotsUpTo(segs, upTo)[Start(segs, e) + off] == segs[e].base + off * TRB_SIZE
    decreases upTo
  {
    StartIsLength(segs, upTo - 1);
    if e < upTo - 1 {
      SlotInSegmentUpTo(segs, upTo - 1, e, off);
    }
  }

  /** Slot number `Start(e) + off` is the `off`-th slot of segment `e`. */
  lemma SlotInSegment(segs: seq<Segment>, e: nat, off: nat)
    requires e < |segs| && off < segs[e].size
    ensures Start(segs, e) + off < |Slots(segs)|
    ensures Slots(segs)[Start(segs, e) + off] == segs[e].base + off * TRB_SIZE
  {
    SlotInSegmentUpTo(segs, |segs|, e, off);
  }

  /** Segments that do not share a byte give a ring whose slots do not share a byte. */
  ghost predicate SegmentsApart(segs: seq<Segment>) {
    forall i, j | 0 <= i < j < |segs| ::
      Apart(segs[i].base, segs[i].size * TRB_SIZE, segs[j].base, segs[j].size * TRB_SIZE)
  }

  lemma {:induction false} SlotsStayInSegments(segs: seq<Segment>, e: nat, k: nat) returns (s: nat, off: nat)
    requires e <= |segs| && k < |SlotsUpTo(segs, e)|
    ensures s < e && off < segs[s].size && SlotsUpTo(segs, e)[k] == segs[s].base + off * TRB_SIZE
    ensures k == Start(segs, s) + off
    decreases e
  {
    StartIsLength(segs, e - 1);
    if k < |SlotsUpTo(segs, e - 1)| {
      s, off := SlotsStayInSegments(segs, e - 1, k);
    } else {
      s, off := e - 1, k - |SlotsUpTo(segs, e - 1)|;
    }
  }

  lemma OffsetsApart(a: Segment, i: nat, b: Segment, j: nat)
    requires i < a.size && j < b.size
    requires Apart(a.base, a.size * TRB_SIZE, b.base, b.size * TRB_SIZE)
    ensures Apart(a.base + i * TRB_SIZE, TRB_SIZE, b.base + j * TRB_SIZE, TRB_SIZE)
  {
  }

  lemma {:induction false} StartGrows(segs: seq<Segment>, d: nat, e: nat)
    requires d < e <= |segs|
    ensures Start(segs, d) + segs[d].size <= Start(segs, e)
    decreases e
  {
    if d < e - 1 { StartGrows(segs, d, e - 1); }
  }

  lemma SegmentsMakeLayout(segs: seq<Segment>)
    requires SegmentsApart(segs) && 0 < |Slots(segs)|
    ensures Layout(Slots(segs))
  {
    var slots := Slots(segs);
    forall k, l | 0 <= k < l < |slots| ensures Apart(slots[k], TRB_SIZE, slots[l], TRB_SIZE) {
      var s, i := SlotsStayInSegments(segs, |segs|, k);
      var t, j := SlotsStayInSegments(segs, |segs|, l);
      if s < t {
        OffsetsApart(segs[s], i, segs[t], j);
      } else if t < s {
        OffsetsApart(segs[t], j, segs[s], i);
      }
    }
  }
}
