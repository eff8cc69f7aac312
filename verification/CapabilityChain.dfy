/** What walking the capability chain of a finished configuration space finds. */
module CapabilityChain {
  import opened Bytes
  import opened ConfigSpaces
  import opened RegisterSets

  /** Where capability `k` is placed. */
  function OffsetAt(caps: seq<Capability>, k: nat): (at: nat)
    requires k <= |caps|
    ensures at < 256 && at % 4 == 0
  {
    if k == 0 then INITIAL_CAPABILITY_OFFSET else NextOffset(OffsetAt(caps, k - 1), caps[k - 1])
  }

  function EndAt(caps: seq<Capability>, k: nat): nat
    requires k < |caps|
  {
    EndOf(OffsetAt(caps, k), caps[k])
  }

  /** The byte that points to capability `k`: the one in the header, or the one behind the ID before. */
  function PointerTo(caps: seq<Capability>, k: nat): (at: nat)
    requires k <= |caps|
    ensures at < SIZE
  {
    if k == 0 then CAPABILITIES_POINTER else OffsetAt(caps, k - 1) + 1
  }

  /** The builder accepts the whole list. */
  ghost predicate Accepted(caps: seq<Capability>) { forall k | 0 <= k < |caps| :: EndAt(caps, k) <= 255 }

  /** Every capability but the last ends early enough for the offset of the next one to fit eight bits. */
  ghost predicate LeavesRoom(caps: seq<Capability>) {
    forall k | 0 <= k < |caps| && k + 1 < |caps| :: EndAt(caps, k) <= 0xFC
  }

  /** The placements, from capability `k` on. */
  function OffsetsFrom(caps: seq<Capability>, k: nat): (r: seq<nat>)
    requires k <= |caps|
    ensures |r| == |caps| - k
    ensures forall i | 0 <= i < |r| :: r[i] == OffsetAt(caps, k + i)
    decreases |caps| - k
  {
    if k == |caps| then [] else [OffsetAt(caps, k)] + OffsetsFrom(caps, k + 1)
  }

  function PlanAfter(base: Cells, caps: seq<Capability>, n: nat): (p: Plan)
    requires |base| == SIZE && Accepted(caps) && n <= |caps|
    ensures |p.cells| == SIZE && p.next == OffsetAt(caps, n) && p.pointer == PointerTo(caps, n)
  {
    if n == 0 then Plan(base, INITIAL_CAPABILITY_OFFSET, CAPABILITIES_POINTER)
    else
      assert EndAt(caps, n - 1) <= 255;
      WithCapability(PlanAfter(base, caps, n - 1), caps[n - 1])
  }

  /** The finished space: capabilities added to `base`, then the last fields and the end of the chain. */
  function SpaceOf(base: Cells, caps: seq<Capability>, f: Finish): (r: Cells)
    requires |base| == SIZE && Accepted(caps)
    ensures |r| == SIZE
  {
    Finished(PlanAfter(base, caps, |caps|), f)
  }

  lemma {:induction false} SamePlacements(caps: seq<Capability>, c: Capability, k: nat)
    requires k <= |caps|
    ensures OffsetAt(caps + [c], k) == OffsetAt(caps, k)
  {
    if k > 0 {
      SamePlacements(caps, c, k - 1);
      assert (caps + [c])[k - 1] == caps[k - 1];
    }
  }

  lemma {:induction false} OneMoreAccepted(caps: seq<Capability>, c: Capability)
    requires Accepted(caps)
    ensures Accepted(caps + [c]) <==> EndOf(OffsetAt(caps, |caps|), c) <= 255
  {
    var more, n := caps + [c], |caps|;
    SamePlacements(caps, c, n);
    assert more[n] == c && EndAt(more, n) == EndOf(OffsetAt(caps, n), c);
    forall k | 0 <= k < n ensures EndAt(more, k) <= 255 {
      SamePlacements(caps, c, k);
      assert EndAt(more, k) == EndAt(caps, k);
    }
  }

  /** The builder takes one more capability exactly if that ends by the last byte but one. */
  lemma {:induction false} TakesOneMoreExactly(base: Cells, caps: seq<Capability>, c: Capability)
    requires |base| == SIZE && Accepted(caps)
    ensures Accepts(PlanAfter(base, caps, |caps|), c) <==> OffsetAt(caps, |caps|) + 2 + |c.body| <= 0xFF
    ensures Accepts(PlanAfter(base, caps, |caps|), c) <==> Accepted(caps + [c])
  {
    OneMoreAccepted(caps, c);
  }

  // ---------------------------------------------------------------------
  // Placement
  // ---------------------------------------------------------------------

  lemma RoundingUp(x: nat)
    requires x <= 0xFC
    ensures x <= Low8Aligned(x + 3) <= 0xFC && Low8Aligned(x + 3) < x + 4
  {
  }

  /** Capabilities lie behind the header, one behind the other. */
  lemma {:induction false} PlacementsAscend(caps: seq<Capability>, k: nat, l: nat)
    requires LeavesRoom(caps) && k < l < |caps|
    ensures INITIAL_CAPABILITY_OFFSET <= OffsetAt(caps, k) && EndAt(caps, k) <= OffsetAt(caps, l)
    decreases l
  {
    FirstPlacements(caps, k);
    if k + 1 < l {
      PlacementsAscend(caps, k, l - 1);
      assert EndAt(caps, l - 1) <= 0xFC;
      RoundingUp(EndAt(caps, l - 1));
    } else {
      assert EndAt(caps, k) <= 0xFC;
      RoundingUp(EndAt(caps, k));
    }
  }

  lemma {:induction false} FirstPlacements(caps: seq<Capability>, k: nat)
    requires LeavesRoom(caps) && k < |caps|
    ensures INITIAL_CAPABILITY_OFFSET <= OffsetAt(caps, k)
  {
    if k > 0 {
      FirstPlacements(caps, k - 1);
      assert EndAt(caps, k - 1) <= 0xFC;
      RoundingUp(EndAt(caps, k - 1));
    }
  }

  /** No byte is given away: the next capability starts at the first aligned offset behind the last one. */
  lemma PlacementsAreTight(caps: seq<Capability>, k: nat)
    requires LeavesRoom(caps) && k + 1 < |caps|
    ensures OffsetAt(caps, 0) == 0x40 && OffsetAt(caps, k + 1) % 4 == 0
    ensures var end := OffsetAt(caps, k) + 2 + |caps[k].body|; end <= OffsetAt(caps, k + 1) < end + 4
  {
    assert EndAt(caps, k) <= 0xFC;
    RoundingUp(EndAt(caps, k));
  }

  /** A fixed byte that leads to offset `at`. */
  ghost predicate PointsTo(c: Cell, at: nat) { c == ReadOnly(c.value) && PointerOf(c.value) == at }

  /** Capability `k` is where it belongs: pointer, ID and registers. */
  ghost predicate Holds(cells: Cells, caps: seq<Capability>, k: nat)
    requires |cells| == SIZE && k < |caps|
  {
    var at := OffsetAt(caps, k);
    && PointsTo(cells[PointerTo(caps, k)], at)
    && cells[at] == ReadOnly(caps[k].id)
    && at + 2 + |caps[k].body| <= 255
    && cells[at + 2..at + 2 + |caps[k].body|] == caps[k].body
  }

  /** Byte `i` belongs to capability `k`, without the byte that points on. */
  predicate Owns(caps: seq<Capability>, k: nat, i: nat)
    requires k < |caps|
  {
    OffsetAt(caps, k) <= i < EndAt(caps, k) && i != OffsetAt(caps, k) + 1
  }

  /** A change that spares the bytes of capability `k` spares the capability. */
  lemma HoldsUnchanged(a: Cells, b: Cells, caps: seq<Capability>, k: nat)
    requires |a| == |b| == SIZE && k < |caps| && Holds(a, caps, k)
    requires a[PointerTo(caps, k)] == b[PointerTo(caps, k)]
    requires forall i | 0 <= i < SIZE && Owns(caps, k, i) :: a[i] == b[i]
    ensures Holds(b, caps, k)
  {
    var at := OffsetAt(caps, k);
    var bodyA, bodyB := a[at + 2..at + 2 + |caps[k].body|], b[at + 2..at + 2 + |caps[k].body|];
    assert forall i | 0 <= i < |bodyA| :: bodyB[i] == bodyA[i];
  }

  lemma {:induction false} NewCapabilityHolds(base: Cells, caps: seq<Capability>, n: nat, k: nat)
    requires |base| == SIZE && Accepted(caps) && LeavesRoom(caps) && n == k + 1 <= |caps|
    ensures Holds(PlanAfter(base, caps, n).cells, caps, k)
  {
    var p := PlanAfter(base, caps, k);
    FirstPlacements(caps, k);
    if k > 0 { PlacementsAscend(caps, k - 1, k); }
    assert EndAt(caps, k) <= 255;
    AddedShows(p, caps[k]);
    PointerReadsBack(p.next);
  }

  lemma AddedShows(p: Plan, c: Capability)
    requires Accepts(p, c) && p.pointer < p.next
    ensures var q := WithCapability(p, c).cells;
      && q[p.pointer] == ReadOnly(p.next as bv8) && q[p.next] == ReadOnly(c.id)
      && q[p.next + 2..p.next + 2 + |c.body|] == c.body
  {
  }

  /** Adding a capability touches its own bytes and the pointer to it, nothing else. */
  lemma OnlyOwnBytesChange(base: Cells, caps: seq<Capability>, n: nat, i: nat)
    requires |base| == SIZE && Accepted(caps) && 0 < n <= |caps| && i < SIZE
    requires i != PointerTo(caps, n - 1) && i < OffsetAt(caps, n - 1)
    ensures PlanAfter(base, caps, n).cells[i] == PlanAfter(base, caps, n - 1).cells[i]
  {
    assert EndAt(caps, n - 1) <= 255;
  }

  /** The bytes of capability `k`, and the pointer to it, lie apart from the pointer to a later one and before it. */
  lemma {:induction false} EarlierBytes(caps: seq<Capability>, k: nat, n: nat, i: nat)
    requires LeavesRoom(caps) && k < n <= |caps| && (i == PointerTo(caps, k) || Owns(caps, k, i))
    ensures i != PointerTo(caps, n)
    ensures i == CAPABILITIES_POINTER || INITIAL_CAPABILITY_OFFSET <= i
    ensures n < |caps| ==> i < OffsetAt(caps, n)
  {
    FirstPlacements(caps, k);
    if k > 0 {
      FirstPlacements(caps, k - 1);
      PlacementsAscend(caps, k - 1, k);
    }
    if k < n - 1 { PlacementsAscend(caps, k, n - 1); }
    if n < |caps| { PlacementsAscend(caps, k, n); }
  }

  lemma {:induction false} CapabilitiesStayPut(base: Cells, caps: seq<Capability>, n: nat, k: nat)
    requires |base| == SIZE && Accepted(caps) && LeavesRoom(caps) && k < n <= |caps|
    ensures Holds(PlanAfter(base, caps, n).cells, caps, k)
    decreases n
  {
    if k == n - 1 {
      NewCapabilityHolds(base, caps, n, k);
    } else {
      CapabilitiesStayPut(base, caps, n - 1, k);
      NextCapabilitySpares(base, caps, n, k);
    }
  }

  lemma EarlierByteStays(base: Cells, caps: seq<Capability>, n: nat, k: nat, i: nat)
    requires |base| == SIZE && Accepted(caps) && LeavesRoom(caps) && k < n - 1 < |caps| && i < SIZE
    requires i == PointerTo(caps, k) || Owns(caps, k, i)
    ensures PlanAfter(base, caps, n - 1).cells[i] == PlanAfter(base, caps, n).cells[i]
  {
    EarlierBytes(caps, k, n - 1, i);
    OnlyOwnBytesChange(base, caps, n, i);
  }

  lemma NextCapabilitySpares(base: Cells, caps: seq<Capability>, n: nat, k: nat)
    requires |base| == SIZE && Accepted(caps) && LeavesRoom(caps) && k < n - 1 < |caps|
    requires Holds(PlanAfter(base, caps, n - 1).cells, caps, k)
    ensures Holds(PlanAfter(base, caps, n).cells, caps, k)
  {
    var a, b := PlanAfter(base, caps, n - 1).cells, PlanAfter(base, caps, n).cells;
    EarlierByteStays(base, caps, n, k, PointerTo(caps, k));
    forall i | 0 <= i < SIZE && Owns(caps, k, i) ensures a[i] == b[i] {
      EarlierByteStays(base, caps, n, k, i);
    }
    HoldsUnchanged(a, b, caps, k);
  }

  lemma FinishKeepsUpperHalf(p: Plan, f: Finish, i: nat)
    requires |p.cells| == SIZE && p.pointer < SIZE && i < SIZE && i != p.pointer
    requires i == CAPABILITIES_POINTER || INITIAL_CAPABILITY_OFFSET <= i
    ensures Finished(p, f)[i] == p.cells[i]
  {
  }

  /** In the finished space every capability is in its place, and the chain ends behind the last one. */
  lemma FinishedHoldsAll(base: Cells, caps: seq<Capability>, f: Finish, k: nat)
    requires |base| == SIZE && Accepted(caps) && LeavesRoom(caps) && k < |caps|
    ensures Holds(SpaceOf(base, caps, f), caps, k)
  {
    var p := PlanAfter(base, caps, |caps|);
    CapabilitiesStayPut(base, caps, |caps|, k);
    FinishSpares(p, f, caps, k);
  }

  lemma FinishSpares(p: Plan, f: Finish, caps: seq<Capability>, k: nat)
    requires |p.cells| == SIZE && p.pointer == PointerTo(caps, |caps|) && LeavesRoom(caps) && k < |caps|
    requires Holds(p.cells, caps, k)
    ensures Holds(Finished(p, f), caps, k)
  {
    forall i | 0 <= i < SIZE && (i == PointerTo(caps, k) || Owns(caps, k, i)) ensures p.cells[i] == Finished(p, f)[i] {
      EarlierBytes(caps, k, |caps|, i);
      FinishKeepsUpperHalf(p, f, i);
    }
    HoldsUnchanged(p.cells, Finished(p, f), caps, k);
  }

  // ---------------------------------------------------------------------
  // The walk
  // ---------------------------------------------------------------------

  /** From the byte that points to capability `k` the walk goes there, or ends behind the last one. */
  ghost predicate LeadsOn(cells: Cells, caps: seq<Capability>, k: nat)
    requires |cells| == SIZE && k <= |caps|
  {
    var p := PointerAt(cells, PointerTo(caps, k));
    if k < |caps| then p != 0 && p == OffsetAt(caps, k) else p == 0
  }

  lemma {:induction false} WalkFollowsPointers(cells: Cells, caps: seq<Capability>, k: nat, fuel: nat)
    requires |cells| == SIZE && k <= |caps| <= k + fuel
    requires forall i | 0 <= i <= |caps| :: LeadsOn(cells, caps, i)
    ensures Walk(cells, PointerTo(caps, k), fuel) == OffsetsFrom(caps, k)
    decreases fuel
  {
    assert LeadsOn(cells, caps, k);
    if k < |caps| {
      assert PointerTo(caps, k + 1) == OffsetAt(caps, k) + 1;
      WalkFollowsPointers(cells, caps, k + 1, fuel - 1);
    }
  }

  /** Fixed bytes that hold the pointers lead on; the placements are never zero. */
  lemma {:induction false} PointersLeadOn(cells: Cells, caps: seq<Capability>, k: nat)
    requires |cells| == SIZE && LeavesRoom(caps) && k <= |caps|
    requires PointsTo(cells[PointerTo(caps, k)], if k < |caps| then OffsetAt(caps, k) else 0)
    ensures LeadsOn(cells, caps, k)
  {
    if k < |caps| { FirstPlacements(caps, k); }
  }

  /** However long a walk is, it never comes to offset zero. */
  lemma {:induction false} WalkAvoidsZero(cells: Cells, at: nat, fuel: nat)
    requires |cells| == SIZE && at < SIZE
    ensures 0 !in Walk(cells, at, fuel)
    decreases fuel
  {
    if fuel > 0 {
      PointersLeaveRoom(cells[at].value);
      var p := PointerAt(cells, at);
      if p != 0 { WalkAvoidsZero(cells, p + 1, fuel - 1); }
    }
  }

  /** A list of capabilities with room between them is found completely and in order, and the walk ends. */
  lemma {:induction false} WalkFindsAll(base: Cells, caps: seq<Capability>, f: Finish, fuel: nat)
    requires |base| == SIZE && Accepted(caps) && LeavesRoom(caps) && |caps| <= fuel
    ensures Walk(SpaceOf(base, caps, f), 0x34, fuel) == OffsetsFrom(caps, 0)
  {
    var space := SpaceOf(base, caps, f);
    forall i | 0 <= i <= |caps| ensures LeadsOn(space, caps, i) {
      if i < |caps| { FinishedHoldsAll(base, caps, f, i); } else { EndOfChain(base, caps, f); }
      PointersLeadOn(space, caps, i);
    }
    WalkFollowsPointers(space, caps, 0, fuel);
  }

  /** One that reaches past 0xFC without being the last sends the next one to offset zero. */
  lemma {:induction false} NoRoomMeansZero(caps: seq<Capability>, k: nat)
    requires Accepted(caps) && k + 1 < |caps| && 0xFC < EndAt(caps, k)
    ensures OffsetAt(caps, k + 1) == 0
  {
  }

  /**
   * Among the lists the builder accepts, the walk finds exactly the placements if and only if no
   * capability but the last reaches past offset 0xFC.
   */
  lemma {:induction false} WalkFindsAllExactly(base: Cells, caps: seq<Capability>, f: Finish)
    requires |base| == SIZE && Accepted(caps)
    ensures LeavesRoom(caps) <==>
      (forall fuel: nat | |caps| <= fuel ::
        Walk(SpaceOf(base, caps, f), 0x34, fuel) == OffsetsFrom(caps, 0))
  {
    var space := SpaceOf(base, caps, f);
    if LeavesRoom(caps) {
      forall fuel: nat | |caps| <= fuel ensures Walk(space, 0x34, fuel) == OffsetsFrom(caps, 0) {
        WalkFindsAll(base, caps, f, fuel);
      }
    } else {
      var k :| 0 <= k < |caps| && k + 1 < |caps| && 0xFC < EndAt(caps, k);
      NoRoomMeansZero(caps, k);
      assert OffsetsFrom(caps, 0)[k + 1] == 0;
      WalkAvoidsZero(space, CAPABILITIES_POINTER, |caps|);
    }
  }

  /** Such a list exists: 0xBC bytes of registers put the second capability over the vendor ID. */
  lemma SecondCapabilityMayLandAtZero(id: bv8)
    ensures var big := Capability(id, seq<Cell>(0xBC, i => ReadOnly(0))); var caps := [big, Capability(id, [])];
      Accepted(caps) && !LeavesRoom(caps) && OffsetAt(caps, 1) == 0
  {
    var big := Capability(id, seq<Cell>(0xBC, i => ReadOnly(0)));
    var caps := [big, Capability(id, [])];
    assert OffsetAt(caps, 0) == 0x40 && EndAt(caps, 0) == 0xFE;
    NoRoomLeft(caps);
  }

  lemma {:induction false} NoRoomLeft(caps: seq<Capability>)
    requires |caps| == 2 && EndAt(caps, 0) == 0xFE && caps[1].body == []
    ensures OffsetAt(caps, 1) == 0 && Accepted(caps) && !LeavesRoom(caps)
  {
    assert OffsetAt(caps, 1) == NextOffset(OffsetAt(caps, 0), caps[0]);
  }

  /** The status register reads as the given status, with bit 4 set exactly if it was or there is a capability. */
  lemma StatusAnnouncesChain(base: Cells, caps: seq<Capability>, f: Finish)
    requires |base| == SIZE && Accepted(caps) && LeavesRoom(caps) && f.status < 0x1_0000
    ensures NumberAt(SpaceOf(base, caps, f), 0x06, 2) ==
      f.status + (if caps != [] && f.status / 0x10 % 2 == 0 then 0x10 else 0)
  {
    if caps != [] {
      FirstPlacements(caps, |caps| - 1);
      assert EndAt(caps, |caps| - 1) <= 255;
      OffsetLeavesStart(caps);
    }
    BitFour(f.status);
    FinishShowsStatus(PlanAfter(base, caps, |caps|), f);
  }

  lemma {:induction false} OffsetLeavesStart(caps: seq<Capability>)
    requires caps != [] && INITIAL_CAPABILITY_OFFSET <= OffsetAt(caps, |caps| - 1) && EndAt(caps, |caps| - 1) <= 255
    ensures OffsetAt(caps, |caps|) != INITIAL_CAPABILITY_OFFSET
  {
    NeverBackToStart(OffsetAt(caps, |caps| - 1), caps[|caps| - 1]);
  }

  lemma NeverBackToStart(at: nat, c: Capability)
    requires INITIAL_CAPABILITY_OFFSET <= at && EndOf(at, c) <= 255
    ensures NextOffset(at, c) != INITIAL_CAPABILITY_OFFSET
  {
    if EndOf(at, c) <= 0xFC { RoundingUp(EndOf(at, c)); } else { PastTheEnd(EndOf(at, c)); }
  }

  lemma PastTheEnd(x: nat)
    requires 0xFC < x <= 0xFF
    ensures Low8Aligned(x + 3) == 0
  {
  }

  lemma {:induction false} BitFour(n: nat)
    ensures Bit(n, 4) <==> n / 16 % 2 == 1
  {
    assert Bit(n, 4) == Bit(n / 2, 3) == Bit(n / 2 / 2, 2) == Bit(n / 2 / 2 / 2, 1) == Bit(n / 2 / 2 / 2 / 2, 0);
    assert n / 2 / 2 / 2 / 2 == n / 16;
  }

  lemma StatusFits(status: nat, any: bool)
    requires status < 0x1_0000
    ensures StatusWith(status, any) < 0x1_0000
  {
    BitFour(status);
  }

  lemma FinishShowsStatus(p: Plan, f: Finish)
    requires |p.cells| == SIZE && p.pointer < SIZE && p.pointer != STATUS && p.pointer != STATUS + 1
    requires f.status < 0x1_0000
    ensures NumberAt(Finished(p, f), STATUS, 2) == StatusWith(f.status, p.next != INITIAL_CAPABILITY_OFFSET)
  {
    var status := StatusWith(f.status, p.next != INITIAL_CAPABILITY_OFFSET);
    StatusFits(f.status, p.next != INITIAL_CAPABILITY_OFFSET);
    TwoBytesHold(status);
    var cells := Finished(p, f);
    forall i | STATUS <= i < STATUS + 2 ensures cells[i].value == ToLe(status, 2)[i - STATUS] as bv8 {
      assert cells[i] == LeCells(status, 0, 0, 2)[i - STATUS];
      assert BytesOf(status, 2)[i - STATUS] == ToLe(status, 2)[i - STATUS] as bv8;
    }
    NumberIsFromLe(cells, STATUS, ToLe(status, 2));
  }

  lemma {:induction false} TwoBytesHold(n: nat)
    requires n < 0x1_0000
    ensures FromLe(ToLe(n, 2)) == n
  {
    assert Power256(2) == 256 * Power256(1);
    LeRoundTrip(n, 2);
  }

  // ---------------------------------------------------------------------
  // Guests that write
  // ---------------------------------------------------------------------

  /** No bit of a finished space is both writable and write-one-to-clear, so the builder's own check passes. */
  lemma {:induction false} PlansHaveDisjointMasks(base: Cells, caps: seq<Capability>, n: nat)
    requires |base| == SIZE && Accepted(caps) && n <= |caps| && MasksDisjoint(base)
    requires forall k | 0 <= k < |caps| :: MasksDisjoint(caps[k].body)
    ensures MasksDisjoint(PlanAfter(base, caps, n).cells)
  {
    if n > 0 {
      PlansHaveDisjointMasks(base, caps, n - 1);
      NextIsDisjoint(base, caps, n);
    }
  }

  lemma NextIsDisjoint(base: Cells, caps: seq<Capability>, n: nat)
    requires |base| == SIZE && Accepted(caps) && 0 < n <= |caps|
    requires MasksDisjoint(PlanAfter(base, caps, n - 1).cells) && MasksDisjoint(caps[n - 1].body)
    ensures MasksDisjoint(PlanAfter(base, caps, n).cells)
  {
    NextPlan(base, caps, n);
    AddedIsDisjoint(PlanAfter(base, caps, n - 1), caps[n - 1]);
  }

  lemma NextPlan(base: Cells, caps: seq<Capability>, n: nat)
    requires |base| == SIZE && Accepted(caps) && 0 < n <= |caps|
    ensures Accepts(PlanAfter(base, caps, n - 1), caps[n - 1])
    ensures PlanAfter(base, caps, n) == WithCapability(PlanAfter(base, caps, n - 1), caps[n - 1])
  {
    assert EndAt(caps, n - 1) <= 255;
  }

  lemma AddedIsDisjoint(p: Plan, c: Capability)
    requires Accepts(p, c) && MasksDisjoint(p.cells) && MasksDisjoint(c.body)
    ensures MasksDisjoint(WithCapability(p, c).cells)
  {
    ReadOnlyIsDisjoint(p.next as bv8);
    ReadOnlyIsDisjoint(c.id);
    var headed := p.cells[p.pointer := ReadOnly(p.next as bv8)][p.next := ReadOnly(c.id)];
    assert MasksDisjoint(headed);
    SpliceIsDisjoint(headed, p.next + HEADER_SIZE, c.body);
  }

  lemma ReadOnlyIsDisjoint(b: bv8)
    ensures ReadOnly(b).rw & ReadOnly(b).w1c == 0
  {
  }

  lemma SpliceIsDisjoint(cells: Cells, at: nat, part: Cells)
    requires at + |part| <= |cells| && MasksDisjoint(cells) && MasksDisjoint(part)
    ensures MasksDisjoint(Splice(cells, at, part))
  {
    var r := Splice(cells, at, part);
    forall i | 0 <= i < |r| ensures r[i].rw & r[i].w1c == 0 {
      assert r[i] == if at <= i < at + |part| then part[i - at] else cells[i];
    }
  }

  lemma FinishedIsDisjoint(p: Plan, f: Finish)
    requires |p.cells| == SIZE && p.pointer < SIZE && MasksDisjoint(p.cells)
    ensures MasksDisjoint(Finished(p, f))
  {
    var status := LeCells(StatusWith(f.status, p.next != INITIAL_CAPABILITY_OFFSET), 0, 0, 2);
    assert MasksDisjoint(status)
      by { LeReadOnlyIsDisjoint(StatusWith(f.status, p.next != INITIAL_CAPABILITY_OFFSET), 2); }
    var irq := p.cells[IRQ_LINE := Cell(f.irqLine, 0xFF, 0)][IRQ_PIN := ReadOnly(f.irqPin)];
    SpliceIsDisjoint(irq, STATUS, status);
  }

  lemma LeReadOnlyIsDisjoint(value: nat, n: nat)
    ensures MasksDisjoint(LeCells(value, 0, 0, n))
  {
    forall i | 0 <= i < n ensures BytesOf(0, n)[i] == 0 { ZeroBytes(n, i); }
  }

  lemma {:induction false} ZeroBytes(n: nat, i: nat)
    requires i < n
    ensures ToLe(0, n)[i] == 0
  {
    if i > 0 { ZeroBytes(n - 1, i - 1); }
  }

  /**
   * Whatever a guest has written to the finished space, it still finds every capability, in order
   * and with the same IDs. What it can do to the registers behind them is `WritesKeepFixedBits`.
   */
  lemma {:induction false} ChainSurvivesWrites(
    base: Cells, caps: seq<Capability>, f: Finish, ws: seq<Access>, fuel: nat)
    requires |base| == SIZE && Accepted(caps) && LeavesRoom(caps) && |caps| <= fuel
    requires MasksDisjoint(base) && forall k | 0 <= k < |caps| :: MasksDisjoint(caps[k].body)
    requires forall i | 0 <= i < |ws| :: ws[i].size <= 8
    ensures var r := AfterWrites(SpaceOf(base, caps, f), ws, |ws|);
      && Walk(r, 0x34, fuel) == OffsetsFrom(caps, 0)
      && (forall k | 0 <= k < |caps| :: r[OffsetAt(caps, k)] == ReadOnly(caps[k].id))
  {
    var space := SpaceOf(base, caps, f);
    var r := AfterWrites(space, ws, |ws|);
    PlansHaveDisjointMasks(base, caps, |caps|);
    FinishedIsDisjoint(PlanAfter(base, caps, |caps|), f);
    forall k | 0 <= k <= |caps| ensures LeadsOn(r, caps, k) {
      if k < |caps| { FinishedHoldsAll(base, caps, f, k); } else { EndOfChain(base, caps, f); }
      ReadOnlyBytesStay(space, ws, |ws|, PointerTo(caps, k));
      PointersLeadOn(r, caps, k);
    }
    forall k | 0 <= k < |caps| ensures r[OffsetAt(caps, k)] == ReadOnly(caps[k].id) {
      FinishedHoldsAll(base, caps, f, k);
      ReadOnlyBytesStay(space, ws, |ws|, OffsetAt(caps, k));
    }
    WalkFollowsPointers(r, caps, 0, fuel);
  }

  lemma EndOfChain(base: Cells, caps: seq<Capability>, f: Finish)
    requires |base| == SIZE && Accepted(caps)
    ensures PointsTo(SpaceOf(base, caps, f)[PointerTo(caps, |caps|)], 0)
  {
    assert SpaceOf(base, caps, f)[PointerTo(caps, |caps|)] == ReadOnly(0);
    PointerZero();
  }

  lemma PointerZero()
    ensures PointerOf(0) == 0
  {
  }
}
