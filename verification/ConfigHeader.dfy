/**
 * What a guest finds in the first 64 bytes of a finished configuration space: the type 0 header of
 * section 6.1 of the PCI Local Bus Specification 3.0, byte by byte, with the bits it may write.
 */
module ConfigHeader {
  import opened Bytes
  import opened CapabilityChain
  import opened ConfigSpaces
  import opened RegisterSets

  /** What the builder was told about the device. */
  datatype Device = Device(vendor: nat, device: nat, class_: bv8, subclass: bv8, progIf: bv8, f: Finish)

  /** The space before capabilities and last fields, with the class filled in. */
  function Classified(d: Device): (r: Cells)
    ensures |r| == SIZE
  {
    StandardFields(d.vendor, d.device)[CLASS := ReadOnly(d.class_)][SUBCLASS := ReadOnly(d.subclass)]
      [PROG_IF := ReadOnly(d.progIf)]
  }

  /** Byte `i` of the header, all bytes but the status register. */
  function HeaderCell(d: Device, anyCapability: bool, i: nat): Cell {
    if i < 2 then ReadOnly(BytesOf(d.vendor, 2)[i])
    else if i < 4 then ReadOnly(BytesOf(d.device, 2)[i - 2])
    else if i == 4 then Cell(0, 0x7F, 0)
    else if i == 5 then Cell(0, 0x07, 0)
    else if i == 8 then ReadOnly(d.f.revision)
    else if i == 9 then ReadOnly(d.progIf)
    else if i == 10 then ReadOnly(d.subclass)
    else if i == 11 then ReadOnly(d.class_)
    else if i == 12 || i == 13 then Cell(0, 0xFF, 0)
    else if i == 14 then ReadOnly(if d.f.multifunction then 0x80 else 0)
    else if i == 0x34 then ReadOnly(if anyCapability then 0x40 else 0)
    else if i == 0x3C then Cell(d.f.irqLine, 0xFF, 0)
    else if i == 0x3D then ReadOnly(d.f.irqPin)
    else if i == 15 || 0x10 <= i < 0x28 || 0x30 <= i < 0x34 || 0x3E <= i then ReadOnly(0)
    else ReadOnly(0xFF)
  }

  lemma NoBits(n: nat, i: nat)
    requires i < n
    ensures BytesOf(0, n)[i] == 0
  {
    ZeroBytes(n, i);
  }

  lemma CommandBits()
    ensures BytesOf(0x077F, 2)[0] == 0x7F && BytesOf(0x077F, 2)[1] == 0x07
  {
    assert ToLe(0x077F, 2)[0] == 0x7F && ToLe(0x077F, 2)[1] == 0x07;
  }

  lemma CommandCells(i: nat)
    requires i < 2
    ensures LeCells(0, 0x077F, 0, 2)[i] == Cell(0, if i == 0 then 0x7F else 0x07, 0)
  {
    NoBits(2, i);
    CommandBits();
  }

  lemma FixedCells(value: nat, n: nat, i: nat)
    requires i < n
    ensures LeCells(value, 0, 0, n)[i] == ReadOnly(BytesOf(value, n)[i])
  {
    NoBits(n, i);
  }

  lemma ZeroCells(n: nat, i: nat)
    requires i < n
    ensures LeCells(0, 0, 0, n)[i] == ReadOnly(0)
  {
    NoBits(n, i);
  }

  /** The base address registers read as zero and take no write. */
  lemma {:induction false} UnusedBarsAre(c: Cells, n: nat, i: nat)
    requires |c| == SIZE && n <= 6 && i < SIZE
    ensures UnusedBars(c, n)[i] == if 0x10 <= i < 0x10 + 4 * n then ReadOnly(0) else c[i]
  {
    if n > 0 {
      UnusedBarsAre(c, n - 1, i);
      if 0x10 + 4 * (n - 1) <= i < 0x10 + 4 * n { ZeroCells(4, i - (0x10 + 4 * (n - 1))); }
    }
  }

  lemma IdentityShows(c: Cells, vendor: nat, device: nat, i: nat)
    requires |c| == SIZE && i < SIZE
    ensures Identity(c, vendor, device)[i] ==
      if i < 2 then ReadOnly(BytesOf(vendor, 2)[i])
      else if i < 4 then ReadOnly(BytesOf(device, 2)[i - 2])
      else if i == 4 then Cell(0, 0x7F, 0)
      else if i == 5 then Cell(0, 0x07, 0)
      else if i == 12 || i == 13 then Cell(0, 0xFF, 0)
      else if i == 15 then ReadOnly(0)
      else c[i]
  {
    if i < 2 { FixedCells(vendor, 2, i); }
    else if i < 4 { FixedCells(device, 2, i - 2); }
    else if i == 4 { CommandCells(0); }
    else if i == 5 { CommandCells(1); }
  }

  lemma ZeroesShow(c: Cells, i: nat)
    requires |c| == SIZE && i < SIZE
    ensures Zeroes(c)[i] ==
      if 0x10 <= i < 0x28 || 0x30 <= i < 0x34 || i == 0x3E || i == 0x3F then ReadOnly(0) else c[i]
  {
    var zeroed := Splice(c, ROM_BAR, LeCells(0, 0, 0, 4))[MIN_GNT := ReadOnly(0)][MAX_LAT := ReadOnly(0)];
    UnusedBarsAre(zeroed, 6, i);
    if 0x30 <= i < 0x34 { ZeroCells(4, i - 0x30); }
  }

  lemma AddingSparesHeader(p: Plan, c: Capability, i: nat)
    requires Accepts(p, c) && i < 0x40 <= p.next
    ensures WithCapability(p, c).cells[i] == if i == p.pointer then ReadOnly(p.next as bv8) else p.cells[i]
  {
  }

  lemma {:induction false} FirstCapability(caps: seq<Capability>)
    ensures ReadOnly(OffsetAt(caps, 0) as bv8) == ReadOnly(0x40)
  {
  }

  lemma {:induction false} PointersAreOutside(caps: seq<Capability>, n: nat)
    requires LeavesRoom(caps) && n < |caps|
    ensures 0x40 <= OffsetAt(caps, n) && (n == 0 ==> OffsetAt(caps, n) == 0x40)
    ensures if n == 0 then PointerTo(caps, n) == 0x34 else 0x40 <= PointerTo(caps, n)
  {
    FirstPlacements(caps, n);
    if 0 < n { FirstPlacements(caps, n - 1); }
  }

  /** Byte `i` of the header after `n` capabilities. */
  ghost predicate Spared(base: Cells, caps: seq<Capability>, n: nat, i: nat)
    requires |base| == SIZE && Accepted(caps) && n <= |caps| && i < 0x40
  {
    PlanAfter(base, caps, n).cells[i] == if i == 0x34 && 0 < n then ReadOnly(OffsetAt(caps, 0) as bv8) else base[i]
  }

  lemma OneMoreCapability(base: Cells, caps: seq<Capability>, n: nat, i: nat)
    requires |base| == SIZE && Accepted(caps) && 0 < n <= |caps| && i < 0x40 <= OffsetAt(caps, n - 1)
    ensures PlanAfter(base, caps, n).cells[i] ==
      if i == PointerTo(caps, n - 1) then ReadOnly(OffsetAt(caps, n - 1) as bv8)
      else PlanAfter(base, caps, n - 1).cells[i]
  {
    NextPlan(base, caps, n);
    AddingSparesHeader(PlanAfter(base, caps, n - 1), caps[n - 1], i);
  }

  lemma CapabilitySparesHeader(base: Cells, caps: seq<Capability>, n: nat, i: nat)
    requires |base| == SIZE && Accepted(caps) && LeavesRoom(caps) && 0 < n <= |caps| && i < 0x40
    requires Spared(base, caps, n - 1, i)
    ensures Spared(base, caps, n, i)
  {
    PointersAreOutside(caps, n - 1);
    OneMoreCapability(base, caps, n, i);
    if i == 0x34 && n == 1 { assert i == PointerTo(caps, n - 1); } else { assert i != PointerTo(caps, n - 1); }
  }

  /** Capabilities leave the header alone, except for the byte that points to the first. */
  lemma {:induction false} CapabilitiesSpareHeader(base: Cells, caps: seq<Capability>, n: nat, i: nat)
    requires |base| == SIZE && Accepted(caps) && LeavesRoom(caps) && n <= |caps| && i < 0x40
    ensures Spared(base, caps, n, i)
  {
    if n > 0 {
      CapabilitiesSpareHeader(base, caps, n - 1, i);
      CapabilitySparesHeader(base, caps, n, i);
    }
  }

  lemma FinishShows(p: Plan, f: Finish, i: nat)
    requires |p.cells| == SIZE && p.pointer < SIZE && i < 0x40 && i != 6 && i != 7
    ensures Finished(p, f)[i] ==
      if i == p.pointer then ReadOnly(0)
      else if i == 8 then ReadOnly(f.revision)
      else if i == 14 then ReadOnly(if f.multifunction then 0x80 else 0)
      else if i == 0x3C then Cell(f.irqLine, 0xFF, 0)
      else if i == 0x3D then ReadOnly(f.irqPin)
      else p.cells[i]
  {
  }

  /** The space before any capability, byte by byte. */
  lemma ClassifiedShows(d: Device, i: nat)
    requires i < SIZE && (i < 0x40 ==> i != 6 && i != 7 && i != 8 && i != 14 && i != 0x34 && i != 0x3C && i != 0x3D)
    ensures Classified(d)[i] == if i < 0x40 then HeaderCell(d, false, i) else ReadOnly(0xFF)
  {
    var blank := seq<Cell>(SIZE, k => ReadOnly(0xFF));
    IdentityShows(blank, d.vendor, d.device, i);
    ZeroesShow(Identity(blank, d.vendor, d.device), i);
  }

  lemma FinishedHeader(d: Device, p: Plan, anyCapability: bool, i: nat)
    requires |p.cells| == SIZE && i < 0x40 && i != 6 && i != 7
    requires p.pointer < SIZE && (if anyCapability then 0x40 <= p.pointer else p.pointer == 0x34)
    requires p.cells[i] == if i == 0x34 && anyCapability then ReadOnly(0x40) else Classified(d)[i]
    ensures Finished(p, d.f)[i] == HeaderCell(d, anyCapability, i)
  {
    FinishShows(p, d.f, i);
    if i != 8 && i != 14 && i != 0x34 && i != 0x3C && i != 0x3D { ClassifiedShows(d, i); }
  }

  /** Every byte of the header is what the builder was told, whatever capabilities were added. */
  lemma HeaderShowsDevice(d: Device, caps: seq<Capability>, i: nat)
    requires Accepted(caps) && LeavesRoom(caps) && i < 0x40 && i != 6 && i != 7
    ensures SpaceOf(Classified(d), caps, d.f)[i] == HeaderCell(d, caps != [], i)
  {
    FirstCapability(caps);
    CapabilitiesSpareHeader(Classified(d), caps, |caps|, i);
    if caps != [] { FirstPlacements(caps, |caps| - 1); }
    FinishedHeader(d, PlanAfter(Classified(d), caps, |caps|), caps != [], i);
  }

  /** The two numbers a driver is found by. */
  lemma IdentityReads(d: Device, caps: seq<Capability>)
    requires Accepted(caps) && LeavesRoom(caps) && d.vendor < 0x1_0000 && d.device < 0x1_0000
    ensures var space := SpaceOf(Classified(d), caps, d.f);
      NumberAt(space, 0, 2) == d.vendor && NumberAt(space, 2, 2) == d.device
  {
    var space := SpaceOf(Classified(d), caps, d.f);
    forall i | 0 <= i < 4 ensures space[i] == HeaderCell(d, caps != [], i) { HeaderShowsDevice(d, caps, i); }
    TwoBytesHold(d.vendor);
    TwoBytesHold(d.device);
    NumberIsFromLe(space, 0, ToLe(d.vendor, 2));
    NumberIsFromLe(space, 2, ToLe(d.device, 2));
  }

  /** No bit of the standard fields is both writable and write-one-to-clear. */
  lemma ClassifiedIsDisjoint(d: Device)
    ensures MasksDisjoint(Classified(d))
  {
    forall i | 0 <= i < SIZE ensures Classified(d)[i].w1c == 0 { NothingIsW1C(d, i); }
    forall i | 0 <= i < SIZE ensures Classified(d)[i].rw & Classified(d)[i].w1c == 0 {
      NoOverlapWithZero(Classified(d)[i]);
    }
  }

  lemma NoOverlapWithZero(c: Cell)
    requires c.w1c == 0
    ensures c.rw & c.w1c == 0
  {
  }

  lemma NothingIsW1C(d: Device, i: nat)
    requires i < SIZE
    ensures Classified(d)[i].w1c == 0
  {
    var blank := seq<Cell>(SIZE, k => ReadOnly(0xFF));
    IdentityShows(blank, d.vendor, d.device, i);
    ZeroesShow(Identity(blank, d.vendor, d.device), i);
  }

  /** The builder's own check of the masks passes. */
  lemma SpaceIsDisjoint(d: Device, caps: seq<Capability>)
    requires Accepted(caps) && forall k | 0 <= k < |caps| :: MasksDisjoint(caps[k].body)
    ensures MasksDisjoint(SpaceOf(Classified(d), caps, d.f))
  {
    ClassifiedIsDisjoint(d);
    PlansHaveDisjointMasks(Classified(d), caps, |caps|);
    FinishedIsDisjoint(PlanAfter(Classified(d), caps, |caps|), d.f);
  }

  /** Every byte of the header that is fixed stays so, whatever a guest writes to the space. */
  lemma {:induction false} HeaderSurvivesWrites(d: Device, caps: seq<Capability>, ws: seq<Access>, n: nat, i: nat)
    requires Accepted(caps) && LeavesRoom(caps) && i < 0x40 && i != 6 && i != 7
    requires forall k | 0 <= k < |caps| :: MasksDisjoint(caps[k].body)
    requires n <= |ws| && forall k | 0 <= k < |ws| :: ws[k].size <= 8
    requires i != 4 && i != 5 && i != 12 && i != 13 && i != 0x3C
    ensures AfterWrites(SpaceOf(Classified(d), caps, d.f), ws, n)[i] == HeaderCell(d, caps != [], i)
  {
    SpaceIsDisjoint(d, caps);
    HeaderShowsDevice(d, caps, i);
    ReadOnlyBytesStay(SpaceOf(Classified(d), caps, d.f), ws, n, i);
  }
}
