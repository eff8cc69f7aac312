/**
 * PCI configuration space: capabilities are placed one behind the other and chained by pointers.
 * A guest that follows the chain as in section 6.7 of the PCI Local Bus Specification 3.0 finds them
 * all, in order, whatever it has written before.
 */
module ConfigSpaces {
  import opened Bytes
  import opened RegisterSets
  import opened Wrappers

  const SIZE: nat := 256
  const INITIAL_CAPABILITY_OFFSET: nat := 0x40
  const CAPABILITIES_POINTER: nat := 0x34
  const HEADER_SIZE: nat := 2

  const VENDOR: nat := 0x00
  const DEVICE: nat := 0x02
  const COMMAND: nat := 0x04
  const STATUS: nat := 0x06
  const REVISION: nat := 0x08
  const PROG_IF: nat := 0x09
  const SUBCLASS: nat := 0x0A
  const CLASS: nat := 0x0B
  const CACHE_LINE_SIZE: nat := 0x0C
  const LATENCY_TIMER: nat := 0x0D
  const HEADER_TYPE: nat := 0x0E
  const BIST: nat := 0x0F
  const BAR_0: nat := 0x10
  const MAX_BARS: nat := 6
  const ROM_BAR: nat := 0x30
  const IRQ_LINE: nat := 0x3C
  const IRQ_PIN: nat := 0x3D
  const MIN_GNT: nat := 0x3E
  const MAX_LAT: nat := 0x3F

  const COMMAND_WRITABLE_BITS: nat := 0x077F
  const STATUS_CAPABILITIES: nat := 0x10
  const MULTIFUNCTION: bv8 := 0x80

  /** A capability: its ID and its registers behind the two header bytes. */
  datatype Capability = Capability(id: bv8, body: Cells)

  /** The registers so far, where the next capability goes, and which byte will point to it. */
  datatype Plan = Plan(cells: Cells, next: nat, pointer: nat)

  /** `x` as an 8-bit number, rounded down to a multiple of four. */
  function Low8Aligned(x: nat): nat { x % 256 - x % 256 % 4 }

  /** The bytes of a capability up to where the next one may start. */
  function EndOf(at: nat, c: Capability): nat { at + HEADER_SIZE + |c.body| }

  function NextOffset(at: nat, c: Capability): nat { Low8Aligned(EndOf(at, c) + 3) }

  predicate Accepts(p: Plan, c: Capability) {
    |p.cells| == SIZE && p.next < 256 && p.pointer < SIZE && EndOf(p.next, c) <= 255
  }

  function WithCapability(p: Plan, c: Capability): (q: Plan)
    requires Accepts(p, c)
    ensures |q.cells| == SIZE
  {
    var cells := p.cells[p.pointer := ReadOnly(p.next as bv8)][p.next := ReadOnly(c.id)];
    Plan(Splice(cells, p.next + HEADER_SIZE, c.body), NextOffset(p.next, c), p.next + 1)
  }

  function Identity(c: Cells, vendor: nat, device: nat): (r: Cells)
    requires |c| == SIZE
    ensures |r| == SIZE
  {
    var ids := Splice(Splice(c, VENDOR, LeCells(vendor, 0, 0, 2)), DEVICE, LeCells(device, 0, 0, 2));
    var command := Splice(ids, COMMAND, LeCells(0, COMMAND_WRITABLE_BITS, 0, 2));
    command[CACHE_LINE_SIZE := Cell(0, 0xFF, 0)][LATENCY_TIMER := Cell(0, 0xFF, 0)][BIST := ReadOnly(0)]
  }

  function Zeroes(c: Cells): (r: Cells)
    requires |c| == SIZE
    ensures |r| == SIZE
  {
    UnusedBars(Splice(c, ROM_BAR, LeCells(0, 0, 0, 4))[MIN_GNT := ReadOnly(0)][MAX_LAT := ReadOnly(0)], MAX_BARS)
  }

  /** The fixed fields every device has, over a space of set and fixed bits. */
  function StandardFields(vendor: nat, device: nat): (r: Cells)
    ensures |r| == SIZE
  {
    Zeroes(Identity(seq<Cell>(SIZE, i => ReadOnly(0xFF)), vendor, device))
  }

  function UnusedBars(c: Cells, n: nat): (r: Cells)
    requires |c| == SIZE && n <= MAX_BARS
    ensures |r| == SIZE
  {
    if n == 0 then c else Splice(UnusedBars(c, n - 1), BAR_0 + (n - 1) * 4, LeCells(0, 0, 0, 4))
  }

  /** The fields that are only written at the end. */
  datatype Finish = Finish(irqLine: bv8, irqPin: bv8, status: nat, revision: bv8, multifunction: bool)

  /** `status | CAPABILITIES` if any capability was added. */
  function StatusWith(status: nat, any: bool): nat {
    if any && !Bit(status, 4) then status + STATUS_CAPABILITIES else status
  }

  function Finished(p: Plan, f: Finish): (r: Cells)
    requires |p.cells| == SIZE && p.pointer < SIZE
    ensures |r| == SIZE
  {
    var irq := p.cells[IRQ_LINE := Cell(f.irqLine, 0xFF, 0)][IRQ_PIN := ReadOnly(f.irqPin)];
    var status := Splice(irq, STATUS, LeCells(StatusWith(f.status, p.next != INITIAL_CAPABILITY_OFFSET), 0, 0, 2));
    var header := status[REVISION := ReadOnly(f.revision)][HEADER_TYPE := ReadOnly(if f.multifunction
      then MULTIFUNCTION else 0)];
    header[p.pointer := ReadOnly(0)]
  }

  class ConfigSpaceBuilder {
    const registers: RegisterSetBuilder
    var multifunction: bool
    var revision: bv8
    var interruptPin: bv8
    var interruptLine: bv8
    var status: nat
    var nextCapabilityOffset: nat
    var lastCapabilityPointer: nat

    ghost predicate Valid() { registers.Valid() && registers.data.Length == SIZE }

    ghost function View(): (p: Plan)
      reads this, registers.data, registers.rwMask, registers.w1cMask
      requires Valid()
      ensures |p.cells| == SIZE
    {
      Plan(registers.View(), nextCapabilityOffset, lastCapabilityPointer)
    }

    ghost function Ending(): Finish reads this { Finish(interruptLine, interruptPin, status, revision, multifunction) }

    constructor (vendor: nat, device: nat)
      ensures Valid() && fresh(registers.data) && fresh(registers.rwMask) && fresh(registers.w1cMask)
      ensures View() == Plan(StandardFields(vendor, device), INITIAL_CAPABILITY_OFFSET, CAPABILITIES_POINTER)
      ensures Ending() == Finish(255, 0, 0, 0, false)
    {
      registers := new RegisterSetBuilder(SIZE);
      multifunction, revision, interruptPin, interruptLine, status := false, 0, 0, 255, 0;
      nextCapabilityOffset, lastCapabilityPointer := INITIAL_CAPABILITY_OFFSET, CAPABILITIES_POINTER;
      new;
      PlaceIdentity(vendor, device);
      PlaceZeroes();
    }

    method PlaceIdentity(vendor: nat, device: nat)
      requires Valid()
      modifies registers.data, registers.rwMask, registers.w1cMask
      ensures registers.View() == Identity(old(registers.View()), vendor, device)
    {
      registers.InitLe(VENDOR, vendor, 0, 0, 2);
      registers.InitLe(DEVICE, device, 0, 0, 2);
      registers.InitLe(COMMAND, 0, COMMAND_WRITABLE_BITS, 0, 2);
      registers.InitU8(CACHE_LINE_SIZE, 0, 0xFF, 0);
      registers.InitU8(LATENCY_TIMER, 0, 0xFF, 0);
      registers.InitU8(BIST, 0, 0, 0);
    }

    method PlaceZeroes()
      requires Valid()
      modifies registers.data, registers.rwMask, registers.w1cMask
      ensures registers.View() == Zeroes(old(registers.View()))
    {
      registers.InitLe(ROM_BAR, 0, 0, 0, 4);
      registers.InitU8(MIN_GNT, 0, 0, 0);
      registers.InitU8(MAX_LAT, 0, 0, 0);
      ghost var before := registers.View();
      for i := 0 to MAX_BARS
        invariant registers.View() == UnusedBars(before, i)
      {
        registers.InitLe(BAR_0 + i * 4, 0, 0, 0, 4);
      }
    }

    method Class(class_: bv8, subclass: bv8, progIf: bv8)
      requires Valid()
      modifies registers.data, registers.rwMask, registers.w1cMask
      ensures View() == old(View()).(cells :=
        old(View()).cells[CLASS := ReadOnly(class_)][SUBCLASS := ReadOnly(subclass)][PROG_IF := ReadOnly(progIf)])
    {
      registers.InitU8(CLASS, class_, 0, 0);
      registers.InitU8(SUBCLASS, subclass, 0, 0);
      registers.InitU8(PROG_IF, progIf, 0, 0);
    }

    method PlaceHeader(pointer: nat, offset: nat, id: bv8)
      requires Valid() && pointer < SIZE && offset < SIZE
      modifies registers.data, registers.rwMask, registers.w1cMask
      ensures registers.View() == old(registers.View())[pointer := ReadOnly(offset as bv8)][offset := ReadOnly(id)]
    {
      registers.InitU8(pointer, offset as bv8, 0, 0);
      registers.InitU8(offset, id, 0, 0);
    }

    /** A capability that reaches the last byte of the space, or beyond, ends the program. */
    method AddCapability(id: bv8, regs: RegisterSet)
      requires Valid() && regs.Valid() && Accepts(View(), Capability(id, regs.View())) && nextCapabilityOffset % 4 == 0
      requires regs.data != registers.data && regs.data != registers.rwMask && regs.data != registers.w1cMask
      requires regs.rwMask != registers.data && regs.rwMask != registers.rwMask && regs.rwMask != registers.w1cMask
      requires regs.w1cMask != registers.data && regs.w1cMask != registers.rwMask && regs.w1cMask != registers.w1cMask
      modifies this, registers.data, registers.rwMask, registers.w1cMask
      ensures View() == WithCapability(old(View()), Capability(id, old(regs.View())))
      ensures Ending() == old(Ending())
    {
      var offset := nextCapabilityOffset;
      var end := offset + HEADER_SIZE + regs.data.Length;
      nextCapabilityOffset := (end + 3) % 256 - (end + 3) % 256 % 4;
      PlaceHeader(lastCapabilityPointer, offset, id);
      registers.RegisterSetAt(offset + HEADER_SIZE, regs);
      lastCapabilityPointer := offset + 1;
    }

    method Build() returns (r: RegisterSet)
      requires Valid() && lastCapabilityPointer < SIZE
      requires MasksDisjoint(Finished(View(), Ending()))
      modifies registers.data, registers.rwMask, registers.w1cMask
      ensures r.Valid() && r.View() == Finished(old(View()), old(Ending()))
    {
      registers.InitU8(IRQ_LINE, interruptLine, 0xFF, 0);
      registers.InitU8(IRQ_PIN, interruptPin, 0, 0);
      registers.InitLe(STATUS, StatusWith(status, nextCapabilityOffset != INITIAL_CAPABILITY_OFFSET), 0, 0, 2);
      registers.InitU8(REVISION, revision, 0, 0);
      registers.InitU8(HEADER_TYPE, if multifunction then MULTIFUNCTION else 0, 0, 0);
      registers.InitU8(lastCapabilityPointer, 0, 0, 0);
      r := registers.Build();
    }
  }

  // ---------------------------------------------------------------------
  // Walking the chain
  // ---------------------------------------------------------------------

  /** The capability a pointer byte leads to; the low two bits do not count, zero ends the chain. */
  function PointerOf(b: bv8): nat { (b & 0xFC) as nat }

  function PointerAt(cells: Cells, at: nat): nat
    requires at < |cells|
  {
    PointerOf(cells[at].value)
  }

  lemma PointersLeaveRoom(b: bv8)
    ensures PointerOf(b) % 4 == 0 && PointerOf(b) <= 0xFC
  {
  }

  lemma MaskRoundsDown(v: bv8)
    ensures PointerOf(v) == v as nat - v as nat % 4
  {
  }

  /** An aligned offset survives the way through its pointer byte. */
  lemma PointerReadsBack(at: nat)
    requires at < 256 && at % 4 == 0
    ensures PointerOf(at as bv8) == at
  {
    BackAndForth(at as Byte);
    MaskRoundsDown(at as bv8);
  }

  /** At most `fuel` steps of the walk from the pointer byte at `at`. */
  function Walk(cells: Cells, at: nat, fuel: nat): seq<nat>
    requires |cells| == SIZE && at < SIZE
    decreases fuel
  {
    if fuel == 0 then []
    else
      PointersLeaveRoom(cells[at].value);
      var p := PointerAt(cells, at);
      if p == 0 then [] else [p] + Walk(cells, p + 1, fuel - 1)
  }

  class CapabilityIterator {
    const space: RegisterSet
    var capOffset: nat

    ghost predicate Valid()
      reads this
    {
      space.Valid() && space.data.Length == SIZE && capOffset < SIZE
    }

    constructor (space: RegisterSet)
      requires space.Valid() && space.data.Length == SIZE
      ensures Valid() && this.space == space && capOffset == CAPABILITIES_POINTER
    {
      this.space, capOffset := space, CAPABILITIES_POINTER;
    }

    method Next() returns (c: Option<nat>)
      requires Valid()
      modifies this
      ensures Valid()
      ensures old(capOffset) == 0 ==> c == None && capOffset == 0
      ensures old(capOffset) != 0 ==>
        var p := PointerAt(space.View(), old(capOffset));
        if p == 0 then c == None && capOffset == 0 else c == Some(p) && capOffset == p + 1
    {
      if capOffset == 0 {
        return None;
      }
      PointersLeaveRoom(space.data[capOffset]);
      var p := (space.data[capOffset] & 0xFC) as nat;
      if p == 0 {
        capOffset := 0;
        return None;
      }
      capOffset := p + 1;
      return Some(p);
    }
  }
}
