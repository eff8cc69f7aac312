/** The TRB formats the rings and transfers need. */
module Trbs {
  import opened Bytes
  import opened CycleRings
  import opened Modular
  import opened Wrappers

  const NORMAL: nat := 1
  const LINK: nat := 6
  const EVENT_DATA: nat := 7
  const NO_OP: nat := 8
  const TRANSFER_EVENT: nat := 32
  const COMMAND_COMPLETION_EVENT: nat := 33
  const PORT_STATUS_CHANGE_EVENT: nat := 34

  /** Completion codes by their number in the event. */
  datatype CompletionCode = CompletionCode(code: Byte)

  const SUCCESS := CompletionCode(1)
  const USB_TRANSACTION_ERROR := CompletionCode(4)
  const STALL_ERROR := CompletionCode(6)
  const SHORT_PACKET := CompletionCode(13)
  const CONTEXT_STATE_ERROR := CompletionCode(19)

  function TrbType(t: Trb): nat { t[13] as nat / 4 }

  // ---------------------------------------------------------------------
  // Events
  // ---------------------------------------------------------------------

  datatype EventTrb =
    | TransferEvent(
        trbPointer: nat, residue: nat, code: CompletionCode, eventData: bool, endpointId: Byte, slotId: Byte)
    | CommandCompletion(commandPointer: nat, parameter: nat, code: CompletionCode, slotId: Byte)
    | PortStatusChange(portId: Byte)

  /** The field widths the event constructors promise. */
  predicate FitsFields(e: EventTrb) {
    match e
    case TransferEvent(p, r, _, _, _, _) => p < TWO_64 && r < 0x100_0000
    case CommandCompletion(p, c, _, _) => p < TWO_64 && p % 16 == 0 && c < 0x100_0000
    case PortStatusChange(_) => true
  }

  function Flag(b: bool): Byte { if b then 1 else 0 }

  function EventBytes(e: EventTrb): (t: Trb) {
    match e
    case TransferEvent(p, r, code, ed, endpoint, slot) =>
      ToLe(p, 8) + ToLe(r, 3) + [code.code, Flag(ed) * 4, (TRANSFER_EVENT * 4) as Byte, endpoint, slot]
    case CommandCompletion(p, c, code, slot) =>
      ToLe(p, 8) + ToLe(c, 3) + [code.code, 0, (COMMAND_COMPLETION_EVENT * 4) as Byte, 0, slot]
    case PortStatusChange(port) =>
      [0, 0, 0, port, 0, 0, 0, 0, 0, 0, 0, 1, 0, (PORT_STATUS_CHANGE_EVENT * 4) as Byte, 0, 0]
  }

  /** Bit 0 of byte 12 belongs to the ring, not to the event. */
  function Stamp(t: Trb, cycle: bool): (r: Trb) {
    t[12 := t[12] - t[12] % 2 + Flag(cycle)]
  }

  function ToBytes(e: EventTrb, cycle: bool): (t: Trb) {
    Stamp(EventBytes(e), cycle)
  }

  lemma StampSetsCycle(t: Trb, cycle: bool)
    ensures CycleBit(Stamp(t, cycle)) == cycle
  {
  }

  /** What a driver reads out of an event, by the TRB types of section 6.4.6 of the xHCI specification. */
  function ReadEvent(t: Trb): Option<EventTrb> {
    if t[13] / 4 == 32 then
      Some(TransferEvent(FromLe(t[..8]), FromLe(t[8..11]), CompletionCode(t[11]), Bit(t[12] as nat, 2), t[14], t[15]))
    else if t[13] / 4 == 33 then
      Some(CommandCompletion(FromLe(t[..8]), FromLe(t[8..11]), CompletionCode(t[11]), t[15]))
    else if t[13] / 4 == 34 then Some(PortStatusChange(t[3]))
    else None
  }

  /** The driver reads back exactly the event that was sent, whatever the cycle bit. */
  lemma EventRoundTrip(e: EventTrb, cycle: bool)
    requires FitsFields(e)
    ensures ReadEvent(ToBytes(e, cycle)) == Some(e)
  {
    var t := ToBytes(e, cycle);
    SmallPowers();
    match e
    case TransferEvent(p, r, code, ed, endpoint, slot) =>
      LeRoundTrip(p, 8);
      LeRoundTrip(r, 3);
      assert t[..8] == ToLe(p, 8) && t[8..11] == ToLe(r, 3);
    case CommandCompletion(p, c, code, slot) =>
      LeRoundTrip(p, 8);
      LeRoundTrip(c, 3);
      assert t[..8] == ToLe(p, 8) && t[8..11] == ToLe(c, 3);
    case PortStatusChange(port) =>
  }

  /** The sixteen bytes of each event, by section 6.4.2 of the xHCI specification: what is reserved is zero. */
  lemma EventLayout(e: EventTrb, cycle: bool)
    ensures ToBytes(e, cycle) ==
      match e
      case TransferEvent(p, r, code, ed, endpoint, slot) =>
        ToLe(p, 8) + ToLe(r, 3) + [code.code, Flag(cycle) + (if ed then 4 else 0), 128, endpoint, slot]
      case CommandCompletion(p, c, code, slot) => ToLe(p, 8) + ToLe(c, 3) + [code.code, Flag(cycle), 132, 0, slot]
      case PortStatusChange(port) => [0, 0, 0, port, 0, 0, 0, 0, 0, 0, 0, 1, Flag(cycle), 136, 0, 0]
  {
  }

  // ---------------------------------------------------------------------
  // Link TRBs
  // ---------------------------------------------------------------------

  datatype LinkTrb = LinkTrb(segmentPointer: nat, toggleCycle: bool, interruptOnCompletion: bool)

  function ParseLink(t: Trb): Option<LinkTrb> {
    if TrbType(t) != LINK then None
    else
      var p := FromLe(t[..8]);
      Some(LinkTrb(p - p % 16, Bit(t[12] as nat, 1), Bit(t[12] as nat, 5)))
  }

  /** A link, TRB type 6, as a driver writes it. */
  function LinkBytes(l: LinkTrb, cycle: bool): Trb {
    ToLe(l.segmentPointer, 8) + [0, 0, 0, 0]
      + [Flag(cycle) + 2 * Flag(l.toggleCycle) + 32 * Flag(l.interruptOnCompletion), 6 * 4, 0, 0]
  }

  /** Every aligned link a driver writes is read back, with its cycle bit. */
  lemma LinkRoundTrip(l: LinkTrb, cycle: bool)
    requires l.segmentPointer < TWO_64 && l.segmentPointer % 16 == 0
    ensures ParseLink(LinkBytes(l, cycle)) == Some(l) && CycleBit(LinkBytes(l, cycle)) == cycle
  {
    var t := LinkBytes(l, cycle);
    SmallPowers();
    LeRoundTrip(l.segmentPointer, 8);
    assert t[..8] == ToLe(l.segmentPointer, 8);
    ControlBits(cycle, l.toggleCycle, false, false, l.interruptOnCompletion);
  }

  /** The bits of the control byte, each where the formats have it. */
  lemma ControlBits(b0: bool, b1: bool, b2: bool, b4: bool, b5: bool)
    ensures var n := Flag(b0) as nat + 2 * Flag(b1) as nat + 4 * Flag(b2) as nat
                     + 16 * Flag(b4) as nat + 32 * Flag(b5) as nat;
      && n < 64 && Bit(n, 0) == b0 && Bit(n, 1) == b1 && Bit(n, 2) == b2 && Bit(n, 4) == b4 && Bit(n, 5) == b5
  {
    var h4 := Flag(b4) as nat + 2 * Flag(b5) as nat;
    var h2 := Flag(b2) as nat + 4 * h4;
    var h1 := Flag(b1) as nat + 2 * h2;
    var n := Flag(b0) as nat + 2 * h1;
    assert Bit(h4, 0) == b4 && Bit(h4, 1) == b5;
    assert Bit(h2, 0) == b2 && Bit(h2, 2) == Bit(h2 / 2, 1) == Bit(h2 / 2 / 2, 0) && Bit(h2, 3) == Bit(h2 / 2, 2) ==
      Bit(h2 / 2 / 2, 1);
    assert Bit(n, 1) == Bit(h1, 0) && Bit(n, 2) == Bit(h1, 1) == Bit(h2, 0);
    assert Bit(n, 4) == Bit(h1, 3) == Bit(h2, 2) && Bit(n, 5) == Bit(h1, 4) == Bit(h2, 3);
  }

  lemma LinkPointerIsAligned(t: Trb)
    requires ParseLink(t).Some?
    ensures ParseLink(t).value.segmentPointer % 16 == 0 && ParseLink(t).value.segmentPointer < TWO_64
  {
    FromLeBound(t[..8]);
    SmallPowers();
  }

  // ---------------------------------------------------------------------
  // Transfer TRBs
  // ---------------------------------------------------------------------

  datatype TransferTrb =
    | Normal(dataPointer: nat, length: nat, chain: bool, ioc: bool, isp: bool)
    | EventData(chain: bool)
    | NoOp(chain: bool, ioc: bool)
    | Unsupported

  /** The IN endpoint supports three kinds of TRB; the rest is refused as a TRB error. */
  function ParseTransfer(t: Trb): TransferTrb {
    if TrbType(t) == NORMAL then
      Normal(FromLe(t[..8]), t[8] as nat + 256 * t[9] as nat + 65536 * (t[10] as nat % 2),
             Bit(t[12] as nat, 4), Bit(t[12] as nat, 5), Bit(t[12] as nat, 2))
    else if TrbType(t) == EVENT_DATA then EventData(Bit(t[12] as nat, 4))
    else if TrbType(t) == NO_OP then NoOp(Bit(t[12] as nat, 4), Bit(t[12] as nat, 5))
    else Unsupported
  }

  /** Normal and No Op TRBs, types 1 and 8, as a driver writes them. */
  function TransferBytes(v: TransferTrb, cycle: bool): Trb
    requires v.Normal? || v.NoOp?
  {
    match v
    case Normal(p, n, chain, ioc, isp) =>
      ToLe(p, 8) + ToLe(n, 3) + [0]
        + [Flag(cycle) + 4 * Flag(isp) + 16 * Flag(chain) + 32 * Flag(ioc), 1 * 4, 0, 0]
    case NoOp(chain, ioc) =>
      [0, 0, 0, 0, 0, 0, 0, 0, 0, 0, 0, 0]
        + [Flag(cycle) + 16 * Flag(chain) + 32 * Flag(ioc), 8 * 4, 0, 0]
  }

  /** Every Normal or No Op TRB a driver writes is read back, with its cycle bit. */
  lemma TransferRoundTrip(v: TransferTrb, cycle: bool)
    requires v.NoOp? || (v.Normal? && v.dataPointer < TWO_64 && v.length < 0x2_0000)
    ensures ParseTransfer(TransferBytes(v, cycle)) == v && CycleBit(TransferBytes(v, cycle)) == cycle
  {
    if v.Normal? { NormalRoundTrip(v, cycle); } else { NoOpRoundTrip(v, cycle); }
  }

  lemma NoOpRoundTrip(v: TransferTrb, cycle: bool)
    requires v.NoOp?
    ensures ParseTransfer(TransferBytes(v, cycle)) == v && CycleBit(TransferBytes(v, cycle)) == cycle
  {
    var t := TransferBytes(v, cycle);
    assert t[12] == Flag(cycle) + 16 * Flag(v.chain) + 32 * Flag(v.ioc) && t[13] == 8 * 4;
    ControlBits(cycle, false, false, v.chain, v.ioc);
  }

  lemma NormalRoundTrip(v: TransferTrb, cycle: bool)
    requires v.Normal? && v.dataPointer < TWO_64 && v.length < 0x2_0000
    ensures ParseTransfer(TransferBytes(v, cycle)) == v && CycleBit(TransferBytes(v, cycle)) == cycle
  {
    var t, length := TransferBytes(v, cycle), ToLe(v.length, 3);
    SmallPowers();
    LeRoundTrip(v.dataPointer, 8);
    assert t[..8] == ToLe(v.dataPointer, 8);
    ThreeBytes(v.length);
    assert t[8] == length[0] && t[9] == length[1] && t[10] == length[2];
    ControlBits(cycle, false, v.isp, v.chain, v.ioc);
  }

  lemma {:induction false} ThreeBytes(n: nat)
    requires n < 0x2_0000
    ensures var b := ToLe(n, 3); b[0] as nat + 256 * b[1] as nat + 65536 * (b[2] as nat % 2) == n
  {
    assert ToLe(n, 3) == [(n % 256) as Byte] + ToLe(n / 256, 2);
    assert ToLe(n / 256, 2) == [(n / 256 % 256) as Byte] + ToLe(n / 256 / 256, 1);
    assert ToLe(n / 256 / 256, 1) == [(n / 256 / 256 % 256) as Byte] + ToLe(n / 256 / 256 / 256, 0);
  }

  /** Each kind by its type number; whatever else a driver puts into the other bytes changes nothing. */
  lemma TransferKinds(t: Trb, u: Trb)
    ensures var kind, v := t[13] / 4, ParseTransfer(t);
      && (v.Normal? <==> kind == 1) && (v.EventData? <==> kind == 7) && (v.NoOp? <==> kind == 8)
      && (ParseLink(t).Some? <==> kind == 6)
      && (v.EventData? ==> (v.chain <==> t[12] / 16 % 2 == 1))
    ensures t[12..14] == u[12..14] && !ParseTransfer(t).Normal? ==> ParseTransfer(u) == ParseTransfer(t)
    ensures t[..11] == u[..11] && t[12..14] == u[12..14] ==> ParseTransfer(u) == ParseTransfer(t)
    ensures t[..8] == u[..8] && t[12..14] == u[12..14] ==> ParseLink(u) == ParseLink(t)
  {
    var n := t[12] as nat;
    assert Bit(n, 4) == Bit(n / 2, 3) == Bit(n / 2 / 2, 2) == Bit(n / 2 / 2 / 2, 1) == Bit(n / 2 / 2 / 2 / 2, 0);
    if t[12..14] == u[12..14] {
      assert t[12] == t[12..14][0] == u[12] && t[13] == t[12..14][1] == u[13];
    }
    if t[..11] == u[..11] {
      assert t[8] == t[..11][8] == u[8] && t[9] == t[..11][9] == u[9] && t[10] == t[..11][10] == u[10];
      assert t[..8] == t[..11][..8] == u[..8];
    }
  }

  /** A single TRB asks for at most 128 KiB less one byte, so no residue overflows its 24-bit field. */
  lemma NormalLengthFits(t: Trb)
    requires ParseTransfer(t).Normal?
    ensures ParseTransfer(t).length < 0x2_0000 && ParseTransfer(t).dataPointer < TWO_64
  {
    FromLeBound(t[..8]);
    SmallPowers();
  }

  // ---------------------------------------------------------------------
  // Set TR Dequeue Pointer
  // ---------------------------------------------------------------------

  /** Pointer and cycle state of a Set TR Dequeue Pointer command; the low four bits carry no address. */
  function ParseSetTrDequeuePointer(t: Trb): (nat, bool) {
    (FromLe([t[0] - t[0] % 16] + t[1..8]), Bit(t[0] as nat, 0))
  }

  /** An aligned pointer and a cycle state come out of the command as they were put in. */
  lemma {:induction false} SetTrDequeuePointerRoundTrip(t: Trb, pointer: nat, cycle: bool)
    requires pointer % 16 == 0 && pointer < TWO_64 && t[..8] == ToLe(pointer + Flag(cycle) as nat, 8)
    ensures ParseSetTrDequeuePointer(t) == (pointer, cycle)
  {
    var bits := pointer + Flag(cycle) as nat;
    FlagUnderPointer(pointer, Flag(cycle) as nat);
    SmallPowers();
    LeRoundTrip(bits, 8);
    assert t[0] == t[..8][0] == ToLe(bits, 8)[0] == (bits % 256) as Byte;
    SetTrDequeuePointerIsAligned(t);
  }

  lemma FlagUnderPointer(pointer: nat, flag: nat)
    requires pointer % 16 == 0 && pointer < TWO_64 && flag < 2
    ensures pointer + flag < TWO_64 && (pointer + flag) % 16 == flag && (pointer + flag) % 256 % 2 == flag
  {
    var k := pointer / 16;
    assert pointer == 16 * k;
  }

  lemma SetTrDequeuePointerIsAligned(t: Trb)
    ensures ParseSetTrDequeuePointer(t).0 % 16 == 0 && ParseSetTrDequeuePointer(t).0 < TWO_64
    ensures ParseSetTrDequeuePointer(t).0 == FromLe(t[..8]) - FromLe(t[..8]) % 16
  {
    var low, rest := t[0] - t[0] % 16, FromLe(t[1..8]);
    var bytes := [low] + t[1..8];
    FromLeBound(bytes);
    SmallPowers();
    assert bytes[1..] == t[1..8] && t[..8][1..] == t[1..8];
    AlignedLowByte(t[0] as nat, rest);
  }

  /** Dropping the low four bits of the first byte drops them from the number. */
  lemma AlignedLowByte(b: nat, rest: nat)
    ensures var low := b - b % 16; var aligned := low + 256 * rest; var whole := b + 256 * rest;
      aligned % 16 == 0 && aligned == whole - whole % 16
  {
    var q := b / 16 + 16 * rest;
    Uniquely(b - b % 16 + 256 * rest, 16, q, 0);
    Uniquely(b + 256 * rest, 16, q, b % 16);
  }
}
