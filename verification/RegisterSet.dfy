/** Register files with read-only, writable and write-one-to-clear bits. */
module RegisterSets {
  import opened Bytes

  /** One byte of a register file: its value, the bits a guest may set, and the bits it clears by writing ones. */
  datatype Cell = Cell(value: bv8, rw: bv8, w1c: bv8)

  type Cells = seq<Cell>

  function WrittenBits(c: Cell, b: bv8): bv8 { ((c.value & !c.rw) | (b & c.rw)) & !(b & c.w1c) }

  function BytesOf(value: nat, n: nat): (r: seq<bv8>)
    ensures |r| == n
  {
    var le := ToLe(value, n);
    seq(n, i requires 0 <= i < n => le[i] as bv8)
  }

  /** A guest's write of some bytes. */
  function Written(cells: Cells, at: nat, bytes: seq<bv8>): (r: Cells)
    ensures |r| == |cells|
  {
    seq(|cells|, i requires 0 <= i < |cells| =>
      if at <= i < at + |bytes| then cells[i].(value := WrittenBits(cells[i], bytes[i - at])) else cells[i])
  }

  /** The device's own write, past all masks. */
  function Stored(cells: Cells, at: nat, bytes: seq<bv8>): (r: Cells)
    ensures |r| == |cells|
  {
    seq(|cells|, i requires 0 <= i < |cells| =>
      if at <= i < at + |bytes| then cells[i].(value := bytes[i - at]) else cells[i])
  }

  /** The little-endian number in `n` bytes. */
  function NumberAt(cells: Cells, at: nat, n: nat): nat
    requires at + n <= |cells|
    decreases n
  {
    if n == 0 then 0 else cells[at].value as nat + 256 * NumberAt(cells, at + 1, n - 1)
  }

  function ReadOnly(b: bv8): Cell { Cell(b, 0, 0) }

  /** `a` and `b` as little-endian bytes with little-endian masks. */
  function LeCells(value: nat, rw: nat, w1c: nat, n: nat): (r: Cells)
    ensures |r| == n
  {
    seq(n, i requires 0 <= i < n => Cell(BytesOf(value, n)[i], BytesOf(rw, n)[i], BytesOf(w1c, n)[i]))
  }

  /** Three arrays of the same length that do not share their elements. */
  ghost predicate Separate(data: array<bv8>, rwMask: array<bv8>, w1cMask: array<bv8>) {
    && data.Length == rwMask.Length == w1cMask.Length
    && data != rwMask && data != w1cMask && rwMask != w1cMask
  }

  /** Values and masks, byte by byte. */
  ghost function CellsOf(data: array<bv8>, rwMask: array<bv8>, w1cMask: array<bv8>): (r: Cells)
    reads data, rwMask, w1cMask
    requires data.Length == rwMask.Length == w1cMask.Length
    ensures |r| == data.Length
  {
    seq(data.Length, i requires 0 <= i < data.Length reads data, rwMask, w1cMask =>
      Cell(data[i], rwMask[i], w1cMask[i]))
  }

  class RegisterSetBuilder {
    const data: array<bv8>
    const rwMask: array<bv8>
    const w1cMask: array<bv8>

    ghost predicate Valid() {
      Separate(data, rwMask, w1cMask)
    }

    ghost function View(): (r: Cells)
      reads data, rwMask, w1cMask
      requires Valid()
      ensures |r| == data.Length
    {
      CellsOf(data, rwMask, w1cMask)
    }

    /** All bits set and nothing writable. */
    constructor (size: nat)
      ensures Valid() && data.Length == size && fresh(data) && fresh(rwMask) && fresh(w1cMask)
      ensures View() == seq(size, i => ReadOnly(0xFF))
    {
      data := new bv8[size](_ => 0xFF);
      rwMask := new bv8[size](_ => 0);
      w1cMask := new bv8[size](_ => 0);
    }

    method InitU8(pos: nat, value: bv8, writeMask: bv8, w1c: bv8)
      requires Valid() && pos < data.Length
      modifies data, rwMask, w1cMask
      ensures View() == old(View())[pos := Cell(value, writeMask, w1c)]
    {
      data[pos], rwMask[pos], w1cMask[pos] := value, writeMask, w1c;
    }

    method InitLe(pos: nat, value: nat, writeMask: nat, w1c: nat, n: nat)
      requires Valid() && pos + n <= data.Length
      modifies data, rwMask, w1cMask
      ensures View() == Splice(old(View()), pos, LeCells(value, writeMask, w1c, n))
    {
      ghost var before, part := View(), LeCells(value, writeMask, w1c, n);
      for offset := 0 to n
        invariant View() == Splice(before, pos, part[..offset])
      {
        InitU8(pos + offset, BytesOf(value, n)[offset], BytesOf(writeMask, n)[offset], BytesOf(w1c, n)[offset]);
        SpliceGrows(before, pos, part, offset);
      }
      assert part[..n] == part;
    }

    method RegisterSetAt(pos: nat, regs: RegisterSet)
      requires Valid() && regs.Valid() && pos + regs.data.Length <= data.Length
      requires regs.data != data && regs.data != rwMask && regs.data != w1cMask
      requires regs.rwMask != data && regs.rwMask != rwMask && regs.rwMask != w1cMask
      requires regs.w1cMask != data && regs.w1cMask != rwMask && regs.w1cMask != w1cMask
      modifies data, rwMask, w1cMask
      ensures View() == Splice(old(View()), pos, regs.View())
    {
      forall i | 0 <= i < regs.data.Length { data[pos + i] := regs.data[i]; }
      forall i | 0 <= i < regs.data.Length { rwMask[pos + i] := regs.rwMask[i]; }
      forall i | 0 <= i < regs.data.Length { w1cMask[pos + i] := regs.w1cMask[i]; }
    }

    /** Overlapping masks are a mistake in the device and end the program. */
    method Build() returns (r: RegisterSet)
      requires Valid() && MasksDisjoint(View())
      ensures r.Valid() && r.View() == View()
      ensures fresh(r.data) && fresh(r.rwMask) && fresh(r.w1cMask)
    {
      r := new RegisterSet(data, rwMask, w1cMask);
    }
  }

  ghost predicate MasksDisjoint(cells: Cells) { forall i | 0 <= i < |cells| :: cells[i].rw & cells[i].w1c == 0 }

  lemma SpliceGrows(cells: Cells, at: nat, part: Cells, n: nat)
    requires at + |part| <= |cells| && n < |part|
    ensures Splice(cells, at, part[..n])[at + n := part[n]] == Splice(cells, at, part[..n + 1])
  {
  }

  lemma WrittenGrows(cells: Cells, at: nat, bytes: seq<bv8>, k: nat)
    requires at + k < |cells| && k < |bytes|
    ensures var r := Written(cells, at, bytes[..k]);
      && r[at + k] == cells[at + k]
      && Written(cells, at, bytes[..k + 1]) ==
           r[at + k := cells[at + k].(value := WrittenBits(cells[at + k], bytes[k]))]
  {
  }

  lemma StoredGrows(cells: Cells, at: nat, bytes: seq<bv8>, k: nat)
    requires at + k < |cells| && k < |bytes|
    ensures var r := Stored(cells, at, bytes[..k]);
      && r[at + k] == cells[at + k]
      && Stored(cells, at, bytes[..k + 1]) == r[at + k := cells[at + k].(value := bytes[k])]
  {
  }

  class RegisterSet {
    const data: array<bv8>
    const rwMask: array<bv8>
    const w1cMask: array<bv8>

    ghost predicate Valid() {
      Separate(data, rwMask, w1cMask)
    }

    ghost function View(): (r: Cells)
      reads data, rwMask, w1cMask
      requires Valid()
      ensures |r| == data.Length
    {
      CellsOf(data, rwMask, w1cMask)
    }

    /** A copy, standing on its own. */
    constructor (data: array<bv8>, rwMask: array<bv8>, w1cMask: array<bv8>)
      requires data.Length == rwMask.Length == w1cMask.Length
      ensures Valid() && fresh(this.data) && fresh(this.rwMask) && fresh(this.w1cMask)
      ensures this.data[..] == data[..] && this.rwMask[..] == rwMask[..] && this.w1cMask[..] == w1cMask[..]
    {
      var n := data.Length;
      this.data := new bv8[n](i requires 0 <= i < n reads data => data[i]);
      this.rwMask := new bv8[n](i requires 0 <= i < n reads rwMask => rwMask[i]);
      this.w1cMask := new bv8[n](i requires 0 <= i < n reads w1cMask => w1cMask[i]);
    }

    method WriteByte(off: nat, byte: bv8)
      requires Valid() && off < data.Length
      modifies data
      ensures View() == old(View())[off := old(View())[off].(value := WrittenBits(old(View())[off], byte))]
    {
      data[off] := data[off] & !rwMask[off];
      data[off] := data[off] | (byte & rwMask[off]);
      data[off] := data[off] & !(byte & w1cMask[off]);
    }

    /** A guest's access of one, two, four or eight bytes; it has to lie inside. */
    method Write(at: nat, size: nat, value: nat)
      requires Valid() && at + size <= data.Length && size <= 8
      modifies data
      ensures View() == Written(old(View()), at, BytesOf(value, 8)[..size])
    {
      var bytes := BytesOf(value, 8);
      for k := 0 to size
        invariant View() == Written(old(View()), at, bytes[..k])
      {
        WriteByte(at + k, bytes[k]);
        WrittenGrows(old(View()), at, bytes, k);
      }
    }

    method WriteDirect(at: nat, size: nat, value: nat)
      requires Valid() && at + size <= data.Length && size <= 8
      modifies data
      ensures View() == Stored(old(View()), at, BytesOf(value, 8)[..size])
    {
      var bytes := BytesOf(value, 8);
      for k := 0 to size
        invariant View() == Stored(old(View()), at, bytes[..k])
      {
        data[at + k] := bytes[k];
        StoredGrows(old(View()), at, bytes, k);
      }
    }

    method Read(at: nat, size: nat) returns (value: nat)
      requires Valid() && at + size <= data.Length && size <= 8
      ensures value == NumberAt(View(), at, size)
    {
      value := 0;
      var k := size;
      while k > 0
        invariant 0 <= k <= size
        invariant value == NumberAt(View(), at + k, size - k)
      {
        k := k - 1;
        value := data[at + k] as nat + 256 * value;
      }
    }
  }

  // ---------------------------------------------------------------------
  // What guests can and cannot do
  // ---------------------------------------------------------------------

  /** Bit by bit: fixed bits keep their value, writable ones take the new one, W1C ones are cleared by ones. */
  lemma WriteObeysMasks(c: Cell, b: bv8)
    requires c.rw & c.w1c == 0
    ensures var v := WrittenBits(c, b);
      && v & !(c.rw | c.w1c) == c.value & !(c.rw | c.w1c)
      && v & c.rw == b & c.rw
      && v & c.w1c == c.value & c.w1c & !b
  {
  }

  datatype Access = Access(at: nat, size: nat, value: nat)

  /** The register file after the first `n` of a guest's writes. */
  function AfterWrites(cells: Cells, ws: seq<Access>, n: nat): (r: Cells)
    requires n <= |ws| && forall i | 0 <= i < |ws| :: ws[i].size <= 8
    ensures |r| == |cells|
  {
    if n == 0 then cells
    else Written(AfterWrites(cells, ws, n - 1), ws[n - 1].at, BytesOf(ws[n - 1].value, 8)[..ws[n - 1].size])
  }

  /** Where a value may get to from `c`: fixed bits as they were, W1C bits only fallen. */
  predicate Reachable(c: Cell, v: bv8) {
    && v & !(c.rw | c.w1c) == c.value & !(c.rw | c.w1c)
    && v & c.w1c & !c.value == 0
  }

  /** `v` is `c` after some writes. */
  predicate Descends(c: Cell, v: Cell) { v == c.(value := v.value) && Reachable(c, v.value) }

  lemma DescendsFromItself(c: Cell)
    ensures Descends(c, c)
  {
  }

  lemma DescendsFurther(c: Cell, v: Cell, b: bv8)
    requires c.rw & c.w1c == 0 && Descends(c, v)
    ensures Descends(c, v.(value := WrittenBits(v, b)))
  {
  }

  /** Whatever a guest writes, however often: masks stay, fixed bits stay, W1C bits never come back. */
  lemma {:induction false} WritesKeepFixedBits(cells: Cells, ws: seq<Access>, n: nat, i: nat)
    requires MasksDisjoint(cells) && n <= |ws| && (forall k | 0 <= k < |ws| :: ws[k].size <= 8) && i < |cells|
    ensures Descends(cells[i], AfterWrites(cells, ws, n)[i])
  {
    if n == 0 {
      DescendsFromItself(cells[i]);
    } else {
      WritesKeepFixedBits(cells, ws, n - 1, i);
      var before, bytes := AfterWrites(cells, ws, n - 1), BytesOf(ws[n - 1].value, 8)[..ws[n - 1].size];
      assert AfterWrites(cells, ws, n) == Written(before, ws[n - 1].at, bytes);
      if ws[n - 1].at <= i < ws[n - 1].at + |bytes| {
        DescendsFurther(cells[i], before[i], bytes[i - ws[n - 1].at]);
      }
    }
  }

  /** A byte without writable or W1C bits never changes. */
  lemma {:induction false} ReadOnlyBytesStay(cells: Cells, ws: seq<Access>, n: nat, i: nat)
    requires MasksDisjoint(cells) && n <= |ws| && (forall k | 0 <= k < |ws| :: ws[k].size <= 8)
    requires i < |cells| && cells[i] == ReadOnly(cells[i].value)
    ensures AfterWrites(cells, ws, n)[i] == cells[i]
  {
    WritesKeepFixedBits(cells, ws, n, i);
    var v := AfterWrites(cells, ws, n)[i].value;
    assert v & !(0 | 0) == v && cells[i].value & !(0 | 0) == cells[i].value;
  }

  /** What the device stores it reads back, whatever the masks; masks and all other bytes stay. */
  lemma {:induction false} DirectWritesReadBack(cells: Cells, at: nat, value: nat, n: nat)
    requires at + n <= |cells| && value < Power256(n)
    ensures var r := Stored(cells, at, BytesOf(value, n));
      && NumberAt(r, at, n) == value
      && (forall i | 0 <= i < |cells| :: r[i].rw == cells[i].rw && r[i].w1c == cells[i].w1c)
      && (forall i | 0 <= i < |cells| && !(at <= i < at + n) :: r[i] == cells[i])
  {
    var r := Stored(cells, at, BytesOf(value, n));
    LeRoundTrip(value, n);
    NumberIsFromLe(r, at, ToLe(value, n));
  }

  lemma WritableTakesAll(c: Cell, b: bv8)
    requires c.rw == 0xFF && c.w1c == 0
    ensures WrittenBits(c, b) == b
  {
  }

  lemma {:induction false} ShorterNumber(value: nat, n: nat, m: nat)
    requires n <= m
    ensures ToLe(value, m)[..n] == ToLe(value, n)
  {
    if n > 0 { ShorterNumber(value / 256, n - 1, m - 1); }
  }

  /** Writable bytes read back as a guest wrote them, and a guest's write touches no mask and no other byte. */
  lemma {:induction false} GuestWritesReadBack(cells: Cells, at: nat, value: nat, n: nat)
    requires at + n <= |cells| && n <= 8 && value < Power256(n)
    ensures var r := Written(cells, at, BytesOf(value, 8)[..n]);
      && ((forall i | at <= i < at + n :: cells[i].rw == 0xFF && cells[i].w1c == 0) ==> NumberAt(r, at, n) == value)
      && (forall i | 0 <= i < |cells| :: r[i].rw == cells[i].rw && r[i].w1c == cells[i].w1c)
      && (forall i | 0 <= i < |cells| && !(at <= i < at + n) :: r[i] == cells[i])
  {
    var r := Written(cells, at, BytesOf(value, 8)[..n]);
    if forall i | at <= i < at + n :: cells[i].rw == 0xFF && cells[i].w1c == 0 {
      ShorterNumber(value, n, 8);
      forall i | at <= i < at + n ensures r[i].value == ToLe(value, n)[i - at] as bv8 {
        WritableTakesAll(cells[i], BytesOf(value, 8)[i - at]);
      }
      LeRoundTrip(value, n);
      NumberIsFromLe(r, at, ToLe(value, n));
    }
  }

  lemma {:induction false} NumberIsFromLe(cells: Cells, at: nat, bytes: seq<Byte>)
    requires at + |bytes| <= |cells|
    requires forall i | at <= i < at + |bytes| :: cells[i].value == bytes[i - at] as bv8
    ensures NumberAt(cells, at, |bytes|) == FromLe(bytes)
    decreases |bytes|
  {
    if bytes != [] {
      assert cells[at].value as nat == bytes[0] as nat by { BackAndForth(bytes[0]); }
      NumberIsFromLe(cells, at + 1, bytes[1..]);
    }
  }

  lemma BackAndForth(b: Byte)
    ensures (b as bv8) as nat == b as nat
  {
    if b < 128 {
      if b < 64 {} else {}
    } else {
      if b < 192 {} else {}
    }
  }
}
