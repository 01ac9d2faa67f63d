/**
 * The memory components (K6502/Memory.cs, K6502/MirroredMemory.cs).
 *
 * A `Memory` owns a byte array as large as its address range and is indexed
 * by absolute address; a `MirroredMemory` reuses the same array and
 * constructors but reduces the offset modulo its mirror size, so several
 * addresses share a cell. Both drop writes while `IsReadOnly` is set, which
 * every component starts with clear (K6502/Component.cs:8).
 */
module Memories {
  import opened Bytes
  import opened Extensions

  /**
   * The contents the data constructor leaves: the first `min(|data|, size)`
   * bytes of `data`, then zeros.
   */
  function Loaded(size: nat, data: seq<Byte>): seq<Byte>
  {
    seq(size, i requires 0 <= i < size => if i < |data| then data[i] else 0)
  }

  /** The loaded contents start with a copy of `data` (as much as fits) and are zero after it. */
  lemma LoadedContents(size: nat, data: seq<Byte>)
    ensures |Loaded(size, data)| == size
    ensures size <= |data| ==> Loaded(size, data) == data[..size]
    ensures size > |data| ==> Loaded(size, data)[..|data|] == data
    ensures forall i :: |data| <= i < size ==> Loaded(size, data)[i] == 0
  {
    if size <= |data| {
      assert forall i :: 0 <= i < size ==> Loaded(size, data)[i] == data[..size][i];
    } else {
      assert forall i :: 0 <= i < |data| ==> Loaded(size, data)[..|data|][i] == data[i];
    }
  }

  /**
   * The copy loop of the data constructor: copies `data[i]` into `cells[i]`
   * and stops at whichever of the two ends first.
   */
  method CopyData(cells: array<Byte>, data: seq<Byte>)
    requires forall i :: 0 <= i < cells.Length ==> cells[i] == 0
    modifies cells
    ensures cells[..] == Loaded(cells.Length, data)
  {
    var i := 0;
    while i < |data|
      invariant 0 <= i <= |data| && i <= cells.Length
      invariant forall k :: 0 <= k < cells.Length ==> cells[k] == if k < i then data[k] else 0
    {
      if i >= cells.Length {
        break;
      }
      cells[i] := data[i];
      i := i + 1;
    }
  }

  /** A flat memory region: address `a` is cell `a - Start`. */
  class Memory {
    const AddressRange: Range
    const memory: array<Byte>
    var IsReadOnly: bool

    /** The array is exactly as large as the address range. */
    predicate Valid()
    {
      memory.Length == AddressRange.Size()
    }

    /** `new Memory(addressRange)`: a zero-filled, writable region. */
    constructor(addressRange: Range)
      requires addressRange.Size() >= 0
      ensures AddressRange == addressRange && Valid() && fresh(memory)
      ensures memory[..] == Loaded(addressRange.Size(), []) && !IsReadOnly
    {
      AddressRange := addressRange;
      memory := new Byte[addressRange.Size()](_ => 0);
      IsReadOnly := false;
    }

    /** `new Memory(addressRange, data)`: as above, then the copy loop. */
    constructor WithData(addressRange: Range, data: seq<Byte>)
      requires addressRange.Size() >= 0
      ensures AddressRange == addressRange && Valid() && fresh(memory)
      ensures memory[..] == Loaded(addressRange.Size(), data) && !IsReadOnly
    {
      AddressRange := addressRange;
      memory := new Byte[addressRange.Size()](_ => 0);
      IsReadOnly := false;
      new;
      CopyData(memory, data);
    }

    /** The indexer's getter. */
    function Read(address: Word): Byte
      requires Valid() && InRange(address, AddressRange)
      reads memory
    {
      InRangeIndexIsValid(AddressRange, address);
      memory[address - AddressRange.Start]
    }

    /**
     * The indexer's setter: a writable region stores `value` in the cell of
     * `address` and nowhere else; a read-only one changes nothing.
     */
    method Write(address: Word, value: Byte)
      requires Valid() && InRange(address, AddressRange)
      modifies memory
      ensures IsReadOnly ==> memory[..] == old(memory[..])
      ensures !IsReadOnly ==> memory[..] == old(memory[..])[address - AddressRange.Start := value]
      ensures !IsReadOnly ==> Read(address) == value
      ensures forall a: Word :: InRange(a, AddressRange) && a != address ==> Read(a) == old(Read(a))
    {
      InRangeIndexIsValid(AddressRange, address);
      if !IsReadOnly {
        memory[address - AddressRange.Start] := value;
      }
    }
  }

  /** The cell a mirrored region uses for an address at `offset` past its start. */
  function MirrorIndex(offset: nat, mirrorSize: nat): (k: nat)
    requires mirrorSize > 0
    ensures k < mirrorSize
  {
    offset % mirrorSize
  }

  /** Addresses one mirror apart share a cell. */
  lemma MirrorAliases(offset: nat, mirrorSize: nat)
    requires mirrorSize > 0
    ensures MirrorIndex(offset + mirrorSize, mirrorSize) == MirrorIndex(offset, mirrorSize)
  {
    var q, r := offset / mirrorSize, offset % mirrorSize;
    assert offset + mirrorSize == (q + 1) * mirrorSize + r;
    var q', r' := (offset + mirrorSize) / mirrorSize, (offset + mirrorSize) % mirrorSize;
    assert offset + mirrorSize == q' * mirrorSize + r';
    if q' > q + 1 {
      ProductGap(q + 1, q', mirrorSize);
      assert false;
    } else if q' < q + 1 {
      ProductGap(q', q + 1, mirrorSize);
      assert false;
    }
  }

  /** Multiples of `m` that differ are at least `m` apart. */
  lemma ProductGap(a: int, b: int, m: int)
    requires a < b && m > 0
    ensures a * m + m <= b * m
  {
    assert b * m - a * m == (b - a) * m;
    AtLeastOnce(b - a, m);
  }

  /** A positive multiple of `m` is at least `m`. */
  lemma {:induction false} AtLeastOnce(d: nat, m: nat)
    requires d >= 1
    ensures d * m >= m
  {
    if d > 1 {
      AtLeastOnce(d - 1, m);
      assert d * m == (d - 1) * m + m;
    }
  }

  /**
   * A region whose first `MirrorSize` cells repeat over its whole address
   * range (and past it, since the indexer checks no upper end).
   */
  class MirroredMemory {
    const AddressRange: Range
    const memory: array<Byte>
    const MirrorSize: int
    var IsReadOnly: bool

    /**
     * The array is as large as the address range, and the mirror fits in it;
     * the source does not check the latter, and indexing fails without it.
     */
    predicate Valid()
    {
      memory.Length == AddressRange.Size() && 0 < MirrorSize <= memory.Length
    }

    /** `new MirroredMemory(addressRange, mirrorSize)` */
    constructor(addressRange: Range, mirrorSize: int)
      requires 0 < mirrorSize <= addressRange.Size()
      ensures AddressRange == addressRange && MirrorSize == mirrorSize && Valid() && fresh(memory)
      ensures memory[..] == Loaded(addressRange.Size(), []) && !IsReadOnly
    {
      AddressRange := addressRange;
      MirrorSize := mirrorSize;
      memory := new Byte[addressRange.Size()](_ => 0);
      IsReadOnly := false;
    }

    /** `new MirroredMemory(addressRange, data, mirrorSize)`: the initial contents are those of `Memory`. */
    constructor WithData(addressRange: Range, data: seq<Byte>, mirrorSize: int)
      requires 0 < mirrorSize <= addressRange.Size()
      ensures AddressRange == addressRange && MirrorSize == mirrorSize && Valid() && fresh(memory)
      ensures memory[..] == Loaded(addressRange.Size(), data) && !IsReadOnly
    {
      AddressRange := addressRange;
      MirrorSize := mirrorSize;
      memory := new Byte[addressRange.Size()](_ => 0);
      IsReadOnly := false;
      new;
      CopyData(memory, data);
    }

    /** The cell of `address`: `(address - Start) % MirrorSize`. */
    function Index(address: Word): (k: nat)
      requires Valid() && address >= AddressRange.Start
      ensures k < memory.Length
    {
      MirrorIndex(address - AddressRange.Start, MirrorSize)
    }

    /** The indexer's getter. */
    function Read(address: Word): Byte
      requires Valid() && address >= AddressRange.Start
      reads memory
    {
      memory[Index(address)]
    }

    /**
     * The indexer's setter: a writable region stores `value` in the cell of
     * `address`, so every address sharing that cell, such as
     * `address + MirrorSize`, reads it back; a read-only one changes nothing.
     */
    method Write(address: Word, value: Byte)
      requires Valid() && address >= AddressRange.Start
      modifies memory
      ensures IsReadOnly ==> memory[..] == old(memory[..])
      ensures !IsReadOnly ==> memory[..] == old(memory[..])[Index(address) := value]
      ensures !IsReadOnly ==> forall a: Word :: a >= AddressRange.Start && Index(a) == Index(address) ==> Read(a) == value
      ensures !IsReadOnly && address + MirrorSize < 0x1_0000 ==> Read(address + MirrorSize) == value
      ensures forall a: Word :: a >= AddressRange.Start && Index(a) != Index(address) ==> Read(a) == old(Read(a))
    {
      if !IsReadOnly {
        memory[Index(address)] := value;
      }
      MirrorAliases(address - AddressRange.Start, MirrorSize);
    }
  }
}
