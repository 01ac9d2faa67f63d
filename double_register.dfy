/**
 * The 16-bit registers PC and Address (K6502/DoubleRegister.cs).
 *
 * The source overlays a ushort `Whole` on two bytes with explicit field
 * offsets; on a little-endian machine `Lower` is the low byte. Here the
 * ushort is the stored state and the two halves are views of it: `Lower` is
 * `Whole % 0x100` and `Upper` is `Whole / 0x100`, and writing one half
 * rebuilds `Whole` from the new half and the old other half.
 */
module Registers {
  import opened Bytes

  datatype DoubleRegister = DoubleRegister(Whole: Word)
  {
    /** The low byte of the overlay. */
    function Lower(): Byte
    {
      Whole % 0x100
    }

    /** The high byte of the overlay. */
    function Upper(): Byte
    {
      Whole / 0x100
    }

    /** `Lower = b`: the high byte is kept. */
    function WithLower(b: Byte): (r: DoubleRegister)
      ensures r.Lower() == b && r.Upper() == Upper()
      ensures r.Whole == Upper() * 0x100 + b
    {
      Halves(b, Upper())
    }

    /** `Upper = b`: the low byte is kept. */
    function WithUpper(b: Byte): (r: DoubleRegister)
      ensures r.Upper() == b && r.Lower() == Lower()
      ensures r.Whole == b * 0x100 + Lower()
    {
      Halves(Lower(), b)
    }

    /** `Whole++` on a ushort. */
    function Increment(): (r: DoubleRegister)
      ensures r.Whole == (Whole + 1) % 0x1_0000
    {
      DoubleRegister((Whole + 1) % 0x1_0000)
    }

    /** `Lower += n`: byte arithmetic with no carry into Upper. */
    function AddToLower(n: int): (r: DoubleRegister)
      ensures r.Upper() == Upper() && r.Lower() == ToByte(Lower() + n)
      ensures r.Whole == Upper() * 0x100 + (Lower() + n) % 0x100
    {
      WithLower(ToByte(Lower() + n))
    }
  }

  /** The register whose halves are `lo` and `hi`. */
  function Halves(lo: Byte, hi: Byte): (r: DoubleRegister)
    ensures r.Lower() == lo && r.Upper() == hi
    ensures r.Whole == hi * 0x100 + lo
  {
    HalvesOfWord(hi, lo);
    DoubleRegister(hi * 0x100 + lo)
  }

  /** The word `hi * 0x100 + lo` splits back into `hi` and `lo`. */
  lemma HalvesOfWord(hi: Byte, lo: Byte)
    ensures 0 <= hi * 0x100 + lo < 0x1_0000
    ensures (hi * 0x100 + lo) % 0x100 == lo && (hi * 0x100 + lo) / 0x100 == hi
  {
  }

  /** A register is determined by its two halves. */
  lemma HalvesOfRegister(r: DoubleRegister)
    ensures Halves(r.Lower(), r.Upper()) == r
  {
  }

  /** `Whole++` with Lower below 0xFF increments Lower alone. */
  lemma IncrementWithoutCarry(r: DoubleRegister)
    requires r.Lower() != 0xFF
    ensures r.Increment() == Halves(r.Lower() + 1, r.Upper())
  {
  }

  /**
   * `Whole++` with Lower at 0xFF sets Lower to 0 and carries into Upper,
   * which itself wraps 0xFF to 0 (0xFFFF becomes 0x0000).
   */
  lemma IncrementWithCarry(r: DoubleRegister)
    requires r.Lower() == 0xFF
    ensures r.Increment() == Halves(0, ToByte(r.Upper() + 1))
  {
    if r.Upper() == 0xFF {
      assert r.Whole == 0xFFFF;
    } else {
      assert r.Whole + 1 == (r.Upper() + 1) * 0x100;
    }
  }

  /** Two `Whole++` move the register on by two, modulo 0x10000. */
  lemma IncrementTwice(r: DoubleRegister)
    ensures r.Increment().Increment().Whole == (r.Whole + 2) % 0x1_0000
  {
  }
}
