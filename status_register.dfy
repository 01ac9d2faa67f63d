/**
 * The processor status register P (K6502/StatusRegister.cs).
 *
 * Six flags are stored; the status byte lays them out as N V - B D I Z C with
 * bits 4 ("break") and 5 always read as 1. The flags as a value are `Flags`;
 * the class `StatusRegister` is the mutable register the CPU owns.
 */
module Status {
  import opened Bytes

  /** The stored flags, named by the bit they occupy in the status byte. */
  datatype FlagBit = CarryBit | ZeroBit | InterruptBit | DecimalBit | OverflowBit | NegativeBit
  {
    /** The bit position: C=0, Z=1, I=2, D=3, V=6, N=7. */
    function Position(): (k: nat)
      ensures k < 8 && k != 4 && k != 5
    {
      match this
      case CarryBit => 0
      case ZeroBit => 1
      case InterruptBit => 2
      case DecimalBit => 3
      case OverflowBit => 6
      case NegativeBit => 7
    }
  }

  /** The flag stored at bit `k`, the inverse of `Position`. */
  function FlagAt(k: nat): (f: FlagBit)
    requires k < 8 && k != 4 && k != 5
    ensures f.Position() == k
  {
    match k
    case 0 => CarryBit
    case 1 => ZeroBit
    case 2 => InterruptBit
    case 3 => DecimalBit
    case 6 => OverflowBit
    case _ => NegativeBit
  }

  datatype Flags = Flags(Carry: bool, Zero: bool, Interrupt: bool, Decimal: bool, Overflow: bool, Negative: bool)
  {
    /** The named getter. */
    function Get(f: FlagBit): bool
    {
      match f
      case CarryBit => Carry
      case ZeroBit => Zero
      case InterruptBit => Interrupt
      case DecimalBit => Decimal
      case OverflowBit => Overflow
      case NegativeBit => Negative
    }

    /** The named setter: assigns one flag and keeps the other five. */
    function With(f: FlagBit, value: bool): (r: Flags)
      ensures r.Get(f) == value
      ensures forall g :: g != f ==> r.Get(g) == Get(g)
    {
      match f
      case CarryBit => this.(Carry := value)
      case ZeroBit => this.(Zero := value)
      case InterruptBit => this.(Interrupt := value)
      case DecimalBit => this.(Decimal := value)
      case OverflowBit => this.(Overflow := value)
      case NegativeBit => this.(Negative := value)
    }

    /** Bit `k` of the status byte: the flag stored there, and 1 at bits 4 and 5. */
    function BitAt(k: nat): bool
      requires k < 8
    {
      if k == 4 || k == 5 then true else Get(FlagAt(k))
    }

    /** The bits of the status byte, bit 0 first. */
    function Bits(): (bits: seq<bool>)
      ensures |bits| == 8
    {
      [Carry, Zero, Interrupt, Decimal, true, true, Overflow, Negative]
    }

    /**
     * The `Byte` getter: each flag shifted to its bit, ORed with `1 << 4` and
     * `1 << 5`; the terms share no bit, so the OR is their sum.
     */
    function Byte(): Byte
    {
      assert Exp2(8) == 0x100;
      Pack(Bits())
    }
  }

  /** The flags the `Byte` setter and the constructor store for `value`: each flag is its bit. */
  function FromByte(value: Byte): Flags
  {
    Flags(And(value, 0x01) != 0, And(value, 0x02) != 0, And(value, 0x04) != 0, And(value, 0x08) != 0,
          And(value, 0x40) != 0, And(value, 0x80) != 0)
  }

  /** Each flag read back from a byte is the bit at its position, the same mapping for every flag. */
  lemma FromByteReadsPositions(value: Byte, f: FlagBit)
    ensures FromByte(value).Get(f) == BitSet(value, f.Position())
  {
  }

  /** `Bits` lists the same bits as `BitAt`. */
  lemma BitsAt(flags: Flags, k: nat)
    requires k < 8
    ensures flags.Bits()[k] == flags.BitAt(k)
  {
    if k == 4 || k == 5 {
    } else {
      assert flags.Get(FlagAt(k)) == flags.Bits()[FlagAt(k).Position()];
    }
  }

  /** Bit `k` of the status byte is the flag stored there, and bits 4 and 5 are set. */
  lemma ByteDigit(flags: Flags, k: nat)
    requires k < 8
    ensures Digit(flags.Byte(), k) <==> flags.BitAt(k)
  {
    DigitOfPack(flags.Bits(), k);
    BitsAt(flags, k);
  }

  /** The flags `FromByte` reads are the bits of the byte at the six flag positions. */
  lemma FromByteDigits(value: Byte)
    ensures FromByte(value) == Flags(Digit(value, 0), Digit(value, 1), Digit(value, 2), Digit(value, 3),
                                     Digit(value, 6), Digit(value, 7))
  {
    BitSetIsDigit(value, 0);
    BitSetIsDigit(value, 1);
    BitSetIsDigit(value, 2);
    BitSetIsDigit(value, 3);
    BitSetIsDigit(value, 6);
    BitSetIsDigit(value, 7);
  }

  /** The bits of the masks the status byte is combined with. */
  lemma MaskDigits(k: nat)
    requires k < 8
    ensures Digit(0x30, k) <==> k == 4 || k == 5
    ensures Digit(0xEF, k) <==> k != 4
    ensures Digit(0x20, k) <==> k == 5
  {
    if k == 0 {
    } else if k == 1 {
    } else if k == 2 {
    } else if k == 3 {
    } else if k == 4 {
    } else if k == 5 {
    } else if k == 6 {
    } else if k == 7 {
      assert Digit(0x30, 7) == Digit(0, 0);
      assert Digit(0xEF, 7) == Digit(1, 0);
      assert Digit(0x20, 7) == Digit(0, 0);
    }
  }

  /** Assigning one named flag changes the status byte at that flag's bit only. */
  lemma WithBits(flags: Flags, f: FlagBit, value: bool, k: nat)
    requires k < 8
    ensures flags.With(f, value).BitAt(k) == if k == f.Position() then value else flags.BitAt(k)
  {
  }

  /** The status byte always has bits 4 and 5 set. */
  lemma ByteHasBits45(flags: Flags)
    ensures And(flags.Byte(), 0x30) == 0x30
  {
    forall k | 0 <= k < 8
      ensures Digit(And(flags.Byte(), 0x30), k) <==> Digit(0x30, k)
    {
      DigitOfBitwise(flags.Byte(), 0x30, k);
      ByteDigit(flags, k);
      MaskDigits(k);
    }
    BytesByDigits(And(flags.Byte(), 0x30), 0x30);
  }

  /** Reading `Byte` after assigning `Byte := b` gives `b | 0x30`. */
  lemma ByteRoundTrip(b: Byte)
    ensures FromByte(b).Byte() == Or(b, 0x30)
  {
    FromByteDigits(b);
    forall k | 0 <= k < 8
      ensures Digit(FromByte(b).Byte(), k) <==> Digit(Or(b, 0x30), k)
    {
      ByteDigit(FromByte(b), k);
      DigitOfBitwise(b, 0x30, k);
      MaskDigits(k);
    }
    BytesByDigits(FromByte(b).Byte(), Or(b, 0x30));
  }

  /** `Byte := Byte` leaves every flag as it was. */
  lemma FlagsRoundTrip(flags: Flags)
    ensures FromByte(flags.Byte()) == flags
  {
    FromByteDigits(flags.Byte());
    ByteDigit(flags, 0);
    ByteDigit(flags, 1);
    ByteDigit(flags, 2);
    ByteDigit(flags, 3);
    ByteDigit(flags, 6);
    ByteDigit(flags, 7);
  }

  /**
   * The byte an interrupt pushes, `Byte & 0xEF`, has bit 4 clear and bit 5
   * set, and pulling it back restores every flag.
   */
  lemma BreakClearedByte(flags: Flags)
    ensures And(And(flags.Byte(), 0xEF), 0x30) == 0x20
    ensures FromByte(And(flags.Byte(), 0xEF)) == flags
  {
    var pushed := And(flags.Byte(), 0xEF);
    forall k | 0 <= k < 8
      ensures (Digit(pushed, k) <==> flags.BitAt(k) && k != 4)
      ensures Digit(And(pushed, 0x30), k) <==> Digit(0x20, k)
    {
      DigitOfBitwise(flags.Byte(), 0xEF, k);
      DigitOfBitwise(pushed, 0x30, k);
      ByteDigit(flags, k);
      MaskDigits(k);
    }
    BytesByDigits(And(pushed, 0x30), 0x20);
    FromByteDigits(pushed);
  }

  /** The bits of the byte after assigning one flag: that flag's bit is the new value, the others stay. */
  lemma ByteDigitsWith(flags: Flags, f: FlagBit, value: bool)
    ensures forall k :: 0 <= k < 8 ==>
      (Digit(flags.With(f, value).Byte(), k) <==> if k == f.Position() then value else Digit(flags.Byte(), k))
  {
    forall k | 0 <= k < 8
      ensures Digit(flags.With(f, value).Byte(), k) <==> if k == f.Position() then value else Digit(flags.Byte(), k)
    {
      ByteDigit(flags.With(f, value), k);
      ByteDigit(flags, k);
      WithBits(flags, f, value, k);
    }
  }

  /** Setting one named flag sets only its bit of `Byte`. */
  lemma SettingFlagSetsOnlyItsBit(flags: Flags, f: FlagBit)
    ensures flags.With(f, true).Byte() == Or(flags.Byte(), Pow2(f.Position()))
  {
    ByteDigitsWith(flags, f, true);
    SetMaskByDigits(flags.With(f, true).Byte(), flags.Byte(), f.Position());
  }

  /** Clearing one named flag clears only its bit of `Byte`. */
  lemma ClearingFlagClearsOnlyItsBit(flags: Flags, f: FlagBit)
    ensures flags.With(f, false).Byte() == And(flags.Byte(), AllBut(f.Position()))
  {
    ByteDigitsWith(flags, f, false);
    ClearMaskByDigits(flags.With(f, false).Byte(), flags.Byte(), f.Position());
  }

  /** From a register built with 0, setting one flag reads back `(1 << pos) | 0x30`. */
  lemma SetOneFlagFromZero(f: FlagBit)
    ensures FromByte(0).With(f, true).Byte() == Or(Pow2(f.Position()), 0x30)
  {
    ByteRoundTrip(0);
    OrFacts(0x30, Pow2(f.Position()));
    SettingFlagSetsOnlyItsBit(FromByte(0), f);
  }

  /** OR-ing in bits 4 and 5 leaves a byte with one of the named flags' bits clear unchanged. */
  lemma OneColdHasBits45(f: FlagBit)
    ensures Or(AllBut(f.Position()), 0x30) == AllBut(f.Position())
  {
    var p := f.Position();
    var cold := AllBut(p);
    forall k | 0 <= k < 8
      ensures Digit(Or(cold, 0x30), k) <==> Digit(cold, k)
    {
      DigitOfCombine(OrOp, cold, 0x30, 8, k);
      OneColdDigits(p, k);
      MaskDigits(k);
    }
    BytesByDigits(Or(cold, 0x30), cold);
  }

  /** A register built with 0xFF has every flag set. */
  lemma FromOnes()
    ensures FromByte(0xFF) == Flags(true, true, true, true, true, true)
  {
    FromByteDigits(0xFF);
    DigitsOfFF(0);
    DigitsOfFF(1);
    DigitsOfFF(2);
    DigitsOfFF(3);
    DigitsOfFF(6);
    DigitsOfFF(7);
  }

  /** Clearing one flag of a register with every flag set leaves all the other bits set. */
  lemma ClearOneFlagFromAllSet(f: FlagBit)
    ensures Flags(true, true, true, true, true, true).With(f, false).Byte() == Or(AllBut(f.Position()), 0x30)
  {
    var ones := Flags(true, true, true, true, true, true);
    var cold := AllBut(f.Position());
    forall k | 0 <= k < 8
      ensures Digit(ones.Byte(), k) <==> Digit(0xFF, k)
    {
      ByteDigit(ones, k);
      DigitsOfFF(k);
    }
    BytesByDigits(ones.Byte(), 0xFF);
    ClearingFlagClearsOnlyItsBit(ones, f);
    AndIdentities(cold);
    OneColdHasBits45(f);
  }

  /** From a register built with 0xFF, clearing one flag reads back `~(1 << pos) | 0x30`. */
  lemma ClearOneFlagFromOnes(f: FlagBit)
    ensures FromByte(0xFF).With(f, false).Byte() == Or(AllBut(f.Position()), 0x30)
  {
    FromOnes();
    ClearOneFlagFromAllSet(f);
  }

  /** A register built with a one-hot byte has exactly that flag set. */
  lemma OneHotGetters(f: FlagBit, g: FlagBit)
    ensures FromByte(Pow2(f.Position())).Get(g) == (g == f)
  {
    FromByteReadsPositions(Pow2(f.Position()), g);
    BitSetIsDigit(Pow2(f.Position()), g.Position());
    OneHotDigits(f.Position(), g.Position());
  }

  /** A register built with a one-cold byte has exactly that flag clear. */
  lemma OneColdGetters(f: FlagBit, g: FlagBit)
    ensures FromByte(AllBut(f.Position())).Get(g) == (g != f)
  {
    FromByteReadsPositions(AllBut(f.Position()), g);
    BitSetIsDigit(AllBut(f.Position()), g.Position());
    OneColdDigits(f.Position(), g.Position());
  }

  /** The register object: six flag fields the CPU assigns one at a time. */
  class StatusRegister {
    var Carry: bool
    var Zero: bool
    var Interrupt: bool
    var Decimal: bool
    var Overflow: bool
    var Negative: bool

    /** The six fields as a value. */
    function View(): Flags
      reads this
    {
      Flags(Carry, Zero, Interrupt, Decimal, Overflow, Negative)
    }

    /** The `Byte` getter. */
    function Byte(): Byte
      reads this
    {
      View().Byte()
    }

    /** `new StatusRegister(initial)`: each flag is its bit of `initial`. */
    constructor(initial: Byte)
      ensures View() == FromByte(initial)
    {
      Carry := And(initial, 0x01) != 0;
      Zero := And(initial, 0x02) != 0;
      Interrupt := And(initial, 0x04) != 0;
      Decimal := And(initial, 0x08) != 0;
      Overflow := And(initial, 0x40) != 0;
      Negative := And(initial, 0x80) != 0;
    }

    /** The `Byte` setter: bits 4 and 5 of `value` are ignored. */
    method SetByte(value: Byte)
      modifies this
      ensures View() == FromByte(value)
      ensures Byte() == Or(value, 0x30)
    {
      Carry := And(value, 0x01) != 0;
      Zero := And(value, 0x02) != 0;
      Interrupt := And(value, 0x04) != 0;
      Decimal := And(value, 0x08) != 0;
      Overflow := And(value, 0x40) != 0;
      Negative := And(value, 0x80) != 0;
      ByteRoundTrip(value);
    }

    /** Assigning one named flag field. */
    method Set(f: FlagBit, value: bool)
      modifies this
      ensures View() == old(View()).With(f, value)
    {
      match f
      case CarryBit => Carry := value;
      case ZeroBit => Zero := value;
      case InterruptBit => Interrupt := value;
      case DecimalBit => Decimal := value;
      case OverflowBit => Overflow := value;
      case NegativeBit => Negative := value;
    }
  }
}
