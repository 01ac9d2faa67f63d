/**
 * The arithmetic and flag helpers of the CPU (K6502/K6502.cs:101-259), as
 * functions of their inputs: the byte they produce and the flags they leave.
 *
 * The source writes `x & 0x0f`, `x >> 4`, `x << 4` and `(t & 0x100) > 0` on
 * non-negative ints; they are written here as `x % 16`, `x / 16`, `x * 16` and
 * `t >= 0x100`, which agree with them on the values that occur.
 */
module Alu {
  import opened Bytes
  import opened Status

  /** A computed byte and the flags after computing it. */
  datatype Outcome = Outcome(Value: Byte, Flags: Flags)

  /**
   * `SetFlagsZN(val)`: Zero and Negative describe `val`; the value passes
   * through unchanged. The source tests `(val & 0x80) != 0`, which `ZNMeaning`
   * shows is the sign test used here.
   */
  function ZN(p: Flags, val: Byte): Flags
  {
    p.(Zero := val == 0, Negative := IsNegative(val))
  }

  /** Zero is set exactly for 0, Negative exactly for bit 7; the other flags are kept. */
  lemma ZNMeaning(p: Flags, val: Byte)
    ensures ZN(p, val).Zero <==> val == 0
    ensures ZN(p, val).Negative <==> BitSet(val, 7)
    ensures ZN(p, val).(Zero := p.Zero, Negative := p.Negative) == p
  {
    SignBit(val);
  }

  /** `DoCompare(reg, val)`: Carry is `reg >= val`, then Z/N from `(byte)(reg - val)`. */
  function Compare(p: Flags, reg: Byte, val: Byte): Flags
  {
    ZN(p.(Carry := reg >= val), ToByte(reg - val))
  }

  /** A compare sets Zero iff the operands are equal and Carry iff `reg >= val` unsigned, nothing else. */
  lemma CompareMeaning(p: Flags, reg: Byte, val: Byte)
    ensures Compare(p, reg, val).Zero <==> reg == val
    ensures Compare(p, reg, val).Carry <==> reg >= val
    ensures Compare(p, reg, val).Negative <==> ToByte(reg - val) >= 0x80
    ensures Compare(p, reg, val).(Zero := p.Zero, Negative := p.Negative, Carry := p.Carry) == p
  {
    ZNMeaning(p.(Carry := reg >= val), ToByte(reg - val));
  }

  /** `DoADC(val)` with accumulator `a`: decimal only when enabled AND the D flag is set. */
  function Adc(decimalEnabled: bool, a: Byte, val: Byte, p: Flags): Outcome
  {
    if decimalEnabled && p.Decimal then DecimalAdc(a, val, p) else BinaryAdc(a, val, p)
  }

  /** The decimal branch of `DoADC`: nibble sums with the +6 fixups. */
  function DecimalAdc(a: Byte, val: Byte, p: Flags): Outcome
  {
    var carry := if p.Carry then 1 else 0;
    var low := a % 16 + val % 16 + carry;
    var high := a / 16 + val / 16 + (if low > 9 then 1 else 0);
    var zero := ToByte(a + val + carry) == 0;
    var low' := if low > 9 then low + 6 else low;
    // N and V are taken after the low fixup and before the high one;
    // bit 7 of `high << 4` is bit 3 of `high`
    var negative := (high / 8) % 2 == 1;
    var overflow := ((high / 8) % 2 == 1) != (a >= 0x80) && (a >= 0x80) == (val >= 0x80);
    var high' := if high > 9 then high + 6 else high;
    Outcome((high' % 16) * 16 + low' % 16,
            p.(Zero := zero, Negative := negative, Overflow := overflow, Carry := high' > 15))
  }

  /** The binary branch of `DoADC`. */
  function BinaryAdc(a: Byte, val: Byte, p: Flags): Outcome
  {
    var carry := if p.Carry then 1 else 0;
    var unsignedSum := a + val + carry;
    var signedSum := Signed(a) + Signed(val) + carry;
    var result := ToByte(unsignedSum);
    Outcome(result, ZN(p.(Carry := unsignedSum > 255, Overflow := signedSum > 127 || signedSum < -128), result))
  }

  /** `DoSBC(val)` with accumulator `a`: the borrow is the complement of Carry. */
  function Sbc(decimalEnabled: bool, a: Byte, val: Byte, p: Flags): Outcome
  {
    if decimalEnabled && p.Decimal then DecimalSbc(a, val, p) else BinarySbc(a, val, p)
  }

  /** Carry and V of `DoSBC`, computed in binary in both modes. */
  function SbcFlags(a: Byte, val: Byte, p: Flags): Flags
  {
    var borrow := if p.Carry then 0 else 1;
    var uT := a - val - borrow;
    var sT := Signed(a) - Signed(val) - borrow;
    p.(Carry := !(uT > 255 || uT < 0), Overflow := sT > 127 || sT < -128)
  }

  /** The decimal branch of `DoSBC`: nibble differences with the -6 fixups. */
  function DecimalSbc(a: Byte, val: Byte, p: Flags): Outcome
  {
    var borrow := if p.Carry then 0 else 1;
    var low := ToByte(a % 16 - val % 16 - borrow);
    var high := ToByte(a / 16 - val / 16 - (if low > 0xF then 1 else 0));
    var low' := if low > 0xF then low - 6 else low;
    var high' := if high > 0xF then high - 6 else high;
    var result := (high' % 16) * 16 + low' % 16;
    Outcome(result, ZN(SbcFlags(a, val, p), result))
  }

  /** The binary branch of `DoSBC`. */
  function BinarySbc(a: Byte, val: Byte, p: Flags): Outcome
  {
    var borrow := if p.Carry then 0 else 1;
    var result := ToByte(a - val - borrow);
    Outcome(result, ZN(SbcFlags(a, val, p), result))
  }

  /**
   * The signed-overflow test of `DoADC` on `a + m + c`: the signed sum leaves
   * -128..127 exactly when both operands have the same sign and the result's
   * sign differs from it.
   */
  lemma AddOverflow(a: Byte, m: Byte, c: int)
    requires 0 <= c <= 1
    ensures var s := Signed(a) + Signed(m) + c;
      (s > 127 || s < -128) <==> IsNegative(a) == IsNegative(m) && IsNegative(ToByte(a + m + c)) != IsNegative(a)
  {
  }

  /** The signed-overflow test of `DoSBC` on `a - m - borrow`, stated the same way with the operand's sign flipped. */
  lemma SubtractOverflow(a: Byte, m: Byte, borrow: int)
    requires 0 <= borrow <= 1
    ensures var s := Signed(a) - Signed(m) - borrow;
      (s > 127 || s < -128) <==> IsNegative(a) != IsNegative(m) && IsNegative(ToByte(a - m - borrow)) != IsNegative(a)
  {
  }

  /** Binary ADC: the byte is the sum mod 256, Carry the unsigned overflow, V the signed overflow. */
  lemma BinaryAdcMeaning(decimalEnabled: bool, a: Byte, val: Byte, p: Flags)
    requires !(decimalEnabled && p.Decimal)
    ensures var c := if p.Carry then 1 else 0;
      var r := Adc(decimalEnabled, a, val, p);
      && r.Value == (a + val + c) % 256
      && (r.Flags.Carry <==> a + val + c >= 256)
      && (r.Flags.Overflow <==> IsNegative(a) == IsNegative(val) && IsNegative(r.Value) != IsNegative(a))
      && (r.Flags.Zero <==> r.Value == 0)
      && (r.Flags.Negative <==> IsNegative(r.Value))
      && r.Flags.(Carry := p.Carry, Overflow := p.Overflow, Zero := p.Zero, Negative := p.Negative) == p
  {
    AddOverflow(a, val, if p.Carry then 1 else 0);
  }

  /** Binary SBC: the byte is the difference mod 256, Carry is "no borrow", V the signed overflow. */
  lemma BinarySbcMeaning(decimalEnabled: bool, a: Byte, val: Byte, p: Flags)
    requires !(decimalEnabled && p.Decimal)
    ensures var borrow := if p.Carry then 0 else 1;
      var r := Sbc(decimalEnabled, a, val, p);
      && r.Value == (a - val - borrow) % 256
      && (r.Flags.Carry <==> a >= val + borrow)
      && (r.Flags.Overflow <==> IsNegative(a) != IsNegative(val) && IsNegative(r.Value) != IsNegative(a))
      && (r.Flags.Zero <==> r.Value == 0)
      && (r.Flags.Negative <==> IsNegative(r.Value))
  {
    SubtractOverflow(a, val, if p.Carry then 0 else 1);
  }

  /** `~m` read as a signed byte is `-m - 1`. */
  lemma SignedComplement(m: Byte)
    ensures Signed(0xFF - m) == -Signed(m) - 1
  {
  }

  /**
   * `a - m - (1 - c)` and `a + ~m + c` differ by 256: the same byte, and the
   * subtraction borrows exactly when the addition does not carry.
   */
  lemma ComplementSum(a: Byte, m: Byte, c: int)
    requires 0 <= c <= 1
    ensures ToByte(a - m - (1 - c)) == ToByte(a + (0xFF - m) + c)
    ensures !(a - m - (1 - c) > 255 || a - m - (1 - c) < 0) <==> a + (0xFF - m) + c > 255
  {
    assert a + (0xFF - m) + c == (a - m - (1 - c)) + 0x100;
  }

  /** Binary SBC is ADC of the operand's complement: `A - M - (1 - C) = A + ~M + C`. */
  lemma BinarySbcIsAdcOfComplement(decimalEnabled: bool, a: Byte, val: Byte, p: Flags)
    requires !(decimalEnabled && p.Decimal)
    ensures Sbc(decimalEnabled, a, val, p) == Adc(decimalEnabled, a, Xor(val, 0xFF), p)
  {
    XorFFIsComplement(val);
    SignedComplement(val);
    ComplementSum(a, val, if p.Carry then 1 else 0);
  }

  /** The value of a byte read as two binary-coded decimal digits. */
  function Decimal(b: Byte): nat
  {
    (b / 16) * 10 + b % 16
  }

  /** Both nibbles are decimal digits. */
  predicate IsBcd(b: Byte)
  {
    b / 16 <= 9 && b % 16 <= 9
  }

  /** The BCD byte of a number below 100. */
  function ToBcd(n: nat): (b: Byte)
    requires n < 100
    ensures IsBcd(b) && Decimal(b) == n
  {
    (n / 10) * 16 + n % 10
  }

  /** Two decimal digits make the BCD byte with those nibbles. */
  lemma DigitsToBcd(h: int, l: int, n: nat)
    requires 0 <= h <= 9 && 0 <= l <= 9 && n == 10 * h + l
    ensures ToBcd(n) == h * 16 + l
  {
    assert n / 10 == h && n % 10 == l;
  }

  /**
   * Adding two two-digit decimals digit by digit, carrying 1 into the tens
   * when the units pass 9, gives the sum mod 100, and the tens pass 9 exactly
   * when the sum reaches 100.
   */
  lemma AddDigitwise(ah: int, al: int, vh: int, vl: int, c: int, n: int)
    requires 0 <= ah <= 9 && 0 <= al <= 9 && 0 <= vh <= 9 && 0 <= vl <= 9 && 0 <= c <= 1
    requires n == 10 * ah + al + 10 * vh + vl + c
    ensures var low := al + vl + c;
      var high := ah + vh + (if low > 9 then 1 else 0);
      && n % 100 == 10 * (if high > 9 then high - 10 else high) + (if low > 9 then low - 10 else low)
      && ToBcd(n % 100) == (if high > 9 then high - 10 else high) * 16 + (if low > 9 then low - 10 else low)
      && (n >= 100 <==> high > 9)
  {
    var low := al + vl + c;
    var high := ah + vh + (if low > 9 then 1 else 0);
    var lowDigit := if low > 9 then low - 10 else low;
    assert n == 10 * high + lowDigit;
    if high > 9 {
      assert n == 100 + 10 * (high - 10) + lowDigit;
    }
    DigitsToBcd(if high > 9 then high - 10 else high, lowDigit, n % 100);
  }

  /**
   * Subtracting digit by digit, borrowing 1 from the tens when the units go
   * negative, gives the difference mod 100, and the tens stay non-negative
   * exactly when the difference does.
   */
  lemma SubtractDigitwise(ah: int, al: int, vh: int, vl: int, b: int, n: int)
    requires 0 <= ah <= 9 && 0 <= al <= 9 && 0 <= vh <= 9 && 0 <= vl <= 9 && 0 <= b <= 1
    requires n == 10 * ah + al - 10 * vh - vl - b
    ensures var low := al - vl - b;
      var high := ah - vh - (if low < 0 then 1 else 0);
      && n % 100 == 10 * (if high < 0 then high + 10 else high) + (if low < 0 then low + 10 else low)
      && ToBcd(n % 100) == (if high < 0 then high + 10 else high) * 16 + (if low < 0 then low + 10 else low)
      && (n >= 0 <==> high >= 0)
  {
    var low := al - vl - b;
    var high := ah - vh - (if low < 0 then 1 else 0);
    var lowDigit := if low < 0 then low + 10 else low;
    assert n == 10 * high + lowDigit;
    if high < 0 {
      assert n == -100 + 10 * (high + 10) + lowDigit;
    }
    DigitsToBcd(if high < 0 then high + 10 else high, lowDigit, n % 100);
  }

  /** The +6 fixup of `DoADC` on a digit sum up to 19: the nibble left is the sum's units, and it passes 15 exactly when the sum passes 9. */
  lemma AddFixup(x: int)
    requires 0 <= x <= 19
    ensures (if x > 9 then x + 6 else x) % 16 == (if x > 9 then x - 10 else x)
    ensures (if x > 9 then x + 6 else x) > 15 <==> x > 9
  {
  }

  /**
   * The -6 fixup of `DoSBC` on a digit difference from -10 to 9, taken as a
   * byte: the nibble left is the difference brought back into 0..9, and the
   * byte passes 0xF exactly when the difference is negative.
   */
  lemma SubtractFixup(x: int)
    requires -10 <= x <= 9
    ensures var t := ToByte(x); (if t > 0xF then t - 6 else t) % 16 == (if x < 0 then x + 10 else x)
    ensures ToByte(x) > 0xF <==> x < 0
  {
    assert ToByte(x) == if x < 0 then x + 0x100 else x;
  }

  /** The decimal ADC byte is the two digit sums with their tens dropped; Carry is the tens of the high sum. */
  lemma DecimalAdcDigits(a: Byte, val: Byte, p: Flags)
    requires IsBcd(a) && IsBcd(val)
    ensures var c := if p.Carry then 1 else 0;
      var low := a % 16 + val % 16 + c;
      var high := a / 16 + val / 16 + (if low > 9 then 1 else 0);
      && DecimalAdc(a, val, p).Value == (if high > 9 then high - 10 else high) * 16 + (if low > 9 then low - 10 else low)
      && (DecimalAdc(a, val, p).Flags.Carry <==> high > 9)
  {
    var c := if p.Carry then 1 else 0;
    var low := a % 16 + val % 16 + c;
    AddFixup(low);
    AddFixup(a / 16 + val / 16 + (if low > 9 then 1 else 0));
  }

  /** The decimal SBC byte is the two digit differences, each brought back into 0..9. */
  lemma DecimalSbcDigits(a: Byte, val: Byte, p: Flags)
    requires IsBcd(a) && IsBcd(val)
    ensures var borrow := if p.Carry then 0 else 1;
      var low := a % 16 - val % 16 - borrow;
      var high := a / 16 - val / 16 - (if low < 0 then 1 else 0);
      DecimalSbc(a, val, p).Value == (if high < 0 then high + 10 else high) * 16 + (if low < 0 then low + 10 else low)
  {
    var borrow := if p.Carry then 0 else 1;
    var low := a % 16 - val % 16 - borrow;
    SubtractFixup(low);
    SubtractFixup(a / 16 - val / 16 - (if low < 0 then 1 else 0));
  }

  /** The decimal ADC branch on BCD operands: the sum mod 100 as BCD, carrying out at 100. */
  lemma DecimalAdcSum(a: Byte, val: Byte, p: Flags)
    requires IsBcd(a) && IsBcd(val)
    ensures var c := if p.Carry then 1 else 0;
      && DecimalAdc(a, val, p).Value == ToBcd((Decimal(a) + Decimal(val) + c) % 100)
      && (DecimalAdc(a, val, p).Flags.Carry <==> Decimal(a) + Decimal(val) + c >= 100)
  {
    DecimalAdcDigits(a, val, p);
    AddDigitwise(a / 16, a % 16, val / 16, val % 16, if p.Carry then 1 else 0, Decimal(a) + Decimal(val) + (if p.Carry then 1 else 0));
  }

  /** On valid BCD operands, decimal ADC adds the two decimal numbers and the carry, mod 100, carrying out at 100. */
  lemma DecimalAdcAddsBcd(a: Byte, val: Byte, p: Flags)
    requires p.Decimal && IsBcd(a) && IsBcd(val)
    ensures var c := if p.Carry then 1 else 0;
      var r := Adc(true, a, val, p);
      && r.Value == ToBcd((Decimal(a) + Decimal(val) + c) % 100)
      && (r.Flags.Carry <==> Decimal(a) + Decimal(val) + c >= 100)
  {
    DecimalAdcSum(a, val, p);
  }

  /** The decimal SBC branch on BCD operands: the difference mod 100 as BCD. */
  lemma DecimalSbcDifference(a: Byte, val: Byte, p: Flags)
    requires IsBcd(a) && IsBcd(val)
    ensures var borrow := if p.Carry then 0 else 1;
      DecimalSbc(a, val, p).Value == ToBcd((Decimal(a) - Decimal(val) - borrow) % 100)
  {
    DecimalSbcDigits(a, val, p);
    SubtractDigitwise(a / 16, a % 16, val / 16, val % 16, if p.Carry then 0 else 1, Decimal(a) - Decimal(val) - (if p.Carry then 0 else 1));
  }

  /** On valid BCD operands, decimal SBC subtracts the decimal numbers and the borrow, mod 100. */
  lemma DecimalSbcSubtractsBcd(a: Byte, val: Byte, p: Flags)
    requires p.Decimal && IsBcd(a) && IsBcd(val)
    ensures var borrow := if p.Carry then 0 else 1;
      var r := Sbc(true, a, val, p);
      && r.Value == ToBcd((Decimal(a) - Decimal(val) - borrow) % 100)
      && (r.Flags.Carry <==> Decimal(a) >= Decimal(val) + borrow)
  {
    DecimalSbcDifference(a, val, p);
    DecimalSbcCarry(a, val, p);
  }

  /** Decimal SBC computes Carry in binary, and on BCD operands that is still "no decimal borrow". */
  lemma DecimalSbcCarry(a: Byte, val: Byte, p: Flags)
    requires IsBcd(a) && IsBcd(val)
    ensures var borrow := if p.Carry then 0 else 1;
      DecimalSbc(a, val, p).Flags.Carry <==> Decimal(a) >= Decimal(val) + borrow
  {
    var borrow := if p.Carry then 0 else 1;
    var d, e := a / 16 - val / 16, a % 16 - val % 16 - borrow;
    assert a - val - borrow == 16 * d + e;
    assert Decimal(a) - Decimal(val) - borrow == 10 * d + e;
    assert 16 * d + e >= 0 <==> 10 * d + e >= 0 by {
      if d > 0 {
      } else if d < 0 {
      }
    }
  }

  /** The flags the decimal-mode vectors start from: Decimal set, everything else clear, then Carry. */
  function DecimalFixture(carry: bool): Flags
  {
    Flags(carry, false, false, true, false, false)
  }

  /** An expected outcome: (result, N, V, Z, C). */
  predicate Gives(r: Outcome, value: Byte, n: bool, v: bool, z: bool, c: bool)
  {
    r.Value == value && r.Flags.Negative == n && r.Flags.Overflow == v && r.Flags.Zero == z && r.Flags.Carry == c
  }

  /** The decimal ADC vectors (A, operand, carry in) -> (sum, N, V, Z, C). */
  lemma DecimalAdcVectors()
    ensures Gives(Adc(true, 0x00, 0x00, DecimalFixture(false)), 0x00, false, false, true, false)
    ensures Gives(Adc(true, 0x79, 0x00, DecimalFixture(true)), 0x80, true, true, false, false)
    ensures Gives(Adc(true, 0x24, 0x56, DecimalFixture(false)), 0x80, true, true, false, false)
    ensures Gives(Adc(true, 0x93, 0x82, DecimalFixture(false)), 0x75, false, true, false, true)
    ensures Gives(Adc(true, 0x89, 0x76, DecimalFixture(false)), 0x65, false, false, false, true)
    ensures Gives(Adc(true, 0x89, 0x76, DecimalFixture(true)), 0x66, false, false, true, true)
  {
  }

  /** The decimal ADC vectors whose operands are not valid BCD: the fixups still run nibble by nibble. */
  lemma DecimalAdcInvalidBcdVectors()
    ensures Gives(Adc(true, 0x80, 0xf0, DecimalFixture(false)), 0xd0, false, true, false, true)
    ensures Gives(Adc(true, 0x80, 0xfa, DecimalFixture(false)), 0xe0, true, false, false, true)
    ensures Gives(Adc(true, 0x2f, 0x4f, DecimalFixture(false)), 0x74, false, false, false, false)
    ensures Gives(Adc(true, 0x6f, 0x00, DecimalFixture(true)), 0x76, false, false, false, false)
  {
  }

  /** The decimal SBC vectors (A, operand, carry in) -> (difference, N, V, Z, C). */
  lemma DecimalSbcVectors()
    ensures Gives(Sbc(true, 0x00, 0x00, DecimalFixture(false)), 0x99, true, false, false, false)
    ensures Gives(Sbc(true, 0x00, 0x00, DecimalFixture(true)), 0x00, false, false, true, true)
    ensures Gives(Sbc(true, 0x00, 0x01, DecimalFixture(true)), 0x99, true, false, false, false)
    ensures Gives(Sbc(true, 0x0a, 0x00, DecimalFixture(true)), 0x0a, false, false, false, true)
    ensures Gives(Sbc(true, 0x0b, 0x00, DecimalFixture(false)), 0x0a, false, false, false, true)
    ensures Gives(Sbc(true, 0x9a, 0x00, DecimalFixture(true)), 0x9a, true, false, false, true)
    ensures Gives(Sbc(true, 0x9b, 0x00, DecimalFixture(false)), 0x9a, true, false, false, true)
  {
    assert Signed(0x9a) == -102;
    assert DecimalSbc(0x9a, 0x00, DecimalFixture(true)).Value == 0x9a;
    assert DecimalSbc(0x9b, 0x00, DecimalFixture(false)).Value == 0x9a;
  }

  /** With decimal mode disabled, the D flag has no effect on ADC or SBC. */
  lemma DecimalFlagIgnoredWhenDisabled(a: Byte, val: Byte, p: Flags)
    ensures Adc(false, a, val, p) == Adc(false, a, val, p.(Decimal := false)).(Flags := Adc(false, a, val, p.(Decimal := false)).Flags.(Decimal := p.Decimal))
    ensures Sbc(false, a, val, p) == Sbc(false, a, val, p.(Decimal := false)).(Flags := Sbc(false, a, val, p.(Decimal := false)).Flags.(Decimal := p.Decimal))
  {
  }

  /** `DoASL`: shift left, bit 7 into Carry, 0 into bit 0. */
  function Asl(p: Flags, val: Byte): Outcome
  {
    var t := val * 2;
    var result := ToByte(t);
    Outcome(result, ZN(p.(Carry := t >= 0x100), result))
  }

  /** `DoROL`: shift left, bit 7 into Carry, the old Carry into bit 0. */
  function Rol(p: Flags, val: Byte): Outcome
  {
    var t := val * 2 + (if p.Carry then 1 else 0);
    var result := ToByte(t);
    Outcome(result, ZN(p.(Carry := t >= 0x100), result))
  }

  /** `DoLSR`: shift right, bit 0 into Carry, 0 into bit 7. */
  function Lsr(p: Flags, val: Byte): Outcome
  {
    var result := val / 2;
    Outcome(result, ZN(p.(Carry := val % 2 == 1), result))
  }

  /** `DoROR`: shift right, bit 0 into Carry, the old Carry into bit 7. */
  function Ror(p: Flags, val: Byte): Outcome
  {
    var result := val / 2 + (if p.Carry then 0x80 else 0);
    Outcome(result, ZN(p.(Carry := val % 2 == 1), result))
  }

  /** ASL is ROL with a clear Carry, and LSR is ROR with a clear Carry: both shift in 0. */
  lemma ShiftsShiftInZero(p: Flags, val: Byte)
    ensures Asl(p, val) == Rol(p.(Carry := false), val)
    ensures Lsr(p, val) == Ror(p.(Carry := false), val)
    ensures Asl(p, val).Value % 2 == 0 && Lsr(p, val).Value < 0x80
    ensures Asl(p, val).Flags.Carry == IsNegative(val) && Lsr(p, val).Flags.Carry == (val % 2 == 1)
  {
  }

  /** ROR undoes ROL: the byte and the Carry both come back. */
  lemma RorUndoesRol(p: Flags, val: Byte)
    ensures var r := Rol(p, val); var back := Ror(r.Flags, r.Value);
      back.Value == val && back.Flags.Carry == p.Carry
  {
  }

  /** ROL undoes ROR. */
  lemma RolUndoesRor(p: Flags, val: Byte)
    ensures var r := Ror(p, val); var back := Rol(r.Flags, r.Value);
      back.Value == val && back.Flags.Carry == p.Carry
  {
    assert val == 2 * (val / 2) + val % 2;
  }
}
